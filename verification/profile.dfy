/** The profile schema: one datatype per record of the static profile. */
module Profile {
  import opened Optional

  datatype Experience = Experience(role: string, company: string, period: string, description: seq<string>)

  datatype Skill = Skill(category: string, items: seq<string>)

  datatype Education = Education(degree: string, institution: string, period: string)

  datatype Certificate = Certificate(name: string, issuer: string, date: string)

  datatype Project = Project(
    name: string,
    date: string,
    description: string,
    team: Option<seq<string>>,
    technologies: Option<seq<string>>,
    url: Option<string>,
    thumbnail: Option<string>)

  datatype Language = Language(name: string, level: string)

  datatype Link = Link(name: string, url: string)

  datatype Contact = Contact(email: string, linkedin: Option<string>, github: Option<string>, telefone: Option<string>)

  datatype ProfileData = ProfileData(
    name: string,
    title: string,
    imageUrl: Option<string>,
    about: seq<string>,
    contact: Contact,
    resumeUrl: string,
    experience: seq<Experience>,
    skills: seq<Skill>,
    education: seq<Education>,
    certificates: seq<Certificate>,
    projects: seq<Project>,
    languages: seq<Language>,
    links: seq<Link>)
}
