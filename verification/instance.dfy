/** The repository's own profile record as one concrete instance, and
    sanity checks of the interpreter, the search filter and the history on
    concrete inputs. */
module Instance {
  import opened Optional
  import opened Ascii
  import opened Substrings
  import opened Search
  import opened Interpreter
  import opened Profile
  import R = Recall

  const MaisAlimentos: Project := Project(
    "Mais Alimemtos",
    "jun. 2014",
    "Evolução de sistema para o Ministério do Desenvolvimento Agrário utilizando PHP, ZendFramework, HTML5, Bootstrap, e PostgreSQL.",
    Some(["Ederson Ferreira", "Pedro H. Alarcão", "Glédson Sousa", "Paulo Cesar Goncalves"]),
    Some(["PHP", "ZendFramework", "HTML5", "Bootstrap", "PostgreSQL"]),
    None,
    Some("./maisAlimentos.png"))

  const Kleiton: ProfileData := ProfileData(
    "Kleiton Souza",
    "Desenvolvedor Fullstack | Laravel & React.js | Criando Soluções Escaláveis com Foco em Performance e Resultados",
    Some("/profile-terminal/FotoPerfilHome.png"),
    KleitonAbout,
    KleitonContact,
    "./Kleiton-Souza-Curriculo.pdf",
    KleitonExperience,
    KleitonSkills,
    KleitonEducation,
    KleitonCertificates,
    KleitonProjects,
    KleitonLanguages,
    KleitonLinks)

  const KleitonAbout: seq<string> :=
    [
      "🚀 Desenvolvedor Fullstack com mais de 4 anos de experiência especializado na construção e otimização de aplicações web robustas e escaláveis.",
      "Movido pela paixão em transformar desafios complexos em soluções técnicas elegantes e eficientes que impulsionam o sucesso dos negócios.",
      "Minha expertise é concentrada no ecossistema PHP (Laravel, Zend Framework) para o backend e JavaScript (React.js, Node.js, TypeScript) para o frontend e aplicações fullstack.",
      "Possuo sólida experiência em integração de APIs RESTful, gestão de bancos de dados relacionais (MySQL, PostgreSQL) e implementação de práticas modernas de desenvolvimento."
    ]

  const KleitonContact: Profile.Contact :=
    Profile.Contact(
      "kleiton.ads@hotmail.com",
      Some("https://www.linkedin.com/in/kleitonsouzaads/"),
      Some("https://github.com/kleitonADS/"),
      Some("61 993112205"))

  const KleitonExperience: seq<Experience> :=
    [
      Experience(
        "Desenvolvedor Fullstack PHP / Laravel / Python / ReactJS",
        "Ministério do Desenvolvimento e Assistência Social, Família e Combate à Fome",
        "jun. 2024 - presente",
        [
          "Desenvolvimento e manutenção de aplicações web críticas em PHP (Laravel) e React.js, seguindo princípios de código limpo e arquitetura escalável, garantindo alta performance e segurança para milhões de usuários",
          "Liderança técnica na integração de APIs de serviços governamentais, automatizando processos manuais e melhorando a eficiência do fluxo de dados.",
          "Otimização de queries e estrutura de banco de dados PostgreSQL, resultando em um aumento de 30% na eficiência do sistema durante picos de acesso."
        ]),
      Experience(
        "Desenvolvedor BackEnd PHP / Laravel",
        "Leadtax",
        "dez. 2023 - jun. 2024",
        [
          "Desenvolvimento de motores de cálculo de impostos e soluções fiscais automatizadas utilizando PHP Laravel, integradas diretamente com ERPs como SAP",
          "Criação e implementação de Robotic Process Automation (RPA) para apuração e transmissão de obrigações acessórias, reduzindo o tempo de processamento em mais de 50% e minimizando erros manuais.",
          "Atuação direta no projeto de automação completa do inbound (Miro x Migo), entregando uma solução de ponta a ponta que simplificou operações complexas."
        ]),
      Experience(
        "Programador PHP",
        "Cast Informática (Ministério da Agricultura)",
        "set. 2013 - jun. 2015",
        [
          "Desenvolvimento e manutenção de sistemas para o Ministério da Agricultura utilizando Zend Framework, PHP, JavaScript e PostgreSQL.",
          "Atuação significativa no projeto \"Mais Alimentos\", implementando novas funcionalidades e garantindo a estabilidade do sistema legado",
          "Colaboração com a equipe para refatorar e melhorar a base de código legada, aumentando a confiabilidade e a manutenibilidade do sistema."
        ]),
      Experience(
        "Web Developer",
        "Agency - Freedom of Expression",
        "jan. 2013 - ago. 2013",
        ["Edição e criação de websites utilizando HTML, CSS, JavaScript, jQuery e WordPress."])
    ]

  const KleitonSkills: seq<Skill> :=
    [
      Skill("Backend", ["PHP", "Laravel", "Python", "NodeJS", "ExpressJS", "Zend", "Prado", "CodeIgniter"]),
      Skill("Frontend", ["ReactJS", "JavaScript", "HTML5", "CSS3", "JQuery", "Bootstrap", "NextJs", "Tailwind"]),
      Skill("Banco de Dados", ["MySQL", "PostgreSQL", "SQL Server", "DB2", "Oracle"])
    ]

  const KleitonEducation: seq<Education> :=
    [Education("Análise e Desenvolvimento de Sistemas", "Universidade Católica de Brasília", "2010 - 2013")]

  const KleitonCertificates: seq<Certificate> :=
    [
      Certificate("Curso Online de PHP", "Rocketseat", "out. 2024"),
      Certificate("NLW Pocket: Javascript - Full-stack", "Rocketseat", "set. 2024"),
      Certificate("Scrum Fundamentals Certified (SFC)", "SCRUMstudy", "abr. 2015")
    ]

  const KleitonProjects: seq<Project> := [MaisAlimentos]

  const KleitonLanguages: seq<Language> :=
    [Language("Português", "Nativo"), Language("Inglês", "Avançado (Intercâmbio no Canadá)")]

  const KleitonLinks: seq<Link> :=
    [
      Link("LinkedIn", "https://www.linkedin.com/in/kleitonsouzaads/"),
      Link("GitHub", "https://github.com/kleitonADS"),
      Link("Site Pessoal", "https://kleitonads.github.io/MyProfile2017/")
    ]

  /** The single project lists PostgreSQL among its technologies, so a
      search for "postgresql" finds it. */
  lemma SearchPostgresql()
    ensures SearchReply(KleitonProjects, ["postgresql"]) ==
      Response(SearchResults("postgresql", [MaisAlimentos]))
  {
    MaisAlimentosMatches();
    FilterAll([MaisAlimentos], "postgresql");
    PostgresqlQuery();
  }

  lemma MaisAlimentosMatches()
    ensures Matches(MaisAlimentos, "postgresql")
  {
    var tech := "PostgreSQL";
    assert ToLower(tech) == "postgresql";
    ContainsSelf("postgresql");
    assert tech in MaisAlimentos.technologies.value;
  }

  lemma PostgresqlQuery()
    ensures Tokens.Join(["postgresql"], ' ') == "postgresql"
    ensures ToLower("postgresql") == "postgresql"
  {
    assert IsLower("postgresql");
    LowerOfLower("postgresql");
  }

  /** After submitting `a`, `b` and `c`, ArrowUp shows `c`, then `b`, then
      `a`; ArrowDown from `a` walks forward and past `c` shows nothing. */
  lemma RecallAbc()
    ensures var h := R.Submit(R.Submit(R.Submit(R.Empty, "a"), "b"), "c");
      && h == R.History(["a", "b", "c"], 3)
      && R.UpTimes(h, 1).shown == Some("c")
      && R.UpTimes(h, 2).shown == Some("b")
      && R.UpTimes(h, 3).shown == Some("a")
      && R.Down(R.Down(R.Down(R.UpTimes(h, 3).history).history).history).shown == Some("")
  {
    SubmitAbc();
    var h := R.History(["a", "b", "c"], 3);
    R.UpWalksBack(h, 1);
    R.UpWalksBack(h, 2);
    R.UpWalksBack(h, 3);
    DownPastNewest(R.UpTimes(h, 3).history);
  }

  /** From the oldest of three lines, three ArrowDowns pass the newest. */
  lemma DownPastNewest(h: R.History)
    requires |h.lines| == 3 && h.cursor == 0
    ensures R.Down(R.Down(R.Down(h).history).history).shown == Some("")
  {
    var h1 := R.Down(h).history;
    assert h1.cursor == 1 && |h1.lines| == 3;
    var h2 := R.Down(h1).history;
    assert h2.cursor == 2 && |h2.lines| == 3;
  }

  lemma SubmitAbc()
    ensures R.Submit(R.Submit(R.Submit(R.Empty, "a"), "b"), "c") == R.History(["a", "b", "c"], 3)
  {
    var h0 := R.Empty;
    SubmitChar(h0, 'a');
    assert h0.lines + [['a']] == ["a"];
    var h1 := R.History(["a"], 1);
    assert R.Submit(h0, "a") == h1;
    SubmitChar(h1, 'b');
    assert h1.lines + [['b']] == ["a", "b"];
    var h2 := R.History(["a", "b"], 2);
    assert R.Submit(h1, "b") == h2;
    SubmitChar(h2, 'c');
    assert h2.lines + [['c']] == ["a", "b", "c"];
  }

  lemma SubmitChar(h: R.History, c: char)
    requires !IsSpace(c)
    ensures R.Submit(h, [c]) == R.History(h.lines + [[c]], |h.lines| + 1)
  {
    TrimChar(c);
  }

  lemma TrimChar(c: char)
    requires !IsSpace(c)
    ensures Trim([c]) == [c]
  {
    TrimUnique("", [c], "");
    assert "" + [c] + "" == [c];
  }
}
