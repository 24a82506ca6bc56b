/** `handleCommand`: one submitted line turns the old transcript into a new
    one, an emptied one, or an exit signal. Rendered markup is replaced by
    tagged payloads that carry the data the markup would show. */
module Interpreter {
  import opened Optional
  import opened Ascii
  import opened Tokens
  import opened Search
  import C = Commands
  import P = Profile

  /** The two user-visible error kinds: a bad argument and an unknown command. */
  datatype ErrorKind =
    | SectionNotFound(given: string)
    | MissingKeyword
    | UnknownCommand(name: string)

  datatype HelpEntry = HelpEntry(display: string, description: string)

  datatype ContactField = Email | LinkedIn | GitHub | Phone

  datatype ContactRow = ContactRow(field: ContactField, value: string)

  /** The place of a field on the contact card, top to bottom. */
  function Rank(f: ContactField): nat {
    match f
    case Email => 0
    case LinkedIn => 1
    case GitHub => 2
    case Phone => 3
  }

  /** What `show` renders under the section heading. */
  datatype SectionBody =
    | Paragraphs(lines: seq<string>)
    | Jobs(jobs: seq<P.Experience>)
    | SkillGroups(groups: seq<P.Skill>)
    | ProjectCards(projects: seq<P.Project>)
    | Degrees(degrees: seq<P.Education>)
    | Certifications(certificates: seq<P.Certificate>)
    | Spoken(languages: seq<P.Language>)

  datatype Payload =
    | Welcome
    | Help(entries: seq<HelpEntry>)
    | Whoami(name: string, title: string, image: Option<string>)
    | Ls
    | Scan(sections: seq<string>)
    | Section(name: string, body: SectionBody)
    | SearchResults(query: string, projects: seq<P.Project>)
    | NoResults(query: string)
    | Social(links: seq<P.Link>)
    | Contact(rows: seq<ContactRow>)
    | Resume(url: string)

  /** One transcript line: the echo of a submitted line, a response or an error. */
  datatype Line = Command(text: string) | Response(payload: Payload) | Error(error: ErrorKind)

  /** What a command word asks of the transcript. */
  datatype Action = Append(reply: Option<Line>) | ClearScreen | ExitSession

  datatype Signal = NoSignal | ClearSignal | ExitSignal

  datatype Step = Step(transcript: seq<Line>, signal: Signal)

  /** The transcript the terminal starts with. */
  const Initial: seq<Line> := [Response(Welcome)]

  /** The whole line is trimmed and lower-cased, then cut at every single space. */
  function Parse(raw: string): (words: seq<string>)
    ensures |words| >= 1
    ensures forall k :: 0 <= k < |words| ==> ' ' !in words[k]
  {
    Split(ToLower(Trim(raw)), ' ')
  }

  /** The words, re-joined with single spaces, are the trimmed and
      lower-cased line: nothing is lost by the parse. */
  lemma ParseRejoins(raw: string)
    ensures Join(Parse(raw), ' ') == ToLower(Trim(raw))
  {
    JoinSplit(ToLower(Trim(raw)), ' ');
  }

  /** A usage string, when one is declared and not empty, stands in for the key. */
  function HelpEntries(table: seq<C.Entry>): (entries: seq<HelpEntry>)
    ensures |entries| == |table|
    ensures forall i :: 0 <= i < |table| ==>
      && entries[i].description == table[i].spec.description
      && (Present(table[i].spec.usage) ==> entries[i].display == table[i].spec.usage.value)
      && (!Present(table[i].spec.usage) ==> entries[i].display == table[i].key)
  {
    seq(|table|, i requires 0 <= i < |table| =>
      HelpEntry(if Present(table[i].spec.usage) then table[i].spec.usage.value else table[i].key,
                table[i].spec.description))
  }

  /** The row for an optional field: one row when the field is present and
      not empty, none otherwise. */
  function OptionalRow(f: ContactField, o: Option<string>): (rows: seq<ContactRow>)
    ensures |rows| <= 1
    ensures forall k :: 0 <= k < |rows| ==> rows[k].field == f
    ensures forall v :: ContactRow(f, v) in rows <==> o == Some(v) && v != ""
  {
    if Present(o) then [ContactRow(f, o.value)] else []
  }

  /** The contact card: the e-mail first, then each optional field that is
      present and not empty, in a fixed order. */
  function ContactRows(c: P.Contact): (rows: seq<ContactRow>)
    ensures |rows| >= 1 && rows[0] == ContactRow(Email, c.email)
    ensures forall k :: 1 <= k < |rows| ==> rows[k].field != Email
    ensures forall i, j :: 0 <= i < j < |rows| ==> Rank(rows[i].field) < Rank(rows[j].field)
  {
    [ContactRow(Email, c.email)]
    + OptionalRow(LinkedIn, c.linkedin)
    + OptionalRow(GitHub, c.github)
    + OptionalRow(Phone, c.telefone)
  }

  /** The optional rows appear exactly for the fields that are present and
      not empty, carrying the stored value. */
  lemma ContactRowsShowPresent(c: P.Contact)
    ensures forall v :: ContactRow(LinkedIn, v) in ContactRows(c) <==> c.linkedin == Some(v) && v != ""
    ensures forall v :: ContactRow(GitHub, v) in ContactRows(c) <==> c.github == Some(v) && v != ""
    ensures forall v :: ContactRow(Phone, v) in ContactRows(c) <==> c.telefone == Some(v) && v != ""
  {
    var e := [ContactRow(Email, c.email)];
    var l := OptionalRow(LinkedIn, c.linkedin);
    var g := OptionalRow(GitHub, c.github);
    var p := OptionalRow(Phone, c.telefone);
    assert ContactRows(c) == e + l + g + p;
    assert forall r :: r in ContactRows(c) <==> r in e || r in l || r in g || r in p;
  }

  function Render(profile: P.ProfileData, s: C.SectionId): SectionBody {
    match s
    case About => Paragraphs(profile.about)
    case Experience => Jobs(profile.experience)
    case Skills => SkillGroups(profile.skills)
    case Projects => ProjectCards(profile.projects)
    case Education => Degrees(profile.education)
    case Certificates => Certifications(profile.certificates)
    case Languages => Spoken(profile.languages)
  }

  /** `show`: the first argument must be one of the seven section names;
      any further argument is ignored. */
  function Show(profile: P.ProfileData, args: seq<string>): (line: Line)
    ensures line.Error? <==> |args| == 0 || args[0] !in C.Sections
    ensures line.Error? ==> line.error == SectionNotFound(if |args| == 0 then "" else args[0])
    ensures line.Error? || line.Response?
    ensures |args| > 0 && args[0] in C.Sections ==>
      line == Response(Section(args[0], Render(profile, C.ParseSection(args[0]).value)))
  {
    if |args| == 0 || args[0] == "" then Error(SectionNotFound(""))
    else
      match C.ParseSection(args[0])
      case None => Error(SectionNotFound(args[0]))
      case Some(s) => Response(Section(args[0], Render(profile, s)))
  }

  /** `search`: the arguments joined by single spaces form the keyword. */
  function SearchReply(projects: seq<P.Project>, args: seq<string>): (line: Line)
    ensures line.Error? <==> Join(args, ' ') == ""
    ensures line.Error? ==> line.error == MissingKeyword
    ensures line == Response(NoResults(Join(args, ' '))) <==>
      Join(args, ' ') != "" && forall p :: p in projects ==> !Matches(p, ToLower(Join(args, ' ')))
    ensures line.Response? && line.payload.SearchResults? ==>
      && line.payload.query == Join(args, ' ')
      && |line.payload.projects| > 0
      && line.payload.projects == Filter(projects, ToLower(Join(args, ' ')))
    ensures line.Response? ==> line.payload.SearchResults? || line.payload.NoResults?
    ensures Join(args, ' ') != "" && Filter(projects, ToLower(Join(args, ' '))) != [] ==>
      line == Response(SearchResults(Join(args, ' '), Filter(projects, ToLower(Join(args, ' ')))))
  {
    var query := Join(args, ' ');
    var keyword := ToLower(query);
    if keyword == "" then Error(MissingKeyword)
    else
      var hits := Filter(projects, keyword);
      if |hits| == 0 then Response(NoResults(query))
      else
        assert hits[0] in projects && Matches(hits[0], keyword);
        Response(SearchResults(query, hits))
  }

  /** The `switch` over the command word. Exactly the keys of the command
      table are recognised; the empty word is accepted silently. */
  function Reply(profile: P.ProfileData, cmd: string, args: seq<string>): Action {
    match cmd
    case "help" => Append(Some(Response(Help(HelpEntries(C.Table)))))
    case "whoami" =>
      Append(Some(Response(Whoami(profile.name, profile.title, if Present(profile.imageUrl) then profile.imageUrl else None))))
    case "ls" => Append(Some(Response(Ls)))
    case "scan" => Append(Some(Response(Scan(C.Sections))))
    case "show" => Append(Some(Show(profile, args)))
    case "search" => Append(Some(SearchReply(profile.projects, args)))
    case "social" => Append(Some(Response(Social(profile.links))))
    case "contact" => Append(Some(Response(Contact(ContactRows(profile.contact)))))
    case "resume" => Append(Some(Response(Resume(profile.resumeUrl))))
    case "init" => ExitSession
    case "clear" => ClearScreen
    case "" => Append(None)
    case _ => Append(Some(Error(UnknownCommand(cmd))))
  }

  /** The new transcript is the old one, then the echo of the raw line, then
      at most one response or error line. */
  predicate Grows(before: seq<Line>, after: seq<Line>, raw: string) {
    && |before| + 1 <= |after| <= |before| + 2
    && after[..|before|] == before
    && after[|before|] == Command(raw)
    && forall k :: |before| < k < |after| ==> !after[k].Command?
  }

  function CommandWord(raw: string): string {
    Parse(raw)[0]
  }

  /** Exactly the keys of the command table are recognised; the empty word
      is accepted silently, and every other word is reported. */
  lemma ReplyRecognisesTable(profile: P.ProfileData, cmd: string, args: seq<string>)
    ensures Reply(profile, cmd, args) == ClearScreen <==> cmd == "clear"
    ensures Reply(profile, cmd, args) == ExitSession <==> cmd == "init"
    ensures Reply(profile, cmd, args) == Append(None) <==> cmd == ""
    ensures Reply(profile, cmd, args) == Append(Some(Error(UnknownCommand(cmd)))) <==>
      cmd != "" && cmd !in C.Keys(C.Table)
    ensures cmd in C.Keys(C.Table) && cmd != "clear" && cmd != "init" ==>
      Reply(profile, cmd, args).Append? && Reply(profile, cmd, args).reply.Some?
  {
    C.KeysOfTable();
  }

  /** There are exactly two ways to get an error line: an unknown command
      word, or a bad or missing argument to `show` or `search`. */
  lemma ReplyErrors(profile: P.ProfileData, cmd: string, args: seq<string>)
    ensures (Reply(profile, cmd, args).Append? && Reply(profile, cmd, args).reply.Some?
             && Reply(profile, cmd, args).reply.value.Error?) <==>
      || (cmd != "" && cmd !in C.Keys(C.Table))
      || (cmd == "show" && (|args| == 0 || args[0] !in C.Sections))
      || (cmd == "search" && Join(args, ' ') == "")
  {
    if cmd == "show" || cmd == "search" {
      ArgumentReplies(profile, cmd, args);
    } else {
      OnlyUnknownFails(profile, cmd, args);
    }
  }

  /** `show` and `search` are keys of the table and answer with their own replies. */
  lemma ArgumentReplies(profile: P.ProfileData, cmd: string, args: seq<string>)
    requires cmd == "show" || cmd == "search"
    ensures "show" in C.Keys(C.Table) && "search" in C.Keys(C.Table)
    ensures cmd == "show" ==> Reply(profile, cmd, args) == Append(Some(Show(profile, args)))
    ensures cmd == "search" ==> Reply(profile, cmd, args) == Append(Some(SearchReply(profile.projects, args)))
  {
    C.ShowAndSearchAreKeys();
    ReplyPayloads(profile, cmd, args);
  }

  /** Apart from `show` and `search`, exactly an unknown word gives an error. */
  lemma OnlyUnknownFails(profile: P.ProfileData, cmd: string, args: seq<string>)
    requires cmd != "show" && cmd != "search"
    ensures (Reply(profile, cmd, args).Append? && Reply(profile, cmd, args).reply.Some?
             && Reply(profile, cmd, args).reply.value.Error?) <==>
      cmd != "" && cmd !in C.Keys(C.Table)
  {
    ReplyRecognisesTable(profile, cmd, args);
  }

  /** What each recognised word answers: the fixed commands show the help
      list, the profile's fields, the section names or the contact card,
      and `show` and `search` hand their arguments on. */
  lemma ReplyPayloads(profile: P.ProfileData, cmd: string, args: seq<string>)
    ensures cmd == "help" ==> Reply(profile, cmd, args) == Append(Some(Response(Help(HelpEntries(C.Table)))))
    ensures cmd == "whoami" ==>
      && Reply(profile, cmd, args).Append? && Reply(profile, cmd, args).reply.Some?
      && var w := Reply(profile, cmd, args).reply.value;
         && w.Response? && w.payload.Whoami?
         && w.payload.name == profile.name && w.payload.title == profile.title
         && (w.payload.image.Some? <==> Present(profile.imageUrl))
         && (w.payload.image.Some? ==> w.payload.image == profile.imageUrl)
    ensures cmd == "ls" ==> Reply(profile, cmd, args) == Append(Some(Response(Ls)))
    ensures cmd == "scan" ==> Reply(profile, cmd, args) == Append(Some(Response(Scan(C.Sections))))
    ensures cmd == "show" ==> Reply(profile, cmd, args) == Append(Some(Show(profile, args)))
    ensures cmd == "search" ==> Reply(profile, cmd, args) == Append(Some(SearchReply(profile.projects, args)))
    ensures cmd == "social" ==> Reply(profile, cmd, args) == Append(Some(Response(Social(profile.links))))
    ensures cmd == "contact" ==> Reply(profile, cmd, args) == Append(Some(Response(Contact(ContactRows(profile.contact)))))
    ensures cmd == "resume" ==> Reply(profile, cmd, args) == Append(Some(Response(Resume(profile.resumeUrl))))
  {
  }

  /** One submitted line. */
  function Execute(profile: P.ProfileData, t: seq<Line>, raw: string): Step {
    var words := Parse(raw);
    match Reply(profile, words[0], words[1..])
    case Append(reply) =>
      Step(t + [Command(raw)] + (if reply.Some? then [reply.value] else []), NoSignal)
    case ClearScreen => Step([], ClearSignal)
    case ExitSession => Step(t, ExitSignal)
  }

  /** How one line changes the transcript: `clear` empties it, `init` keeps
      it and exits, and every other word appends the raw echo and at most one
      reply; a known word appends exactly one reply, an unknown word one
      error naming it, and the empty word nothing. */
  lemma TranscriptGrowth(profile: P.ProfileData, t: seq<Line>, raw: string)
    ensures CommandWord(raw) == "clear" ==> Execute(profile, t, raw) == Step([], ClearSignal)
    ensures CommandWord(raw) == "init" ==> Execute(profile, t, raw) == Step(t, ExitSignal)
    ensures CommandWord(raw) != "clear" && CommandWord(raw) != "init" ==>
      Execute(profile, t, raw).signal == NoSignal && Grows(t, Execute(profile, t, raw).transcript, raw)
    ensures CommandWord(raw) == "" ==> Execute(profile, t, raw).transcript == t + [Command(raw)]
    ensures CommandWord(raw) != "" && CommandWord(raw) !in C.Keys(C.Table) ==>
      Execute(profile, t, raw).transcript == t + [Command(raw), Error(UnknownCommand(CommandWord(raw)))]
    ensures CommandWord(raw) in C.Keys(C.Table) && CommandWord(raw) != "clear" && CommandWord(raw) != "init" ==>
      |Execute(profile, t, raw).transcript| == |t| + 2
  {
    var words := Parse(raw);
    ReplyRecognisesTable(profile, words[0], words[1..]);
  }

  /** Lines that agree up to letter case parse to the same words. */
  lemma ParseIgnoresCase(a: string, b: string)
    requires ToLower(a) == ToLower(b)
    ensures Parse(a) == Parse(b)
  {
    TrimToLower(a);
    TrimToLower(b);
    ToLowerIdempotent(Trim(a));
    ToLowerIdempotent(Trim(b));
    assert ToLower(Trim(a)) == ToLower(Trim(ToLower(a)));
  }

  /** Any letter-casing of a line behaves like its lower-case form: the same
      signal and the same lines, except that the echo keeps the raw text. */
  lemma ExecuteIgnoresCase(profile: P.ProfileData, t: seq<Line>, a: string, b: string)
    requires ToLower(a) == ToLower(b)
    ensures Execute(profile, t, a).signal == Execute(profile, t, b).signal
    ensures |Execute(profile, t, a).transcript| == |Execute(profile, t, b).transcript|
    ensures forall k :: 0 <= k < |Execute(profile, t, a).transcript| && k != |t| ==>
      Execute(profile, t, a).transcript[k] == Execute(profile, t, b).transcript[k]
  {
    ParseIgnoresCase(a, b);
    var words := Parse(a);
    var ra, rb := Execute(profile, t, a), Execute(profile, t, b);
    match Reply(profile, words[0], words[1..])
    case Append(reply) =>
      var tail := if reply.Some? then [reply.value] else [];
      assert ra == Step(t + [Command(a)] + tail, NoSignal);
      assert rb == Step(t + [Command(b)] + tail, NoSignal);
    case ClearScreen =>
    case ExitSession =>
  }

  /** A line whose reply is one line appends the echo and that line. */
  lemma ExecuteWithReply(profile: P.ProfileData, t: seq<Line>, raw: string, line: Line)
    requires Reply(profile, CommandWord(raw), Parse(raw)[1..]) == Append(Some(line))
    ensures Execute(profile, t, raw) == Step(t + [Command(raw), line], NoSignal)
  {
  }

  /** A `show` line appends the echo and what `show` answers. */
  lemma ShowLine(profile: P.ProfileData, t: seq<Line>, raw: string, args: seq<string>)
    requires Parse(raw) == ["show"] + args
    ensures Execute(profile, t, raw) == Step(t + [Command(raw), Show(profile, args)], NoSignal)
  {
    assert Parse(raw)[1..] == args;
    ExecuteWithReply(profile, t, raw, Show(profile, args));
  }

  /** A `search` line appends the echo and what `search` answers. */
  lemma SearchLine(profile: P.ProfileData, t: seq<Line>, raw: string, args: seq<string>)
    requires Parse(raw) == ["search"] + args
    ensures Execute(profile, t, raw) == Step(t + [Command(raw), SearchReply(profile.projects, args)], NoSignal)
  {
    assert Parse(raw)[1..] == args;
    ExecuteWithReply(profile, t, raw, SearchReply(profile.projects, args));
  }

  /** Whatever follows the first space of the trimmed, lower-cased line is,
      re-joined, exactly the argument text: runs of spaces survive as empty
      arguments. */
  lemma ArgumentsAreRestOfLine(raw: string, cmd: string, rest: string)
    requires ' ' !in cmd
    requires ToLower(Trim(raw)) == cmd + [' '] + rest
    ensures CommandWord(raw) == cmd
    ensures Join(Parse(raw)[1..], ' ') == rest
  {
    SplitAtSeparator(cmd, rest, ' ');
    assert Parse(raw)[1..] == Split(rest, ' ');
    JoinSplit(rest, ' ');
  }

  /** A line that is already trimmed and lower-case parses to the words it
      joins. */
  lemma ParseCanonical(raw: string, words: seq<string>)
    requires |words| >= 1 && forall k :: 0 <= k < |words| ==> ' ' !in words[k]
    requires raw == Join(words, ' ') && IsLower(raw)
    requires |raw| == 0 || (!IsSpace(raw[0]) && !IsSpace(raw[|raw| - 1]))
    ensures Parse(raw) == words
  {
    TrimUnique("", raw, "");
    assert "" + raw + "" == raw;
    LowerOfLower(raw);
    SplitJoin(words, ' ');
  }

  /** Arguments after the first do not change what `show` answers. */
  lemma ShowIgnoresExtraArgs(profile: P.ProfileData, args: seq<string>)
    requires |args| >= 1
    ensures Show(profile, args) == Show(profile, args[..1])
  {
  }

  /** `clear` empties the transcript whatever it held and adds no line. */
  lemma ClearEmpties(profile: P.ProfileData, t: seq<Line>)
    ensures Execute(profile, t, "clear") == Step([], ClearSignal)
  {
    assert IsLower("clear");
    ParseCanonical("clear", ["clear"]);
    TranscriptGrowth(profile, t, "clear");
  }

  /** An empty or blank line still echoes, and adds nothing else. */
  lemma BlankLineEchoes(profile: P.ProfileData, t: seq<Line>, raw: string)
    requires AllSpace(raw)
    ensures Execute(profile, t, raw) == Step(t + [Command(raw)], NoSignal)
  {
    BlankParse(raw);
    TranscriptGrowth(profile, t, raw);
  }

  lemma BlankParse(raw: string)
    requires AllSpace(raw)
    ensures Parse(raw) == [""]
  {
    TrimUnique(raw, "", "");
    assert raw + "" + "" == raw;
    assert ToLower("") == "";
  }

  /** `show bogus` adds exactly the echo and one error naming `bogus`. */
  lemma ShowBogus(profile: P.ProfileData, t: seq<Line>)
    ensures Execute(profile, t, "show bogus") ==
      Step(t + [Command("show bogus"), Error(SectionNotFound("bogus"))], NoSignal)
  {
    ParseShowBogus();
    ShowLine(profile, t, "show bogus", ["bogus"]);
    ShowRejectsBogus(profile);
  }

  lemma ShowRejectsBogus(profile: P.ProfileData)
    ensures Show(profile, ["bogus"]) == Error(SectionNotFound("bogus"))
  {
    assert C.ParseSection("bogus") == None;
  }

  /** Arguments are lower-cased with the rest of the line, so `show ABOUT`
      displays the about section. */
  lemma ShowUpperCase(profile: P.ProfileData, t: seq<Line>)
    ensures Execute(profile, t, "show ABOUT") ==
      Step(t + [Command("show ABOUT"), Response(Section("about", Paragraphs(profile.about)))], NoSignal)
  {
    ParseShowAbout();
    ShowLine(profile, t, "show ABOUT", ["about"]);
    ShowAbout(profile);
  }

  lemma ShowAbout(profile: P.ProfileData)
    ensures Show(profile, ["about"]) == Response(Section("about", Paragraphs(profile.about)))
  {
    C.ParseSectionName(C.About);
  }

  /** Two spaces leave an empty first argument, which `show` rejects. */
  lemma ShowDoubleSpace(profile: P.ProfileData, t: seq<Line>)
    ensures Execute(profile, t, "show  about") ==
      Step(t + [Command("show  about"), Error(SectionNotFound(""))], NoSignal)
  {
    ParseShowDoubleSpace();
    ShowRejectsEmpty(profile, ["", "about"]);
    ShowLine(profile, t, "show  about", ["", "about"]);
  }

  lemma ShowRejectsEmpty(profile: P.ProfileData, args: seq<string>)
    requires |args| >= 1 && args[0] == ""
    ensures Show(profile, args) == Error(SectionNotFound(""))
  {
  }

  /** `search` without a keyword is an error. */
  lemma SearchWithoutKeyword(profile: P.ProfileData, t: seq<Line>)
    ensures Execute(profile, t, "search ") ==
      Step(t + [Command("search "), Error(MissingKeyword)], NoSignal)
  {
    ParseSearch();
    SearchLine(profile, t, "search ", []);
  }

  /** Two `scan`s in a row give two echoes, each with the same list of the
      seven section names in their fixed order. */
  lemma ScanTwice(profile: P.ProfileData, t: seq<Line>)
    ensures Execute(profile, Execute(profile, t, "scan").transcript, "scan").transcript ==
      t + [Command("scan"), Response(Scan(C.Sections)), Command("scan"), Response(Scan(C.Sections))]
  {
    assert IsLower("scan");
    ParseCanonical("scan", ["scan"]);
    var line := Response(Scan(C.Sections));
    assert Reply(profile, "scan", []) == Append(Some(line));
    ExecuteWithReply(profile, t, "scan", line);
    ExecuteWithReply(profile, t + [Command("scan"), line], "scan", line);
  }

  lemma ParseShowBogus()
    ensures Parse("show bogus") == ["show", "bogus"]
  {
    assert Join(["show", "bogus"], ' ') == "show bogus";
    assert IsLower("show bogus");
    ParseCanonical("show bogus", ["show", "bogus"]);
  }

  lemma ParseShowAbout()
    ensures Parse("show ABOUT") == ["show", "about"]
  {
    assert ToLower("show ABOUT") == "show about";
    assert Join(["show", "about"], ' ') == "show about";
    assert IsLower("show about");
    ParseCanonical("show about", ["show", "about"]);
    ParseIgnoresCase("show ABOUT", "show about");
  }

  lemma ParseShowDoubleSpace()
    ensures Parse("show  about") == ["show"] + ["", "about"]
  {
    assert ["show"] + ["", "about"] == ["show", "", "about"];
    assert Join(["show", "", "about"], ' ') == "show  about";
    assert IsLower("show  about");
    ParseCanonical("show  about", ["show", "", "about"]);
  }

  lemma ParseSearch()
    ensures Parse("search ") == ["search"]
  {
    TrimSearch();
    assert IsLower("search");
    LowerOfLower("search");
    SplitJoin(["search"], ' ');
  }

  lemma TrimSearch()
    ensures Trim("search ") == "search"
  {
    TrimUnique("", "search", " ");
    assert "" + "search" + " " == "search ";
  }
}
