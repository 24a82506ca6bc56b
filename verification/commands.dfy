/** The command table and the fixed list of sections `show` accepts. */
module Commands {
  import opened Optional
  import opened Ascii
  import opened Substrings

  datatype CommandSpec = CommandSpec(description: string, usage: Option<string>, args: Option<seq<string>>)

  /** One `key: spec` pair of the table, in declaration order. */
  datatype Entry = Entry(key: string, spec: CommandSpec)

  const Sections: seq<string> :=
    ["about", "experience", "skills", "projects", "education", "certificates", "languages"]

  const Table: seq<Entry> := [
    Entry("help", CommandSpec("Mostra os comandos disponíveis.", None, None)),
    Entry("whoami", CommandSpec("Exibe um resumo do perfil.", None, None)),
    Entry("ls", CommandSpec("Mostra uma descrição sobre este projeto.", None, None)),
    Entry("scan", CommandSpec("Lista todas as seções disponíveis para visualização.", None, None)),
    Entry("search", CommandSpec("Busca por palavras-chave nos projetos.", Some("search [palavra-chave]"), None)),
    Entry("show", CommandSpec("Exibe os detalhes de uma seção específica.", Some("show [seção]"), Some(Sections))),
    Entry("social", CommandSpec("Exibe links para redes e contatos.", None, None)),
    Entry("contact", CommandSpec("Exibe informações de contato.", None, None)),
    Entry("resume", CommandSpec("Fornece um link para baixar o currículo.", None, None)),
    Entry("clear", CommandSpec("Limpa a tela do terminal.", None, None)),
    Entry("init", CommandSpec("Retorna para a tela inicial.", None, None))
  ]

  function Keys(table: seq<Entry>): (keys: seq<string>)
    ensures |keys| == |table|
    ensures forall i :: 0 <= i < |table| ==> keys[i] == table[i].key
  {
    seq(|table|, i requires 0 <= i < |table| => table[i].key)
  }

  /** `commands[name]`: the spec of the first entry with that key. */
  function Lookup(table: seq<Entry>, name: string): (r: Option<CommandSpec>)
    ensures r.None? <==> name !in Keys(table)
    ensures r.Some? ==> Entry(name, r.value) in table
    decreases |table|
  {
    if |table| == 0 then None
    else if table[0].key == name then Some(table[0].spec)
    else
      assert Keys(table) == [table[0].key] + Keys(table[1..]);
      Lookup(table[1..], name)
  }

  predicate Distinct(xs: seq<string>) {
    forall i, j :: 0 <= i < j < |xs| ==> xs[i] != xs[j]
  }

  /** No string of the list starts another one. */
  predicate PrefixFree(xs: seq<string>) {
    forall i, j :: 0 <= i < |xs| && 0 <= j < |xs| && i != j ==> !IsPrefix(xs[i], xs[j])
  }

  /** A name that reads back unchanged through trim, lower-casing and a
      whitespace split. */
  predicate IsWord(w: string) {
    |w| > 0 && NoSpace(w) && IsLower(w)
  }

  predicate AllWords(xs: seq<string>) {
    forall i :: 0 <= i < |xs| ==> IsWord(xs[i])
  }

  /** The shape of a command table that makes Tab completion behave as an
      exact, stable completion: lower-case one-word keys and argument names,
      none a prefix of another. */
  predicate WellFormed(table: seq<Entry>) {
    && AllWords(Keys(table))
    && PrefixFree(Keys(table))
    && forall i :: 0 <= i < |table| && table[i].spec.args.Some? ==>
         AllWords(table[i].spec.args.value) && PrefixFree(table[i].spec.args.value)
  }

  /** With distinct keys, looking up the key of any entry finds that entry's
      spec. */
  lemma {:induction false} LookupEntry(table: seq<Entry>, i: nat)
    requires Distinct(Keys(table)) && i < |table|
    ensures Lookup(table, table[i].key) == Some(table[i].spec)
    decreases i
  {
    if i > 0 {
      assert Keys(table)[0] != Keys(table)[i];
      var rest := table[1..];
      assert Distinct(Keys(rest)) by {
        forall a, b | 0 <= a < b < |rest| ensures Keys(rest)[a] != Keys(rest)[b] {
          assert Keys(table)[a + 1] != Keys(table)[b + 1];
        }
      }
      assert rest[i - 1] == table[i];
      LookupEntry(rest, i - 1);
    }
  }

  lemma PrefixFreeDistinct(xs: seq<string>)
    requires PrefixFree(xs)
    ensures Distinct(xs)
  {
    forall i, j | 0 <= i < j < |xs|
      ensures xs[i] != xs[j]
    {
      if xs[i] == xs[j] {
        assert IsPrefix(xs[i], xs[j]);
      }
    }
  }

  /** The keys of `Table`, in declaration order, written out once more so
      that proofs about the keys need not unfold the whole table;
      `KeysOfTable` ties the two together. */
  const Names: seq<string> :=
    ["help", "whoami", "ls", "scan", "search", "show", "social", "contact", "resume", "clear", "init"]

  lemma KeysOfTable()
    ensures Keys(Table) == Names
  {
  }

  /** The two commands that take arguments are keys of the table. */
  lemma ShowAndSearchAreKeys()
    ensures "show" in Keys(Table) && "search" in Keys(Table)
  {
    KeysOfTable();
    assert Names[4] == "search" && Names[5] == "show";
  }

  /** The command table as declared has the shape `WellFormed` asks for. */
  lemma TableWellFormed()
    ensures WellFormed(Table)
  {
    KeysWellFormed();
    SectionsWellFormed();
    assert forall i :: 0 <= i < |Table| && Table[i].spec.args.Some? ==> Table[i].spec.args.value == Sections;
  }

  lemma KeysWellFormed()
    ensures AllWords(Keys(Table)) && PrefixFree(Keys(Table))
  {
    KeysOfTable();
    NamesAreWords();
    NamesHeadsDiffer();
    PrefixFreeByHeads(Names);
  }

  lemma SectionsWellFormed()
    ensures AllWords(Sections) && PrefixFree(Sections)
  {
    LetterWords(Sections);
    PrefixFreeByHeads(Sections);
  }

  lemma NamesAreWords()
    ensures AllWords(Names)
  {
    LetterWords(Names);
  }

  lemma NamesHeadsDiffer()
    ensures forall i :: 0 <= i < |Names| ==> |Names[i]| >= 2
    ensures forall i, j :: 0 <= i < j < |Names| ==> Head(Names[i]) != Head(Names[j])
  {
  }

  predicate Letters(w: string) {
    forall i :: 0 <= i < |w| ==> 'a' <= w[i] <= 'z'
  }

  /** Non-empty runs of lower-case ASCII letters are words. */
  lemma LetterWords(xs: seq<string>)
    requires forall i :: 0 <= i < |xs| ==> |xs[i]| > 0 && Letters(xs[i])
    ensures AllWords(xs)
  {
  }

  /** The first two characters of a string of length two or more. */
  function Head(w: string): (char, char)
    requires |w| >= 2
  {
    (w[0], w[1])
  }

  /** A list whose members all differ within their first two characters is
      prefix-free. */
  lemma PrefixFreeByHeads(xs: seq<string>)
    requires forall i :: 0 <= i < |xs| ==> |xs[i]| >= 2
    requires forall i, j :: 0 <= i < j < |xs| ==> Head(xs[i]) != Head(xs[j])
    ensures PrefixFree(xs)
  {
    forall i, j | 0 <= i < |xs| && 0 <= j < |xs| && i != j
      ensures !IsPrefix(xs[i], xs[j])
    {
      assert Head(xs[i]) != Head(xs[j]) by {
        if j < i {
          assert Head(xs[j]) != Head(xs[i]);
        }
      }
    }
  }

  /** The seven sections `show` can display. */
  datatype SectionId = About | Experience | Skills | Projects | Education | Certificates | Languages

  function SectionName(s: SectionId): string {
    match s
    case About => "about"
    case Experience => "experience"
    case Skills => "skills"
    case Projects => "projects"
    case Education => "education"
    case Certificates => "certificates"
    case Languages => "languages"
  }

  /** Recognises a section name; exactly the names of `Sections` succeed. */
  function ParseSection(name: string): (r: Option<SectionId>)
    ensures r.Some? <==> name in Sections
    ensures r.Some? ==> SectionName(r.value) == name
  {
    match name
    case "about" => Some(About)
    case "experience" => Some(Experience)
    case "skills" => Some(Skills)
    case "projects" => Some(Projects)
    case "education" => Some(Education)
    case "certificates" => Some(Certificates)
    case "languages" => Some(Languages)
    case _ => None
  }

  /** Every section's name parses back to that section. */
  lemma ParseSectionName(s: SectionId)
    ensures ParseSection(SectionName(s)) == Some(s)
  {
  }
}
