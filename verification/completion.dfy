/** Tab completion: a pure function of the current input and the command
    table that completes a unique prefix and otherwise changes nothing. */
module Completion {
  import opened Ascii
  import opened Tokens
  import opened Substrings
  import opened Optional
  import C = Commands

  /** `cands.filter(c => c.startsWith(p))`. */
  function PrefixMatches(cands: seq<string>, p: string): (r: seq<string>)
    ensures |r| <= |cands|
    ensures forall x :: x in r <==> x in cands && IsPrefix(p, x)
    decreases |cands|
  {
    if |cands| == 0 then []
    else (if IsPrefix(p, cands[0]) then [cands[0]] else []) + PrefixMatches(cands[1..], p)
  }

  /** `x` is the one candidate that starts with `p`. */
  ghost predicate UniquelyCompletes(cands: seq<string>, p: string, x: string) {
    x in cands && IsPrefix(p, x) && forall y :: y in cands && IsPrefix(p, y) ==> y == x
  }

  /** Among distinct candidates, "the filter keeps exactly one" is the same
      as "exactly one candidate starts with the prefix". */
  lemma {:induction false} SingleMatch(cands: seq<string>, p: string)
    requires C.Distinct(cands)
    ensures |PrefixMatches(cands, p)| == 1 <==> exists x :: UniquelyCompletes(cands, p, x)
    ensures |PrefixMatches(cands, p)| == 1 ==> UniquelyCompletes(cands, p, PrefixMatches(cands, p)[0])
    decreases |cands|
  {
    if |cands| > 0 {
      var c, rest := cands[0], cands[1..];
      assert cands == [c] + rest;
      assert C.Distinct(rest);
      SingleMatch(rest, p);
      var m := PrefixMatches(cands, p);
      var mr := PrefixMatches(rest, p);
      if IsPrefix(p, c) {
        assert m == [c] + mr;
        assert c !in rest;
        if |m| == 1 {
          assert mr == [];
          assert UniquelyCompletes(cands, p, c);
        } else {
          assert mr[0] in rest && IsPrefix(p, mr[0]);
          assert forall x :: !UniquelyCompletes(cands, p, x);
        }
      } else {
        assert m == mr;
        forall x
          ensures UniquelyCompletes(cands, p, x) <==> UniquelyCompletes(rest, p, x)
        {
        }
      }
    }
  }

  /** What a completion may produce: a table key the single token starts,
      or, after a command with an argument list, one of its arguments. */
  ghost predicate CompletesTo(input: string, table: seq<C.Entry>, r: string) {
    var parts := SplitWs(Trim(input));
    || (|parts| == 1 && exists x :: x in C.Keys(table) && IsPrefix(ToLower(parts[0]), x) && r == x + " ")
    || (|parts| == 2 &&
        var name := ToLower(parts[0]);
        && C.Lookup(table, name).Some?
        && C.Lookup(table, name).value.args.Some?
        && exists x :: x in C.Lookup(table, name).value.args.value && IsPrefix(ToLower(parts[1]), x)
             && r == name + " " + x + " ")
  }

  /** The Tab branch of the key handler. */
  function Complete(input: string, table: seq<C.Entry>): (r: string)
    ensures r == input || CompletesTo(input, table, r)
  {
    var parts := SplitWs(Trim(input));
    var current := ToLower(parts[|parts| - 1]);
    if |parts| == 1 then
      var m := PrefixMatches(C.Keys(table), current);
      if |m| == 1 then
        assert m[0] in m;
        m[0] + " "
      else input
    else if |parts| == 2 then
      var name := ToLower(parts[0]);
      match C.Lookup(table, name)
      case Some(spec) =>
        if spec.args.Some? then
          var m := PrefixMatches(spec.args.value, current);
          if |m| == 1 then
            assert m[0] in m;
            name + " " + m[0] + " "
          else input
        else input
      case None => input
    else input
  }

  /** With one token, the input becomes `key + " "` exactly when one key
      starts with the lower-cased token; otherwise nothing changes. */
  lemma CompleteCommand(input: string, table: seq<C.Entry>)
    requires C.Distinct(C.Keys(table))
    requires |SplitWs(Trim(input))| == 1
    ensures var token := ToLower(SplitWs(Trim(input))[0]);
      && (forall x :: UniquelyCompletes(C.Keys(table), token, x) ==> Complete(input, table) == x + " ")
      && ((forall x :: !UniquelyCompletes(C.Keys(table), token, x)) ==> Complete(input, table) == input)
  {
    var token := ToLower(SplitWs(Trim(input))[0]);
    SingleMatch(C.Keys(table), token);
  }

  /** With two tokens, the input becomes `cmd + " " + arg + " "` exactly
      when the first token names a command with an argument list and one
      argument starts with the second token; otherwise nothing changes. */
  lemma CompleteArgument(input: string, table: seq<C.Entry>)
    requires C.WellFormed(table)
    requires |SplitWs(Trim(input))| == 2
    ensures var parts := SplitWs(Trim(input));
      var name, token := ToLower(parts[0]), ToLower(parts[1]);
      && (forall spec, x :: C.Lookup(table, name) == Some(spec) && spec.args.Some? && UniquelyCompletes(spec.args.value, token, x) ==>
            Complete(input, table) == name + " " + x + " ")
      && (C.Lookup(table, name).None? || C.Lookup(table, name).value.args.None? ||
          (forall x :: !UniquelyCompletes(C.Lookup(table, name).value.args.value, token, x)) ==>
            Complete(input, table) == input)
  {
    var parts := SplitWs(Trim(input));
    var name, token := ToLower(parts[0]), ToLower(parts[1]);
    match C.Lookup(table, name)
    case None =>
    case Some(spec) =>
      if spec.args.Some? {
        ArgsWellFormed(table, name, spec);
        C.PrefixFreeDistinct(spec.args.value);
        SingleMatch(spec.args.value, token);
      }
  }

  lemma ArgsWellFormed(table: seq<C.Entry>, name: string, spec: C.CommandSpec)
    requires C.WellFormed(table)
    requires C.Lookup(table, name) == Some(spec) && spec.args.Some?
    ensures C.AllWords(spec.args.value) && C.PrefixFree(spec.args.value)
  {
    var i :| 0 <= i < |table| && table[i] == C.Entry(name, spec);
  }

  /** More than two tokens are never completed. */
  lemma CompleteManyTokens(input: string, table: seq<C.Entry>)
    requires |SplitWs(Trim(input))| > 2
    ensures Complete(input, table) == input
  {
  }

  /** A completed command name completes to itself. */
  lemma CompleteKeyStable(table: seq<C.Entry>, x: string)
    requires C.WellFormed(table)
    requires x in C.Keys(table)
    ensures Complete(x + " ", table) == x + " "
  {
    OneWordLine(x);
    UniqueSelf(C.Keys(table), x);
    C.PrefixFreeDistinct(C.Keys(table));
    CompleteCommand(x + " ", table);
  }

  /** A completed argument completes to itself. */
  lemma CompleteArgStable(table: seq<C.Entry>, name: string, spec: C.CommandSpec, a: string)
    requires C.WellFormed(table)
    requires C.Lookup(table, name) == Some(spec) && spec.args.Some? && a in spec.args.value
    ensures Complete(name + " " + a + " ", table) == name + " " + a + " "
  {
    ArgsWellFormed(table, name, spec);
    assert C.IsWord(name);
    assert C.IsWord(a);
    TwoWordLine(name, a);
    UniqueSelf(spec.args.value, a);
    CompleteArgument(name + " " + a + " ", table);
  }

  /** In a prefix-free list, each member is the single completion of itself. */
  lemma UniqueSelf(xs: seq<string>, a: string)
    requires C.PrefixFree(xs) && a in xs
    ensures UniquelyCompletes(xs, a, a)
  {
    assert IsPrefix(a, a);
    forall y | y in xs && IsPrefix(a, y)
      ensures y == a
    {
      var i :| 0 <= i < |xs| && xs[i] == a;
      var j :| 0 <= j < |xs| && xs[j] == y;
      assert i == j || !IsPrefix(a, y);
    }
  }

  /** A completed command, as Tab leaves it, reads back as that one word. */
  lemma OneWordLine(x: string)
    requires C.IsWord(x)
    ensures SplitWs(Trim(x + " ")) == [x]
    ensures ToLower(x) == x
  {
    TrimSpaceAfter(x);
    OneWord(x);
  }

  /** A completed argument, as Tab leaves it, reads back as its two words. */
  lemma TwoWordLine(name: string, a: string)
    requires C.IsWord(name) && C.IsWord(a)
    ensures SplitWs(Trim(name + " " + a + " ")) == [name, a]
    ensures ToLower(name) == name && ToLower(a) == a
  {
    var line := name + " " + a;
    assert line[0] == name[0] && line[|line| - 1] == a[|a| - 1];
    TrimSpaceAfter(line);
    TwoWords(name, a);
    LowerOfLower(name);
    LowerOfLower(a);
  }

  lemma TrimSpaceAfter(line: string)
    requires |line| > 0 && !IsSpace(line[0]) && !IsSpace(line[|line| - 1])
    ensures Trim(line + " ") == line
  {
    TrimUnique("", line, " ");
    assert "" + line + " " == line + " ";
  }

  lemma OneWord(w: string)
    requires C.IsWord(w)
    ensures SplitWs(w) == [w]
    ensures ToLower(w) == w
  {
    assert Join([w], ' ') == w;
    SplitWsJoin([w]);
    LowerOfLower(w);
  }

  lemma TwoWords(name: string, a: string)
    requires C.IsWord(name) && C.IsWord(a)
    ensures SplitWs(name + " " + a) == [name, a]
  {
    assert Join([name, a], ' ') == name + " " + a;
    SplitWsJoin([name, a]);
  }

  /** Pressing Tab twice is the same as pressing it once. */
  lemma CompleteIdempotent(input: string, table: seq<C.Entry>)
    requires C.WellFormed(table)
    ensures Complete(Complete(input, table), table) == Complete(input, table)
  {
    var r := Complete(input, table);
    if r != input {
      var parts := SplitWs(Trim(input));
      if |parts| == 1 {
        var x :| x in C.Keys(table) && IsPrefix(ToLower(parts[0]), x) && r == x + " ";
        CompleteKeyStable(table, x);
      } else {
        var name := ToLower(parts[0]);
        var spec := C.Lookup(table, name).value;
        var a :| a in spec.args.value && IsPrefix(ToLower(parts[1]), a) && r == name + " " + a + " ";
        CompleteArgStable(table, name, spec, a);
      }
    }
  }

  /** A single word is read back as one token. */
  lemma OneToken(w: string)
    requires C.IsWord(w)
    ensures SplitWs(Trim(w)) == [w]
    ensures ToLower(w) == w
  {
    TrimUnique("", w, "");
    assert "" + w + "" == w;
    OneWord(w);
  }

  /** Only `show` starts with "sh", so Tab turns `sh` into `show `. */
  lemma TabOnSh()
    ensures Complete("sh", C.Table) == "show "
  {
    C.TableWellFormed();
    OneToken("sh");
    OnlyShowStartsWithSh();
    C.PrefixFreeDistinct(C.Keys(C.Table));
    CompleteCommand("sh", C.Table);
  }

  lemma OnlyShowStartsWithSh()
    ensures UniquelyCompletes(C.Keys(C.Table), "sh", "show")
  {
    C.KeysOfTable();
    assert "show"[..2] == "sh";
    forall y | y in C.Keys(C.Table) && IsPrefix("sh", y)
      ensures y == "show"
    {
      assert y[0] == 's' && y[1] == 'h';
    }
  }

  /** Four commands start with "s", so Tab on `s` changes nothing. */
  lemma TabOnS()
    ensures Complete("s", C.Table) == "s"
  {
    C.TableWellFormed();
    OneToken("s");
    NoUniqueS();
    C.PrefixFreeDistinct(C.Keys(C.Table));
    CompleteCommand("s", C.Table);
  }

  lemma NoUniqueS()
    ensures forall x :: !UniquelyCompletes(C.Keys(C.Table), "s", x)
  {
    C.KeysOfTable();
    assert "scan"[..1] == "s" && "show"[..1] == "s";
    assert IsPrefix("s", "scan") && IsPrefix("s", "show");
  }

  /** Tokens are cut at runs of whitespace, so Tab on `show`, any run of
      blanks, and `ab` completes the section name to `show about `. */
  lemma TabAcrossRun(r: string)
    requires |r| > 0 && AllSpace(r)
    ensures Complete("show" + r + "ab", C.Table) == "show about "
  {
    C.TableWellFormed();
    assert C.IsWord("show") && C.IsWord("ab");
    WordsAroundRun("show", r, "ab");
    ShowTakesSections();
    OnlyAboutStartsWithAb();
    ArgumentCompletesTo("show" + r + "ab", C.Table, "show", "ab", C.Lookup(C.Table, "show").value, "about");
    ShowAboutText();
  }

  lemma ShowAboutText()
    ensures "show" + " " + "about" + " " == "show about "
  {
    assert ("show" + " " + "about" + " ")[5..10] == "about";
  }

  /** The positive half of `CompleteArgument`, for one given completion. */
  lemma ArgumentCompletesTo(input: string, table: seq<C.Entry>, name: string, token: string, spec: C.CommandSpec, x: string)
    requires C.WellFormed(table)
    requires SplitWs(Trim(input)) == [name, token] && ToLower(name) == name && ToLower(token) == token
    requires C.Lookup(table, name) == Some(spec) && spec.args.Some?
    requires UniquelyCompletes(spec.args.value, token, x)
    ensures Complete(input, table) == name + " " + x + " "
  {
    CompleteArgument(input, table);
  }

  /** Two words with any run of whitespace between them read back as those
      two words. */
  lemma WordsAroundRun(w: string, r: string, a: string)
    requires C.IsWord(w) && C.IsWord(a)
    requires |r| > 0 && AllSpace(r)
    ensures SplitWs(Trim(w + r + a)) == [w, a]
    ensures ToLower(w) == w && ToLower(a) == a
  {
    var line := w + r + a;
    assert line[0] == w[0] && line[|line| - 1] == a[|a| - 1];
    TrimNothing(line);
    SplitWsWordRun(w, r, a);
    OneWord(a);
    LowerOfLower(w);
  }

  lemma TrimNothing(line: string)
    requires |line| > 0 && !IsSpace(line[0]) && !IsSpace(line[|line| - 1])
    ensures Trim(line) == line
  {
    TrimUnique("", line, "");
    assert "" + line + "" == line;
  }

  lemma ShowTakesSections()
    ensures C.Lookup(C.Table, "show").Some?
    ensures C.Lookup(C.Table, "show").value.args == Some(C.Sections)
  {
    C.TableWellFormed();
    C.PrefixFreeDistinct(C.Keys(C.Table));
    C.LookupEntry(C.Table, 5);
  }

  lemma OnlyAboutStartsWithAb()
    ensures UniquelyCompletes(C.Sections, "ab", "about")
  {
    assert "about"[..2] == "ab";
    forall y | y in C.Sections && IsPrefix("ab", y)
      ensures y == "about"
    {
      assert y[0] == 'a' && y[1] == 'b';
    }
  }
}
