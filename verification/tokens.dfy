/** The two ways the terminal cuts a line into words: `split(' ')` on every
    single space (command dispatch) and `split(/\s+/)` on runs of whitespace
    (Tab completion), together with `join`. */
module Tokens {
  import opened Ascii

  /** `s.split(sep)` for a one-character separator: the pieces between
      consecutive separators, so two adjacent separators leave an empty
      piece and the empty string gives one empty piece. */
  function Split(s: string, sep: char): (parts: seq<string>)
    ensures |parts| >= 1
    ensures forall k :: 0 <= k < |parts| ==> sep !in parts[k]
    decreases |s|
  {
    if |s| == 0 then [""]
    else
      var rest := Split(s[1..], sep);
      if s[0] == sep then [""] + rest
      else [[s[0]] + rest[0]] + rest[1..]
  }

  /** `parts.join(sep)`. */
  function Join(parts: seq<string>, sep: char): string
    decreases |parts|
  {
    if |parts| == 0 then ""
    else if |parts| == 1 then parts[0]
    else parts[0] + [sep] + Join(parts[1..], sep)
  }

  /** Joining the pieces of a split gives back the string that was split. */
  lemma {:induction false} JoinSplit(s: string, sep: char)
    ensures Join(Split(s, sep), sep) == s
    decreases |s|
  {
    if |s| > 0 {
      var rest := Split(s[1..], sep);
      JoinSplit(s[1..], sep);
      if s[0] == sep {
        assert ([""] + rest)[1..] == rest;
        assert s == [sep] + s[1..];
      } else if |rest| == 1 {
        assert s == [s[0]] + s[1..];
      } else {
        var parts := Split(s, sep);
        assert parts[1..] == rest[1..];
        assert Join(rest, sep) == rest[0] + [sep] + Join(rest[1..], sep);
        assert s == [s[0]] + s[1..];
      }
    }
  }

  lemma {:induction false} SplitWord(w: string, t: string, sep: char)
    requires sep !in w
    ensures Split(w + t, sep) == [w + Split(t, sep)[0]] + Split(t, sep)[1..]
    decreases |w|
  {
    if |w| == 0 {
      assert w + t == t;
      assert w + Split(t, sep)[0] == Split(t, sep)[0];
      assert Split(t, sep) == [Split(t, sep)[0]] + Split(t, sep)[1..];
    } else {
      assert (w + t)[1..] == w[1..] + t;
      SplitWord(w[1..], t, sep);
      var rest := Split(w[1..] + t, sep);
      assert rest[0] == w[1..] + Split(t, sep)[0];
      assert rest[1..] == Split(t, sep)[1..];
      assert [w[0]] + rest[0] == w + Split(t, sep)[0];
    }
  }

  /** A separator-free first piece followed by the separator is split off
      whole, and the rest is split on its own. */
  lemma SplitAtSeparator(w: string, rest: string, sep: char)
    requires sep !in w
    ensures Split(w + [sep] + rest, sep) == [w] + Split(rest, sep)
  {
    var t := [sep] + rest;
    assert t[1..] == rest;
    assert Split(t, sep) == [""] + Split(rest, sep);
    SplitWord(w, t, sep);
    assert w + [sep] + rest == w + t;
    assert w + "" == w;
  }

  /** Splitting a join of separator-free pieces gives back the pieces. */
  lemma {:induction false} SplitJoin(parts: seq<string>, sep: char)
    requires |parts| >= 1
    requires forall k :: 0 <= k < |parts| ==> sep !in parts[k]
    ensures Split(Join(parts, sep), sep) == parts
    decreases |parts|
  {
    if |parts| == 1 {
      SplitWord(parts[0], "", sep);
      assert parts[0] + "" == parts[0];
    } else {
      var tail := Join(parts[1..], sep);
      SplitJoin(parts[1..], sep);
      assert ([sep] + tail)[1..] == tail;
      assert Split([sep] + tail, sep) == [""] + parts[1..];
      assert Join(parts, sep) == parts[0] + ([sep] + tail);
      SplitWord(parts[0], [sep] + tail, sep);
      assert parts[0] + "" == parts[0];
      assert parts == [parts[0]] + parts[1..];
    }
  }

  /** `s.split(/\s+/)`: every maximal run of whitespace separates two pieces,
      so whitespace at either end leaves an empty piece there. */
  function SplitWs(s: string): (parts: seq<string>)
    ensures |parts| >= 1
    ensures forall k :: 0 <= k < |parts| ==> NoSpace(parts[k])
    decreases |s|
  {
    if |s| == 0 then [""]
    else
      var rest := SplitWs(s[1..]);
      if !IsSpace(s[0]) then [[s[0]] + rest[0]] + rest[1..]
      else if |s| > 1 && IsSpace(s[1]) then rest
      else [""] + rest
  }

  lemma {:induction false} SplitWsWord(w: string, t: string)
    requires NoSpace(w)
    ensures SplitWs(w + t) == [w + SplitWs(t)[0]] + SplitWs(t)[1..]
    decreases |w|
  {
    if |w| == 0 {
      assert w + t == t;
      assert w + SplitWs(t)[0] == SplitWs(t)[0];
      assert SplitWs(t) == [SplitWs(t)[0]] + SplitWs(t)[1..];
    } else {
      assert (w + t)[1..] == w[1..] + t;
      SplitWsWord(w[1..], t);
      var rest := SplitWs(w[1..] + t);
      assert rest[0] == w[1..] + SplitWs(t)[0];
      assert rest[1..] == SplitWs(t)[1..];
      assert [w[0]] + rest[0] == w + SplitWs(t)[0];
    }
  }

  /** On words separated by single spaces the whitespace split is the
      inverse of joining with a space. */
  lemma {:induction false} SplitWsJoin(words: seq<string>)
    requires |words| >= 1
    requires forall k :: 0 <= k < |words| ==> |words[k]| > 0 && NoSpace(words[k])
    ensures SplitWs(Join(words, ' ')) == words
    decreases |words|
  {
    if |words| == 1 {
      SplitWsWord(words[0], "");
      assert words[0] + "" == words[0];
    } else {
      var tail := Join(words[1..], ' ');
      SplitWsJoin(words[1..]);
      assert tail == words[1] || tail[..|words[1]|] == words[1] by {
        if |words[1..]| > 1 {
          assert tail == words[1] + ([' '] + Join(words[2..], ' '));
        }
      }
      assert !IsSpace(tail[0]);
      assert ([' '] + tail)[1..] == tail;
      assert SplitWs([' '] + tail) == [""] + words[1..];
      assert Join(words, ' ') == words[0] + ([' '] + tail);
      SplitWsWord(words[0], [' '] + tail);
      assert words[0] + "" == words[0];
      assert words == [words[0]] + words[1..];
    }
  }

  /** A run of whitespace of any length and mix, up to a character that is
      not whitespace, is one separator: it yields an empty first piece and
      nothing else. */
  lemma {:induction false} SplitWsRun(r: string, t: string)
    requires |r| > 0 && AllSpace(r)
    requires |t| == 0 || !IsSpace(t[0])
    ensures SplitWs(r + t) == [""] + SplitWs(t)
    decreases |r|
  {
    var s := r + t;
    if |r| == 1 {
      assert s[1..] == t;
    } else {
      assert s[1..] == r[1..] + t;
      SplitWsRun(r[1..], t);
    }
  }

  /** A word followed by any run of whitespace is split off whole: the run
      leaves no empty piece behind, whatever its length. */
  lemma SplitWsWordRun(w: string, r: string, t: string)
    requires |w| > 0 && NoSpace(w)
    requires |r| > 0 && AllSpace(r)
    requires |t| == 0 || !IsSpace(t[0])
    ensures SplitWs(w + r + t) == [w] + SplitWs(t)
  {
    SplitWsRun(r, t);
    SplitWsWord(w, r + t);
    assert w + r + t == w + (r + t);
    assert w + "" == w;
  }
}
