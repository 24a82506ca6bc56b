/** ASCII-only versions of the two string primitives the terminal applies to
    every input line: `toLowerCase` and `trim`. */
module Ascii {

  /** The ASCII members of the whitespace class used by `trim` and by the
      regular expression `\s`: tab, line feed, vertical tab, form feed,
      carriage return and space. */
  predicate IsSpace(c: char) {
    c == ' ' || c == '\t' || c == '\n' || c == '\U{000B}' || c == '\U{000C}' || c == '\r'
  }

  predicate IsUpper(c: char) {
    'A' <= c <= 'Z'
  }

  predicate NoSpace(s: string) {
    forall i :: 0 <= i < |s| ==> !IsSpace(s[i])
  }

  predicate AllSpace(s: string) {
    forall i :: 0 <= i < |s| ==> IsSpace(s[i])
  }

  predicate IsLower(s: string) {
    forall i :: 0 <= i < |s| ==> !IsUpper(s[i])
  }

  /** Lower-cases one ASCII letter; every other character is left alone. */
  function LowerChar(c: char): (r: char)
    ensures !IsUpper(r)
    ensures IsUpper(c) ==> r as int == c as int + 32
    ensures !IsUpper(c) ==> r == c
    ensures IsSpace(r) <==> IsSpace(c)
  {
    if IsUpper(c) then (c as int - 'A' as int + 'a' as int) as char else c
  }

  function ToLower(s: string): (r: string)
    ensures |r| == |s|
    ensures forall i :: 0 <= i < |s| ==> r[i] == LowerChar(s[i])
    ensures IsLower(r)
  {
    seq(|s|, i requires 0 <= i < |s| => LowerChar(s[i]))
  }

  lemma LowerOfLower(s: string)
    requires IsLower(s)
    ensures ToLower(s) == s
  {
  }

  lemma ToLowerIdempotent(s: string)
    ensures ToLower(ToLower(s)) == ToLower(s)
  {
    LowerOfLower(ToLower(s));
  }

  lemma ToLowerAppend(a: string, b: string)
    ensures ToLower(a + b) == ToLower(a) + ToLower(b)
  {
  }

  /** Number of whitespace characters at the front of `s`. */
  function LeadingSpaces(s: string): (n: nat)
    ensures n <= |s|
    ensures forall i :: 0 <= i < n ==> IsSpace(s[i])
    ensures n == |s| || !IsSpace(s[n])
    decreases |s|
  {
    if |s| > 0 && IsSpace(s[0]) then 1 + LeadingSpaces(s[1..]) else 0
  }

  /** Number of whitespace characters at the back of `s`. */
  function TrailingSpaces(s: string): (n: nat)
    ensures n <= |s|
    ensures forall i :: |s| - n <= i < |s| ==> IsSpace(s[i])
    ensures n == |s| || !IsSpace(s[|s| - 1 - n])
    decreases |s|
  {
    if |s| > 0 && IsSpace(s[|s| - 1]) then 1 + TrailingSpaces(s[..|s| - 1]) else 0
  }

  /** `String.prototype.trim`: the infix of `s` left after dropping the
      whitespace at both ends. */
  function Trim(s: string): (r: string)
    ensures |r| == 0 || (!IsSpace(r[0]) && !IsSpace(r[|r| - 1]))
  {
    var front := s[LeadingSpaces(s)..];
    front[..|front| - TrailingSpaces(front)]
  }

  lemma {:induction false} LeadingSpacesOf(a: string, t: string)
    requires AllSpace(a)
    requires |t| == 0 || !IsSpace(t[0])
    ensures LeadingSpaces(a + t) == |a|
    decreases |a|
  {
    if |a| == 0 {
      assert a + t == t;
    } else {
      assert (a + t)[1..] == a[1..] + t;
      LeadingSpacesOf(a[1..], t);
    }
  }

  lemma {:induction false} TrailingSpacesOf(t: string, b: string)
    requires AllSpace(b)
    requires |t| == 0 || !IsSpace(t[|t| - 1])
    ensures TrailingSpaces(t + b) == |b|
    decreases |b|
  {
    if |b| == 0 {
      assert t + b == t;
    } else {
      assert (t + b)[..|t + b| - 1] == t + b[..|b| - 1];
      TrailingSpacesOf(t, b[..|b| - 1]);
    }
  }

  /** `Trim` is characterised independently: whatever whitespace surrounds a
      middle part that neither starts nor ends with whitespace, trimming
      returns exactly that middle part. */
  lemma TrimUnique(a: string, m: string, b: string)
    requires AllSpace(a) && AllSpace(b)
    requires |m| == 0 || (!IsSpace(m[0]) && !IsSpace(m[|m| - 1]))
    ensures Trim(a + m + b) == m
  {
    var s := a + m + b;
    if |m| == 0 {
      assert s == (a + b) + "";
      LeadingSpacesOf(a + b, "");
      assert s[LeadingSpaces(s)..] == [];
    } else {
      assert s == a + (m + b);
      LeadingSpacesOf(a, m + b);
      assert s[LeadingSpaces(s)..] == m + b;
      TrailingSpacesOf(m, b);
      assert (m + b)[..|m + b| - |b|] == m;
    }
  }

  lemma TrimIdempotent(s: string)
    ensures Trim(Trim(s)) == Trim(s)
  {
    TrimUnique("", Trim(s), "");
    assert "" + Trim(s) + "" == Trim(s);
  }

  /** Trimming and lower-casing commute, because lower-casing never turns
      whitespace into something else or the reverse. */
  lemma TrimToLower(s: string)
    ensures Trim(ToLower(s)) == ToLower(Trim(s))
  {
    var a, b := TrimParts(s);
    var m := Trim(s);
    LowerAroundTrim(a, m, b);
    TrimUnique(ToLower(a), ToLower(m), ToLower(b));
  }

  /** Every string is its trimmed form between two runs of whitespace. */
  lemma TrimParts(s: string) returns (a: string, b: string)
    ensures AllSpace(a) && AllSpace(b)
    ensures s == a + Trim(s) + b
  {
    var n := LeadingSpaces(s);
    var front := s[n..];
    var m := TrailingSpaces(front);
    LeadingRun(s);
    TrailingRun(front);
    a, b := s[..n], front[|front| - m..];
    var mid := front[..|front| - m];
    assert Trim(s) == mid;
    SplitAt(front, |front| - m);
    SplitAt(s, n);
    Associate(a, mid, b);
  }

  lemma Associate(a: string, m: string, b: string)
    ensures a + m + b == a + (m + b)
  {
  }

  lemma LeadingRun(s: string)
    ensures AllSpace(s[..LeadingSpaces(s)])
  {
    var n := LeadingSpaces(s);
    forall i | 0 <= i < n ensures IsSpace(s[..n][i]) {
      assert s[..n][i] == s[i];
    }
  }

  lemma TrailingRun(s: string)
    ensures AllSpace(s[|s| - TrailingSpaces(s)..])
  {
    var k := |s| - TrailingSpaces(s);
    var t := s[k..];
    forall i | 0 <= i < |t| ensures IsSpace(t[i]) {
      assert t[i] == s[k + i];
    }
  }

  lemma SplitAt(s: string, i: nat)
    requires i <= |s|
    ensures s == s[..i] + s[i..]
  {
  }

  lemma LowerAroundTrim(a: string, m: string, b: string)
    requires AllSpace(a) && AllSpace(b)
    requires |m| == 0 || (!IsSpace(m[0]) && !IsSpace(m[|m| - 1]))
    ensures ToLower(a + m + b) == ToLower(a) + ToLower(m) + ToLower(b)
    ensures AllSpace(ToLower(a)) && AllSpace(ToLower(b))
    ensures var lm := ToLower(m); |lm| == 0 || (!IsSpace(lm[0]) && !IsSpace(lm[|lm| - 1]))
  {
    ToLowerAppend(a, m);
    ToLowerAppend(a + m, b);
  }
}
