/** The `search` filter over the project list. */
module Search {
  import opened Ascii
  import opened Substrings
  import P = Profile

  /** A project matches a (lower-case) keyword when its lower-cased
      description contains it, or when one of its technologies does. A
      project without a technology list can only match by description. */
  predicate Matches(p: P.Project, keyword: string) {
    || Contains(ToLower(p.description), keyword)
    || (p.technologies.Some? && exists t :: t in p.technologies.value && Contains(ToLower(t), keyword))
  }

  /** `projects.filter(p => Matches(p, keyword))`. */
  function Filter(projects: seq<P.Project>, keyword: string): (hits: seq<P.Project>)
    ensures |hits| <= |projects|
    ensures forall p :: p in hits <==> p in projects && Matches(p, keyword)
    decreases |projects|
  {
    if |projects| == 0 then []
    else (if Matches(projects[0], keyword) then [projects[0]] else []) + Filter(projects[1..], keyword)
  }

  /** The filter keeps the original order: filtering a concatenation
      concatenates the filtered parts. */
  lemma {:induction false} FilterAppend(a: seq<P.Project>, b: seq<P.Project>, keyword: string)
    ensures Filter(a + b, keyword) == Filter(a, keyword) + Filter(b, keyword)
    decreases |a|
  {
    if |a| == 0 {
      assert a + b == b;
    } else {
      assert (a + b)[1..] == a[1..] + b;
      FilterAppend(a[1..], b, keyword);
    }
  }

  /** Every project kept is kept again: filtering twice is filtering once. */
  lemma {:induction false} FilterIdempotent(projects: seq<P.Project>, keyword: string)
    ensures Filter(Filter(projects, keyword), keyword) == Filter(projects, keyword)
    decreases |projects|
  {
    if |projects| > 0 {
      var head := if Matches(projects[0], keyword) then [projects[0]] else [];
      FilterAppend(head, Filter(projects[1..], keyword), keyword);
      FilterIdempotent(projects[1..], keyword);
      if Matches(projects[0], keyword) {
        assert Filter(head, keyword) == head by {
          assert head[1..] == [];
        }
      }
    }
  }

  /** Nothing is dropped when every project matches. */
  lemma {:induction false} FilterAll(projects: seq<P.Project>, keyword: string)
    requires forall i :: 0 <= i < |projects| ==> Matches(projects[i], keyword)
    ensures Filter(projects, keyword) == projects
    decreases |projects|
  {
    if |projects| > 0 {
      FilterAll(projects[1..], keyword);
      assert projects == [projects[0]] + projects[1..];
    }
  }
}
