/** Searching and joining strings, as `indexOf` and `join("")` do. */
module Strings {
  predicate OccursAt(s: string, pattern: string, i: int) {
    0 <= i && i + |pattern| <= |s| && s[i..i + |pattern|] == pattern
  }

  predicate Occurs(s: string, pattern: string) {
    exists i | 0 <= i <= |s| :: OccursAt(s, pattern, i)
  }

  /** The first position at or after `from` where `pattern` occurs, or -1. */
  function IndexFrom(s: string, pattern: string, from: nat): (r: int)
    ensures r == -1 ==> forall i :: from <= i ==> !OccursAt(s, pattern, i)
    ensures r != -1 ==> from <= r && OccursAt(s, pattern, r)
    ensures r != -1 ==> forall i | from <= i < r :: !OccursAt(s, pattern, i)
    decreases |s| - from
  {
    if from + |pattern| > |s| then -1
    else if OccursAt(s, pattern, from) then from
    else IndexFrom(s, pattern, from + 1)
  }

  function IndexOf(s: string, pattern: string): (r: int)
    ensures -1 <= r <= |s| - |pattern| || r == -1
    ensures r == -1 <==> !Occurs(s, pattern)
    ensures r != -1 ==> OccursAt(s, pattern, r)
    ensures r != -1 ==> forall i | i < r :: !OccursAt(s, pattern, i)
  {
    IndexFrom(s, pattern, 0)
  }

  function Concat(parts: seq<string>): string {
    if parts == [] then "" else Concat(parts[..|parts| - 1]) + parts[|parts| - 1]
  }

  lemma {:induction false} ConcatAppend(a: seq<string>, b: seq<string>)
    ensures Concat(a + b) == Concat(a) + Concat(b)
  {
    if b == [] {
      assert a + b == a;
    } else {
      var m := |b| - 1;
      ConcatAppend(a, b[..m]);
      assert (a + b)[..|a + b| - 1] == a + b[..m];
    }
  }

  lemma ConcatOne(s: string)
    ensures Concat([s]) == s
  {
    assert [s][..0] == [];
  }
}
