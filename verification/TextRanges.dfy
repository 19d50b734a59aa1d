/**
 The pasted parts of an editor's text as ranges of offsets. Read as sets of offsets, merging keeps the set and gives its
 one sorted, non-touching form; replacing text is the image of the set under the edit.
 */
module TextRanges {
  datatype Range = Range(start: int, end: int)

  predicate In(r: Range, x: int) {
    r.start <= x < r.end
  }

  /** The set of offsets that ranges stand for. */
  predicate Covers(ranges: seq<Range>, x: int) {
    exists i | 0 <= i < |ranges| :: In(ranges[i], x)
  }

  ghost predicate SameSet(a: seq<Range>, b: seq<Range>) {
    forall x :: Covers(a, x) <==> Covers(b, x)
  }

  /** Sorted, none empty, none touching the next. */
  predicate Canonical(ranges: seq<Range>) {
    && (forall i | 0 <= i < |ranges| :: ranges[i].start < ranges[i].end)
    && (forall i, j | 0 <= i < j < |ranges| :: ranges[i].end < ranges[j].start)
  }

  lemma CoversOne(ranges: seq<Range>, i: nat, x: int)
    requires i < |ranges| && In(ranges[i], x)
    ensures Covers(ranges, x)
  {}

  lemma CoversAppend(ranges: seq<Range>, r: Range, x: int)
    ensures Covers(ranges + [r], x) <==> Covers(ranges, x) || In(r, x)
  {
    var more := ranges + [r];
    assert more[|ranges|] == r;
    if Covers(ranges, x) {
      var i :| 0 <= i < |ranges| && In(ranges[i], x);
      assert In(more[i], x);
    }
  }

  // ---- The canonical form is unique ----

  /** Where the first range of a canonical form ends is the first offset after its start that is not covered. */
  lemma FirstGap(a: seq<Range>)
    requires Canonical(a) && a != []
    ensures !Covers(a, a[0].end) && Covers(a, a[0].start)
    ensures forall x | x < a[0].start :: !Covers(a, x)
    ensures forall x | a[0].start <= x < a[0].end :: Covers(a, x)
  {
    assert In(a[0], a[0].start);
    forall x | a[0].start <= x < a[0].end
      ensures Covers(a, x)
    {
      assert In(a[0], x);
    }
  }

  lemma TailCovers(a: seq<Range>, x: int)
    requires Canonical(a) && a != []
    ensures Covers(a[1..], x) <==> Covers(a, x) && x > a[0].end
  {
    if Covers(a[1..], x) {
      var i :| 0 <= i < |a[1..]| && In(a[1..][i], x);
      assert In(a[i + 1], x);
    }
    if Covers(a, x) && x > a[0].end {
      var i :| 0 <= i < |a| && In(a[i], x);
      assert In(a[1..][i - 1], x);
    }
  }

  lemma {:induction false} CanonicalUnique(a: seq<Range>, b: seq<Range>)
    requires Canonical(a) && Canonical(b) && SameSet(a, b)
    ensures a == b
  {
    if a == [] && b == [] {
    } else if a == [] {
      FirstGap(b);
    } else if b == [] {
      FirstGap(a);
    } else {
      SameFirst(a, b);
      forall x
        ensures Covers(a[1..], x) <==> Covers(b[1..], x)
      {
        TailCovers(a, x);
        TailCovers(b, x);
      }
      CanonicalUnique(a[1..], b[1..]);
    }
  }

  lemma SameFirst(a: seq<Range>, b: seq<Range>)
    requires Canonical(a) && Canonical(b) && SameSet(a, b) && a != [] && b != []
    ensures a[0] == b[0]
  {
    hide Covers;
    FirstGap(a);
    FirstGap(b);
    assert a[0].start == b[0].start;
    assert !Covers(b, a[0].end) && !Covers(a, b[0].end);
  }

  // ---- Merging ----

  function InsertByStart(r: Range, sorted: seq<Range>): seq<Range> {
    if sorted == [] || sorted[|sorted| - 1].start <= r.start then sorted + [r]
    else InsertByStart(r, sorted[..|sorted| - 1]) + [sorted[|sorted| - 1]]
  }

  /** The ranges in order of their starts, as a stable sort gives them. */
  function SortByStart(ranges: seq<Range>): seq<Range> {
    if ranges == [] then [] else InsertByStart(ranges[|ranges| - 1], SortByStart(ranges[..|ranges| - 1]))
  }

  predicate ByStart(ranges: seq<Range>) {
    forall i, j | 0 <= i < j < |ranges| :: ranges[i].start <= ranges[j].start
  }

  lemma {:induction false} InsertKeeps(r: Range, sorted: seq<Range>)
    ensures multiset(InsertByStart(r, sorted)) == multiset(sorted) + multiset{r}
  {
    if sorted != [] && sorted[|sorted| - 1].start > r.start {
      var n := |sorted| - 1;
      InsertKeeps(r, sorted[..n]);
      assert sorted == sorted[..n] + [sorted[n]];
    }
  }

  /** Nothing inserted among ranges that begin by `limit` begins later, if the new range does not. */
  lemma {:induction false} InsertBelow(r: Range, sorted: seq<Range>, limit: int)
    requires r.start <= limit && forall i | 0 <= i < |sorted| :: sorted[i].start <= limit
    ensures forall i | 0 <= i < |InsertByStart(r, sorted)| :: InsertByStart(r, sorted)[i].start <= limit
  {
    if sorted != [] && sorted[|sorted| - 1].start > r.start {
      InsertBelow(r, sorted[..|sorted| - 1], limit);
    }
  }

  lemma {:induction false} InsertSorted(r: Range, sorted: seq<Range>)
    requires ByStart(sorted)
    ensures ByStart(InsertByStart(r, sorted))
  {
    if sorted != [] && sorted[|sorted| - 1].start > r.start {
      var n := |sorted| - 1;
      InsertSorted(r, sorted[..n]);
      InsertBelow(r, sorted[..n], sorted[n].start);
    }
  }

  lemma {:induction false} SortedSame(ranges: seq<Range>)
    ensures ByStart(SortByStart(ranges))
    ensures multiset(SortByStart(ranges)) == multiset(ranges)
  {
    hide InsertByStart, ByStart;
    NoneSorted();
    if ranges != [] {
      var n := |ranges| - 1;
      SortedSame(ranges[..n]);
      InsertSorted(ranges[n], SortByStart(ranges[..n]));
      InsertKeeps(ranges[n], SortByStart(ranges[..n]));
      assert ranges == ranges[..n] + [ranges[n]];
    }
  }

  lemma NoneSorted()
    ensures ByStart([])
  {}

  lemma PermutedCovers(a: seq<Range>, b: seq<Range>)
    requires multiset(a) == multiset(b)
    ensures SameSet(a, b)
  {
    forall x
      ensures Covers(a, x) <==> Covers(b, x)
    {
      forall r
        ensures r in a <==> r in b
      {
        assert r in multiset(a) <==> r in multiset(b);
      }
      if Covers(a, x) {
        var i :| 0 <= i < |a| && In(a[i], x);
        assert a[i] in b;
      }
      if Covers(b, x) {
        var i :| 0 <= i < |b| && In(b[i], x);
        assert b[i] in a;
      }
    }
  }

  /** Extending the last range by one that begins inside or next to it. */
  lemma ExtendLast(result: seq<Range>, r: Range, x: int)
    requires Canonical(result) && result != [] && r.start < r.end
    requires result[|result| - 1].start <= r.start <= result[|result| - 1].end
    ensures var last := result[|result| - 1];
      var longer := result[..|result| - 1] + [Range(last.start, if r.end > last.end then r.end else last.end)];
      Canonical(longer) && (Covers(longer, x) <==> Covers(result, x) || In(r, x))
  {
    var n := |result| - 1;
    var last := result[n];
    assert result == result[..n] + [last];
    CoversAppend(result[..n], last, x);
    CoversAppend(result[..n], Range(last.start, if r.end > last.end then r.end else last.end), x);
  }

  /** Adding a range that begins no earlier than those before. */
  method AddRange(result: seq<Range>, r: Range) returns (more: seq<Range>)
    requires Canonical(result) && (result != [] ==> result[|result| - 1].start <= r.start)
    ensures Canonical(more) && (more != [] ==> more[|more| - 1].start <= r.start)
    ensures forall x :: Covers(more, x) <==> Covers(result, x) || In(r, x)
  {
    hide Covers;
    if r.start >= r.end { return result; }
    if result != [] && r.start <= result[|result| - 1].end {
      forall x { ExtendLast(result, r, x); }
      var last := result[|result| - 1];
      more := result[..|result| - 1] + [Range(last.start, if r.end > last.end then r.end else last.end)];
    } else {
      forall x { CoversAppend(result, r, x); }
      more := result + [r];
    }
  }

  /** The one canonical form of the set the ranges stand for. */
  method MergeTextRanges(ranges: seq<Range>) returns (result: seq<Range>)
    ensures Canonical(result) && SameSet(result, ranges)
  {
    hide Covers, Canonical, SortByStart;
    var sorted := SortByStart(ranges);
    SortedSame(ranges);
    PermutedCovers(sorted, ranges);
    result := [];
    CanonicalNone();
    for i := 0 to |sorted|
      invariant Canonical(result) && SameSet(result, sorted[..i])
      invariant result != [] && i < |sorted| ==> result[|result| - 1].start <= sorted[i].start
    {
      assert sorted[..i + 1] == sorted[..i] + [sorted[i]];
      forall x { CoversAppend(sorted[..i], sorted[i], x); }
      result := AddRange(result, sorted[i]);
    }
    assert sorted[..|sorted|] == sorted;
  }

  lemma CanonicalNone()
    ensures Canonical([])
  {}

  // ---- Replacing ----

  /** The set after `[start, end)` of the text became `inserted` units: an offset before, in or after the new text. */
  predicate Image(ranges: seq<Range>, start: int, end: int, inserted: int, pasted: bool, x: int) {
    if x < start then Covers(ranges, x)
    else if x < start + inserted then pasted
    else Covers(ranges, x - inserted + (end - start))
  }

  /** What one range becomes. */
  function Moved(r: Range, start: int, end: int, inserted: int): seq<Range> {
    var delta := inserted - (end - start);
    if r.end <= start then [r]
    else if r.start >= end then [Range(r.start + delta, r.end + delta)]
    else
      (if r.start < start then [Range(r.start, start)] else [])
      + if r.end > end then [Range(start + inserted, r.end + delta)] else []
  }

  lemma MovedCovers(r: Range, start: int, end: int, inserted: int, x: int)
    requires start <= end && 0 <= inserted
    ensures Covers(Moved(r, start, end, inserted), x) <==> Image([r], start, end, inserted, false, x)
  {
    hide Covers;
    var delta := inserted - (end - start);
    OneCovers(r, x);
    OneCovers(r, x - delta);
    OneCovers(Range(r.start + delta, r.end + delta), x);
    OneCovers(Range(r.start, start), x);
    OneCovers(Range(start + inserted, r.end + delta), x);
    NoneCovers(x);
    var left := if r.start < start then [Range(r.start, start)] else [];
    var right := if r.end > end then [Range(start + inserted, r.end + delta)] else [];
    CoversConcat(left, right, x);
    assert r.start < end && start < r.end ==> Moved(r, start, end, inserted) == left + right;
  }

  lemma OneCovers(r: Range, x: int)
    ensures Covers([r], x) <==> In(r, x)
  {
    assert [r][0] == r;
  }

  lemma NoneCovers(x: int)
    ensures !Covers([], x)
  {}

  lemma CoversConcat(a: seq<Range>, b: seq<Range>, x: int)
    ensures Covers(a + b, x) <==> Covers(a, x) || Covers(b, x)
  {
    if Covers(a, x) {
      var i :| 0 <= i < |a| && In(a[i], x);
      assert In((a + b)[i], x);
    }
    if Covers(b, x) {
      var i :| 0 <= i < |b| && In(b[i], x);
      assert In((a + b)[|a| + i], x);
    }
  }

  /** Ranges after an edit of the text: exactly the image of their set, in canonical form. */
  method ReplaceTextRanges(ranges: seq<Range>, start: int, end: int, inserted: int, pasted: bool)
    returns (result: seq<Range>)
    ensures Canonical(result)
    ensures start <= end && 0 <= inserted ==>
      forall x :: Covers(result, x) <==> Image(ranges, start, end, inserted, pasted, x)
  {
    hide Covers, Canonical, In, Moved;
    var moved: seq<Range> := [];
    forall x ensures !Covers(moved, x) && !Covers(ranges[..0], x) { NoneCovers(x); }
    for i := 0 to |ranges|
      invariant start <= end && 0 <= inserted ==>
        forall x :: Covers(moved, x) <==> Image(ranges[..i], start, end, inserted, false, x)
    {
      if start <= end && 0 <= inserted {
        forall x
          ensures Covers(moved + Moved(ranges[i], start, end, inserted), x) <==>
            Image(ranges[..i + 1], start, end, inserted, false, x)
        {
          ImageStep(ranges, i, start, end, inserted, x);
          CoversConcat(moved, Moved(ranges[i], start, end, inserted), x);
        }
      }
      moved := moved + Moved(ranges[i], start, end, inserted);
    }
    assert ranges[..|ranges|] == ranges;
    if pasted {
      if start <= end && 0 <= inserted {
        forall x
          ensures Covers(moved + [Range(start, start + inserted)], x) <==> Image(ranges, start, end, inserted, true, x)
        {
          PasteStep(ranges, moved, start, end, inserted, x);
        }
      }
      moved := moved + [Range(start, start + inserted)];
    }
    result := MergeTextRanges(moved);
  }

  lemma ImageStep(ranges: seq<Range>, i: nat, start: int, end: int, inserted: int, x: int)
    requires i < |ranges| && start <= end && 0 <= inserted
    ensures Image(ranges[..i + 1], start, end, inserted, false, x) <==>
      Image(ranges[..i], start, end, inserted, false, x) || Covers(Moved(ranges[i], start, end, inserted), x)
  {
    hide Covers, Moved;
    assert ranges[..i + 1] == ranges[..i] + [ranges[i]];
    MovedCovers(ranges[i], start, end, inserted, x);
    CoversConcat(ranges[..i], [ranges[i]], x);
    CoversConcat(ranges[..i], [ranges[i]], x - inserted + (end - start));
  }

  lemma PasteStep(ranges: seq<Range>, moved: seq<Range>, start: int, end: int, inserted: int, x: int)
    requires Covers(moved, x) <==> Image(ranges, start, end, inserted, false, x)
    ensures Covers(moved + [Range(start, start + inserted)], x) <==> Image(ranges, start, end, inserted, true, x)
  {
    CoversAppend(moved, Range(start, start + inserted), x);
  }

  // ---- Carrying onto a rewrite ----

  function Min(a: nat, b: nat): nat {
    if a < b then a else b
  }

  predicate IsPrefix(a: string, b: string, p: nat) {
    p <= Min(|a|, |b|) && a[..p] == b[..p] && (p < Min(|a|, |b|) ==> a[p] != b[p])
  }

  predicate IsSuffix(a: string, b: string, p: nat, s: nat) {
    && p + s <= Min(|a|, |b|) && a[|a| - s..] == b[|b| - s..]
    && (p + s < Min(|a|, |b|) ==> a[|a| - 1 - s] != b[|b| - 1 - s])
  }

  method CommonPrefix(a: string, b: string) returns (p: nat)
    ensures IsPrefix(a, b, p)
  {
    p := 0;
    while p < Min(|a|, |b|) && a[p] == b[p]
      invariant p <= Min(|a|, |b|) && a[..p] == b[..p]
    {
      p := p + 1;
    }
  }

  method CommonSuffix(a: string, b: string, p: nat) returns (s: nat)
    requires p <= Min(|a|, |b|)
    ensures IsSuffix(a, b, p, s)
  {
    s := 0;
    while s < Min(|a|, |b|) - p && a[|a| - 1 - s] == b[|b| - 1 - s]
      invariant s <= Min(|a|, |b|) - p && a[|a| - s..] == b[|b| - s..]
    {
      s := s + 1;
    }
  }

  /** Some pasted range reaches into the rewritten part, or right across an insertion. */
  predicate Touched(ranges: seq<Range>, start: int, end: int) {
    exists i | 0 <= i < |ranges| :: ranges[i].start < end && ranges[i].end > start
  }

  /**
   Carrying ranges onto a rewrite: the longest common prefix and the longest common suffix after it keep their flags,
   and all text between becomes pasted exactly when rewriting does that and touched a pasted range.
   */
  method CarryTextRanges(previous: string, next: string, ranges: seq<Range>, keepsPasted: bool)
    returns (result: seq<Range>, ghost p: nat, ghost s: nat)
    ensures Canonical(result)
    ensures ranges == [] || previous == next ==> SameSet(result, ranges)
    ensures ranges != [] && previous != next ==>
      && IsPrefix(previous, next, p) && IsSuffix(previous, next, p, s)
      && (forall x | x < p :: Covers(result, x) <==> Covers(ranges, x))
      && (forall x | |next| - s <= x :: Covers(result, x) <==> Covers(ranges, x - |next| + |previous|))
      && (forall x | p <= x < |next| - s :: Covers(result, x) <==> keepsPasted && Touched(ranges, p, |previous| - s))
  {
    hide Covers, Canonical, Touched, SameSet;
    p, s := 0, 0;
    if ranges == [] || previous == next {
      result := MergeTextRanges(ranges);
      return;
    }
    var prefix := CommonPrefix(previous, next);
    var suffix := CommonSuffix(previous, next, prefix);
    var end := |previous| - suffix;
    var touched := keepsPasted && Touched(ranges, prefix, end);
    result := ReplaceTextRanges(ranges, prefix, end, |next| - suffix - prefix, touched);
    p, s := prefix, suffix;
  }

  /** What touching is meant to say: pasted offsets in the part, or on both sides of an insertion. */
  predicate Reached(ranges: seq<Range>, start: int, end: int) {
    if start < end then exists x | start <= x < end :: Covers(ranges, x)
    else Covers(ranges, start - 1) && Covers(ranges, start)
  }

  predicate Meets(r: Range, start: int, end: int) {
    r.start < end && r.end > start
  }

  /** Not all ranges that pass the test are empty; an insertion is not just where one range ends and another begins. */
  predicate Testable(ranges: seq<Range>, start: int, end: int) {
    if start < end then
      (exists i | 0 <= i < |ranges| :: Meets(ranges[i], start, end)) ==>
        exists i | 0 <= i < |ranges| :: Meets(ranges[i], start, end) && ranges[i].start < ranges[i].end
    else
      || (exists i | 0 <= i < |ranges| :: ranges[i].start < start < ranges[i].end)
      || (forall i | 0 <= i < |ranges| :: !(ranges[i].start < start == ranges[i].end))
      || (forall i | 0 <= i < |ranges| :: !(ranges[i].start == start < ranges[i].end))
  }

  /** A non-empty range that meets the part covers an offset of it. */
  lemma MeetsCovers(ranges: seq<Range>, i: nat, start: int, end: int)
    requires i < |ranges| && start < end && Meets(ranges[i], start, end) && ranges[i].start < ranges[i].end
    ensures exists x | start <= x < end :: Covers(ranges, x)
  {
    CoversOne(ranges, i, if ranges[i].start < start then start else ranges[i].start);
  }

  /** The test is right if and only if the ranges are testable. */
  lemma TouchedExact(ranges: seq<Range>, start: int, end: int)
    requires start <= end
    ensures (Touched(ranges, start, end) <==> Reached(ranges, start, end)) <==> Testable(ranges, start, end)
  {
    if start < end {
      TouchedPart(ranges, start, end);
    } else {
      TouchedInsertion(ranges, start);
    }
  }

  lemma TouchedPart(ranges: seq<Range>, start: int, end: int)
    requires start < end
    ensures (Touched(ranges, start, end) <==> Reached(ranges, start, end)) <==> Testable(ranges, start, end)
  {
    assert Touched(ranges, start, end) <==> exists i | 0 <= i < |ranges| :: Meets(ranges[i], start, end);
    if exists i | 0 <= i < |ranges| :: Meets(ranges[i], start, end) && ranges[i].start < ranges[i].end {
      var i :| 0 <= i < |ranges| && Meets(ranges[i], start, end) && ranges[i].start < ranges[i].end;
      MeetsCovers(ranges, i, start, end);
    } else if Reached(ranges, start, end) {
      var x :| start <= x < end && Covers(ranges, x);
      var i :| 0 <= i < |ranges| && In(ranges[i], x);
      assert Meets(ranges[i], start, end);
    }
  }

  lemma TouchedInsertion(ranges: seq<Range>, at: int)
    ensures (Touched(ranges, at, at) <==> Reached(ranges, at, at)) <==> Testable(ranges, at, at)
  {
    if i :| 0 <= i < |ranges| && ranges[i].start < at < ranges[i].end {
      CoversOne(ranges, i, at - 1);
      CoversOne(ranges, i, at);
    } else {
      EndsHere(ranges, at);
      BeginsHere(ranges, at);
    }
  }

  lemma EndsHere(ranges: seq<Range>, at: int)
    requires forall i | 0 <= i < |ranges| :: !(ranges[i].start < at < ranges[i].end)
    ensures Covers(ranges, at - 1) <==> exists i | 0 <= i < |ranges| :: ranges[i].start < at == ranges[i].end
  {
    if i :| 0 <= i < |ranges| && ranges[i].start < at == ranges[i].end {
      CoversOne(ranges, i, at - 1);
    }
    if Covers(ranges, at - 1) {
      var i :| 0 <= i < |ranges| && In(ranges[i], at - 1);
      assert ranges[i].start < at == ranges[i].end;
    }
  }

  lemma BeginsHere(ranges: seq<Range>, at: int)
    requires forall i | 0 <= i < |ranges| :: !(ranges[i].start < at < ranges[i].end)
    ensures Covers(ranges, at) <==> exists i | 0 <= i < |ranges| :: ranges[i].start == at < ranges[i].end
  {
    if i :| 0 <= i < |ranges| && ranges[i].start == at < ranges[i].end {
      CoversOne(ranges, i, at);
    }
    if Covers(ranges, at) {
      var i :| 0 <= i < |ranges| && In(ranges[i], at);
      assert ranges[i].start == at < ranges[i].end;
    }
  }

  /** In canonical form ranges are testable whatever is rewritten. */
  lemma TouchedMeansCovered(ranges: seq<Range>, start: int, end: int)
    requires Canonical(ranges) && start <= end
    ensures Touched(ranges, start, end) <==> Reached(ranges, start, end)
  {
    TouchedExact(ranges, start, end);
  }

  /** An empty range, which stands for no offset at all, still counts as touched. */
  lemma EmptyRangeExample()
    ensures var ranges := [Range(5, 5)]; Touched(ranges, 4, 6) && forall x :: !Covers(ranges, x)
  {
    assert [Range(5, 5)][0] == Range(5, 5);
  }

  /** Text typed where two pasted ranges touch stays typed, although both its neighbours are pasted. */
  lemma TouchingRangesExample()
    ensures var ranges := [Range(0, 5), Range(5, 9)];
      !Touched(ranges, 5, 5) && Covers(ranges, 4) && Covers(ranges, 5)
  {
    var ranges := [Range(0, 5), Range(5, 9)];
    assert ranges[0] == Range(0, 5) && ranges[1] == Range(5, 9);
    CoversOne(ranges, 0, 4);
    CoversOne(ranges, 1, 5);
  }
}
