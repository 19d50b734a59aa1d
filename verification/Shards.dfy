/**
 Writing transcripts to files of at most `maxChars` characters, filling each file before the next is begun. No other way
 to cut the same transcripts into such files, in order, needs fewer of them.
 */
module Shards {
  import opened Results
  import opened Json
  import opened Strings

  /** A file as written. Its name carries `index`. */
  datatype Shard = Shard(index: nat, content: string, chars: nat, lines: nat, oversized: bool)

  type Group = seq<string>

  const SEPARATOR := "\n\n"

  function Joined(group: Group): string {
    if group == [] then ""
    else if |group| == 1 then group[0]
    else Joined(group[..|group| - 1]) + SEPARATOR + group[|group| - 1]
  }

  function Flatten(groups: seq<Group>): seq<string> {
    if groups == [] then [] else Flatten(groups[..|groups| - 1]) + groups[|groups| - 1]
  }

  function Newlines(s: string): nat {
    if s == "" then 0 else Newlines(s[..|s| - 1]) + if s[|s| - 1] == '\n' then 1 else 0
  }

  /** The newlines are the places that hold one. */
  lemma {:induction false} NewlinesCount(s: string)
    ensures Newlines(s) == |set i | 0 <= i < |s| && s[i] == '\n'|
  {
    var here := set i | 0 <= i < |s| && s[i] == '\n';
    if s != "" {
      var n := |s| - 1;
      var before := set i | 0 <= i < n && s[..n][i] == '\n';
      NewlinesCount(s[..n]);
      assert here == before + if s[n] == '\n' then {n} else {};
    } else {
      assert here == {};
    }
  }

  lemma {:induction false} NewlinesConcat(a: string, b: string)
    ensures Newlines(a + b) == Newlines(a) + Newlines(b)
  {
    if b == "" {
      assert a + b == a;
    } else {
      NewlinesConcat(a, b[..|b| - 1]);
      assert (a + b)[..|a + b| - 1] == a + b[..|b| - 1];
    }
  }

  method CountNewlines(text: string) returns (count: nat)
    ensures count == Newlines(text)
  {
    count := 0;
    for i := 0 to |text|
      invariant count == Newlines(text[..i])
    {
      assert text[..i + 1][..i] == text[..i];
      if text[i] == '\n' {
        count := count + 1;
      }
    }
    assert text[..|text|] == text;
  }

  /** A group that may become a file: one transcript of any length, or several that fit together. */
  predicate Fits(group: Group, max: nat) {
    group != [] && (|group| == 1 || |Joined(group)| <= max)
  }

  /** The file a group becomes: a line count one above its newlines, and a mark when it is over the limit. */
  ghost predicate Writes(shard: Shard, group: Group, index: nat, max: nat) {
    shard == Shard(index, Joined(group), |Joined(group)|, Newlines(Joined(group)) + 1, |Joined(group)| > max)
  }

  ghost predicate AllWritten(files: seq<Shard>, groups: seq<Group>, max: nat) {
    |files| == |groups| && forall k | 0 <= k < |files| :: Fits(groups[k], max) && Writes(files[k], groups[k], k, max)
  }

  function NonBlank(ts: seq<string>): seq<string> {
    if ts == [] then []
    else NonBlank(ts[..|ts| - 1]) + if ts[|ts| - 1] == "" then [] else [ts[|ts| - 1]]
  }

  lemma {:induction false} NonBlankConcat(a: seq<string>, b: seq<string>)
    ensures NonBlank(a + b) == NonBlank(a) + NonBlank(b)
  {
    if b == [] {
      assert a + b == a;
    } else {
      NonBlankConcat(a, b[..|b| - 1]);
      assert (a + b)[..|a + b| - 1] == a + b[..|b| - 1];
    }
  }

  /** The characters of the file left open after `ts`; a blank transcript cannot open one. */
  function Left(ts: seq<string>, max: nat): nat {
    if ts == [] then 0
    else
      var t, chars := ts[|ts| - 1], Left(ts[..|ts| - 1], max);
      if |t| > max then 0
      else if chars > 0 && chars + 2 + |t| <= max then chars + 2 + |t|
      else |t|
  }

  /** A blank transcript that no open file takes is lost. */
  predicate Lost(ts: seq<string>, t: string, max: nat) {
    t == "" && (Left(ts, max) == 0 || Left(ts, max) + 2 > max)
  }

  /** The transcripts that get written. */
  function Kept(ts: seq<string>, max: nat): seq<string> {
    if ts == [] then []
    else
      var t, before := ts[|ts| - 1], ts[..|ts| - 1];
      Kept(before, max) + if Lost(before, t, max) then [] else [t]
  }

  lemma {:induction false} KeptLength(ts: seq<string>, max: nat)
    ensures |Kept(ts, max)| <= |ts|
  {
    if ts != [] {
      KeptLength(ts[..|ts| - 1], max);
    }
  }

  /** All transcripts are written, in order, if and only if none is lost. */
  lemma {:induction false} KeptAll(ts: seq<string>, max: nat)
    ensures Kept(ts, max) == ts <==> forall i | 0 <= i < |ts| :: !Lost(ts[..i], ts[i], max)
  {
    hide Lost;
    if ts != [] {
      var before, t := ts[..|ts| - 1], ts[|ts| - 1];
      KeptAll(before, max);
      KeptLength(before, max);
      assert ts == before + [t];
      KeptStep(before, t, max);
      LostBefore(before, t, max);
      AppendedSame(Kept(before, max), before, t);
      hide Kept;
    }
  }

  /** What is lost of more transcripts: what was lost already, and perhaps the last one. */
  lemma LostBefore(before: seq<string>, t: string, max: nat)
    ensures var ts := before + [t];
      (forall i | 0 <= i < |ts| :: !Lost(ts[..i], ts[i], max))
      <==> (forall i | 0 <= i < |before| :: !Lost(before[..i], before[i], max)) && !Lost(before, t, max)
  {
    hide Lost;
    var ts, n := before + [t], |before|;
    assert ts[..n] == before && ts[n] == t;
    forall i | 0 <= i < n
      ensures before[..i] == ts[..i] && before[i] == ts[i]
    {}
  }

  lemma AppendedSame(a: seq<string>, b: seq<string>, t: string)
    ensures a + [t] == b + [t] <==> a == b
  {
    assert (a + [t])[..|a + [t]| - 1] == a && (b + [t])[..|b + [t]| - 1] == b;
  }

  lemma NoneLost(ts: seq<string>, max: nat)
    requires NoBlank(ts)
    ensures Kept(ts, max) == ts
  {
    KeptAll(ts, max);
  }

  lemma KeptStep(before: seq<string>, t: string, max: nat)
    ensures Kept(before + [t], max) == if Lost(before, t, max) then Kept(before, max) else Kept(before, max) + [t]
    ensures Lost(before, t, max) ==> t == ""
  {
    hide Left;
    assert (before + [t])[..|before|] == before;
    assert Kept(before, max) + [] == Kept(before, max);
  }

  /** What is lost is blank. */
  lemma {:induction false} KeptNonBlank(ts: seq<string>, max: nat)
    ensures NonBlank(Kept(ts, max)) == NonBlank(ts)
  {
    hide NonBlank, Lost;
    if ts != [] {
      var before, t := ts[..|ts| - 1], ts[|ts| - 1];
      KeptNonBlank(before, max);
      assert before + [t] == ts;
      KeptStep(before, t, max);
      hide Kept;
      NonBlankConcat(Kept(before, max), [t]);
      NonBlankConcat(before, [t]);
      NonBlankOne(t);
      assert NonBlank(before) + [] == NonBlank(before);
    }
  }

  lemma NonBlankOne(t: string)
    ensures NonBlank([t]) == if t == "" then [] else [t]
  {
    assert [t][..0] == [];
  }

  /** A blank transcript ahead of any other text. */
  lemma LostExample(t: string, max: nat)
    requires t != ""
    ensures Kept(["", t], max) == [t]
  {
    var ts := ["", t];
    assert ts[..1] == [""] && ts[..1][..0] == [];
    assert Kept([""], max) == [] by {
      assert [""][..0] == [];
    }
  }

  // ---- How many files are needed ----

  predicate NoBlank(ts: seq<string>) {
    forall i | 0 <= i < |ts| :: ts[i] != ""
  }

  /** The files begun for `ts` when each takes what still fits after the `chars` characters of the one before. */
  function Begun(ts: seq<string>, chars: nat, max: nat): nat {
    if ts == [] then 0
    else if |ts[0]| > max then 1 + Begun(ts[1..], 0, max)
    else if chars > 0 && chars + 2 + |ts[0]| <= max then Begun(ts[1..], chars + 2 + |ts[0]|, max)
    else 1 + Begun(ts[1..], |ts[0]|, max)
  }

  /** A fuller file never saves one, and costs at most one. */
  lemma {:induction false} BegunFuller(ts: seq<string>, a: nat, b: nat, max: nat)
    requires NoBlank(ts) && 0 < a <= b
    ensures Begun(ts, a, max) <= Begun(ts, b, max) <= 1 + Begun(ts, a, max)
  {
    if ts != [] && |ts[0]| <= max {
      var n := |ts[0]|;
      if b + 2 + n <= max {
        BegunFuller(ts[1..], a + 2 + n, b + 2 + n, max);
      } else if a + 2 + n <= max {
        BegunFuller(ts[1..], n, a + 2 + n, max);
      }
    }
  }

  /** An open file is no worse than none. */
  lemma BegunOpen(ts: seq<string>, chars: nat, max: nat)
    requires NoBlank(ts)
    ensures Begun(ts, chars, max) <= Begun(ts, 0, max)
  {
    if ts != [] && |ts[0]| <= max && chars > 0 && chars + 2 + |ts[0]| <= max {
      BegunFuller(ts[1..], |ts[0]|, chars + 2 + |ts[0]|, max);
    }
  }

  /** A group that fits is taken into one file. */
  lemma {:induction false} BegunGroup(group: Group, rest: seq<string>, max: nat)
    requires Fits(group, max) && NoBlank(group) && |Joined(group)| <= max
    ensures Begun(group + rest, 0, max) == 1 + Begun(rest, |Joined(group)|, max)
    decreases |group|
  {
    if |group| == 1 {
      assert (group + rest)[1..] == rest;
    } else {
      var n := |group| - 1;
      BegunGroup(group[..n], [group[n]] + rest, max);
      assert group[..n] + ([group[n]] + rest) == group + rest;
      assert ([group[n]] + rest)[1..] == rest;
      JoinedSome(group[..n]);
    }
  }

  lemma {:induction false} JoinedSome(group: Group)
    requires group != [] && NoBlank(group)
    ensures |Joined(group)| > 0
  {}

  /** Any way of cutting the transcripts into files that fit needs at least as many files. */
  lemma {:induction false} NoFewer(groups: seq<Group>, rest: seq<string>, max: nat)
    ensures (forall k | 0 <= k < |groups| :: Fits(groups[k], max)) && NoBlank(Flatten(groups)) && NoBlank(rest) ==>
      Begun(Flatten(groups) + rest, 0, max) <= |groups| + Begun(rest, 0, max)
  {
    hide Begun, Joined, Fits, NoBlank;
    if groups == [] {
      assert Flatten(groups) + rest == rest;
    } else if (forall k | 0 <= k < |groups| :: Fits(groups[k], max)) && NoBlank(Flatten(groups)) && NoBlank(rest) {
      var n := |groups| - 1;
      var before := Flatten(groups[..n]);
      NoBlankConcat(before, groups[n]);
      NoBlankConcat(groups[n], rest);
      NoFewer(groups[..n], groups[n] + rest, max);
      assert before + (groups[n] + rest) == Flatten(groups) + rest;
      GroupBegun(groups[n], rest, max);
    }
  }

  lemma NoBlankConcat(a: seq<string>, b: seq<string>)
    ensures NoBlank(a + b) <==> NoBlank(a) && NoBlank(b)
  {
    assert forall i | 0 <= i < |a| :: a[i] == (a + b)[i];
    assert forall i | 0 <= i < |b| :: b[i] == (a + b)[|a| + i];
  }

  /** A group that fits costs at most one file. */
  lemma GroupBegun(group: Group, rest: seq<string>, max: nat)
    requires Fits(group, max) && NoBlank(group) && NoBlank(rest)
    ensures Begun(group + rest, 0, max) <= 1 + Begun(rest, 0, max)
  {
    if |Joined(group)| <= max {
      BegunGroup(group, rest, max);
      BegunOpen(rest, |Joined(group)|, max);
    } else {
      assert (group + rest)[1..] == rest;
    }
  }

  // ---- Writing them ----

  /** The transcripts cut into groups so far: those written, and those of the file still open. */
  ghost predicate Cut(ts: seq<string>, files: seq<Shard>, groups: seq<Group>, open_: Group, max: nat) {
    && AllWritten(files, groups, max)
    && Flatten(groups) + open_ == Kept(ts, max)
  }

  /** The file still open: its pieces, its length and its newlines. */
  ghost predicate Open(parts: seq<string>, chars: nat, newlines: nat, open_: Group, max: nat) {
    && Concat(parts) == Joined(open_) && chars == |Joined(open_)| <= max && newlines == Newlines(Joined(open_))
    && (chars == 0 <==> open_ == [])
  }

  ghost predicate Count(ts: seq<string>, i: nat, groups: seq<Group>, open_: Group, max: nat)
    requires i <= |ts|
  {
    NoBlank(ts) ==>
      |groups| + (if open_ == [] then 0 else 1) + Begun(ts[i..], |Joined(open_)|, max) == Begun(ts, 0, max)
  }

  lemma WriteGroup(ts: seq<string>, files: seq<Shard>, groups: seq<Group>, open_: Group, shard: Shard, max: nat)
    requires Cut(ts, files, groups, open_, max) && Fits(open_, max) && Writes(shard, open_, |groups|, max)
    ensures Cut(ts, files + [shard], groups + [open_], [], max)
  {
    var more := groups + [open_];
    assert more[..|more| - 1] == groups;
    assert Flatten(more) + [] == Flatten(groups) + open_;
  }

  lemma TakeBlank(ts: seq<string>, i: nat, files: seq<Shard>, groups: seq<Group>, max: nat)
    requires i < |ts| && Cut(ts[..i], files, groups, [], max) && Lost(ts[..i], ts[i], max)
    ensures Cut(ts[..i + 1], files, groups, [], max)
  {
    assert ts[..i + 1][..i] == ts[..i];
    assert ts[..i + 1][i] == ts[i];
  }

  lemma Take(ts: seq<string>, i: nat, files: seq<Shard>, groups: seq<Group>, open_: Group, max: nat)
    requires i < |ts| && Cut(ts[..i], files, groups, open_, max) && !Lost(ts[..i], ts[i], max)
    ensures Cut(ts[..i + 1], files, groups, open_ + [ts[i]], max)
  {
    assert ts[..i + 1][..i] == ts[..i];
    assert Flatten(groups) + (open_ + [ts[i]]) == Flatten(groups) + open_ + [ts[i]];
  }

  lemma LeftNext(ts: seq<string>, i: nat, max: nat)
    requires i < |ts|
    ensures var t, chars := ts[i], Left(ts[..i], max);
      Left(ts[..i + 1], max) == if |t| > max then 0
        else if chars > 0 && chars + 2 + |t| <= max then chars + 2 + |t| else |t|
  {
    assert ts[..i + 1][..i] == ts[..i];
  }

  lemma JoinedMore(open_: Group, t: string)
    requires open_ != []
    ensures Joined(open_ + [t]) == Joined(open_) + SEPARATOR + t
    ensures Newlines(Joined(open_ + [t])) == Newlines(Joined(open_)) + 2 + Newlines(t)
  {
    assert (open_ + [t])[..|open_|] == open_;
    hide Newlines;
    NewlinesConcat(Joined(open_) + SEPARATOR, t);
    NewlinesConcat(Joined(open_), SEPARATOR);
    SeparatorNewlines();
  }

  lemma ConcatMore(parts: seq<string>, t: string)
    ensures Concat(parts + [t]) == Concat(parts) + t
  {
    assert (parts + [t])[..|parts|] == parts;
  }

  lemma OpenMore(parts: seq<string>, chars: nat, newlines: nat, open_: Group, t: string, max: nat)
    requires Open(parts, chars, newlines, open_, max) && chars > 0 && chars + 2 + |t| <= max
    ensures Open(parts + [SEPARATOR] + [t], chars + 2 + |t|, newlines + 2 + Newlines(t), open_ + [t], max)
  {
    hide Concat, Joined, Newlines;
    JoinedMore(open_, t);
    ConcatMore(parts, SEPARATOR);
    ConcatMore(parts + [SEPARATOR], t);
  }

  lemma OpenFirst(parts: seq<string>, newlines: nat, t: string, max: nat)
    requires Open(parts, 0, newlines, [], max) && 0 < |t| <= max
    ensures Open(parts + [t], |t|, newlines + Newlines(t), [] + [t], max)
  {
    hide Concat, Newlines;
    ConcatMore(parts, t);
    NothingJoined();
    assert [] + [t] == [t];
  }

  lemma NothingJoined()
    ensures Newlines(Joined([])) == 0
  {}

  lemma SeparatorNewlines()
    ensures Newlines(SEPARATOR) == 2
  {
    assert SEPARATOR[..1] == "\n";
  }

  lemma CountFlush(ts: seq<string>, i: nat, groups: seq<Group>, open_: Group, max: nat)
    requires i < |ts| && Count(ts, i, groups, open_, max) && open_ != []
    requires |ts[i]| > max || |Joined(open_)| + 2 + |ts[i]| > max
    ensures Count(ts, i, groups + [open_], [], max)
  {}

  lemma CountOversized(ts: seq<string>, i: nat, groups: seq<Group>, max: nat)
    requires i < |ts| && Count(ts, i, groups, [], max) && |ts[i]| > max
    ensures Count(ts, i + 1, groups + [[ts[i]]], [], max)
  {
    assert ts[i..][1..] == ts[i + 1..];
  }

  lemma CountTake(ts: seq<string>, i: nat, groups: seq<Group>, open_: Group, max: nat)
    requires i < |ts| && Count(ts, i, groups, open_, max) && |ts[i]| <= max
    requires if open_ == [] then true else |Joined(open_)| > 0 && |Joined(open_)| + 2 + |ts[i]| <= max
    ensures Count(ts, i + 1, groups, open_ + [ts[i]], max)
  {
    hide Begun;
    BegunNext(ts, i, |Joined(open_)|, max);
    assert (open_ + [ts[i]])[..|open_|] == open_;
  }

  lemma BegunNext(ts: seq<string>, i: nat, chars: nat, max: nat)
    requires i < |ts| && |ts[i]| <= max
    ensures var n := |ts[i]|;
      Begun(ts[i..], chars, max) ==
        if chars > 0 && chars + 2 + n <= max then Begun(ts[i + 1..], chars + 2 + n, max)
        else 1 + Begun(ts[i + 1..], n, max)
  {
    assert ts[i..][0] == ts[i] && ts[i..][1..] == ts[i + 1..];
  }

  lemma CountBlank(ts: seq<string>, i: nat, groups: seq<Group>, max: nat)
    requires i < |ts| && ts[i] == ""
    ensures Count(ts, i + 1, groups, [], max)
  {}

  lemma WriteOpen(parts: seq<string>, chars: nat, newlines: nat, open_: Group, max: nat, index: nat)
    requires Open(parts, chars, newlines, open_, max) && chars > 0
    ensures open_ != [] && Fits(open_, max) && Concat(parts) != "" && Joined(open_) == Concat(parts)
    ensures Writes(Shard(index, Concat(parts), |Concat(parts)|, newlines + 1, false), open_, index, max)
  {}

  lemma OpenChars(parts: seq<string>, chars: nat, newlines: nat, open_: Group, max: nat)
    requires Open(parts, chars, newlines, open_, max)
    ensures chars == |Joined(open_)| <= max && (chars == 0 <==> open_ == [])
  {}

  lemma CutLengths(ts: seq<string>, files: seq<Shard>, groups: seq<Group>, open_: Group, max: nat)
    requires Cut(ts, files, groups, open_, max)
    ensures |files| == |groups|
  {}

  function ShardOf(index: nat, content: string, newlines: nat, oversized: bool): Shard {
    Shard(index, content, |content|, if |content| == 0 then 0 else newlines + 1, oversized)
  }

  lemma OversizedWrites(t: string, index: nat, max: nat)
    requires |t| > max
    ensures Fits([t], max) && Writes(ShardOf(index, t, Newlines(t), true), [t], index, max)
  {}

  /** Writing the open file, if there is one. */
  method Flush(parts: seq<string>, chars: nat, newlines: nat, files: seq<Shard>,
               ghost ts: seq<string>, ghost groups: seq<Group>, ghost open_: Group, ghost max: nat)
    returns (more: seq<Shard>, ghost moreGroups: seq<Group>)
    requires Cut(ts, files, groups, open_, max) && Open(parts, chars, newlines, open_, max)
    ensures moreGroups == if open_ == [] then groups else groups + [open_]
    ensures Cut(ts, more, moreGroups, [], max)
  {
    hide Cut, Open, Fits, Joined, Writes;
    more, moreGroups := files, groups;
    OpenChars(parts, chars, newlines, open_, max);
    CutLengths(ts, files, groups, open_, max);
    if chars > 0 {
      WriteOpen(parts, chars, newlines, open_, max, |files|);
      var shard := ShardOf(|files|, Concat(parts), newlines, false);
      more, moreGroups := files + [shard], groups + [open_];
      WriteGroup(ts, files, groups, open_, shard, max);
    }
  }

  /** Writing a transcript that is over the limit by itself. */
  method WriteOversized(transcript: string, newlines: nat, files: seq<Shard>,
                        ghost ts: seq<string>, ghost i: nat, ghost groups: seq<Group>, ghost max: nat)
    returns (more: seq<Shard>)
    requires i < |ts| && ts[i] == transcript && |transcript| > max && newlines == Newlines(transcript)
    requires Cut(ts[..i], files, groups, [], max)
    ensures Cut(ts[..i + 1], more, groups + [[transcript]], [], max)
  {
    hide Cut, Open, Fits, Joined, Writes, Newlines;
    CutLengths(ts[..i], files, groups, [], max);
    var shard := ShardOf(|files|, transcript, newlines, true);
    more := files + [shard];
    OversizedWrites(transcript, |files|, max);
    Take(ts, i, files, groups, [], max);
    assert [] + [transcript] == [transcript];
    WriteGroup(ts[..i + 1], files, groups, [transcript], shard, max);
  }

  lemma OpenBlank(parts: seq<string>, newlines: nat, max: nat)
    requires Open(parts, 0, newlines, [], max)
    ensures Open(parts + [""], 0, newlines + Newlines(""), [], max)
  {
    ConcatAppend(parts, [""]);
    assert Concat([""]) == "";
  }

  /** A transcript that fits joins the open file; a blank one leaves no trace when there is none. */
  lemma TakeFitting(ts: seq<string>, i: nat, files: seq<Shard>, groups: seq<Group>, open_: Group,
                    parts: seq<string>, chars: nat, newlines: nat, max: nat) returns (more: Group)
    requires i < |ts| && Cut(ts[..i], files, groups, open_, max) && Open(parts, chars, newlines, open_, max)
    requires Count(ts, i, groups, open_, max)
    requires |ts[i]| <= max && (chars > 0 ==> chars + 2 + |ts[i]| <= max)
    requires chars == Left(ts[..i], max) || (chars == 0 && Left(ts[..i], max) + 2 + |ts[i]| > max)
    ensures Cut(ts[..i + 1], files, groups, more, max) && Count(ts, i + 1, groups, more, max)
    ensures chars > 0 ==> Open(parts + [SEPARATOR] + [ts[i]], chars + 2 + |ts[i]|,
                              newlines + 2 + Newlines(ts[i]), more, max)
    ensures chars == 0 ==> Open(parts + [ts[i]], |ts[i]|, newlines + Newlines(ts[i]), more, max)
  {
    hide Cut, Open, Count, Joined, Newlines, Left;
    OpenChars(parts, chars, newlines, open_, max);
    if chars == 0 && ts[i] == "" {
      more := [];
      TakeBlank(ts, i, files, groups, max);
      CountBlank(ts, i, groups, max);
      OpenBlank(parts, newlines, max);
    } else {
      more := open_ + [ts[i]];
      Take(ts, i, files, groups, open_, max);
      CountTake(ts, i, groups, open_, max);
      if chars > 0 {
        OpenMore(parts, chars, newlines, open_, ts[i], max);
      } else {
        OpenFirst(parts, newlines, ts[i], max);
      }
    }
  }

  lemma AllCut(ts: seq<string>, files: seq<Shard>, groups: seq<Group>, max: nat)
    requires Cut(ts, files, groups, [], max) && Count(ts, |ts|, groups, [], max)
    ensures AllWritten(files, groups, max) && Flatten(groups) == Kept(ts, max)
    ensures NoBlank(ts) ==> forall others: seq<Group> |
      Flatten(others) == ts && forall k | 0 <= k < |others| :: Fits(others[k], max) :: |groups| <= |others|
  {
    hide Flatten, Fits, Kept, NoBlank;
    assert Flatten(groups) + [] == Flatten(groups);
    if NoBlank(ts) {
      forall others: seq<Group> | Flatten(others) == ts && forall k | 0 <= k < |others| :: Fits(others[k], max)
        ensures |groups| <= |others|
      {
        NoBlankNone();
        NoFewer(others, [], max);
        assert ts + [] == ts;
      }
    }
  }

  lemma NoBlankNone()
    ensures NoBlank([])
  {}

  lemma OpenNothing(max: nat)
    ensures Open([], 0, 0, [], max)
  {}

  /** The state of the run before transcript `i`. */
  ghost predicate Progress(ts: seq<string>, i: nat, s: State, groups: seq<Group>, open_: Group, max: nat) {
    && i <= |ts| && Cut(ts[..i], s.files, groups, open_, max)
    && Open(s.parts, s.chars, s.newlines, open_, max) && Count(ts, i, groups, open_, max)
    && s.chars == Left(ts[..i], max)
  }

  datatype State = State(files: seq<Shard>, parts: seq<string>, chars: nat, newlines: nat)

  /** A transcript over the limit closes the open file and gets one of its own. */
  method TakeOversized(s: State, t: string, newlines: nat,
                       ghost ts: seq<string>, ghost i: nat, ghost groups: seq<Group>, ghost open_: Group,
                       ghost max: nat)
    returns (r: State, ghost more: seq<Group>)
    requires Progress(ts, i, s, groups, open_, max)
    requires i < |ts| && t == ts[i] && newlines == Newlines(t) && |t| > max
    ensures Progress(ts, i + 1, r, more, [], max)
  {
    hide Cut, Open, Count, Joined, Newlines, Left;
    OpenNothing(max);
    LeftNext(ts, i, max);
    if open_ != [] { CountFlush(ts, i, groups, open_, max); }
    var files;
    files, more := Flush(s.parts, s.chars, s.newlines, s.files, ts[..i], groups, open_, max);
    files := WriteOversized(t, newlines, files, ts, i, more, max);
    CountOversized(ts, i, more, max);
    more := more + [[t]];
    r := State(files, [], 0, 0);
  }

  /** Any other transcript joins the open file, or the next one if it does not fit. */
  method TakeOther(s: State, t: string, newlines: nat, max: nat,
                   ghost ts: seq<string>, ghost i: nat, ghost groups: seq<Group>, ghost open_: Group)
    returns (r: State, ghost more: seq<Group>, ghost nowOpen: Group)
    requires Progress(ts, i, s, groups, open_, max)
    requires i < |ts| && t == ts[i] && newlines == Newlines(t) && |t| <= max
    ensures Progress(ts, i + 1, r, more, nowOpen, max)
  {
    hide Cut, Open, Count, Joined, Newlines, Left;
    OpenNothing(max);
    LeftNext(ts, i, max);
    OpenChars(s.parts, s.chars, s.newlines, open_, max);
    r, more, nowOpen := s, groups, open_;
    if r.chars > 0 && r.chars + 2 + |t| > max {
      CountFlush(ts, i, groups, open_, max);
      var files;
      files, more := Flush(r.parts, r.chars, r.newlines, r.files, ts[..i], groups, open_, max);
      r, nowOpen := State(files, [], 0, 0), [];
    }
    nowOpen := TakeFitting(ts, i, r.files, more, nowOpen, r.parts, r.chars, r.newlines, max);
    if r.chars > 0 {
      r := r.(parts := r.parts + [SEPARATOR], chars := r.chars + 2, newlines := r.newlines + 2);
    }
    r := r.(parts := r.parts + [t], chars := r.chars + |t|, newlines := r.newlines + newlines);
  }

  /**
   Writing all transcripts. Every file holds a group of them; the files hold, in order, all that are kept; and when none
   is blank no other cut of the same transcripts into files that fit has fewer.
   */
  method WriteTranscriptShards(ts: seq<string>, maxChars: real)
    returns (result: Result<seq<Shard>>, count: nat, ghost groups: seq<Group>)
    ensures result.Err? <==> !IsSafeInteger(maxChars) || maxChars <= 0.0
    ensures result.Ok? ==> count == |ts|
    ensures result.Ok? ==> AllWritten(result.value, groups, maxChars.Floor)
    ensures result.Ok? ==> Flatten(groups) == Kept(ts, maxChars.Floor)
    ensures result.Ok? ==>
      (Flatten(groups) == ts <==> forall i | 0 <= i < |ts| :: !Lost(ts[..i], ts[i], maxChars.Floor))
    ensures result.Ok? && NoBlank(ts) ==> Flatten(groups) == ts
    ensures result.Ok? && NoBlank(ts) ==> forall others: seq<Group> |
      Flatten(others) == ts && forall k | 0 <= k < |others| :: Fits(others[k], maxChars.Floor) :: |groups| <= |others|
  {
    groups, count := [], 0;
    if !IsSafeInteger(maxChars) || maxChars <= 0.0 {
      result := Err("maxChars must be a positive safe integer");
      return;
    }
    hide Progress, AllWritten, Fits, Flatten, Kept, NoBlank, Lost;
    var max := maxChars.Floor;
    var s := State([], [], 0, 0);
    ghost var open_: Group := [];
    Start(ts, max);
    for i := 0 to |ts|
      invariant count == i && Progress(ts, i, s, groups, open_, max)
    {
      count := count + 1;
      var newlines := CountNewlines(ts[i]);
      if |ts[i]| > max {
        s, groups := TakeOversized(s, ts[i], newlines, ts, i, groups, open_, max);
        open_ := [];
      } else {
        s, groups, open_ := TakeOther(s, ts[i], newlines, max, ts, i, groups, open_);
      }
    }
    var files;
    files, groups := Finish(s, ts, groups, open_, max);
    KeptAll(ts, max);
    if NoBlank(ts) {
      NoneLost(ts, max);
    }
    result := Ok(files);
  }

  method Finish(s: State, ghost ts: seq<string>, ghost groups: seq<Group>, ghost open_: Group, ghost max: nat)
    returns (files: seq<Shard>, ghost more: seq<Group>)
    requires Progress(ts, |ts|, s, groups, open_, max)
    ensures AllWritten(files, more, max) && Flatten(more) == Kept(ts, max)
    ensures NoBlank(ts) ==> forall others: seq<Group> |
      Flatten(others) == ts && forall k | 0 <= k < |others| :: Fits(others[k], max) :: |more| <= |others|
  {
    hide Cut, Open, AllWritten, Fits, Flatten, Kept, NoBlank;
    files, more := Flush(s.parts, s.chars, s.newlines, s.files, ts[..|ts|], groups, open_, max);
    assert ts[..|ts|] == ts;
    AllCut(ts, files, more, max);
  }

  lemma Start(ts: seq<string>, max: nat)
    ensures Progress(ts, 0, State([], [], 0, 0), [], [], max)
  {
    assert ts[0..] == ts;
  }
}
