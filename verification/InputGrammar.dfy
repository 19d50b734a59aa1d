/**
 The grammar of terminal input: where an escape sequence of each kind ends, and that splitting cuts a buffer exactly at
 these ends.
 */
module InputGrammar {
  import opened Fields
  import opened EscapeSplitter

  predicate FinalByte(c: char) {
    0x40 <= c as int <= 0x7E
  }

  /** ST (ECMA-48, section 8.3.143) ends at `n`. */
  predicate StEndsAt(s: string, n: nat) {
    3 < n <= |s| && s[n - 2] == ESC && s[n - 1] == '\\'
  }

  /** A mouse report in SGR form: `<`, three numbers and `M` or `m`. */
  ghost predicate MouseReport(payload: string) {
    exists a, b, c: string, last: char ::
      && IsNumber(a) && IsNumber(b) && IsNumber(c) && (last == 'M' || last == 'm')
      && payload == "<" + (a + ";" + (b + ";" + c)) + [last]
  }

  /** The escape sequence at the start of `s` may end after `n` characters. */
  ghost predicate EndsAt(s: string, n: nat) {
    2 <= n <= |s| && s[0] == ESC
    && match s[1]
       case '[' =>
         && n >= 3
         && (if s[2] == 'M' then n >= 6 else if s[2] == '<' then MouseReport(s[2..n]) else FinalByte(s[n - 1]))
       case ']' => n >= 3 && (s[n - 1] == BEL || StEndsAt(s, n))
       case 'P' => StEndsAt(s, n)
       case '_' => StEndsAt(s, n)
       case 'O' => n >= 3
       case _ => true
  }

  /** The first end is after `n` characters. */
  ghost predicate FirstEnd(s: string, n: nat) {
    EndsAt(s, n) && forall k | 0 <= k < n :: !EndsAt(s, k)
  }

  /** Two escapes, and a character with which the second one begins a longer sequence. */
  predicate EscapeThenSequence(s: string) {
    |s| >= 3 && s[0] == ESC && s[1] == ESC
    && (s[2] == '[' || s[2] == ']' || s[2] == 'O' || s[2] == 'P' || s[2] == '_')
  }

  /** The first `n` characters of `s` are emitted together. */
  ghost predicate Piece(s: string, n: nat) {
    && 0 < n <= |s|
    && (if s[0] != ESC || EscapeThenSequence(s) then n == 1 else FirstEnd(s, n))
  }

  /** Nothing of `s` is emitted until more input comes. */
  ghost predicate Unfinished(s: string) {
    s == "" || (s[0] == ESC && !EscapeThenSequence(s) && forall n :: !EndsAt(s, n))
  }

  // ---- Complete is ending ----

  /** A report is three numbers between its brackets, whether by splitting or by joining. */
  lemma ReportJoined(payload: string)
    requires payload != "" && payload[0] == '<'
    ensures IsMouseReport(payload) <==> MouseReport(payload)
  {
    if IsMouseReport(payload) {
      var inner := payload[1..|payload| - 1];
      var parts := Split(inner, ';');
      JoinSplit(inner, ';');
      JoinThree(parts);
      assert payload == "<" + inner + [payload[|payload| - 1]];
    }
    if MouseReport(payload) {
      var a, b, c: string, last: char :|
        && IsNumber(a) && IsNumber(b) && IsNumber(c) && (last == 'M' || last == 'm')
        && payload == "<" + (a + ";" + (b + ";" + c)) + [last];
      SplitThree(a, b, c);
      assert payload[1..|payload| - 1] == a + ";" + (b + ";" + c);
    }
  }

  lemma JoinThree(parts: seq<string>)
    requires |parts| == 3
    ensures Join(parts, ';') == parts[0] + ";" + (parts[1] + ";" + parts[2])
  {
    assert parts[1..][1..] == [parts[2]] && parts[1..][0] == parts[1];
    assert Join(parts[1..], ';') == parts[1] + [';'] + parts[2];
  }

  lemma SplitThree(a: string, b: string, c: string)
    requires IsNumber(a) && IsNumber(b) && IsNumber(c)
    ensures Split(a + ";" + (b + ";" + c), ';') == [a, b, c]
  {
    SplitFirst(a, b + ";" + c, ';');
    SplitFirst(b, c, ';');
    SplitFirst(c, "", ';');
  }

  lemma {:induction false} JoinSplit(s: string, separator: char)
    ensures Join(Split(s, separator), separator) == s
  {
    if s != "" {
      var rest := Split(s[1..], separator);
      JoinSplit(s[1..], separator);
      assert s == [s[0]] + s[1..];
      if s[0] == separator {
        assert ([""] + rest)[1..] == rest;
      } else {
        var parts := [[s[0]] + rest[0]] + rest[1..];
        assert parts[1..] == rest[1..];
        if |rest| == 1 {
          assert rest == [rest[0]];
        }
      }
    }
  }

  /** A front of the input is a complete sequence exactly when it may end there. */
  lemma CompleteEnds(s: string, n: nat)
    requires n <= |s| && s != "" && s[0] == ESC
    ensures SequenceStatus(s[..n]) == CompleteSequence <==> EndsAt(s, n)
  {
    hide IsMouseReport, MouseReport;
    var data := s[..n];
    if n >= 3 {
      assert data[2..] == s[2..n];
      if s[2] == '<' {
        ReportJoined(s[2..n]);
        ReportFinal(s[2..n]);
      }
    }
  }

  lemma ReportFinal(payload: string)
    requires payload != ""
    ensures IsMouseReport(payload) ==> FinalByte(payload[|payload| - 1])
  {}

  lemma FirstCompleteEnds(s: string)
    requires s != "" && s[0] == ESC
    ensures var n := FirstComplete(s, 1);
      if n == 0 then forall k :: !EndsAt(s, k) else FirstEnd(s, n)
  {
    hide SequenceStatus, EndsAt;
    forall k: nat | k <= |s|
      ensures SequenceStatus(s[..k]) == CompleteSequence <==> EndsAt(s, k)
    {
      CompleteEnds(s, k);
    }
    NoEndOutside(s);
  }

  lemma NoEndOutside(s: string)
    ensures forall k: nat | k > |s| || k < 2 :: !EndsAt(s, k)
  {}

  /** What is emitted next is the piece the grammar says, and nothing is when the input is unfinished. */
  lemma NextIsPiece(s: string)
    requires s != ""
    ensures if NextLength(s) == 0 then Unfinished(s) else Piece(s, NextLength(s))
  {
    hide EndsAt, SequenceStatus, FirstComplete;
    if s[0] == ESC {
      FirstCompleteEnds(s);
      if |s| >= 2 && s[1] == ESC {
        TwoEnds(s);
      }
    }
  }

  lemma TwoEnds(s: string)
    requires |s| >= 2 && s[0] == ESC && s[1] == ESC
    ensures EndsAt(s, 2)
  {}

  lemma PieceOnce(s: string, m: nat, n: nat)
    requires Piece(s, m) && Piece(s, n)
    ensures m == n
  {
    hide EndsAt;
  }

  /** An unfinished input begins no piece. */
  lemma UnfinishedNoPiece(s: string, n: nat)
    ensures !Unfinished(s) || !Piece(s, n)
  {
    hide EndsAt;
  }

  // ---- Splitting a buffer ----

  /** `cuts` divides the buffer into pieces, and an unfinished rest. */
  ghost predicate Divides(buffer: string, cuts: seq<nat>) {
    && cuts != [] && cuts[0] == 0
    && (forall i | 0 <= i < |cuts| :: cuts[i] <= |buffer|)
    && (forall i | 0 < i < |cuts| :: cuts[i - 1] < cuts[i] && Piece(buffer[cuts[i - 1]..], cuts[i] - cuts[i - 1]))
    && Unfinished(buffer[cuts[|cuts| - 1]..])
  }

  /** What the pieces between the cuts are. */
  ghost function Divided(buffer: string, cuts: seq<nat>): Extraction
    requires Divides(buffer, cuts)
  {
    Extraction(seq(|cuts| - 1, i requires 0 <= i < |cuts| - 1 => buffer[cuts[i]..cuts[i + 1]]),
               buffer[cuts[|cuts| - 1]..])
  }

  /** Splitting divides the buffer at the ends the grammar gives. */
  lemma {:induction false} ExtractDivides(buffer: string) returns (cuts: seq<nat>)
    ensures Divides(buffer, cuts) && Extract(buffer) == Divided(buffer, cuts)
    decreases |buffer|
  {
    hide NextLength, Piece, Unfinished, Shift;
    if buffer != "" {
      NextIsPiece(buffer);
    }
    if buffer == "" || NextLength(buffer) == 0 {
      NothingUnfinished();
      cuts := [0];
      assert buffer[0..] == buffer;
      ExtractNone(buffer);
      assert Divided(buffer, cuts).sequences == [];
    } else {
      var n := NextLength(buffer);
      var rest := ExtractDivides(buffer[n..]);
      cuts := Shift(rest, n);
      ShiftedDivides(buffer, n, rest);
      ShiftedPieces(buffer, n, rest);
      ExtractOne(buffer);
    }
  }

  lemma NothingUnfinished()
    ensures Unfinished("")
  {}

  /** The cuts of a rest, behind a first piece of `n` characters. */
  function Shift(rest: seq<nat>, n: nat): (cuts: seq<nat>)
    ensures |cuts| == |rest| + 1 && cuts[0] == 0 && forall i | 0 <= i < |rest| :: cuts[i + 1] == n + rest[i]
  {
    [0] + seq(|rest|, i requires 0 <= i < |rest| => n + rest[i])
  }

  lemma Behind(buffer: string, n: nat, a: nat)
    requires n + a <= |buffer|
    ensures buffer[n..][a..] == buffer[n + a..]
  {}

  lemma BetweenBehind(buffer: string, n: nat, a: nat, b: nat)
    requires a <= b && n + b <= |buffer|
    ensures buffer[n..][a..b] == buffer[n + a..n + b]
  {}

  lemma ShiftedPiece(buffer: string, n: nat, rest: seq<nat>, i: nat)
    requires n <= |buffer| && Piece(buffer, n) && n > 0 && Divides(buffer[n..], rest) && 0 < i <= |rest|
    ensures var cuts := Shift(rest, n);
      cuts[i - 1] < cuts[i] <= |buffer| && Piece(buffer[cuts[i - 1]..], cuts[i] - cuts[i - 1])
  {
    hide Piece, Unfinished, Shift;
    var cuts := Shift(rest, n);
    assert cuts[i] == n + rest[i - 1];
    if i > 1 {
      assert cuts[i - 1] == n + rest[i - 2];
      assert Piece(buffer[n..][rest[i - 2]..], rest[i - 1] - rest[i - 2]);
      Behind(buffer, n, rest[i - 2]);
    } else {
      assert buffer[0..] == buffer;
    }
  }

  lemma ShiftedDivides(buffer: string, n: nat, rest: seq<nat>)
    requires n <= |buffer| && Piece(buffer, n) && n > 0 && Divides(buffer[n..], rest)
    ensures Divides(buffer, Shift(rest, n))
  {
    hide Piece, Unfinished, Shift;
    var cuts := Shift(rest, n);
    forall i | 0 < i < |cuts|
      ensures cuts[i - 1] < cuts[i] <= |buffer| && Piece(buffer[cuts[i - 1]..], cuts[i] - cuts[i - 1])
    {
      ShiftedPiece(buffer, n, rest, i);
    }
    assert cuts[|rest|] == n + rest[|rest| - 1];
    Behind(buffer, n, rest[|rest| - 1]);
  }

  lemma ShiftedPieces(buffer: string, n: nat, rest: seq<nat>)
    requires n <= |buffer| && Divides(buffer[n..], rest) && Divides(buffer, Shift(rest, n))
    ensures var r := Divided(buffer[n..], rest);
      Divided(buffer, Shift(rest, n)) == Extraction([buffer[..n]] + r.sequences, r.remainder)
  {
    hide Piece, Unfinished, Shift;
    var cuts := Shift(rest, n);
    var r := Divided(buffer[n..], rest).sequences;
    var whole := Divided(buffer, cuts).sequences;
    assert cuts[1] == n + rest[0] == n;
    assert |whole| == |rest| == 1 + |r|;
    forall i | 0 < i < |rest|
      ensures whole[i] == r[i - 1]
    {
      assert cuts[i] == n + rest[i - 1] && cuts[i + 1] == n + rest[i];
      BetweenBehind(buffer, n, rest[i - 1], rest[i]);
    }
    assert whole == [buffer[..n]] + r;
    assert cuts[|rest|] == n + rest[|rest| - 1];
    Behind(buffer, n, rest[|rest| - 1]);
  }

  /** There is only one way to divide a buffer, so the grammar determines what is emitted and what is kept. */
  lemma {:induction false} DividesOnce(buffer: string, a: seq<nat>, b: seq<nat>, n: nat)
    requires Divides(buffer, a) && Divides(buffer, b) && n <= |a|
    ensures n <= |b| && a[..n] == b[..n]
  {
    hide Piece, Unfinished;
    if n > 1 {
      DividesOnce(buffer, a, b, n - 1);
      assert a[n - 2] == a[..n - 1][n - 2] == b[..n - 1][n - 2] == b[n - 2];
      var s := buffer[a[n - 2]..];
      assert Piece(s, a[n - 1] - a[n - 2]);
      if |b| == n - 1 {
        UnfinishedNoPiece(s, a[n - 1] - a[n - 2]);
      } else {
        PieceOnce(s, a[n - 1] - a[n - 2], b[n - 1] - b[n - 2]);
        assert a[..n] == a[..n - 1] + [a[n - 1]] && b[..n] == b[..n - 1] + [b[n - 1]];
      }
    }
  }

  /** The sequences and the remainder are those of any division of the buffer into pieces and an unfinished rest. */
  lemma SplitsByGrammar(buffer: string, cuts: seq<nat>)
    requires Divides(buffer, cuts)
    ensures Extract(buffer) == Divided(buffer, cuts)
  {
    hide Divides, Divided, Extract;
    var found := ExtractDivides(buffer);
    DividesOnce(buffer, found, cuts, |found|);
    DividesOnce(buffer, cuts, found, |cuts|);
    assert found[..|found|] == found && cuts[..|cuts|] == cuts;
  }

  /** A control sequence of one character ends there, whatever follows. */
  lemma ShortSequence(c: char, rest: string)
    requires FinalByte(c) && c != 'M'
    ensures Piece([ESC, '[', c] + rest, 3)
  {
    hide MouseReport;
    var s := [ESC, '[', c] + rest;
    assert s[0] == ESC && s[1] == '[' && s[2] == c;
  }

  /** Two arrow keys in one chunk are two sequences. */
  lemma ArrowsExample()
    ensures Extract([ESC, '[', 'A'] + [ESC, '[', 'B']) == Extraction([[ESC, '[', 'A'], [ESC, '[', 'B']], "")
  {
    hide Piece, Unfinished, Extract;
    var up, down := [ESC, '[', 'A'], [ESC, '[', 'B'];
    var buffer := up + down;
    var cuts: seq<nat> := [0, 3, 6];
    ShortSequence('A', down);
    ShortSequence('B', "");
    NothingUnfinished();
    assert down + "" == down;
    assert buffer[0..] == buffer && buffer[3..] == down && buffer[6..] == "";
    SplitsByGrammar(buffer, cuts);
    assert buffer[0..3] == up && buffer[3..6] == down;
    assert Divided(buffer, cuts).sequences == [up, down];
  }
}
