/**
 Splitting terminal input into escape sequences and single characters as it arrives. What is emitted for a buffer does
 not change when more input follows, except after two escapes that the next chunk turns out to separate.
 */
module EscapeSplitter {
  import opened Fields
  import opened Strings

  datatype Status = CompleteSequence | Incomplete | NotEscape

  /** The report `<button;column;row` followed by `M` or `m`. */
  predicate IsMouseReport(payload: string)
    requires payload != ""
  {
    var last := payload[|payload| - 1];
    (last == 'M' || last == 'm') && |payload| >= 2 &&
    var parts := Split(payload[1..|payload| - 1], ';');
    |parts| == 3 && forall i | 0 <= i < 3 :: IsNumber(parts[i])
  }

  function CsiStatus(data: string): Status {
    if !("\U{1b}[" <= data) then CompleteSequence
    else if |data| < 3 then Incomplete
    else
      var payload := data[2..];
      if '@' <= payload[|payload| - 1] <= '~' then
        if payload[0] == '<' then (if IsMouseReport(payload) then CompleteSequence else Incomplete)
        else CompleteSequence
      else Incomplete
  }

  predicate EndsWithST(data: string) {
    |data| >= 2 && data[|data| - 2] == ESC && data[|data| - 1] == '\\'
  }

  function OscStatus(data: string): Status
    requires data != ""
  {
    if EndsWithST(data) || data[|data| - 1] == BEL then CompleteSequence else Incomplete
  }

  function StringStatus(data: string): Status {
    if EndsWithST(data) then CompleteSequence else Incomplete
  }

  function SequenceStatus(data: string): Status {
    if data == "" || data[0] != ESC then NotEscape
    else if |data| == 1 then Incomplete
    else if data[1] == '[' then
      if |data| >= 3 && data[2] == 'M' then (if |data| >= 6 then CompleteSequence else Incomplete)
      else CsiStatus(data)
    else if data[1] == ']' then OscStatus(data)
    else if data[1] == 'P' || data[1] == '_' then StringStatus(data)
    else if data[1] == 'O' then (if |data| >= 3 then CompleteSequence else Incomplete)
    else CompleteSequence
  }

  /** The shortest complete sequence at the start of `buffer` with at least `from` characters, or 0. */
  function FirstComplete(buffer: string, from: nat): (n: nat)
    ensures n != 0 ==> from <= n <= |buffer| && SequenceStatus(buffer[..n]) == CompleteSequence
    ensures forall k | from <= k <= |buffer| && (n == 0 || k < n) :: SequenceStatus(buffer[..k]) != CompleteSequence
    decreases |buffer| - from
  {
    if from > |buffer| then 0
    else if SequenceStatus(buffer[..from]) == CompleteSequence then from
    else FirstComplete(buffer, from + 1)
  }

  /** A character that begins a longer sequence after an escape. */
  predicate Introduces(c: char) {
    c == '[' || c == ']' || c == 'O' || c == 'P' || c == '_'
  }

  const TWO_ESCAPES := [ESC, ESC]

  /** How much of `buffer` is emitted first, or 0 when it ends within a sequence. */
  function NextLength(buffer: string): (n: nat)
    requires buffer != ""
    ensures n <= |buffer|
  {
    if buffer[0] != ESC then 1
    else
      var n := FirstComplete(buffer, 1);
      if n == 2 && buffer[1] == ESC && |buffer| > 2 && Introduces(buffer[2]) then 1 else n
  }

  datatype Extraction = Extraction(sequences: seq<string>, remainder: string)

  function Extract(buffer: string): Extraction
    decreases |buffer|
  {
    if buffer == "" || NextLength(buffer) == 0 then Extraction([], buffer)
    else
      var n := NextLength(buffer);
      var rest := Extract(buffer[n..]);
      Extraction([buffer[..n]] + rest.sequences, rest.remainder)
  }

  lemma EscapeStatus(remaining: string, n: nat)
    requires remaining != "" && remaining[0] == ESC && 1 <= n <= |remaining|
    ensures SequenceStatus(remaining[..n]) != NotEscape
  {}

  /** Grow the candidate until it is complete; past the end of the input, none is. */
  method FindSequenceEnd(remaining: string) returns (seqEnd: nat)
    requires remaining != "" && remaining[0] == ESC
    ensures seqEnd == if FirstComplete(remaining, 1) == 0 then |remaining| + 1 else FirstComplete(remaining, 1)
  {
    hide SequenceStatus;
    seqEnd := 1;
    while seqEnd <= |remaining|
      invariant 1 <= seqEnd <= |remaining| + 1
      invariant FirstComplete(remaining, 1) == FirstComplete(remaining, seqEnd)
    {
      EscapeStatus(remaining, seqEnd);
      if SequenceStatus(remaining[..seqEnd]) == CompleteSequence {
        return;
      }
      seqEnd := seqEnd + 1;
    }
  }

  lemma ExtractStep(buffer: string, pos: nat, sequences: seq<string>)
    requires pos < |buffer|
    ensures var remaining := buffer[pos..];
      var n := NextLength(remaining);
      if n == 0 then Extract(remaining) == Extraction([], remaining)
      else buffer[pos + n..] == remaining[n..]
           && sequences + Extract(remaining).sequences
              == sequences + [remaining[..n]] + Extract(buffer[pos + n..]).sequences
           && Extract(remaining).remainder == Extract(buffer[pos + n..]).remainder
  {
    var remaining := buffer[pos..];
    var n := NextLength(remaining);
    if n != 0 {
      assert buffer[pos + n..] == remaining[n..];
    }
  }

  method ExtractCompleteSequences(buffer: string) returns (result: Extraction)
    ensures result == Extract(buffer)
  {
    hide SequenceStatus, Extract, FirstComplete;
    var sequences: seq<string> := [];
    var pos := 0;
    assert buffer[0..] == buffer;
    while pos < |buffer|
      invariant 0 <= pos <= |buffer|
      invariant Extract(buffer).sequences == sequences + Extract(buffer[pos..]).sequences
      invariant Extract(buffer).remainder == Extract(buffer[pos..]).remainder
    {
      var remaining := buffer[pos..];
      ExtractStep(buffer, pos, sequences);
      var n := 1;
      if remaining[0] == ESC {
        var seqEnd := FindSequenceEnd(remaining);
        if seqEnd > |remaining| {
          return Extraction(sequences, remaining);
        }
        if !(remaining[..seqEnd] == TWO_ESCAPES && seqEnd < |remaining| && Introduces(remaining[seqEnd])) {
          n := seqEnd;
        }
      }
      sequences := sequences + [remaining[..n]];
      pos := pos + n;
    }
    assert buffer[pos..] == "";
    ExtractNothing();
    return Extraction(sequences, "");
  }

  lemma ExtractNothing()
    ensures Extract("") == Extraction([], "")
  {}

  lemma ConcatNone()
    ensures Concat([]) == ""
  {}

  /** Nothing is lost: the sequences and the remainder are the buffer. */
  lemma {:induction false} Conserved(buffer: string)
    ensures Concat(Extract(buffer).sequences) + Extract(buffer).remainder == buffer
    decreases |buffer|
  {
    hide NextLength, Concat, Extract;
    if buffer != "" && NextLength(buffer) != 0 {
      var n := NextLength(buffer);
      ExtractOne(buffer);
      var rest := Extract(buffer[n..]);
      Conserved(buffer[n..]);
      ConcatAppend([buffer[..n]], rest.sequences);
      ConcatOne(buffer[..n]);
      assert buffer[..n] + (Concat(rest.sequences) + rest.remainder) == buffer;
    } else {
      ExtractNone(buffer);
      ConcatNone();
    }
  }

  lemma ExtractOne(buffer: string)
    requires buffer != "" && NextLength(buffer) != 0
    ensures var n := NextLength(buffer);
      Extract(buffer) == Extraction([buffer[..n]] + Extract(buffer[n..]).sequences, Extract(buffer[n..]).remainder)
  {
    hide NextLength;
  }

  lemma ExtractNone(buffer: string)
    requires buffer == "" || NextLength(buffer) == 0
    ensures Extract(buffer) == Extraction([], buffer)
  {
    hide NextLength;
  }

  /** No sequence is empty, and extracting the remainder again yields nothing. */
  lemma {:induction false} RemainderIsIncomplete(buffer: string)
    ensures forall i | 0 <= i < |Extract(buffer).sequences| :: Extract(buffer).sequences[i] != ""
    ensures Extract(Extract(buffer).remainder) == Extraction([], Extract(buffer).remainder)
    ensures Extract(buffer).remainder != "" ==> Extract(buffer).remainder[0] == ESC
    decreases |buffer|
  {
    if buffer != "" && NextLength(buffer) != 0 {
      RemainderIsIncomplete(buffer[NextLength(buffer)..]);
    }
  }

  /** The extraction ended by emitting two escapes, with nothing behind them yet. */
  predicate EndsWithTwoEscapes(buffer: string) {
    var e := Extract(buffer);
    e.remainder == "" && e.sequences != [] && e.sequences[|e.sequences| - 1] == TWO_ESCAPES
  }

  function Continued(a: string, b: string): Extraction {
    var first := Extract(a);
    var second := Extract(first.remainder + b);
    Extraction(first.sequences + second.sequences, second.remainder)
  }

  lemma {:induction false} FirstCompleteExtends(a: string, b: string, from: nat)
    requires FirstComplete(a, from) != 0
    ensures FirstComplete(a + b, from) == FirstComplete(a, from)
    decreases |a| - from
  {
    assert (a + b)[..from] == a[..from];
    if SequenceStatus(a[..from]) != CompleteSequence {
      FirstCompleteExtends(a, b, from + 1);
    }
  }

  /** More input changes what is emitted next only after two escapes at the very end. */
  lemma NextExtends(a: string, b: string)
    requires a != "" && NextLength(a) != 0
    ensures NextLength(a + b) == if a == TWO_ESCAPES && b != "" && Introduces(b[0]) then 1 else NextLength(a)
  {
    if a[0] == ESC {
      if FirstComplete(a, 1) != 0 {
        FirstCompleteExtends(a, b, 1);
      }
    }
  }

  lemma ExtractMore(a: string, n: nat)
    requires a != "" && n == NextLength(a) != 0
    ensures Extract(a) == Extraction([a[..n]] + Extract(a[n..]).sequences, Extract(a[n..]).remainder)
  {}

  /** Two escapes at the very end stay together unless `b` begins a longer sequence. */
  lemma IncrementalTwo(b: string)
    ensures EndsWithTwoEscapes(TWO_ESCAPES)
    ensures Extract(TWO_ESCAPES + b) == Continued(TWO_ESCAPES, b) <==> !(b != "" && Introduces(b[0]))
  {
    var a := TWO_ESCAPES;
    assert SequenceStatus(a[..1]) == Incomplete && SequenceStatus(a[..2]) == CompleteSequence;
    assert FirstComplete(a, 1) == FirstComplete(a, 2) == 2;
    NextExtends(a, b);
    ExtractMore(a, 2);
    ExtractMore(a + b, NextLength(a + b));
    assert a[..2] == a && a[2..] == "" && Extract("") == Extraction([], "");
    assert Extract(a) == Extraction([a], "");
    assert "" + b == b && (a + b)[..2] == a && (a + b)[2..] == b;
    if b != "" && Introduces(b[0]) {
      assert |Extract(a + b).sequences[0]| == 1 && |Continued(a, b).sequences[0]| == 2;
    }
  }

  lemma IncrementalOther(a: string, b: string, n: nat)
    requires a != "" && a != TWO_ESCAPES && n == NextLength(a) != 0
    ensures Extract(a + b) == Continued(a, b) <==> Extract(a[n..] + b) == Continued(a[n..], b)
  {
    hide Extract, NextLength, TWO_ESCAPES;
    NextExtends(a, b);
    ExtractMore(a, n);
    ExtractMore(a + b, n);
    assert (a + b)[n..] == a[n..] + b && (a + b)[..n] == a[..n];
    var whole, rest := Extract(a[n..] + b), Continued(a[n..], b);
    assert Extract(a + b) == Extraction([a[..n]] + whole.sequences, whole.remainder);
    assert Continued(a, b) == Extraction([a[..n]] + rest.sequences, rest.remainder);
    assert ([a[..n]] + whole.sequences)[1..] == whole.sequences;
    assert ([a[..n]] + rest.sequences)[1..] == rest.sequences;
  }

  /**
   Splitting is incremental: extracting from `a` and then from its remainder followed by `b` gives what extracting from
   `a + b` gives, if and only if `b` does not separate two escapes that were already emitted together.
   */
  lemma {:induction false} Incremental(a: string, b: string)
    ensures Extract(a + b) == Continued(a, b) <==> !(EndsWithTwoEscapes(a) && b != "" && Introduces(b[0]))
    decreases |a|
  {
    if a == "" || NextLength(a) == 0 {
      assert [] + Extract(a + b).sequences == Extract(a + b).sequences;
    } else if a == TWO_ESCAPES {
      IncrementalTwo(b);
    } else {
      var n := NextLength(a);
      IncrementalOther(a, b, n);
      Incremental(a[n..], b);
      TwoEscapesLater(a, n);
    }
  }

  lemma TwoEscapesLater(a: string, n: nat)
    requires a != "" && n == NextLength(a) != 0 && a != TWO_ESCAPES
    ensures EndsWithTwoEscapes(a) <==> EndsWithTwoEscapes(a[n..])
  {
    var rest := Extract(a[n..]);
    if rest.sequences == [] {
      if rest.remainder == "" {
        assert a == a[..n];
      }
    } else {
      assert ([a[..n]] + rest.sequences)[|rest.sequences|] == rest.sequences[|rest.sequences| - 1];
    }
  }
}
