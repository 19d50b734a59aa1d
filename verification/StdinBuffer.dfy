/**
 Terminal input as it arrives: escape sequences are completed across chunks, and a bracketed paste is collected between
 its markers. The meaning of one chunk is a function of the buffer's state; the class is proved to compute it, and the
 framing theorem is about every way of cutting the input into chunks.
 */
module StdinBuffer {
  import opened Results
  import opened Strings
  import opened BracketedPaste
  import opened EscapeSplitter
  import opened Fields

  datatype Paste = NoPaste | Collecting(fed: string, drained: nat)

  datatype State = State(buffer: string, paste: Paste, prePasteRemainder: string, kittyCodepoint: Option<nat>)

  datatype Output = Data(sequence: string) | Pasted(content: string)

  datatype Outcome = Outcome(state: State, outputs: seq<Output>)

  const FRESH := State("", NoPaste, "", None)

  /** A key report `ESC [ code (: alternate)? (: base)? u` for a printable code point. */
  function KittyCodepoint(sequence: string): Option<nat> {
    if |sequence| >= 4 && sequence[0] == ESC && sequence[1] == '[' && sequence[|sequence| - 1] == 'u' then
      var parts := Split(sequence[2..|sequence| - 1], ':');
      if 1 <= |parts| <= 3 && IsNumber(parts[0]) && (|parts| == 3 ==> IsNumber(parts[2]))
         && (|parts| >= 2 ==> parts[1] == "" || IsNumber(parts[1])) && ToNat(parts[0]) >= 32
      then Some(ToNat(parts[0])) else None
    else None
  }

  /** A plain character that repeats the key report before it is dropped. */
  function Emit(st: State, sequence: string): Outcome {
    if |sequence| == 1 && st.kittyCodepoint == Some(sequence[0] as int) then Outcome(st.(kittyCodepoint := None), [])
    else Outcome(st.(kittyCodepoint := KittyCodepoint(sequence)), [Data(sequence)])
  }

  function EmitAll(st: State, sequences: seq<string>): Outcome {
    if sequences == [] then Outcome(st, [])
    else
      var first := EmitAll(st, sequences[..|sequences| - 1]);
      var last := Emit(first.state, sequences[|sequences| - 1]);
      Outcome(last.state, first.outputs + last.outputs)
  }

  lemma {:induction false} EmitAllKeeps(st: State, sequences: seq<string>)
    ensures EmitAll(st, sequences).state == st.(kittyCodepoint := EmitAll(st, sequences).state.kittyCodepoint)
  {
    if sequences != [] {
      EmitAllKeeps(st, sequences[..|sequences| - 1]);
    }
  }

  /** What still has to be looked at: it shrinks by the markers of every paste that closes. */
  function Size(st: State, input: string): nat {
    |input| + |st.buffer| + |st.prePasteRemainder|
    + if st.paste.Collecting? then HeldLength(st.paste.fed, PASTE_END) else 0
  }

  predicate PlainLines(s: string) {
    |s| > 1 && ESC !in s && ('\r' in s || '\n' in s)
  }

  /** What comes before a start marker is ordinary input; an incomplete sequence is kept for after the paste. */
  function BeforePaste(st: State, before: string): Outcome {
    if before == "" then Outcome(st, [])
    else
      var e := Extract(before);
      var emitted := EmitAll(st, e.sequences);
      if e.remainder == [ESC] then
        var last := Emit(emitted.state, e.remainder);
        Outcome(last.state, emitted.outputs + last.outputs)
      else Outcome(emitted.state.(prePasteRemainder := e.remainder), emitted.outputs)
  }

  lemma BeforePasteKeeps(st: State, before: string)
    ensures var r := BeforePaste(st, before).state;
      && r.paste == st.paste && r.buffer == st.buffer
      && |r.prePasteRemainder| <= |st.prePasteRemainder| + |before|
      && (st.prePasteRemainder == "" && before == "" ==> r == st)
  {
    var e := Extract(before);
    EmitAllKeeps(st, e.sequences);
    Conserved(before);
    assert |Concat(e.sequences)| + |e.remainder| == |before|;
  }

  lemma CloseShrinks(fed: string, input: string)
    requires !Occurs(fed, PASTE_END) && IndexOf(fed + input, PASTE_END) != -1
    ensures |fed + input| - IndexOf(fed + input, PASTE_END) - |PASTE_END| < HeldLength(fed, PASTE_END) + |input|
  {
    MarkerInHeld(fed, input, PASTE_END, IndexOf(fed + input, PASTE_END));
  }

  ghost predicate Valid(st: State) {
    st.paste.Collecting? ==>
      && st.buffer == "" && !Occurs(st.paste.fed, PASTE_END)
      && st.paste.drained <= |st.paste.fed| - HeldLength(st.paste.fed, PASTE_END)
  }

  lemma DrainedBeforeEnd(fed: string, drained: nat, input: string)
    requires !Occurs(fed, PASTE_END) && drained <= |fed| - HeldLength(fed, PASTE_END)
    ensures drained <= |fed + input| - HeldLength(fed + input, PASTE_END)
    ensures var end := IndexOf(fed + input, PASTE_END); end != -1 ==> drained <= end
  {
    HoldHeld(fed, input, PASTE_END);
    if IndexOf(fed + input, PASTE_END) != -1 {
      MarkerInHeld(fed, input, PASTE_END, IndexOf(fed + input, PASTE_END));
    }
  }

  /** One chunk of input. */
  ghost function Process(detect: bool, st: State, str: string): (r: Outcome)
    requires Valid(st)
    ensures Valid(r.state)
    decreases Size(st, str), 1
  {
    if detect && st.paste.NoPaste? && st.buffer == "" && PlainLines(str) then
      Outcome(st.(kittyCodepoint := None), [Pasted(str)])
    else if st.paste.Collecting? then
      if str == "" then Outcome(st, []) else Collect(detect, st, str)
    else if str == "" && st.buffer == "" then Emit(st, "")
    else
      var buffer := st.buffer + str;
      var start := IndexOf(buffer, PASTE_START);
      if start != -1 then
        var before := BeforePaste(st, buffer[..start]);
        BeforePasteKeeps(st, buffer[..start]);
        NothingHeld();
        var opened_ := before.state.(kittyCodepoint := None, buffer := "", paste := Collecting("", 0));
        var rest := Collect(detect, opened_, buffer[start + |PASTE_START|..]);
        Outcome(rest.state, before.outputs + rest.outputs)
      else
        var e := Extract(buffer);
        EmitAllKeeps(st.(buffer := e.remainder), e.sequences);
        EmitAll(st.(buffer := e.remainder), e.sequences)
  }

  /** One chunk of a paste: when it closes, what was kept from before it and what follows it is ordinary input again. */
  ghost function Collect(detect: bool, st: State, input: string): (r: Outcome)
    requires Valid(st) && st.paste.Collecting?
    ensures Valid(r.state)
    decreases Size(st, input), 0
  {
    var all := st.paste.fed + input;
    var end := IndexOf(all, PASTE_END);
    DrainedBeforeEnd(st.paste.fed, st.paste.drained, input);
    if end == -1 then Outcome(st.(paste := Collecting(all, st.paste.drained)), [])
    else
      CloseShrinks(st.paste.fed, input);
      var remaining := st.prePasteRemainder + all[end + |PASTE_END|..];
      var closed := State(st.buffer, NoPaste, "", None);
      var content := Pasted(all[st.paste.drained..end]);
      if remaining == "" then Outcome(closed, [content])
      else
        var rest := Process(detect, closed, remaining);
        Outcome(rest.state, [content] + rest.outputs)
  }

  /** An idle gap in a paste: what is certainly content is given out. */
  function Drain(st: State): Outcome
    requires st.paste.Collecting? ==> st.paste.drained <= |st.paste.fed| - HeldLength(st.paste.fed, PASTE_END)
  {
    if st.paste.NoPaste? then Outcome(st, [])
    else
      var upTo := |st.paste.fed| - HeldLength(st.paste.fed, PASTE_END);
      var content := st.paste.fed[st.paste.drained..upTo];
      Outcome(st.(paste := Collecting(st.paste.fed, upTo)), if content == "" then [] else [Pasted(content)])
  }

  /** An idle gap outside a paste: an unfinished sequence is given out as it is. */
  function Timeout(st: State): Outcome {
    if st.buffer == "" then Outcome(st, []) else Emit(st.(buffer := "", kittyCodepoint := None), st.buffer)
  }

  // ---- Framing, however the input is cut ----

  /** A chunk of input, or a pause long enough for the timer that runs, if one does. */
  datatype Input = Chunk(text: string) | IdleGap

  ghost function RunInputs(detect: bool, st: State, inputs: seq<Input>): (r: Outcome)
    requires Valid(st)
    ensures Valid(r.state)
    decreases |inputs|
  {
    if inputs == [] then Outcome(st, [])
    else
      NextKeepsValid(detect, st, inputs[0]);
      var first := Next(detect, st, inputs[0]);
      var rest := RunInputs(detect, first.state, inputs[1..]);
      Outcome(rest.state, first.outputs + rest.outputs)
  }

  ghost function Next(detect: bool, st: State, input: Input): Outcome
    requires Valid(st)
  {
    match input
    case Chunk(text) => Process(detect, st, text)
    case IdleGap => if st.paste.NoPaste? then Timeout(st) else Drain(st)
  }

  lemma NextKeepsValid(detect: bool, st: State, input: Input)
    requires Valid(st)
    ensures Valid(Next(detect, st, input).state)
  {}

  function TextOf(inputs: seq<Input>): string {
    if inputs == [] then ""
    else (match inputs[0] case Chunk(text) => text case IdleGap => "") + TextOf(inputs[1..])
  }

  /** What is left of the inputs after their first `n` characters; a chunk that is cut keeps its end. */
  function After(inputs: seq<Input>, n: nat): seq<Input> {
    if inputs == [] then []
    else
      match inputs[0]
      case IdleGap => if n == 0 then inputs else After(inputs[1..], n)
      case Chunk(text) =>
        if n > |text| then After(inputs[1..], n - |text|)
        else if n == |text| then inputs[1..]
        else [Chunk(text[n..])] + inputs[1..]
  }

  /** The pasted texts among the outputs, and that there is nothing else. */
  function PastesOf(contents: seq<string>): seq<Output> {
    seq(|contents|, i requires 0 <= i < |contents| => Pasted(contents[i]))
  }

  /** The empty chunks that come before the first character. */
  function LeadingEmpties(inputs: seq<Input>): nat {
    if inputs == [] then 0
    else
      match inputs[0]
      case IdleGap => LeadingEmpties(inputs[1..])
      case Chunk(text) => if text == "" then 1 + LeadingEmpties(inputs[1..]) else 0
  }

  /** A pause comes while the start marker is partly there, `n` characters of it so far: what is there is given out. */
  predicate MarkerPaused(inputs: seq<Input>, n: nat) {
    if inputs == [] || n >= |PASTE_START| then false
    else
      match inputs[0]
      case IdleGap => n > 0 || MarkerPaused(inputs[1..], n)
      case Chunk(text) => MarkerPaused(inputs[1..], n + |text|)
  }

  /** Closing markers do not overlap: only their first character is an escape. */
  lemma MarkersApart(s: string, i: int, j: int)
    requires OccursAt(s, PASTE_END, i) && OccursAt(s, PASTE_END, j)
    ensures i < j ==> i + |PASTE_END| <= j
  {
    forall k | 0 <= k < |PASTE_END|
      ensures s[i + k] == PASTE_END[k]
    {
      assert s[i..i + |PASTE_END|][k] == s[i + k];
    }
    assert s[j] == s[j..j + |PASTE_END|][0] == ESC;
    assert 0 <= j - i < |PASTE_END| ==> s[i + (j - i)] == PASTE_END[j - i];
  }

  /** The first closing marker after content without one is where the content ends. */
  lemma ContentEnds(content: string, tail: string)
    requires !Occurs(content, PASTE_END)
    ensures IndexOf(content + PASTE_END + tail, PASTE_END) == |content|
  {
    var all := content + PASTE_END + tail;
    assert all[|content|..|content| + |PASTE_END|] == PASTE_END;
    assert OccursAt(all, PASTE_END, |content|);
    var first := IndexOf(all, PASTE_END);
    MarkersApart(all, first, |content|);
    if first + |PASTE_END| <= |content| {
      assert content[first..first + |PASTE_END|] == all[first..first + |PASTE_END|];
      assert OccursAt(content, PASTE_END, first);
    }
  }

  /** A front of content, marker and tail holds the marker exactly when it reaches that far. */
  lemma FrontOfPaste(front: string, content: string, tail: string)
    requires !Occurs(content, PASTE_END) && front <= content + PASTE_END + tail
    ensures IndexOf(front, PASTE_END) == if |front| < |content| + |PASTE_END| then -1 else |content|
    ensures |front| < |content| + |PASTE_END| ==> |front| - HeldLength(front, PASTE_END) <= |content|
  {
    var all, m := content + PASTE_END + tail, |PASTE_END|;
    ContentEnds(content, tail);
    if |front| < |content| + m {
      if Occurs(front, PASTE_END) {
        var i := IndexOf(front, PASTE_END);
        assert all[i..i + m] == front[i..i + m];
        assert OccursAt(all, PASTE_END, i);
      }
      if |front| > |content| {
        var k := |front| - |content|;
        assert front[|content|..] == all[|content|..|content| + m][..k] == PASTE_END[..k];
        assert EndsWith(front, PASTE_END[..k]);
      }
    } else {
      assert front == content + PASTE_END + front[|content| + m..];
      ContentEnds(content, front[|content| + m..]);
    }
  }

  function InPaste(fed: string, drained: nat): State {
    State("", Collecting(fed, drained), "", None)
  }

  /** The run gives out `pastes` and then does what a fresh buffer does with the inputs left after `n` characters. */
  ghost predicate Framed(detect: bool, st: State, inputs: seq<Input>, pastes: seq<string>, n: nat)
    requires Valid(st)
  {
    var run, tail := RunInputs(detect, st, inputs), RunInputs(detect, FRESH, After(inputs, n));
    run.state == tail.state && run.outputs == PastesOf(pastes) + tail.outputs
  }

  lemma RunStep(detect: bool, st: State, inputs: seq<Input>)
    requires Valid(st) && inputs != []
    ensures Valid(Next(detect, st, inputs[0]).state)
    ensures var first := Next(detect, st, inputs[0]);
      var rest := RunInputs(detect, first.state, inputs[1..]);
      RunInputs(detect, st, inputs) == Outcome(rest.state, first.outputs + rest.outputs)
  {
    NextKeepsValid(detect, st, inputs[0]);
  }

  /** A step that gives out `more` and leaves the run framed from there on. */
  lemma FramedStep(detect: bool, st: State, st': State, inputs: seq<Input>, more: seq<string>, pastes: seq<string>,
                   n: nat, n': nat)
    requires Valid(st) && Valid(st') && inputs != []
    requires Next(detect, st, inputs[0]) == Outcome(st', PastesOf(more))
    requires After(inputs, n) == After(inputs[1..], n') && Framed(detect, st', inputs[1..], pastes, n')
    ensures Framed(detect, st, inputs, more + pastes, n)
  {
    hide RunInputs, Next, After;
    RunStep(detect, st, inputs);
    var tail := RunInputs(detect, FRESH, After(inputs, n));
    assert PastesOf(more + pastes) == PastesOf(more) + PastesOf(pastes);
    assert PastesOf(more) + (PastesOf(pastes) + tail.outputs) == PastesOf(more + pastes) + tail.outputs;
  }

  /** A step that gives out nothing, and takes `m` characters that come before the tail. */
  lemma FramedQuiet(detect: bool, st: State, st': State, inputs: seq<Input>, pastes: seq<string>, n: nat, m: nat)
    requires Valid(st) && Valid(st') && inputs != [] && m < n
    requires m == match inputs[0] case Chunk(text) => |text| case IdleGap => 0
    requires Next(detect, st, inputs[0]) == Outcome(st', PastesOf([]))
    requires Framed(detect, st', inputs[1..], pastes, n - m)
    ensures Framed(detect, st, inputs, pastes, n)
  {
    hide Framed, RunInputs, Next, PastesOf, Valid;
    FramedStep(detect, st, st', inputs, [], pastes, n, n - m);
    assert [] + pastes == pastes;
  }

  lemma TextNext(inputs: seq<Input>)
    requires inputs != []
    ensures TextOf(inputs) == if inputs[0].Chunk? then inputs[0].text + TextOf(inputs[1..]) else TextOf(inputs[1..])
  {
    assert "" + TextOf(inputs[1..]) == TextOf(inputs[1..]);
  }

  lemma NoText()
    ensures TextOf([]) == ""
  {}

  function GapPastes(fed: string, drained: nat): seq<string>
    requires drained <= |fed| - HeldLength(fed, PASTE_END)
  {
    var content := fed[drained..|fed| - HeldLength(fed, PASTE_END)];
    if content == "" then [] else [content]
  }

  lemma NextGap(detect: bool, fed: string, drained: nat)
    requires Valid(InPaste(fed, drained))
    ensures Next(detect, InPaste(fed, drained), IdleGap)
         == Outcome(InPaste(fed, |fed| - HeldLength(fed, PASTE_END)), PastesOf(GapPastes(fed, drained)))
  {}

  lemma NextPart(detect: bool, fed: string, drained: nat, text: string)
    requires Valid(InPaste(fed, drained)) && IndexOf(fed + text, PASTE_END) == -1
    ensures Next(detect, InPaste(fed, drained), Chunk(text)) == Outcome(InPaste(fed + text, drained), PastesOf([]))
  {
    if text == "" {
      assert fed + text == fed;
      return;
    }
    assert Process(detect, InPaste(fed, drained), text) == Collect(detect, InPaste(fed, drained), text);
  }

  lemma NextEnd(detect: bool, fed: string, drained: nat, text: string)
    requires Valid(InPaste(fed, drained)) && text != "" && IndexOf(fed + text, PASTE_END) != -1
    ensures var all := fed + text;
      var end := IndexOf(all, PASTE_END);
      var left := all[end + |PASTE_END|..];
      && drained <= end
      && Next(detect, InPaste(fed, drained), Chunk(text)) ==
           if left == "" then Outcome(FRESH, [Pasted(all[drained..end])])
           else var rest := Process(detect, FRESH, left);
                Outcome(rest.state, [Pasted(all[drained..end])] + rest.outputs)
  {
    DrainedBeforeEnd(fed, drained, text);
    var all := fed + text;
    var left := all[IndexOf(all, PASTE_END) + |PASTE_END|..];
    assert "" + left == left;
    assert Process(detect, InPaste(fed, drained), text) == Collect(detect, InPaste(fed, drained), text);
  }

  lemma FramedAtEnd(detect: bool, fed: string, drained: nat, inputs: seq<Input>, n: nat)
    requires inputs != [] && inputs[0].Chunk? && inputs[0].text != "" && Valid(InPaste(fed, drained))
    requires var all := fed + inputs[0].text;
      var end := IndexOf(all, PASTE_END);
      end != -1 && drained <= end && n == end + |PASTE_END| - |fed| && n >= 0
    ensures var all := fed + inputs[0].text;
      Framed(detect, InPaste(fed, drained), inputs, [all[drained..IndexOf(all, PASTE_END)]], n)
  {
    hide RunInputs, Process, Collect, IndexOf, Occurs, PASTE_END, HeldLength, Next, Framed;
    var text := inputs[0].text;
    var all := fed + text;
    var end := IndexOf(all, PASTE_END);
    NextEnd(detect, fed, drained, text);
    assert inputs[0] == Chunk(text);
    assert all[end + |PASTE_END|..] == text[n..];
    FramedFirst(detect, InPaste(fed, drained), inputs, all[drained..end], n);
  }

  /** A chunk that gives out a paste and leaves the rest of itself to a fresh buffer. */
  lemma FramedFirst(detect: bool, st: State, inputs: seq<Input>, content: string, n: nat)
    requires Valid(st) && inputs != [] && inputs[0].Chunk? && n <= |inputs[0].text|
    requires Next(detect, st, inputs[0]) ==
      if inputs[0].text[n..] == "" then Outcome(FRESH, [Pasted(content)])
      else var rest := Process(detect, FRESH, inputs[0].text[n..]);
           Outcome(rest.state, [Pasted(content)] + rest.outputs)
    ensures Framed(detect, st, inputs, [content], n)
  {
    hide RunInputs, Process, Collect, IndexOf, Occurs, PASTE_END, HeldLength, Next;
    RunStep(detect, st, inputs);
    assert PastesOf([content]) == [Pasted(content)];
    if n < |inputs[0].text| {
      AfterEnd(detect, inputs, n);
      var rest := Process(detect, FRESH, inputs[0].text[n..]);
      var tail := RunInputs(detect, rest.state, inputs[1..]);
      assert [Pasted(content)] + rest.outputs + tail.outputs == [Pasted(content)] + (rest.outputs + tail.outputs);
    }
  }

  /** A fresh buffer takes the rest of the chunk, and the chunks after it. */
  lemma AfterEnd(detect: bool, inputs: seq<Input>, n: nat)
    requires inputs != [] && inputs[0].Chunk? && n < |inputs[0].text|
    ensures var rest := Process(detect, FRESH, inputs[0].text[n..]);
      var tail := RunInputs(detect, rest.state, inputs[1..]);
      RunInputs(detect, FRESH, After(inputs, n)) == Outcome(tail.state, rest.outputs + tail.outputs)
  {
    hide RunInputs, Process, Collect, IndexOf, Occurs, PASTE_END, HeldLength;
    var text := inputs[0].text;
    var after := After(inputs, n);
    assert after == [Chunk(text[n..])] + inputs[1..] && after[1..] == inputs[1..];
    RunStep(detect, FRESH, after);
    assert Next(detect, FRESH, after[0]) == Process(detect, FRESH, text[n..]);
  }

  lemma {:induction false} CollectPhase(detect: bool, inputs: seq<Input>, fed: string, drained: nat,
                                        content: string, tail: string)
    returns (pastes: seq<string>)
    requires !Occurs(content, PASTE_END)
    requires fed + TextOf(inputs) == content + PASTE_END + tail && |fed| < |content| + |PASTE_END|
    requires drained <= |fed| - HeldLength(fed, PASTE_END)
    ensures drained <= |content| && Valid(InPaste(fed, drained))
    ensures Framed(detect, InPaste(fed, drained), inputs, pastes, |content| + |PASTE_END| - |fed|)
    ensures Concat(pastes) == content[drained..] && pastes != []
    decreases |inputs|
  {
    hide Framed, Next, Process, RunInputs, Occurs, HeldLength, IndexOf, PASTE_END, After, TextOf, PastesOf;
    MarkerLength();
    NoText();
    TextNext(inputs);
    var all := content + PASTE_END + tail;
    var n := |content| + |PASTE_END| - |fed|;
    assert fed <= all;
    FrontOfPaste(fed, content, tail);
    match inputs[0]
    case IdleGap =>
      var upTo := |fed| - HeldLength(fed, PASTE_END);
      var rest := CollectPhase(detect, inputs[1..], fed, upTo, content, tail);
      pastes := CollectGap(detect, inputs, fed, drained, content, tail, rest, n);
    case Chunk(text) =>
      var front := fed + text;
      assert front + TextOf(inputs[1..]) == all;
      assert front <= all;
      FrontOfPaste(front, content, tail);
      if |front| < |content| + |PASTE_END| {
        DrainedBeforeEnd(fed, drained, text);
        pastes := CollectPhase(detect, inputs[1..], front, drained, content, tail);
        NextPart(detect, fed, drained, text);
        FramedQuiet(detect, InPaste(fed, drained), InPaste(front, drained), inputs, pastes, n, |text|);
      } else {
        FramedAtEnd(detect, fed, drained, inputs, n);
        assert front[drained..|content|] == content[drained..];
        pastes := [content[drained..]];
        assert Concat(pastes) == content[drained..];
      }
  }

  lemma CollectGap(detect: bool, inputs: seq<Input>, fed: string, drained: nat, content: string, tail: string,
                   rest: seq<string>, n: nat)
    returns (pastes: seq<string>)
    requires inputs != [] && inputs[0] == IdleGap && n > 0 && Valid(InPaste(fed, drained))
    requires fed <= content + PASTE_END + tail
    requires var upTo := |fed| - HeldLength(fed, PASTE_END);
      && upTo <= |content| && Valid(InPaste(fed, upTo))
      && Framed(detect, InPaste(fed, upTo), inputs[1..], rest, n) && Concat(rest) == content[upTo..] && rest != []
    ensures Framed(detect, InPaste(fed, drained), inputs, pastes, n) && Concat(pastes) == content[drained..]
    ensures pastes != []
  {
    hide Framed, Next, Process, RunInputs, Occurs, HeldLength;
    var upTo := |fed| - HeldLength(fed, PASTE_END);
    NextGap(detect, fed, drained);
    var more := GapPastes(fed, drained);
    FramedStep(detect, InPaste(fed, drained), InPaste(fed, upTo), inputs, more, rest, n, n);
    pastes := more + rest;
    ConcatAppend(more, rest);
    assert Concat(more) == fed[drained..upTo];
    assert fed[..upTo] == content[..upTo];
    assert content[drained..] == fed[drained..upTo] + content[upTo..];
  }

  // ---- The start marker, however it is cut ----

  /** A proper front of the start marker is an incomplete sequence, so it is kept. */
  lemma StartIncomplete(n: nat)
    requires n < |PASTE_START|
    ensures Extract(PASTE_START[..n]) == Extraction([], PASTE_START[..n])
  {
    forall k | 1 <= k <= n
      ensures SequenceStatus(PASTE_START[..n][..k]) == Incomplete
    {
      assert PASTE_START[..n][..k] == PASTE_START[..k];
    }
    if n > 0 {
      var first := FirstComplete(PASTE_START[..n], 1);
    }
  }

  function Opening(n: nat, k: Option<nat>): State
    requires n < |PASTE_START|
  {
    State(PASTE_START[..n], NoPaste, "", k)
  }

  /** A chunk that does not complete the start marker gives out nothing. */
  lemma NextOpening(detect: bool, n: nat, k: Option<nat>, text: string)
    requires 0 < n + |text| < |PASTE_START| && text == PASTE_START[n..n + |text|]
    ensures Next(detect, Opening(n, k), Chunk(text)) == Outcome(Opening(n + |text|, k), PastesOf([]))
  {
    var buffer := PASTE_START[..n] + text;
    assert buffer == PASTE_START[..n + |text|];
    assert n == 0 ==> text[0] == ESC;
    StartIncomplete(n + |text|);
    assert IndexOf(buffer, PASTE_START) == -1;
    assert EmitAll(Opening(n + |text|, k), []) == Outcome(Opening(n + |text|, k), []);
  }

  lemma ProcessOpens(detect: bool, st: State, str: string)
    requires st.paste.NoPaste? && st.prePasteRemainder == "" && str != ""
    requires IndexOf(st.buffer + str, PASTE_START) == 0 && !(st.buffer == "" && PlainLines(str))
    ensures Valid(st) && Valid(InPaste("", 0))
    ensures Process(detect, st, str) == Collect(detect, InPaste("", 0), (st.buffer + str)[|PASTE_START|..])
  {
    hide IndexOf, PASTE_START, HeldLength, Occurs, PlainLines;
    NothingHeld();
    var buffer := st.buffer + str;
    assert buffer[..0] == "";
    var rest := Collect(detect, InPaste("", 0), buffer[|PASTE_START|..]);
    assert [] + rest.outputs == rest.outputs;
  }

  /** The chunk that completes the start marker opens the paste with what follows the marker. */
  lemma NextOpens(detect: bool, n: nat, k: Option<nat>, text: string)
    requires n < |PASTE_START| && n + |text| >= |PASTE_START|
    requires text[..|PASTE_START| - n] == PASTE_START[n..]
    ensures Valid(InPaste("", 0))
    ensures Next(detect, Opening(n, k), Chunk(text)) == Collect(detect, InPaste("", 0), text[|PASTE_START| - n..])
  {
    hide Collect, Process, IndexOf;
    var buffer := PASTE_START[..n] + text;
    assert buffer[..|PASTE_START|] == PASTE_START[..n] + text[..|PASTE_START| - n] == PASTE_START;
    assert OccursAt(buffer, PASTE_START, 0);
    assert buffer[|PASTE_START|..] == text[|PASTE_START| - n..];
    if n == 0 {
      assert text[0] == text[..|PASTE_START|][0] == ESC;
    }
    ProcessOpens(detect, Opening(n, k), text);
  }

  /** Taking one chunk off the text that begins with the marker `s`. */
  lemma OpeningText(s: string, n: nat, text: string, rest: string, whole: string)
    requires n < |s| && s[..n] + (text + rest) == s + whole
    ensures if n + |text| < |s| then text == s[n..n + |text|] && s[..n + |text|] + rest == s + whole
            else text[..|s| - n] == s[n..] && text[|s| - n..] + rest == whole
  {
    var all := s + whole;
    assert text + rest == all[n..];
    if n + |text| < |s| {
      assert text == all[n..n + |text|] && rest == all[n + |text|..];
      assert all == all[..n + |text|] + rest;
    } else {
      var m := |s| - n;
      assert (text + rest)[..m] == text[..m] && (text + rest)[m..] == text[m..] + rest;
      assert all[n..][..m] == s[n..] && all[n..][m..] == whole;
    }
  }

  /** The inputs once the start marker is taken off them. */
  lemma {:induction false} OpeningPhase(detect: bool, inputs: seq<Input>, n: nat, k: Option<nat>,
                                        content: string, tail: string)
    returns (pastes: seq<string>)
    requires n < |PASTE_START| && !Occurs(content, PASTE_END) && (n == 0 ==> LeadingEmpties(inputs) == 0)
    requires !MarkerPaused(inputs, n)
    requires PASTE_START[..n] + TextOf(inputs) == PASTE_START + (content + PASTE_END + tail)
    ensures Framed(detect, Opening(n, k), inputs, pastes, |PASTE_START| - n + |content| + |PASTE_END|)
    ensures Concat(pastes) == content && pastes != []
    decreases |inputs|
  {
    hide Framed, Process, Collect, RunInputs, Occurs, HeldLength, IndexOf, PASTE_START, PASTE_END, Next, After, TextOf,
      Concat, PastesOf;
    MarkerLength();
    StartLength();
    NoText();
    TextNext(inputs);
    var left := |PASTE_START| - n + |content| + |PASTE_END|;
    match inputs[0]
    case IdleGap =>
      pastes := OpeningPhase(detect, inputs[1..], n, k, content, tail);
      OpeningGap(detect, k);
      FramedQuiet(detect, Opening(0, k), Opening(0, k), inputs, pastes, left, 0);
    case Chunk(text) =>
      OpeningText(PASTE_START, n, text, TextOf(inputs[1..]), content + PASTE_END + tail);
      if n + |text| < |PASTE_START| {
        pastes := OpeningPhase(detect, inputs[1..], n + |text|, k, content, tail);
        NextOpening(detect, n, k, text);
        FramedQuiet(detect, Opening(n, k), Opening(n + |text|, k), inputs, pastes, left, |text|);
      } else {
        pastes := OpenedPhase(detect, inputs, n, k, content, tail);
      }
  }

  lemma OpeningGap(detect: bool, k: Option<nat>)
    ensures Next(detect, Opening(0, k), IdleGap) == Outcome(Opening(0, k), PastesOf([]))
  {}

  lemma StartLength()
    ensures |PASTE_START| == 6
  {}

  lemma OpenedPhase(detect: bool, inputs: seq<Input>, n: nat, k: Option<nat>, content: string, tail: string)
    returns (pastes: seq<string>)
    requires n < |PASTE_START| && !Occurs(content, PASTE_END)
    requires inputs != [] && inputs[0].Chunk? && n + |inputs[0].text| >= |PASTE_START|
    requires inputs[0].text[..|PASTE_START| - n] == PASTE_START[n..]
    requires inputs[0].text[|PASTE_START| - n..] + TextOf(inputs[1..]) == content + PASTE_END + tail
    ensures Framed(detect, Opening(n, k), inputs, pastes, |PASTE_START| - n + |content| + |PASTE_END|)
    ensures Concat(pastes) == content && pastes != []
  {
    hide Process, Collect, RunInputs, Occurs, HeldLength, IndexOf, PASTE_START, PASTE_END, Next, After, Framed, TextOf,
      OpenedInputs, Opening, InPaste, Valid;
    MarkerLength();
    var m, left := |PASTE_START| - n, |content| + |PASTE_END|;
    NextOpens(detect, n, k, inputs[0].text);
    OpenedAfter(inputs, m, left);
    OpeningValid(n, k);
    pastes := OpenedRest(detect, Opening(n, k), inputs, inputs[0].text[m..], m + left, content, tail);
  }

  lemma OpeningValid(n: nat, k: Option<nat>)
    requires n < |PASTE_START|
    ensures Valid(Opening(n, k))
  {}

  lemma OpenedRest(detect: bool, st: State, inputs: seq<Input>, text: string, n: nat, content: string, tail: string)
    returns (pastes: seq<string>)
    requires Valid(st) && !Occurs(content, PASTE_END) && inputs != []
    requires Valid(InPaste("", 0)) && Next(detect, st, inputs[0]) == Collect(detect, InPaste("", 0), text)
    requires After(inputs, n) == After(OpenedInputs(text, inputs[1..]), |content| + |PASTE_END|)
    requires text + TextOf(inputs[1..]) == content + PASTE_END + tail
    ensures Framed(detect, st, inputs, pastes, n)
    ensures Concat(pastes) == content && pastes != []
  {
    hide Process, Collect, RunInputs, Occurs, HeldLength, IndexOf, PASTE_START, PASTE_END, Next, After, Framed, TextOf,
      OpenedInputs, Valid, InPaste, Concat;
    var opened_ := OpenedInputs(text, inputs[1..]);
    OpenedText(text, inputs[1..]);
    pastes := CollectOpened(detect, opened_, content, tail);
    RunStep(detect, st, inputs);
    OpenedRun(detect, text, inputs[1..]);
    SameRun(detect, InPaste("", 0), opened_, st, inputs, pastes, |content| + |PASTE_END|, n);
  }

  lemma CollectOpened(detect: bool, inputs: seq<Input>, content: string, tail: string) returns (pastes: seq<string>)
    requires !Occurs(content, PASTE_END) && TextOf(inputs) == content + PASTE_END + tail
    ensures Valid(InPaste("", 0)) && Framed(detect, InPaste("", 0), inputs, pastes, |content| + |PASTE_END|)
    ensures Concat(pastes) == content && pastes != []
  {
    hide Occurs, HeldLength, PASTE_END, Framed, TextOf, Valid, InPaste;
    MarkerLength();
    assert "" + TextOf(inputs) == TextOf(inputs) && content[0..] == content;
    pastes := CollectPhase(detect, inputs, "", 0, content, tail);
  }

  lemma SameRun(detect: bool, st: State, inputs: seq<Input>, st': State, inputs': seq<Input>, pastes: seq<string>,
                n: nat, n': nat)
    requires Valid(st) && Valid(st') && Framed(detect, st, inputs, pastes, n)
    requires RunInputs(detect, st', inputs') == RunInputs(detect, st, inputs) && After(inputs', n') == After(inputs, n)
    ensures Framed(detect, st', inputs', pastes, n')
  {}

  function OpenedInputs(text: string, rest: seq<Input>): seq<Input> {
    if text == "" then rest else [Chunk(text)] + rest
  }

  lemma OpenedText(text: string, rest: seq<Input>)
    ensures TextOf(OpenedInputs(text, rest)) == text + TextOf(rest)
  {
    if text == "" {
      assert text + TextOf(rest) == TextOf(rest);
    } else {
      assert ([Chunk(text)] + rest)[1..] == rest;
    }
  }

  lemma OpenedAfter(inputs: seq<Input>, m: nat, left: nat)
    requires inputs != [] && inputs[0].Chunk? && m <= |inputs[0].text| && left > 0
    ensures After(inputs, m + left) == After(OpenedInputs(inputs[0].text[m..], inputs[1..]), left)
  {
    var text, rest := inputs[0].text, inputs[1..];
    if text[m..] != "" {
      assert ([Chunk(text[m..])] + rest)[1..] == rest;
      if left < |text| - m {
        assert text[m..][left..] == text[m + left..];
      }
    }
  }

  /** Opening a paste with `text` is opening it empty and then receiving `text` as a chunk. */
  lemma OpenedRun(detect: bool, text: string, rest: seq<Input>)
    requires Valid(InPaste("", 0))
    ensures var first := Collect(detect, InPaste("", 0), text);
      var tail := RunInputs(detect, first.state, rest);
      RunInputs(detect, InPaste("", 0), OpenedInputs(text, rest))
      == Outcome(tail.state, first.outputs + tail.outputs)
  {
    var first := Collect(detect, InPaste("", 0), text);
    var tail := RunInputs(detect, first.state, rest);
    if text == "" {
      assert "" + text == "";
      assert first == Outcome(InPaste("", 0), []);
      assert [] + tail.outputs == tail.outputs;
    } else {
      var inputs := [Chunk(text)] + rest;
      assert inputs[1..] == rest;
      RunStep(detect, InPaste("", 0), inputs);
      assert Process(detect, InPaste("", 0), text) == first;
    }
  }

  /** The empty data events that empty chunks on an idle buffer give out. */
  function EmptyEvents(k: nat): seq<Output> {
    seq(k, _ => Data(""))
  }

  /** An idle buffer: perhaps a key report is remembered, to drop the character that repeats it. */
  function Idle(k: Option<nat>): State {
    State("", NoPaste, "", k)
  }

  /**
   However a framed paste is cut into chunks, and wherever the input pauses except within the start marker: after an
   empty event for each empty chunk before the first character, the pastes given out are the content, and what follows
   the closing marker is handled as a fresh buffer would handle it.
   */
  lemma {:induction false} FramedPaste(detect: bool, k: Option<nat>, inputs: seq<Input>, content: string, tail: string)
    returns (pastes: seq<string>)
    requires !Occurs(content, PASTE_END) && !MarkerPaused(inputs, 0)
    requires TextOf(inputs) == PASTE_START + content + PASTE_END + tail
    ensures Concat(pastes) == content && pastes != []
    ensures var run := RunInputs(detect, Idle(k), inputs);
      var rest := RunInputs(detect, FRESH, After(inputs, |PASTE_START| + |content| + |PASTE_END|));
      && run.state == rest.state
      && run.outputs == EmptyEvents(LeadingEmpties(inputs)) + PastesOf(pastes) + rest.outputs
    decreases |inputs|
  {
    hide RunInputs, Occurs, PASTE_START, PASTE_END, Next, PastesOf, EmptyEvents;
    StartLength();
    var n := |PASTE_START| + |content| + |PASTE_END|;
    var rest := RunInputs(detect, FRESH, After(inputs, n));
    if inputs[0] == IdleGap || inputs[0] == Chunk("") {
      var k' := if inputs[0] == IdleGap then k else None;
      pastes := FramedPaste(detect, k', inputs[1..], content, tail);
      NextIdle(detect, k);
      RunStep(detect, Idle(k), inputs);
      var empties := LeadingEmpties(inputs[1..]);
      var outputs := RunInputs(detect, Idle(k'), inputs[1..]).outputs;
      if inputs[0] == IdleGap {
        assert [] + outputs == outputs;
      } else {
        EmptyEventsMore(empties);
        assert [Data("")] + (EmptyEvents(empties) + PastesOf(pastes) + rest.outputs)
            == [Data("")] + EmptyEvents(empties) + PastesOf(pastes) + rest.outputs;
      }
    } else {
      pastes := FramedAtOnce(detect, k, inputs, content, tail);
      NoEmptyEvents();
      assert [] + PastesOf(pastes) == PastesOf(pastes);
    }
  }

  lemma NextIdle(detect: bool, k: Option<nat>)
    ensures Next(detect, Idle(k), IdleGap) == Outcome(Idle(k), [])
    ensures Next(detect, Idle(k), Chunk("")) == Outcome(FRESH, [Data("")])
  {}

  lemma EmptyEventsMore(k: nat)
    ensures EmptyEvents(1 + k) == [Data("")] + EmptyEvents(k)
  {}

  lemma NoEmptyEvents()
    ensures EmptyEvents(0) == []
  {}

  lemma FramedAtOnce(detect: bool, k: Option<nat>, inputs: seq<Input>, content: string, tail: string)
    returns (pastes: seq<string>)
    requires !Occurs(content, PASTE_END) && LeadingEmpties(inputs) == 0 && !MarkerPaused(inputs, 0)
    requires TextOf(inputs) == PASTE_START + content + PASTE_END + tail
    ensures Framed(detect, Idle(k), inputs, pastes, |PASTE_START| + |content| + |PASTE_END|)
    ensures Concat(pastes) == content && pastes != []
  {
    hide Framed, Occurs, PASTE_START, PASTE_END, TextOf;
    StartLength();
    assert PASTE_START[..0] == "" && "" + TextOf(inputs) == TextOf(inputs);
    assert PASTE_START + content + PASTE_END + tail == PASTE_START + (content + PASTE_END + tail);
    pastes := OpeningPhase(detect, inputs, 0, k, content, tail);
  }

  /** A pause within the start marker gives out its front as ordinary input, ahead of everything else. */
  lemma {:induction false} PausedGivesData(detect: bool, k: Option<nat>, inputs: seq<Input>, n: nat, whole: string)
    requires n < |PASTE_START| && MarkerPaused(inputs, n)
    requires PASTE_START[..n] + TextOf(inputs) == PASTE_START + whole
    ensures var outputs := RunInputs(detect, Opening(n, k), inputs).outputs; outputs != [] && outputs[0].Data?
    decreases |inputs|
  {
    hide RunInputs, Next, PASTE_START;
    RunStep(detect, Opening(n, k), inputs);
    match inputs[0]
    case IdleGap =>
      NextPause(detect, n, k);
      if n == 0 {
        PausedGivesData(detect, k, inputs[1..], 0, whole);
      }
    case Chunk(text) =>
      OpeningText(PASTE_START, n, text, TextOf(inputs[1..]), whole);
      if n + |text| > 0 {
        NextOpening(detect, n, k, text);
        PausedGivesData(detect, k, inputs[1..], n + |text|, whole);
      } else {
        NextIdle(detect, k);
      }
  }

  lemma NextPause(detect: bool, n: nat, k: Option<nat>)
    requires n < |PASTE_START|
    ensures Next(detect, Opening(n, k), IdleGap) ==
      if n == 0 then Outcome(Opening(0, k), [])
      else Outcome(Idle(KittyCodepoint(PASTE_START[..n])), [Data(PASTE_START[..n])])
  {}

  /**
   Only pastes are given out before the tail if and only if no empty chunk comes before the first character and no pause
   within the start marker.
   */
  lemma FramedExactly(detect: bool, k: Option<nat>, inputs: seq<Input>, content: string, tail: string)
    requires !Occurs(content, PASTE_END)
    requires TextOf(inputs) == PASTE_START + content + PASTE_END + tail
    ensures (exists pastes ::
        && Framed(detect, Idle(k), inputs, pastes, |PASTE_START| + |content| + |PASTE_END|)
        && Concat(pastes) == content && pastes != [])
      <==> LeadingEmpties(inputs) == 0 && !MarkerPaused(inputs, 0)
  {
    hide RunInputs, Occurs, PASTE_START, PASTE_END, TextOf, After, Concat, Framed, MarkerPaused, LeadingEmpties;
    var n := |PASTE_START| + |content| + |PASTE_END|;
    if LeadingEmpties(inputs) == 0 && !MarkerPaused(inputs, 0) {
      var pastes := FramedAtOnce(detect, k, inputs, content, tail);
    } else {
      DataFirst(detect, k, inputs, content, tail);
      forall pastes: seq<string> | pastes != []
        ensures !Framed(detect, Idle(k), inputs, pastes, n)
      {
        DataIsNoPaste(detect, k, inputs, pastes, n);
      }
    }
  }

  lemma DataFirst(detect: bool, k: Option<nat>, inputs: seq<Input>, content: string, tail: string)
    requires !Occurs(content, PASTE_END)
    requires TextOf(inputs) == PASTE_START + content + PASTE_END + tail
    requires LeadingEmpties(inputs) > 0 || MarkerPaused(inputs, 0)
    ensures var outputs := RunInputs(detect, Idle(k), inputs).outputs; outputs != [] && outputs[0].Data?
  {
    hide RunInputs, Occurs, PASTE_START, PASTE_END, TextOf, After, Concat, MarkerPaused, PastesOf;
    StartLength();
    if MarkerPaused(inputs, 0) {
      assert PASTE_START[..0] == "" && "" + TextOf(inputs) == TextOf(inputs);
      assert PASTE_START + content + PASTE_END + tail == PASTE_START + (content + PASTE_END + tail);
      PausedGivesData(detect, k, inputs, 0, content + PASTE_END + tail);
    } else {
      var pastes := FramedPaste(detect, k, inputs, content, tail);
      assert EmptyEvents(LeadingEmpties(inputs))[0] == Data("");
    }
  }

  lemma DataIsNoPaste(detect: bool, k: Option<nat>, inputs: seq<Input>, pastes: seq<string>, n: nat)
    requires pastes != []
    requires var outputs := RunInputs(detect, Idle(k), inputs).outputs; outputs != [] && outputs[0].Data?
    ensures !Framed(detect, Idle(k), inputs, pastes, n)
  {
    hide RunInputs, After;
    assert PastesOf(pastes)[0] == Pasted(pastes[0]);
  }

  // ---- Every empty buffer is idle ----

  /** What was kept from before a paste is kept only during it. */
  predicate Clean(st: State) {
    st.paste.NoPaste? ==> st.prePasteRemainder == ""
  }

  lemma {:induction false} ProcessClean(detect: bool, st: State, str: string)
    requires Valid(st) && Clean(st)
    ensures Clean(Process(detect, st, str).state)
    decreases Size(st, str), 1
  {
    hide *;
    if st.paste.Collecting? {
      ProcessInPaste(detect, st, str);
      if str != "" {
        CollectClean(detect, st, str);
      }
    } else if st.buffer == "" && ((detect && PlainLines(str)) || str == "") {
      AtOnceClean(detect, st, str);
    } else if IndexOf(st.buffer + str, PASTE_START) != -1 {
      ProcessStarts(detect, st, str);
      var buffer := st.buffer + str;
      var start := IndexOf(buffer, PASTE_START);
      CollectClean(detect, Opened(st, buffer, start), buffer[start + |PASTE_START|..]);
    } else {
      PlainClean(detect, st, str);
    }
  }

  lemma AtOnceClean(detect: bool, st: State, str: string)
    requires st.paste.NoPaste? && Clean(st) && st.buffer == "" && ((detect && PlainLines(str)) || str == "")
    ensures Clean(Process(detect, st, str).state)
  {
    hide Process, PlainLines, KittyCodepoint;
    ProcessAtOnce(detect, st, str);
  }

  lemma PlainClean(detect: bool, st: State, str: string)
    requires st.paste.NoPaste? && Clean(st) && !(str == "" && st.buffer == "")
    requires !(detect && st.buffer == "" && PlainLines(str)) && IndexOf(st.buffer + str, PASTE_START) == -1
    ensures Clean(Process(detect, st, str).state)
  {
    hide Process, PlainLines, Extract, EmitAll, IndexOf, PASTE_START;
    ProcessPlain(detect, st, str);
    var e := Extract(st.buffer + str);
    EmitAllKeeps(st.(buffer := e.remainder), e.sequences);
  }

  lemma {:induction false} CollectClean(detect: bool, st: State, input: string)
    requires Valid(st) && st.paste.Collecting?
    ensures Clean(Collect(detect, st, input).state)
    decreases Size(st, input), 0
  {
    hide IndexOf, Occurs, HeldLength, PASTE_START, PASTE_END, Process, Collect, Size, Valid;
    if IndexOf(st.paste.fed + input, PASTE_END) == -1 {
      CollectPending(detect, st, input);
    } else {
      CollectCloses(detect, st, input);
      var all := st.paste.fed + input;
      var remaining := st.prePasteRemainder + all[IndexOf(all, PASTE_END) + |PASTE_END|..];
      FreshValid();
      if remaining != "" {
        ProcessClean(detect, FRESH, remaining);
      }
    }
  }

  lemma FreshValid()
    ensures Valid(FRESH) && Clean(FRESH)
  {}

  /** In every run, an empty buffer outside a paste is idle: the framing theorem holds of a paste that comes next. */
  lemma {:induction false} RunClean(detect: bool, st: State, inputs: seq<Input>)
    requires Valid(st) && Clean(st)
    ensures var r := RunInputs(detect, st, inputs).state;
      Clean(r) && (r.paste.NoPaste? && r.buffer == "" ==> r == Idle(r.kittyCodepoint))
    decreases |inputs|
  {
    hide Process, Valid, HeldLength;
    if inputs != [] {
      NextKeepsValid(detect, st, inputs[0]);
      RunStep(detect, st, inputs);
      if inputs[0].Chunk? {
        ProcessClean(detect, st, inputs[0].text);
      }
      RunClean(detect, Next(detect, st, inputs[0]).state, inputs[1..]);
    }
  }

  /** An empty chunk ahead of a paste. */
  lemma EmptyChunkExample(detect: bool)
    ensures var inputs := [Chunk(""), Chunk(PASTE_START + PASTE_END)];
      RunInputs(detect, FRESH, inputs) == Outcome(FRESH, [Data(""), Pasted("")])
  {
    hide PASTE_START, PASTE_END, RunInputs, Next;
    var paste := Chunk(PASTE_START + PASTE_END);
    var inputs := [Chunk(""), paste];
    assert inputs[1..] == [paste];
    NextIdle(detect, None);
    PasteAtOnce(detect);
    RunStep(detect, FRESH, inputs);
    RunStep(detect, FRESH, [paste]);
    NothingRun(detect);
    assert [paste][1..] == [];
    assert [Pasted("")] + [] == [Pasted("")] && [Data("")] + [Pasted("")] == [Data(""), Pasted("")];
  }

  lemma NothingRun(detect: bool)
    ensures RunInputs(detect, FRESH, []) == Outcome(FRESH, [])
  {}

  lemma PasteAtOnce(detect: bool)
    ensures Next(detect, FRESH, Chunk(PASTE_START + PASTE_END)) == Outcome(FRESH, [Pasted("")])
  {
    hide IndexOf, Process, Collect, HeldLength, Occurs, PASTE_START, PASTE_END, Next;
    StartLength();
    var text := PASTE_START + PASTE_END;
    assert text[..|PASTE_START|] == PASTE_START && text[|PASTE_START|..] == PASTE_END;
    assert PASTE_START[0..] == PASTE_START && Opening(0, None) == FRESH;
    NextOpens(detect, 0, None, text);
    EmptyPaste(detect);
  }

  lemma EmptyPaste(detect: bool)
    ensures Valid(InPaste("", 0))
    ensures Collect(detect, InPaste("", 0), PASTE_END) == Outcome(FRESH, [Pasted("")])
  {
    hide *;
    OpenValid();
    MarkerFirst(PASTE_END);
    ClosesEmpty(detect, PASTE_END);
  }

  lemma MarkerFirst(marker: string)
    ensures IndexOf(marker, marker) == 0 && "" + marker == marker
  {
    hide IndexOf;
    assert OccursAt(marker, marker, 0);
  }

  lemma OpenValid()
    ensures Valid(InPaste("", 0))
  {
    NothingHeld();
  }

  lemma ClosesEmpty(detect: bool, input: string)
    requires Valid(InPaste("", 0)) && "" + input == input
    requires IndexOf(input, PASTE_END) == 0 && |input| == |PASTE_END|
    ensures Collect(detect, InPaste("", 0), input) == Outcome(FRESH, [Pasted("")])
  {
    hide IndexOf, Process, HeldLength, Occurs, OccursAt, Valid, PASTE_END;
    assert "" + input[|PASTE_END|..] == "";
  }

  // ---- The buffer itself ----

  lemma {:induction false} EmitAllBuffer(st: State, sequences: seq<string>, buffer: string)
    ensures EmitAll(st.(buffer := buffer), sequences).outputs == EmitAll(st, sequences).outputs
    ensures EmitAll(st.(buffer := buffer), sequences).state == EmitAll(st, sequences).state.(buffer := buffer)
  {
    if sequences != [] {
      EmitAllBuffer(st, sequences[..|sequences| - 1], buffer);
    }
  }

  lemma BeforePasteBuffer(st: State, before: string, buffer: string)
    ensures BeforePaste(st.(buffer := buffer), before).outputs == BeforePaste(st, before).outputs
    ensures BeforePaste(st.(buffer := buffer), before).state == BeforePaste(st, before).state.(buffer := buffer)
  {
    EmitAllBuffer(st, Extract(before).sequences, buffer);
  }

  /** The state in which a start marker has just been found at `start`. */
  ghost function Opened(st: State, buffer: string, start: nat): (r: State)
    requires start <= |buffer|
    ensures Valid(r) && r.paste == Collecting("", 0)
  {
    NothingHeld();
    BeforePaste(st, buffer[..start]).state.(kittyCodepoint := None, buffer := "", paste := Collecting("", 0))
  }

  lemma ProcessStarts(detect: bool, st: State, str: string)
    requires st.paste.NoPaste? && (str != "" || st.buffer != "") && !(detect && st.buffer == "" && PlainLines(str))
    requires IndexOf(st.buffer + str, PASTE_START) != -1
    ensures var buffer := st.buffer + str;
      var start := IndexOf(buffer, PASTE_START);
      var opened_ := Opened(st, buffer, start);
      var input := buffer[start + |PASTE_START|..];
      var rest := Collect(detect, opened_, input);
      && Process(detect, st, str) == Outcome(rest.state, BeforePaste(st, buffer[..start]).outputs + rest.outputs)
      && Size(opened_, input) < Size(st, str)
  {
    var buffer := st.buffer + str;
    BeforePasteKeeps(st, buffer[..IndexOf(buffer, PASTE_START)]);
    NothingHeld();
  }

  lemma CollectPending(detect: bool, st: State, input: string)
    requires Valid(st) && st.paste.Collecting? && IndexOf(st.paste.fed + input, PASTE_END) == -1
    ensures Collect(detect, st, input) == Outcome(st.(paste := Collecting(st.paste.fed + input, st.paste.drained)), [])
  {}

  lemma CollectCloses(detect: bool, st: State, input: string)
    requires Valid(st) && st.paste.Collecting? && IndexOf(st.paste.fed + input, PASTE_END) != -1
    ensures var all := st.paste.fed + input;
      var end := IndexOf(all, PASTE_END);
      var remaining := st.prePasteRemainder + all[end + |PASTE_END|..];
      && st.paste.drained <= end && Size(FRESH, remaining) < Size(st, input)
      && Collect(detect, st, input) ==
           if remaining == "" then Outcome(FRESH, [Pasted(all[st.paste.drained..end])])
           else var rest := Process(detect, FRESH, remaining);
                Outcome(rest.state, [Pasted(all[st.paste.drained..end])] + rest.outputs)
  {
    hide IndexOf, Occurs, HeldLength, PASTE_START, PASTE_END, Process;
    DrainedBeforeEnd(st.paste.fed, st.paste.drained, input);
    CloseShrinks(st.paste.fed, input);
  }

  lemma ProcessPlain(detect: bool, st: State, str: string)
    requires st.paste.NoPaste? && !(str == "" && st.buffer == "") && !(detect && st.buffer == "" && PlainLines(str))
    requires IndexOf(st.buffer + str, PASTE_START) == -1
    ensures var e := Extract(st.buffer + str);
      Process(detect, st, str) == EmitAll(st.(buffer := e.remainder), e.sequences)
  {
    hide IndexOf, Extract, EmitAll, PASTE_START, PASTE_END, Size, Collect, PlainLines;
  }

  lemma ProcessInPaste(detect: bool, st: State, str: string)
    requires Valid(st) && st.paste.Collecting?
    ensures Process(detect, st, str) == if str == "" then Outcome(st, []) else Collect(detect, st, str)
  {
    hide IndexOf, Extract, EmitAll, PASTE_START, PASTE_END, Size, Collect, PlainLines;
  }

  lemma ProcessAtOnce(detect: bool, st: State, str: string)
    requires st.paste.NoPaste? && st.buffer == ""
    ensures detect && PlainLines(str) ==>
      Process(detect, st, str) == Outcome(st.(kittyCodepoint := None), [Pasted(str)])
    ensures str == "" ==> Process(detect, st, str) == Emit(st, "")
  {
    hide IndexOf, Extract, EmitAll, PASTE_START, PASTE_END, Size, Collect;
  }

  class StdinBuffer {
    const detectUnframedPaste: bool
    const framedPaste: BracketedPasteBuffer
    var buffer: string
    var pendingPrePasteRemainder: string
    var pendingKittyPrintableCodepoint: Option<nat>
    /** Everything emitted so far. */
    var emitted: seq<Output>

    constructor (detectUnframedPaste: bool)
      ensures Inv() && View() == FRESH && emitted == [] && fresh(framedPaste)
      ensures this.detectUnframedPaste == detectUnframedPaste
    {
      this.detectUnframedPaste := detectUnframedPaste;
      framedPaste := new BracketedPasteBuffer();
      buffer, pendingPrePasteRemainder, pendingKittyPrintableCodepoint, emitted := "", "", None, [];
    }

    ghost predicate Inv()
      reads this, framedPaste
    {
      framedPaste.Valid() && (framedPaste.active ==> buffer == "")
    }

    ghost function View(): State
      reads this, framedPaste
    {
      State(buffer, if framedPaste.active then Collecting(framedPaste.fed, framedPaste.drained) else NoPaste,
            pendingPrePasteRemainder, pendingKittyPrintableCodepoint)
    }

    method EmitDataSequence(sequence: string)
      modifies `pendingKittyPrintableCodepoint, `emitted
      ensures var r := Emit(old(View()), sequence); View() == r.state && emitted == old(emitted) + r.outputs
    {
      if |sequence| == 1 && pendingKittyPrintableCodepoint == Some(sequence[0] as int) {
        pendingKittyPrintableCodepoint := None;
        return;
      }
      pendingKittyPrintableCodepoint := KittyCodepoint(sequence);
      emitted := emitted + [Data(sequence)];
    }

    method EmitSequences(sequences: seq<string>)
      modifies `pendingKittyPrintableCodepoint, `emitted
      ensures var r := EmitAll(old(View()), sequences); View() == r.state && emitted == old(emitted) + r.outputs
    {
      for i := 0 to |sequences|
        invariant var r := EmitAll(old(View()), sequences[..i]);
          View() == r.state && emitted == old(emitted) + r.outputs
      {
        EmitDataSequence(sequences[i]);
        assert sequences[..i + 1][..i] == sequences[..i];
      }
      assert sequences[..|sequences|] == sequences;
    }

    method EmitBeforePaste(before: string)
      modifies `pendingKittyPrintableCodepoint, `pendingPrePasteRemainder, `emitted
      ensures var r := BeforePaste(old(View()), before); View() == r.state && emitted == old(emitted) + r.outputs
    {
      if |before| > 0 {
        var result := ExtractCompleteSequences(before);
        EmitSequences(result.sequences);
        if result.remainder == [ESC] {
          EmitDataSequence(result.remainder);
        } else {
          pendingPrePasteRemainder := result.remainder;
        }
      }
    }

    /** One chunk from the terminal. */
    method ProcessInput(str: string)
      requires Inv()
      modifies this, framedPaste
      ensures Inv() && Valid(old(View()))
      ensures var r := Process(detectUnframedPaste, old(View()), str);
        View() == r.state && emitted == old(emitted) + r.outputs
      decreases Size(View(), str), 1
    {
      hide Extract, IndexOf, Occurs, HeldLength, PASTE_START, PASTE_END, Size, Collect, EmitAll, Emit, Process;
      if detectUnframedPaste && !framedPaste.active && |buffer| == 0 && |str| > 1 && ESC !in str
         && ('\r' in str || '\n' in str)
      {
        ProcessAtOnce(detectUnframedPaste, View(), str);
        pendingKittyPrintableCodepoint := None;
        emitted := emitted + [Pasted(str)];
        return;
      }
      if framedPaste.active {
        ProcessInPaste(detectUnframedPaste, View(), str);
        if |str| > 0 {
          ConsumeFramedPaste(str, false);
        }
        return;
      }
      if |str| == 0 && |buffer| == 0 {
        ProcessAtOnce(detectUnframedPaste, View(), str);
        EmitDataSequence("");
        return;
      }
      var startIndex := IndexOf(buffer + str, PASTE_START);
      if startIndex != -1 {
        ProcessStarts(detectUnframedPaste, View(), str);
        OpenPaste(buffer + str, startIndex);
      } else {
        ProcessPlain(detectUnframedPaste, View(), str);
        ProcessSequences(str);
      }
    }

    /** Whatever is complete in the buffer with the new input is emitted, and the rest is kept. */
    method ProcessSequences(str: string)
      requires Inv() && !framedPaste.active
      modifies `buffer, `pendingKittyPrintableCodepoint, `emitted
      ensures Inv()
      ensures var e := Extract(old(buffer) + str);
        var r := EmitAll(old(View()).(buffer := e.remainder), e.sequences);
        View() == r.state && emitted == old(emitted) + r.outputs
    {
      hide Extract, Occurs, HeldLength, PASTE_START, PASTE_END, EmitAll, Emit;
      buffer := buffer + str;
      var result := ExtractCompleteSequences(buffer);
      buffer := result.remainder;
      EmitSequences(result.sequences);
    }

    /** A start marker was found at `startIndex`: what precedes it is emitted, what follows it is paste text. */
    method OpenPaste(all: string, startIndex: nat)
      requires Inv() && !framedPaste.active && startIndex + |PASTE_START| <= |all|
      modifies this, framedPaste
      ensures Inv()
      ensures var r := Collect(detectUnframedPaste, Opened(old(View()), all, startIndex),
                              all[startIndex + |PASTE_START|..]);
        && View() == r.state
        && emitted == old(emitted) + (BeforePaste(old(View()), all[..startIndex]).outputs + r.outputs)
      decreases Size(Opened(View(), all, startIndex), all[startIndex + |PASTE_START|..]), 1
    {
      hide Extract, IndexOf, Occurs, HeldLength, PASTE_START, PASTE_END, Collect, BeforePaste;
      ghost var st := View();
      BeforePasteKeeps(st, all[..startIndex]);
      BeforePasteBuffer(st, all[..startIndex], "");
      buffer := "";
      EmitBeforePaste(all[..startIndex]);
      pendingKittyPrintableCodepoint := None;
      assert View().(paste := Collecting("", 0)) == Opened(st, all, startIndex);
      ConsumeFramedPaste(all[startIndex + |PASTE_START|..], true);
    }

    /** The state in which paste text is consumed; `startsPaste` when it follows a start marker. */
    ghost function Consuming(startsPaste: bool): State
      reads this, framedPaste
    {
      if startsPaste then View().(paste := Collecting("", 0)) else View()
    }

    method FeedPaste(input: string, startsPaste: bool) returns (result: PasteResult)
      requires Inv() && buffer == "" && framedPaste.active == !startsPaste
      modifies framedPaste
      ensures Inv() && Valid(old(Consuming(startsPaste)))
      ensures var before := old(Consuming(startsPaste)).paste;
        var all := before.fed + input;
        var end := IndexOf(all, PASTE_END);
        if end == -1 then result == Pending && framedPaste.active && framedPaste.fed == all
          && framedPaste.drained == before.drained
        else !framedPaste.active && before.drained <= end
             && result == Complete(all[before.drained..end], all[end + |PASTE_END|..])
    {
      hide IndexOf, Occurs, HeldLength, PASTE_END;
      NothingHeld();
      if startsPaste {
        assert "" + input == input;
        result := framedPaste.Start(input);
      } else {
        result := framedPaste.AppendChunk(input);
      }
    }

    method ConsumeFramedPaste(input: string, startsPaste: bool)
      requires Inv() && buffer == "" && framedPaste.active == !startsPaste
      modifies this, framedPaste
      ensures Inv() && Valid(old(Consuming(startsPaste)))
      ensures var r := Collect(detectUnframedPaste, old(Consuming(startsPaste)), input);
        View() == r.state && emitted == old(emitted) + r.outputs
      decreases Size(Consuming(startsPaste), input), 0
    {
      hide IndexOf, Occurs, HeldLength, PASTE_START, PASTE_END, Collect, Process, Size, Valid;
      ghost var before := Consuming(startsPaste);
      var result := FeedPaste(input, startsPaste);
      if result.Pending? {
        CollectPending(detectUnframedPaste, before, input);
        return;
      }
      CollectCloses(detectUnframedPaste, before, input);
      var remaining := pendingPrePasteRemainder + result.remainder;
      framedPaste.Reset();
      pendingPrePasteRemainder := "";
      pendingKittyPrintableCodepoint := None;
      emitted := emitted + [Pasted(result.content)];
      assert View() == FRESH;
      if |remaining| > 0 {
        ProcessInput(remaining);
      }
    }

    /** The idle timer of a paste. */
    method PasteIdle()
      requires Inv()
      modifies this, framedPaste
      ensures Inv() && Valid(old(View()))
      ensures var r := Drain(old(View())); View() == r.state && emitted == old(emitted) + r.outputs
    {
      hide Occurs, HeldLength, Held, Concat, PASTE_END;
      var content := framedPaste.DrainPending();
      if content.Some? && content.value != "" {
        emitted := emitted + [Pasted(content.value)];
      }
    }

    /** The timer of an incomplete sequence: it is emitted as it is. */
    method SequenceTimeout()
      requires Inv()
      modifies `buffer, `pendingKittyPrintableCodepoint, `emitted
      ensures Inv() && buffer == ""
      ensures var r := Timeout(old(View())); View() == r.state && emitted == old(emitted) + r.outputs
      ensures old(buffer) != "" ==> emitted == old(emitted) + [Data(old(buffer))]
    {
      if |buffer| == 0 {
        return;
      }
      var flushed := buffer;
      buffer := "";
      pendingKittyPrintableCodepoint := None;
      EmitDataSequence(flushed);
    }
  }
}
