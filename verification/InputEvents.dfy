/**
 Which input becomes which event: what a key report is, which character is dropped because it repeats one, and when
 plain text is taken for a paste.
 */
module InputEvents {
  import opened Results
  import opened Fields
  import opened Strings
  import opened EscapeSplitter
  import opened StdinBuffer
  import opened BracketedPaste
  import InputGrammar

  // ---- Key reports ----

  /** Behind the code point: nothing, or the alternate key, which may be absent, and perhaps the base key. */
  ghost predicate KeyTail(tail: string) {
    || tail == ""
    || (exists alternate: string :: Digits(alternate) && tail == ":" + alternate)
    || (exists alternate, base: string :: Digits(alternate) && IsNumber(base) && tail == ":" + (alternate + ":" + base))
  }

  /** A report of the key that types code point `n`, without modifiers. */
  ghost predicate KeyReport(sequence: string, n: nat) {
    n >= 32 && exists digits, tail: string ::
      IsNumber(digits) && ToNat(digits) == n && KeyTail(tail) && sequence == [ESC, '['] + (digits + tail) + "u"
  }

  lemma DigitsOrNone(s: string)
    ensures Digits(s) <==> s == "" || IsNumber(s)
  {}

  lemma NoColon(s: string)
    requires Digits(s)
    ensures ':' !in s
  {}

  lemma SplitOne(a: string)
    requires Digits(a)
    ensures Split(a, ':') == [a]
  {
    NoColon(a);
    SplitFirst(a, "", ':');
  }

  lemma SplitTwo(a: string, b: string)
    requires Digits(a) && Digits(b)
    ensures Split(a + (":" + b), ':') == [a, b]
  {
    NoColon(a);
    SplitFirst(a, b, ':');
    SplitOne(b);
    assert a + (":" + b) == a + [':'] + b;
  }

  lemma SplitThree(a: string, b: string, c: string)
    requires Digits(a) && Digits(b) && Digits(c)
    ensures Split(a + (":" + (b + ":" + c)), ':') == [a, b, c]
  {
    NoColon(a);
    NoColon(b);
    SplitFirst(a, b + ":" + c, ':');
    SplitFirst(b, c, ':');
    SplitOne(c);
    assert a + (":" + (b + ":" + c)) == a + [':'] + (b + ":" + c);
  }

  lemma TailSplit(digits: string, tail: string)
    requires IsNumber(digits) && KeyTail(tail)
    ensures var parts := Split(digits + tail, ':');
      && 1 <= |parts| <= 3 && parts[0] == digits && (|parts| == 3 ==> IsNumber(parts[2]))
      && (|parts| >= 2 ==> parts[1] == "" || IsNumber(parts[1]))
  {
    hide Split, Digits;
    if tail == "" {
      SplitOne(digits);
      assert digits + tail == digits;
    } else if alternate: string :| Digits(alternate) && tail == ":" + alternate {
      SplitTwo(digits, alternate);
      DigitsOrNone(alternate);
    } else {
      var alternate, base: string :| Digits(alternate) && IsNumber(base) && tail == ":" + (alternate + ":" + base);
      SplitThree(digits, alternate, base);
      DigitsOrNone(alternate);
    }
  }

  lemma SplitTail(inner: string) returns (tail: string)
    requires var parts := Split(inner, ':');
      && 1 <= |parts| <= 3 && IsNumber(parts[0]) && (|parts| == 3 ==> IsNumber(parts[2]))
      && (|parts| >= 2 ==> parts[1] == "" || IsNumber(parts[1]))
    ensures KeyTail(tail) && inner == Split(inner, ':')[0] + tail
  {
    hide Split;
    var parts := Split(inner, ':');
    InputGrammar.JoinSplit(inner, ':');
    if |parts| == 1 {
      tail := "";
      assert inner == parts[0] + "";
    } else if |parts| == 2 {
      tail := ":" + parts[1];
      DigitsOrNone(parts[1]);
      assert parts[1..][0] == parts[1] && |parts[1..]| == 1;
      assert inner == parts[0] + [':'] + parts[1];
    } else {
      tail := ":" + (parts[1] + ":" + parts[2]);
      DigitsOrNone(parts[1]);
      assert parts[1..][0] == parts[1] && parts[1..][1..] == [parts[2]];
      assert Join(parts[1..], ':') == parts[1] + [':'] + parts[2];
      assert inner == parts[0] + [':'] + (parts[1] + [':'] + parts[2]);
    }
  }

  /** The remembered code point is that of the report, and nothing else is remembered. */
  lemma CodepointIsReported(sequence: string, n: nat)
    ensures KittyCodepoint(sequence) == Some(n) <==> KeyReport(sequence, n)
  {
    hide Split, KeyTail;
    if KittyCodepoint(sequence) == Some(n) {
      var inner := sequence[2..|sequence| - 1];
      var tail := SplitTail(inner);
      assert sequence == [ESC, '['] + inner + "u";
    }
    if KeyReport(sequence, n) {
      var digits, tail: string :| IsNumber(digits) && ToNat(digits) == n && KeyTail(tail)
        && sequence == [ESC, '['] + (digits + tail) + "u";
      TailSplit(digits, tail);
      assert sequence[2..|sequence| - 1] == digits + tail;
    }
  }

  // ---- Which sequences are given out ----

  /** What is remembered when sequence `i` comes: the report right before it. */
  function Remembered(k: Option<nat>, sequences: seq<string>, i: nat): Option<nat>
    requires i <= |sequences|
  {
    if i == 0 then k else KittyCodepoint(sequences[i - 1])
  }

  /** A single character is dropped if the report right before it types it. */
  predicate Repeats(k: Option<nat>, sequences: seq<string>, i: nat)
    requires i < |sequences|
  {
    |sequences[i]| == 1 && Remembered(k, sequences, i) == Some(sequences[i][0] as int)
  }

  ghost predicate Ascending(kept: seq<nat>) {
    forall a, b | 0 <= a < b < |kept| :: kept[a] < kept[b]
  }

  /** `kept` are the places of the sequences that are given out, in order. */
  ghost predicate KeepsAllBut(k: Option<nat>, sequences: seq<string>, kept: seq<nat>) {
    && Ascending(kept)
    && forall i: nat :: i in kept <==> i < |sequences| && !Repeats(k, sequences, i)
  }

  lemma ShortIsNoReport(sequence: string)
    requires |sequence| == 1
    ensures KittyCodepoint(sequence) == None
  {}

  /** Every sequence is given out as it is and in order, except a character that repeats the report right before it. */
  lemma {:induction false} EmittedInOrder(st: State, sequences: seq<string>) returns (kept: seq<nat>)
    ensures KeepsAllBut(st.kittyCodepoint, sequences, kept)
    ensures var r := EmitAll(st, sequences);
      && |r.outputs| == |kept| && r.state.kittyCodepoint == Remembered(st.kittyCodepoint, sequences, |sequences|)
      && forall j | 0 <= j < |kept| :: kept[j] < |sequences| && r.outputs[j] == Data(sequences[kept[j]])
  {
    hide KittyCodepoint;
    kept := [];
    if sequences != [] {
      var n := |sequences| - 1;
      var before, k := sequences[..n], st.kittyCodepoint;
      kept := EmittedInOrder(st, before);
      forall i | 0 <= i < n
        ensures Repeats(k, before, i) <==> Repeats(k, sequences, i)
      {
        assert before[i] == sequences[i] && (i > 0 ==> before[i - 1] == sequences[i - 1]);
      }
      assert Remembered(k, before, n) == Remembered(k, sequences, n);
      if Repeats(k, sequences, n) {
        ShortIsNoReport(sequences[n]);
      } else {
        Appended(k, sequences, kept);
        kept := kept + [n];
      }
    }
  }

  lemma Appended(k: Option<nat>, sequences: seq<string>, kept: seq<nat>)
    requires sequences != [] && Ascending(kept) && !Repeats(k, sequences, |sequences| - 1)
    requires forall i: nat :: i in kept <==> i < |sequences| - 1 && !Repeats(k, sequences, i)
    ensures KeepsAllBut(k, sequences, kept + [|sequences| - 1])
  {
    hide Repeats;
    var more := kept + [|sequences| - 1];
    assert forall j | 0 <= j < |kept| :: kept[j] in kept;
    assert forall i: nat :: i in more <==> i in kept || i == |sequences| - 1;
  }

  // ---- Plain text ----

  function Singles(s: string): seq<string> {
    seq(|s|, i requires 0 <= i < |s| => [s[i]])
  }

  lemma {:induction false} PlainSingles(s: string)
    requires ESC !in s
    ensures Extract(s) == Extraction(Singles(s), "")
    decreases |s|
  {
    if s != "" {
      PlainSingles(s[1..]);
      assert NextLength(s) == 1;
      assert s[..1] == [s[0]];
      assert Singles(s) == [[s[0]]] + Singles(s[1..]);
    }
  }

  function Typed(s: string): seq<Output> {
    seq(|s|, i requires 0 <= i < |s| => Data([s[i]]))
  }

  lemma OneMoreSingle(s: string, c: char)
    ensures Singles(s + [c]) == Singles(s) + [[c]] && Typed(s + [c]) == Typed(s) + [Data([c])]
    ensures s != "" ==> Typed((s + [c])[1..]) == Typed(s[1..]) + [Data([c])]
  {
    assert s != "" ==> (s + [c])[1..] == s[1..] + [c];
  }

  lemma NoSingles()
    ensures Singles("") == [] && Typed("") == []
  {}

  lemma EmitMore(st: State, sequences: seq<string>, c: char)
    ensures var first := EmitAll(st, sequences);
      EmitAll(st, sequences + [[c]]) ==
        Outcome(first.state.(kittyCodepoint := None),
                if first.state.kittyCodepoint == Some(c as int) then first.outputs else first.outputs + [Data([c])])
  {
    hide KittyCodepoint;
    assert (sequences + [[c]])[..|sequences|] == sequences;
    ShortIsNoReport([c]);
    var first := EmitAll(st, sequences);
    assert first.outputs + [] == first.outputs;
  }

  lemma EmitNone(st: State)
    ensures EmitAll(st, []) == Outcome(st, [])
  {}

  lemma {:induction false} SinglesTyped(st: State, s: string)
    requires s != ""
    ensures EmitAll(st, Singles(s)) ==
      Outcome(st.(kittyCodepoint := None), if st.kittyCodepoint == Some(s[0] as int) then Typed(s[1..]) else Typed(s))
  {
    hide Singles, Typed, EmitAll;
    var n := |s| - 1;
    assert s == s[..n] + [s[n]];
    OneMoreSingle(s[..n], s[n]);
    EmitMore(st, Singles(s[..n]), s[n]);
    if n == 0 {
      NoSingles();
      EmitNone(st);
      assert s[..0] == "" && s[1..] == "";
    } else {
      SinglesTyped(st, s[..n]);
    }
  }

  lemma MarkerHasEscape(s: string, i: int)
    requires OccursAt(s, PASTE_START, i)
    ensures ESC in s
  {
    assert s[i] == s[i..i + |PASTE_START|][0] == ESC;
  }

  lemma NoMarkerIn(s: string)
    requires ESC !in s
    ensures IndexOf(s, PASTE_START) == -1
  {
    hide PASTE_START;
    if Occurs(s, PASTE_START) {
      MarkerHasEscape(s, IndexOf(s, PASTE_START));
    }
  }

  /**
   A chunk of text without escapes on an idle buffer is one paste if unframed pastes are looked for and it has a line
   break and more; else it is typed character by character, without a first one that repeats the report before it.
   */
  lemma PlainChunk(detect: bool, k: Option<nat>, text: string)
    requires ESC !in text && text != ""
    ensures Process(detect, Idle(k), text) ==
      if detect && |text| > 1 && ('\r' in text || '\n' in text) then Outcome(FRESH, [Pasted(text)])
      else Outcome(FRESH, if k == Some(text[0] as int) then Typed(text[1..]) else Typed(text))
  {
    hide Process, Extract, EmitAll, Singles, Typed, IndexOf, PASTE_START;
    if detect && PlainLines(text) {
      ProcessAtOnce(detect, Idle(k), text);
    } else {
      NoMarkerIn(text);
      assert "" + text == text;
      ProcessPlain(detect, Idle(k), text);
      PlainSingles(text);
      SinglesTyped(Idle(k), text);
    }
  }

  // ---- Input ahead of a paste ----

  /** What typing in front of a start marker gives out, and what of it has to wait until the paste is over. */
  function Ahead(st: State, before: string): (r: (seq<Output>, string)) {
    var e := Extract(before);
    var emitted := EmitAll(st, e.sequences);
    if e.remainder == [ESC] then (emitted.outputs + Emit(emitted.state, [ESC]).outputs, "")
    else (emitted.outputs, e.remainder)
  }

  lemma BeforeIsAhead(st: State, before: string)
    requires st.prePasteRemainder == ""
    ensures var r := BeforePaste(st, before);
      r.outputs == Ahead(st, before).0 && r.state.prePasteRemainder == Ahead(st, before).1
  {
    hide Emit;
    var e := Extract(before);
    EmitAllKeeps(st, e.sequences);
    if before == "" {
      assert e == Extraction([], "");
    } else if e.remainder == [ESC] {
      EmitKeeps(EmitAll(st, e.sequences).state, [ESC]);
    }
  }

  lemma EmitKeeps(st: State, sequence: string)
    ensures Emit(st, sequence).state.prePasteRemainder == st.prePasteRemainder
  {}

  /**
   A whole paste with input around it, in one chunk: the input ahead of it is given out first, an unfinished sequence at
   its end is kept and goes on with what follows the paste, and a lone escape is a key.
   */
  lemma MixedChunk(detect: bool, k: Option<nat>, before: string, content: string, tail: string)
    requires var text := before + PASTE_START + (content + PASTE_END + tail); IndexOf(text, PASTE_START) == |before|
    requires !Occurs(content, PASTE_END)
    ensures var text := before + PASTE_START + (content + PASTE_END + tail);
      var rest := Ahead(Idle(k), before).1 + tail;
      var after := if rest == "" then Outcome(FRESH, []) else Process(detect, FRESH, rest);
      Process(detect, Idle(k), text)
      == Outcome(after.state, Ahead(Idle(k), before).0 + ([Pasted(content)] + after.outputs))
  {
    hide *;
    var input := content + PASTE_END + tail;
    var text := before + PASTE_START + input;
    EscapeInside(before, input);
    EscapeNotPlain(text);
    Parts(before, PASTE_START, input);
    IdleIs(k, text);
    ProcessStarts(detect, Idle(k), text);
    BeforeIsAhead(Idle(k), before);
    OpenedKeeps(Idle(k), text, |before|);
    WholePaste(detect, Opened(Idle(k), text, |before|), content, tail);
  }

  lemma IdleIs(k: Option<nat>, text: string)
    ensures Idle(k).paste.NoPaste? && Idle(k).prePasteRemainder == "" && Idle(k).buffer + text == text
  {}

  lemma EscapeNotPlain(text: string)
    requires ESC in text
    ensures text != "" && !PlainLines(text)
  {}

  lemma OpenedKeeps(st: State, text: string, start: nat)
    requires start <= |text|
    ensures Opened(st, text, start).prePasteRemainder == BeforePaste(st, text[..start]).state.prePasteRemainder
  {
    hide BeforePaste;
  }

  lemma Parts(a: string, b: string, c: string)
    ensures var all := a + b + c;
      |a| + |b| <= |all| && all[..|a|] == a && all[|a|..|a| + |b|] == b && all[|a| + |b|..] == c
  {}

  /** A paste that has just been opened, and the rest of its chunk. */
  lemma WholePaste(detect: bool, st: State, content: string, tail: string)
    requires Valid(st) && st.paste == Collecting("", 0) && !Occurs(content, PASTE_END)
    ensures var rest := st.prePasteRemainder + tail;
      var after := if rest == "" then Outcome(FRESH, []) else Process(detect, FRESH, rest);
      Collect(detect, st, content + PASTE_END + tail) == Outcome(after.state, [Pasted(content)] + after.outputs)
  {
    hide Process, Collect, IndexOf, Occurs, HeldLength, PASTE_END, Valid;
    var input := content + PASTE_END + tail;
    assert "" + input == input;
    ContentEnds(content, tail);
    CollectCloses(detect, st, input);
    Parts(content, PASTE_END, tail);
    assert [Pasted(content)] + [] == [Pasted(content)];
  }

  lemma EscapeInside(before: string, rest: string)
    ensures ESC in before + PASTE_START + rest
  {
    assert (before + PASTE_START + rest)[|before|] == ESC;
  }
}
