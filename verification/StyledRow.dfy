/**
 Painting and slicing a column range of a styled row. A row is read as escape sequences and graphemes with their widths;
 what it shows is each grapheme at its column with the style and link in force.
 */
module StyledRow {
  import opened Fields
  import opened Results
  import opened Sgr

  datatype Token = Code(code: string) | Cell(segment: string, width: nat)

  type Row = seq<Token>

  datatype Shown = Shown(segment: string, width: nat, col: nat, state: State)

  predicate CodesOk(row: Row) {
    forall i | 0 <= i < |row| && row[i].Code? :: IsCode(row[i].code)
  }

  function Width(row: Row): nat {
    if row == [] then 0
    else
      var last := row[|row| - 1];
      Width(row[..|row| - 1]) + if last.Cell? then last.width else 0
  }

  function StateAfter(row: Row, start: State): State {
    if row == [] then start
    else
      var last := row[|row| - 1];
      var before := StateAfter(row[..|row| - 1], start);
      if last.Code? then Processed(before, last.code) else before
  }

  /** What a terminal in state `start` shows of the row. */
  function Displays(row: Row, start: State): seq<Shown> {
    if row == [] then []
    else
      var last, before := row[|row| - 1], row[..|row| - 1];
      Displays(before, start)
      + if last.Cell? then [Shown(last.segment, last.width, Width(before), StateAfter(before, start))] else []
  }

  lemma OneMore(row: Row, t: Token, start: State)
    ensures Width(row + [t]) == Width(row) + if t.Cell? then t.width else 0
    ensures StateAfter(row + [t], start) ==
      if t.Code? then Processed(StateAfter(row, start), t.code) else StateAfter(row, start)
    ensures Displays(row + [t], start) == Displays(row, start)
      + if t.Cell? then [Shown(t.segment, t.width, Width(row), StateAfter(row, start))] else []
  {
    assert (row + [t])[..|row|] == row;
  }

  /** Codes one after another. */
  function Through(state: State, codes: seq<string>): State {
    if codes == [] then state else Processed(Through(state, codes[..|codes| - 1]), codes[|codes| - 1])
  }

  function Codes(codes: seq<string>): Row {
    seq(|codes|, i requires 0 <= i < |codes| => Code(codes[i]))
  }

  lemma {:induction false} ManyCodes(row: Row, codes: seq<string>, start: State)
    ensures Width(row + Codes(codes)) == Width(row) && Displays(row + Codes(codes), start) == Displays(row, start)
    ensures StateAfter(row + Codes(codes), start) == Through(StateAfter(row, start), codes)
  {
    hide Displays, StateAfter, Width, Processed;
    if codes == [] {
      assert row + Codes(codes) == row;
    } else {
      var n := |codes| - 1;
      ManyCodes(row, codes[..n], start);
      assert Displays(row, start) + [] == Displays(row, start);
      assert row + Codes(codes) == (row + Codes(codes[..n])) + [Code(codes[n])];
      OneMore(row + Codes(codes[..n]), Code(codes[n]), start);
    }
  }

  lemma {:induction false} ThroughConcat(state: State, a: seq<string>, b: seq<string>)
    ensures Through(state, a + b) == Through(Through(state, a), b)
  {
    if b == [] {
      assert a + b == a;
    } else {
      var n := |b| - 1;
      ThroughConcat(state, a, b[..n]);
      assert (a + b)[..|a + b| - 1] == a + b[..n] && (a + b)[|a + b| - 1] == b[n];
    }
  }

  // ---- Painting over a style ----

  predicate IsSgr(code: string) {
    CSI <= code && |code| >= 3 && code[|code| - 1] == 'm'
  }

  /** A sequence of SGR codes. */
  predicate SgrOnly(codes: seq<string>) {
    forall i | 0 <= i < |codes| :: IsCode(codes[i]) && IsSgr(codes[i])
  }

  lemma SgrKeepsLink(state: State, code: string)
    requires IsSgr(code)
    ensures Processed(state, code).link == state.link
  {
    assert code[1] == CSI[1] != OSC8[1];
  }

  lemma OtherKeepsStyle(state: State, code: string)
    requires !IsSgr(code)
    ensures Processed(state, code).style == state.style
  {}

  lemma {:induction false} ThroughAlike(a: State, b: State, codes: seq<string>)
    ensures StylesAlike(a.style, b.style, Through(a, codes).style, Through(b, codes).style)
  {
    hide StylesAlike, Processed, PLAIN;
    if codes == [] {
      KeptAlike(a.style, b.style);
    } else {
      var before := codes[..|codes| - 1];
      ThroughAlike(a, b, before);
      ProcessedAlike(Through(a, before), Through(b, before), codes[|codes| - 1]);
      AlikeTwice(a.style, b.style, Through(a, before).style, Through(b, before).style,
                 Through(a, codes).style, Through(b, codes).style);
    }
  }

  lemma {:induction false} ThroughKeepsLink(state: State, codes: seq<string>)
    requires SgrOnly(codes)
    ensures Through(state, codes).link == state.link
  {
    hide IsSgr, IsCode;
    if codes != [] {
      ThroughKeepsLink(state, codes[..|codes| - 1]);
      SgrKeepsLink(Through(state, codes[..|codes| - 1]), codes[|codes| - 1]);
    }
  }

  /** The style after the codes does not depend on the link. */
  lemma {:induction false} ThroughStyle(a: State, b: State, codes: seq<string>)
    requires a.style == b.style
    ensures Through(a, codes).style == Through(b, codes).style
  {
    ThroughAlike(a, b, codes);
  }

  /** Values made alike as painting, a code of the row, and painting again make them. */
  lemma PaintAgainAttributes(t: Attributes, on: Attributes, c: Attributes, cOn: Attributes,
                             paintC: Attributes, paintCOn: Attributes)
    requires AttributesAlike(on, t, cOn, c) && AttributesAlike(cOn, c, paintCOn, paintC)
      && AttributesAlike(c, t, paintC, on)
    ensures paintCOn == paintC
  {}

  /** A code of the row inside the painted range, with the paint laid over it again: as if the paint came last. */
  lemma Repainted(state: State, code: string, on: seq<string>)
    requires SgrOnly(on)
    ensures Through(Processed(Through(state, on), code), on) == Through(Processed(state, code), on)
  {
    hide AttributesAlike, Processed, SgrOnly;
    var painted := Through(state, on);
    var c, cOn := Processed(state, code), Processed(painted, code);
    ProcessedAlike(painted, state, code);
    ThroughAlike(cOn, c, on);
    ThroughAlike(c, state, on);
    ThroughKeepsLink(state, on);
    ThroughKeepsLink(c, on);
    ThroughKeepsLink(cOn, on);
    PaintAgainAttributes(state.style.on, painted.style.on, c.style.on, cOn.style.on,
                         Through(c, on).style.on, Through(cOn, on).style.on);
  }

  // ---- Leaving the range ----

  const RESET: string := CSI + "0m"

  lemma ResetCode(state: State)
    ensures IsCode(RESET) && Processed(state, RESET) == State(PLAIN, state.link)
  {
    SgrCode("0");
    assert RESET == CSI + "0" + "m";
  }

  /** The codes that set up a style from any other. */
  function RestoreCodes(style: Style): seq<string> {
    [RESET] + if ActiveSgr(style) == "" then [] else [ActiveSgr(style)]
  }

  lemma Restored(state: State, style: Style)
    requires GoodStyle(style)
    ensures Through(state, RestoreCodes(style)) == State(style, state.link)
    ensures forall i | 0 <= i < |RestoreCodes(style)| :: IsCode(RestoreCodes(style)[i])
  {
    hide Processed, GoodStyle, ActiveSgr, IsCode, RESET;
    ResetCode(state);
    StyleReprinted(style, state.link);
    ThroughOne(state, RESET);
    if ActiveSgr(style) != "" {
      ThroughConcat(state, [RESET], [ActiveSgr(style)]);
      ThroughOne(State(PLAIN, state.link), ActiveSgr(style));
    }
  }

  lemma ThroughOne(state: State, code: string)
    ensures Through(state, [code]) == Processed(state, code)
  {
    hide Processed;
    assert [code][..0] == [];
  }

  /** The codes of `LineEndReset`, one by one. */
  function LineEndCodes(state: State): seq<string> {
    (if state.style.on.underline then [UNDERLINE_OFF] else [])
    + if state.link.Some? then [FormatOsc8Close(state.link.value.terminator)] else []
  }

  lemma UnderlineOff(link: Option<Hyperlink>)
    ensures IsCode(UNDERLINE_OFF) && Processed(State(PLAIN, link), UNDERLINE_OFF) == State(PLAIN, link)
  {
    SgrCode("24");
    SplitFirst("24", "", ';');
    assert UNDERLINE_OFF == CSI + "24" + "m";
    assert "24"[..1] == "2" && "2"[..0] == "" && ParseInt("2") == Some(2) && ParseInt("24") == Some(24);
    assert ["24"][1..] == [];
  }

  lemma CloseCode(terminator: Terminator)
    ensures IsCode(FormatOsc8Close(terminator))
    ensures ParseOsc8Hyperlink(FormatOsc8Close(terminator)) == Closed
  {
    var code := FormatOsc8Close(terminator);
    assert code == OSC8 + ";" + Ending(terminator);
    assert code[1] == ']' && code[2] == '8' && code[3] == ';' && code[4] == ';';
    assert FindTerminator(code, 5) == Some(|code|);
    assert FindTerminator(code, 4) == Some(|code|);
    assert FindTerminator(code, 3) == Some(|code|);
    assert FindTerminator(code, 2) == Some(|code|);
    assert code[..4] == OSC8 && code[4..5] == ";";
  }

  /** After a reset, the codes at the end of a clipped row leave nothing on. */
  lemma LineEnded(state: State, tracked: State)
    requires tracked.link == state.link
    ensures Through(state, [RESET] + LineEndCodes(tracked)) == CLEAR
    ensures forall i | 0 <= i < |LineEndCodes(tracked)| :: IsCode(LineEndCodes(tracked)[i])
  {
    hide Processed, FormatOsc8Close, IsCode, RESET, UNDERLINE_OFF;
    ResetCode(state);
    UnderlineOff(state.link);
    ThroughOne(state, RESET);
    ThroughConcat(state, [RESET], LineEndCodes(tracked));
    var plain := State(PLAIN, state.link);
    var under := if tracked.style.on.underline then [UNDERLINE_OFF] else [];
    ThroughOne(plain, UNDERLINE_OFF);
    assert Through(plain, under) == plain;
    if tracked.link.Some? {
      var close := FormatOsc8Close(tracked.link.value.terminator);
      CloseCode(tracked.link.value.terminator);
      ThroughConcat(plain, under, [close]);
      ThroughOne(plain, close);
      CloseProcessed(plain, close);
    } else {
      assert under + [] == under;
    }
  }

  lemma CloseProcessed(state: State, code: string)
    requires ParseOsc8Hyperlink(code) == Closed
    ensures Processed(state, code) == State(state.style, None)
  {}

  // ---- Painting a range ----

  predicate InRange(col: int, start: int, end: int) {
    start <= col < end
  }

  /** A shown grapheme with the paint laid over it if it begins inside the range. */
  function Painted(shown: Shown, start: int, end: int, on: seq<string>): Shown {
    if InRange(shown.col, start, end) then shown.(state := Through(shown.state, on)) else shown
  }

  function PaintedAll(shown: seq<Shown>, start: int, end: int, on: seq<string>): seq<Shown> {
    seq(|shown|, i requires 0 <= i < |shown| => Painted(shown[i], start, end, on))
  }

  lemma PaintedMore(shown: seq<Shown>, s: Shown, start: int, end: int, on: seq<string>)
    ensures PaintedAll(shown + [s], start, end, on) == PaintedAll(shown, start, end, on) + [Painted(s, start, end, on)]
  {}

  /** The grapheme at `i` is the first to cross the edge. */
  predicate CrossesAt(row: Row, max: Option<int>, i: nat)
    requires i < |row|
  {
    max.Some? && row[i].Cell? && Width(row[..i]) + row[i].width > max.value
  }

  /** How much of the row is shown: up to the first grapheme that crosses the edge. */
  function Clip(row: Row, max: Option<int>, i: nat): (n: nat)
    requires i <= |row|
    ensures i <= n <= |row|
    ensures forall k | i <= k < n :: !CrossesAt(row, max, k)
    ensures n < |row| ==> CrossesAt(row, max, n)
    decreases |row| - i
  {
    if i == |row| || CrossesAt(row, max, i) then i else Clip(row, max, i + 1)
  }

  /** The output so far against the row so far. */
  ghost predicate Painting(row: Row, out: Row, inside: bool, start: int, end: int, on: seq<string>) {
    && CodesOk(out) && Good(StateAfter(row, CLEAR)) && Width(out) == Width(row)
    && Displays(out, CLEAR) == PaintedAll(Displays(row, CLEAR), start, end, on)
    && StateAfter(out, CLEAR) == (if inside then Through(StateAfter(row, CLEAR), on) else StateAfter(row, CLEAR))
  }

  lemma CodesOkMore(row: Row, codes: seq<string>)
    requires CodesOk(row) && forall i | 0 <= i < |codes| :: IsCode(codes[i])
    ensures CodesOk(row + Codes(codes))
  {
    hide IsCode;
  }

  lemma CodesOkOne(row: Row, t: Token)
    requires CodesOk(row) && (t.Code? ==> IsCode(t.code))
    ensures CodesOk(row + [t])
  {
    hide IsCode;
  }

  /** A code of the row is copied, and inside the range the paint goes over an SGR code again. */
  lemma PaintCode(row: Row, out: Row, inside: bool, start: int, end: int, on: seq<string>, code: string)
    requires Painting(row, out, inside, start, end, on) && SgrOnly(on) && IsCode(code)
    ensures Painting(row + [Code(code)], out + [Code(code)] + if inside && IsSgr(code) then Codes(on) else [],
                     inside, start, end, on)
  {
    hide Processed, Good, IsCode, IsSgr, PaintedAll, CodesOk, Displays, StateAfter, Width, Codes;
    var t := Code(code);
    var state := StateAfter(row, CLEAR);
    OneMore(row, t, CLEAR);
    OneMore(out, t, CLEAR);
    CodesOkOne(out, t);
    ProcessedGood(state, code);
    assert Displays(row, CLEAR) + [] == Displays(row, CLEAR) && Displays(out, CLEAR) + [] == Displays(out, CLEAR);
    OnCodes(on);
    if inside && IsSgr(code) {
      ManyCodes(out + [t], on, CLEAR);
      CodesOkMore(out + [t], on);
      Repainted(state, code, on);
    } else {
      assert out + [t] + [] == out + [t];
      if inside {
        OtherUnderPaint(state, code, on);
      }
    }
  }

  lemma OnCodes(on: seq<string>)
    requires SgrOnly(on)
    ensures forall i | 0 <= i < |on| :: IsCode(on[i])
  {}

  /** A code that is no SGR code commutes with paint. */
  lemma OtherUnderPaint(state: State, code: string, on: seq<string>)
    requires !IsSgr(code) && SgrOnly(on)
    ensures Processed(Through(state, on), code) == Through(Processed(state, code), on)
  {
    hide Processed, IsSgr, SgrOnly;
    OtherKeepsStyle(state, code);
    OtherKeepsStyle(Through(state, on), code);
    ThroughStyle(state, Processed(state, code), on);
    ThroughKeepsLink(state, on);
    ThroughKeepsLink(Processed(state, code), on);
    ProcessedAlike(Through(state, on), state, code);
  }

  lemma PaintEnter(row: Row, out: Row, start: int, end: int, on: seq<string>)
    requires Painting(row, out, false, start, end, on) && SgrOnly(on)
    ensures Painting(row, out + Codes(on), true, start, end, on)
  {
    hide Processed, Good, IsCode, PaintedAll, CodesOk, Displays, StateAfter, Width, Codes;
    OnCodes(on);
    ManyCodes(out, on, CLEAR);
    CodesOkMore(out, on);
  }

  lemma PaintLeave(row: Row, out: Row, start: int, end: int, on: seq<string>)
    requires Painting(row, out, true, start, end, on) && SgrOnly(on)
    ensures Painting(row, out + Codes(RestoreCodes(StateAfter(row, CLEAR).style)), false, start, end, on)
  {
    hide Processed, GoodStyle, IsCode, PaintedAll, CodesOk, Displays, StateAfter, Width, Codes, RestoreCodes;
    var state := StateAfter(row, CLEAR);
    var codes := RestoreCodes(state.style);
    Restored(StateAfter(out, CLEAR), state.style);
    ManyCodes(out, codes, CLEAR);
    CodesOkMore(out, codes);
    ThroughKeepsLink(state, on);
  }

  lemma PaintCell(row: Row, out: Row, inside: bool, start: int, end: int, on: seq<string>, segment: string, width: nat)
    requires Painting(row, out, inside, start, end, on) && inside == InRange(Width(row), start, end)
    ensures Painting(row + [Cell(segment, width)], out + [Cell(segment, width)], inside, start, end, on)
  {
    hide Processed, Good, IsCode, CodesOk, Displays, StateAfter, Width, Codes, PaintedAll;
    var t := Cell(segment, width);
    OneMore(row, t, CLEAR);
    OneMore(out, t, CLEAR);
    CodesOkOne(out, t);
    PaintedMore(Displays(row, CLEAR), Shown(segment, width, Width(row), StateAfter(row, CLEAR)), start, end, on);
  }

  lemma PaintNothing(start: int, end: int, on: seq<string>)
    ensures Painting([], [], false, start, end, on)
  {
    ClearGood();
  }

  /** Leaving the range: a reset, and the row's own style again. */
  method Leave(tracker: AnsiCodeTracker, out: Row, ghost row: Row, ghost start: int,
               ghost end: int, ghost on: seq<string>)
    returns (more: Row)
    requires Painting(row, out, true, start, end, on) && SgrOnly(on) && tracker.Current() == StateAfter(row, CLEAR)
    ensures Painting(row, more, false, start, end, on)
  {
    hide Painting, SgrOnly, ActiveSgr;
    var sgr := tracker.GetActiveSgr();
    more := out + Codes([RESET] + if sgr == "" then [] else [sgr]);
    PaintLeave(row, out, start, end, on);
  }

  /** One grapheme that does not cross the edge. */
  method PaintGrapheme(tracker: AnsiCodeTracker, out: Row, col: nat, inside: bool, start: int, end: int,
                       on: seq<string>,
                       segment: string, width: nat, ghost row: Row)
    returns (more: Row, now: bool)
    requires Painting(row, out, inside, start, end, on) && SgrOnly(on)
    requires tracker.Current() == StateAfter(row, CLEAR) && col == Width(row)
    ensures Painting(row + [Cell(segment, width)], more, now, start, end, on)
  {
    hide Painting, SgrOnly;
    more, now := out, inside;
    var selected := InRange(col, start, end);
    if selected && !inside {
      PaintEnter(row, out, start, end, on);
      more, now := more + Codes(on), true;
    } else if !selected && inside {
      more := Leave(tracker, more, row, start, end, on);
      now := false;
    }
    PaintCell(row, more, now, start, end, on, segment, width);
    more := more + [Cell(segment, width)];
  }

  /**
   Painting a column range: the row shows the same graphemes up to the edge, with the same links and styles, except that
   exactly those that begin in the range have the paint over their style. An unclipped row leaves the state it left
   before, a clipped one a clear state.
   */
  method StyleColumnRange(line: Row, start: int, end: int, on: seq<string>, max: Option<int>) returns (out: Row)
    requires CodesOk(line) && SgrOnly(on)
    ensures CodesOk(out)
    ensures Displays(out, CLEAR) == PaintedAll(Displays(line[..Clip(line, max, 0)], CLEAR), start, end, on)
    ensures StateAfter(out, CLEAR) == if Clip(line, max, 0) == |line| then StateAfter(line, CLEAR) else CLEAR
  {
    hide Painting, SgrOnly, IsSgr, IsCode, Clip, Displays, StateAfter, Width, PaintedAll, Processed;
    var tracker := new AnsiCodeTracker();
    out := [];
    var col: nat, inside, clipped, i := 0, false, false, 0;
    NothingYet();
    PaintNothing(start, end, on);
    while i < |line| && !clipped
      invariant i <= |line| && Painting(line[..i], out, inside, start, end, on)
      invariant tracker.Current() == StateAfter(line[..i], CLEAR) && col == Width(line[..i])
      invariant fresh(tracker)
      invariant Clip(line, max, 0) == Clip(line, max, i) && (clipped ==> i < |line| && Clip(line, max, i) == i)
      decreases |line| - i, !clipped
    {
      ghost var before := line[..i];
      assert line[..i + 1] == before + [line[i]];
      OneMore(before, line[i], CLEAR);
      ClipNext(line, max, i);
      match line[i]
      case Code(code) =>
        PaintCode(before, out, inside, start, end, on, code);
        assert IsCode(code);
        out := out + [line[i]];
        tracker.Process(code);
        out := out + if inside && IsSgr(code) then Codes(on) else [];
        i := i + 1;
      case Cell(segment, width) =>
        if max.Some? && col + width > max.value {
          clipped := true;
        } else {
          out, inside := PaintGrapheme(tracker, out, col, inside, start, end, on, segment, width, before);
          col := col + width;
          i := i + 1;
        }
    }
    assert !clipped ==> line[..i] == line;
    ClipAll(line, max, i);
    out := Finish(tracker, out, inside, clipped, line[..i], start, end, on);
  }

  lemma NothingYet()
    ensures StateAfter([], CLEAR) == CLEAR && Width([]) == 0
  {}

  lemma ClipNext(row: Row, max: Option<int>, i: nat)
    requires i < |row|
    ensures Clip(row, max, i) == if CrossesAt(row, max, i) then i else Clip(row, max, i + 1)
  {}

  lemma ClipAll(row: Row, max: Option<int>, i: nat)
    requires i <= |row|
    ensures i == |row| ==> Clip(row, max, i) == i
  {}

  /** The range is left at the end, and a clipped row ends with nothing on. */
  method Finish(tracker: AnsiCodeTracker, out: Row, inside: bool, clipped: bool,
                ghost row: Row, ghost start: int, ghost end: int, ghost on: seq<string>)
    returns (more: Row)
    requires Painting(row, out, inside, start, end, on) && SgrOnly(on) && tracker.Current() == StateAfter(row, CLEAR)
    ensures CodesOk(more) && Displays(more, CLEAR) == PaintedAll(Displays(row, CLEAR), start, end, on)
    ensures StateAfter(more, CLEAR) == if clipped then CLEAR else StateAfter(row, CLEAR)
  {
    hide SgrOnly, IsCode, Displays, StateAfter, Width, PaintedAll, Processed, Codes, CodesOk, LineEndCodes;
    more := out;
    if inside {
      more := Leave(tracker, more, row, start, end, on);
    }
    if clipped {
      var codes := [RESET] + LineEndCodes(tracker.Current());
      LineEnded(StateAfter(more, CLEAR), tracker.Current());
      ResetCode(CLEAR);
      ManyCodes(more, codes, CLEAR);
      CodesOkMore(more, codes);
      more := more + Codes(codes);
    }
  }

  // ---- Slicing a range ----

  predicate Fits(s: Shown, start: int, end: int, strict: bool) {
    InRange(s.col, start, end) && (!strict || s.col + s.width <= end)
  }

  /** The graphemes that begin in the range; a strict slice leaves out one that reaches beyond it. */
  function Picked(shown: seq<Shown>, start: int, end: int, strict: bool): seq<Shown> {
    if shown == [] then []
    else
      var last := shown[|shown| - 1];
      Picked(shown[..|shown| - 1], start, end, strict) + if Fits(last, start, end, strict) then [last] else []
  }

  lemma PickedMore(shown: seq<Shown>, s: Shown, start: int, end: int, strict: bool)
    ensures Picked(shown + [s], start, end, strict) ==
      Picked(shown, start, end, strict) + if Fits(s, start, end, strict) then [s] else []
  {
    assert (shown + [s])[..|shown|] == shown;
  }

  /** Without an edge, the graphemes whose style painting may change are exactly those a slice of the range returns. */
  lemma {:induction false} PaintedAreSliced(shown: seq<Shown>, start: int, end: int, on: seq<string>, i: nat)
    requires i < |shown|
    ensures if shown[i] in Picked(shown, start, end, false)
      then Painted(shown[i], start, end, on) == shown[i].(state := Through(shown[i].state, on))
      else Painted(shown[i], start, end, on) == shown[i]
  {
    PickedMembers(shown, start, end, shown[i]);
  }

  lemma {:induction false} PickedMembers(shown: seq<Shown>, start: int, end: int, s: Shown)
    requires s in shown
    ensures s in Picked(shown, start, end, false) <==> InRange(s.col, start, end)
  {
    var n := |shown| - 1;
    assert shown == shown[..n] + [shown[n]];
    if s in shown[..n] {
      PickedMembers(shown[..n], start, end, s);
    } else {
      PickedInRange(shown[..n], start, end);
    }
    PickedInRange(shown, start, end);
  }

  lemma {:induction false} PickedInRange(shown: seq<Shown>, start: int, end: int)
    ensures forall s | s in Picked(shown, start, end, false) :: InRange(s.col, start, end)
  {
    if shown != [] {
      PickedInRange(shown[..|shown| - 1], start, end);
    }
  }

  /** The codes ahead of the range. */
  function Early(row: Row, start: int): seq<string> {
    if row == [] then []
    else
      var last, before := row[|row| - 1], row[..|row| - 1];
      Early(before, start) + if last.Code? && Width(before) < start then [last.code] else []
  }

  /** The codes inside the range, ahead of the first grapheme that is kept. */
  function Mid(row: Row, start: int, end: int, strict: bool): seq<string> {
    if row == [] then []
    else
      var last, before := row[|row| - 1], row[..|row| - 1];
      Mid(before, start, end, strict)
      + if last.Code? && InRange(Width(before), start, end) && Picked(Displays(before, CLEAR), start, end, strict) == []
        then [last.code] else []
  }

  lemma OneMoreSliced(row: Row, t: Token, start: int, end: int, strict: bool)
    ensures Early(row + [t], start) == Early(row, start) + if t.Code? && Width(row) < start then [t.code] else []
    ensures Mid(row + [t], start, end, strict) == Mid(row, start, end, strict)
      + if t.Code? && InRange(Width(row), start, end) && Picked(Displays(row, CLEAR), start, end, strict) == []
        then [t.code] else []
    ensures Picked(Displays(row + [t], CLEAR), start, end, strict) == Picked(Displays(row, CLEAR), start, end, strict)
      + if t.Cell? && Fits(Shown(t.segment, t.width, Width(row), StateAfter(row, CLEAR)), start, end, strict)
        then [Shown(t.segment, t.width, Width(row), StateAfter(row, CLEAR))] else []
  {
    hide Processed, StateAfter, Width, Displays, Picked;
    assert (row + [t])[..|row|] == row;
    OneMore(row, t, CLEAR);
    if t.Cell? {
      PickedMore(Displays(row, CLEAR), Shown(t.segment, t.width, Width(row), StateAfter(row, CLEAR)),
                 start, end, strict);
    } else {
      assert Displays(row, CLEAR) + [] == Displays(row, CLEAR);
    }
  }

  /** The graphemes of two rows are the same. */
  predicate SameGraphemes(a: seq<Shown>, b: seq<Shown>) {
    |a| == |b| && forall k | 0 <= k < |a| :: a[k].segment == b[k].segment && a[k].width == b[k].width
  }

  predicate SameStates(a: seq<Shown>, b: seq<Shown>) {
    |a| == |b| && forall k | 0 <= k < |a| :: a[k].state == b[k].state
  }

  /** Reading the codes inside the range ahead of those before it leads to the same state. */
  predicate Commute(early: seq<string>, mid: seq<string>) {
    Through(Through(CLEAR, mid), early) == Through(Through(CLEAR, early), mid)
  }

  ghost predicate BeforeFirst(row: Row, result: Row, pending: seq<string>, start: int, end: int, strict: bool) {
    var early, mid := Early(row, start), Mid(row, start, end, strict);
    && pending == early && result == Codes(mid) && (mid != [] ==> start <= Width(row))
    && (Width(row) < end ==> StateAfter(row, CLEAR) == Through(Through(CLEAR, early), mid))
  }

  ghost predicate AfterFirst(row: Row, result: Row, pending: seq<string>, start: int, end: int, strict: bool) {
    var shown, got := Picked(Displays(row, CLEAR), start, end, strict), Displays(result, CLEAR);
    && pending == [] && start <= Width(row) && |shown| > 0 && SameGraphemes(got, shown)
    && got[0].state == Through(Through(CLEAR, Mid(row, start, end, strict)), Early(row, start))
    && if Commute(Early(row, start), Mid(row, start, end, strict))
       then SameStates(got, shown) && (Width(row) < end ==> StateAfter(result, CLEAR) == StateAfter(row, CLEAR))
       else got[0].state != shown[0].state
  }

  ghost predicate Slicing(row: Row, result: Row, pending: seq<string>, start: int, end: int, strict: bool) {
    if Picked(Displays(row, CLEAR), start, end, strict) == [] then BeforeFirst(row, result, pending, start, end, strict)
    else AfterFirst(row, result, pending, start, end, strict)
  }

  lemma CodesShown(codes: seq<string>)
    ensures Displays(Codes(codes), CLEAR) == [] && StateAfter(Codes(codes), CLEAR) == Through(CLEAR, codes)
    ensures Width(Codes(codes)) == 0
  {
    ManyCodes([], codes, CLEAR);
    assert [] + Codes(codes) == Codes(codes);
  }

  lemma SliceEarly(row: Row, result: Row, pending: seq<string>, start: int, end: int, strict: bool, code: string)
    requires Slicing(row, result, pending, start, end, strict) && start < end && Width(row) < start
    ensures Slicing(row + [Code(code)], result, pending + [code], start, end, strict)
  {
    hide Processed, StateAfter, Width, Displays, Picked, Early, Mid, Codes, AfterFirst;
    OneMore(row, Code(code), CLEAR);
    OneMoreSliced(row, Code(code), start, end, strict);
    NotYet(row, result, pending, start, end, strict);
    var early, mid := Early(row, start), Mid(row, start, end, strict);
    assert mid + [] == mid;
    assert Picked(Displays(row, CLEAR), start, end, strict) + [] == [];
    NoCodes(Through(CLEAR, early));
    NoCodes(Through(CLEAR, early + [code]));
    ThroughConcat(CLEAR, early, [code]);
    ThroughOne(Through(CLEAR, early), code);
  }

  lemma NoCodes(state: State)
    ensures Through(state, []) == state
  {}

  lemma NotYet(row: Row, result: Row, pending: seq<string>, start: int, end: int, strict: bool)
    requires Slicing(row, result, pending, start, end, strict) && Width(row) < start
    ensures Picked(Displays(row, CLEAR), start, end, strict) == []
  {}

  lemma SliceMid(row: Row, result: Row, pending: seq<string>, start: int, end: int, strict: bool, code: string)
    requires Slicing(row, result, pending, start, end, strict) && InRange(Width(row), start, end)
    ensures Slicing(row + [Code(code)], result + [Code(code)], pending, start, end, strict)
  {
    hide Processed, StateAfter, Width, Displays, Picked, Early, Mid, SameGraphemes, SameStates, Commute;
    var t := Code(code);
    var early, mid := Early(row, start), Mid(row, start, end, strict);
    OneMore(row, t, CLEAR);
    OneMore(result, t, CLEAR);
    OneMoreSliced(row, t, start, end, strict);
    assert early + [] == early && mid + [] == mid;
    assert Displays(result, CLEAR) + [] == Displays(result, CLEAR);
    var shown := Picked(Displays(row, CLEAR), start, end, strict);
    assert shown + [] == shown;
    if shown == [] {
      assert Codes(mid + [code]) == Codes(mid) + [t];
      ThroughConcat(Through(CLEAR, early), mid, [code]);
      ThroughOne(Through(Through(CLEAR, early), mid), code);
    }
  }

  lemma SliceBeyond(row: Row, result: Row, pending: seq<string>, start: int, end: int, strict: bool, code: string)
    requires Slicing(row, result, pending, start, end, strict) && start < end && end <= Width(row)
    ensures Slicing(row + [Code(code)], result, pending, start, end, strict)
  {
    hide Processed, StateAfter, Width, Displays, Picked, Early, Mid, SameGraphemes, SameStates, Commute;
    OneMore(row, Code(code), CLEAR);
    OneMoreSliced(row, Code(code), start, end, strict);
    assert Early(row, start) + [] == Early(row, start);
    assert Mid(row, start, end, strict) + [] == Mid(row, start, end, strict);
    assert Picked(Displays(row, CLEAR), start, end, strict) + [] == Picked(Displays(row, CLEAR), start, end, strict);
  }

  lemma SliceSkip(row: Row, result: Row, pending: seq<string>, start: int, end: int, strict: bool, t: Token)
    requires Slicing(row, result, pending, start, end, strict) && t.Cell?
    requires !Fits(Shown(t.segment, t.width, Width(row), StateAfter(row, CLEAR)), start, end, strict)
    ensures Slicing(row + [t], result, pending, start, end, strict)
  {
    hide Processed, StateAfter, Width, Displays, Picked, Early, Mid, SameGraphemes, SameStates, Commute, Fits;
    OneMore(row, t, CLEAR);
    OneMoreSliced(row, t, start, end, strict);
    assert Early(row, start) + [] == Early(row, start);
    assert Mid(row, start, end, strict) + [] == Mid(row, start, end, strict);
    assert Picked(Displays(row, CLEAR), start, end, strict) + [] == Picked(Displays(row, CLEAR), start, end, strict);
  }

  lemma SliceFirst(row: Row, result: Row, pending: seq<string>, start: int, end: int, strict: bool, t: Token)
    requires Slicing(row, result, pending, start, end, strict) && t.Cell?
    requires Picked(Displays(row, CLEAR), start, end, strict) == []
    requires Fits(Shown(t.segment, t.width, Width(row), StateAfter(row, CLEAR)), start, end, strict)
    ensures Slicing(row + [t], result + Codes(pending) + [t], [], start, end, strict)
    ensures Width(result + Codes(pending) + [t]) == Width(result) + t.width
  {
    hide Processed, StateAfter, Width, Displays, Picked, Early, Mid;
    var early, mid := Early(row, start), Mid(row, start, end, strict);
    OneMore(row, t, CLEAR);
    OneMoreSliced(row, t, start, end, strict);
    assert early + [] == early && mid + [] == mid;
    CodesShown(mid);
    ManyCodes(result, early, CLEAR);
    OneMore(result + Codes(early), t, CLEAR);
    var shown := Shown(t.segment, t.width, Width(row), StateAfter(row, CLEAR));
    assert [] + [shown] == [shown];
    assert Picked(Displays(row + [t], CLEAR), start, end, strict) == [shown];
  }

  lemma SliceNext(row: Row, result: Row, pending: seq<string>, start: int, end: int, strict: bool, t: Token)
    requires Slicing(row, result, pending, start, end, strict) && t.Cell?
    requires Picked(Displays(row, CLEAR), start, end, strict) != []
    requires Fits(Shown(t.segment, t.width, Width(row), StateAfter(row, CLEAR)), start, end, strict)
    ensures Slicing(row + [t], result + Codes(pending) + [t], [], start, end, strict)
    ensures Width(result + Codes(pending) + [t]) == Width(result) + t.width
  {
    hide Processed, StateAfter, Width, Displays, Picked, Early, Mid, Commute;
    var early, mid := Early(row, start), Mid(row, start, end, strict);
    OneMore(row, t, CLEAR);
    OneMoreSliced(row, t, start, end, strict);
    assert early + [] == early && mid + [] == mid;
    assert result + Codes(pending) == result;
    OneMore(result, t, CLEAR);
  }

  /**
   Slicing a column range: the graphemes of the range, with the codes they need. Read from a clear state the slice shows
   them as the row does exactly when there are none, or when the codes before the range and those at its start can be
   read in either order, because the slice has them the wrong way round.
   */
  method SliceWithWidth(line: Row, start: int, length: int, strict: bool) returns (result: Row, width: nat)
    ensures var shown := Picked(Displays(line, CLEAR), start, start + length, strict);
      && SameGraphemes(Displays(result, CLEAR), shown) && width == Width(result)
      && (SameStates(Displays(result, CLEAR), shown) <==>
            shown == [] || Commute(Early(line, start), Mid(line, start, start + length, strict)))
      && (shown != [] ==>
            Displays(result, CLEAR)[0].state
            == Through(Through(CLEAR, Mid(line, start, start + length, strict)), Early(line, start)))
  {
    hide Slicing, Displays, StateAfter, Width, Processed, Picked, Early, Mid, Codes, SameGraphemes, SameStates, Commute;
    result, width := [], 0;
    if length <= 0 {
      NothingPicked(Displays(line, CLEAR), start, start + length, strict);
      NothingSame();
      return;
    }
    var end := start + length;
    var pending: seq<string> := [];
    var col: nat, done, i := 0, false, 0;
    NothingYet();
    SliceNothing(start, end, strict);
    while i < |line| && !done
      invariant i <= |line| && Slicing(line[..i], result, pending, start, end, strict)
      invariant col == Width(line[..i]) && width == Width(result) && (done ==> end <= col)
      decreases |line| - i
    {
      ghost var before := line[..i];
      assert line[..i + 1] == before + [line[i]];
      OneMore(before, line[i], CLEAR);
      match line[i] {
        case Code(code) =>
          if InRange(col, start, end) {
            SliceMid(before, result, pending, start, end, strict, code);
            OneMore(result, line[i], CLEAR);
            result := result + [line[i]];
          } else if col < start {
            SliceEarly(before, result, pending, start, end, strict, code);
            pending := pending + [code];
          } else {
            SliceBeyond(before, result, pending, start, end, strict, code);
          }
        case Cell(segment, w) =>
          if InRange(col, start, end) && (!strict || col + w <= end) {
            if Picked(Displays(before, CLEAR), start, end, strict) == [] {
              SliceFirst(before, result, pending, start, end, strict, line[i]);
            } else {
              SliceNext(before, result, pending, start, end, strict, line[i]);
            }
            result := result + Codes(pending) + [line[i]];
            pending := [];
            width := width + w;
          } else {
            SliceSkip(before, result, pending, start, end, strict, line[i]);
          }
          col := col + w;
          done := col >= end;
      }
      i := i + 1;
    }
    SliceRest(line, i, result, pending, start, end, strict);
    SliceDone(line, result, pending, start, end, strict);
  }

  lemma SliceNothing(start: int, end: int, strict: bool)
    ensures Slicing([], [], [], start, end, strict)
  {
    assert Codes([]) == [];
  }

  lemma NothingSame()
    ensures SameGraphemes(Displays([], CLEAR), []) && SameStates(Displays([], CLEAR), []) && Width([]) == 0
  {}

  lemma {:induction false} NothingPicked(shown: seq<Shown>, start: int, end: int, strict: bool)
    requires end <= start
    ensures Picked(shown, start, end, strict) == []
  {
    if shown != [] {
      NothingPicked(shown[..|shown| - 1], start, end, strict);
    }
  }

  /** What lies beyond the range makes no difference. */
  lemma {:induction false} SliceRest(line: Row, i: nat, result: Row, pending: seq<string>, start: int,
                                     end: int, strict: bool)
    requires i <= |line| && Slicing(line[..i], result, pending, start, end, strict) && start < end
    requires i < |line| ==> end <= Width(line[..i])
    ensures Slicing(line, result, pending, start, end, strict)
    decreases |line| - i
  {
    hide Slicing, Displays, StateAfter, Processed, Picked, Early, Mid, Codes;
    if i == |line| {
      assert line[..i] == line;
    } else {
      var before := line[..i];
      assert line[..i + 1] == before + [line[i]];
      OneMore(before, line[i], CLEAR);
      if line[i].Code? {
        SliceBeyond(before, result, pending, start, end, strict, line[i].code);
      } else {
        SliceSkip(before, result, pending, start, end, strict, line[i]);
      }
      SliceRest(line, i + 1, result, pending, start, end, strict);
    }
  }

  lemma SliceDone(line: Row, result: Row, pending: seq<string>, start: int, end: int, strict: bool)
    requires Slicing(line, result, pending, start, end, strict)
    ensures var shown := Picked(Displays(line, CLEAR), start, end, strict);
      && SameGraphemes(Displays(result, CLEAR), shown)
      && (SameStates(Displays(result, CLEAR), shown) <==>
            shown == [] || Commute(Early(line, start), Mid(line, start, end, strict)))
      && (shown != [] ==>
            Displays(result, CLEAR)[0].state
            == Through(Through(CLEAR, Mid(line, start, end, strict)), Early(line, start)))
  {
    hide Displays, StateAfter, Width, Processed, Picked, Early, Mid, Commute;
    CodesShown(Mid(line, start, end, strict));
  }

  /** A foreground code. */
  function Foreground(n: nat): string
    requires StandardFg(n)
  {
    CSI + ToString(n) + "m"
  }

  lemma ForegroundSet(state: State, n: nat)
    requires StandardFg(n)
    ensures Processed(state, Foreground(n)).style.fg == Some([ToString(n)])
  {
    hide ToString, Split, ParseOsc8Hyperlink, SgrParams, IsCode;
    PrintedInt(n);
    assert ToString(n) != "0" by {
      assert ParseInt("0") == Some(0);
    }
    SgrCode(ToString(n));
    SplitFirst(ToString(n), "", ';');
    ApplyPlain(state.style, n, []);
    assert [ToString(n)] + [] == [ToString(n)];
  }

  lemma TwoCells(first: string, second: string, segment: string)
    ensures var line := [Code(first), Cell(segment, 1), Code(second), Cell(segment, 1)];
      && Early(line, 1) == [first] && Mid(line, 1, 2, false) == [second]
      && Picked(Displays(line, CLEAR), 1, 2, false) ==
           [Shown(segment, 1, 1, Processed(Processed(CLEAR, first), second))]
  {
    hide Processed, StateAfter, Picked, Displays, Width, Early, Mid;
    var a, cell, b := Code(first), Cell(segment, 1), Code(second);
    NoneSliced(1, 2, false);
    OneMore([], a, CLEAR);
    OneMoreSliced([], a, 1, 2, false);
    assert [] + [a] == [a];
    OneMore([a], cell, CLEAR);
    OneMoreSliced([a], cell, 1, 2, false);
    assert [a] + [cell] == [a, cell];
    assert Early([a, cell], 1) == [first] && Mid([a, cell], 1, 2, false) == [];
    assert Picked(Displays([a, cell], CLEAR), 1, 2, false) == [];
    OneMore([a, cell], b, CLEAR);
    OneMoreSliced([a, cell], b, 1, 2, false);
    assert [a, cell] + [b] == [a, cell, b];
    assert Early([a, cell, b], 1) == [first] && Mid([a, cell, b], 1, 2, false) == [second];
    assert StateAfter([a, cell, b], CLEAR) == Processed(Processed(CLEAR, first), second) && Width([a, cell, b]) == 1;
    OneMoreSliced([a, cell, b], cell, 1, 2, false);
    assert [] + [Shown(segment, 1, 1, StateAfter([a, cell, b], CLEAR))]
        == [Shown(segment, 1, 1, StateAfter([a, cell, b], CLEAR))];
    assert [a, cell, b] + [cell] == [a, cell, b, cell];
  }

  lemma NoneSliced(start: int, end: int, strict: bool)
    ensures Early([], start) == [] && Mid([], start, end, strict) == []
    ensures Width([]) == 0 && StateAfter([], CLEAR) == CLEAR
    ensures Picked(Displays([], CLEAR), start, end, strict) == []
  {}

  /** Two graphemes, each after its own colour: sliced from the second on, it gets the colour of the first. */
  method SliceExample(segment: string) returns (result: Row)
    ensures var line := [Code(Foreground(31)), Cell(segment, 1), Code(Foreground(32)), Cell(segment, 1)];
      var shown, got := Picked(Displays(line, CLEAR), 1, 2, false), Displays(result, CLEAR);
      && |shown| == |got| == 1 && shown[0].segment == got[0].segment == segment
      && shown[0].state.style.fg == Some([ToString(32)]) && got[0].state.style.fg == Some([ToString(31)])
  {
    hide Processed, Picked, Displays, Early, Mid, Commute, Foreground, SameStates, ToString;
    var line, width := [Code(Foreground(31)), Cell(segment, 1), Code(Foreground(32)), Cell(segment, 1)], 0;
    TwoCells(Foreground(31), Foreground(32), segment);
    result, width := SliceWithWidth(line, 1, 1, false);
    ThroughOne(CLEAR, Foreground(32));
    ThroughOne(Through(CLEAR, [Foreground(32)]), Foreground(31));
    ForegroundSet(Processed(CLEAR, Foreground(31)), 32);
    ForegroundSet(Through(CLEAR, [Foreground(32)]), 31);
  }
}
