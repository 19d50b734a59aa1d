/**
 The differential renderer: it keeps what it believes the terminal shows and writes only the changed rows.
 Proved here: what the terminal shows after each frame, exactly; that this is the frame itself unless a clipped wide
 glyph or an emptied frame leaves something behind; and when the renderer's picture of the terminal stays true.
 */
module Renderer {
  import opened Results
  import opened Strings
  import opened Terminal
  import opened FrameRows
  import opened Painting

  const CURSOR_MARKER := "\U{1b}_pi:c\U{07}"
  const SEGMENT_RESET := "\U{1b}[0m\U{1b}]8;;\U{07}"

  datatype ClearMode = SavedLines | Viewport

  datatype CursorPos = CursorPos(row: nat, col: nat, markerIndex: nat)

  /** The device the renderer writes to. */
  class Screen {
    var state: Term

    constructor (state: Term)
      ensures this.state == state
    {
      this.state := state;
    }

    method Write(buffer: seq<Op>)
      requires Valid(state)
      modifies this
      ensures state == Run(old(state), buffer)
    {
      state := Run(state, buffer);
    }
  }

  /** The row of line `i` after a differential repaint. An emptied frame leaves its first row alone. */
  function DrawnRow(look: Look, previous: seq<string>, next: seq<string>, i: nat, width: nat, height: nat): Row {
    if next == [] && i == 0 && height > 1 then FrameRow(look, previous, 0, width)
    else PaintedRow(look, previous, next, i, width)
  }

  /** The terminal shows exactly what repainting `next` over `previous` leaves. */
  ghost predicate Drawn(t: Term, base: nat, look: Look, previous: seq<string>, next: seq<string>, viewportTop: nat) {
    && t.top == base + viewportTop
    && |next| <= viewportTop + t.height
    && |t.rows| == base + viewportTop + t.height
    && forall i | 0 <= i < viewportTop + t.height ::
         t.rows[base + i] == DrawnRow(look, previous, next, i, t.width, t.height)
  }

  /** A repaint of `next` over `previous` leaves something of `previous` behind. */
  ghost predicate LeavesBehind(look: Look, previous: seq<string>, next: seq<string>, width: nat, height: nat) {
    || (exists i: nat | i < |next| :: Stale(look(LineAt(previous, i)), look(next[i]), width))
    || (next == [] && height > 1 && FrameRow(look, previous, 0, width) != Blanks(width))
  }

  /** The terminal shows the new frame if and only if the repaint left nothing behind. */
  lemma DrawnExact(t: Term, base: nat, look: Look, previous: seq<string>, next: seq<string>, viewportTop: nat)
    requires Valid(t) && Proper(look) && Drawn(t, base, look, previous, next, viewportTop)
    ensures Shows(t, base, look, next, viewportTop)
       <==> !LeavesBehind(look, previous, next, t.width, t.height)
  {
    EmptyRow(t.width);
    forall i: nat | i < viewportTop + t.height
      ensures PaintedRow(look, previous, next, i, t.width) == FrameRow(look, next, i, t.width)
         <==> !Stale(look(LineAt(previous, i)), look(LineAt(next, i)), t.width)
    {
      RepaintExact(look(LineAt(previous, i)), look(LineAt(next, i)), t.width);
    }
    if Shows(t, base, look, next, viewportTop) {
      assert t.rows[base + 0] == FrameRow(look, next, 0, t.width);
      forall i: nat | i < |next|
        ensures !Stale(look(LineAt(previous, i)), look(next[i]), t.width)
      {
        assert t.rows[base + i] == FrameRow(look, next, i, t.width);
        assert t.rows[base + i] == DrawnRow(look, previous, next, i, t.width, t.height);
      }
      assert t.rows[base + 0] == DrawnRow(look, previous, next, 0, t.width, t.height);
    } else if !LeavesBehind(look, previous, next, t.width, t.height) {
      forall i | 0 <= i < viewportTop + t.height
        ensures t.rows[base + i] == FrameRow(look, next, i, t.width)
      {
        assert t.rows[base + i] == DrawnRow(look, previous, next, i, t.width, t.height);
        if i < |next| {
          assert LineAt(next, i) == next[i];
        }
      }
    }
  }

  /** Blanking the rows of the deleted lines draws the shorter frame. */
  lemma DeletedDrawn(t: Term, before: Term, base: nat, look: Look, previous: seq<string>, next: seq<string>,
                     viewportTop: nat)
    requires Valid(before) && Proper(look) && Shows(before, base, look, previous, viewportTop)
    requires |next| < |previous| && (next == [] ==> viewportTop == 0) && viewportTop <= |next|
    requires forall i: nat | i < |next| :: LineAt(previous, i) == LineAt(next, i)
    requires var start := base + Max(0, |next| - 1);
      Erased(t, before, ErasedTo(before, start, 0), ErasedTo(before, start, |previous| - |next|))
    ensures Drawn(t, base, look, previous, next, viewportTop)
    ensures t.rows[..base] == before.rows[..base]
  {
    EmptyRow(t.width);
    forall i: nat | i < viewportTop + t.height
      ensures t.rows[base + i] == DrawnRow(look, previous, next, i, t.width, t.height)
    {
      assert before.rows[base + i] == FrameRow(look, previous, i, t.width);
      RepaintSame(look(LineAt(next, i)), t.width);
      if |next| <= i {
        RepaintUncut(look(LineAt(previous, i)), [], t.width);
      }
    }
  }

  /** What paints line `i`: paint over the old text, then clear its tail if it was wider. */
  method PaintLine(look: Look, previous: seq<string>, next: seq<string>, first: nat, i: nat, width: nat)
    returns (buffer: seq<Op>)
    requires first <= i < |next|
    ensures buffer == PaintOps(look, previous, next, first, i, width)
  {
    buffer := [];
    if i > first {
      buffer := buffer + NewLine();
    }
    var line := look(next[i]);
    buffer := buffer + [Text(Fit(line, width))];
    var lineWidth := Min(|line|, width);
    var prevWidth := Min(|look(LineAt(previous, i))|, width);
    if lineWidth < prevWidth {
      buffer := buffer + [EraseTail];
    }
  }

  /** What paints lines `first` up to `until`, from the start of line `first` on. */
  method PaintLines(look: Look, previous: seq<string>, next: seq<string>, first: nat, until: nat, width: nat)
    returns (buffer: seq<Op>)
    requires first <= until <= |next|
    ensures buffer == LinesOps(look, previous, next, first, until, width)
  {
    buffer := [];
    for i := first to until
      invariant buffer == LinesOps(look, previous, next, first, i, width)
    {
      var line := PaintLine(look, previous, next, first, i, width);
      buffer := buffer + line;
    }
  }

  /** What a full redraw writes: everything, on a cleared terminal or on one that shows no lines yet. */
  method FullBuffer(look: Look, newLines: seq<string>, width: nat, clear: bool, keepSaved: bool, ghost before: Term)
    returns (buffer: seq<Op>)
    requires Proper(look) && Valid(before) && before.width == width
    requires !clear ==> Shows(before, before.top, look, [], 0) && before.row == before.top && before.col == 0
    ensures var base := if clear && !keepSaved then 0 else before.top;
      var after := Run(before, buffer);
      && Shows(after, base, look, newLines, Max(0, |newLines| - before.height))
      && after.row == base + Max(0, |newLines| - 1) && after.rows[..base] == before.rows[..base]
      && (newLines == [] ==> after.col == 0)
  {
    ghost var saved := if clear && !keepSaved then [] else before.rows[..before.top];
    buffer := [];
    if clear {
      ClearScreen(before, keepSaved, look, newLines);
      buffer := ClearOps(keepSaved);
    } else {
      ShowsPartly(before, before.top, look, [], newLines, 0, 0, 0);
    }
    var lines := PaintLines(look, [], newLines, 0, |newLines|, width);
    RunConcat(before, buffer, lines);
    PaintMany(Run(before, buffer), saved, look, [], newLines, 0, |newLines|, 0);
    buffer := buffer + lines;
    AllPainted(Run(before, buffer), saved, look, newLines);
  }

  /** Moving the cursor changes nothing that is shown. */
  lemma CursorOnly(t: Term, t': Term, base: nat, look: Look, previous: seq<string>, next: seq<string>, viewportTop: nat)
    requires t' == t.(row := t'.row, col := t'.col)
    ensures Shows(t, base, look, next, viewportTop) ==> Shows(t', base, look, next, viewportTop)
    ensures Drawn(t, base, look, previous, next, viewportTop) ==> Drawn(t', base, look, previous, next, viewportTop)
  {}

  /** The first and the last line in which two frames differ, or -1; appended lines count as different. */
  method FindChanges(previous: seq<string>, next: seq<string>) returns (firstChanged: int, lastChanged: int)
    ensures firstChanged == -1 <==> |next| <= |previous| && forall i: nat :: LineAt(previous, i) == LineAt(next, i)
    ensures firstChanged != -1 ==> 0 <= firstChanged <= lastChanged < Max(|previous|, |next|)
    ensures firstChanged != -1 ==>
      forall i: nat | i < firstChanged || i > lastChanged :: LineAt(previous, i) == LineAt(next, i)
    ensures firstChanged != -1 ==>
      firstChanged == |previous| || LineAt(previous, firstChanged) != LineAt(next, firstChanged)
    ensures |next| > |previous| ==> firstChanged >= 0 && lastChanged == |next| - 1
  {
    firstChanged, lastChanged := -1, -1;
    var maxLines := Max(|next|, |previous|);
    for i := 0 to maxLines
      invariant firstChanged == -1 <==> forall j: nat | j < i :: LineAt(previous, j) == LineAt(next, j)
      invariant firstChanged != -1 ==> 0 <= firstChanged <= lastChanged < i
      invariant firstChanged != -1 ==> LineAt(previous, firstChanged) != LineAt(next, firstChanged)
      invariant firstChanged != -1 ==>
        forall j: nat | j < firstChanged || lastChanged < j < i :: LineAt(previous, j) == LineAt(next, j)
    {
      var oldLine := if i < |previous| then previous[i] else "";
      var newLine := if i < |next| then next[i] else "";
      assert oldLine == LineAt(previous, i) && newLine == LineAt(next, i);
      if oldLine != newLine {
        if firstChanged == -1 {
          firstChanged := i;
        }
        lastChanged := i;
      }
    }
    if |next| > |previous| {
      if firstChanged == -1 {
        firstChanged := |previous|;
      }
      lastChanged := |next| - 1;
    }
  }

  function ErasedTo(t: Term, startRow: nat, i: nat): nat {
    Max(0, Min(startRow + Max(i, 1), t.top + t.height - 1) + if i == 0 then 0 else 1)
  }

  /** `i` of the rows below `startRow` were cleared, as far as the screen has that many. */
  ghost predicate Erasing(t: Term, before: Term, startRow: nat, i: nat, at: nat) {
    var bottom := before.top + before.height - 1;
    var from := ErasedTo(before, startRow, 0);
    && Erased(t, before, from, ErasedTo(before, startRow, i))
    && t.row == Min(startRow + at, bottom) && t.col == 0
  }

  lemma EraseRound(t: Term, before: Term, startRow: nat, i: nat)
    requires Valid(before) && before.top <= startRow && Erasing(t, before, startRow, i, i + 1)
    ensures Erasing(Run(t, ClearLine()), before, startRow, i + 1, i + 1)
  {
    EraseHere(t, before, ErasedTo(before, startRow, 0), ErasedTo(before, startRow, i));
  }

  lemma EraseDown(t: Term, before: Term, startRow: nat, i: nat, at: nat)
    requires Valid(before) && before.top <= startRow && Erasing(t, before, startRow, i, at)
    ensures Erasing(Run(t, Moves(1)), before, startRow, i, at + 1)
  {
    MoveErased(t, before, ErasedTo(before, startRow, 0), ErasedTo(before, startRow, i), 1);
  }

  /** What clears the rows of `extraLines` deleted lines below the cursor and goes back up. */
  method EraseBuffer(start: seq<Op>, extraLines: nat, ghost before: Term, ghost startRow: nat)
    returns (buffer: seq<Op>)
    requires Valid(before) && extraLines > 0 && before.top <= startRow
    requires Erasing(Run(before, start), before, startRow, 0, 0)
    ensures var after := Run(before, buffer);
      && Erased(after, before, ErasedTo(before, startRow, 0), ErasedTo(before, startRow, extraLines))
      && after.row == Max(before.top, Min(startRow + extraLines, before.top + before.height - 1) - extraLines)
      && after.col == 0
  {
    EraseDown(Run(before, start), before, startRow, 0, 0);
    RunConcat(before, start, Moves(1));
    buffer := start + Moves(1);
    for i := 0 to extraLines
      invariant Erasing(Run(before, buffer), before, startRow, i, Min(i + 1, extraLines))
    {
      EraseRound(Run(before, buffer), before, startRow, i);
      RunConcat(before, buffer, ClearLine());
      buffer := buffer + ClearLine();
      if i < extraLines - 1 {
        EraseDown(Run(before, buffer), before, startRow, i + 1, i + 1);
        RunConcat(before, buffer, Moves(1));
        buffer := buffer + Moves(1);
      }
    }
    MoveErased(Run(before, buffer), before, ErasedTo(before, startRow, 0), ErasedTo(before, startRow, extraLines),
               0 - extraLines);
    RunConcat(before, buffer, Moves(0 - extraLines));
    buffer := buffer + Moves(0 - extraLines);
  }

  /** Move the cursor from line `from` to the start of line `first`, scrolling when it is below the screen. */
  method MoveBuffer(from: nat, viewportTop: nat, height: nat, first: nat, appendStart: bool)
    returns (buffer: seq<Op>, top: nat)
    requires viewportTop <= from < viewportTop + height && viewportTop <= first && (appendStart ==> viewportTop < first)
    ensures buffer == StartOps(from, viewportTop, height, first, appendStart)
    ensures top == Max(viewportTop, first + 1 - height - if appendStart then 1 else 0)
  {
    var prevViewportTop, hardwareCursorRow := viewportTop, from;
    buffer := [];
    var prevViewportBottom := prevViewportTop + height - 1;
    var moveTargetRow := if appendStart then first - 1 else first;
    if moveTargetRow > prevViewportBottom {
      var currentScreenRow := Max(0, Min(height - 1, hardwareCursorRow - prevViewportTop));
      var moveToBottom := height - 1 - currentScreenRow;
      buffer := buffer + Moves(moveToBottom);
      var scroll := moveTargetRow - prevViewportBottom;
      buffer := buffer + Feeds(scroll);
      prevViewportTop := prevViewportTop + scroll;
      hardwareCursorRow := moveTargetRow;
    }
    var lineDiff := moveTargetRow - hardwareCursorRow;
    buffer := buffer + Moves(lineDiff);
    assert buffer == ReachOps(from, viewportTop, height, moveTargetRow);
    buffer := buffer + if appendStart then NewLine() else [CarriageReturn];
    top := prevViewportTop;
  }

  /** A repaint of the changed lines leaves every line of the frame drawn, and the cursor on the last one written. */
  lemma ChangedDrawn(t: Term, base: nat, look: Look, previous: seq<string>, next: seq<string>,
                     first: nat, last: nat, from: nat, viewportTop: nat, appendStart: bool)
    requires Proper(look) && Valid(t) && Shows(t, base, look, previous, viewportTop) && t.row == base + from
    requires viewportTop <= from < viewportTop + t.height && viewportTop <= first < |next| && first <= last
    requires appendStart ==> viewportTop < first
    requires forall i: nat | i < first || i > last :: LineAt(previous, i) == LineAt(next, i)
    requires |next| > |previous| ==> last == |next| - 1
    ensures var renderEnd := Min(last, |next| - 1);
      var final := if |previous| > |next| then |next| - 1 else renderEnd;
      var r := Run(t, ChangedOps(look, previous, next, first, renderEnd, from, viewportTop,
                                 t.height, t.width, appendStart));
      && Drawn(r, base, look, previous, next, Max(viewportTop, final + 1 - t.height))
      && r.row == base + final && r.rows[..base] == t.rows[..base]
  {
    var renderEnd := Min(last, |next| - 1);
    var until := if |previous| > |next| then |previous| else renderEnd + 1;
    var final := if |previous| > |next| then |next| - 1 else renderEnd;
    var r := Run(t, ChangedOps(look, previous, next, first, renderEnd, from, viewportTop,
                               t.height, t.width, appendStart));
    ChangedPartly(t, base, look, previous, next, first, renderEnd, from, viewportTop, appendStart);
    assert |previous| <= viewportTop + t.height;
    hide Run, Partly, Valid, Shows, Proper, LineAt, ChangedOps, Drawn;
    PartlyDrawn(r, t.rows[..base], look, previous, next, first, until, viewportTop, final);
  }

  lemma PartlyDrawn(t: Term, saved: seq<Row>, look: Look, previous: seq<string>, next: seq<string>,
                    first: nat, until: nat, viewportTop: nat, at: nat)
    requires Partly(t, saved, look, previous, next, first, until, viewportTop, at) && Proper(look)
    requires forall i: nat | i < first || until <= i :: LineAt(previous, i) == LineAt(next, i)
    requires 0 < |next| <= Max(viewportTop, at + 1 - t.height) + t.height
    ensures Drawn(t, |saved|, look, previous, next, Max(viewportTop, at + 1 - t.height))
    ensures t.row == |saved| + at && t.rows[..|saved|] == saved
  {
    PaintedAll(t, saved, look, previous, next, first, until, viewportTop, at);
  }

  method ClearBelow(from: nat, to: nat) returns (buffer: seq<Op>)
    requires from <= to
    ensures buffer == EraseLinesOps(to - from)
  {
    buffer := [];
    for i := from to to
      invariant buffer == EraseLinesOps(i - from)
    {
      buffer := buffer + (NewLine() + [EraseLine]);
    }
  }

  /** The changed lines, and the rows of deleted ones. */
  method ChangedBuffer(look: Look, previous: seq<string>, next: seq<string>, first: nat, last: nat,
                       from: nat, viewportTop: nat, height: nat, width: nat, appendStart: bool)
    returns (buffer: seq<Op>, finalCursorRow: nat, top: nat)
    requires viewportTop <= from < viewportTop + height && viewportTop <= first < |next| && first <= last
    requires appendStart ==> viewportTop < first
    ensures buffer == ChangedOps(look, previous, next, first, Min(last, |next| - 1), from,
                                 viewportTop, height, width, appendStart)
    ensures finalCursorRow == if |previous| > |next| then |next| - 1 else Min(last, |next| - 1)
    ensures top == Max(viewportTop, first + 1 - height - if appendStart then 1 else 0)
  {
    hide StartOps, LinesOps, EraseLinesOps;
    buffer, top := MoveBuffer(from, viewportTop, height, first, appendStart);
    var renderEnd := Min(last, |next| - 1);
    var lines := PaintLines(look, previous, next, first, renderEnd + 1, width);
    buffer := buffer + lines;
    finalCursorRow := renderEnd;
    if |previous| > |next| {
      var tail: seq<Op> := [];
      if renderEnd < |next| - 1 {
        tail := Moves(|next| - 1 - renderEnd);
        finalCursorRow := |next| - 1;
      }
      var extraLines := |previous| - |next|;
      var erase := ClearBelow(|next|, |previous|);
      buffer := buffer + (tail + erase + Moves(-(extraLines as int)));
    }
  }

  lemma StartErasing(t: Term, diff: int)
    requires Valid(t) && t.top <= t.row + diff < t.top + t.height
    ensures Erasing(Run(t, Moves(diff) + [CarriageReturn]), t, (t.row + diff) as nat, 0, 0)
  {
    MovesTo(t, diff);
    RunSnoc(t, Moves(diff), CarriageReturn);
  }

  /** What clears deleted lines when no other line changed. */
  method DeletedBuffer(from: nat, targetRow: nat, extraLines: nat, ghost before: Term, ghost base: nat,
                       ghost look: Look, ghost previous: seq<string>, ghost next: seq<string>, ghost viewportTop: nat)
    returns (buffer: seq<Op>)
    requires Valid(before) && Proper(look) && Shows(before, base, look, previous, viewportTop)
    requires before.row == base + from && targetRow == Max(0, |next| - 1) && viewportTop <= targetRow
    requires |next| < |previous| && extraLines == |previous| - |next|
    requires forall i: nat | i < |next| :: LineAt(previous, i) == LineAt(next, i)
    ensures var after := Run(before, buffer);
      && Drawn(after, base, look, previous, next, viewportTop) && after.row == base + targetRow && after.col == 0
      && base <= |after.rows| && base <= |before.rows| && after.rows[..base] == before.rows[..base]
  {
    hide Run, Drawn, Valid, Proper, LineAt, Erased, Erasing, Moves;
    ShowsFits(before, base, look, previous, viewportTop);
    var lineDiff := targetRow - from;
    ghost var startRow := base + targetRow;
    assert before.top <= startRow < before.top + before.height;
    buffer := Moves(lineDiff) + [CarriageReturn];
    StartErasing(before, lineDiff);
    buffer := EraseBuffer(buffer, extraLines, before, startRow);
    DeletedDrawn(Run(before, buffer), before, base, look, previous, next, viewportTop);
    DrawnFits(Run(before, buffer), base, look, previous, next, viewportTop);
  }

  lemma DrawnFits(t: Term, base: nat, look: Look, previous: seq<string>, next: seq<string>, viewportTop: nat)
    requires Drawn(t, base, look, previous, next, viewportTop)
    ensures |next| <= viewportTop + t.height && base <= |t.rows| && t.top == base + viewportTop
  {}

  lemma OnScreen(t: Term, base: nat, look: Look, lines: seq<string>, viewportTop: nat)
    requires Valid(t) && Shows(t, base, look, lines, viewportTop)
    ensures t.width > 0 && t.height > 0 && t.top == base + viewportTop
    ensures t.top <= t.row < t.top + t.height && |lines| <= viewportTop + t.height && base <= |t.rows|
  {}

  /** The last line of the bottom `height` ones that holds the cursor marker, and where in it. */
  function MarkerOf(look: Look, lines: seq<string>, height: nat, below: nat): Option<CursorPos>
    requires below <= |lines|
  {
    if below == 0 || below as int <= |lines| - height then None
    else if IndexOf(lines[below - 1], CURSOR_MARKER) != -1 then
      var at := IndexOf(lines[below - 1], CURSOR_MARKER);
      Some(CursorPos(below - 1, |look(lines[below - 1][..at])|, at))
    else MarkerOf(look, lines, height, below - 1)
  }

  method FindCursorMarker(look: Look, lines: seq<string>, height: nat) returns (cursor: Option<CursorPos>)
    ensures cursor == MarkerOf(look, lines, height, |lines|)
    ensures cursor.Some? ==>
      cursor.value.row < |lines| && OccursAt(lines[cursor.value.row], CURSOR_MARKER, cursor.value.markerIndex)
    ensures cursor.Some? ==> forall i | cursor.value.row < i < |lines| :: !Occurs(lines[i], CURSOR_MARKER)
    ensures cursor.None? ==> forall i | Max(0, |lines| - height) <= i < |lines| :: !Occurs(lines[i], CURSOR_MARKER)
  {
    var viewportTop := Max(0, |lines| - height);
    var row := |lines|;
    while row > viewportTop
      invariant viewportTop <= row <= |lines|
      invariant MarkerOf(look, lines, height, row) == MarkerOf(look, lines, height, |lines|)
      invariant forall i | row <= i < |lines| :: !Occurs(lines[i], CURSOR_MARKER)
    {
      row := row - 1;
      var line := lines[row];
      var markerIndex := IndexOf(line, CURSOR_MARKER);
      if markerIndex != -1 {
        return Some(CursorPos(row, |look(line[..markerIndex])|, markerIndex));
      }
    }
    return None;
  }

  function Stripped(line: string, at: nat): string {
    if at + |CURSOR_MARKER| <= |line| then line[..at] + line[at + |CURSOR_MARKER|..] else line
  }

  /** The lines as they are written: without the marker, normalized, each closed by a style reset. */
  function WithResets(normalize: string -> string, lines: seq<string>, cursor: Option<CursorPos>): (r: seq<string>)
    ensures |r| == |lines|
  {
    seq(|lines|, i requires 0 <= i < |lines| =>
      normalize(if cursor.Some? && cursor.value.row == i then Stripped(lines[i], cursor.value.markerIndex)
                else lines[i])
      + SEGMENT_RESET)
  }

  /** The last marked line of the bottom `height` ones is `row`; its first marker stands between `pre` and `post`. */
  ghost predicate MarkedAt(frame: seq<string>, height: nat, row: nat, pre: string, post: string) {
    && row < |frame| && row as int >= |frame| - height && frame[row] == pre + CURSOR_MARKER + post
    && (forall k | 0 <= k < |pre| :: !OccursAt(frame[row], CURSOR_MARKER, k))
    && forall i | row < i < |frame| :: !Occurs(frame[i], CURSOR_MARKER)
  }

  ghost predicate Unmarked(frame: seq<string>, height: nat) {
    forall i | Max(0, |frame| - height) <= i < |frame| :: !Occurs(frame[i], CURSOR_MARKER)
  }

  /** The lines as they are written: each is normalized and reset, and only the marked one lacks its marker. */
  ghost predicate WrittenLines(normalize: string -> string, frame: seq<string>, height: nat, lines: seq<string>) {
    && |lines| == |frame|
    && (forall row: nat, pre, post | MarkedAt(frame, height, row, pre, post) ::
          && lines[row] == normalize(pre + post) + SEGMENT_RESET
          && forall i | 0 <= i < |frame| && i != row :: lines[i] == normalize(frame[i]) + SEGMENT_RESET)
    && (Unmarked(frame, height) ==> forall i | 0 <= i < |frame| :: lines[i] == normalize(frame[i]) + SEGMENT_RESET)
  }

  /** The cursor is asked for where the text ahead of the marker ends. */
  ghost predicate AsksCursor(look: Look, frame: seq<string>, height: nat, cursor: Option<CursorPos>) {
    && (forall row: nat, pre, post | MarkedAt(frame, height, row, pre, post) ::
          cursor == Some(CursorPos(row, |look(pre)|, |pre|)))
    && (Unmarked(frame, height) ==> cursor == None)
  }

  lemma FirstOccurrence(s: string, pattern: string, pre: string, post: string)
    requires s == pre + pattern + post && forall k | 0 <= k < |pre| :: !OccursAt(s, pattern, k)
    ensures IndexOf(s, pattern) == |pre|
  {
    assert s[|pre|..|pre| + |pattern|] == pattern;
    assert OccursAt(s, pattern, |pre|);
  }

  lemma {:induction false} MarkerFound(look: Look, frame: seq<string>, height: nat, below: nat, row: nat,
                                       pre: string, post: string)
    requires MarkedAt(frame, height, row, pre, post) && row < below <= |frame|
    ensures MarkerOf(look, frame, height, below) == Some(CursorPos(row, |look(pre)|, |pre|))
  {
    hide CURSOR_MARKER;
    if below - 1 == row {
      FirstOccurrence(frame[row], CURSOR_MARKER, pre, post);
      assert frame[row][..|pre|] == pre;
    } else {
      MarkerFound(look, frame, height, below - 1, row, pre, post);
    }
  }

  lemma {:induction false} NoMarkerFound(look: Look, frame: seq<string>, height: nat, below: nat)
    requires Unmarked(frame, height) && below <= |frame|
    ensures MarkerOf(look, frame, height, below) == None
  {
    hide CURSOR_MARKER;
    if below > 0 && below as int > |frame| - height {
      NoMarkerFound(look, frame, height, below - 1);
    }
  }

  lemma LinesWritten(look: Look, normalize: string -> string, frame: seq<string>, height: nat)
    ensures var cursor := MarkerOf(look, frame, height, |frame|);
      AsksCursor(look, frame, height, cursor)
      && WrittenLines(normalize, frame, height, WithResets(normalize, frame, cursor))
  {
    hide CURSOR_MARKER, SEGMENT_RESET, MarkerOf, MarkedAt, Unmarked;
    var lines := WithResets(normalize, frame, MarkerOf(look, frame, height, |frame|));
    forall row: nat, pre, post | MarkedAt(frame, height, row, pre, post)
      ensures MarkerOf(look, frame, height, |frame|) == Some(CursorPos(row, |look(pre)|, |pre|))
      ensures row < |frame| && lines[row] == normalize(pre + post) + SEGMENT_RESET
      ensures forall i | 0 <= i < |frame| && i != row :: lines[i] == normalize(frame[i]) + SEGMENT_RESET
    {
      MarkedLine(frame, height, row, pre, post);
      MarkerFound(look, frame, height, |frame|, row, pre, post);
    }
    if Unmarked(frame, height) {
      NoMarkerFound(look, frame, height, |frame|);
    }
  }

  lemma MarkedLine(frame: seq<string>, height: nat, row: nat, pre: string, post: string)
    requires MarkedAt(frame, height, row, pre, post)
    ensures row < |frame| && Stripped(frame[row], |pre|) == pre + post
  {
    hide CURSOR_MARKER;
    assert frame[row][..|pre|] == pre && frame[row][|pre| + |CURSOR_MARKER|..] == post;
  }

  /** Every frame is one or the other. */
  lemma MarkedOrNot(frame: seq<string>, height: nat)
    ensures Unmarked(frame, height) <==> !exists row: nat, pre, post :: MarkedAt(frame, height, row, pre, post)
  {
    hide CURSOR_MARKER;
    if !Unmarked(frame, height) {
      var row := LastMarked(frame, height, |frame|);
      var at := IndexOf(frame[row], CURSOR_MARKER);
      var line := frame[row];
      assert line == line[..at] + CURSOR_MARKER + line[at + |CURSOR_MARKER|..];
      assert MarkedAt(frame, height, row, line[..at], line[at + |CURSOR_MARKER|..]);
    }
    forall row: nat, pre, post | MarkedAt(frame, height, row, pre, post)
      ensures !Unmarked(frame, height)
    {
      FirstOccurrence(frame[row], CURSOR_MARKER, pre, post);
    }
  }

  lemma {:induction false} LastMarked(frame: seq<string>, height: nat, below: nat) returns (row: nat)
    requires below <= |frame| && forall i | below <= i < |frame| :: !Occurs(frame[i], CURSOR_MARKER)
    requires exists i | Max(0, |frame| - height) <= i < below :: Occurs(frame[i], CURSOR_MARKER)
    ensures row < |frame| && row as int >= |frame| - height && Occurs(frame[row], CURSOR_MARKER)
    ensures forall i | row < i < |frame| :: !Occurs(frame[i], CURSOR_MARKER)
  {
    hide CURSOR_MARKER, Occurs;
    if Occurs(frame[below - 1], CURSOR_MARKER) {
      row := below - 1;
    } else {
      row := LastMarked(frame, height, below - 1);
    }
  }

  method ApplyLineResets(normalize: string -> string, lines: seq<string>, cursor: Option<CursorPos>)
    returns (result: seq<string>)
    ensures result == WithResets(normalize, lines, cursor)
  {
    result := [];
    for i := 0 to |lines|
      invariant result == WithResets(normalize, lines, cursor)[..i]
    {
      var line := lines[i];
      var stripped := if cursor.Some? && i == cursor.value.row then Stripped(line, cursor.value.markerIndex) else line;
      result := result + [normalize(stripped) + SEGMENT_RESET];
    }
  }

  lemma UnchangedDrawn(t: Term, base: nat, look: Look, previous: seq<string>, next: seq<string>, viewportTop: nat)
    requires Valid(t) && Proper(look) && Shows(t, base, look, previous, viewportTop)
    requires |next| <= |previous| && forall i: nat :: LineAt(previous, i) == LineAt(next, i)
    ensures Drawn(t, base, look, previous, next, viewportTop) && Shows(t, base, look, next, viewportTop)
  {
    forall i | 0 <= i < viewportTop + t.height
      ensures DrawnRow(look, previous, next, i, t.width, t.height) == FrameRow(look, previous, i, t.width)
    {
      RepaintSame(look(LineAt(previous, i)), t.width);
    }
    forall i | 0 <= i < viewportTop + t.height
      ensures t.rows[base + i] == FrameRow(look, next, i, t.width)
    {
      assert t.rows[base + i] == FrameRow(look, previous, i, t.width);
    }
  }

  /** Every line ends in a reset, so none is empty. */
  ghost predicate Written(lines: seq<string>) {
    forall i | 0 <= i < |lines| :: lines[i] != ""
  }

  lemma SameLength(previous: seq<string>, next: seq<string>)
    requires Written(previous) && |next| <= |previous| && forall i: nat :: LineAt(previous, i) == LineAt(next, i)
    ensures |previous| == |next| && previous == next
  {
    assert LineAt(next, |next|) == "";
    forall i | 0 <= i < |next|
      ensures previous[i] == next[i]
    {
      assert LineAt(previous, i) == LineAt(next, i);
    }
  }

  lemma ResetsWritten(normalize: string -> string, lines: seq<string>, cursor: Option<CursorPos>)
    ensures Written(WithResets(normalize, lines, cursor))
  {}

  /** A line above the screen changed, or the frame now ends above the screen. */
  ghost predicate OutOfReach(previous: seq<string>, next: seq<string>, viewportTop: nat) {
    || (exists i: nat | i < viewportTop :: LineAt(previous, i) != LineAt(next, i))
    || (|next| <= viewportTop && viewportTop > 0
        && exists i: nat | i < |previous| :: LineAt(previous, i) != LineAt(next, i))
  }

  lemma ReachDecided(previous: seq<string>, next: seq<string>, viewportTop: nat, firstChanged: int, lastChanged: int)
    requires viewportTop < |previous|
    requires firstChanged == -1 <==> |next| <= |previous| && forall i: nat :: LineAt(previous, i) == LineAt(next, i)
    requires firstChanged != -1 ==> 0 <= firstChanged
    requires firstChanged != -1 ==>
      forall i: nat | i < firstChanged || i > lastChanged :: LineAt(previous, i) == LineAt(next, i)
    requires firstChanged != -1 ==>
      firstChanged == |previous| || LineAt(previous, firstChanged) != LineAt(next, firstChanged)
    ensures OutOfReach(previous, next, viewportTop) <==>
      firstChanged != -1 &&
      if firstChanged >= |next| then Max(0, |next| - 1) < viewportTop else firstChanged < viewportTop
  {}

  // ---- Runs of frames ----

  /**
   One step of a run: perhaps a redraw is asked for, perhaps the terminal was resized, to any contents, and then a frame
   is drawn, perhaps with overlays open.
   */
  datatype FrameStep = FrameStep(redraw: Option<ClearMode>, resized: Option<Term>, overlays: bool, frame: seq<string>)

  /** How lines are drawn and normalized, and whether a frame that has become shorter is redrawn. */
  datatype Setup = Setup(look: Look, normalize: string -> string, clearOnShrink: bool)

  /** What decides how the next frame is drawn: the size of the terminal, and what is kept of the frames so far. */
  datatype Picture = Picture(width: nat, height: nat, lines: seq<string>, top: nat, most: nat, drawn: bool)

  /** Nothing is on the screen, and the cursor is at its start. */
  ghost predicate BlankScreen(t: Term) {
    t.row == t.top && t.col == 0 && forall i | t.top <= i < |t.rows| :: t.rows[i] == Blanks(t.width)
  }

  /** A resize is to a different size, or to a blank screen before the first frame, or comes with a redraw. */
  ghost predicate Possible(p: Picture, step: FrameStep) {
    step.resized.Some? ==>
      var t := step.resized.value;
      && Valid(t)
      && (step.redraw.None? ==> if p.drawn then t.width != p.width || t.height != p.height else BlankScreen(t))
  }

  /** The frame is redrawn whatever it is. */
  predicate Forced(p: Picture, step: FrameStep) {
    step.redraw.Some? || (p.drawn && step.resized.Some?)
  }

  function Prepared(p: Picture, step: FrameStep): Picture {
    var q := if step.redraw.Some? then p.(lines := [], top := 0, most := 0) else p;
    if step.resized.Some? then q.(width := step.resized.value.width, height := step.resized.value.height) else q
  }

  function StepCursor(s: Setup, p: Picture, step: FrameStep): Option<CursorPos> {
    MarkerOf(s.look, step.frame, Prepared(p, step).height, |step.frame|)
  }

  function StepLines(s: Setup, p: Picture, step: FrameStep): seq<string> {
    WithResets(s.normalize, step.frame, StepCursor(s, p, step))
  }

  ghost predicate Redraws(s: Setup, p: Picture, step: FrameStep) {
    var q, next := Prepared(p, step), StepLines(s, p, step);
    || Forced(p, step)
    || q.lines == []
    || (s.clearOnShrink && |next| < q.most && !step.overlays)
    || OutOfReach(q.lines, next, q.top)
  }

  ghost function NextPicture(s: Setup, p: Picture, step: FrameStep): Picture {
    var q, next, redraws := Prepared(p, step), StepLines(s, p, step), Redraws(s, p, step);
    var top := Max(if redraws then 0 else q.top, |next| - q.height);
    var most := if redraws && (Forced(p, step) || q.lines != []) then |next| else Max(q.most, |next|);
    Picture(q.width, q.height, next, top, most, true)
  }

  /** The frame is redrawn, or repainting it leaves nothing of the one before behind. */
  ghost predicate Shown(s: Setup, p: Picture, step: FrameStep) {
    var q := Prepared(p, step);
    Redraws(s, p, step) || !LeavesBehind(s.look, q.lines, StepLines(s, p, step), q.width, q.height)
  }

  /** Moreover its marker, if it has one, is not above what the screen is scrolled to. */
  ghost predicate GoodStep(s: Setup, p: Picture, step: FrameStep) {
    var cursor := StepCursor(s, p, step);
    Shown(s, p, step) && (cursor.Some? ==> cursor.value.row >= NextPicture(s, p, step).top)
  }

  /** The picture after a run. */
  ghost function PictureAt(s: Setup, p: Picture, steps: seq<FrameStep>): Picture {
    if steps == [] then p
    else NextPicture(s, PictureAt(s, p, steps[..|steps| - 1]), steps[|steps| - 1])
  }

  /** A run in which every resize is possible, and the step after one that is not good redraws the frame. */
  ghost predicate Playable(s: Setup, p: Picture, steps: seq<FrameStep>) {
    && (forall i | 0 <= i < |steps| :: Possible(PictureAt(s, p, steps[..i]), steps[i]))
    && (forall i | 0 < i < |steps| ::
          GoodStep(s, PictureAt(s, p, steps[..i - 1]), steps[i - 1]) || Forced(PictureAt(s, p, steps[..i]), steps[i]))
  }

  /** What there is to see after a step, and whether the renderer is in step with it. */
  datatype Sight = Sight(state: Term, base: nat, inStep: bool)

  /** The frame is shown, and the renderer in step with the terminal, exactly when the step's conditions hold. */
  ghost predicate Saw(s: Setup, p: Picture, step: FrameStep, sight: Sight) {
    && (Shows(sight.state, sight.base, s.look, StepLines(s, p, step), NextPicture(s, p, step).top)
        <==> Shown(s, p, step))
    && (sight.inStep <==> GoodStep(s, p, step))
  }

  /** When step `i` is taken the renderer is in step with the terminal, or it redraws. */
  lemma PlayableNext(s: Setup, p: Picture, steps: seq<FrameStep>, i: nat, before: Sight)
    requires i < |steps| && Playable(s, p, steps)
    requires i > 0 ==> Saw(s, PictureAt(s, p, steps[..i - 1]), steps[i - 1], before)
    ensures Possible(PictureAt(s, p, steps[..i]), steps[i])
    ensures i > 0 ==> before.inStep || Forced(PictureAt(s, p, steps[..i]), steps[i])
  {}

  lemma PictureNext(s: Setup, p: Picture, steps: seq<FrameStep>, i: nat)
    requires i < |steps|
    ensures PictureAt(s, p, steps[..i + 1]) == NextPicture(s, PictureAt(s, p, steps[..i]), steps[i])
  {
    assert steps[..i + 1][..i] == steps[..i];
  }

  /** A redrawn frame is always good: its marker is among its bottom lines, and the screen is scrolled to just those. */
  lemma RedrawnIsGood(s: Setup, p: Picture, step: FrameStep)
    requires Redraws(s, p, step)
    ensures GoodStep(s, p, step)
  {
    hide OutOfReach, LeavesBehind;
    MarkerLow(s.look, step.frame, Prepared(p, step).height, |step.frame|);
  }

  /** A frame that is not empty, and of which no line is cut within a glyph, leaves nothing behind. */
  lemma UncutLeavesNothing(look: Look, previous: seq<string>, next: seq<string>, width: nat, height: nat)
    requires next != [] && forall i | 0 <= i < |next| :: !Cut(look(next[i]), width)
    ensures !LeavesBehind(look, previous, next, width, height)
  {}

  /** So such a frame is good unless its marker is above what the screen had scrolled to before. */
  lemma UncutIsGood(s: Setup, p: Picture, step: FrameStep)
    requires step.frame != []
    requires forall i | 0 <= i < |step.frame| :: !Cut(s.look(StepLines(s, p, step)[i]), Prepared(p, step).width)
    requires var cursor := StepCursor(s, p, step); cursor.Some? ==> cursor.value.row >= Prepared(p, step).top
    ensures GoodStep(s, p, step)
  {
    hide OutOfReach, LeavesBehind, Cut;
    var q := Prepared(p, step);
    MarkerLow(s.look, step.frame, q.height, |step.frame|);
    UncutLeavesNothing(s.look, q.lines, StepLines(s, p, step), q.width, q.height);
  }

  /** A marker among the bottom lines is not above what those lines scroll to. */
  lemma {:induction false} MarkerLow(look: Look, lines: seq<string>, height: nat, below: nat)
    requires below <= |lines|
    ensures var cursor := MarkerOf(look, lines, height, below);
      cursor.Some? ==> |lines| - height <= cursor.value.row < |lines|
  {
    if below > 0 && below - 1 >= |lines| - height {
      MarkerLow(look, lines, height, below - 1);
    }
  }

  class Tui {
    const look: Look
    const normalize: string -> string
    const screen: Screen
    var previousLines: seq<string>
    var previousWidth: int
    var previousHeight: int
    var previousViewportTop: nat
    var hardwareCursorRow: nat
    var maxLinesRendered: nat
    var fullRedrawCount: nat
    var pendingFullRedrawClearMode: Option<ClearMode>
    var clearOnShrink: bool
    var overlays: bool
    /** How many saved lines stand above the first line of the frame. */
    ghost var base: nat

    constructor (look: Look, normalize: string -> string, screen: Screen, clearOnShrink: bool)
      requires Proper(look) && Valid(screen.state)
      requires BlankScreen(screen.state)
      ensures InSync() && this.screen == screen && this.look == look && this.normalize == normalize
      ensures Matches(Picture(screen.state.width, screen.state.height, [], 0, 0, false))
      ensures previousLines == [] && !SizeChanged() && this.clearOnShrink == clearOnShrink
    {
      this.look := look;
      this.normalize := normalize;
      this.screen := screen;
      this.clearOnShrink := clearOnShrink;
      previousLines, previousWidth, previousHeight, previousViewportTop := [], 0, 0, 0;
      hardwareCursorRow, maxLinesRendered, fullRedrawCount := 0, 0, 0;
      pendingFullRedrawClearMode, overlays := None, false;
      base := screen.state.top;
      new;
      EmptyRow(screen.state.width);
    }

    /** The terminal was resized, or a full redraw was asked for, since the last frame. */
    ghost predicate SizeChanged()
      reads this, screen
    {
      || (previousWidth != 0 && previousWidth != screen.state.width)
      || (previousHeight != 0 && previousHeight != screen.state.height)
    }

    /** What the renderer keeps about the terminal is true of it. */
    ghost predicate InSync()
      reads this, screen
    {
      && Proper(look) && Valid(screen.state)
      && Shows(screen.state, base, look, previousLines, previousViewportTop)
      && screen.state.row == base + hardwareCursorRow
      && !SizeChanged() && Written(previousLines) && |previousLines| <= maxLinesRendered
      && (if previousLines == [] then previousViewportTop == 0 && hardwareCursorRow == 0 && screen.state.col == 0
          else previousViewportTop < |previousLines| && previousWidth != 0 && previousHeight != 0)
    }

    ghost predicate Matches(p: Picture)
      reads this, screen
    {
      && p == Picture(screen.state.width, screen.state.height, previousLines, previousViewportTop, maxLinesRendered,
                      p.drawn)
      && (p.drawn <==> previousWidth != 0) && (p.drawn <==> previousHeight != 0) && !SizeChanged()
    }

    /** The frame `next` cannot be drawn by repainting rows of the screen. */
    ghost predicate MustRedraw(next: seq<string>)
      reads this, screen
    {
      || previousLines == []
      || SizeChanged()
      || (clearOnShrink && |next| < maxLinesRendered && !overlays)
      || OutOfReach(previousLines, next, previousViewportTop)
    }

    /** The cursor is where `cursor` asks, or on the screen row nearest to it. */
    ghost predicate CursorPlaced(cursor: Option<CursorPos>, total: nat)
      reads this, screen
    {
      && hardwareCursorRow < previousViewportTop + screen.state.height
      && screen.state.row == base + Max(previousViewportTop, hardwareCursorRow)
      && (cursor.None? || total == 0 ==> hardwareCursorRow >= previousViewportTop)
      && (cursor.Some? && total > 0 ==>
            && hardwareCursorRow == Min(cursor.value.row, total - 1)
            && screen.state.col == Min(cursor.value.col, screen.state.width - 1))
    }

    method PositionHardwareCursor(cursor: Option<CursorPos>, total: nat)
      requires Valid(screen.state) && screen.state.top == base + previousViewportTop
      requires screen.state.row == base + hardwareCursorRow
      requires total <= previousViewportTop + screen.state.height
      modifies this`hardwareCursorRow, screen
      ensures Valid(screen.state)
      ensures screen.state == old(screen.state).(row := screen.state.row, col := screen.state.col)
      ensures cursor.None? || total == 0 ==>
        screen.state == old(screen.state) && hardwareCursorRow == old(hardwareCursorRow)
      ensures CursorPlaced(cursor, total)
    {
      if cursor.None? || total <= 0 {
        return;
      }
      var targetRow := Max(0, Min(cursor.value.row, total - 1));
      var targetCol := Max(0, cursor.value.col);
      var rowDelta := targetRow - hardwareCursorRow;
      var buffer := Moves(rowDelta);
      MovesTo(screen.state, rowDelta);
      RunSnoc(screen.state, buffer, Column(targetCol + 1));
      buffer := buffer + [Column(targetCol + 1)];
      screen.Write(buffer);
      hardwareCursorRow := targetRow;
    }

    /** Clear the screen if asked to, and print every line. */
    method PrintFrame(newLines: seq<string>, clear: bool, mode: Option<ClearMode>)
      requires Proper(look) && Valid(screen.state)
      requires !clear ==> InSync() && previousLines == []
      modifies `previousViewportTop, `hardwareCursorRow, `base, screen
      ensures screen.state.width == old(screen.state.width) && screen.state.height == old(screen.state.height)
      ensures Valid(screen.state) && Shows(screen.state, base, look, newLines, previousViewportTop)
      ensures base == (if clear && mode != Some(Viewport) then 0 else old(screen.state.top))
      ensures base <= |old(screen.state.rows)| && screen.state.rows[..base] == old(screen.state.rows)[..base]
      ensures previousViewportTop == Max(0, |newLines| - screen.state.height)
      ensures hardwareCursorRow == Max(0, |newLines| - 1) && screen.state.row == base + hardwareCursorRow
      ensures newLines == [] ==> screen.state.col == 0
    {
      var width, height := screen.state.width, screen.state.height;
      var buffer := FullBuffer(look, newLines, width, clear, mode == Some(Viewport), screen.state);
      base := if clear && mode != Some(Viewport) then 0 else screen.state.top;
      screen.Write(buffer);
      hardwareCursorRow := Max(0, |newLines| - 1);
      var bufferLength := Max(height, |newLines|);
      previousViewportTop := Max(0, bufferLength - height);
    }

    /** Redraw everything, and believe only what was just drawn. */
    method FullRender(newLines: seq<string>, clear: bool, mode: Option<ClearMode>, cursor: Option<CursorPos>)
      requires Proper(look) && Valid(screen.state)
      requires !clear ==> InSync() && previousLines == []
      modifies `previousLines, `previousWidth, `previousHeight, `previousViewportTop, `hardwareCursorRow,
        `maxLinesRendered, `fullRedrawCount, `base, screen
      ensures screen.state.width == old(screen.state.width) && screen.state.height == old(screen.state.height)
      ensures Valid(screen.state) && Shows(screen.state, base, look, newLines, previousViewportTop)
      ensures previousLines == newLines
      ensures previousWidth == screen.state.width > 0 && previousHeight == screen.state.height > 0
      ensures base == (if clear && mode != Some(Viewport) then 0 else old(screen.state.top))
      ensures base <= |screen.state.rows| && (newLines != [] ==> previousViewportTop < |newLines|)
      ensures base <= |old(screen.state.rows)| && screen.state.rows[..base] == old(screen.state.rows)[..base]
      ensures CursorPlaced(cursor, |newLines|)
      ensures screen.state.row == base + hardwareCursorRow <==> hardwareCursorRow >= previousViewportTop
      ensures newLines == [] ==> screen.state.col == 0 && hardwareCursorRow == 0
      ensures fullRedrawCount == old(fullRedrawCount) + 1
      ensures previousViewportTop == Max(0, |newLines| - screen.state.height)
      ensures maxLinesRendered == if clear then |newLines| else Max(old(maxLinesRendered), |newLines|)
    {
      hide Run, Shows, Valid, Proper, Drawn, Written;
      fullRedrawCount := fullRedrawCount + 1;
      PrintFrame(newLines, clear, mode);
      maxLinesRendered := if clear then |newLines| else Max(maxLinesRendered, |newLines|);
      previousLines := newLines;
      previousWidth, previousHeight := screen.state.width, screen.state.height;
      ghost var drawn := screen.state;
      OnScreen(drawn, base, look, newLines, previousViewportTop);
      PositionHardwareCursor(cursor, |newLines|);
      CursorOnly(drawn, screen.state, base, look, [], newLines, previousViewportTop);
    }

    /** Once a difference is drawn only the cursor moves. */
    method PlaceCursor(cursor: Option<CursorPos>, ghost previous: seq<string>, newLines: seq<string>)
      requires Valid(screen.state) && Drawn(screen.state, base, look, previous, newLines, previousViewportTop)
      requires screen.state.row == base + hardwareCursorRow
      modifies `hardwareCursorRow, screen
      ensures Valid(screen.state) && Drawn(screen.state, base, look, previous, newLines, previousViewportTop)
      ensures screen.state == old(screen.state).(row := screen.state.row, col := screen.state.col)
      ensures cursor.None? || newLines == [] ==>
        screen.state == old(screen.state) && hardwareCursorRow == old(hardwareCursorRow)
      ensures |newLines| <= previousViewportTop + screen.state.height && base <= |screen.state.rows|
      ensures CursorPlaced(cursor, |newLines|)
    {
      hide Run, Drawn, Shows, Valid, Proper;
      ghost var drawn := screen.state;
      DrawnFits(drawn, base, look, previous, newLines, previousViewportTop);
      PositionHardwareCursor(cursor, |newLines|);
      CursorOnly(drawn, screen.state, base, look, previous, newLines, previousViewportTop);
    }

    /** All changes are in deleted lines: nothing to paint, just rows to clear. */
    method DrawDeleted(newLines: seq<string>, cursor: Option<CursorPos>)
      requires InSync() && |newLines| < |previousLines|
      requires previousViewportTop <= Max(0, |newLines| - 1)
      requires forall i: nat | i < |newLines| :: LineAt(previousLines, i) == LineAt(newLines, i)
      modifies `previousLines, `hardwareCursorRow, screen
      ensures screen.state.width == old(screen.state.width) && screen.state.height == old(screen.state.height)
      ensures Valid(screen.state) && previousLines == newLines
      ensures |newLines| <= previousViewportTop + screen.state.height
      ensures Drawn(screen.state, base, look, old(previousLines), newLines, previousViewportTop)
      ensures base <= |old(screen.state.rows)| && base <= |screen.state.rows|
      ensures screen.state.rows[..base] == old(screen.state.rows)[..base]
      ensures CursorPlaced(cursor, |newLines|)
      ensures screen.state.row == base + hardwareCursorRow <==> hardwareCursorRow >= previousViewportTop
      ensures newLines == [] ==> screen.state.col == 0 && hardwareCursorRow == 0 && previousViewportTop == 0
    {
      var targetRow := Max(0, |newLines| - 1);
      var extraLines := |previousLines| - |newLines|;
      var buffer := DeletedBuffer(hardwareCursorRow, targetRow, extraLines, screen.state, base, look,
                                  previousLines, newLines, previousViewportTop);
      ghost var previous := previousLines;
      screen.Write(buffer);
      hardwareCursorRow := targetRow;
      PlaceCursor(cursor, previous, newLines);
      previousLines := newLines;
    }

    /** Repaint the changed lines, and clear the rows of deleted ones. */
    method DrawChanged(newLines: seq<string>, cursor: Option<CursorPos>, firstChanged: nat, lastChanged: nat)
      requires InSync() && previousLines != [] && previousViewportTop <= firstChanged < |newLines|
      requires firstChanged <= lastChanged
      requires forall i: nat | i < firstChanged || i > lastChanged :: LineAt(previousLines, i) == LineAt(newLines, i)
      requires |newLines| > |previousLines| ==> lastChanged == |newLines| - 1
      modifies `previousLines, `previousViewportTop, `hardwareCursorRow, `maxLinesRendered, screen
      ensures screen.state.width == old(screen.state.width) && screen.state.height == old(screen.state.height)
      ensures Valid(screen.state) && previousLines == newLines
      ensures previousViewportTop == Max(old(previousViewportTop), |newLines| - screen.state.height)
      ensures Drawn(screen.state, base, look, old(previousLines), newLines, previousViewportTop)
      ensures base <= |old(screen.state.rows)| && base <= |screen.state.rows|
      ensures screen.state.rows[..base] == old(screen.state.rows)[..base]
      ensures CursorPlaced(cursor, |newLines|) && previousViewportTop < |newLines|
      ensures screen.state.row == base + hardwareCursorRow <==> hardwareCursorRow >= previousViewportTop
      ensures maxLinesRendered == Max(old(maxLinesRendered), |newLines|)
    {
      hide Run, Drawn, Shows, Valid, Proper, LineAt, ChangedOps, Written;
      var width, height := screen.state.width, screen.state.height;
      ghost var before := screen.state;
      ghost var previous := previousLines;
      OnScreen(before, base, look, previous, previousViewportTop);
      var appendStart := |newLines| > |previousLines| && firstChanged == |previousLines| && firstChanged > 0;
      ChangedDrawn(before, base, look, previousLines, newLines, firstChanged, lastChanged, hardwareCursorRow,
                   previousViewportTop, appendStart);
      var buffer, finalCursorRow, top := ChangedBuffer(look, previousLines, newLines, firstChanged, lastChanged,
        hardwareCursorRow, previousViewportTop, height, width, appendStart);
      screen.Write(buffer);
      hardwareCursorRow := finalCursorRow;
      maxLinesRendered := Max(maxLinesRendered, |newLines|);
      previousViewportTop := Max(top, finalCursorRow as int - height + 1);
      PlaceCursor(cursor, previous, newLines);
      previousLines := newLines;
    }

    /** What a frame leaves of the terminal above it, and where it puts the cursor. */
    twostate predicate Framed(cursor: Option<CursorPos>, newLines: seq<string>)
      reads this, screen
    {
      && Valid(screen.state)
      && screen.state.width == old(screen.state.width) && screen.state.height == old(screen.state.height)
      && base <= |old(screen.state.rows)| && base <= |screen.state.rows|
      && screen.state.rows[..base] == old(screen.state.rows)[..base]
      && previousLines == newLines && (newLines != [] ==> previousViewportTop < |newLines|)
      && CursorPlaced(cursor, |newLines|)
      && previousWidth != 0 && previousHeight != 0 && !SizeChanged()
      && (InSync() <==>
            Shows(screen.state, base, look, newLines, previousViewportTop) && hardwareCursorRow >= previousViewportTop)
    }

    /** No line changed: only the cursor may have to move. */
    method KeepFrame(newLines: seq<string>, cursor: Option<CursorPos>)
      requires InSync() && previousLines != [] && |newLines| <= |previousLines| && Written(newLines)
      requires forall i: nat :: LineAt(previousLines, i) == LineAt(newLines, i)
      modifies `previousHeight, `hardwareCursorRow, screen
      ensures Framed(cursor, newLines) && |newLines| <= previousViewportTop + screen.state.height
      ensures Drawn(screen.state, base, look, previousLines, newLines, previousViewportTop)
    {
      hide Run, Drawn, Shows, Valid, Proper, LineAt, Written;
      ghost var before := screen.state;
      OnScreen(before, base, look, previousLines, previousViewportTop);
      SameLength(previousLines, newLines);
      UnchangedDrawn(before, base, look, previousLines, newLines, previousViewportTop);
      PositionHardwareCursor(cursor, |newLines|);
      CursorOnly(before, screen.state, base, look, previousLines, newLines, previousViewportTop);
      CursorOnly(before, screen.state, base, look, newLines, previousLines, previousViewportTop);
      previousHeight := screen.state.height;
    }

    /** Compare with the previous frame and write the difference, if the screen reaches up to its first line. */
    method DrawDifference(newLines: seq<string>, mode: Option<ClearMode>, cursor: Option<CursorPos>)
      requires Written(newLines)
      requires InSync() && previousLines != [] && !(clearOnShrink && |newLines| < maxLinesRendered && !overlays)
      modifies `previousLines, `previousWidth, `previousHeight, `previousViewportTop, `hardwareCursorRow,
        `maxLinesRendered, `fullRedrawCount, `base, screen
      ensures Framed(cursor, newLines)
      ensures fullRedrawCount == old(fullRedrawCount) + if old(MustRedraw(newLines)) then 1 else 0
      ensures previousViewportTop ==
        Max(if old(MustRedraw(newLines)) then 0 else old(previousViewportTop), |newLines| - screen.state.height)
      ensures maxLinesRendered ==
        if old(MustRedraw(newLines)) then |newLines| else Max(old(maxLinesRendered), |newLines|)
      ensures old(MustRedraw(newLines)) ==>
        && Shows(screen.state, base, look, newLines, previousViewportTop)
        && base == if mode == Some(Viewport) then old(screen.state.top) else 0
      ensures !old(MustRedraw(newLines)) ==>
        && base == old(base)
        && Drawn(screen.state, base, look, old(previousLines), newLines, previousViewportTop)
    {
      hide Run, Drawn, Shows, Valid, Proper, LineAt, OutOfReach, Written, CursorPlaced, LeavesBehind;
      OnScreen(screen.state, base, look, previousLines, previousViewportTop);
      var height := screen.state.height;
      var firstChanged, lastChanged := FindChanges(previousLines, newLines);
      ReachDecided(previousLines, newLines, previousViewportTop, firstChanged, lastChanged);
      if firstChanged == -1 {
        KeepFrame(newLines, cursor);
        return;
      }
      if firstChanged >= |newLines| {
        if Max(0, |newLines| - 1) < previousViewportTop {
          FullRender(newLines, true, mode, cursor);
          return;
        }
        if |previousLines| - |newLines| > height {
          assert false;
        }
        DrawDeleted(newLines, cursor);
        return;
      }
      if firstChanged < previousViewportTop {
        FullRender(newLines, true, mode, cursor);
        return;
      }
      DrawChanged(newLines, cursor, firstChanged, lastChanged);
    }

    /** Draw one frame: redraw everything when that is needed, and otherwise only what changed. */
    method Draw(newLines: seq<string>, cursor: Option<CursorPos>)
      requires Proper(look) && Valid(screen.state) && (InSync() || SizeChanged()) && Written(newLines)
      modifies `previousLines, `previousWidth, `previousHeight, `previousViewportTop, `hardwareCursorRow,
        `maxLinesRendered, `fullRedrawCount, `base, `pendingFullRedrawClearMode, screen
      ensures Framed(cursor, newLines)
      ensures fullRedrawCount == old(fullRedrawCount) + if old(MustRedraw(newLines)) then 1 else 0
      ensures previousViewportTop ==
        Max(if old(MustRedraw(newLines)) then 0 else old(previousViewportTop), |newLines| - screen.state.height)
      ensures maxLinesRendered ==
        if old(MustRedraw(newLines)) && (old(previousLines) != [] || old(SizeChanged())) then |newLines|
        else Max(old(maxLinesRendered), |newLines|)
      ensures old(MustRedraw(newLines)) ==>
        && Shows(screen.state, base, look, newLines, previousViewportTop)
        && base == (if (old(previousLines) == [] && !old(SizeChanged()))
                    || old(pendingFullRedrawClearMode) == Some(Viewport)
                    then old(screen.state.top) else 0)
      ensures !old(MustRedraw(newLines)) ==>
        && base == old(base)
        && Drawn(screen.state, base, look, old(previousLines), newLines, previousViewportTop)
      ensures pendingFullRedrawClearMode == None
    {
      hide Run, Drawn, Shows, Valid, Proper, LineAt, Written;
      var fullRedrawClearMode := pendingFullRedrawClearMode;
      pendingFullRedrawClearMode := None;
      var width, height := screen.state.width, screen.state.height;
      var widthChanged := previousWidth != 0 && previousWidth != width;
      var heightChanged := previousHeight != 0 && previousHeight != height;
      if previousLines == [] && !widthChanged && !heightChanged {
        FullRender(newLines, false, fullRedrawClearMode, cursor);
      } else if widthChanged || heightChanged || (clearOnShrink && |newLines| < maxLinesRendered && !overlays) {
        FullRender(newLines, true, fullRedrawClearMode, cursor);
      } else {
        DrawDifference(newLines, fullRedrawClearMode, cursor);
      }
    }

    /** The frame as it is written, and its cursor. */
    ghost function Lines(frame: seq<string>): seq<string>
      reads this, screen
    {
      WithResets(normalize, frame, Cursor(frame))
    }

    ghost function Cursor(frame: seq<string>): Option<CursorPos>
      reads this, screen
    {
      MarkerOf(look, frame, screen.state.height, |frame|)
    }

    /** The marker, if there is one, is on the screen and not above it. */
    ghost predicate MarkerVisible(frame: seq<string>)
      reads this, screen
    {
      Cursor(frame).None? || Cursor(frame).value.row >= previousViewportTop
    }

    /**
     One frame. The terminal shows it if and only if it was redrawn or the repaint left nothing behind, and the renderer
     stays in step with the terminal if and only if moreover the cursor marker was not above the screen.
     */
    method DoRender(frame: seq<string>)
      requires Proper(look) && Valid(screen.state) && (InSync() || SizeChanged())
      modifies `previousLines, `previousWidth, `previousHeight, `previousViewportTop, `hardwareCursorRow,
        `maxLinesRendered, `fullRedrawCount, `base, `pendingFullRedrawClearMode, screen
      ensures Framed(Cursor(frame), Lines(frame))
      ensures WrittenLines(normalize, frame, screen.state.height, previousLines)
      ensures exists cursor ::
        AsksCursor(look, frame, screen.state.height, cursor) && CursorPlaced(cursor, |frame|)
        && (MarkerVisible(frame) <==> cursor.None? || cursor.value.row >= previousViewportTop)
      ensures Shows(screen.state, base, look, Lines(frame), previousViewportTop)
         <==> old(MustRedraw(Lines(frame)))
              || !LeavesBehind(look, old(previousLines), Lines(frame), screen.state.width, screen.state.height)
      ensures InSync() <==> Shows(screen.state, base, look, Lines(frame), previousViewportTop) && MarkerVisible(frame)
      ensures fullRedrawCount == old(fullRedrawCount) + if old(MustRedraw(Lines(frame))) then 1 else 0
      ensures previousViewportTop ==
        Max(if old(MustRedraw(Lines(frame))) then 0 else old(previousViewportTop), |frame| - screen.state.height)
      ensures maxLinesRendered ==
        if old(MustRedraw(Lines(frame))) && (old(previousLines) != [] || old(SizeChanged())) then |frame|
        else Max(old(maxLinesRendered), |frame|)
      ensures old(MustRedraw(Lines(frame))) ==>
        base == (if (old(previousLines) == [] && !old(SizeChanged()))
                    || old(pendingFullRedrawClearMode) == Some(Viewport)
                 then old(screen.state.top) else 0)
      ensures !old(MustRedraw(Lines(frame))) ==>
        && base == old(base)
        && Drawn(screen.state, base, look, old(previousLines), Lines(frame), previousViewportTop)
      ensures pendingFullRedrawClearMode == None
    {
      hide Run, Drawn, Shows, Valid, Proper, LineAt, LeavesBehind, Written, WrittenLines, AsksCursor, WithResets,
        MarkerOf;
      ghost var previous := previousLines;
      LinesWritten(look, normalize, frame, screen.state.height);
      var cursor := FindCursorMarker(look, frame, screen.state.height);
      var newLines := ApplyLineResets(normalize, frame, cursor);
      ResetsWritten(normalize, frame, cursor);
      Draw(newLines, cursor);
      if fullRedrawCount == old(fullRedrawCount) {
        DrawnExact(screen.state, base, look, previous, newLines, previousViewportTop);
      }
    }

    /** Ask for a redraw of everything at the next frame, whatever the terminal shows by then. */
    method RequestFullRender(mode: ClearMode)
      requires screen.state.width > 0 && screen.state.height > 0
      modifies `previousLines, `previousWidth, `previousHeight, `previousViewportTop, `hardwareCursorRow,
        `maxLinesRendered, `pendingFullRedrawClearMode
      ensures SizeChanged() && previousLines == [] && previousViewportTop == maxLinesRendered == 0
      ensures previousWidth == previousHeight == -1
      ensures pendingFullRedrawClearMode ==
        if old(pendingFullRedrawClearMode) == Some(SavedLines) then Some(SavedLines) else Some(mode)
    {
      if pendingFullRedrawClearMode != Some(SavedLines) {
        pendingFullRedrawClearMode := Some(mode);
      }
      previousLines := [];
      previousWidth, previousHeight := -1, -1;
      hardwareCursorRow, maxLinesRendered, previousViewportTop := 0, 0, 0;
    }

    /**
     However long a run of frames is, and whatever redraws and resizes do in between: each frame is shown if and only if
     it was redrawn or left nothing behind, and the renderer is in step with the terminal after it if and only if
     moreover its marker was not above the screen.
     */
    method Play(steps: seq<FrameStep>, ghost p: Picture) returns (ghost seen: seq<Sight>)
      requires InSync() && Matches(p) && Playable(Setup(look, normalize, clearOnShrink), p, steps)
      modifies `previousLines, `previousWidth, `previousHeight, `previousViewportTop, `hardwareCursorRow, `overlays,
        `maxLinesRendered, `fullRedrawCount, `base, `pendingFullRedrawClearMode, screen
      ensures |seen| == |steps|
      ensures var setup := Setup(look, normalize, clearOnShrink);
        && Matches(PictureAt(setup, p, steps))
        && forall i | 0 <= i < |steps| :: Saw(setup, PictureAt(setup, p, steps[..i]), steps[i], seen[i])
      ensures steps != [] ==> seen[|steps| - 1] == Sight(screen.state, base, InSync())
    {
      hide Run, Shows, Valid, Proper, Tui.Matches, GoodStep, Shown, Forced, Possible, NextPicture, StepLines, Saw,
        Written, PictureAt, Playable;
      seen := [];
      ghost var setup := Setup(look, normalize, clearOnShrink);
      ghost var now := p;
      PictureStart(setup, p, steps);
      for i := 0 to |steps|
        invariant Proper(look) && Valid(screen.state) && now == PictureAt(setup, p, steps[..i]) && Matches(now)
        invariant |seen| == i && forall k | 0 <= k < i :: Saw(setup, PictureAt(setup, p, steps[..k]), steps[k], seen[k])
        invariant if i == 0 then InSync() else seen[i - 1] == Sight(screen.state, base, InSync())
      {
        PlayableNext(setup, p, steps, i, if i == 0 then Sight(screen.state, base, true) else seen[i - 1]);
        PlayStep(steps[i], now);
        seen := seen + [Sight(screen.state, base, InSync())];
        PictureNext(setup, p, steps, i);
        now := NextPicture(setup, now, steps[i]);
      }
      assert steps[..|steps|] == steps;
    }

    /** Perhaps a request, perhaps a resize, and then a frame. */
    method PlayStep(step: FrameStep, ghost p: Picture)
      requires Proper(look) && Valid(screen.state) && Matches(p) && Possible(p, step) && (InSync() || Forced(p, step))
      modifies `previousLines, `previousWidth, `previousHeight, `previousViewportTop, `hardwareCursorRow, `overlays,
        `maxLinesRendered, `fullRedrawCount, `base, `pendingFullRedrawClearMode, screen
      ensures var setup := Setup(look, normalize, clearOnShrink);
        && Valid(screen.state) && Matches(NextPicture(setup, p, step))
        && Saw(setup, p, step, Sight(screen.state, base, InSync()))
    {
      hide Run, Shows, Valid, Proper, LineAt, LeavesBehind, Written, OutOfReach, MarkerOf, WithResets, InSync, Possible,
        Tui.SizeChanged;
      Prepare(step, p);
      ghost var setup := Setup(look, normalize, clearOnShrink);
      assert Lines(step.frame) == StepLines(setup, p, step) && Cursor(step.frame) == StepCursor(setup, p, step);
      assert MustRedraw(Lines(step.frame)) <==> Redraws(setup, p, step);
      DoRender(step.frame);
    }

    /** What happens before the frame is drawn. */
    method Prepare(step: FrameStep, ghost p: Picture)
      requires Proper(look) && Valid(screen.state) && Matches(p) && Possible(p, step) && (InSync() || Forced(p, step))
      modifies `previousLines, `previousWidth, `previousHeight, `previousViewportTop, `hardwareCursorRow, `overlays,
        `maxLinesRendered, `base, `pendingFullRedrawClearMode, screen
      ensures Valid(screen.state) && (InSync() || SizeChanged()) && (SizeChanged() <==> Forced(p, step))
      ensures Prepared(p, step) == Picture(screen.state.width, screen.state.height, previousLines, previousViewportTop,
                                           maxLinesRendered, p.drawn)
      ensures overlays == step.overlays
    {
      hide Run, Shows, Written, Proper;
      if step.redraw.Some? {
        RequestFullRender(step.redraw.value);
      }
      if step.resized.Some? {
        screen.state := step.resized.value;
        if step.redraw.None? && !p.drawn {
          base := screen.state.top;
          BlankShown(screen.state, look);
        }
      }
      overlays := step.overlays;
    }
  }

  lemma PictureStart(s: Setup, p: Picture, steps: seq<FrameStep>)
    ensures PictureAt(s, p, steps[..0]) == p
  {}

  lemma BlankShown(t: Term, look: Look)
    requires Proper(look) && Valid(t) && BlankScreen(t)
    ensures Shows(t, t.top, look, [], 0) && Written([])
  {
    EmptyRow(t.width);
  }

  // ---- An emptied frame ----

  /** One line of text and then an empty frame: the line still stands. */
  method EmptyFrameExample(look: Look, normalize: string -> string, line: string, glyph: int, width: nat, height: nat)
    returns (tui: Tui)
    requires Proper(look) && look(normalize(line) + SEGMENT_RESET) == [Lead(glyph)] && width > 0 && height > 1
    requires !Occurs(line, CURSOR_MARKER)
    ensures tui.previousLines == [] && !Shows(tui.screen.state, tui.base, look, [], tui.previousViewportTop)
    ensures Valid(tui.screen.state) && tui.screen.state.rows[tui.screen.state.top][0] == Lead(glyph)
  {
    hide Run, Shows, Drawn, LeavesBehind, Written, MarkerOf, WithResets, CURSOR_MARKER, SEGMENT_RESET, LineAt;
    var screen := new Screen(Term(width, height, seq(height, _ => Blanks(width)), 0, 0, 0));
    tui := new Tui(look, normalize, screen, false);
    OneLineFrame(look, normalize, line, height);
    tui.DoRender([line]);
    ghost var shown := tui.previousLines;
    assert shown == [normalize(line) + SEGMENT_RESET] && tui.previousViewportTop == 0;
    assert !OutOfReach(shown, [], 0);
    tui.DoRender([]);
    LineStands(tui.screen.state, tui.base, look, shown[0], glyph);
  }

  lemma LineStands(t: Term, base: nat, look: Look, line: string, glyph: int)
    requires Valid(t) && t.height > 1 && look(line) == [Lead(glyph)] && look("") == []
    requires Drawn(t, base, look, [line], [], 0)
    ensures t.top < |t.rows| && |t.rows[t.top]| > 0 && t.rows[t.top][0] == Lead(glyph)
    ensures !Shows(t, base, look, [], 0)
  {
    assert t.rows[base + 0] == DrawnRow(look, [line], [], 0, t.width, t.height) == FrameRow(look, [line], 0, t.width);
    EmptyRow(t.width);
    assert FrameRow(look, [], 0, t.width)[0] == Blank;
  }

  lemma OneLineFrame(look: Look, normalize: string -> string, line: string, height: nat)
    requires height > 0 && !Occurs(line, CURSOR_MARKER)
    ensures MarkerOf(look, [line], height, 1) == None && MarkerOf(look, [], height, 0) == None
    ensures WithResets(normalize, [line], None) == [normalize(line) + SEGMENT_RESET]
    ensures WithResets(normalize, [], None) == []
  {
    hide CURSOR_MARKER, SEGMENT_RESET;
    assert MarkerOf(look, [line], height, 0) == None;
  }

  // ---- A marker above the screen ----

  const LONG: seq<string> := seq(10, _ => "")
  const SHORT: seq<string> := ["", "", CURSOR_MARKER, "", "", "", ""]

  lemma NoMarker(look: Look, lines: seq<string>, height: nat, below: nat)
    requires below <= |lines| && forall i | 0 <= i < |lines| :: lines[i] == ""
    ensures MarkerOf(look, lines, height, below) == None
  {}

  lemma MarkerNotEmpty()
    ensures CURSOR_MARKER != ""
  {}

  /** The marker in line 2 of seven is among the bottom five. */
  lemma ShortMarker(look: Look)
    ensures var cursor := MarkerOf(look, SHORT, 5, 7);
      cursor.Some? && cursor.value.row == 2 && cursor.value.markerIndex == 0
  {
    hide CURSOR_MARKER;
    MarkerNotEmpty();
    assert CURSOR_MARKER[0..|CURSOR_MARKER|] == CURSOR_MARKER;
    assert OccursAt(CURSOR_MARKER, CURSOR_MARKER, 0);
    assert IndexOf(CURSOR_MARKER, CURSOR_MARKER) == 0 && IndexOf("", CURSOR_MARKER) == -1;
    assert MarkerOf(look, SHORT, 5, 3).Some?;
    assert MarkerOf(look, SHORT, 5, 5) == MarkerOf(look, SHORT, 5, 3);
    assert MarkerOf(look, SHORT, 5, 7) == MarkerOf(look, SHORT, 5, 5);
  }

  /** Without its marker the short frame is a front of the long one, so no line above the screen changes. */
  lemma ShortReached(look: Look, normalize: string -> string)
    ensures !OutOfReach(WithResets(normalize, LONG, MarkerOf(look, LONG, 5, 10)),
                        WithResets(normalize, SHORT, MarkerOf(look, SHORT, 5, 7)), 5)
  {
    hide MarkerOf, CURSOR_MARKER;
    ShortMarker(look);
    NoMarker(look, LONG, 5, 10);
    assert Stripped(CURSOR_MARKER, 0) == "";
  }

  /**
   Ten lines on a screen of five, and then seven with the marker in line 2: the screen does not scroll back, so the
   marker is above it, and the renderer takes the cursor to be in a row where it is not.
   */
  method MarkerAboveExample(look: Look, normalize: string -> string, width: nat) returns (tui: Tui)
    requires Proper(look) && width > 0
    ensures tui.previousLines == tui.Lines(SHORT)
    ensures !tui.MarkerVisible(SHORT) && !tui.InSync()
    ensures tui.hardwareCursorRow == 2 && tui.screen.state.row == tui.base + 5
  {
    hide Run, Drawn, Shows, LineAt, LeavesBehind, Written, OutOfReach, MarkerOf, WithResets, CURSOR_MARKER;
    var screen := new Screen(Term(width, 5, seq(5, _ => Blanks(width)), 0, 0, 0));
    tui := new Tui(look, normalize, screen, false);
    NoMarker(look, LONG, 5, 10);
    tui.DoRender(LONG);
    ShortMarker(look);
    ShortReached(look, normalize);
    tui.DoRender(SHORT);
  }
}
