/** What the operation sequences the renderer writes do to a terminal that already shows a frame. */
module Painting {
  import opened Terminal
  import opened FrameRows

  /**
   The terminal shows `lines`: its rows below the first `base` ones are the lines of the frame followed by blank rows,
   and the line at the top of the screen is number `viewportTop`.
   */
  ghost predicate Shows(t: Term, base: nat, look: Look, lines: seq<string>, viewportTop: nat) {
    && t.top == base + viewportTop
    && |lines| <= viewportTop + t.height
    && |t.rows| == base + viewportTop + t.height
    && forall i | 0 <= i < viewportTop + t.height :: t.rows[base + i] == FrameRow(look, lines, i, t.width)
  }

  /** Relative cursor movement as the renderer writes it: nothing for zero. */
  function Moves(diff: int): seq<Op> {
    if diff > 0 then [Down(diff)] else if diff < 0 then [Up(-diff)] else []
  }

  lemma StepMove(t: Term, n: nat)
    requires Valid(t) && n > 0
    ensures Step(t, Down(n)) == t.(row := Min(t.row + n, t.top + t.height - 1), col := Min(t.col, t.width - 1))
    ensures Step(t, Up(n)) == t.(row := Max(t.row - n, t.top), col := Min(t.col, t.width - 1))
  {}

  /** A relative move ends on the wanted row unless that row is above or below the screen. */
  lemma MovesTo(t: Term, diff: int)
    requires Valid(t)
    ensures var r := Run(t, Moves(diff));
      && r.row == Max(t.top, Min(t.row + diff, t.top + t.height - 1))
      && r == t.(row := r.row, col := r.col)
  {
    if diff > 0 {
      RunOne(t, Down(diff));
      StepMove(t, diff);
    } else if diff < 0 {
      RunOne(t, Up(-diff));
      StepMove(t, -diff);
    }
  }

  /** The row of line `i` after painting `next` over `previous`. */
  function PaintedRow(look: Look, previous: seq<string>, next: seq<string>, i: nat, width: nat): Row {
    Repaint(look(LineAt(previous, i)), look(LineAt(next, i)), width)
  }

  /**
   Lines `first` up to `until` of `next` have been painted over a terminal that showed `previous` with its first screen
   row at line `viewportTop`; the cursor is on line `at`, which the screen has scrolled to if it had to.
   */
  ghost predicate Partly(t: Term, saved: seq<Row>, look: Look, previous: seq<string>, next: seq<string>,
                         first: nat, until: nat, viewportTop: nat, at: nat) {
    var base := |saved|;
    && Valid(t) && first <= until
    && t.top == base + Max(viewportTop, at + 1 - t.height)
    && t.row == base + at
    && t.rows[..base] == saved
    && forall i | 0 <= i < |t.rows| - base :: t.rows[base + i] ==
         if first <= i < until then PaintedRow(look, previous, next, i, t.width)
         else FrameRow(look, previous, i, t.width)
  }

  /** The same, with the cursor on the last painted line, or at the start of line `first` when none is. */
  ghost predicate Painted(t: Term, saved: seq<Row>, look: Look, previous: seq<string>, next: seq<string>,
                          first: nat, until: nat, viewportTop: nat) {
    && Partly(t, saved, look, previous, next, first, until, viewportTop, if first < until then until - 1 else first)
    && (first == until ==> t.col == 0)
  }

  /** Write a fitted line at the start of its row, and erase the tail if it got narrower. */
  function LineOps(fit: Row, clearsTail: bool): seq<Op> {
    if clearsTail then [Text(fit), EraseTail] else [Text(fit)]
  }

  lemma EraseAfter(t: Term, cells: Row)
    requires Valid(t) && |cells| < t.width
    ensures Step(SetRow(t, Over(cells, t.rows[t.row])).(col := |cells|), EraseTail)
         == SetRow(t, cells + Blanks(t.width - |cells|)).(col := |cells|)
  {
    var line := Over(cells, t.rows[t.row]);
    assert line[..|cells|] == cells;
    assert t.rows[t.row := line][t.row := cells + Blanks(t.width - |cells|)]
        == t.rows[t.row := cells + Blanks(t.width - |cells|)];
  }

  lemma WriteOver(t: Term, cells: Row)
    requires Valid(t) && t.col == 0 && |cells| <= t.width && t.rows[t.row][0] != Rest
    ensures Run(t, LineOps(cells, false)) == SetRow(t, Over(cells, t.rows[t.row])).(col := |cells|)
  {
    RunOne(t, Text(cells));
    PutOver(t, cells);
  }

  lemma WriteAndClear(t: Term, cells: Row)
    requires Valid(t) && t.col == 0 && |cells| < t.width && t.rows[t.row][0] != Rest
    ensures Run(t, LineOps(cells, true)) == SetRow(t, cells + Blanks(t.width - |cells|)).(col := |cells|)
  {
    RunTwo(t, Text(cells), EraseTail);
    PutOver(t, cells);
    EraseAfter(t, cells);
  }

  lemma PaintLine(t: Term, previous: Row, next: Row)
    requires Valid(t) && t.col == 0 && Whole(previous)
    requires t.rows[t.row] == RowOf(previous, t.width)
    ensures var fit := Fit(next, t.width);
      Run(t, LineOps(fit, ClearsTail(previous, next, t.width)))
      == SetRow(t, Repaint(previous, next, t.width)).(col := |fit|)
  {
    RowWhole(previous, t.width);
    var fit := Fit(next, t.width);
    var painted := Repaint(previous, next, t.width);
    if ClearsTail(previous, next, t.width) {
      WriteAndClear(t, fit);
      assert painted == fit + Blanks(t.width - |fit|);
    } else {
      WriteOver(t, fit);
      assert painted == Over(fit, t.rows[t.row]);
    }
  }

  lemma FeedLine(t: Term, saved: seq<Row>, look: Look, previous: seq<string>, next: seq<string>,
                 first: nat, until: nat, viewportTop: nat, at: nat)
    requires Partly(t, saved, look, previous, next, first, until, viewportTop, at)
    requires |previous| <= viewportTop + t.height && (first == until || until <= at + 1) && Proper(look)
    ensures Partly(Feed(t.(col := 0)), saved, look, previous, next, first, until, viewportTop, at + 1)
  {
    EmptyRow(t.width);
    var r := Feed(t.(col := 0));
    assert r.rows[..|saved|] == t.rows[..|saved|];
    forall i | 0 <= i < |r.rows| - |saved|
      ensures r.rows[|saved| + i] ==
                if first <= i < until then PaintedRow(look, previous, next, i, t.width)
                else FrameRow(look, previous, i, t.width)
    {
      if |saved| + i < |t.rows| {
        assert r.rows[|saved| + i] == t.rows[|saved| + i];
      } else {
        assert LineAt(previous, i) == "";
      }
    }
  }

  /** Move from line `at` to the start of the next, scrolling if it is below the screen. */
  lemma NextLine(t: Term, saved: seq<Row>, look: Look, previous: seq<string>, next: seq<string>,
                 first: nat, until: nat, viewportTop: nat, at: nat)
    requires Partly(t, saved, look, previous, next, first, until, viewportTop, at)
    requires |previous| <= viewportTop + t.height && (first == until || until <= at + 1) && Proper(look)
    ensures var r := Run(t, NewLine());
      Partly(r, saved, look, previous, next, first, until, viewportTop, at + 1) && r.col == 0
  {
    RunNewLine(t);
    FeedLine(t, saved, look, previous, next, first, until, viewportTop, at);
  }

  lemma SetPainted(t: Term, saved: seq<Row>, look: Look, previous: seq<string>, next: seq<string>,
                   first: nat, until: nat, viewportTop: nat, col: nat)
    requires Partly(t, saved, look, previous, next, first, until, viewportTop, until) && col <= t.width
    ensures Painted(SetRow(t, PaintedRow(look, previous, next, until, t.width)).(col := col),
                    saved, look, previous, next, first, until + 1, viewportTop)
  {
    var painted := PaintedRow(look, previous, next, until, t.width);
    var r := SetRow(t, painted).(col := col);
    assert r.rows[..|saved|] == t.rows[..|saved|];
    forall i | 0 <= i < |r.rows| - |saved|
      ensures r.rows[|saved| + i] ==
                if first <= i < until + 1 then PaintedRow(look, previous, next, i, t.width)
                else FrameRow(look, previous, i, t.width)
    {
      if i != until {
        assert r.rows[|saved| + i] == t.rows[|saved| + i];
      }
    }
  }

  /** Paint line `until`, with the cursor at its start. */
  lemma PaintHere(t: Term, saved: seq<Row>, look: Look, previous: seq<string>, next: seq<string>,
                  first: nat, until: nat, viewportTop: nat)
    requires Partly(t, saved, look, previous, next, first, until, viewportTop, until) && t.col == 0 && Proper(look)
    ensures var clears := ClearsTail(look(LineAt(previous, until)), look(LineAt(next, until)), t.width);
      Painted(Run(t, LineOps(Fit(look(LineAt(next, until)), t.width), clears)),
              saved, look, previous, next, first, until + 1, viewportTop)
  {
    assert t.rows[|saved| + until] == FrameRow(look, previous, until, t.width);
    PaintLine(t, look(LineAt(previous, until)), look(LineAt(next, until)));
    SetPainted(t, saved, look, previous, next, first, until, viewportTop, |Fit(look(LineAt(next, until)), t.width)|);
  }

  /** What paints line `i`, coming from the line above unless it is the first one. */
  function PaintOps(look: Look, previous: seq<string>, next: seq<string>, first: nat, i: nat, width: nat): seq<Op> {
    (if i > first then NewLine() else []) +
    LineOps(Fit(look(LineAt(next, i)), width), ClearsTail(look(LineAt(previous, i)), look(LineAt(next, i)), width))
  }

  lemma PaintedStart(t: Term, saved: seq<Row>, look: Look, previous: seq<string>, next: seq<string>,
                     first: nat, until: nat, viewportTop: nat)
    requires Painted(t, saved, look, previous, next, first, until, viewportTop)
    ensures Valid(t) && first <= until
    ensures if first < until then Partly(t, saved, look, previous, next, first, until, viewportTop, until - 1)
            else Partly(t, saved, look, previous, next, first, until, viewportTop, until) && t.col == 0
  {}

  /** Painting one more line. */
  lemma PaintNext(t: Term, saved: seq<Row>, look: Look, previous: seq<string>, next: seq<string>,
                  first: nat, until: nat, viewportTop: nat)
    requires Painted(t, saved, look, previous, next, first, until, viewportTop)
    requires |previous| <= viewportTop + t.height && Proper(look)
    ensures Painted(Run(t, PaintOps(look, previous, next, first, until, t.width)),
                    saved, look, previous, next, first, until + 1, viewportTop)
  {
    hide Run, Partly, Painted, Valid, Proper, LineOps, Fit, ClearsTail, LineAt;
    PaintedStart(t, saved, look, previous, next, first, until, viewportTop);
    var line := LineOps(Fit(look(LineAt(next, until)), t.width),
                        ClearsTail(look(LineAt(previous, until)), look(LineAt(next, until)), t.width));
    if until > first {
      NextLine(t, saved, look, previous, next, first, until, viewportTop, until - 1);
      PaintHere(Run(t, NewLine()), saved, look, previous, next, first, until, viewportTop);
      RunConcat(t, NewLine(), line);
      assert PaintOps(look, previous, next, first, until, t.width) == NewLine() + line;
    } else {
      PaintHere(t, saved, look, previous, next, first, until, viewportTop);
      assert PaintOps(look, previous, next, first, until, t.width) == line;
    }
  }

  lemma RunNothing(t: Term)
    requires Valid(t)
    ensures Run(t, []) == t
  {}

  function LinesOps(look: Look, previous: seq<string>, next: seq<string>, first: nat, until: nat, width: nat): seq<Op> {
    if until <= first then []
    else LinesOps(look, previous, next, first, until - 1, width)
         + PaintOps(look, previous, next, first, until - 1, width)
  }

  /** Painting lines `first` up to `until`. */
  lemma {:induction false} PaintMany(t: Term, saved: seq<Row>, look: Look, previous: seq<string>, next: seq<string>,
                                     first: nat, until: nat, viewportTop: nat)
    requires Valid(t) && Painted(t, saved, look, previous, next, first, first, viewportTop) && first <= until
    requires |previous| <= viewportTop + t.height && Proper(look)
    ensures Painted(Run(t, LinesOps(look, previous, next, first, until, t.width)),
                    saved, look, previous, next, first, until, viewportTop)
  {
    hide Partly, Painted, Run, Valid;
    RunNothing(t);
    if first < until {
      var before := LinesOps(look, previous, next, first, until - 1, t.width);
      PaintMany(t, saved, look, previous, next, first, until - 1, viewportTop);
      var line := PaintOps(look, previous, next, first, until - 1, t.width);
      var mid := Run(t, before);
      assert mid.width == t.width;
      RunConcat(t, before, line);
      assert LinesOps(look, previous, next, first, until, t.width) == before + line;
      PaintNext(mid, saved, look, previous, next, first, until - 1, viewportTop);
    }
  }

  /** Lines that did not change need no painting. */
  lemma SkipUnchanged(t: Term, saved: seq<Row>, look: Look, previous: seq<string>, next: seq<string>,
                      first: nat, until: nat, viewportTop: nat, at: nat, first': nat, until': nat)
    requires Partly(t, saved, look, previous, next, first, until, viewportTop, at)
    requires first' <= first <= until <= until' && Proper(look)
    requires forall i | first' <= i < first || until <= i < until' :: LineAt(previous, i) == LineAt(next, i)
    ensures Partly(t, saved, look, previous, next, first', until', viewportTop, at)
  {
    forall i | first' <= i < first || until <= i < until'
      ensures PaintedRow(look, previous, next, i, t.width) == FrameRow(look, previous, i, t.width)
    {
      RepaintSame(look(LineAt(previous, i)), t.width);
    }
  }

  lemma PartlyValid(t: Term, saved: seq<Row>, look: Look, previous: seq<string>, next: seq<string>,
                    first: nat, until: nat, viewportTop: nat, at: nat)
    requires Partly(t, saved, look, previous, next, first, until, viewportTop, at)
    ensures Valid(t)
  {}

  /** Clearing the next row with EL 2 is painting the empty line there. */
  lemma EraseNext(t: Term, saved: seq<Row>, look: Look, previous: seq<string>, next: seq<string>,
                  first: nat, until: nat, viewportTop: nat)
    requires first < until && Partly(t, saved, look, previous, next, first, until, viewportTop, until - 1)
    requires |previous| <= viewportTop + t.height && Proper(look) && |next| <= until
    ensures Partly(Run(t, NewLine() + [EraseLine]), saved, look, previous, next, first, until + 1, viewportTop, until)
  {
    hide Run, Partly, Proper, Step, FrameRow, PaintedRow;
    NextLine(t, saved, look, previous, next, first, until, viewportTop, until - 1);
    PartlyValid(t, saved, look, previous, next, first, until, viewportTop, until - 1);
    RunSnoc(t, NewLine(), EraseLine);
    BlankLine(Run(t, NewLine()), saved, look, previous, next, first, until, viewportTop);
  }

  lemma BlankLine(t: Term, saved: seq<Row>, look: Look, previous: seq<string>, next: seq<string>,
                  first: nat, until: nat, viewportTop: nat)
    requires Partly(t, saved, look, previous, next, first, until, viewportTop, until)
    requires Proper(look) && |next| <= until
    ensures Partly(Step(t, EraseLine), saved, look, previous, next, first, until + 1, viewportTop, until)
  {
    RepaintUncut(look(LineAt(previous, until)), [], t.width);
    EmptyRow(t.width);
    assert PaintedRow(look, previous, next, until, t.width) == Blanks(t.width);
    SetPainted(t, saved, look, previous, next, first, until, viewportTop, t.col);
    assert Step(t, EraseLine) == SetRow(t, Blanks(t.width)).(col := t.col);
  }

  /** The operations that empty the screen, and the saved lines too unless they are kept. */
  function ClearOps(keepSaved: bool): seq<Op> {
    if keepSaved then [EraseScreen, Home] else [EraseScreen, Home, EraseSaved]
  }

  function EmptyScreen(t: Term, saved: seq<Row>): Term {
    t.(rows := saved + BlankRows(t.height, t.width), top := |saved|, row := |saved|, col := 0)
  }

  lemma StepClear(t: Term)
    requires Valid(t)
    ensures Step(Step(t, EraseScreen), Home) == EmptyScreen(t, t.rows[..t.top])
    ensures Step(Step(Step(t, EraseScreen), Home), EraseSaved) == EmptyScreen(t, [])
  {
    var blank := BlankRows(t.height, t.width);
    assert (t.rows[..t.top] + blank)[t.top..] == [] + blank;
  }

  lemma RunClear(t: Term, keepSaved: bool)
    requires Valid(t)
    ensures Run(t, ClearOps(keepSaved)) == EmptyScreen(t, if keepSaved then t.rows[..t.top] else [])
  {
    StepClear(t);
    RunTwo(t, EraseScreen, Home);
    RunThree(t, EraseScreen, Home, EraseSaved);
  }

  lemma ClearScreen(t: Term, keepSaved: bool, look: Look, next: seq<string>)
    requires Valid(t) && Proper(look)
    ensures var saved := if keepSaved then t.rows[..t.top] else [];
      Painted(Run(t, ClearOps(keepSaved)), saved, look, [], next, 0, 0, 0)
  {
    hide Run, ClearOps, Painted;
    RunClear(t, keepSaved);
    EmptyPainted(t, if keepSaved then t.rows[..t.top] else [], look, next);
  }

  lemma EmptyPainted(t: Term, saved: seq<Row>, look: Look, next: seq<string>)
    requires Valid(t) && Proper(look) && forall i | 0 <= i < |saved| :: |saved[i]| == t.width
    ensures Painted(EmptyScreen(t, saved), saved, look, [], next, 0, 0, 0)
  {
    EmptyRow(t.width);
  }

  /** Painting everything on an empty terminal shows the frame. */
  lemma AllPainted(t: Term, saved: seq<Row>, look: Look, next: seq<string>)
    requires Painted(t, saved, look, [], next, 0, |next|, 0) && Proper(look)
    ensures Shows(t, |saved|, look, next, Max(0, Max(t.height, |next|) - t.height))
    ensures t.row == |saved| + Max(0, |next| - 1)
  {
    forall i: nat | i < |next|
      ensures PaintedRow(look, [], next, i, t.width) == FrameRow(look, next, i, t.width)
    {
      assert ClearsTail([], look(LineAt(next, i)), t.width) == false;
      RepaintExact([], look(LineAt(next, i)), t.width);
      EmptyRow(t.width);
    }
    assert forall i: nat | |next| <= i :: FrameRow(look, [], i, t.width) == FrameRow(look, next, i, t.width);
  }

  /** A terminal that shows `previous`, with the cursor on line `at` of the screen. */
  lemma ShowsPartly(t: Term, base: nat, look: Look, previous: seq<string>, next: seq<string>,
                    first: nat, viewportTop: nat, at: nat)
    requires Valid(t) && Shows(t, base, look, previous, viewportTop)
    requires t.row == base + at
    ensures Partly(t, t.rows[..base], look, previous, next, first, first, viewportTop, at)
  {}

  lemma ShowsFits(t: Term, base: nat, look: Look, lines: seq<string>, viewportTop: nat)
    requires Shows(t, base, look, lines, viewportTop)
    ensures |lines| <= viewportTop + t.height && base <= |t.rows|
  {}

  /** Moving the cursor within the screen. */
  lemma MovePartly(t: Term, saved: seq<Row>, look: Look, previous: seq<string>, next: seq<string>,
                   first: nat, until: nat, viewportTop: nat, at: nat, to: nat)
    requires Partly(t, saved, look, previous, next, first, until, viewportTop, at)
    requires to == at || (at < viewportTop + t.height && viewportTop <= to < viewportTop + t.height)
    ensures Partly(Run(t, Moves(to - at)), saved, look, previous, next, first, until, viewportTop, to)
  {
    MovesTo(t, to - at);
  }

  /** Line feeds from the last screen row on. */
  lemma {:induction false} FeedPartly(t: Term, saved: seq<Row>, look: Look, previous: seq<string>, next: seq<string>,
                                      first: nat, viewportTop: nat, at: nat, n: nat)
    requires Partly(t, saved, look, previous, next, first, first, viewportTop, at)
    requires |previous| <= viewportTop + t.height && Proper(look)
    ensures Partly(Run(t, Feeds(n)), saved, look, previous, next, first, first, viewportTop, at + n)
  {
    if n > 0 {
      FeedPartly(t, saved, look, previous, next, first, viewportTop, at, n - 1);
      RunConcat(t, Feeds(n - 1), NewLine());
      NextLine(Run(t, Feeds(n - 1)), saved, look, previous, next, first, first, viewportTop, at + n - 1);
    }
  }

  lemma ReturnPartly(t: Term, saved: seq<Row>, look: Look, previous: seq<string>, next: seq<string>,
                     first: nat, viewportTop: nat)
    requires Partly(t, saved, look, previous, next, first, first, viewportTop, first)
    ensures Painted(Run(t, [CarriageReturn]), saved, look, previous, next, first, first, viewportTop)
  {
    RunOne(t, CarriageReturn);
  }

  lemma AppendPartly(t: Term, saved: seq<Row>, look: Look, previous: seq<string>, next: seq<string>,
                     first: nat, viewportTop: nat)
    requires first > 0 && Partly(t, saved, look, previous, next, first, first, viewportTop, first - 1)
    requires |previous| <= viewportTop + t.height && Proper(look)
    ensures Painted(Run(t, NewLine()), saved, look, previous, next, first, first, viewportTop)
  {
    NextLine(t, saved, look, previous, next, first, first, viewportTop, first - 1);
  }

  /** Move to line `to`: down to the last row, then scroll, when it is below the screen. */
  function ReachOps(from: nat, viewportTop: nat, height: nat, to: nat): seq<Op> {
    if to < viewportTop + height then Moves(to - from)
    else Moves(viewportTop + height - 1 - from) + Feeds(to + 1 - height - viewportTop)
  }

  /** Move to the start of line `first`, coming from the line above when lines were only appended. */
  function StartOps(from: nat, viewportTop: nat, height: nat, first: nat, appendStart: bool): seq<Op>
    requires appendStart ==> first > 0
  {
    if appendStart then ReachOps(from, viewportTop, height, first - 1) + NewLine()
    else ReachOps(from, viewportTop, height, first) + [CarriageReturn]
  }

  lemma Reach(t: Term, saved: seq<Row>, look: Look, previous: seq<string>, next: seq<string>,
              first: nat, viewportTop: nat, from: nat, to: nat)
    requires Valid(t) && Partly(t, saved, look, previous, next, first, first, viewportTop, from)
    requires |previous| <= viewportTop + t.height && Proper(look)
    requires viewportTop <= from < viewportTop + t.height && viewportTop <= to
    ensures Partly(Run(t, ReachOps(from, viewportTop, t.height, to)),
                   saved, look, previous, next, first, first, viewportTop, to)
  {
    var bottom := viewportTop + t.height - 1;
    hide Run, Partly, Valid;
    if to <= bottom {
      MovePartly(t, saved, look, previous, next, first, first, viewportTop, from, to);
    } else {
      MovePartly(t, saved, look, previous, next, first, first, viewportTop, from, bottom);
      FeedPartly(Run(t, Moves(bottom - from)), saved, look, previous, next, first, viewportTop, bottom, to - bottom);
      RunConcat(t, Moves(bottom - from), Feeds(to - bottom));
    }
  }

  lemma StartPainting(t: Term, base: nat, look: Look, previous: seq<string>, next: seq<string>,
                      first: nat, viewportTop: nat, from: nat, appendStart: bool)
    requires Proper(look) && Valid(t) && Shows(t, base, look, previous, viewportTop) && t.row == base + from
    requires viewportTop <= from < viewportTop + t.height && viewportTop <= first
    requires appendStart ==> viewportTop < first
    ensures Painted(Run(t, StartOps(from, viewportTop, t.height, first, appendStart)),
                    t.rows[..base], look, previous, next, first, first, viewportTop)
  {
    hide Run, Partly, Painted, Valid, Shows, Proper;
    ShowsFits(t, base, look, previous, viewportTop);
    var saved, height := t.rows[..base], t.height;
    ShowsPartly(t, base, look, previous, next, first, viewportTop, from);
    var to := if appendStart then first - 1 else first;
    Reach(t, saved, look, previous, next, first, viewportTop, from, to);
    var reach := ReachOps(from, viewportTop, height, to);
    if appendStart {
      AppendPartly(Run(t, reach), saved, look, previous, next, first, viewportTop);
      RunConcat(t, reach, NewLine());
    } else {
      ReturnPartly(Run(t, reach), saved, look, previous, next, first, viewportTop);
      RunConcat(t, reach, [CarriageReturn]);
    }
  }

  /** Clear what is left of a longer previous frame, and return to the last line of the new one. */
  function TailOps(renderEnd: nat, previous: nat, next: nat): seq<Op>
    requires renderEnd < next
  {
    if previous > next then Moves(next - 1 - renderEnd) + EraseLinesOps(previous - next) + Moves(next as int - previous)
    else []
  }

  lemma PaintedPartly(t: Term, saved: seq<Row>, look: Look, previous: seq<string>, next: seq<string>,
                      first: nat, until: nat, viewportTop: nat)
    requires first < until && Painted(t, saved, look, previous, next, first, until, viewportTop)
    ensures Partly(t, saved, look, previous, next, first, until, viewportTop, until - 1)
  {}

  lemma FinishPainting(t: Term, saved: seq<Row>, look: Look, previous: seq<string>, next: seq<string>,
                       first: nat, renderEnd: nat, viewportTop: nat)
    requires Valid(t) && Painted(t, saved, look, previous, next, first, renderEnd + 1, viewportTop)
    requires |previous| <= viewportTop + t.height && Proper(look)
    requires viewportTop <= first <= renderEnd < |next|
    requires forall i: nat | renderEnd < i < |next| :: LineAt(previous, i) == LineAt(next, i)
    ensures var until := if |previous| > |next| then |previous| else renderEnd + 1;
      var at := if |previous| > |next| then |next| - 1 else renderEnd;
      Partly(Run(t, TailOps(renderEnd, |previous|, |next|)), saved, look, previous, next, first, until, viewportTop, at)
  {
    hide Run, Partly, Painted, Valid, Proper, EraseLinesOps, LineAt;
    RunNothing(t);
    PaintedPartly(t, saved, look, previous, next, first, renderEnd + 1, viewportTop);
    if |previous| > |next| {
      var n, height := |next|, t.height;
      SkipUnchanged(t, saved, look, previous, next, first, renderEnd + 1, viewportTop, renderEnd, first, n);
      var down := Moves(n - 1 - renderEnd);
      MovePartly(t, saved, look, previous, next, first, n, viewportTop, renderEnd, n - 1);
      var t1 := Run(t, down);
      EraseMany(t1, saved, look, previous, next, first, n, viewportTop, |previous| - n);
      RunConcat(t, down, EraseLinesOps(|previous| - n));
      var t2 := Run(t1, EraseLinesOps(|previous| - n));
      MovePartly(t2, saved, look, previous, next, first, |previous|, viewportTop, |previous| - 1, n - 1);
      RunConcat(t, down + EraseLinesOps(|previous| - n), Moves(n as int - |previous|));
    }
  }

  /** Everything a differential repaint writes. */
  function ChangedOps(look: Look, previous: seq<string>, next: seq<string>, first: nat, renderEnd: nat,
                      from: nat, viewportTop: nat, height: nat, width: nat, appendStart: bool): seq<Op>
    requires (appendStart ==> first > 0) && renderEnd < |next|
  {
    StartOps(from, viewportTop, height, first, appendStart) +
    LinesOps(look, previous, next, first, renderEnd + 1, width) + TailOps(renderEnd, |previous|, |next|)
  }

  lemma ChangedPartly(t: Term, base: nat, look: Look, previous: seq<string>, next: seq<string>,
                      first: nat, renderEnd: nat, from: nat, viewportTop: nat, appendStart: bool)
    requires Proper(look) && Valid(t) && Shows(t, base, look, previous, viewportTop) && t.row == base + from
    requires viewportTop <= from < viewportTop + t.height && viewportTop <= first <= renderEnd < |next|
    requires appendStart ==> viewportTop < first
    requires forall i: nat | renderEnd < i < |next| :: LineAt(previous, i) == LineAt(next, i)
    ensures var until := if |previous| > |next| then |previous| else renderEnd + 1;
      var at := if |previous| > |next| then |next| - 1 else renderEnd;
      Partly(Run(t, ChangedOps(look, previous, next, first, renderEnd, from,
                               viewportTop, t.height, t.width, appendStart)),
             t.rows[..base], look, previous, next, first, until, viewportTop, at)
  {
    hide Run, Partly, Painted, Valid, Shows, Proper, LinesOps, TailOps, StartOps, LineAt;
    ShowsFits(t, base, look, previous, viewportTop);
    var saved := t.rows[..base];
    StartPainting(t, base, look, previous, next, first, viewportTop, from, appendStart);
    var start := StartOps(from, viewportTop, t.height, first, appendStart);
    var lines := LinesOps(look, previous, next, first, renderEnd + 1, t.width);
    var t1 := Run(t, start);
    PaintMany(t1, saved, look, previous, next, first, renderEnd + 1, viewportTop);
    var t2 := Run(t1, lines);
    FinishPainting(t2, saved, look, previous, next, first, renderEnd, viewportTop);
    RunConcat(t, start, lines);
    RunConcat(t, start + lines, TailOps(renderEnd, |previous|, |next|));
  }

  /** Rows `from` up to `to` were blanked and nothing else changed. */
  ghost predicate Erased(t: Term, before: Term, from: nat, to: nat) {
    && Valid(t) && t.width == before.width && t.height == before.height && t.top == before.top
    && |t.rows| == |before.rows|
    && forall j | 0 <= j < |t.rows| :: t.rows[j] == if from <= j < to then Blanks(t.width) else before.rows[j]
  }

  lemma EraseHere(t: Term, before: Term, from: nat, to: nat)
    requires Erased(t, before, from, to) && from <= t.row <= to
    ensures var r := Run(t, ClearLine());
      Erased(r, before, from, Max(to, t.row + 1)) && r.row == t.row && r.col == 0
  {
    RunClearLine(t);
  }

  lemma MoveErased(t: Term, before: Term, from: nat, to: nat, diff: int)
    requires Erased(t, before, from, to)
    ensures var r := Run(t, Moves(diff));
      Erased(r, before, from, to) && r.row == Max(t.top, Min(t.row + diff, t.top + t.height - 1))
      && (t.col == 0 ==> r.col == 0)
  {
    MovesTo(t, diff);
    if diff > 0 {
      RunOne(t, Down(diff));
      StepMove(t, diff);
    } else if diff < 0 {
      RunOne(t, Up(-diff));
      StepMove(t, -diff);
    }
  }

  /** Clear the rows of `n` deleted lines below the frame, scrolling where the screen ends. */
  function EraseLinesOps(n: nat): seq<Op> {
    if n == 0 then [] else EraseLinesOps(n - 1) + (NewLine() + [EraseLine])
  }

  lemma {:induction false} EraseMany(t: Term, saved: seq<Row>, look: Look, previous: seq<string>, next: seq<string>,
                                     first: nat, until: nat, viewportTop: nat, n: nat)
    requires first < until && Valid(t) && Partly(t, saved, look, previous, next, first, until, viewportTop, until - 1)
    requires |previous| <= viewportTop + t.height && Proper(look) && |next| <= until
    ensures Partly(Run(t, EraseLinesOps(n)), saved, look, previous, next,
                   first, until + n, viewportTop, until + n - 1)
  {
    hide Partly, Run, Valid;
    RunNothing(t);
    if n > 0 {
      EraseMany(t, saved, look, previous, next, first, until, viewportTop, n - 1);
      var mid := Run(t, EraseLinesOps(n - 1));
      assert mid.width == t.width;
      RunConcat(t, EraseLinesOps(n - 1), NewLine() + [EraseLine]);
      EraseNext(mid, saved, look, previous, next, first, until + n - 1, viewportTop);
    }
  }

  /** When every line is painted or unchanged, the terminal shows what repainting leaves. */
  lemma PaintedAll(t: Term, saved: seq<Row>, look: Look, previous: seq<string>, next: seq<string>,
                   first: nat, until: nat, viewportTop: nat, at: nat)
    requires Partly(t, saved, look, previous, next, first, until, viewportTop, at) && Proper(look)
    requires forall i: nat | i < first || until <= i :: LineAt(previous, i) == LineAt(next, i)
    ensures forall i | 0 <= i < |t.rows| - |saved| ::
      t.rows[|saved| + i] == PaintedRow(look, previous, next, i, t.width)
  {
    var end := Max(until, |t.rows|);
    SkipUnchanged(t, saved, look, previous, next, first, until, viewportTop, at, 0, end);
  }
}
