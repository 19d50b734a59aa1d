/**
 What a frame should look like: the row of cells each line stands for, the row a differential repaint leaves,
 and when the two are equal.
 */
module FrameRows {
  import opened Terminal

  /** The cells the terminal shows for a line of text: one per column of its visible width. */
  type Look = string -> Row

  /** Every covered column has its glyph to the left. */
  ghost predicate Whole(row: Row) {
    forall c | 0 <= c < |row| && row[c] == Rest :: c > 0 && row[c - 1] != Blank
  }

  ghost predicate Proper(look: Look) {
    look("") == [] && forall line :: Whole(look(line))
  }

  /** The longest front of `cells` that fits into `width` columns and splits no glyph. */
  function Fit(cells: Row, width: nat): (r: Row)
    ensures |r| <= width && r <= cells
    ensures |cells| <= width ==> r == cells
  {
    if |cells| <= width then cells
    else if width > 0 && cells[width] == Rest then Fit(cells, width - 1)
    else cells[..width]
  }

  /** What is shown of a line: no glyph is split, and no longer front that fits splits none either. */
  lemma {:induction false} FitLongest(cells: Row, width: nat)
    requires Whole(cells)
    ensures |Fit(cells, width)| < |cells| ==> cells[|Fit(cells, width)|] != Rest
    ensures forall k | |Fit(cells, width)| < k <= width && k <= |cells| :: k < |cells| && cells[k] == Rest
    decreases width
  {
    if |cells| > width > 0 && cells[width] == Rest {
      FitLongest(cells, width - 1);
    }
  }

  /** A wide glyph straddles the right edge: the clipped line stops short of it. */
  predicate Cut(cells: Row, width: nat) {
    |cells| > width > 0 && cells[width] == Rest
  }

  /** The row that shows `cells` on an empty line. */
  function RowOf(cells: Row, width: nat): (r: Row)
    ensures |r| == width
  {
    Fit(cells, width) + Blanks(width - |Fit(cells, width)|)
  }

  /** Lines below a frame are empty. */
  function LineAt(lines: seq<string>, i: nat): string {
    if i < |lines| then lines[i] else ""
  }

  function FrameRow(look: Look, lines: seq<string>, i: nat, width: nat): (r: Row)
    ensures |r| == width
  {
    RowOf(look(LineAt(lines, i)), width)
  }

  /** The renderer erases the tail of a repainted row exactly when it measures the new line narrower. */
  predicate ClearsTail(previous: Row, next: Row, width: nat) {
    Min(|next|, width) < Min(|previous|, width)
  }

  /** A row after `next` was painted over the row of `previous`. */
  function Repaint(previous: Row, next: Row, width: nat): (r: Row)
    ensures |r| == width
  {
    if ClearsTail(previous, next, width) then RowOf(next, width)
    else Over(Fit(next, width), RowOf(previous, width))
  }

  /** `next` was cut short at the right edge where `previous` still shows a glyph. */
  predicate Stale(previous: Row, next: Row, width: nat) {
    && Cut(next, width)
    && exists c | |Fit(next, width)| <= c < width :: RowOf(previous, width)[c].Lead?
  }

  lemma RowWhole(cells: Row, width: nat)
    requires Whole(cells)
    ensures Whole(RowOf(cells, width))
    ensures width > 0 ==> RowOf(cells, width)[0] != Rest
  {
    assert forall c | 0 <= c < |Fit(cells, width)| :: RowOf(cells, width)[c] == cells[c];
  }

  lemma EmptyRow(width: nat)
    ensures RowOf([], width) == Blanks(width)
  {}

  /** What mending leaves is blank exactly when no glyph starts in it. */
  lemma {:induction false} MendBlank(cells: Row)
    requires forall c | 0 < c < |cells| && cells[c] == Rest :: cells[c - 1] != Blank
    ensures Mend(cells) == Blanks(|cells|) <==> forall c | 0 <= c < |cells| :: !cells[c].Lead?
  {
    if cells == [] {
    } else if cells[0] == Rest {
      MendBlank(cells[1..]);
      assert Mend(cells) == [Blank] + Mend(cells[1..]);
      assert Blanks(|cells|) == [Blank] + Blanks(|cells| - 1);
      assert forall c | 1 <= c < |cells| :: cells[c] == cells[1..][c - 1];
      if Mend(cells) == Blanks(|cells|) {
        assert Mend(cells[1..]) == Mend(cells)[1..] == Blanks(|cells| - 1);
      }
    } else if forall c | 0 <= c < |cells| :: !cells[c].Lead? {
      NoLead(cells, |cells|);
      assert cells == Blanks(|cells|);
    } else {
      var c :| 0 <= c < |cells| && cells[c].Lead?;
      assert Blanks(|cells|)[c] == Blank;
    }
  }

  lemma {:induction false} NoLead(cells: Row, n: nat)
    requires n <= |cells| && (|cells| > 0 ==> cells[0] == Blank)
    requires forall c | 0 < c < |cells| && cells[c] == Rest :: cells[c - 1] != Blank
    requires forall c | 0 <= c < |cells| :: !cells[c].Lead?
    ensures forall c | 0 <= c < n :: cells[c] == Blank
  {
    if n > 0 {
      NoLead(cells, n - 1);
      match cells[n - 1]
      case Blank =>
      case Lead(_) =>
      case Rest => assert n > 1 && cells[n - 2] == Blank;
    }
  }

  lemma RepaintUncut(previous: Row, next: Row, width: nat)
    requires !Cut(next, width)
    ensures Repaint(previous, next, width) == RowOf(next, width)
  {
    var shown := |Fit(next, width)|;
    if !ClearsTail(previous, next, width) {
      assert |Fit(previous, width)| <= Min(|previous|, width) <= shown;
      assert RowOf(previous, width)[shown..] == Blanks(width - shown);
      assert Mend(Blanks(width - shown)) == Blanks(width - shown);
    }
  }

  lemma RepaintCut(previous: Row, next: Row, width: nat)
    requires Cut(next, width) && Whole(previous)
    ensures Repaint(previous, next, width) == RowOf(next, width) <==> !Stale(previous, next, width)
  {
    var cells := Fit(next, width);
    var row := RowOf(previous, width);
    var tail := row[|cells|..];
    assert forall c | 0 <= c < |tail| :: tail[c] == row[|cells| + c];
    RowWhole(previous, width);
    MendBlank(tail);
    assert Repaint(previous, next, width) == cells + Mend(tail);
    assert RowOf(next, width) == cells + Blanks(|tail|);
    if cells + Mend(tail) == cells + Blanks(|tail|) {
      assert (cells + Mend(tail))[|cells|..] == Mend(tail);
      assert (cells + Blanks(|tail|))[|cells|..] == Blanks(|tail|);
    }
    assert forall c | |cells| <= c < width :: row[c] == tail[c - |cells|];
  }

  /** A repaint shows the new line if and only if it leaves no stale glyph at the right edge. */
  lemma RepaintExact(previous: Row, next: Row, width: nat)
    requires Whole(previous)
    ensures Repaint(previous, next, width) == RowOf(next, width) <==> !Stale(previous, next, width)
  {
    if Cut(next, width) {
      RepaintCut(previous, next, width);
    } else {
      RepaintUncut(previous, next, width);
    }
  }

  lemma RepaintSame(cells: Row, width: nat)
    requires Whole(cells)
    ensures Repaint(cells, cells, width) == RowOf(cells, width)
  {
    RepaintExact(cells, cells, width);
  }

  /** The narrow line "ab" in two columns, repainted with a line whose wide glyph straddles the edge: "b" stays. */
  lemma StaleExample(a: int, b: int, c: int, wide: int)
    ensures var before := [Lead(a), Lead(b)];
      var after := [Lead(c), Lead(wide), Rest];
      && Repaint(before, after, 2) == [Lead(c), Lead(b)]
      && RowOf(after, 2) == [Lead(c), Blank]
  {
    var after := [Lead(c), Lead(wide), Rest];
    assert Fit(after, 2) == Fit(after, 1) == [Lead(c)];
    assert RowOf([Lead(a), Lead(b)], 2) == [Lead(a), Lead(b)];
    assert [Lead(a), Lead(b)][1..] == [Lead(b)];
  }
}
