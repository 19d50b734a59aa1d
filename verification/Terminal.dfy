/**
 A character terminal as the renderer sees it: saved lines above a screen of `height` rows of `width` cells.
 `rows` holds the saved lines followed by the screen, `top` is how many lines are saved, and `row` is the
 cursor's index into `rows`. `col == width` is the state after the last column was written and before the wrap.
 The control functions are those of ECMA-48: CR (8.3.15), LF (8.3.74), CUU (8.3.22), CUD (8.3.19), CHA (8.3.9),
 CUP (8.3.21), ED (8.3.39) and EL (8.3.41); `EraseSaved` is xterm's ED 3.
 */
module Terminal {
  /** A column of a row: empty, the start of a glyph, or covered by a glyph that starts left of it. */
  datatype Cell = Blank | Lead(glyph: int) | Rest

  type Row = seq<Cell>

  datatype Op =
    | CarriageReturn
    | LineFeed
    | Up(n: nat)
    | Down(n: nat)
    | Column(n: nat)
    | EraseLine
    | EraseTail
    | EraseScreen
    | Home
    | EraseSaved
    | Text(cells: Row)

  datatype Term = Term(width: nat, height: nat, rows: seq<Row>, top: nat, row: nat, col: nat)

  ghost predicate Valid(t: Term) {
    && t.width > 0 && t.height > 0
    && |t.rows| == t.top + t.height
    && t.top <= t.row < t.top + t.height
    && t.col <= t.width
    && forall i | 0 <= i < |t.rows| :: |t.rows[i]| == t.width
  }

  function Blanks(n: nat): (r: Row)
    ensures |r| == n && forall c | 0 <= c < n :: r[c] == Blank
  {
    seq(n, _ => Blank)
  }

  function BlankRows(height: nat, width: nat): (r: seq<Row>)
    ensures |r| == height && forall i | 0 <= i < height :: r[i] == Blanks(width)
  {
    seq(height, _ => Blanks(width))
  }

  function Min(a: int, b: int): int {
    if a < b then a else b
  }

  function Max(a: int, b: int): int {
    if a < b then b else a
  }

  /** Writing over the start of a glyph blanks what is left of it. */
  function Mend(cells: Row): (r: Row)
    ensures |r| == |cells|
  {
    if cells != [] && cells[0] == Rest then [Blank] + Mend(cells[1..]) else cells
  }

  /** A row after `cells` were written from its first column on. */
  function Over(cells: Row, line: Row): (r: Row)
    requires |cells| <= |line|
    ensures |r| == |line|
  {
    cells + Mend(line[|cells|..])
  }

  function SetRow(t: Term, cells: Row): Term
    requires t.row < |t.rows|
  {
    t.(rows := t.rows[t.row := cells])
  }

  /** A line feed on the last screen row saves the first one and opens a blank one. */
  function Feed(t: Term): Term {
    if t.row + 1 < t.top + t.height then t.(row := t.row + 1)
    else t.(rows := t.rows + [Blanks(t.width)], top := t.top + 1, row := t.row + 1)
  }

  /** Write one cell at the cursor, on the next line if this one is full. */
  function Put(t: Term, cell: Cell): (r: Term)
    requires Valid(t)
    ensures Valid(r) && r.width == t.width && r.height == t.height
  {
    var s := if t.col < t.width then t else Feed(t).(col := 0);
    var line := s.rows[s.row];
    SetRow(s, line[..s.col] + [cell] + Mend(line[s.col + 1..])).(col := s.col + 1)
  }

  function PutAll(t: Term, cells: Row): (r: Term)
    requires Valid(t)
    ensures Valid(r) && r.width == t.width && r.height == t.height
  {
    if cells == [] then t else Put(PutAll(t, cells[..|cells| - 1]), cells[|cells| - 1])
  }

  /** A count of zero stands for one. */
  function Count(n: nat): nat {
    if n == 0 then 1 else n
  }

  function Step(t: Term, op: Op): (r: Term)
    requires Valid(t)
    ensures Valid(r) && r.width == t.width && r.height == t.height
  {
    var at := Min(t.col, t.width - 1);
    match op
    case CarriageReturn => t.(col := 0)
    case LineFeed => Feed(t)
    case Up(n) => t.(row := Max(t.row - Count(n), t.top), col := at)
    case Down(n) => t.(row := Min(t.row + Count(n), t.top + t.height - 1), col := at)
    case Column(n) => t.(col := Min(Count(n) - 1, t.width - 1))
    case EraseLine => SetRow(t, Blanks(t.width))
    case EraseTail => SetRow(t, t.rows[t.row][..at] + Blanks(t.width - at))
    case EraseScreen => t.(rows := t.rows[..t.top] + BlankRows(t.height, t.width))
    case Home => t.(row := t.top, col := 0)
    case EraseSaved => t.(rows := t.rows[t.top..], top := 0, row := t.row - t.top)
    case Text(cells) => PutAll(t, cells)
  }

  function Run(t: Term, ops: seq<Op>): (r: Term)
    requires Valid(t)
    ensures Valid(r) && r.width == t.width && r.height == t.height
  {
    if ops == [] then t else Step(Run(t, ops[..|ops| - 1]), ops[|ops| - 1])
  }

  lemma RunSnoc(t: Term, ops: seq<Op>, op: Op)
    requires Valid(t)
    ensures Run(t, ops + [op]) == Step(Run(t, ops), op)
  {
    assert (ops + [op])[..|ops + [op]| - 1] == ops;
  }

  lemma {:induction false} RunConcat(t: Term, a: seq<Op>, b: seq<Op>)
    requires Valid(t)
    ensures Run(t, a + b) == Run(Run(t, a), b)
  {
    if b == [] {
      assert a + b == a;
    } else {
      var m := |b| - 1;
      RunConcat(t, a, b[..m]);
      assert (a + b)[..|a + b| - 1] == a + b[..m];
    }
  }

  lemma RunOne(t: Term, op: Op)
    requires Valid(t)
    ensures Run(t, [op]) == Step(t, op)
  {
    RunSnoc(t, [], op);
    assert [] + [op] == [op];
  }

  lemma RunTwo(t: Term, first: Op, second: Op)
    requires Valid(t)
    ensures Run(t, [first, second]) == Step(Step(t, first), second)
  {
    RunOne(t, first);
    RunSnoc(t, [first], second);
    assert [first] + [second] == [first, second];
  }

  lemma RunThree(t: Term, first: Op, second: Op, third: Op)
    requires Valid(t)
    ensures Run(t, [first, second, third]) == Step(Step(Step(t, first), second), third)
  {
    RunTwo(t, first, second);
    RunSnoc(t, [first, second], third);
    assert [first, second] + [third] == [first, second, third];
  }

  /** The sequences `"\r\n"` and `"\r\x1b[2K"`. */
  function NewLine(): seq<Op> {
    [CarriageReturn, LineFeed]
  }

  function ClearLine(): seq<Op> {
    [CarriageReturn, EraseLine]
  }

  /** `"\r\n".repeat(n)` */
  function Feeds(n: nat): seq<Op> {
    if n == 0 then [] else Feeds(n - 1) + NewLine()
  }

  lemma RunNewLine(t: Term)
    requires Valid(t)
    ensures Run(t, NewLine()) == Feed(t.(col := 0))
  {
    RunTwo(t, CarriageReturn, LineFeed);
  }

  lemma RunClearLine(t: Term)
    requires Valid(t)
    ensures Run(t, ClearLine()) == SetRow(t, Blanks(t.width)).(col := 0)
  {
    RunTwo(t, CarriageReturn, EraseLine);
  }

  lemma {:induction false} MendDrop(cells: Row)
    requires cells != []
    ensures Mend(Mend(cells)[1..]) == Mend(cells[1..])
  {
    if cells[0] == Rest {
      assert Mend(cells)[1..] == Mend(cells[1..]);
      MendTwice(cells[1..]);
    }
  }

  lemma MendTwice(cells: Row)
    ensures Mend(Mend(cells)) == Mend(cells)
  {}

  lemma OverStep(front: Row, cell: Cell, line: Row)
    requires |front| < |line|
    ensures var half := Over(front, line);
      half[..|front|] + [cell] + Mend(half[|front| + 1..]) == Over(front + [cell], line)
  {
    var rest := line[|front|..];
    MendDrop(rest);
    assert rest[1..] == line[|front| + 1..];
    assert Over(front, line)[|front| + 1..] == Mend(rest)[1..];
  }

  lemma PutStep(t: Term, front: Row, cell: Cell)
    requires Valid(t) && |front| < t.width
    ensures Put(SetRow(t, Over(front, t.rows[t.row])).(col := |front|), cell)
         == SetRow(t, Over(front + [cell], t.rows[t.row])).(col := |front| + 1)
  {
    var line := t.rows[t.row];
    OverStep(front, cell, line);
    assert t.rows[t.row := Over(front, line)][t.row := Over(front + [cell], line)]
        == t.rows[t.row := Over(front + [cell], line)];
  }

  lemma OverNothing(line: Row)
    requires line == [] || line[0] != Rest
    ensures Over([], line) == line
  {}

  /** Text no wider than the row never wraps: it replaces the front of its row and nothing else. */
  lemma {:induction false} PutOver(t: Term, cells: Row)
    requires Valid(t) && t.col == 0 && |cells| <= t.width
    requires t.rows[t.row][0] != Rest
    ensures PutAll(t, cells) == SetRow(t, Over(cells, t.rows[t.row])).(col := |cells|)
  {
    if cells == [] {
      OverNothing(t.rows[t.row]);
      assert t.rows[t.row := t.rows[t.row]] == t.rows;
    } else {
      var m := |cells| - 1;
      PutOver(t, cells[..m]);
      PutStep(t, cells[..m], cells[m]);
      assert cells[..m] + [cells[m]] == cells;
    }
  }
}
