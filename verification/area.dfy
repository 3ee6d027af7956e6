/**
 Areas of effect (src/combat.cpp): a matrix with a centre, turned for each direction a spell can be cast
 in. Turning writes every cell inside the larger square, no cell twice, and the cells set around the new
 centre are the turned cells around the old one.
 */
module Areas {
  import opened Bytes

  class MatrixArea {
    const data: array2<bool>
    var centerY: nat
    var centerX: nat

    constructor (rows: nat, cols: nat)
      ensures data.Length0 == rows && data.Length1 == cols && fresh(data) && centerY == 0 && centerX == 0
      ensures forall y, x :: 0 <= y < rows && 0 <= x < cols ==> !data[y, x]
    {
      data := new bool[rows, cols]((y, x) => false);
      centerY, centerX := 0, 0;
    }

    predicate CenterInside()
      reads this
    {
      centerY < data.Length0 && centerX < data.Length1
    }

    /** Whether the cell so far below and to the right of the centre is there and set. */
    ghost predicate Hits(dy: int, dx: int)
      reads this, data
    {
      var y, x := centerY + dy, centerX + dx;
      0 <= y < data.Length0 && 0 <= x < data.Length1 && data[y, x]
    }
  }

  // ---------------------------------------------------------------- turning

  datatype Turn = Rotate90 | Rotate180 | Rotate270

  /** Cosine and sine of the angle. */
  function Cos(t: Turn): int {
    if t.Rotate180? then -1 else 0
  }

  function Sin(t: Turn): int {
    match t
    case Rotate90 => 1
    case Rotate180 => 0
    case Rotate270 => -1
  }

  function RotatedX(t: Turn, dy: int, dx: int): int {
    dx * Cos(t) + dy * -Sin(t)
  }

  function RotatedY(t: Turn, dy: int, dx: int): int {
    dx * Sin(t) + dy * Cos(t)
  }

  function Back(t: Turn): Turn {
    match t
    case Rotate90 => Rotate270
    case Rotate180 => Rotate180
    case Rotate270 => Rotate90
  }

  /** Turning back undoes turning. */
  lemma TurnBack(t: Turn, dy: int, dx: int)
    ensures var y, x := RotatedY(t, dy, dx), RotatedX(t, dy, dx);
      RotatedY(Back(t), y, x) == dy && RotatedX(Back(t), y, x) == dx
    ensures Back(Back(t)) == t
  {
  }

  /** Two quarters make a half, three make the turn to the west. */
  lemma TurnsCompose(dy: int, dx: int)
    ensures var y, x := RotatedY(Rotate90, dy, dx), RotatedX(Rotate90, dy, dx);
      && RotatedY(Rotate90, y, x) == RotatedY(Rotate180, dy, dx) && RotatedX(Rotate90, y, x) == RotatedX(Rotate180, dy, dx)
      && RotatedY(Rotate180, y, x) == RotatedY(Rotate270, dy, dx) && RotatedX(Rotate180, y, x) == RotatedX(Rotate270, dy, dx)
  {
  }

  /** What lies ahead, to the north, comes to lie to the east, the south and the west; what lies to the right follows. */
  lemma TurnsClockwise(dy: int, dx: int)
    ensures RotatedY(Rotate90, dy, dx) == dx && RotatedX(Rotate90, dy, dx) == -dy
    ensures RotatedY(Rotate180, dy, dx) == -dy && RotatedX(Rotate180, dy, dx) == -dx
    ensures RotatedY(Rotate270, dy, dx) == -dx && RotatedX(Rotate270, dy, dx) == dy
    ensures (RotatedY(Rotate90, -1, 0), RotatedX(Rotate90, -1, 0)) == (0, 1)
  {
  }

  function Max(a: nat, b: nat): nat {
    if a < b then b else a
  }

  // Offsets inside the matrix turn into offsets inside the square.
  lemma TurnFits(t: Turn, rows: nat, cols: nat, cy: nat, cx: nat, y: nat, x: nat)
    requires cy < rows && cx < cols && y < rows && x < cols
    ensures var m := Max(rows, cols);
      0 <= RotatedY(t, y - cy, x - cx) + m - 1 < 2 * m && 0 <= RotatedX(t, y - cy, x - cx) + m - 1 < 2 * m
  {
  }

  /** The cells of the input that have been turned so far: whole columns, and the start of one more. */
  predicate Done(y: int, x: int, doneY: int, doneX: int) {
    x < doneX || (x == doneX && y < doneY)
  }

  method SetCell(a: array2<bool>, r: nat, c: nat, v: bool)
    requires r < a.Length0 && c < a.Length1
    modifies a
    ensures Cells(a) == old(Cells(a))[(r as int, c as int) := v]
  {
    a[r, c] := v;
  }

  /** `AreaCombat::copyArea` for the three turns, onto a square that holds nothing yet. */
  method CopyArea(input: MatrixArea, output: MatrixArea, t: Turn)
    requires input.CenterInside() && input != output && input.data != output.data
    requires output.data.Length0 == output.data.Length1 == 2 * Side(input)
    requires forall y, x :: 0 <= y < output.data.Length0 && 0 <= x < output.data.Length1 ==> !output.data[y, x]
    modifies output, output.data
    ensures output.CenterInside()
    ensures forall dy, dx :: output.Hits(RotatedY(t, dy, dx), RotatedX(t, dy, dx)) <==> input.Hits(dy, dx)
  {
    hide RotatedX, RotatedY, Turned, FromDone, Cells, MatrixArea.Hits;
    var rotateCenterX, rotateCenterY := output.data.Length1 / 2 - 1, output.data.Length0 / 2 - 1;
    var cy, cx := input.centerY, input.centerX;
    NothingTurned(input, output, t);
    var x := 0;
    while x < input.data.Length1
      invariant 0 <= x <= input.data.Length1
      invariant Turned(input, Cells(output.data), t, 0, x)
    {
      var y := 0;
      while y < input.data.Length0
        invariant 0 <= y <= input.data.Length0
        invariant Turned(input, Cells(output.data), t, y, x)
      {
        var newX, newY := x - cx, y - cy;
        var rotatedX, rotatedY := RotatedX(t, newY, newX), RotatedY(t, newY, newX);
        TurnFits(t, input.data.Length0, input.data.Length1, cy, cx, y, x);
        ghost var before := Cells(output.data);
        WriteOne(input, before, t, y, x);
        SetCell(output.data, rotatedY + rotateCenterY, rotatedX + rotateCenterX, input.data[y, x]);
        y := y + 1;
      }
      NextColumn(input, Cells(output.data), t, x);
      x := x + 1;
    }
    output.centerY, output.centerX := rotateCenterY, rotateCenterX;
    forall dy, dx
      ensures output.Hits(RotatedY(t, dy, dx), RotatedX(t, dy, dx)) <==> input.Hits(dy, dx)
    {
      TurnedHits(input, output, t, dy, dx);
    }
  }

  /** The square's cells by row and column. */
  ghost function Cells(a: array2<bool>): map<(int, int), bool>
    reads a
  {
    map y, x | 0 <= y < a.Length0 && 0 <= x < a.Length1 :: (y, x) := a[y, x]
  }

  lemma CellIs(a: array2<bool>, r: int, c: int)
    requires 0 <= r < a.Length0 && 0 <= c < a.Length1
    ensures (r, c) in Cells(a) && Cells(a)[(r, c)] == a[r, c]
  {
  }

  function Side(input: MatrixArea): nat {
    Max(input.data.Length0, input.data.Length1)
  }

  /** The square has the cell, and it is set if the cell it comes from has been copied and is set. */
  ghost predicate TurnedAt(input: MatrixArea, cells: map<(int, int), bool>, t: Turn, doneY: int, doneX: int, r: int, c: int)
    reads input, input.data
  {
    (r, c) in cells && (cells[(r, c)] <==> FromDone(input, t, r, c, doneY, doneX))
  }

  ghost predicate Turned(input: MatrixArea, cells: map<(int, int), bool>, t: Turn, doneY: int, doneX: int)
    reads input, input.data
  {
    forall r, c :: 0 <= r < 2 * Side(input) && 0 <= c < 2 * Side(input) ==> TurnedAt(input, cells, t, doneY, doneX, r, c)
  }

  /** The row and column in the input that a cell of the square comes from. */
  ghost function SourceY(input: MatrixArea, t: Turn, r: int, c: int): int
    reads input
  {
    input.centerY + RotatedY(Back(t), r - (Side(input) - 1), c - (Side(input) - 1))
  }

  ghost function SourceX(input: MatrixArea, t: Turn, r: int, c: int): int
    reads input
  {
    input.centerX + RotatedX(Back(t), r - (Side(input) - 1), c - (Side(input) - 1))
  }

  ghost predicate FromDone(input: MatrixArea, t: Turn, r: int, c: int, doneY: int, doneX: int)
    reads input, input.data
  {
    var y, x := SourceY(input, t, r, c), SourceX(input, t, r, c);
    0 <= y < input.data.Length0 && 0 <= x < input.data.Length1 && Done(y, x, doneY, doneX) && input.data[y, x]
  }

  // A cell comes from (y, x) just when it is the one (y, x) is written to.
  lemma SourceIff(input: MatrixArea, t: Turn, r: int, c: int, y: int, x: int)
    ensures SourceY(input, t, r, c) == y && SourceX(input, t, r, c) == x <==>
      r == RotatedY(t, y - input.centerY, x - input.centerX) + Side(input) - 1
      && c == RotatedX(t, y - input.centerY, x - input.centerX) + Side(input) - 1
  {
    TurnBack(t, y - input.centerY, x - input.centerX);
    TurnBack(Back(t), r - (Side(input) - 1), c - (Side(input) - 1));
  }

  lemma NothingTurned(input: MatrixArea, output: MatrixArea, t: Turn)
    requires output.data.Length0 == output.data.Length1 == 2 * Side(input)
    requires forall y, x :: 0 <= y < output.data.Length0 && 0 <= x < output.data.Length1 ==> !output.data[y, x]
    ensures Turned(input, Cells(output.data), t, 0, 0)
  {
  }

  // Only the cell written changes, and it is the only one that comes from the cell read.
  lemma WriteOne(input: MatrixArea, cells: map<(int, int), bool>, t: Turn, y: nat, x: nat)
    requires y < input.data.Length0 && x < input.data.Length1 && Turned(input, cells, t, y, x)
    ensures var dy, dx := y - input.centerY, x - input.centerX;
      Turned(input, cells[(RotatedY(t, dy, dx) + Side(input) - 1, RotatedX(t, dy, dx) + Side(input) - 1) := input.data[y, x]], t, y + 1, x)
  {
    var dy, dx, y1 := y - input.centerY, x - input.centerX, y + 1;
    var after := cells[(RotatedY(t, dy, dx) + Side(input) - 1, RotatedX(t, dy, dx) + Side(input) - 1) := input.data[y, x]];
    hide RotatedX, RotatedY, SourceX, SourceY;
    forall r, c | 0 <= r < 2 * Side(input) && 0 <= c < 2 * Side(input)
      ensures TurnedAt(input, after, t, y1, x, r, c)
    {
      SourceIff(input, t, r, c, y, x);
      assert TurnedAt(input, cells, t, y, x, r, c);
    }
  }

  lemma NextColumn(input: MatrixArea, cells: map<(int, int), bool>, t: Turn, x: nat)
    requires x < input.data.Length1 && Turned(input, cells, t, input.data.Length0, x)
    ensures Turned(input, cells, t, 0, x + 1)
  {
    hide RotatedX, RotatedY, SourceX, SourceY;
    var x1 := x + 1;
    forall r, c | 0 <= r < 2 * Side(input) && 0 <= c < 2 * Side(input)
      ensures TurnedAt(input, cells, t, 0, x1, r, c)
    {
      assert TurnedAt(input, cells, t, input.data.Length0, x, r, c);
    }
  }

  lemma SideIs(input: MatrixArea)
    ensures Side(input) == Max(input.data.Length0, input.data.Length1)
  {
  }

  lemma TurnedThere(input: MatrixArea, cells: map<(int, int), bool>, t: Turn, doneY: int, doneX: int, r: int, c: int)
    requires Turned(input, cells, t, doneY, doneX) && 0 <= r < 2 * Side(input) && 0 <= c < 2 * Side(input)
    ensures TurnedAt(input, cells, t, doneY, doneX, r, c)
  {
  }

  lemma TurnedHits(input: MatrixArea, output: MatrixArea, t: Turn, dy: int, dx: int)
    requires input.CenterInside() && output.data.Length0 == output.data.Length1 == 2 * Side(input)
    requires output.centerY == output.centerX == Side(input) - 1
    requires Turned(input, Cells(output.data), t, 0, input.data.Length1)
    ensures output.Hits(RotatedY(t, dy, dx), RotatedX(t, dy, dx)) <==> input.Hits(dy, dx)
  {
    hide RotatedX, RotatedY, SourceX, SourceY, Cells, Turned, Side;
    var y, x := input.centerY + dy, input.centerX + dx;
    var r, c := RotatedY(t, dy, dx) + Side(input) - 1, RotatedX(t, dy, dx) + Side(input) - 1;
    assert y - input.centerY == dy && x - input.centerX == dx;
    SourceIff(input, t, r, c, y, x);
    if 0 <= y < input.data.Length0 && 0 <= x < input.data.Length1 {
      TurnFits(t, input.data.Length0, input.data.Length1, input.centerY, input.centerX, y, x);
      SideIs(input);
    }
    if 0 <= r < 2 * Side(input) && 0 <= c < 2 * Side(input) {
      TurnedThere(input, Cells(output.data), t, 0, input.data.Length1, r, c);
      CellIs(output.data, r, c);
    }
  }

  // ---------------------------------------------------------------- setting up

  /** The last entry that marks the centre, among the first n; the corner if there is none. */
  function CenterIndex(l: seq<nat>, n: nat): (i: nat)
    requires n <= |l|
    ensures i < n || i == 0
  {
    if n == 0 then 0 else if l[n - 1] == 2 || l[n - 1] == 3 then n - 1 else CenterIndex(l, n - 1)
  }

  predicate Marked(v: nat) {
    v == 1 || v == 3
  }

  lemma RowOf(cols: nat, y: nat, x: nat)
    requires x < cols
    ensures (y * cols + x) / cols == y
  {
    var q := (y * cols + x) / cols;
    assert q * cols <= y * cols + x < q * cols + cols;
    assert (y - q + 1) * cols == y * cols - q * cols + cols;
    assert (q - y + 1) * cols == q * cols - y * cols + cols;
    PositiveFactor(y - q + 1, cols);
    PositiveFactor(q - y + 1, cols);
  }

  lemma RowsApart(cols: nat, y: nat, x: nat, y': nat, x': nat)
    requires x < cols && x' < cols && y * cols + x == y' * cols + x'
    ensures y == y' && x == x'
  {
    RowOf(cols, y, x);
    RowOf(cols, y', x');
  }

  lemma RowFits(cols: nat, rows: nat, y: nat, x: nat)
    requires x < cols && y * cols + x < rows * cols
    ensures y < rows
  {
    assert (rows - y) * cols == rows * cols - y * cols;
    PositiveFactor(rows - y, cols);
  }

  // One more entry has been written, at its place.
  lemma HoldsNext(a: MatrixArea, cells: map<(int, int), bool>, l: seq<nat>, n: nat, y: nat, x: nat)
    requires n < |l| && y < a.data.Length0 && x < a.data.Length1 && n == y * a.data.Length1 + x
    requires HoldsIn(a, cells, l, n)
    ensures HoldsIn(a, cells[(y as int, x as int) := (y as int, x as int) in cells && (cells[(y as int, x as int)] || Marked(l[n]))], l, n + 1)
  {
    var cols, m := a.data.Length1, n + 1;
    var after := cells[(y as int, x as int) := (y as int, x as int) in cells && (cells[(y as int, x as int)] || Marked(l[n]))];
    forall r: nat, c: nat | r < a.data.Length0 && c < cols
      ensures HoldsCell(a, after, l, m, r, c)
    {
      assert HoldsCell(a, cells, l, n, r, c);
      if r * cols + c == n {
        RowsApart(cols, r, c, y, x);
      }
    }
  }

  ghost predicate HoldsCell(a: MatrixArea, cells: map<(int, int), bool>, l: seq<nat>, n: nat, y: nat, x: nat) {
    (y as int, x as int) in cells
    && (cells[(y as int, x as int)] <==> y * a.data.Length1 + x < n && y * a.data.Length1 + x < |l| && Marked(l[y * a.data.Length1 + x]))
  }

  ghost predicate HoldsIn(a: MatrixArea, cells: map<(int, int), bool>, l: seq<nat>, n: nat) {
    forall y: nat, x: nat :: y < a.data.Length0 && x < a.data.Length1 ==> HoldsCell(a, cells, l, n, y, x)
  }

  /** The place in the list of row y, column x. */
  function Index(cols: nat, y: nat, x: nat): nat {
    y * cols + x
  }

  lemma IndexNext(cols: nat, y: nat, x: nat)
    requires x < cols
    ensures Index(cols, y, x) + 1 == if x + 1 == cols then Index(cols, y + 1, 0) else Index(cols, y, x + 1)
  {
  }

  lemma NothingHeld(area: MatrixArea, list: seq<nat>)
    requires forall y, x :: 0 <= y < area.data.Length0 && 0 <= x < area.data.Length1 ==> !area.data[y, x]
    ensures HoldsIn(area, Cells(area.data), list, 0)
  {
  }

  /** One entry of the list goes into the matrix. */
  method Enter(area: MatrixArea, list: seq<nat>, n: nat, y: nat, x: nat)
    requires n < |list| && y < area.data.Length0 && x < area.data.Length1 && n == Index(area.data.Length1, y, x)
    requires HoldsIn(area, Cells(area.data), list, n)
    modifies area, area.data
    ensures HoldsIn(area, Cells(area.data), list, n + 1)
    ensures if list[n] == 2 || list[n] == 3 then area.centerY == y && area.centerX == x
            else area.centerY == old(area.centerY) && area.centerX == old(area.centerX)
  {
    hide HoldsIn;
    HoldsNext(area, Cells(area.data), list, n, y, x);
    var value := list[n];
    ghost var before := Cells(area.data);
    if value == 1 || value == 3 {
      area.data[y, x] := true;
    }
    if value == 2 || value == 3 {
      area.centerY, area.centerX := y, x;
    }
    assert Cells(area.data) == before[(y as int, x as int) := (y as int, x as int) in before && (before[(y as int, x as int)] || Marked(value))];
  }

  lemma ColumnsOf(n: nat, rows: nat)
    requires rows > 0 && n % rows == 0
    ensures rows * (n / rows) == n
  {
  }

  /** The matrix is the list row by row: 1 and 3 are set, and the last 2 or 3 is the centre, or else the corner. */
  ghost predicate Lists(area: MatrixArea, list: seq<nat>)
    reads area, area.data
  {
    var cols := area.data.Length1;
    var c := Index(cols, area.centerY, area.centerX);
    && (forall y: nat, x: nat :: y < area.data.Length0 && x < cols ==> ListsAt(area, list, y, x))
    && c < |list| && (list[c] == 2 || list[c] == 3 || c == 0)
    && forall k :: c < k < |list| ==> list[k] != 2 && list[k] != 3
  }

  ghost predicate ListsAt(area: MatrixArea, list: seq<nat>, y: nat, x: nat)
    requires y < area.data.Length0 && x < area.data.Length1
    reads area.data
  {
    var i := Index(area.data.Length1, y, x);
    i < |list| && (area.data[y, x] <==> list[i] == 1 || list[i] == 3)
  }

  lemma {:induction false} CenterIs(l: seq<nat>, n: nat)
    requires 0 < n <= |l|
    ensures var c := CenterIndex(l, n);
      && c < n && (l[c] == 2 || l[c] == 3 || c == 0) && forall k :: c < k < n ==> l[k] != 2 && l[k] != 3
  {
    if l[n - 1] != 2 && l[n - 1] != 3 && n > 1 {
      CenterIs(l, n - 1);
    }
  }

  lemma ListsIt(area: MatrixArea, list: seq<nat>, rows: nat)
    requires |list| > 0 && area.data.Length0 == rows && rows * area.data.Length1 == |list| && area.CenterInside()
    requires HoldsIn(area, Cells(area.data), list, |list|) && Index(area.data.Length1, area.centerY, area.centerX) == CenterIndex(list, |list|)
    ensures Lists(area, list)
  {
    hide CenterIndex, HoldsIn, Index, ListsAt, Cells;
    CenterIs(list, |list|);
    forall y: nat, x: nat | y < rows && x < area.data.Length1
      ensures ListsAt(area, list, y, x)
    {
      ListsCell(area, list, rows, y, x);
    }
  }

  lemma ListsCell(area: MatrixArea, list: seq<nat>, rows: nat, y: nat, x: nat)
    requires area.data.Length0 == rows && rows * area.data.Length1 == |list| && y < rows && x < area.data.Length1
    requires HoldsIn(area, Cells(area.data), list, |list|)
    ensures ListsAt(area, list, y, x)
  {
    InRange(area.data.Length1, rows, y, x);
    assert HoldsCell(area, Cells(area.data), list, |list|, y, x);
    CellIs(area.data, y, x);
    hide Cells, HoldsIn;
  }

  lemma InRange(cols: nat, rows: nat, y: nat, x: nat)
    requires y < rows && x < cols
    ensures y * cols + x < rows * cols
  {
    assert (rows - y) * cols == rows * cols - y * cols;
    assert (rows - y) * cols >= cols by {
      AtLeast(rows - y, cols);
    }
  }

  lemma AtLeast(a: nat, b: nat)
    requires a >= 1
    ensures a * b >= b
  {
  }

  /** `AreaCombat::createArea`: the list gives the matrix row by row; 1 and 3 are set, 2 and 3 mark the centre. */
  method CreateArea(list: seq<nat>, rows: nat) returns (area: MatrixArea)
    requires if rows == 0 then list == [] else |list| % rows == 0
    ensures fresh(area) && fresh(area.data) && area.data.Length0 == rows && rows * area.data.Length1 == |list|
    ensures HoldsIn(area, Cells(area.data), list, |list|)
    ensures |list| > 0 ==> area.CenterInside() && Index(area.data.Length1, area.centerY, area.centerX) == CenterIndex(list, |list|)
    ensures |list| > 0 ==> Lists(area, list)
  {
    hide HoldsIn, Cells, Index;
    var cols := if rows == 0 then 0 else |list| / rows;
    if rows > 0 {
      ColumnsOf(|list|, rows);
    }
    area := new MatrixArea(rows, cols);
    NothingHeld(area, list);
    Corner(cols);
    var x, y, n := 0, 0, 0;
    while n < |list|
      invariant n <= |list| && n == Index(cols, y, x) && (|list| > 0 ==> x < cols)
      invariant area.data.Length0 == rows && area.data.Length1 == cols
      invariant HoldsIn(area, Cells(area.data), list, n)
      invariant |list| > 0 ==> area.CenterInside() && Index(cols, area.centerY, area.centerX) == CenterIndex(list, n)
    {
      InMatrix(cols, rows, y, x);
      Enter(area, list, n, y, x);
      IndexNext(cols, y, x);
      x := x + 1;
      if cols == x {
        x := 0;
        y := y + 1;
      }
      n := n + 1;
    }
    if |list| > 0 {
      ListsIt(area, list, rows);
    }
  }

  lemma Corner(cols: nat)
    ensures Index(cols, 0, 0) == 0
  {
  }

  lemma InMatrix(cols: nat, rows: nat, y: nat, x: nat)
    requires x < cols && Index(cols, y, x) < rows * cols
    ensures y < rows
  {
    RowFits(cols, rows, y, x);
  }

  /** `AreaCombat::setupArea`: the area as given for the north, and turned for the other directions. */
  method SetupArea(list: seq<nat>, rows: nat) returns (north: MatrixArea, south: MatrixArea, east: MatrixArea, west: MatrixArea)
    requires |list| > 0 && rows > 0 && |list| % rows == 0
    ensures Lists(north, list) && north.data.Length0 == rows && rows * north.data.Length1 == |list|
    ensures north.CenterInside() && south.CenterInside() && east.CenterInside() && west.CenterInside()
    ensures forall dy, dx :: east.Hits(dx, -dy) <==> north.Hits(dy, dx)
    ensures forall dy, dx :: south.Hits(-dy, -dx) <==> north.Hits(dy, dx)
    ensures forall dy, dx :: west.Hits(-dx, dy) <==> north.Hits(dy, dx)
  {
    hide HoldsIn, Index, CenterIndex, RotatedY, RotatedX, Cells, Lists, MatrixArea.Hits;
    north := CreateArea(list, rows);
    var maxOutput := Max(north.data.Length1, north.data.Length0) * 2;
    south := new MatrixArea(maxOutput, maxOutput);
    CopyArea(north, south, Rotate180);
    east := new MatrixArea(maxOutput, maxOutput);
    CopyArea(north, east, Rotate90);
    west := new MatrixArea(maxOutput, maxOutput);
    CopyArea(north, west, Rotate270);
    forall dy, dx
      ensures (east.Hits(dx, -dy) <==> north.Hits(dy, dx)) && (south.Hits(-dy, -dx) <==> north.Hits(dy, dx)) && (west.Hits(-dx, dy) <==> north.Hits(dy, dx))
    {
      TurnsClockwise(dy, dx);
    }
  }
}
