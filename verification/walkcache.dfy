/**
 The walk cache (src/creature.cpp): which tiles around a creature it could step on. On each step the
 table is shifted and only its new edges are asked for; after any run of steps, except diagonal ones to
 the south, the table is what asking for every tile would give.
 */
module WalkCache {

  const MAX_VIEWPORT := 11
  const WIDTH := 2 * MAX_VIEWPORT + 1
  const HEIGHT := 2 * MAX_VIEWPORT + 1
  const COORDINATES := 0x1_0000

  datatype Position = Position(x: int, y: int, z: int)

  /** Whether the creature could step on the tile at a position: false where there is none. */
  type Ground = Position -> bool

  type Grid = g: seq<seq<bool>> | |g| == HEIGHT && forall y :: 0 <= y < |g| ==> |g[y]| == WIDTH
    witness seq(HEIGHT, y => seq(WIDTH, x => false))

  predicate OnMap(p: Position) {
    0 <= p.x < COORDINATES && 0 <= p.y < COORDINATES
  }

  /** The position that row y, column x of the table is about. */
  function At(pos: Position, y: int, x: int): Position {
    Position(pos.x - MAX_VIEWPORT + x, pos.y - MAX_VIEWPORT + y, pos.z)
  }

  /** `Map::getTile` takes coordinates of 16 bits. */
  function TileAt(m: Ground, pos: Position, y: int, x: int): bool {
    var p := At(pos, y, x);
    m(Position(p.x % COORDINATES, p.y % COORDINATES, p.z))
  }

  // ---------------------------------------------------------------- what the table should say

  predicate RightAt(g: Grid, pos: Position, m: Ground, y: nat, x: nat)
    requires y < HEIGHT && x < WIDTH
  {
    OnMap(At(pos, y, x)) && !(y == MAX_VIEWPORT && x == MAX_VIEWPORT) ==> g[y][x] == m(At(pos, y, x))
  }

  /** Off the creature's own tile, every entry about a position on the map is right. */
  ghost predicate Right(g: Grid, pos: Position, m: Ground) {
    forall y, x :: 0 <= y < HEIGHT && 0 <= x < WIDTH ==> RightAt(g, pos, m, y, x)
  }

  /** `Creature::updateMapCache`: positions that wrap around the map's edge are left alone. */
  function RefreshedCell(g: Grid, pos: Position, m: Ground, y: nat, x: nat): bool
    requires y < HEIGHT && x < WIDTH
  {
    if OnMap(At(pos, y, x)) then m(At(pos, y, x)) else g[y][x]
  }

  function Refreshed(g: Grid, pos: Position, m: Ground): Grid {
    seq(HEIGHT, y requires 0 <= y < HEIGHT => seq(WIDTH, x requires 0 <= x < WIDTH => RefreshedCell(g, pos, m, y, x)))
  }

  /** The answer of `Creature::getWalkCache` for a creature that uses the table. */
  function Answer(g: Grid, pos: Position, p: Position): int {
    if pos.z != p.z then 0
    else if p == pos then 1
    else
      var dx, dy := p.x - pos.x, p.y - pos.y;
      if -MAX_VIEWPORT <= dx <= MAX_VIEWPORT && -MAX_VIEWPORT <= dy <= MAX_VIEWPORT then
        (if g[MAX_VIEWPORT + dy][MAX_VIEWPORT + dx] then 1 else 0)
      else 2
  }

  /**
   What a creature at pos should be told about p: on another floor, no; its own tile, yes; as far as it looks
   in both directions, what the map says; and beyond, that the table does not know.
   */
  predicate Told(answer: int, pos: Position, p: Position, m: Ground) {
    var near := pos.x - 11 <= p.x <= pos.x + 11 && pos.y - 11 <= p.y <= pos.y + 11;
    && (p.z != pos.z ==> answer == 0)
    && (p == pos ==> answer == 1)
    && (p.z == pos.z && p != pos && near ==> answer == if m(p) then 1 else 0)
    && (p.z == pos.z && !near ==> answer == 2)
  }

  /** A right table answers like the map. */
  lemma RightAnswers(g: Grid, pos: Position, m: Ground, p: Position)
    requires Right(g, pos, m) && OnMap(pos) && OnMap(p)
    ensures Told(Answer(g, pos, p), pos, p, m)
  {
    var dx, dy := p.x - pos.x, p.y - pos.y;
    if -MAX_VIEWPORT <= dx <= MAX_VIEWPORT && -MAX_VIEWPORT <= dy <= MAX_VIEWPORT {
      assert RightAt(g, pos, m, MAX_VIEWPORT + dy, MAX_VIEWPORT + dx);
    }
  }

  lemma RefreshedRight(g: Grid, pos: Position, m: Ground)
    ensures Right(Refreshed(g, pos, m), pos, m)
  {
    forall y, x | 0 <= y < HEIGHT && 0 <= x < WIDTH
      ensures RightAt(Refreshed(g, pos, m), pos, m, y, x)
    {
    }
  }

  // ---------------------------------------------------------------- what a step does to the table

  predicate IsStep(before: Position, after: Position) {
    && OnMap(before) && OnMap(after) && before != after && before.z == after.z
    && -1 <= after.x - before.x <= 1 && -1 <= after.y - before.y <= 1
  }

  /** After the rows have been shifted and the row that came into view asked for. */
  function RowsCell(g: Grid, before: Position, after: Position, m: Ground, y: nat, x: nat): bool
    requires y < HEIGHT && x < WIDTH
  {
    if before.y > after.y then (if y == 0 then TileAt(m, after, 0, x) else g[y - 1][x])
    else if before.y < after.y then (if y == HEIGHT - 1 then TileAt(m, after, HEIGHT - 1, x) else g[y + 1][x])
    else g[y][x]
  }

  function Distance(a: int, b: int): nat {
    if a < b then b - a else a - b
  }

  /** After the columns have been shifted too, in all rows from the number of rows just moved on. */
  function ColumnsCell(g: Grid, before: Position, after: Position, m: Ground, y: nat, x: nat): bool
    requires y < HEIGHT && x < WIDTH
  {
    var startY := Distance(before.y, after.y);
    if before.x < after.x then
      (if x == WIDTH - 1 then TileAt(m, after, y, x)
       else RowsCell(g, before, after, m, y, if startY <= y then x + 1 else x))
    else if before.x > after.x then
      (if x == 0 then TileAt(m, after, y, x)
       else RowsCell(g, before, after, m, y, if startY <= y then x - 1 else x))
    else RowsCell(g, before, after, m, y, x)
  }

  predicate Over(pos: Position, y: nat, x: nat, p: Position) {
    At(pos, y, x) == p
  }

  /** After the step: the tile left is asked for again. */
  function SteppedCell(g: Grid, before: Position, after: Position, m: Ground, y: nat, x: nat): bool
    requires y < HEIGHT && x < WIDTH
  {
    if Over(after, y, x, before) then m(before) else ColumnsCell(g, before, after, m, y, x)
  }

  function Stepped(g: Grid, before: Position, after: Position, m: Ground): Grid {
    seq(HEIGHT, y requires 0 <= y < HEIGHT => seq(WIDTH, x requires 0 <= x < WIDTH => SteppedCell(g, before, after, m, y, x)))
  }

  /** Only the tiles the creature leaves and enters may change with the step. */
  ghost predicate SameBut(m: Ground, m': Ground, p: Position, q: Position) {
    forall t :: t != p && t != q ==> m'(t) == m(t)
  }

  predicate SouthDiagonal(before: Position, after: Position) {
    after.y > before.y && after.x != before.x
  }

  /** Where a step to the south-east or south-west is sure to leave the table right: the new column, and all rows but the first and last. */
  predicate Spared(before: Position, after: Position, y: nat, x: nat) {
    0 < y < HEIGHT - 1 || x == (if before.x < after.x then WIDTH - 1 else 0)
  }

  lemma StepRightAt(g: Grid, before: Position, after: Position, m: Ground, m': Ground, y: nat, x: nat)
    requires IsStep(before, after) && Right(g, before, m) && SameBut(m, m', before, after) && y < HEIGHT && x < WIDTH
    requires !SouthDiagonal(before, after) || Spared(before, after, y, x)
    ensures RightAt(Stepped(g, before, after, m'), after, m', y, x)
  {
    var ex, ey := after.x - before.x, after.y - before.y;
    var p := At(after, y, x);
    if OnMap(p) && !(y == MAX_VIEWPORT && x == MAX_VIEWPORT) && p != before {
      if 0 <= y + ey < HEIGHT && 0 <= x + ex < WIDTH {
        assert At(before, y + ey, x + ex) == p;
        assert RightAt(g, before, m, y + ey, x + ex);
      }
      assert p.x % COORDINATES == p.x && p.y % COORDINATES == p.y;
    }
  }

  /** Every step but a diagonal one to the south keeps the table right. */
  lemma StepRight(g: Grid, before: Position, after: Position, m: Ground, m': Ground)
    requires IsStep(before, after) && Right(g, before, m) && SameBut(m, m', before, after) && !SouthDiagonal(before, after)
    ensures Right(Stepped(g, before, after, m'), after, m')
  {
    forall y, x | 0 <= y < HEIGHT && 0 <= x < WIDTH
      ensures RightAt(Stepped(g, before, after, m'), after, m', y, x)
    {
      StepRightAt(g, before, after, m, m', y, x);
    }
  }

  // ---------------------------------------------------------------- steps to the south-east and south-west

  /** What a step to the south-east or south-west leaves in the first or last row: the answer for the tile beside. */
  function Beside(g: Grid, before: Position, after: Position, m: Ground, y: nat, x: nat): bool
    requires y < HEIGHT && x < WIDTH
  {
    var ex := after.x - before.x;
    if y == 0 then (if OnMap(At(after, 0, x - ex)) then m(At(after, 0, x - ex)) else g[1][x])
    else TileAt(m, after, y, x + ex)
  }

  predicate BesideAt(g: Grid, before: Position, after: Position, m: Ground, y: nat, x: nat)
    requires y < HEIGHT && x < WIDTH
  {
    OnMap(At(after, y, x)) && !Spared(before, after, y, x) ==> m(At(after, y, x)) == Beside(g, before, after, m, y, x)
  }

  /** In the first and last rows, apart from the new column, every tile answers like the one beside it. */
  ghost predicate EdgesRepeat(g: Grid, before: Position, after: Position, m: Ground) {
    forall y, x :: 0 <= y < HEIGHT && 0 <= x < WIDTH ==> BesideAt(g, before, after, m, y, x)
  }

  lemma SouthEdge(g: Grid, before: Position, after: Position, m: Ground, m': Ground, y: nat, x: nat)
    requires IsStep(before, after) && Right(g, before, m) && SameBut(m, m', before, after) && SouthDiagonal(before, after)
    requires y < HEIGHT && x < WIDTH && !Spared(before, after, y, x) && OnMap(At(after, y, x))
    ensures Stepped(g, before, after, m')[y][x] == Beside(g, before, after, m', y, x)
  {
    var ex := after.x - before.x;
    if y == 0 && OnMap(At(after, 0, x - ex)) {
      assert At(before, 1, x) == At(after, 0, x - ex);
      assert RightAt(g, before, m, 1, x);
    }
  }

  /** After such a step the table is right exactly when the tiles of these rows repeat. */
  lemma SouthRightIff(g: Grid, before: Position, after: Position, m: Ground, m': Ground)
    requires IsStep(before, after) && Right(g, before, m) && SameBut(m, m', before, after) && SouthDiagonal(before, after)
    ensures Right(Stepped(g, before, after, m'), after, m') <==> EdgesRepeat(g, before, after, m')
  {
    var g' := Stepped(g, before, after, m');
    forall y, x | 0 <= y < HEIGHT && 0 <= x < WIDTH
      ensures RightAt(g', after, m', y, x) <==> BesideAt(g, before, after, m', y, x)
    {
      if Spared(before, after, y, x) {
        StepRightAt(g, before, after, m, m', y, x);
      } else if OnMap(At(after, y, x)) {
        SouthEdge(g, before, after, m, m', y, x);
      }
    }
  }

  // One tile that could be stepped on, in the first row, or in the last where the first is off the map, is enough.
  lemma SouthWrong(g: Grid, before: Position, after: Position) returns (m: Ground)
    requires IsStep(before, after) && SouthDiagonal(before, after)
    ensures Right(Refreshed(g, before, m), before, m) && !Right(Stepped(Refreshed(g, before, m), before, after, m), after, m)
  {
    var ex, y := after.x - before.x, if after.y >= MAX_VIEWPORT then 0 else HEIGHT - 1;
    var t := At(after, y, MAX_VIEWPORT);
    m := (p: Position) => p == t;
    var g1 := Refreshed(g, before, m);
    RefreshedRight(g, before, m);
    SouthRightIff(g1, before, after, m, m);
    if y == 0 {
      assert RightAt(g1, before, m, 1, MAX_VIEWPORT);
      assert At(before, 1, MAX_VIEWPORT) == At(after, 0, MAX_VIEWPORT - ex);
    }
    assert !BesideAt(g1, before, after, m, y, MAX_VIEWPORT);
  }

  ghost predicate KeptRight(g: Grid, before: Position, after: Position, m: Ground, m': Ground) {
    Right(g, before, m) && SameBut(m, m', before, after) ==> Right(Stepped(g, before, after, m'), after, m')
  }

  /** A step keeps every right table right, whatever the map, exactly when it is not a diagonal one to the south. */
  lemma RightWhateverTheMap(before: Position, after: Position)
    requires IsStep(before, after)
    ensures (forall g: Grid, m: Ground, m': Ground :: KeptRight(g, before, after, m, m')) <==> !SouthDiagonal(before, after)
  {
    if SouthDiagonal(before, after) {
      var g: Grid := seq(HEIGHT, y => seq(WIDTH, x => false));
      var m := SouthWrong(g, before, after);
      assert !KeptRight(Refreshed(g, before, m), before, after, m, m);
    } else {
      forall g: Grid, m: Ground, m': Ground
        ensures KeptRight(g, before, after, m, m')
      {
        if Right(g, before, m) && SameBut(m, m', before, after) {
          StepRight(g, before, after, m, m');
        }
      }
    }
  }

  // ---------------------------------------------------------------- whole runs

  /** What the map says when something happens, and what happens: a step, a jump, or a change of one tile. */
  datatype Event = Step(to: Position, m: Ground) | Jump(to: Position, m: Ground) | Change(p: Position, m: Ground)

  datatype State = State(g: Grid, pos: Position, m: Ground)

  ghost predicate Possible(s: State, e: Event) {
    match e
    case Step(to, m) => IsStep(s.pos, to) && SameBut(s.m, m, s.pos, to)
    case Jump(to, m) => OnMap(to)
    case Change(p, m) => OnMap(p) && SameBut(s.m, m, p, p)
  }

  /** `Creature::updateTileCache` for a position: the entry about it is asked for again. */
  function Touched(g: Grid, pos: Position, p: Position, m: Ground): Grid {
    seq(HEIGHT, y requires 0 <= y < HEIGHT => seq(WIDTH, x requires 0 <= x < WIDTH => if Over(pos, y, x, p) then m(p) else g[y][x]))
  }

  ghost function Next(s: State, e: Event): State {
    match e
    case Step(to, m) => State(Stepped(s.g, s.pos, to, m), to, m)
    case Jump(to, m) => State(Refreshed(s.g, to, m), to, m)
    case Change(p, m) => State(Touched(s.g, s.pos, p, m), s.pos, m)
  }

  ghost predicate Runs(s: State, events: seq<Event>)
    decreases |events|
  {
    events == [] || (Possible(s, events[0]) && Runs(Next(s, events[0]), events[1..]))
  }

  ghost function After(s: State, events: seq<Event>): State
    decreases |events|
  {
    if events == [] then s else After(Next(s, events[0]), events[1..])
  }

  /** No step of the run is a diagonal one to the south. */
  ghost predicate NoSouthDiagonal(s: State, events: seq<Event>)
    decreases |events|
  {
    events == [] || ((events[0].Step? ==> !SouthDiagonal(s.pos, events[0].to)) && NoSouthDiagonal(Next(s, events[0]), events[1..]))
  }

  lemma ChangeRight(s: State, p: Position, m: Ground)
    requires Right(s.g, s.pos, s.m) && SameBut(s.m, m, p, p)
    ensures Right(Touched(s.g, s.pos, p, m), s.pos, m)
  {
    forall y, x | 0 <= y < HEIGHT && 0 <= x < WIDTH
      ensures RightAt(Touched(s.g, s.pos, p, m), s.pos, m, y, x)
    {
      assert RightAt(s.g, s.pos, s.m, y, x);
    }
  }

  /** Over any run without diagonal steps to the south, every answer is what the map says then. */
  lemma {:induction false} RunAnswers(s: State, events: seq<Event>, p: Position)
    requires Right(s.g, s.pos, s.m) && OnMap(s.pos) && Runs(s, events) && NoSouthDiagonal(s, events) && OnMap(p)
    ensures var t := After(s, events);
      Right(t.g, t.pos, t.m) && OnMap(t.pos) && Told(Answer(t.g, t.pos, p), t.pos, p, t.m)
    decreases |events|
  {
    hide Right, Stepped, Refreshed, Touched, Answer, Told;
    if events == [] {
      RightAnswers(s.g, s.pos, s.m, p);
    } else {
      match events[0] {
        case Step(to, m) => StepRight(s.g, s.pos, to, s.m, m);
        case Jump(to, m) => RefreshedRight(s.g, to, m);
        case Change(q, m) => ChangeRight(s, q, m);
      }
      RunAnswers(Next(s, events[0]), events[1..], p);
    }
  }

  lemma SameGrid(a: Grid, b: Grid)
    requires forall y, x :: 0 <= y < HEIGHT && 0 <= x < WIDTH ==> a[y][x] == b[y][x]
    ensures a == b
  {
    forall y | 0 <= y < HEIGHT
      ensures a[y] == b[y]
    {
    }
  }

  // ---------------------------------------------------------------- the methods

  class Creature {
    var position: Position
    const localMapCache: array<seq<bool>>

    ghost predicate Valid()
      reads this, localMapCache
    {
      && localMapCache.Length == HEIGHT
      && forall y :: 0 <= y < HEIGHT ==> |localMapCache[y]| == WIDTH
    }

    ghost function Table(): Grid
      requires Valid()
      reads this, localMapCache
    {
      localMapCache[..]
    }

    /** `Creature::updateTileCache` for an offset. */
    method UpdateTileCache(answer: bool, dx: int, dy: int)
      requires Valid()
      modifies localMapCache
      ensures Valid()
      ensures forall y, x :: 0 <= y < HEIGHT && 0 <= x < WIDTH ==>
        localMapCache[y][x] == if y == MAX_VIEWPORT + dy && x == MAX_VIEWPORT + dx then answer else old(localMapCache[y][x])
    {
      if -MAX_VIEWPORT <= dx <= MAX_VIEWPORT && -MAX_VIEWPORT <= dy <= MAX_VIEWPORT {
        localMapCache[MAX_VIEWPORT + dy] := localMapCache[MAX_VIEWPORT + dy][MAX_VIEWPORT + dx := answer];
      }
    }

    /** `Creature::updateTileCache` for a position; m answers for its tile. */
    method UpdateTileCacheAt(p: Position, m: Ground)
      requires Valid()
      modifies localMapCache
      ensures Valid() && Table() == if p.z == position.z then Touched(old(Table()), position, p, m) else old(Table())
    {
      if p.z == position.z {
        ghost var g := Table();
        UpdateTileCache(m(p), p.x - position.x, p.y - position.y);
        SameGrid(Table(), Touched(g, position, p, m));
      }
    }

    /** `Creature::updateMapCache`. */
    method UpdateMapCache(m: Ground)
      requires Valid() && OnMap(position)
      modifies localMapCache
      ensures Valid() && Table() == Refreshed(old(Table()), position, m)
    {
      ghost var g := Table();
      var y := -MAX_VIEWPORT;
      while y <= MAX_VIEWPORT
        invariant -MAX_VIEWPORT <= y <= MAX_VIEWPORT + 1 && Valid()
        invariant forall j, i :: 0 <= j < HEIGHT && 0 <= i < WIDTH ==>
          localMapCache[j][i] == if j < MAX_VIEWPORT + y then RefreshedCell(g, position, m, j, i) else g[j][i]
      {
        var x := -MAX_VIEWPORT;
        while x <= MAX_VIEWPORT
          invariant -MAX_VIEWPORT <= x <= MAX_VIEWPORT + 1 && Valid()
          invariant forall j, i :: 0 <= j < HEIGHT && 0 <= i < WIDTH ==>
            localMapCache[j][i] ==
              if j < MAX_VIEWPORT + y || (j == MAX_VIEWPORT + y && i < MAX_VIEWPORT + x) then RefreshedCell(g, position, m, j, i) else g[j][i]
        {
          var p := Position((position.x + x) % COORDINATES, (position.y + y) % COORDINATES, position.z);
          UpdateTileCache(m(p), p.x - position.x, p.y - position.y);
          x := x + 1;
        }
        y := y + 1;
      }
      SameGrid(Table(), Refreshed(g, position, m));
    }

    /** `Creature::getWalkCache`, for a creature that uses the table. */
    method GetWalkCache(p: Position) returns (answer: int)
      requires Valid()
      ensures answer == Answer(Table(), position, p)
      ensures forall m: Ground :: Right(Table(), position, m) && OnMap(position) && OnMap(p) ==> Told(answer, position, p, m)
    {
      forall m: Ground | Right(Table(), position, m) && OnMap(position) && OnMap(p)
        ensures Told(Answer(Table(), position, p), position, p, m)
      {
        RightAnswers(Table(), position, m, p);
      }
      if position.z != p.z {
        return 0;
      }
      if p == position {
        return 1;
      }
      var dx := p.x - position.x;
      if -MAX_VIEWPORT <= dx <= MAX_VIEWPORT {
        var dy := p.y - position.y;
        if -MAX_VIEWPORT <= dy <= MAX_VIEWPORT {
          return if localMapCache[MAX_VIEWPORT + dy][MAX_VIEWPORT + dx] then 1 else 0;
        }
      }
      return 2;
    }

    /** One row is asked for. */
    method UpdateRow(dy: int, m: Ground)
      requires Valid() && -MAX_VIEWPORT <= dy <= MAX_VIEWPORT
      modifies localMapCache
      ensures Valid()
      ensures forall y, x :: 0 <= y < HEIGHT && 0 <= x < WIDTH ==>
        localMapCache[y][x] == if y == MAX_VIEWPORT + dy then TileAt(m, position, y, x) else old(localMapCache[y][x])
    {
      ghost var g := Table();
      var x := -MAX_VIEWPORT;
      while x <= MAX_VIEWPORT
        invariant -MAX_VIEWPORT <= x <= MAX_VIEWPORT + 1 && Valid()
        invariant forall j, i :: 0 <= j < HEIGHT && 0 <= i < WIDTH ==>
          localMapCache[j][i] == if j == MAX_VIEWPORT + dy && i < MAX_VIEWPORT + x then TileAt(m, position, j, i) else g[j][i]
      {
        UpdateTileCache(TileAt(m, position, MAX_VIEWPORT + dy, MAX_VIEWPORT + x), x, dy);
        x := x + 1;
      }
    }

    /** One column is asked for. */
    method UpdateColumn(dx: int, m: Ground)
      requires Valid() && -MAX_VIEWPORT <= dx <= MAX_VIEWPORT
      modifies localMapCache
      ensures Valid()
      ensures forall y, x :: 0 <= y < HEIGHT && 0 <= x < WIDTH ==>
        localMapCache[y][x] == if x == MAX_VIEWPORT + dx then TileAt(m, position, y, x) else old(localMapCache[y][x])
    {
      ghost var g := Table();
      var y := -MAX_VIEWPORT;
      while y <= MAX_VIEWPORT
        invariant -MAX_VIEWPORT <= y <= MAX_VIEWPORT + 1 && Valid()
        invariant forall j, i :: 0 <= j < HEIGHT && 0 <= i < WIDTH ==>
          localMapCache[j][i] == if i == MAX_VIEWPORT + dx && j < MAX_VIEWPORT + y then TileAt(m, position, j, i) else g[j][i]
      {
        UpdateTileCache(TileAt(m, position, MAX_VIEWPORT + y, MAX_VIEWPORT + dx), dx, y);
        y := y + 1;
      }
    }

    /** The rows after a step north or south. */
    method MoveRows(oldPos: Position, newPos: Position, m: Ground)
      requires Valid() && position == newPos
      modifies localMapCache
      ensures Valid()
      ensures forall y, x :: 0 <= y < HEIGHT && 0 <= x < WIDTH ==>
        localMapCache[y][x] == RowsCell(old(Table()), oldPos, newPos, m, y, x)
    {
      ghost var g := Table();
      if oldPos.y > newPos.y {
        var y := HEIGHT - 2;
        while y >= 0
          invariant -1 <= y <= HEIGHT - 2 && Valid()
          invariant forall j :: 0 <= j <= y + 1 ==> localMapCache[j] == g[j]
          invariant forall j :: y + 1 < j < HEIGHT ==> localMapCache[j] == g[j - 1]
        {
          localMapCache[y + 1] := localMapCache[y];
          y := y - 1;
        }
        UpdateRow(-MAX_VIEWPORT, m);
      } else if oldPos.y < newPos.y {
        var y := 0;
        while y <= HEIGHT - 2
          invariant 0 <= y <= HEIGHT - 1 && Valid()
          invariant forall j :: 0 <= j < y ==> localMapCache[j] == g[j + 1]
          invariant forall j :: y <= j < HEIGHT ==> localMapCache[j] == g[j]
        {
          localMapCache[y] := localMapCache[y + 1];
          y := y + 1;
        }
        UpdateRow(MAX_VIEWPORT, m);
      }
    }

    /** One row's entries move one place to the west. */
    method ShiftRowWest(y: nat)
      requires Valid() && y < HEIGHT
      modifies localMapCache
      ensures Valid()
      ensures forall j :: 0 <= j < HEIGHT && j != y ==> localMapCache[j] == old(localMapCache[j])
      ensures forall i :: 0 <= i < WIDTH - 1 ==> localMapCache[y][i] == old(localMapCache[y][i + 1])
    {
      var x := 0;
      while x <= WIDTH - 2
        invariant 0 <= x <= WIDTH - 1 && Valid()
        invariant forall j :: 0 <= j < HEIGHT && j != y ==> localMapCache[j] == old(localMapCache[j])
        invariant forall i :: 0 <= i < x ==> localMapCache[y][i] == old(localMapCache[y][i + 1])
        invariant forall i :: x <= i < WIDTH ==> localMapCache[y][i] == old(localMapCache[y][i])
      {
        localMapCache[y] := localMapCache[y][x := localMapCache[y][x + 1]];
        x := x + 1;
      }
    }

    /** One row's entries move one place to the east. */
    method ShiftRowEast(y: nat)
      requires Valid() && y < HEIGHT
      modifies localMapCache
      ensures Valid()
      ensures forall j :: 0 <= j < HEIGHT && j != y ==> localMapCache[j] == old(localMapCache[j])
      ensures forall i :: 0 < i < WIDTH ==> localMapCache[y][i] == old(localMapCache[y][i - 1])
    {
      var x := WIDTH - 2;
      while x >= 0
        invariant -1 <= x <= WIDTH - 2 && Valid()
        invariant forall j :: 0 <= j < HEIGHT && j != y ==> localMapCache[j] == old(localMapCache[j])
        invariant forall i :: 0 <= i <= x + 1 ==> localMapCache[y][i] == old(localMapCache[y][i])
        invariant forall i :: x + 1 < i < WIDTH ==> localMapCache[y][i] == old(localMapCache[y][i - 1])
      {
        localMapCache[y] := localMapCache[y][x + 1 := localMapCache[y][x]];
        x := x - 1;
      }
    }

    /** The columns after a step east or west. The distance moved north or south is never negative. */
    method MoveColumns(oldPos: Position, newPos: Position, m: Ground)
      requires Valid() && position == newPos && Distance(oldPos.y, newPos.y) < HEIGHT
      modifies localMapCache
      ensures Valid()
      ensures oldPos.x < newPos.x ==> forall y, x :: 0 <= y < HEIGHT && 0 <= x < WIDTH ==>
        localMapCache[y][x] == if x == WIDTH - 1 then TileAt(m, newPos, y, x)
                               else old(localMapCache[y][if Distance(oldPos.y, newPos.y) <= y then x + 1 else x])
      ensures oldPos.x > newPos.x ==> forall y, x :: 0 <= y < HEIGHT && 0 <= x < WIDTH ==>
        localMapCache[y][x] == if x == 0 then TileAt(m, newPos, y, x)
                               else old(localMapCache[y][if Distance(oldPos.y, newPos.y) <= y then x - 1 else x])
      ensures oldPos.x == newPos.x ==> Table() == old(Table())
    {
      ghost var g := Table();
      if oldPos.x == newPos.x {
        return;
      }
      var startY, endY := 0, HEIGHT - 1;
      var dy: int := Distance(oldPos.y, newPos.y);
      if dy < 0 {
        endY := endY + dy;
      } else if dy > 0 {
        startY := dy;
      }
      var y := startY;
      while y <= endY
        invariant startY <= y <= endY + 1 && Valid()
        invariant forall j :: 0 <= j < startY || y <= j < HEIGHT ==> localMapCache[j] == g[j]
        invariant oldPos.x < newPos.x ==> forall j, i :: startY <= j < y && 0 <= i < WIDTH - 1 ==> localMapCache[j][i] == g[j][i + 1]
        invariant oldPos.x > newPos.x ==> forall j, i :: startY <= j < y && 0 < i < WIDTH ==> localMapCache[j][i] == g[j][i - 1]
      {
        if oldPos.x < newPos.x {
          ShiftRowWest(y);
        } else {
          ShiftRowEast(y);
        }
        y := y + 1;
      }
      UpdateColumn(if oldPos.x < newPos.x then MAX_VIEWPORT else -MAX_VIEWPORT, m);
    }

    /** The walk cache's part of `Creature::onCreatureMove`, for the creature's own moves. */
    method OnCreatureMove(oldPos: Position, newPos: Position, teleport: bool, m: Ground)
      requires Valid() && OnMap(newPos)
      requires teleport || oldPos.z != newPos.z || IsStep(oldPos, newPos)
      modifies `position, localMapCache
      ensures Valid() && position == newPos
      ensures Table() == if teleport || oldPos.z != newPos.z then Refreshed(old(Table()), newPos, m)
                         else Stepped(old(Table()), oldPos, newPos, m)
    {
      ghost var g := Table();
      position := newPos;
      if teleport || oldPos.z != newPos.z {
        UpdateMapCache(m);
      } else {
        MoveRows(oldPos, newPos, m);
        MoveColumns(oldPos, newPos, m);
        assert forall y, x :: 0 <= y < HEIGHT && 0 <= x < WIDTH ==> Table()[y][x] == ColumnsCell(g, oldPos, newPos, m, y, x);
        UpdateTileCacheAt(oldPos, m);
        SameGrid(Table(), Stepped(g, oldPos, newPos, m));
      }
    }
  }
}
