/** The maze grid: cells with four wall flags, indexed `cells[x][y]` with
    `x` the column and `y` the row (rows grow downwards). */
module Grid {

  /** The four sides of a cell, in the order the carver tries them. */
  datatype Dir = Top | Right | Bottom | Left

  const Directions: seq<Dir> := [Top, Right, Bottom, Left]

  lemma InDirections(d: Dir)
    ensures d in Directions
  {
    assert Directions[0] == Top && Directions[1] == Right && Directions[2] == Bottom && Directions[3] == Left;
  }

  /** The side of a neighbour that faces side `d` of a cell. */
  function Opposite(d: Dir): (o: Dir)
    ensures o != d
  {
    match d
    case Top => Bottom
    case Right => Left
    case Bottom => Top
    case Left => Right
  }

  lemma OppositeInvolutive(d: Dir)
    ensures Opposite(Opposite(d)) == d
  {
  }

  /** The wall flags of one cell. */
  datatype Walls = Walls(top: bool, right: bool, bottom: bool, left: bool)
  {
    function Has(d: Dir): bool {
      match d
      case Top => top
      case Right => right
      case Bottom => bottom
      case Left => left
    }

    /** The flags with the wall on side `d` removed and the others kept. */
    function Without(d: Dir): (w: Walls)
      ensures !w.Has(d)
      ensures forall e :: e != d ==> w.Has(e) == Has(e)
    {
      match d
      case Top => this.(top := false)
      case Right => this.(right := false)
      case Bottom => this.(bottom := false)
      case Left => this.(left := false)
    }
  }

  const Closed := Walls(true, true, true, true)

  datatype Cell = Cell(x: int, y: int, visited: bool, walls: Walls)

  /** The `Cell` constructor: unvisited, with all four walls standing. */
  function NewCell(x: int, y: int): (c: Cell)
    ensures c.x == x && c.y == y && !c.visited
    ensures forall d :: c.walls.Has(d)
  {
    Cell(x, y, false, Closed)
  }

  datatype Coord = Coord(x: int, y: int)

  function Abs(n: int): nat {
    if n < 0 then -n else n
  }

  /** Two grid positions that share a side. */
  predicate Adjacent(a: Coord, b: Coord) {
    Abs(a.x - b.x) + Abs(a.y - b.y) == 1
  }

  /** `getNewCoords`: the position one step from `c` through side `d`. */
  function NewCoords(c: Coord, d: Dir): (n: Coord)
    ensures Adjacent(c, n)
  {
    match d
    case Top => Coord(c.x, c.y - 1)
    case Right => Coord(c.x + 1, c.y)
    case Bottom => Coord(c.x, c.y + 1)
    case Left => Coord(c.x - 1, c.y)
  }

  /** Stepping through a side and back through the opposite side returns. */
  lemma NewCoordsBack(c: Coord, d: Dir)
    ensures NewCoords(NewCoords(c, d), Opposite(d)) == c
  {
  }

  type Grid = seq<seq<Cell>>

  predicate InBounds(c: Coord, cols: int, rows: int) {
    0 <= c.x < cols && 0 <= c.y < rows
  }

  /** `cols` columns of `rows` cells, each cell knowing its own position. */
  ghost predicate Shaped(g: Grid, cols: nat, rows: nat) {
    && |g| == cols
    && (forall x :: 0 <= x < cols ==> |g[x]| == rows)
    && (forall x, y :: 0 <= x < cols && 0 <= y < rows ==> g[x][y].x == x && g[x][y].y == y)
  }

  function At(g: Grid, c: Coord): Cell
    requires 0 <= c.x < |g| && 0 <= c.y < |g[c.x]|
  {
    g[c.x][c.y]
  }

  /** The grid with the cell at `c` replaced. */
  function Update(g: Grid, c: Coord, cell: Cell): (r: Grid)
    requires 0 <= c.x < |g| && 0 <= c.y < |g[c.x]|
    ensures |r| == |g| && forall x :: 0 <= x < |g| ==> |r[x]| == |g[x]|
    ensures forall x, y :: 0 <= x < |g| && 0 <= y < |g[x]| ==>
              r[x][y] == if x == c.x && y == c.y then cell else g[x][y]
  {
    g[c.x := g[c.x][c.y := cell]]
  }

  /** `cell.visited = true` for the cell at `c`: that cell is visited with
      its walls kept, every other cell is unchanged. */
  function Visit(g: Grid, c: Coord): (r: Grid)
    requires 0 <= c.x < |g| && 0 <= c.y < |g[c.x]|
    ensures |r| == |g| && forall x :: 0 <= x < |g| ==> |r[x]| == |g[x]|
    ensures r[c.x][c.y].visited && r[c.x][c.y].walls == g[c.x][c.y].walls
    ensures r[c.x][c.y].x == g[c.x][c.y].x && r[c.x][c.y].y == g[c.x][c.y].y
    ensures forall x, y :: 0 <= x < |g| && 0 <= y < |g[x]| && (x != c.x || y != c.y) ==> r[x][y] == g[x][y]
  {
    Update(g, c, At(g, c).(visited := true))
  }

  /** `cell.walls[d] = false` for the cell at `c`: that cell loses the wall
      on side `d` and keeps its other walls and its visited flag, every other
      cell is unchanged. */
  function ClearWall(g: Grid, c: Coord, d: Dir): (r: Grid)
    requires 0 <= c.x < |g| && 0 <= c.y < |g[c.x]|
    ensures |r| == |g| && forall x :: 0 <= x < |g| ==> |r[x]| == |g[x]|
    ensures !r[c.x][c.y].walls.Has(d)
    ensures forall e :: e != d ==> r[c.x][c.y].walls.Has(e) == g[c.x][c.y].walls.Has(e)
    ensures r[c.x][c.y].visited == g[c.x][c.y].visited
    ensures r[c.x][c.y].x == g[c.x][c.y].x && r[c.x][c.y].y == g[c.x][c.y].y
    ensures forall x, y :: 0 <= x < |g| && 0 <= y < |g[x]| && (x != c.x || y != c.y) ==> r[x][y] == g[x][y]
  {
    Update(g, c, At(g, c).(walls := At(g, c).walls.Without(d)))
  }

  /** One carving step: the wall on side `d` of `cur` and the facing wall
      of its neighbour removed, and the neighbour visited. */
  function Carve(g: Grid, cur: Coord, d: Dir): Grid
    requires 0 <= cur.x < |g| && 0 <= cur.y < |g[cur.x]|
    requires var next := NewCoords(cur, d); 0 <= next.x < |g| && 0 <= next.y < |g[next.x]|
  {
    var next := NewCoords(cur, d);
    Visit(ClearWall(ClearWall(g, cur, d), next, Opposite(d)), next)
  }

  function FreshColumn(x: int, rows: nat): (column: seq<Cell>)
    ensures |column| == rows
    ensures forall y :: 0 <= y < rows ==> column[y] == NewCell(x, y)
  {
    seq(rows, y => NewCell(x, y))
  }

  /** What `setup`'s nested loops build: every cell unvisited and closed. */
  function FreshGrid(cols: nat, rows: nat): (g: Grid)
    ensures Shaped(g, cols, rows)
    ensures forall x, y :: 0 <= x < cols && 0 <= y < rows ==>
              !g[x][y].visited && forall d :: g[x][y].walls.Has(d)
  {
    seq(cols, x => FreshColumn(x, rows))
  }

  /** All positions of a `cols` by `rows` grid. */
  ghost function AllCoords(cols: nat, rows: nat): set<Coord> {
    set x, y | 0 <= x < cols && 0 <= y < rows :: Coord(x, y)
  }

  lemma InAllCoords(c: Coord, cols: nat, rows: nat)
    ensures c in AllCoords(cols, rows) <==> InBounds(c, cols, rows)
  {
    if InBounds(c, cols, rows) {
      assert Coord(c.x, c.y) in AllCoords(cols, rows);
    }
  }

  /** The positions of column `x`. */
  ghost function ColumnCoords(x: int, rows: nat): set<Coord> {
    set y | 0 <= y < rows :: Coord(x, y)
  }

  lemma {:induction false} ColumnCoordsCard(x: int, rows: nat)
    ensures |ColumnCoords(x, rows)| == rows
  {
    if rows > 0 {
      ColumnCoordsCard(x, rows - 1);
      assert ColumnCoords(x, rows) == ColumnCoords(x, rows - 1) + {Coord(x, rows - 1)};
    }
  }

  /** A grid has `cols * rows` positions. */
  lemma {:induction false} AllCoordsCard(cols: nat, rows: nat)
    ensures |AllCoords(cols, rows)| == cols * rows
  {
    if cols > 0 {
      var before, column := AllCoords(cols - 1, rows), ColumnCoords(cols - 1, rows);
      AllCoordsCard(cols - 1, rows);
      ColumnCoordsCard(cols - 1, rows);
      AddColumn(cols, rows);
      assert before !! column;
      assert |before + column| == |before| + |column|;
      assert cols * rows == (cols - 1) * rows + rows;
    }
  }

  /** The positions of a grid are those of one column fewer plus the last column. */
  lemma AddColumn(cols: nat, rows: nat)
    requires cols > 0
    ensures AllCoords(cols, rows) == AllCoords(cols - 1, rows) + ColumnCoords(cols - 1, rows)
  {
    forall c | c in AllCoords(cols - 1, rows) + ColumnCoords(cols - 1, rows)
      ensures c in AllCoords(cols, rows)
    {
      InAllCoords(c, cols - 1, rows);
      InAllCoords(c, cols, rows);
    }
    forall c | c in AllCoords(cols, rows)
      ensures c in AllCoords(cols - 1, rows) + ColumnCoords(cols - 1, rows)
    {
      InAllCoords(c, cols, rows);
      InAllCoords(c, cols - 1, rows);
      if c.x == cols - 1 {
        assert c == Coord(cols - 1, c.y);
      }
    }
  }

  lemma {:induction false} SubsetCard<T>(a: set<T>, b: set<T>)
    requires a <= b
    ensures |a| <= |b|
  {
    if a != {} {
      var e :| e in a;
      SubsetCard(a - {e}, b - {e});
    }
  }

  /** An interior wall, named by the cell on its left (`RightOf`) or above
      it (`Below`). */
  datatype Edge = RightOf(x: int, y: int) | Below(x: int, y: int)

  /** The cell on the left of or above an interior wall. */
  function Near(e: Edge): Coord {
    Coord(e.x, e.y)
  }

  /** The cell on the right of or below an interior wall. */
  function Far(e: Edge): Coord {
    match e
    case RightOf(x, y) => Coord(x + 1, y)
    case Below(x, y) => Coord(x, y + 1)
  }

  /** The interior wall on side `d` of the cell at `c`. */
  function Between(c: Coord, d: Dir): (e: Edge)
    ensures {Near(e), Far(e)} == {c, NewCoords(c, d)}
  {
    match d
    case Top => Below(c.x, c.y - 1)
    case Right => RightOf(c.x, c.y)
    case Bottom => Below(c.x, c.y)
    case Left => RightOf(c.x - 1, c.y)
  }

  /** The two sides of one wall name the same wall, and no other side does. */
  lemma BetweenShared(a: Coord, d: Dir, b: Coord, f: Dir)
    ensures Between(NewCoords(a, d), Opposite(d)) == Between(a, d)
    ensures Between(a, d) == Between(b, f) <==>
              (a == b && d == f) || (b == NewCoords(a, d) && f == Opposite(d))
  {
  }

  /** Wall `d` of cell `c` is open exactly when it leads into the grid
      and is one of the `carved` walls. */
  ghost predicate WallsMatch(g: Grid, cols: nat, rows: nat, carved: set<Edge>)
    requires Shaped(g, cols, rows)
  {
    forall x, y, d :: 0 <= x < cols && 0 <= y < rows ==>
      (g[x][y].walls.Has(d) <==>
         !(InBounds(NewCoords(Coord(x, y), d), cols, rows) && Between(Coord(x, y), d) in carved))
  }

  /** Every interior wall looks the same from both of its cells. */
  ghost predicate WallsSymmetric(g: Grid, cols: nat, rows: nat)
    requires Shaped(g, cols, rows)
  {
    forall x, y, d :: 0 <= x < cols && 0 <= y < rows && InBounds(NewCoords(Coord(x, y), d), cols, rows) ==>
      g[x][y].walls.Has(d) == At(g, NewCoords(Coord(x, y), d)).walls.Has(Opposite(d))
  }

  /** Every wall on the outer border is standing. */
  ghost predicate BorderIntact(g: Grid, cols: nat, rows: nat)
    requires Shaped(g, cols, rows)
  {
    forall x, y, d :: 0 <= x < cols && 0 <= y < rows && !InBounds(NewCoords(Coord(x, y), d), cols, rows) ==>
      g[x][y].walls.Has(d)
  }

  /** The interior walls that have been removed. */
  ghost function OpenWalls(g: Grid, cols: nat, rows: nat): set<Edge>
    requires Shaped(g, cols, rows)
  {
    (set x, y | 0 <= x < cols - 1 && 0 <= y < rows && !g[x][y].walls.right :: RightOf(x, y))
    + (set x, y | 0 <= x < cols && 0 <= y < rows - 1 && !g[x][y].walls.bottom :: Below(x, y))
  }

  /** Walls that match a set of carved interior walls are symmetric, keep
      the border intact, and their open walls are exactly that set. */
  lemma MatchedWalls(g: Grid, cols: nat, rows: nat, carved: set<Edge>)
    requires Shaped(g, cols, rows) && WallsMatch(g, cols, rows, carved)
    requires forall e :: e in carved ==> InBounds(Near(e), cols, rows) && InBounds(Far(e), cols, rows)
    ensures WallsSymmetric(g, cols, rows)
    ensures BorderIntact(g, cols, rows)
    ensures OpenWalls(g, cols, rows) == carved
  {
    forall x, y, d | 0 <= x < cols && 0 <= y < rows && InBounds(NewCoords(Coord(x, y), d), cols, rows)
      ensures g[x][y].walls.Has(d) == At(g, NewCoords(Coord(x, y), d)).walls.Has(Opposite(d))
    {
      BetweenShared(Coord(x, y), d, Coord(x, y), d);
      NewCoordsBack(Coord(x, y), d);
    }
    forall e | e in carved
      ensures e in OpenWalls(g, cols, rows)
    {
      match e
      case RightOf(x, y) =>
        assert Between(Coord(x, y), Right) == e;
      case Below(x, y) =>
        assert Between(Coord(x, y), Bottom) == e;
    }
    forall e | e in OpenWalls(g, cols, rows)
      ensures e in carved
    {
      match e
      case RightOf(x, y) =>
        assert !g[x][y].walls.Has(Right);
      case Below(x, y) =>
        assert !g[x][y].walls.Has(Bottom);
    }
  }

  /** A non-empty set of positions that contains every in-grid neighbour of
      each of its members is the whole grid: the grid is connected. */
  lemma ClosedIsAll(seen: set<Coord>, c: Coord, cols: nat, rows: nat)
    requires c in seen && seen <= AllCoords(cols, rows)
    requires forall a, d :: a in seen && InBounds(NewCoords(a, d), cols, rows) ==> NewCoords(a, d) in seen
    ensures seen == AllCoords(cols, rows)
  {
    InAllCoords(c, cols, rows);
    WalkLeft(seen, c, cols, rows);
    WalkUp(seen, c.y, cols, rows);
    forall b | b in AllCoords(cols, rows)
      ensures b in seen
    {
      InAllCoords(b, cols, rows);
      WalkDown(seen, b.y, cols, rows);
      WalkRight(seen, b, cols, rows);
    }
  }

  lemma {:induction false} WalkLeft(seen: set<Coord>, c: Coord, cols: nat, rows: nat)
    requires c in seen && InBounds(c, cols, rows)
    requires forall a, d :: a in seen && InBounds(NewCoords(a, d), cols, rows) ==> NewCoords(a, d) in seen
    ensures Coord(0, c.y) in seen
    decreases c.x
  {
    if c.x > 0 {
      assert NewCoords(c, Left) in seen;
      WalkLeft(seen, NewCoords(c, Left), cols, rows);
    }
  }

  lemma {:induction false} WalkUp(seen: set<Coord>, y: int, cols: nat, rows: nat)
    requires Coord(0, y) in seen && 0 <= y < rows && cols > 0
    requires forall a, d :: a in seen && InBounds(NewCoords(a, d), cols, rows) ==> NewCoords(a, d) in seen
    ensures Coord(0, 0) in seen
    decreases y
  {
    if y > 0 {
      assert NewCoords(Coord(0, y), Top) in seen;
      WalkUp(seen, y - 1, cols, rows);
    }
  }

  lemma {:induction false} WalkDown(seen: set<Coord>, y: int, cols: nat, rows: nat)
    requires Coord(0, 0) in seen && 0 <= y < rows && cols > 0
    requires forall a, d :: a in seen && InBounds(NewCoords(a, d), cols, rows) ==> NewCoords(a, d) in seen
    ensures Coord(0, y) in seen
    decreases y
  {
    if y > 0 {
      WalkDown(seen, y - 1, cols, rows);
      assert NewCoords(Coord(0, y - 1), Bottom) in seen;
    }
  }

  lemma {:induction false} WalkRight(seen: set<Coord>, b: Coord, cols: nat, rows: nat)
    requires Coord(0, b.y) in seen && InBounds(b, cols, rows)
    requires forall a, d :: a in seen && InBounds(NewCoords(a, d), cols, rows) ==> NewCoords(a, d) in seen
    ensures b in seen
    decreases b.x
  {
    if b.x > 0 {
      WalkRight(seen, Coord(b.x - 1, b.y), cols, rows);
      assert NewCoords(Coord(b.x - 1, b.y), Right) == b;
    }
  }

  /** Where the sides `ds`, taken one after the other, lead from `c`. */
  function End(c: Coord, ds: seq<Dir>): Coord
    decreases |ds|
  {
    if ds == [] then c else End(NewCoords(c, ds[0]), ds[1..])
  }

  /** The walk from `c` through the sides `ds` stays in the grid and
      passes only through open walls. */
  ghost predicate OpenWalk(g: Grid, cols: nat, rows: nat, c: Coord, ds: seq<Dir>)
    requires Shaped(g, cols, rows)
    decreases |ds|
  {
    && InBounds(c, cols, rows)
    && (ds == [] || (!At(g, c).walls.Has(ds[0]) && OpenWalk(g, cols, rows, NewCoords(c, ds[0]), ds[1..])))
  }

  /** From every cell of the grid some walk through open walls reaches `root`. */
  ghost predicate Connected(g: Grid, cols: nat, rows: nat, root: Coord)
    requires Shaped(g, cols, rows)
  {
    forall c :: InBounds(c, cols, rows) ==> exists ds :: OpenWalk(g, cols, rows, c, ds) && End(c, ds) == root
  }
}
