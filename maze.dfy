/** The maze of script.js: the `cells` grid, `setup` and the randomized
    depth-first carver `genMaze`. */
module MazeGen {
  import opened Grid
  import opened Carving
  import Random

  /** An in-grid, not yet visited neighbour, with the side it lies on. */
  datatype Candidate = Candidate(dir: Dir, cell: Coord)

  /** The `unvisitedNeighbors` list of `genMaze`: for each side in `ds`, in
      order, the neighbour through it if it is in the grid and unvisited. */
  function UnvisitedNeighbours(g: Grid, cols: nat, rows: nat, c: Coord, ds: seq<Dir>): (r: seq<Candidate>)
    requires Shaped(g, cols, rows)
    ensures forall k :: 0 <= k < |r| ==>
              && r[k].dir in ds
              && r[k].cell == NewCoords(c, r[k].dir)
              && InBounds(r[k].cell, cols, rows)
              && !At(g, r[k].cell).visited
    ensures forall d :: d in ds && InBounds(NewCoords(c, d), cols, rows) && !At(g, NewCoords(c, d)).visited ==>
              Candidate(d, NewCoords(c, d)) in r
    ensures r == [] <==>
              forall d :: d in ds && InBounds(NewCoords(c, d), cols, rows) ==> At(g, NewCoords(c, d)).visited
  {
    if ds == [] then []
    else
      var n := NewCoords(c, ds[0]);
      var rest := UnvisitedNeighbours(g, cols, rows, c, ds[1..]);
      if InBounds(n, cols, rows) && !g[n.x][n.y].visited then [Candidate(ds[0], n)] + rest else rest
  }

  class Maze {
    const cols: nat
    const rows: nat
    var cells: Grid

    /** The module-level `cells = []` with the grid size fixed by the canvas. */
    constructor (cols: nat, rows: nat)
      ensures this.cols == cols && this.rows == rows && cells == []
    {
      this.cols := cols;
      this.rows := rows;
      cells := [];
    }

    /** `setup`: fill the grid with fresh cells, then carve from (0, 0). */
    method Setup(random: nat -> real)
      requires cols > 0 && rows > 0
      requires forall i :: Random.IsDraw(random(i))
      modifies this
      ensures Perfect(cells, cols, rows) && Connected(cells, cols, rows, Coord(0, 0))
    {
      var grid: Grid := [];
      for x := 0 to cols
        invariant |grid| == x
        invariant forall i :: 0 <= i < x ==> grid[i] == FreshColumn(i, rows)
      {
        var column: seq<Cell> := [];
        for y := 0 to rows
          invariant |column| == y
          invariant forall j :: 0 <= j < y ==> column[j] == NewCell(x, j)
        {
          column := column + [NewCell(x, y)];
        }
        grid := grid + [column];
      }
      cells := grid;
      GenMaze(0, 0, random);
    }

    /** `removeWalls`: clear side `dir` of `current` and the facing side of
        its neighbour `next`. */
    method RemoveWalls(current: Coord, next: Coord, dir: Dir)
      requires Shaped(cells, cols, rows)
      requires InBounds(current, cols, rows) && next == NewCoords(current, dir) && InBounds(next, cols, rows)
      modifies this
      ensures cells == ClearWall(ClearWall(old(cells), current, dir), next, Opposite(dir))
      ensures Shaped(cells, cols, rows)
    {
      cells := ClearWall(cells, current, dir);
      cells := ClearWall(cells, next, Opposite(dir));
    }

    /** `genMaze`: iterative randomized depth-first carving from (x, y);
        the i-th call of `Math.random()` answers `random(i)`. */
    method GenMaze(x: int, y: int, random: nat -> real)
      requires cells == FreshGrid(cols, rows)
      requires InBounds(Coord(x, y), cols, rows)
      requires forall i :: Random.IsDraw(random(i))
      modifies this
      ensures Perfect(cells, cols, rows) && Connected(cells, cols, rows, Coord(x, y))
    {
      var stack: seq<Coord> := [];
      var start := Coord(x, y);
      InvInit(cells, cols, rows, start);
      cells := Visit(cells, start);
      LinkedInit(cells, cols, rows, start);
      stack := stack + [start];
      ghost var seen: set<Coord> := {start};
      ghost var carved: set<Edge> := {};
      ghost var up: map<Coord, Dir> := map[];
      ghost var depth: map<Coord, nat> := map[start := 0];
      var draws: nat := 0;
      AllCoordsCard(cols, rows);
      InAllCoords(start, cols, rows);
      while |stack| > 0
        invariant Inv(cells, cols, rows, start, stack, seen, carved)
        invariant Linked(cells, cols, rows, start, seen, up, depth)
        invariant |seen| <= cols * rows
        decreases cols * rows - |seen|, |stack|
      {
        stack, seen, carved, up, depth, draws := CarveStep(start, stack, seen, carved, up, depth, draws, random);
      }
      InvDone(cells, cols, rows, start, seen, carved);
      LinkedConnected(cells, cols, rows, start, up, depth);
    }

    /** One pass of the `genMaze` loop on the cell at the top of the stack:
        carve into a randomly chosen unvisited neighbour and push it, or pop
        the cell when it has none. */
    method CarveStep(start: Coord, stack: seq<Coord>, ghost seen: set<Coord>, ghost carved: set<Edge>,
                     ghost up: map<Coord, Dir>, ghost depth: map<Coord, nat>, draws: nat, random: nat -> real)
      returns (stack': seq<Coord>, ghost seen': set<Coord>, ghost carved': set<Edge>,
               ghost up': map<Coord, Dir>, ghost depth': map<Coord, nat>, draws': nat)
      requires Inv(cells, cols, rows, start, stack, seen, carved) && |stack| > 0
      requires Linked(cells, cols, rows, start, seen, up, depth)
      requires forall i :: Random.IsDraw(random(i))
      modifies this
      ensures Inv(cells, cols, rows, start, stack', seen', carved')
      ensures Linked(cells, cols, rows, start, seen', up', depth')
      ensures InBounds(stack[|stack| - 1], cols, rows)
      ensures var top := stack[|stack| - 1];
              var unvisited := UnvisitedNeighbours(old(cells), cols, rows, top, Directions);
              if |unvisited| > 0 then
                var choice := unvisited[Random.PickIndex(random(draws), |unvisited|)];
                && stack' == stack + [choice.cell]
                && seen' == seen + {choice.cell}
                && carved' == carved + {Between(top, choice.dir)}
                && cells == Carve(old(cells), top, choice.dir)
                && draws' == draws + 1
              else
                && stack' == stack[..|stack| - 1]
                && seen' == seen && carved' == carved
                && cells == old(cells) && draws' == draws
      ensures || (|seen'| == |seen| + 1 <= cols * rows)
              || (seen' == seen && |stack'| < |stack|)
    {
      var current := stack[|stack| - 1];
      var unvisited := UnvisitedNeighbours(cells, cols, rows, current, Directions);
      draws' := draws;
      if |unvisited| > 0 {
        var choice := unvisited[Random.PickIndex(random(draws), |unvisited|)];
        draws' := draws + 1;
        InvPush(cells, cols, rows, start, stack, seen, carved, current, choice.dir);
        LinkedPush(cells, cols, rows, start, seen, up, depth, current, choice.dir);
        RemoveWalls(current, choice.cell, choice.dir);
        cells := Visit(cells, choice.cell);
        stack' := stack + [choice.cell];
        seen', carved' := seen + {choice.cell}, carved + {Between(current, choice.dir)};
        up', depth' := up[choice.cell := Opposite(choice.dir)], depth[choice.cell := depth[current] + 1];
      } else {
        forall d | InBounds(NewCoords(current, d), cols, rows)
          ensures At(cells, NewCoords(current, d)).visited
        {
          InDirections(d);
        }
        InAllCoords(current, cols, rows);
        InvPop(cells, cols, rows, start, stack, seen, carved, current);
        stack', seen', carved' := stack[..|stack| - 1], seen, carved;
        up', depth' := up, depth;
      }
    }
  }
}
