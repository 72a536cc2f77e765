/** The invariant of the randomized depth-first carver and the facts that
    each of its steps keeps it. */
module Carving {
  import opened Grid

  /** The state of the carver between two iterations of its loop:
      `seen` is the set of visited cells, `carved` the interior walls
      removed so far, `stack` the path back to `start`. */
  ghost predicate Inv(g: Grid, cols: nat, rows: nat, start: Coord,
                      stack: seq<Coord>, seen: set<Coord>, carved: set<Edge>)
  {
    && Shaped(g, cols, rows)
    && start in seen
    && Tracks(g, cols, rows, seen)
    && OnStackSeen(stack, seen)
    && Exhausted(cols, rows, stack, seen)
    && WallsMatch(g, cols, rows, carved)
    && CarvedSeen(carved, seen)
  }

  /** The visited flags are exactly the members of `seen`, all in the grid. */
  ghost predicate Tracks(g: Grid, cols: nat, rows: nat, seen: set<Coord>)
    requires Shaped(g, cols, rows)
  {
    && seen <= AllCoords(cols, rows)
    && forall x, y :: 0 <= x < cols && 0 <= y < rows ==> (g[x][y].visited <==> Coord(x, y) in seen)
  }

  ghost predicate OnStackSeen(stack: seq<Coord>, seen: set<Coord>) {
    forall i :: 0 <= i < |stack| ==> stack[i] in seen
  }

  /** A visited cell off the stack has no unvisited neighbour left. */
  ghost predicate Exhausted(cols: nat, rows: nat, stack: seq<Coord>, seen: set<Coord>) {
    forall c, d :: c in seen && c !in stack && InBounds(NewCoords(c, d), cols, rows) ==> NewCoords(c, d) in seen
  }

  /** Both cells of every carved wall are visited, and there is one carved
      wall fewer than visited cells. */
  ghost predicate CarvedSeen(carved: set<Edge>, seen: set<Coord>) {
    && (forall e :: e in carved ==> Near(e) in seen && Far(e) in seen)
    && |carved| + 1 == |seen|
  }

  /** A maze as the carver leaves it: every cell visited, walls symmetric,
      the border closed and exactly `cols * rows - 1` interior walls removed. */
  ghost predicate Perfect(g: Grid, cols: nat, rows: nat) {
    && Shaped(g, cols, rows)
    && (forall x, y :: 0 <= x < cols && 0 <= y < rows ==> g[x][y].visited)
    && WallsSymmetric(g, cols, rows)
    && BorderIntact(g, cols, rows)
    && |OpenWalls(g, cols, rows)| == cols * rows - 1
  }

  /** The start cell marked visited and pushed. */
  lemma InvInit(g: Grid, cols: nat, rows: nat, start: Coord)
    requires g == FreshGrid(cols, rows) && InBounds(start, cols, rows)
    ensures Inv(Visit(g, start), cols, rows, start, [start], {start}, {})
  {
    var g': Grid := Visit(g, start);
    InAllCoords(start, cols, rows);
    forall x: int, y: int, d: Dir | 0 <= x < cols && 0 <= y < rows
      ensures g'[x][y].walls.Has(d)
    {
      assert g'[x][y].walls == g[x][y].walls;
    }
  }

  /** What one carving step does to the cells: the wall on side `d` of
      `cur` and the facing wall of its neighbour go, the neighbour becomes
      visited, and every other cell is unchanged. */
  lemma CarveCells(g: Grid, cols: nat, rows: nat, cur: Coord, d: Dir)
    requires Shaped(g, cols, rows)
    requires InBounds(cur, cols, rows) && InBounds(NewCoords(cur, d), cols, rows)
    ensures var next := NewCoords(cur, d);
            var g' := Visit(ClearWall(ClearWall(g, cur, d), next, Opposite(d)), next);
            && Shaped(g', cols, rows)
            && forall x, y :: 0 <= x < cols && 0 <= y < rows ==>
                 && g'[x][y].visited == (g[x][y].visited || (x == next.x && y == next.y))
                 && g'[x][y].walls ==
                      if x == cur.x && y == cur.y then g[x][y].walls.Without(d)
                      else if x == next.x && y == next.y then g[x][y].walls.Without(Opposite(d))
                      else g[x][y].walls
  {
  }

  /** Removing the wall pair between `cur` and its neighbour through `d`
      keeps the walls matched with the carved set, grown by that wall. */
  lemma CarveMatches(g: Grid, cols: nat, rows: nat, carved: set<Edge>, cur: Coord, d: Dir)
    requires Shaped(g, cols, rows) && WallsMatch(g, cols, rows, carved)
    requires InBounds(cur, cols, rows) && InBounds(NewCoords(cur, d), cols, rows)
    ensures var next := NewCoords(cur, d);
            var g' := Visit(ClearWall(ClearWall(g, cur, d), next, Opposite(d)), next);
            && Shaped(g', cols, rows)
            && WallsMatch(g', cols, rows, carved + {Between(cur, d)})
            && forall x, y :: 0 <= x < cols && 0 <= y < rows ==>
                 g'[x][y].visited == (g[x][y].visited || (x == next.x && y == next.y))
  {
    var next := NewCoords(cur, d);
    var g': Grid := Visit(ClearWall(ClearWall(g, cur, d), next, Opposite(d)), next);
    var carved' := carved + {Between(cur, d)};
    CarveCells(g, cols, rows, cur, d);
    NewCoordsBack(cur, d);
    forall x: int, y: int, f: Dir | 0 <= x < cols && 0 <= y < rows
      ensures g'[x][y].walls.Has(f) <==>
                !(InBounds(NewCoords(Coord(x, y), f), cols, rows) && Between(Coord(x, y), f) in carved')
    {
      var c := Coord(x, y);
      BetweenShared(cur, d, c, f);
      if c == cur && f == d {
      } else if c == next && f == Opposite(d) {
      } else {
        assert Between(c, f) != Between(cur, d);
        assert g'[x][y].walls.Has(f) == g[x][y].walls.Has(f);
      }
    }
  }

  /** A wall leading to an unvisited cell has not been carved yet, so
      carving it adds one open wall and one visited cell. */
  lemma FreshEdge(seen: set<Coord>, carved: set<Edge>, cur: Coord, d: Dir)
    requires CarvedSeen(carved, seen) && cur in seen
    requires NewCoords(cur, d) !in seen
    ensures CarvedSeen(carved + {Between(cur, d)}, seen + {NewCoords(cur, d)})
    ensures |seen + {NewCoords(cur, d)}| == |seen| + 1
  {
    assert Between(cur, d) !in carved;
  }

  /** Adding a grid position to a set of grid positions keeps it within
      the size of the grid. */
  lemma GrowWithin(seen: set<Coord>, next: Coord, cols: nat, rows: nat)
    requires seen <= AllCoords(cols, rows) && InBounds(next, cols, rows)
    ensures |seen + {next}| <= cols * rows
  {
    InAllCoords(next, cols, rows);
    AllCoordsCard(cols, rows);
    SubsetCard(seen + {next}, AllCoords(cols, rows));
  }

  /** The top of the stack has an unvisited in-grid neighbour through side
      `d`: removing the wall pair between them, marking the neighbour
      visited and pushing it keeps the invariant, with one more cell and
      one more open wall. */
  lemma InvPush(g: Grid, cols: nat, rows: nat, start: Coord,
                stack: seq<Coord>, seen: set<Coord>, carved: set<Edge>, cur: Coord, d: Dir)
    requires Inv(g, cols, rows, start, stack, seen, carved)
    requires |stack| > 0 && cur == stack[|stack| - 1]
    requires InBounds(NewCoords(cur, d), cols, rows)
    requires !At(g, NewCoords(cur, d)).visited
    ensures InBounds(cur, cols, rows)
    ensures var next := NewCoords(cur, d);
            && Inv(Visit(ClearWall(ClearWall(g, cur, d), next, Opposite(d)), next), cols, rows, start,
                   stack + [next], seen + {next}, carved + {Between(cur, d)})
            && |seen + {next}| == |seen| + 1 <= cols * rows
  {
    var next := NewCoords(cur, d);
    assert cur in seen;
    InAllCoords(cur, cols, rows);
    InAllCoords(next, cols, rows);
    GrowWithin(seen, next, cols, rows);
    CarveMatches(g, cols, rows, carved, cur, d);
    PushTracks(g, cols, rows, seen, cur, d);
    PushExhausted(cols, rows, stack, seen, next);
    FreshEdge(seen, carved, cur, d);
  }

  lemma PushTracks(g: Grid, cols: nat, rows: nat, seen: set<Coord>, cur: Coord, d: Dir)
    requires Shaped(g, cols, rows) && Tracks(g, cols, rows, seen)
    requires InBounds(cur, cols, rows) && InBounds(NewCoords(cur, d), cols, rows)
    ensures var next := NewCoords(cur, d);
            var g' := Visit(ClearWall(ClearWall(g, cur, d), next, Opposite(d)), next);
            Shaped(g', cols, rows) && Tracks(g', cols, rows, seen + {next})
  {
    CarveCells(g, cols, rows, cur, d);
    InAllCoords(NewCoords(cur, d), cols, rows);
  }

  lemma PushExhausted(cols: nat, rows: nat, stack: seq<Coord>, seen: set<Coord>, next: Coord)
    requires Exhausted(cols, rows, stack, seen)
    ensures Exhausted(cols, rows, stack + [next], seen + {next})
  {
    forall c, f | c in seen + {next} && c !in stack + [next] && InBounds(NewCoords(c, f), cols, rows)
      ensures NewCoords(c, f) in seen + {next}
    {
      assert c in seen && c !in stack;
    }
  }

  /** The top of the stack has no unvisited in-grid neighbour: popping it
      keeps the invariant. */
  lemma InvPop(g: Grid, cols: nat, rows: nat, start: Coord,
               stack: seq<Coord>, seen: set<Coord>, carved: set<Edge>, top: Coord)
    requires Inv(g, cols, rows, start, stack, seen, carved)
    requires |stack| > 0 && top == stack[|stack| - 1]
    requires forall d :: InBounds(NewCoords(top, d), cols, rows) ==> At(g, NewCoords(top, d)).visited
    ensures Inv(g, cols, rows, start, stack[..|stack| - 1], seen, carved)
  {
    var stack' := stack[..|stack| - 1];
    assert stack == stack' + [top];
    forall c, d | c in seen && c !in stack' && InBounds(NewCoords(c, d), cols, rows)
      ensures NewCoords(c, d) in seen
    {
      if c == top {
        var n := NewCoords(c, d);
        assert g[n.x][n.y].visited;
      } else {
        assert c !in stack;
      }
    }
  }

  /** With the stack empty, the carver has produced a perfect maze. */
  lemma InvDone(g: Grid, cols: nat, rows: nat, start: Coord, seen: set<Coord>, carved: set<Edge>)
    requires Inv(g, cols, rows, start, [], seen, carved)
    ensures Perfect(g, cols, rows)
    ensures seen == AllCoords(cols, rows)
  {
    ClosedIsAll(seen, start, cols, rows);
    AllCoordsCard(cols, rows);
    forall x, y | 0 <= x < cols && 0 <= y < rows
      ensures g[x][y].visited
    {
      InAllCoords(Coord(x, y), cols, rows);
    }
    forall e | e in carved
      ensures InBounds(Near(e), cols, rows) && InBounds(Far(e), cols, rows)
    {
      InAllCoords(Near(e), cols, rows);
      InAllCoords(Far(e), cols, rows);
    }
    MatchedWalls(g, cols, rows, carved);
  }

  /** The carving tree so far, as a witness: every visited cell but `root`
      has a side `up[c]` whose wall is open and which leads to a visited
      cell nearer to `root` by `depth`. */
  ghost predicate Linked(g: Grid, cols: nat, rows: nat, root: Coord, seen: set<Coord>,
                         up: map<Coord, Dir>, depth: map<Coord, nat>)
    requires Shaped(g, cols, rows)
  {
    && seen <= depth.Keys
    && (forall c :: c in seen ==> InBounds(c, cols, rows))
    && forall c :: c in seen && c != root ==>
         && c in up
         && InBounds(c, cols, rows)
         && !At(g, c).walls.Has(up[c])
         && NewCoords(c, up[c]) in seen
         && depth[NewCoords(c, up[c])] < depth[c]
  }

  /** The start cell alone is a carving tree. */
  lemma LinkedInit(g: Grid, cols: nat, rows: nat, start: Coord)
    requires Shaped(g, cols, rows) && InBounds(start, cols, rows)
    ensures Linked(g, cols, rows, start, {start}, map[], map[start := 0])
  {
  }

  /** Carving from `cur` into its unvisited neighbour through `d` hangs the
      neighbour below `cur` in the tree. */
  lemma LinkedPush(g: Grid, cols: nat, rows: nat, root: Coord, seen: set<Coord>,
                   up: map<Coord, Dir>, depth: map<Coord, nat>, cur: Coord, d: Dir)
    requires Shaped(g, cols, rows) && Linked(g, cols, rows, root, seen, up, depth)
    requires cur in seen && InBounds(NewCoords(cur, d), cols, rows) && NewCoords(cur, d) !in seen
    ensures var next := NewCoords(cur, d);
            var g' := Visit(ClearWall(ClearWall(g, cur, d), next, Opposite(d)), next);
            && Shaped(g', cols, rows)
            && Linked(g', cols, rows, root, seen + {next}, up[next := Opposite(d)], depth[next := depth[cur] + 1])
  {
    var next := NewCoords(cur, d);
    var g' := Visit(ClearWall(ClearWall(g, cur, d), next, Opposite(d)), next);
    var up', depth' := up[next := Opposite(d)], depth[next := depth[cur] + 1];
    CarveCells(g, cols, rows, cur, d);
    NewCoordsBack(cur, d);
    forall c | c in seen + {next} && c != root
      ensures && c in up'
              && InBounds(c, cols, rows)
              && !At(g', c).walls.Has(up'[c])
              && NewCoords(c, up'[c]) in seen + {next}
              && depth'[NewCoords(c, up'[c])] < depth'[c]
    {
      if c == next {
        assert g'[next.x][next.y].walls == g[next.x][next.y].walls.Without(Opposite(d));
      } else {
        assert c != next && NewCoords(c, up[c]) != next;
        assert !g[c.x][c.y].walls.Has(up[c]);
      }
    }
  }

  /** Following `up` from a visited cell reaches `root` through open walls. */
  lemma {:induction false} LinkedRoute(g: Grid, cols: nat, rows: nat, root: Coord, seen: set<Coord>,
                                       up: map<Coord, Dir>, depth: map<Coord, nat>, c: Coord)
    requires Shaped(g, cols, rows) && Linked(g, cols, rows, root, seen, up, depth) && c in seen
    ensures exists ds :: OpenWalk(g, cols, rows, c, ds) && End(c, ds) == root
    decreases depth[c]
  {
    if c == root {
      assert OpenWalk(g, cols, rows, c, []) && End(c, []) == root;
    } else {
      var p := NewCoords(c, up[c]);
      LinkedRoute(g, cols, rows, root, seen, up, depth, p);
      var ds :| OpenWalk(g, cols, rows, p, ds) && End(p, ds) == root;
      var walk := [up[c]] + ds;
      assert walk[1..] == ds;
      assert OpenWalk(g, cols, rows, c, walk) && End(c, walk) == root;
    }
  }

  /** A carving tree over the whole grid connects every cell to its root. */
  lemma LinkedConnected(g: Grid, cols: nat, rows: nat, root: Coord,
                        up: map<Coord, Dir>, depth: map<Coord, nat>)
    requires Shaped(g, cols, rows) && Linked(g, cols, rows, root, AllCoords(cols, rows), up, depth)
    ensures Connected(g, cols, rows, root)
  {
    forall c | InBounds(c, cols, rows)
      ensures exists ds :: OpenWalk(g, cols, rows, c, ds) && End(c, ds) == root
    {
      InAllCoords(c, cols, rows);
      LinkedRoute(g, cols, rows, root, AllCoords(cols, rows), up, depth, c);
    }
  }
}
