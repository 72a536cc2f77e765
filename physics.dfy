/** One animation step of a ball: move by the velocity, keep the ball on the
    canvas, then stop it against the walls of the maze cell it is in.
    Shared by `updateBallPosition` in script.js and `Ball.updatePosition`
    in ball.js, which differ only in where the canvas and the grid come from.
    Coordinates are in pixels; the canvas size and the cell size are whole
    numbers, positions and velocities are reals. */
module Physics {
  import opened Grid

  /** Position and velocity of a ball. */
  datatype Motion = Motion(x: real, y: real, dx: real, dy: real)

  /** The chain `if (v < lo) v = lo; if (v > hi) v = hi;` of the canvas clamp. */
  function Clamp(v: real, lo: real, hi: real): (r: real)
    ensures r <= hi
    ensures lo <= hi ==> lo <= r
    ensures lo <= v <= hi ==> r == v
    ensures v < lo <= hi ==> r == lo
    ensures v > hi ==> r == hi
    ensures r == v || r == lo || r == hi
  {
    var low := if v < lo then lo else v;
    if low > hi then hi else low
  }

  /** `Math.floor(p / cellSize)`: the index of the cell band holding `p`.
      Band `i` runs from `i * cellSize` up to, not including,
      `(i + 1) * cellSize`. */
  function CellIndex(p: real, cellSize: nat): (i: int)
    requires cellSize > 0
    ensures i as real * cellSize as real <= p < (i + 1) as real * cellSize as real
  {
    var q := p / cellSize as real;
    ScaleBetween(q.Floor as real, q, (q.Floor + 1) as real, cellSize as real);
    q.Floor
  }

  /** Scaling by a positive factor keeps `lo <= q < hi`. */
  lemma ScaleBetween(lo: real, q: real, hi: real, k: real)
    requires lo <= q < hi && k > 0.0
    ensures lo * k <= q * k < hi * k
  {
    assert (q - lo) * k >= 0.0;
    assert (hi - q) * k > 0.0;
  }

  /** Move by the velocity, then clamp the centre to the canvas so that the
      ball of this radius stays inside it. The velocity is kept. */
  function Advance(m: Motion, radius: real, width: nat, height: nat): (a: Motion)
    ensures a.dx == m.dx && a.dy == m.dy
    ensures radius <= width as real - radius ==> radius <= a.x <= width as real - radius
    ensures radius <= height as real - radius ==> radius <= a.y <= height as real - radius
    ensures radius <= m.x + m.dx <= width as real - radius ==> a.x == m.x + m.dx
    ensures radius <= m.y + m.dy <= height as real - radius ==> a.y == m.y + m.dy
    ensures m.x + m.dx < radius <= width as real - radius ==> a.x == radius
    ensures m.x + m.dx > width as real - radius ==> a.x == width as real - radius
    ensures m.y + m.dy < radius <= height as real - radius ==> a.y == radius
    ensures m.y + m.dy > height as real - radius ==> a.y == height as real - radius
  {
    Motion(Clamp(m.x + m.dx, radius, width as real - radius),
           Clamp(m.y + m.dy, radius, height as real - radius),
           m.dx, m.dy)
  }

  /** The cell at column `col`, row `row` takes part in wall resolution: it
      is inside `floor(width / cellSize) x floor(height / cellSize)` and
      present in `cells`. */
  predicate OnGrid(col: int, row: int, width: nat, height: nat, cellSize: nat, cells: Grid)
    requires cellSize > 0 && |cells| >= width / cellSize
  {
    && 0 <= col < width / cellSize
    && 0 <= row < height / cellSize
    && row < |cells[col]|
  }

  /** Top wall: moving up with the wall set and the ball's top edge above
      the cell's top line. A ball moving up under a set wall ends with its
      top edge on or below the line; a ball already clear of it is not
      moved. */
  function TopRule(m: Motion, radius: real, line: real, wall: bool): (r: Motion)
    ensures r.x == m.x && r.dx == m.dx
    ensures m.dy < 0.0 && wall ==> line <= r.y - radius
    ensures line <= m.y - radius ==> r == m
    ensures !(m.dy < 0.0 && wall) ==> r == m
    ensures r != m ==> r.dy == 0.0
  {
    if m.dy < 0.0 && wall && m.y - radius < line then m.(y := line + radius, dy := 0.0) else m
  }

  /** Bottom wall: moving down with the wall set and the ball's bottom edge
      below the cell's bottom line. */
  function BottomRule(m: Motion, radius: real, line: real, wall: bool): (r: Motion)
    ensures r.x == m.x && r.dx == m.dx
    ensures m.dy > 0.0 && wall ==> r.y + radius <= line
    ensures m.y + radius <= line ==> r == m
    ensures !(m.dy > 0.0 && wall) ==> r == m
    ensures r != m ==> r.dy == 0.0
  {
    if m.dy > 0.0 && wall && m.y + radius > line then m.(y := line - radius, dy := 0.0) else m
  }

  /** Left wall: moving left with the wall set and the ball's left edge past
      the cell's left line. */
  function LeftRule(m: Motion, radius: real, line: real, wall: bool): (r: Motion)
    ensures r.y == m.y && r.dy == m.dy
    ensures m.dx < 0.0 && wall ==> line <= r.x - radius
    ensures line <= m.x - radius ==> r == m
    ensures !(m.dx < 0.0 && wall) ==> r == m
    ensures r != m ==> r.dx == 0.0
  {
    if m.dx < 0.0 && wall && m.x - radius < line then m.(x := line + radius, dx := 0.0) else m
  }

  /** Right wall: moving right with the wall set and the ball's right edge
      past the cell's right line. */
  function RightRule(m: Motion, radius: real, line: real, wall: bool): (r: Motion)
    ensures r.y == m.y && r.dy == m.dy
    ensures m.dx > 0.0 && wall ==> r.x + radius <= line
    ensures m.x + radius <= line ==> r == m
    ensures !(m.dx > 0.0 && wall) ==> r == m
    ensures r != m ==> r.dx == 0.0
  {
    if m.dx > 0.0 && wall && m.x + radius > line then m.(x := line - radius, dx := 0.0) else m
  }

  /** The four lines bounding a cell. */
  datatype Box = Box(left: real, top: real, right: real, bottom: real)

  /** The lines of cell (`col`, `row`): `col * cellSize` to
      `(col + 1) * cellSize` across, `row * cellSize` to
      `(row + 1) * cellSize` down. */
  function CellBox(col: int, row: int, cellSize: nat): Box
    requires cellSize > 0
  {
    var cs := cellSize as real;
    Box(col as real * cs, row as real * cs, (col + 1) as real * cs, (row + 1) as real * cs)
  }

  /** The four wall rules of a cell with lines `box` and walls `w`, in the
      source's order: top, bottom, left, right. The ball ends clear of
      every set wall it moves towards; a velocity component either stays or
      drops to zero, and drops only towards a set wall. */
  function Resolve(m: Motion, radius: real, box: Box, w: Walls): (r: Motion)
    ensures m.dy < 0.0 && w.top ==> box.top <= r.y - radius
    ensures m.dy > 0.0 && w.bottom ==> r.y + radius <= box.bottom
    ensures m.dx < 0.0 && w.left ==> box.left <= r.x - radius
    ensures m.dx > 0.0 && w.right ==> r.x + radius <= box.right
    ensures r.dy != m.dy ==> r.dy == 0.0 && ((m.dy < 0.0 && w.top) || (m.dy > 0.0 && w.bottom))
    ensures r.dx != m.dx ==> r.dx == 0.0 && ((m.dx < 0.0 && w.left) || (m.dx > 0.0 && w.right))
  {
    var vertical := BottomRule(TopRule(m, radius, box.top, w.top), radius, box.bottom, w.bottom);
    RightRule(LeftRule(vertical, radius, box.left, w.left), radius, box.right, w.right)
  }

  /** The four rule checks as the source runs them, one after the other on
      the next position and the velocity. */
  method ResolveWalls(m: Motion, radius: real, box: Box, w: Walls) returns (r: Motion)
    ensures r == Resolve(m, radius, box, w)
  {
    var nextX, nextY, dx, dy := m.x, m.y, m.dx, m.dy;
    if dy < 0.0 && w.top && nextY - radius < box.top {
      nextY := box.top + radius;
      dy := 0.0;
    }
    if dy > 0.0 && w.bottom && nextY + radius > box.bottom {
      nextY := box.bottom - radius;
      dy := 0.0;
    }
    if dx < 0.0 && w.left && nextX - radius < box.left {
      nextX := box.left + radius;
      dx := 0.0;
    }
    if dx > 0.0 && w.right && nextX + radius > box.right {
      nextX := box.right - radius;
      dx := 0.0;
    }
    r := Motion(nextX, nextY, dx, dy);
  }

  /** The outcome of the rules on each axis: at most one of the top and
      bottom rules applies, at most one of the left and right rules, and
      each axis is decided by its own rules alone. */
  lemma ResolveOutcome(m: Motion, radius: real, box: Box, w: Walls)
    ensures var r := Resolve(m, radius, box, w);
            && (r.y, r.dy) ==
                 (if m.dy < 0.0 && w.top && m.y - radius < box.top then (box.top + radius, 0.0)
                  else if m.dy > 0.0 && w.bottom && m.y + radius > box.bottom then (box.bottom - radius, 0.0)
                  else (m.y, m.dy))
            && (r.x, r.dx) ==
                 (if m.dx < 0.0 && w.left && m.x - radius < box.left then (box.left + radius, 0.0)
                  else if m.dx > 0.0 && w.right && m.x + radius > box.right then (box.right - radius, 0.0)
                  else (m.x, m.dx))
  {
  }

  /** The whole step: advance and clamp, find the cell of the new centre,
      and resolve its walls when it is on the grid. Each velocity component
      either stays as it was or drops to zero. */
  function WallStep(m: Motion, radius: real, width: nat, height: nat, cellSize: nat, cells: Grid): (r: Motion)
    requires cellSize > 0 && |cells| >= width / cellSize
    ensures r.dx == m.dx || r.dx == 0.0
    ensures r.dy == m.dy || r.dy == 0.0
  {
    var a := Advance(m, radius, width, height);
    var col := CellIndex(a.x, cellSize);
    var row := CellIndex(a.y, cellSize);
    if OnGrid(col, row, width, height, cellSize, cells) then Resolve(a, radius, CellBox(col, row, cellSize), cells[col][row].walls)
    else a
  }

  /** `(i + 1) * cellSize` stays within `n` for a cell index below
      `floor(n / cellSize)`. */
  lemma LineWithin(i: int, n: nat, cellSize: nat)
    requires cellSize > 0 && 0 <= i < n / cellSize
    ensures 0.0 <= i as real * cellSize as real
    ensures (i + 1) as real * cellSize as real <= n as real
  {
    assert (i + 1) * cellSize <= (n / cellSize) * cellSize;
    assert ((i + 1) * cellSize) as real == (i + 1) as real * cellSize as real;
  }

  /** A cell is `cellSize` wide and `cellSize` high. */
  lemma CellBoxSize(col: int, row: int, cellSize: nat)
    requires cellSize > 0
    ensures var b := CellBox(col, row, cellSize);
            b.right - b.left == cellSize as real && b.bottom - b.top == cellSize as real
  {
  }

  /** A cell of the grid lies inside the canvas. */
  lemma BoxWithin(col: int, row: int, width: nat, height: nat, cellSize: nat)
    requires cellSize > 0 && 0 <= col < width / cellSize && 0 <= row < height / cellSize
    ensures var box := CellBox(col, row, cellSize);
            && 0.0 <= box.left && box.right <= width as real
            && 0.0 <= box.top && box.bottom <= height as real
  {
    LineWithin(col, width, cellSize);
    LineWithin(row, height, cellSize);
  }

  /** With the ball no wider than a cell or the canvas, the step leaves the
      whole ball on the canvas, whichever walls stop it. */
  lemma WallStepOnCanvas(m: Motion, radius: real, width: nat, height: nat, cellSize: nat, cells: Grid)
    requires cellSize > 0 && |cells| >= width / cellSize
    requires 0.0 <= radius && 2.0 * radius <= cellSize as real
    requires 2.0 * radius <= width as real && 2.0 * radius <= height as real
    ensures var r := WallStep(m, radius, width, height, cellSize, cells);
            && radius <= r.x <= width as real - radius
            && radius <= r.y <= height as real - radius
  {
    var a := Advance(m, radius, width, height);
    var col := CellIndex(a.x, cellSize);
    var row := CellIndex(a.y, cellSize);
    if OnGrid(col, row, width, height, cellSize, cells) {
      BoxWithin(col, row, width, height, cellSize);
      CellBoxSize(col, row, cellSize);
      ResolveWithin(a, radius, CellBox(col, row, cellSize), cells[col][row].walls, width as real, height as real);
    }
  }

  /** A box at least one ball wide inside the canvas: the rules keep a ball
      that is on the canvas on it. */
  lemma ResolveWithin(m: Motion, radius: real, box: Box, w: Walls, width: real, height: real)
    requires 0.0 <= box.left && box.right <= width && 0.0 <= box.top && box.bottom <= height
    requires 2.0 * radius <= box.right - box.left && 2.0 * radius <= box.bottom - box.top
    requires radius <= m.x <= width - radius && radius <= m.y <= height - radius
    ensures var r := Resolve(m, radius, box, w);
            radius <= r.x <= width - radius && radius <= r.y <= height - radius
  {
    ResolveOutcome(m, radius, box, w);
  }

  /** The outcome on each axis when the cell of the advanced centre takes
      part: the rules of `ResolveOutcome` against that cell's lines. */
  lemma WallStepOutcome(m: Motion, radius: real, width: nat, height: nat, cellSize: nat, cells: Grid)
    requires cellSize > 0 && |cells| >= width / cellSize
    ensures var a := Advance(m, radius, width, height);
            var col := CellIndex(a.x, cellSize);
            var row := CellIndex(a.y, cellSize);
            var box := CellBox(col, row, cellSize);
            var r := WallStep(m, radius, width, height, cellSize, cells);
            OnGrid(col, row, width, height, cellSize, cells) ==>
              var w := cells[col][row].walls;
              && (r.y, r.dy) ==
                   (if m.dy < 0.0 && w.top && a.y - radius < box.top then (box.top + radius, 0.0)
                    else if m.dy > 0.0 && w.bottom && a.y + radius > box.bottom then (box.bottom - radius, 0.0)
                    else (a.y, m.dy))
              && (r.x, r.dx) ==
                   (if m.dx < 0.0 && w.left && a.x - radius < box.left then (box.left + radius, 0.0)
                    else if m.dx > 0.0 && w.right && a.x + radius > box.right then (box.right - radius, 0.0)
                    else (a.x, m.dx))
  {
    var a := Advance(m, radius, width, height);
    var col := CellIndex(a.x, cellSize);
    var row := CellIndex(a.y, cellSize);
    if OnGrid(col, row, width, height, cellSize, cells) {
      ResolveOutcome(a, radius, CellBox(col, row, cellSize), cells[col][row].walls);
    }
  }

  /** Off the grid no wall applies: the step is the canvas clamp alone. */
  lemma WallStepOffGrid(m: Motion, radius: real, width: nat, height: nat, cellSize: nat, cells: Grid)
    requires cellSize > 0 && |cells| >= width / cellSize
    ensures var a := Advance(m, radius, width, height);
            !OnGrid(CellIndex(a.x, cellSize), CellIndex(a.y, cellSize), width, height, cellSize, cells) ==>
              WallStep(m, radius, width, height, cellSize, cells) == a
  {
  }

  /** A velocity component changes only by dropping to zero, and only when
      the ball moves towards a wall of its cell that is set on that axis; a
      component that is zero stays zero. */
  lemma WallStepVelocity(m: Motion, radius: real, width: nat, height: nat, cellSize: nat, cells: Grid)
    requires cellSize > 0 && |cells| >= width / cellSize
    ensures var a := Advance(m, radius, width, height);
            var col := CellIndex(a.x, cellSize);
            var row := CellIndex(a.y, cellSize);
            var r := WallStep(m, radius, width, height, cellSize, cells);
            && (r.dx != m.dx ==>
                  && r.dx == 0.0
                  && OnGrid(col, row, width, height, cellSize, cells)
                  && ((m.dx < 0.0 && cells[col][row].walls.left) || (m.dx > 0.0 && cells[col][row].walls.right)))
            && (r.dy != m.dy ==>
                  && r.dy == 0.0
                  && OnGrid(col, row, width, height, cellSize, cells)
                  && ((m.dy < 0.0 && cells[col][row].walls.top) || (m.dy > 0.0 && cells[col][row].walls.bottom)))
  {
    WallStepOutcome(m, radius, width, height, cellSize, cells);
  }

  /** After the step the ball does not reach past any set wall that it was
      moving towards among the walls of the cell its centre ends in. The
      walls of other cells are not consulted: see `CornerCut`. */
  lemma WallStepNoCrossing(m: Motion, radius: real, width: nat, height: nat, cellSize: nat, cells: Grid)
    requires cellSize > 0 && |cells| >= width / cellSize
    ensures var a := Advance(m, radius, width, height);
            var col := CellIndex(a.x, cellSize);
            var row := CellIndex(a.y, cellSize);
            var box := CellBox(col, row, cellSize);
            var r := WallStep(m, radius, width, height, cellSize, cells);
            OnGrid(col, row, width, height, cellSize, cells) ==>
              var w := cells[col][row].walls;
              && (m.dy < 0.0 && w.top ==> box.top <= r.y - radius)
              && (m.dy > 0.0 && w.bottom ==> r.y + radius <= box.bottom)
              && (m.dx < 0.0 && w.left ==> box.left <= r.x - radius)
              && (m.dx > 0.0 && w.right ==> r.x + radius <= box.right)
  {
    WallStepOutcome(m, radius, width, height, cellSize, cells);
  }

  /** The 2 x 2 maze carved from (0,0) through (1,0) and (1,1) to (0,1):
      the only wall left standing inside it is the one between (0,0) and
      (0,1). */
  const SmallMaze: Grid :=
    [ [Cell(0, 0, true, Walls(true, false, true, true)), Cell(0, 1, true, Walls(true, false, true, true))],
      [Cell(1, 0, true, Walls(true, true, false, false)), Cell(1, 1, true, Walls(false, true, true, false))] ]

  /** The step moves the centre by the whole velocity at once and consults
      only the cell the centre ends in, so a ball can cut a corner through a
      set wall. In `SmallMaze`, on an 80 x 80 canvas with 40-pixel cells, a
      ball of radius 10 at (41, 45) in cell (1,1), moving at (-6, -6), ends
      at (35, 39) in cell (0,0) with its velocity kept. On the way its
      centre crosses the line y = 40 at x = 36, which is in column 0: there
      it passes through the bottom wall of (0,0), and that wall is set. */
  lemma CornerCut()
    ensures var m := Motion(41.0, 45.0, -6.0, -6.0);
            var r := WallStep(m, 10.0, 80, 80, 40, SmallMaze);
            && (CellIndex(m.x, 40), CellIndex(m.y, 40)) == (1, 1)
            && r == Motion(35.0, 39.0, -6.0, -6.0)
            && (CellIndex(r.x, 40), CellIndex(r.y, 40)) == (0, 0)
            && m.y + 5.0 / 6.0 * m.dy == 40.0 && CellIndex(m.x + 5.0 / 6.0 * m.dx, 40) == 0
            && SmallMaze[0][0].walls.bottom
  {
    var m := Motion(41.0, 45.0, -6.0, -6.0);
    var a := Advance(m, 10.0, 80, 80);
    assert a == Motion(35.0, 39.0, -6.0, -6.0);
    assert CellIndex(a.x, 40) == 0 && CellIndex(a.y, 40) == 0;
    assert Resolve(a, 10.0, CellBox(0, 0, 40), SmallMaze[0][0].walls) == a;
  }
}
