/** The `Ball` class of ball.js: a ball that moves through the maze and
    stops against the walls of the cell it is in. */
module Balls {
  import opened Grid
  import opened Physics

  class Ball {
    var x: real
    var y: real
    var radius: real
    var color: string
    var dx: real
    var dy: real

    /** Position and velocity, as one value. */
    function State(): Motion
      reads this
    {
      Motion(x, y, dx, dy)
    }

    /** A ball at rest at (`x`, `y`). */
    constructor (x: real, y: real, radius: real, color: string)
      ensures this.x == x && this.y == y && this.radius == radius && this.color == color
      ensures dx == 0.0 && dy == 0.0
    {
      this.x := x;
      this.y := y;
      this.radius := radius;
      this.color := color;
      dx := 0.0;
      dy := 0.0;
    }

    /** `updatePosition(canvas, cellSize, cells)`: one step of `WallStep`
        against the canvas of `width` x `height` and the grid `cells`. The
        radius and the colour are kept. */
    method UpdatePosition(width: nat, height: nat, cellSize: nat, cells: Grid)
      requires cellSize > 0 && |cells| >= width / cellSize
      modifies this
      ensures State() == WallStep(old(State()), radius, width, height, cellSize, cells)
      ensures radius == old(radius) && color == old(color)
    {
      ghost var a := Advance(State(), radius, width, height);
      var nextX := x + dx;
      var nextY := y + dy;

      if nextX < radius { nextX := radius; }
      if nextX > width as real - radius { nextX := width as real - radius; }
      assert nextX == a.x;
      if nextY < radius { nextY := radius; }
      if nextY > height as real - radius { nextY := height as real - radius; }
      assert nextY == a.y;

      var col := CellIndex(nextX, cellSize);
      var row := CellIndex(nextY, cellSize);

      if 0 <= col < width / cellSize && 0 <= row < height / cellSize && row < |cells[col]| {
        var r := ResolveWalls(Motion(nextX, nextY, dx, dy), radius, CellBox(col, row, cellSize), cells[col][row].walls);
        nextX, nextY, dx, dy := r.x, r.y, r.dx, r.dy;
      }

      x := nextX;
      y := nextY;
    }

    /** `reset(x, y)`: back to rest at (`x`, `y`). */
    method Reset(x: real, y: real)
      modifies this
      ensures this.x == x && this.y == y && dx == 0.0 && dy == 0.0
      ensures radius == old(radius) && color == old(color)
    {
      this.x := x;
      this.y := y;
      dx := 0.0;
      dy := 0.0;
    }
  }
}
