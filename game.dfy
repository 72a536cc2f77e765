/** The game of script.js: four balls on a canvas holding a maze and a
    hole. Each ball steps against the maze walls, wins when it drops into
    the hole, and swaps velocities with any ball it touches; the tilt of
    the device sets the velocity of the first ball. */
module Game {
  import opened Grid
  import opened Carving
  import opened Physics
  import opened MazeGen
  import Tilt
  import Random

  datatype Option<T> = None | Some(value: T)

  /** A ball record of script.js. */
  datatype BallState = BallState(id: string, x: real, y: real, radius: real, color: string,
                                 dx: real, dy: real, isWinner: bool)
  {
    function State(): Motion {
      Motion(x, y, dx, dy)
    }
  }

  datatype Hole = Hole(x: real, y: real, radius: real)

  /** The `updateBall` message: a velocity for the ball `id`. */
  datatype UpdateBall = UpdateBall(id: string, dx: real, dy: real)

  const CellSize: nat := 40
  const BallRadius: real := 10.0
  const HoleRadius: real := 16.0
  /** `maxSpeed`, and the `maxTilt` that reaches it. */
  const MaxSpeed: real := 6.0
  const MaxTilt: real := 30.0

  /** The balls as the page creates them on a canvas `width` pixels wide;
      the third ball's `y` is taken from the width as well. */
  function StartBalls(width: nat): (bs: seq<BallState>)
    ensures |bs| == 4
    ensures forall k :: 0 <= k < 4 ==> bs[k].radius == BallRadius && bs[k].dx == 0.0 && bs[k].dy == 0.0 && !bs[k].isWinner
  {
    var w := width as real;
    [ BallState("1", 20.0, 20.0, BallRadius, "blue", 0.0, 0.0, false),
      BallState("2", w - 20.0, 20.0, BallRadius, "red", 0.0, 0.0, false),
      BallState("3", 20.0, w - 20.0, BallRadius, "yellow", 0.0, 0.0, false),
      BallState("4", w / 2.0, 20.0, BallRadius, "green", 0.0, 0.0, false) ]
  }

  /** The hole, 20 pixels in from the bottom-right corner; on a canvas at
      least 36 pixels each way it lies wholly on the canvas. */
  function StartHole(width: nat, height: nat): (h: Hole)
    ensures h.radius == HoleRadius
    ensures 36 <= width ==> 0.0 <= h.x - h.radius && h.x + h.radius <= width as real
    ensures 36 <= height ==> 0.0 <= h.y - h.radius && h.y + h.radius <= height as real
  {
    Hole(width as real - 20.0, height as real - 20.0, HoleRadius)
  }

  /** `initialPositions` of `resetGame`. */
  const InitialPositions: seq<(real, real)> := [(20.0, 20.0), (580.0, 20.0), (20.0, 580.0), (300.0, 20.0)]

  /** Ball number `k` as `resetGame` leaves it: back at its initial
      position, at rest, not a winner; name, size and colour kept. */
  function Respawned(b: BallState, k: nat): (r: BallState)
    requires k < |InitialPositions|
    ensures r.id == b.id && r.radius == b.radius && r.color == b.color
    ensures (r.x, r.y) == InitialPositions[k] && r.dx == 0.0 && r.dy == 0.0 && !r.isWinner
  {
    b.(x := InitialPositions[k].0, y := InitialPositions[k].1, dx := 0.0, dy := 0.0, isWinner := false)
  }

  /** The reset table is the start layout only on a canvas 600 pixels
      wide: on any other width some ball restarts somewhere else. */
  lemma ResetMatchesStart(width: nat)
    ensures (forall k :: 0 <= k < 4 ==> InitialPositions[k] == (StartBalls(width)[k].x, StartBalls(width)[k].y))
            <==> width == 600
  {
    if width != 600 {
      assert InitialPositions[1] != (StartBalls(width)[1].x, StartBalls(width)[1].y);
    }
  }

  function Sqr(r: real): real {
    r * r
  }

  /** Squares of non-negative numbers are ordered as the numbers are. */
  lemma SqrLess(a: real, b: real)
    requires 0.0 <= a && 0.0 <= b
    ensures a < b <==> Sqr(a) < Sqr(b)
  {
    if a < b {
      SqrStrict(a, b);
    } else if b < a {
      SqrStrict(b, a);
    }
  }

  lemma SqrStrict(a: real, b: real)
    requires 0.0 <= a < b
    ensures Sqr(a) < Sqr(b)
  {
    var aa, ab, bb := a * a, a * b, b * b;
    assert aa <= ab by {
      assert a * (b - a) == ab - aa;
      assert a * (b - a) >= 0.0;
    }
    assert ab < bb by {
      assert (b - a) * b == bb - ab;
      assert (b - a) * b > 0.0;
    }
    assert Sqr(a) == aa && Sqr(b) == bb;
  }

  /** `Math.sqrt(dx * dx + dy * dy) < limit`, on squares. */
  function Closer(dx: real, dy: real, limit: real): bool {
    limit > 0.0 && Sqr(dx) + Sqr(dy) < Sqr(limit)
  }

  /** `Closer` compares the Euclidean length `d` of (`dx`, `dy`) with `limit`. */
  lemma CloserIsDistance(dx: real, dy: real, limit: real, d: real)
    requires 0.0 <= d && Sqr(d) == Sqr(dx) + Sqr(dy)
    ensures Closer(dx, dy, limit) <==> d < limit
  {
    if limit > 0.0 {
      SqrLess(d, limit);
    }
  }

  /** `isBallInHole`: only a ball smaller than the hole can be in it. */
  function IsBallInHole(b: BallState, h: Hole): (r: bool)
    ensures r ==> b.radius < h.radius
  {
    Closer(b.x - h.x, b.y - h.y, h.radius - b.radius)
  }

  /** The ball is in the hole exactly when its centre is nearer to the
      hole's centre than the hole's radius minus its own, so that the
      whole ball lies within the hole. */
  lemma InHoleIsDistance(b: BallState, h: Hole, d: real)
    requires 0.0 <= d && Sqr(d) == Sqr(b.x - h.x) + Sqr(b.y - h.y)
    ensures IsBallInHole(b, h) <==> d < h.radius - b.radius
  {
    CloserIsDistance(b.x - h.x, b.y - h.y, h.radius - b.radius, d);
  }

  /** A ball centred on the hole and smaller than it is in the hole. */
  lemma CentredInHole(b: BallState, h: Hole)
    requires b.x == h.x && b.y == h.y && b.radius < h.radius
    ensures IsBallInHole(b, h)
  {
    SqrStrict(0.0, h.radius - b.radius);
  }

  /** The collision test of `detectBallCollisions`. It does not depend on
      the order of the two balls, and only balls of positive total radius
      can touch. */
  function Overlap(b1: BallState, b2: BallState): (r: bool)
    ensures r == Closer(b1.x - b2.x, b1.y - b2.y, b2.radius + b1.radius)
    ensures r ==> 0.0 < b1.radius + b2.radius
  {
    Closer(b2.x - b1.x, b2.y - b1.y, b1.radius + b2.radius)
  }

  /** Two balls collide exactly when their centres are nearer than the
      sum of their radii. */
  lemma OverlapIsDistance(b1: BallState, b2: BallState, d: real)
    requires 0.0 <= d && Sqr(d) == Sqr(b2.x - b1.x) + Sqr(b2.y - b1.y)
    ensures Overlap(b1, b2) <==> d < b1.radius + b2.radius
  {
    CloserIsDistance(b2.x - b1.x, b2.y - b1.y, b1.radius + b2.radius, d);
  }

  /** A ball with its velocity set aside: what a collision never changes. */
  function Body(b: BallState): BallState {
    b.(dx := 0.0, dy := 0.0)
  }

  /** The velocity of each ball, in order. */
  function Velocities(s: seq<BallState>): seq<(real, real)> {
    seq(|s|, k requires 0 <= k < |s| => (s[k].dx, s[k].dy))
  }

  /** The body of each ball, in order. */
  function Bodies(s: seq<BallState>): seq<BallState> {
    seq(|s|, k requires 0 <= k < |s| => Body(s[k]))
  }

  /** Collisions only move velocities around: every body is kept, and
      the velocities are a rearrangement of the old ones. */
  ghost predicate Shuffled(r: seq<BallState>, s: seq<BallState>) {
    && Bodies(r) == Bodies(s)
    && multiset(Velocities(r)) == multiset(Velocities(s))
  }

  lemma ShuffledTrans(a: seq<BallState>, b: seq<BallState>, c: seq<BallState>)
    requires Shuffled(b, a) && Shuffled(c, b)
    ensures Shuffled(c, a)
  {
  }

  /** One pair (`i`, `j`) of `detectBallCollisions`: when the two balls
      overlap they trade velocities and keep everything else; otherwise, and
      for every other ball, nothing changes. */
  function PairStep(s: seq<BallState>, i: nat, j: nat): (r: seq<BallState>)
    requires i < j < |s|
    ensures |r| == |s|
    ensures forall k :: 0 <= k < |s| && k != i && k != j ==> r[k] == s[k]
    ensures Overlap(s[i], s[j]) ==>
              && Body(r[i]) == Body(s[i]) && Body(r[j]) == Body(s[j])
              && (r[i].dx, r[i].dy) == (s[j].dx, s[j].dy)
              && (r[j].dx, r[j].dy) == (s[i].dx, s[i].dy)
    ensures !Overlap(s[i], s[j]) ==> r == s
  {
    if Overlap(s[i], s[j]) then s[i := s[i].(dx := s[j].dx, dy := s[j].dy)][j := s[j].(dx := s[i].dx, dy := s[i].dy)]
    else s
  }

  /** A pair step keeps the bodies and permutes the velocities. */
  lemma PairStepShuffles(s: seq<BallState>, i: nat, j: nat)
    requires i < j < |s|
    ensures Shuffled(PairStep(s, i, j), s)
  {
    var r := PairStep(s, i, j);
    if Overlap(s[i], s[j]) {
      var v := Velocities(s);
      assert Velocities(r) == v[i := v[j]][j := v[i]];
      SwapMultiset(v, i, j);
      assert Bodies(r) == Bodies(s);
    }
  }

  lemma SwapMultiset<T>(v: seq<T>, i: nat, j: nat)
    requires i < j < |v|
    ensures multiset(v[i := v[j]][j := v[i]]) == multiset(v)
  {
    var w := v[i := v[j]][j := v[i]];
    var a, b, c := v[..i], v[i + 1..j], v[j + 1..];
    assert v == a + [v[i]] + b + [v[j]] + c;
    assert w == a + [v[j]] + b + [v[i]] + c;
  }

  /** Row `i` of the collision pass, up to (not including) partner `j`. */
  function CollideUpTo(s: seq<BallState>, i: nat, j: nat): (r: seq<BallState>)
    requires i < j <= |s|
    ensures |r| == |s|
    decreases j
  {
    if j == i + 1 then s else PairStep(CollideUpTo(s, i, j - 1), i, j - 1)
  }

  /** The first `i` rows of the collision pass. */
  function CollideRows(s: seq<BallState>, i: nat): (r: seq<BallState>)
    requires i <= |s|
    ensures |r| == |s|
  {
    if i == 0 then s else CollideUpTo(CollideRows(s, i - 1), i - 1, |s|)
  }

  /** The whole collision pass over all pairs `i < j`, in loop order. It
      moves no ball and changes no name, size, colour or win flag; the
      velocities after it are the velocities before it, rearranged. */
  function CollideAll(s: seq<BallState>): (r: seq<BallState>)
    ensures |r| == |s|
    ensures Shuffled(r, s)
  {
    CollideRowsShuffles(s, |s|);
    CollideRows(s, |s|)
  }

  lemma {:induction false} CollideUpToShuffles(s: seq<BallState>, i: nat, j: nat)
    requires i < j <= |s|
    ensures Shuffled(CollideUpTo(s, i, j), s)
    decreases j
  {
    if j > i + 1 {
      var t := CollideUpTo(s, i, j - 1);
      CollideUpToShuffles(s, i, j - 1);
      PairStepShuffles(t, i, j - 1);
      ShuffledTrans(s, t, PairStep(t, i, j - 1));
    }
  }

  lemma {:induction false} CollideRowsShuffles(s: seq<BallState>, i: nat)
    requires i <= |s|
    ensures Shuffled(CollideRows(s, i), s)
  {
    if i > 0 {
      var t := CollideRows(s, i - 1);
      CollideRowsShuffles(s, i - 1);
      CollideUpToShuffles(t, i - 1, |s|);
      ShuffledTrans(s, t, CollideUpTo(t, i - 1, |s|));
    }
  }

  /** Whether two balls overlap depends on their bodies alone. */
  lemma OverlapOfBodies(a: BallState, b: BallState, a': BallState, b': BallState)
    requires Body(a) == Body(a') && Body(b) == Body(b')
    ensures Overlap(a, b) == Overlap(a', b')
  {
    assert a.x == a'.x && a.y == a'.y && a.radius == a'.radius;
    assert b.x == b'.x && b.y == b'.y && b.radius == b'.radius;
  }

  /** No two distinct balls overlap. */
  predicate Apart(s: seq<BallState>) {
    forall i, j :: 0 <= i < j < |s| ==> !Overlap(s[i], s[j])
  }

  lemma {:induction false} ApartUpTo(s: seq<BallState>, i: nat, j: nat)
    requires i < j <= |s| && Apart(s)
    ensures CollideUpTo(s, i, j) == s
    decreases j
  {
    if j > i + 1 {
      ApartUpTo(s, i, j - 1);
    }
  }

  lemma {:induction false} ApartRows(s: seq<BallState>, i: nat)
    requires i <= |s| && Apart(s)
    ensures CollideRows(s, i) == s
  {
    if i > 0 {
      ApartRows(s, i - 1);
      ApartUpTo(s, i - 1, |s|);
    }
  }

  /** With no two balls touching, the collision pass changes nothing. */
  lemma ApartUnchanged(s: seq<BallState>)
    requires Apart(s)
    ensures CollideAll(s) == s
  {
    ApartRows(s, |s|);
  }

  /** Two touching balls, alone on the canvas, trade velocities exactly. */
  lemma TwoBallsSwap(s: seq<BallState>)
    requires |s| == 2 && Overlap(s[0], s[1])
    ensures CollideAll(s)[0] == s[0].(dx := s[1].dx, dy := s[1].dy)
    ensures CollideAll(s)[1] == s[1].(dx := s[0].dx, dy := s[0].dy)
  {
    assert CollideRows(s, 1) == PairStep(s, 0, 1);
    var t := CollideRows(s, 1);
    assert CollideRows(s, 2) == CollideUpTo(t, 1, 2) == t;
  }

  /** The four ball names, in order. */
  const Ids: seq<string> := ["1", "2", "3", "4"]

  class Game {
    const width: nat
    const height: nat
    const balls: array<BallState>
    const hole: Hole
    const maze: Maze

    /** Four balls with their own names and size, and a grid of
        `floor(width / 40) x floor(height / 40)` cells. */
    ghost predicate Valid()
      reads this, balls, maze
    {
      && balls.Length == 4
      && (forall k :: 0 <= k < 4 ==> balls[k].id == Ids[k] && balls[k].radius == BallRadius)
      && width >= CellSize && height >= CellSize
      && maze.cols == width / CellSize && maze.rows == height / CellSize
      && |maze.cells| == maze.cols
      && (forall x :: 0 <= x < maze.cols ==> |maze.cells[x]| == maze.rows)
    }

    /** The maze is as `setup` leaves it: a perfect maze in which every
        cell reaches the top-left cell. Only the constructor and
        `ResetGame` change the maze. */
    ghost predicate Carved()
      reads this, maze
    {
      && Perfect(maze.cells, maze.cols, maze.rows)
      && Connected(maze.cells, maze.cols, maze.rows, Coord(0, 0))
    }

    /** Page load: the balls and the hole, then `setup()`. */
    constructor (width: nat, height: nat, random: nat -> real)
      requires width >= CellSize && height >= CellSize
      requires forall i :: Random.IsDraw(random(i))
      ensures Valid() && Carved()
      ensures this.width == width && this.height == height
      ensures balls[..] == StartBalls(width) && hole == StartHole(width, height)
    {
      this.width := width;
      this.height := height;
      var start := StartBalls(width);
      balls := new BallState[4](k requires 0 <= k < 4 => start[k]);
      hole := StartHole(width, height);
      var maze := new Maze(width / CellSize, height / CellSize);
      this.maze := maze;
      new;
      maze.Setup(random);
      assert balls[..] == start;
    }

    /** `updateBallPosition(balls[i])`: one `WallStep` of ball `i` against
        the maze; then, if it is in the hole and had not won yet, it wins
        (`won`). A ball that has won stays a winner and does not win again. */
    method UpdateBallPosition(i: nat) returns (won: bool)
      requires Valid() && i < balls.Length
      modifies balls
      ensures Valid()
      ensures var r := WallStep(old(balls[i]).State(), BallRadius, width, height, CellSize, maze.cells);
              balls[i] == old(balls[i]).(x := r.x, y := r.y, dx := r.dx, dy := r.dy, isWinner := balls[i].isWinner)
      ensures won <==> IsBallInHole(balls[i], hole) && !old(balls[i].isWinner)
      ensures balls[i].isWinner == (old(balls[i].isWinner) || won)
      ensures forall k :: 0 <= k < balls.Length && k != i ==> balls[k] == old(balls[k])
    {
      MoveBall(i);
      won := false;
      if IsBallInHole(balls[i], hole) {
        if !balls[i].isWinner {
          balls[i] := balls[i].(isWinner := true);
          won := true;
        }
      }
    }

    /** The movement part of `updateBallPosition`: advance, clamp to the
        canvas, then the wall rules of the cell under the new centre. */
    method MoveBall(i: nat)
      requires Valid() && i < balls.Length
      modifies balls
      ensures Valid()
      ensures var r := WallStep(old(balls[i]).State(), BallRadius, width, height, CellSize, maze.cells);
              balls[i] == old(balls[i]).(x := r.x, y := r.y, dx := r.dx, dy := r.dy)
      ensures forall k :: 0 <= k < balls.Length && k != i ==> balls[k] == old(balls[k])
    {
      var ball := balls[i];
      ghost var a := Advance(ball.State(), ball.radius, width, height);
      var nextX := ball.x + ball.dx;
      var nextY := ball.y + ball.dy;

      if nextX < ball.radius { nextX := ball.radius; }
      if nextX > width as real - ball.radius { nextX := width as real - ball.radius; }
      assert nextX == a.x;
      if nextY < ball.radius { nextY := ball.radius; }
      if nextY > height as real - ball.radius { nextY := height as real - ball.radius; }
      assert nextY == a.y;

      var col := CellIndex(nextX, CellSize);
      var row := CellIndex(nextY, CellSize);
      var dx, dy := ball.dx, ball.dy;

      if 0 <= col < maze.cols && 0 <= row < maze.rows {
        var cell := maze.cells[col][row];
        var r := ResolveWalls(Motion(nextX, nextY, dx, dy), ball.radius, CellBox(col, row, CellSize), cell.walls);
        nextX, nextY, dx, dy := r.x, r.y, r.dx, r.dy;
      }

      balls[i] := ball.(x := nextX, y := nextY, dx := dx, dy := dy);
    }

    /** `resetGame`: every ball back to its initial position at rest and
        not a winner, then a new maze. */
    method ResetGame(random: nat -> real)
      requires Valid()
      requires forall i :: Random.IsDraw(random(i))
      modifies balls, maze
      ensures Valid() && Carved()
      ensures forall k :: 0 <= k < balls.Length ==> balls[k] == Respawned(old(balls[k]), k)
    {
      for index := 0 to balls.Length
        invariant forall k :: 0 <= k < index ==> balls[k] == Respawned(old(balls[k]), k)
        invariant forall k :: index <= k < balls.Length ==> balls[k] == old(balls[k])
      {
        var ball := balls[index];
        balls[index] := ball.(x := InitialPositions[index].0, y := InitialPositions[index].1,
                              dx := 0.0, dy := 0.0, isWinner := false);
      }
      maze.Setup(random);
    }

    /** `detectBallCollisions`: every pair `i < j` in loop order; touching
        balls trade velocities. */
    method DetectBallCollisions()
      requires Valid()
      modifies balls
      ensures Valid()
      ensures balls[..] == CollideAll(old(balls[..]))
    {
      ghost var start := balls[..];
      for i := 0 to balls.Length
        invariant balls[..] == CollideRows(start, i)
        invariant Valid()
      {
        for j := i + 1 to balls.Length
          invariant balls[..] == CollideUpTo(CollideRows(start, i), i, j)
          invariant Valid()
        {
          ghost var before := balls[..];
          var ball1 := balls[i];
          var ball2 := balls[j];
          if Overlap(ball1, ball2) {
            var vx1, vy1 := ball1.dx, ball1.dy;
            var vx2, vy2 := ball2.dx, ball2.dy;
            balls[i] := ball1.(dx := vx2, dy := vy2);
            balls[j] := ball2.(dx := vx1, dy := vy1);
          }
          assert balls[..] == PairStep(before, i, j);
        }
      }
    }

    /** `balls.find(b => b.id === id)`, as an index: the first ball named
        `id`, if any. */
    method FindBall(id: string) returns (r: Option<nat>)
      ensures r.Some? ==> r.value < balls.Length && balls[r.value].id == id
      ensures r.Some? ==> forall k :: 0 <= k < r.value ==> balls[k].id != id
      ensures r.None? ==> forall k :: 0 <= k < balls.Length ==> balls[k].id != id
    {
      var k := 0;
      while k < balls.Length
        invariant 0 <= k <= balls.Length
        invariant forall m :: 0 <= m < k ==> balls[m].id != id
      {
        if balls[k].id == id {
          return Some(k);
        }
        k := k + 1;
      }
      return None;
    }

    /** The `updateBall` handler: the ball named `id` takes the velocity
        (`dx`, `dy`); with no such ball nothing happens. */
    method UpdateBallVelocity(id: string, dx: real, dy: real)
      requires Valid()
      modifies balls
      ensures Valid()
      ensures forall k :: 0 <= k < balls.Length ==>
                balls[k] == if old(balls[k]).id == id then old(balls[k]).(dx := dx, dy := dy) else old(balls[k])
    {
      var found := FindBall(id);
      if found.Some? {
        var k := found.value;
        balls[k] := balls[k].(dx := dx, dy := dy);
      }
    }

    /** The message `handleOrientation` sends for the tilt (`beta`,
        `gamma`): the first ball's name, and each scaled tilt limited to
        `MaxSpeed`. */
    method HandleOrientation(beta: real, gamma: real) returns (msg: UpdateBall)
      requires Valid()
      ensures msg.id == balls[0].id
      ensures -MaxSpeed <= msg.dx <= MaxSpeed && -MaxSpeed <= msg.dy <= MaxSpeed
      ensures -MaxTilt <= gamma <= MaxTilt <==> msg.dx == Tilt.TiltSpeed(gamma, MaxTilt, MaxSpeed)
      ensures -MaxTilt <= beta <= MaxTilt <==> msg.dy == Tilt.TiltSpeed(beta, MaxTilt, MaxSpeed)
      ensures msg.dx == Tilt.LimitSpeed(Tilt.TiltSpeed(gamma, MaxTilt, MaxSpeed), MaxSpeed)
      ensures msg.dy == Tilt.LimitSpeed(Tilt.TiltSpeed(beta, MaxTilt, MaxSpeed), MaxSpeed)
    {
      var mazeTiltX := gamma / MaxTilt * MaxSpeed;
      var mazeTiltY := beta / MaxTilt * MaxSpeed;
      Tilt.LimitKeepsTilt(gamma, MaxTilt, MaxSpeed);
      Tilt.LimitKeepsTilt(beta, MaxTilt, MaxSpeed);
      msg := UpdateBall(balls[0].id, Tilt.Max(-MaxSpeed, Tilt.Min(MaxSpeed, mazeTiltX)),
                        Tilt.Max(-MaxSpeed, Tilt.Min(MaxSpeed, mazeTiltY)));
    }
  }
}
