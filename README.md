# Maze-ball game: a verified model

This project models the core of a tilt-controlled maze-ball game in Dafny. In the game, balls roll over a canvas that holds a randomly carved maze and a goal hole. The device tilt sets a ball's velocity. Each animation step does the following:
- moves the ball by its velocity;
- keeps it on the canvas;
- stops it against the walls of the maze cell it is in;
- tests whether it has dropped into the hole.

Touching balls trade velocities. A small server keeps a table of connected players.

The model is split into modules that follow the program:

- `Grid` (grid.dfy): cells with four wall flags and the `cells[x][y]` grid. It covers:
  - `getNewCoords` and the opposite side;
  - the interior walls;
  - the predicates that describe a finished maze: symmetric walls, an intact border, the set of open walls, and a walk through open walls.
- `Carving` (carving.dfy): the loop invariant of the randomized depth-first carver and one lemma per kind of step. It also keeps the carving tree (each cell's parent side and depth) as a witness that proves connectivity.
- `MazeGen` (maze.dfy): class `Maze`, holding the grid, with `setup`, `removeWalls` and `genMaze` as methods. `genMaze` keeps its explicit stack and `visited` flags.
- `Random` (random.dfy): `Math.floor(Math.random() * n)`, with the draw passed in.
- `Physics` (physics.dfy): the ball step shared by `updateBallPosition` in script.js and `Ball.updatePosition` in ball.js:
  - advance;
  - clamp to the canvas;
  - find the cell by floor division;
  - apply the top, bottom, left and right wall rules in that order.
- `Balls` (ball.dfy): class `Ball` of ball.js.
- `Tilt` (tilt.dfy): scaling a tilt angle to a speed, and the `Math.max(-maxSpeed, Math.min(maxSpeed, v))` limit.
- `Game` (game.dfy): script.js as a class `Game`. It holds:
  - the four ball records in an array;
  - the hole and the maze;
  - the hole test and the win branch;
  - `resetGame`;
  - the velocity swap of `detectBallCollisions`;
  - the `updateBall` handler;
  - the message built by `handleOrientation`.
- `Solo` (solo.dfy): the single ball of server/main.js, with its move-then-clamp step and its unlimited tilt mapping.
- `Roster` (roster.dfy): the `players` table of server.js, with connect, `movePlayer` and disconnect.

Main results:
- **Carving.** `genMaze` ends with:
  - every cell visited;
  - every interior wall the same from both sides;
  - the whole border standing;
  - exactly `cols * rows - 1` walls open;
  - every cell joined to the start cell by a walk through open walls.
- **Wall step.**
  - The step keeps a ball no wider than a cell on the canvas.
  - A velocity component changes only by dropping to zero, and only when the ball is moving into a set wall of its cell.
  - A ball never ends a step past a set wall that it was moving towards, among the walls of the cell its centre ends in. The walls of other cells are not consulted. The step moves by the whole velocity at once, with no sub-steps, so a ball can cut a corner through a set wall of a neighbouring cell (`Physics.CornerCut`).
  - Off the grid, the step is the canvas clamp alone.
- **Hole test.** It is the Euclidean distance test `distance < hole.radius - ball.radius`, computed on squares.
- **Win branch.** It fires at most once per ball between two resets: a winner stays a winner until `ResetGame`. In script.js every win is followed at once by `resetGame()` (script.js:174), which clears `isWinner` again (script.js:202).
- **Collision pass.** The modelled velocity swap never moves a ball; the positional correction that follows it in the source is left out. The velocities after the pass are a rearrangement of the velocities before it. With no two balls touching, the pass changes nothing.
- **Player table.** A move from an unknown id creates nothing. Disconnecting is idempotent.

Three facts about the code shape the model:

- **Maze generation.** `genMaze` calls `Math.random()`, which takes no seed. The model therefore takes the sequence of draws as a parameter `random: nat -> real`.
- **Hole on reset.** `resetGame` moves the balls and carves a new maze, but keeps the hole where it is.
- **Wall response.** A ball moving into a set wall has that velocity component set to zero; it does not bounce.

Two details of script.js are modelled exactly as written:
- The third ball starts at `y = canvas.width - 20`.
- `resetGame` uses a fixed table of positions. `Game.ResetMatchesStart` shows this table is the start layout only on a canvas 600 pixels wide.

## Model

| member | source | states |
|---|---|---|
| Grid.Opposite | script.js:77 | the facing side of a neighbour is never the side itself |
| Grid.OppositeInvolutive | script.js:77 | the opposite of the opposite side is the side |
| Grid.NewCell | script.js:30-36 | a new cell knows its position, is unvisited and has all four walls |
| Grid.NewCoords | script.js:66-73 | the position through a side is adjacent to the cell |
| Grid.NewCoordsBack | script.js:66-79 | stepping through a side and back through the opposite side returns to the cell |
| Grid.Visit | script.js:82 | the cell at `c` becomes visited with its walls and position kept; no other cell changes (also script.js:98) |
| Grid.ClearWall | script.js:76-78 | the cell at `c` loses the wall on side `d` and keeps its other walls, flag and position; no other cell changes |
| Grid.FreshGrid | script.js:53-59 | the grid built by `setup` has `cols` columns of `rows` cells, each at its own position, unvisited and closed |
| Grid.AllCoordsCard | script.js:54-58 | the grid holds exactly `cols * rows` positions |
| Grid.MatchedWalls | script.js:75-79 | walls that follow a set of removed wall pairs are symmetric, keep the border, and their open walls are exactly that set |
| Carving.InvInit | script.js:81-83 | marking the start cell visited and pushing it establishes the carving invariant |
| Carving.CarveCells | script.js:95-99 | a carving step clears side `dir` of the current cell and the facing side of the neighbour, visits the neighbour and changes no other cell |
| Carving.CarveMatches | script.js:75-79 | removing a wall pair keeps the walls symmetric with the set of removed pairs, grown by that pair |
| Carving.FreshEdge | script.js:95-99 | carving into an unvisited cell adds one visited cell and one new open wall pair |
| Carving.InvPush | script.js:95-99 | carving into an unvisited in-grid neighbour and pushing it keeps the invariant, with one more visited cell |
| Carving.InvPop | script.js:100-102 | popping a cell with no unvisited in-grid neighbour keeps the invariant |
| Carving.InvDone | script.js:85-103 | on an empty stack every cell is visited, the walls are symmetric, the border is closed and `cols * rows - 1` wall pairs are open |
| Carving.LinkedPush | script.js:95-99 | the carved-into neighbour hangs below the current cell through an open wall, one level deeper |
| Carving.LinkedRoute | script.js:85-103 | from every visited cell a walk through open walls reaches the start cell |
| Carving.LinkedConnected | script.js:85-103 | once every cell is visited, every cell of the grid reaches the start cell through open walls |
| MazeGen.UnvisitedNeighbours | script.js:88-93 | every candidate is the in-grid, unvisited neighbour through its side; every side that leads to an unvisited in-grid cell gives a candidate; the list is empty exactly when no side does |
| MazeGen.Maze.constructor | script.js:24-27 | the grid size is fixed and `cells` starts empty |
| MazeGen.Maze.Setup | script.js:53-61 | after `setup` the maze is perfect and connected to (0, 0) |
| MazeGen.Maze.RemoveWalls | script.js:75-79 | exactly side `dir` of `current` and the opposite side of `next` are cleared |
| MazeGen.Maze.GenMaze | script.js:63-104 | from a fresh grid, carving leaves every cell visited, the walls symmetric, the border intact, `cols * rows - 1` wall pairs open and every cell joined to the start |
| MazeGen.Maze.CarveStep | script.js:86-102 | one loop pass keeps the invariant; with candidates it uses one draw, carves the wall pair to the candidate at `floor(u * n)`, marks it visited and pushes it; with none it pops the stack and changes nothing else |
| Random.PickIndex | script.js:96 | `floor(u * n)` is a valid index into the `n` candidates |
| Physics.Clamp | script.js:127-130 | the clamped value lies in `[lo, hi]` when that range is non-empty, is the value itself when it already lies there, is `lo` below the range and `hi` above it |
| Physics.CellIndex | script.js:133-134 | the cell index found by floor division is the band of `cellSize` pixels holding the coordinate |
| Physics.Advance | script.js:123-130 | after the canvas clamp the centre lies in `[radius, width - radius] x [radius, height - radius]`, is exactly the moved position when that is already inside, sits on the edge it overshot otherwise, and the velocity is kept |
| Physics.TopRule | script.js:140-144 | a ball moving up under a set top wall ends with its top edge on or below the line; a ball already clear of it, or not moving up into a set wall, is unchanged; only `y` and `dy` can change, and `dy` only to zero |
| Physics.BottomRule | script.js:146-150 | a ball moving down over a set bottom wall ends with its bottom edge on or above the line; otherwise as for the top rule |
| Physics.LeftRule | script.js:152-156 | a ball moving left against a set left wall ends with its left edge on or right of the line; only `x` and `dx` can change, and `dx` only to zero |
| Physics.RightRule | script.js:158-162 | a ball moving right against a set right wall ends with its right edge on or left of the line; otherwise as for the left rule |
| Physics.Resolve | script.js:140-162 | after the four rules the ball is clear of every set wall of the cell that it moves towards; a velocity component stays or drops to zero, and drops only when moving into a set wall on that axis |
| Physics.ResolveWalls | script.js:140-162 | the four wall checks, run in sequence, give the rule-by-rule result `Resolve` |
| Physics.ResolveOutcome | script.js:140-162 | per axis, the top or bottom (left or right) rule moves the ball back to the wall line offset by the radius and zeroes that component; if no rule fires, position and velocity are kept |
| Physics.WallStep | script.js:122-167 | one step of `updateBallPosition` (and of `Ball.updatePosition`, ball.js:19-87): each velocity component stays as it was or drops to zero |
| Physics.WallStepOnCanvas | script.js:122-167 | a ball no wider than a cell and the canvas stays wholly on the canvas after a step, whichever walls stop it |
| Physics.WallStepOutcome | ball.js:44-81 | on the grid, each axis of the step's result is decided by that axis's wall rules against the lines of the ball's cell |
| Physics.WallStepOffGrid | ball.js:31-39 | when the cell index is outside the grid no wall rule applies and the step is the canvas clamp alone |
| Physics.WallStepVelocity | ball.js:44-86 | a velocity component changes only to zero, only on the grid, and only when moving into a set wall on that axis; a zero component never changes |
| Physics.WallStepNoCrossing | script.js:140-162 | after the step the ball does not reach past any set wall that it was moving towards, among the walls of the cell its centre ends in |
| Physics.CornerCut | script.js:122-162 | in a 2 x 2 maze whose only interior wall lies between (0,0) and (0,1), one step at velocity (-6, -6) takes the centre from cell (1,1) to cell (0,0) across that wall, with no rule firing and the velocity kept |
| Balls.Ball.constructor | ball.js:2-9 | position, radius and colour come from the arguments and the ball is at rest |
| Balls.Ball.UpdatePosition | ball.js:19-87 | the new position and velocity are one `WallStep` from the old ones; radius and colour are kept |
| Balls.Ball.Reset | ball.js:89-94 | the ball is at (`x`, `y`) and at rest; radius and colour are kept |
| Tilt.TiltSpeed | script.js:265-266 | level gives no speed, a tilt of `maxTilt` either way gives `maxSpeed` that way, and the speed has the sign of the angle (also server/main.js:52-53) |
| Tilt.LimitSpeed | script.js:269 | the limited speed lies in `[-maxSpeed, maxSpeed]`, equals the input exactly when the input is within it, and saturates at each end |
| Tilt.TiltWithinSpeed | script.js:265-266 | the scaled tilt is within the maximum speed exactly when the angle is within the maximum tilt |
| Tilt.LimitKeepsTilt | script.js:265-269 | the limit leaves the scaled tilt untouched exactly when the device is tilted no more than the maximum tilt |
| Solo.SoloBall.constructor | server/main.js:9-16 | blue, radius 15, at rest in the middle of the canvas |
| Solo.SoloBall.UpdateBallPosition | server/main.js:31-40 | the ball moves by its velocity and is clamped to the canvas; velocity, radius and colour are kept |
| Solo.SoloBall.HandleOrientation | server/main.js:50-54 | the velocity becomes `gamma / 45 * 5`, `beta / 45 * 5`; nothing else changes |
| Solo.OrientationSpeed | server/main.js:50-54 | the speed exceeds 5 exactly when the tilt exceeds 45 degrees: there is no limit |
| Roster.RandomColor | server.js:39-42 | the colour is one of the four palette colours |
| Roster.Spawn | server.js:19 | a new player is at (20, 20), at rest, not a winner, with the given colour |
| Roster.Moved | server.js:23-28 | the keys are kept, every other player is unchanged and the mover only gets the new `dx`, `dy` |
| Roster.Removed | server.js:32-35 | only the leaving id is removed and every remaining player is unchanged |
| Roster.MoveAbsent | server.js:24 | a move from an id not in the table leaves it unchanged and creates no entry |
| Roster.MoveTwice | server.js:23-28 | of two moves from the same id the later one wins |
| Roster.RemoveIdempotent | server.js:32-35 | disconnecting an id twice is the same as once |
| Roster.ConnectThenDisconnect | server.js:19-35 | connecting a new id and disconnecting it leaves the table as it was |
| Roster.Players.constructor | server.js:13 | the table starts empty |
| Roster.Players.Connect | server.js:19 | the id gets a freshly spawned player whose colour is in the palette |
| Roster.Players.MovePlayer | server.js:23-28 | the table becomes `Moved` of the old table |
| Roster.Players.Disconnect | server.js:32-35 | the table becomes `Removed` of the old table |
| Game.StartBalls | script.js:10-15 | four balls of radius 10, at rest and not winners |
| Game.StartHole | script.js:17-22 | the hole has radius 16 and lies wholly on any canvas at least 36 pixels each way |
| Game.Respawned | script.js:196-203 | a reset ball is at its initial position, at rest and not a winner; name, radius and colour are kept |
| Game.ResetMatchesStart | script.js:189-194 | the reset positions are the start positions exactly when the canvas is 600 pixels wide |
| Game.SqrLess | script.js:182-184 | comparing non-negative lengths is the same as comparing their squares |
| Game.CloserIsDistance | script.js:182-184 | the squared test holds exactly when the Euclidean length is below the limit |
| Game.InHoleIsDistance | script.js:179-185 | a ball is in the hole exactly when its centre is nearer to the hole's centre than `hole.radius - ball.radius` |
| Game.IsBallInHole | script.js:179-185 | only a ball smaller than the hole can be in it |
| Game.CentredInHole | script.js:179-185 | a ball centred on the hole and smaller than it is in the hole |
| Game.Overlap | script.js:213-218 | the collision test does not depend on the order of the two balls, and only balls of positive total radius can touch |
| Game.OverlapIsDistance | script.js:213-218 | two balls collide exactly when their centres are nearer than the sum of their radii |
| Game.PairStepShuffles | script.js:225-233 | a pair step keeps every ball's position, name, size, colour and flag and permutes the velocities |
| Game.PairStep | script.js:211-233 | when balls `i` and `j` overlap they trade velocities and keep everything else; otherwise, and for every other ball, nothing changes |
| Game.CollideAll | script.js:208-244 | the whole collision pass over all pairs `i < j` moves no ball and only rearranges the velocities |
| Game.ApartUnchanged | script.js:218 | with no two balls touching the collision pass changes nothing |
| Game.TwoBallsSwap | script.js:225-233 | two touching balls trade their `(dx, dy)` vectors exactly |
| Game.Game.constructor | script.js:10-26 | the four start balls, the hole 20 pixels in from the bottom-right corner, and a perfect, connected maze of `floor(width / 40) x floor(height / 40)` cells |
| Game.Game.UpdateBallPosition | script.js:122-177 | the ball takes one `WallStep` through the maze; it wins exactly when it is now in the hole and had not won before, and a winner stays a winner; no other ball changes |
| Game.Game.MoveBall | script.js:122-167 | the movement part of the step is one `WallStep` and touches no other ball |
| Game.Game.ResetGame | script.js:187-206 | every ball is `Respawned` at its index and the maze is carved anew, perfect and connected |
| Game.Game.DetectBallCollisions | script.js:208-244 | the balls after the nested loops are the pass `CollideAll` of the balls before them |
| Game.Game.FindBall | script.js:308 | the index found is the first ball with that id; none means no ball has it |
| Game.Game.UpdateBallVelocity | script.js:307-313 | the ball with the id takes the new velocity; with no such ball nothing changes |
| Game.Game.HandleOrientation | script.js:260-269 | the message names the first ball; each speed is the scaled tilt limited to `[-maxSpeed, maxSpeed]`, so it is within `maxSpeed` and equals the scaled tilt exactly when the tilt is within 30 degrees |

## Left out

- Rendering is not modelled: `Cell.show`, `drawBall`, `drawHole`, `draw`, `Ball.draw`, `initBoard`, the CSS transform and the angle read-outs. These are side effects on the canvas and the page.
- The `requestAnimationFrame` loop in `draw` is not modelled. The model offers one ball step, the collision pass and a reset as separate operations; the order of calls within a frame is not modelled.
- Socket.IO and Express are not modelled: `io()`, every `emit` (including the `updatePlayers` broadcasts and the `join` message), the `joined` and `syncState` handlers, and `server.listen`. server/server.js is not part of this model.
- The wall step moves a ball by its whole velocity at once and checks only the walls of the cell its centre ends in. The model keeps this: there is no sub-stepping and no check of the cells passed on the way, so a ball can cut a corner through a set wall (`Physics.CornerCut`).
- `Game.Game.HandleOrientation`: returns the `updateBall` message instead of emitting it.
- Device permission handling in `onClick` and the start button are not modelled; they are browser input.
- The positional correction of `detectBallCollisions` is left out. It relies on floating-point `atan2`, `sin` and `cos`; only the overlap test and the velocity swap are modelled.
- `alert` and the chained `resetGame()` after a win are left out. `Game.Game.UpdateBallPosition` instead returns `won`, and `Game.Game.ResetGame` is a separate operation.
- Floating point is not modelled. Positions, velocities and angles are reals, with no rounding, NaN or infinities. `Math.sqrt` is replaced by an exact comparison of squares.
- `Math.random()` is modelled as a parameter, the sequence of draws `random`, each in `[0, 1)`. The random `xCoord`, `yCoord` and `colorIndex` of server/main.js, which feed only drawing and the `join` message, are left out.
- Object identity is not modelled. Cells are values in the `cells` field of `Maze`, and the stack of `genMaze` holds coordinates instead of cell references. Each cell lives in exactly one slot, so no sharing is lost. The four ball records are likewise values in an array.
- `Balls.Ball.UpdatePosition`: requires `|cells| >= floor(width / cellSize)`, so that every column the grid test can reach exists. The source throws only when the ball's own column is missing from `cells` (reading a row of `undefined`); with other columns missing it runs on. The model does not represent that exception.
- `Balls.Ball.UpdatePosition`: a missing row in a present column counts as off the grid. This mirrors the source's `if (cell)` test.
- `Game.Game.constructor`: requires a canvas of at least 40 x 40 pixels. On a smaller canvas the grid is empty, and `genMaze(0, 0)` in the source reads a cell that does not exist.
- `MazeGen.Maze.Setup`: requires at least one column and one row, for the same reason.
- `MazeGen.Maze.GenMaze`: proves that every cell is connected and that exactly `cols * rows - 1` walls are open. These two facts together characterise a spanning tree, so the maze has no cycle. That last graph-theory step is not proved.
