# Falling-block game core, modelled in Dafny

A model of the game logic of a three-dimensional falling-block game: the
discrete occupancy board (`src/hooks/useGame.js`), the free-fall mode in which
a tetromino falls through an open box (`src/components/Piece.jsx`), and the
rotating-wall mode in which a tetromino slides down one face of a cube and play
moves to the next face clockwise after each lock (`src/components/Piece2.jsx`).

Modules (one file each):

- `Geometry` (`geometry.dfy`): world vectors as exact reals, integer block
  offsets, the 0.95 per-axis proximity test, the held-keys snapshot, the speeds,
  and the type of the abstract rotation step.
- `Pieces` (`pieces.dfy`): the four shapes L, I, O, T and the random pick
  `floor(roll * 4)`. Both component files define the same table.
- `Walls` (`walls.dfy`): the faces FRONT, RIGHT, BACK, LEFT, their clockwise
  successor, the spawn table, the lateral axis of each face and the per-face
  bounds test.
- `Collision` (`collision.dfy`): the free-fall box test, the `Collides`
  specification and `CheckCollision`, the scan both components run: blocks in
  order, for each the bounds test and then every block of every locked piece.
- `Board` (`board.dfy`): the 10 x 5 x 5 grid, its bounds, occupancy, the move
  test and the lock.
- `FreeFall` (`free_fall.dfy`): one frame of the free-fall mode as the function
  `Step` and as the class `FreeFallGame`, whose `Tick` updates its fields in
  place.
- `WallFall` (`wall_fall.dfy`): one frame of the wall mode (`TickStep`), the
  deferred spawn (`SpawnStep`), and the class `WallGame`.

Modelling choices:

- Positions and the frame length `delta` are reals. Yaw is counted in
  half-turns (units of pi), so the turn speed `pi * delta` becomes `delta`. The
  spawn yaws become 0, -1/2, 1 and 1/2. `y % (2 * PI)` becomes the truncating
  remainder by 2 (`RemFullTurn`).
- The rotation matrix is a parameter `rotate: (Offset, real) -> Vec3`. Both
  components test collisions with the rotation the piece has now, not with the
  candidate rotation. The model keeps that: `Step` and `TickStep` pass the
  current yaw to the collision test. Invariants about the origin block assume
  only that the rotation keeps the origin fixed (`FixesOrigin`).
- `Math.random()` is a parameter `roll` in [0, 1).
- The `setTimeout` that spawns the next piece in the wall mode is its own
  operation, `WallGame.FinishLock`. The `isCollidingRef` guard is the field
  `colliding`, set by a lock and cleared by the spawn. `LockThenSpawn` states
  the two steps together.
- The board is a value (`seq<seq<seq<int>>>`). The deep copy made by
  `lockPiece` is therefore implicit, and the caller's board is never changed.

Three behaviours of the code worth knowing:

- On an empty board the O piece at (0, 0, 0) does not fit: its lower blocks
  land in row -1, which is off the board and so counts as occupied
  (`OScenario`).
- A rejection is classified only by whether the candidate height differs from
  the current one. With a frame of positive length it always differs. In the
  free-fall mode every rejection therefore locks the piece, including one
  caused only by a sideways move against a wall (`FreeFall.FallingRejectionLocks`);
  the sideways branch runs only for a frame of length zero
  (`SlideOnlyWhenStill`). In the wall mode the same holds only while the guard
  is clear (`WallFall.FallingRejectionLocks`). While a lock is pending, every
  rejection takes the sideways branch, and the rejected piece keeps dropping
  (`TickSlides`).
- In the wall mode the new piece is spawned by the wall from before the
  advance. The model states this as written and proves its effect, but
  `WallGame` uses the corrected spawn (see Findings).

## Model

| member | source | states |
|---|---|---|
| `Board.CreateEmptyBoard` | src/hooks/useGame.js:10-19 | the new board has exactly 10 x 5 x 5 cells, all 0, so a cell counts as occupied iff it is off the board |
| `Board.IsWithinBounds` | src/hooks/useGame.js:26-32 | -2 <= x <= 2, 0 <= y < 10, -2 <= z <= 2 holds iff the translated indices y, x + 2, z + 2 address the grid |
| `Board.IsPositionOccupied` | src/hooks/useGame.js:35-43 | every off-board cell is occupied; an on-board cell is occupied iff its flag `[y][x+2][z+2]` is 1 |
| `Board.Round` | src/hooks/useGame.js:49-51 | Math.round gives the integer within half a unit, halves rounded up |
| `Board.CanPieceMove` | src/hooks/useGame.js:46-58 | the answer is true iff every rounded target cell (x, z rounded, y floored) is free; any off-board target makes it false |
| `Board.LockedBoard` | src/hooks/useGame.js:61-79 | after a lock, exactly the in-bounds target cells are 1 and every other cell keeps its old value |
| `Board.LockPiece` | src/hooks/useGame.js:61-79 | the offset-by-offset write into a copy yields exactly `LockedBoard`, dropping off-board targets |
| `Board.LockMonotone` | src/hooks/useGame.js:73-75 | locking never frees an occupied cell |
| `Board.LockIdempotent` | src/hooks/useGame.js:73-75 | locking the same piece at the same position twice gives the board of one lock |
| `Board.LockCommutes` | src/hooks/useGame.js:61-79 | two locks give the same board in either order, even when they target the same cells |
| `Board.LockBlocksMove` | src/hooks/useGame.js:46-79 | once a piece with an on-board target is locked, `canPieceMove` for the same piece and position is false |
| `Board.OScenario` | src/hooks/useGame.js:46-58 | on an empty board the O piece fits at (0, 1, 0) but not at (0, 0, 0) |
| `Pieces.Shape` | src/components/Piece.jsx:7-44 | each of L, I, O, T has four distinct integer offsets, the first being (0, 0, 0) |
| `Pieces.PickPiece` | src/components/Piece.jsx:55-57 | `floor(roll * 4)` picks each kind on exactly one quarter of [0, 1) |
| `Pieces.EveryKindPickable` | src/components/Piece.jsx:56-57 | every kind has some roll that picks it |
| `Geometry.Near` | src/components/Piece.jsx:111-116 | a block collides with a locked block iff all three axis distances are below 0.95 (the same test as Piece2.jsx:157-161) |
| `Collision.OutsideBox` | src/components/Piece.jsx:87-93 | the half-unit-inflated test rejects a block centre iff it leaves [-4, 4] x [0.5, oo) x [-4, 4] |
| `Collision.CheckCollision` | src/components/Piece.jsx:67-121 | the nested scan with early return answers exactly `Collides`: some block is out of bounds or near some block of some locked piece (Piece2.jsx:99-166 runs the same scan with per-wall bounds) |
| `Collision.OriginOutsideCollides` | src/components/Piece.jsx:76-93 | a piece whose origin block is out of bounds collides whatever the rotation does to its other blocks |
| `Collision.NoCollisionOriginInside` | src/components/Piece2.jsx:106-140 | a piece that does not collide has its origin block inside the bounds |
| `Collision.NothingLockedOnlyBounds` | src/components/Piece.jsx:95-118 | with no locked pieces, only the bounds test can reject |
| `FreeFall.SpawnInsideBox` | src/components/Piece.jsx:55-64 | a new piece appears at (0, 8, 0) with its origin block inside the box |
| `FreeFall.CandidateNetMove` | src/components/Piece.jsx:132-150 | the candidate moves x by 5 delta per unit of (right - left) and z by 5 delta per unit of (backward - forward); y drops 2 delta, or 10 delta with fast drop; with delta > 0 it is strictly lower, and with delta = 0 nothing changes |
| `FreeFall.StepCommits` | src/components/Piece.jsx:153-155 | a free candidate is committed whole and the locked list is unchanged |
| `FreeFall.StepLocks` | src/components/Piece.jsx:158-165 | a rejected candidate whose height changed appends exactly the pre-frame piece and replaces the piece with a fresh spawn |
| `FreeFall.StepSlides` | src/components/Piece.jsx:166-171 | a rejected candidate at the same height reverts x and z, commits y and the yaw, and locks nothing |
| `FreeFall.StepLockedOnlyGrows` | src/components/Piece.jsx:152-173 | the locked list keeps its prefix and grows by at most one piece per frame |
| `FreeFall.FallingRejectionLocks` | src/components/Piece.jsx:148-165 | with delta > 0 every rejection locks the piece |
| `FreeFall.SlideOnlyWhenStill` | src/components/Piece.jsx:148-171 | the same-height branch needs delta = 0 and then leaves the state unchanged |
| `FreeFall.StepKeepsOriginInBox` | src/components/Piece.jsx:128-174 | a frame keeps the falling piece's origin block inside the box |
| `FreeFall.FreeFallGame.constructor` | src/components/Piece.jsx:123-126 | the game starts with no locked pieces and a fresh spawn of the rolled kind |
| `FreeFall.FreeFallGame.Tick` | src/components/Piece.jsx:128-174 | the in-place frame update leaves the fields equal to `Step` of the old fields |
| `Walls.FourAdvancesReturn` | src/components/Piece2.jsx:226-233 | FRONT -> RIGHT -> BACK -> LEFT -> FRONT: four advances return to the start, and one, two or three do not |
| `Walls.AdvanceMod4` | src/components/Piece2.jsx:226-233 | only the number of advances modulo four decides the wall |
| `Walls.SpawnYawQuarterTurn` | src/components/Piece2.jsx:70-87 | each advance turns the spawn yaw a quarter turn clockwise, up to a full turn |
| `Walls.SpawnOnOwnWallOnly` | src/components/Piece2.jsx:70-87 | a wall's spawn point passes that wall's bounds test and fails the next wall's |
| `Walls.OutsideWall` | src/components/Piece2.jsx:119-140 | a point is rejected iff y < 0, or it is more than 0.1 off the wall's plane, or it leaves [-4.5, 4.5] along the wall's lateral axis |
| `WallFall.RemFullTurn` | src/components/Piece2.jsx:198-205 | JavaScript's `%` by a full turn: the result lies within one full turn, has the sign of the yaw, and differs from it by whole turns |
| `WallFall.ProposeMove` | src/components/Piece2.jsx:180-209 | the successive in-place updates of the candidate give exactly `Candidate` |
| `WallFall.CandidateAlongWall` | src/components/Piece2.jsx:183-209 | the candidate moves only along the wall's lateral axis: x on FRONT/BACK, z on RIGHT/LEFT, where left is z + 5 delta. It never moves across the plane, drops 2 delta (10 delta with fast drop), and ignores forward and backward |
| `WallFall.TickCommits` | src/components/Piece2.jsx:212-214 | a free candidate is committed whole and nothing else changes |
| `WallFall.TickLocks` | src/components/Piece2.jsx:216-234 | a rejected falling candidate with the guard clear appends exactly the pre-frame piece, advances the wall once and sets the guard |
| `WallFall.TickSlides` | src/components/Piece2.jsx:241-255 | otherwise only the lateral coordinate is reverted; y, the yaw and the cross-plane coordinate come from the candidate; nothing locks |
| `WallFall.GuardBlocksLock` | src/components/Piece2.jsx:216 | while the guard is set no frame locks or advances the wall |
| `WallFall.FallingRejectionLocks` | src/components/Piece2.jsx:207-217 | with delta > 0 and the guard clear every rejection locks the piece |
| `WallFall.InitialInvariants` | src/components/Piece2.jsx:168-171 | the first piece spawns on FRONT, tagged FRONT, with its origin on the wall |
| `WallFall.TickPreservesConsistent` | src/components/Piece2.jsx:212-255 | a frame keeps the wall equal to FRONT advanced once per locked piece, and keeps the piece's tag equal to the active wall, or to the wall before it while a lock is pending |
| `WallFall.SpawnPreservesConsistent` | src/components/Piece2.jsx:237-240 | (corrected spawn) the deferred spawn keeps that invariant |
| `WallFall.FourLocksBackToFront` | src/components/Piece2.jsx:226-233 | whenever the number of locked pieces is a multiple of four, play is on FRONT |
| `WallFall.TickKeepsOriginOnWall` | src/components/Piece2.jsx:212-255 | unless a lock is pending, a frame keeps the piece's origin block within the active wall's bounds |
| `WallFall.LockThenSpawn` | src/components/Piece2.jsx:216-240 | a lock followed by the spawn grows the list by one, advances the wall once, clears the guard, and places a piece tagged with the new wall by that wall's spawn table, its origin on that wall |
| `WallFall.StaleSpawnLocksAtOnce` | src/components/Piece2.jsx:236-240 | as written, the new piece appears off the active wall's plane; its first frame locks it at its spawn point and advances the wall again |
| `WallFall.WallGame.constructor` | src/components/Piece2.jsx:168-171 | the game starts on FRONT with no locked pieces, the guard clear, and a FRONT spawn |
| `WallFall.WallGame.Tick` | src/components/Piece2.jsx:173-257 | the in-place frame update leaves the fields equal to `TickStep` of the old fields and keeps the invariant |
| `WallFall.WallGame.FinishLock` | src/components/Piece2.jsx:237-240 | (corrected spawn) the deferred spawn, run only while a lock is pending, places a new piece on the active wall and clears the guard |

## Findings

| source | as written | input that shows it | evidently intended | confidence | as-written member | corrected member |
|---|---|---|---|---|---|---|
| src/components/Piece2.jsx:236-240 | The deferred callback calls the `createRandomPiece` captured by the frame that locked. That function reads `currentWall` from the render before `setCurrentWall` took effect, so the new piece spawns by the previous wall's table. | Lock the first piece on FRONT. RIGHT becomes active, but the new piece appears at (0, 8, 4.5). Its x = 0 is 4.5 off RIGHT's plane, so the next frame (delta > 0) rejects it, locks it at its spawn point, and advances to BACK. This repeats on every wall. | Spawn by the newly active wall. The comment at line 236 says the new piece is created after the state updates. | medium; not executed | `WallFall.SpawnStepAsWritten`, `WallFall.StaleSpawnLocksAtOnce` | `WallFall.SpawnStep`, `WallFall.LockThenSpawn`, `WallFall.SpawnPreservesConsistent`, `WallFall.WallGame.FinishLock` |

## Left out

- The three.js rotation (`Matrix4.makeRotationFromEuler`, `applyMatrix4`) is foreign floating-point trigonometry. It is the parameter `rotate`. Only the yaw is modelled, because the pitch and roll of every piece stay 0.
- Floating point: positions, `delta` and the yaw are exact reals. In floats, `y - 2 * delta` can equal `y` for a tiny `delta`. The model does not capture that case.
- `Math.random()` is the parameter `roll`.
- React state batching and the time at which each render's closures are created are not modelled. The one consequence the model keeps is the wall read by the deferred spawn (see Findings). Frames that run between a lock and its spawn are modelled through the guard.
- The early returns when there is no current piece or no scene group (Piece.jsx:70, 129; Piece2.jsx:100, 174) are not modelled. In the model a piece exists from construction onwards, just as the source creates the first piece during the first render.
- Locked pieces keep only their kind, position and yaw. Their copied `shape` equals `Shape(kind)`, which the collision test reads. The copied `type`, `color` and, in the wall mode, `wall` fields are only used for rendering.
- `Board.LockCommutes` and `Board.LockIdempotent` chain locks one after another. In the source, `lockPiece` copies the `board` of the current render (useGame.js:62) and stores the copy with `setBoard(newBoard)`, not with a functional update (useGame.js:78). Two calls within one render would therefore keep only the last lock. This is the same stale-closure pattern as in Findings. No caller exists, so the model does not capture it.
- `gameOver` (useGame.js:23) is never set, so no game-over behaviour exists to model.
- `useControls.js` (a keydown listener moving a vector by whole units) is input plumbing. It is not part of this model. The held keys arrive as a `Keys` value.
- Rendering (`App.jsx`, the JSX of both components, colours other than `Pieces.Color`) is not modelled.
- The board and the two falling modes are not connected in the source. No component calls `canPieceMove` or `lockPiece`, so the model keeps them separate too.
