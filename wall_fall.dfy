/** The rotating-wall mode: a piece slides down the inside of one face of the
    cube; when it locks, play moves on to the next face clockwise. */
module WallFall {
  import opened Geometry
  import opened Pieces
  import opened Walls
  import opened Collision

  /** The sliding piece: its kind, the wall it was spawned for, and the
      transform of its scene group. */
  datatype Active = Active(kind: PieceType, tag: Wall, pos: Vec3, yaw: real)

  /** The locked pieces, oldest first; the sliding piece; the active wall; and
      the guard that is set from a lock until the next piece appears. */
  datatype WallState = WallState(locked: seq<LockedPiece>, piece: Active, wall: Wall, colliding: bool)

  /** A new piece placed by the spawn table of wall `w`, tagged with `w`. */
  function Spawn(kind: PieceType, w: Wall): Active
  {
    Active(kind, w, SpawnPos(w), SpawnYaw(w))
  }

  function TruncToInt(v: real): int
  {
    if v >= 0.0 then v.Floor else -((-v).Floor)
  }

  predicate IsWhole(v: real)
  {
    v == v.Floor as real
  }

  /** The remainder of a yaw by one full turn, with JavaScript's `%`
      (truncating: the result has the sign of the yaw). It differs from the yaw
      by a whole number of full turns. */
  function RemFullTurn(a: real): (r: real)
    ensures -2.0 < r < 2.0
    ensures (a >= 0.0 ==> r >= 0.0) && (a <= 0.0 ==> r <= 0.0)
    ensures IsWhole((a - r) / 2.0)
  {
    a - 2.0 * TruncToInt(a / 2.0) as real
  }

  /** The direction in which the "right" key moves along a wall's lateral axis. */
  function RightSign(w: Wall): real
  {
    if w == Front || w == Back then 1.0 else -1.0
  }

  /** The move a frame proposes on wall `w`, built by successive updates of a
      copy of the current transform. */
  function Candidate(w: Wall, a: Active, delta: real, keys: Keys): Active
  {
    var moveSpeed := MoveRate * delta;
    var turnSpeed := TurnRate * delta;
    var p0 := a.pos;
    var p1 := if w == Front || w == Back then
                var q := if keys.left then p0.(x := p0.x - moveSpeed) else p0;
                if keys.right then q.(x := q.x + moveSpeed) else q
              else
                var q := if keys.left then p0.(z := p0.z + moveSpeed) else p0;
                if keys.right then q.(z := q.z - moveSpeed) else q;
    var y1 := if keys.rotateLeft then RemFullTurn(a.yaw) + turnSpeed else a.yaw;
    var y2 := if keys.rotateRight then RemFullTurn(y1) - turnSpeed else y1;
    var p2 := p1.(y := p1.y - delta * FallRate);
    var p3 := if keys.fastDrop then p2.(y := p2.y - delta * FastFallRate) else p2;
    a.(pos := p3, yaw := y2)
  }

  /** A candidate moves only along the wall's lateral axis, 5 delta per unit of
      (right - left) in the wall's own direction, never across the wall's plane,
      and drops 2 delta (10 delta with fast drop); the forward and backward keys
      have no effect. */
  lemma CandidateAlongWall(w: Wall, a: Active, delta: real, keys: Keys)
    ensures var c := Candidate(w, a, delta, keys);
            && c.kind == a.kind && c.tag == a.tag
            && Coord(c.pos, FixedAxis(w)) == Coord(a.pos, FixedAxis(w))
            && Coord(c.pos, LateralAxis(w))
               == Coord(a.pos, LateralAxis(w)) + RightSign(w) * MoveRate * delta * (Held(keys.right) - Held(keys.left))
            && c.pos.y == a.pos.y - delta * (FallRate + FastFallRate * Held(keys.fastDrop))
            && (delta > 0.0 ==> c.pos.y < a.pos.y)
            && (delta == 0.0 <==> c.pos.y == a.pos.y)
            && c == Candidate(w, a, delta, keys.(forward := false, backward := false))
  {
  }

  /** The lock transition: the piece as it stood before the frame joins the
      locked list, the next wall becomes active, and the guard is set. The
      sliding piece stays until the deferred spawn replaces it. */
  function LockStep(s: WallState): WallState
  {
    s.(locked := s.locked + [LockedPiece(s.piece.kind, s.piece.pos, s.piece.yaw)],
       wall := Next(s.wall), colliding := true)
  }

  /** One frame. The collision test uses the active wall's bounds and turns
      the blocks by the yaw the piece has now. A free candidate is taken whole;
      a rejected one that moved down while the guard is clear locks the piece;
      any other rejected one gives back only its move along the lateral axis. */
  function TickStep(s: WallState, delta: real, keys: Keys, rotate: Rotation): WallState
  {
    var c := Candidate(s.wall, s.piece, delta, keys);
    if !Collides(OnWall(s.wall), rotate, Shape(s.piece.kind), s.piece.yaw, s.locked, c.pos) then
      s.(piece := c)
    else if c.pos.y != s.piece.pos.y && !s.colliding then
      LockStep(s)
    else
      var lateral := LateralAxis(s.wall);
      s.(piece := c.(pos := WithCoord(c.pos, lateral, Coord(s.piece.pos, lateral))))
  }

  /** The deferred continuation of a lock: a new piece of kind `next` appears
      by the spawn table of the active wall, and the guard is cleared. */
  function SpawnStep(s: WallState, next: PieceType): WallState
  {
    s.(piece := Spawn(next, s.wall), colliding := false)
  }

  /** The continuation as the source writes it: the spawn table is read with
      the wall `captured` when the lock happened, i.e. before the advance. */
  function SpawnStepAsWritten(s: WallState, next: PieceType, captured: Wall): WallState
  {
    s.(piece := Spawn(next, captured), colliding := false)
  }

  function Initial(first: PieceType): WallState
  {
    WallState([], Spawn(first, Front), Front, false)
  }

  /** The wall is the first wall advanced once per locked piece; the sliding
      piece was spawned for the active wall, or, while a lock is pending, for the
      wall before it. */
  predicate Consistent(s: WallState)
  {
    s.wall == Advance(Front, |s.locked|)
    && (if s.colliding then Next(s.piece.tag) == s.wall else s.piece.tag == s.wall)
  }

  /** Unless a lock is pending, the origin block of the sliding piece passes
      the active wall's bounds test. */
  predicate OriginOnWall(s: WallState)
  {
    !s.colliding ==> !OutsideWall(s.wall, s.piece.pos)
  }

  lemma InitialInvariants(first: PieceType)
    ensures Consistent(Initial(first)) && OriginOnWall(Initial(first))
  {
    SpawnOnOwnWallOnly(Front);
  }

  /** A candidate that does not collide is committed whole and nothing else changes. */
  lemma TickCommits(s: WallState, delta: real, keys: Keys, rotate: Rotation)
    requires !Collides(OnWall(s.wall), rotate, Shape(s.piece.kind), s.piece.yaw, s.locked,
                       Candidate(s.wall, s.piece, delta, keys).pos)
    ensures TickStep(s, delta, keys, rotate) == s.(piece := Candidate(s.wall, s.piece, delta, keys))
  {
  }

  /** A rejected downward candidate with the guard clear appends exactly the
      pre-frame piece, advances the wall once and sets the guard. */
  lemma TickLocks(s: WallState, delta: real, keys: Keys, rotate: Rotation)
    requires Collides(OnWall(s.wall), rotate, Shape(s.piece.kind), s.piece.yaw, s.locked,
                      Candidate(s.wall, s.piece, delta, keys).pos)
    requires Candidate(s.wall, s.piece, delta, keys).pos.y != s.piece.pos.y && !s.colliding
    ensures var r := TickStep(s, delta, keys, rotate);
            |r.locked| == |s.locked| + 1 && r.locked[..|s.locked|] == s.locked
            && r.locked[|s.locked|] == LockedPiece(s.piece.kind, s.piece.pos, s.piece.yaw)
            && r.wall == Next(s.wall) && r.colliding && r.piece == s.piece
  {
  }

  /** Any other rejected candidate keeps its height, yaw and cross-plane
      coordinate, gives back only its lateral move, and locks nothing. */
  lemma TickSlides(s: WallState, delta: real, keys: Keys, rotate: Rotation)
    requires Collides(OnWall(s.wall), rotate, Shape(s.piece.kind), s.piece.yaw, s.locked,
                      Candidate(s.wall, s.piece, delta, keys).pos)
    requires Candidate(s.wall, s.piece, delta, keys).pos.y == s.piece.pos.y || s.colliding
    ensures var r := TickStep(s, delta, keys, rotate);
            var c := Candidate(s.wall, s.piece, delta, keys);
            && r.locked == s.locked && r.wall == s.wall && r.colliding == s.colliding
            && r.piece.kind == s.piece.kind && r.piece.yaw == c.yaw && r.piece.pos.y == c.pos.y
            && Coord(r.piece.pos, LateralAxis(s.wall)) == Coord(s.piece.pos, LateralAxis(s.wall))
            && Coord(r.piece.pos, FixedAxis(s.wall)) == Coord(c.pos, FixedAxis(s.wall))
  {
  }

  /** With the guard set, no frame locks another piece. */
  lemma GuardBlocksLock(s: WallState, delta: real, keys: Keys, rotate: Rotation)
    requires s.colliding
    ensures TickStep(s, delta, keys, rotate).locked == s.locked
    ensures TickStep(s, delta, keys, rotate).wall == s.wall
  {
  }

  /** In a frame of positive length with the guard clear, every rejection
      locks the piece, even one caused only by a lateral move. */
  lemma FallingRejectionLocks(s: WallState, delta: real, keys: Keys, rotate: Rotation)
    requires delta > 0.0 && !s.colliding
    requires Collides(OnWall(s.wall), rotate, Shape(s.piece.kind), s.piece.yaw, s.locked,
                      Candidate(s.wall, s.piece, delta, keys).pos)
    ensures |TickStep(s, delta, keys, rotate).locked| == |s.locked| + 1
  {
    CandidateAlongWall(s.wall, s.piece, delta, keys);
  }

  lemma {:induction false} TickPreservesConsistent(s: WallState, delta: real, keys: Keys, rotate: Rotation)
    requires Consistent(s)
    ensures Consistent(TickStep(s, delta, keys, rotate))
  {
    var r := TickStep(s, delta, keys, rotate);
    if |r.locked| != |s.locked| {
      assert r == LockStep(s);
      assert Advance(Front, |r.locked|) == Next(Advance(Front, |s.locked|));
    }
  }

  lemma SpawnPreservesConsistent(s: WallState, next: PieceType)
    requires Consistent(s)
    ensures Consistent(SpawnStep(s, next))
  {
  }

  /** Whenever the number of locked pieces is a multiple of four, play is back
      on the front wall. */
  lemma FourLocksBackToFront(s: WallState)
    requires Consistent(s) && |s.locked| % 4 == 0
    ensures s.wall == Front
  {
    AdvanceMod4(Front, |s.locked|);
  }

  /** A frame keeps the origin block on the active wall (for a rotation that
      keeps the origin in place). */
  lemma {:induction false} TickKeepsOriginOnWall(s: WallState, delta: real, keys: Keys, rotate: Rotation)
    requires FixesOrigin(rotate) && OriginOnWall(s)
    ensures OriginOnWall(TickStep(s, delta, keys, rotate))
  {
    var c := Candidate(s.wall, s.piece, delta, keys);
    CandidateAlongWall(s.wall, s.piece, delta, keys);
    if !Collides(OnWall(s.wall), rotate, Shape(s.piece.kind), s.piece.yaw, s.locked, c.pos) {
      NoCollisionOriginInside(OnWall(s.wall), rotate, s.piece.kind, s.piece.yaw, s.locked, c.pos);
    } else if !(c.pos.y != s.piece.pos.y && !s.colliding) && !s.colliding {
      var r := TickStep(s, delta, keys, rotate);
      var lateral := LateralAxis(s.wall);
      assert r.piece.pos == WithCoord(c.pos, lateral, Coord(s.piece.pos, lateral));
      assert r.piece.pos == s.piece.pos by {
        if lateral == AxisX {
          assert FixedAxis(s.wall) == AxisZ;
        } else {
          assert FixedAxis(s.wall) == AxisX;
        }
      }
    }
  }

  /** The corrected lock-then-spawn: the new piece appears by the spawn table
      of the newly active wall, is tagged with it, and its origin block passes
      that wall's bounds test. */
  lemma LockThenSpawn(s: WallState, next: PieceType)
    requires Consistent(s) && !s.colliding
    ensures var r := SpawnStep(LockStep(s), next);
            && |r.locked| == |s.locked| + 1 && r.wall == Next(s.wall) && !r.colliding
            && r.piece == Spawn(next, r.wall) && r.piece.tag == r.wall
            && Consistent(r) && OriginOnWall(r)
  {
    var r := SpawnStep(LockStep(s), next);
    assert Advance(Front, |r.locked|) == Next(Advance(Front, |s.locked|));
    SpawnOnOwnWallOnly(r.wall);
  }

  /** The continuation as written reads the wall from before the advance: the
      new piece appears off the active wall's plane, breaks the tag invariant,
      and on its first frame of positive length it is rejected, at once locked
      at its spawn point, and the wall advances again. */
  lemma StaleSpawnLocksAtOnce(s: WallState, next: PieceType, delta: real, keys: Keys, rotate: Rotation)
    requires FixesOrigin(rotate) && delta > 0.0
    ensures var r := SpawnStepAsWritten(LockStep(s), next, s.wall);
            && OutsideWall(r.wall, r.piece.pos) && !OriginOnWall(r)
            && !Consistent(r)
            && var t := TickStep(r, delta, keys, rotate);
               |t.locked| == |r.locked| + 1
               && t.locked[|r.locked|] == LockedPiece(next, SpawnPos(s.wall), SpawnYaw(s.wall))
               && t.wall == Next(Next(s.wall))
  {
    var r := SpawnStepAsWritten(LockStep(s), next, s.wall);
    SpawnOnOwnWallOnly(s.wall);
    var c := Candidate(r.wall, r.piece, delta, keys);
    CandidateAlongWall(r.wall, r.piece, delta, keys);
    assert OutsideWall(r.wall, c.pos);
    OriginOutsideCollides(OnWall(r.wall), rotate, next, r.piece.yaw, r.locked, c.pos);
  }

  /** The frame's move as the source builds it: successive updates of a copy
      of the current position and rotation. */
  method ProposeMove(w: Wall, a: Active, delta: real, keys: Keys) returns (c: Active)
    ensures c == Candidate(w, a, delta, keys)
  {
    var moveSpeed := MoveRate * delta;
    var turnSpeed := TurnRate * delta;
    var newPos := a.pos;
    var newYaw := a.yaw;
    if w == Front || w == Back {
      if keys.left { newPos := newPos.(x := newPos.x - moveSpeed); }
      if keys.right { newPos := newPos.(x := newPos.x + moveSpeed); }
    } else {
      if keys.left { newPos := newPos.(z := newPos.z + moveSpeed); }
      if keys.right { newPos := newPos.(z := newPos.z - moveSpeed); }
    }
    if keys.rotateLeft { newYaw := RemFullTurn(newYaw) + turnSpeed; }
    if keys.rotateRight { newYaw := RemFullTurn(newYaw) - turnSpeed; }
    newPos := newPos.(y := newPos.y - delta * FallRate);
    if keys.fastDrop { newPos := newPos.(y := newPos.y - delta * FastFallRate); }
    c := a.(pos := newPos, yaw := newYaw);
  }

  /** The falling piece, the locked pieces, the active wall and the guard of
      the scene, updated in place. */
  class WallGame {
    var locked: seq<LockedPiece>
    var kind: PieceType
    var tag: Wall
    var pos: Vec3
    var yaw: real
    var wall: Wall
    var colliding: bool

    function Snapshot(): WallState
      reads this
    {
      WallState(locked, Active(kind, tag, pos, yaw), wall, colliding)
    }

    ghost predicate Valid()
      reads this
    {
      Consistent(Snapshot())
    }

    /** The first piece, on the front wall, picked by the random roll in [0, 1). */
    constructor (roll: real)
      requires 0.0 <= roll < 1.0
      ensures Snapshot() == Initial(PickPiece(roll)) && Valid()
    {
      locked := [];
      wall := Front;
      colliding := false;
      kind, tag, pos, yaw := PickPiece(roll), Front, SpawnPos(Front), SpawnYaw(Front);
    }

    /** One frame of length `delta`. */
    method Tick(delta: real, keys: Keys, rotate: Rotation)
      requires Valid()
      modifies this
      ensures Snapshot() == TickStep(old(Snapshot()), delta, keys, rotate) && Valid()
    {
      ghost var s := Snapshot();
      var c := ProposeMove(wall, Active(kind, tag, pos, yaw), delta, keys);
      var newPos, newYaw := c.pos, c.yaw;

      var hit := CheckCollision(OnWall(wall), rotate, Shape(kind), yaw, locked, newPos);
      if !hit {
        pos, yaw := newPos, newYaw;
      } else if newPos.y != pos.y && !colliding {
        colliding := true;
        locked := locked + [LockedPiece(kind, pos, yaw)];
        wall := Next(wall);
      } else {
        if wall == Front || wall == Back {
          newPos := newPos.(x := pos.x);
        } else {
          newPos := newPos.(z := pos.z);
        }
        pos, yaw := newPos, newYaw;
      }
      TickPreservesConsistent(s, delta, keys, rotate);
    }

    /** The deferred end of a lock, run only after a lock has set the guard:
        a new piece picked by the random roll appears on the active wall and
        the guard is cleared. */
    method FinishLock(roll: real)
      requires Valid() && colliding && 0.0 <= roll < 1.0
      modifies this
      ensures Snapshot() == SpawnStep(old(Snapshot()), PickPiece(roll)) && Valid()
    {
      kind, tag, pos, yaw := PickPiece(roll), wall, SpawnPos(wall), SpawnYaw(wall);
      colliding := false;
    }
  }
}
