/** The free-fall mode: a piece falls through an open box, moved and turned by
    the held keys, and locks where it is when a falling step is rejected. */
module FreeFall {
  import opened Geometry
  import opened Pieces
  import opened Collision

  /** Every piece appears here, unrotated. */
  const SpawnPos: Vec3 := Vec3(0.0, 8.0, 0.0)

  /** The falling piece: its kind and the transform of its scene group. */
  datatype Active = Active(kind: PieceType, pos: Vec3, yaw: real)

  /** The locked pieces, oldest first, and the falling piece. */
  datatype FallState = FallState(locked: seq<LockedPiece>, piece: Active)

  function Spawn(kind: PieceType): Active
  {
    Active(kind, SpawnPos, 0.0)
  }

  /** A new piece starts with its origin block inside the box. */
  lemma SpawnInsideBox(kind: PieceType)
    ensures !OutsideBox(Spawn(kind).pos)
  {
  }

  /** The move a frame proposes, built by successive updates of a copy of
      the current transform. */
  function Candidate(a: Active, delta: real, keys: Keys): Active
  {
    var moveSpeed := MoveRate * delta;
    var turnSpeed := TurnRate * delta;
    var p0 := a.pos;
    var p1 := if keys.left then p0.(x := p0.x - moveSpeed) else p0;
    var p2 := if keys.right then p1.(x := p1.x + moveSpeed) else p1;
    var p3 := if keys.forward then p2.(z := p2.z - moveSpeed) else p2;
    var p4 := if keys.backward then p3.(z := p3.z + moveSpeed) else p3;
    var y1 := if keys.rotateLeft then a.yaw + turnSpeed else a.yaw;
    var y2 := if keys.rotateRight then y1 - turnSpeed else y1;
    var p5 := p4.(y := p4.y - delta * FallRate);
    var p6 := if keys.fastDrop then p5.(y := p5.y - delta * FastFallRate) else p5;
    a.(pos := p6, yaw := y2)
  }

  /** The net effect of a candidate: x moves 5 delta per unit of
      (right - left), z 5 delta per unit of (backward - forward), the yaw delta
      half-turns per unit of (rotateLeft - rotateRight), and y drops 2 delta, 10
      delta with fast drop; so a frame of positive length always proposes a
      lower position, and one of zero length proposes no change. */
  lemma CandidateNetMove(a: Active, delta: real, keys: Keys)
    ensures var c := Candidate(a, delta, keys);
            && c.kind == a.kind
            && c.pos.x == a.pos.x + MoveRate * delta * (Held(keys.right) - Held(keys.left))
            && c.pos.z == a.pos.z + MoveRate * delta * (Held(keys.backward) - Held(keys.forward))
            && c.yaw == a.yaw + TurnRate * delta * (Held(keys.rotateLeft) - Held(keys.rotateRight))
            && c.pos.y == a.pos.y - delta * (FallRate + FastFallRate * Held(keys.fastDrop))
            && (delta > 0.0 ==> c.pos.y < a.pos.y)
            && (delta == 0.0 <==> c.pos.y == a.pos.y)
            && (delta == 0.0 ==> c == a)
  {
  }

  /** One frame. The collision test turns the blocks by the yaw the piece has
      now, not by the candidate yaw. A free candidate is taken whole; a rejected
      one that moved down locks the piece where it stands and a new piece of
      kind `next` appears; any other rejected one keeps its height and yaw but
      gives back its x and z move. */
  function Step(s: FallState, delta: real, keys: Keys, rotate: Rotation, next: PieceType): FallState
  {
    var c := Candidate(s.piece, delta, keys);
    if !Collides(Box, rotate, Shape(s.piece.kind), s.piece.yaw, s.locked, c.pos) then
      s.(piece := c)
    else if c.pos.y != s.piece.pos.y then
      FallState(s.locked + [LockedPiece(s.piece.kind, s.piece.pos, s.piece.yaw)], Spawn(next))
    else
      s.(piece := c.(pos := Vec3(s.piece.pos.x, c.pos.y, s.piece.pos.z)))
  }

  /** A candidate that does not collide is committed whole and nothing locks. */
  lemma StepCommits(s: FallState, delta: real, keys: Keys, rotate: Rotation, next: PieceType)
    requires !Collides(Box, rotate, Shape(s.piece.kind), s.piece.yaw, s.locked, Candidate(s.piece, delta, keys).pos)
    ensures Step(s, delta, keys, rotate, next) == s.(piece := Candidate(s.piece, delta, keys))
  {
  }

  /** A rejected downward candidate appends exactly the piece as it stood
      before the frame, and a fresh piece of the chosen kind takes its place. */
  lemma StepLocks(s: FallState, delta: real, keys: Keys, rotate: Rotation, next: PieceType)
    requires Collides(Box, rotate, Shape(s.piece.kind), s.piece.yaw, s.locked, Candidate(s.piece, delta, keys).pos)
    requires Candidate(s.piece, delta, keys).pos.y != s.piece.pos.y
    ensures var r := Step(s, delta, keys, rotate, next);
            |r.locked| == |s.locked| + 1 && r.locked[..|s.locked|] == s.locked
            && r.locked[|s.locked|] == LockedPiece(s.piece.kind, s.piece.pos, s.piece.yaw)
            && r.piece == Spawn(next)
  {
  }

  /** A rejected candidate at the same height keeps the old x and z, takes the
      candidate y and yaw, and locks nothing. */
  lemma StepSlides(s: FallState, delta: real, keys: Keys, rotate: Rotation, next: PieceType)
    requires Collides(Box, rotate, Shape(s.piece.kind), s.piece.yaw, s.locked, Candidate(s.piece, delta, keys).pos)
    requires Candidate(s.piece, delta, keys).pos.y == s.piece.pos.y
    ensures var r := Step(s, delta, keys, rotate, next);
            var c := Candidate(s.piece, delta, keys);
            r.locked == s.locked && r.piece.kind == s.piece.kind
            && r.piece.pos == Vec3(s.piece.pos.x, c.pos.y, s.piece.pos.z) && r.piece.yaw == c.yaw
  {
  }

  /** The locked list only grows, by at most one piece per frame. */
  lemma StepLockedOnlyGrows(s: FallState, delta: real, keys: Keys, rotate: Rotation, next: PieceType)
    ensures var r := Step(s, delta, keys, rotate, next);
            |s.locked| <= |r.locked| <= |s.locked| + 1 && r.locked[..|s.locked|] == s.locked
  {
  }

  /** In a frame of positive length every rejection locks the piece, even one
      caused only by a sideways move into the box wall. */
  lemma FallingRejectionLocks(s: FallState, delta: real, keys: Keys, rotate: Rotation, next: PieceType)
    requires delta > 0.0
    requires Collides(Box, rotate, Shape(s.piece.kind), s.piece.yaw, s.locked, Candidate(s.piece, delta, keys).pos)
    ensures |Step(s, delta, keys, rotate, next).locked| == |s.locked| + 1
  {
  }

  /** The sideways-rejection branch is reached only by a frame of zero length,
      and then it leaves the piece exactly where it was. */
  lemma SlideOnlyWhenStill(s: FallState, delta: real, keys: Keys, rotate: Rotation, next: PieceType)
    requires Collides(Box, rotate, Shape(s.piece.kind), s.piece.yaw, s.locked, Candidate(s.piece, delta, keys).pos)
    requires Candidate(s.piece, delta, keys).pos.y == s.piece.pos.y
    ensures delta == 0.0 && Step(s, delta, keys, rotate, next) == s
  {
  }

  /** Invariant: the origin block of the falling piece stays inside the box
      (for a rotation that keeps the origin in place). */
  lemma {:induction false} StepKeepsOriginInBox(s: FallState, delta: real, keys: Keys, rotate: Rotation, next: PieceType)
    requires FixesOrigin(rotate)
    requires !OutsideBox(s.piece.pos)
    ensures !OutsideBox(Step(s, delta, keys, rotate, next).piece.pos)
  {
    var c := Candidate(s.piece, delta, keys);
    if !Collides(Box, rotate, Shape(s.piece.kind), s.piece.yaw, s.locked, c.pos) {
      NoCollisionOriginInside(Box, rotate, s.piece.kind, s.piece.yaw, s.locked, c.pos);
    }
  }

  /** The falling piece and the locked pieces of the scene, updated in place
      once per frame. */
  class FreeFallGame {
    var locked: seq<LockedPiece>
    var kind: PieceType
    var pos: Vec3
    var yaw: real

    function Snapshot(): FallState
      reads this
    {
      FallState(locked, Active(kind, pos, yaw))
    }

    /** The first piece, picked by the random roll in [0, 1). */
    constructor (roll: real)
      requires 0.0 <= roll < 1.0
      ensures Snapshot() == FallState([], Spawn(PickPiece(roll)))
    {
      locked := [];
      kind := PickPiece(roll);
      pos := SpawnPos;
      yaw := 0.0;
    }

    /** One frame of length `delta`; `roll` is the random number used if a new
        piece is needed. */
    method Tick(delta: real, keys: Keys, rotate: Rotation, roll: real)
      requires 0.0 <= roll < 1.0
      modifies this
      ensures Snapshot() == Step(old(Snapshot()), delta, keys, rotate, PickPiece(roll))
    {
      var moveSpeed := MoveRate * delta;
      var turnSpeed := TurnRate * delta;
      var newPos := pos;
      var newYaw := yaw;
      if keys.left { newPos := newPos.(x := newPos.x - moveSpeed); }
      if keys.right { newPos := newPos.(x := newPos.x + moveSpeed); }
      if keys.forward { newPos := newPos.(z := newPos.z - moveSpeed); }
      if keys.backward { newPos := newPos.(z := newPos.z + moveSpeed); }
      if keys.rotateLeft { newYaw := newYaw + turnSpeed; }
      if keys.rotateRight { newYaw := newYaw - turnSpeed; }
      newPos := newPos.(y := newPos.y - delta * FallRate);
      if keys.fastDrop { newPos := newPos.(y := newPos.y - delta * FastFallRate); }

      ghost var c := Candidate(Active(kind, pos, yaw), delta, keys);
      assert newPos == c.pos && newYaw == c.yaw;
      var hit := CheckCollision(Box, rotate, Shape(kind), yaw, locked, newPos);
      if !hit {
        pos, yaw := newPos, newYaw;
      } else if newPos.y != pos.y {
        locked := locked + [LockedPiece(kind, pos, yaw)];
        kind, pos, yaw := PickPiece(roll), SpawnPos, 0.0;
      } else {
        newPos := newPos.(x := pos.x, z := pos.z);
        pos, yaw := newPos, newYaw;
      }
    }
  }
}
