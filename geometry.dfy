/** World-space vectors, block offsets, the per-axis proximity test and the
    per-frame input snapshot shared by both falling-piece modes. Positions are
    the game's float vectors read as exact reals. */
module Geometry {

  /** A point or a displacement in world space. */
  datatype Vec3 = Vec3(x: real, y: real, z: real)

  /** The integer offset of one block from its piece's origin. */
  datatype Offset = Offset(dx: int, dy: int, dz: int)

  const Origin: Offset := Offset(0, 0, 0)
  const Zero: Vec3 := Vec3(0.0, 0.0, 0.0)

  function Add(p: Vec3, v: Vec3): Vec3
  {
    Vec3(p.x + v.x, p.y + v.y, p.z + v.z)
  }

  function Abs(v: real): (r: real)
    ensures r >= 0.0 && (r == v || r == -v)
  {
    if v < 0.0 then -v else v
  }

  /** The rotation step of the rendering library, left abstract: it maps a
      block offset and a yaw angle, counted in half-turns (units of pi), to the
      rotated world-space displacement. */
  type Rotation = (Offset, real) -> Vec3

  /** A rotation about the origin leaves the origin where it is. */
  ghost predicate FixesOrigin(rotate: Rotation)
  {
    forall yaw :: rotate(Origin, yaw) == Zero
  }

  /** Blocks closer than this on every axis are treated as overlapping:
      slightly less than one block, so touching neighbours do not collide. */
  const Tolerance: real := 0.95

  /** The proximity test between a moving block and a locked block. */
  predicate Near(p: Vec3, q: Vec3): (r: bool)
    ensures r <==> (-Tolerance < p.x - q.x < Tolerance
                    && -Tolerance < p.y - q.y < Tolerance
                    && -Tolerance < p.z - q.z < Tolerance)
  {
    Abs(p.x - q.x) < Tolerance && Abs(p.y - q.y) < Tolerance && Abs(p.z - q.z) < Tolerance
  }

  /** The logical actions held during one frame. */
  datatype Keys = Keys(left: bool, right: bool, forward: bool, backward: bool,
                       rotateLeft: bool, rotateRight: bool, fastDrop: bool)

  /** 1 for a held key, 0 otherwise. */
  function Held(b: bool): real
  {
    if b then 1.0 else 0.0
  }

  /** Lateral speed (units per second), base and extra fall speeds, and turn
      speed (half-turns per second: pi radians per second). */
  const MoveRate: real := 5.0
  const FallRate: real := 2.0
  const FastFallRate: real := 8.0
  const TurnRate: real := 1.0
}
