/** The faces of the enclosing cube in the rotating-wall mode: their clockwise
    cycle, the spawn transform of each, the axis a piece moves along on each and
    the bounds test of each. */
module Walls {
  import opened Geometry

  datatype Wall = Front | Right | Back | Left

  /** The wall that becomes active when a piece locks (clockwise). */
  function Next(w: Wall): Wall
  {
    match w
    case Front => Right
    case Right => Back
    case Back => Left
    case Left => Front
  }

  /** The wall reached from `w` after `n` locks. */
  function Advance(w: Wall, n: nat): Wall
  {
    if n == 0 then w else Next(Advance(w, n - 1))
  }

  /** Four advances return to the starting wall, and no fewer do. */
  lemma FourAdvancesReturn(w: Wall)
    ensures Advance(w, 4) == w
    ensures Advance(w, 1) != w && Advance(w, 2) != w && Advance(w, 3) != w
  {
    assert Advance(w, 1) == Next(w);
    assert Advance(w, 2) == Next(Next(w));
    assert Advance(w, 3) == Next(Next(Next(w)));
  }

  /** Only the number of locks modulo four decides the wall. */
  lemma {:induction false} AdvanceMod4(w: Wall, n: nat)
    ensures Advance(w, n) == Advance(w, n % 4)
    decreases n
  {
    if n >= 4 {
      AdvanceMod4(w, n - 4);
      AdvancePlus(w, n - 4, 4);
      FourAdvancesReturn(Advance(w, n - 4));
      AdvancePlus(w, 0, n - 4);
    }
  }

  lemma {:induction false} AdvancePlus(w: Wall, m: nat, n: nat)
    ensures Advance(Advance(w, m), n) == Advance(w, m + n)
    decreases n
  {
    if n > 0 {
      AdvancePlus(w, m, n - 1);
    }
  }

  /** The side length of the play area, halved. */
  const BoardSize: real := 4.5
  /** How far a block may stray from its wall's plane. */
  const PlaneSlack: real := 0.1
  const SpawnHeight: real := 8.0

  /** Where a new piece appears on each wall. */
  function SpawnPos(w: Wall): Vec3
  {
    match w
    case Front => Vec3(0.0, SpawnHeight, BoardSize)
    case Right => Vec3(BoardSize, SpawnHeight, 0.0)
    case Back => Vec3(0.0, SpawnHeight, -BoardSize)
    case Left => Vec3(-BoardSize, SpawnHeight, 0.0)
  }

  /** The yaw of a new piece on each wall, in half-turns. */
  function SpawnYaw(w: Wall): real
  {
    match w
    case Front => 0.0
    case Right => -0.5
    case Back => 1.0
    case Left => 0.5
  }

  /** Each advance turns the spawn yaw a quarter turn clockwise, up to a full turn. */
  lemma SpawnYawQuarterTurn(w: Wall)
    ensures SpawnYaw(w) - SpawnYaw(Next(w)) == 0.5 || SpawnYaw(w) - SpawnYaw(Next(w)) == -1.5
  {
  }

  datatype Axis = AxisX | AxisZ

  /** The horizontal axis a piece moves along on a wall. */
  function LateralAxis(w: Wall): Axis
  {
    match w
    case Front => AxisX
    case Back => AxisX
    case Right => AxisZ
    case Left => AxisZ
  }

  /** The horizontal axis across a wall's plane. */
  function FixedAxis(w: Wall): (a: Axis)
    ensures a != LateralAxis(w)
  {
    match w
    case Front => AxisZ
    case Back => AxisZ
    case Right => AxisX
    case Left => AxisX
  }

  function Coord(p: Vec3, a: Axis): real
  {
    match a
    case AxisX => p.x
    case AxisZ => p.z
  }

  function WithCoord(p: Vec3, a: Axis, v: real): (q: Vec3)
    ensures Coord(q, a) == v && q.y == p.y
    ensures forall b :: b != a ==> Coord(q, b) == Coord(p, b)
  {
    match a
    case AxisX => p.(x := v)
    case AxisZ => p.(z := v)
  }

  /** The bounds test of a wall. A point is out of bounds iff it is below the
      floor, strays more than the slack from the plane through the wall's spawn
      point, or leaves the board along the wall's lateral axis. */
  predicate OutsideWall(w: Wall, p: Vec3): (r: bool)
    ensures r <==> (p.y < 0.0
                    || Abs(Coord(p, FixedAxis(w)) - Coord(SpawnPos(w), FixedAxis(w))) > PlaneSlack
                    || Coord(p, LateralAxis(w)) < -BoardSize
                    || Coord(p, LateralAxis(w)) > BoardSize)
  {
    match w
    case Front =>
      p.x < -BoardSize || p.x > BoardSize || p.y < 0.0 || Abs(p.z - BoardSize) > PlaneSlack
    case Right =>
      Abs(p.x - BoardSize) > PlaneSlack || p.y < 0.0 || p.z < -BoardSize || p.z > BoardSize
    case Back =>
      p.x < -BoardSize || p.x > BoardSize || p.y < 0.0 || Abs(p.z + BoardSize) > PlaneSlack
    case Left =>
      Abs(p.x + BoardSize) > PlaneSlack || p.y < 0.0 || p.z < -BoardSize || p.z > BoardSize
  }

  /** The spawn point of a wall passes that wall's bounds test, and fails the
      test of the next wall: it lies a whole board half-width off that plane. */
  lemma SpawnOnOwnWallOnly(w: Wall)
    ensures !OutsideWall(w, SpawnPos(w))
    ensures OutsideWall(Next(w), SpawnPos(w))
  {
  }
}
