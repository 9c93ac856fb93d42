/** The geometric collision test: every block of the moving piece, rotated and
    translated to a candidate position, is checked against the active bounds and
    against every block of every locked piece. */
module Collision {
  import opened Geometry
  import opened Pieces
  import opened Walls

  /** Half the edge of a block: the free-fall bounds test inflates each block
      centre by this much. */
  const HalfSize: real := 0.5

  /** The bounds in effect: the free-fall box, or one wall of the cube. */
  datatype Bounds = Box | OnWall(wall: Wall)

  /** The free-fall bounds test on a block centre. A block is out of bounds
      iff its unit cube leaves the board laterally or dips below the floor:
      in terms of its centre, iff the centre leaves [-4, 4] x [0.5, oo) x [-4, 4]. */
  predicate OutsideBox(p: Vec3): (r: bool)
    ensures r <==> !(-4.0 <= p.x <= 4.0 && p.y >= 0.5 && -4.0 <= p.z <= 4.0)
  {
    p.x - HalfSize < -BoardSize || p.x + HalfSize > BoardSize
    || p.y - HalfSize < 0.0
    || p.z - HalfSize < -BoardSize || p.z + HalfSize > BoardSize
  }

  predicate Outside(b: Bounds, p: Vec3)
  {
    match b
    case Box => OutsideBox(p)
    case OnWall(w) => OutsideWall(w, p)
  }

  /** A piece that has come to rest, with the transform it had when it locked. */
  datatype LockedPiece = LockedPiece(kind: PieceType, pos: Vec3, yaw: real)

  /** Where offset `o` of a piece at `pos` with yaw `yaw` lies in the world. */
  function WorldPoint(rotate: Rotation, o: Offset, yaw: real, pos: Vec3): Vec3
  {
    Add(pos, rotate(o, yaw))
  }

  /** The point overlaps some block of the locked piece. */
  predicate HitsLocked(rotate: Rotation, p: Vec3, lp: LockedPiece)
  {
    exists k :: 0 <= k < |Shape(lp.kind)| && Near(p, WorldPoint(rotate, Shape(lp.kind)[k], lp.yaw, lp.pos))
  }

  /** One block position is rejected: out of bounds or overlapping a locked block. */
  predicate BlockCollides(bounds: Bounds, rotate: Rotation, p: Vec3, locked: seq<LockedPiece>)
  {
    Outside(bounds, p) || exists j :: 0 <= j < |locked| && HitsLocked(rotate, p, locked[j])
  }

  /** A piece with blocks `shape`, turned by `yaw`, is rejected at `pos`. */
  predicate Collides(bounds: Bounds, rotate: Rotation, shape: seq<Offset>, yaw: real,
                     locked: seq<LockedPiece>, pos: Vec3)
  {
    exists i :: 0 <= i < |shape| && BlockCollides(bounds, rotate, WorldPoint(rotate, shape[i], yaw, pos), locked)
  }

  /** The collision scan: blocks in order, for each the bounds test and then
      every block of every locked piece, stopping at the first hit. */
  method CheckCollision(bounds: Bounds, rotate: Rotation, shape: seq<Offset>, yaw: real,
                        locked: seq<LockedPiece>, pos: Vec3) returns (hit: bool)
    ensures hit == Collides(bounds, rotate, shape, yaw, locked, pos)
  {
    var i := 0;
    while i < |shape|
      invariant 0 <= i <= |shape|
      invariant forall i' :: 0 <= i' < i ==>
                  !BlockCollides(bounds, rotate, WorldPoint(rotate, shape[i'], yaw, pos), locked)
    {
      var p := WorldPoint(rotate, shape[i], yaw, pos);
      if Outside(bounds, p) {
        assert BlockCollides(bounds, rotate, p, locked);
        return true;
      }
      var j := 0;
      while j < |locked|
        invariant 0 <= j <= |locked|
        invariant forall j' :: 0 <= j' < j ==> !HitsLocked(rotate, p, locked[j'])
      {
        var lp := locked[j];
        var blocks := Shape(lp.kind);
        var k := 0;
        while k < |blocks|
          invariant 0 <= k <= |blocks|
          invariant forall k' :: 0 <= k' < k ==> !Near(p, WorldPoint(rotate, blocks[k'], lp.yaw, lp.pos))
        {
          if Near(p, WorldPoint(rotate, blocks[k], lp.yaw, lp.pos)) {
            assert HitsLocked(rotate, p, locked[j]);
            assert BlockCollides(bounds, rotate, p, locked);
            return true;
          }
          k := k + 1;
        }
        j := j + 1;
      }
      i := i + 1;
    }
    return false;
  }

  /** With a rotation that keeps the origin in place, a piece whose origin
      block is out of bounds collides wherever the rest of it is. */
  lemma OriginOutsideCollides(bounds: Bounds, rotate: Rotation, kind: PieceType, yaw: real,
                              locked: seq<LockedPiece>, pos: Vec3)
    requires FixesOrigin(rotate)
    requires Outside(bounds, pos)
    ensures Collides(bounds, rotate, Shape(kind), yaw, locked, pos)
  {
    assert WorldPoint(rotate, Shape(kind)[0], yaw, pos) == pos;
  }

  /** Conversely, a piece that does not collide has its origin block in bounds. */
  lemma NoCollisionOriginInside(bounds: Bounds, rotate: Rotation, kind: PieceType, yaw: real,
                                locked: seq<LockedPiece>, pos: Vec3)
    requires FixesOrigin(rotate)
    requires !Collides(bounds, rotate, Shape(kind), yaw, locked, pos)
    ensures !Outside(bounds, pos)
  {
    if Outside(bounds, pos) {
      OriginOutsideCollides(bounds, rotate, kind, yaw, locked, pos);
    }
  }

  /** With nothing locked, only the bounds can reject a piece. */
  lemma NothingLockedOnlyBounds(bounds: Bounds, rotate: Rotation, shape: seq<Offset>, yaw: real, pos: Vec3)
    ensures Collides(bounds, rotate, shape, yaw, [], pos)
            <==> exists i :: 0 <= i < |shape| && Outside(bounds, WorldPoint(rotate, shape[i], yaw, pos))
  {
  }
}
