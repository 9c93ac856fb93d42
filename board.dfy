/** The discrete occupancy board: a fixed 10 (height) x 5 (width) x 5 (depth)
    grid of 0/1 cells, addressed by world cells whose x and z are centred on the
    origin. */
module Board {
  import opened Geometry
  import opened Pieces

  const GameWidth: int := 5
  const GameHeight: int := 10
  const GameDepth: int := 5

  /** Indexed `[y][x + 2][z + 2]`. */
  type Grid = seq<seq<seq<int>>>

  /** An integer world cell. */
  datatype Cell = Cell(x: int, y: int, z: int)

  /** The board has exactly GameHeight x GameWidth x GameDepth cells. */
  predicate WellShaped(b: Grid)
  {
    |b| == GameHeight
    && (forall y :: 0 <= y < |b| ==> |b[y]| == GameWidth)
    && (forall y, x :: 0 <= y < |b| && 0 <= x < |b[y]| ==> |b[y][x]| == GameDepth)
  }

  /** The board bounds: x and z in [-2, 2], y in [0, 10). A cell is in bounds
      exactly when its translated indices address the grid. */
  predicate IsWithinBounds(c: Cell): (r: bool)
    ensures r <==> (0 <= c.y < GameHeight && 0 <= c.x + 2 < GameWidth && 0 <= c.z + 2 < GameDepth)
  {
    -2 <= c.x <= 2 && 0 <= c.y < GameHeight && -2 <= c.z <= 2
  }

  /** The flag stored for an in-bounds cell. */
  function At(b: Grid, c: Cell): int
    requires WellShaped(b) && IsWithinBounds(c)
  {
    b[c.y][c.x + 2][c.z + 2]
  }

  /** A cell off the board counts as occupied; a cell on it is occupied iff
      its flag is 1. */
  predicate IsPositionOccupied(b: Grid, c: Cell): (r: bool)
    requires WellShaped(b)
    ensures !IsWithinBounds(c) ==> r
    ensures IsWithinBounds(c) ==> (r <==> At(b, c) == 1)
  {
    if !IsWithinBounds(c) then true
    else if c.y < 0 then true
    else b[c.y][c.x + 2][c.z + 2] == 1
  }

  /** Every in-bounds flag is 0. */
  ghost predicate IsEmpty(b: Grid)
    requires WellShaped(b)
  {
    forall c :: IsWithinBounds(c) ==> At(b, c) == 0
  }

  /** Builds a fresh board row by row; every cell starts at 0, so exactly the
      off-board cells count as occupied. */
  method CreateEmptyBoard() returns (b: Grid)
    ensures WellShaped(b) && IsEmpty(b)
    ensures forall c :: IsPositionOccupied(b, c) <==> !IsWithinBounds(c)
  {
    b := [];
    var y := 0;
    while y < GameHeight
      invariant 0 <= y <= GameHeight && |b| == y
      invariant forall y' :: 0 <= y' < y ==> |b[y']| == GameWidth
      invariant forall y', x :: 0 <= y' < y && 0 <= x < GameWidth ==> b[y'][x] == seq(GameDepth, _ => 0)
    {
      var row: seq<seq<int>> := [];
      var x := 0;
      while x < GameWidth
        invariant 0 <= x <= GameWidth && |row| == x
        invariant forall x' :: 0 <= x' < x ==> row[x'] == seq(GameDepth, _ => 0)
      {
        row := row + [seq(GameDepth, _ => 0)];
        x := x + 1;
      }
      b := b + [row];
      y := y + 1;
    }
  }

  /** JavaScript's Math.round: the nearest integer, halves rounded up. */
  function Round(v: real): (r: int)
    ensures v - 0.5 < r as real <= v + 0.5
  {
    (v + 0.5).Floor
  }

  function Floor(v: real): (r: int)
    ensures r as real <= v < r as real + 1.0
  {
    v.Floor
  }

  /** The cell an offset of a piece at `pos` falls in: x and z rounded to the
      nearest integer, y rounded down. */
  function TargetCell(o: Offset, pos: Vec3): Cell
  {
    Cell(Round(pos.x + o.dx as real), Floor(pos.y + o.dy as real), Round(pos.z + o.dz as real))
  }

  /** Every target cell of the piece is on the board and free. */
  predicate FitsAt(b: Grid, piece: seq<Offset>, pos: Vec3)
    requires WellShaped(b)
  {
    forall i :: 0 <= i < |piece| ==> !IsPositionOccupied(b, TargetCell(piece[i], pos))
  }

  /** Offsets in order, rejecting at the first occupied target cell; so any
      target cell off the board rejects the move. */
  method CanPieceMove(b: Grid, piece: seq<Offset>, pos: Vec3) returns (ok: bool)
    requires WellShaped(b)
    ensures ok <==> FitsAt(b, piece, pos)
    ensures (exists i :: 0 <= i < |piece| && !IsWithinBounds(TargetCell(piece[i], pos))) ==> !ok
  {
    for i := 0 to |piece|
      invariant forall i' :: 0 <= i' < i ==> !IsPositionOccupied(b, TargetCell(piece[i'], pos))
    {
      var t := TargetCell(piece[i], pos);
      if IsPositionOccupied(b, t) {
        return false;
      }
    }
    return true;
  }

  /** Some offset of the piece targets cell `c`. */
  predicate Claims(piece: seq<Offset>, pos: Vec3, c: Cell)
  {
    exists i :: 0 <= i < |piece| && TargetCell(piece[i], pos) == c
  }

  /** The board after locking: exactly the in-bounds target cells become 1,
      every other cell keeps its value. */
  function LockedBoard(b: Grid, piece: seq<Offset>, pos: Vec3): (r: Grid)
    requires WellShaped(b)
    ensures WellShaped(r)
    ensures forall c :: IsWithinBounds(c) ==> At(r, c) == if Claims(piece, pos, c) then 1 else At(b, c)
  {
    seq(GameHeight, y requires 0 <= y < GameHeight =>
      seq(GameWidth, x requires 0 <= x < GameWidth =>
        seq(GameDepth, z requires 0 <= z < GameDepth =>
          if Claims(piece, pos, Cell(x - 2, y, z - 2)) then 1 else b[y][x][z])))
  }

  /** Two well-shaped boards that agree on every in-bounds cell are equal. */
  lemma SameCellsSameGrid(a: Grid, b: Grid)
    requires WellShaped(a) && WellShaped(b)
    requires forall c :: IsWithinBounds(c) ==> At(a, c) == At(b, c)
    ensures a == b
  {
    forall y | 0 <= y < GameHeight
      ensures a[y] == b[y]
    {
      forall x | 0 <= x < GameWidth
        ensures a[y][x] == b[y][x]
      {
        forall z | 0 <= z < GameDepth
          ensures a[y][x][z] == b[y][x][z]
        {
          assert At(a, Cell(x - 2, y, z - 2)) == At(b, Cell(x - 2, y, z - 2));
        }
      }
    }
  }

  /** Writes the target cells of the piece into a copy of the board, one
      offset at a time, silently skipping targets off the board. */
  method LockPiece(b: Grid, piece: seq<Offset>, pos: Vec3) returns (nb: Grid)
    requires WellShaped(b)
    ensures nb == LockedBoard(b, piece, pos)
  {
    nb := b;
    for i := 0 to |piece|
      invariant WellShaped(nb)
      invariant forall c :: IsWithinBounds(c) ==> At(nb, c) == if Claims(piece[..i], pos, c) then 1 else At(b, c)
    {
      var t := TargetCell(piece[i], pos);
      var bx, bz := t.x + 2, t.z + 2;
      if t.y >= 0 && t.y < GameHeight && bx >= 0 && bx < GameWidth && bz >= 0 && bz < GameDepth {
        nb := nb[t.y := nb[t.y][bx := nb[t.y][bx][bz := 1]]];
      }
      forall c | IsWithinBounds(c)
        ensures Claims(piece[..i + 1], pos, c) <==> Claims(piece[..i], pos, c) || t == c
      {
        if t == c {
          assert piece[..i + 1][i] == piece[i];
        }
        if Claims(piece[..i + 1], pos, c) {
          var k :| 0 <= k < i + 1 && TargetCell(piece[..i + 1][k], pos) == c;
          if k < i {
            assert piece[..i][k] == piece[..i + 1][k];
          }
        }
        if Claims(piece[..i], pos, c) {
          var k :| 0 <= k < i && TargetCell(piece[..i][k], pos) == c;
          assert piece[..i + 1][k] == piece[..i][k];
        }
      }
    }
    assert piece[..|piece|] == piece;
    SameCellsSameGrid(nb, LockedBoard(b, piece, pos));
  }

  /** Locking never clears a cell. */
  lemma LockMonotone(b: Grid, piece: seq<Offset>, pos: Vec3)
    requires WellShaped(b)
    ensures forall c :: IsPositionOccupied(b, c) ==> IsPositionOccupied(LockedBoard(b, piece, pos), c)
  {
  }

  /** Locking the same piece at the same place twice gives the board of one lock. */
  lemma LockIdempotent(b: Grid, piece: seq<Offset>, pos: Vec3)
    requires WellShaped(b)
    ensures LockedBoard(LockedBoard(b, piece, pos), piece, pos) == LockedBoard(b, piece, pos)
  {
    var once := LockedBoard(b, piece, pos);
    SameCellsSameGrid(LockedBoard(once, piece, pos), once);
  }

  /** Two locks give the same board in either order, even where they share cells. */
  lemma LockCommutes(b: Grid, p1: seq<Offset>, pos1: Vec3, p2: seq<Offset>, pos2: Vec3)
    requires WellShaped(b)
    ensures LockedBoard(LockedBoard(b, p1, pos1), p2, pos2) == LockedBoard(LockedBoard(b, p2, pos2), p1, pos1)
  {
    SameCellsSameGrid(LockedBoard(LockedBoard(b, p1, pos1), p2, pos2), LockedBoard(LockedBoard(b, p2, pos2), p1, pos1));
  }

  /** Once a piece with some target on the board is locked, it can no longer
      move to where it was locked. */
  lemma LockBlocksMove(b: Grid, piece: seq<Offset>, pos: Vec3, i: int)
    requires WellShaped(b)
    requires 0 <= i < |piece| && IsWithinBounds(TargetCell(piece[i], pos))
    ensures !FitsAt(LockedBoard(b, piece, pos), piece, pos)
  {
    assert Claims(piece, pos, TargetCell(piece[i], pos));
  }

  /** On an empty board the O piece fits one row above the floor but not on
      it: its lower blocks would land in row -1, which is off the board. */
  lemma OScenario(b: Grid)
    requires WellShaped(b) && IsEmpty(b)
    ensures FitsAt(b, Shape(O), Vec3(0.0, 1.0, 0.0))
    ensures !FitsAt(b, Shape(O), Vec3(0.0, 0.0, 0.0))
  {
    var s := Shape(O);
    var up := Vec3(0.0, 1.0, 0.0);
    assert TargetCell(s[0], up) == Cell(0, 1, 0);
    assert TargetCell(s[1], up) == Cell(1, 1, 0);
    assert TargetCell(s[2], up) == Cell(0, 0, 0);
    assert TargetCell(s[3], up) == Cell(1, 0, 0);
    assert TargetCell(s[2], Vec3(0.0, 0.0, 0.0)) == Cell(0, -1, 0);
  }
}
