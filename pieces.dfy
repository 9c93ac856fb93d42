/** The four fixed tetromino shapes and the random choice among them. */
module Pieces {
  import opened Geometry

  /** The piece kinds, in the order the piece table lists them. */
  datatype PieceType = L | I | O | T

  const AllTypes: seq<PieceType> := [L, I, O, T]

  /** The blocks of each kind, relative to the piece origin: four distinct
      integer offsets, the first of them the origin itself. */
  function Shape(t: PieceType): (s: seq<Offset>)
    ensures |s| == 4 && s[0] == Origin
    ensures forall i, j :: 0 <= i < j < |s| ==> s[i] != s[j]
  {
    match t
    case L => [Offset(0, 0, 0), Offset(0, -1, 0), Offset(0, -2, 0), Offset(1, -2, 0)]
    case I => [Offset(0, 0, 0), Offset(0, -1, 0), Offset(0, -2, 0), Offset(0, -3, 0)]
    case O => [Offset(0, 0, 0), Offset(1, 0, 0), Offset(0, -1, 0), Offset(1, -1, 0)]
    case T => [Offset(0, 0, 0), Offset(-1, -1, 0), Offset(0, -1, 0), Offset(1, -1, 0)]
  }

  /** Display colour (cosmetic). */
  function Color(t: PieceType): string
  {
    match t
    case L => "#00BCD4"
    case I => "#FF5722"
    case O => "#FFEB3B"
    case T => "#9C27B0"
  }

  /** The kind picked by `floor(roll * 4)` for a uniform roll in [0, 1):
      each kind owns exactly one quarter of the interval. */
  function PickPiece(roll: real): (t: PieceType)
    requires 0.0 <= roll < 1.0
    ensures forall k :: 0 <= k < |AllTypes| ==>
              (t == AllTypes[k] <==> k as real / 4.0 <= roll < (k + 1) as real / 4.0)
  {
    var k := (roll * |AllTypes| as real).Floor;
    AllTypes[k]
  }

  /** Every kind can be picked. */
  lemma EveryKindPickable(t: PieceType)
    ensures exists roll :: 0.0 <= roll < 1.0 && PickPiece(roll) == t
  {
    var k := match t case L => 0 case I => 1 case O => 2 case T => 3;
    assert AllTypes[k] == t;
    var roll := k as real / 4.0;
    assert PickPiece(roll) == AllTypes[k];
  }
}
