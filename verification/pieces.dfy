/**
 * The piece catalog: polyomino shapes given as integer cell offsets from an
 * anchor, grouped into difficulty tiers where each harder tier extends the
 * easier one.
 */
module Pieces {
  import opened Wrappers
  import opened Seqs

  /** Difficulty tiers, declared in increasing order. */
  datatype Difficulty = Easy | Medium | Hard

  /** The position of a tier in the declaration order, which C# compares with `>=`. */
  function Rank(d: Difficulty): nat {
    match d
    case Easy => 0
    case Medium => 1
    case Hard => 2
  }

  /** An integer grid vector: a cell offset or an anchor cell. */
  datatype Vec = Vec(x: int, y: int)

  /** Piece colours, kept only as names. */
  datatype Color = Red | Green | Blue | Yellow | Purple | Cyan | Orange | Pink

  datatype PieceData = PieceData(name: string, offsets: seq<Vec>, color: Color, minDifficulty: Difficulty)

  /** The number of unit cells of a piece. */
  function BlockCount(p: PieceData): (n: nat)
    ensures WellFormed(p) ==> n >= 1
  {
    |p.offsets|
  }

  /** The shape invariant: at least one cell and no cell listed twice. */
  predicate WellFormed(p: PieceData) {
    |p.offsets| > 0 && Distinct(p.offsets)
  }

  /** For a well-formed piece the block count is the number of distinct cells it covers. */
  lemma BlockCountIsCellCount(p: PieceData)
    requires WellFormed(p)
    ensures BlockCount(p) == |set v | v in p.offsets|
  {
    DistinctCard(p.offsets);
  }

  /** Every offset coordinate lies in [0, n]. */
  predicate OffsetsWithin(p: PieceData, n: int) {
    forall k :: 0 <= k < |p.offsets| ==> 0 <= p.offsets[k].x <= n && 0 <= p.offsets[k].y <= n
  }

  /** What every catalog entry introduced at tier `tier` satisfies. */
  predicate TierEntry(p: PieceData, tier: Difficulty) {
    WellFormed(p) && OffsetsWithin(p, 4) && p.minDifficulty == tier
  }

  // The sixteen catalog shapes, each checked against the invariant of its tier.

  function Single(): (p: PieceData)
    ensures TierEntry(p, Easy)
  {
    PieceData("Single", [Vec(0, 0)], Yellow, Easy)
  }

  function DominoH(): (p: PieceData)
    ensures TierEntry(p, Easy)
  {
    PieceData("Domino_H", [Vec(0, 0), Vec(1, 0)], Green, Easy)
  }

  function DominoV(): (p: PieceData)
    ensures TierEntry(p, Easy)
  {
    PieceData("Domino_V", [Vec(0, 0), Vec(0, 1)], Pink, Easy)
  }

  function Line3H(): (p: PieceData)
    ensures TierEntry(p, Easy)
  {
    PieceData("Line3_H", [Vec(0, 0), Vec(1, 0), Vec(2, 0)], Orange, Easy)
  }

  function Line3V(): (p: PieceData)
    ensures TierEntry(p, Easy)
  {
    PieceData("Line3_V", [Vec(0, 0), Vec(0, 1), Vec(0, 2)], Cyan, Easy)
  }

  function Square2x2(): (p: PieceData)
    ensures TierEntry(p, Easy)
  {
    PieceData("Square2x2", [Vec(0, 0), Vec(1, 0), Vec(0, 1), Vec(1, 1)], Yellow, Easy)
  }

  function SmallL(): (p: PieceData)
    ensures TierEntry(p, Easy)
  {
    PieceData("SmallL", [Vec(0, 0), Vec(1, 0), Vec(0, 1)], Pink, Easy)
  }

  function Line4H(): (p: PieceData)
    ensures TierEntry(p, Medium)
  {
    PieceData("Line4_H", [Vec(0, 0), Vec(1, 0), Vec(2, 0), Vec(3, 0)], Cyan, Medium)
  }

  function Line4V(): (p: PieceData)
    ensures TierEntry(p, Medium)
  {
    PieceData("Line4_V", [Vec(0, 0), Vec(0, 1), Vec(0, 2), Vec(0, 3)], Blue, Medium)
  }

  function LRight(): (p: PieceData)
    ensures TierEntry(p, Medium)
  {
    PieceData("L_Right", [Vec(0, 0), Vec(0, 1), Vec(0, 2), Vec(1, 0)], Orange, Medium)
  }

  function LLeft(): (p: PieceData)
    ensures TierEntry(p, Medium)
  {
    PieceData("L_Left", [Vec(1, 0), Vec(1, 1), Vec(1, 2), Vec(0, 0)], Purple, Medium)
  }

  function TUp(): (p: PieceData)
    ensures TierEntry(p, Medium)
  {
    PieceData("T_Up", [Vec(0, 0), Vec(1, 0), Vec(2, 0), Vec(1, 1)], Purple, Medium)
  }

  function Line5H(): (p: PieceData)
    ensures TierEntry(p, Hard)
  {
    PieceData("Line5_H", [Vec(0, 0), Vec(1, 0), Vec(2, 0), Vec(3, 0), Vec(4, 0)], Blue, Hard)
  }

  function Line5V(): (p: PieceData)
    ensures TierEntry(p, Hard)
  {
    PieceData("Line5_V", [Vec(0, 0), Vec(0, 1), Vec(0, 2), Vec(0, 3), Vec(0, 4)], Purple, Hard)
  }

  function Square3x3(): (p: PieceData)
    ensures TierEntry(p, Hard)
  {
    PieceData("Square3x3", [Vec(0, 0), Vec(1, 0), Vec(2, 0),
                          Vec(0, 1), Vec(1, 1), Vec(2, 1),
                          Vec(0, 2), Vec(1, 2), Vec(2, 2)], Red, Hard)
  }

  function BigL(): (p: PieceData)
    ensures TierEntry(p, Hard)
  {
    PieceData("BigL", [Vec(0, 0), Vec(0, 1), Vec(0, 2), Vec(1, 0), Vec(2, 0)], Blue, Hard)
  }

  function EasyPieces(): (r: seq<PieceData>)
    ensures |r| == 7 && forall i :: 0 <= i < |r| ==> TierEntry(r[i], Easy)
  {
    [Single(), DominoH(), DominoV(), Line3H(), Line3V(), Square2x2(), SmallL()]
  }

  function MediumPieces(): (r: seq<PieceData>)
    ensures |r| == 5 && forall i :: 0 <= i < |r| ==> TierEntry(r[i], Medium)
  {
    [Line4H(), Line4V(), LRight(), LLeft(), TUp()]
  }

  function HardPieces(): (r: seq<PieceData>)
    ensures |r| == 4 && forall i :: 0 <= i < |r| ==> TierEntry(r[i], Hard)
  {
    [Line5H(), Line5V(), Square3x3(), BigL()]
  }

  /**
   * The pool for a tier: the easy shapes, then the medium ones from Medium up,
   * then the hard ones on Hard.
   */
  function GetPiecesForDifficulty(d: Difficulty): (r: seq<PieceData>)
    ensures |r| == match d case Easy => 7 case Medium => 12 case Hard => 16
    ensures forall i :: 0 <= i < |r| ==> WellFormed(r[i])
    ensures forall i :: 0 <= i < |r| ==> Rank(r[i].minDifficulty) <= Rank(d)
    ensures forall i :: 0 <= i < |r| ==> OffsetsWithin(r[i], 4)
  {
    EasyPieces()
    + (if Rank(d) >= Rank(Medium) then MediumPieces() else [])
    + (if Rank(d) >= Rank(Hard) then HardPieces() else [])
  }

  /** A harder tier's pool starts with the whole pool of an easier tier. */
  lemma PoolsArePrefixes(d1: Difficulty, d2: Difficulty)
    requires Rank(d1) <= Rank(d2)
    ensures GetPiecesForDifficulty(d1) <= GetPiecesForDifficulty(d2)
  {
  }

  /**
   * Picks a piece from a pool: null for an empty pool, otherwise any of its
   * entries (the random index is an unconstrained choice).
   */
  method PickRandom(pool: seq<PieceData>) returns (r: Option<PieceData>)
    ensures r.None? <==> |pool| == 0
    ensures r.Some? ==> r.value in pool
  {
    if |pool| == 0 {
      return None;
    }
    var index :| 0 <= index < |pool|;
    r := Some(pool[index]);
  }

  /** A random piece of a tier's pool; since no pool is empty it is never null. */
  method GetRandomPiece(d: Difficulty) returns (r: Option<PieceData>)
    ensures r.Some? && r.value in GetPiecesForDifficulty(d)
  {
    r := PickRandom(GetPiecesForDifficulty(d));
  }
}
