/**
 * The fixed per-square tables of chess/board.cc, given by their coordinate
 * rules: knight jumps (kKnightAttacks), the squares from which an opponent
 * pawn attacks a square (kPawnAttacks), the king's eight steps (kKingMoves),
 * the rows pawns may stand on (kPawnMask) and the square colours used by
 * HasMatingMaterial.
 */
module Leapers {
  import opened Squares
  import Rays

  function Dist(a: int, b: int): nat {
    if a >= b then a - b else b - a
  }

  /** Two squares a knight's jump apart. */
  predicate KnightJump(a: Square, b: Square) {
    (Dist(Row(a), Row(b)) == 1 && Dist(Col(a), Col(b)) == 2) ||
    (Dist(Row(a), Row(b)) == 2 && Dist(Col(a), Col(b)) == 1)
  }

  /** kKnightAttacks[sq]: the squares a knight on sq attacks. */
  function KnightAttacks(sq: Square): set<Square> {
    set x: Square | KnightJump(sq, x)
  }

  /** A knight on a attacks b exactly when a knight on b attacks a. */
  lemma KnightAttacksSymmetric(a: Square, b: Square)
    ensures a in KnightAttacks(b) <==> b in KnightAttacks(a)
  {
  }

  /** Knight attacks commute with mirroring the rows. */
  lemma KnightAttacksMirror(sq: Square, x: Square)
    ensures x in KnightAttacks(sq) <==> Mirror(x) in KnightAttacks(Mirror(sq))
  {
  }

  /**
   * kPawnAttacks[sq]: the squares from which a pawn of the opponent (moving
   * towards row 0) attacks sq: one row up and one column aside. The table is
   * empty for rows 6 and 7.
   */
  function PawnAttacks(sq: Square): set<Square> {
    set x: Square | Row(sq) <= 5 && Row(x) == Row(sq) + 1 && Dist(Col(x), Col(sq)) == 1
  }

  /** kPawnMask: rows 1..6, where real pawns stand; rows 0 and 7 hold en-passant markers. */
  predicate InPawnMask(sq: Square) {
    1 <= Row(sq) <= 6
  }

  const PawnMask: set<Square> := set x: Square | InPawnMask(x)

  /** Mirroring keeps a square inside or outside the pawn rows. */
  lemma PawnMaskMirror(sq: Square)
    ensures InPawnMask(Mirror(sq)) == InPawnMask(sq)
  {
  }

  /** kKingMoves, first two components, each planar neighbour once. */
  const KingDeltas: seq<Rays.Delta> := [
    Rays.Delta(-1, -1), Rays.Delta(-1, 0), Rays.Delta(-1, 1), Rays.Delta(0, -1),
    Rays.Delta(0, 1), Rays.Delta(1, -1), Rays.Delta(1, 0), Rays.Delta(1, 1)]

  /** The king deltas are exactly the eight non-zero steps of at most one square. */
  lemma KingDeltasAreNeighbours(dr: int, dc: int)
    ensures Rays.Delta(dr, dc) in KingDeltas <==> Dist(dr, 0) <= 1 && Dist(dc, 0) <= 1 && (dr != 0 || dc != 0)
  {
  }

  /** Light squares (kLightSquares, 0x55AA55AA55AA55AA): b1, a2, ... */
  predicate IsLight(sq: Square) {
    (Row(sq) + Col(sq)) % 2 == 1
  }

  /** Mirroring a square flips its colour (7 - row changes the parity). */
  lemma MirrorFlipsColour(sq: Square)
    ensures IsLight(Mirror(sq)) == !IsLight(sq)
  {
  }
}
