/**
 * ChessBoard::IsUnderAttack: whether a piece of the opponent attacks a
 * square. The source looks from the square outwards (rays for rooks and
 * bishops through the attack tables, the fixed pawn and knight patterns,
 * adjacency for the king); the reference definition here looks from each
 * opponent piece at the squares it reaches, and the two are proved equal.
 */
module Attacks {
  import opened Squares
  import opened BitBoards
  import opened Rays
  import opened Leapers
  import opened AttackTables
  import opened Positions

  /** The two slider tables after initialisation (rook_attacks_table, bishop_attacks_table). */
  datatype Tables = Tables(rook: SliderTable, bishop: SliderTable)
  {
    ghost predicate Valid() {
      rook.dirs == RookDirections && bishop.dirs == BishopDirections && rook.Valid() && bishop.Valid()
    }

    /** GetRookAttacks: the squares a rook on sq attacks with the given pieces on the board. */
    function RookAttacks(sq: Square, pieces: BitBoard): (r: BitBoard)
      requires Valid()
      ensures r.squares == SliderAttacks(sq, RookDirections, pieces.squares)
    {
      rook.Attacks(sq, pieces)
    }

    /** GetBishopAttacks: the squares a bishop on sq attacks with the given pieces on the board. */
    function BishopAttacks(sq: Square, pieces: BitBoard): (r: BitBoard)
      requires Valid()
      ensures r.squares == SliderAttacks(sq, BishopDirections, pieces.squares)
    {
      bishop.Attacks(sq, pieces)
    }
  }

  /** Two squares at most one row and one column apart (a square touches itself). */
  predicate Touches(a: Square, b: Square) {
    Dist(Row(a), Row(b)) <= 1 && Dist(Col(a), Col(b)) <= 1
  }

  /** An opponent pawn on x takes diagonally towards row 0, onto sq. */
  predicate PawnTakes(x: Square, sq: Square) {
    Row(sq) == Row(x) - 1 && Row(x) <= 6 && Dist(Col(x), Col(sq)) == 1
  }

  /** The pattern table kPawnAttacks lists exactly the squares from which an opponent pawn takes on sq. */
  lemma PawnAttacksMeaning(x: Square, sq: Square)
    ensures x in PawnAttacks(sq) <==> PawnTakes(x, sq)
  {
  }

  /** A piece of the opponent that counts as a knight: not the king, not a slider, not a real pawn. */
  predicate CountsAsKnight(p: Position, x: Square) {
    x != p.theirKing && !p.rooks.Get(x) && !p.bishops.Get(x) && !p.Pawns().Get(x)
  }

  /**
   * The piece of the opponent on x reaches sq: as a rook or queen along a
   * line, as a bishop or queen along a diagonal (both stopping at the first
   * piece in the way), as a pawn diagonally forward, or as a knight.
   */
  predicate PieceAttacks(p: Position, x: Square, sq: Square) {
    (p.rooks.Get(x) && sq in SliderAttacks(x, RookDirections, p.Occupied().squares)) ||
    (p.bishops.Get(x) && sq in SliderAttacks(x, BishopDirections, p.Occupied().squares)) ||
    (p.pawns.Get(x) && PawnTakes(x, sq)) ||
    (CountsAsKnight(p, x) && KnightJump(x, sq))
  }

  /** Some piece of the opponent reaches sq. */
  ghost predicate AttackedByPiece(p: Position, sq: Square) {
    exists x: Square :: p.theirs.Get(x) && PieceAttacks(p, x, sq)
  }

  /** Reference: the opponent's king touches sq, or some piece of the opponent reaches it. */
  ghost predicate Attacked(p: Position, sq: Square) {
    Touches(p.theirKing, sq) || AttackedByPiece(p, sq)
  }

  /**
   * IsUnderAttack: king adjacency, then the rook and bishop attacks from sq
   * meeting an opponent slider of that kind, then the pawn and knight
   * patterns meeting an opponent pawn or knight. The result is the reference
   * Attacked.
   */
  function IsUnderAttack(t: Tables, p: Position, sq: Square): (r: bool)
    requires t.Valid()
    ensures r == Attacked(p, sq)
  {
    AttackedFromTarget(p, sq);
    Touches(p.theirKing, sq) ||
    t.RookAttacks(sq, p.Occupied()).Intersects(p.theirs.Intersect(p.rooks)) ||
    t.BishopAttacks(sq, p.Occupied()).Intersects(p.theirs.Intersect(p.bishops)) ||
    BitBoard(PawnAttacks(sq)).Intersects(p.theirs.Intersect(p.pawns)) ||
    BitBoard(KnightAttacks(sq)).Intersects(
      p.theirs.MinusSquare(p.theirKing).Minus(p.rooks).Minus(p.bishops).Minus(p.Pawns()))
  }

  /** The reference read from the target square: each attacker kind seen from sq. */
  lemma AttackedFromTarget(p: Position, sq: Square)
    ensures AttackedByPiece(p, sq) <==>
      SliderAttacks(sq, RookDirections, p.Occupied().squares) * (p.theirs.squares * p.rooks.squares) != {} ||
      SliderAttacks(sq, BishopDirections, p.Occupied().squares) * (p.theirs.squares * p.bishops.squares) != {} ||
      PawnAttacks(sq) * (p.theirs.squares * p.pawns.squares) != {} ||
      KnightAttacks(sq) * (p.theirs.squares - {p.theirKing} - p.rooks.squares - p.bishops.squares - p.Pawns().squares) != {}
  {
    var occ := p.Occupied().squares;
    if exists x: Square :: p.theirs.Get(x) && PieceAttacks(p, x, sq) {
      var x: Square :| p.theirs.Get(x) && PieceAttacks(p, x, sq);
      if p.rooks.Get(x) && sq in SliderAttacks(x, RookDirections, occ) {
        SliderSymmetric(x, RookDirections, occ, sq);
        assert x in SliderAttacks(sq, RookDirections, occ) * (p.theirs.squares * p.rooks.squares);
      } else if p.bishops.Get(x) && sq in SliderAttacks(x, BishopDirections, occ) {
        SliderSymmetric(x, BishopDirections, occ, sq);
        assert x in SliderAttacks(sq, BishopDirections, occ) * (p.theirs.squares * p.bishops.squares);
      } else if p.pawns.Get(x) && PawnTakes(x, sq) {
        PawnAttacksMeaning(x, sq);
        assert x in PawnAttacks(sq) * (p.theirs.squares * p.pawns.squares);
      } else {
        KnightAttacksSymmetric(x, sq);
        assert x in KnightAttacks(sq) * (p.theirs.squares - {p.theirKing} - p.rooks.squares - p.bishops.squares - p.Pawns().squares);
      }
    }
    if SliderAttacks(sq, RookDirections, occ) * (p.theirs.squares * p.rooks.squares) != {} {
      var x :| x in SliderAttacks(sq, RookDirections, occ) * (p.theirs.squares * p.rooks.squares);
      SliderSymmetric(sq, RookDirections, occ, x);
      assert p.theirs.Get(x) && PieceAttacks(p, x, sq);
    }
    if SliderAttacks(sq, BishopDirections, occ) * (p.theirs.squares * p.bishops.squares) != {} {
      var x :| x in SliderAttacks(sq, BishopDirections, occ) * (p.theirs.squares * p.bishops.squares);
      SliderSymmetric(sq, BishopDirections, occ, x);
      assert p.theirs.Get(x) && PieceAttacks(p, x, sq);
    }
    if PawnAttacks(sq) * (p.theirs.squares * p.pawns.squares) != {} {
      var x :| x in PawnAttacks(sq) * (p.theirs.squares * p.pawns.squares);
      PawnAttacksMeaning(x, sq);
      assert p.theirs.Get(x) && PieceAttacks(p, x, sq);
    }
    if KnightAttacks(sq) * (p.theirs.squares - {p.theirKing} - p.rooks.squares - p.bishops.squares - p.Pawns().squares) != {} {
      var x :| x in KnightAttacks(sq) * (p.theirs.squares - {p.theirKing} - p.rooks.squares - p.bishops.squares - p.Pawns().squares);
      KnightAttacksSymmetric(x, sq);
      assert p.theirs.Get(x) && PieceAttacks(p, x, sq);
    }
  }
}
