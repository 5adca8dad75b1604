/**
 * The state of a ChessBoard as a value: the pieces of the side to move
 * ("ours") and of the opponent ("theirs"), the role sets, the king squares,
 * the castling rights and whether the board is stored flipped (black to
 * move). Rooks and queens share the rook set, bishops and queens the bishop
 * set; a queen is in both. The pawn set also carries the en-passant markers
 * on rows 0 and 7: a bit on row 7 at some file says that the opponent's pawn
 * on that file has just made a double push and may be taken en passant.
 */
module Positions {
  import opened Squares
  import opened BitBoards
  import opened Castling
  import Leapers

  datatype Position = Position(ours: BitBoard, theirs: BitBoard,
                               rooks: BitBoard, bishops: BitBoard, pawns: BitBoard,
                               ourKing: Square, theirKing: Square,
                               castlings: Castlings, flipped: bool)
  {
    /** All pieces of both sides. */
    function Occupied(): (r: BitBoard)
      ensures forall x: Square :: r.Get(x) <==> ours.Get(x) || theirs.Get(x)
    {
      ours.Union(theirs)
    }

    /** The real pawns: the pawn set without the en-passant markers (pawns_ & kPawnMask). */
    function Pawns(): (r: BitBoard)
      ensures forall x: Square :: r.Get(x) <==> pawns.Get(x) && Leapers.InPawnMask(x)
    {
      pawns.Intersect(BitBoard(Leapers.PawnMask))
    }

    /** rooks(): rooks without queens. */
    function RooksOnly(): (r: BitBoard)
      ensures forall x: Square :: r.Get(x) <==> rooks.Get(x) && !bishops.Get(x)
    {
      rooks.Minus(bishops)
    }

    /**
     * knights(): the pieces that are neither pawns, kings, rooks, bishops nor
     * queens.
     */
    function Knights(): (r: BitBoard)
      ensures forall x: Square :: r.Get(x) <==>
        (ours.Get(x) || theirs.Get(x)) && !Pawns().Get(x) && x != ourKing && x != theirKing &&
        !rooks.Get(x) && !bishops.Get(x)
    {
      Occupied().Minus(Pawns()).MinusSquare(ourKing).MinusSquare(theirKing).Minus(rooks).Minus(bishops)
    }

    /**
     * ChessBoard::Mirror: the board seen from the other side. Our and their
     * pieces and kings swap, every set and square is mirrored (row r becomes
     * row 7 - r), the castling rights swap sides and the flipped flag toggles.
     */
    function Mirror(): (r: Position)
      ensures r.ours == theirs.Mirror() && r.theirs == ours.Mirror()
      ensures r.ourKing == Squares.Mirror(theirKing) && r.theirKing == Squares.Mirror(ourKing)
      ensures r.rooks == rooks.Mirror() && r.bishops == bishops.Mirror() && r.pawns == pawns.Mirror()
      ensures r.castlings == castlings.Mirror() && r.flipped == !flipped
    {
      Position(theirs.Mirror(), ours.Mirror(), rooks.Mirror(), bishops.Mirror(), pawns.Mirror(),
               Squares.Mirror(theirKing), Squares.Mirror(ourKing), castlings.Mirror(), !flipped)
    }
  }

  /** Mirroring a position twice restores every field. */
  lemma MirrorTwice(p: Position)
    ensures p.Mirror().Mirror() == p
  {
    BitBoards.MirrorTwice(p.ours);
    BitBoards.MirrorTwice(p.theirs);
    BitBoards.MirrorTwice(p.rooks);
    BitBoards.MirrorTwice(p.bishops);
    BitBoards.MirrorTwice(p.pawns);
    MirrorInvolution(p.ourKing);
    MirrorInvolution(p.theirKing);
    Castling.MirrorTwice(p.castlings);
  }

  /** A square holds our piece, their piece, or nothing. */
  predicate SidesDisjoint(p: Position) {
    forall x: Square :: !(p.ours.Get(x) && p.theirs.Get(x))
  }

  /** Mirroring keeps the two sides apart when they were apart. */
  lemma MirrorKeepsSidesDisjoint(p: Position)
    requires SidesDisjoint(p)
    ensures SidesDisjoint(p.Mirror())
  {
    forall x: Square ensures !(p.Mirror().ours.Get(x) && p.Mirror().theirs.Get(x)) {
      MirrorInvolution(x);
      assert p.Mirror().ours.Get(x) == p.theirs.Get(Squares.Mirror(x));
      assert p.Mirror().theirs.Get(x) == p.ours.Get(Squares.Mirror(x));
    }
  }
}
