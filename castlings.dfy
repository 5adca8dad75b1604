/**
 * Castling rights (class Castlings, declared in chess/board.h): four
 * independent rights, own and opponent, kingside (00) and queenside (000),
 * and the files of the rooks castling uses. One pair of rook files serves
 * both sides, so the opponent's castling rook is looked up on the last row
 * with the same file.
 */
module Castling {

  /** A file number, 0 for a to 7 for h (uint8_t in the source). */
  type File = x: int | 0 <= x < 8

  datatype Castlings = Castlings(weCan00: bool, weCan000: bool, theyCan00: bool, theyCan000: bool,
                                 queensideRook: File, kingsideRook: File)
  {
    /** Castlings::Mirror: the own rights become the opponent's and back; the rook files stay. */
    function Mirror(): (r: Castlings)
      ensures r.weCan00 == theyCan00 && r.weCan000 == theyCan000
      ensures r.theyCan00 == weCan00 && r.theyCan000 == weCan000
      ensures r.queensideRook == queensideRook && r.kingsideRook == kingsideRook
    {
      Castlings(theyCan00, theyCan000, weCan00, weCan000, queensideRook, kingsideRook)
    }
  }

  /**
   * The rights of a cleared board: ChessBoard::Clear sets every byte to zero,
   * so no right is held and both rook files read as file a.
   */
  const Cleared: Castlings := Castlings(false, false, false, false, 0, 0)

  /** Mirroring the rights twice gives them back. */
  lemma MirrorTwice(c: Castlings)
    ensures c.Mirror().Mirror() == c
  {
  }
}
