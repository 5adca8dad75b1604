/**
 * ChessBoard::ApplyMove as a function on positions: the position after the
 * side to move plays a move (still seen from the mover's side; the caller
 * mirrors it afterwards), and whether the move resets the fifty-move
 * counter. The ChessBoard class performs the same steps on its fields.
 */
module Apply {
  import opened Wrappers
  import opened Squares
  import opened BitBoards
  import opened Leapers
  import opened Moves
  import opened Castling
  import opened Positions

  /** A castling as ApplyMove performs it: where the king goes, where the rook comes from and goes to. */
  datatype CastlingPlan = CastlingPlan(kingDst: Square, rookSrc: Square, rookDst: Square)

  /**
   * The castling a king move on rank 1 stands for: the king onto an own rook
   * (kingside when the rook is to the king's right, queenside otherwise), or
   * the classical e1g1 and e1c1. Any other move is no castling.
   */
  function CastlingOf(p: Position, m: Move): Option<CastlingPlan> {
    var from := m.From();
    var to := m.To();
    if from == p.ourKing && Row(from) == RANK_1 && Row(to) == RANK_1 then
      if p.RooksOnly().Intersect(p.ours).Get(to) then
        if Col(to) > Col(from) then Some(CastlingPlan(G1, to, F1)) else Some(CastlingPlan(C1, to, D1))
      else if Col(from) == FILE_E && Col(to) == FILE_G then Some(CastlingPlan(G1, H1, F1))
      else if Col(from) == FILE_E && Col(to) == FILE_C then Some(CastlingPlan(C1, A1, D1))
      else None
    else None
  }

  /** do_castling: drop the en-passant markers, move the king and the rook, keep the rook's role with it. */
  function DoCastling(p: Position, plan: CastlingPlan): Position {
    p.(pawns := p.pawns.Intersect(BitBoard(PawnMask)),
       ours := p.ours.Reset(p.ourKing).Reset(plan.rookSrc).Set(plan.kingDst).Set(plan.rookDst),
       rooks := p.rooks.Reset(plan.rookSrc).Set(plan.rookDst),
       ourKing := plan.kingDst)
  }

  /** The en-passant capture test: a pawn on row 4 moving to another file under a marker. */
  predicate IsEnPassant(pawns: BitBoard, from: Square, to: Square) {
    Row(from) == RANK_5 && pawns.Get(from) && Col(from) != Col(to) && pawns.Get(At(RANK_8, Col(to)))
  }

  /** The role sets after a promotion to the given piece: a rook, bishop or queen keeps its roles; a knight has none. */
  function PromoteRooks(rooks: BitBoard, to: Square, pr: Promotion): BitBoard {
    if pr == Rook || pr == Queen then rooks.Set(to) else rooks
  }

  function PromoteBishops(bishops: BitBoard, to: Square, pr: Promotion): BitBoard {
    if pr == Bishop || pr == Queen then bishops.Set(to) else bishops
  }

  /** The marker a double push leaves on row 0 of its file when an opponent pawn stands beside the pawn. */
  function PushMarker(pawns: BitBoard, theirs: BitBoard, from: Square, to: Square): BitBoard {
    if Row(to) - Row(from) == 2 && pawns.Get(to)
       && BitBoard(PawnAttacks(At(Row(to) - 1, Col(to)))).Intersects(theirs.Intersect(pawns))
    then pawns.Set(At(0, Col(to)))
    else pawns
  }

  /** Landing on the opponent's castling rook square ends the opponent's right on that side. */
  function CaptureRights(c: Castlings, to: Square): Castlings {
    var c1 := if to == 56 + c.kingsideRook then c.(theyCan00 := false) else c;
    if to == 56 + c1.queensideRook then c1.(theyCan000 := false) else c1
  }

  /** A rook leaving a rank-1 square on a castling rook file ends the own right on that side. */
  function RookMoveRights(c: Castlings, from: Square, rooks: BitBoard): Castlings {
    if Row(from) == RANK_1 && rooks.Get(from) then
      var d := if Col(from) == c.queensideRook then c.(weCan000 := false) else c;
      if Col(from) == d.kingsideRook then d.(weCan00 := false) else d
    else c
  }

  /**
   * ApplyMove: the new position and whether the move resets the fifty-move
   * counter, following the source step by step.
   */
  function ApplyMove(p: Position, m: Move): (Position, bool) {
    var from := m.From();
    var to := m.To();
    var c0 := if from == p.ourKing then p.castlings.(weCan00 := false, weCan000 := false) else p.castlings;
    match CastlingOf(p, m)
    case Some(plan) => (DoCastling(p.(castlings := c0), plan), false)
    case None =>
      var ours := p.ours.Reset(from).Set(to);
      var captured := p.theirs.Get(to);
      var theirs := p.theirs.Reset(to);
      var rooks := p.rooks.Reset(to);
      var bishops := p.bishops.Reset(to);
      var pawns := p.pawns.Reset(to);
      var c2 := CaptureRights(c0, to);
      var ep := IsEnPassant(pawns, from, to);
      var pawns1 := if ep then pawns.Reset(At(RANK_5, Col(to))) else pawns;
      var theirs1 := if ep then theirs.Reset(At(RANK_5, Col(to))) else theirs;
      var pawns2 := pawns1.Intersect(BitBoard(PawnMask));
      var reset := captured || pawns2.Get(from);
      if from == p.ourKing then
        (Position(ours, theirs1, rooks, bishops, pawns2, to, p.theirKing, c2, p.flipped), reset)
      else if Row(to) == RANK_8 && pawns2.Get(from) then
        (Position(ours, theirs1, PromoteRooks(rooks, to, m.Promotion()), PromoteBishops(bishops, to, m.Promotion()),
                  pawns2.Reset(from), p.ourKing, p.theirKing, c2, p.flipped), true)
      else
        var c3 := RookMoveRights(c2, from, rooks);
        var rooks1 := rooks.SetIf(to, rooks.Get(from)).Reset(from);
        var bishops1 := bishops.SetIf(to, bishops.Get(from)).Reset(from);
        var pawns3 := pawns2.SetIf(to, pawns2.Get(from)).Reset(from);
        (Position(ours, theirs1, rooks1, bishops1, PushMarker(pawns3, theirs1, from, to),
                  p.ourKing, p.theirKing, c3, p.flipped), reset)
  }

  // ----- What a move does -----

  /** Any move of the king gives up both own castling rights. */
  lemma KingMoveClearsRights(p: Position, m: Move)
    requires m.From() == p.ourKing
    ensures !ApplyMove(p, m).0.castlings.weCan00 && !ApplyMove(p, m).0.castlings.weCan000
  {
  }

  /**
   * Castling puts the king on g1 with the rook on f1, or the king on c1
   * with the rook on d1; the rook keeps its role, nothing of the opponent
   * changes, every en-passant marker goes, and the counter is not reset.
   */
  lemma CastlingPlacement(p: Position, m: Move)
    requires CastlingOf(p, m).Some?
    ensures var plan := CastlingOf(p, m).value;
      var (q, reset) := ApplyMove(p, m);
      !reset &&
      ((plan.kingDst == G1 && plan.rookDst == F1) || (plan.kingDst == C1 && plan.rookDst == D1)) &&
      q.ourKing == plan.kingDst && q.ours.Get(plan.kingDst) && q.ours.Get(plan.rookDst) && q.rooks.Get(plan.rookDst) &&
      q.ours.squares == p.ours.squares - {p.ourKing, plan.rookSrc} + {plan.kingDst, plan.rookDst} &&
      q.theirs == p.theirs && q.bishops == p.bishops &&
      (forall x: Square :: q.pawns.Get(x) <==> p.Pawns().Get(x)) &&
      !q.castlings.weCan00 && !q.castlings.weCan000
  {
  }

  /** When castling moves the king and rook onto squares free of opponent pieces, the sides stay apart. */
  lemma CastlingKeepsSidesDisjoint(p: Position, m: Move)
    requires SidesDisjoint(p) && CastlingOf(p, m).Some?
    requires !p.theirs.Get(CastlingOf(p, m).value.kingDst) && !p.theirs.Get(CastlingOf(p, m).value.rookDst)
    ensures SidesDisjoint(ApplyMove(p, m).0)
  {
  }

  /** The square an en-passant capture empties: the captured pawn beside the origin. */
  function EnPassantVictim(m: Move): Square {
    At(RANK_5, Col(m.To()))
  }

  /**
   * Any other move: the mover's piece leaves its square for the
   * destination; the opponent loses the piece on the destination and, for an
   * en-passant capture, the pawn beside the origin; the sides stay apart.
   */
  lemma OrdinaryMovePieces(p: Position, m: Move)
    requires CastlingOf(p, m).None?
    ensures var q := ApplyMove(p, m).0;
      q.ours.squares == p.ours.squares - {m.From()} + {m.To()} &&
      q.theirs.squares == p.theirs.squares - {m.To()} -
        (if IsEnPassant(p.pawns.Reset(m.To()), m.From(), m.To()) then {EnPassantVictim(m)} else {})
    ensures SidesDisjoint(p) ==> SidesDisjoint(ApplyMove(p, m).0)
  {
  }

  /**
   * A move of an own piece other than the king, not an en-passant capture:
   * the kings stay, the opponent loses only the piece on the destination,
   * the occupied squares change only at the origin (vacated) and the
   * destination (occupied), and every other square keeps its roles (the
   * pawn set may gain only a marker on row 0).
   */
  lemma NonKingMoveEffects(p: Position, m: Move)
    requires SidesDisjoint(p) && p.ours.Get(m.From()) && m.From() != p.ourKing
    requires !IsEnPassant(p.pawns, m.From(), m.To())
    ensures var q := ApplyMove(p, m).0;
      q.ourKing == p.ourKing && q.theirKing == p.theirKing &&
      q.theirs.squares == p.theirs.squares - {m.To()}
    ensures var q := ApplyMove(p, m).0;
      forall s: Square :: q.Occupied().Get(s) <==> (p.Occupied().Get(s) && s != m.From()) || s == m.To()
    ensures var q := ApplyMove(p, m).0;
      forall x: Square :: x != m.From() && x != m.To() ==>
        q.rooks.Get(x) == p.rooks.Get(x) && q.bishops.Get(x) == p.bishops.Get(x) &&
        q.Pawns().Get(x) == p.Pawns().Get(x) && (q.pawns.Get(x) ==> p.pawns.Get(x) || Row(x) == 0)
  {
    OrdinaryMovePieces(p, m);
    assert !IsEnPassant(p.pawns.Reset(m.To()), m.From(), m.To());
  }

  /**
   * A capture takes every role of the captured piece with it: the
   * destination is a rook, bishop or pawn afterwards only when the moving
   * piece was one (or, on promotion, became one), and the opponent holds
   * nothing there.
   */
  lemma CaptureClearsRoles(p: Position, m: Move)
    requires CastlingOf(p, m).None? && m.From() != m.To() && m.From() != p.ourKing
    ensures var q := ApplyMove(p, m).0;
      var promoting := Row(m.To()) == RANK_8 && p.Pawns().Get(m.From());
      !q.theirs.Get(m.To()) &&
      (q.rooks.Get(m.To()) <==>
         if promoting then m.Promotion() == Rook || m.Promotion() == Queen else p.rooks.Get(m.From())) &&
      (q.bishops.Get(m.To()) <==>
         if promoting then m.Promotion() == Bishop || m.Promotion() == Queen else p.bishops.Get(m.From())) &&
      (q.pawns.Get(m.To()) <==> !promoting && p.Pawns().Get(m.From()))
  {
  }

  /**
   * The opponent's rights change only when a move lands on the opponent's
   * castling rook square, and then that right goes; the rook files never
   * change.
   */
  lemma OpponentRights(p: Position, m: Move)
    requires CastlingOf(p, m).None?
    ensures var c := ApplyMove(p, m).0.castlings;
      c.theyCan00 == (p.castlings.theyCan00 && m.To() != 56 + p.castlings.kingsideRook) &&
      c.theyCan000 == (p.castlings.theyCan000 && m.To() != 56 + p.castlings.queensideRook) &&
      c.kingsideRook == p.castlings.kingsideRook && c.queensideRook == p.castlings.queensideRook
  {
    var c0 := if m.From() == p.ourKing then p.castlings.(weCan00 := false, weCan000 := false) else p.castlings;
    var c2 := CaptureRights(c0, m.To());
    NonCastlingRights(p, m);
    CaptureRightsTheirs(c0, m.To());
    RookMoveRightsTheirs(c2, m.From(), p.rooks.Reset(m.To()));
  }

  /** Without castling, the new rights are the capture rule's, then perhaps the rook-move rule's. */
  lemma NonCastlingRights(p: Position, m: Move)
    requires CastlingOf(p, m).None?
    ensures var c0 := if m.From() == p.ourKing then p.castlings.(weCan00 := false, weCan000 := false) else p.castlings;
      var c2 := CaptureRights(c0, m.To());
      var c := ApplyMove(p, m).0.castlings;
      c == c2 || c == RookMoveRights(c2, m.From(), p.rooks.Reset(m.To()))
  {
  }

  /** The capture rule ends the opponent's right on the side whose rook square is landed on, and nothing else. */
  lemma CaptureRightsTheirs(c: Castlings, to: Square)
    ensures var d := CaptureRights(c, to);
      d.theyCan00 == (c.theyCan00 && to != 56 + c.kingsideRook) &&
      d.theyCan000 == (c.theyCan000 && to != 56 + c.queensideRook) &&
      d.kingsideRook == c.kingsideRook && d.queensideRook == c.queensideRook
  {
  }

  /** The rook-move rule leaves the opponent's rights and the rook files alone. */
  lemma RookMoveRightsTheirs(c: Castlings, from: Square, rooks: BitBoard)
    ensures var d := RookMoveRights(c, from, rooks);
      d.theyCan00 == c.theyCan00 && d.theyCan000 == c.theyCan000 &&
      d.kingsideRook == c.kingsideRook && d.queensideRook == c.queensideRook
  {
  }

  /**
   * After any move no marker is left on row 7, and the only marker is the
   * one on row 0 that a pawn's double push leaves on its file when an
   * opponent pawn stands beside it (pawns moving forward, as every
   * generated pawn move does).
   */
  lemma MarkersAfterMove(p: Position, m: Move)
    requires p.Pawns().Get(m.From()) ==> Row(m.To()) > Row(m.From())
    ensures var q := ApplyMove(p, m).0;
      forall x: Square :: !InPawnMask(x) && q.pawns.Get(x) ==>
        CastlingOf(p, m).None? && m.From() != p.ourKing && x == At(0, Col(m.To())) &&
        Row(m.To()) - Row(m.From()) == 2 && p.Pawns().Get(m.From()) &&
        PawnAttacks(At(Row(m.To()) - 1, Col(m.To()))) * (p.theirs.squares * p.Pawns().squares) != {}
  {
    var q := ApplyMove(p, m).0;
    forall x: Square | !InPawnMask(x) && q.pawns.Get(x)
      ensures CastlingOf(p, m).None? && m.From() != p.ourKing && x == At(0, Col(m.To())) &&
        Row(m.To()) - Row(m.From()) == 2 && p.Pawns().Get(m.From()) &&
        PawnAttacks(At(Row(m.To()) - 1, Col(m.To()))) * (p.theirs.squares * p.Pawns().squares) != {}
    {
      assert CastlingOf(p, m).None? && m.From() != p.ourKing && Row(m.To()) - Row(m.From()) == 2;
      var y :| y in PawnAttacks(At(Row(m.To()) - 1, Col(m.To()))) * (ApplyMove(p, m).0.theirs.squares * ApplyMove(p, m).0.pawns.squares);
      assert y in PawnAttacks(At(Row(m.To()) - 1, Col(m.To()))) * (p.theirs.squares * p.Pawns().squares);
    }
  }

  /**
   * The fifty-move counter is reset exactly by a capture or a pawn move;
   * castling never resets it.
   */
  lemma ResetMeaning(p: Position, m: Move)
    ensures ApplyMove(p, m).1 <==>
      CastlingOf(p, m).None? && (p.theirs.Get(m.To()) || (m.From() != m.To() && p.Pawns().Get(m.From())))
  {
  }
}
