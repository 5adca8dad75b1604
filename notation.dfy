/**
 * The two spellings of classical castling. The engine encodes castling as
 * the king taking its own rook (e1h1, e1a1); the legacy spelling names the
 * king's destination (e1g1, e1c1). ChessBoard::IsSameMove treats the two as
 * one move, GetLegacyMove and GetModernMove convert between them.
 */
module Notation {
  import opened Squares
  import opened Moves
  import opened Positions

  /** IsSameMove: equal moves, or the two spellings of one castling by a king on e1. */
  predicate IsSameMove(p: Position, m1: Move, m2: Move) {
    if m1 == m2 then true
    else if m1.From() != m2.From() || m1.From() != E1 || p.ourKing != m1.From() then false
    else (m1.To() == A1 && m2.To() == C1) || (m1.To() == C1 && m2.To() == A1) ||
         (m1.To() == G1 && m2.To() == H1) || (m1.To() == H1 && m2.To() == G1)
  }

  /** GetLegacyMove: the king taking its own rook on h1 or a1 from e1 becomes e1g1 or e1c1. */
  function GetLegacyMove(p: Position, m: Move): Move {
    if p.ourKing != m.From() || !p.ours.Get(m.To()) then m
    else if m == NewPlainMove(E1, H1) then NewPlainMove(E1, G1)
    else if m == NewPlainMove(E1, A1) then NewPlainMove(E1, C1)
    else m
  }

  /** GetModernMove: e1g1 or e1c1 by the king on e1 onto an empty square becomes e1h1 or e1a1. */
  function GetModernMove(p: Position, m: Move): Move {
    if p.ourKing != E1 || m.From() != E1 then m
    else if m == NewPlainMove(E1, G1) && !p.ours.Get(G1) then NewPlainMove(E1, H1)
    else if m == NewPlainMove(E1, C1) && !p.ours.Get(C1) then NewPlainMove(E1, A1)
    else m
  }

  /** IsSameMove is reflexive and symmetric. */
  lemma SameMoveReflexiveSymmetric(p: Position, m1: Move, m2: Move)
    ensures IsSameMove(p, m1, m1)
    ensures IsSameMove(p, m1, m2) <==> IsSameMove(p, m2, m1)
  {
  }

  /** Two different moves are the same move only as the two spellings of a castling by the king on e1. */
  lemma SameMoveOnlyCastling(p: Position, m1: Move, m2: Move)
    requires m1 != m2 && IsSameMove(p, m1, m2)
    ensures p.ourKing == E1 && m1.From() == E1 && m2.From() == E1
    ensures {m1.To(), m2.To()} == {A1, C1} || {m1.To(), m2.To()} == {G1, H1}
  {
  }

  /** The legacy spelling of a move is the same move. */
  lemma LegacyIsSame(p: Position, m: Move)
    ensures IsSameMove(p, m, GetLegacyMove(p, m))
  {
  }

  /** The modern spelling of a move is the same move. */
  lemma ModernIsSame(p: Position, m: Move)
    ensures IsSameMove(p, m, GetModernMove(p, m))
  {
  }

  /**
   * With the king on e1 and its rooks on a1 and h1, spelling a rewritten
   * move the modern way and then the legacy way gives it back.
   */
  lemma ModernThenLegacy(p: Position, m: Move)
    requires p.ourKing == E1 && p.ours.Get(A1) && p.ours.Get(H1)
    requires GetModernMove(p, m) != m
    ensures GetLegacyMove(p, GetModernMove(p, m)) == m
  {
    assert NewPlainMove(E1, H1) != NewPlainMove(E1, A1) by {
      assert NewPlainMove(E1, H1).To() != NewPlainMove(E1, A1).To();
    }
  }

  /**
   * With g1 and c1 free of own pieces, spelling a rewritten move the legacy
   * way and then the modern way gives it back.
   */
  lemma LegacyThenModern(p: Position, m: Move)
    requires !p.ours.Get(G1) && !p.ours.Get(C1)
    requires GetLegacyMove(p, m) != m
    ensures GetModernMove(p, GetLegacyMove(p, m)) == m
  {
    assert NewPlainMove(E1, G1) != NewPlainMove(E1, C1) by {
      assert NewPlainMove(E1, G1).To() != NewPlainMove(E1, C1).To();
    }
  }
}
