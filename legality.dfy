/**
 * ChessBoard::IsLegalMove and GenerateLegalMoves: which pseudo-legal moves
 * leave the own king safe. Most moves are judged from the king attack
 * information alone; en-passant captures, king moves while in check and
 * rank-1 king moves that may be castling are judged by playing the move on
 * a copy and asking whether the king is attacked there.
 */
module Legality {
  import opened Squares
  import opened BitBoards
  import opened Rays
  import opened Leapers
  import opened Moves
  import opened Positions
  import Attacks
  import opened KingAttacks
  import opened Apply
  import opened MoveGen

  /** IsUnderCheck: the own king is attacked. */
  ghost predicate IsUnderCheck(p: Position) {
    Attacks.Attacked(p, p.ourKing)
  }

  /** The move played on a copy of the board leaves the own king unattacked. */
  ghost predicate SafeAfter(p: Position, m: Move) {
    !IsUnderCheck(ApplyMove(p, m).0)
  }

  /**
   * The test for a pinned piece: origin and destination on one line through
   * the king, the vertical line handled apart, any other by comparing the
   * cross-multiplied offsets.
   */
  predicate Collinear(king: Square, from: Square, to: Square) {
    var dxFrom := Col(from) - Col(king);
    var dyFrom := Row(from) - Row(king);
    var dxTo := Col(to) - Col(king);
    var dyTo := Row(to) - Row(king);
    if dxFrom == 0 || dxTo == 0 then dxFrom == dxTo else dxFrom * dyTo == dxTo * dyFrom
  }

  /** A king move that may be castling: both squares on rank 1, and not a plain sideways step onto a free square. */
  predicate MaybeCastling(p: Position, m: Move) {
    !(Row(m.From()) != RANK_1 || Row(m.To()) != RANK_1 ||
      (Dist(Col(m.From()), Col(m.To())) == 1 && !p.ours.Get(m.To())))
  }

  /** IsLegalMove, branch by branch. */
  ghost predicate IsLegalMove(p: Position, info: KingAttackInfo, m: Move) {
    var from := m.From();
    var to := m.To();
    if IsEnPassant(p.pawns, from, to) then SafeAfter(p, m)
    else if info.InCheck() then
      if from == p.ourKing then SafeAfter(p, m)
      else if info.IsPinned(from) then false
      else if info.doubleCheck then false
      else info.IsOnAttackLine(to)
    else if from == p.ourKing then
      if MaybeCastling(p, m) then SafeAfter(p, m) else true
    else if !info.IsPinned(from) then true
    else Collinear(p.ourKing, from, to)
  }

  /** The moves of ms that are legal, in their order in ms. */
  ghost function LegalOf(p: Position, info: KingAttackInfo, ms: seq<Move>): seq<Move> {
    if ms == [] then []
    else LegalOf(p, info, ms[..|ms| - 1]) + (if IsLegalMove(p, info, ms[|ms| - 1]) then [ms[|ms| - 1]] else [])
  }

  /** GenerateLegalMoves: the pseudo-legal list with the illegal moves removed, order kept. */
  ghost function LegalMoves(p: Position): seq<Move> {
    LegalOf(p, KingAttackInfoOf(p), PseudolegalMoves(p))
  }

  // ----- Properties -----

  /**
   * The test equals the cross product of the two offsets from the king being
   * zero, that is the three squares lying on one straight line, whenever
   * neither square is the king's.
   */
  lemma CollinearMeaning(king: Square, from: Square, to: Square)
    requires from != king && to != king
    ensures Collinear(king, from, to) <==>
      (Col(from) - Col(king)) * (Row(to) - Row(king)) == (Col(to) - Col(king)) * (Row(from) - Row(king))
  {
    var dxFrom := Col(from) - Col(king);
    var dyFrom := Row(from) - Row(king);
    var dxTo := Col(to) - Col(king);
    var dyTo := Row(to) - Row(king);
    OffsetNonZero(king, from);
    OffsetNonZero(king, to);
    if dxFrom == 0 {
      MulZero(dxTo, dyFrom);
    } else if dxTo == 0 {
      MulZero(dxFrom, dyTo);
    }
  }

  /** A square other than the king's differs from it in row or column. */
  lemma OffsetNonZero(king: Square, x: Square)
    requires x != king
    ensures Col(x) - Col(king) != 0 || Row(x) - Row(king) != 0
  {
    if Col(x) == Col(king) && Row(x) == Row(king) {
      SquareFromCoords(x, king);
    }
  }

  lemma MulZero(x: int, y: int)
    ensures x * y == 0 <==> x == 0 || y == 0
  {
  }

  /**
   * A piece pinned along direction d passes the test exactly for the
   * destinations on the line through the king with that direction, on either
   * side of the king.
   */
  lemma PinnedStaysOnLine(king: Square, d: Direction, a: int, to: Square)
    requires 1 <= a && OnBoard(king, d, a) && to != king
    ensures Collinear(king, RaySquare(king, d, a), to) <==>
      (Col(to) - Col(king)) * d.dRow == (Row(to) - Row(king)) * d.dCol
  {
    var from := RaySquare(king, d, a);
    assert Shift(a, d.dRow) != 0 || Shift(a, d.dCol) != 0;
    assert from != king;
    CollinearMeaning(king, from, to);
    ShiftIsProduct(a, d.dCol);
    ShiftIsProduct(a, d.dRow);
    ScaledCross(a, d.dCol, d.dRow, Col(to) - Col(king), Row(to) - Row(king));
  }

  lemma ShiftIsProduct(k: int, x: int)
    requires -1 <= x <= 1
    ensures Shift(k, x) == k * x
  {
  }

  /** Scaling one offset by a >= 1 does not change whether the cross product vanishes. */
  lemma ScaledCross(a: int, dc: int, dr: int, dx: int, dy: int)
    requires a >= 1
    ensures (a * dc) * dy == dx * (a * dr) <==> dx * dr == dy * dc
  {
    assert (a * dc) * dy == a * (dc * dy);
    assert dx * (a * dr) == a * (dx * dr);
    CancelFactor(a, dc * dy, dx * dr);
  }

  lemma CancelFactor(a: int, x: int, y: int)
    requires a >= 1
    ensures a * x == a * y <==> x == y
  {
    if x < y {
      assert a * y - a * x == a * (y - x);
    } else if y < x {
      assert a * x - a * y == a * (x - y);
    }
  }

  /**
   * Under check, a move of a piece other than the king (and not en passant)
   * is legal exactly when the piece is not pinned, the check is single, and
   * the destination is on the attack line: it takes the checker or blocks it.
   */
  lemma InCheckRule(p: Position, info: KingAttackInfo, m: Move)
    requires info.InCheck() && m.From() != p.ourKing && !IsEnPassant(p.pawns, m.From(), m.To())
    ensures IsLegalMove(p, info, m) <==>
      !info.IsPinned(m.From()) && !info.doubleCheck && info.IsOnAttackLine(m.To())
  {
  }

  /** Out of check, a non-king move of an unpinned piece is legal; a pinned one only along its line. */
  lemma OutOfCheckRule(p: Position, info: KingAttackInfo, m: Move)
    requires !info.InCheck() && m.From() != p.ourKing && !IsEnPassant(p.pawns, m.From(), m.To())
    ensures !info.IsPinned(m.From()) ==> IsLegalMove(p, info, m)
    ensures info.IsPinned(m.From()) ==> (IsLegalMove(p, info, m) <==> Collinear(p.ourKing, m.From(), m.To()))
  {
  }

  /**
   * The moves judged by playing them: an en-passant capture, a king move
   * under check and a possible castling are legal exactly when the own king
   * is not attacked afterwards.
   */
  lemma PlayedOutRule(p: Position, info: KingAttackInfo, m: Move)
    requires IsEnPassant(p.pawns, m.From(), m.To()) ||
             (m.From() == p.ourKing && (info.InCheck() || MaybeCastling(p, m)))
    ensures IsLegalMove(p, info, m) <==> SafeAfter(p, m)
  {
  }

  /** The filtered list holds exactly the legal moves of the list it filters. */
  lemma {:induction false} LegalOfMeaning(p: Position, info: KingAttackInfo, ms: seq<Move>, m: Move)
    ensures m in LegalOf(p, info, ms) <==> m in ms && IsLegalMove(p, info, m)
    ensures |LegalOf(p, info, ms)| <= |ms|
  {
    if ms != [] {
      LegalOfMeaning(p, info, ms[..|ms| - 1], m);
      assert ms == ms[..|ms| - 1] + [ms[|ms| - 1]];
    }
  }

  /** Filtering a list of legal moves removes nothing. */
  lemma {:induction false} LegalOfKeepsLegal(p: Position, info: KingAttackInfo, ms: seq<Move>)
    requires forall i :: 0 <= i < |ms| ==> IsLegalMove(p, info, ms[i])
    ensures LegalOf(p, info, ms) == ms
  {
    if ms != [] {
      LegalOfKeepsLegal(p, info, ms[..|ms| - 1]);
      SplitLast(ms);
    }
  }

  /** A non-empty list is its front followed by its last move. */
  lemma SplitLast(ms: seq<Move>)
    requires ms != []
    ensures ms == ms[..|ms| - 1] + [ms[|ms| - 1]]
  {
  }

  /** Filtering the filtered list again changes nothing. */
  lemma {:induction false} LegalOfIdempotent(p: Position, info: KingAttackInfo, ms: seq<Move>)
    ensures LegalOf(p, info, LegalOf(p, info, ms)) == LegalOf(p, info, ms)
  {
    var ls := LegalOf(p, info, ms);
    forall i | 0 <= i < |ls| ensures IsLegalMove(p, info, ls[i]) {
      LegalOfMeaning(p, info, ms, ls[i]);
    }
    LegalOfKeepsLegal(p, info, ls);
  }

  /** Every legal move is pseudo-legal and passes IsLegalMove; every pseudo-legal move passing it is kept. */
  lemma LegalSubsetOfPseudolegal(p: Position, m: Move)
    ensures m in LegalMoves(p) <==> m in PseudolegalMoves(p) && IsLegalMove(p, KingAttackInfoOf(p), m)
  {
    LegalOfMeaning(p, KingAttackInfoOf(p), PseudolegalMoves(p), m);
  }

  // ----- Moves judged without playing them leave the king safe -----

  /**
   * At most one piece of the opponent reaches our king. The source counts a
   * pawn check and a knight check once each however many pieces give them,
   * so its double-check flag alone does not exclude two checking pawns.
   */
  ghost predicate OneChecker(p: Position) {
    forall x: Square, y: Square ::
      (p.theirs.Get(x) && Attacks.PieceAttacks(p, x, p.ourKing) &&
       p.theirs.Get(y) && Attacks.PieceAttacks(p, y, p.ourKing)) ==> x == y
  }

  /**
   * A piece whose roles a move keeps, and which did not reach the king
   * before it, reaches the king afterwards only as a rook or bishop, along a
   * line through the new occupancy.
   */
  lemma NewAttackIsSlider(p: Position, q: Position, x: Square)
    requires q.theirKing == p.theirKing
    requires q.rooks.Get(x) == p.rooks.Get(x) && q.bishops.Get(x) == p.bishops.Get(x)
    requires q.Pawns().Get(x) == p.Pawns().Get(x) && (q.pawns.Get(x) ==> p.pawns.Get(x) || Row(x) == 0)
    requires Attacks.PieceAttacks(q, x, p.ourKing) && !Attacks.PieceAttacks(p, x, p.ourKing)
    ensures (p.rooks.Get(x) && p.ourKing in SliderAttacks(x, RookDirections, q.Occupied().squares)) ||
            (p.bishops.Get(x) && p.ourKing in SliderAttacks(x, BishopDirections, q.Occupied().squares))
  {
  }

  /**
   * A slider of the opponent that reaches our king once the own piece on
   * from has left (and whatever else was added to the occupancy), but not
   * before, had from as the only piece between it and the king: from was
   * pinned along one of the family's directions.
   */
  lemma OpenedLinePin(p: Position, family: BitBoard, dirs: seq<Direction>, occ: set<Square>, from: Square, x: Square)
    returns (i: int)
    requires (family == p.rooks && dirs == RookDirections) || (family == p.bishops && dirs == BishopDirections)
    requires p.ours.Get(from) && p.theirs.Get(x) && family.Get(x)
    requires p.Occupied().squares - {from} <= occ
    requires p.ourKing in SliderAttacks(x, dirs, occ) && p.ourKing !in SliderAttacks(x, dirs, p.Occupied().squares)
    ensures 0 <= i < 4 && PinnedFrom(p, family, dirs[i], 1, from)
  {
    var king := p.ourKing;
    var occP := p.Occupied().squares;
    SliderSymmetric(x, dirs, occ, king);
    SliderSymmetric(x, dirs, occP, king);
    i := SliderAttacksWitness(king, dirs, occ, x);
    var d := dirs[i];
    RayFromMeaning(king, d, occ, 1, x);
    var j :| 1 <= j && OnBoard(king, d, j) && x == RaySquare(king, d, j) && ClearBetween(king, d, occ, 1, j);
    RayInSliderAttacks(king, dirs, occP, i);
    RayFromMeaning(king, d, occP, 1, x);
    OnlyBlockerPinned(p, family, d, occ, from, j);
  }

  /**
   * A ray from our king to a family slider of the opponent at step j that is
   * clear once from is vacated, but not before, has the own piece on from as
   * its only piece in between.
   */
  lemma OnlyBlockerPinned(p: Position, family: BitBoard, d: Direction, occ: set<Square>, from: Square, j: int)
    requires p.ours.Get(from) && p.Occupied().squares - {from} <= occ
    requires 1 <= j && OnBoard(p.ourKing, d, j)
    requires p.theirs.Get(RaySquare(p.ourKing, d, j)) && family.Get(RaySquare(p.ourKing, d, j))
    requires ClearBetween(p.ourKing, d, occ, 1, j) && !ClearBetween(p.ourKing, d, p.Occupied().squares, 1, j)
    ensures PinnedFrom(p, family, d, 1, from)
  {
    var king := p.ourKing;
    var occP := p.Occupied().squares;
    var a :| 1 <= a < j && !(OnBoard(king, d, a) && RaySquare(king, d, a) !in occP);
    assert RaySquare(king, d, a) == from;
    forall b | 1 <= b < j && b != a ensures OnBoard(king, d, b) && RaySquare(king, d, b) !in occP {
      if RaySquare(king, d, b) == from {
        RaySquareInjective(king, d, a, b);
      }
    }
    assert ClearBetween(king, d, occP, 1, a) && ClearBetween(king, d, occP, a + 1, j);
  }

  /**
   * Under a single check, a square of the attack lines other than the
   * checker's lies on the ray from the king to the checker, before it, and
   * the checker is a rook or bishop.
   */
  lemma CheckLineBeforeChecker(p: Position, x: Square, y: Square) returns (d: Direction, a: int, b: int)
    requires SidesDisjoint(p) && OneChecker(p)
    requires p.theirs.Get(x) && Attacks.PieceAttacks(p, x, p.ourKing)
    requires KingAttackInfoOf(p).IsOnAttackLine(y) && y != x
    ensures 1 <= a < b && OnBoard(p.ourKing, d, a) && OnBoard(p.ourKing, d, b)
    ensures y == RaySquare(p.ourKing, d, a) && x == RaySquare(p.ourKing, d, b)
    ensures p.rooks.Get(x) || p.bishops.Get(x)
  {
    ShortcutSound(p, p.rooks, RookDirections);
    ShortcutSound(p, p.bishops, BishopDirections);
    if y in AttackingPawns(p) || y in AttackingKnights(p) {
      PawnOrKnightLineAttacks(p, y);
    }
    assert y in ScanAll(p, p.rooks, RookDirections).lines || y in ScanAll(p, p.bishops, BishopDirections).lines;
    if y in ScanAll(p, p.rooks, RookDirections).lines {
      d, a, b := LineBeforeCheckerOn(p, p.rooks, RookDirections, x, y);
    } else {
      d, a, b := LineBeforeCheckerOn(p, p.bishops, BishopDirections, x, y);
    }
  }

  /** A pawn or knight square of the attack lines holds a piece of the opponent that reaches our king. */
  lemma PawnOrKnightLineAttacks(p: Position, y: Square)
    requires y in AttackingPawns(p) || y in AttackingKnights(p)
    ensures p.theirs.Get(y) && Attacks.PieceAttacks(p, y, p.ourKing)
  {
    Attacks.PawnAttacksMeaning(y, p.ourKing);
    KnightAttacksSymmetric(y, p.ourKing);
  }

  /** CheckLineBeforeChecker for a square on the line of one family's walks. */
  lemma LineBeforeCheckerOn(p: Position, family: BitBoard, dirs: seq<Direction>, x: Square, y: Square)
    returns (d: Direction, a: int, b: int)
    requires (family == p.rooks && dirs == RookDirections) || (family == p.bishops && dirs == BishopDirections)
    requires SidesDisjoint(p) && OneChecker(p)
    requires p.theirs.Get(x) && Attacks.PieceAttacks(p, x, p.ourKing)
    requires y in ScanAll(p, family, dirs).lines && y != x
    ensures 1 <= a < b && OnBoard(p.ourKing, d, a) && OnBoard(p.ourKing, d, b)
    ensures y == RaySquare(p.ourKing, d, a) && x == RaySquare(p.ourKing, d, b)
    ensures family.Get(x)
  {
    var i := ScanAllLinesWitness(p, family, dirs, y);
    d := dirs[i];
    RayCheckMeaning(p, family, d);
    CheckerOnRay(p, family, dirs, i, x);
    a, b := StepsBefore(p, d, x, y);
  }

  /** The single checker is the family slider that the check along the ray dirs[i] reports. */
  lemma CheckerOnRay(p: Position, family: BitBoard, dirs: seq<Direction>, i: int, x: Square)
    requires (family == p.rooks && dirs == RookDirections) || (family == p.bishops && dirs == BishopDirections)
    requires 0 <= i < |dirs| && OneChecker(p)
    requires p.theirs.Get(x) && Attacks.PieceAttacks(p, x, p.ourKing)
    requires RayFrom(p.ourKing, dirs[i], p.Occupied().squares, 1) * (p.theirs.squares * family.squares) != {}
    ensures x in RayFrom(p.ourKing, dirs[i], p.Occupied().squares, 1) && family.Get(x)
  {
    var king := p.ourKing;
    var occ := p.Occupied().squares;
    var z :| z in RayFrom(king, dirs[i], occ, 1) * (p.theirs.squares * family.squares);
    RayInSliderAttacks(king, dirs, occ, i);
    SliderSymmetric(king, dirs, occ, z);
    assert Attacks.PieceAttacks(p, z, king);
  }

  /** Of two different squares on the walked ray from our king, the one holding a piece of the opponent comes last. */
  lemma StepsBefore(p: Position, d: Direction, x: Square, y: Square) returns (a: int, b: int)
    requires x in RayFrom(p.ourKing, d, p.Occupied().squares, 1) && y in RayFrom(p.ourKing, d, p.Occupied().squares, 1)
    requires p.theirs.Get(x) && y != x
    ensures 1 <= a < b && OnBoard(p.ourKing, d, a) && OnBoard(p.ourKing, d, b)
    ensures y == RaySquare(p.ourKing, d, a) && x == RaySquare(p.ourKing, d, b)
  {
    var king := p.ourKing;
    var occ := p.Occupied().squares;
    RayFromMeaning(king, d, occ, 1, x);
    RayFromMeaning(king, d, occ, 1, y);
    b :| 1 <= b && OnBoard(king, d, b) && x == RaySquare(king, d, b) && ClearBetween(king, d, occ, 1, b);
    a :| 1 <= a && OnBoard(king, d, a) && y == RaySquare(king, d, a) && ClearBetween(king, d, occ, 1, a);
    assert RaySquare(king, d, b) in occ;
    assert a < b;
  }

  /** A slider at step b of a ray from sq does not reach sq when the square at step a < b is occupied. */
  lemma NotOnOtherRay(sq: Square, dirs: seq<Direction>, occ: set<Square>, d: Direction, a: int, b: int)
    requires dirs == RookDirections || dirs == BishopDirections
    requires 1 <= a < b && OnBoard(sq, d, a) && OnBoard(sq, d, b) && RaySquare(sq, d, a) in occ
    ensures sq !in SliderAttacks(RaySquare(sq, d, b), dirs, occ)
  {
    var x := RaySquare(sq, d, b);
    SliderSymmetric(x, dirs, occ, sq);
    if x in SliderAttacks(sq, dirs, occ) {
      var i := SliderAttacksWitness(sq, dirs, occ, x);
      RayFromMeaning(sq, dirs[i], occ, 1, x);
      var c :| 1 <= c && OnBoard(sq, dirs[i], c) && x == RaySquare(sq, dirs[i], c) && ClearBetween(sq, dirs[i], occ, 1, c);
      RaySquareUnique(sq, d, b, dirs[i], c);
    }
  }

  /**
   * A rook or bishop of the opponent at step b of a ray from sq, with an
   * occupied square at step a before it, does not reach sq.
   */
  lemma BlockedChecker(q: Position, sq: Square, d: Direction, a: int, b: int)
    requires 1 <= a < b && OnBoard(sq, d, a) && OnBoard(sq, d, b)
    requires q.Occupied().Get(RaySquare(sq, d, a))
    requires q.rooks.Get(RaySquare(sq, d, b)) || q.bishops.Get(RaySquare(sq, d, b))
    ensures !Attacks.PieceAttacks(q, RaySquare(sq, d, b), sq)
  {
    var x := RaySquare(sq, d, b);
    var occ := q.Occupied().squares;
    NotOnOtherRay(sq, RookDirections, occ, d, a, b);
    NotOnOtherRay(sq, BishopDirections, occ, d, a, b);
    if Attacks.PawnTakes(x, sq) {
      var e := NeighbourOnRay(sq, x);
      RaySquareUnique(sq, d, b, e, 1);
    }
  }

  /**
   * After a move of an unpinned own piece other than the king (not en
   * passant), made out of check or onto the attack line of a single check,
   * no remaining piece of the opponent reaches our king.
   */
  lemma NoAttackerAfter(p: Position, m: Move, x: Square)
    requires SidesDisjoint(p) && p.ours.Get(m.From()) && m.From() != p.ourKing
    requires !IsEnPassant(p.pawns, m.From(), m.To()) && !KingAttackInfoOf(p).IsPinned(m.From())
    requires KingAttackInfoOf(p).InCheck() ==> OneChecker(p) && KingAttackInfoOf(p).IsOnAttackLine(m.To())
    requires ApplyMove(p, m).0.theirs.Get(x)
    ensures !Attacks.PieceAttacks(ApplyMove(p, m).0, x, p.ourKing)
  {
    var q := ApplyMove(p, m).0;
    var from, to := m.From(), m.To();
    NonKingMoveEffects(p, m);
    var occQ := q.Occupied().squares;
    assert p.Occupied().squares - {from} <= occQ;
    assert p.theirs.Get(x) && x != to && x != from;
    if Attacks.PieceAttacks(q, x, p.ourKing) {
      if !Attacks.PieceAttacks(p, x, p.ourKing) {
        NewAttackIsSlider(p, q, x);
        var i;
        if p.rooks.Get(x) && p.ourKing in SliderAttacks(x, RookDirections, occQ) {
          i := OpenedLinePin(p, p.rooks, RookDirections, occQ, from, x);
        } else {
          i := OpenedLinePin(p, p.bishops, BishopDirections, occQ, from, x);
        }
        PinRecorded(p, from, i);
      } else {
        InCheckMeaning(p);
        var d, a, b := CheckLineBeforeChecker(p, x, to);
        BlockedChecker(q, p.ourKing, d, a, b);
      }
    }
  }

  /**
   * The moves IsLegalMove accepts without playing them are safe: a move of
   * an unpinned own piece other than the king, not en passant, made out of
   * check or (under a single check) onto the attack line, leaves our king
   * unattacked, provided the two kings do not touch.
   */
  lemma UnpinnedMoveSafe(p: Position, m: Move)
    requires SidesDisjoint(p) && p.ours.Get(m.From()) && m.From() != p.ourKing
    requires !Attacks.Touches(p.theirKing, p.ourKing)
    requires !IsEnPassant(p.pawns, m.From(), m.To()) && !KingAttackInfoOf(p).IsPinned(m.From())
    requires KingAttackInfoOf(p).InCheck() ==> OneChecker(p) && KingAttackInfoOf(p).IsOnAttackLine(m.To())
    ensures SafeAfter(p, m)
  {
    var q := ApplyMove(p, m).0;
    NonKingMoveEffects(p, m);
    forall x: Square | q.theirs.Get(x) ensures !Attacks.PieceAttacks(q, x, q.ourKing) {
      NoAttackerAfter(p, m, x);
    }
  }

  /**
   * IsLegalMove, for an unpinned own piece other than the king and not en
   * passant, accepts only moves after which our king is not attacked, when
   * at most one piece gives check.
   */
  lemma AcceptedMoveSafe(p: Position, m: Move)
    requires SidesDisjoint(p) && p.ours.Get(m.From()) && m.From() != p.ourKing
    requires !Attacks.Touches(p.theirKing, p.ourKing)
    requires !IsEnPassant(p.pawns, m.From(), m.To()) && !KingAttackInfoOf(p).IsPinned(m.From())
    requires KingAttackInfoOf(p).InCheck() ==> OneChecker(p)
    ensures IsLegalMove(p, KingAttackInfoOf(p), m) ==> SafeAfter(p, m)
  {
    if IsLegalMove(p, KingAttackInfoOf(p), m) {
      UnpinnedMoveSafe(p, m);
    }
  }
}
