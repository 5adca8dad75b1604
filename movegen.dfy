/**
 * ChessBoard::GeneratePseudolegalMoves, as a specification: the moves of
 * each own piece in ascending order of its square, each piece's moves in the
 * order the source emits them. The reference reads attacks from the ray
 * definition (SliderAttacks) and the attack predicate Attacks.Attacked; the
 * method of the ChessBoard class that builds the list with loops is proved
 * to produce exactly this sequence.
 */
module MoveGen {
  import opened Squares
  import opened BitBoards
  import opened Rays
  import opened Leapers
  import opened Moves
  import opened Positions
  import Attacks

  /** kPromotions: the pieces a pawn reaching the last row may become, in emission order. */
  const Promotions: seq<Promotion> := [Queen, Rook, Bishop, Knight]

  function Min(a: int, b: int): int { if a <= b then a else b }
  function Max(a: int, b: int): int { if a >= b then a else b }

  /** The four promotion moves from one square to another, queen first. */
  function PromotionMoves(from: Square, to: Square): (ms: seq<Move>)
    ensures |ms| == 4
    ensures forall i :: 0 <= i < 4 ==> ms[i] == NewMove(from, to, Promotions[i])
  {
    [NewMove(from, to, Queen), NewMove(from, to, Rook), NewMove(from, to, Bishop), NewMove(from, to, Knight)]
  }

  /** One plain move from `from` to each square of xs, in the order of xs. */
  function PlainMoves(from: Square, xs: seq<Square>): (ms: seq<Move>)
    ensures |ms| == |xs|
  {
    if xs == [] then [] else PlainMoves(from, xs[..|xs| - 1]) + [NewPlainMove(from, xs[|xs| - 1])]
  }

  lemma {:induction false} PlainMovesMeaning(from: Square, xs: seq<Square>, m: Move)
    ensures m in PlainMoves(from, xs) <==> m.To() in xs && m == NewPlainMove(from, m.To())
  {
    if xs != [] {
      PlainMovesMeaning(from, xs[..|xs| - 1], m);
      assert xs == xs[..|xs| - 1] + [xs[|xs| - 1]];
    }
  }

  /** One plain move from `from` to each square of `targets`, in ascending order of the target. */
  function MovesTo(from: Square, targets: BitBoard): (ms: seq<Move>)
  {
    PlainMoves(from, Elements(targets))
  }

  /** The moves to a set of targets are the plain moves from `from` onto exactly those squares. */
  lemma MovesToMeaning(from: Square, targets: BitBoard, m: Move)
    ensures m in MovesTo(from, targets) <==> m == NewPlainMove(from, m.To()) && targets.Get(m.To())
  {
    PlainMovesMeaning(from, Elements(targets), m);
  }

  // ----- King -----

  /**
   * The king's destinations through the first k entries of kKingMoves: each
   * neighbour on the board that holds no own piece and is not attacked.
   */
  /** The king may step to (r, c): on the board, not our piece, not attacked. */
  ghost predicate KingKeeps(p: Position, r: int, c: int) {
    IsValid(r, c) && !p.ours.Get(At(r, c)) && !Attacks.Attacked(p, At(r, c))
  }

  ghost function KingTargets(p: Position, src: Square, k: nat): seq<Square>
    requires k <= |KingDeltas|
  {
    if k == 0 then []
    else
      var r := Row(src) + KingDeltas[k - 1].dRow;
      var c := Col(src) + KingDeltas[k - 1].dCol;
      KingTargets(p, src, k - 1) + (if KingKeeps(p, r, c) then [At(r, c)] else [])
  }

  /** One more king step: the target list grows by the step's square exactly when that square is kept. */
  lemma KingTargetsStep(p: Position, src: Square, k: nat, keep: bool)
    requires k < |KingDeltas|
    requires keep <==> KingKeeps(p, Row(src) + KingDeltas[k].dRow, Col(src) + KingDeltas[k].dCol)
    ensures keep ==>
              KingTargets(p, src, k + 1) ==
              KingTargets(p, src, k) + [At(Row(src) + KingDeltas[k].dRow, Col(src) + KingDeltas[k].dCol)]
    ensures !keep ==> KingTargets(p, src, k + 1) == KingTargets(p, src, k)
  {
  }

  ghost function KingSteps(p: Position, src: Square): seq<Move> {
    PlainMoves(src, KingTargets(p, src, |KingDeltas|))
  }

  /**
   * walk_free: every square of rank 1 from file `from` to file `to`
   * (inclusive), apart from the rook's and the king's, is empty.
   */
  predicate WalkFree(p: Position, from: int, to: int, rook: int, king: int) {
    forall i: Square :: from <= i <= to && i != rook && i != king ==> !p.ours.Get(i) && !p.theirs.Get(i)
  }

  /** File i lies on the way from file `from` towards file `to`, `to` itself excluded. */
  predicate OnTheWay(from: int, i: int, to: int) {
    (from < to && from <= i < to) || (to < from && to < i <= from)
  }

  /**
   * range_attacked: some square of rank 1 on the way from the king's file to
   * its destination file is attacked; the destination itself only counts
   * when the king is already there.
   */
  ghost predicate RangeAttacked(p: Position, from: Square, to: Square) {
    if from == to then Attacks.Attacked(p, from)
    else exists i: Square :: OnTheWay(from, i, to) && Attacks.Attacked(p, i)
  }

  /** The queenside castling of a king on src, encoded as the king taking its own rook. */
  ghost predicate CanCastleQueenside(p: Position, src: Square) {
    var king := Col(src);
    var rook := p.castlings.queensideRook;
    p.castlings.weCan000 && WalkFree(p, Min(C1, rook), Max(D1, king), rook, king) && !RangeAttacked(p, king, C1)
  }

  /** The kingside castling of a king on src. */
  ghost predicate CanCastleKingside(p: Position, src: Square) {
    var king := Col(src);
    var rook := p.castlings.kingsideRook;
    p.castlings.weCan00 && WalkFree(p, Min(F1, king), Max(G1, rook), rook, king) && !RangeAttacked(p, king, G1)
  }

  ghost function CastlingMoves(p: Position, src: Square): seq<Move> {
    (if CanCastleQueenside(p, src) then [NewPlainMove(src, At(RANK_1, p.castlings.queensideRook))] else []) +
    (if CanCastleKingside(p, src) then [NewPlainMove(src, At(RANK_1, p.castlings.kingsideRook))] else [])
  }

  // ----- Sliders, pawns, knights -----

  /** Rook moves, then bishop moves (a queen makes both): every attacked square not holding an own piece. */
  ghost function SliderMoves(p: Position, src: Square): seq<Move> {
    var occ := p.Occupied().squares;
    (if p.rooks.Get(src) then MovesTo(src, BitBoard(SliderAttacks(src, RookDirections, occ) - p.ours.squares)) else []) +
    (if p.bishops.Get(src) then MovesTo(src, BitBoard(SliderAttacks(src, BishopDirections, occ) - p.ours.squares)) else [])
  }

  /** The pawn's step forward: one square, two from row 1, or four promotions onto row 7. */
  function PawnPushes(p: Position, src: Square): seq<Move>
    requires Row(src) <= 6
  {
    var dst := At(Row(src) + 1, Col(src));
    if p.ours.Get(dst) || p.theirs.Get(dst) then []
    else if Row(dst) != RANK_8 then
      [NewPlainMove(src, dst)] +
      (if Row(dst) == RANK_3 && !p.ours.Get(At(RANK_4, Col(src))) && !p.theirs.Get(At(RANK_4, Col(src)))
       then [NewPlainMove(src, At(RANK_4, Col(src)))] else [])
    else PromotionMoves(src, dst)
  }

  /**
   * The pawn's capture towards column Col(src) + direction: an opponent
   * piece there (four promotions on row 7), or an empty row-5 square whose
   * file carries the en-passant marker on row 7.
   */
  function PawnCapture(p: Position, src: Square, direction: int): seq<Move>
    requires Row(src) <= 6
  {
    var c := Col(src) + direction;
    if c < 0 || c >= 8 then []
    else
      var dst := At(Row(src) + 1, c);
      if p.theirs.Get(dst) then
        (if Row(dst) == RANK_8 then PromotionMoves(src, dst) else [NewPlainMove(src, dst)])
      else if Row(dst) == RANK_6 && p.pawns.Get(At(RANK_8, c)) then [NewPlainMove(src, dst)]
      else []
  }

  function PawnMoves(p: Position, src: Square): seq<Move>
    requires Row(src) <= 6
  {
    PawnPushes(p, src) + PawnCapture(p, src, -1) + PawnCapture(p, src, 1)
  }

  function KnightMoves(p: Position, src: Square): seq<Move> {
    MovesTo(src, BitBoard(KnightAttacks(src) - p.ours.squares))
  }

  /** The moves of the own piece on src, in the order the source emits them. */
  ghost function MovesFrom(p: Position, src: Square): seq<Move> {
    if src == p.ourKing then KingSteps(p, src) + CastlingMoves(p, src)
    else if p.rooks.Get(src) || p.bishops.Get(src) then SliderMoves(p, src)
    else if p.Pawns().Get(src) then PawnMoves(p, src)
    else KnightMoves(p, src)
  }

  /** The lists f gives for the squares of xs, one after the other. */
  ghost function Flatten(f: Square -> seq<Move>, xs: seq<Square>): seq<Move> {
    if xs == [] then [] else Flatten(f, xs[..|xs| - 1]) + f(xs[|xs| - 1])
  }

  lemma {:induction false} FlattenMeaning(f: Square -> seq<Move>, xs: seq<Square>, m: Move)
    ensures m in Flatten(f, xs) <==> exists s :: s in xs && m in f(s)
  {
    if xs != [] {
      var init := xs[..|xs| - 1];
      FlattenMeaning(f, init, m);
      assert xs == init + [xs[|xs| - 1]];
    }
  }

  /** The moves of the own pieces on xs, one square after the other. */
  ghost function MovesOfSquares(p: Position, xs: seq<Square>): seq<Move> {
    Flatten((s: Square) => MovesFrom(p, s), xs)
  }

  /** GeneratePseudolegalMoves: the moves of every own piece, lowest square first. */
  ghost function PseudolegalMoves(p: Position): seq<Move> {
    MovesOfSquares(p, Elements(p.ours))
  }

  // ----- What the list holds -----

  /** The pseudo-legal list holds exactly the moves of the own pieces. */
  lemma PseudolegalMeaning(p: Position, m: Move)
    ensures m in PseudolegalMoves(p) <==> exists s: Square :: p.ours.Get(s) && m in MovesFrom(p, s)
  {
    FlattenMeaning((s: Square) => MovesFrom(p, s), Elements(p.ours), m);
  }

  /** One king step: a neighbour reached through entry j of kKingMoves. */
  predicate KingStep(src: Square, x: Square, j: int) {
    0 <= j < |KingDeltas| && Row(x) == Row(src) + KingDeltas[j].dRow && Col(x) == Col(src) + KingDeltas[j].dCol
  }

  lemma {:induction false} KingTargetsMeaning(p: Position, src: Square, k: nat, x: Square)
    requires k <= |KingDeltas|
    ensures x in KingTargets(p, src, k) <==>
      !p.ours.Get(x) && !Attacks.Attacked(p, x) && exists j :: j < k && KingStep(src, x, j)
  {
    if k > 0 {
      KingTargetsMeaning(p, src, k - 1, x);
      var r := Row(src) + KingDeltas[k - 1].dRow;
      var c := Col(src) + KingDeltas[k - 1].dCol;
      if IsValid(r, c) {
        assert KingStep(src, At(r, c), k - 1);
      }
      if exists j :: j < k && KingStep(src, x, j) {
        var j :| j < k && KingStep(src, x, j);
        if j == k - 1 {
          SquareFromCoords(x, At(r, c));
        }
      }
    }
  }

  /**
   * The king's steps are exactly the plain moves onto a touching square
   * (not the king's own) that holds no own piece and is not attacked.
   */
  lemma KingStepsMeaning(p: Position, src: Square, m: Move)
    ensures m in KingSteps(p, src) <==>
      m == NewPlainMove(src, m.To()) && m.To() != src && Attacks.Touches(src, m.To()) &&
      !p.ours.Get(m.To()) && !Attacks.Attacked(p, m.To())
  {
    var x := m.To();
    PlainMovesMeaning(src, KingTargets(p, src, |KingDeltas|), m);
    KingTargetsMeaning(p, src, |KingDeltas|, x);
    var dr := Row(x) - Row(src);
    var dc := Col(x) - Col(src);
    KingDeltasAreNeighbours(dr, dc);
    if exists j :: j < |KingDeltas| && KingStep(src, x, j) {
      var j :| j < |KingDeltas| && KingStep(src, x, j);
      assert KingDeltas[j] == Delta(dr, dc);
    }
    if x != src && Attacks.Touches(src, x) {
      assert dr != 0 || dc != 0;
      var j :| 0 <= j < |KingDeltas| && KingDeltas[j] == Delta(dr, dc);
      assert KingStep(src, x, j);
    }
  }

  /** Castling moves go from the king to the own castling rook's square on rank 1, with the right held. */
  lemma CastlingMovesMeaning(p: Position, src: Square, m: Move)
    ensures m in CastlingMoves(p, src) <==>
      (m == NewPlainMove(src, At(RANK_1, p.castlings.queensideRook)) && CanCastleQueenside(p, src)) ||
      (m == NewPlainMove(src, At(RANK_1, p.castlings.kingsideRook)) && CanCastleKingside(p, src))
  {
  }

  /**
   * A castling move is emitted only with the right held, every rank-1
   * square the king and the rook pass over empty (their own squares
   * excepted), and no square on the king's way attacked: the squares from
   * its file towards the destination file, the destination itself only when
   * the king already stands there.
   */
  lemma CastlingSafe(p: Position, src: Square, m: Move)
    requires m in CastlingMoves(p, src)
    ensures m.From() == src && Row(m.To()) == RANK_1
    ensures (Col(m.To()) == p.castlings.queensideRook && p.castlings.weCan000 &&
             (forall i: Square :: Min(C1, Col(m.To())) <= i <= Max(D1, Col(src)) && i != Col(m.To()) && i != Col(src) ==>
                !p.ours.Get(i) && !p.theirs.Get(i)) &&
             (forall i: Square :: (OnTheWay(Col(src), i, C1) || i == Col(src) == C1) ==> !Attacks.Attacked(p, i))) ||
            (Col(m.To()) == p.castlings.kingsideRook && p.castlings.weCan00 &&
             (forall i: Square :: Min(F1, Col(src)) <= i <= Max(G1, Col(m.To())) && i != Col(m.To()) && i != Col(src) ==>
                !p.ours.Get(i) && !p.theirs.Get(i)) &&
             (forall i: Square :: (OnTheWay(Col(src), i, G1) || i == Col(src) == G1) ==> !Attacks.Attacked(p, i)))
  {
  }

  /**
   * The moves of a rook, bishop or queen: plain moves onto every square its
   * lines reach (up to and including the first piece) that holds no own piece.
   */
  lemma SliderMovesMeaning(p: Position, src: Square, m: Move)
    ensures m in SliderMoves(p, src) <==>
      m == NewPlainMove(src, m.To()) && !p.ours.Get(m.To()) &&
      ((p.rooks.Get(src) && m.To() in SliderAttacks(src, RookDirections, p.Occupied().squares)) ||
       (p.bishops.Get(src) && m.To() in SliderAttacks(src, BishopDirections, p.Occupied().squares)))
  {
    var occ := p.Occupied().squares;
    MovesToMeaning(src, BitBoard(SliderAttacks(src, RookDirections, occ) - p.ours.squares), m);
    MovesToMeaning(src, BitBoard(SliderAttacks(src, BishopDirections, occ) - p.ours.squares), m);
  }

  /** The moves of a knight: plain moves onto every knight-jump square not holding an own piece. */
  lemma KnightMovesMeaning(p: Position, src: Square, m: Move)
    ensures m in KnightMoves(p, src) <==>
      m == NewPlainMove(src, m.To()) && KnightJump(src, m.To()) && !p.ours.Get(m.To())
  {
    MovesToMeaning(src, BitBoard(KnightAttacks(src) - p.ours.squares), m);
  }

  // ----- Pawns -----

  /** The square in front of the pawn is empty and the pawn steps there. */
  predicate SinglePush(p: Position, src: Square, to: Square) {
    Row(to) == Row(src) + 1 && Col(to) == Col(src) && !p.ours.Get(to) && !p.theirs.Get(to)
  }

  /** From row 1 the pawn goes two rows forward over two empty squares. */
  predicate DoublePush(p: Position, src: Square, to: Square) {
    Row(src) == 1 && Row(to) == RANK_4 && Col(to) == Col(src) &&
    !p.ours.Get(At(RANK_3, Col(src))) && !p.theirs.Get(At(RANK_3, Col(src))) &&
    !p.ours.Get(to) && !p.theirs.Get(to)
  }

  /** The pawn takes an opponent piece diagonally forward. */
  predicate Take(p: Position, src: Square, to: Square) {
    Row(to) == Row(src) + 1 && Dist(Col(to), Col(src)) == 1 && p.theirs.Get(to)
  }

  /** The pawn takes en passant: onto an empty-of-opponent row-5 square whose file has the marker on row 7. */
  predicate EnPassantTake(p: Position, src: Square, to: Square) {
    Row(src) == RANK_5 && Row(to) == RANK_6 && Dist(Col(to), Col(src)) == 1 &&
    !p.theirs.Get(to) && p.pawns.Get(At(RANK_8, Col(to)))
  }

  /** The promotion field matches the row: one of the four pieces on row 7, none elsewhere. */
  predicate PromotionFits(m: Move) {
    if Row(m.To()) == RANK_8 then m.Promotion() in Promotions else m.Promotion() == NoPromotion
  }

  lemma PushesMeaning(p: Position, src: Square, m: Move)
    requires Row(src) <= 6
    ensures m in PawnPushes(p, src) <==>
      m.From() == src && m.HighBit() == 0 && PromotionFits(m) &&
      (SinglePush(p, src, m.To()) || DoublePush(p, src, m.To()))
  {
    var dst := At(Row(src) + 1, Col(src));
    if m.From() == src && m.HighBit() == 0 && PromotionFits(m) &&
       (SinglePush(p, src, m.To()) || DoublePush(p, src, m.To())) {
      NewMoveOfFields(m);
      if SinglePush(p, src, m.To()) {
        SquareFromCoords(m.To(), dst);
        if Row(dst) == RANK_8 {
          var i :| 0 <= i < 4 && Promotions[i] == m.Promotion();
          assert PawnPushes(p, src)[i] == m;
        }
      } else {
        SquareFromCoords(m.To(), At(RANK_4, Col(src)));
      }
    }
  }

  lemma CaptureMeaning(p: Position, src: Square, direction: int, m: Move)
    requires Row(src) <= 6 && (direction == -1 || direction == 1)
    ensures m in PawnCapture(p, src, direction) <==>
      m.From() == src && m.HighBit() == 0 && PromotionFits(m) && Col(m.To()) == Col(src) + direction &&
      (Take(p, src, m.To()) || EnPassantTake(p, src, m.To()))
  {
    var c := Col(src) + direction;
    if m.From() == src && m.HighBit() == 0 && PromotionFits(m) && Col(m.To()) == c &&
       (Take(p, src, m.To()) || EnPassantTake(p, src, m.To())) {
      NewMoveOfFields(m);
      var dst := At(Row(src) + 1, c);
      SquareFromCoords(m.To(), dst);
      if p.theirs.Get(dst) && Row(dst) == RANK_8 {
        var i :| 0 <= i < 4 && Promotions[i] == m.Promotion();
        assert PawnCapture(p, src, direction)[i] == m;
      }
    }
  }

  /**
   * The pawn's moves are exactly: a step onto the empty square in front, a
   * double step from row 1 over two empty squares, a diagonal capture of an
   * opponent piece, or an en-passant capture onto row 5 under the marker;
   * onto row 7 each comes as the four promotions, elsewhere with none.
   */
  lemma PawnMovesMeaning(p: Position, src: Square, m: Move)
    requires Row(src) <= 6
    ensures m in PawnMoves(p, src) <==>
      m.From() == src && m.HighBit() == 0 && PromotionFits(m) &&
      (SinglePush(p, src, m.To()) || DoublePush(p, src, m.To()) ||
       Take(p, src, m.To()) || EnPassantTake(p, src, m.To()))
  {
    PushesMeaning(p, src, m);
    CaptureMeaning(p, src, -1, m);
    CaptureMeaning(p, src, 1, m);
  }

  /** A pawn move onto row 7 comes with all four promotions: queen, rook, bishop and knight. */
  lemma PromotionsComplete(p: Position, src: Square, m: Move, i: int)
    requires Row(src) <= 6 && 0 <= i < 4
    requires m in PawnMoves(p, src) && Row(m.To()) == RANK_8
    ensures NewMove(src, m.To(), Promotions[i]) in PawnMoves(p, src)
  {
    PawnMovesMeaning(p, src, m);
    PawnMovesMeaning(p, src, NewMove(src, m.To(), Promotions[i]));
  }

  // ----- The whole list -----

  /** Every move in the list starts on an own piece. */
  lemma MovesFromOrigin(p: Position, src: Square, m: Move)
    requires m in MovesFrom(p, src)
    ensures m.From() == src
  {
    if src == p.ourKing {
      KingStepsMeaning(p, src, m);
      CastlingMovesMeaning(p, src, m);
    } else if p.rooks.Get(src) || p.bishops.Get(src) {
      SliderMovesMeaning(p, src, m);
    } else if p.Pawns().Get(src) {
      PawnMovesMeaning(p, src, m);
    } else {
      KnightMovesMeaning(p, src, m);
    }
  }

  /**
   * No move lands on an own piece, except the two encodings the source
   * relies on: castling (the king onto its own castling rook on rank 1), and
   * an en-passant capture under a marker whose square an own piece holds.
   */
  lemma NoOwnDestination(p: Position, m: Move)
    requires SidesDisjoint(p)
    requires m in PseudolegalMoves(p) && p.ours.Get(m.To())
    ensures p.ours.Get(m.From())
    ensures (m.From() == p.ourKing && m in CastlingMoves(p, m.From())) ||
            (m.From() != p.ourKing && p.Pawns().Get(m.From()) && EnPassantTake(p, m.From(), m.To()))
  {
    PseudolegalMeaning(p, m);
    var src: Square :| p.ours.Get(src) && m in MovesFrom(p, src);
    MovesFromOrigin(p, src, m);
    if src == p.ourKing {
      KingStepsMeaning(p, src, m);
    } else if p.rooks.Get(src) || p.bishops.Get(src) {
      SliderMovesMeaning(p, src, m);
    } else if p.Pawns().Get(src) {
      PawnMovesMeaning(p, src, m);
    } else {
      KnightMovesMeaning(p, src, m);
    }
  }

  /** Every en-passant marker on row 7 sits above an empty row-5 square, as after a real double push. */
  predicate MarkersAboveEmpty(p: Position) {
    forall c :: 0 <= c < 8 && p.pawns.Get(At(RANK_8, c)) ==> !p.ours.Get(At(RANK_6, c)) && !p.theirs.Get(At(RANK_6, c))
  }

  /** With the markers where a double push leaves them, only castling lands on an own piece. */
  lemma OnlyCastlingOntoOwn(p: Position, m: Move)
    requires SidesDisjoint(p) && MarkersAboveEmpty(p)
    requires m in PseudolegalMoves(p) && p.ours.Get(m.To())
    ensures m.From() == p.ourKing && Row(m.To()) == RANK_1 && m in CastlingMoves(p, m.From())
  {
    NoOwnDestination(p, m);
    if m.From() == p.ourKing {
      CastlingMovesMeaning(p, m.From(), m);
    } else {
      SquareFromCoords(m.To(), At(RANK_6, Col(m.To())));
    }
  }
}
