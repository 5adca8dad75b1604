/**
 * The ChessBoard class: the position kept in mutable fields, as the source
 * keeps it, with the operations that update those fields in place or walk
 * over them with loops. Each method is proved against the function on
 * positions that specifies it (Apply.ApplyMove, KingAttacks.KingAttackInfoOf,
 * MoveGen.PseudolegalMoves, Legality.IsLegalMove and LegalMoves,
 * Fen.SetFromFen); what those functions mean is proved in their own modules.
 */
module Board {
  import opened Wrappers
  import opened Squares
  import opened BitBoards
  import opened Rays
  import opened Leapers
  import opened Moves
  import opened Castling
  import opened Positions
  import Apply
  import Attacks
  import KingAttacks
  import MoveGen
  import Legality
  import Fen
  import AttackTables

  class ChessBoard {
    var ours: BitBoard
    var theirs: BitBoard
    var rooks: BitBoard
    var bishops: BitBoard
    var pawns: BitBoard
    var ourKing: Square
    var theirKing: Square
    var castlings: Castlings
    var flipped: bool

    /** The fields as a position value. */
    function Model(): Position
      reads this
    {
      Position(ours, theirs, rooks, bishops, pawns, ourKing, theirKing, castlings, flipped)
    }

    /** A cleared board (the default constructor runs Clear). */
    constructor ()
      ensures Model() == Fen.Blank
    {
      ours, theirs, rooks, bishops, pawns := EmptyBoard, EmptyBoard, EmptyBoard, EmptyBoard, EmptyBoard;
      ourKing, theirKing := 0, 0;
      castlings := Cleared;
      flipped := false;
    }

    /** The copy constructor: the same position in a new board. */
    constructor Copy(other: ChessBoard)
      ensures Model() == other.Model()
    {
      ours, theirs, rooks, bishops, pawns := other.ours, other.theirs, other.rooks, other.bishops, other.pawns;
      ourKing, theirKing := other.ourKing, other.theirKing;
      castlings := other.castlings;
      flipped := other.flipped;
    }

    /** Clear: every field zeroed. */
    method Clear()
      modifies this
      ensures Model() == Fen.Blank
    {
      ours, theirs, rooks, bishops, pawns := EmptyBoard, EmptyBoard, EmptyBoard, EmptyBoard, EmptyBoard;
      ourKing, theirKing := 0, 0;
      castlings := Cleared;
      flipped := false;
    }

    /**
     * Mirror: the sides swap and every set is mirrored; mirroring twice
     * gives the board back (Positions.MirrorTwice).
     */
    method Mirror()
      modifies this
      ensures Model() == old(Model()).Mirror()
    {
      MirrorSides();
      MirrorRoles();
      castlings := castlings.Mirror();
      flipped := !flipped;
    }

    /** The two sides' pieces and kings mirrored and exchanged. */
    method MirrorSides()
      modifies this`ours, this`theirs, this`ourKing, this`theirKing
      ensures ours == old(theirs).Mirror() && theirs == old(ours).Mirror()
      ensures ourKing == Squares.Mirror(old(theirKing)) && theirKing == Squares.Mirror(old(ourKing))
    {
      ours := ours.Mirror();
      theirs := theirs.Mirror();
      ours, theirs := theirs, ours;
      ourKing := Squares.Mirror(ourKing);
      theirKing := Squares.Mirror(theirKing);
      ourKing, theirKing := theirKing, ourKing;
    }

    /** The role sets mirrored. */
    method MirrorRoles()
      modifies this`rooks, this`bishops, this`pawns
      ensures rooks == old(rooks).Mirror() && bishops == old(bishops).Mirror() && pawns == old(pawns).Mirror()
    {
      rooks := rooks.Mirror();
      bishops := bishops.Mirror();
      pawns := pawns.Mirror();
    }

    /** The do_castling step of ApplyMove: markers dropped, king and rook moved. */
    method DoCastling(kingDst: Square, rookSrc: Square, rookDst: Square)
      modifies this`pawns, this`ours, this`rooks, this`ourKing
      ensures Model() == Apply.DoCastling(old(Model()), Apply.CastlingPlan(kingDst, rookSrc, rookDst))
    {
      pawns := pawns.Intersect(BitBoard(PawnMask));
      ours := ours.Reset(ourKing);
      ours := ours.Reset(rookSrc);
      rooks := rooks.Reset(rookSrc);
      ours := ours.Set(kingDst);
      ours := ours.Set(rookDst);
      rooks := rooks.Set(rookDst);
      ourKing := kingDst;
    }

    /**
     * The castling part of ApplyMove for a move of the king: both own rights
     * go, and a castling is carried out when the move stands for one.
     */
    method TryCastling(m: Move) returns (castled: bool)
      requires m.From() == ourKing
      modifies this`castlings, this`pawns, this`ours, this`rooks, this`ourKing
      ensures castled == Apply.CastlingOf(old(Model()), m).Some?
      ensures var c0 := old(castlings).(weCan00 := false, weCan000 := false);
        if castled then Model() == Apply.DoCastling(old(Model()).(castlings := c0), Apply.CastlingOf(old(Model()), m).value)
        else Model() == old(Model()).(castlings := c0)
    {
      var from := m.From();
      var to := m.To();
      castlings := castlings.(weCan00 := false, weCan000 := false);
      castled := false;
      if Row(from) == RANK_1 && Row(to) == RANK_1 {
        var ourRooks := rooks.Minus(bishops).Intersect(ours);
        if ourRooks.Get(to) {
          if Col(to) > Col(from) {
            DoCastling(G1, to, F1);
          } else {
            DoCastling(C1, to, D1);
          }
          castled := true;
        } else if Col(from) == FILE_E && Col(to) == FILE_G {
          DoCastling(G1, H1, F1);
          castled := true;
        } else if Col(from) == FILE_E && Col(to) == FILE_C {
          DoCastling(C1, A1, D1);
          castled := true;
        }
      }
    }

    /**
     * The capture part of ApplyMove: whatever stood on `to` is removed, and
     * landing on the opponent's castling rook square ends that right.
     */
    method RemoveCaptured(to: Square) returns (captured: bool)
      modifies this`theirs, this`rooks, this`bishops, this`pawns, this`castlings
      ensures captured == old(theirs).Get(to)
      ensures theirs == old(theirs).Reset(to) && rooks == old(rooks).Reset(to)
      ensures bishops == old(bishops).Reset(to) && pawns == old(pawns).Reset(to)
      ensures castlings == Apply.CaptureRights(old(castlings), to)
    {
      captured := theirs.Get(to);
      theirs := theirs.Reset(to);
      rooks := rooks.Reset(to);
      bishops := bishops.Reset(to);
      pawns := pawns.Reset(to);
      if to == 56 + castlings.kingsideRook {
        castlings := castlings.(theyCan00 := false);
      }
      if to == 56 + castlings.queensideRook {
        castlings := castlings.(theyCan000 := false);
      }
    }

    /** The en-passant part of ApplyMove: the pawn passed by is taken, then every marker goes. */
    method TakeEnPassant(from: Square, to: Square)
      modifies this`theirs, this`pawns
      ensures var ep := Apply.IsEnPassant(old(pawns), from, to);
        theirs == (if ep then old(theirs).Reset(At(RANK_5, Col(to))) else old(theirs)) &&
        pawns == (if ep then old(pawns).Reset(At(RANK_5, Col(to))) else old(pawns)).Intersect(BitBoard(PawnMask))
    {
      if Row(from) == RANK_5 && pawns.Get(from) && Col(from) != Col(to) && pawns.Get(At(RANK_8, Col(to))) {
        pawns := pawns.Reset(At(RANK_5, Col(to)));
        theirs := theirs.Reset(At(RANK_5, Col(to)));
      }
      pawns := pawns.Intersect(BitBoard(PawnMask));
    }

    /** The promotion part of ApplyMove: the new piece's roles on `to`, the pawn gone from `from`. */
    method Promote(from: Square, to: Square, pr: Promotion)
      modifies this`rooks, this`bishops, this`pawns
      ensures rooks == Apply.PromoteRooks(old(rooks), to, pr)
      ensures bishops == Apply.PromoteBishops(old(bishops), to, pr)
      ensures pawns == old(pawns).Reset(from)
    {
      match pr {
        case Rook => rooks := rooks.Set(to);
        case Bishop => bishops := bishops.Set(to);
        case Queen =>
          rooks := rooks.Set(to);
          bishops := bishops.Set(to);
        case _ =>
      }
      pawns := pawns.Reset(from);
    }

    /**
     * The ordinary-move part of ApplyMove: the castling rights a rook move
     * ends, the roles moved from `from` to `to`, and the en-passant marker.
     */
    method MoveRoles(from: Square, to: Square)
      modifies this`rooks, this`bishops, this`pawns, this`castlings
      ensures castlings == Apply.RookMoveRights(old(castlings), from, old(rooks))
      ensures rooks == old(rooks).SetIf(to, old(rooks).Get(from)).Reset(from)
      ensures bishops == old(bishops).SetIf(to, old(bishops).Get(from)).Reset(from)
      ensures pawns == Apply.PushMarker(old(pawns).SetIf(to, old(pawns).Get(from)).Reset(from), theirs, from, to)
    {
      MoveRights(from);
      rooks := rooks.SetIf(to, rooks.Get(from));
      bishops := bishops.SetIf(to, bishops.Get(from));
      pawns := pawns.SetIf(to, pawns.Get(from));
      rooks := rooks.Reset(from);
      bishops := bishops.Reset(from);
      pawns := pawns.Reset(from);
      SetMarker(from, to);
    }

    /** A rook leaving a rank-1 square on a castling rook file ends the own right on that side. */
    method MoveRights(from: Square)
      modifies this`castlings
      ensures castlings == Apply.RookMoveRights(old(castlings), from, rooks)
    {
      if Row(from) == RANK_1 && rooks.Get(from) {
        if Col(from) == castlings.queensideRook {
          castlings := castlings.(weCan000 := false);
        }
        if Col(from) == castlings.kingsideRook {
          castlings := castlings.(weCan00 := false);
        }
      }
    }

    /** The en-passant marker a double push leaves when an opponent pawn stands beside the pawn. */
    method SetMarker(from: Square, to: Square)
      modifies this`pawns
      ensures pawns == Apply.PushMarker(old(pawns), theirs, from, to)
    {
      if Row(to) - Row(from) == 2 && pawns.Get(to) {
        var epSquare := At(Row(to) - 1, Col(to));
        if BitBoard(PawnAttacks(epSquare)).Intersects(theirs.Intersect(pawns)) {
          pawns := pawns.Set(At(0, Col(to)));
        }
      }
    }

    /**
     * ApplyMove: plays the move on the fields, step by step, and answers
     * whether the fifty-move counter is reset. What the new position holds
     * is proved about Apply.ApplyMove.
     */
    method ApplyMove(m: Move) returns (reset: bool)
      modifies this
      ensures (Model(), reset) == Apply.ApplyMove(old(Model()), m)
    {
      var from := m.From();
      var to := m.To();
      if from == ourKing {
        var castled := TryCastling(m);
        if castled {
          return false;
        }
      }

      ours := ours.Reset(from);
      ours := ours.Set(to);
      reset := RemoveCaptured(to);
      TakeEnPassant(from, to);
      reset := reset || pawns.Get(from);

      if from == ourKing {
        ourKing := to;
        return reset;
      }

      if Row(to) == RANK_8 && pawns.Get(from) {
        Promote(from, to, m.Promotion());
        return true;
      }

      MoveRoles(from, to);
    }

    // ----- GenerateKingAttackInfo -----

    /**
     * The walk along one ray from our king, counting the steps k taken from
     * the king (the source adds the direction to a running row and column;
     * OnBoard and RaySquare are that row and column after k steps): squares are collected into the
     * attack line until an own piece is met, a second own piece ends the
     * walk, and the first opponent piece ends it with a pin or a check when
     * it belongs to the family.
     */
    method WalkRay(family: BitBoard, d: Direction) returns (outcome: KingAttacks.RayOutcome)
      ensures outcome == KingAttacks.ScanRay(Model(), family, d)
    {
      ghost var p := Model();
      var attackLine := EmptyBoard;
      var pinFound := false;
      var pinned: Square := 0;
      var k := 0;
      while true
        invariant 0 <= k <= 7
        invariant KingAttacks.Scan(p, family, d, k + 1, attackLine.squares, if pinFound then Some(pinned) else None)
                  == KingAttacks.ScanRay(p, family, d)
        decreases 7 - k
      {
        if !OnBoard(ourKing, d, k + 1) {
          return KingAttacks.NoHit;
        }
        OnBoardBound(ourKing, d, k + 1);
        var destination := RaySquare(ourKing, d, k + 1);
        ghost var line0, pin0 := attackLine.squares, if pinFound then Some(pinned) else None;
        if ours.Get(destination) {
          if pinFound {
            return KingAttacks.NoHit;
          }
          pinFound := true;
          pinned := destination;
        }
        if !pinFound {
          attackLine := attackLine.Set(destination);
        }
        if theirs.Get(destination) {
          if family.Get(destination) {
            if pinFound {
              return KingAttacks.Pin(pinned);
            }
            return KingAttacks.Check(attackLine.squares);
          }
          return KingAttacks.NoHit;
        }
        KingAttacks.ScanPass(p, family, d, k + 1, line0, pin0, destination);
        k := k + 1;
      }
    }

    /** The walks along the rays of one family, added up: the lines of the checks, the pins and the number of checks. */
    method WalkRays(family: BitBoard, dirs: seq<Direction>) returns (lines: BitBoard, pinned: BitBoard, count: nat)
      ensures KingAttacks.Summary(lines.squares, pinned.squares, count) == KingAttacks.ScanAll(Model(), family, dirs)
    {
      lines, pinned, count := EmptyBoard, EmptyBoard, 0;
      for j := 0 to |dirs|
        invariant KingAttacks.Summary(lines.squares, pinned.squares, count) == KingAttacks.ScanAll(Model(), family, dirs[..j])
      {
        var outcome := WalkRay(family, dirs[j]);
        match outcome {
          case NoHit =>
          case Pin(x) => pinned := pinned.Set(x);
          case Check(line) =>
            lines := lines.Union(BitBoard(line));
            count := count + 1;
        }
        assert dirs[..j + 1][..j] == dirs[..j];
      }
      assert dirs[..|dirs|] == dirs;
    }

    /** The walks of one slider family, done only when such a slider of the opponent stands on the king's empty-board lines. */
    method SliderWalk(family: BitBoard, dirs: seq<Direction>) returns (lines: BitBoard, pinned: BitBoard, count: nat)
      ensures KingAttacks.Summary(lines.squares, pinned.squares, count) == KingAttacks.SliderPart(Model(), family, dirs)
    {
      lines, pinned, count := EmptyBoard, EmptyBoard, 0;
      if BitBoard(SliderAttacks(ourKing, dirs, {})).Intersects(theirs.Intersect(family)) {
        lines, pinned, count := WalkRays(family, dirs);
      }
    }

    /**
     * GenerateKingAttackInfo: the rook and bishop walks (only when such a
     * slider of the opponent stands on the king's empty-board lines), then
     * the checking pawn and knight. What the result means is proved in
     * KingAttacks (InCheckMeaning, CheckersOnAttackLines, PinnedMeaning).
     */
    method GenerateKingAttackInfo() returns (info: KingAttacks.KingAttackInfo)
      ensures info == KingAttacks.KingAttackInfoOf(Model())
    {
      var lines, pinned, count := SliderWalk(rooks, RookDirections);
      var l, pn, c := SliderWalk(bishops, BishopDirections);
      lines, pinned, count := lines.Union(l), pinned.Union(pn), count + c;
      var attackingPawns := BitBoard(PawnAttacks(ourKing)).Intersect(theirs.Intersect(pawns));
      lines := lines.Union(attackingPawns);
      if !attackingPawns.Empty() {
        count := count + 1;
      }
      var attackingKnights := BitBoard(KnightAttacks(ourKing)).Intersect(
        theirs.MinusSquare(theirKing).Minus(rooks).Minus(bishops).Minus(pawns.Intersect(BitBoard(PawnMask))));
      lines := lines.Union(attackingKnights);
      if !attackingKnights.Empty() {
        count := count + 1;
      }
      info := KingAttacks.KingAttackInfo(lines, pinned, count == 2);
    }

    // ----- GeneratePseudolegalMoves -----

    /** One plain move from `from` onto each square of `targets`, lowest square first. */
    static method ListMoves(from: Square, targets: BitBoard) returns (ms: seq<Move>)
      ensures ms == MoveGen.MovesTo(from, targets)
    {
      ms := ListPlainMoves(from, Elements(targets));
    }

    /** The loop behind ListMoves: one plain move onto each square of xs, in order. */
    static method ListPlainMoves(from: Square, xs: seq<Square>) returns (ms: seq<Move>)
      ensures ms == MoveGen.PlainMoves(from, xs)
    {
      ms := [];
      for j := 0 to |xs|
        invariant ms == MoveGen.PlainMoves(from, xs[..j])
      {
        assert xs[..j + 1][..j] == xs[..j];
        ms := ms + [NewPlainMove(from, xs[j])];
      }
      assert xs[..|xs|] == xs;
    }

    /** IsUnderAttack on this board: whether a piece of the opponent attacks sq. */
    method IsUnderAttack(t: Attacks.Tables, sq: Square) returns (attacked: bool)
      requires t.Valid()
      ensures attacked == Attacks.Attacked(Model(), sq)
    {
      attacked := Attacks.IsUnderAttack(t, Model(), sq);
    }

    /** The king's steps, in the order of kKingMoves: on the board, no own piece there, not attacked. */
    method KingSteps(t: Attacks.Tables, src: Square) returns (ms: seq<Move>)
      requires t.Valid()
      ensures ms == MoveGen.KingSteps(Model(), src)
    {
      ghost var p := Model();
      ghost var targets: seq<Square> := [];
      ms := [];
      for k := 0 to |KingDeltas|
        invariant targets == MoveGen.KingTargets(p, src, k)
        invariant ms == MoveGen.PlainMoves(src, targets)
      {
        var dstRow := Row(src) + KingDeltas[k].dRow;
        var dstCol := Col(src) + KingDeltas[k].dCol;
        var keep := false;
        if IsValid(dstRow, dstCol) {
          var destination := At(dstRow, dstCol);
          var attacked := IsUnderAttack(t, destination);
          keep := !ours.Get(destination) && !attacked;
        }
        MoveGen.KingTargetsStep(p, src, k, keep);
        if keep {
          var destination := At(dstRow, dstCol);
          assert (targets + [destination])[..|targets|] == targets;
          targets := targets + [destination];
          ms := ms + [NewPlainMove(src, destination)];
        }
      }
    }

    /** walk_free: the rank-1 squares first..last, apart from the rook's and the king's, are empty. */
    method WalkFree(first: int, last: int, rook: int, king: int) returns (free: bool)
      requires 0 <= first && last < 64
      ensures free == MoveGen.WalkFree(Model(), first, last, rook, king)
    {
      var i := first;
      while i <= last
        invariant first <= i && (i == first || i <= last + 1)
        invariant MoveGen.WalkFree(Model(), first, i - 1, rook, king)
        decreases last + 1 - i
      {
        if i != rook && i != king && (ours.Get(i) || theirs.Get(i)) {
          return false;
        }
        i := i + 1;
      }
      return true;
    }

    /**
     * range_attacked: the squares from `from` towards `to`, `to` excluded,
     * one at a time; `from` alone when the two are the same.
     */
    method RangeAttacked(t: Attacks.Tables, from: Square, to: Square) returns (attacked: bool)
      requires t.Valid()
      ensures attacked == MoveGen.RangeAttacked(Model(), from, to)
    {
      ghost var p := Model();
      if from == to {
        attacked := IsUnderAttack(t, from);
        return;
      }
      var increment := if from < to then 1 else -1;
      var i: Square := from;
      while i != to
        invariant (from < to && from <= i <= to) || (to < from && to <= i <= from)
        invariant forall j: Square :: MoveGen.OnTheWay(from, j, i) ==> !Attacks.Attacked(p, j)
        decreases if from < to then to - i else i - to
      {
        var here := IsUnderAttack(t, i);
        if here {
          assert MoveGen.OnTheWay(from, i, to);
          return true;
        }
        forall j: Square | MoveGen.OnTheWay(from, j, i + increment)
          ensures !Attacks.Attacked(p, j)
        {
          if j != i {
            assert MoveGen.OnTheWay(from, j, i);
          }
        }
        i := i + increment;
      }
      return false;
    }

    /** The castlings of the king on src: queenside, then kingside, each when allowed, free and not attacked on the way. */
    method CastlingMoves(t: Attacks.Tables, src: Square) returns (ms: seq<Move>)
      requires t.Valid()
      ensures ms == MoveGen.CastlingMoves(Model(), src)
    {
      ms := [];
      var king := Col(src);
      if castlings.weCan000 {
        var qrook := castlings.queensideRook;
        var free := WalkFree(MoveGen.Min(C1, qrook), MoveGen.Max(D1, king), qrook, king);
        if free {
          var attacked := RangeAttacked(t, king, C1);
          if !attacked {
            ms := ms + [NewPlainMove(src, At(RANK_1, qrook))];
          }
        }
      }
      if castlings.weCan00 {
        var krook := castlings.kingsideRook;
        var free := WalkFree(MoveGen.Min(F1, king), MoveGen.Max(G1, krook), krook, king);
        if free {
          var attacked := RangeAttacked(t, king, G1);
          if !attacked {
            ms := ms + [NewPlainMove(src, At(RANK_1, krook))];
          }
        }
      }
    }

    /** The loop over kPromotions: ms followed by the four promotion moves from `from` to `to`. */
    static method AddPromotions(ms: seq<Move>, from: Square, to: Square) returns (result: seq<Move>)
      ensures result == ms + MoveGen.PromotionMoves(from, to)
    {
      result := ms;
      for i := 0 to |MoveGen.Promotions|
        invariant result == ms + MoveGen.PromotionMoves(from, to)[..i]
      {
        assert MoveGen.PromotionMoves(from, to)[..i + 1] == MoveGen.PromotionMoves(from, to)[..i] + [NewMove(from, to, MoveGen.Promotions[i])];
        result := result + [NewMove(from, to, MoveGen.Promotions[i])];
      }
      assert MoveGen.PromotionMoves(from, to)[..4] == MoveGen.PromotionMoves(from, to);
    }

    /**
     * The pawn part of the generation: the push one square forward (and two
     * from rank 2, or the four promotions onto rank 8), then the captures
     * towards column -1 and column +1.
     */
    method PawnMovesFrom(src: Square) returns (ms: seq<Move>)
      requires Row(src) <= 6
      ensures ms == MoveGen.PawnMoves(Model(), src)
    {
      ms := PawnPushesFrom(src);
      ghost var p := Model();
      var directions := [-1, 1];
      for i := 0 to |directions|
        invariant Model() == p
        invariant ms == MoveGen.PawnPushes(p, src) +
          (if i == 0 then [] else MoveGen.PawnCapture(p, src, -1)) +
          (if i < 2 then [] else MoveGen.PawnCapture(p, src, 1))
      {
        var c := Col(src) + directions[i];
        if c < 0 || c >= 8 {
          continue;
        }
        ms := AddPawnCapture(ms, src, directions[i]);
      }
    }

    /** The forward moves of the pawn on src: one square, two from rank 2, or the promotions onto rank 8. */
    method PawnPushesFrom(src: Square) returns (ms: seq<Move>)
      requires Row(src) <= 6
      ensures ms == MoveGen.PawnPushes(Model(), src)
    {
      ms := [];
      var dst := At(Row(src) + 1, Col(src));
      if !ours.Get(dst) && !theirs.Get(dst) {
        if Row(dst) != RANK_8 {
          ms := ms + [NewPlainMove(src, dst)];
          if Row(dst) == RANK_3 {
            if !ours.Get(At(RANK_4, Col(src))) && !theirs.Get(At(RANK_4, Col(src))) {
              ms := ms + [NewPlainMove(src, At(RANK_4, Col(src)))];
            }
          }
        } else {
          ms := AddPromotions(ms, src, dst);
        }
      }
    }

    /** ms followed by the capture of the pawn on src towards an on-board column Col(src) + direction. */
    method AddPawnCapture(ms: seq<Move>, src: Square, direction: int) returns (result: seq<Move>)
      requires Row(src) <= 6 && 0 <= Col(src) + direction < 8
      ensures result == ms + MoveGen.PawnCapture(Model(), src, direction)
    {
      var c := Col(src) + direction;
      var target := At(Row(src) + 1, c);
      result := ms;
      if theirs.Get(target) {
        if Row(target) == RANK_8 {
          result := AddPromotions(ms, src, target);
        } else {
          result := ms + [NewPlainMove(src, target)];
        }
      } else if Row(target) == RANK_6 && pawns.Get(At(RANK_8, c)) {
        result := ms + [NewPlainMove(src, target)];
      }
    }

    /** The moves of the own piece on src: king, slider (rook part then bishop part), pawn, otherwise knight. */
    method MovesFromSquare(t: Attacks.Tables, src: Square) returns (ms: seq<Move>)
      requires t.Valid()
      ensures ms == MoveGen.MovesFrom(Model(), src)
    {
      if src == ourKing {
        var steps := KingSteps(t, src);
        var castles := CastlingMoves(t, src);
        return steps + castles;
      }
      if rooks.Get(src) || bishops.Get(src) {
        var occupied := ours.Union(theirs);
        var rookMoves, bishopMoves := [], [];
        if rooks.Get(src) {
          rookMoves := ListMoves(src, t.RookAttacks(src, occupied).Minus(ours));
        }
        if bishops.Get(src) {
          bishopMoves := ListMoves(src, t.BishopAttacks(src, occupied).Minus(ours));
        }
        return rookMoves + bishopMoves;
      }
      if pawns.Intersect(BitBoard(PawnMask)).Get(src) {
        ms := PawnMovesFrom(src);
        return;
      }
      ms := ListMoves(src, BitBoard(KnightAttacks(src)).Minus(ours));
    }

    /** GeneratePseudolegalMoves: the moves of each own piece, lowest square first. */
    method GeneratePseudolegalMoves(t: Attacks.Tables) returns (result: seq<Move>)
      requires t.Valid()
      ensures result == MoveGen.PseudolegalMoves(Model())
    {
      result := MovesOfSquares(t, Elements(ours));
    }

    /** The loop of GeneratePseudolegalMoves over the own pieces on xs. */
    method MovesOfSquares(t: Attacks.Tables, xs: seq<Square>) returns (result: seq<Move>)
      requires t.Valid()
      ensures result == MoveGen.MovesOfSquares(Model(), xs)
    {
      result := [];
      for i := 0 to |xs|
        invariant result == MoveGen.MovesOfSquares(Model(), xs[..i])
      {
        var ms := MovesFromSquare(t, xs[i]);
        assert xs[..i + 1][..i] == xs[..i];
        result := result + ms;
      }
      assert xs[..|xs|] == xs;
    }

    // ----- IsLegalMove, GenerateLegalMoves -----

    /** The move played on a copy of the board: the own king is then not attacked. */
    method SafeAfter(t: Attacks.Tables, m: Move) returns (safe: bool)
      requires t.Valid()
      ensures safe == Legality.SafeAfter(Model(), m)
    {
      var board := new ChessBoard.Copy(this);
      var _ := board.ApplyMove(m);
      safe := !Attacks.IsUnderAttack(t, board.Model(), board.ourKing);
    }

    /** IsLegalMove: en passant and king moves are played on a copy; the rest is decided from the attack info. */
    method IsLegalMove(t: Attacks.Tables, m: Move, info: KingAttacks.KingAttackInfo) returns (legal: bool)
      requires t.Valid()
      ensures legal == Legality.IsLegalMove(Model(), info, m)
    {
      var from, to := m.From(), m.To();
      if Row(from) == 4 && pawns.Get(from) && Col(from) != Col(to) && pawns.Get(At(7, Col(to))) {
        legal := SafeAfter(t, m);
        return;
      }
      if info.InCheck() {
        if from == ourKing {
          legal := SafeAfter(t, m);
          return;
        }
        if info.IsPinned(from) {
          return false;
        }
        return !info.doubleCheck && info.IsOnAttackLine(to);
      }
      if from == ourKing {
        if Row(from) != 0 || Row(to) != 0 || (Dist(Col(from), Col(to)) == 1 && !ours.Get(to)) {
          return true;
        }
        legal := SafeAfter(t, m);
        return;
      }
      if !info.IsPinned(from) {
        return true;
      }
      var dxFrom := Col(from) - Col(ourKing);
      var dyFrom := Row(from) - Row(ourKing);
      var dxTo := Col(to) - Col(ourKing);
      var dyTo := Row(to) - Row(ourKing);
      if dxFrom == 0 || dxTo == 0 {
        return dxFrom == dxTo;
      }
      return dxFrom * dyTo == dxTo * dyFrom;
    }

    /** The filter of GenerateLegalMoves: the legal moves of ms, order kept. */
    method KeepLegal(t: Attacks.Tables, info: KingAttacks.KingAttackInfo, ms: seq<Move>) returns (result: seq<Move>)
      requires t.Valid()
      ensures result == Legality.LegalOf(Model(), info, ms)
    {
      result := [];
      for i := 0 to |ms|
        invariant result == Legality.LegalOf(Model(), info, ms[..i])
      {
        var legal := IsLegalMove(t, ms[i], info);
        assert ms[..i + 1][..i] == ms[..i];
        if legal {
          result := result + [ms[i]];
        }
      }
      assert ms[..|ms|] == ms;
    }

    /** GenerateLegalMoves: the pseudo-legal moves that pass IsLegalMove. */
    method GenerateLegalMoves(t: Attacks.Tables) returns (result: seq<Move>)
      requires t.Valid()
      ensures result == Legality.LegalMoves(Model())
    {
      var info := GenerateKingAttackInfo();
      var pseudo := GeneratePseudolegalMoves(t);
      result := KeepLegal(t, info, pseudo);
    }

    // ----- SetFromFen -----

    /**
     * One piece letter on sq: the side's set, then the king square or the
     * role sets the letter names. A pawn on the first or last row and an
     * unknown letter are rejected (the fields already updated stay so).
     */
    method PlaceLetter(sq: Square, c: char) returns (error: Option<Fen.FenError>)
      modifies this`ours, this`theirs, this`ourKing, this`theirKing, this`rooks, this`bishops, this`pawns
      ensures match Fen.PlacePiece(old(Model()), sq, c)
              case Ok(q) => error == None && Model() == q
              case Err(e) => error == Some(e)
    {
      if Fen.IsUpper(c) {
        ours := ours.Set(sq);
      } else {
        theirs := theirs.Set(sq);
      }
      if c == 'K' {
        ourKing := sq;
      } else if c == 'k' {
        theirKing := sq;
      } else if c == 'R' || c == 'r' {
        rooks := rooks.Set(sq);
      } else if c == 'B' || c == 'b' {
        bishops := bishops.Set(sq);
      } else if c == 'Q' || c == 'q' {
        rooks := rooks.Set(sq);
        bishops := bishops.Set(sq);
      } else if c == 'P' || c == 'p' {
        if Row(sq) == 7 || Row(sq) == 0 {
          return Some(Fen.PawnOnBackRank);
        }
        pawns := pawns.Set(sq);
      } else if c == 'N' || c == 'n' {
      } else {
        return Some(Fen.Malformed);
      }
      error := None;
    }

    /** The placement field, character by character, from row 7 down, onto a cleared board. */
    method PlaceBoard(board: string) returns (error: Option<Fen.FenError>)
      requires Model() == Fen.Blank
      modifies this`ours, this`theirs, this`ourKing, this`theirKing, this`rooks, this`bishops, this`pawns
      ensures match Fen.PlacePrefix(board, |board|)
              case Ok(st) => error == None && Model() == st.p
              case Err(e) => error == Some(e)
    {
      var row: int := 7;
      var col: nat := 0;
      for i := 0 to |board|
        invariant 0 <= row <= 7
        invariant Fen.PlacePrefix(board, i) == Ok(Fen.Placement(Model(), row, col))
      {
        var c := board[i];
        if c == '/' {
          row := row - 1;
          if row < 0 {
            Fen.PlacePrefixErrStands(board, i + 1, |board|);
            return Some(Fen.TooManyRows);
          }
          col := 0;
          continue;
        }
        if Fen.IsDigit(c) {
          col := col + (c as int - '0' as int);
          continue;
        }
        if col >= 8 {
          Fen.PlacePrefixErrStands(board, i + 1, |board|);
          return Some(Fen.TooManyColumns);
        }
        error := PlaceLetter(At(row, col), c);
        if error.Some? {
          Fen.PlacePrefixErrStands(board, i + 1, |board|);
          return;
        }
        col := col + 1;
      }
      error := None;
    }

    /** The kingside rook search: from file h towards the king, stopping on the first rook; the king's file when none. */
    static method FindKingsideRook(sideRooks: BitBoard, rank: Fen.RowIndex, kingCol: File) returns (right: File)
      ensures var r := Fen.RightmostRook(sideRooks, rank, FILE_H); right == if r > kingCol then r else kingCol
    {
      right := FILE_H;
      while right > kingCol
        invariant kingCol <= right <= FILE_H
        invariant Fen.RightmostRook(sideRooks, rank, FILE_H) == Fen.RightmostRook(sideRooks, rank, right)
        decreases right
      {
        if sideRooks.Get(At(rank, right)) {
          break;
        }
        right := right - 1;
      }
    }

    /** The queenside rook search: from file a towards the king, stopping on the first rook; the king's file when none. */
    static method FindQueensideRook(sideRooks: BitBoard, rank: Fen.RowIndex, kingCol: File) returns (left: File)
      ensures var l := Fen.LeftmostRook(sideRooks, rank, FILE_A); left == if l < kingCol then l else kingCol
    {
      left := FILE_A;
      while left < kingCol
        invariant FILE_A <= left <= kingCol
        invariant Fen.LeftmostRook(sideRooks, rank, FILE_A) == Fen.LeftmostRook(sideRooks, rank, left)
        decreases kingCol - left
      {
        if sideRooks.Get(At(rank, left)) {
          break;
        }
        left := left + 1;
      }
    }

    /** One castling symbol: the right it grants, and the rook file it finds or names. */
    method CastlingSymbol(ch: char, left: File, right: File) returns (error: Option<Fen.FenError>, left': File, right': File)
      modifies this`castlings
      ensures match Fen.CastlingStep(old(Model()), Fen.CastlingScan(old(castlings), left, right), ch)
              case Ok(cs) => error == None && castlings == cs.rights && left' == cs.left && right' == cs.right
              case Err(e) => error == Some(e)
    {
      left', right' := left, right;
      var c := ch;
      var isBlack := Fen.IsLower(c);
      var kingCol := Col(if isBlack then theirKing else ourKing);
      if !isBlack {
        c := Fen.ToLower(c);
      }
      var sideRooks := (if isBlack then theirs else ours).Intersect(rooks.Minus(bishops));
      var rank := if isBlack then RANK_8 else RANK_1;
      if c == 'k' {
        right' := FindKingsideRook(sideRooks, rank, kingCol);
        if right' == kingCol {
          error := Some(Fen.NoKingsideRook);
          return;
        }
        castlings := if isBlack then castlings.(theyCan00 := true) else castlings.(weCan00 := true);
      } else if c == 'q' {
        left' := FindQueensideRook(sideRooks, rank, kingCol);
        if left' == kingCol {
          error := Some(Fen.NoQueensideRook);
          return;
        }
        castlings := if isBlack then castlings.(theyCan000 := true) else castlings.(weCan000 := true);
      } else if 'a' <= c <= 'h' {
        var rookCol := c as int - 'a' as int;
        if rookCol < kingCol {
          left' := rookCol;
          castlings := if isBlack then castlings.(theyCan000 := true) else castlings.(weCan000 := true);
        } else {
          right' := rookCol;
          castlings := if isBlack then castlings.(theyCan00 := true) else castlings.(weCan00 := true);
        }
      } else {
        error := Some(Fen.UnexpectedCastlingSymbol);
        return;
      }
      error := None;
    }

    /**
     * The castling field other than "-", symbol by symbol: each grants a
     * right and may move the left or right rook file; the rook files are
     * stored at the end.
     */
    method ReadCastlingField(field: string) returns (error: Option<Fen.FenError>)
      modifies this`castlings
      ensures match Fen.CastlingPrefix(old(Model()), field, |field|)
              case Ok(cs) => error == None && castlings == cs.rights.(queensideRook := cs.left, kingsideRook := cs.right)
              case Err(e) => error == Some(e)
    {
      ghost var p := Model();
      var left: File, right: File := FILE_A, FILE_H;
      for i := 0 to |field|
        invariant Fen.CastlingPrefix(p, field, i) == Ok(Fen.CastlingScan(castlings, left, right))
      {
        ghost var scan := Fen.CastlingScan(castlings, left, right);
        error, left, right := CastlingSymbol(field[i], left, right);
        assert Fen.CastlingPrefix(p, field, i + 1) == Fen.CastlingStep(p, scan, field[i]);
        if error.Some? {
          Fen.CastlingPrefixErrStands(p, field, i + 1, |field|);
          return;
        }
      }
      castlings := castlings.(queensideRook := left, kingsideRook := right);
      error := None;
    }

    /**
     * SetFromFen: the board cleared, trailing whitespace dropped, the fields
     * read, then the fields interpreted. A rejection returns its error.
     */
    method SetFromFen(fen: string) returns (r: Fen.Parsed<(int, int)>)
      modifies this
      ensures match Fen.SetFromFen(fen)
              case Ok(res) => r == Ok((res.rule50, res.moves)) && Model() == res.pos
              case Err(e) => r == Err(e)
    {
      Clear();
      var fields := Fen.ReadFields(Fen.TrimEnd(fen));
      if fields.Err? {
        return Err(fields.error);
      }
      var f := fields.value;
      var error := Interpret(f);
      if error.Some? {
        return Err(error.value);
      }
      r := Ok((f.rule50, f.moves));
    }

    /** The fields interpreted on a cleared board: placement, castlings, en-passant square, side to move. */
    method Interpret(f: Fen.Fields) returns (error: Option<Fen.FenError>)
      requires Model() == Fen.Blank
      modifies this
      ensures match Fen.FromFields(f)
              case Ok(p) => error == None && Model() == p
              case Err(e) => error == Some(e)
    {
      error := PlaceBoard(f.board);
      if error.Some? {
        return;
      }
      if f.castlings != "-" {
        error := ReadCastlingField(f.castlings);
        if error.Some? {
          return;
        }
      }
      if f.enPassant != "-" {
        var marker := Fen.EnPassantMarker(f.enPassant);
        if marker.Err? {
          return Some(marker.error);
        }
        pawns := pawns.Set(marker.value);
      }
      if f.who == "b" || f.who == "B" {
        Mirror();
      } else if f.who != "w" && f.who != "W" {
        return Some(Fen.BadSideToMove);
      }
    }
  }
}
