/**
 * GenerateKingAttackInfo: which opponent pieces give check, along which
 * lines, and which of our pieces are pinned to our king. The walk along
 * each ray from the king is given here as a function of the position; the
 * imperative walk in the board class is proved to compute it, and the
 * lemmas below say what it means: a check is a family slider that is the
 * first piece on a ray, the attack line is that ray up to and including the
 * checker, and a pinned piece is the only piece between the king and such a
 * slider.
 */
module KingAttacks {
  import opened Squares
  import opened BitBoards
  import opened Rays
  import opened Leapers
  import opened Positions
  import opened Wrappers
  import Attacks

  /**
   * KingAttackInfo (declared in chess/board.h): the squares that block or
   * capture a check, the pinned pieces, and whether two pieces give check.
   */
  datatype KingAttackInfo = KingAttackInfo(attackLines: BitBoard, pinnedPieces: BitBoard, doubleCheck: bool)
  {
    /** in_check: some attack line was recorded. */
    predicate InCheck() {
      !attackLines.Empty()
    }

    predicate IsPinned(sq: Square) {
      pinnedPieces.Get(sq)
    }

    predicate IsOnAttackLine(sq: Square) {
      attackLines.Get(sq)
    }
  }

  /** What the walk along one ray finds. */
  datatype RayOutcome = NoHit | Pin(square: Square) | Check(line: set<Square>)

  /**
   * The walk from step k on, with the squares collected so far and the own
   * piece met so far, if any. A second own piece or an opponent piece of the
   * other family ends the walk with nothing; an opponent slider of the family
   * marks the own piece met as pinned, or else is a check along the squares
   * collected up to and including it.
   */
  function Scan(p: Position, family: BitBoard, d: Direction, k: nat, line: set<Square>, pin: Option<Square>)
    : RayOutcome
    decreases 8 - k
  {
    if k > 7 || !OnBoard(p.ourKing, d, k) then NoHit
    else
      var s := RaySquare(p.ourKing, d, k);
      if p.ours.Get(s) && pin.Some? then NoHit
      else
        var pin' := if p.ours.Get(s) then Some(s) else pin;
        var line' := if pin'.None? then line + {s} else line;
        if p.theirs.Get(s) then
          if family.Get(s) then (if pin'.Some? then Pin(pin'.value) else Check(line'))
          else NoHit
        else Scan(p, family, d, k + 1, line', pin')
  }

  /**
   * One step of the walk over an empty or own square that does not end it:
   * the walk from step k is the walk from step k + 1 with that square
   * recorded (as the pinned candidate if it is ours, on the line otherwise).
   */
  lemma ScanPass(p: Position, family: BitBoard, d: Direction, k: nat, line: set<Square>, pin: Option<Square>, s: Square)
    requires k <= 7 && OnBoard(p.ourKing, d, k) && s == RaySquare(p.ourKing, d, k)
    requires !(p.ours.Get(s) && pin.Some?) && !p.theirs.Get(s)
    ensures var pin' := if p.ours.Get(s) then Some(s) else pin;
      Scan(p, family, d, k, line, pin) == Scan(p, family, d, k + 1, if pin'.None? then line + {s} else line, pin')
  {
  }

  /** The walk along one ray from the king. */
  function ScanRay(p: Position, family: BitBoard, d: Direction): RayOutcome {
    Scan(p, family, d, 1, {}, None)
  }

  /** What the walks along several rays add up to. */
  datatype Summary = Summary(lines: set<Square>, pinned: set<Square>, count: nat)

  /** The walks along the rays of dirs, in order, added up. */
  function ScanAll(p: Position, family: BitBoard, dirs: seq<Direction>): Summary
    decreases |dirs|
  {
    if dirs == [] then Summary({}, {}, 0)
    else
      var s := ScanAll(p, family, dirs[..|dirs| - 1]);
      match ScanRay(p, family, dirs[|dirs| - 1])
      case NoHit => s
      case Pin(x) => s.(pinned := s.pinned + {x})
      case Check(l) => Summary(s.lines + l, s.pinned, s.count + 1)
  }

  /** Whether a slider of the family stands on the empty-board lines from the king (kRookAttacks/kBishopAttacks test). */
  predicate FamilyInReach(p: Position, family: BitBoard, dirs: seq<Direction>) {
    SliderAttacks(p.ourKing, dirs, {}) * (p.theirs.squares * family.squares) != {}
  }

  /** The rook and bishop part: the walks happen only when a slider of the family is in reach. */
  function SliderPart(p: Position, family: BitBoard, dirs: seq<Direction>): Summary {
    if FamilyInReach(p, family, dirs) then ScanAll(p, family, dirs) else Summary({}, {}, 0)
  }

  /** The opponent pawns that attack the king. */
  function AttackingPawns(p: Position): set<Square> {
    PawnAttacks(p.ourKing) * (p.theirs.squares * p.pawns.squares)
  }

  /** The opponent knights that attack the king. */
  function AttackingKnights(p: Position): set<Square> {
    KnightAttacks(p.ourKing) *
      (p.theirs.squares - {p.theirKing} - p.rooks.squares - p.bishops.squares - p.Pawns().squares)
  }

  /** The number of checking pieces the source counts: at most one pawn and one knight. */
  function AttackerCount(p: Position): nat {
    SliderPart(p, p.rooks, RookDirections).count + SliderPart(p, p.bishops, BishopDirections).count +
    (if AttackingPawns(p) != {} then 1 else 0) + (if AttackingKnights(p) != {} then 1 else 0)
  }

  /** The KingAttackInfo GenerateKingAttackInfo computes. */
  function KingAttackInfoOf(p: Position): KingAttackInfo {
    var r := SliderPart(p, p.rooks, RookDirections);
    var b := SliderPart(p, p.bishops, BishopDirections);
    KingAttackInfo(BitBoard(r.lines + b.lines + AttackingPawns(p) + AttackingKnights(p)),
                   BitBoard(r.pinned + b.pinned),
                   AttackerCount(p) == 2)
  }

  // ----- What one walk means -----

  /** The king's ray, from step k on, has a family slider of the opponent as its first piece. */
  ghost predicate CheckerFrom(p: Position, family: BitBoard, d: Direction, k: nat) {
    exists j :: k <= j && OnBoard(p.ourKing, d, j) &&
      p.theirs.Get(RaySquare(p.ourKing, d, j)) && family.Get(RaySquare(p.ourKing, d, j)) &&
      ClearBetween(p.ourKing, d, p.Occupied().squares, k, j)
  }

  /** Once an own piece has been met, the walk can no longer report a check. */
  lemma {:induction false} NoCheckAfterPin(p: Position, family: BitBoard, d: Direction, k: nat, line: set<Square>, x: Square)
    ensures !Scan(p, family, d, k, line, Some(x)).Check?
    decreases 8 - k
  {
    if k <= 7 && OnBoard(p.ourKing, d, k) {
      var s := RaySquare(p.ourKing, d, k);
      if !p.ours.Get(s) && !p.theirs.Get(s) {
        NoCheckAfterPin(p, family, d, k + 1, line, x);
      }
    }
  }

  /**
   * With no own piece met yet, the walk reports a check exactly when the
   * first piece on the rest of the ray is a family slider of the opponent.
   */
  lemma {:induction false} ScanCheck(p: Position, family: BitBoard, d: Direction, k: nat, line: set<Square>)
    requires SidesDisjoint(p) && k >= 1
    ensures Scan(p, family, d, k, line, None).Check? <==> CheckerFrom(p, family, d, k)
    decreases 8 - k
  {
    var occ := p.Occupied().squares;
    if k > 7 || !OnBoard(p.ourKing, d, k) {
      OnBoardFrom(p.ourKing, d, k);
    } else {
      var s := RaySquare(p.ourKing, d, k);
      if p.ours.Get(s) || p.theirs.Get(s) {
        if p.ours.Get(s) {
          NoCheckAfterPin(p, family, d, k + 1, line, s);
        }
        OccupiedStops(p, family, d, k);
      } else {
        ScanCheck(p, family, d, k + 1, line + {s});
        EmptyPasses(p, family, d, k);
      }
    }
  }

  /** An occupied square at step k: a checker from k on can only be that square. */
  lemma OccupiedStops(p: Position, family: BitBoard, d: Direction, k: nat)
    requires SidesDisjoint(p) && k >= 1 && OnBoard(p.ourKing, d, k)
    requires p.Occupied().Get(RaySquare(p.ourKing, d, k))
    ensures CheckerFrom(p, family, d, k) <==>
      p.theirs.Get(RaySquare(p.ourKing, d, k)) && family.Get(RaySquare(p.ourKing, d, k))
  {
    var occ := p.Occupied().squares;
    if CheckerFrom(p, family, d, k) {
      var j :| k <= j && OnBoard(p.ourKing, d, j) && p.theirs.Get(RaySquare(p.ourKing, d, j)) &&
        family.Get(RaySquare(p.ourKing, d, j)) && ClearBetween(p.ourKing, d, occ, k, j);
      if j != k {
        assert false;
      }
    }
    assert ClearBetween(p.ourKing, d, occ, k, k);
  }

  /** An empty square at step k: a checker from k on is a checker from k + 1 on. */
  lemma EmptyPasses(p: Position, family: BitBoard, d: Direction, k: nat)
    requires k >= 1 && OnBoard(p.ourKing, d, k)
    requires !p.Occupied().Get(RaySquare(p.ourKing, d, k))
    ensures CheckerFrom(p, family, d, k) <==> CheckerFrom(p, family, d, k + 1)
  {
    var occ := p.Occupied().squares;
    if CheckerFrom(p, family, d, k) {
      var j :| k <= j && OnBoard(p.ourKing, d, j) && p.theirs.Get(RaySquare(p.ourKing, d, j)) &&
        family.Get(RaySquare(p.ourKing, d, j)) && ClearBetween(p.ourKing, d, occ, k, j);
      assert j != k;
      ClearBetweenStep(p.ourKing, d, occ, k, j);
    }
    if CheckerFrom(p, family, d, k + 1) {
      var j :| k + 1 <= j && OnBoard(p.ourKing, d, j) && p.theirs.Get(RaySquare(p.ourKing, d, j)) &&
        family.Get(RaySquare(p.ourKing, d, j)) && ClearBetween(p.ourKing, d, occ, k + 1, j);
      ClearBetweenStep(p.ourKing, d, occ, k, j);
    }
  }

  /**
   * A check reported with no own piece met yet lists the squares collected
   * plus the rest of the ray, up to and including the checker.
   */
  lemma {:induction false} ScanCheckLine(p: Position, family: BitBoard, d: Direction, k: nat, line: set<Square>)
    requires k >= 1
    ensures Scan(p, family, d, k, line, None).Check? ==>
      Scan(p, family, d, k, line, None).line == line + RayFrom(p.ourKing, d, p.Occupied().squares, k)
    decreases 8 - k
  {
    var occ := p.Occupied().squares;
    if k <= 7 && OnBoard(p.ourKing, d, k) {
      var s := RaySquare(p.ourKing, d, k);
      if !p.ours.Get(s) && !p.theirs.Get(s) {
        ScanCheckLine(p, family, d, k + 1, line + {s});
        assert RayFrom(p.ourKing, d, occ, k) == {s} + RayFrom(p.ourKing, d, occ, k + 1);
      } else if !p.ours.Get(s) {
        assert RayFrom(p.ourKing, d, occ, k) == {s};
      } else {
        NoCheckAfterPin(p, family, d, k + 1, line, s);
      }
    }
  }

  /**
   * A walk along a ray reports a check exactly when the first piece on the
   * ray is an opponent slider of the family, and its attack line is the
   * whole ray up to that slider (so it holds the checker's square).
   */
  lemma RayCheckMeaning(p: Position, family: BitBoard, d: Direction)
    requires SidesDisjoint(p)
    ensures ScanRay(p, family, d).Check? <==>
      RayFrom(p.ourKing, d, p.Occupied().squares, 1) * (p.theirs.squares * family.squares) != {}
    ensures ScanRay(p, family, d).Check? ==> ScanRay(p, family, d).line == RayFrom(p.ourKing, d, p.Occupied().squares, 1)
  {
    var occ := p.Occupied().squares;
    ScanCheck(p, family, d, 1, {});
    ScanCheckLine(p, family, d, 1, {});
    if CheckerFrom(p, family, d, 1) {
      var j :| 1 <= j && OnBoard(p.ourKing, d, j) && p.theirs.Get(RaySquare(p.ourKing, d, j)) &&
        family.Get(RaySquare(p.ourKing, d, j)) && ClearBetween(p.ourKing, d, occ, 1, j);
      RayFromMeaning(p.ourKing, d, occ, 1, RaySquare(p.ourKing, d, j));
      assert RaySquare(p.ourKing, d, j) in RayFrom(p.ourKing, d, occ, 1) * (p.theirs.squares * family.squares);
    }
    if RayFrom(p.ourKing, d, occ, 1) * (p.theirs.squares * family.squares) != {} {
      var x :| x in RayFrom(p.ourKing, d, occ, 1) * (p.theirs.squares * family.squares);
      RayFromMeaning(p.ourKing, d, occ, 1, x);
      assert CheckerFrom(p, family, d, 1);
    }
  }

  /**
   * With no own piece met yet, a reported pin is an own piece on the rest of
   * the ray with nothing before it, behind which the first piece is an
   * opponent slider of the family.
   */
  ghost predicate PinnedFrom(p: Position, family: BitBoard, d: Direction, k: nat, x: Square) {
    exists i, j :: k <= i < j && OnBoard(p.ourKing, d, j) && OnBoard(p.ourKing, d, i) &&
      x == RaySquare(p.ourKing, d, i) && p.ours.Get(x) &&
      ClearBetween(p.ourKing, d, p.Occupied().squares, k, i) &&
      ClearBetween(p.ourKing, d, p.Occupied().squares, i + 1, j) &&
      p.theirs.Get(RaySquare(p.ourKing, d, j)) && family.Get(RaySquare(p.ourKing, d, j))
  }

  /** After an own piece on x has been met, a reported pin is x, with a family slider as the next piece. */
  lemma {:induction false} ScanPinAfter(p: Position, family: BitBoard, d: Direction, k: nat, line: set<Square>,
                                        i: nat, x: Square)
    requires SidesDisjoint(p) && 1 <= i < k
    requires OnBoard(p.ourKing, d, i) && x == RaySquare(p.ourKing, d, i) && p.ours.Get(x)
    requires ClearBetween(p.ourKing, d, p.Occupied().squares, i + 1, k)
    ensures Scan(p, family, d, k, line, Some(x)).Pin? ==>
      Scan(p, family, d, k, line, Some(x)).square == x &&
      exists j :: k <= j && OnBoard(p.ourKing, d, j) && ClearBetween(p.ourKing, d, p.Occupied().squares, i + 1, j) &&
        p.theirs.Get(RaySquare(p.ourKing, d, j)) && family.Get(RaySquare(p.ourKing, d, j))
    decreases 8 - k
  {
    var occ := p.Occupied().squares;
    if k <= 7 && OnBoard(p.ourKing, d, k) {
      var s := RaySquare(p.ourKing, d, k);
      if !p.ours.Get(s) && !p.theirs.Get(s) {
        assert ClearBetween(p.ourKing, d, occ, i + 1, k + 1);
        ScanPinAfter(p, family, d, k + 1, line, i, x);
      } else if !p.ours.Get(s) && p.theirs.Get(s) && family.Get(s) {
        assert ClearBetween(p.ourKing, d, occ, i + 1, k);
      }
    }
  }

  /** An own piece on step k, with a family slider as the next piece behind it, is pinned. */
  lemma PinnedFromOwn(p: Position, family: BitBoard, d: Direction, k: nat, s: Square, j: nat)
    requires OnBoard(p.ourKing, d, k) && s == RaySquare(p.ourKing, d, k) && p.ours.Get(s)
    requires k + 1 <= j && OnBoard(p.ourKing, d, j) && ClearBetween(p.ourKing, d, p.Occupied().squares, k + 1, j)
    requires p.theirs.Get(RaySquare(p.ourKing, d, j)) && family.Get(RaySquare(p.ourKing, d, j))
    ensures PinnedFrom(p, family, d, k, s)
  {
    assert ClearBetween(p.ourKing, d, p.Occupied().squares, k, k);
  }

  /** A pin found behind an empty step k is a pin from step k as well. */
  lemma PinnedFromEmpty(p: Position, family: BitBoard, d: Direction, k: nat, x: Square)
    requires OnBoard(p.ourKing, d, k) && RaySquare(p.ourKing, d, k) !in p.Occupied().squares
    requires PinnedFrom(p, family, d, k + 1, x)
    ensures PinnedFrom(p, family, d, k, x)
  {
    var occ := p.Occupied().squares;
    var i, j :| k + 1 <= i < j && OnBoard(p.ourKing, d, j) && OnBoard(p.ourKing, d, i) &&
      x == RaySquare(p.ourKing, d, i) && p.ours.Get(x) &&
      ClearBetween(p.ourKing, d, occ, k + 1, i) && ClearBetween(p.ourKing, d, occ, i + 1, j) &&
      p.theirs.Get(RaySquare(p.ourKing, d, j)) && family.Get(RaySquare(p.ourKing, d, j));
    ClearBetweenStep(p.ourKing, d, occ, k, i);
  }

  /** With no own piece met yet, a reported pin satisfies PinnedFrom. */
  lemma {:induction false} ScanPin(p: Position, family: BitBoard, d: Direction, k: nat, line: set<Square>)
    requires SidesDisjoint(p) && k >= 1
    ensures Scan(p, family, d, k, line, None).Pin? ==>
      PinnedFrom(p, family, d, k, Scan(p, family, d, k, line, None).square)
    decreases 8 - k
  {
    var occ := p.Occupied().squares;
    if k <= 7 && OnBoard(p.ourKing, d, k) {
      var s := RaySquare(p.ourKing, d, k);
      if p.ours.Get(s) {
        assert !p.theirs.Get(s);
        assert ClearBetween(p.ourKing, d, occ, k + 1, k + 1);
        ScanPinAfter(p, family, d, k + 1, line, k, s);
        assert Scan(p, family, d, k, line, None) == Scan(p, family, d, k + 1, line, Some(s));
        if Scan(p, family, d, k + 1, line, Some(s)).Pin? {
          var j :| k + 1 <= j && OnBoard(p.ourKing, d, j) && ClearBetween(p.ourKing, d, occ, k + 1, j) &&
            p.theirs.Get(RaySquare(p.ourKing, d, j)) && family.Get(RaySquare(p.ourKing, d, j));
          PinnedFromOwn(p, family, d, k, s, j);
        }
      } else if !p.theirs.Get(s) {
        ScanPin(p, family, d, k + 1, line + {s});
        assert Scan(p, family, d, k, line, None) == Scan(p, family, d, k + 1, line + {s}, None);
        assert s !in occ;
        if Scan(p, family, d, k + 1, line + {s}, None).Pin? {
          PinnedFromEmpty(p, family, d, k, Scan(p, family, d, k + 1, line + {s}, None).square);
        }
      }
    }
  }


  /**
   * A piece marked pinned by the walk along a ray is an own piece, the only
   * piece between the king and an opponent slider of the family.
   */
  lemma RayPinMeaning(p: Position, family: BitBoard, d: Direction)
    requires SidesDisjoint(p)
    ensures ScanRay(p, family, d).Pin? ==> PinnedFrom(p, family, d, 1, ScanRay(p, family, d).square)
  {
    ScanPin(p, family, d, 1, {});
  }

  // ----- What the walks add up to -----

  /**
   * The walks along several rays: the attack lines lie on those rays, hold
   * every opponent slider of the family that is the first piece on one of
   * them, and are empty exactly when there is none; every pinned piece is
   * pinned along one of the rays.
   */
  lemma {:induction false} ScanAllMeaning(p: Position, family: BitBoard, dirs: seq<Direction>)
    requires SidesDisjoint(p)
    ensures ScanAll(p, family, dirs).lines <= SliderAttacks(p.ourKing, dirs, p.Occupied().squares)
    ensures SliderAttacks(p.ourKing, dirs, p.Occupied().squares) * (p.theirs.squares * family.squares)
      <= ScanAll(p, family, dirs).lines
    ensures ScanAll(p, family, dirs).lines == {} <==>
      SliderAttacks(p.ourKing, dirs, p.Occupied().squares) * (p.theirs.squares * family.squares) == {}
    ensures ScanAll(p, family, dirs).count == 0 <==> ScanAll(p, family, dirs).lines == {}
    ensures forall x :: x in ScanAll(p, family, dirs).pinned ==>
      exists i :: 0 <= i < |dirs| && PinnedFrom(p, family, dirs[i], 1, x)
  {
    if dirs != [] {
      var init := dirs[..|dirs| - 1];
      var d := dirs[|dirs| - 1];
      var occ := p.Occupied().squares;
      var hits := p.theirs.squares * family.squares;
      ScanAllMeaning(p, family, init);
      RayCheckMeaning(p, family, d);
      RayPinMeaning(p, family, d);
      var s := ScanAll(p, family, init);
      forall x | x in ScanAll(p, family, dirs).pinned
        ensures exists i :: 0 <= i < |dirs| && PinnedFrom(p, family, dirs[i], 1, x)
      {
        if x in s.pinned {
          var i :| 0 <= i < |init| && PinnedFrom(p, family, init[i], 1, x);
          assert dirs[i] == init[i];
        } else {
          assert PinnedFrom(p, family, dirs[|dirs| - 1], 1, x);
        }
      }
      assert SliderAttacks(p.ourKing, dirs, occ) * hits ==
        SliderAttacks(p.ourKing, init, occ) * hits + RayFrom(p.ourKing, d, occ, 1) * hits;
    }
  }

  /** A family slider off the empty-board lines from the king is off each of those rays. */
  lemma OffReachRay(p: Position, family: BitBoard, dirs: seq<Direction>, i: int)
    requires 0 <= i < |dirs| && !FamilyInReach(p, family, dirs)
    ensures RayFrom(p.ourKing, dirs[i], {}, 1) * (p.theirs.squares * family.squares) == {}
  {
    RayInSliderAttacks(p.ourKing, dirs, {}, i);
  }

  /** With no family slider on the empty-board ray, the walk finds no check. */
  lemma NoCheckOffRay(p: Position, family: BitBoard, d: Direction)
    requires SidesDisjoint(p)
    requires RayFrom(p.ourKing, d, {}, 1) * (p.theirs.squares * family.squares) == {}
    ensures !ScanRay(p, family, d).Check?
  {
    RayCheckMeaning(p, family, d);
    RayFromWithinEmpty(p.ourKing, d, p.Occupied().squares, 1);
  }

  /** With no family slider on the empty-board ray, nothing is pinned along it. */
  lemma NoPinnerOffRay(p: Position, family: BitBoard, d: Direction, x: Square)
    requires RayFrom(p.ourKing, d, {}, 1) * (p.theirs.squares * family.squares) == {}
    ensures !PinnedFrom(p, family, d, 1, x)
  {
    if PinnedFrom(p, family, d, 1, x) {
      var a, j :| 1 <= a < j && OnBoard(p.ourKing, d, j) && OnBoard(p.ourKing, d, a) &&
        x == RaySquare(p.ourKing, d, a) && p.ours.Get(x) &&
        ClearBetween(p.ourKing, d, p.Occupied().squares, 1, a) &&
        ClearBetween(p.ourKing, d, p.Occupied().squares, a + 1, j) &&
        p.theirs.Get(RaySquare(p.ourKing, d, j)) && family.Get(RaySquare(p.ourKing, d, j));
      OnEmptyRay(p.ourKing, d, j, p.theirs.squares * family.squares);
      assert false;
    }
  }

  /** With no family slider on the empty-board ray, the walk finds no pin. */
  lemma NoPinOffRay(p: Position, family: BitBoard, d: Direction)
    requires SidesDisjoint(p)
    requires RayFrom(p.ourKing, d, {}, 1) * (p.theirs.squares * family.squares) == {}
    ensures !ScanRay(p, family, d).Pin?
  {
    RayPinMeaning(p, family, d);
    if ScanRay(p, family, d).Pin? {
      NoPinnerOffRay(p, family, d, ScanRay(p, family, d).square);
    }
  }

  /** A family slider off the empty-board lines from the king leaves every walk with nothing. */
  lemma NotInReachNoHit(p: Position, family: BitBoard, dirs: seq<Direction>, i: int)
    requires SidesDisjoint(p) && 0 <= i < |dirs|
    requires !FamilyInReach(p, family, dirs)
    ensures ScanRay(p, family, dirs[i]) == NoHit
  {
    OffReachRay(p, family, dirs, i);
    NoCheckOffRay(p, family, dirs[i]);
    NoPinOffRay(p, family, dirs[i]);
  }

  /** Walks that all find nothing add up to nothing. */
  lemma {:induction false} ScanAllNothing(p: Position, family: BitBoard, dirs: seq<Direction>)
    requires forall i :: 0 <= i < |dirs| ==> ScanRay(p, family, dirs[i]) == NoHit
    ensures ScanAll(p, family, dirs) == Summary({}, {}, 0)
  {
    if dirs != [] {
      var init := dirs[..|dirs| - 1];
      forall i | 0 <= i < |init| ensures ScanRay(p, family, init[i]) == NoHit {
        assert init[i] == dirs[i];
      }
      ScanAllNothing(p, family, init);
      assert ScanRay(p, family, dirs[|dirs| - 1]) == NoHit;
    }
  }

  /**
   * The kRookAttacks / kBishopAttacks test before the walks is only a
   * shortcut: skipping the walks loses no check and no pin.
   */
  lemma ShortcutSound(p: Position, family: BitBoard, dirs: seq<Direction>)
    requires SidesDisjoint(p)
    ensures SliderPart(p, family, dirs) == ScanAll(p, family, dirs)
  {
    if !FamilyInReach(p, family, dirs) {
      forall i | 0 <= i < |dirs| ensures ScanRay(p, family, dirs[i]) == NoHit {
        NotInReachNoHit(p, family, dirs, i);
      }
      ScanAllNothing(p, family, dirs);
    }
  }

  /**
   * in_check agrees with the reference attack definition: the attack lines
   * are non-empty exactly when a piece of the opponent (other than the king,
   * which cannot give check) reaches our king.
   */
  lemma InCheckMeaning(p: Position)
    requires SidesDisjoint(p)
    ensures KingAttackInfoOf(p).InCheck() <==> Attacks.AttackedByPiece(p, p.ourKing)
  {
    ShortcutSound(p, p.rooks, RookDirections);
    ShortcutSound(p, p.bishops, BishopDirections);
    ScanAllMeaning(p, p.rooks, RookDirections);
    ScanAllMeaning(p, p.bishops, BishopDirections);
    Attacks.AttackedFromTarget(p, p.ourKing);
    var info := KingAttackInfoOf(p);
    assert info.InCheck() <==> info.attackLines.squares != {};
  }

  /** Every piece of the opponent that reaches our king lies on the attack lines. */
  lemma CheckersOnAttackLines(p: Position, x: Square)
    requires SidesDisjoint(p)
    requires p.theirs.Get(x) && Attacks.PieceAttacks(p, x, p.ourKing)
    ensures KingAttackInfoOf(p).IsOnAttackLine(x)
  {
    var occ := p.Occupied().squares;
    ShortcutSound(p, p.rooks, RookDirections);
    ShortcutSound(p, p.bishops, BishopDirections);
    ScanAllMeaning(p, p.rooks, RookDirections);
    ScanAllMeaning(p, p.bishops, BishopDirections);
    if p.rooks.Get(x) && p.ourKing in SliderAttacks(x, RookDirections, occ) {
      SliderSymmetric(x, RookDirections, occ, p.ourKing);
    } else if p.bishops.Get(x) && p.ourKing in SliderAttacks(x, BishopDirections, occ) {
      SliderSymmetric(x, BishopDirections, occ, p.ourKing);
    } else if p.pawns.Get(x) && Attacks.PawnTakes(x, p.ourKing) {
      Attacks.PawnAttacksMeaning(x, p.ourKing);
    } else {
      KnightAttacksSymmetric(x, p.ourKing);
    }
  }

  /**
   * Every pinned piece is an own piece standing alone between our king and an
   * opponent rook or queen on a line, or an opponent bishop or queen on a
   * diagonal.
   */
  lemma PinnedMeaning(p: Position, x: Square)
    requires SidesDisjoint(p)
    requires KingAttackInfoOf(p).IsPinned(x)
    ensures (exists i :: 0 <= i < 4 && PinnedFrom(p, p.rooks, RookDirections[i], 1, x)) ||
            (exists i :: 0 <= i < 4 && PinnedFrom(p, p.bishops, BishopDirections[i], 1, x))
  {
    ShortcutSound(p, p.rooks, RookDirections);
    ShortcutSound(p, p.bishops, BishopDirections);
    ScanAllMeaning(p, p.rooks, RookDirections);
    ScanAllMeaning(p, p.bishops, BishopDirections);
  }

  /** double_check_: exactly two checking pieces were counted; a double check is a check. */
  lemma DoubleCheckIsCheck(p: Position)
    requires SidesDisjoint(p)
    ensures KingAttackInfoOf(p).doubleCheck ==> KingAttackInfoOf(p).InCheck()
  {
    ShortcutSound(p, p.rooks, RookDirections);
    ShortcutSound(p, p.bishops, BishopDirections);
    ScanAllMeaning(p, p.rooks, RookDirections);
    ScanAllMeaning(p, p.bishops, BishopDirections);
    var info := KingAttackInfoOf(p);
    if info.doubleCheck {
      var r := SliderPart(p, p.rooks, RookDirections);
      var b := SliderPart(p, p.bishops, BishopDirections);
      assert r.lines != {} || b.lines != {} || AttackingPawns(p) != {} || AttackingKnights(p) != {};
      assert info.attackLines.squares != {};
    }
  }

  // ----- Every pin is found -----

  /** Behind an own piece, clear squares up to a family slider of the opponent make the walk report the pin. */
  lemma {:induction false} ScanAfterOwnFindsPin(p: Position, family: BitBoard, d: Direction, k: nat, line: set<Square>,
                                                x: Square, j: nat)
    requires SidesDisjoint(p) && k <= j && OnBoard(p.ourKing, d, j)
    requires ClearBetween(p.ourKing, d, p.Occupied().squares, k, j)
    requires p.theirs.Get(RaySquare(p.ourKing, d, j)) && family.Get(RaySquare(p.ourKing, d, j))
    ensures Scan(p, family, d, k, line, Some(x)) == Pin(x)
    decreases j - k
  {
    OnBoardBound(p.ourKing, d, j);
    OnBoardPrefix(p.ourKing, d, k, j);
    if k < j {
      ClearBetweenStep(p.ourKing, d, p.Occupied().squares, k, j);
      ScanAfterOwnFindsPin(p, family, d, k + 1, line, x, j);
    }
  }

  /**
   * An own piece x at step i, with clear squares from step k up to it and
   * from it up to a family slider of the opponent at step j: the walk from
   * step k reports x as pinned.
   */
  lemma {:induction false} ScanFindsPinAt(p: Position, family: BitBoard, d: Direction, k: nat, line: set<Square>,
                                          x: Square, i: nat, j: nat)
    requires SidesDisjoint(p) && 1 <= k <= i < j && OnBoard(p.ourKing, d, j) && OnBoard(p.ourKing, d, i)
    requires x == RaySquare(p.ourKing, d, i) && p.ours.Get(x)
    requires ClearBetween(p.ourKing, d, p.Occupied().squares, k, i)
    requires ClearBetween(p.ourKing, d, p.Occupied().squares, i + 1, j)
    requires p.theirs.Get(RaySquare(p.ourKing, d, j)) && family.Get(RaySquare(p.ourKing, d, j))
    ensures Scan(p, family, d, k, line, None) == Pin(x)
    decreases i - k
  {
    if k == i {
      ScanMeetsPinned(p, family, d, k, line, x, j);
    } else {
      OnBoardBound(p.ourKing, d, j);
      ClearBetweenStep(p.ourKing, d, p.Occupied().squares, k, i);
      var s := RaySquare(p.ourKing, d, k);
      assert !p.ours.Get(s) && !p.theirs.Get(s);
      ScanPass(p, family, d, k, line, None, s);
      ScanFindsPinAt(p, family, d, k + 1, line + {s}, x, i, j);
    }
  }

  /** The walk meeting an own piece x at step k, with clear squares behind it up to a family slider, reports x. */
  lemma ScanMeetsPinned(p: Position, family: BitBoard, d: Direction, k: nat, line: set<Square>, x: Square, j: nat)
    requires SidesDisjoint(p) && 1 <= k < j && OnBoard(p.ourKing, d, j) && OnBoard(p.ourKing, d, k)
    requires x == RaySquare(p.ourKing, d, k) && p.ours.Get(x)
    requires ClearBetween(p.ourKing, d, p.Occupied().squares, k + 1, j)
    requires p.theirs.Get(RaySquare(p.ourKing, d, j)) && family.Get(RaySquare(p.ourKing, d, j))
    ensures Scan(p, family, d, k, line, None) == Pin(x)
  {
    OnBoardBound(p.ourKing, d, j);
    assert !p.theirs.Get(x);
    ScanPass(p, family, d, k, line, None, x);
    ScanAfterOwnFindsPin(p, family, d, k + 1, line, x, j);
  }

  /** A pin from step k on is what the walk from step k reports, whatever line it has collected. */
  lemma ScanFindsPin(p: Position, family: BitBoard, d: Direction, k: nat, line: set<Square>, x: Square)
    requires SidesDisjoint(p) && k >= 1 && PinnedFrom(p, family, d, k, x)
    ensures Scan(p, family, d, k, line, None) == Pin(x)
  {
    var i, j :| k <= i < j && OnBoard(p.ourKing, d, j) && OnBoard(p.ourKing, d, i) &&
      x == RaySquare(p.ourKing, d, i) && p.ours.Get(x) &&
      ClearBetween(p.ourKing, d, p.Occupied().squares, k, i) &&
      ClearBetween(p.ourKing, d, p.Occupied().squares, i + 1, j) &&
      p.theirs.Get(RaySquare(p.ourKing, d, j)) && family.Get(RaySquare(p.ourKing, d, j));
    ScanFindsPinAt(p, family, d, k, line, x, i, j);
  }

  /** A pin reported by one of the walks is among the pinned squares they add up to. */
  lemma {:induction false} ScanAllPinnedComplete(p: Position, family: BitBoard, dirs: seq<Direction>, i: int, x: Square)
    requires 0 <= i < |dirs| && ScanRay(p, family, dirs[i]) == Pin(x)
    ensures x in ScanAll(p, family, dirs).pinned
    decreases |dirs|
  {
    if i < |dirs| - 1 {
      ScanAllPinnedComplete(p, family, dirs[..|dirs| - 1], i, x);
    }
  }

  /**
   * The converse of PinnedMeaning: an own piece standing alone between our
   * king and an opponent rook or queen on a line, or an opponent bishop or
   * queen on a diagonal, is recorded as pinned.
   */
  lemma PinRecorded(p: Position, x: Square, i: int)
    requires SidesDisjoint(p) && 0 <= i < 4
    requires PinnedFrom(p, p.rooks, RookDirections[i], 1, x) || PinnedFrom(p, p.bishops, BishopDirections[i], 1, x)
    ensures KingAttackInfoOf(p).IsPinned(x)
  {
    ShortcutSound(p, p.rooks, RookDirections);
    ShortcutSound(p, p.bishops, BishopDirections);
    if PinnedFrom(p, p.rooks, RookDirections[i], 1, x) {
      ScanFindsPin(p, p.rooks, RookDirections[i], 1, {}, x);
      ScanAllPinnedComplete(p, p.rooks, RookDirections, i, x);
    } else {
      ScanFindsPin(p, p.bishops, BishopDirections[i], 1, {}, x);
      ScanAllPinnedComplete(p, p.bishops, BishopDirections, i, x);
    }
  }

  /** A square of the added-up lines lies on the line of one walk that reported a check. */
  lemma {:induction false} ScanAllLinesWitness(p: Position, family: BitBoard, dirs: seq<Direction>, y: Square)
    returns (i: int)
    requires y in ScanAll(p, family, dirs).lines
    ensures 0 <= i < |dirs| && ScanRay(p, family, dirs[i]).Check? && y in ScanRay(p, family, dirs[i]).line
    decreases |dirs|
  {
    var last := ScanRay(p, family, dirs[|dirs| - 1]);
    if last.Check? && y in last.line {
      i := |dirs| - 1;
    } else {
      i := ScanAllLinesWitness(p, family, dirs[..|dirs| - 1], y);
    }
  }
}
