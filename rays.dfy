/**
 * Sliding-piece geometry on the 8x8 plane: directions, the squares a ray
 * passes, the attack set of a ray for a given occupancy (the ray includes the
 * first occupied square and stops there) and the relevant-occupancy mask used
 * to index the attack tables (the ray without its last, edge square).
 */
module Rays {
  import opened Squares

  datatype Delta = Delta(dRow: int, dCol: int)

  /** A unit step: each component in -1..1, not both zero. */
  type Direction = d: Delta | -1 <= d.dRow <= 1 && -1 <= d.dCol <= 1 && (d.dRow != 0 || d.dCol != 0)
    witness Delta(1, 0)

  /** kRookDirections, first two components of each entry. */
  const RookDirections: seq<Direction> := [Delta(1, 0), Delta(-1, 0), Delta(0, 1), Delta(0, -1)]

  /** kBishopDirections, the four planar entries. */
  const BishopDirections: seq<Direction> := [Delta(1, 1), Delta(-1, 1), Delta(1, -1), Delta(-1, -1)]

  /** k steps of a unit component x, i.e. k * x without multiplying. */
  function Shift(k: int, x: int): int {
    if x > 0 then k else if x < 0 then -k else 0
  }

  /** Whether k steps from sq along d stay on the board. */
  predicate OnBoard(sq: Square, d: Direction, k: int) {
    IsValid(Row(sq) + Shift(k, d.dRow), Col(sq) + Shift(k, d.dCol))
  }

  /** The square k steps from sq along d. */
  function RaySquare(sq: Square, d: Direction, k: int): (s: Square)
    requires OnBoard(sq, d, k)
    ensures Row(s) == Row(sq) + Shift(k, d.dRow) && Col(s) == Col(sq) + Shift(k, d.dCol)
  {
    At(Row(sq) + Shift(k, d.dRow), Col(sq) + Shift(k, d.dCol))
  }

  /** A ray leaves the board after at most seven steps. */
  lemma OnBoardBound(sq: Square, d: Direction, k: int)
    requires k >= 0 && OnBoard(sq, d, k)
    ensures k <= 7
  {
  }

  /** The squares before an on-board square of a ray are on the board too. */
  lemma OnBoardPrefix(sq: Square, d: Direction, j: int, k: int)
    requires 0 <= j <= k && OnBoard(sq, d, k)
    ensures OnBoard(sq, d, j)
  {
  }

  /** Once a ray has left the board (or passed step 7) it stays off it. */
  lemma OnBoardFrom(sq: Square, d: Direction, k: int)
    requires k >= 0
    ensures forall j :: k <= j && OnBoard(sq, d, j) ==> k <= 7 && OnBoard(sq, d, k)
  {
    forall j | k <= j && OnBoard(sq, d, j)
      ensures k <= 7 && OnBoard(sq, d, k)
    {
      OnBoardBound(sq, d, j);
      OnBoardPrefix(sq, d, k, j);
    }
  }

  /** Different step counts reach different squares. */
  lemma RaySquareInjective(sq: Square, d: Direction, j: int, k: int)
    requires OnBoard(sq, d, j) && OnBoard(sq, d, k)
    requires RaySquare(sq, d, j) == RaySquare(sq, d, k)
    ensures j == k
  {
  }

  /** Zero steps is the origin itself. */
  lemma RaySquareZero(sq: Square, d: Direction)
    ensures OnBoard(sq, d, 0) && RaySquare(sq, d, 0) == sq
  {
    SquareFromCoords(RaySquare(sq, d, 0), sq);
  }

  /**
   * The attack loop of BuildAttacksTable for one direction, from step k on:
   * add the next square while it is on the board, stop after adding an
   * occupied one.
   */
  function RayFrom(sq: Square, d: Direction, occ: set<Square>, k: nat): set<Square>
    decreases 8 - k
  {
    if k > 7 || !OnBoard(sq, d, k) then {}
    else {RaySquare(sq, d, k)} + (if RaySquare(sq, d, k) in occ then {} else RayFrom(sq, d, occ, k + 1))
  }

  /** No square strictly between step lo and step k of the ray is occupied. */
  predicate ClearBetween(sq: Square, d: Direction, occ: set<Square>, lo: int, k: int) {
    forall j :: lo <= j < k ==> OnBoard(sq, d, j) && RaySquare(sq, d, j) !in occ
  }

  /**
   * The ray from step lo on is exactly the on-board squares whose earlier
   * squares (from lo) are all empty: the first occupied square is included,
   * nothing beyond it.
   */
  lemma RayFromMeaning(sq: Square, d: Direction, occ: set<Square>, lo: nat, x: Square)
    requires lo >= 1
    ensures x in RayFrom(sq, d, occ, lo) <==>
      exists k :: lo <= k && OnBoard(sq, d, k) && x == RaySquare(sq, d, k) && ClearBetween(sq, d, occ, lo, k)
  {
    if x in RayFrom(sq, d, occ, lo) {
      var k := RayFromSound(sq, d, occ, lo, x);
    }
    if exists k :: lo <= k && OnBoard(sq, d, k) && x == RaySquare(sq, d, k) && ClearBetween(sq, d, occ, lo, k) {
      var k :| lo <= k && OnBoard(sq, d, k) && x == RaySquare(sq, d, k) && ClearBetween(sq, d, occ, lo, k);
      RayFromComplete(sq, d, occ, lo, k);
    }
  }

  /** Every square of the ray from step lo is on the board with only empty squares before it. */
  lemma {:induction false} RayFromSound(sq: Square, d: Direction, occ: set<Square>, lo: nat, x: Square) returns (k: int)
    requires x in RayFrom(sq, d, occ, lo)
    ensures lo <= k && OnBoard(sq, d, k) && x == RaySquare(sq, d, k) && ClearBetween(sq, d, occ, lo, k)
    decreases 8 - lo
  {
    var s := RaySquare(sq, d, lo);
    if x == s {
      k := lo;
    } else {
      assert s !in occ && x in RayFrom(sq, d, occ, lo + 1);
      k := RayFromSound(sq, d, occ, lo + 1, x);
      ClearBetweenStep(sq, d, occ, lo, k);
    }
  }

  /** Every on-board square of the ray with only empty squares before it (from step lo) is in the ray. */
  lemma {:induction false} RayFromComplete(sq: Square, d: Direction, occ: set<Square>, lo: nat, k: int)
    requires lo <= k && OnBoard(sq, d, k) && ClearBetween(sq, d, occ, lo, k)
    ensures RaySquare(sq, d, k) in RayFrom(sq, d, occ, lo)
    decreases 8 - lo
  {
    OnBoardBound(sq, d, k);
    OnBoardPrefix(sq, d, lo, k);
    if k > lo {
      ClearBetweenStep(sq, d, occ, lo, k);
      RayFromComplete(sq, d, occ, lo + 1, k);
    }
  }

  /** Clearing from step k is clearing step k and then from step k + 1. */
  lemma ClearBetweenStep(sq: Square, d: Direction, occ: set<Square>, k: int, j: int)
    requires k < j
    ensures ClearBetween(sq, d, occ, k, j) <==>
      OnBoard(sq, d, k) && RaySquare(sq, d, k) !in occ && ClearBetween(sq, d, occ, k + 1, j)
  {
  }

  /**
   * The mask loop of BuildAttacksTable for one direction, from step k on:
   * add the square while the square after it is still on the board.
   */
  function MaskFrom(sq: Square, d: Direction, k: nat): set<Square>
    decreases 8 - k
  {
    if k > 7 || !OnBoard(sq, d, k + 1) then {}
    else {RaySquare(sq, d, k)} + MaskFrom(sq, d, k + 1)
  }

  /** Every mask square from step lo is a ray square whose successor is on the board. */
  lemma {:induction false} MaskFromSound(sq: Square, d: Direction, lo: nat, x: Square) returns (k: int)
    requires x in MaskFrom(sq, d, lo)
    ensures lo <= k && OnBoard(sq, d, k + 1) && x == RaySquare(sq, d, k)
    decreases 8 - lo
  {
    OnBoardPrefix(sq, d, lo, lo + 1);
    if x == RaySquare(sq, d, lo) {
      k := lo;
    } else {
      k := MaskFromSound(sq, d, lo + 1, x);
    }
  }

  /** Every ray square from step lo whose successor is on the board is in the mask. */
  lemma {:induction false} MaskFromComplete(sq: Square, d: Direction, lo: nat, k: int)
    requires lo <= k && OnBoard(sq, d, k + 1)
    ensures OnBoard(sq, d, k) && RaySquare(sq, d, k) in MaskFrom(sq, d, lo)
    decreases 8 - lo
  {
    OnBoardPrefix(sq, d, k, k + 1);
    OnBoardPrefix(sq, d, lo + 1, k + 1);
    OnBoardBound(sq, d, k + 1);
    if k > lo {
      MaskFromComplete(sq, d, lo + 1, k);
    }
  }

  /** The mask holds exactly the ray squares from step lo that are not the last on the board. */
  lemma MaskFromMeaning(sq: Square, d: Direction, lo: nat, x: Square)
    ensures x in MaskFrom(sq, d, lo) <==>
      exists k :: lo <= k && OnBoard(sq, d, k) && OnBoard(sq, d, k + 1) && x == RaySquare(sq, d, k)
  {
    if x in MaskFrom(sq, d, lo) {
      var k := MaskFromSound(sq, d, lo, x);
      OnBoardPrefix(sq, d, k, k + 1);
    }
    forall k | lo <= k && OnBoard(sq, d, k) && OnBoard(sq, d, k + 1) && x == RaySquare(sq, d, k)
      ensures x in MaskFrom(sq, d, lo)
    {
      MaskFromComplete(sq, d, lo, k);
    }
  }

  /**
   * The mask leaves out the origin and the edge square of the ray (the last
   * square on the board), and lies within the ray.
   */
  lemma MaskExcludesEnds(sq: Square, d: Direction, x: Square)
    requires x in MaskFrom(sq, d, 1)
    ensures x != sq
    ensures exists k :: 1 <= k && OnBoard(sq, d, k) && OnBoard(sq, d, k + 1) && x == RaySquare(sq, d, k)
    ensures forall k :: 0 <= k && OnBoard(sq, d, k) && !OnBoard(sq, d, k + 1) ==> x != RaySquare(sq, d, k)
  {
    var k := MaskFromSound(sq, d, 1, x);
    OnBoardPrefix(sq, d, k, k + 1);
    RaySquareZero(sq, d);
    if x == sq {
      RaySquareInjective(sq, d, 0, k);
    }
    forall e | 0 <= e && OnBoard(sq, d, e) && !OnBoard(sq, d, e + 1)
      ensures x != RaySquare(sq, d, e)
    {
      if x == RaySquare(sq, d, e) {
        RaySquareInjective(sq, d, e, k);
      }
    }
  }

  /**
   * A ray's attacks depend only on the occupancy inside its mask: the edge
   * square is added whether or not it is occupied.
   */
  lemma {:induction false} RayFromMaskOnly(sq: Square, d: Direction, occ1: set<Square>, occ2: set<Square>, k: nat)
    requires occ1 * MaskFrom(sq, d, k) == occ2 * MaskFrom(sq, d, k)
    ensures RayFrom(sq, d, occ1, k) == RayFrom(sq, d, occ2, k)
    decreases 8 - k
  {
    if k <= 7 && OnBoard(sq, d, k) {
      var s := RaySquare(sq, d, k);
      if k + 1 <= 7 && OnBoard(sq, d, k + 1) {
        var m := MaskFrom(sq, d, k + 1);
        assert MaskFrom(sq, d, k) == {s} + m;
        AgreeOnSplit(occ1, occ2, s, m);
        RayFromMaskOnly(sq, d, occ1, occ2, k + 1);
      } else {
        assert RayFrom(sq, d, occ1, k + 1) == {} == RayFrom(sq, d, occ2, k + 1);
      }
    }
  }

  /** Two occupancies that agree on {s} + m agree on s and on m. */
  lemma AgreeOnSplit(occ1: set<Square>, occ2: set<Square>, s: Square, m: set<Square>)
    requires occ1 * ({s} + m) == occ2 * ({s} + m)
    ensures (s in occ1 <==> s in occ2) && occ1 * m == occ2 * m
  {
    assert s in occ1 <==> s in occ1 * ({s} + m);
    assert s in occ2 <==> s in occ2 * ({s} + m);
    forall x | x in occ1 * m ensures x in occ2 * m {
      assert x in occ1 * ({s} + m);
    }
    forall x | x in occ2 * m ensures x in occ1 * m {
      assert x in occ2 * ({s} + m);
    }
  }

  /** The union of the rays along each of the directions. */
  function SliderAttacks(sq: Square, dirs: seq<Direction>, occ: set<Square>): set<Square>
  {
    if dirs == [] then {}
    else SliderAttacks(sq, dirs[..|dirs| - 1], occ) + RayFrom(sq, dirs[|dirs| - 1], occ, 1)
  }

  /** The union of the masks along each of the directions (the relevant occupancy mask). */
  function RelevantMask(sq: Square, dirs: seq<Direction>): set<Square>
  {
    if dirs == [] then {}
    else RelevantMask(sq, dirs[..|dirs| - 1]) + MaskFrom(sq, dirs[|dirs| - 1], 1)
  }

  /**
   * attacks(sq, occ) == attacks(sq, occ & mask(sq)): two occupancies that
   * agree on the mask give the same attacks.
   */
  lemma {:induction false} AttacksDependOnMask(sq: Square, dirs: seq<Direction>, occ1: set<Square>, occ2: set<Square>)
    requires occ1 * RelevantMask(sq, dirs) == occ2 * RelevantMask(sq, dirs)
    ensures SliderAttacks(sq, dirs, occ1) == SliderAttacks(sq, dirs, occ2)
  {
    if dirs != [] {
      var init := dirs[..|dirs| - 1];
      var d := dirs[|dirs| - 1];
      RestrictToPart(occ1, occ2, RelevantMask(sq, init), MaskFrom(sq, d, 1));
      AttacksDependOnMask(sq, init, occ1, occ2);
      RayFromMaskOnly(sq, d, occ1, occ2, 1);
    }
  }

  lemma RestrictToPart(occ1: set<Square>, occ2: set<Square>, a: set<Square>, b: set<Square>)
    requires occ1 * (a + b) == occ2 * (a + b)
    ensures occ1 * a == occ2 * a && occ1 * b == occ2 * b
  {
    forall x | x in occ1 * a ensures x in occ2 * a {
      assert x in occ1 * (a + b);
    }
    forall x | x in occ2 * a ensures x in occ1 * a {
      assert x in occ2 * (a + b);
    }
    forall x | x in occ1 * b ensures x in occ2 * b {
      assert x in occ1 * (a + b);
    }
    forall x | x in occ2 * b ensures x in occ1 * b {
      assert x in occ2 * (a + b);
    }
  }

  /** Each direction's ray is part of the slider attacks. */
  lemma {:induction false} RayInSliderAttacks(sq: Square, dirs: seq<Direction>, occ: set<Square>, i: int)
    requires 0 <= i < |dirs|
    ensures RayFrom(sq, dirs[i], occ, 1) <= SliderAttacks(sq, dirs, occ)
  {
    if i < |dirs| - 1 {
      RayInSliderAttacks(sq, dirs[..|dirs| - 1], occ, i);
    }
  }

  /** In particular the attacks for occ equal those for occ restricted to the mask. */
  lemma AttacksOfMaskedOccupancy(sq: Square, dirs: seq<Direction>, occ: set<Square>)
    ensures SliderAttacks(sq, dirs, occ) == SliderAttacks(sq, dirs, occ * RelevantMask(sq, dirs))
  {
    AttacksDependOnMask(sq, dirs, occ, occ * RelevantMask(sq, dirs));
  }

  /** The origin is not in the relevant mask. */
  lemma {:induction false} MaskExcludesOrigin(sq: Square, dirs: seq<Direction>)
    ensures sq !in RelevantMask(sq, dirs)
  {
    if dirs != [] {
      MaskExcludesOrigin(sq, dirs[..|dirs| - 1]);
      if sq in MaskFrom(sq, dirs[|dirs| - 1], 1) {
        MaskExcludesEnds(sq, dirs[|dirs| - 1], sq);
      }
    }
  }

  /** The first step of a ray, when on the board, is always attacked. */
  lemma FirstStepAttacked(sq: Square, d: Direction, occ: set<Square>)
    requires OnBoard(sq, d, 1)
    ensures RaySquare(sq, d, 1) in RayFrom(sq, d, occ, 1)
  {
  }

  /**
   * A rook or bishop always attacks some square: from any square at least one
   * of its four directions has a first step on the board.
   */
  lemma SliderAttacksNonEmpty(sq: Square, dirs: seq<Direction>, occ: set<Square>)
    requires dirs == RookDirections || dirs == BishopDirections
    ensures SliderAttacks(sq, dirs, occ) != {}
  {
    var i: int;
    if dirs == RookDirections {
      i := if Row(sq) < 7 then 0 else 1;
    } else {
      i := if Row(sq) < 7 && Col(sq) < 7 then 0
           else if Row(sq) > 0 && Col(sq) < 7 then 1
           else if Row(sq) < 7 then 2
           else 3;
    }
    FirstStepAttacked(sq, dirs[i], occ);
    RayInSliderAttacks(sq, dirs, occ, i);
  }

  /** The opposite direction. */
  function Neg(d: Direction): (r: Direction)
    ensures r.dRow == -d.dRow && r.dCol == -d.dCol
  {
    Delta(-d.dRow, -d.dCol)
  }

  /** Walking k steps back from the square k steps along d returns to the origin, and passes the same squares. */
  lemma RayBack(sq: Square, d: Direction, k: int, j: int)
    requires 0 <= j <= k && OnBoard(sq, d, k)
    ensures OnBoard(RaySquare(sq, d, k), Neg(d), j)
    ensures OnBoard(sq, d, k - j)
    ensures RaySquare(RaySquare(sq, d, k), Neg(d), j) == RaySquare(sq, d, k - j)
  {
    OnBoardPrefix(sq, d, k - j, k);
    SquareFromCoords(RaySquare(RaySquare(sq, d, k), Neg(d), j), RaySquare(sq, d, k - j));
  }

  /** A square is on the ray from sq along d exactly when sq is on the ray from it in the opposite direction. */
  lemma RaySymmetric(sq: Square, d: Direction, occ: set<Square>, x: Square)
    ensures x in RayFrom(sq, d, occ, 1) <==> sq in RayFrom(x, Neg(d), occ, 1)
  {
    RayFromMeaning(sq, d, occ, 1, x);
    RayFromMeaning(x, Neg(d), occ, 1, sq);
    if x in RayFrom(sq, d, occ, 1) {
      var k :| 1 <= k && OnBoard(sq, d, k) && x == RaySquare(sq, d, k) && ClearBetween(sq, d, occ, 1, k);
      RayBackClear(sq, d, occ, k);
    }
    if sq in RayFrom(x, Neg(d), occ, 1) {
      var k :| 1 <= k && OnBoard(x, Neg(d), k) && sq == RaySquare(x, Neg(d), k) && ClearBetween(x, Neg(d), occ, 1, k);
      RayBackClear(x, Neg(d), occ, k);
      assert Neg(Neg(d)) == d;
    }
  }

  /** The path from sq to its k-th ray square, walked backwards, is clear whenever it is clear forwards. */
  lemma RayBackClear(sq: Square, d: Direction, occ: set<Square>, k: int)
    requires 1 <= k && OnBoard(sq, d, k) && ClearBetween(sq, d, occ, 1, k)
    ensures OnBoard(RaySquare(sq, d, k), Neg(d), k) && RaySquare(RaySquare(sq, d, k), Neg(d), k) == sq
    ensures ClearBetween(RaySquare(sq, d, k), Neg(d), occ, 1, k)
  {
    var x := RaySquare(sq, d, k);
    RayBack(sq, d, k, k);
    RaySquareZero(sq, d);
    forall j | 1 <= j < k ensures OnBoard(x, Neg(d), j) && RaySquare(x, Neg(d), j) !in occ {
      RayBack(sq, d, k, j);
    }
  }

  /** A square attacked by a slider lies on the ray of one of its directions. */
  lemma {:induction false} SliderAttacksWitness(sq: Square, dirs: seq<Direction>, occ: set<Square>, x: Square)
    returns (i: int)
    requires x in SliderAttacks(sq, dirs, occ)
    ensures 0 <= i < |dirs| && x in RayFrom(sq, dirs[i], occ, 1)
  {
    var init := dirs[..|dirs| - 1];
    if x in RayFrom(sq, dirs[|dirs| - 1], occ, 1) {
      i := |dirs| - 1;
    } else {
      i := SliderAttacksWitness(sq, init, occ, x);
      assert init[i] == dirs[i];
    }
  }

  /** Both direction sets are closed under reversing a direction. */
  lemma NegClosed(dirs: seq<Direction>, i: int) returns (j: int)
    requires dirs == RookDirections || dirs == BishopDirections
    requires 0 <= i < |dirs|
    ensures 0 <= j < |dirs| && dirs[j] == Neg(dirs[i])
  {
    j := if i % 2 == 0 then i + 1 else i - 1;
    if dirs == BishopDirections {
      j := 3 - i;
    }
  }

  /**
   * A rook (or bishop) on sq attacks x exactly when one on x attacks sq: the
   * rays are the same line read in the two directions.
   */
  lemma SliderSymmetric(sq: Square, dirs: seq<Direction>, occ: set<Square>, x: Square)
    requires dirs == RookDirections || dirs == BishopDirections
    ensures x in SliderAttacks(sq, dirs, occ) <==> sq in SliderAttacks(x, dirs, occ)
  {
    if x in SliderAttacks(sq, dirs, occ) {
      var i := SliderAttacksWitness(sq, dirs, occ, x);
      var j := NegClosed(dirs, i);
      RaySymmetric(sq, dirs[i], occ, x);
      RayInSliderAttacks(x, dirs, occ, j);
    }
    if sq in SliderAttacks(x, dirs, occ) {
      var i := SliderAttacksWitness(x, dirs, occ, sq);
      var j := NegClosed(dirs, i);
      RaySymmetric(x, dirs[i], occ, sq);
      assert Neg(Neg(dirs[i])) == dirs[i];
      RaySymmetric(sq, dirs[j], occ, x);
      RayInSliderAttacks(sq, dirs, occ, j);
    }
  }

  /** On an empty board every on-board square of the ray is reached. */
  lemma OnEmptyRay(sq: Square, d: Direction, k: int, hits: set<Square>)
    requires 1 <= k && OnBoard(sq, d, k)
    ensures RaySquare(sq, d, k) in RayFrom(sq, d, {}, 1)
    ensures RaySquare(sq, d, k) in hits ==> RayFrom(sq, d, {}, 1) * hits != {}
  {
    forall m | 1 <= m < k ensures OnBoard(sq, d, m) {
      OnBoardPrefix(sq, d, m, k);
    }
    RayFromComplete(sq, d, {}, 1, k);
    if RaySquare(sq, d, k) in hits {
      assert RaySquare(sq, d, k) in RayFrom(sq, d, {}, 1) * hits;
    }
  }

  /** Pieces on the board only shorten a ray. */
  lemma {:induction false} RayFromWithinEmpty(sq: Square, d: Direction, occ: set<Square>, k: nat)
    ensures RayFrom(sq, d, occ, k) <= RayFrom(sq, d, {}, k)
    decreases 8 - k
  {
    if k <= 7 && OnBoard(sq, d, k) {
      RayFromWithinEmpty(sq, d, occ, k + 1);
    }
  }

  /** The attacks with pieces on the board are among the attacks on an empty board. */
  lemma {:induction false} SliderAttacksWithinEmpty(sq: Square, dirs: seq<Direction>, occ: set<Square>)
    ensures SliderAttacks(sq, dirs, occ) <= SliderAttacks(sq, dirs, {})
  {
    if dirs != [] {
      SliderAttacksWithinEmpty(sq, dirs[..|dirs| - 1], occ);
      RayFromWithinEmpty(sq, dirs[|dirs| - 1], occ, 1);
    }
  }

  /** A square at least one step along a ray fixes both the direction and the number of steps. */
  lemma RaySquareUnique(sq: Square, d1: Direction, a1: int, d2: Direction, a2: int)
    requires 1 <= a1 && 1 <= a2 && OnBoard(sq, d1, a1) && OnBoard(sq, d2, a2)
    requires RaySquare(sq, d1, a1) == RaySquare(sq, d2, a2)
    ensures d1 == d2 && a1 == a2
  {
    assert Shift(a1, d1.dRow) == Shift(a2, d2.dRow) && Shift(a1, d1.dCol) == Shift(a2, d2.dCol);
  }

  /** A neighbouring square is the first step along some direction. */
  lemma NeighbourOnRay(sq: Square, x: Square) returns (d: Direction)
    requires x != sq && -1 <= Row(x) - Row(sq) <= 1 && -1 <= Col(x) - Col(sq) <= 1
    ensures OnBoard(sq, d, 1) && RaySquare(sq, d, 1) == x
  {
    if Row(x) == Row(sq) && Col(x) == Col(sq) {
      SquareFromCoords(x, sq);
    }
    d := Delta(Row(x) - Row(sq), Col(x) - Col(sq));
    SquareFromCoords(RaySquare(sq, d, 1), x);
  }
}
