/**
 * Parallel bit extraction over a list of squares, the meaning of the
 * _pext_u64 instruction used to index the attack tables: the squares of the
 * mask, lowest first, are the bit positions of the index, and an occupancy
 * subset of the mask is numbered by the bits of the squares it contains.
 */
module Pext {
  import opened Squares

  function Pow2(n: nat): (p: nat)
    ensures p >= 1
  {
    if n == 0 then 1 else 2 * Pow2(n - 1)
  }

  /** Bit b of i (i >> b & 1 in the source). */
  predicate Bit(i: nat, b: nat)
    decreases b
  {
    if b == 0 then i % 2 == 1 else Bit(i / 2, b - 1)
  }

  /** The squares of a list, as a set. */
  function Members(l: seq<Square>): set<Square> {
    set x | x in l
  }

  /** No square occurs twice in the list. */
  predicate Distinct(l: seq<Square>) {
    forall a, b :: 0 <= a < b < |l| ==> l[a] != l[b]
  }

  /** A list without repetitions has as many squares as its set. */
  lemma {:induction false} DistinctCard(l: seq<Square>)
    requires Distinct(l)
    ensures |Members(l)| == |l|
  {
    if l != [] {
      var rest := l[1..];
      assert Distinct(rest) by {
        forall a, b | 0 <= a < b < |rest| ensures rest[a] != rest[b] {
          assert rest[a] == l[a + 1] && rest[b] == l[b + 1];
        }
      }
      DistinctCard(rest);
      assert l[0] !in Members(rest);
      assert Members(l) == {l[0]} + Members(rest);
    } else {
      assert Members(l) == {};
    }
  }

  /** _pext_u64(occ, mask): bit b of the result is whether l[b] is occupied. */
  function Extract(l: seq<Square>, occ: set<Square>): (i: nat)
    ensures i < Pow2(|l|)
  {
    if l == [] then 0
    else (if l[0] in occ then 1 else 0) + 2 * Extract(l[1..], occ)
  }

  /**
   * The occupancy built by the inner loop of BuildAttacksTable: square l[b]
   * is set exactly when bit b of i is set.
   */
  function Occupancy(l: seq<Square>, i: nat): set<Square> {
    set b | 0 <= b < |l| && Bit(i, b) :: l[b]
  }

  lemma OccupancyWithin(l: seq<Square>, i: nat)
    ensures Occupancy(l, i) <= Members(l)
  {
  }

  /** Occupancy split at the first square: l[0] for bit 0, the rest for i / 2. */
  lemma OccupancyCons(l: seq<Square>, i: nat)
    requires l != []
    ensures Occupancy(l, i) == (if i % 2 == 1 then {l[0]} else {}) + Occupancy(l[1..], i / 2)
  {
    var lhs := Occupancy(l, i);
    var rhs := (if i % 2 == 1 then {l[0]} else {}) + Occupancy(l[1..], i / 2);
    forall x | x in lhs ensures x in rhs {
      var b :| 0 <= b < |l| && Bit(i, b) && l[b] == x;
      if b > 0 {
        assert l[1..][b - 1] == x;
      }
    }
    forall x | x in rhs ensures x in lhs {
      if x in Occupancy(l[1..], i / 2) {
        var b :| 0 <= b < |l[1..]| && Bit(i / 2, b) && l[1..][b] == x;
        assert Bit(i, b + 1);
      } else {
        assert Bit(i, 0);
      }
    }
  }

  /** Extract only looks at the squares of the list. */
  lemma {:induction false} ExtractWithin(l: seq<Square>, occ1: set<Square>, occ2: set<Square>)
    requires forall x :: x in l ==> (x in occ1 <==> x in occ2)
    ensures Extract(l, occ1) == Extract(l, occ2)
  {
    if l != [] {
      ExtractWithin(l[1..], occ1, occ2);
    }
  }

  /** Extracting the bits of the occupancy numbered i gives back i. */
  lemma {:induction false} ExtractOccupancy(l: seq<Square>, i: nat)
    requires Distinct(l) && i < Pow2(|l|)
    ensures Extract(l, Occupancy(l, i)) == i
  {
    if l != [] {
      var rest := l[1..];
      OccupancyCons(l, i);
      assert l[0] !in rest;
      assert (l[0] in Occupancy(l, i)) == (i % 2 == 1);
      ExtractWithin(rest, Occupancy(l, i), Occupancy(rest, i / 2));
      ExtractOccupancy(rest, i / 2);
    }
  }

  /** Rebuilding the occupancy from the extracted index gives the occupancy restricted to the list. */
  lemma {:induction false} OccupancyExtract(l: seq<Square>, occ: set<Square>)
    requires Distinct(l)
    ensures Occupancy(l, Extract(l, occ)) == occ * Members(l)
  {
    if l != [] {
      var rest := l[1..];
      var i := Extract(l, occ);
      OccupancyCons(l, i);
      assert i % 2 == (if l[0] in occ then 1 else 0);
      assert i / 2 == Extract(rest, occ);
      OccupancyExtract(rest, occ);
      assert Members(l) == {l[0]} + Members(rest);
    }
  }

  /** Distinct subsets of the list get distinct indices: pext needs no collision check. */
  lemma ExtractInjective(l: seq<Square>, s1: set<Square>, s2: set<Square>)
    requires Distinct(l)
    requires s1 <= Members(l) && s2 <= Members(l)
    requires Extract(l, s1) == Extract(l, s2)
    ensures s1 == s2
  {
    OccupancyExtract(l, s1);
    OccupancyExtract(l, s2);
    assert s1 * Members(l) == s1;
    assert s2 * Members(l) == s2;
  }
}
