/**
 * The sliding-attack tables of chess/board.cc ("fancy" magic bitboards):
 * for every square, the relevant occupancy mask and a block of
 * 2^|mask| consecutive slots, one attack set per subset of the mask, found by
 * an index computed from the subset. The multiply-and-shift index of the
 * NO_PEXT build is a parameter; its shift by 64 - |mask| keeps it below
 * 2^|mask|, which is the one property the table relies on. The pext build is
 * the instance PextIndex, which never collides.
 */
module AttackTables {
  import opened Squares
  import opened BitBoards
  import opened Rays
  import opened Pext
  import opened Wrappers

  /** The index of an occupancy subset of a square's mask within that square's block. */
  type Indexer = (Square, set<Square>) -> int

  /** MagicParams: the mask and the start of the square's block in the table. */
  datatype MagicParams = MagicParams(mask: BitBoard, offset: nat)

  /** The squares of the relevant mask, lowest first (occupancy_squares). */
  function MaskSquares(dirs: seq<Direction>, sq: Square): (l: seq<Square>)
    ensures Distinct(l) && Members(l) == RelevantMask(sq, dirs)
    ensures |l| == |RelevantMask(sq, dirs)|
  {
    var l := Elements(BitBoard(RelevantMask(sq, dirs)));
    assert Distinct(l) by {
      ElementsAscending(BitBoard(RelevantMask(sq, dirs)));
      forall a, b | 0 <= a < b < |l| ensures l[a] != l[b] {
        assert l[a] < l[b];
      }
    }
    assert Members(l) == RelevantMask(sq, dirs);
    DistinctCard(l);
    l
  }

  /** The number of slots of a square's block, 1 << occupancy_squares.size(). */
  function BlockSize(dirs: seq<Direction>, sq: Square): nat {
    Pow2(|RelevantMask(sq, dirs)|)
  }

  /** table_offset when the loop reaches square sq: the sizes of the blocks before it. */
  function Offset(dirs: seq<Direction>, sq: nat): nat
    requires sq <= 64
  {
    if sq == 0 then 0 else Offset(dirs, sq - 1) + BlockSize(dirs, sq - 1)
  }

  /** The blocks of earlier squares end before the block of a later one starts. */
  lemma {:induction false} OffsetMonotone(dirs: seq<Direction>, a: nat, b: nat)
    requires a <= b <= 64
    ensures Offset(dirs, a) <= Offset(dirs, b)
    decreases b - a
  {
    if a < b {
      OffsetMonotone(dirs, a, b - 1);
    }
  }

  /** The table size the blocks of all 64 squares need. */
  function TableSize(dirs: seq<Direction>): nat {
    Offset(dirs, 64)
  }

  /** The index stays within the square's block for every subset of its mask. */
  ghost predicate IndexInRange(dirs: seq<Direction>, index: Indexer) {
    forall sq: Square, s: set<Square> {:trigger index(sq, s)} ::
      s <= RelevantMask(sq, dirs) ==> 0 <= index(sq, s) < BlockSize(dirs, sq)
  }

  lemma IndexBound(dirs: seq<Direction>, index: Indexer, sq: Square, s: set<Square>)
    requires IndexInRange(dirs, index) && s <= RelevantMask(sq, dirs)
    ensures 0 <= index(sq, s) < BlockSize(dirs, sq)
  {
  }

  /** Two subsets of a square's mask share a slot but have different attack sets. */
  ghost predicate CollisionAt(dirs: seq<Direction>, index: Indexer, sq: Square) {
    exists s1: set<Square>, s2: set<Square> {:trigger index(sq, s1), index(sq, s2)} ::
      s1 <= RelevantMask(sq, dirs) && s2 <= RelevantMask(sq, dirs) &&
      index(sq, s1) == index(sq, s2) && SliderAttacks(sq, dirs, s1) != SliderAttacks(sq, dirs, s2)
  }

  ghost predicate Collision(dirs: seq<Direction>, index: Indexer) {
    exists sq: Square :: CollisionAt(dirs, index, sq)
  }

  /** Every occupancy leaves the slider at least one attacked square (so an empty slot means unused). */
  ghost predicate AlwaysAttacks(dirs: seq<Direction>, sq: Square) {
    forall occ: set<Square> {:trigger SliderAttacks(sq, dirs, occ)} :: SliderAttacks(sq, dirs, occ) != {}
  }

  lemma RookBishopAlwaysAttack(dirs: seq<Direction>, sq: Square)
    requires dirs == RookDirections || dirs == BishopDirections
    ensures AlwaysAttacks(dirs, sq)
  {
    forall occ: set<Square> ensures SliderAttacks(sq, dirs, occ) != {} {
      SliderAttacksNonEmpty(sq, dirs, occ);
    }
  }

  /** Every square of the board always attacks something along dirs. */
  ghost predicate AttacksEverywhere(dirs: seq<Direction>) {
    forall sq: Square :: AlwaysAttacks(dirs, sq)
  }

  /** The rook and the bishop directions both attack from every square. */
  lemma RookBishopAttackEverywhere(dirs: seq<Direction>)
    requires dirs == RookDirections || dirs == BishopDirections
    ensures AttacksEverywhere(dirs)
  {
    forall sq: Square ensures AlwaysAttacks(dirs, sq) {
      RookBishopAlwaysAttack(dirs, sq);
    }
  }

  /** The slot of every subset of square sq's mask, in the block starting at offset, holds the subset's attacks. */
  ghost predicate BlockFilled(dirs: seq<Direction>, index: Indexer, entries: seq<BitBoard>, sq: Square, offset: nat) {
    forall s: set<Square> {:trigger index(sq, s)} :: s <= RelevantMask(sq, dirs) ==>
      0 <= offset + index(sq, s) < |entries| &&
      entries[offset + index(sq, s)].squares == SliderAttacks(sq, dirs, s)
  }

  /** The blocks of all squares below upTo are filled. */
  ghost predicate Filled(dirs: seq<Direction>, index: Indexer, entries: seq<BitBoard>, upTo: nat)
    requires upTo <= 64
  {
    forall q: Square {:trigger BlockFilled(dirs, index, entries, q, Offset(dirs, q))} ::
      q < upTo ==> BlockFilled(dirs, index, entries, q, Offset(dirs, q))
  }

  /** Two tables of the same length that agree outside the slots lo..hi-1. */
  ghost predicate SameOutside(before: seq<BitBoard>, after: seq<BitBoard>, lo: nat, hi: nat) {
    |before| == |after| &&
    forall k :: 0 <= k < |before| && !(lo <= k < hi) ==> after[k] == before[k]
  }

  /** The pext index: the subset's squares as bits, in the order of the mask. */
  function PextIndex(dirs: seq<Direction>): (index: Indexer)
    ensures IndexInRange(dirs, index)
  {
    (sq: Square, s: set<Square>) => Extract(MaskSquares(dirs, sq), s)
  }

  /** With pext every subset of a mask gets its own slot, so no collision is possible. */
  lemma PextNeverCollides(dirs: seq<Direction>)
    ensures !Collision(dirs, PextIndex(dirs))
  {
    var index := PextIndex(dirs);
    forall sq: Square ensures !CollisionAt(dirs, index, sq) {
      var l := MaskSquares(dirs, sq);
      forall s1: set<Square>, s2: set<Square> |
        s1 <= RelevantMask(sq, dirs) && s2 <= RelevantMask(sq, dirs) && index(sq, s1) == index(sq, s2)
        ensures s1 == s2
      {
        assert index(sq, s1) == Extract(l, s1) && index(sq, s2) == Extract(l, s2);
        ExtractInjective(l, s1, s2);
      }
    }
  }

  /**
   * The relevant-mask loops: for each direction, walk from the square and add
   * every square whose successor is still on the board.
   */
  method ComputeMask(sq: Square, dirs: seq<Direction>) returns (mask: BitBoard)
    ensures mask.squares == RelevantMask(sq, dirs)
  {
    mask := EmptyBoard;
    for j := 0 to |dirs|
      invariant mask.squares == RelevantMask(sq, dirs[..j])
    {
      mask := AddMaskRay(mask, sq, dirs[j]);
      assert dirs[..j + 1][..j] == dirs[..j];
    }
    assert dirs[..|dirs|] == dirs;
  }

  /** The walk along one direction of the relevant-mask loop. */
  method AddMaskRay(mask: BitBoard, sq: Square, d: Direction) returns (mask': BitBoard)
    ensures mask'.squares == mask.squares + MaskFrom(sq, d, 1)
  {
    mask' := mask;
    var dstRow, dstCol := Row(sq), Col(sq);
    ghost var k := 0;
    RaySquareZero(sq, d);
    while true
      invariant 0 <= k <= 7 && OnBoard(sq, d, k)
      invariant dstRow == Row(sq) + Shift(k, d.dRow) && dstCol == Col(sq) + Shift(k, d.dCol)
      invariant mask'.squares + MaskFrom(sq, d, k + 1) == mask.squares + MaskFrom(sq, d, 1)
      decreases 7 - k
    {
      ShiftStep(d, k);
      ShiftStep(d, k + 1);
      dstRow := dstRow + d.dRow;
      dstCol := dstCol + d.dCol;
      if !IsValid(dstRow + d.dRow, dstCol + d.dCol) {
        MaskEnd(sq, d, k);
        break;
      }
      MaskAdvance(mask.squares + MaskFrom(sq, d, 1), mask'.squares, sq, d, k);
      var destination := At(dstRow, dstCol);
      assert destination == RaySquare(sq, d, k + 1) by {
        SquareFromCoords(destination, RaySquare(sq, d, k + 1));
      }
      mask' := mask'.Set(destination);
      k := k + 1;
    }
  }

  /**
   * The attack loops: for each direction, walk from the square, add each
   * square on the board and stop after an occupied one.
   */
  method ComputeAttacks(sq: Square, dirs: seq<Direction>, occupancy: BitBoard) returns (attacks: BitBoard)
    ensures attacks.squares == SliderAttacks(sq, dirs, occupancy.squares)
  {
    attacks := EmptyBoard;
    for j := 0 to |dirs|
      invariant attacks.squares == SliderAttacks(sq, dirs[..j], occupancy.squares)
    {
      attacks := AddAttackRay(attacks, sq, dirs[j], occupancy);
      assert dirs[..j + 1][..j] == dirs[..j];
    }
    assert dirs[..|dirs|] == dirs;
  }

  /** The walk along one direction of the attack loop. */
  method AddAttackRay(attacks: BitBoard, sq: Square, d: Direction, occupancy: BitBoard) returns (attacks': BitBoard)
    ensures attacks'.squares == attacks.squares + RayFrom(sq, d, occupancy.squares, 1)
  {
    attacks' := attacks;
    var dstRow, dstCol := Row(sq), Col(sq);
    ghost var k := 0;
    RaySquareZero(sq, d);
    while true
      invariant 0 <= k <= 7 && OnBoard(sq, d, k)
      invariant dstRow == Row(sq) + Shift(k, d.dRow) && dstCol == Col(sq) + Shift(k, d.dCol)
      invariant attacks'.squares + RayFrom(sq, d, occupancy.squares, k + 1) == attacks.squares + RayFrom(sq, d, occupancy.squares, 1)
      decreases 7 - k
    {
      ShiftStep(d, k);
      dstRow := dstRow + d.dRow;
      dstCol := dstCol + d.dCol;
      if !IsValid(dstRow, dstCol) {
        RayEnd(sq, d, occupancy.squares, k);
        break;
      }
      RayStep(sq, d, occupancy.squares, k);
      var destination := At(dstRow, dstCol);
      assert destination == RaySquare(sq, d, k + 1) by {
        SquareFromCoords(destination, RaySquare(sq, d, k + 1));
      }
      attacks' := attacks'.Set(destination);
      if occupancy.Get(destination) {
        break;
      }
      k := k + 1;
    }
  }

  /** One more step adds the direction's components. */
  lemma ShiftStep(d: Direction, k: int)
    ensures Shift(k + 1, d.dRow) == Shift(k, d.dRow) + d.dRow
    ensures Shift(k + 1, d.dCol) == Shift(k, d.dCol) + d.dCol
  {
  }

  /** One more step of the mask walk: the next square joins the mask when the one after it is on the board. */
  lemma MaskStep(sq: Square, d: Direction, k: nat)
    requires OnBoard(sq, d, k + 2)
    ensures k + 2 <= 7 && OnBoard(sq, d, k + 1)
    ensures MaskFrom(sq, d, k + 1) == {RaySquare(sq, d, k + 1)} + MaskFrom(sq, d, k + 2)
  {
    OnBoardBound(sq, d, k + 2);
    OnBoardPrefix(sq, d, k + 1, k + 2);
  }

  /** Moving the next mask square from the rest of the walk into the accumulated mask keeps their union. */
  lemma MaskAdvance(total: set<Square>, acc: set<Square>, sq: Square, d: Direction, k: nat)
    requires OnBoard(sq, d, k + 2) && acc + MaskFrom(sq, d, k + 1) == total
    ensures k + 2 <= 7 && OnBoard(sq, d, k + 1)
    ensures (acc + {RaySquare(sq, d, k + 1)}) + MaskFrom(sq, d, k + 2) == total
  {
    MaskStep(sq, d, k);
  }

  lemma MaskEnd(sq: Square, d: Direction, k: nat)
    requires !OnBoard(sq, d, k + 2)
    ensures MaskFrom(sq, d, k + 1) == {}
  {
  }

  /** One more step of the attack walk: the next square is attacked, and the walk stops there if it is occupied. */
  lemma RayStep(sq: Square, d: Direction, occ: set<Square>, k: nat)
    requires OnBoard(sq, d, k + 1)
    ensures k + 1 <= 7
    ensures RayFrom(sq, d, occ, k + 1) ==
      {RaySquare(sq, d, k + 1)} + (if RaySquare(sq, d, k + 1) in occ then {} else RayFrom(sq, d, occ, k + 2))
  {
    OnBoardBound(sq, d, k + 1);
  }

  lemma RayEnd(sq: Square, d: Direction, occ: set<Square>, k: nat)
    requires !OnBoard(sq, d, k + 1)
    ensures RayFrom(sq, d, occ, k + 1) == {}
  {
  }

  /** The occupancy for slot number i: set_if on each mask square by bit i of the number. */
  method BuildOccupancy(squares: seq<Square>, i: nat) returns (occupancy: BitBoard)
    ensures occupancy.squares == Occupancy(squares, i)
  {
    occupancy := EmptyBoard;
    for bit := 0 to |squares|
      invariant occupancy.squares == set b | 0 <= b < bit && Bit(i, b) :: squares[b]
    {
      occupancy := occupancy.SetIf(squares[bit], Bit(i, bit));
    }
  }

  /** Clears a square's block before it is filled. */
  method ClearBlock(table: array<BitBoard>, offset: nat, size: nat)
    requires offset + size <= table.Length
    modifies table
    ensures forall k :: offset <= k < offset + size ==> table[k] == EmptyBoard
    ensures SameOutside(old(table[..]), table[..], offset, offset + size)
  {
    for i := 0 to size
      invariant forall k :: offset <= k < offset + i ==> table[k] == EmptyBoard
      invariant forall k :: 0 <= k < table.Length && !(offset <= k < offset + i) ==> table[k] == old(table[k])
    {
      table[offset + i] := EmptyBoard;
    }
  }

  /** When every number below 2^|l| has had its occupancy processed, so has every subset of the list. */
  lemma AllSubsetsDone(l: seq<Square>, m: set<Square>, done: set<set<Square>>)
    requires Distinct(l) && Members(l) == m
    requires forall j {:trigger Occupancy(l, j)} :: 0 <= j < Pow2(|l|) ==> Occupancy(l, j) in done
    ensures forall s :: s <= m ==> s in done
  {
    forall s | s <= m ensures s in done {
      var j := Extract(l, s);
      OccupancyExtract(l, s);
      assert Occupancy(l, j) == s * m == s;
      assert Occupancy(l, j) in done;
    }
  }

  /** Adding occupancy number i to the processed subsets extends the processed numbers by one. */
  lemma OccupancyAdded(squares: seq<Square>, i: nat, done: set<set<Square>>)
    requires forall j {:trigger Occupancy(squares, j)} :: 0 <= j < i ==> Occupancy(squares, j) in done
    ensures forall j {:trigger Occupancy(squares, j)} :: 0 <= j < i + 1 ==> Occupancy(squares, j) in done + {Occupancy(squares, i)}
  {
  }

  /** The slot of every subset processed so far holds that subset's attacks. */
  ghost predicate SlotsRight(t: seq<BitBoard>, dirs: seq<Direction>, index: Indexer, sq: Square, offset: nat,
                             done: set<set<Square>>)
  {
    forall s :: s in done ==>
      s <= RelevantMask(sq, dirs) && 0 <= offset + index(sq, s) < |t| &&
      t[offset + index(sq, s)].squares == SliderAttacks(sq, dirs, s)
  }

  /** Every non-empty slot of the block was written for a subset processed so far. */
  ghost predicate SlotsOwned(t: seq<BitBoard>, index: Indexer, sq: Square, offset: nat, size: nat,
                             done: set<set<Square>>)
  {
    forall k :: offset <= k < offset + size && k < |t| && t[k] != EmptyBoard ==>
      exists s :: s in done && offset + index(sq, s) == k
  }

  ghost predicate SlotsHold(t: seq<BitBoard>, dirs: seq<Direction>, index: Indexer, sq: Square, offset: nat, size: nat,
                            done: set<set<Square>>)
  {
    SlotsRight(t, dirs, index, sq, offset, done) && SlotsOwned(t, index, sq, offset, size, done)
  }

  /** A slot written for an earlier subset that holds other attacks than the current subset's is a collision. */
  lemma CollisionFound(t: seq<BitBoard>, dirs: seq<Direction>, index: Indexer, sq: Square, offset: nat, size: nat,
                       done: set<set<Square>>, occ: set<Square>, attacks: BitBoard)
    requires SlotsHold(t, dirs, index, sq, offset, size, done)
    requires occ <= RelevantMask(sq, dirs) && 0 <= index(sq, occ) < size && offset + index(sq, occ) < |t|
    requires attacks.squares == SliderAttacks(sq, dirs, occ)
    requires t[offset + index(sq, occ)] != EmptyBoard && t[offset + index(sq, occ)] != attacks
    ensures CollisionAt(dirs, index, sq)
  {
    var s :| s in done && offset + index(sq, s) == offset + index(sq, occ);
    assert SliderAttacks(sq, dirs, s) != SliderAttacks(sq, dirs, occ);
  }

  /** A slot that is empty or already holds the attacks of occ was written, if at all, by subsets with those attacks. */
  lemma SameSlotSameAttacks(t: seq<BitBoard>, dirs: seq<Direction>, index: Indexer, sq: Square, offset: nat,
                            done: set<set<Square>>, occ: set<Square>, attacks: BitBoard)
    requires SlotsRight(t, dirs, index, sq, offset, done)
    requires AlwaysAttacks(dirs, sq)
    requires 0 <= offset + index(sq, occ) < |t|
    requires t[offset + index(sq, occ)] == EmptyBoard || t[offset + index(sq, occ)] == attacks
    ensures forall s :: s in done && index(sq, s) == index(sq, occ) ==> SliderAttacks(sq, dirs, s) == attacks.squares
  {
    forall s | s in done && index(sq, s) == index(sq, occ)
      ensures SliderAttacks(sq, dirs, s) == attacks.squares
    {
      assert SliderAttacks(sq, dirs, s) != {};
    }
  }

  /** Storing a subset's attacks in its slot keeps every processed subset's slot right. */
  lemma StoreKeepsRight(t: seq<BitBoard>, dirs: seq<Direction>, index: Indexer, sq: Square, offset: nat,
                        done: set<set<Square>>, occ: set<Square>, attacks: BitBoard)
    requires SlotsRight(t, dirs, index, sq, offset, done)
    requires occ <= RelevantMask(sq, dirs) && 0 <= offset + index(sq, occ) < |t|
    requires attacks.squares == SliderAttacks(sq, dirs, occ)
    requires forall s :: s in done && index(sq, s) == index(sq, occ) ==> SliderAttacks(sq, dirs, s) == attacks.squares
    ensures SlotsRight(t[offset + index(sq, occ) := attacks], dirs, index, sq, offset, done + {occ})
  {
    var slot := offset + index(sq, occ);
    var t' := t[slot := attacks];
    forall s | s in done + {occ}
      ensures s <= RelevantMask(sq, dirs) && 0 <= offset + index(sq, s) < |t'|
      ensures t'[offset + index(sq, s)].squares == SliderAttacks(sq, dirs, s)
    {
      if s != occ && offset + index(sq, s) != slot {
        assert t'[offset + index(sq, s)] == t[offset + index(sq, s)];
      }
    }
  }

  /** Storing a subset's attacks in its slot keeps every non-empty slot owned. */
  lemma StoreKeepsOwned(t: seq<BitBoard>, index: Indexer, sq: Square, offset: nat, size: nat,
                        done: set<set<Square>>, occ: set<Square>, attacks: BitBoard)
    requires SlotsOwned(t, index, sq, offset, size, done)
    requires 0 <= offset + index(sq, occ) < |t|
    ensures SlotsOwned(t[offset + index(sq, occ) := attacks], index, sq, offset, size, done + {occ})
  {
    var slot := offset + index(sq, occ);
    var t' := t[slot := attacks];
    forall k | offset <= k < offset + size && k < |t'| && t'[k] != EmptyBoard
      ensures exists s :: s in done + {occ} && offset + index(sq, s) == k
    {
      if k == slot {
        assert occ in done + {occ};
      } else {
        assert t[k] == t'[k];
        var s :| s in done && offset + index(sq, s) == k;
        assert s in done + {occ};
      }
    }
  }

  /**
   * One pass of the slot loop: build occupancy number i, compute its attacks,
   * run the sanity check and store the attacks in the slot the index names.
   */
  method FillSlot(table: array<BitBoard>, dirs: seq<Direction>, index: Indexer, sq: Square, offset: nat,
                  squares: seq<Square>, i: nat, ghost done: set<set<Square>>)
    returns (ok: bool, ghost done': set<set<Square>>)
    requires AlwaysAttacks(dirs, sq)
    requires IndexInRange(dirs, index)
    requires Occupancy(squares, i) <= RelevantMask(sq, dirs)
    requires offset + BlockSize(dirs, sq) <= table.Length
    requires SlotsHold(table[..], dirs, index, sq, offset, BlockSize(dirs, sq), done)
    modifies table
    ensures ok ==> table[..] == old(table[..])[offset + index(sq, Occupancy(squares, i)) :=
      BitBoard(SliderAttacks(sq, dirs, Occupancy(squares, i)))]
    ensures !ok ==> table[..] == old(table[..])
    ensures ok ==> done' == done + {Occupancy(squares, i)}
    ensures ok ==> SlotsHold(table[..], dirs, index, sq, offset, BlockSize(dirs, sq), done')
    ensures !ok ==> CollisionAt(dirs, index, sq)
  {
    var occupancy := BuildOccupancy(squares, i);
    var attacks := ComputeAttacks(sq, dirs, occupancy);
    var idx := index(sq, occupancy.squares);
    IndexBound(dirs, index, sq, occupancy.squares);
    ghost var before := table[..];
    ok := StoreSlot(table, offset + idx, attacks);
    if !ok {
      CollisionFound(before, dirs, index, sq, offset, BlockSize(dirs, sq), done, occupancy.squares, attacks);
      return false, done;
    }
    SameSlotSameAttacks(before, dirs, index, sq, offset, done, occupancy.squares, attacks);
    StoreKeepsRight(before, dirs, index, sq, offset, done, occupancy.squares, attacks);
    StoreKeepsOwned(before, index, sq, offset, BlockSize(dirs, sq), done, occupancy.squares, attacks);
    done' := done + {occupancy.squares};
  }

  /**
   * The sanity check and the store: a slot that already holds a different
   * non-empty set is left alone and reported; otherwise it gets the attacks.
   */
  method StoreSlot(table: array<BitBoard>, slot: nat, attacks: BitBoard) returns (ok: bool)
    requires slot < table.Length
    modifies table
    ensures ok <==> old(table[slot]) == EmptyBoard || old(table[slot]) == attacks
    ensures ok ==> table[..] == old(table[..])[slot := attacks]
    ensures !ok ==> table[..] == old(table[..])
  {
    if table[slot] != EmptyBoard && table[slot] != attacks {
      return false;
    }
    table[slot] := attacks;
    ok := true;
  }

  /**
   * Fills the block of one square: every subset of the mask gets its attacks
   * in the slot its index names. A slot that already holds a different
   * non-empty set stops the construction.
   */
  method FillBlock(table: array<BitBoard>, dirs: seq<Direction>, index: Indexer, sq: Square, offset: nat)
    returns (ok: bool)
    requires AlwaysAttacks(dirs, sq)
    requires IndexInRange(dirs, index)
    requires offset + BlockSize(dirs, sq) <= table.Length
    modifies table
    ensures SameOutside(old(table[..]), table[..], offset, offset + BlockSize(dirs, sq))
    ensures ok ==> BlockFilled(dirs, index, table[..], sq, offset)
    ensures ok <==> !CollisionAt(dirs, index, sq)
  {
    var mask := ComputeMask(sq, dirs);
    var squares := Elements(mask);
    assert squares == MaskSquares(dirs, sq);
    ClearBlock(table, offset, Pow2(|squares|));
    ghost var cleared := table[..];
    ok := FillSubsets(table, dirs, index, sq, offset, squares);
    SameOutsideTrans(old(table[..]), cleared, table[..], offset, offset + BlockSize(dirs, sq));
    if ok {
      NoCollisionWhenFilled(table[..], dirs, index, sq, offset);
    }
  }

  /** The slot loop over occupancy numbers 0 .. 2^|squares| - 1 on a cleared block. */
  method FillSubsets(table: array<BitBoard>, dirs: seq<Direction>, index: Indexer, sq: Square, offset: nat,
                     squares: seq<Square>)
    returns (ok: bool)
    requires AlwaysAttacks(dirs, sq)
    requires IndexInRange(dirs, index)
    requires Distinct(squares) && Members(squares) == RelevantMask(sq, dirs)
    requires |squares| == |RelevantMask(sq, dirs)|
    requires offset + BlockSize(dirs, sq) <= table.Length
    requires forall k :: offset <= k < offset + BlockSize(dirs, sq) ==> table[k] == EmptyBoard
    modifies table
    ensures SameOutside(old(table[..]), table[..], offset, offset + BlockSize(dirs, sq))
    ensures ok ==> BlockFilled(dirs, index, table[..], sq, offset)
    ensures !ok ==> CollisionAt(dirs, index, sq)
  {
    var size := Pow2(|squares|);
    ghost var done: set<set<Square>> := {};
    for i := 0 to size
      invariant SameOutside(old(table[..]), table[..], offset, offset + size)
      invariant forall j {:trigger Occupancy(squares, j)} :: 0 <= j < i ==> Occupancy(squares, j) in done
      invariant SlotsHold(table[..], dirs, index, sq, offset, size, done)
    {
      OccupancyWithin(squares, i);
      OccupancyAdded(squares, i, done);
      IndexBound(dirs, index, sq, Occupancy(squares, i));
      ghost var before := table[..];
      ok, done := FillSlot(table, dirs, index, sq, offset, squares, i, done);
      if !ok {
        return;
      }
      SameOutsideUpdate(old(table[..]), before, offset, offset + size, offset + index(sq, Occupancy(squares, i)),
        BitBoard(SliderAttacks(sq, dirs, Occupancy(squares, i))));
    }
    AllSubsetsDone(squares, RelevantMask(sq, dirs), done);
    ok := true;
  }

  lemma SameOutsideUpdate(before: seq<BitBoard>, t: seq<BitBoard>, lo: nat, hi: nat, slot: nat, v: BitBoard)
    requires SameOutside(before, t, lo, hi) && lo <= slot < hi && slot < |t|
    ensures SameOutside(before, t[slot := v], lo, hi)
  {
  }

  lemma SameOutsideTrans(a: seq<BitBoard>, b: seq<BitBoard>, c: seq<BitBoard>, lo: nat, hi: nat)
    requires SameOutside(a, b, lo, hi) && SameOutside(b, c, lo, hi)
    ensures SameOutside(a, c, lo, hi)
  {
  }

  /** A block whose slots all hold the right attacks shows that the index has no collision there. */
  lemma NoCollisionWhenFilled(t: seq<BitBoard>, dirs: seq<Direction>, index: Indexer, sq: Square, offset: nat)
    requires BlockFilled(dirs, index, t, sq, offset)
    ensures !CollisionAt(dirs, index, sq)
  {
  }

  /** The block of square q ends before the block of any later square b starts. */
  lemma BlockBefore(dirs: seq<Direction>, q: nat, b: nat)
    requires q < b <= 64
    ensures Offset(dirs, q) + BlockSize(dirs, q) <= Offset(dirs, b)
  {
    OffsetMonotone(dirs, q + 1, b);
    assert Offset(dirs, q + 1) == Offset(dirs, q) + BlockSize(dirs, q);
  }

  /** A filled block stays filled when only slots past its end change. */
  lemma BlockKept(dirs: seq<Direction>, index: Indexer, before: seq<BitBoard>, after: seq<BitBoard>,
                  q: Square, offset: nat, lo: nat, hi: nat)
    requires IndexInRange(dirs, index)
    requires BlockFilled(dirs, index, before, q, offset)
    requires SameOutside(before, after, lo, hi)
    requires offset + BlockSize(dirs, q) <= lo
    ensures BlockFilled(dirs, index, after, q, offset)
  {
    forall s: set<Square> | s <= RelevantMask(q, dirs)
      ensures 0 <= offset + index(q, s) < |after|
      ensures after[offset + index(q, s)].squares == SliderAttacks(q, dirs, s)
    {
      IndexBound(dirs, index, q, s);
    }
  }

  /** Adding a square's filled block to a table filled for the squares before it. */
  lemma {:induction false} FilledStep(dirs: seq<Direction>, index: Indexer, before: seq<BitBoard>, after: seq<BitBoard>, sq: Square)
    requires IndexInRange(dirs, index)
    requires Filled(dirs, index, before, sq)
    requires SameOutside(before, after, Offset(dirs, sq), Offset(dirs, sq) + BlockSize(dirs, sq))
    requires BlockFilled(dirs, index, after, sq, Offset(dirs, sq))
    ensures Filled(dirs, index, after, sq + 1)
  {
    forall q: Square | q < sq + 1
      ensures BlockFilled(dirs, index, after, q, Offset(dirs, q))
    {
      if q < sq {
        BlockBefore(dirs, q, sq);
        BlockKept(dirs, index, before, after, q, Offset(dirs, q), Offset(dirs, sq), Offset(dirs, sq) + BlockSize(dirs, sq));
      }
    }
  }

  /** A filled block holds the attacks of a subset of the mask at the subset's slot. */
  lemma BlockLookup(dirs: seq<Direction>, index: Indexer, entries: seq<BitBoard>, sq: Square, offset: nat, s: set<Square>)
    requires BlockFilled(dirs, index, entries, sq, offset) && s <= RelevantMask(sq, dirs)
    ensures 0 <= offset + index(sq, s) < |entries|
    ensures entries[offset + index(sq, s)].squares == SliderAttacks(sq, dirs, s)
  {
  }

  /** The masks and block offsets recorded for the squares below n. */
  ghost predicate ParamsRight(dirs: seq<Direction>, params: seq<MagicParams>, n: nat) {
    |params| == n &&
    forall q: Square :: q < n ==> params[q] == MagicParams(BitBoard(RelevantMask(q, dirs)), Offset(dirs, q))
  }

  lemma ParamsStep(dirs: seq<Direction>, params: seq<MagicParams>, sq: Square, mask: BitBoard)
    requires ParamsRight(dirs, params, sq) && mask.squares == RelevantMask(sq, dirs)
    ensures ParamsRight(dirs, params + [MagicParams(mask, Offset(dirs, sq))], sq + 1)
  {
    var p := params + [MagicParams(mask, Offset(dirs, sq))];
    assert mask == BitBoard(RelevantMask(sq, dirs));
    forall q: Square | q < sq + 1
      ensures p[q] == MagicParams(BitBoard(RelevantMask(q, dirs)), Offset(dirs, q))
    {
      if q < sq {
        assert p[q] == params[q];
      }
    }
  }

  /** No square below n has a collision. */
  ghost predicate NoCollisionBelow(dirs: seq<Direction>, index: Indexer, n: nat) {
    forall q: Square :: q < n ==> !CollisionAt(dirs, index, q)
  }

  lemma NoCollisionStep(dirs: seq<Direction>, index: Indexer, sq: Square)
    requires NoCollisionBelow(dirs, index, sq) && !CollisionAt(dirs, index, sq)
    ensures NoCollisionBelow(dirs, index, sq + 1)
  {
  }

  lemma NoCollisionAll(dirs: seq<Direction>, index: Indexer)
    requires NoCollisionBelow(dirs, index, 64)
    ensures !Collision(dirs, index)
  {
  }

  lemma CollisionWitness(dirs: seq<Direction>, index: Indexer, sq: Square)
    requires CollisionAt(dirs, index, sq)
    ensures Collision(dirs, index)
  {
  }

  /** The next block starts where the block of sq ends. */
  lemma OffsetStep(dirs: seq<Direction>, sq: Square)
    ensures Offset(dirs, sq + 1) == Offset(dirs, sq) + BlockSize(dirs, sq)
  {
  }

  /**
   * BuildAttacksTable: for each square in turn, the relevant mask, the start
   * of its block and the block's contents. The sanity check of the
   * multiply-and-shift build fails exactly when the index has a collision.
   */
  method BuildAttacksTable(table: array<BitBoard>, dirs: seq<Direction>, index: Indexer)
    returns (r: Result<seq<MagicParams>, string>)
    requires AttacksEverywhere(dirs)
    requires IndexInRange(dirs, index)
    requires table.Length == TableSize(dirs)
    modifies table
    ensures r.Ok? <==> !Collision(dirs, index)
    ensures r.Ok? ==> SliderTable(dirs, index, r.value, table[..]).Valid()
    ensures r.Err? ==> r.error == "Invalid magic number!"
  {
    var params: seq<MagicParams> := [];
    var tableOffset: nat := 0;
    for sq := 0 to 64
      invariant tableOffset == Offset(dirs, sq)
      invariant ParamsRight(dirs, params, sq)
      invariant Filled(dirs, index, table[..], sq)
      invariant NoCollisionBelow(dirs, index, sq)
    {
      assert AlwaysAttacks(dirs, sq);
      OffsetMonotone(dirs, sq + 1, 64);
      OffsetStep(dirs, sq);
      ghost var before := table[..];
      var mask := ComputeMask(sq, dirs);
      var ok := FillBlock(table, dirs, index, sq, tableOffset);
      if !ok {
        CollisionWitness(dirs, index, sq);
        return Err("Invalid magic number!");
      }
      FilledStep(dirs, index, before, table[..], sq);
      NoCollisionStep(dirs, index, sq);
      ParamsStep(dirs, params, sq, mask);
      params := params + [MagicParams(mask, tableOffset)];
      tableOffset := tableOffset + BlockSize(dirs, sq);
    }
    NoCollisionAll(dirs, index);
    return Ok(params);
  }

  /** The attack tables of one slider kind after initialisation: masks, block offsets and blocks. */
  datatype SliderTable = SliderTable(dirs: seq<Direction>, index: Indexer, params: seq<MagicParams>, entries: seq<BitBoard>)
  {
    ghost predicate Valid() {
      IndexInRange(dirs, index) && ParamsRight(dirs, params, 64) && Filled(dirs, index, entries, 64)
    }

    /**
     * GetRookAttacks / GetBishopAttacks: the slot of the occupied squares of
     * the mask holds the attacks for the whole occupancy.
     */
    function Attacks(sq: Square, pieces: BitBoard): (r: BitBoard)
      requires Valid()
      ensures r.squares == SliderAttacks(sq, dirs, pieces.squares)
    {
      var occ := pieces.squares * params[sq].mask.squares;
      Lookup(sq, pieces);
      entries[params[sq].offset + index(sq, occ)]
    }

    /** The slot Attacks reads is within the table and holds the attacks of the whole occupancy. */
    lemma Lookup(sq: Square, pieces: BitBoard)
      requires Valid()
      ensures 0 <= params[sq].offset + index(sq, pieces.squares * params[sq].mask.squares) < |entries|
      ensures entries[params[sq].offset + index(sq, pieces.squares * params[sq].mask.squares)].squares ==
        SliderAttacks(sq, dirs, pieces.squares)
    {
      var occ := pieces.squares * params[sq].mask.squares;
      assert params[sq].mask.squares == RelevantMask(sq, dirs) && params[sq].offset == Offset(dirs, sq);
      assert BlockFilled(dirs, index, entries, sq, params[sq].offset);
      BlockLookup(dirs, index, entries, sq, params[sq].offset, occ);
      AttacksOfMaskedOccupancy(sq, dirs, pieces.squares);
    }
  }
}
