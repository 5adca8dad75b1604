/**
 * Sets of squares (class BitBoard of chess/bitboard.h). The source stores a
 * set as a 64-bit word in which bit i stands for square i; here the word is
 * modelled by the set of squares whose bits are 1.
 */
module BitBoards {
  import opened Squares

  datatype BitBoard = BitBoard(squares: set<Square>) {

    /** get: whether the square's bit is 1. */
    predicate Get(s: Square) {
      s in squares
    }

    /** set: turns one square on and leaves the others alone. */
    function Set(s: Square): (r: BitBoard)
      ensures r.Get(s)
      ensures forall x: Square :: x != s ==> r.Get(x) == Get(x)
    {
      BitBoard(squares + {s})
    }

    /** reset: turns one square off and leaves the others alone. */
    function Reset(s: Square): (r: BitBoard)
      ensures !r.Get(s)
      ensures forall x: Square :: x != s ==> r.Get(x) == Get(x)
    {
      BitBoard(squares - {s})
    }

    /** set_if: sets the square when cond holds, otherwise does nothing (it never resets). */
    function SetIf(s: Square, cond: bool): (r: BitBoard)
      ensures forall x: Square :: Get(x) ==> r.Get(x)
      ensures r.Get(s) == (cond || Get(s))
      ensures forall x: Square :: x != s ==> r.Get(x) == Get(x)
      ensures !cond ==> r == this
    {
      if cond then Set(s) else this
    }

    /** operator|: the squares in either set. */
    function Union(other: BitBoard): (r: BitBoard)
      ensures forall x: Square :: r.Get(x) <==> Get(x) || other.Get(x)
    {
      BitBoard(squares + other.squares)
    }

    /** operator& and operator&=: the squares in both sets. */
    function Intersect(other: BitBoard): (r: BitBoard)
      ensures forall x: Square :: r.Get(x) <==> Get(x) && other.Get(x)
    {
      BitBoard(squares * other.squares)
    }

    /** operator- on two boards: the squares of this set that are not in the other. */
    function Minus(other: BitBoard): (r: BitBoard)
      ensures forall x: Square :: r.Get(x) <==> Get(x) && !other.Get(x)
    {
      BitBoard(squares - other.squares)
    }

    /** operator- with a square: removes exactly that square. */
    function MinusSquare(s: Square): (r: BitBoard)
      ensures !r.Get(s)
      ensures forall x: Square :: x != s ==> r.Get(x) == Get(x)
    {
      BitBoard(squares - {s})
    }

    /** intersects: whether the two sets share a square. */
    predicate Intersects(other: BitBoard)
      ensures Intersects(other) <==> !Intersect(other).Empty()
    {
      squares * other.squares != {}
    }

    /** empty: whether no square is set. */
    predicate Empty()
      ensures Empty() <==> forall x: Square :: !Get(x)
    {
      assert forall x: Square :: x in squares ==> Get(x);
      squares == {}
    }

    /** count: the number of squares in the set. */
    function Count(): (n: nat)
      ensures n == 0 <==> Empty()
    {
      |squares|
    }

    /**
     * Mirror: reverses the byte order of the word, which moves the square at
     * (row, col) to (7 - row, col).
     */
    function Mirror(): (r: BitBoard)
      ensures forall x: Square :: r.Get(x) == Get(Squares.Mirror(x))
    {
      BitBoard(set x: Square | Squares.Mirror(x) in squares)
    }
  }

  const EmptyBoard: BitBoard := BitBoard({})

  /** Mirroring a set twice gives it back. */
  lemma MirrorTwice(b: BitBoard)
    ensures b.Mirror().Mirror() == b
  {
    var m := b.Mirror().Mirror();
    forall x | x in m.squares ensures x in b.squares {
      Squares.MirrorInvolution(x);
      assert m.Get(x) == b.Mirror().Get(Squares.Mirror(x));
    }
    forall x | x in b.squares ensures x in m.squares {
      Squares.MirrorInvolution(x);
      assert m.Get(x) == b.Mirror().Get(Squares.Mirror(x));
    }
    assert m.squares == b.squares;
  }

  /** Mirroring moves squares one to one, so it keeps the population count. */
  lemma {:induction false} MirrorCount(b: BitBoard)
    ensures b.Mirror().Count() == b.Count()
    decreases |b.squares|
  {
    if b.squares != {} {
      var s :| s in b.squares;
      var rest := BitBoard(b.squares - {s});
      MirrorCount(rest);
      MirrorRemove(b, s);
      assert |b.Mirror().squares| == |rest.Mirror().squares| + 1;
      assert |b.squares| == |rest.squares| + 1;
    }
  }

  /** Mirroring b is mirroring b without s and adding the mirror image of s, which was not there yet. */
  lemma MirrorRemove(b: BitBoard, s: Square)
    requires s in b.squares
    ensures b.Mirror().squares == BitBoard(b.squares - {s}).Mirror().squares + {Squares.Mirror(s)}
    ensures Squares.Mirror(s) !in BitBoard(b.squares - {s}).Mirror().squares
  {
    var rest := BitBoard(b.squares - {s});
    Squares.MirrorInvolution(s);
    forall x: Square
      ensures x in b.Mirror().squares <==> x in rest.Mirror().squares + {Squares.Mirror(s)}
    {
      Squares.MirrorInvolution(x);
      assert b.Mirror().Get(x) == b.Get(Squares.Mirror(x));
      assert rest.Mirror().Get(x) == rest.Get(Squares.Mirror(x));
    }
    assert rest.Mirror().Get(Squares.Mirror(s)) == rest.Get(s);
  }

  /** The squares of b from square i upwards, in ascending order. */
  function ElementsFrom(b: BitBoard, i: nat): (xs: seq<Square>)
    decreases 64 - i
  {
    if i >= 64 then []
    else (if b.Get(i) then [i] else []) + ElementsFrom(b, i + 1)
  }

  /**
   * Iteration over a BitBoard: each square of the set exactly once, from the
   * lowest square upwards.
   */
  function Elements(b: BitBoard): (xs: seq<Square>)
    ensures forall x: Square :: x in xs <==> b.Get(x)
  {
    ElementsFromMembers(b, 0);
    ElementsFrom(b, 0)
  }

  /** The iteration goes from the lowest square upwards, so no square comes twice. */
  lemma ElementsAscending(b: BitBoard)
    ensures forall i, j :: 0 <= i < j < |Elements(b)| ==> Elements(b)[i] < Elements(b)[j]
  {
    ElementsFromMembers(b, 0);
  }

  lemma {:induction false} ElementsFromMembers(b: BitBoard, i: nat)
    ensures forall x: Square :: x in ElementsFrom(b, i) <==> b.Get(x) && x >= i
    ensures forall k :: 0 <= k < |ElementsFrom(b, i)| ==> i <= ElementsFrom(b, i)[k]
    ensures forall k, l :: 0 <= k < l < |ElementsFrom(b, i)| ==> ElementsFrom(b, i)[k] < ElementsFrom(b, i)[l]
    decreases 64 - i
  {
    if i < 64 {
      ElementsFromMembers(b, i + 1);
      var head: seq<Square> := if b.Get(i) then [i] else [];
      var tail := ElementsFrom(b, i + 1);
      assert ElementsFrom(b, i) == head + tail;
      forall k, l | 0 <= k < l < |head + tail|
        ensures (head + tail)[k] < (head + tail)[l]
      {
        if k >= |head| {
          assert (head + tail)[k] == tail[k - |head|];
          assert (head + tail)[l] == tail[l - |head|];
        } else {
          assert (head + tail)[l] == tail[l - |head|];
        }
      }
    }
  }

  /** The lowest square of a non-empty set (GetLowestBit in the source). */
  function Lowest(b: BitBoard): (s: Square)
    requires !b.Empty()
    ensures b.Get(s)
    ensures forall y: Square :: b.Get(y) ==> s <= y
  {
    LowestFirst(b);
    Elements(b)[0]
  }

  lemma LowestFirst(b: BitBoard)
    requires !b.Empty()
    ensures |Elements(b)| > 0
    ensures forall y: Square :: b.Get(y) ==> Elements(b)[0] <= y
  {
    var xs := Elements(b);
    ElementsAscending(b);
    var some :| some in b.squares;
    assert some in xs;
    forall y: Square | b.Get(y) ensures xs[0] <= y {
      var k :| 0 <= k < |xs| && xs[k] == y;
      if k > 0 {
        assert xs[0] < xs[k];
      }
    }
  }

  /**
   * count_few: counts the squares by repeatedly clearing the lowest set bit
   * (x &= x - 1) until none is left; the loop runs exactly popcount times.
   */
  method CountFew(b: BitBoard) returns (count: int)
    ensures count == b.Count()
  {
    var x := b;
    count := 0;
    while x.squares != {}
      invariant count + |x.squares| == |b.squares|
      decreases |x.squares|
    {
      var lowest := Lowest(x);
      assert |x.squares - {lowest}| == |x.squares| - 1;
      x := BitBoard(x.squares - {lowest});
      count := count + 1;
    }
  }
}
