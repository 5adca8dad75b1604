/**
 * Moves (class Move of chess/bitboard.h): a 16-bit word holding the
 * destination square in bits 0..5, the origin square in bits 6..11 and the
 * promotion in bits 12..14. Bit 15 is never written by the constructors but
 * takes part in equality. The word is kept as a number below 2^16; masking
 * and shifting a non-negative number are division and remainder by powers
 * of two.
 */
module Moves {
  import opened Squares

  /** The uint16_t data_ of a move. */
  type Word = x: int | 0 <= x < 0x1_0000

  /** A three-bit promotion value that names no enumerator of Move::Promotion. */
  type UnnamedCode = c: int | 5 <= c < 8 witness 5

  /**
   * Move::Promotion. The enumerators None, Queen, Rook, Bishop, Knight carry
   * the values 0..4; the three-bit field can also hold 5..7, which the enum
   * class represents without a name.
   */
  datatype Promotion = NoPromotion | Queen | Rook | Bishop | Knight | Unnamed(code: UnnamedCode)
  {
    /** static_cast<uint8_t>(promotion). */
    function Code(): (c: int)
      ensures 0 <= c < 8
      ensures c < 5 <==> !this.Unnamed?
    {
      match this
      case NoPromotion => 0
      case Queen => 1
      case Rook => 2
      case Bishop => 3
      case Knight => 4
      case Unnamed(c) => c
    }
  }

  /** Promotion(value): the enumerator with a given three-bit value. */
  function PromotionOfCode(c: int): (p: Promotion)
    requires 0 <= c < 8
    ensures p.Code() == c
  {
    if c == 0 then NoPromotion
    else if c == 1 then Queen
    else if c == 2 then Rook
    else if c == 3 then Bishop
    else if c == 4 then Knight
    else Unnamed(c)
  }

  /** A promotion is determined by its value. */
  lemma PromotionCodeInjective(p: Promotion, q: Promotion)
    requires p.Code() == q.Code()
    ensures p == q
  {
  }

  /** A word from its four fields: to in bits 0..5, from in 6..11, promotion in 12..14, bit 15. */
  function Pack(to: int, from: int, code: int, high: int): (w: Word)
    requires 0 <= to < 64 && 0 <= from < 64 && 0 <= code < 8 && 0 <= high < 2
  {
    to + 64 * from + 4096 * code + 32768 * high
  }

  datatype Move = Move(data: Word) {

    /** to(): data_ & kToMask, bits 0..5. */
    function To(): Square {
      data % 64
    }

    /** from(): (data_ & kFromMask) >> 6, bits 6..11. */
    function From(): Square {
      data / 64 % 64
    }

    /** The three-bit promotion field, (data_ & kPromoMask) >> 12. */
    function PromotionCode(): int {
      data / 4096 % 8
    }

    /** promotion(): the field read as a Move::Promotion. */
    function Promotion(): Promotion {
      PromotionOfCode(PromotionCode())
    }

    /** Bit 15, which no setter touches. */
    function HighBit(): (h: int)
      ensures 0 <= h < 2
    {
      data / 32768
    }

    /** SetTo: clears bits 0..5 and writes the destination there. */
    function SetTo(to: Square): (r: Move)
      ensures r.To() == to
      ensures r.From() == From() && r.Promotion() == Promotion() && r.HighBit() == HighBit()
    {
      var r := Move(Pack(to, From(), PromotionCode(), HighBit()));
      Unpack(r.data, to, From(), PromotionCode(), HighBit());
      r
    }

    /** SetFrom: clears bits 6..11 and writes the origin there. */
    function SetFrom(from: Square): (r: Move)
      ensures r.From() == from
      ensures r.To() == To() && r.Promotion() == Promotion() && r.HighBit() == HighBit()
    {
      var r := Move(Pack(To(), from, PromotionCode(), HighBit()));
      Unpack(r.data, To(), from, PromotionCode(), HighBit());
      r
    }

    /** SetPromotion: clears bits 12..14 and writes the promotion value there. */
    function SetPromotion(p: Promotion): (r: Move)
      ensures r.Promotion() == p
      ensures r.To() == To() && r.From() == From() && r.HighBit() == HighBit()
    {
      var r := Move(Pack(To(), From(), p.Code(), HighBit()));
      Unpack(r.data, To(), From(), p.Code(), HighBit());
      PromotionCodeInjective(r.Promotion(), p);
      r
    }

    /**
     * Mirror: xor with 0b111000111000 flips the three row bits of both
     * squares, taking row r to 7 - r; the other bits stay. The squares are
     * mirrored and the word packed again.
     */
    function Mirror(): (r: Move)
      ensures r.From() == Squares.Mirror(From()) && r.To() == Squares.Mirror(To())
      ensures r.Promotion() == Promotion() && r.HighBit() == HighBit()
    {
      var r := Move(Pack(Squares.Mirror(To()), Squares.Mirror(From()), PromotionCode(), HighBit()));
      Unpack(r.data, Squares.Mirror(To()), Squares.Mirror(From()), PromotionCode(), HighBit());
      r
    }

    /**
     * as_string: origin and destination in algebraic notation, followed by
     * q, r, b or n for a promotion; a value naming no enumerator yields "Error!".
     */
    function AsString(): (str: string)
      ensures Promotion() == NoPromotion <==> |str| == 4
      ensures !Promotion().Unnamed? ==> |str| >= 4 && str[..4] == Squares.AsString(From()) + Squares.AsString(To())
      ensures Promotion().Queen? <==> |str| == 5 && str[4] == 'q'
      ensures Promotion().Rook? <==> |str| == 5 && str[4] == 'r'
      ensures Promotion().Bishop? <==> |str| == 5 && str[4] == 'b'
      ensures Promotion().Knight? <==> |str| == 5 && str[4] == 'n'
      ensures Promotion().Unnamed? <==> str == "Error!"
    {
      var res := Squares.AsString(From()) + Squares.AsString(To());
      match Promotion()
      case NoPromotion => res
      case Queen => res + ['q']
      case Rook => res + ['r']
      case Bishop => res + ['b']
      case Knight => res + ['n']
      case Unnamed(_) => "Error!"
    }
  }

  /** The null move: all bits zero (Move() in the source). */
  const NullMove: Move := Move(0)

  /**
   * The constructor Move(from, to, promotion): packs the three fields. The
   * fields read back are exactly the arguments, and bit 15 stays clear.
   */
  function NewMove(from: Square, to: Square, p: Promotion): (m: Move)
    ensures m.From() == from && m.To() == to && m.Promotion() == p
    ensures m.HighBit() == 0
  {
    var m := Move(Pack(to, from, p.Code(), 0));
    Unpack(m.data, to, from, p.Code(), 0);
    PromotionCodeInjective(m.Promotion(), p);
    m
  }

  /** The two-argument constructor Move(from, to): no promotion. */
  function NewPlainMove(from: Square, to: Square): (m: Move)
    ensures m.From() == from && m.To() == to && m.Promotion() == NoPromotion
  {
    NewMove(from, to, NoPromotion)
  }

  /** A word is the sum of its fields. */
  lemma Repack(m: Move)
    ensures m.data == Pack(m.To(), m.From(), m.PromotionCode(), m.HighBit())
  {
    var d := m.data;
    var q1 := d / 64;
    assert d == 64 * q1 + d % 64;
    var q2 := q1 / 64;
    assert q1 == 64 * q2 + q1 % 64;
    assert q2 == 8 * (q2 / 8) + q2 % 8;
    Div4096(d, q2, 64 * (q1 % 64) + d % 64);
    Div32768(d, q2 / 8, d - 32768 * (q2 / 8));
  }

  /** Two moves with the same fields are the same word. */
  lemma MoveFromFields(m: Move, n: Move)
    requires m.From() == n.From() && m.To() == n.To() && m.Promotion() == n.Promotion()
    requires m.HighBit() == n.HighBit()
    ensures m == n
  {
    Repack(m);
    Repack(n);
    PromotionCodeInjective(m.Promotion(), n.Promotion());
  }

  /** Every move is rebuilt by the constructor from its own fields, when bit 15 is clear. */
  lemma NewMoveOfFields(m: Move)
    requires m.HighBit() == 0
    ensures NewMove(m.From(), m.To(), m.Promotion()) == m
  {
    MoveFromFields(NewMove(m.From(), m.To(), m.Promotion()), m);
  }

  /** Move::Mirror applied twice gives the move back. */
  lemma MirrorTwice(m: Move)
    ensures m.Mirror().Mirror() == m
  {
    MirrorInvolution(m.From());
    MirrorInvolution(m.To());
    MoveFromFields(m.Mirror().Mirror(), m);
  }

  /** Reading the fields of a packed word gives back the fields. */
  lemma Unpack(d: int, t: int, f: int, p: int, h: int)
    requires 0 <= t < 64 && 0 <= f < 64 && 0 <= p < 8 && 0 <= h < 2
    requires d == t + 64 * f + 4096 * p + 32768 * h
    ensures d % 64 == t && d / 64 % 64 == f && d / 4096 % 8 == p && d / 32768 == h
  {
    Div64(d, f + 64 * p + 512 * h, t);
    Div64(f + 64 * p + 512 * h, p + 8 * h, f);
    Div4096(d, p + 8 * h, t + 64 * f);
    Div8(p + 8 * h, h, p);
    Div32768(d, h, t + 64 * f + 4096 * p);
  }

  // Division by the field widths, one constant at a time.

  lemma Div64(d: int, q: int, r: int)
    requires 0 <= r < 64 && d == 64 * q + r
    ensures d / 64 == q && d % 64 == r
  {
  }

  lemma Div8(d: int, q: int, r: int)
    requires 0 <= r < 8 && d == 8 * q + r
    ensures d / 8 == q && d % 8 == r
  {
  }

  lemma Div4096(d: int, q: int, r: int)
    requires 0 <= r < 4096 && d == 4096 * q + r
    ensures d / 4096 == q && d % 4096 == r
  {
  }

  lemma Div32768(d: int, q: int, r: int)
    requires 0 <= r < 32768 && d == 32768 * q + r
    ensures d / 32768 == q && d % 32768 == r
  {
  }
}
