/**
 * Board squares (class BoardSquare of chess/bitboard.h) on a single 8x8 plane.
 * A square is a number 0..63, bottom to top, left to right: 0 is a1, 7 is h1,
 * 8 is a2, 63 is h8. Its row is the number divided by 8, its column the
 * remainder.
 */
module Squares {

  type Square = x: int | 0 <= x < 64

  /** Row and file numbers used by the board code (RANK_1 .. RANK_8, FILE_A .. FILE_H). */
  const RANK_1: int := 0
  const RANK_3: int := 2
  const RANK_4: int := 3
  const RANK_5: int := 4
  const RANK_6: int := 5
  const RANK_8: int := 7
  const FILE_A: int := 0
  const FILE_C: int := 2
  const FILE_E: int := 4
  const FILE_G: int := 6
  const FILE_H: int := 7

  /** Named squares of the first rank. */
  const A1: Square := 0
  const C1: Square := 2
  const D1: Square := 3
  const E1: Square := 4
  const F1: Square := 5
  const G1: Square := 6
  const H1: Square := 7

  /** 0-based row, bottom to top. */
  function Row(s: Square): (r: int)
    ensures 0 <= r < 8
  {
    s / 8
  }

  /** 0-based column, left to right. */
  function Col(s: Square): (c: int)
    ensures 0 <= c < 8
  {
    s % 8
  }

  /** BoardSquare::IsValidCoord: a coordinate within 0..7. */
  predicate IsValidCoord(x: int) {
    x >= 0 && x < 8
  }

  /** BoardSquare::IsValid: both coordinates within 0..7. */
  predicate IsValid(row: int, col: int) {
    row >= 0 && col >= 0 && row < 8 && col < 8
  }

  /**
   * The square at (row, col): the constructor BoardSquare(row, col), whose
   * index is row * 8 + col. The product is spelt out as a sum so that the
   * squares of constant coordinates evaluate to constants.
   */
  function At(row: int, col: int): (s: Square)
    requires IsValid(row, col)
    ensures Row(s) == row && Col(s) == col
  {
    row + row + row + row + row + row + row + row + col
  }

  /** A square is determined by its row and column. */
  lemma SquareFromCoords(s: Square, t: Square)
    requires Row(s) == Row(t) && Col(s) == Col(t)
    ensures s == t
  {
  }

  /**
   * BoardSquare::Mirror: flips the three row bits of the index (xor 0b111000),
   * which maps row r to 7 - r and keeps the column. Flipping the bits of a
   * 3-bit number r gives 7 - r, so the result is the square at (7 - r, col).
   */
  function Mirror(s: Square): (m: Square)
    ensures Row(m) == 7 - Row(s) && Col(m) == Col(s)
  {
    At(7 - Row(s), Col(s))
  }

  lemma MirrorInvolution(s: Square)
    ensures Mirror(Mirror(s)) == s
  {
    SquareFromCoords(Mirror(Mirror(s)), s);
  }

  /** The file letter 'a' + col. */
  function FileChar(col: int): char
    requires 0 <= col < 8
  {
    (('a' as int) + col) as char
  }

  /** The rank digit '1' + row. */
  function RankChar(row: int): char
    requires 0 <= row < 8
  {
    (('1' as int) + row) as char
  }

  /** BoardSquare::as_string: algebraic notation, e.g. "e4". */
  function AsString(s: Square): (str: string)
    ensures |str| == 2
  {
    [FileChar(Col(s)), RankChar(Row(s))]
  }

  /**
   * Character i of a C++ std::string: reading at index size() yields the
   * terminating NUL.
   */
  function CharAt(str: string, i: nat): char {
    if i < |str| then str[i] else 0 as char
  }

  /**
   * The coordinates computed by the constructor BoardSquare(str, black):
   * row = str[1] - '1' (or '8' - str[1] from black's side), col = str[0] - 'a'.
   * The source does no validation, so the result may lie off the board.
   */
  function ParseCoords(str: string, black: bool): (rc: (int, int))
  {
    var rank := CharAt(str, 1) as int;
    var file := CharAt(str, 0) as int;
    (if black then ('8' as int) - rank else rank - ('1' as int), file - ('a' as int))
  }

  /**
   * Parsing the algebraic name of a square gives back the square; read from
   * black's side it gives the mirrored row.
   */
  lemma AsStringRoundTrip(s: Square)
    ensures ParseCoords(AsString(s), false) == (Row(s), Col(s))
    ensures ParseCoords(AsString(s), true) == (7 - Row(s), Col(s))
    ensures At(ParseCoords(AsString(s), false).0, ParseCoords(AsString(s), false).1) == s
  {
    SquareFromCoords(At(Row(s), Col(s)), s);
  }
}
