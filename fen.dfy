/**
 * ChessBoard::SetFromFen: reading a position in Forsyth-Edwards Notation
 * (section 16.1 of the PGN Standard) with the Shredder/X-FEN file letters of
 * Chess960 castling. The text is read field by field from a string stream;
 * the piece placement, the castling field and the en-passant field are then
 * interpreted in turn, and a black side to move mirrors the result. Every
 * exception of the source is an Err naming which of its checks failed.
 */
module Fen {
  import opened Wrappers
  import opened Squares
  import opened BitBoards
  import opened Castling
  import opened Positions
  import Leapers

  /** The checks whose failure makes the source throw, one per distinct message. */
  datatype FenError =
    | Malformed                 // an unknown piece letter, or the stream failed
    | TooManyRows
    | TooManyColumns
    | PawnOnBackRank
    | NoKingsideRook
    | NoQueensideRook
    | UnexpectedCastlingSymbol
    | WrongEnPassantRank
    | BadSideToMove

  /** The text of the exception the source throws for an error while reading fen. */
  function Message(e: FenError, fen: string): string {
    match e
    case Malformed => "Bad fen string: " + fen
    case TooManyRows => "Bad fen string (too many rows): " + fen
    case TooManyColumns => "Bad fen string (too many columns): " + fen
    case PawnOnBackRank => "Bad fen string (pawn in first/last row): " + fen
    case NoKingsideRook => "Bad fen string (no kingside rook): " + fen
    case NoQueensideRook => "Bad fen string (no queenside rook): " + fen
    case UnexpectedCastlingSymbol => "Bad fen string (unexpected casting symbol): " + fen
    case WrongEnPassantRank => "Bad fen string: " + fen + " wrong en passant rank"
    case BadSideToMove => "Bad fen string (side to move): " + fen
  }

  /** The outcome of a step of the reader: a value, or the check that failed. */
  type Parsed<+T> = Result<T, FenError>

  // ----- Character classes of the C locale -----

  /** std::isspace: blank, tab, newline, vertical tab, form feed, carriage return. */
  predicate IsSpace(c: char) {
    c == ' ' || c == '\t' || c == '\n' || c == '\r' || c as int == 11 || c as int == 12
  }

  predicate IsDigit(c: char) {
    '0' <= c <= '9'
  }

  predicate IsUpper(c: char) {
    'A' <= c <= 'Z'
  }

  predicate IsLower(c: char) {
    'a' <= c <= 'z'
  }

  /** std::tolower: an upper-case letter becomes its lower-case letter; anything else is kept. */
  function ToLower(c: char): (r: char)
    ensures IsUpper(c) ==> IsLower(r) && r as int - 'a' as int == c as int - 'A' as int
    ensures !IsUpper(c) ==> r == c
  {
    if IsUpper(c) then (c as int + 32) as char else c
  }

  // ----- Reading the fields from a string stream -----

  /** The text without its trailing whitespace, so that reading the last field reaches the end. */
  function TrimEnd(s: string): (r: string)
    ensures |r| <= |s| && r == s[..|r|]
    ensures r == [] || !IsSpace(r[|r| - 1])
    ensures forall i :: |r| <= i < |s| ==> IsSpace(s[i])
  {
    if s != [] && IsSpace(s[|s| - 1]) then TrimEnd(s[..|s| - 1]) else s
  }

  /** A std::istringstream: the text, the read position and the eof and fail flags. */
  datatype Stream = Stream(text: string, pos: nat, eof: bool, fail: bool)
  {
    predicate Valid() {
      pos <= |text|
    }
  }

  /** The first position at or after i that is not whitespace (or the end). */
  function SkipSpaces(s: string, i: nat): (j: nat)
    requires i <= |s|
    ensures i <= j <= |s|
    ensures forall k :: i <= k < j ==> IsSpace(s[k])
    ensures j < |s| ==> !IsSpace(s[j])
    decreases |s| - i
  {
    if i < |s| && IsSpace(s[i]) then SkipSpaces(s, i + 1) else i
  }

  /** The first position at or after i that is whitespace (or the end). */
  function WordEnd(s: string, i: nat): (j: nat)
    requires i <= |s|
    ensures i <= j <= |s|
    ensures forall k :: i <= k < j ==> !IsSpace(s[k])
    ensures j < |s| ==> IsSpace(s[j])
    decreases |s| - i
  {
    if i < |s| && !IsSpace(s[i]) then WordEnd(s, i + 1) else i
  }

  /** The first position at or after i that is not a decimal digit (or the end). */
  function DigitEnd(s: string, i: nat): (j: nat)
    requires i <= |s|
    ensures i <= j <= |s|
    ensures forall k :: i <= k < j ==> IsDigit(s[k])
    ensures j < |s| ==> !IsDigit(s[j])
    decreases |s| - i
  {
    if i < |s| && IsDigit(s[i]) then DigitEnd(s, i + 1) else i
  }

  /** The number written by a string of decimal digits. */
  function DigitsValue(ds: string): nat
    requires forall k :: 0 <= k < |ds| ==> IsDigit(ds[k])
  {
    PrefixValue(ds, |ds|)
  }

  /** The number written by the first n digits of ds, read left to right. */
  function PrefixValue(ds: string, n: nat): nat
    requires n <= |ds| && forall k :: 0 <= k < n ==> IsDigit(ds[k])
  {
    if n == 0 then 0
    else
      assert IsDigit(ds[n - 1]);
      PrefixValue(ds, n - 1) * 10 + (ds[n - 1] as int - '0' as int)
  }

  /** The value of a prefix depends on the prefix alone. */
  lemma {:induction false} PrefixValueOfPrefix(a: string, b: string, n: nat)
    requires n <= |a| && n <= |b| && a[..n] == b[..n] && forall k :: 0 <= k < n ==> IsDigit(a[k])
    ensures forall k :: 0 <= k < n ==> IsDigit(b[k])
    ensures PrefixValue(a, n) == PrefixValue(b, n)
  {
    forall k | 0 <= k < n ensures b[k] == a[k] {
      assert a[..n][k] == a[k] && b[..n][k] == b[k];
    }
    if n > 0 {
      assert a[..n - 1] == a[..n][..n - 1] && b[..n - 1] == b[..n][..n - 1];
      PrefixValueOfPrefix(a, b, n - 1);
    }
  }

  /** The decimal digits of n, without leading zeros. */
  function DecimalString(n: nat): (ds: string)
    ensures |ds| >= 1 && forall k :: 0 <= k < |ds| ==> IsDigit(ds[k])
  {
    if n < 10 then [('0' as int + n) as char]
    else DecimalString(n / 10) + [('0' as int + n % 10) as char]
  }

  /** Reading the digits of n gives n back. */
  lemma {:induction false} DecimalRoundTrip(n: nat)
    ensures DigitsValue(DecimalString(n)) == n
  {
    if n >= 10 {
      DecimalRoundTrip(n / 10);
      var ds := DecimalString(n);
      var hs := DecimalString(n / 10);
      assert |ds| == |hs| + 1 && ds[..|hs|] == hs[..|hs|];
      PrefixValueOfPrefix(hs, ds, |hs|);
      assert ds[|hs|] as int - '0' as int == n % 10;
      assert PrefixValue(ds, |ds|) == PrefixValue(ds, |hs|) * 10 + n % 10;
      assert PrefixValue(hs, |hs|) == DigitsValue(hs) == n / 10;
    } else {
      assert PrefixValue(DecimalString(n), 1) == PrefixValue(DecimalString(n), 0) * 10 + n;
    }
  }

  /** The range of the C++ int the two numeric fields are read into. */
  const IntMin: int := -0x8000_0000
  const IntMax: int := 0x7FFF_FFFF

  /**
   * stream >> std::string: skips whitespace and takes the run of
   * non-whitespace characters. A stream already failed, or one with nothing
   * but whitespace left, sets the fail flag and leaves the target alone.
   */
  function ReadWord(st: Stream, target: string): (r: (Stream, string))
    requires st.Valid()
    ensures r.0.Valid() && r.0.text == st.text
    ensures !r.0.fail ==> !st.fail && |r.1| >= 1 && forall k :: 0 <= k < |r.1| ==> !IsSpace(r.1[k])
    ensures st.fail ==> r.0.fail
  {
    if st.eof || st.fail then (st.(fail := true), target)
    else
      var b := SkipSpaces(st.text, st.pos);
      if b == |st.text| then (st.(pos := b, eof := true, fail := true), target)
      else
        var e := WordEnd(st.text, b);
        (st.(pos := e, eof := e == |st.text|), st.text[b..e])
  }

  /**
   * stream >> int: skips whitespace, then reads an optional sign and the
   * longest run of digits after it. No digit, or a value outside the range
   * of int, sets the fail flag. Reaching the end of the text sets eof.
   */
  function ReadInt(st: Stream, target: int): (r: (Stream, int))
    requires st.Valid()
    ensures r.0.Valid() && r.0.text == st.text
    ensures !r.0.fail ==> !st.fail && IntMin <= r.1 <= IntMax
    ensures st.fail ==> r.0.fail
  {
    if st.eof || st.fail then (st.(fail := true), target)
    else
      var b := SkipSpaces(st.text, st.pos);
      if b == |st.text| then (st.(pos := b, eof := true, fail := true), target)
      else
        var signed := st.text[b] == '+' || st.text[b] == '-';
        var i := if signed then b + 1 else b;
        var j := DigitEnd(st.text, i);
        if j == i then (Stream(st.text, j, j == |st.text|, true), 0)
        else
          var magnitude: int := DigitsValue(st.text[i..j]);
          var v: int := if st.text[b] == '-' then -magnitude else magnitude;
          if v < IntMin || v > IntMax then (Stream(st.text, j, j == |st.text|, true), target)
          else (Stream(st.text, j, j == |st.text|, false), v)
  }

  /** A word read only when the stream has not reached its end; otherwise the target keeps its default. */
  function ReadWordUnlessEnd(st: Stream, target: string): (r: (Stream, string))
    requires st.Valid()
    ensures r.0.Valid() && r.0.text == st.text
    ensures st.eof ==> r == (st, target)
  {
    if st.eof then (st, target) else ReadWord(st, target)
  }

  /** A number read only when the stream has not reached its end. */
  function ReadIntUnlessEnd(st: Stream, target: int): (r: (Stream, int))
    requires st.Valid()
    ensures r.0.Valid() && r.0.text == st.text
    ensures st.eof ==> r == (st, target)
  {
    if st.eof then (st, target) else ReadInt(st, target)
  }

  /** The six fields of a FEN record as the source reads them. */
  datatype Fields = Fields(board: string, who: string, castlings: string, enPassant: string,
                           rule50: int, moves: int)

  /**
   * The fields read in order, each only while the stream has not reached
   * its end; the missing ones keep their defaults "w", "-", "-", 0 and 1.
   * A failed stream is rejected.
   */
  function ReadFields(fen: string): (r: Parsed<Fields>)
    ensures r.Err? ==> r.error == Malformed
  {
    var board := ReadWord(Stream(fen, 0, false, false), "");
    var who := ReadWordUnlessEnd(board.0, "w");
    var castlings := ReadWordUnlessEnd(who.0, "-");
    var enPassant := ReadWordUnlessEnd(castlings.0, "-");
    var rule50 := ReadIntUnlessEnd(enPassant.0, 0);
    var moves := ReadIntUnlessEnd(rule50.0, 1);
    if moves.0.fail then Err(Malformed)
    else Ok(Fields(board.1, who.1, castlings.1, enPassant.1, rule50.1, moves.1))
  }

  // ----- The piece placement field -----

  type RowIndex = r: int | 0 <= r < 8

  /** The board being filled and the cursor: the row being read (7 first) and the column. */
  datatype Placement = Placement(p: Position, row: RowIndex, col: nat)

  /** The position after ChessBoard::Clear: no piece, both kings on a1, no right, rook files a. */
  const Blank: Position :=
    Position(EmptyBoard, EmptyBoard, EmptyBoard, EmptyBoard, EmptyBoard, 0, 0, Cleared, false)

  /** The letters of the six pieces, upper case for white and lower case for black. */
  predicate IsPieceLetter(c: char) {
    c == 'K' || c == 'Q' || c == 'R' || c == 'B' || c == 'N' || c == 'P' ||
    c == 'k' || c == 'q' || c == 'r' || c == 'b' || c == 'n' || c == 'p'
  }

  /**
   * One piece letter placed on sq: an upper-case letter is ours, any other
   * theirs; the letter decides the king square or the role sets. A pawn on
   * the first or last row and an unknown letter are rejected.
   */
  function PlacePiece(p: Position, sq: Square, c: char): Parsed<Position> {
    var q := if IsUpper(c) then p.(ours := p.ours.Set(sq)) else p.(theirs := p.theirs.Set(sq));
    if c == 'K' then Ok(q.(ourKing := sq))
    else if c == 'k' then Ok(q.(theirKing := sq))
    else if c == 'R' || c == 'r' then Ok(q.(rooks := q.rooks.Set(sq)))
    else if c == 'B' || c == 'b' then Ok(q.(bishops := q.bishops.Set(sq)))
    else if c == 'Q' || c == 'q' then Ok(q.(rooks := q.rooks.Set(sq), bishops := q.bishops.Set(sq)))
    else if c == 'P' || c == 'p' then
      if Row(sq) == RANK_8 || Row(sq) == RANK_1 then Err(PawnOnBackRank)
      else Ok(q.(pawns := q.pawns.Set(sq)))
    else if c == 'N' || c == 'n' then Ok(q)
    else Err(Malformed)
  }

  /**
   * One character of the placement field: '/' moves to the next row down
   * (rejected below the first row), a digit skips that many columns, and a
   * piece letter is placed at the cursor (rejected once the row is full).
   */
  function PlaceChar(st: Placement, c: char): Parsed<Placement> {
    if c == '/' then
      if st.row - 1 < 0 then Err(TooManyRows)
      else Ok(Placement(st.p, st.row - 1, 0))
    else if IsDigit(c) then Ok(st.(col := st.col + (c as int - '0' as int)))
    else if st.col >= 8 then Err(TooManyColumns)
    else
      match PlacePiece(st.p, At(st.row, st.col), c)
      case Err(e) => Err(e)
      case Ok(q) => Ok(Placement(q, st.row, st.col + 1))
  }

  /** The first n characters of the placement field read onto a cleared board. */
  function PlacePrefix(board: string, n: nat): Parsed<Placement>
    requires n <= |board|
  {
    if n == 0 then Ok(Placement(Blank, RANK_8, 0))
    else
      match PlacePrefix(board, n - 1)
      case Err(e) => Err(e)
      case Ok(st) => PlaceChar(st, board[n - 1])
  }

  /** The number of '/' among the characters of s. */
  function Slashes(s: string): nat {
    if s == [] then 0 else Slashes(s[..|s| - 1]) + (if s[|s| - 1] == '/' then 1 else 0)
  }

  // ----- The castling field -----

  /** The rights granted so far and the two rook files (left_rook, right_rook). */
  datatype CastlingScan = CastlingScan(rights: Castlings, left: File, right: File)

  /**
   * The rightmost file at or left of f holding a rook on the given row, -1
   * when there is none. The source's kingside search walks from file h
   * towards the king and stops on the first rook: it finds this file when it
   * lies right of the king and reaches the king's file otherwise.
   */
  function RightmostRook(rooks: BitBoard, rank: RowIndex, f: int): (r: int)
    requires -1 <= f < 8
    ensures -1 <= r <= f
    decreases f + 1
  {
    if f < 0 then -1
    else if rooks.Get(At(rank, f)) then f
    else RightmostRook(rooks, rank, f - 1)
  }

  /**
   * The leftmost file at or right of f holding a rook on the given row, 8
   * when there is none; the queenside search from file a finds it when it
   * lies left of the king.
   */
  function LeftmostRook(rooks: BitBoard, rank: RowIndex, f: int): (r: int)
    requires 0 <= f <= 8
    ensures f <= r <= 8
    decreases 8 - f
  {
    if f > 7 then 8
    else if rooks.Get(At(rank, f)) then f
    else LeftmostRook(rooks, rank, f + 1)
  }

  function Grant00(c: Castlings, black: bool): Castlings {
    if black then c.(theyCan00 := true) else c.(weCan00 := true)
  }

  function Grant000(c: Castlings, black: bool): Castlings {
    if black then c.(theyCan000 := true) else c.(weCan000 := true)
  }

  /** The side a castling symbol speaks for (lower case: black, the opponent before any mirroring). */
  predicate SymbolIsBlack(ch: char) {
    IsLower(ch)
  }

  /** The file of the king of the symbol's side. */
  function KingFile(p: Position, ch: char): File {
    Col(if SymbolIsBlack(ch) then p.theirKing else p.ourKing)
  }

  /** The rooks (not queens) of the symbol's side. */
  function SideRooks(p: Position, ch: char): BitBoard {
    (if SymbolIsBlack(ch) then p.theirs else p.ours).Intersect(p.RooksOnly())
  }

  /** The first row of the symbol's side. */
  function HomeRow(ch: char): RowIndex {
    if SymbolIsBlack(ch) then RANK_8 else RANK_1
  }

  /** The symbol brought to lower case, as the source does for white's symbols. */
  function Symbol(ch: char): char {
    if SymbolIsBlack(ch) then ch else ToLower(ch)
  }

  /**
   * One castling symbol: k/K looks for the outermost rook right of the king
   * and grants kingside castling, q/Q likewise on the left, a file letter
   * a..h (either case) names the rook and grants the side it lies on. A
   * missing rook and any other symbol are rejected.
   */
  function CastlingStep(p: Position, cs: CastlingScan, ch: char): Parsed<CastlingScan> {
    var black := SymbolIsBlack(ch);
    var kingCol := KingFile(p, ch);
    var c := Symbol(ch);
    var rooks := SideRooks(p, ch);
    var rank := HomeRow(ch);
    if c == 'k' then
      var r := RightmostRook(rooks, rank, FILE_H);
      if r <= kingCol then Err(NoKingsideRook)
      else Ok(CastlingScan(Grant00(cs.rights, black), cs.left, r))
    else if c == 'q' then
      var l := LeftmostRook(rooks, rank, FILE_A);
      if l >= kingCol then Err(NoQueensideRook)
      else Ok(CastlingScan(Grant000(cs.rights, black), l, cs.right))
    else if 'a' <= c <= 'h' then
      var rookCol := c as int - 'a' as int;
      if rookCol < kingCol then Ok(CastlingScan(Grant000(cs.rights, black), rookCol, cs.right))
      else Ok(CastlingScan(Grant00(cs.rights, black), cs.left, rookCol))
    else Err(UnexpectedCastlingSymbol)
  }

  /** The first n castling symbols read, starting from the given rights and the rook files a and h. */
  function CastlingPrefix(p: Position, field: string, n: nat): Parsed<CastlingScan>
    requires n <= |field|
  {
    if n == 0 then Ok(CastlingScan(p.castlings, FILE_A, FILE_H))
    else
      match CastlingPrefix(p, field, n - 1)
      case Err(e) => Err(e)
      case Ok(cs) => CastlingStep(p, cs, field[n - 1])
  }

  /** The castling field: "-" leaves the rights alone; otherwise the symbols, then the rook files. */
  function ReadCastlings(p: Position, field: string): Parsed<Castlings> {
    if field == "-" then Ok(p.castlings)
    else
      match CastlingPrefix(p, field, |field|)
      case Err(e) => Err(e)
      case Ok(cs) => Ok(cs.rights.(queensideRook := cs.left, kingsideRook := cs.right))
  }

  // ----- The en-passant field -----

  /** The byte BoardSquare(str) stores: row * 8 + col, reduced to an unsigned byte. */
  function SquareByte(str: string): (b: int)
    ensures 0 <= b < 256
  {
    var rc := ParseCoords(str, false);
    (rc.0 * 8 + rc.1) % 256
  }

  /**
   * The en-passant field as the source reads it: the rank test looks at the
   * row of the stored byte, and the marker goes to row 0 (for a square on
   * rank 3) or row 7 (rank 6) at the byte's column.
   */
  function EnPassantAsWritten(str: string): Parsed<Square> {
    var b := SquareByte(str);
    var row := b / 8;
    if row != RANK_3 && row != RANK_6 then Err(WrongEnPassantRank)
    else Ok(At(if row == RANK_3 then RANK_1 else RANK_8, b % 8))
  }

  /**
   * The en-passant field with the square's coordinates checked before they
   * are packed: a file or rank off the board is rejected like a wrong rank.
   */
  function EnPassantMarker(str: string): Parsed<Square> {
    var rc := ParseCoords(str, false);
    if !IsValid(rc.0, rc.1) || (rc.0 != RANK_3 && rc.0 != RANK_6) then
      Err(WrongEnPassantRank)
    else Ok(At(if rc.0 == RANK_3 then RANK_1 else RANK_8, rc.1))
  }

  // ----- The whole record -----

  /** The side to move: b/B mirrors the board, w/W keeps it, anything else is rejected. */
  function SideToMove(p: Position, who: string): Parsed<Position> {
    if who == "b" || who == "B" then Ok(p.Mirror())
    else if who != "w" && who != "W" then Err(BadSideToMove)
    else Ok(p)
  }

  /** The position the fields describe, the four interpretation steps in the source's order. */
  function FromFields(f: Fields): Parsed<Position> {
    match PlacePrefix(f.board, |f.board|)
    case Err(e) => Err(e)
    case Ok(st) =>
      match ReadCastlings(st.p, f.castlings)
      case Err(e) => Err(e)
      case Ok(c) =>
        var p := st.p.(castlings := c);
        match (if f.enPassant == "-" then Ok(p) else
                 match EnPassantMarker(f.enPassant)
                 case Err(e) => Err(e)
                 case Ok(m) => Ok(p.(pawns := p.pawns.Set(m))))
        case Err(e) => Err(e)
        case Ok(q) => SideToMove(q, f.who)
  }

  /** The parsed position with the halfmove clock and the move number. */
  datatype FenResult = FenResult(pos: Position, rule50: int, moves: int)

  /** SetFromFen: trailing whitespace removed, the fields read, the position built from them. */
  function SetFromFen(fen: string): Parsed<FenResult> {
    var text := TrimEnd(fen);
    match ReadFields(text)
    case Err(e) => Err(e)
    case Ok(f) =>
      match FromFields(f)
      case Err(e) => Err(e)
      case Ok(p) => Ok(FenResult(p, f.rule50, f.moves))
  }

  // ----- Properties -----

  /** Reading a word that starts at or after some whitespace from the read position. */
  lemma ReadWordAt(st: Stream, start: nat, w: string, target: string)
    requires st.Valid() && !st.eof && !st.fail
    requires st.pos <= start && start + |w| <= |st.text|
    requires forall k :: st.pos <= k < start ==> IsSpace(st.text[k])
    requires |w| >= 1 && (forall k :: 0 <= k < |w| ==> !IsSpace(w[k])) && st.text[start..start + |w|] == w
    requires start + |w| == |st.text| || IsSpace(st.text[start + |w|])
    ensures ReadWord(st, target) == (Stream(st.text, start + |w|, start + |w| == |st.text|, false), w)
  {
    assert st.text[start] == w[0];
    var b := SkipSpaces(st.text, st.pos);
    assert b == start;
    var e := WordEnd(st.text, b);
    if e < start + |w| {
      assert false;
    }
    assert e == start + |w|;
  }

  /** Reading a numeral that starts at or after some whitespace. */
  lemma ReadIntAt(st: Stream, start: nat, ds: string, target: int)
    requires st.Valid() && !st.eof && !st.fail
    requires IsNumeral(ds) && DigitsValue(ds) <= IntMax
    requires st.pos <= start && start + |ds| <= |st.text|
    requires forall k :: st.pos <= k < start ==> IsSpace(st.text[k])
    requires st.text[start..start + |ds|] == ds
    requires start + |ds| == |st.text| || IsSpace(st.text[start + |ds|])
    ensures ReadInt(st, target) == (Stream(st.text, start + |ds|, start + |ds| == |st.text|, false), DigitsValue(ds))
  {
    assert st.text[start] == ds[0];
    var b := SkipSpaces(st.text, st.pos);
    assert b == start;
    var j := DigitEnd(st.text, b);
    if j < start + |ds| {
      assert false;
    }
    assert j == start + |ds|;
  }

  /** A run of decimal digits, at least one. */
  predicate IsNumeral(ds: string) {
    |ds| >= 1 && forall k :: 0 <= k < |ds| ==> IsDigit(ds[k])
  }

  /** A FEN field as the writer produces it: at least one character, no whitespace. */
  predicate IsWord(w: string) {
    |w| >= 1 && forall k :: 0 <= k < |w| ==> !IsSpace(w[k])
  }

  /** The word w stands in text at start and is followed by whitespace or the end. */
  predicate WordAt(text: string, start: nat, w: string) {
    start + |w| <= |text| && text[start..start + |w|] == w &&
    (start + |w| == |text| || IsSpace(text[start + |w|]))
  }

  /** Reading the word w that follows one space at the read position. */
  lemma ReadWordNext(st: Stream, w: string, target: string)
    requires st.Valid() && !st.eof && !st.fail && st.pos < |st.text| && st.text[st.pos] == ' '
    requires IsWord(w) && WordAt(st.text, st.pos + 1, w)
    ensures ReadWord(st, target) ==
      (Stream(st.text, st.pos + 1 + |w|, st.pos + 1 + |w| == |st.text|, false), w)
  {
    ReadWordAt(st, st.pos + 1, w, target);
  }

  /** Reading the numeral that follows one space at the read position. */
  lemma ReadIntNext(st: Stream, ds: string, target: int, end: nat, atEnd: bool)
    requires st.Valid() && !st.eof && !st.fail && IsNumeral(ds) && DigitsValue(ds) <= IntMax
    requires st.pos < |st.text| && st.text[st.pos] == ' ' && WordAt(st.text, st.pos + 1, ds)
    requires end == st.pos + 1 + |ds| && atEnd == (end == |st.text|)
    ensures ReadInt(st, target) == (Stream(st.text, end, atEnd, false), DigitsValue(ds))
  {
    ReadIntAt(st, st.pos + 1, ds, target);
  }

  /** Appending a space and a word keeps every word of the text where it was, followed by whitespace. */
  lemma AppendKeepsWord(x: string, w: string, st: nat, v: string)
    requires WordAt(x, st, v)
    ensures WordAt(x + " " + w, st, v)
  {
    var y := x + " " + w;
    assert y[st..st + |v|] == x[st..st + |v|];
    assert st + |v| < |y| && IsSpace(y[st + |v|]);
  }

  /** The appended word stands after the space, at the end of the text. */
  lemma AppendPlacesWord(x: string, w: string)
    ensures WordAt(x + " " + w, |x| + 1, w)
    ensures (x + " " + w)[|x|] == ' '
  {
    var y := x + " " + w;
    assert y[|x| + 1..|x| + 1 + |w|] == w;
  }

  /** Characters already in the text keep their places when a space and a word are appended. */
  lemma AppendKeepsChar(x: string, w: string, i: nat)
    requires i < |x|
    ensures (x + " " + w)[i] == x[i]
  {
  }

  /** A record holding only the placement field gets white to move, no rights, no en passant, 0 and 1. */
  lemma BoardOnlyDefaults(board: string)
    requires IsWord(board)
    ensures ReadFields(board) == Ok(Fields(board, "w", "-", "-", 0, 1))
  {
    ReadWordAt(Stream(board, 0, false, false), 0, board, "");
  }

  /** Four words at the given places, single spaces between them: they are read as the first four fields. */
  lemma FourWordsAt(text: string, board: string, who: string, castlings: string, enPassant: string,
                    b: nat, c: nat, d: nat)
    requires IsWord(board) && IsWord(who) && IsWord(castlings) && IsWord(enPassant)
    requires FourAt(text, board, who, castlings, enPassant, b, c)
    requires d == c + 1 + |enPassant|
    ensures ReadWord(Stream(text, 0, false, false), "") == (Stream(text, |board|, false, false), board)
    ensures ReadWord(Stream(text, |board|, false, false), "w") == (Stream(text, b, false, false), who)
    ensures ReadWord(Stream(text, b, false, false), "-") == (Stream(text, c, false, false), castlings)
    ensures ReadWord(Stream(text, c, false, false), "-") == (Stream(text, d, d == |text|, false), enPassant)
  {
    ReadWordAt(Stream(text, 0, false, false), 0, board, "");
    ReadWordNext(Stream(text, |board|, false, false), who, "w");
    ReadWordNext(Stream(text, b, false, false), castlings, "-");
    ReadWordNext(Stream(text, c, false, false), enPassant, "-");
  }

  /**
   * Four fields separated by single spaces: the halfmove clock and the move
   * number take their defaults 0 and 1.
   */
  lemma FourFieldsDefaults(board: string, who: string, castlings: string, enPassant: string)
    requires IsWord(board) && IsWord(who) && IsWord(castlings) && IsWord(enPassant)
    ensures ReadFields(board + " " + who + " " + castlings + " " + enPassant) ==
      Ok(Fields(board, who, castlings, enPassant, 0, 1))
  {
    var t2 := board + " " + who;
    var t3 := t2 + " " + castlings;
    var text := t3 + " " + enPassant;
    FourWordsLayout(board, who, castlings, enPassant);
    FourWordsAt(text, board, who, castlings, enPassant, |t2|, |t3|, |text|);
  }

  /** Where the four words and the three spaces stand in the record. */
  lemma FourWordsLayout(board: string, who: string, castlings: string, enPassant: string)
    requires IsWord(board)
    ensures var t2 := board + " " + who;
      var t3 := t2 + " " + castlings;
      FourAt(t3 + " " + enPassant, board, who, castlings, enPassant, |t2|, |t3|)
  {
    var t2 := board + " " + who;
    var t3 := t2 + " " + castlings;
    var text := t3 + " " + enPassant;
    assert board[0..|board|] == board;
    AppendKeepsWord(board, who, 0, board);
    AppendPlacesWord(board, who);
    AppendKeepsWord(t2, castlings, 0, board);
    AppendKeepsWord(t2, castlings, |board| + 1, who);
    AppendPlacesWord(t2, castlings);
    AppendKeepsChar(t2, castlings, |board|);
    AppendKeepsWord(t3, enPassant, 0, board);
    AppendKeepsWord(t3, enPassant, |board| + 1, who);
    AppendKeepsWord(t3, enPassant, |t2| + 1, castlings);
    AppendPlacesWord(t3, enPassant);
    AppendKeepsChar(t3, enPassant, |board|);
    AppendKeepsChar(t3, enPassant, |t2|);
  }

  /**
   * The four words of a record, single spaces between them, at their places
   * in text: the second word ends at b, the third at c.
   */
  predicate FourAt(text: string, board: string, who: string, castlings: string, enPassant: string, b: nat, c: nat) {
    b == |board| + 1 + |who| && c == b + 1 + |castlings| &&
    WordAt(text, 0, board) && WordAt(text, |board| + 1, who) && text[|board|] == ' ' &&
    WordAt(text, b + 1, castlings) && text[b] == ' ' &&
    WordAt(text, c + 1, enPassant) && text[c] == ' '
  }

  /** Appending a space and a word keeps the four words in place. */
  lemma AppendKeepsFour(x: string, w: string, board: string, who: string, castlings: string, enPassant: string,
                        b: nat, c: nat)
    requires FourAt(x, board, who, castlings, enPassant, b, c)
    ensures FourAt(x + " " + w, board, who, castlings, enPassant, b, c)
  {
    AppendKeepsWord(x, w, 0, board);
    AppendKeepsWord(x, w, |board| + 1, who);
    AppendKeepsWord(x, w, b + 1, castlings);
    AppendKeepsWord(x, w, c + 1, enPassant);
    AppendKeepsChar(x, w, |board|);
    AppendKeepsChar(x, w, b);
    AppendKeepsChar(x, w, c);
  }

  /**
   * The six fields of a record at their places in text: the four words as
   * FourAt says, then the numerals d50 after position d and dMoves after e,
   * the last one ending the text.
   */
  predicate SixAt(text: string, board: string, who: string, castlings: string, enPassant: string,
                  d50: string, dMoves: string, b: nat, c: nat, d: nat, e: nat) {
    FourAt(text, board, who, castlings, enPassant, b, c) && d == c + 1 + |enPassant| &&
    e == d + 1 + |d50| && |text| == e + 1 + |dMoves| &&
    text[d] == ' ' && WordAt(text, d + 1, d50) && text[e] == ' ' && WordAt(text, e + 1, dMoves)
  }

  /** All six fields, the two numbers written in decimal: each field is read back as written. */
  lemma SixFieldsRead(board: string, who: string, castlings: string, enPassant: string, rule50: nat, moves: nat)
    requires IsWord(board) && IsWord(who) && IsWord(castlings) && IsWord(enPassant)
    requires rule50 <= IntMax && moves <= IntMax
    ensures ReadFields(board + " " + who + " " + castlings + " " + enPassant + " " +
                       DecimalString(rule50) + " " + DecimalString(moves)) ==
      Ok(Fields(board, who, castlings, enPassant, rule50, moves))
  {
    var t2 := board + " " + who;
    var t3 := t2 + " " + castlings;
    var t4 := t3 + " " + enPassant;
    var t5 := t4 + " " + DecimalString(rule50);
    var text := t5 + " " + DecimalString(moves);
    FourWordsLayout(board, who, castlings, enPassant);
    NumbersLayout(t4, board, who, castlings, enPassant, DecimalString(rule50), DecimalString(moves), |t2|, |t3|);
    DecimalRoundTrip(rule50);
    DecimalRoundTrip(moves);
    SixWordsAt(text, board, who, castlings, enPassant, DecimalString(rule50), DecimalString(moves),
               |t2|, |t3|, |t4|, |t5|);
  }

  /** Four words and two numerals at the given places, single spaces between them: all six are read. */
  lemma SixWordsAt(text: string, board: string, who: string, castlings: string, enPassant: string,
                   d50: string, dMoves: string, b: nat, c: nat, d: nat, e: nat)
    requires IsWord(board) && IsWord(who) && IsWord(castlings) && IsWord(enPassant)
    requires IsNumeral(d50) && IsNumeral(dMoves) && DigitsValue(d50) <= IntMax && DigitsValue(dMoves) <= IntMax
    requires SixAt(text, board, who, castlings, enPassant, d50, dMoves, b, c, d, e)
    ensures ReadFields(text) == Ok(Fields(board, who, castlings, enPassant, DigitsValue(d50), DigitsValue(dMoves)))
  {
    ReadIntNext(Stream(text, d, false, false), d50, 0, e, false);
    ReadIntNext(Stream(text, e, false, false), dMoves, 1, |text|, true);
    FourWordsAt(text, board, who, castlings, enPassant, b, c, d);
    FieldsOfReads(text, Stream(text, |board|, false, false), Stream(text, b, false, false),
                  Stream(text, c, false, false), Stream(text, d, false, false), Stream(text, e, false, false),
                  Fields(board, who, castlings, enPassant, DigitsValue(d50), DigitsValue(dMoves)));
  }

  /** Six successful reads through the given stream positions give the six fields. */
  lemma FieldsOfReads(text: string, s1: Stream, s2: Stream, s3: Stream, s4: Stream, s5: Stream, f: Fields)
    requires s1.Valid() && s2.Valid() && s3.Valid() && s4.Valid() && s5.Valid()
    requires !s1.eof && !s2.eof && !s3.eof && !s4.eof && !s5.eof
    requires ReadWord(Stream(text, 0, false, false), "") == (s1, f.board)
    requires ReadWord(s1, "w") == (s2, f.who)
    requires ReadWord(s2, "-") == (s3, f.castlings)
    requires ReadWord(s3, "-") == (s4, f.enPassant)
    requires ReadInt(s4, 0) == (s5, f.rule50)
    requires ReadInt(s5, 1) == (Stream(text, |text|, true, false), f.moves)
    ensures ReadFields(text) == Ok(f)
  {
  }

  /** Two numerals appended to the four words keep the words in place and stand after them. */
  lemma NumbersLayout(t4: string, board: string, who: string, castlings: string, enPassant: string,
                      d50: string, dMoves: string, b: nat, c: nat)
    requires FourAt(t4, board, who, castlings, enPassant, b, c) && |t4| == c + 1 + |enPassant|
    ensures var t5 := t4 + " " + d50;
      SixAt(t5 + " " + dMoves, board, who, castlings, enPassant, d50, dMoves, b, c, |t4|, |t5|)
  {
    var t5 := t4 + " " + d50;
    AppendKeepsFour(t4, d50, board, who, castlings, enPassant, b, c);
    AppendPlacesWord(t4, d50);
    AppendKeepsFour(t5, dMoves, board, who, castlings, enPassant, b, c);
    AppendKeepsWord(t5, dMoves, |t4| + 1, d50);
    AppendKeepsChar(t5, dMoves, |t4|);
    AppendPlacesWord(t5, dMoves);
  }

  /** An empty record, or whitespace alone, is rejected. */
  lemma EmptyRejected(fen: string)
    requires forall k :: 0 <= k < |fen| ==> IsSpace(fen[k])
    ensures SetFromFen(fen).Err?
  {
    assert TrimEnd(fen) == [];
  }

  /** A halfmove field that does not start with a sign or a digit is rejected. */
  lemma NonNumericClockRejected(board: string, who: string, castlings: string, enPassant: string, clock: string)
    requires IsWord(board) && IsWord(who) && IsWord(castlings) && IsWord(enPassant) && IsWord(clock)
    requires !IsDigit(clock[0]) && clock[0] != '+' && clock[0] != '-'
    ensures ReadFields(board + " " + who + " " + castlings + " " + enPassant + " " + clock).Err?
  {
    var t2 := board + " " + who;
    var t3 := t2 + " " + castlings;
    var t4 := t3 + " " + enPassant;
    var text := t4 + " " + clock;
    FourWordsLayout(board, who, castlings, enPassant);
    AppendKeepsFour(t4, clock, board, who, castlings, enPassant, |t2|, |t3|);
    AppendPlacesWord(t4, clock);
    BadClockAt(text, board, who, castlings, enPassant, clock, |t2|, |t3|, |t4|);
  }

  /** Four words, then a fifth that does not start a number: the stream fails. */
  lemma BadClockAt(text: string, board: string, who: string, castlings: string, enPassant: string, clock: string,
                   b: nat, c: nat, d: nat)
    requires IsWord(board) && IsWord(who) && IsWord(castlings) && IsWord(enPassant) && IsWord(clock)
    requires !IsDigit(clock[0]) && clock[0] != '+' && clock[0] != '-'
    requires FourAt(text, board, who, castlings, enPassant, b, c) && d == c + 1 + |enPassant|
    requires WordAt(text, d + 1, clock) && text[d] == ' '
    ensures ReadFields(text).Err?
  {
    FourWordsAt(text, board, who, castlings, enPassant, b, c, d);
    assert text[d + 1] == clock[0];
    assert SkipSpaces(text, d) == d + 1;
  }

  /**
   * The rejections of the placement field: a '/' below the first row, and,
   * for a character that is neither '/' nor a digit, a full row, a letter
   * that is not a piece, or a pawn on the first or last row.
   */
  lemma PlaceCharRejects(st: Placement, c: char)
    ensures PlaceChar(st, c).Err? <==>
      (c == '/' && st.row == RANK_1) ||
      (c != '/' && !IsDigit(c) &&
       (st.col >= 8 || !IsPieceLetter(c) || ((c == 'P' || c == 'p') && (st.row == RANK_1 || st.row == RANK_8))))
  {
  }

  /**
   * What the placement loop keeps: the two sides never share a square,
   * every piece lies before the cursor (on a higher row, or on the cursor's
   * row to its left), every pawn stands on rows 1..6, and the rights and the
   * flipped flag are still those of a cleared board.
   */
  ghost predicate WellPlaced(st: Placement) {
    SidesDisjoint(st.p) &&
    (forall x: Square :: st.p.ours.Get(x) || st.p.theirs.Get(x) ==>
       Row(x) > st.row || (Row(x) == st.row && Col(x) < st.col)) &&
    (forall x: Square :: st.p.pawns.Get(x) ==> Leapers.InPawnMask(x)) &&
    st.p.castlings == Cleared && !st.p.flipped
  }

  /** Each accepted character keeps the placement well formed; only '/' lowers the row, by one. */
  lemma PlaceCharKeeps(st: Placement, c: char)
    requires WellPlaced(st) && PlaceChar(st, c).Ok?
    ensures WellPlaced(PlaceChar(st, c).value)
    ensures PlaceChar(st, c).value.row == st.row - (if c == '/' then 1 else 0)
  {
    if c != '/' && !IsDigit(c) {
      var sq := At(st.row, st.col);
      assert !st.p.ours.Get(sq) && !st.p.theirs.Get(sq);
    }
  }

  /**
   * A prefix of the placement field read without rejection: the placement is
   * well formed, the row is 7 less the number of '/' read, and every
   * character read is '/', a digit or a piece letter.
   */
  lemma {:induction false} PlacePrefixMeaning(board: string, n: nat)
    requires n <= |board| && PlacePrefix(board, n).Ok?
    ensures WellPlaced(PlacePrefix(board, n).value)
    ensures PlacePrefix(board, n).value.row == RANK_8 - Slashes(board[..n])
    ensures forall i :: 0 <= i < n ==> board[i] == '/' || IsDigit(board[i]) || IsPieceLetter(board[i])
  {
    if n == 0 {
      assert board[..0] == [];
    } else {
      PlacePrefixLast(board, n);
      PlacePrefixMeaning(board, n - 1);
      var st := PlacePrefix(board, n - 1).value;
      var c := board[n - 1];
      PlaceCharKeeps(st, c);
      PlaceCharRejects(st, c);
      assert board[..n][..n - 1] == board[..n - 1];
      assert Slashes(board[..n]) == Slashes(board[..n - 1]) + (if c == '/' then 1 else 0);
    }
  }

  /** A prefix read without rejection: the prefix one shorter was too, and the last character was placed on it. */
  lemma PlacePrefixLast(board: string, n: nat)
    requires 0 < n <= |board| && PlacePrefix(board, n).Ok?
    ensures PlacePrefix(board, n - 1).Ok?
    ensures PlacePrefix(board, n) == PlaceChar(PlacePrefix(board, n - 1).value, board[n - 1])
  {
  }

  /** A rejected character ends the reading: the rejection stands for every longer prefix. */
  lemma {:induction false} PlacePrefixErrStands(board: string, n: nat, m: nat)
    requires n <= m <= |board| && PlacePrefix(board, n).Err?
    ensures PlacePrefix(board, m) == PlacePrefix(board, n)
    decreases m - n
  {
    if n < m {
      PlacePrefixErrStands(board, n, m - 1);
    }
  }

  /** An accepted placement field has at most seven '/', that is at most eight rows. */
  lemma AtMostEightRows(board: string)
    requires PlacePrefix(board, |board|).Ok?
    ensures Slashes(board) <= 7
  {
    PlacePrefixMeaning(board, |board|);
    assert board[..|board|] == board;
  }

  /**
   * The rejections of one castling symbol: k/K with no rook of that side
   * right of its king on its first row, q/Q with none left of it, and any
   * symbol other than k, q and a file letter.
   */
  lemma CastlingStepRejects(p: Position, cs: CastlingScan, ch: char)
    ensures CastlingStep(p, cs, ch).Err? <==>
      (Symbol(ch) == 'k' &&
       forall g: File :: KingFile(p, ch) < g ==> !SideRooks(p, ch).Get(At(HomeRow(ch), g))) ||
      (Symbol(ch) == 'q' &&
       forall g: File :: g < KingFile(p, ch) ==> !SideRooks(p, ch).Get(At(HomeRow(ch), g))) ||
      !(Symbol(ch) == 'k' || Symbol(ch) == 'q' || 'a' <= Symbol(ch) <= 'h')
  {
    RightmostRookMeaning(SideRooks(p, ch), HomeRow(ch), FILE_H);
    LeftmostRookMeaning(SideRooks(p, ch), HomeRow(ch), FILE_A);
  }

  /**
   * k/K takes the outermost rook right of the king as the kingside rook and
   * q/Q the outermost one left of it as the queenside rook.
   */
  lemma CastlingStepRook(p: Position, cs: CastlingScan, ch: char)
    requires CastlingStep(p, cs, ch).Ok?
    ensures Symbol(ch) == 'k' ==>
      var r := CastlingStep(p, cs, ch).value.right;
      r > KingFile(p, ch) && SideRooks(p, ch).Get(At(HomeRow(ch), r)) &&
      forall g: File :: r < g ==> !SideRooks(p, ch).Get(At(HomeRow(ch), g))
    ensures Symbol(ch) == 'q' ==>
      var l := CastlingStep(p, cs, ch).value.left;
      l < KingFile(p, ch) && SideRooks(p, ch).Get(At(HomeRow(ch), l)) &&
      forall g: File :: g < l ==> !SideRooks(p, ch).Get(At(HomeRow(ch), g))
  {
    RightmostRookMeaning(SideRooks(p, ch), HomeRow(ch), FILE_H);
    LeftmostRookMeaning(SideRooks(p, ch), HomeRow(ch), FILE_A);
  }

  /** A rejected castling symbol ends the reading: the rejection stands for every longer prefix. */
  lemma {:induction false} CastlingPrefixErrStands(p: Position, field: string, n: nat, m: nat)
    requires n <= m <= |field| && CastlingPrefix(p, field, n).Err?
    ensures CastlingPrefix(p, field, m) == CastlingPrefix(p, field, n)
    decreases m - n
  {
    if n < m {
      CastlingPrefixErrStands(p, field, n, m - 1);
    }
  }

  /** The rightmost rook: none at or left of f, or a rook with none between it and f. */
  lemma {:induction false} RightmostRookMeaning(rooks: BitBoard, rank: RowIndex, f: int)
    requires -1 <= f < 8
    ensures var r := RightmostRook(rooks, rank, f);
      r == -1 <==> forall g: File :: g <= f ==> !rooks.Get(At(rank, g))
    ensures var r := RightmostRook(rooks, rank, f);
      r >= 0 ==> rooks.Get(At(rank, r)) && forall g: File :: r < g <= f ==> !rooks.Get(At(rank, g))
    decreases f + 1
  {
    if f >= 0 && !rooks.Get(At(rank, f)) {
      RightmostRookMeaning(rooks, rank, f - 1);
    }
  }

  /** The leftmost rook likewise, from file f rightwards. */
  lemma {:induction false} LeftmostRookMeaning(rooks: BitBoard, rank: RowIndex, f: int)
    requires 0 <= f <= 8
    ensures var r := LeftmostRook(rooks, rank, f);
      r == 8 <==> forall g: File :: f <= g ==> !rooks.Get(At(rank, g))
    ensures var r := LeftmostRook(rooks, rank, f);
      r < 8 ==> rooks.Get(At(rank, r)) && forall g: File :: f <= g < r ==> !rooks.Get(At(rank, g))
    decreases 8 - f
  {
    if f <= 7 && !rooks.Get(At(rank, f)) {
      LeftmostRookMeaning(rooks, rank, f + 1);
    }
  }

  /** The symbol grants kingside castling: k, or a file letter at or right of the king. */
  predicate Grants00(p: Position, ch: char) {
    Symbol(ch) == 'k' || ('a' <= Symbol(ch) <= 'h' && Symbol(ch) as int - 'a' as int >= KingFile(p, ch))
  }

  /** The symbol grants queenside castling: q, or a file letter left of the king. */
  predicate Grants000(p: Position, ch: char) {
    Symbol(ch) == 'q' || ('a' <= Symbol(ch) <= 'h' && Symbol(ch) as int - 'a' as int < KingFile(p, ch))
  }

  /** One of the four rights: black's or white's, kingside or queenside. */
  predicate Holds(c: Castlings, black: bool, kingside: bool) {
    if black then (if kingside then c.theyCan00 else c.theyCan000)
    else (if kingside then c.weCan00 else c.weCan000)
  }

  predicate Grants(p: Position, ch: char, kingside: bool) {
    if kingside then Grants00(p, ch) else Grants000(p, ch)
  }

  /** One accepted symbol adds the right it grants to its side and changes no other right. */
  lemma CastlingStepRights(p: Position, cs: CastlingScan, ch: char, black: bool, kingside: bool)
    requires CastlingStep(p, cs, ch).Ok?
    ensures Holds(CastlingStep(p, cs, ch).value.rights, black, kingside) <==>
      (Holds(cs.rights, black, kingside) || (SymbolIsBlack(ch) == black && Grants(p, ch, kingside)))
  {
  }

  /** Some symbol among the first n is of the given side and grants the given right. */
  predicate GrantedIn(p: Position, field: string, n: nat, black: bool, kingside: bool)
    requires n <= |field|
  {
    n > 0 &&
    (GrantedIn(p, field, n - 1, black, kingside) ||
     (SymbolIsBlack(field[n - 1]) == black && Grants(p, field[n - 1], kingside)))
  }

  lemma {:induction false} GrantedInMeaning(p: Position, field: string, n: nat, black: bool, kingside: bool)
    requires n <= |field|
    ensures GrantedIn(p, field, n, black, kingside) <==>
      exists i :: 0 <= i < n && SymbolIsBlack(field[i]) == black && Grants(p, field[i], kingside)
  {
    if n > 0 {
      GrantedInMeaning(p, field, n - 1, black, kingside);
      if exists i :: 0 <= i < n && SymbolIsBlack(field[i]) == black && Grants(p, field[i], kingside) {
        var i :| 0 <= i < n && SymbolIsBlack(field[i]) == black && Grants(p, field[i], kingside);
        if i < n - 1 {
          assert exists j :: 0 <= j < n - 1 && SymbolIsBlack(field[j]) == black && Grants(p, field[j], kingside);
        }
      }
    }
  }

  /**
   * After reading symbols without rejection, a right is held exactly when it
   * was held before or some symbol of that side granted it.
   */
  lemma {:induction false} CastlingPrefixRights(p: Position, field: string, n: nat,
                                                black: bool, kingside: bool)
    requires n <= |field| && CastlingPrefix(p, field, n).Ok?
    ensures Holds(CastlingPrefix(p, field, n).value.rights, black, kingside) <==>
      (Holds(p.castlings, black, kingside) ||
       exists i :: 0 <= i < n && SymbolIsBlack(field[i]) == black && Grants(p, field[i], kingside))
  {
    GrantedInMeaning(p, field, n, black, kingside);
    CastlingPrefixGranted(p, field, n, black, kingside);
  }

  lemma {:induction false} CastlingPrefixGranted(p: Position, field: string, n: nat,
                                                 black: bool, kingside: bool)
    requires n <= |field| && CastlingPrefix(p, field, n).Ok?
    ensures Holds(CastlingPrefix(p, field, n).value.rights, black, kingside) <==>
      (Holds(p.castlings, black, kingside) || GrantedIn(p, field, n, black, kingside))
  {
    if n > 0 {
      CastlingPrefixLast(p, field, n, black, kingside);
      CastlingPrefixGranted(p, field, n - 1, black, kingside);
      var added := SymbolIsBlack(field[n - 1]) == black && Grants(p, field[n - 1], kingside);
      assert GrantedIn(p, field, n, black, kingside) == (GrantedIn(p, field, n - 1, black, kingside) || added);
      OrStep(Holds(CastlingPrefix(p, field, n).value.rights, black, kingside),
             Holds(CastlingPrefix(p, field, n - 1).value.rights, black, kingside),
             Holds(p.castlings, black, kingside),
             GrantedIn(p, field, n, black, kingside), GrantedIn(p, field, n - 1, black, kingside), added);
    }
  }

  /** A right held after n steps: held at the start, or added at one of the n steps. */
  lemma OrStep(now: bool, before: bool, start: bool, grantedNow: bool, grantedBefore: bool, added: bool)
    requires now == (before || added) && before == (start || grantedBefore)
    requires grantedNow == (grantedBefore || added)
    ensures now == (start || grantedNow)
  {
  }

  /** The n-th castling symbol adds the right it grants to what the first n - 1 symbols gave. */
  lemma CastlingPrefixLast(p: Position, field: string, n: nat, black: bool, kingside: bool)
    requires 0 < n <= |field| && CastlingPrefix(p, field, n).Ok?
    ensures CastlingPrefix(p, field, n - 1).Ok?
    ensures Holds(CastlingPrefix(p, field, n).value.rights, black, kingside) <==>
      (Holds(CastlingPrefix(p, field, n - 1).value.rights, black, kingside) ||
       (SymbolIsBlack(field[n - 1]) == black && Grants(p, field[n - 1], kingside)))
  {
    var cs := CastlingPrefix(p, field, n - 1).value;
    assert CastlingPrefix(p, field, n) == CastlingStep(p, cs, field[n - 1]);
    CastlingStepRights(p, cs, field[n - 1], black, kingside);
  }

  /** Where the source and the corrected reading agree: a square whose coordinates lie on the board. */
  lemma EnPassantAgrees(str: string)
    requires IsValid(ParseCoords(str, false).0, ParseCoords(str, false).1)
    ensures EnPassantAsWritten(str) == EnPassantMarker(str)
  {
    var rc := ParseCoords(str, false);
    PackedCoords(rc.0, rc.1);
  }

  /** Coordinates on the board survive packing into a byte: row and column come back out. */
  lemma PackedCoords(row: int, col: int)
    requires IsValid(row, col)
    ensures (row * 8 + col) % 256 / 8 == row && (row * 8 + col) % 256 % 8 == col
  {
    var b := row * 8 + col;
    assert 0 <= b < 256;
    assert b % 256 == b;
  }

  /**
   * The source takes "i2", a file beyond h, for a3: the packed byte 1 * 8 + 8
   * is the byte of a3, whose rank passes the test, and a marker is set on a1.
   * The corrected reading rejects it.
   */
  lemma EnPassantFileOverflow()
    ensures EnPassantAsWritten("i2") == Ok(A1)
    ensures EnPassantMarker("i2").Err?
  {
    assert CharAt("i2", 1) == '2' && CharAt("i2", 0) == 'i';
    assert ParseCoords("i2", false) == (1, 8);
    assert SquareByte("i2") == 16;
  }

  /**
   * The corrected reading of a square's name: accepted exactly for the
   * squares of ranks 3 and 6, with the marker on the same file, on the first
   * row for rank 3 and on the last row for rank 6.
   */
  lemma EnPassantMarkerRoundTrip(sq: Square)
    ensures EnPassantMarker(AsString(sq)).Ok? <==> Row(sq) == RANK_3 || Row(sq) == RANK_6
    ensures EnPassantMarker(AsString(sq)).Ok? ==>
      Col(EnPassantMarker(AsString(sq)).value) == Col(sq) &&
      Row(EnPassantMarker(AsString(sq)).value) == (if Row(sq) == RANK_3 then RANK_1 else RANK_8)
  {
    AsStringRoundTrip(sq);
  }

  /** A marker never lies on the rows of real pawns. */
  lemma EnPassantMarkerOffPawnRows(str: string)
    requires EnPassantMarker(str).Ok?
    ensures !Leapers.InPawnMask(EnPassantMarker(str).value)
  {
  }

  /** With black to move the parsed board is the white-to-move board mirrored; both fail alike. */
  lemma BlackIsMirroredWhite(f: Fields)
    ensures FromFields(f.(who := "b")).Ok? <==> FromFields(f.(who := "w")).Ok?
    ensures FromFields(f.(who := "b")).Ok? ==>
      FromFields(f.(who := "b")).value == FromFields(f.(who := "w")).value.Mirror()
  {
  }

  /** A side to move other than w, W, b and B is rejected. */
  lemma UnknownSideRejected(f: Fields)
    requires f.who != "w" && f.who != "W" && f.who != "b" && f.who != "B"
    ensures FromFields(f).Err?
  {
  }

  /** The pawn bits off rows 1..6: the en-passant markers. */
  ghost predicate AtMostOneMarker(p: Position) {
    forall x: Square, y: Square ::
      p.pawns.Get(x) && !Leapers.InPawnMask(x) && p.pawns.Get(y) && !Leapers.InPawnMask(y) ==> x == y
  }

  ghost predicate NoMarker(p: Position) {
    forall x: Square :: p.pawns.Get(x) ==> Leapers.InPawnMask(x)
  }

  /**
   * A parsed position: the two sides share no square, there is at most one
   * en-passant marker and none when the field is "-", and the board is
   * flipped exactly when black is to move.
   */
  lemma ParsedPosition(f: Fields)
    requires FromFields(f).Ok?
    ensures SidesDisjoint(FromFields(f).value)
    ensures AtMostOneMarker(FromFields(f).value)
    ensures f.enPassant == "-" ==> NoMarker(FromFields(f).value)
    ensures FromFields(f).value.flipped <==> f.who == "b" || f.who == "B"
  {
    PlacePrefixMeaning(f.board, |f.board|);
    var st := PlacePrefix(f.board, |f.board|).value;
    var c := ReadCastlings(st.p, f.castlings).value;
    var p := st.p.(castlings := c);
    var q := if f.enPassant == "-" then p else p.(pawns := p.pawns.Set(EnPassantMarker(f.enPassant).value));
    assert AtMostOneMarker(q);
    if f.who == "b" || f.who == "B" {
      MirrorKeepsSidesDisjoint(q);
      forall x: Square ensures q.Mirror().pawns.Get(x) == q.pawns.Get(Squares.Mirror(x)) &&
                               Leapers.InPawnMask(x) == Leapers.InPawnMask(Squares.Mirror(x)) {
        Leapers.PawnMaskMirror(x);
      }
      forall x: Square, y: Square | q.Mirror().pawns.Get(x) && !Leapers.InPawnMask(x) &&
                                    q.Mirror().pawns.Get(y) && !Leapers.InPawnMask(y)
        ensures x == y
      {
        Leapers.PawnMaskMirror(x);
        Leapers.PawnMaskMirror(y);
        MirrorInvolution(x);
        MirrorInvolution(y);
      }
    }
  }

  /** The same for the whole record as text. */
  lemma SetFromFenParsed(fen: string)
    requires SetFromFen(fen).Ok?
    ensures SidesDisjoint(SetFromFen(fen).value.pos)
    ensures AtMostOneMarker(SetFromFen(fen).value.pos)
  {
    ParsedPosition(ReadFields(TrimEnd(fen)).value);
  }
}
