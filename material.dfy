/**
 * ChessBoard::HasMatingMaterial: whether either side may still be able to
 * mate. Any rook, queen or pawn is enough; with fewer than four pieces on
 * the board there is none; otherwise a knight is enough, and bishops only
 * when there are bishops on both square colours.
 */
module Material {
  import opened Squares
  import opened BitBoards
  import opened Leapers
  import opened Positions

  /** kLightSquares and kDarkSquares. */
  const LightSquares: BitBoard := BitBoard(set x: Square | IsLight(x))
  const DarkSquares: BitBoard := BitBoard(set x: Square | !IsLight(x))

  /**
   * What the decision reads from a position: a rook, queen or pawn on the
   * board (heavy), the number of pieces, a knight, a bishop on a light
   * square and one on a dark square.
   */
  datatype Material = Material(heavy: bool, pieces: nat, knight: bool, lightBishop: bool, darkBishop: bool)
  {
    /** The same material with the two bishop colours exchanged. */
    function SwapColours(): Material {
      this.(lightBishop := darkBishop, darkBishop := lightBishop)
    }
  }

  function MaterialOf(p: Position): Material {
    Material(!p.rooks.Empty() || !p.pawns.Empty(), p.ours.Union(p.theirs).Count(), !p.Knights().Empty(),
             p.bishops.Intersects(LightSquares), p.bishops.Intersects(DarkSquares))
  }

  /**
   * The decision: heavy material is enough; fewer than four pieces are not;
   * then a knight is enough, and bishops only on both colours.
   */
  predicate Enough(m: Material) {
    if m.heavy then true
    else if m.pieces < 4 then false
    else if m.knight then true
    else m.lightBishop && m.darkBishop
  }

  predicate HasMatingMaterial(p: Position) {
    Enough(MaterialOf(p))
  }

  /** The decision treats the two bishop colours alike. */
  lemma EnoughSwapColours(m: Material)
    ensures Enough(m.SwapColours()) == Enough(m)
  {
  }

  /** A set is empty exactly when its mirror image is. */
  lemma MirrorEmpty(b: BitBoard)
    ensures b.Mirror().Empty() <==> b.Empty()
  {
    MirrorCount(b);
  }

  /** A square of b has its mirror image, of the other colour, in b's mirror image. */
  lemma MirrorImageIn(b: BitBoard, x: Square)
    requires x in b.squares
    ensures Mirror(x) in b.Mirror().squares && IsLight(Mirror(x)) == !IsLight(x)
  {
    MirrorInvolution(x);
    assert b.Mirror().Get(Mirror(x)) == b.Get(Mirror(Mirror(x)));
    MirrorFlipsColour(x);
  }

  /** A square of b's mirror image comes from its mirror image, of the other colour, in b. */
  lemma MirrorImageFrom(b: BitBoard, y: Square)
    requires y in b.Mirror().squares
    ensures Mirror(y) in b.squares && IsLight(Mirror(y)) == !IsLight(y)
  {
    assert b.Mirror().Get(y) == b.Get(Mirror(y));
    MirrorFlipsColour(y);
  }

  /** b's mirror image meets the light squares exactly when b meets the dark ones. */
  lemma MirrorLightFromDark(b: BitBoard)
    ensures b.Mirror().Intersects(LightSquares) <==> b.Intersects(DarkSquares)
  {
    if b.Intersects(DarkSquares) {
      var x :| x in b.squares * DarkSquares.squares;
      MirrorImageIn(b, x);
      assert Mirror(x) in b.Mirror().squares * LightSquares.squares;
    }
    if b.Mirror().Intersects(LightSquares) {
      var y :| y in b.Mirror().squares * LightSquares.squares;
      MirrorImageFrom(b, y);
      assert Mirror(y) in b.squares * DarkSquares.squares;
    }
  }

  /** b's mirror image meets the dark squares exactly when b meets the light ones. */
  lemma MirrorDarkFromLight(b: BitBoard)
    ensures b.Mirror().Intersects(DarkSquares) <==> b.Intersects(LightSquares)
  {
    if b.Intersects(LightSquares) {
      var x :| x in b.squares * LightSquares.squares;
      MirrorImageIn(b, x);
      assert Mirror(x) in b.Mirror().squares * DarkSquares.squares;
    }
    if b.Mirror().Intersects(DarkSquares) {
      var y :| y in b.Mirror().squares * DarkSquares.squares;
      MirrorImageFrom(b, y);
      assert Mirror(y) in b.squares * LightSquares.squares;
    }
  }

  /** Mirroring swaps the light-square and dark-square bishops. */
  lemma MirrorSwapsColours(b: BitBoard)
    ensures b.Mirror().Intersects(LightSquares) <==> b.Intersects(DarkSquares)
    ensures b.Mirror().Intersects(DarkSquares) <==> b.Intersects(LightSquares)
  {
    MirrorLightFromDark(b);
    MirrorDarkFromLight(b);
  }

  /** The mirrored position has a knight exactly when the position has one. */
  lemma MirrorKnights(p: Position)
    ensures p.Mirror().Knights().Empty() <==> p.Knights().Empty()
  {
    if !p.Knights().Empty() {
      var y :| p.Knights().Get(y);
      MirrorInvolution(y);
      MirrorKnightAt(p, Mirror(y));
    }
    if !p.Mirror().Knights().Empty() {
      var x :| p.Mirror().Knights().Get(x);
      MirrorKnightAt(p, x);
    }
  }

  /** The knights of the mirrored position are the mirrored knights. */
  lemma MirrorKnightAt(p: Position, x: Square)
    ensures p.Mirror().Knights().Get(x) == p.Knights().Get(Mirror(x))
  {
    var q := p.Mirror();
    var y := Mirror(x);
    MirrorInvolution(p.ourKing);
    MirrorInvolution(p.theirKing);
    MirrorInvolution(x);
    PawnMaskMirror(x);
    assert (x == q.ourKing) == (y == p.theirKing);
    assert (x == q.theirKing) == (y == p.ourKing);
    assert q.Pawns().Get(x) == p.Pawns().Get(y);
  }

  /** The number of pieces on the board does not change under mirroring. */
  lemma MirrorOccupiedCount(p: Position)
    ensures p.Mirror().ours.Union(p.Mirror().theirs).Count() == p.ours.Union(p.theirs).Count()
  {
    var u := p.ours.Union(p.theirs);
    forall x: Square ensures p.Mirror().ours.Union(p.Mirror().theirs).Get(x) == u.Mirror().Get(x) {
    }
    assert p.Mirror().ours.Union(p.Mirror().theirs).squares == u.Mirror().squares;
    MirrorCount(u);
  }

  /** The answer does not depend on which side is to move: mirroring the position keeps it. */
  lemma MirrorKeepsMatingMaterial(p: Position)
    ensures HasMatingMaterial(p.Mirror()) == HasMatingMaterial(p)
  {
    MirrorMaterial(p);
    EnoughSwapColours(MaterialOf(p));
  }

  /** Mirroring keeps every quantity the decision reads, except that the two bishop colours swap. */
  lemma MirrorMaterial(p: Position)
    ensures MaterialOf(p.Mirror()) == MaterialOf(p).SwapColours()
  {
    MirrorEmpty(p.rooks);
    MirrorEmpty(p.pawns);
    MirrorOccupiedCount(p);
    MirrorKnights(p);
    MirrorSwapsColours(p.bishops);
  }

  /** Bare kings, or kings with one minor piece, cannot mate. */
  lemma FewPiecesCannotMate(p: Position)
    requires p.rooks.Empty() && p.pawns.Empty() && p.Occupied().Count() <= 3
    ensures !HasMatingMaterial(p)
  {
  }

  /** With no rook, queen or pawn, at least four pieces and bishops on both colours, mate may be possible. */
  lemma OppositeBishopsCanMate(p: Position, x: Square, y: Square)
    requires p.rooks.Empty() && p.pawns.Empty() && p.Occupied().Count() >= 4
    requires p.bishops.Get(x) && p.bishops.Get(y) && IsLight(x) && !IsLight(y)
    ensures HasMatingMaterial(p)
  {
    assert x in p.bishops.squares * LightSquares.squares;
    assert y in p.bishops.squares * DarkSquares.squares;
  }
}
