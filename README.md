# lc0 chess position core, modelled in Dafny

This project models the chess position at the centre of Leela Chess Zero
(the CSCI5622-DeeperBlue fork of lc0): the `BoardSquare`, `BitBoard` and
`Move` value types of `src/chess/bitboard.h`, and the `ChessBoard` operations
of `src/chess/board.cc`:

- the magic (pext) attack tables for rooks and bishops;
- attack detection, and the king's attack lines and pins;
- pseudo-legal and legal move generation;
- applying a move, and mirroring the board;
- reading FEN, legacy and modern castling notation;
- the mating-material test.

The board is always seen from the side to move. "Our" pieces are the mover's
and "their" pieces the opponent's. A black side to move is handled by
mirroring the whole board, so that the mover's pieces start on row 0. An
en-passant possibility is recorded as a fake pawn (a "marker") on row 0 or
row 7. Castling is encoded as the king taking its own rook.

The model covers one 8x8 plane. A square is a number `0 <= s < 64` with
row `s / 8` and column `s % 8`. A bit board is the set of its squares. A move
is its 16-bit word.

`ChessBoard` is a class whose fields are the source's fields. Each method
that updates or walks those fields carries a contract that ties the new
state, or the result, to a function on the `Position` value (`Model()`).
These are `ApplyMove`, `GenerateKingAttackInfo`, `GeneratePseudolegalMoves`,
`IsLegalMove`, `GenerateLegalMoves` and `SetFromFen`. The meaning of those
functions is proved separately, against independent reference definitions:

- attacks as rays that stop at the first piece;
- check as "some opponent piece reaches the king";
- legality rules stated case by case;
- the FEN fields as read back from text.

Reading FEN follows board.cc except at one point, listed under "## Findings".
The en-passant field is read with the corrected `Fen.EnPassantMarker`, so an
off-board square such as "i2" is rejected. board.cc packs that square into a
byte first and ends up with a marker on a1.

`BuildAttacksTable` keeps its array and loops. It is proved to fill every
slot with the attacks of its occupancy, or to report
`"Invalid magic number!"` exactly when the index function collides. The pext
index is proved never to collide.

Module map:

| file | module | models |
|---|---|---|
| `squares.dfy` | `Squares` | `BoardSquare` |
| `bitboards.dfy` | `BitBoards` | `BitBoard` |
| `moves.dfy` | `Moves` | `Move` |
| `rays.dfy` | `Rays` | slider rays and relevant masks |
| `pext.dfy` | `Pext` | `_pext_u64` over a mask |
| `attack_tables.dfy` | `AttackTables` | `BuildAttacksTable`, `GetRookAttacks`, `GetBishopAttacks` |
| `leapers.dfy` | `Leapers` | the knight, pawn and king pattern tables |
| `castlings.dfy` | `Castling` | the castling rights |
| `positions.dfy` | `Positions` | the board as a value |
| `attacks.dfy` | `Attacks` | `IsUnderAttack` |
| `king_attacks.dfy` | `KingAttacks` | `GenerateKingAttackInfo` |
| `movegen.dfy` | `MoveGen` | `GeneratePseudolegalMoves` |
| `legality.dfy` | `Legality` | `IsLegalMove`, `GenerateLegalMoves` |
| `apply.dfy` | `Apply` | `ApplyMove` |
| `fen.dfy` | `Fen` | `SetFromFen` |
| `notation.dfy` | `Notation` | `IsSameMove`, `GetLegacyMove`, `GetModernMove` |
| `material.dfy` | `Material` | `HasMatingMaterial` |
| `board.dfy` | `Board` | the `ChessBoard` class |
| `wrappers.dfy` | `Wrappers` | `Option` and `Result` |

## Model

| member | source | states |
|---|---|---|
| Squares.Row | src/chess/bitboard.h:67 | a square's row is within 0..7 |
| Squares.Col | src/chess/bitboard.h:69 | a square's column is within 0..7 |
| Squares.At | src/chess/bitboard.h:53 | the square built from valid coordinates has exactly that row and column |
| Squares.SquareFromCoords | src/chess/bitboard.h:66-69 | a square is determined by its row and column |
| Squares.Mirror | src/chess/bitboard.h:74 | mirroring (xor 0b111000) maps row r to 7 - r and keeps the column |
| Squares.MirrorInvolution | src/chess/bitboard.h:74 | mirroring a square twice gives it back |
| Squares.AsString | src/chess/bitboard.h:93-95 | algebraic notation of a square is two characters |
| Squares.AsStringRoundTrip | src/chess/bitboard.h:56-57 | parsing `as_string` gives back the row and column, and 7 - row when read from black's side |
| BitBoards.BitBoard.Set | src/chess/bitboard.h:188-196 | `set` turns the square on and leaves every other square as it was |
| BitBoards.BitBoard.Reset | src/chess/bitboard.h:201-209 | `reset` turns the square off and leaves every other square as it was |
| BitBoards.BitBoard.SetIf | src/chess/bitboard.h:180-181 | `set_if` sets the square exactly when the condition holds, never clears, changes nothing else |
| BitBoards.BitBoard.Union | src/chess/bitboard.h:303-307 | `operator\|` holds a square iff either operand does |
| BitBoards.BitBoard.Intersect | src/chess/bitboard.h:310-314 | `operator&` holds a square iff both operands do |
| BitBoards.BitBoard.Minus | src/chess/bitboard.h:325-329 | `a - b` holds the squares of a not in b |
| BitBoards.BitBoard.MinusSquare | src/chess/bitboard.h:318-322 | `a - square` removes exactly that square |
| BitBoards.BitBoard.Intersects | src/chess/bitboard.h:244-248 | `intersects` iff the intersection is non-empty |
| BitBoards.BitBoard.Empty | src/chess/bitboard.h:237-241 | `empty` iff no square is set |
| BitBoards.BitBoard.Count | src/chess/bitboard.h:131-151 | the population count is zero iff the board is empty |
| BitBoards.BitBoard.Mirror | src/chess/bitboard.h:251-255 | byte reversal holds square x iff the original holds the mirror of x |
| BitBoards.MirrorTwice | src/chess/bitboard.h:251-255 | mirroring a board twice gives it back |
| BitBoards.MirrorCount | src/chess/bitboard.h:251-255 | mirroring keeps the population count |
| BitBoards.Elements | src/chess/bitboard.h:270-271 | iterating a board visits exactly its squares |
| BitBoards.ElementsAscending | src/chess/bitboard.h:270-271 | the iteration goes strictly upwards, so no square comes twice |
| BitBoards.Lowest | src/chess/bitboard.h:270 | the lowest set square is set and below every other set square |
| BitBoards.LowestFirst | src/chess/bitboard.h:270 | the iteration starts at the lowest set square |
| BitBoards.CountFew | src/chess/bitboard.h:156-168 | the clear-lowest-bit counting loop returns the population count |
| Moves.Promotion.Code | src/chess/bitboard.h:344 | the enumerators None..Knight have values 0..4; any other three-bit value is unnamed |
| Moves.PromotionOfCode | src/chess/bitboard.h:356 | `Promotion(value)` names the enumerator of that value |
| Moves.PromotionCodeInjective | src/chess/bitboard.h:344 | a promotion is determined by its value |
| Moves.Move.SetTo | src/chess/bitboard.h:358 | `SetTo` changes the destination and keeps origin, promotion and bit 15 |
| Moves.Move.SetFrom | src/chess/bitboard.h:359-361 | `SetFrom` changes the origin and keeps destination, promotion and bit 15 |
| Moves.Move.SetPromotion | src/chess/bitboard.h:362-364 | `SetPromotion` changes the promotion and keeps both squares and bit 15 |
| Moves.Move.Mirror | src/chess/bitboard.h:376 | mirroring a move mirrors both squares and keeps the promotion |
| Moves.Move.AsString | src/chess/bitboard.h:378-394 | a move's text is origin then destination, with a q/r/b/n suffix per promotion, and "Error!" for an unnamed value |
| Moves.NewMove | src/chess/bitboard.h:348-350 | the three-argument constructor's move reads back its origin, destination and promotion |
| Moves.NewPlainMove | src/chess/bitboard.h:346-347 | the two-argument constructor's move reads back its squares and has no promotion |
| Moves.Repack | src/chess/bitboard.h:404-408 | a word is the sum of its masked fields |
| Moves.MoveFromFields | src/chess/bitboard.h:374 | two moves with equal fields are equal (`operator==` on the word) |
| Moves.NewMoveOfFields | src/chess/bitboard.h:346-356 | rebuilding a move from its fields gives it back when bit 15 is clear |
| Moves.MirrorTwice | src/chess/bitboard.h:376 | mirroring a move twice gives it back |
| Rays.RaySquare | src/chess/board.cc:384-389 | the k-th square of a ray is k steps along the direction in row and column |
| Rays.OnBoardBound | src/chess/board.cc:384-389 | a ray leaves the board after at most seven steps |
| Rays.RaySquareInjective | src/chess/board.cc:384-389 | different step counts reach different squares |
| Rays.RayFromMeaning | src/chess/board.cc:384-393 | the attack walk holds exactly the on-board ray squares with no piece strictly before them |
| Rays.MaskFromMeaning | src/chess/board.cc:331-346 | the mask walk holds exactly the ray squares whose next square is still on the board |
| Rays.MaskExcludesEnds | src/chess/board.cc:337-341 | the relevant mask never holds the origin or the last square of a ray |
| Rays.AttacksDependOnMask | src/chess/board.cc:372-393 | two occupancies that agree on the relevant mask give the same slider attacks |
| Rays.AttacksOfMaskedOccupancy | src/chess/board.cc:428-445 | the attacks for any occupancy equal those for the occupancy restricted to the mask |
| Rays.SliderAttacksNonEmpty | src/chess/board.cc:384-393 | a rook or bishop always attacks at least one square |
| Rays.RaySymmetric | src/chess/board.cc:770-778 | x is on the ray from s along d iff s is on the ray from x along -d |
| Rays.SliderSymmetric | src/chess/board.cc:770-778 | a slider on s attacks x iff one on x attacks s, so attacks can be read from the target |
| Rays.SliderAttacksWithinEmpty | src/chess/board.cc:836 | attacks with pieces on the board lie within the empty-board attacks (the kRookAttacks/kBishopAttacks pre-test) |
| Pext.Extract | src/chess/board.cc:413-414 | the pext index of an occupancy is below 2 to the number of mask squares |
| Pext.ExtractOccupancy | src/chess/board.cc:374-379 | pext of occupancy number i (set_if by bit i) is i |
| Pext.OccupancyExtract | src/chess/board.cc:413-414 | rebuilding the occupancy from its pext index gives the occupancy restricted to the mask |
| Pext.ExtractInjective | src/chess/board.cc:413-414 | distinct subsets of a mask get distinct pext indices |
| AttackTables.MaskSquares | src/chess/board.cc:352-356 | the cached occupancy squares are distinct and are exactly the relevant mask |
| AttackTables.OffsetMonotone | src/chess/board.cc:422 | table_offset never decreases from one square to the next |
| AttackTables.PextIndex | src/chess/board.cc:413-414 | the pext index stays inside the square's block for every subset of its mask |
| AttackTables.PextNeverCollides | src/chess/board.cc:404-414 | with pext two subsets never share a slot with different attacks |
| AttackTables.RookBishopAlwaysAttack | src/chess/board.cc:404-411 | every occupancy leaves a rook or bishop some attack, so an empty slot means unused |
| AttackTables.ComputeMask | src/chess/board.cc:328-346 | the mask loop computes the relevant mask |
| AttackTables.AddMaskRay | src/chess/board.cc:332-345 | one direction of the mask loop adds that direction's mask squares |
| AttackTables.ComputeAttacks | src/chess/board.cc:381-393 | the attack loop computes the slider attacks for the occupancy |
| AttackTables.AddAttackRay | src/chess/board.cc:385-392 | one direction of the attack loop adds the ray up to and including the first occupied square |
| AttackTables.BuildOccupancy | src/chess/board.cc:375-379 | the set_if loop builds the occupancy numbered i |
| AttackTables.ClearBlock | src/chess/board.cc:367-370 | clearing empties exactly the square's block |
| AttackTables.AllSubsetsDone | src/chess/board.cc:374 | the numbers 0 .. 2^n - 1 enumerate every subset of the mask |
| AttackTables.StoreSlot | src/chess/board.cc:408-418 | a slot is written iff it is empty or already holds the same attacks; otherwise nothing changes |
| AttackTables.FillSlot | src/chess/board.cc:374-419 | one occupancy: its slot gets its attacks, or a collision is reported |
| AttackTables.FillSubsets | src/chess/board.cc:374-419 | the slot loop fills the block, or reports a collision |
| AttackTables.FillBlock | src/chess/board.cc:367-419 | one square's block is filled without touching other slots iff the index does not collide there |
| AttackTables.NoCollisionWhenFilled | src/chess/board.cc:404-411 | a filled block shows the index has no collision at that square |
| AttackTables.BlockBefore | src/chess/board.cc:365-422 | the block of an earlier square ends before that of a later one |
| AttackTables.BuildAttacksTable | src/chess/board.cc:317-425 | succeeds iff the index never collides, then every slot holds its occupancy's attacks; otherwise fails with "Invalid magic number!" |
| AttackTables.SliderTable.Attacks | src/chess/board.cc:428-445 | the table lookup returns the slider attacks for the pieces on the board |
| AttackTables.SliderTable.Lookup | src/chess/board.cc:428-445 | the slot read is within the table and holds the attacks of the whole occupancy |
| Attacks.Tables.RookAttacks | src/chess/board.cc:428-445 | GetRookAttacks returns the rook rays up to the first piece |
| Attacks.Tables.BishopAttacks | src/chess/board.cc:447-463 | GetBishopAttacks returns the bishop rays up to the first piece |
| Attacks.PawnAttacksMeaning | src/chess/board.cc:780 | kPawnAttacks[sq] lists exactly the squares from which an opponent pawn takes on sq |
| Attacks.IsUnderAttack | src/chess/board.cc:760-792 | true iff the opponent king touches the square or some opponent piece reaches it |
| Attacks.AttackedFromTarget | src/chess/board.cc:769-790 | an opponent piece reaches the square iff one of the four attacker kinds is seen from it |
| Attacks.Attacked | src/chess/board.cc:760-792 | reference definition: the opponent king touches the square or some opponent piece reaches it as rook, bishop, pawn or knight; Attacks.IsUnderAttack is proved equal to it |
| Leapers.KnightAttacksSymmetric | src/chess/board.cc:785 | a knight on a attacks b iff one on b attacks a |
| Leapers.KnightAttacksMirror | src/chess/board.cc:785 | knight attacks commute with mirroring |
| Leapers.PawnMaskMirror | src/chess/board.cc:55 | mirroring keeps a square inside or outside kPawnMask |
| Leapers.KingDeltasAreNeighbours | src/chess/board.cc:82-91 | the king deltas are exactly the eight one-square steps |
| Leapers.MirrorFlipsColour | src/chess/board.cc:1208-1209 | mirroring a square changes its colour |
| Castling.Castlings.Mirror | src/chess/board.cc:75 | mirroring swaps our rights with theirs and keeps the rook files |
| Castling.MirrorTwice | src/chess/board.cc:75 | mirroring the rights twice gives them back |
| Positions.Position.Occupied | src/chess/board.cc:770 | `our_pieces_ \| their_pieces_` holds the pieces of either side |
| Positions.Position.Pawns | src/chess/board.cc:566 | `pawns_ & kPawnMask` is the pawns without the en-passant markers |
| Positions.Position.RooksOnly | src/chess/board.cc:658 | rooks() is the rooks without the queens |
| Positions.Position.Knights | src/chess/board.cc:785-787 | the knights are the pieces that are no pawn, king, rook, bishop or queen |
| Positions.Position.Mirror | src/chess/board.cc:65-77 | Mirror mirrors and exchanges the sides and kings, mirrors the roles, mirrors the rights, flips the flag |
| Positions.MirrorTwice | src/chess/board.cc:65-77 | mirroring a position twice restores every field |
| Positions.MirrorKeepsSidesDisjoint | src/chess/board.cc:65-77 | mirroring keeps the two sides apart |
| KingAttacks.ScanPass | src/chess/board.cc:844-875 | one empty or own-piece step of the walk records the square on the line, or the possible pinned piece |
| KingAttacks.Scan | src/chess/board.cc:844-875 | the walk along one ray from the king as a function: the lines, the pin or nothing it finds; its meaning is KingAttacks.RayCheckMeaning and KingAttacks.RayPinMeaning |
| KingAttacks.NoCheckAfterPin | src/chess/board.cc:864-866 | after an own piece has been met the walk reports no check |
| KingAttacks.ScanCheck | src/chess/board.cc:844-875 | the walk reports a check iff the first piece on the ray is an opponent slider of the family |
| KingAttacks.ScanCheckLine | src/chess/board.cc:859-870 | a reported check line is the ray up to and including the checker |
| KingAttacks.RayCheckMeaning | src/chess/board.cc:837-877 | a ray gives check iff an opponent slider of the family is its first piece, and its line is the attack ray |
| KingAttacks.ScanPin | src/chess/board.cc:849-866 | a reported pin is an own piece with an opponent family slider as the next piece behind it |
| KingAttacks.RayPinMeaning | src/chess/board.cc:837-877 | a pin reported along a ray is a real pin along it |
| KingAttacks.ScanAllMeaning | src/chess/board.cc:836-878 | the attack lines lie within the slider attacks of the king square and contain every checking family slider; the count is zero iff there are no lines; every pinned piece is pinned along some direction |
| KingAttacks.ScanAll | src/chess/board.cc:836-878 | the walks over a family's four directions added up; its meaning is KingAttacks.ScanAllMeaning |
| KingAttacks.NotInReachNoHit | src/chess/board.cc:836-880 | with no family slider on the empty-board lines, every walk finds nothing |
| KingAttacks.ShortcutSound | src/chess/board.cc:836-880 | the kRookAttacks/kBishopAttacks pre-test changes nothing: skipping the walks gives what they would give |
| KingAttacks.InCheckMeaning | src/chess/board.cc:826-950 | in_check iff some opponent piece reaches our king |
| KingAttacks.CheckersOnAttackLines | src/chess/board.cc:836-944 | every opponent piece that reaches our king is on the attack lines |
| KingAttacks.PinnedMeaning | src/chess/board.cc:864-910 | every recorded pinned piece is pinned along a rook or bishop direction |
| KingAttacks.DoubleCheckIsCheck | src/chess/board.cc:946-947 | a double check is a check |
| KingAttacks.KingAttackInfoOf | src/chess/board.cc:826-950 | the attack lines, pinned pieces and double-check flag GenerateKingAttackInfo returns; proved against the reference by InCheckMeaning, CheckersOnAttackLines, PinnedMeaning and PinRecorded |
| KingAttacks.ScanFindsPin | src/chess/board.cc:849-866 | an own piece alone between the king and an opponent family slider on the ray is what the walk reports as pinned |
| KingAttacks.PinRecorded | src/chess/board.cc:826-950 | every own piece alone between our king and an opponent rook/queen on a line or bishop/queen on a diagonal is recorded as pinned |
| MoveGen.PromotionMoves | src/chess/board.cc:588-590 | the four promotions come queen, rook, bishop, knight |
| MoveGen.PlainMovesMeaning | src/chess/board.cc:550-552 | the list holds exactly a plain move onto each listed square |
| MoveGen.MovesToMeaning | src/chess/board.cc:550-552 | iterating a target board gives exactly the plain moves onto its squares |
| MoveGen.FlattenMeaning | src/chess/board.cc:487 | the concatenated lists hold exactly the moves of some listed square |
| MoveGen.PseudolegalMeaning | src/chess/board.cc:484-632 | the pseudo-legal list holds exactly the moves of the own pieces |
| MoveGen.PseudolegalMoves | src/chess/board.cc:484-632 | the moves of every own piece, lowest square first; its meaning is MoveGen.PseudolegalMeaning |
| MoveGen.KingTargetsMeaning | src/chess/board.cc:490-500 | the king loop keeps exactly the on-board neighbours without an own piece that are not attacked |
| MoveGen.KingStepsMeaning | src/chess/board.cc:489-500 | a king step is a plain move to a touching square without an own piece that is not attacked |
| MoveGen.CastlingMovesMeaning | src/chess/board.cc:520-540 | castlings go from the king onto the own castling rook's rank-1 square, each when its conditions hold |
| MoveGen.CastlingSafe | src/chess/board.cc:502-540 | a generated castling has the right, a free path between king, rook and target squares, and no attacked square on the king's way |
| MoveGen.SliderMovesMeaning | src/chess/board.cc:544-563 | slider moves are plain moves onto rook or bishop attack squares without an own piece |
| MoveGen.KnightMovesMeaning | src/chess/board.cc:623-629 | knight moves are plain moves onto knight-jump squares without an own piece |
| MoveGen.PushesMeaning | src/chess/board.cc:567-593 | a push is a single step onto an empty square or a double step from row 1 over two empty squares, promoting iff it reaches row 7 |
| MoveGen.CaptureMeaning | src/chess/board.cc:595-620 | a pawn capture takes an opponent piece diagonally, or en passant under a marker, promoting iff on row 7 |
| MoveGen.PawnMovesMeaning | src/chess/board.cc:565-621 | pawn moves are exactly the pushes, takes and en-passant takes, with matching promotions |
| MoveGen.PawnMoves | src/chess/board.cc:565-621 | the pawn's pushes, then its captures towards column -1 and +1; its meaning is MoveGen.PawnMovesMeaning |
| MoveGen.PromotionsComplete | src/chess/board.cc:586-608 | a pawn move onto row 7 comes with all four promotions |
| MoveGen.MovesFromOrigin | src/chess/board.cc:484-632 | every move of a square's list starts on that square |
| MoveGen.NoOwnDestination | src/chess/board.cc:484-632 | a pseudo-legal move onto an own piece is a castling or an en-passant take |
| MoveGen.OnlyCastlingOntoOwn | src/chess/board.cc:523-617 | with the markers where a double push leaves them, only castling lands on an own piece |
| Legality.CollinearMeaning | src/chess/board.cc:1015-1024 | the pinned-piece test is "the cross product of the two offsets from the king vanishes" |
| Legality.PinnedStaysOnLine | src/chess/board.cc:1013-1024 | a piece pinned along d may move exactly to squares on the king's line along d |
| Legality.InCheckRule | src/chess/board.cc:968-994 | in check, a non-king move is legal iff unpinned, no double check, and onto the attack lines |
| Legality.OutOfCheckRule | src/chess/board.cc:1009-1024 | out of check, an unpinned non-king move is legal; a pinned one only along its line |
| Legality.PlayedOutRule | src/chess/board.cc:957-1007 | en passant, a king move in check and a possible castling are legal iff the own king is safe after the move |
| Legality.LegalOfMeaning | src/chess/board.cc:1030-1033 | the filter keeps exactly the legal moves of the list and never grows it |
| Legality.LegalOfKeepsLegal | src/chess/board.cc:1030-1033 | filtering a list of legal moves removes nothing |
| Legality.LegalOfIdempotent | src/chess/board.cc:1030-1033 | filtering twice is filtering once |
| Legality.LegalSubsetOfPseudolegal | src/chess/board.cc:1027-1035 | a move is legal iff it is pseudo-legal and passes IsLegalMove |
| Legality.IsLegalMove | src/chess/board.cc:952-1025 | IsLegalMove branch by branch; its branches are stated by InCheckRule, OutOfCheckRule and PlayedOutRule |
| Legality.LegalMoves | src/chess/board.cc:1027-1035 | the pseudo-legal list filtered by IsLegalMove; its meaning is LegalSubsetOfPseudolegal |
| Legality.OpenedLinePin | src/chess/board.cc:1009-1011 | a slider that reaches the king only once an own piece has left its square had that piece pinned |
| Legality.CheckLineBeforeChecker | src/chess/board.cc:859-870 | under a single check, a square of the attack lines other than the checker lies on the ray between king and a rook or bishop checker |
| Legality.BlockedChecker | src/chess/board.cc:987-994 | a piece standing between the king and a rook or bishop on its ray stops that attack |
| Legality.NoAttackerAfter | src/chess/board.cc:968-1011 | after an unpinned non-king move out of check, or onto the line of a single check, no opponent piece reaches our king |
| Legality.UnpinnedMoveSafe | src/chess/board.cc:968-1011 | such a move leaves our king unattacked (with the kings apart), so deciding it without playing it out is sound |
| Legality.AcceptedMoveSafe | src/chess/board.cc:952-1011 | every unpinned non-king, non-en-passant move IsLegalMove accepts leaves our king unattacked, when at most one piece gives check |
| Apply.KingMoveClearsRights | src/chess/board.cc:643-645 | any king move gives up both own castling rights |
| Apply.CastlingPlacement | src/chess/board.cc:646-677 | a castling puts king and rook on g1/f1 or c1/d1, moves only those two pieces, drops the markers, does not reset the clock |
| Apply.CastlingKeepsSidesDisjoint | src/chess/board.cc:646-677 | castling onto squares free of opponent pieces keeps the sides apart |
| Apply.OrdinaryMovePieces | src/chess/board.cc:681-703 | a non-castling move moves our piece and removes the captured piece, including one taken en passant |
| Apply.CaptureClearsRoles | src/chess/board.cc:686-748 | the destination gets the moved piece's roles, or the promoted piece's, and no opponent piece |
| Apply.OpponentRights | src/chess/board.cc:691-696 | landing on the opponent's castling rook square ends that right; the rook files stay |
| Apply.MarkersAfterMove | src/chess/board.cc:705-756 | after a move the only marker is one set by a double push beside an opponent pawn |
| Apply.ResetMeaning | src/chess/board.cc:686-733 | the 50-move counter resets iff the move is no castling and captures or moves a pawn |
| Apply.ApplyMove | src/chess/board.cc:634-758 | the position after a move and whether the 50-move counter resets; its effects are stated by the Apply lemmas above |
| Apply.NonKingMoveEffects | src/chess/board.cc:681-756 | a non-king, non-en-passant move keeps the kings, removes only the captured piece, vacates the origin, fills the destination and keeps every other square's roles |
| Notation.SameMoveReflexiveSymmetric | src/chess/board.cc:794-808 | IsSameMove is reflexive and symmetric |
| Notation.SameMoveOnlyCastling | src/chess/board.cc:794-808 | two different moves are the same only as the two spellings of a castling from e1 |
| Notation.LegacyIsSame | src/chess/board.cc:810-817 | the legacy spelling of a move is the same move |
| Notation.ModernIsSame | src/chess/board.cc:819-824 | the modern spelling of a move is the same move |
| Notation.ModernThenLegacy | src/chess/board.cc:810-824 | with the king on e1 and rooks on a1 and h1, the legacy spelling undoes the modern one |
| Notation.LegacyThenModern | src/chess/board.cc:810-824 | with c1 and g1 free of own pieces, the modern spelling undoes the legacy one |
| Notation.IsSameMove | src/chess/board.cc:794-808 | equal moves, or the two spellings of one castling from e1; its meaning is SameMoveOnlyCastling |
| Notation.GetLegacyMove | src/chess/board.cc:810-817 | the king taking its own rook from e1 becomes e1g1 or e1c1 |
| Notation.GetModernMove | src/chess/board.cc:819-824 | e1g1 or e1c1 onto an empty square becomes the king taking its rook |
| Material.MirrorKeepsMatingMaterial | src/chess/board.cc:1193-1214 | the answer is the same for the mirrored position |
| Material.MirrorMaterial | src/chess/board.cc:1193-1214 | mirroring keeps everything the test reads, except that the bishop colours swap |
| Material.MirrorSwapsColours | src/chess/board.cc:1208-1212 | a mirrored board has a light-square bishop iff the original has a dark-square one |
| Material.FewPiecesCannotMate | src/chess/board.cc:1198-1201 | with no rook, queen or pawn and at most three pieces there is no mating material |
| Material.OppositeBishopsCanMate | src/chess/board.cc:1206-1213 | with bishops on both colours and four pieces there is mating material |
| Material.HasMatingMaterial | src/chess/board.cc:1193-1214 | HasMatingMaterial as a predicate; its properties are the Material lemmas above |
| Fen.ToLower | src/chess/board.cc:1124 | std::tolower maps an upper-case letter to its lower-case letter and keeps everything else |
| Fen.TrimEnd | src/chess/board.cc:1043-1047 | the trimmed text is a prefix ending in a non-space, and only whitespace was cut |
| Fen.ReadWord | src/chess/board.cc:1051 | `>> string` on a good stream yields a non-empty word without whitespace; a failed stream stays failed |
| Fen.ReadInt | src/chess/board.cc:1063-1065 | `>> int` yields a value within int's range; a failed stream stays failed |
| Fen.ReadWordUnlessEnd | src/chess/board.cc:1053 | at the end of the stream the field keeps its default |
| Fen.ReadIntUnlessEnd | src/chess/board.cc:1063 | at the end of the stream the number keeps its default |
| Fen.ReadFields | src/chess/board.cc:1049-1066 | a failed read is the "Bad fen string" error |
| Fen.BoardOnlyDefaults | src/chess/board.cc:1052-1065 | a record of one word gets white to move, no rights, no en passant, 0 and 1 |
| Fen.FourFieldsDefaults | src/chess/board.cc:1049-1065 | four fields are read back as written, with clock 0 and move number 1 |
| Fen.SixFieldsRead | src/chess/board.cc:1049-1066 | six fields, numbers written in decimal, are read back as written |
| Fen.EmptyRejected | src/chess/board.cc:1051-1066 | an empty or all-whitespace record is rejected |
| Fen.NonNumericClockRejected | src/chess/board.cc:1063-1066 | a halfmove field not starting with a sign or digit is rejected |
| Fen.PlaceCharRejects | src/chess/board.cc:1068-1114 | a character is rejected iff it is a '/' on the last row, or not a digit and off the board, not a piece letter, or a pawn on the first or last row |
| Fen.PlaceCharKeeps | src/chess/board.cc:1068-1115 | each accepted character keeps the placement well formed, and only '/' lowers the row, by one |
| Fen.PlaceChar | src/chess/board.cc:1068-1115 | one character of the placement field: a row step, a run of empty squares, a piece, or its error; stated by PlaceCharRejects and PlaceCharKeeps |
| Fen.PlacePrefixMeaning | src/chess/board.cc:1068-1116 | an accepted prefix leaves the cursor on row 7 minus the number of '/' and contains only '/', digits and piece letters |
| Fen.PlacePrefixErrStands | src/chess/board.cc:1068-1116 | once a character is rejected, the whole field is rejected with that error |
| Fen.AtMostEightRows | src/chess/board.cc:1069-1071 | an accepted placement has at most seven '/' |
| Fen.RightmostRookMeaning | src/chess/board.cc:1129-1131 | the search finds the rightmost own rook at or left of the start file, or none |
| Fen.LeftmostRookMeaning | src/chess/board.cc:1142-1144 | the search finds the leftmost own rook at or right of the start file, or none |
| Fen.CastlingStepRejects | src/chess/board.cc:1127-1172 | a symbol is rejected iff it is K/k with no rook right of the king, Q/q with none left of it, or not a file letter |
| Fen.CastlingStepRook | src/chess/board.cc:1127-1147 | an accepted K/Q finds the outermost own rook on that side of the king |
| Fen.CastlingStepRights | src/chess/board.cc:1135-1168 | an accepted symbol adds the right it grants to its own side and changes no other right |
| Fen.CastlingStep | src/chess/board.cc:1122-1172 | one castling symbol: the right it grants and the rook file, or its error; stated by the CastlingStep lemmas |
| Fen.CastlingPrefixRights | src/chess/board.cc:1118-1175 | after the field a right is held iff it was held before or some symbol of that side granted it |
| Fen.CastlingPrefixErrStands | src/chess/board.cc:1121-1173 | once a symbol is rejected, the whole field is rejected with that error |
| Fen.SquareByte | src/chess/bitboard.h:56-58 | the square built from text is a byte |
| Fen.EnPassantAsWritten | src/chess/board.cc:1177-1182 | the en-passant reading as written, packing the coordinates into a byte first (see Findings) |
| Fen.EnPassantMarker | src/chess/board.cc:1177-1182 | the corrected en-passant reading, used by Fen.FromFields (see Findings) |
| Fen.EnPassantAgrees | src/chess/board.cc:1177-1182 | for coordinates on the board, the corrected reading equals the source's |
| Fen.EnPassantFileOverflow | src/chess/board.cc:1177-1182 | the source accepts "i2" and puts a marker on a1; the corrected reading rejects it |
| Fen.EnPassantMarkerRoundTrip | src/chess/board.cc:1177-1182 | a square's name is accepted iff it is on rank 3 or 6, and gives the marker on its file, on row 0 or row 7 |
| Fen.EnPassantMarkerOffPawnRows | src/chess/board.cc:1181 | a marker never lies on the rows of real pawns |
| Fen.BlackIsMirroredWhite | src/chess/board.cc:1184-1185 | with black to move the board is the white-to-move board mirrored, and both fail alike |
| Fen.UnknownSideRejected | src/chess/board.cc:1186-1188 | a side to move other than w, W, b or B is rejected |
| Fen.ParsedPosition | src/chess/board.cc:1068-1188 | a parsed position has the sides apart, at most one marker, none when the field is "-", and flipped iff black moves |
| Fen.SetFromFenParsed | src/chess/board.cc:1038-1191 | a position read from text has the sides apart and at most one marker |
| Fen.FromFields | src/chess/board.cc:1068-1188 | the position built from the fields, or the first error; en passant read with the corrected Fen.EnPassantMarker |
| Fen.SetFromFen | src/chess/board.cc:1038-1191 | the whole record read into a position, clock and move number, or its error |
| Board.ChessBoard.constructor | src/chess/board.cc:60-62 | a new board is the cleared board |
| Board.ChessBoard.Copy | src/chess/board.cc:963 | the copy holds the same position |
| Board.ChessBoard.Clear | src/chess/board.cc:60-62 | every field is zeroed |
| Board.ChessBoard.Mirror | src/chess/board.cc:65-77 | the new position is the old one mirrored |
| Board.ChessBoard.DoCastling | src/chess/board.cc:646-656 | the do_castling lambda drops the markers and moves the king and the rook |
| Board.ChessBoard.TryCastling | src/chess/board.cc:643-679 | a king move clears our rights and castles exactly when the move is one |
| Board.ChessBoard.RemoveCaptured | src/chess/board.cc:686-696 | the destination is cleared of opponent pieces and roles, and the opponent's rights are updated |
| Board.ChessBoard.TakeEnPassant | src/chess/board.cc:698-706 | an en-passant take removes the passed pawn, then every marker goes |
| Board.ChessBoard.Promote | src/chess/board.cc:717-733 | the promoted piece gets its roles and the pawn leaves its origin |
| Board.ChessBoard.MoveRoles | src/chess/board.cc:736-756 | the rights, the roles and the double-push marker are updated as for an ordinary move |
| Board.ChessBoard.ApplyMove | src/chess/board.cc:634-758 | the new position and the 50-move reset are those of Apply.ApplyMove on the old position |
| Board.ChessBoard.WalkRay | src/chess/board.cc:837-877 | the walk along one ray finds what KingAttacks.ScanRay says: nothing, a pin or a check line |
| Board.ChessBoard.WalkRays | src/chess/board.cc:837-877 | the walks over a family's directions add up to KingAttacks.ScanAll |
| Board.ChessBoard.SliderWalk | src/chess/board.cc:836-922 | the family's walks happen only behind the empty-board pre-test |
| Board.ChessBoard.GenerateKingAttackInfo | src/chess/board.cc:826-950 | the result is KingAttacks.KingAttackInfoOf of the position |
| Board.ChessBoard.ListMoves | src/chess/board.cc:550-552 | one plain move onto each target square, lowest first |
| Board.ChessBoard.ListPlainMoves | src/chess/board.cc:550-552 | one plain move onto each listed square, in order |
| Board.ChessBoard.AddPromotions | src/chess/board.cc:588-590 | the kPromotions loop appends the four promotion moves in order |
| Board.ChessBoard.IsUnderAttack | src/chess/board.cc:760-792 | on the board's own fields: true iff the opponent attacks the square |
| Board.ChessBoard.KingSteps | src/chess/board.cc:490-500 | the king's steps in kKingMoves order |
| Board.ChessBoard.WalkFree | src/chess/board.cc:502-508 | walk_free is true iff the rank-1 squares in range, apart from rook and king, are empty |
| Board.ChessBoard.RangeAttacked | src/chess/board.cc:511-519 | range_attacked is true iff a square from `from` towards `to` (excluded, unless equal) is attacked |
| Board.ChessBoard.CastlingMoves | src/chess/board.cc:520-540 | the queenside then kingside castling, each when allowed, free and unattacked |
| Board.ChessBoard.PawnMovesFrom | src/chess/board.cc:565-621 | the pushes, then the loop over the two capture directions, give MoveGen.PawnMoves |
| Board.ChessBoard.PawnPushesFrom | src/chess/board.cc:567-593 | the forward moves give MoveGen.PawnPushes |
| Board.ChessBoard.AddPawnCapture | src/chess/board.cc:597-619 | one on-board capture direction appends MoveGen.PawnCapture |
| Board.ChessBoard.MovesFromSquare | src/chess/board.cc:489-629 | the moves of one own piece, in emission order |
| Board.ChessBoard.MovesOfSquares | src/chess/board.cc:487-630 | the loop over own pieces concatenates their lists |
| Board.ChessBoard.GeneratePseudolegalMoves | src/chess/board.cc:484-632 | the result is MoveGen.PseudolegalMoves of the position |
| Board.ChessBoard.SafeAfter | src/chess/board.cc:963-965 | the move played on a copy leaves the own king unattacked |
| Board.ChessBoard.IsLegalMove | src/chess/board.cc:952-1025 | the result is Legality.IsLegalMove of the position |
| Board.ChessBoard.KeepLegal | src/chess/board.cc:1030-1033 | the remove_if filter keeps the legal moves in order |
| Board.ChessBoard.GenerateLegalMoves | src/chess/board.cc:1027-1035 | the result is Legality.LegalMoves of the position |
| Board.ChessBoard.PlaceLetter | src/chess/board.cc:1079-1115 | a piece letter is placed, or its error is returned |
| Board.ChessBoard.PlaceBoard | src/chess/board.cc:1068-1116 | the placement loop gives Fen.PlacePrefix's position, or its error |
| Board.ChessBoard.FindKingsideRook | src/chess/board.cc:1129-1131 | the loop stops on the rightmost rook right of the king, or on the king's file |
| Board.ChessBoard.FindQueensideRook | src/chess/board.cc:1142-1144 | the loop stops on the leftmost rook left of the king, or on the king's file |
| Board.ChessBoard.CastlingSymbol | src/chess/board.cc:1122-1172 | one castling symbol updates the rights and rook files as Fen.CastlingStep says, or fails likewise |
| Board.ChessBoard.ReadCastlingField | src/chess/board.cc:1118-1175 | the symbol loop, then SetRookPositions, gives Fen.CastlingPrefix's rights, or its error |
| Board.ChessBoard.Interpret | src/chess/board.cc:1068-1188 | placement, castlings, en passant and side to move give Fen.FromFields's position, or its error; the en-passant field is read with the corrected Fen.EnPassantMarker (see Findings) |
| Board.ChessBoard.SetFromFen | src/chess/board.cc:1038-1191 | on success the board is Fen.SetFromFen's position with its clock and move number; otherwise the same error (en passant read as corrected, see Findings) |

## Left out

- board.h (the Castlings record, KingAttackInfo, `rooks()`, `knights()`, `IsUnderCheck`, the ChessBoard constructors) is not part of this model. These members are modelled from how board.cc uses them:
  - `in_check` means "some attack line was recorded";
  - `rooks()` is the rooks without the queens;
  - the knights are the pieces that are no pawn, king, rook or bishop;
  - `Castlings::Mirror` swaps our rights with theirs and keeps the rook files.
- The three-layer extension is left out: the layer arguments, `board_middle_`/`board_upper_`, `layer()`, `row % 7`, the 64 the two-argument `BoardSquare(row, col)` adds, and the third tuple component of the direction tables. A square is `row * 8 + col` on one plane, and the planar four rook directions, four bishop directions and eight king steps are used.
- The magic-number index (the NO_PEXT build) and its constants are left out. `BuildAttacksTable` takes any index function and is proved for all of them; the pext index is the instance used.
- The constant pattern tables `kRookAttacks`, `kBishopAttacks`, `kKnightAttacks` and `kPawnAttacks` are given by their geometric meaning, not by their hexadecimal literals.
- `Move(string)`, `as_packed_int`, `as_nn_index`, `Hash`, `DebugString`, `kStartposFen` and the neural encoder and decoder are left out: they are outside the position core.
- Characters are Unicode code points. `isspace`, `isdigit`, `isupper` and `tolower` are the C locale's ASCII tests.
- Exceptions are modelled as a `FenError` value (`Fen.Message` gives the source's text). On an error, `Board.ChessBoard.SetFromFen` leaves the board unspecified, as the source leaves it half-filled.
- The `assert(num_king_attackers <= 2)` debug check is not stated. The count is modelled exactly as the source counts it.
- Fen.FromFields, Fen.SetFromFen, Board.ChessBoard.Interpret and Board.ChessBoard.SetFromFen read the en-passant field with the corrected Fen.EnPassantMarker. They reject an off-board square such as "i2", which board.cc:1177-1182 accepts as a marker on a1 (see Findings). The as-written reading is Fen.EnPassantAsWritten.
- Legality.AcceptedMoveSafe covers only the moves of unpinned pieces other than the king, not en passant, and assumes two things:
  - the kings do not touch;
  - at most one piece gives check (Legality.OneChecker). The source's double-check flag counts checking pawns once and checking knights once, so the flag alone does not rule out two checking pawns.

  A pinned piece moving along its line is not proved safe. Neither is a king move out of check that is not a possible castling, for which the source relies on the generator's king targets.

## Findings

| source | as written | input that shows it | evidently intended | confidence | as-written member | corrected member |
|---|---|---|---|---|---|---|
| src/chess/board.cc:1177-1182 | the en-passant square's coordinates are packed into a byte before the rank test, so a file past h wraps into the next row | en-passant field "i2": column 8 of row 1 packs to a3, whose row is rank 3, so a marker is put on a1 | reject a square whose file or rank is off the board, like a wrong rank | not executed | Fen.EnPassantAsWritten (shown by Fen.EnPassantFileOverflow) | Fen.EnPassantMarker (proved by Fen.EnPassantMarkerRoundTrip) |
