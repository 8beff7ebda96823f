/**
  The interface of the external chess rules library the engine builds on.

  Board representation, legal-move generation, move application, FEN parsing and
  square parsing belong to that library and are not reimplemented here: a `Rules`
  value bundles them as total functions over an abstract board type `B`, so every
  property proved about the engine holds for any rules implementation.
*/
module ChessRules {
  import opened Results

  /** The side to move or the perspective of an evaluation. */
  datatype Color = White | Black

  /** The opposite colour (the library's `!color`). */
  function Other(c: Color): (o: Color)
    ensures o != c
  {
    match c
    case White => Black
    case Black => White
  }

  lemma OtherInvolutive(c: Color)
    ensures Other(Other(c)) == c
  {
  }

  /** The six piece kinds, in the order of the library's `ALL_PIECES`. */
  datatype Piece = Pawn | Knight | Bishop | Rook | Queen | King

  const AllPieces: seq<Piece> := [Pawn, Knight, Bishop, Rook, Queen, King]

  /** Castling rights of one side; the library numbers them 0 to 3 in this order. */
  datatype CastleRights = NoRights | KingSide | QueenSide | Both

  /** The library's `CastleRights::to_index`: the declaration order of the variants. */
  function CastleIndex(rights: CastleRights): (i: nat)
    ensures i <= 3
  {
    match rights
    case NoRights => 0
    case KingSide => 1
    case QueenSide => 2
    case Both => 3
  }

  /** One of the 64 squares. */
  type SquareIndex = i: int | 0 <= i < 64

  datatype Square = Square(index: SquareIndex)

  /** A move from one square to another, with an optional promotion piece. */
  datatype ChessMove = ChessMove(source: Square, dest: Square, promotion: Option<Piece>)

  /** An error reported by the rules library, carried with its display text. */
  datatype ChessError = ChessError(description: string)

  /** The population count of a 64-bit bitboard. */
  type PopCount = n: int | 0 <= n <= 64

  /**
    The operations of the rules library the engine consumes.
    - `startpos`: `Board::default()`, the standard starting position;
    - `fromFen`: `Board::from_str` on a FEN string;
    - `squareFromStr`: `Square::from_str` on a square name such as "e2";
    - `legalMoves`: the legal moves of a position, in `MoveGen::new_legal` order;
    - `makeMove`: `Board::make_move_new`;
    - `sideToMove`: `Board::side_to_move`;
    - `castleRights`: `Board::castle_rights` of one colour;
    - `pieceCount`: the population count of the pieces of one kind and colour.
  */
  datatype Rules<!B> = Rules(
    startpos: B,
    fromFen: string -> Result<B, ChessError>,
    squareFromStr: string -> Result<Square, ChessError>,
    legalMoves: B -> seq<ChessMove>,
    makeMove: (B, ChessMove) -> B,
    sideToMove: B -> Color,
    castleRights: (B, Color) -> CastleRights,
    pieceCount: (B, Color, Piece) -> PopCount)

  /** The position reached by playing `moves` in order from `board`. */
  function Replay<B>(rules: Rules<B>, board: B, moves: seq<ChessMove>): B
    decreases |moves|
  {
    if |moves| == 0 then board
    else Replay(rules, rules.makeMove(board, moves[0]), moves[1..])
  }

  /** Replaying a longer sequence is replaying its prefix and then one more move. */
  lemma {:induction false} ReplaySnoc<B>(rules: Rules<B>, board: B, moves: seq<ChessMove>, m: ChessMove)
    ensures Replay(rules, board, moves + [m]) == rules.makeMove(Replay(rules, board, moves), m)
    decreases |moves|
  {
    if |moves| == 0 {
      assert moves + [m] == [m];
    } else {
      assert (moves + [m])[1..] == moves[1..] + [m];
      ReplaySnoc(rules, rules.makeMove(board, moves[0]), moves[1..], m);
    }
  }
}
