# ChessEngine core in Dafny

This project models the core of a small Rust chess engine. It has three parts.

- **UCI handler** (`UciEngine`, in `uci_engine.dfy`). This is the engine's Universal Chess Interface front end.
  - It is a line-at-a-time state machine.
  - Its state is the current board, if any, plus the moves played to reach it.
  - It handles `uci`, `isready`, `ucinewgame`, `position`, `go` and `quit`.
  - Each handler is a pure function. It takes the engine state and the argument tokens. It returns the new state, the lines written to standard output, and `Ok` or an `EngineError`.
  - `Dispatch` routes one tokenized line. `Listen` runs the read loop over a whole input stream.
- **Search** (`Search`, in `search.dfy`).
  - The static evaluation scores material and castling rights.
  - `minimax` is a fixed-depth recursion over the legal-move tree.
  - `search_moves` chooses the root move.
- **Legacy board** (`LegacyBoard`, in `legacy_board.dfy`). This is the crate root's 8x8 board of squares.
  - It covers the starting layout, the chess symbol of each piece, and the `Display` rendering as eight lines of ANSI-coloured cells.
  - The project adds a reader, `ParseBoard`, as the rendering's partner. The source has no parser. The reader proves that the rendering loses nothing and that only a rendering reads back as a board.

Supporting modules:

- `Results` (`results.dfy`): `Option` and `Result`.
- `Tokens` (`tokens.dfy`): Rust's `split_whitespace`, and `join` with a separator.
- `ChessRules` (`chess_rules.dfy`): the external `chess` crate.
  - The engine only consumes this crate and does not implement it.
  - Its operations arrive as a `Rules<B>` value of total functions over an abstract board type `B`:
    - the start position;
    - FEN parsing;
    - square parsing;
    - legal moves, in generation order;
    - move application;
    - side to move;
    - castling rights;
    - piece counts, 0 to 64.
  - Every property below holds for every such library.

Facts about the source that the model keeps as written:

- Piece values are 100/300/300/500/900/10000, and there are no piece-square tables (src/bot/search.rs:162-171).
- `minimax` takes the maximum at every ply. It flips only the colour passed down to the evaluation (src/bot/search.rs:114-124).
- `go` only prints a debug dump of its arguments and returns `Ok` (src/bot/mod.rs:253-255).
- The UCI handler starts no search worker. Its `go` does not hand the board to `SearchThread` (src/bot/mod.rs:196-256).

## Model

| member | source | states |
|---|---|---|
| UciEngine.ErrorMessageInjective | src/bot/mod.rs:32-40 | Different engine errors display as different texts, so the diagnostic line identifies the error, including its kind and its payload |
| UciEngine.UciNewGame | src/bot/mod.rs:138-143 | `ucinewgame` always succeeds, writes nothing, clears the board and empties the move history |
| UciEngine.Go | src/bot/mod.rs:196-256 | `go` leaves the engine state unchanged, succeeds, and writes exactly one debug dump of the arguments it was given |
| UciEngine.PromotionOfLetter | src/bot/mod.rs:173-180 | A move token promotes to a piece exactly when it has a fifth character and that character is the piece's letter (`q` `n` `r` `b`). A 4-character token or any other fifth character means no promotion |
| UciEngine.ParseMove | src/bot/mod.rs:166-182 | A token shorter than 4 or longer than 5 characters fails with the `position ... moves` context. For a 4- or 5-character token, an unparsable source square (characters 0-1) fails with that square error, and otherwise an unparsable destination (characters 2-3) fails with its error. When both squares parse, the token parses. A parsed move has the source and destination read from those characters and the promotion named by the fifth character |
| UciEngine.ParseMoves | src/bot/mod.rs:166-185 | Either every token parses and the moves correspond one-to-one, in order, or the error is that of a token before which every token parses |
| UciEngine.FirstFailureWins | src/bot/mod.rs:166-172 | If the tokens before position k all parse and token k does not, parsing the list fails with token k's error |
| UciEngine.RunMovesIsReplay | src/bot/mod.rs:162-188 | The loop that parses, plays and records one move at a time equals parsing all tokens and then folding the move application over the parsed moves. On failure it gives the first failing token's error |
| UciEngine.Position | src/bot/mod.rs:145-194 | `position` writes nothing. On error it leaves the engine state exactly as it was. On success a board is set |
| UciEngine.PositionCommits | src/bot/mod.rs:145-194 | `position` succeeds exactly when the board specification and every move token are valid. It then commits the board reached by replaying the moves, in input order, from the start board, with exactly those moves as history. Otherwise its error is the board specification's error, or else that of the first bad move |
| UciEngine.PositionUnknownHead | src/bot/mod.rs:148-159 | When the first argument is missing or is neither `startpos` nor `fen`, the command fails with `InvalidCommand("position")` and the state is unchanged |
| UciEngine.PositionFenTooShort | src/bot/mod.rs:150-155 | `position fen` with fewer than six following tokens fails with `InvalidCommand("position fen")` and the state is unchanged |
| UciEngine.PositionFenFields | src/bot/mod.rs:150-158 | Exactly the six tokens after `fen`, joined by single spaces, go to the FEN parser. Its error fails the command with the state unchanged. Otherwise the `moves` keyword is looked for after those six |
| UciEngine.PositionBadMoveLength | src/bot/mod.rs:164-194 | A move token of the wrong length, after tokens that all parse, fails the command with `InvalidCommand("position ... moves")`. Board and history stay unchanged |
| UciEngine.PositionWithoutMoves | src/bot/mod.rs:162-191 | If the token after the board specification is missing or is not `moves`, the board is set and the history is empty |
| UciEngine.Dispatch | src/bot/mod.rs:97-110 | The loop goes on exactly when the line is not `quit`. An unknown or empty line writes nothing and changes nothing. `quit` writes nothing. `uci`, `isready` and `go` keep the state, and `ucinewgame` resets it. `uci` writes the two id lines and `uciok`. `isready` writes `readyok`. `go` writes one debug dump of the tokens after it |
| UciEngine.DispatchPosition | src/bot/mod.rs:101-110 | A `position` line keeps the loop going. On success it commits the handler's state and writes nothing. On failure it keeps the old state and writes exactly one line, the error's display text |
| UciEngine.ReadLineProceeds | src/bot/mod.rs:61-105 | In any state, reading a line lets the loop continue exactly when its first whitespace-separated token is not `quit` |
| UciEngine.ReadLoopStopsAt | src/bot/mod.rs:61-111 | For any per-line step, a line after which the step always stops ends the loop there. Later lines have no effect |
| UciEngine.ListenStopsAtQuit | src/bot/mod.rs:61-111 | Nothing after a `quit` line is read: the session equals the session over the input cut after that line |
| UciEngine.ReadLoopAppend | src/bot/mod.rs:61-111 | For any per-line step, splitting the input after lines that never stop the loop splits the run: the final state and the output come from running the first block and then the second |
| UciEngine.ListenAppend | src/bot/mod.rs:61-111 | Listening to two blocks of lines, the first without `quit`, equals listening to the first and then to the second from the state it left, with the outputs concatenated |
| UciEngine.ListenSkipsBlankLine | src/bot/mod.rs:63-104 | A line holding only whitespace writes nothing and changes nothing |
| Tokens.WordLength | src/bot/mod.rs:63 | The first token of a line ends at its first whitespace character or at the end of the line |
| Tokens.Tokenize | src/bot/mod.rs:63 | Every token produced by whitespace splitting is non-empty and free of whitespace. The lemmas below show that the tokens are exactly the line's maximal whitespace-free runs, in order |
| Tokens.TokenizeSkip | src/bot/mod.rs:63 | A leading whitespace character produces no token and does not change the tokens of the rest |
| Tokens.TokenizeGap | src/bot/mod.rs:63 | A leading run of whitespace of any length is skipped. With `TokenizeWord`, this fixes the tokens of every line: they are its maximal whitespace-free runs, in order |
| Tokens.TokenizeSeparated | src/bot/mod.rs:63 | Two words separated by any non-empty run of whitespace (for example, two spaces) are exactly two tokens, in order |
| Tokens.TokenizeBlank | src/bot/mod.rs:63 | A line of only whitespace has no tokens |
| Tokens.TokenizeWord | src/bot/mod.rs:63 | A token followed by the end of the line or by whitespace comes out first, followed by the tokens of the rest |
| Tokens.TokenizeJoin | src/bot/mod.rs:151-157 | Joining tokens with single spaces and splitting the result on whitespace gives the tokens back |
| ChessRules.Other | src/bot/search.rs:95 | The opposite colour is different from the colour |
| ChessRules.OtherInvolutive | src/bot/search.rs:119 | Flipping the colour twice gives the colour back |
| ChessRules.CastleIndex | src/bot/search.rs:153 | A castling-rights index lies in 0..3 |
| ChessRules.ReplaySnoc | src/bot/mod.rs:183-184 | Replaying one more move equals applying that move to the position the shorter sequence reaches. This is the step of the left fold the `position` loop performs |
| Search.CastleRightsScore | src/bot/search.rs:152-160 | The castling score of rights with index 0, 1, 2, 3 is 0, 100, 100, 200: 100 for each side (king or queen) still kept |
| Search.PieceScore | src/bot/search.rs:162-171 | Every piece value is positive, and every value except the king's is at most 900 |
| Search.MaterialLoopSum | src/bot/search.rs:139-147 | The loop over piece kinds adds each visited kind's own-minus-opponent material to the running score |
| Search.BalanceSumAll | src/bot/search.rs:139-147 | Over every piece kind, the material term is the sum of the six kinds' balances |
| Search.BalanceBound | src/bot/search.rs:140-146 | With at most 64 pieces of a kind per side, one kind's balance lies within 64 times its value either way |
| Search.CountTimesScore | src/bot/search.rs:142 | A population count times a positive piece value lies between 0 and 64 times that value |
| Search.Evaluate | src/bot/search.rs:128-150 | The evaluation is the castling-score difference plus, over the six kinds, (own count - opponent count) x value. It stays within a fixed bound far inside the 64-bit range |
| Search.EvaluateAntisymmetric | src/bot/search.rs:128-150 | Evaluating from one side gives the negation of evaluating from the other |
| Search.EvaluateBalanced | src/bot/search.rs:128-150 | With equal piece counts of every kind and equally many castling sides kept, the evaluation is 0 |
| Search.Children | src/bot/search.rs:115-118 | The children are the legal moves applied to the board, one per move, in generation order |
| Search.Minimax | src/bot/search.rs:109-125 | The search terminates because its depth decreases. Its value lies between the `NEG_INFINITY as isize` sentinel and the evaluation bound |
| Search.BestChild | src/bot/search.rs:114-124 | The running maximum over the remaining moves never decreases and stays within the sentinel and the evaluation bound |
| Search.BestChildIsMax | src/bot/search.rs:114-124 | The loop's result is at least every move's child value, and is either the starting value or one of those child values |
| Search.ChildValues | src/bot/search.rs:117-119 | There is one value per legal move. The i-th is the search value of the child reached by the i-th legal move, at the given depth, from the opponent's point of view |
| Search.MinimaxIsMaxOfChildren | src/bot/search.rs:109-125 | Above depth 0 the value is the maximum of the children's values, each searched one ply less deep with the perspective flipped (the maximum on every ply). With no legal moves the value is the sentinel |
| Search.MinimaxLeaf | src/bot/search.rs:110-112 | At depth 0 the value is the static evaluation from the given side |
| Search.RootScores | src/bot/search.rs:93-97 | The root has one score per legal move |
| Search.RootScoreAt | src/bot/search.rs:93-97 | The root's score for its i-th legal move is the depth-3 search value of that child from the opponent's point of view |
| Search.RootScoresAre | src/bot/search.rs:93-97 | A score sequence that agrees with the root's score of every legal move is the root's score sequence |
| Search.LastMinimumUnique | src/bot/search.rs:99-101 | At most one index holds a least score with only strictly greater scores after it, so the chosen move is determined by the scores |
| Search.LastMinimumExtend | src/bot/search.rs:97-101 | Appending a score moves the last minimum to it exactly when it is no greater than the current minimum (the `>=` test) |
| Search.SearchMoves | src/bot/search.rs:82-107 | With at least one legal move, the chosen move is a legal move of the root. Its child has the least score for the opponent, and no later move scores as low: the last of the lowest-scoring moves wins ties |
| LegacyBoard.ToEmoji | src/lib.rs:23-41 | An empty square draws as a space, black pieces as U+2654..U+2659, and white pieces as U+265A..U+265F |
| LegacyBoard.EmojiRoundTrip | src/lib.rs:23-41 | A square's symbol names its piece back |
| LegacyBoard.EmojiInjective | src/lib.rs:23-41 | Different pieces draw as different symbols |
| LegacyBoard.NewBoard | src/lib.rs:49-80 | Rows 2-5 of the new board are empty. Row 1 is eight black pawns and row 6 eight white pawns. Rows 0 and 7 are the black and white back ranks: rook, knight, bishop, queen, king, bishop, knight, rook |
| LegacyBoard.NewBoardMirrored | src/lib.rs:49-80 | Reflecting the new board top to bottom and swapping colours gives the same board |
| LegacyBoard.CellShape | src/lib.rs:89-105 | A cell is 18 characters on a dark square (`x + y` even) and 16 on a light one, and holds no newline |
| LegacyBoard.RowTextShape | src/lib.rs:88-106 | A run of k cells holds no newline. Its length is 17 per cell, plus or minus one for an odd count, depending on the first square's colour |
| LegacyBoard.LinesShape | src/lib.rs:87-109 | A run of rendered rows is 137 characters per row, and a character is a newline exactly when it ends a row |
| LegacyBoard.RenderShape | src/lib.rs:83-112 | The display is exactly eight lines of eight cells, each line ended by a single newline: 1096 characters, with newlines exactly at every 137th position |
| LegacyBoard.ParseCellInverse | src/lib.rs:89-105 | A rendered cell (background by square colour, foreground by piece colour, symbol, space and reset), followed by anything, reads back as its square and leaves what followed |
| LegacyBoard.ParseCellExact | src/lib.rs:89-105 | Any text that reads as a cell is exactly that cell's rendering followed by the remainder |
| LegacyBoard.ParseCellsInverse | src/lib.rs:88-106 | A rendered run of cells reads back as its squares |
| LegacyBoard.ParseCellsExact | src/lib.rs:88-106 | Any text that reads as a run of cells is exactly their rendering followed by the remainder |
| LegacyBoard.ParseLinesInverse | src/lib.rs:87-109 | Rendered rows read back as those rows |
| LegacyBoard.ParseLinesExact | src/lib.rs:87-109 | Any text that reads as rows is exactly their rendering |
| LegacyBoard.RenderRoundTrip | src/lib.rs:83-112 | Reading the display back gives the board: the rendering loses no square |
| LegacyBoard.ParseBoardExact | src/lib.rs:83-112 | A text reads back as a given board exactly when it is that board's display, so every cell has the background of its square's colour, the foreground of its piece's colour, its symbol and the reset |

## Left out

- The external `chess` crate is not implemented. Legal-move generation, move application, FEN and square parsing, castling rights and bitboard population counts are parameters (`ChessRules.Rules`). Only the facts the engine relies on are fixed: castling indices 0 to 3, and counts 0 to 64.
- `SearchThread` and `SearchState` (src/bot/search.rs:32-79) are not modelled. They are a worker thread, an `mpsc` channel and atomic stop/busy flags: concurrency plumbing. The search's input is just a board, because `GoOptions` is not part of this model.
- Standard input and output are not modelled. The model reads the input as a sequence of lines and returns output as a sequence of lines. I/O errors (`EngineError::Io`, failed writes and flushes, and the `unwrap` on a failed line read) are not produced by the model. The `Io` variant and its display text are kept.
- `go` writes the `Debug` rendering of its argument iterator. The model writes a `GoDump` line holding the remaining argument tokens, without the standard library's `Debug` format. The commented-out option parsing is dead code and is not modelled.
- UciEngine.ParseMove: Rust measures a token's length in UTF-8 bytes; the model counts characters. The two agree on ASCII tokens, which is all UCI notation uses. A non-ASCII token whose byte slicing would panic is not modelled.
- Search.Minimax: `NEG_INFINITY as isize` is modelled as `isize::MIN`, which is what the saturating float-to-integer cast gives on a 64-bit target. Scores are unbounded integers and no wrap-around is modelled, because none can occur. Evaluations stay within ±774600 (`EvalBound`). Search values lie between `isize::MIN`, which only the no-move sentinel reaches, and that bound. The search only takes maxima and compares scores (src/bot/search.rs:99, 121), so no value is ever computed from the sentinel.
- Search.SearchMoves requires at least one legal move. With none, the source indexes an empty vector and panics.
- Tokens.Tokenize covers Rust's `char::is_whitespace` set. Line splitting of the input stream (`lines()`, including `\r\n` handling) is assumed done: the model receives the lines.
- LegacyBoard.ParseBoard and its lemmas add a reader that the source does not have. It exists to state that the `Display` rendering is faithful and exact.
- `src/server/mod.rs`, `src/backend/mod.rs`, `src/main.rs` and `src/bot/uci.rs` are not part of this model. They hold network and file plumbing, an async web server, a duplicate stdin loop and trait signatures.
