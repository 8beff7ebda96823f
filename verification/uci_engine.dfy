/**
  The UCI command handler of the engine: a line-at-a-time state machine over the
  current board and the history of moves played to reach it.

  Every handler is a pure function from the engine state and its argument tokens
  to the new state, the lines it writes and its success or error; `Dispatch`
  routes one tokenized line and `Listen` runs a whole input stream.
*/
module UciEngine {
  import opened Results
  import opened ChessRules
  import Tokens
  import opened Sequences

  /** The engine state: the current board, if any, and the moves played from the position the GUI set. */
  datatype Engine<B> = Engine(currentBoard: Option<B>, moves: seq<ChessMove>)

  /** `Engine::default()`: no board and no history. */
  function DefaultEngine<B>(): Engine<B> {
    Engine(None, [])
  }

  /** The errors a handler can return. */
  datatype EngineError =
    | InvalidCommand(context: string)
    | Chess(cause: ChessError)
    | Io(message: string)

  const InvalidCommandPrefix: string := "Invalid UCI Command: "
  /** The chess-error prefix, written as two literals so that the verifier can read its leading characters. */
  const ChessErrorPrefix: string := "An error with the chess " + "rust crate has occured: "
  const IoErrorPrefix: string := "An I/O error has occured: "

  /** The `Display` text of an error: the line written when a handler fails. */
  function ErrorMessage(err: EngineError): string {
    match err
    case InvalidCommand(context) => InvalidCommandPrefix + context
    case Chess(cause) => ChessErrorPrefix + cause.description
    case Io(message) => IoErrorPrefix + message
  }

  /** Different errors are displayed differently, so the diagnostic line identifies the error. */
  lemma ErrorMessageInjective(a: EngineError, b: EngineError)
    requires ErrorMessage(a) == ErrorMessage(b)
    ensures a == b
  {
    ErrorMessageMark(a);
    ErrorMessageMark(b);
    var s := ErrorMessage(a);
    match a
    case InvalidCommand(x) =>
      assert s[|InvalidCommandPrefix|..] == x;
    case Chess(x) =>
      assert s[|ChessErrorPrefix|..] == x.description;
    case Io(x) =>
      assert s[|IoErrorPrefix|..] == x;
  }

  /** The fourth character of an error's text tells the three kinds apart. */
  lemma ErrorMessageMark(e: EngineError)
    ensures |ErrorMessage(e)| > 3
    ensures ErrorMessage(e)[3] == match e
      case InvalidCommand(_) => 'a'
      case Chess(_) => 'e'
      case Io(_) => 'I'
  {
    var s := ErrorMessage(e);
    match e
    case InvalidCommand(x) =>
      assert InvalidCommandPrefix[3] == 'a';
      assert s[3] == InvalidCommandPrefix[3];
    case Chess(x) =>
      assert ChessErrorPrefix[..4] == "An e";
      assert s[3] == ChessErrorPrefix[3];
    case Io(x) =>
      assert IoErrorPrefix[..4] == "An I";
      assert s[3] == IoErrorPrefix[3];
  }

  /**
    A line written to standard output. `go` writes the debug rendering of its
    argument iterator, represented by the arguments it still held.
  */
  datatype Line = Text(text: string) | GoDump(args: seq<string>)

  /** What a handler leaves behind: the new state, the lines written and its result. */
  datatype Reply<B> = Reply(engine: Engine<B>, output: seq<Line>, result: Result<(), EngineError>)

  const IdNameLine: string := "id name ChessEngine"
  const IdAuthorLine: string := "id author Lukas Elias Lund Majland"

  /** `uci`: identify the engine and acknowledge. */
  function Uci<B>(engine: Engine<B>): Reply<B> {
    Reply(engine, [Text(IdNameLine), Text(IdAuthorLine), Text("uciok")], Ok(()))
  }

  /** `isready`: acknowledge readiness. */
  function IsReady<B>(engine: Engine<B>): Reply<B> {
    Reply(engine, [Text("readyok")], Ok(()))
  }

  /** `ucinewgame`: forget the board and the history. */
  function UciNewGame<B>(engine: Engine<B>): (r: Reply<B>)
    ensures r.engine.currentBoard.None? && r.engine.moves == []
    ensures r.output == [] && r.result.Ok?
  {
    Reply(DefaultEngine(), [], Ok(()))
  }

  /** `go`: writes a debug dump of its arguments and changes nothing. */
  function Go<B>(engine: Engine<B>, args: seq<string>): (r: Reply<B>)
    ensures r.engine == engine && r.result.Ok?
    ensures r.output == [GoDump(args)]
  {
    Reply(engine, [GoDump(args)], Ok(()))
  }

  const PositionContext: string := "position"
  const FenContext: string := "position fen"
  const MovesContext: string := "position ... moves"

  /** The number of FEN fields `position fen` consumes. */
  const FenFieldCount: nat := 6

  /**
    The board named by the head of the `position` arguments, with the tokens
    that follow it: `startpos`, or `fen` and the next six tokens.
  */
  function StartBoard<B>(rules: Rules<B>, args: seq<string>): Result<(B, seq<string>), EngineError> {
    if |args| > 0 && args[0] == "startpos" then
      Ok((rules.startpos, args[1..]))
    else if |args| > 0 && args[0] == "fen" then
      var fen := if |args| - 1 >= FenFieldCount then args[1..1 + FenFieldCount] else args[1..];
      if |fen| != FenFieldCount then
        Err(InvalidCommand(FenContext))
      else
        match rules.fromFen(Tokens.Join(fen, " "))
        case Err(cause) => Err(Chess(cause))
        case Ok(board) => Ok((board, args[1 + FenFieldCount..]))
    else
      Err(InvalidCommand(PositionContext))
  }

  /** The move tokens after the board: everything after a `moves` keyword, or nothing. */
  function MovesTail(rest: seq<string>): seq<string> {
    if |rest| > 0 && rest[0] == "moves" then rest[1..] else []
  }

  /** The promotion piece named by the fifth character of a move token. */
  function PromotionOf(token: string): Option<Piece> {
    if |token| < 5 then None
    else
      match token[4]
      case 'q' => Some(Queen)
      case 'n' => Some(Knight)
      case 'r' => Some(Rook)
      case 'b' => Some(Bishop)
      case _ => None
  }

  /** The letter UCI long algebraic notation uses for a promotion piece. */
  function PromotionLetter(p: Piece): Option<char> {
    match p
    case Queen => Some('q')
    case Knight => Some('n')
    case Rook => Some('r')
    case Bishop => Some('b')
    case _ => None
  }

  /**
    A move token promotes to `p` exactly when it has a fifth character and that
    character is the promotion letter of `p`; only queen, knight, rook and bishop
    have one, so every other fifth character means "no promotion".
  */
  lemma PromotionOfLetter(token: string, p: Piece)
    ensures PromotionOf(token) == Some(p) <==> |token| >= 5 && PromotionLetter(p) == Some(token[4])
  {
  }

  /** One move token in long algebraic notation, parsed into a move. */
  function ParseMove<B>(rules: Rules<B>, token: string): (r: Result<ChessMove, EngineError>)
    ensures (|token| < 4 || |token| > 5) ==> r == Err(InvalidCommand(MovesContext))
    ensures r.Ok? ==>
      && 4 <= |token| <= 5
      && rules.squareFromStr(token[0..2]) == Ok(r.value.source)
      && rules.squareFromStr(token[2..4]) == Ok(r.value.dest)
      && r.value.promotion == PromotionOf(token)
    ensures 4 <= |token| <= 5 ==>
      match rules.squareFromStr(token[0..2])
      case Err(cause) => r == Err(Chess(cause))
      case Ok(_) =>
        match rules.squareFromStr(token[2..4])
        case Err(cause) => r == Err(Chess(cause))
        case Ok(_) => r.Ok?
  {
    if |token| < 4 || |token| > 5 then
      Err(InvalidCommand(MovesContext))
    else
      match rules.squareFromStr(token[0..2])
      case Err(cause) => Err(Chess(cause))
      case Ok(source) =>
        match rules.squareFromStr(token[2..4])
        case Err(cause) => Err(Chess(cause))
        case Ok(dest) => Ok(ChessMove(source, dest, PromotionOf(token)))
  }

  /**
    All move tokens parsed, in order: either every token parses, or the result
    is the error of the first token that does not.
  */
  function ParseMoves<B>(rules: Rules<B>, tokens: seq<string>): (r: Result<seq<ChessMove>, EngineError>)
    ensures r.Ok? ==>
      && |r.value| == |tokens|
      && forall i :: 0 <= i < |tokens| ==> ParseMove(rules, tokens[i]) == Ok(r.value[i])
    ensures r.Err? ==>
      exists k :: 0 <= k < |tokens| && ParseMove(rules, tokens[k]) == Err(r.error)
        && forall i :: 0 <= i < k ==> ParseMove(rules, tokens[i]).Ok?
    decreases |tokens|
  {
    if |tokens| == 0 then Ok([])
    else
      match ParseMove(rules, tokens[0])
      case Err(e) => Err(e)
      case Ok(m) =>
        match ParseMoves(rules, tokens[1..])
        case Err(e) => Err(e)
        case Ok(ms) => Ok([m] + ms)
  }

  /**
    The `while let` loop of the `position` handler: parse one token, play it on
    the working board, record it, until the tokens run out or one fails.
  */
  function RunMoves<B>(rules: Rules<B>, board: B, played: seq<ChessMove>, tokens: seq<string>)
    : Result<(B, seq<ChessMove>), EngineError>
    decreases |tokens|
  {
    if |tokens| == 0 then Ok((board, played))
    else
      match ParseMove(rules, tokens[0])
      case Err(e) => Err(e)
      case Ok(m) => RunMoves(rules, rules.makeMove(board, m), played + [m], tokens[1..])
  }

  /**
    Playing the tokens one at a time is the same as parsing them all and then
    replaying the parsed moves from the working board.
  */
  lemma {:induction false} RunMovesIsReplay<B>(rules: Rules<B>, board: B, played: seq<ChessMove>, tokens: seq<string>)
    ensures ParseMoves(rules, tokens).Err? ==>
      RunMoves(rules, board, played, tokens) == Err(ParseMoves(rules, tokens).error)
    ensures ParseMoves(rules, tokens).Ok? ==>
      var moves := ParseMoves(rules, tokens).value;
      RunMoves(rules, board, played, tokens) == Ok((Replay(rules, board, moves), played + moves))
    decreases |tokens|
  {
    if |tokens| == 0 {
      assert played + [] == played;
    } else {
      var first := ParseMove(rules, tokens[0]);
      if first.Ok? {
        var m := first.value;
        var next := rules.makeMove(board, m);
        RunMovesIsReplay(rules, next, played + [m], tokens[1..]);
        var rest := ParseMoves(rules, tokens[1..]);
        if rest.Ok? {
          var ms := rest.value;
          assert ParseMoves(rules, tokens) == Ok([m] + ms);
          assert ([m] + ms)[1..] == ms;
          assert Replay(rules, board, [m] + ms) == Replay(rules, next, ms);
          assert played + [m] + ms == played + ([m] + ms);
        }
      }
    }
  }

  /**
    `position`: build the board and the move list in locals, and commit both only
    when the whole command has been read without error.
  */
  function Position<B>(rules: Rules<B>, engine: Engine<B>, args: seq<string>): (r: Reply<B>)
    ensures r.output == []
    ensures r.result.Err? ==> r.engine == engine
    ensures r.result.Ok? ==> r.engine.currentBoard.Some?
  {
    match StartBoard(rules, args)
    case Err(e) => Reply(engine, [], Err(e))
    case Ok(start) =>
      match RunMoves(rules, start.0, [], MovesTail(start.1))
      case Err(e) => Reply(engine, [], Err(e))
      case Ok(done) => Reply(Engine(Some(done.0), done.1), [], Ok(()))
  }

  /**
    `position` succeeds exactly when its board specification and all its move
    tokens are valid. It then commits the board reached by replaying the parsed
    moves, in input order, from the start board, and the history is exactly those
    moves. Otherwise its error is the board specification's, or else that of the
    first bad move token.
  */
  lemma PositionCommits<B>(rules: Rules<B>, engine: Engine<B>, args: seq<string>)
    ensures var r := Position(rules, engine, args);
      var spec := StartBoard(rules, args);
      && (r.result.Ok? <==> spec.Ok? && ParseMoves(rules, MovesTail(spec.value.1)).Ok?)
      && (r.result.Ok? ==>
            var moves := ParseMoves(rules, MovesTail(spec.value.1)).value;
            r.engine == Engine(Some(Replay(rules, spec.value.0, moves)), moves))
      && (r.result.Err? ==>
            r.result.error ==
              if spec.Err? then spec.error else ParseMoves(rules, MovesTail(spec.value.1)).error)
  {
    var spec := StartBoard(rules, args);
    if spec.Ok? {
      RunMovesIsReplay(rules, spec.value.0, [], MovesTail(spec.value.1));
      var moves := ParseMoves(rules, MovesTail(spec.value.1));
      if moves.Ok? {
        assert [] + moves.value == moves.value;
      }
    }
  }

  /** `position` with a first argument other than `startpos` or `fen` fails and changes nothing. */
  lemma PositionUnknownHead<B>(rules: Rules<B>, engine: Engine<B>, args: seq<string>)
    requires |args| == 0 || (args[0] != "startpos" && args[0] != "fen")
    ensures Position(rules, engine, args) == Reply(engine, [], Err(InvalidCommand(PositionContext)))
  {
  }

  /** `position fen` with fewer than six further tokens fails and changes nothing. */
  lemma PositionFenTooShort<B>(rules: Rules<B>, engine: Engine<B>, args: seq<string>)
    requires |args| > 0 && args[0] == "fen" && |args| < 1 + FenFieldCount
    ensures Position(rules, engine, args) == Reply(engine, [], Err(InvalidCommand(FenContext)))
  {
  }

  /**
    `position fen` hands exactly the next six tokens, joined by spaces, to the FEN
    parser; its failure is the command's failure, and the tokens after those six
    are where a `moves` keyword is looked for.
  */
  lemma PositionFenFields<B>(rules: Rules<B>, engine: Engine<B>, args: seq<string>)
    requires |args| >= 1 + FenFieldCount && args[0] == "fen"
    ensures rules.fromFen(Tokens.Join(args[1..7], " ")).Err? ==>
      Position(rules, engine, args) ==
        Reply(engine, [], Err(Chess(rules.fromFen(Tokens.Join(args[1..7], " ")).error)))
    ensures rules.fromFen(Tokens.Join(args[1..7], " ")).Ok? ==>
      StartBoard(rules, args) == Ok((rules.fromFen(Tokens.Join(args[1..7], " ")).value, args[7..]))
  {
  }

  /**
    A move token of the wrong length, after move tokens that all parse, fails the
    whole command with the `moves` context and leaves board and history as they were.
  */
  lemma PositionBadMoveLength<B>(rules: Rules<B>, engine: Engine<B>, args: seq<string>, k: nat)
    requires StartBoard(rules, args).Ok?
    requires k < |MovesTail(StartBoard(rules, args).value.1)|
    requires forall i :: 0 <= i < k ==> ParseMove(rules, MovesTail(StartBoard(rules, args).value.1)[i]).Ok?
    requires var token := MovesTail(StartBoard(rules, args).value.1)[k]; |token| < 4 || |token| > 5
    ensures Position(rules, engine, args) == Reply(engine, [], Err(InvalidCommand(MovesContext)))
  {
    var tokens := MovesTail(StartBoard(rules, args).value.1);
    FirstFailureWins(rules, tokens, k);
    PositionCommits(rules, engine, args);
  }

  /** When tokens before `k` parse and token `k` fails, the parse fails with token `k`'s error. */
  lemma {:induction false} FirstFailureWins<B>(rules: Rules<B>, tokens: seq<string>, k: nat)
    requires k < |tokens|
    requires forall i :: 0 <= i < k ==> ParseMove(rules, tokens[i]).Ok?
    requires ParseMove(rules, tokens[k]).Err?
    ensures ParseMoves(rules, tokens) == Err(ParseMove(rules, tokens[k]).error)
    decreases k
  {
    if k > 0 {
      assert ParseMove(rules, tokens[0]).Ok?;
      assert forall i :: 0 <= i < k - 1 ==> tokens[1..][i] == tokens[i + 1];
      FirstFailureWins(rules, tokens[1..], k - 1);
    }
  }

  /** Without a `moves` keyword after the board, the board is set and the history is empty. */
  lemma PositionWithoutMoves<B>(rules: Rules<B>, engine: Engine<B>, args: seq<string>)
    requires StartBoard(rules, args).Ok?
    requires var rest := StartBoard(rules, args).value.1; |rest| == 0 || rest[0] != "moves"
    ensures Position(rules, engine, args) ==
      Reply(Engine(Some(StartBoard(rules, args).value.0), []), [], Ok(()))
  {
  }

  /** The state after one input line, the lines written for it, and whether to keep reading. */
  datatype Step<B> = Step(engine: Engine<B>, output: seq<Line>, proceed: bool)

  /** The diagnostic written for a handler's result: one line for an error, none otherwise. */
  function ErrorLines(result: Result<(), EngineError>): seq<Line> {
    match result
    case Ok(_) => []
    case Err(e) => [Text(ErrorMessage(e))]
  }

  /** True when the line's first token is `command`. */
  predicate Names(tokens: seq<string>, command: string) {
    |tokens| > 0 && tokens[0] == command
  }

  /** The first tokens the loop acts on. */
  predicate IsKnown(tokens: seq<string>) {
    || Names(tokens, "uci") || Names(tokens, "isready") || Names(tokens, "ucinewgame")
    || Names(tokens, "position") || Names(tokens, "go") || Names(tokens, "quit")
  }

  /** One iteration of the read loop: route the line on its first token. */
  function Dispatch<B>(rules: Rules<B>, engine: Engine<B>, tokens: seq<string>): (s: Step<B>)
    ensures s.proceed <==> !Names(tokens, "quit")
    ensures !IsKnown(tokens) ==> s == Step(engine, [], true)
    ensures Names(tokens, "quit") ==> s.output == [] && s.engine == engine
    ensures Names(tokens, "uci") || Names(tokens, "isready") || Names(tokens, "go") ==> s.engine == engine
    ensures Names(tokens, "ucinewgame") ==> s == Step(DefaultEngine(), [], true)
    ensures Names(tokens, "uci") ==> s.output == [Text(IdNameLine), Text(IdAuthorLine), Text("uciok")]
    ensures Names(tokens, "isready") ==> s.output == [Text("readyok")]
    ensures Names(tokens, "go") ==> s.output == [GoDump(tokens[1..])]
  {
    if |tokens| == 0 then Step(engine, [], true)
    else if tokens[0] == "quit" then Step(engine, [], false)
    else
      var reply :=
        if tokens[0] == "uci" then Uci(engine)
        else if tokens[0] == "isready" then IsReady(engine)
        else if tokens[0] == "ucinewgame" then UciNewGame(engine)
        else if tokens[0] == "position" then Position(rules, engine, tokens[1..])
        else if tokens[0] == "go" then Go(engine, tokens[1..])
        else Reply(engine, [], Ok(()));
      Step(reply.engine, reply.output + ErrorLines(reply.result), true)
  }

  /**
    A `position` line commits the handler's new state when it succeeds and writes
    nothing; when it fails, the state is kept and exactly one diagnostic line, the
    error's display text, is written.
  */
  lemma DispatchPosition<B>(rules: Rules<B>, engine: Engine<B>, tokens: seq<string>)
    requires Names(tokens, "position")
    ensures var r := Position(rules, engine, tokens[1..]);
      var s := Dispatch(rules, engine, tokens);
      && s.proceed
      && (r.result.Ok? ==> s.engine == r.engine && s.output == [])
      && (r.result.Err? ==> s.engine == engine && s.output == [Text(ErrorMessage(r.result.error))])
  {
  }

  /** The final state and everything written by a run of the read loop. */
  datatype Session<B> = Session(engine: Engine<B>, output: seq<Line>)

  /** The read loop over any per-line step: apply it line by line until it says stop. */
  function ReadLoop<B>(read: (Engine<B>, string) -> Step<B>, engine: Engine<B>, lines: seq<string>): Session<B>
    decreases |lines|
  {
    if |lines| == 0 then Session(engine, [])
    else
      var step := read(engine, lines[0]);
      if !step.proceed then Session(step.engine, step.output)
      else
        var rest := ReadLoop(read, step.engine, lines[1..]);
        Session(rest.engine, step.output + rest.output)
  }

  /** One input line read by `listen`: split on whitespace, then dispatched. */
  function ReadLine<B>(rules: Rules<B>): (Engine<B>, string) -> Step<B> {
    (engine: Engine<B>, line: string) => Dispatch(rules, engine, Tokens.Tokenize(line))
  }

  /** `listen`: dispatch the input lines in order until `quit` or the end of input. */
  function Listen<B>(rules: Rules<B>, engine: Engine<B>, lines: seq<string>): Session<B> {
    ReadLoop(ReadLine(rules), engine, lines)
  }

  /** True when the line is a `quit` command. */
  predicate IsQuit(line: string) {
    Names(Tokens.Tokenize(line), "quit")
  }

  /** Whatever the state, a `quit` line stops the loop and any other line lets it go on. */
  lemma ReadLineProceeds<B>(rules: Rules<B>, engine: Engine<B>, line: string)
    ensures ReadLine(rules)(engine, line).proceed <==> !IsQuit(line)
  {
  }

  /** A line after which the loop stops, in any state, ends the loop there. */
  lemma {:induction false} ReadLoopStopsAt<B>(read: (Engine<B>, string) -> Step<B>, engine: Engine<B>, lines: seq<string>, k: nat)
    requires k < |lines|
    requires forall e :: !read(e, lines[k]).proceed
    ensures ReadLoop(read, engine, lines) == ReadLoop(read, engine, lines[..k + 1])
    decreases k
  {
    var step := read(engine, lines[0]);
    assert lines[..k + 1][0] == lines[0];
    if k > 0 && step.proceed {
      assert lines[..k + 1][1..] == lines[1..][..k];
      ReadLoopStopsAt(read, step.engine, lines[1..], k - 1);
    }
  }

  /** Nothing after a `quit` line is read: the session is the one that ends at it. */
  lemma ListenStopsAtQuit<B>(rules: Rules<B>, engine: Engine<B>, lines: seq<string>, k: nat)
    requires k < |lines| && IsQuit(lines[k])
    ensures Listen(rules, engine, lines) == Listen(rules, engine, lines[..k + 1])
  {
    forall e: Engine<B> ensures !ReadLine(rules)(e, lines[k]).proceed {
      ReadLineProceeds(rules, e, lines[k]);
    }
    ReadLoopStopsAt(ReadLine(rules), engine, lines, k);
  }

  /** When the first line lets the loop go on, the run is that line's output, then the rest's run. */
  lemma ReadLoopUnfold<B>(read: (Engine<B>, string) -> Step<B>, engine: Engine<B>, lines: seq<string>)
    requires |lines| > 0 && read(engine, lines[0]).proceed
    ensures ReadLoop(read, engine, lines)
      == Session(ReadLoop(read, read(engine, lines[0]).engine, lines[1..]).engine,
                 read(engine, lines[0]).output + ReadLoop(read, read(engine, lines[0]).engine, lines[1..]).output)
  {
  }

  /** Session `done` followed by running `lines` from the state it left, outputs concatenated. */
  function Continue<B>(read: (Engine<B>, string) -> Step<B>, done: Session<B>, lines: seq<string>): Session<B> {
    var more := ReadLoop(read, done.engine, lines);
    Session(more.engine, done.output + more.output)
  }

  /** The first line of a split input is the first line of its first block. */
  lemma ReadLoopUnfoldAppend<B>(read: (Engine<B>, string) -> Step<B>, engine: Engine<B>, first: seq<string>, second: seq<string>)
    requires |first| > 0 && read(engine, first[0]).proceed
    ensures ReadLoop(read, engine, first + second)
      == Session(ReadLoop(read, read(engine, first[0]).engine, first[1..] + second).engine,
                 read(engine, first[0]).output + ReadLoop(read, read(engine, first[0]).engine, first[1..] + second).output)
  {
    var both := first + second;
    assert both[0] == first[0] && both[1..] == first[1..] + second;
    ReadLoopUnfold(read, engine, both);
  }

  /** A first line that lets the loop go on, in front of a split that holds, keeps it holding. */
  lemma ReadLoopAppendStep<B>(read: (Engine<B>, string) -> Step<B>, engine: Engine<B>, first: seq<string>, second: seq<string>)
    requires |first| > 0 && read(engine, first[0]).proceed
    requires ReadLoop(read, read(engine, first[0]).engine, first[1..] + second)
      == Continue(read, ReadLoop(read, read(engine, first[0]).engine, first[1..]), second)
    ensures ReadLoop(read, engine, first + second) == Continue(read, ReadLoop(read, engine, first), second)
  {
    ReadLoopUnfold(read, engine, first);
    ReadLoopUnfoldAppend(read, engine, first, second);
    var step := read(engine, first[0]);
    var tailA := ReadLoop(read, step.engine, first[1..]);
    AppendAssoc(step.output, tailA.output, ReadLoop(read, tailA.engine, second).output);
  }

  /** Splitting the input after lines that all let the loop go on splits the run. */
  lemma {:induction false} ReadLoopAppend<B>(read: (Engine<B>, string) -> Step<B>, engine: Engine<B>, first: seq<string>, second: seq<string>)
    requires forall i, e :: 0 <= i < |first| ==> read(e, first[i]).proceed
    ensures ReadLoop(read, engine, first + second) == Continue(read, ReadLoop(read, engine, first), second)
    decreases |first|
  {
    if |first| == 0 {
      assert first + second == second;
    } else {
      assert forall i :: 0 <= i < |first[1..]| ==> first[1..][i] == first[i + 1];
      ReadLoopAppend(read, read(engine, first[0]).engine, first[1..], second);
      ReadLoopAppendStep(read, engine, first, second);
    }
  }

  /**
    Running two blocks of lines, the first without `quit`, is running the first
    and then the second from the state it left, with the outputs concatenated.
  */
  lemma ListenAppend<B>(rules: Rules<B>, engine: Engine<B>, first: seq<string>, second: seq<string>)
    requires forall i :: 0 <= i < |first| ==> !IsQuit(first[i])
    ensures var a := Listen(rules, engine, first);
      var b := Listen(rules, a.engine, second);
      Listen(rules, engine, first + second) == Session(b.engine, a.output + b.output)
  {
    forall i, e: Engine<B> | 0 <= i < |first| ensures ReadLine(rules)(e, first[i]).proceed {
      ReadLineProceeds(rules, e, first[i]);
    }
    ReadLoopAppend(ReadLine(rules), engine, first, second);
  }

  /** A blank line is read and ignored: it neither writes nor changes anything. */
  lemma ListenSkipsBlankLine<B>(rules: Rules<B>, engine: Engine<B>, lines: seq<string>)
    requires |lines| > 0
    requires forall i :: 0 <= i < |lines[0]| ==> Tokens.IsWhitespace(lines[0][i])
    ensures Listen(rules, engine, lines) == Listen(rules, engine, lines[1..])
  {
    Tokens.TokenizeBlank(lines[0]);
  }
}
