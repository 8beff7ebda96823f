/**
  The legacy 8x8 board of the crate root: the starting layout and its rendering
  as eight lines of ANSI-coloured cells, one chess symbol per cell.
*/
module LegacyBoard {
  import opened Results
  import opened Sequences

  datatype Piece =
    | BlackKing | BlackQueen | BlackRook | BlackBishop | BlackKnight | BlackPawn
    | WhiteKing | WhiteQueen | WhiteRook | WhiteBishop | WhiteKnight | WhitePawn
    | Empty

  /** One square of the board and what stands on it. */
  datatype Square = Square(piece: Piece)

  predicate IsWhite(p: Piece) {
    p.WhiteKing? || p.WhiteQueen? || p.WhiteRook? || p.WhiteBishop? || p.WhiteKnight? || p.WhitePawn?
  }

  predicate IsBlack(p: Piece) {
    p.BlackKing? || p.BlackQueen? || p.BlackRook? || p.BlackBishop? || p.BlackKnight? || p.BlackPawn?
  }

  /** The same piece in the other colour; `Empty` stays empty. */
  function SwapColor(p: Piece): (q: Piece)
    ensures IsWhite(p) <==> IsBlack(q)
    ensures IsBlack(p) <==> IsWhite(q)
    ensures p == Empty <==> q == Empty
  {
    match p
    case BlackKing => WhiteKing
    case BlackQueen => WhiteQueen
    case BlackRook => WhiteRook
    case BlackBishop => WhiteBishop
    case BlackKnight => WhiteKnight
    case BlackPawn => WhitePawn
    case WhiteKing => BlackKing
    case WhiteQueen => BlackQueen
    case WhiteRook => BlackRook
    case WhiteBishop => BlackBishop
    case WhiteKnight => BlackKnight
    case WhitePawn => BlackPawn
    case Empty => Empty
  }

  /**
    The symbol drawn for a square: a space when empty, otherwise one of the twelve
    chess symbols U+2654 to U+265F, the black pieces taking the first six.
  */
  function ToEmoji(square: Square): (c: char)
    ensures square.piece == Empty <==> c == ' '
    ensures IsBlack(square.piece) <==> '\U{2654}' <= c <= '\U{2659}'
    ensures IsWhite(square.piece) <==> '\U{265A}' <= c <= '\U{265F}'
  {
    match square.piece
    case BlackKing => '\U{2654}'
    case BlackQueen => '\U{2655}'
    case BlackRook => '\U{2656}'
    case BlackBishop => '\U{2657}'
    case BlackKnight => '\U{2658}'
    case BlackPawn => '\U{2659}'
    case WhiteKing => '\U{265A}'
    case WhiteQueen => '\U{265B}'
    case WhiteRook => '\U{265C}'
    case WhiteBishop => '\U{265D}'
    case WhiteKnight => '\U{265E}'
    case WhitePawn => '\U{265F}'
    case Empty => ' '
  }

  /** The piece a symbol stands for, if any. */
  function FromEmoji(c: char): Option<Piece> {
    match c
    case '\U{2654}' => Some(BlackKing)
    case '\U{2655}' => Some(BlackQueen)
    case '\U{2656}' => Some(BlackRook)
    case '\U{2657}' => Some(BlackBishop)
    case '\U{2658}' => Some(BlackKnight)
    case '\U{2659}' => Some(BlackPawn)
    case '\U{265A}' => Some(WhiteKing)
    case '\U{265B}' => Some(WhiteQueen)
    case '\U{265C}' => Some(WhiteRook)
    case '\U{265D}' => Some(WhiteBishop)
    case '\U{265E}' => Some(WhiteKnight)
    case '\U{265F}' => Some(WhitePawn)
    case ' ' => Some(Empty)
    case _ => None
  }

  /** The symbol of a square names its piece back. */
  lemma EmojiRoundTrip(square: Square)
    ensures FromEmoji(ToEmoji(square)) == Some(square.piece)
  {
  }

  /** The thirteen symbols are pairwise distinct. */
  lemma EmojiInjective(a: Square, b: Square)
    requires ToEmoji(a) == ToEmoji(b)
    ensures a == b
  {
    EmojiRoundTrip(a);
    EmojiRoundTrip(b);
  }

  const EmptyRow: seq<Square> := seq(8, _ => Square(Empty))

  /** A rank of the board: eight squares, indexed by file. */
  type Row = r: seq<Square> | |r| == 8 witness EmptyRow

  /** The board: eight rows, indexed by `y` from the top; `board[y][x]` is file `x` of row `y`. */
  type ChessBoard = b: seq<Row> | |b| == 8 witness seq(8, _ => EmptyRow)

  /** A whole row of one piece. */
  function Filled(p: Piece): Row {
    seq(8, _ => Square(p))
  }

  const BlackBackRank: Row := [
    Square(BlackRook), Square(BlackKnight), Square(BlackBishop), Square(BlackQueen),
    Square(BlackKing), Square(BlackBishop), Square(BlackKnight), Square(BlackRook)]

  const WhiteBackRank: Row := [
    Square(WhiteRook), Square(WhiteKnight), Square(WhiteBishop), Square(WhiteQueen),
    Square(WhiteKing), Square(WhiteBishop), Square(WhiteKnight), Square(WhiteRook)]

  /**
    `ChessBoard::new`: an empty board whose rows 0 and 1 are then set to the black
    back rank and pawns, and rows 6 and 7 to the white pawns and back rank.
  */
  function NewBoard(): (b: ChessBoard)
    ensures forall y, x :: 2 <= y < 6 && 0 <= x < 8 ==> b[y][x].piece == Empty
    ensures forall x :: 0 <= x < 8 ==> b[1][x].piece == BlackPawn && b[6][x].piece == WhitePawn
    ensures b[0] == BlackBackRank && b[7] == WhiteBackRank
  {
    var empty: ChessBoard := seq(8, _ => Filled(Empty));
    empty[0 := BlackBackRank][1 := Filled(BlackPawn)][6 := Filled(WhitePawn)][7 := WhiteBackRank]
  }

  /**
    The starting board is its own mirror image: reflecting the rows top to bottom
    and swapping colours gives the same board, so each side has the same army on
    its own side of the board.
  */
  lemma NewBoardMirrored()
    ensures var b := NewBoard();
      forall y, x :: 0 <= y < 8 && 0 <= x < 8 ==> b[7 - y][x].piece == SwapColor(b[y][x].piece)
  {
    var b := NewBoard();
    forall y, x | 0 <= y < 8 && 0 <= x < 8
      ensures b[7 - y][x].piece == SwapColor(b[y][x].piece)
    {
      if y == 0 || y == 7 {
        assert BlackBackRank[x].piece == SwapColor(WhiteBackRank[x].piece);
      }
    }
  }

  const Esc: char := '\U{1B}'

  /** `ESC[40;1m`: the background of the cells where `x + y` is even. */
  const DarkBackground: string := [Esc] + "[40;1m"
  /** `ESC[47m`: the background of the other cells. */
  const LightBackground: string := [Esc] + "[47m"
  /** `ESC[37m`: the foreground of the white pieces. */
  const WhiteForeground: string := [Esc] + "[37m"
  /** `ESC[30m`: the foreground of the black pieces and of empty squares. */
  const BlackForeground: string := [Esc] + "[30m"
  /** A space and `ESC[0m`, the reset that closes every cell. */
  const CellEnd: string := " " + [Esc] + "[0m"

  function Background(x: nat, y: nat): string {
    if (x + y) % 2 == 0 then DarkBackground else LightBackground
  }

  function Foreground(p: Piece): string {
    if IsWhite(p) then WhiteForeground else BlackForeground
  }

  /** The text of the cell at file `x` of row `y`. */
  function Cell(x: nat, y: nat, square: Square): string {
    Background(x, y) + Foreground(square.piece) + [ToEmoji(square)] + CellEnd
  }

  /** The cells of `squares`, the first of them drawn at file `x` of row `y`. */
  function RowText(squares: seq<Square>, y: nat, x: nat): string
    decreases |squares|
  {
    if |squares| == 0 then "" else Cell(x, y, squares[0]) + RowText(squares[1..], y, x + 1)
  }

  /** The lines of `rows`, the first of them being row `y`, each ended by a newline. */
  function Lines(rows: seq<Row>, y: nat): string
    decreases |rows|
  {
    if |rows| == 0 then "" else RowText(rows[0], y, 0) + "\n" + Lines(rows[1..], y + 1)
  }

  /** `Display for ChessBoard`: the whole board, row by row. */
  function Render(board: ChessBoard): string {
    Lines(board, 0)
  }

  /** True when `s` contains no newline. */
  predicate NoNewline(s: string) {
    forall i :: 0 <= i < |s| ==> s[i] != '\n'
  }

  /** A cell is 18 characters wide on a dark background and 16 on a light one, and holds no newline. */
  lemma CellShape(x: nat, y: nat, square: Square)
    ensures |Cell(x, y, square)| == if (x + y) % 2 == 0 then 18 else 16
    ensures NoNewline(Cell(x, y, square))
  {
    var c := Cell(x, y, square);
    var bg := Background(x, y);
    var fg := Foreground(square.piece);
    assert c == bg + fg + [ToEmoji(square)] + CellEnd;
    assert NoNewline(bg) && NoNewline(fg) && NoNewline(CellEnd);
    forall i | 0 <= i < |c| ensures c[i] != '\n' {
      if i < |bg| {
        assert c[i] == bg[i];
      } else if i < |bg| + |fg| {
        assert c[i] == fg[i - |bg|];
      } else if i == |bg| + |fg| {
        assert c[i] == ToEmoji(square);
      } else {
        assert c[i] == CellEnd[i - |bg| - |fg| - 1];
      }
    }
  }

  lemma NoNewlineConcat(a: string, b: string)
    requires NoNewline(a) && NoNewline(b)
    ensures NoNewline(a + b)
  {
    forall i | 0 <= i < |a + b| ensures (a + b)[i] != '\n' {
      if i < |a| {
        assert (a + b)[i] == a[i];
      } else {
        assert (a + b)[i] == b[i - |a|];
      }
    }
  }

  lemma ParityAlternates(n: nat)
    ensures n % 2 == 0 <==> (n + 1) % 2 == 1
  {
  }

  /**
    Where the `k`-th cell of a run starts, when the run's first cell is file `x`
    of row `y`: dark cells are 18 wide and light ones 16, so every two cells take
    34 characters and an odd count is one off 17 per cell.
  */
  function CellOffset(x: nat, y: nat, k: nat): int {
    17 * k + (if k % 2 == 1 then (if (x + y) % 2 == 0 then 1 else -1) else 0)
  }

  /** A cell followed by a run of `k` cells drawn from the next file on forms a run of `k + 1`. */
  lemma RowStep(first: string, rest: string, x: nat, y: nat, k: nat)
    requires |first| == if (x + y) % 2 == 0 then 18 else 16
    requires |rest| == CellOffset(x + 1, y, k)
    requires NoNewline(first) && NoNewline(rest)
    ensures |first + rest| == CellOffset(x, y, k + 1)
    ensures NoNewline(first + rest)
  {
    ParityAlternates(x + y);
    NoNewlineConcat(first, rest);
  }

  /** A cell in front of a well-shaped run of cells from the next file on is a well-shaped run. */
  lemma RowTextShapeStep(squares: seq<Square>, y: nat, x: nat)
    requires |squares| > 0
    requires |RowText(squares[1..], y, x + 1)| == CellOffset(x + 1, y, |squares[1..]|)
    requires NoNewline(RowText(squares[1..], y, x + 1))
    ensures |RowText(squares, y, x)| == CellOffset(x, y, |squares|)
    ensures NoNewline(RowText(squares, y, x))
  {
    CellShape(x, y, squares[0]);
    RowStep(Cell(x, y, squares[0]), RowText(squares[1..], y, x + 1), x, y, |squares[1..]|);
  }

  /**
    A run of cells ends where a further cell would start, 17 characters per cell
    for an even count, and holds no newline.
  */
  lemma {:induction false} RowTextShape(squares: seq<Square>, y: nat, x: nat)
    ensures |RowText(squares, y, x)| == CellOffset(x, y, |squares|)
    ensures NoNewline(RowText(squares, y, x))
    decreases |squares|
  {
    if |squares| > 0 {
      RowTextShape(squares[1..], y, x + 1);
      RowTextShapeStep(squares, y, x);
    }
  }

  /** The width of one displayed line, without its newline: eight cells. */
  const LineWidth: nat := 8 * 17

  /** The newlines of `s` are exactly at the ends of its 137-character lines. */
  predicate BreaksAtLineEnds(s: string) {
    forall i :: 0 <= i < |s| ==> (s[i] == '\n' <==> i % (LineWidth + 1) == LineWidth)
  }

  /**
    The lines of `rows` are 137 characters each, and a character is a newline
    exactly when it ends one of them.
  */
  lemma {:induction false} LinesShape(rows: seq<Row>, y: nat)
    ensures |Lines(rows, y)| == (LineWidth + 1) * |rows|
    ensures BreaksAtLineEnds(Lines(rows, y))
    decreases |rows|
  {
    if |rows| > 0 {
      RowTextShape(rows[0], y, 0);
      assert |rows[0]| == 8;
      LinesShape(rows[1..], y + 1);
      LineStep(RowText(rows[0], y, 0), Lines(rows[1..], y + 1), |rows|);
    }
  }

  /** A full line, a newline and a run of well-formed lines form a run one longer. */
  lemma LineStep(line: string, rest: string, n: nat)
    requires n > 0
    requires |line| == LineWidth && NoNewline(line)
    requires |rest| == (LineWidth + 1) * (n - 1) && BreaksAtLineEnds(rest)
    ensures |line + "\n" + rest| == (LineWidth + 1) * n
    ensures BreaksAtLineEnds(line + "\n" + rest)
  {
    var s := line + "\n" + rest;
    forall i | 0 <= i < |s| ensures (s[i] == '\n' <==> i % (LineWidth + 1) == LineWidth) {
      if i < LineWidth {
        assert s[i] == line[i];
      } else if i > LineWidth {
        var j := i - (LineWidth + 1);
        assert s[i] == rest[j];
        ModShift(j);
      }
    }
  }

  lemma ModShift(j: nat)
    ensures (j + (LineWidth + 1)) % (LineWidth + 1) == j % (LineWidth + 1)
  {
  }

  /**
    The display is exactly eight lines, each of eight cells and each ended by a
    single newline: 1096 characters, with a newline at every 137th and nowhere else.
  */
  lemma RenderShape(board: ChessBoard)
    ensures |Render(board)| == 8 * (LineWidth + 1)
    ensures forall i :: 0 <= i < |Render(board)| ==>
      (Render(board)[i] == '\n' <==> i % (LineWidth + 1) == LineWidth)
  {
    LinesShape(board, 0);
  }

  /** True when `s` begins with `prefix`. */
  predicate StartsWith(s: string, prefix: string) {
    |prefix| <= |s| && s[..|prefix|] == prefix
  }

  /** What follows `prefix` in `s`, when `s` begins with it. */
  function DropPrefix(s: string, prefix: string): Option<string> {
    if StartsWith(s, prefix) then Some(s[|prefix|..]) else None
  }

  /** Dropping a prefix succeeds exactly when `s` begins with it, and leaves what follows it. */
  lemma DropPrefixSplit(s: string, prefix: string)
    ensures DropPrefix(s, prefix).Some? <==> StartsWith(s, prefix)
    ensures DropPrefix(s, prefix).Some? ==> s == prefix + DropPrefix(s, prefix).value
  {
    if StartsWith(s, prefix) {
      assert s == s[..|prefix|] + s[|prefix|..];
    }
  }

  /** Both foreground sequences are five characters long. */
  const ForegroundWidth: nat := 5

  /**
    Reads the cell of file `x` in row `y` off the front of `s`: the background
    of that square's colour, the foreground of the colour of the piece whose
    symbol follows, the symbol, and the closing reset. Yields the square and
    what follows the cell.
  */
  function ParseCell(s: string, x: nat, y: nat): Option<(Square, string)> {
    match DropPrefix(s, Background(x, y))
    case None => None
    case Some(t) =>
      if |t| <= ForegroundWidth then None
      else
        match FromEmoji(t[ForegroundWidth])
        case None => None
        case Some(p) =>
          match DropPrefix(t, Foreground(p) + [t[ForegroundWidth]] + CellEnd)
          case None => None
          case Some(rest) => Some((Square(p), rest))
  }

  /** The number of cells in a line of the display. */
  const Files: nat := 8

  /** Reads `n` cells of row `y` off the front of `s`, the first of them at file `x`. */
  function ParseCells(s: string, y: nat, x: nat, n: nat): (r: Option<(seq<Square>, string)>)
    ensures r.Some? ==> |r.value.0| == n
    decreases n
  {
    if n == 0 then Some(([], s))
    else
      match ParseCell(s, x, y)
      case None => None
      case Some(first) =>
        match ParseCells(first.1, y, x + 1, n - 1)
        case None => None
        case Some(others) => Some(([first.0] + others.0, others.1))
  }

  /**
    Reads `n` lines, the first of them row `y`, each of eight cells and a
    newline; they must use up `s`.
  */
  function ParseLines(s: string, y: nat, n: nat): (r: Option<seq<Row>>)
    ensures r.Some? ==> |r.value| == n
    decreases n
  {
    if n == 0 then (if |s| == 0 then Some([]) else None)
    else
      match ParseCells(s, y, 0, Files)
      case None => None
      case Some(cells) =>
        match DropPrefix(cells.1, "\n")
        case None => None
        case Some(rest) =>
          match ParseLines(rest, y + 1, n - 1)
          case None => None
          case Some(rows) => Some([cells.0] + rows)
  }

  /** Reads a whole display back into the squares it shows. */
  function ParseBoard(s: string): Option<ChessBoard> {
    match ParseLines(s, 0, 8)
    case None => None
    case Some(rows) => Some(rows)
  }

  lemma DropPrefixConcat(prefix: string, rest: string)
    ensures DropPrefix(prefix + rest, prefix) == Some(rest)
  {
    assert (prefix + rest)[..|prefix|] == prefix;
    assert (prefix + rest)[|prefix|..] == rest;
  }

  /** Every symbol names back the square it was read as. */
  lemma EmojiOfRead(c: char, p: Piece)
    requires FromEmoji(c) == Some(p)
    ensures ToEmoji(Square(p)) == c
  {
  }

  /** The text behind a cell's background: its foreground, symbol and reset, then the rest. */
  function AfterBackground(square: Square, rest: string): string {
    Foreground(square.piece) + [ToEmoji(square)] + CellEnd + rest
  }

  lemma CellSplit(x: nat, y: nat, square: Square, rest: string)
    ensures Cell(x, y, square) + rest == Background(x, y) + AfterBackground(square, rest)
  {
    var bg := Background(x, y);
    var tail := Foreground(square.piece) + [ToEmoji(square)] + CellEnd;
    assert Cell(x, y, square) == bg + tail;
    AppendAssoc(bg, tail, rest);
  }

  lemma AfterBackgroundSymbol(square: Square, rest: string)
    ensures |AfterBackground(square, rest)| > ForegroundWidth
    ensures AfterBackground(square, rest)[ForegroundWidth] == ToEmoji(square)
  {
  }

  /** A cell followed by anything reads back as its square, leaving what followed. */
  lemma ParseCellInverse(x: nat, y: nat, square: Square, rest: string)
    ensures ParseCell(Cell(x, y, square) + rest, x, y) == Some((square, rest))
  {
    var t := AfterBackground(square, rest);
    CellSplit(x, y, square, rest);
    DropPrefixConcat(Background(x, y), t);
    AfterBackgroundSymbol(square, rest);
    EmojiRoundTrip(square);
    DropPrefixConcat(Foreground(square.piece) + [ToEmoji(square)] + CellEnd, rest);
  }

  /** Whatever reads as a cell is exactly that cell followed by what is left. */
  lemma ParseCellExact(s: string, x: nat, y: nat, square: Square, rest: string)
    requires ParseCell(s, x, y) == Some((square, rest))
    ensures s == Cell(x, y, square) + rest
  {
    var bg := Background(x, y);
    var t := DropPrefix(s, bg).value;
    DropPrefixSplit(s, bg);
    var c := t[ForegroundWidth];
    EmojiOfRead(c, square.piece);
    var tail := Foreground(square.piece) + [c] + CellEnd;
    DropPrefixSplit(t, tail);
    assert t == tail + rest;
    assert s == bg + (tail + rest);
    AppendAssoc(bg, tail, rest);
    assert Cell(x, y, square) == bg + tail;
  }

  /** Reading one cell and then the others reads the run of all of them. */
  lemma ParseCellsStep(s: string, y: nat, x: nat, first: Square, after: string, others: seq<Square>, rest: string)
    requires ParseCell(s, x, y) == Some((first, after))
    requires ParseCells(after, y, x + 1, |others|) == Some((others, rest))
    ensures ParseCells(s, y, x, |[first] + others|) == Some(([first] + others, rest))
  {
  }

  /** A run of cells followed by `rest` is its first cell followed by the others and `rest`. */
  lemma RowTextSplit(squares: seq<Square>, y: nat, x: nat, rest: string)
    requires |squares| > 0
    ensures RowText(squares, y, x) + rest == Cell(x, y, squares[0]) + (RowText(squares[1..], y, x + 1) + rest)
  {
    AppendAssoc(Cell(x, y, squares[0]), RowText(squares[1..], y, x + 1), rest);
  }

  /** One cell in front of a run that reads back reads back one cell longer. */
  lemma ParseCellsInverseStep(squares: seq<Square>, y: nat, x: nat, rest: string)
    requires |squares| > 0
    requires ParseCells(RowText(squares[1..], y, x + 1) + rest, y, x + 1, |squares[1..]|) == Some((squares[1..], rest))
    ensures ParseCells(RowText(squares, y, x) + rest, y, x, |squares|) == Some((squares, rest))
  {
    var tail := RowText(squares[1..], y, x + 1);
    RowTextSplit(squares, y, x, rest);
    ParseCellInverse(x, y, squares[0], tail + rest);
    ParseCellsStep(RowText(squares, y, x) + rest, y, x, squares[0], tail + rest, squares[1..], rest);
    HeadTail(squares);
  }

  /** A run of cells reads back as its squares, leaving what followed. */
  lemma {:induction false} ParseCellsInverse(squares: seq<Square>, y: nat, x: nat, rest: string)
    ensures ParseCells(RowText(squares, y, x) + rest, y, x, |squares|) == Some((squares, rest))
    decreases |squares|
  {
    if |squares| > 0 {
      ParseCellsInverse(squares[1..], y, x + 1, rest);
      ParseCellsInverseStep(squares, y, x, rest);
    } else {
      assert RowText(squares, y, x) + rest == rest;
    }
  }

  /** Regrouping `cell + (tail + rest)` as `(cell + tail) + rest`. */
  lemma Regroup(s: string, cell: string, after: string, tail: string, rest: string)
    requires s == cell + after && after == tail + rest
    ensures s == (cell + tail) + rest
  {
    AppendAssoc(cell, tail, rest);
  }

  lemma RowTextOfCons(square: Square, others: seq<Square>, y: nat, x: nat)
    ensures RowText([square] + others, y, x) == Cell(x, y, square) + RowText(others, y, x + 1)
  {
    assert ([square] + others)[0] == square;
    assert ([square] + others)[1..] == others;
  }

  /** A read of one or more cells is a read of the first cell and then of the others. */
  lemma ParseCellsUncons(s: string, y: nat, x: nat, squares: seq<Square>, rest: string) returns (after: string)
    requires |squares| > 0 && ParseCells(s, y, x, |squares|) == Some((squares, rest))
    ensures ParseCell(s, x, y) == Some((squares[0], after))
    ensures ParseCells(after, y, x + 1, |squares[1..]|) == Some((squares[1..], rest))
  {
    after := ParseCell(s, x, y).value.1;
  }

  /** A cell in front of a run that is exactly its text is exactly the longer run's text. */
  lemma ParseCellsExactStep(s: string, y: nat, x: nat, squares: seq<Square>, after: string, rest: string)
    requires |squares| > 0
    requires ParseCell(s, x, y) == Some((squares[0], after))
    requires after == RowText(squares[1..], y, x + 1) + rest
    ensures s == RowText(squares, y, x) + rest
  {
    assert s == (Cell(x, y, squares[0]) + RowText(squares[1..], y, x + 1)) + rest by {
      ParseCellExact(s, x, y, squares[0], after);
      Regroup(s, Cell(x, y, squares[0]), after, RowText(squares[1..], y, x + 1), rest);
    }
  }

  /** Whatever reads as a run of cells is exactly their text followed by what is left. */
  lemma {:induction false} ParseCellsExact(s: string, y: nat, x: nat, squares: seq<Square>, rest: string)
    requires ParseCells(s, y, x, |squares|) == Some((squares, rest))
    ensures s == RowText(squares, y, x) + rest
    decreases |squares|
  {
    if |squares| > 0 {
      var after := ParseCellsUncons(s, y, x, squares, rest);
      ParseCellsExact(after, y, x + 1, squares[1..], rest);
      ParseCellsExactStep(s, y, x, squares, after, rest);
    } else {
      assert RowText(squares, y, x) + rest == rest;
    }
  }

  /** Reading a row, a newline and the lines after it reads them all. */
  lemma ParseLinesStep(s: string, y: nat, row: Row, tail: string, rows: seq<Row>)
    requires ParseCells(s, y, 0, |row|) == Some((row, "\n" + tail))
    requires ParseLines(tail, y + 1, |rows|) == Some(rows)
    ensures ParseLines(s, y, |[row] + rows|) == Some([row] + rows)
  {
    DropPrefixConcat("\n", tail);
  }

  /** The lines of rows are the first row's line, a newline and the others' lines. */
  lemma LinesSplit(rows: seq<Row>, y: nat)
    requires |rows| > 0
    ensures Lines(rows, y) == RowText(rows[0], y, 0) + ("\n" + Lines(rows[1..], y + 1))
  {
    AppendAssoc(RowText(rows[0], y, 0), "\n", Lines(rows[1..], y + 1));
  }

  /** A row and a newline in front of lines that read back read back one line longer. */
  lemma ParseLinesInverseStep(rows: seq<Row>, y: nat)
    requires |rows| > 0
    requires ParseLines(Lines(rows[1..], y + 1), y + 1, |rows[1..]|) == Some(rows[1..])
    ensures ParseLines(Lines(rows, y), y, |rows|) == Some(rows)
  {
    var tail := Lines(rows[1..], y + 1);
    LinesSplit(rows, y);
    ParseCellsInverse(rows[0], y, 0, "\n" + tail);
    ParseLinesStep(Lines(rows, y), y, rows[0], tail, rows[1..]);
    HeadTail(rows);
  }

  /** The lines of a run of rows read back as those rows. */
  lemma {:induction false} ParseLinesInverse(rows: seq<Row>, y: nat)
    ensures ParseLines(Lines(rows, y), y, |rows|) == Some(rows)
    decreases |rows|
  {
    if |rows| > 0 {
      ParseLinesInverse(rows[1..], y + 1);
      ParseLinesInverseStep(rows, y);
    }
  }

  /** A read of one or more lines is a read of the first row, a newline, and a read of the others. */
  lemma ParseLinesUncons(s: string, y: nat, rows: seq<Row>) returns (tail: string)
    requires |rows| > 0 && ParseLines(s, y, |rows|) == Some(rows)
    ensures ParseCells(s, y, 0, Files) == Some((rows[0], "\n" + tail))
    ensures ParseLines(tail, y + 1, |rows[1..]|) == Some(rows[1..])
  {
    var cells := ParseCells(s, y, 0, Files).value;
    tail := DropPrefix(cells.1, "\n").value;
    assert cells.1 == "\n" + tail by {
      DropPrefixSplit(cells.1, "\n");
    }
    var others := ParseLines(tail, y + 1, |rows[1..]|).value;
    assert rows[0] == cells.0 && rows[1..] == others by {
      assert rows == [cells.0] + others;
    }
  }

  /** A row and a newline in front of lines that are exactly their text are exactly the longer text. */
  lemma ParseLinesExactStep(s: string, y: nat, rows: seq<Row>, tail: string)
    requires |rows| > 0
    requires ParseCells(s, y, 0, Files) == Some((rows[0], "\n" + tail))
    requires tail == Lines(rows[1..], y + 1)
    ensures s == Lines(rows, y)
  {
    var line := RowText(rows[0], y, 0);
    assert s == (line + "\n") + tail by {
      ParseCellsExact(s, y, 0, rows[0], "\n" + tail);
      Regroup(s, line, "\n" + tail, "\n", tail);
    }
  }

  /** Whatever reads as lines of rows is exactly their lines. */
  lemma {:induction false} ParseLinesExact(s: string, y: nat, rows: seq<Row>)
    requires ParseLines(s, y, |rows|) == Some(rows)
    ensures s == Lines(rows, y)
    decreases |rows|
  {
    if |rows| > 0 {
      var tail := ParseLinesUncons(s, y, rows);
      ParseLinesExact(tail, y + 1, rows[1..]);
      ParseLinesExactStep(s, y, rows, tail);
    }
  }

  /** Reading the display back gives the board: the rendering loses nothing. */
  lemma RenderRoundTrip(board: ChessBoard)
    ensures ParseBoard(Render(board)) == Some(board)
  {
    ParseLinesInverse(board, 0);
  }

  /**
    A text reads back as a board exactly when it is that board's display: every
    cell has the background of its square's colour and the foreground of its
    piece's colour, and nothing else is in the text.
  */
  lemma ParseBoardExact(s: string, board: ChessBoard)
    ensures ParseBoard(s) == Some(board) <==> s == Render(board)
  {
    if ParseBoard(s) == Some(board) {
      ParseLinesExact(s, 0, board);
    }
    if s == Render(board) {
      RenderRoundTrip(board);
    }
  }
}
