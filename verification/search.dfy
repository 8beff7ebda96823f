/**
  The engine's search: a static material-and-castling evaluation, a fixed-depth
  recursive search over the legal-move tree, and the choice of the root move.

  Scores are Rust `isize` values. Evaluations stay within `EvalBound` either way;
  search values lie between `NegInfinity` (`isize::MIN`, reached only as the
  sentinel of a position without moves) and that bound. The search only takes
  maxima and compares scores, so no value is computed from the sentinel and the
  model's unbounded integers agree with the machine ones.
*/
module Search {
  import opened ChessRules

  /**
    The score the search starts from before any child is seen:
    `f32::NEG_INFINITY as isize`, which saturates to the least 64-bit `isize`.
  */
  const NegInfinity: int := -0x8000_0000_0000_0000

  /** The fixed depth the root searches each child to. */
  const SearchDepth: nat := 3

  /** The number of sides (king side, queen side) a set of castling rights keeps. */
  function KeptSides(rights: CastleRights): nat {
    match rights
    case NoRights => 0
    case KingSide => 1
    case QueenSide => 1
    case Both => 2
  }

  /** The castling bonus: computed from the rights' index, it is 100 per side kept. */
  function CastleRightsScore(rights: CastleRights): (score: int)
    ensures score == 100 * KeptSides(rights)
  {
    var index := CastleIndex(rights) as int;
    if index >= 2 then (index - 1) * 100 else index * 100
  }

  /** The material value of a piece, in centipawns. */
  function PieceScore(p: Piece): (score: int)
    ensures score > 0
    ensures p != King ==> score <= 900
  {
    match p
    case Pawn => 100
    case Knight => 300
    case Bishop => 300
    case Rook => 500
    case Queen => 900
    case King => 10000
  }

  /** The material balance of one piece kind, from `side`'s point of view. */
  function Balance<B>(rules: Rules<B>, board: B, side: Color, p: Piece): int {
    rules.pieceCount(board, side, p) * PieceScore(p) - rules.pieceCount(board, Other(side), p) * PieceScore(p)
  }

  /** The loop of `evaluate` over the remaining piece kinds, adding own and subtracting enemy material. */
  function MaterialLoop<B>(rules: Rules<B>, board: B, side: Color, pieces: seq<Piece>, score: int): int
    decreases |pieces|
  {
    if |pieces| == 0 then score
    else
      var p := pieces[0];
      var own := score + rules.pieceCount(board, side, p) * PieceScore(p);
      var net := own - rules.pieceCount(board, Other(side), p) * PieceScore(p);
      MaterialLoop(rules, board, side, pieces[1..], net)
  }

  /** The loop adds the balance of each piece kind it visits to the running score. */
  lemma {:induction false} MaterialLoopSum<B>(rules: Rules<B>, board: B, side: Color, pieces: seq<Piece>, score: int)
    ensures MaterialLoop(rules, board, side, pieces, score) == score + BalanceSum(rules, board, side, pieces)
    decreases |pieces|
  {
    if |pieces| > 0 {
      MaterialLoopSum(rules, board, side, pieces[1..], score + Balance(rules, board, side, pieces[0]));
    }
  }

  /** The sum of the balances of the listed piece kinds. */
  function BalanceSum<B>(rules: Rules<B>, board: B, side: Color, pieces: seq<Piece>): int
    decreases |pieces|
  {
    if |pieces| == 0 then 0
    else Balance(rules, board, side, pieces[0]) + BalanceSum(rules, board, side, pieces[1..])
  }

  /** Summed over every piece kind, the balances are the six kinds' balances added up. */
  lemma BalanceSumAll<B>(rules: Rules<B>, board: B, side: Color)
    ensures BalanceSum(rules, board, side, AllPieces)
      == Balance(rules, board, side, Pawn) + Balance(rules, board, side, Knight)
      + Balance(rules, board, side, Bishop) + Balance(rules, board, side, Rook)
      + Balance(rules, board, side, Queen) + Balance(rules, board, side, King)
  {
    assert AllPieces[1..][1..][1..][1..][1..][1..] == [];
  }

  /** With at most 64 pieces a side, one kind's balance is at most 64 of its pieces either way. */
  lemma BalanceBound<B>(rules: Rules<B>, board: B, side: Color, p: Piece)
    ensures -64 * PieceScore(p) <= Balance(rules, board, side, p) <= 64 * PieceScore(p)
  {
    CountTimesScore(rules.pieceCount(board, side, p), PieceScore(p));
    CountTimesScore(rules.pieceCount(board, Other(side), p), PieceScore(p));
  }

  /** At most 64 pieces of one value are worth at most 64 times that value. */
  lemma CountTimesScore(count: PopCount, score: int)
    requires score > 0
    ensures 0 <= count * score <= 64 * score
  {
    assert (64 - count) * score >= 0;
  }

  /** The largest absolute value `Evaluate` can take. */
  const EvalBound: int := 64 * (100 + 300 + 300 + 500 + 900 + 10000) + 200

  /**
    The static evaluation of `board` from `side`'s point of view: own castling
    bonus minus the opponent's, plus, for every piece kind, the difference of the
    two sides' counts times the piece's value.
  */
  function Evaluate<B>(rules: Rules<B>, board: B, side: Color): (score: int)
    ensures score ==
      CastleRightsScore(rules.castleRights(board, side)) - CastleRightsScore(rules.castleRights(board, Other(side)))
      + Balance(rules, board, side, Pawn) + Balance(rules, board, side, Knight)
      + Balance(rules, board, side, Bishop) + Balance(rules, board, side, Rook)
      + Balance(rules, board, side, Queen) + Balance(rules, board, side, King)
    ensures -EvalBound <= score <= EvalBound
  {
    var castling := CastleRightsScore(rules.castleRights(board, side))
                    - CastleRightsScore(rules.castleRights(board, Other(side)));
    MaterialLoopSum(rules, board, side, AllPieces, castling);
    BalanceSumAll(rules, board, side);
    BalanceBound(rules, board, side, Pawn);
    BalanceBound(rules, board, side, Knight);
    BalanceBound(rules, board, side, Bishop);
    BalanceBound(rules, board, side, Rook);
    BalanceBound(rules, board, side, Queen);
    BalanceBound(rules, board, side, King);
    MaterialLoop(rules, board, side, AllPieces, castling)
  }

  /** The evaluation is antisymmetric: what one side gains the other loses. */
  lemma EvaluateAntisymmetric<B>(rules: Rules<B>, board: B, side: Color)
    ensures Evaluate(rules, board, side) == -Evaluate(rules, board, Other(side))
  {
    OtherInvolutive(side);
  }

  /** With the same material and castling rights on both sides, the evaluation is zero. */
  lemma EvaluateBalanced<B>(rules: Rules<B>, board: B, side: Color)
    requires forall p :: rules.pieceCount(board, White, p) == rules.pieceCount(board, Black, p)
    requires KeptSides(rules.castleRights(board, White)) == KeptSides(rules.castleRights(board, Black))
    ensures Evaluate(rules, board, side) == 0
  {
  }

  /** The children of `board`, one per legal move, in generation order. */
  function Children<B>(rules: Rules<B>, board: B): (children: seq<B>)
    ensures |children| == |rules.legalMoves(board)|
    ensures forall i :: 0 <= i < |children| ==> children[i] == rules.makeMove(board, rules.legalMoves(board)[i])
  {
    var moves := rules.legalMoves(board);
    seq(|moves|, i requires 0 <= i < |moves| => rules.makeMove(board, moves[i]))
  }

  /**
    The search value of `board` at `depth`: the evaluation from `side`'s point of
    view at depth 0, and otherwise the largest value of a child searched one ply
    less deep with the perspective flipped, starting from `NegInfinity`.
  */
  function Minimax<B>(rules: Rules<B>, board: B, side: Color, depth: nat): (value: int)
    ensures NegInfinity <= value <= EvalBound
    decreases depth, 1
  {
    if depth == 0 then Evaluate(rules, board, side)
    else BestChild(rules, board, rules.legalMoves(board), side, depth, NegInfinity)
  }

  /** The loop of `minimax` over the remaining moves: keep the larger of the running maximum and each child's value. */
  function BestChild<B>(rules: Rules<B>, board: B, moves: seq<ChessMove>, side: Color, depth: nat, best: int): (value: int)
    requires depth > 0
    requires NegInfinity <= best <= EvalBound
    ensures NegInfinity <= value <= EvalBound
    ensures best <= value
    decreases depth, 0, |moves|
  {
    if |moves| == 0 then best
    else
      var score := Minimax(rules, rules.makeMove(board, moves[0]), Other(side), depth - 1);
      var next := if best >= score then best else score;
      BestChild(rules, board, moves[1..], side, depth, next)
  }

  /**
    The loop's result is the running maximum or the value of one of the moves,
    and no move's value exceeds it.
  */
  lemma {:induction false} BestChildIsMax<B>(rules: Rules<B>, board: B, moves: seq<ChessMove>, side: Color, depth: nat, best: int)
    requires depth > 0
    requires NegInfinity <= best <= EvalBound
    ensures var value := BestChild(rules, board, moves, side, depth, best);
      && (forall i :: 0 <= i < |moves| ==>
            Minimax(rules, rules.makeMove(board, moves[i]), Other(side), depth - 1) <= value)
      && (value == best ||
            exists i :: 0 <= i < |moves| &&
              value == Minimax(rules, rules.makeMove(board, moves[i]), Other(side), depth - 1))
    decreases |moves|
  {
    if |moves| > 0 {
      var score := Minimax(rules, rules.makeMove(board, moves[0]), Other(side), depth - 1);
      var next := if best >= score then best else score;
      BestChildIsMax(rules, board, moves[1..], side, depth, next);
      var value := BestChild(rules, board, moves, side, depth, best);
      assert value == BestChild(rules, board, moves[1..], side, depth, next);
      forall i | 0 <= i < |moves|
        ensures Minimax(rules, rules.makeMove(board, moves[i]), Other(side), depth - 1) <= value
      {
        if i > 0 {
          assert moves[i] == moves[1..][i - 1];
        }
      }
      if value != best && value != next {
        var j :| 0 <= j < |moves[1..]| &&
          value == Minimax(rules, rules.makeMove(board, moves[1..][j]), Other(side), depth - 1);
        assert moves[1..][j] == moves[j + 1];
      }
    }
  }

  /** The values of the children of `board`, searched to `depth` with the perspective flipped. */
  function ChildValues<B>(rules: Rules<B>, board: B, side: Color, depth: nat): (values: seq<int>)
    ensures |values| == |rules.legalMoves(board)|
    ensures forall i :: 0 <= i < |values| ==>
      values[i] == Minimax(rules, rules.makeMove(board, rules.legalMoves(board)[i]), Other(side), depth)
  {
    var children := Children(rules, board);
    seq(|children|, i requires 0 <= i < |children| => Minimax(rules, children[i], Other(side), depth))
  }

  /**
    Above depth 0 the search value is the maximum of the children's values, each
    searched one ply less deep with the perspective flipped (never the minimum, on
    either side's ply), and `NegInfinity` when there is no legal move.
  */
  lemma MinimaxIsMaxOfChildren<B>(rules: Rules<B>, board: B, side: Color, depth: nat)
    requires depth > 0
    ensures var values := ChildValues(rules, board, side, depth - 1);
      var value := Minimax(rules, board, side, depth);
      && (|values| == 0 ==> value == NegInfinity)
      && (|values| > 0 ==> value in values)
      && (forall i :: 0 <= i < |values| ==> values[i] <= value)
  {
    var values := ChildValues(rules, board, side, depth - 1);
    var moves := rules.legalMoves(board);
    var value := Minimax(rules, board, side, depth);
    BestChildIsMax(rules, board, moves, side, depth, NegInfinity);
    assert forall i :: 0 <= i < |values| ==>
      values[i] == Minimax(rules, rules.makeMove(board, moves[i]), Other(side), depth - 1);
    if |values| > 0 && value == NegInfinity {
      assert values[0] <= value;
    }
  }

  /** At depth 0 the search value is the static evaluation from the given side's point of view. */
  lemma MinimaxLeaf<B>(rules: Rules<B>, board: B, side: Color)
    ensures Minimax(rules, board, side, 0) == Evaluate(rules, board, side)
  {
  }

  /** The value the root gives each of its moves: the child's search value from the opponent's point of view. */
  function RootScores<B>(rules: Rules<B>, board: B): (scores: seq<int>)
    ensures |scores| == |rules.legalMoves(board)|
  {
    ChildValues(rules, board, rules.sideToMove(board), SearchDepth)
  }

  /** Index `k` holds a least score, and every later index holds a strictly greater one. */
  predicate IsLastMinimum(scores: seq<int>, k: int) {
    && 0 <= k < |scores|
    && (forall j :: 0 <= j < |scores| ==> scores[k] <= scores[j])
    && (forall j :: k < j < |scores| ==> scores[k] < scores[j])
  }

  /** The last least score is unique, so the root's choice is determined by the scores. */
  lemma LastMinimumUnique(scores: seq<int>, k: int, l: int)
    requires IsLastMinimum(scores, k) && IsLastMinimum(scores, l)
    ensures k == l
  {
    assert scores[k] <= scores[l];
    assert scores[l] <= scores[k];
  }

  /** Appending one more score moves the last minimum to it exactly when it is no greater. */
  lemma LastMinimumExtend(scores: seq<int>, lowest: int, score: int)
    requires IsLastMinimum(scores, lowest)
    ensures IsLastMinimum(scores + [score], if scores[lowest] >= score then |scores| else lowest)
  {
  }

  /** The root's score for its `i`-th legal move. */
  lemma RootScoreAt<B>(rules: Rules<B>, board: B, i: nat)
    requires i < |rules.legalMoves(board)|
    ensures RootScores(rules, board)[i] ==
      Minimax(rules, rules.makeMove(board, rules.legalMoves(board)[i]), Other(rules.sideToMove(board)), SearchDepth)
  {
  }

  /**
    `search_moves`: score every legal move of the root and pick the one whose
    child scores lowest for the opponent; a move whose score ties the best so far
    replaces it, so the last of the lowest-scoring moves is chosen. With no legal
    move the source indexes an empty vector, so at least one is required.
  */
  method SearchMoves<B>(rules: Rules<B>, board: B) returns (best: ChessMove)
    requires |rules.legalMoves(board)| > 0
    ensures exists k :: IsLastMinimum(RootScores(rules, board), k) && best == rules.legalMoves(board)[k]
    ensures best in rules.legalMoves(board)
  {
    var legal := rules.legalMoves(board);
    var opponent := Other(rules.sideToMove(board));
    var moves: seq<(int, ChessMove)> := [];
    var lowest := 0;
    ghost var seen: seq<int> := [];
    for i := 0 to |legal|
      invariant |moves| == i && |seen| == i
      invariant forall j :: 0 <= j < i ==> moves[j] == (seen[j], legal[j])
      invariant forall j :: 0 <= j < i ==>
        seen[j] == Minimax(rules, rules.makeMove(board, legal[j]), opponent, SearchDepth)
      invariant i == 0 ==> lowest == 0
      invariant i > 0 ==> IsLastMinimum(seen, lowest)
    {
      var child := rules.makeMove(board, legal[i]);
      var score := Minimax(rules, child, opponent, SearchDepth);
      if i > 0 {
        LastMinimumExtend(seen, lowest, score);
      }
      moves := moves + [(score, legal[i])];
      seen := seen + [score];
      if moves[lowest].0 >= score {
        lowest := |moves| - 1;
      }
    }
    RootScoresAre(rules, board, seen);
    best := moves[lowest].1;
  }

  /** A sequence agreeing with the root's score of every legal move is the root's score sequence. */
  lemma RootScoresAre<B>(rules: Rules<B>, board: B, scores: seq<int>)
    requires |scores| == |rules.legalMoves(board)|
    requires forall j :: 0 <= j < |scores| ==>
      scores[j] == Minimax(rules, rules.makeMove(board, rules.legalMoves(board)[j]), Other(rules.sideToMove(board)), SearchDepth)
    ensures scores == RootScores(rules, board)
  {
    var root := RootScores(rules, board);
    forall j | 0 <= j < |scores| ensures scores[j] == root[j] {
      RootScoreAt(rules, board, j);
    }
  }
}
