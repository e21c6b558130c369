/** The move engine and score tracker: the whole game state as a value, the
    transition made by `processMove` (with the score part of `endGame`), the
    reset made by `initGame`, and the invariant that play keeps. */
module Engine {
  import opened Board

  datatype Mode = PvP | PvC

  datatype Scores = Scores(playerX: nat, playerO: nat, ties: nat)

  /** What `endGame` is told: a winner with its line, or a draw. */
  datatype Outcome = Win(winner: Player, combination: int) | Draw

  /** The score part of `endGame`: exactly one counter goes up by one, the
      winner's on a win and the ties counter on a draw. */
  function Tally(s: Scores, o: Outcome): (r: Scores)
    ensures r.playerX + r.playerO + r.ties == s.playerX + s.playerO + s.ties + 1
    ensures r.playerX >= s.playerX && r.playerO >= s.playerO && r.ties >= s.ties
    ensures r.ties == s.ties + 1 <==> o.Draw?
    ensures r.playerX == s.playerX + 1 <==> o.Win? && o.winner == X
    ensures r.playerO == s.playerO + 1 <==> o.Win? && o.winner == O
  {
    match o
    case Draw => s.(ties := s.ties + 1)
    case Win(w, _) => if w == X then s.(playerX := s.playerX + 1) else s.(playerO := s.playerO + 1)
  }

  /** The fields of the game state that the engine reads and writes. */
  datatype State = State(board: Grid, currentPlayer: Player, gameMode: Mode,
                         gameActive: bool, scores: Scores)

  /** X moves first and the turn alternates, so X has as many marks as O
      or one more. */
  predicate Balanced(b: Grid)
  {
    Count(b, X) == Count(b, O) || Count(b, X) == Count(b, O) + 1
  }

  function NextToMove(b: Grid): Player
  {
    if Count(b, X) == Count(b, O) then X else O
  }

  /** What holds of every reachable state: the marks are balanced; while the
      game is active it is the turn of the player with fewer marks, no line
      has been won and a cell is free; once it is over, a line is won or the
      board is full. */
  predicate Inv(g: State)
  {
    && Balanced(g.board)
    && (g.gameActive ==> g.currentPlayer == NextToMove(g.board)
                         && CheckWin(g.board).None? && Empty in g.board)
    && (!g.gameActive ==> CheckWin(g.board).Some? || Empty !in g.board)
  }

  /** `processMove(index)`: place the current player's mark, then end the
      game on a win or a full board, or else hand the turn over. */
  function AfterMove(g: State, index: int): (r: State)
    requires 0 <= index < 9
    ensures r.board[index] == g.currentPlayer
    ensures forall k :: 0 <= k < 9 && k != index ==> r.board[k] == g.board[k]
    ensures r.gameMode == g.gameMode
    ensures r.scores.playerX >= g.scores.playerX && r.scores.playerO >= g.scores.playerO
            && r.scores.ties >= g.scores.ties
  {
    var b := g.board[index := g.currentPlayer];
    match CheckWin(b)
    case Some(info) =>
      g.(board := b, gameActive := false, scores := Tally(g.scores, Win(info.winner, info.combination)))
    case None =>
      if Empty !in b then g.(board := b, gameActive := false, scores := Tally(g.scores, Draw))
      else g.(board := b, currentPlayer := Other(g.currentPlayer))
  }

  /** `initGame`: an empty board, X to move, the game active; the mode and
      the three counters are kept. */
  function Reset(g: State): (r: State)
    ensures Inv(r)
    ensures forall k :: 0 <= k < 9 ==> r.board[k] == Empty
    ensures r.currentPlayer == X && r.gameActive
    ensures r.scores == g.scores && r.gameMode == g.gameMode
  {
    EmptyBoardCells();
    State(EmptyBoard, X, g.gameMode, true, g.scores)
  }

  /** A line won right after a move on a board with no won line is a line
      through the cell just played, and it is won by the mover. */
  lemma NewWinIsMovers(b: Grid, index: int, p: Player)
    requires 0 <= index < 9 && CheckWin(b).None?
    ensures CheckWin(b[index := p]).Some? ==>
              CheckWin(b[index := p]).value.winner == p
              && InLine(index, CheckWin(b[index := p]).value.combination)
  {
    var b' := b[index := p];
    if CheckWin(b').Some? {
      var i := CheckWin(b').value.combination;
      assert InLine(index, i) by {
        if !InLine(index, i) {
          assert LineWins(b, i);
          assert false;
        }
      }
    }
  }

  /** From a reachable active state, a legal move ends in exactly one of
      three ways: the mover wins and only the mover's counter goes up; the
      board fills with no win and only the ties counter goes up; or the turn
      passes to the other player and the counters stay as they were. */
  lemma MoveOutcome(g: State, index: int)
    requires Inv(g) && g.gameActive && 0 <= index < 9 && g.board[index] == Empty
    ensures var r := AfterMove(g, index);
            if CheckWin(r.board).Some? then
              && !r.gameActive && r.currentPlayer == g.currentPlayer
              && r.scores.ties == g.scores.ties
              && (g.currentPlayer == X ==> r.scores.playerX == g.scores.playerX + 1
                                           && r.scores.playerO == g.scores.playerO)
              && (g.currentPlayer == O ==> r.scores.playerO == g.scores.playerO + 1
                                           && r.scores.playerX == g.scores.playerX)
            else if Empty !in r.board then
              && !r.gameActive && r.currentPlayer == g.currentPlayer
              && r.scores == g.scores.(ties := g.scores.ties + 1)
            else
              r.gameActive && r.currentPlayer == Other(g.currentPlayer) && r.scores == g.scores
  {
    NewWinIsMovers(g.board, index, g.currentPlayer);
  }

  /** A legal move from a reachable active state leads to a reachable state;
      in particular X's marks stay equal to O's or one more. */
  lemma MovePreservesInv(g: State, index: int)
    requires Inv(g) && g.gameActive && 0 <= index < 9 && g.board[index] == Empty
    ensures Inv(AfterMove(g, index))
  {
    var b := g.board;
    var p := g.currentPlayer;
    CountUpdate(b, index, p, X);
    CountUpdate(b, index, p, O);
  }

  /** X completes the top row. */
  lemma TopRowScenario(s: Scores)
    ensures var g := State([X, X, Empty, O, O, Empty, Empty, Empty, Empty], X, PvP, true, s);
            var r := AfterMove(g, 2);
            && CheckWin(r.board) == Some(WinInfo(X, 0)) && WinTypeOf(0) == Row(0)
            && !r.gameActive && r.scores == s.(playerX := s.playerX + 1)
  {
    var b := [X, X, X, O, O, Empty, Empty, Empty, Empty];
    assert LineWins(b, 0);
  }

  /** X fills the last cell of `[X,O,X,X,O,O,O,X,_]` without completing a
      line, and the game is a draw. */
  lemma DrawScenario(s: Scores)
    ensures var g := State([X, O, X, X, O, O, O, X, Empty], X, PvP, true, s);
            var r := AfterMove(g, 8);
            && CheckWin(r.board).None? && !r.gameActive && r.scores == s.(ties := s.ties + 1)
  {
    var g := State([X, O, X, X, O, O, O, X, Empty], X, PvP, true, s);
    var b := g.board[8 := X];
    assert b == [X, O, X, X, O, O, O, X, X];
    assert !LineWins(b, 0) && !LineWins(b, 1) && !LineWins(b, 2) && !LineWins(b, 3);
    assert !LineWins(b, 4) && !LineWins(b, 5) && !LineWins(b, 6) && !LineWins(b, 7);
    assert CheckWin(b).None?;
    assert Empty !in b;
  }
}
