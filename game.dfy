/** The game state object and the functions that update it in place: the
    board array, whose turn it is, the mode, whether the game is active and
    the three score counters. Each method is specified by the value-level
    definitions of modules Board, Engine and Strategy. */
module TicTacToe {
  import opened Board
  import opened Engine
  import opened Strategy

  class GameState {
    var board: array<Cell>
    var currentPlayer: Player
    var gameMode: Mode
    var gameActive: bool
    var scores: Scores

    /** The fields as one value. */
    ghost function Snapshot(): State
      reads this, board
      requires board.Length == 9
    {
      State(board[..], currentPlayer, gameMode, gameActive, scores)
    }

    ghost predicate Valid()
      reads this, board
    {
      board.Length == 9 && Inv(Snapshot())
    }

    /** The state object as the page creates it and `initGame` first resets
        it: an empty board, X to move, player-versus-player, all counters 0. */
    constructor ()
      ensures Valid() && fresh(board)
      ensures Snapshot() == State(EmptyBoard, X, PvP, true, Scores(0, 0, 0))
    {
      board := new Cell[9](_ => Empty);
      currentPlayer := X;
      gameMode := PvP;
      gameActive := true;
      scores := Scores(0, 0, 0);
      new;
      assert board[..] == EmptyBoard;
      assert Snapshot() == Reset(Snapshot());
    }

    /** `initGame`: a fresh empty board, the game active, X to move; the
        mode and the counters are left as they were. */
    method InitGame()
      requires Valid()
      modifies this
      ensures Valid() && fresh(board)
      ensures Snapshot() == Reset(old(Snapshot()))
    {
      board := new Cell[9](_ => Empty);
      gameActive := true;
      currentPlayer := X;
      assert board[..] == EmptyBoard;
      assert Snapshot() == Reset(old(Snapshot()));
    }

    /** `switchMode(mode)`: set the mode, then restart; the counters are
        not touched. */
    method SwitchMode(mode: Mode)
      requires Valid()
      modifies this
      ensures Valid() && fresh(board)
      ensures Snapshot() == Reset(old(Snapshot()).(gameMode := mode))
    {
      gameMode := mode;
      InitGame();
    }

    /** `checkWin`: scan the lines in order for one holding three equal,
        non-empty cells. */
    method CheckWin() returns (winInfo: Option<WinInfo>)
      requires board.Length == 9
      ensures winInfo == Board.CheckWin(board[..])
    {
      var i := 0;
      while i < |WinCombinations|
        invariant 0 <= i <= |WinCombinations|
        invariant Board.CheckWinFrom(board[..], i) == Board.CheckWin(board[..])
      {
        var l := WinCombinations[i];
        if board[l.a] != Empty && board[l.a] == board[l.b] && board[l.a] == board[l.c] {
          return Some(WinInfo(board[l.a], i));
        }
        i := i + 1;
      }
      return None;
    }

    /** `findWinningMove(player)`: scan the lines in order for one holding
        two of `player`'s marks and one empty cell; answer that cell, or -1. */
    method FindWinningMove(player: Player) returns (move: int)
      requires board.Length == 9
      ensures move == Board.FindWinningMove(board[..], player)
    {
      ghost var b := board[..];
      for i := 0 to |WinCombinations|
        invariant Board.FindWinningMoveFrom(b, player, i) == Board.FindWinningMove(b, player)
      {
        var l := WinCombinations[i];
        var playerCount := (if board[l.a] == player then 1 else 0) + (if board[l.b] == player then 1 else 0)
                           + (if board[l.c] == player then 1 else 0);
        var emptyCount := (if board[l.a] == Empty then 1 else 0) + (if board[l.b] == Empty then 1 else 0)
                          + (if board[l.c] == Empty then 1 else 0);
        if playerCount == 2 && emptyCount == 1 {
          if board[l.a] == Empty { return l.a; }
          if board[l.b] == Empty { return l.b; }
          if board[l.c] == Empty { return l.c; }
        }
      }
      return -1;
    }

    /** The selection part of `computerMove`: win, block, centre, a random
        free corner, a random free cell; -1 when no cell is free. */
    method ChooseMove() returns (move: int)
      requires board.Length == 9
      ensures move == -1 <==> Empty !in board[..]
      ensures move != -1 ==> move in Candidates(board[..])
    {
      move := FindWinningMove(O);
      if move != -1 {
        return;
      }
      move := FindWinningMove(X);
      if move != -1 {
        return;
      }
      if board[4] == Empty {
        return 4;
      }
      var availableCorners := EmptyAmong(board[..], Corners);
      if |availableCorners| > 0 {
        var k :| 0 <= k < |availableCorners|;
        return availableCorners[k];
      }
      var availableCells := EmptyAmong(board[..], CellIndices);
      if |availableCells| > 0 {
        var k :| 0 <= k < |availableCells|;
        return availableCells[k];
      }
      CandidatesExistIffFreeCell(board[..]);
      return -1;
    }

    /** The score part of `endGame`, with the label that `highlightWinner`
        draws for a won line. */
    method EndGame(outcome: Outcome) returns (highlight: Option<WinType>)
      requires outcome.Win? ==> 0 <= outcome.combination < 8
      modifies this
      ensures !gameActive && scores == Tally(old(scores), outcome)
      ensures board == old(board) && currentPlayer == old(currentPlayer) && gameMode == old(gameMode)
      ensures highlight == if outcome.Win? then Some(WinTypeOf(outcome.combination)) else None
    {
      gameActive := false;
      match outcome
      case Draw =>
        scores := scores.(ties := scores.ties + 1);
        highlight := None;
      case Win(winner, combination) =>
        if winner == X {
          scores := scores.(playerX := scores.playerX + 1);
        } else {
          scores := scores.(playerO := scores.playerO + 1);
        }
        highlight := Some(WinTypeOf(combination));
    }

    /** `processMove(index)`: place the current player's mark, then end the
        game on a win or a full board, or else hand the turn over. */
    method ProcessMove(index: int) returns (highlight: Option<WinType>)
      requires Valid() && gameActive && 0 <= index < 9 && board[index] == Empty
      modifies this, board
      ensures Valid() && board == old(board)
      ensures Snapshot() == AfterMove(old(Snapshot()), index)
      ensures highlight == match Board.CheckWin(board[..])
                           case Some(info) => Some(WinTypeOf(info.combination))
                           case None => None
    {
      ghost var before := Snapshot();
      board[index] := currentPlayer;
      var winInfo := CheckWin();
      if winInfo.Some? {
        highlight := EndGame(Win(winInfo.value.winner, winInfo.value.combination));
      } else if Empty !in board[..] {
        highlight := EndGame(Draw);
      } else {
        currentPlayer := Other(currentPlayer);
        highlight := None;
      }
      MovePreservesInv(before, index);
    }

    /** `handleCellClick`: a click on an index outside the board (where the
        board reads `undefined`), on a taken cell or after the game has ended
        changes nothing; any other click plays the current player's mark, and
        the computer's reply is due when the mode is player-versus-computer,
        the game goes on and it is O's turn. */
    method HandleCellClick(index: int) returns (computerDue: bool)
      requires Valid()
      modifies this, board
      ensures Valid() && board == old(board)
      ensures !(0 <= index < 9) || old(board[index]) != Empty || !old(gameActive) ==>
                Snapshot() == old(Snapshot()) && !computerDue
      ensures 0 <= index < 9 && old(board[index]) == Empty && old(gameActive) ==>
                && Snapshot() == AfterMove(old(Snapshot()), index)
                && computerDue == (gameMode == PvC && currentPlayer == O && gameActive)
    {
      if !(0 <= index < 9) || board[index] != Empty || !gameActive {
        return false;
      }
      var _ := ProcessMove(index);
      computerDue := gameMode == PvC && currentPlayer == O && gameActive;
    }

    /** `computerMove`: choose a cell by the strategy and play it. */
    method ComputerMove() returns (move: int)
      requires Valid() && gameActive
      modifies this, board
      ensures Valid() && board == old(board)
      ensures move in Candidates(old(board[..]))
      ensures Snapshot() == AfterMove(old(Snapshot()), move)
    {
      move := ChooseMove();
      var _ := ProcessMove(move);
    }
  }
}
