/** The computer opponent's move selection: win, block, centre, a random
    free corner, a random free cell, in that order. The random picks are left
    open: the strategy is the SET of cells each step may choose from. */
module Strategy {
  import opened Board

  type Index = k: int | 0 <= k < 9

  const Corners: seq<Index> := [0, 2, 6, 8]
  const CellIndices: seq<Index> := [0, 1, 2, 3, 4, 5, 6, 7, 8]

  /** Every cell index is listed in `CellIndices`. */
  lemma CellIndexListed(k: Index)
    ensures k in CellIndices
  {
    assert CellIndices[k] == k;
  }

  /** The indices of `indices` whose cell is empty, in their order (the
      `filter` over the corners and over all cells). */
  function EmptyAmong(b: Grid, indices: seq<Index>): (r: seq<Index>)
    ensures forall k :: k in r <==> k in indices && b[k] == Empty
  {
    if indices == [] then []
    else
      var rest := EmptyAmong(b, indices[1..]);
      if b[indices[0]] == Empty then [indices[0]] + rest else rest
  }

  /** The cells `computerMove` may pick on board `b`: the winning cell,
      else the blocking cell, else the centre, else the free corners, else
      the free cells. Whatever the step, the computer only picks a free cell. */
  function Candidates(b: Grid): (r: set<int>)
    ensures forall m :: m in r ==> 0 <= m < 9 && b[m] == Empty
  {
    var win := FindWinningMove(b, O);
    if win != -1 then {win}
    else
      var block := FindWinningMove(b, X);
      if block != -1 then {block}
      else if b[4] == Empty then {4}
      else
        var corners := EmptyAmong(b, Corners);
        if |corners| > 0 then set k | k in corners
        else set k | k in EmptyAmong(b, CellIndices)
  }

  /** Some line holds two of `p`'s marks and an empty cell. */
  predicate CanComplete(b: Grid, p: Player)
  {
    exists j :: 0 <= j < 8 && Threat(b, p, j)
  }

  /** Playing `p` at the empty cell `m` completes a line through `m`. */
  predicate Completes(b: Grid, m: int, p: Player)
  {
    0 <= m < 9 && b[m] == Empty && exists j :: 0 <= j < 8 && InLine(m, j) && LineWins(b[m := p], j)
  }

  /** The computer has a pick exactly when the board has a free cell. */
  lemma CandidatesExistIffFreeCell(b: Grid)
    ensures Candidates(b) == {} <==> Empty !in b
  {
    var win := FindWinningMove(b, O);
    var block := FindWinningMove(b, X);
    if win != -1 {
      assert win in Candidates(b) && b[win] == Empty;
    } else if block != -1 {
      assert block in Candidates(b) && b[block] == Empty;
    } else if b[4] == Empty {
      assert 4 in Candidates(b);
    } else {
      var corners := EmptyAmong(b, Corners);
      if |corners| > 0 {
        assert corners[0] in Candidates(b);
        assert b[corners[0]] == Empty;
      } else if Empty in b {
        var k :| 0 <= k < 9 && b[k] == Empty;
        CellIndexListed(k);
        assert k in Candidates(b);
      }
    }
  }

  /** First priority: when O can complete a line, the computer's only pick
      is the cell that does so. */
  lemma TakesWinningMove(b: Grid)
    requires CanComplete(b, O)
    ensures |Candidates(b)| == 1 && forall m :: m in Candidates(b) ==> Completes(b, m, O)
  {
    var win := FindWinningMove(b, O);
    var j := FindWinningMoveCompletes(b, O);
    assert Candidates(b) == {win};
  }

  /** Second priority: when O cannot win but X can complete a line, the
      computer's only pick is the cell X needs. */
  lemma BlocksThreat(b: Grid)
    requires !CanComplete(b, O) && CanComplete(b, X)
    ensures |Candidates(b)| == 1 && forall m :: m in Candidates(b) ==> Completes(b, m, X)
  {
    var block := FindWinningMove(b, X);
    var j := FindWinningMoveCompletes(b, X);
    assert Candidates(b) == {block};
  }

  /** Last priorities: with nothing to win or block, the centre if it is
      free, else any free corner, else any free cell. */
  lemma FallsBackToCentreCornerAny(b: Grid)
    requires !CanComplete(b, O) && !CanComplete(b, X)
    ensures b[4] == Empty ==> Candidates(b) == {4}
    ensures b[4] != Empty && (exists k :: k in Corners && b[k] == Empty) ==>
              Candidates(b) == set k | k in Corners && b[k] == Empty
    ensures b[4] != Empty && (forall k :: k in Corners ==> b[k] != Empty) ==>
              Candidates(b) == set k | 0 <= k < 9 && b[k] == Empty
  {
    assert FindWinningMove(b, O) == -1 && FindWinningMove(b, X) == -1;
    if b[4] != Empty {
      var corners := EmptyAmong(b, Corners);
      if |corners| == 0 {
        var all := EmptyAmong(b, CellIndices);
        forall k | 0 <= k < 9 ensures k in all <==> b[k] == Empty {
          CellIndexListed(k);
        }
      } else {
        assert corners[0] in corners;
      }
    }
  }

  /** The opening reply: after X takes the centre, the computer can neither
      win nor block, and picks one of the four corners. */
  lemma ReplyToCentreOpening()
    ensures Candidates(EmptyBoard[4 := X]) == {0, 2, 6, 8}
  {
    var b := EmptyBoard[4 := X];
    assert forall j :: 0 <= j < 8 ==> !Threat(b, O, j);
    assert forall j :: 0 <= j < 8 ==> !Threat(b, X, j);
    FallsBackToCentreCornerAny(b);
    assert 0 in Corners && b[0] == Empty;
  }
}
