/** The board of the game: nine cells, the eight fixed winning lines, the win
    evaluator (`checkWin`) and the threat finder (`findWinningMove`), as pure
    functions over the board's contents. */
module Board {

  datatype Option<T> = None | Some(value: T)

  /** One square: empty (the source's empty string) or a player's mark. */
  datatype Cell = Empty | X | O

  type Player = c: Cell | c != Empty witness X

  /** The contents of the board, indices 0..8 read row by row. */
  type Grid = b: seq<Cell> | |b| == 9
    witness [Empty, Empty, Empty, Empty, Empty, Empty, Empty, Empty, Empty]

  const EmptyBoard: Grid := [Empty, Empty, Empty, Empty, Empty, Empty, Empty, Empty, Empty]

  /** Every cell of the empty board is empty. */
  lemma EmptyBoardCells()
    ensures forall k :: 0 <= k < 9 ==> EmptyBoard[k] == Empty
    ensures X !in EmptyBoard && O !in EmptyBoard
  {
    forall k | 0 <= k < 9
      ensures EmptyBoard[k] == Empty
    {
    }
  }

  /** The player who moves after `p`. */
  function Other(p: Player): (q: Player)
    ensures q != p
  {
    if p == X then O else X
  }

  /** An index triple; a `Combination` names three distinct cells. */
  datatype Line = Line(a: int, b: int, c: int)

  type Combination = l: Line | 0 <= l.a < 9 && 0 <= l.b < 9 && 0 <= l.c < 9
                               && l.a != l.b && l.a != l.c && l.b != l.c
    witness Line(0, 1, 2)

  /** The winning lines in scan order: rows, columns, diagonals. */
  const WinCombinations: seq<Combination> := [
    Line(0, 1, 2), Line(3, 4, 5), Line(6, 7, 8),
    Line(0, 3, 6), Line(1, 4, 7), Line(2, 5, 8),
    Line(0, 4, 8), Line(2, 4, 6)
  ]

  predicate InLine(k: int, i: int)
    requires 0 <= i < 8
  {
    var l := WinCombinations[i];
    k == l.a || k == l.b || k == l.c
  }

  /** Line `i` holds three equal, non-empty cells. */
  predicate LineWins(b: Grid, i: int)
    requires 0 <= i < 8
  {
    var l := WinCombinations[i];
    b[l.a] != Empty && b[l.a] == b[l.b] && b[l.a] == b[l.c]
  }

  /** How many cells of `s` hold `c`. */
  function Count(s: seq<Cell>, c: Cell): (n: nat)
    ensures n <= |s|
    ensures n == 0 <==> c !in s
  {
    if s == [] then 0 else (if s[0] == c then 1 else 0) + Count(s[1..], c)
  }

  lemma {:induction false} CountUpdate(s: seq<Cell>, i: int, v: Cell, c: Cell)
    requires 0 <= i < |s|
    ensures Count(s[i := v], c)
            == Count(s, c) - (if s[i] == c then 1 else 0) + (if v == c then 1 else 0)
  {
    if i > 0 {
      assert s[i := v][1..] == s[1..][i - 1 := v];
      CountUpdate(s[1..], i - 1, v, c);
    } else {
      assert s[i := v][1..] == s[1..];
    }
  }

  // ---------------------------------------------------------------------
  // Win evaluator

  /** The result of `checkWin`: the winning mark and the index of its line. */
  datatype WinInfo = WinInfo(winner: Player, combination: int)

  /** Scan of the lines from index `i` on. */
  function CheckWinFrom(b: Grid, i: int): (r: Option<WinInfo>)
    requires 0 <= i <= 8
    ensures r.None? <==> forall j :: i <= j < 8 ==> !LineWins(b, j)
    ensures r.Some? ==> i <= r.value.combination < 8
                        && LineWins(b, r.value.combination)
                        && r.value.winner == b[WinCombinations[r.value.combination].a]
                        && forall j :: i <= j < r.value.combination ==> !LineWins(b, j)
    decreases 8 - i
  {
    if i == 8 then None
    else if LineWins(b, i) then Some(WinInfo(b[WinCombinations[i].a], i))
    else CheckWinFrom(b, i + 1)
  }

  /** `checkWin`: the first line in scan order that wins, with its mark. */
  function CheckWin(b: Grid): (r: Option<WinInfo>)
    ensures r.None? <==> forall j :: 0 <= j < 8 ==> !LineWins(b, j)
    ensures r.Some? ==> 0 <= r.value.combination < 8
                        && LineWins(b, r.value.combination)
                        && r.value.winner == b[WinCombinations[r.value.combination].a]
                        && forall j :: 0 <= j < r.value.combination ==> !LineWins(b, j)
  {
    CheckWinFrom(b, 0)
  }

  /** The board with every X turned into O and every O into X. */
  function Swap(b: Grid): Grid
  {
    seq(9, k requires 0 <= k < 9 => match b[k] case Empty => Empty case X => O case O => X)
  }

  function SwapWinner(w: Option<WinInfo>): Option<WinInfo>
  {
    match w
    case None => None
    case Some(info) => Some(WinInfo(Other(info.winner), info.combination))
  }

  /** Win detection does not favour either mark: relabelling the board
      relabels the winner and keeps the reported line. */
  lemma CheckWinSymmetric(b: Grid)
    ensures CheckWin(Swap(b)) == SwapWinner(CheckWin(b))
  {
    forall j | 0 <= j < 8
      ensures LineWins(Swap(b), j) <==> LineWins(b, j)
    {
      var l := WinCombinations[j];
      assert Swap(b)[l.a] == Empty <==> b[l.a] == Empty;
      assert Swap(b)[l.a] == Swap(b)[l.b] <==> b[l.a] == b[l.b];
      assert Swap(b)[l.a] == Swap(b)[l.c] <==> b[l.a] == b[l.c];
    }
    match CheckWin(b)
    case None =>
    case Some(info) =>
      assert CheckWin(Swap(b)).Some?;
  }

  // ---------------------------------------------------------------------
  // Threat finder

  /** How many of line `i`'s three cells hold `c`. */
  function CountInLine(b: Grid, i: int, c: Cell): nat
    requires 0 <= i < 8
  {
    var l := WinCombinations[i];
    (if b[l.a] == c then 1 else 0) + (if b[l.b] == c then 1 else 0) + (if b[l.c] == c then 1 else 0)
  }

  /** Line `i` holds two of `p`'s marks and one empty cell. */
  predicate Threat(b: Grid, p: Player, i: int)
    requires 0 <= i < 8
  {
    CountInLine(b, i, p) == 2 && CountInLine(b, i, Empty) == 1
  }

  /** Line `j` is the first threatening line at or after index `i`. */
  predicate FirstThreat(b: Grid, p: Player, i: int, j: int)
    requires 0 <= i
  {
    i <= j < 8 && Threat(b, p, j) && forall k :: i <= k < j ==> !Threat(b, p, k)
  }

  /** The empty cell of a threatening line is the one that completes it. */
  lemma ThreatCompletes(b: Grid, p: Player, i: int, m: int)
    requires 0 <= i < 8 && Threat(b, p, i) && InLine(m, i) && b[m] == Empty
    ensures LineWins(b[m := p], i)
  {
  }

  /** A threatening line has an empty cell. */
  lemma ThreatHasEmptyCell(b: Grid, p: Player, i: int)
    requires 0 <= i < 8 && Threat(b, p, i)
    ensures var l := WinCombinations[i]; b[l.a] == Empty || b[l.b] == Empty || b[l.c] == Empty
  {
  }

  /** Scan of the lines from index `i` on. Once a line has the threatening
      shape one of its three cells is empty, so the source's fall-through
      past the three cell tests is never taken and the last test is the
      `else` branch here. */
  function FindWinningMoveFrom(b: Grid, p: Player, i: int): (r: int)
    requires 0 <= i <= 8
    ensures r == -1 <==> forall j :: i <= j < 8 ==> !Threat(b, p, j)
    ensures r != -1 ==> 0 <= r < 9 && b[r] == Empty
    decreases 8 - i
  {
    if i == 8 then -1
    else if Threat(b, p, i) then
      var l := WinCombinations[i];
      ThreatHasEmptyCell(b, p, i);
      if b[l.a] == Empty then l.a else if b[l.b] == Empty then l.b else l.c
    else FindWinningMoveFrom(b, p, i + 1)
  }

  /** A line that is the first threat after `i` is also the first threat
      from `i` on when line `i` itself is no threat. */
  lemma FirstThreatExtends(b: Grid, p: Player, i: int, j: int)
    requires 0 <= i < 8 && !Threat(b, p, i) && FirstThreat(b, p, i + 1, j)
    ensures FirstThreat(b, p, i, j)
  {
  }

  /** The cell found from index `i` on lies on line `j`, the first
      threatening line at or after `i`, and playing `p` there wins line `j`. */
  lemma {:induction false} FindWinningMoveFromCompletes(b: Grid, p: Player, i: int) returns (j: int)
    requires 0 <= i <= 8
    ensures var r := FindWinningMoveFrom(b, p, i);
            r != -1 ==> FirstThreat(b, p, i, j) && InLine(r, j) && LineWins(b[r := p], j)
    decreases 8 - i
  {
    j := i;
    var r := FindWinningMoveFrom(b, p, i);
    if i < 8 && r != -1 {
      if Threat(b, p, i) {
        ThreatCompletes(b, p, i, r);
      } else {
        j := FindWinningMoveFromCompletes(b, p, i + 1);
        FirstThreatExtends(b, p, i, j);
      }
    }
  }

  /** `findWinningMove(player)`: the empty cell of the first line holding two
      of `player`'s marks and one empty cell, or -1 when there is none. */
  function FindWinningMove(b: Grid, p: Player): (r: int)
    ensures r == -1 <==> forall j :: 0 <= j < 8 ==> !Threat(b, p, j)
    ensures r != -1 ==> 0 <= r < 9 && b[r] == Empty
  {
    FindWinningMoveFrom(b, p, 0)
  }

  /** The cell `findWinningMove` answers lies on line `j`, the first line
      holding two of the player's marks and an empty cell, and playing it
      wins that line. */
  lemma FindWinningMoveCompletes(b: Grid, p: Player) returns (j: int)
    ensures var r := FindWinningMove(b, p);
            r != -1 ==> FirstThreat(b, p, 0, j) && InLine(r, j) && LineWins(b[r := p], j)
  {
    j := FindWinningMoveFromCompletes(b, p, 0);
  }

  // ---------------------------------------------------------------------
  // Labels used to draw the winning line

  datatype WinType = Row(n: int) | Col(n: int) | Diag(n: int)

  /** The label `highlightWinner` gives to line `combination`. */
  function WinTypeOf(combination: int): (r: WinType)
    requires 0 <= combination < 8
    ensures 0 <= r.n < 3 && (r.Diag? ==> r.n < 2)
    ensures combination == match r
                           case Row(n) => n
                           case Col(n) => n + 3
                           case Diag(n) => n + 6
  {
    if combination < 3 then Row(combination)
    else if combination < 6 then Col(combination - 3)
    else Diag(combination - 6)
  }

  /** Each label names the geometric line it is attached to: row `r` is the
      cells with `k / 3 == r`, column `c` those with `k % 3 == c`, diagonal 0
      the main diagonal and diagonal 1 the anti-diagonal. */
  lemma WinTypeMatchesGeometry(i: int)
    requires 0 <= i < 8
    ensures match WinTypeOf(i)
            case Row(r) => 0 <= r < 3 && forall k :: InLine(k, i) <==> 0 <= k < 9 && k / 3 == r
            case Col(c) => 0 <= c < 3 && forall k :: InLine(k, i) <==> 0 <= k < 9 && k % 3 == c
            case Diag(d) => (d == 0 || d == 1)
                            && forall k :: InLine(k, i) <==>
                                 0 <= k < 9 && (if d == 0 then k / 3 == k % 3 else k / 3 + k % 3 == 2)
  {
    if i == 0 { assert WinCombinations[i] == Line(0, 1, 2); }
    else if i == 1 { assert WinCombinations[i] == Line(3, 4, 5); }
    else if i == 2 { assert WinCombinations[i] == Line(6, 7, 8); }
    else if i == 3 { assert WinCombinations[i] == Line(0, 3, 6); }
    else if i == 4 { assert WinCombinations[i] == Line(1, 4, 7); }
    else if i == 5 { assert WinCombinations[i] == Line(2, 5, 8); }
    else if i == 6 { assert WinCombinations[i] == Line(0, 4, 8); }
    else { assert WinCombinations[i] == Line(2, 4, 6); }
  }
}
