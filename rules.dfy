/** The rules of the 3x3 game in src/board.jsx: the board, its eight winning
    lines, winner detection, the move guard, the copy-and-place of a mark,
    the (row, col) location of a square and the status. */
module Rules {
  import opened Wrappers

  /** The two marks a square can hold. */
  datatype Mark = X | O

  /** A square: `None` is the source's `null` (empty), `Some(m)` holds mark `m`. */
  type Cell = Option<Mark>

  /** Three square indices of the 9-square board. */
  type Line = l: seq<int> | |l| == 3 && 0 <= l[0] < 9 && 0 <= l[1] < 9 && 0 <= l[2] < 9
    witness [0, 1, 2]

  /** The eight lines, in the order the winner is searched: rows top to
      bottom, columns left to right, the main diagonal, the anti-diagonal. */
  const Lines: seq<Line> :=
    [[0, 1, 2], [3, 4, 5], [6, 7, 8],
     [0, 3, 6], [1, 4, 7], [2, 5, 8],
     [0, 4, 8], [2, 4, 6]]

  /** The board a game starts from: nine empty squares. */
  const EmptyBoard: seq<Cell> := [None, None, None, None, None, None, None, None, None]

  /** The winning test for one line: its first square is not empty and the
      other two hold the same value. */
  predicate Wins(s: seq<Cell>, line: Line)
    requires |s| == 9
  {
    s[line[0]].Some? && s[line[0]] == s[line[1]] && s[line[0]] == s[line[2]]
  }

  /** Line `i` wins and no line before it in the search order does. */
  predicate IsFirstWin(s: seq<Cell>, i: int)
    requires |s| == 9
  {
    0 <= i < |Lines| && Wins(s, Lines[i]) && forall j :: 0 <= j < i ==> !Wins(s, Lines[j])
  }

  /** The index of the first winning line at position `k` or later. */
  function FirstWin(s: seq<Cell>, k: nat): (r: Option<nat>)
    requires |s| == 9 && k <= |Lines|
    ensures r.Some? ==> k <= r.value < |Lines|
    decreases |Lines| - k
  {
    if k == |Lines| then None
    else if Wins(s, Lines[k]) then Some(k)
    else FirstWin(s, k + 1)
  }

  /** FirstWin finds the first winning line from `k` on, and `None` exactly
      when no line from `k` on wins. */
  lemma {:induction false} FirstWinSpec(s: seq<Cell>, k: nat)
    requires |s| == 9 && k <= |Lines|
    ensures FirstWin(s, k).Some? ==> Wins(s, Lines[FirstWin(s, k).value])
    ensures FirstWin(s, k).Some? ==> forall j :: k <= j < FirstWin(s, k).value ==> !Wins(s, Lines[j])
    ensures FirstWin(s, k).None? ==> forall j :: k <= j < |Lines| ==> !Wins(s, Lines[j])
    decreases |Lines| - k
  {
    if k < |Lines| && !Wins(s, Lines[k]) {
      FirstWinSpec(s, k + 1);
    }
  }

  /** The winner: the mark and the squares of the first winning line in
      search order, or `None` when no line wins. */
  function Winner(s: seq<Cell>): Option<(Mark, Line)>
    requires |s| == 9
  {
    match FirstWin(s, 0)
    case None => None
    case Some(i) => Some((s[Lines[i][0]].value, Lines[i]))
  }

  /** What Winner promises: `None` exactly when no line wins; otherwise the
      line reported is the first winning line in search order, and each of
      its three squares holds the mark reported. */
  lemma WinnerSpec(s: seq<Cell>)
    requires |s| == 9
    ensures Winner(s).None? <==> forall i :: 0 <= i < |Lines| ==> !Wins(s, Lines[i])
    ensures Winner(s).Some? ==> exists i :: IsFirstWin(s, i) && Winner(s).value.1 == Lines[i]
    ensures Winner(s).Some? ==> forall k :: 0 <= k < 3 ==> s[Winner(s).value.1[k]] == Some(Winner(s).value.0)
  {
    FirstWinSpec(s, 0);
    if FirstWin(s, 0).Some? {
      assert IsFirstWin(s, FirstWin(s, 0).value);
    }
  }

  /** The winner search as the source runs it: a loop over the eight lines
      that returns at the first line whose three squares agree. */
  method CalculateWinner(squares: seq<Cell>) returns (r: Option<(Mark, Line)>)
    requires |squares| == 9
    ensures r == Winner(squares)
  {
    FirstWinSpec(squares, 0);
    var i := 0;
    while i < |Lines|
      invariant 0 <= i <= |Lines|
      invariant forall j :: 0 <= j < i ==> !Wins(squares, Lines[j])
    {
      var a, b, c := Lines[i][0], Lines[i][1], Lines[i][2];
      if squares[a].Some? && squares[a] == squares[b] && squares[a] == squares[c] {
        return Some((squares[a].value, [a, b, c]));
      }
      i := i + 1;
    }
    return None;
  }

  /** Every square holds a mark. */
  predicate IsFull(s: seq<Cell>)
  {
    forall i :: 0 <= i < |s| ==> s[i].Some?
  }

  /** The mark of the player to move. */
  function TurnMark(xIsNext: bool): Mark
  {
    if xIsNext then X else O
  }

  /** What the board shows above the squares. */
  datatype Status = Won(winner: Mark) | Draw | NextPlayer(player: Mark)

  /** The status of a board: a winner if a line wins, otherwise a draw when
      every square is filled, otherwise the player to move. */
  function BoardStatus(s: seq<Cell>, xIsNext: bool): (r: Status)
    requires |s| == 9
    ensures r.Won? <==> exists i :: 0 <= i < |Lines| && Wins(s, Lines[i])
    ensures r.Won? ==> exists i :: IsFirstWin(s, i) && s[Lines[i][0]] == Some(r.winner)
    ensures r.Draw? <==> IsFull(s) && forall i :: 0 <= i < |Lines| ==> !Wins(s, Lines[i])
    ensures r.NextPlayer? ==> r.player == TurnMark(xIsNext) && exists i :: 0 <= i < 9 && s[i].None?
  {
    WinnerSpec(s);
    match Winner(s)
    case Some((m, _)) => Won(m)
    case None => if IsFull(s) then Draw else NextPlayer(TurnMark(xIsNext))
  }

  /** The move guard: a click is accepted only on an empty square of a board
      that has no winner yet. */
  predicate MoveAllowed(s: seq<Cell>, index: nat)
    requires |s| == 9 && index < 9
  {
    s[index].None? && Winner(s).None?
  }

  /** Some square accepts a move exactly when the status names the next
      player, that is, when the game is neither won nor drawn. */
  lemma GuardMatchesStatus(s: seq<Cell>, xIsNext: bool)
    requires |s| == 9
    ensures (exists i :: 0 <= i < 9 && MoveAllowed(s, i)) <==> BoardStatus(s, xIsNext).NextPlayer?
  {
    if BoardStatus(s, xIsNext).NextPlayer? {
      var i :| 0 <= i < 9 && s[i].None?;
      assert MoveAllowed(s, i);
    }
  }

  /** The copy of the board with one square set: the source copies the
      squares with `slice` and assigns the one element of the copy. */
  method PlaceMark(squares: seq<Cell>, index: nat, mark: Mark) returns (next: seq<Cell>)
    requires |squares| == 9 && index < 9
    ensures |next| == 9 && next[index] == Some(mark)
    ensures forall j :: 0 <= j < 9 && j != index ==> next[j] == squares[j]
  {
    var copy := new Cell[|squares|](j requires 0 <= j < |squares| => squares[j]);
    copy[index] := Some(mark);
    next := copy[..];
  }

  /** The (row, col) of a square, as recorded with each move. */
  datatype Location = Location(row: nat, col: nat)

  /** The location of square `index`: its row and column in the 3x3 grid. */
  function LocationOf(index: nat): (loc: Location)
    requires index < 9
    ensures loc.row < 3 && loc.col < 3 && loc.row * 3 + loc.col == index
  {
    Location(index / 3, index % 3)
  }

  /** The square index the board renders at a location: `row * 3 + col`. */
  function IndexOf(loc: Location): (index: nat)
    requires loc.row < 3 && loc.col < 3
    ensures index < 9 && LocationOf(index) == loc
  {
    loc.row * 3 + loc.col
  }

  /** The number of squares of `s` holding `c`. */
  function Count(s: seq<Cell>, c: Cell): (n: nat)
    ensures n <= |s|
    ensures n == 0 <==> forall i :: 0 <= i < |s| ==> s[i] != c
  {
    if s == [] then 0 else (if s[0] == c then 1 else 0) + Count(s[1..], c)
  }

  /** Setting one square changes each count by what left and what arrived. */
  lemma {:induction false} CountUpdate(s: seq<Cell>, i: nat, v: Cell, c: Cell)
    requires i < |s|
    ensures Count(s[i := v], c) == Count(s, c) - (if s[i] == c then 1 else 0) + (if v == c then 1 else 0)
  {
    if i == 0 {
      assert s[i := v][1..] == s[1..];
    } else {
      assert s[i := v][1..] == s[1..][i - 1 := v];
      CountUpdate(s[1..], i - 1, v, c);
    }
  }
}
