/** Concrete games: what the rules and the timeline give on fixed inputs. */
module Scenarios {
  import opened Wrappers
  import opened Rules
  import opened Timeline

  /** The empty board has no winner and shows X to move. */
  lemma EmptyBoardInProgress()
    ensures Winner(EmptyBoard) == None
    ensures BoardStatus(EmptyBoard, true) == NextPlayer(X)
  {
  }

  /** X down the left column wins with the squares 0, 3, 6. */
  lemma LeftColumnWins()
    ensures Winner(AfterX6) == Some((X, [0, 3, 6]))
  {
  }

  /** When the top row and the left column are both complete, the row is
      reported: rows are searched before columns. */
  lemma RowsBeforeColumns()
    ensures Winner([Some(O), Some(O), Some(O), Some(O), None, None, Some(O), None, None])
         == Some((O, [0, 1, 2]))
  {
  }

  /** A full board without a line is a draw. */
  lemma FullBoardDraw()
    ensures BoardStatus([Some(X), Some(O), Some(X),
                         Some(X), Some(O), Some(O),
                         Some(O), Some(X), Some(X)], true) == Draw
  {
  }

  /** The boards of the game played below, after each of its first moves. */
  const AfterX0: seq<Cell> := [Some(X), None, None, None, None, None, None, None, None]
  const AfterO1: seq<Cell> := [Some(X), Some(O), None, None, None, None, None, None, None]
  const AfterX3: seq<Cell> := [Some(X), Some(O), None, Some(X), None, None, None, None, None]
  const AfterO4: seq<Cell> := [Some(X), Some(O), None, Some(X), Some(O), None, None, None, None]
  const AfterX6: seq<Cell> := [Some(X), Some(O), None, Some(X), Some(O), None, Some(X), None, None]
  const AfterX5: seq<Cell> := [Some(X), Some(O), None, None, None, Some(X), None, None, None]

  /** The boards before the winning move have no winner. */
  lemma NoWinnerAfterX0() ensures Winner(AfterX0) == None {}
  lemma NoWinnerAfterO1() ensures Winner(AfterO1) == None {}
  lemma NoWinnerAfterX3() ensures Winner(AfterX3) == None {}
  lemma NoWinnerAfterO4() ensures Winner(AfterO4) == None {}

  /** A click the guard accepts on the board on show, seen from a client:
      the board on show is `board` with the mover's mark at `index`, and the
      entries up to the old one on show are kept. */
  method Click(g: Game, index: nat, ghost board: seq<Cell>)
    requires g.Valid() && index < 9 && g.CurrentSquares() == board && MoveAllowed(board, index)
    modifies g
    ensures g.Valid()
    ensures g.CurrentSquares() == board[index := Some(TurnMark(XIsNext(old(g.currentMove))))]
    ensures g.currentMove == old(g.currentMove) + 1 && |g.history| == g.currentMove + 1
    ensures g.history[..g.currentMove] == old(g.history[..g.currentMove + 1])
  {
    var ok := g.AttemptMove(index);
    assert ok;
  }

  /** A fresh game accepts X on square 0 and then shows O to move. */
  method FirstMove()
  {
    var g := new Game();
    EmptyBoardInProgress();
    Click(g, 0, EmptyBoard);
    assert g.CurrentSquares() == AfterX0;
    NoWinnerAfterX0();
    assert !IsFull(AfterX0);
    assert g.CurrentStatus() == NextPlayer(O);
  }

  /** X on square 0, then O on square 1. */
  method Opening() returns (g: Game)
    ensures fresh(g) && g.Valid()
    ensures |g.history| == 3 && g.currentMove == 2
    ensures g.CurrentSquares() == AfterO1
  {
    g := new Game();
    EmptyBoardInProgress();
    Click(g, 0, EmptyBoard);
    assert g.CurrentSquares() == AfterX0;
    NoWinnerAfterX0();
    Click(g, 1, AfterX0);
  }

  /** From the opening, X on square 3 and O on square 4; entry 2 is kept. */
  method Middle(g: Game)
    requires g.Valid() && |g.history| == 3 && g.currentMove == 2 && g.CurrentSquares() == AfterO1
    modifies g
    ensures g.Valid() && |g.history| == 5 && g.currentMove == 4
    ensures g.CurrentSquares() == AfterO4 && g.history[2] == old(g.history[2])
  {
    NoWinnerAfterO1();
    Click(g, 3, AfterO1);
    assert g.CurrentSquares() == AfterX3;
    NoWinnerAfterX3();
    Click(g, 4, AfterX3);
  }

  /** X, O, X, O, X on squares 0, 1, 3, 4, 6: X wins down the left column. */
  method PlayLeftColumn() returns (g: Game)
    ensures fresh(g) && g.Valid()
    ensures |g.history| == 6 && g.currentMove == 5
    ensures g.CurrentSquares() == AfterX6
    ensures g.history[2].squares == AfterO1
  {
    g := Opening();
    Middle(g);
    NoWinnerAfterO4();
    Click(g, 6, AfterO4);
  }

  /** After the win, a click on square 7 is ignored; jumping back to move 2
      and playing square 5 cuts the history to four entries, the last one
      recording location (1, 2). */
  method RejectThenRewrite()
  {
    var g := PlayLeftColumn();
    LeftColumnWins();
    assert g.CurrentStatus() == Won(X);

    var before := g.history;
    var ok := g.AttemptMove(7);
    assert !ok;
    assert g.history == before;

    g.JumpTo(2);
    assert g.CurrentSquares() == AfterO1;
    NoWinnerAfterO1();
    ok := g.AttemptMove(5);
    assert ok;
    assert |g.history| == 4 && g.currentMove == 3;
    assert g.history[..3] == before[..3];
    assert g.CurrentSquares() == AfterX5;
    assert g.history[3].location == Some(Location(1, 2));
  }
}
