/** The move-history timeline of `Game` in src/board.jsx: the list of
    history entries (the empty board first), the pointer to the entry on
    show, the turn derived from that pointer, playing a move from the
    entry on show (which discards every later entry) and jumping back. */
module Timeline {
  import opened Wrappers
  import opened Rules

  /** One history entry: a board and the location of the move that made it
      (`None` for the empty board the game starts from). */
  datatype Entry = Entry(squares: seq<Cell>, location: Option<Location>)

  /** The entry every history starts with. */
  const Start: Entry := Entry(EmptyBoard, None)

  /** X moves when the move number is even. */
  function XIsNext(move: nat): bool
  {
    move % 2 == 0
  }

  /** `next` is `prev` with the mark of the player to move at move number
      `move` in the square of `next`'s recorded location, which was empty. */
  predicate Placed(prev: Entry, next: Entry, move: nat)
  {
    && |prev.squares| == 9
    && next.location.Some?
    && next.location.value.row < 3 && next.location.value.col < 3
    && var index := IndexOf(next.location.value);
    && prev.squares[index].None?
    && next.squares == prev.squares[index := Some(TurnMark(XIsNext(move)))]
  }

  /** `next` is what a move accepted at move number `move` makes of `prev`:
      the mark is placed on an empty square of a board with no winner, which
      is what the guard `MoveAllowed` accepts. */
  predicate Step(prev: Entry, next: Entry, move: nat)
  {
    Placed(prev, next, move) && Winner(prev.squares).None?
  }

  /** A history the game can reach: the start entry first, nine squares in
      every board, and each entry made from the one before by a move. */
  predicate ValidHistory(h: seq<Entry>)
  {
    && |h| >= 1
    && h[0] == Start
    && (forall k :: 0 <= k < |h| ==> |h[k].squares| == 9)
    && (forall k :: 0 < k < |h| ==> StepAt(h, k))
  }

  /** Entry `k` of `h` is made from entry `k - 1` by move number `k - 1`. */
  predicate StepAt(h: seq<Entry>, k: nat)
    requires 0 < k < |h|
  {
    Step(h[k - 1], h[k], k - 1)
  }

  /** Cutting a history after entry `p` and appending a move made from
      entry `p` gives a history again. */
  lemma TruncateAppend(h: seq<Entry>, p: nat, e: Entry)
    requires ValidHistory(h) && p < |h| && Step(h[p], e, p)
    ensures ValidHistory(h[..p + 1] + [e])
  {
    var h' := h[..p + 1] + [e];
    forall k | 0 < k < |h'|
      ensures StepAt(h', k)
    {
      if k <= p {
        assert h'[k - 1] == h[k - 1] && h'[k] == h[k];
        assert StepAt(h, k);
      }
    }
  }

  /** The empty board holds no mark and nine empty squares. */
  lemma EmptyBoardCounts()
    ensures Count(EmptyBoard, Some(X)) == 0 && Count(EmptyBoard, Some(O)) == 0
    ensures Count(EmptyBoard, None) == 9
  {
  }

  /** A move takes one empty square and gives one square to the mover. */
  lemma StepCounts(prev: Entry, next: Entry, move: nat, c: Cell)
    requires Placed(prev, next, move)
    ensures Count(next.squares, c) == Count(prev.squares, c)
      + (if c == Some(TurnMark(XIsNext(move))) then 1 else 0) - (if c == None then 1 else 0)
  {
    var index := IndexOf(next.location.value);
    CountUpdate(prev.squares, index, Some(TurnMark(XIsNext(move))), c);
  }

  /** The counts of a board after move number `move`; see MarkCounts. */
  predicate CountsAfter(s: seq<Cell>, move: nat)
  {
    && Count(s, Some(X)) == (move + 1) / 2
    && Count(s, Some(O)) == move / 2
    && Count(s, None) == 9 - move
  }

  /** A move from a board with the counts of move `move` gives the counts of
      move `move + 1`. */
  lemma StepKeepsCounts(prev: Entry, next: Entry, move: nat)
    requires Placed(prev, next, move) && CountsAfter(prev.squares, move)
    ensures CountsAfter(next.squares, move + 1)
  {
    StepCounts(prev, next, move, Some(X));
    StepCounts(prev, next, move, Some(O));
    StepCounts(prev, next, move, None);
    if move % 2 == 0 {
      assert TurnMark(XIsNext(move)) == X;
    } else {
      assert TurnMark(XIsNext(move)) == O;
    }
  }

  /** Entry `k` holds `(k + 1) / 2` crosses, `k / 2` noughts and `9 - k`
      empty squares: each move fills one empty square, and the marks alternate. */
  lemma {:induction false} MarkCounts(h: seq<Entry>, k: nat)
    requires ValidHistory(h) && k < |h|
    ensures Count(h[k].squares, Some(X)) == (k + 1) / 2
    ensures Count(h[k].squares, Some(O)) == k / 2
    ensures Count(h[k].squares, None) == 9 - k
  {
    if k == 0 {
      assert h[k].squares == EmptyBoard;
      EmptyBoardCounts();
    } else {
      MarkCounts(h, k - 1);
      StepAtKeepsCounts(h, k);
    }
  }

  /** StepKeepsCounts for entry `k` of a history. */
  lemma StepAtKeepsCounts(h: seq<Entry>, k: nat)
    requires ValidHistory(h) && 0 < k < |h| && CountsAfter(h[k - 1].squares, k - 1)
    ensures CountsAfter(h[k].squares, k)
  {
    assert StepAt(h, k);
    StepKeepsCounts(h[k - 1], h[k], k - 1);
  }

  /** A game has at most ten entries: the empty board and nine moves. */
  lemma HistoryBounded(h: seq<Entry>)
    requires ValidHistory(h)
    ensures |h| <= 10
  {
    MarkCounts(h, |h| - 1);
  }

  /** The parity rule and the board agree: X is to move exactly when the
      board holds as many crosses as noughts. */
  lemma TurnMatchesBoard(h: seq<Entry>, k: nat)
    requires ValidHistory(h) && k < |h|
    ensures XIsNext(k) <==> Count(h[k].squares, Some(X)) == Count(h[k].squares, Some(O))
  {
    MarkCounts(h, k);
  }

  /** Each entry after the first differs from its predecessor in exactly the
      square of its recorded location, which was empty and now holds the
      mark of the player who moved. */
  lemma StepChangesOneSquare(h: seq<Entry>, k: nat)
    requires ValidHistory(h) && k + 1 < |h|
    ensures h[k + 1].location.Some?
    ensures h[k + 1].location.value.row < 3 && h[k + 1].location.value.col < 3
    ensures var i := IndexOf(h[k + 1].location.value);
      && h[k].squares[i].None?
      && h[k + 1].squares[i] == Some(TurnMark(XIsNext(k)))
      && forall j :: 0 <= j < 9 && j != i ==> h[k + 1].squares[j] == h[k].squares[j]
  {
    assert StepAt(h, k + 1);
  }

  /** Won and drawn boards are final: every entry but the last shows the
      next player, so no move is ever recorded after a win or a draw. */
  lemma OnlyLastEntryDecided(h: seq<Entry>, k: nat)
    requires ValidHistory(h) && k + 1 < |h|
    ensures BoardStatus(h[k].squares, XIsNext(k)).NextPlayer?
  {
    assert StepAt(h, k + 1);
    GuardMatchesStatus(h[k].squares, XIsNext(k));
    assert MoveAllowed(h[k].squares, IndexOf(h[k + 1].location.value));
  }

  /** The state of `Game`: the history and the move on show. */
  class Game {
    var history: seq<Entry>
    var currentMove: nat

    ghost predicate Valid()
      reads this
    {
      ValidHistory(history) && currentMove < |history|
    }

    /** A new game: the empty board alone, on show. */
    constructor ()
      ensures Valid()
      ensures history == [Start] && currentMove == 0
    {
      history := [Start];
      currentMove := 0;
    }

    /** The board on show. */
    function CurrentSquares(): (s: seq<Cell>)
      reads this
      requires Valid()
      ensures |s| == 9
    {
      history[currentMove].squares
    }

    /** The status text of the board on show. */
    function CurrentStatus(): Status
      reads this
      requires Valid()
    {
      BoardStatus(CurrentSquares(), XIsNext(currentMove))
    }

    /** `handlePlay`: keep the entries up to the one on show, append the new
        entry and show it. */
    method HandlePlay(nextSquares: seq<Cell>, location: Location)
      requires Valid()
      requires Step(history[currentMove], Entry(nextSquares, Some(location)), currentMove)
      modifies this
      ensures Valid()
      ensures history == old(history[..currentMove + 1]) + [Entry(nextSquares, Some(location))]
      ensures currentMove == |history| - 1 == old(currentMove) + 1
    {
      TruncateAppend(history, currentMove, Entry(nextSquares, Some(location)));
      var newHistory := history[..currentMove + 1] + [Entry(nextSquares, Some(location))];
      history := newHistory;
      currentMove := |newHistory| - 1;
    }

    /** A click on square `index` (`Board.handleClick`): ignored when the
        square is taken or the board on show has a winner; otherwise the
        mark of the player to move goes into a copy of the board, which is
        played with the square's location. */
    method AttemptMove(index: nat) returns (accepted: bool)
      requires Valid() && index < 9
      modifies this
      ensures Valid()
      ensures accepted == MoveAllowed(old(CurrentSquares()), index)
      ensures !accepted ==> history == old(history) && currentMove == old(currentMove)
      ensures accepted ==>
        && history == old(history[..currentMove + 1])
                      + [Entry(old(CurrentSquares())[index := Some(TurnMark(XIsNext(old(currentMove))))],
                               Some(LocationOf(index)))]
        && currentMove == old(currentMove) + 1
        && XIsNext(currentMove) == !XIsNext(old(currentMove))
    {
      var squares := history[currentMove].squares;
      var winner := CalculateWinner(squares);
      if squares[index].Some? || winner.Some? {
        return false;
      }
      var next := PlaceMark(squares, index, TurnMark(XIsNext(currentMove)));
      assert next == squares[index := Some(TurnMark(XIsNext(currentMove)))];
      HandlePlay(next, LocationOf(index));
      accepted := true;
    }

    /** `jumpTo`: show entry `move`; the history stays as it is. */
    method JumpTo(move: nat)
      requires Valid() && move < |history|
      modifies this`currentMove
      ensures Valid()
      ensures history == old(history) && currentMove == move
      ensures CurrentSquares() == history[move].squares
    {
      currentMove := move;
    }
  }
}
