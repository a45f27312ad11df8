# Tic-tac-toe rules and move history, in Dafny

This project models the game logic of a React tic-tac-toe app (`src/board.jsx`):

- **Winner detection.** `calculateWinner` checks eight lines in a fixed order: rows top to bottom, columns left to right, the main diagonal, then the anti-diagonal. It returns the mark and the squares of the first line whose three squares agree and are not empty, or `null` when there is none.
- **The click guard and board copy** of `Board.handleClick`. A click on a taken square, or on a board that already has a winner, is ignored. Otherwise the board is copied, the mover's mark goes into the copy, and the move's `(row, col)` is recorded.
- **The status line** of `Board`: the winner, else a draw when every square is filled, else the player to move.
- **The timeline of `Game`.** A list of entries `{squares, location}` starts with the empty board, and a pointer `currentMove` marks the entry on show. X moves when `currentMove` is even. `handlePlay` keeps the entries up to the one on show, appends the new one and shows it. `jumpTo` only moves the pointer.

Files:

- `wrappers.dfy` holds `Option`, which stands for the source's `null`.
- `rules.dfy` (module `Rules`) holds the board as a `seq<Cell>` of nine squares and the eight lines. It has `Winner`, which specifies the winner search, with its properties proved in `FirstWinSpec` and `WinnerSpec`. `CalculateWinner` is the search loop, proved equal to `Winner`. The module also covers the status, the guard, the copy-and-place, and the square/location conversion.
- `timeline.dfy` (module `Timeline`) holds the `Game` class with its `history` and `currentMove` fields. `Valid()` says the history is reachable:
  - it is not empty;
  - it starts with the empty entry;
  - every board has nine squares;
  - each entry comes from the one before through exactly one accepted move. `Step` states this move: the mover's mark goes on an empty square (`Placed`) of a board with no winner.

  The file also holds the lemmas about such histories.
- `scenarios.dfy` holds concrete boards and games:
  - a left-column win;
  - rows reported before columns;
  - a full board that is a draw;
  - a game played to a win;
  - a rejected click after the win;
  - a jump back followed by a move that cuts the history.

## Model

| member | source | states |
|---|---|---|
| `Rules.FirstWinSpec` | src/board.jsx:126-131 | the index `FirstWin` returns is the first line at or after `k` whose three squares agree and are not empty; `None` means no line from `k` on wins |
| `Rules.WinnerSpec` | src/board.jsx:120-132 | `Winner` is `None` iff no line wins; otherwise its line is the first winning line in rows, columns, diagonals order and its three squares all hold its mark |
| `Rules.CalculateWinner` | src/board.jsx:120-132 | the loop with early return yields exactly `Winner(squares)`, with the line's indices `[a, b, c]` |
| `Rules.BoardStatus` | src/board.jsx:32-39 | won iff some line wins, with the mark of the first winning line; draw iff the board is full and no line wins; otherwise the mover's mark, with an empty square left |
| `Rules.GuardMatchesStatus` | src/board.jsx:24-39 | some square accepts a click iff the status shows the next player (neither won nor drawn) |
| `Rules.PlaceMark` | src/board.jsx:27-28 | the copy has nine squares, holds the mark at `index` and equals the original board everywhere else |
| `Rules.LocationOf` | src/board.jsx:44-53 | the location of square `index` has row and column below 3 with `row * 3 + col == index` |
| `Rules.IndexOf` | src/board.jsx:47 | `row * 3 + col` is a square index whose location is `(row, col)` again |
| `Timeline.TruncateAppend` | src/board.jsx:72-78 | cutting a reachable history after entry `p` and appending a move made from entry `p` gives a reachable history |
| `Timeline.EmptyBoardCounts` | src/board.jsx:65 | the start board has nine empty squares and no mark |
| `Timeline.MarkCounts` | src/board.jsx:27-28 | entry `k` of a reachable history holds `(k+1)/2` crosses, `k/2` noughts and `9-k` empty squares |
| `Timeline.HistoryBounded` | src/board.jsx:72-78 | a reachable history has at most ten entries |
| `Timeline.TurnMatchesBoard` | src/board.jsx:69 | X is to move at entry `k` iff the board there holds as many crosses as noughts |
| `Timeline.StepChangesOneSquare` | src/board.jsx:27-29 | each entry differs from its predecessor only in the square of its recorded location, which was empty and now holds the mover's mark |
| `Timeline.OnlyLastEntryDecided` | src/board.jsx:24-26 | every entry but the last shows the next player, so nothing is recorded after a win or a draw |
| `Timeline.Game.constructor` | src/board.jsx:65-66 | a new game holds only the empty entry with no location, and shows it |
| `Timeline.Game.CurrentSquares` | src/board.jsx:70 | the board on show has nine squares |
| `Timeline.Game.HandlePlay` | src/board.jsx:72-79 | the new history is the old one up to `currentMove` followed by the new entry; the pointer moves to its last index, one past the old one; the history stays reachable |
| `Timeline.Game.AttemptMove` | src/board.jsx:23-30 | accepted iff the square is empty and the board has no winner. A rejected click changes nothing. An accepted one appends the board with the mover's mark at `index` and location `(index / 3, index % 3)`, after cutting the later entries. The pointer advances by one and the turn flips |
| `Timeline.Game.JumpTo` | src/board.jsx:81-83 | only the pointer changes; the history is untouched and the board on show is `history[move].squares` |
| `Scenarios.EmptyBoardInProgress` | src/board.jsx:65 | the empty board has no winner and shows X to move |
| `Scenarios.LeftColumnWins` | src/board.jsx:123 | X on 0, 3, 6 (O on 1, 4) wins with the line `[0, 3, 6]` |
| `Scenarios.RowsBeforeColumns` | src/board.jsx:121-128 | with the top row and the left column both complete, the top row is reported |
| `Scenarios.FullBoardDraw` | src/board.jsx:35-36 | a full board with no line is a draw |
| `Scenarios.Opening` | src/board.jsx:72-79 | two clicks on a new game give three entries, with X on 0 and O on 1 |
| `Scenarios.PlayLeftColumn` | src/board.jsx:23-30 | the game 0, 1, 3, 4, 6 gives six entries ending in X's left column |

The methods `Scenarios.FirstMove` and `Scenarios.RejectThenRewrite` carry no contract. Their assertions check three things: the first move of a fresh game; that a click after the win is ignored; and that `jumpTo(2)` followed by a click on square 5 leaves four entries.

The guard in the source checks only for a taken square or a winner; it does not check for a draw. That is enough: a drawn board is full, so every square is taken. `Rules.GuardMatchesStatus` proves it. A click is accepted on some square exactly when the status is neither a win nor a draw.

## Left out

- Rendering (`Square`, the JSX of `Board` and `Game`, the highlighting of the winning line, CSS) is presentation only.
- The ascending/descending toggle of the move list (`isAscending`) only orders the display.
- The move-description strings, the `"(row, col)"` text of a location and the status strings are display formatting. A location is modelled as the pair `Location(row, col)`, and the status as the datatype `Status`.
- `src/App.jsx` is not part of this model. It is a wrapper whose props `Game` ignores.
- React's `useState` setters are modelled as plain field assignments; their batching belongs to the framework.
- `Timeline.Game.AttemptMove`: `handleClick` returns nothing. The model returns whether the click was accepted, and that flag is always equal to the guard.
- `Timeline.Game.JumpTo`: the source sets any number it is given. The model requires an existing entry, the only values the move list offers; a pointer past the end would make the next render fail, and that failure is not modelled.
- `Timeline.Game.AttemptMove`: the source receives the row and column from the rendering loop, alongside `index = row * 3 + col`. The model derives them from `index` with `LocationOf`, and `IndexOf` proves the two agree.
