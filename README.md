# Sequence: placement and scoring

A model of the placement-and-scoring core of *Sequence*, a Gomoku-style Unity
game for two to four players. Players take turns clicking empty cells of a
board. Each click places the current player's peg. If the new peg completes a
line of five on the horizontal, vertical or either diagonal axis, a point is
awarded: to player 0 when player 0 scored, otherwise to player 1. A scoring
click by player 0 or player 1 ends the game when that player then has at
least two points. Points credited to player 1 for other players' sequences
end nothing until player 1 scores a sequence itself.

The model follows the two core components, `GameManager` and `CellHandler`,
one file each, plus two pure modules:

- `board.dfy` (module `Board`) holds the pure specification of the scans.
  `CellView` is what a scan can see of a cell: its integer grid position and
  the id of the peg it records. `HoldsPeg` is a first-match lookup, as in
  `CheckCellForPlayer`. `Run` is the capped run that `CountSequence`
  counts. `AxisCount` is the per-axis total. `Wins` is the five-in-a-row
  test. The lemmas say what these definitions mean in plain terms: the run
  lengths are exact, and an axis totals five or more exactly when five cells
  in a row through the placed cell carry the player's pegs.
- `players.dfy` (module `Players`) holds the roster as values: `Player`
  records, the score award `Credit`, the win test `Winner` and the turn
  successor `NextIndex`. The lemmas show that an award adds exactly one point
  and that turns go round the table in order.
- `gamemanager.dfy` holds class `GameManager`. Its fields are the player
  count, the roster, the turn index, the game-over flag and the scanned cell
  list. Its scans are loop methods, each proved equal to the matching `Board`
  function. Its state changes are methods whose contracts give the new state.
- `cellhandler.dfy` holds class `CellHandler`. Each cell has its
  coordinates, the `isOccupied` flag, the recorded peg and a link to the
  manager. `OnMouseDown` is the click step. `OnMouseDownAsWritten` is the
  click exactly as the source writes it (see Findings).

Positions are integer `(x, y)` pairs. A placed piece is represented by the
player id it carries (`Option<int>`, where `None` stands for no peg).

Where the code and the behaviour described for the game disagree, the model
follows the code:

- The turn passes after every accepted click, scoring or not.
  `NextPlayerTurn` does nothing once the game is over.
- A click after the game is over is not refused. The cell still becomes
  occupied and the scan still runs, but `PlacePeg` places nothing.
- `UpdateScore` credits player 1 for any id other than 0.
- `CheckWinner` can only ever declare player 0 or player 1.
- `StartGame` rebuilds the roster but keeps the turn index and the
  game-over flag. `ResetCell` clears occupancy but keeps the recorded peg.

## Model

| member | source | states |
|---|---|---|
| `Board.IndexFrom` | Assets/Scripts/GameManager.cs:174-184 | the index the grid search stops at lies in the searched range |
| `Board.IndexFromMeaning` | Assets/Scripts/GameManager.cs:174-184 | the search finds the first cell at the position; it finds nothing exactly when no cell is at the position |
| `Board.HoldsPegMeaning` | Assets/Scripts/GameManager.cs:172-186 | a cell holds the player's peg iff the first cell at that position records a peg with that id; missing positions, empty cells and other players' pegs read as false |
| `Board.NoPegsNoWin` | Assets/Scripts/GameManager.cs:172-186 | on a board where no cell records a peg, no placement completes a sequence |
| `Board.RunFrom` | Assets/Scripts/GameManager.cs:155-166 | a run continued from step k ends between step k - 1 and step 4 |
| `Board.Run` | Assets/Scripts/GameManager.cs:152-168 | a run is never longer than four steps |
| `Board.RunFromMeaning` | Assets/Scripts/GameManager.cs:155-166 | every step from k to the end of the run holds the player's peg; the step after the end does not, unless the cap was reached |
| `Board.RunMeaning` | Assets/Scripts/GameManager.cs:155-166 | steps 1..count all hold the player's peg; if count < 4, step count + 1 does not |
| `Board.RunDetermined` | Assets/Scripts/GameManager.cs:152-168 | any length that satisfies those two facts equals the run's length |
| `Board.AxisCount` | Assets/Scripts/GameManager.cs:109-114 | the total on an axis is between 1 and 9 |
| `Board.AxisWinsIff` | Assets/Scripts/GameManager.cs:109-116 | an axis totals five or more iff five cells in a row on it through the placed cell, other than the placed cell, all hold the player's peg |
| `Board.WinsIffFiveInARow` | Assets/Scripts/GameManager.cs:105-147 | a placement completes a sequence iff such a row of five exists on the horizontal, vertical, rising or falling axis |
| `Players.Decimal` | Assets/Scripts/GameManager.cs:61 | the number in a player's name is written as one or more decimal digits |
| `Players.DecimalSpells` | Assets/Scripts/GameManager.cs:61 | those digits spell exactly the number, with no leading zero |
| `Players.Credit` | Assets/Scripts/GameManager.cs:189-198 | an award raises player 0's score by one for id 0, otherwise player 1's; every other entry and all names are unchanged |
| `Players.CreditAddsOnePoint` | Assets/Scripts/GameManager.cs:189-198 | each award adds exactly one point to the roster's total and lowers no score |
| `Players.Winner` | Assets/Scripts/GameManager.cs:204-217 | a win is declared iff the id is 0 or 1 and that player has at least two points |
| `Players.NextIndex` | Assets/Scripts/GameManager.cs:233 | the next turn index is in [0, n); it is the successor, or 0 after the last player |
| `Players.Rotate` | Assets/Scripts/GameManager.cs:229-235 | the index after k turns is never negative |
| `Players.RotateIsOffset` | Assets/Scripts/GameManager.cs:229-235 | after k turns from player i, it is player (i + k) mod n's turn |
| `Players.RotateFullRound` | Assets/Scripts/GameManager.cs:229-235 | after n turns, it is the same player's turn again |
| `GameManager.constructor` | Assets/Scripts/GameManager.cs:19-30 | a new manager has two players with no points, turn 0, the game not over, and the board linked |
| `GameManager.StartGame` | Assets/Scripts/GameManager.cs:44-49 | sets the player count and builds a roster of that many players with no points; the turn index and game-over flag are kept |
| `GameManager.InitializeGame` | Assets/Scripts/GameManager.cs:56-68 | the roster has exactly `numberOfPlayers` entries, named "Player 1", "Player 2", ..., each with score 0 |
| `GameManager.SetUpBoard` | Assets/Scripts/GameManager.cs:71-88 | the scanned grid lists the board's cells in order |
| `GameManager.PlacePeg` | Assets/Scripts/GameManager.cs:97-102 | once the game is over nothing is placed; otherwise the piece carries the player's id |
| `GameManager.CheckCellForPlayer` | Assets/Scripts/GameManager.cs:172-186 | the linear search answers the first-match lookup; true only if some cell at the position holds the player's peg; false when no cell is there |
| `GameManager.CountSequence` | Assets/Scripts/GameManager.cs:150-169 | the count is in [0, 4], steps 1..count hold the player's peg, and if count < 4 step count + 1 does not |
| `GameManager.ScoreAxis` | Assets/Scripts/GameManager.cs:109-114 | the axis total is 1 plus the runs in both directions |
| `GameManager.CheckSequence` | Assets/Scripts/GameManager.cs:105-147 | true iff some axis totals five or more; it changes no state |
| `GameManager.ScorePlacement` | Assets/Scripts/CellHandler.cs:50-59 | only a completed sequence scores; it credits exactly one point and ends the game when the scorer has won; the board is unchanged |
| `GameManager.UpdateScore` | Assets/Scripts/GameManager.cs:189-201 | the roster becomes the credited roster |
| `GameManager.CheckWinner` | Assets/Scripts/GameManager.cs:204-218 | reports a win exactly as `Winner` decides, and a win sets the game-over flag, which is never cleared |
| `GameManager.EndGame` | Assets/Scripts/GameManager.cs:221-226 | the game is over afterwards |
| `GameManager.NextPlayerTurn` | Assets/Scripts/GameManager.cs:229-235 | nothing changes once the game is over; otherwise the index becomes (index + 1) mod n and lies in [0, n) |
| `CellHandler.constructor` | Assets/Scripts/CellHandler.cs:13-22 | a new cell is unoccupied, records no peg and is linked to the given manager |
| `CellHandler.OnMouseDown` | Assets/Scripts/CellHandler.cs:24-66 | no change without a manager or on an occupied cell; otherwise the cell becomes occupied and records the peg. The score changes only if the placement completes a sequence, then by one point. The game ends when the scorer wins. The turn passes unless the game is now over |
| `CellHandler.OnMouseDownAsWritten` | Assets/Scripts/CellHandler.cs:24-66 | the same transition without recording the peg: the board the scans see is unchanged, so on a board without pegs no click scores or ends the game |
| `CellHandler.ResetCell` | Assets/Scripts/CellHandler.cs:69-72 | the cell is unoccupied afterwards |
| `CellHandler.SetPeg` | Assets/Scripts/CellHandler.cs:73-76 | the cell records the given peg, and `HasPeg` reports it |
| `CellHandler.HasPeg` | Assets/Scripts/CellHandler.cs:79-82 | true iff a peg is recorded |

## Left out

- Unity lifecycle and singleton plumbing are not modelled: `Awake`, `DontDestroyOnLoad`, `Destroy`, and `Start`'s scene lookup. The manager a cell finds through `FindObjectOfType` is a constructor parameter, and may be null.
- `MainMenuController.cs` and `PlayerSelectionUI.cs` are not part of this model. They only wire buttons and forward a player count of 2, 3 or 4 to `StartGame`.
- Prefab instantiation and `PlayerPiece` game objects are not modelled. A placed piece is the player id it carries. The model does not check the `playerPrefabs` index against the prefab array.
- Float world positions are not modelled. This covers `Transform` traversal, `Mathf.FloorToInt` in `SetUpBoard` and `Vector3` equality in `CheckCellForPlayer`. Cells carry integer coordinates fixed when they are created, and the scans compare those.
- Text updates are presentation only and are left out: the turn indicator, score and game-over texts, `gameOverPanel`, and `Debug.Log`/`Debug.LogError`.
- `currentPlayerScore` is never read or written by the core, so it is not modelled.
- `CellHandler.GetCurrentPlayerId` is not modelled as a separate member. The click reads the manager's turn index directly.
- `Player` objects are values in a sequence that the manager reassigns. Only the manager holds them, so no aliasing is lost.
- Scores are unbounded naturals. The model does not capture 32-bit overflow, which would need more than two billion points.
- `GameManager.StartGame`: requires at least two players. With fewer, the source's `UpdateScore` would index past the roster; the menu only offers 2, 3 and 4.
- `GameManager.StartGame`: promises an in-range turn index only when the kept index is below the new player count, because the source does not reset the index.
- `GameManager.ScorePlacement`: groups lines 50-59 of `OnMouseDown` (sequence check, award, winner check, end of game) into one method. Both click methods call it.
- `CellHandler.OnMouseDown`: the corrected click records the placed piece in the cell. The source never does this (see Findings).

## Findings

| source | as written | input that shows it | evidently intended | confidence | as-written member | corrected member |
|---|---|---|---|---|---|---|
| Assets/Scripts/CellHandler.cs:45 | the click places a piece through `PlacePeg` but never records it in the cell (`SetPeg` has no caller), so every cell keeps no peg and `CheckCellForPlayer` is always false | two players on a fresh board; player 0 clicks (0,0), (1,0), (2,0), (3,0), (4,0) while player 1 clicks elsewhere in between; the fifth click scores nothing | the clicked cell records the piece just placed, so five pegs in a row score a point | high; not executed | `CellHandler.OnMouseDownAsWritten` | `CellHandler.OnMouseDown` |
