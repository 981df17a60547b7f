// The game manager of the Sequence game: the roster, whose turn it is,
// whether the game is over, and the scans that decide whether a newly
// placed peg completes a sequence of five.

import opened Board
import opened Players

/** What the scans can observe of `cells`: each cell's position and recorded peg, in order. */
function View(cells: seq<CellHandler>): seq<CellView>
  reads cells
{
  seq(|cells|, i requires 0 <= i < |cells| reads cells => CellView(cells[i].x, cells[i].y, cells[i].peg))
}

class GameManager {
  var numberOfPlayers: int
  var players: seq<Player>
  var currentPlayerIndex: int
  var gameOver: bool
  /** The cells found on the board when the scene is set up. */
  const board: seq<CellHandler>
  /** The cells the manager scans, rebuilt from `board` at every game start. */
  var grid: seq<CellHandler>

  /** The roster matches the configured player count and the turn index is not negative. */
  ghost predicate Valid()
    reads this
  {
    2 <= numberOfPlayers && |players| == numberOfPlayers && 0 <= currentPlayerIndex
  }

  /** The current turn belongs to one of the configured players. */
  predicate TurnInRange()
    reads this
  {
    0 <= currentPlayerIndex < numberOfPlayers
  }

  /** A manager as the scene creates it: two players, first player's turn, game not over. */
  constructor (board: seq<CellHandler>)
    ensures Valid() && TurnInRange()
    ensures this.board == board && grid == board
    ensures numberOfPlayers == 2 && currentPlayerIndex == 0 && !gameOver
    ensures |players| == 2 && forall i :: 0 <= i < 2 ==> players[i] == Player(PlayerName(i), 0)
  {
    this.board := board;
    numberOfPlayers := 2;
    players := [];
    currentPlayerIndex := 0;
    gameOver := false;
    grid := [];
    new;
    InitializeGame();
  }

  /** Starts a game for `numberOfPlayers` players; the turn index and the game-over flag are kept. */
  method StartGame(numberOfPlayers: int)
    requires Valid() && 2 <= numberOfPlayers
    modifies this`numberOfPlayers, this`players, this`grid
    ensures Valid()
    ensures this.numberOfPlayers == numberOfPlayers && grid == board
    ensures forall i :: 0 <= i < numberOfPlayers ==> players[i] == Player(PlayerName(i), 0)
    ensures old(currentPlayerIndex) < numberOfPlayers ==> TurnInRange()
  {
    this.numberOfPlayers := numberOfPlayers;
    InitializeGame();
  }

  /** Builds a fresh roster of `numberOfPlayers` players with no points and links the board's cells. */
  method InitializeGame()
    requires 2 <= numberOfPlayers && 0 <= currentPlayerIndex
    modifies this`players, this`grid
    ensures Valid()
    ensures forall i :: 0 <= i < numberOfPlayers ==> players[i] == Player(PlayerName(i), 0)
    ensures grid == board
  {
    players := [];
    var i := 0;
    while i < numberOfPlayers
      invariant 0 <= i <= numberOfPlayers
      invariant |players| == i
      invariant forall j :: 0 <= j < i ==> players[j] == Player(PlayerName(j), 0)
    {
      players := players + [Player(PlayerName(i), 0)];
      i := i + 1;
    }
    SetUpBoard();
  }

  /** Links every cell of the board into the scanned grid. */
  method SetUpBoard()
    modifies this`grid
    ensures grid == board
  {
    grid := [];
    for i := 0 to |board|
      invariant grid == board[..i]
    {
      grid := grid + [board[i]];
    }
  }

  /**
   * Places a piece for `playerId` unless the game is over; returns the id
   * the placed piece carries, or None when nothing was placed.
   */
  method PlacePeg(x: int, y: int, playerId: int) returns (piece: Option<int>)
    ensures gameOver ==> piece == None
    ensures !gameOver ==> piece == Some(playerId)
  {
    if gameOver {
      return None;
    }
    piece := Some(playerId);
  }

  /** The board as the scans see it. */
  function Cells(): seq<CellView>
    reads this`grid, grid
  {
    View(grid)
  }

  // ---------------------------------------------------------------------
  // The scans themselves. None of them changes any state.

  /** Whether the first cell at (px, py) holds a peg of `playerId`, by a linear search of the grid. */
  method CheckCellForPlayer(px: int, py: int, playerId: int) returns (held: bool)
    ensures held == HoldsPeg(Cells(), px, py, playerId)
    ensures held ==> exists i :: 0 <= i < |grid| && grid[i].x == px && grid[i].y == py && grid[i].peg == Some(playerId)
    ensures (forall i :: 0 <= i < |grid| ==> grid[i].x != px || grid[i].y != py) ==> !held
  {
    HoldsPegMeaning(Cells(), px, py, playerId);
    var i := 0;
    while i < |grid|
      invariant 0 <= i <= |grid|
      invariant IndexFrom(Cells(), px, py, i) == IndexFrom(Cells(), px, py, 0)
    {
      var cell := grid[i];
      if cell.x == px && cell.y == py {
        if cell.peg.Some? && cell.peg.value == playerId {
          return true;
        }
        break;
      }
      i := i + 1;
    }
    held := false;
  }

  /** Counts the pegs of `playerId` from (x, y) along (dx, dy), up to four steps, stopping at the first miss. */
  method CountSequence(x: int, y: int, dx: int, dy: int, playerId: int) returns (count: int)
    ensures 0 <= count <= 4
    ensures count == Run(Cells(), x, y, dx, dy, playerId)
    ensures forall j :: 1 <= j <= count ==> Holds(Cells(), x, y, dx, dy, playerId, j)
    ensures count < 4 ==> !Holds(Cells(), x, y, dx, dy, playerId, count + 1)
  {
    count := 0;
    var i := 1;
    while i <= 4
      invariant 1 <= i <= 5
      invariant count == i - 1
      invariant RunFrom(Cells(), x, y, dx, dy, playerId, i) == Run(Cells(), x, y, dx, dy, playerId)
    {
      var held := CheckCellForPlayer(Step(x, dx, i), Step(y, dy, i), playerId);
      if held {
        count := count + 1;
      } else {
        break;
      }
      i := i + 1;
    }
    RunMeaning(Cells(), x, y, dx, dy, playerId);
  }

  /** Scores one axis: the placed cell plus the runs in both directions (d = -1, then d = 1). */
  method ScoreAxis(x: int, y: int, ax: int, ay: int, playerId: int) returns (sequenceCount: int)
    ensures sequenceCount == AxisCount(Cells(), x, y, ax, ay, playerId)
  {
    sequenceCount := 1;
    var d := -1;
    while d <= 1
      invariant d == -1 || d == 1 || d == 3
      invariant sequenceCount == 1 + (if d == -1 then 0 else Run(Cells(), x, y, -ax, -ay, playerId))
                                   + (if d == 3 then Run(Cells(), x, y, ax, ay, playerId) else 0)
    {
      var dx, dy := d * ax, d * ay;
      if d == -1 {
        assert dx == -ax && dy == -ay;
      } else {
        assert dx == ax && dy == ay;
      }
      var n := CountSequence(x, y, dx, dy, playerId);
      sequenceCount := sequenceCount + n;
      d := d + 2;
    }
  }

  /** Whether placing `playerId`'s peg at (x, y) completes a sequence of five on some axis. */
  method CheckSequence(x: int, y: int, playerId: int) returns (won: bool)
    ensures won == Wins(Cells(), x, y, playerId)
  {
    var sequenceCount := ScoreAxis(x, y, 1, 0, playerId);
    if sequenceCount >= 5 {
      return true;
    }
    sequenceCount := ScoreAxis(x, y, 0, 1, playerId);
    if sequenceCount >= 5 {
      return true;
    }
    sequenceCount := ScoreAxis(x, y, 1, 1, playerId);
    if sequenceCount >= 5 {
      return true;
    }
    sequenceCount := ScoreAxis(x, y, 1, -1, playerId);
    if sequenceCount >= 5 {
      return true;
    }
    return false;
  }

  // ---------------------------------------------------------------------
  // Score, winner and turn.

  /** Awards a point for a sequence made by `playerId`: to player 0 for id 0, otherwise to player 1. */
  method UpdateScore(playerId: int)
    requires Valid()
    modifies this`players
    ensures Valid()
    ensures players == Credit(old(players), playerId)
  {
    if playerId == 0 {
      players := players[0 := players[0].(score := players[0].score + 1)];
    } else {
      players := players[1 := players[1].(score := players[1].score + 1)];
    }
  }

  /** Ends the game when `playerId` (0 or 1) has two points; reports whether it did. */
  method CheckWinner(playerId: int) returns (won: bool)
    requires Valid()
    modifies this`gameOver
    ensures won == Winner(players, playerId)
    ensures gameOver == (old(gameOver) || won)
  {
    if playerId == 0 && players[0].score >= 2 {
      EndGame(playerId);
      return true;
    } else if playerId == 1 && players[1].score >= 2 {
      EndGame(playerId);
      return true;
    }
    return false;
  }

  /** Marks the game as over; nothing ever clears the flag again. */
  method EndGame(playerId: int)
    modifies this`gameOver
    ensures gameOver
  {
    gameOver := true;
  }

  /** The scoring half of a click: a completed sequence earns `playerId` a point and may end the game. */
  method ScorePlacement(x: int, y: int, playerId: int)
    requires Valid()
    modifies this`players, this`gameOver
    ensures Valid()
    ensures Cells() == old(Cells())
    ensures var scored := Wins(Cells(), x, y, playerId);
            && players == (if scored then Credit(old(players), playerId) else old(players))
            && gameOver == (old(gameOver) || (scored && Winner(players, playerId)))
  {
    var sequence := CheckSequence(x, y, playerId);
    if sequence {
      UpdateScore(playerId);
      var won := CheckWinner(playerId);
      if won {
        EndGame(playerId);
      }
    }
  }

  /** Passes the turn to the next player in cyclic order, unless the game is over. */
  method NextPlayerTurn()
    requires Valid()
    modifies this`currentPlayerIndex
    ensures Valid()
    ensures Cells() == old(Cells())
    ensures gameOver ==> currentPlayerIndex == old(currentPlayerIndex)
    ensures !gameOver ==> currentPlayerIndex == NextIndex(old(currentPlayerIndex), numberOfPlayers)
    ensures !gameOver ==> TurnInRange()
  {
    if gameOver {
      return;
    }
    currentPlayerIndex := (currentPlayerIndex + 1) % numberOfPlayers;
  }
}
