// One cell of the board: where it is, whether it is occupied, which peg
// it records, and what happens when a player clicks it.

class CellHandler {
  /** The cell's grid coordinates, assigned once when the board is set up. */
  const x: int
  const y: int
  var isOccupied: bool
  /** The id carried by the peg recorded in this cell, if any. */
  var peg: Option<int>
  var gameManager: GameManager?

  /** A cell as the scene starts it: empty, no peg, linked to the manager found in the scene (if any). */
  constructor (x: int, y: int, gameManager: GameManager?)
    ensures this.x == x && this.y == y && this.gameManager == gameManager
    ensures !isOccupied && peg == None
  {
    this.x := x;
    this.y := y;
    isOccupied := false;
    peg := None;
    this.gameManager := gameManager;
  }

  /**
   * A click on the cell. Without a manager, or on an occupied cell, nothing
   * happens. Otherwise the current player's peg is placed and recorded
   * (placement does nothing once the game is over), the cell becomes
   * occupied, a completed sequence earns a point and may end the game, and
   * the turn passes on unless the game is now over.
   */
  method OnMouseDown()
    requires gameManager != null ==> gameManager.Valid()
    modifies this, gameManager
    ensures gameManager == old(gameManager)
    ensures gameManager != null ==> gameManager.Valid()
    ensures gameManager == null ==> unchanged(this)
    ensures gameManager != null && old(isOccupied) ==> unchanged(this) && unchanged(gameManager)
    ensures gameManager != null && !old(isOccupied) ==>
      var gm := gameManager;
      var playerId := old(gm.currentPlayerIndex);
      var scored := Wins(gm.Cells(), x, y, playerId);
      && isOccupied
      && peg == (if old(gm.gameOver) then old(peg) else Some(playerId))
      && gm.numberOfPlayers == old(gm.numberOfPlayers)
      && gm.grid == old(gm.grid)
      && gm.players == (if scored then Credit(old(gm.players), playerId) else old(gm.players))
      && gm.gameOver == (old(gm.gameOver) || (scored && Winner(gm.players, playerId)))
      && gm.currentPlayerIndex == (if gm.gameOver then playerId else NextIndex(playerId, gm.numberOfPlayers))
  {
    if gameManager == null {
      return;
    }
    if isOccupied {
      return;
    }
    var playerId := gameManager.currentPlayerIndex;
    var piece := gameManager.PlacePeg(x, y, playerId);
    if piece.Some? {
      SetPeg(piece);
    }
    isOccupied := true;
    gameManager.ScorePlacement(x, y, playerId);
    gameManager.NextPlayerTurn();
  }

  /**
   * The click exactly as the source writes it: the placed piece is never
   * recorded in the cell. The board the scans see therefore stays as it
   * was, and on a board that starts without pegs no click ever scores or
   * ends the game.
   */
  method OnMouseDownAsWritten()
    requires gameManager != null ==> gameManager.Valid()
    modifies this, gameManager
    ensures gameManager == old(gameManager) && peg == old(peg)
    ensures gameManager != null ==> gameManager.Valid()
    ensures gameManager == null ==> unchanged(this)
    ensures gameManager != null && old(isOccupied) ==> unchanged(this) && unchanged(gameManager)
    ensures gameManager != null && !old(isOccupied) ==>
      var gm := gameManager;
      var playerId := old(gm.currentPlayerIndex);
      var scored := Wins(gm.Cells(), x, y, playerId);
      && isOccupied
      && gm.numberOfPlayers == old(gm.numberOfPlayers)
      && gm.grid == old(gm.grid)
      && gm.players == (if scored then Credit(old(gm.players), playerId) else old(gm.players))
      && gm.gameOver == (old(gm.gameOver) || (scored && Winner(gm.players, playerId)))
      && gm.currentPlayerIndex == (if gm.gameOver then playerId else NextIndex(playerId, gm.numberOfPlayers))
    ensures gameManager != null ==> gameManager.Cells() == old(gameManager.Cells())
    ensures gameManager != null && old(NoPegs(gameManager.Cells())) ==>
      gameManager.players == old(gameManager.players) && gameManager.gameOver == old(gameManager.gameOver)
  {
    if gameManager == null {
      return;
    }
    if isOccupied {
      return;
    }
    ghost var before := gameManager.Cells();
    var playerId := gameManager.currentPlayerIndex;
    var piece := gameManager.PlacePeg(x, y, playerId);
    isOccupied := true;
    assert gameManager.Cells() == before;
    gameManager.ScorePlacement(x, y, playerId);
    if NoPegs(before) {
      NoPegsNoWin(before, x, y, playerId);
    }
    gameManager.NextPlayerTurn();
  }

  /** Empties the cell for a new game; the recorded peg is left as it is. */
  method ResetCell()
    modifies this`isOccupied
    ensures !isOccupied
  {
    isOccupied := false;
  }

  /** Records `newPeg` as the cell's peg. */
  method SetPeg(newPeg: Option<int>)
    modifies this`peg
    ensures peg == newPeg
    ensures HasPeg() <==> newPeg.Some?
  {
    peg := newPeg;
  }

  /** Whether a peg is recorded in the cell. */
  function HasPeg(): (has: bool)
    reads this`peg
    ensures has <==> peg != None
  {
    peg.Some?
  }
}
