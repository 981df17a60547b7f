// The board as the game manager sees it, and the sequence detector: the
// pure specification of the scans that GameManager runs over its cells.

module Board {

  /** An optional value; `None` stands for a null reference. */
  datatype Option<T> = None | Some(value: T)

  /** What a scan can observe of one cell: its grid position and the id of the peg it records. */
  datatype CellView = CellView(x: int, y: int, peg: Option<int>)

  /** The coordinate `k` steps from `c` along a direction whose component is `d`. */
  function Step(c: int, d: int, k: int): int
  {
    c + k * d
  }

  /** Whether `cell` sits at grid position (px, py). */
  predicate At(cell: CellView, px: int, py: int)
  {
    cell.x == px && cell.y == py
  }

  /** The index of the first cell at (px, py) among `cells[i..]`, if there is one. */
  function IndexFrom(cells: seq<CellView>, px: int, py: int, i: nat): (r: Option<nat>)
    requires i <= |cells|
    ensures r.Some? ==> i <= r.value < |cells|
    decreases |cells| - i
  {
    if i == |cells| then None
    else if At(cells[i], px, py) then Some(i)
    else IndexFrom(cells, px, py, i + 1)
  }

  /**
   * IndexFrom finds the first cell at (px, py) from index `i` on, and
   * finds nothing exactly when no cell from `i` on is there.
   */
  lemma {:induction false} IndexFromMeaning(cells: seq<CellView>, px: int, py: int, i: nat)
    requires i <= |cells|
    ensures IndexFrom(cells, px, py, i).Some? ==>
            var r := IndexFrom(cells, px, py, i).value;
            At(cells[r], px, py) && forall j :: i <= j < r ==> !At(cells[j], px, py)
    ensures IndexFrom(cells, px, py, i).None? <==> forall j :: i <= j < |cells| ==> !At(cells[j], px, py)
    decreases |cells| - i
  {
    if i < |cells| && !At(cells[i], px, py) {
      IndexFromMeaning(cells, px, py, i + 1);
    }
  }

  /**
   * Whether the cell at (px, py) holds a peg of `playerId`. Only the first
   * cell at that position is consulted.
   */
  function HoldsPeg(cells: seq<CellView>, px: int, py: int, playerId: int): bool
  {
    match IndexFrom(cells, px, py, 0)
    case None => false
    case Some(i) => cells[i].peg == Some(playerId)
  }

  /**
   * HoldsPeg is true exactly when the first cell at (px, py) records a peg
   * of `playerId`: a position with no cell, an empty cell and another
   * player's peg all read as false.
   */
  lemma HoldsPegMeaning(cells: seq<CellView>, px: int, py: int, playerId: int)
    ensures HoldsPeg(cells, px, py, playerId) <==>
            exists i :: 0 <= i < |cells| && At(cells[i], px, py)
                        && (forall j :: 0 <= j < i ==> !At(cells[j], px, py))
                        && cells[i].peg == Some(playerId)
    ensures (forall i :: 0 <= i < |cells| ==> !At(cells[i], px, py)) ==> !HoldsPeg(cells, px, py, playerId)
    ensures (forall i :: 0 <= i < |cells| && At(cells[i], px, py) ==> cells[i].peg != Some(playerId))
            ==> !HoldsPeg(cells, px, py, playerId)
  {
    IndexFromMeaning(cells, px, py, 0);
  }

  /** Whether the cell `k` steps from (x, y) along (dx, dy) holds a peg of `playerId`. */
  predicate Holds(cells: seq<CellView>, x: int, y: int, dx: int, dy: int, playerId: int, k: int)
  {
    HoldsPeg(cells, Step(x, dx, k), Step(y, dy, k), playerId)
  }

  /** The run of `playerId`'s pegs along (dx, dy) that continues from step `k`, capped at step four. */
  function RunFrom(cells: seq<CellView>, x: int, y: int, dx: int, dy: int, playerId: int, k: nat): (last: nat)
    requires 1 <= k <= 5
    ensures k - 1 <= last <= 4
    decreases 5 - k
  {
    if k == 5 then 4
    else if Holds(cells, x, y, dx, dy, playerId, k) then RunFrom(cells, x, y, dx, dy, playerId, k + 1)
    else k - 1
  }

  /**
   * The number of consecutive pegs of `playerId` next to (x, y) along
   * (dx, dy), looking at most four steps away.
   */
  function Run(cells: seq<CellView>, x: int, y: int, dx: int, dy: int, playerId: int): (count: nat)
    ensures count <= 4
  {
    RunFrom(cells, x, y, dx, dy, playerId, 1)
  }

  /** The run from step `k` covers every step up to its end, and stops at a step that does not hold. */
  lemma {:induction false} RunFromMeaning(cells: seq<CellView>, x: int, y: int, dx: int, dy: int, playerId: int, k: nat)
    requires 1 <= k <= 5
    ensures var last := RunFrom(cells, x, y, dx, dy, playerId, k);
            && (forall j :: k <= j <= last ==> Holds(cells, x, y, dx, dy, playerId, j))
            && (last < 4 ==> !Holds(cells, x, y, dx, dy, playerId, last + 1))
    decreases 5 - k
  {
    if k < 5 && Holds(cells, x, y, dx, dy, playerId, k) {
      RunFromMeaning(cells, x, y, dx, dy, playerId, k + 1);
    }
  }

  /**
   * The run counts the consecutive pegs exactly: every step up to the
   * run's length holds the player's peg, and, unless the cap of four was
   * reached, the step just past it does not. These two facts determine
   * the length.
   */
  lemma RunMeaning(cells: seq<CellView>, x: int, y: int, dx: int, dy: int, playerId: int)
    ensures forall j :: 1 <= j <= Run(cells, x, y, dx, dy, playerId) ==> Holds(cells, x, y, dx, dy, playerId, j)
    ensures Run(cells, x, y, dx, dy, playerId) < 4 ==>
            !Holds(cells, x, y, dx, dy, playerId, Run(cells, x, y, dx, dy, playerId) + 1)
  {
    RunFromMeaning(cells, x, y, dx, dy, playerId, 1);
  }

  /** Conversely, any length `n` that the two facts above describe is the run's length. */
  lemma RunDetermined(cells: seq<CellView>, x: int, y: int, dx: int, dy: int, playerId: int, n: int)
    requires 0 <= n <= 4
    requires forall j :: 1 <= j <= n ==> Holds(cells, x, y, dx, dy, playerId, j)
    requires n < 4 ==> !Holds(cells, x, y, dx, dy, playerId, n + 1)
    ensures n == Run(cells, x, y, dx, dy, playerId)
  {
    RunMeaning(cells, x, y, dx, dy, playerId);
  }

  /** The length of the line through (x, y) on the axis (ax, ay): the cell itself plus both runs. */
  function AxisCount(cells: seq<CellView>, x: int, y: int, ax: int, ay: int, playerId: int): (total: nat)
    ensures 1 <= total <= 9
  {
    1 + Run(cells, x, y, -ax, -ay, playerId) + Run(cells, x, y, ax, ay, playerId)
  }

  /**
   * Whether a peg of `playerId` at (x, y) completes a sequence: one of the
   * horizontal, vertical, rising and falling axes counts five or more.
   */
  predicate Wins(cells: seq<CellView>, x: int, y: int, playerId: int)
  {
    AxisCount(cells, x, y, 1, 0, playerId) >= 5 || AxisCount(cells, x, y, 0, 1, playerId) >= 5 ||
    AxisCount(cells, x, y, 1, 1, playerId) >= 5 || AxisCount(cells, x, y, 1, -1, playerId) >= 5
  }

  /**
   * Five cells in a row on the axis (ax, ay) that include (x, y), `s` of
   * them behind (x, y) and 4 - s ahead, all but (x, y) itself holding a
   * peg of `playerId`.
   */
  predicate Window(cells: seq<CellView>, x: int, y: int, ax: int, ay: int, playerId: int, s: int)
  {
    0 <= s <= 4 &&
    forall j :: -s <= j <= 4 - s && j != 0 ==> Holds(cells, x, y, ax, ay, playerId, j)
  }

  /** Whether no cell records a peg. */
  predicate NoPegs(cells: seq<CellView>)
  {
    forall i :: 0 <= i < |cells| ==> cells[i].peg == None
  }

  /** Stepping backwards along an axis is stepping forwards along the reversed axis. */
  lemma Mirror(cells: seq<CellView>, x: int, y: int, ax: int, ay: int, playerId: int, k: int)
    ensures Holds(cells, x, y, -ax, -ay, playerId, k) == Holds(cells, x, y, ax, ay, playerId, -k)
  {
    assert Step(x, -ax, k) == Step(x, ax, -k);
    assert Step(y, -ay, k) == Step(y, ay, -k);
  }

  /**
   * An axis counts five or more exactly when there are five cells in a row
   * on it through (x, y), all of which except (x, y) hold the player's peg.
   */
  lemma AxisWinsIff(cells: seq<CellView>, x: int, y: int, ax: int, ay: int, playerId: int)
    ensures AxisCount(cells, x, y, ax, ay, playerId) >= 5 <==>
            exists s :: Window(cells, x, y, ax, ay, playerId, s)
  {
    var back := Run(cells, x, y, -ax, -ay, playerId);
    var ahead := Run(cells, x, y, ax, ay, playerId);
    RunMeaning(cells, x, y, -ax, -ay, playerId);
    RunMeaning(cells, x, y, ax, ay, playerId);
    if back + ahead >= 4 {
      forall j: int | -back <= j <= 4 - back && j != 0
        ensures Holds(cells, x, y, ax, ay, playerId, j)
      {
        if j < 0 {
          Mirror(cells, x, y, ax, ay, playerId, -j);
        }
      }
      assert Window(cells, x, y, ax, ay, playerId, back);
    }
    Mirror(cells, x, y, ax, ay, playerId, back + 1);
  }

  /**
   * A placement completes a sequence exactly when some axis holds five
   * cells in a row through the placed cell whose other four cells all hold
   * the player's peg.
   */
  lemma WinsIffFiveInARow(cells: seq<CellView>, x: int, y: int, playerId: int)
    ensures Wins(cells, x, y, playerId) <==>
            || (exists s :: Window(cells, x, y, 1, 0, playerId, s))
            || (exists s :: Window(cells, x, y, 0, 1, playerId, s))
            || (exists s :: Window(cells, x, y, 1, 1, playerId, s))
            || (exists s :: Window(cells, x, y, 1, -1, playerId, s))
  {
    AxisWinsIff(cells, x, y, 1, 0, playerId);
    AxisWinsIff(cells, x, y, 0, 1, playerId);
    AxisWinsIff(cells, x, y, 1, 1, playerId);
    AxisWinsIff(cells, x, y, 1, -1, playerId);
  }

  /** On a board where no cell records a peg, no placement completes a sequence. */
  lemma NoPegsNoWin(cells: seq<CellView>, x: int, y: int, playerId: int)
    requires NoPegs(cells)
    ensures !Wins(cells, x, y, playerId)
  {
    forall dx, dy ensures Run(cells, x, y, dx, dy, playerId) == 0 {
      assert !Holds(cells, x, y, dx, dy, playerId, 1);
    }
  }
}
