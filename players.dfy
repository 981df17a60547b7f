// Players, scores and the turn rotation of the Sequence game, as pure values.
// The game manager keeps its roster as a sequence of these values and
// reassigns it whenever a score changes.

module Players {

  /** A player: the display name given at game start and the points earned so far. */
  datatype Player = Player(name: string, score: nat)

  /** The decimal digits of `n`, most significant first. */
  function Decimal(n: nat): (s: string)
    ensures 1 <= |s|
    ensures forall i :: 0 <= i < |s| ==> '0' <= s[i] <= '9'
    decreases n
  {
    if n < 10 then ["0123456789"[n]]
    else Decimal(n / 10) + ["0123456789"[n % 10]]
  }

  /** The number that the decimal digits `s` spell, most significant first. */
  function DigitsValue(s: string): nat
  {
    if |s| == 0 then 0
    else 10 * DigitsValue(s[..|s| - 1]) + DigitValue(s[|s| - 1])
  }

  /** The value of one decimal digit; any other character counts as zero. */
  function DigitValue(c: char): nat
  {
    if '0' <= c <= '9' then (c as int) - ('0' as int) else 0
  }

  /**
   * Decimal writes `n` exactly: its digits spell `n`, and it has no
   * leading zero unless `n` is zero itself.
   */
  lemma {:induction false} DecimalSpells(n: nat)
    ensures DigitsValue(Decimal(n)) == n
    ensures n > 0 ==> Decimal(n)[0] != '0'
    decreases n
  {
    if n >= 10 {
      var s := Decimal(n);
      assert s[..|s| - 1] == Decimal(n / 10);
      assert DigitValue(s[|s| - 1]) == n % 10;
      DecimalSpells(n / 10);
    }
  }

  /** The name the roster gives the player with 0-based index `i`: "Player 1", "Player 2", ... */
  function PlayerName(i: nat): string
  {
    "Player " + Decimal(i + 1)
  }

  /** The sum of all scores on the roster. */
  function TotalScore(players: seq<Player>): nat
  {
    if |players| == 0 then 0 else players[0].score + TotalScore(players[1..])
  }

  /**
   * The roster after a point is awarded for a sequence made by `playerId`.
   * Player 0 gains the point when the id is 0; any other id, whatever its
   * value, credits player 1.
   */
  function Credit(players: seq<Player>, playerId: int): (credited: seq<Player>)
    requires 2 <= |players|
    ensures |credited| == |players|
    ensures forall i :: 0 <= i < |players| ==> credited[i].name == players[i].name
    ensures playerId == 0 ==> credited[0].score == players[0].score + 1 && credited[1] == players[1]
    ensures playerId != 0 ==> credited[1].score == players[1].score + 1 && credited[0] == players[0]
    ensures forall i :: 2 <= i < |players| ==> credited[i] == players[i]
  {
    var k := if playerId == 0 then 0 else 1;
    players[k := players[k].(score := players[k].score + 1)]
  }

  /** Replacing one roster entry changes the total by the difference of the two scores. */
  lemma {:induction false} TotalScoreUpdate(players: seq<Player>, k: nat, p: Player)
    requires k < |players|
    ensures TotalScore(players[k := p]) + players[k].score == TotalScore(players) + p.score
    decreases k
  {
    if k == 0 {
      assert players[k := p][1..] == players[1..];
    } else {
      assert players[k := p][1..] == players[1..][k - 1 := p];
      TotalScoreUpdate(players[1..], k - 1, p);
    }
  }

  /** Every award adds exactly one point to the roster as a whole, and takes none away from anyone. */
  lemma CreditAddsOnePoint(players: seq<Player>, playerId: int)
    requires 2 <= |players|
    ensures TotalScore(Credit(players, playerId)) == TotalScore(players) + 1
    ensures forall i :: 0 <= i < |players| ==> Credit(players, playerId)[i].score >= players[i].score
  {
    var k := if playerId == 0 then 0 else 1;
    TotalScoreUpdate(players, k, players[k].(score := players[k].score + 1));
  }

  /**
   * Whether `playerId` has won: two points are needed, and only players 0
   * and 1 can ever be declared the winner.
   */
  function Winner(players: seq<Player>, playerId: int): (won: bool)
    requires 2 <= |players|
    ensures won ==> playerId == 0 || playerId == 1
    ensures won <==> 0 <= playerId <= 1 && players[playerId].score >= 2
  {
    (playerId == 0 && players[0].score >= 2) || (playerId == 1 && players[1].score >= 2)
  }

  /** The index of the player whose turn follows player `i` among `n` players. */
  function NextIndex(i: int, n: int): (next: int)
    requires 0 <= i && 1 <= n
    ensures 0 <= next < n
    ensures i + 1 < n ==> next == i + 1
    ensures i + 1 == n ==> next == 0
  {
    (i + 1) % n
  }

  /** The turn index after `k` turns have passed, starting from index `i`. */
  function Rotate(i: int, n: int, k: nat): (index: int)
    requires 0 <= i && 1 <= n
    ensures 0 <= index
  {
    if k == 0 then i else NextIndex(Rotate(i, n, k - 1), n)
  }

  /** Taking the remainder before or after adding one gives the same successor. */
  lemma ModSuccessor(m: int, n: int)
    requires 0 <= m && 1 <= n
    ensures (m % n + 1) % n == (m + 1) % n
  {
    var q, r := m / n, m % n;
    assert m == q * n + r;
    if r + 1 < n {
      ModOfQuotient(r + 1, n, 0, r + 1);
      ModOfQuotient(m + 1, n, q, r + 1);
    } else {
      ModOfQuotient(n, n, 1, 0);
      assert (q + 1) * n == q * n + n;
      ModOfQuotient(m + 1, n, q + 1, 0);
    }
  }

  /** A remainder in range determines the value of `%`. */
  lemma ModOfQuotient(a: int, n: int, q: int, r: int)
    requires 1 <= n && 0 <= r < n && a == q * n + r
    ensures a % n == r
  {
    var d := a / n - q;
    assert d * n == r - a % n by {
      assert a == (a / n) * n + a % n;
      assert (a / n) * n - q * n == d * n;
    }
    ProductBelowFactor(d, n, r - a % n);
  }

  /** A multiple of `n` strictly between -n and n is zero. */
  lemma ProductBelowFactor(d: int, n: int, p: int)
    requires 1 <= n && p == d * n && -n < p < n
    ensures d == 0
  {
    MultipleBeyondFactor(d, n);
  }

  /** A non-zero multiple of a positive `n` is at least `n` away from zero. */
  lemma MultipleBeyondFactor(d: int, n: int)
    requires 1 <= n
    ensures 1 <= d ==> n <= d * n
    ensures d <= -1 ==> d * n <= -n
  {
  }

  /**
   * Turns go round the table in order: after `k` turns from player `i`,
   * it is player (i + k) mod n's turn.
   */
  lemma {:induction false} RotateIsOffset(i: int, n: int, k: nat)
    requires 0 <= i < n
    ensures Rotate(i, n, k) == (i + k) % n
  {
    if k == 0 {
      ModOfQuotient(i, n, 0, i);
    } else {
      RotateIsOffset(i, n, k - 1);
      ModSuccessor(i + k - 1, n);
    }
  }

  /** Each player moves once per round: after `n` turns it is the same player's turn again. */
  lemma RotateFullRound(i: int, n: int)
    requires 0 <= i < n
    ensures Rotate(i, n, n) == i
  {
    RotateIsOffset(i, n, n);
    ModOfQuotient(i + n, n, 1, i);
  }
}
