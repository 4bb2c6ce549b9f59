/**
  The two pieces of logic in the prize admin screen (GameResource.php): the
  pot-progress percentage column and the radar kill-switch header action.
 */
module GameAdmin {
  import opened Wrappers
  import opened Ledger
  import Ranking
  import Settings

  /**
    PHP's `round()` of the rational `n / d`: halves go away from zero. For a
    non-negative `n` this is `floor(n / d + 1/2)`.
   */
  function RoundHalfAwayFromZero(n: int, d: int): int
    requires d > 0
  {
    if n >= 0 then (2 * n + d) / (2 * d) else -((-2 * n + d) / (2 * d))
  }

  function Clamp(x: int, lo: int, hi: int): int
    requires lo <= hi
  {
    if x < lo then lo else if x > hi then hi else x
  }

  /**
    The percentage drawn in the "Pot Progress" column: the amount spent over
    the minimum, times 100, rounded and clamped to 0..100; 0 when the minimum
    is not positive.
   */
  function PotPercent(minimum: int, spent: int): (p: int)
    ensures 0 <= p <= 100
    ensures minimum <= 0 ==> p == 0
    ensures spent == 0 ==> p == 0
    ensures 0 < minimum <= spent ==> p == 100
  {
    if minimum <= 0 then 0
    else
      var r := RoundHalfAwayFromZero(100 * spent, minimum);
      assert spent >= minimum ==> r >= 100 by {
        if spent >= minimum {
          DivAtLeast(2 * 100 * spent + minimum, 2 * minimum, 100);
        }
      }
      Clamp(r, 0, 100)
  }

  /** `q <= n / d` as soon as `q * d <= n`. */
  lemma DivAtLeast(n: int, d: int, q: int)
    requires d > 0 && q * d <= n
    ensures q <= n / d
  {
    if n / d < q {
      assert n == d * (n / d) + n % d;
      assert d * (n / d) <= d * (q - 1) by {
        MulMonotone(d, n / d, q - 1);
      }
    }
  }

  lemma MulMonotone(d: int, a: int, b: int)
    requires d > 0 && a <= b
    ensures d * a <= d * b
  {
  }

  /** The percentage shown for a game: its minimum against its pot. */
  function GamePotPercent(db: Db, game: Game): (p: int)
    ensures 0 <= p <= 100
    ensures 0 < game.minimumAmountForWinning <= Ranking.Pot(db.stats, game.id) ==> p == 100
  {
    PotPercent(game.minimumAmountForWinning, Ranking.Pot(db.stats, game.id))
  }

  /**
    Below the minimum, the percentage is the integer nearest to
    `100 * spent / minimum`, halves rounded up.
   */
  lemma PotPercentIsNearest(minimum: int, spent: int)
    requires 0 < minimum
    requires 0 <= spent <= minimum
    ensures var p := PotPercent(minimum, spent);
      2 * minimum * p - minimum <= 200 * spent < 2 * minimum * p + minimum
  {
    var n := 200 * spent + minimum;
    var d := 2 * minimum;
    var q := n / d;
    assert n == d * q + n % d;
    DivAtMost(n, d, 100);
    assert 0 <= q <= 100 by {
      DivAtLeast(n, d, 0);
    }
    assert PotPercent(minimum, spent) == q;
  }

  /** `n / d <= q` as soon as `n < (q + 1) * d`. */
  lemma DivAtMost(n: int, d: int, q: int)
    requires d > 0 && 0 <= n < (q + 1) * d
    ensures n / d <= q
  {
    if n / d > q {
      assert n == d * (n / d) + n % d;
      MulMonotone(d, q + 1, n / d);
    }
  }

  /** More spent never shows less progress. */
  lemma PotPercentMonotone(minimum: int, s1: int, s2: int)
    requires s1 <= s2
    ensures PotPercent(minimum, s1) <= PotPercent(minimum, s2)
  {
    if minimum > 0 {
      RoundMonotone(100 * s1, 100 * s2, minimum);
    }
  }

  lemma RoundMonotone(n1: int, n2: int, d: int)
    requires n1 <= n2 && d > 0
    ensures RoundHalfAwayFromZero(n1, d) <= RoundHalfAwayFromZero(n2, d)
  {
    var dd := 2 * d;
    if 0 <= n1 {
      DivMonotone(2 * n1 + d, 2 * n2 + d, dd);
    } else if n2 < 0 {
      DivMonotone(-2 * n2 + d, -2 * n1 + d, dd);
    } else {
      assert (-2 * n1 + d) / dd >= 0;
      assert (2 * n2 + d) / dd >= 0;
    }
  }

  lemma DivMonotone(a: int, b: int, d: int)
    requires 0 <= a <= b && d > 0
    ensures a / d <= b / d
  {
    assert a == d * (a / d) + a % d;
    DivAtLeast(b, d, a / d);
  }

  /** How the header action shows itself: its label and its color. */
  datatype ActionLook = ActionLook(caption: string, color: string)

  /** The header action: "Disable Radar" in danger while scans run, "Enable Radar" in success while they are off. */
  function RadarAction(store: Settings.Store): (look: ActionLook)
    ensures look == ActionLook("Disable Radar", "danger") <==> Settings.ScansEnabled(store)
    ensures look == ActionLook("Enable Radar", "success") <==> !Settings.ScansEnabled(store)
  {
    if Settings.ScansEnabled(store) then ActionLook("Disable Radar", "danger")
    else ActionLook("Enable Radar", "success")
  }

  /**
    The `toggleRadar` action: store the negation of the current kill-switch
    as a boolean, leaving every other setting alone.
   */
  function ToggleRadar(store: Settings.Store): (r: Settings.Store)
    ensures Settings.ScansEnabled(r) == !Settings.ScansEnabled(store)
    ensures Settings.ScansEnabledKey in r && r[Settings.ScansEnabledKey] == Some(Settings.Bool(!Settings.ScansEnabled(store)))
    ensures forall k :: k in store && k != Settings.ScansEnabledKey ==> k in r && r[k] == store[k]
  {
    Settings.Put(store, Settings.ScansEnabledKey, Some(Settings.Bool(!Settings.ScansEnabled(store))))
  }

  /** Toggling twice restores whether the radar is on, and leaves a boolean behind. */
  lemma ToggleTwiceRestores(store: Settings.Store)
    ensures Settings.ScansEnabled(ToggleRadar(ToggleRadar(store))) == Settings.ScansEnabled(store)
    ensures ToggleRadar(ToggleRadar(store))[Settings.ScansEnabledKey] == Some(Settings.Bool(Settings.ScansEnabled(store)))
  {
  }

  /** On a store without the key, the radar is on and the first toggle turns it off. */
  lemma FirstToggleDisables()
    ensures Settings.ScansEnabled(map[])
    ensures !Settings.ScansEnabled(ToggleRadar(map[]))
    ensures RadarAction(ToggleRadar(map[])).caption == "Enable Radar"
  {
  }
}
