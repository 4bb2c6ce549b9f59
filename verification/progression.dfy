/**
  The radar progression rule of `Game::attemptScan` (app/Models/Game.php lines
  39-57) as a pure transition over one `game_user_stats` record. The two
  `mt_rand` draws are explicit inputs: `jitter` for `mt_rand(-2, 2)` and `coin`
  for `mt_rand(0, 1)`. The source draws the coin only once the threshold is
  reached; here it is always passed and ignored otherwise.
 */
module Progression {

  /** Highest radar level (`min(... + 1, 6)`). */
  const MaxRadar: nat := 6
  /** Base number of attempts needed per radar level. */
  const FailsPerLevel: nat := 10
  /** Half-width of the random jitter around the threshold. */
  const MaxJitter: nat := 2

  /** The counters of one (user, game) stat row. */
  datatype Stat = Stat(
    currentRadar: nat,
    failedScans: nat,
    successfulScans: nat,
    amountSpent: int,
    failsInLevel: nat)

  /** A freshly created row: every column takes its default of zero. */
  const Fresh := Stat(0, 0, 0, 0, 0)

  datatype Outcome = Outcome(success: bool, stat: Stat)

  predicate ValidDraw(jitter: int, coin: int) {
    -(MaxJitter as int) <= jitter <= MaxJitter && 0 <= coin <= 1
  }

  function Min(a: int, b: int): int {
    if a <= b then a else b
  }

  /** The level the next success reaches: one up, saturating at `MaxRadar`. */
  function NextRadar(radar: nat): (next: nat)
    ensures next <= MaxRadar
    ensures radar < MaxRadar ==> next == radar + 1
    ensures radar >= MaxRadar ==> next == MaxRadar
  {
    Min(radar + 1, MaxRadar)
  }

  /** The number of attempts at the current level this attempt must reach. */
  function NeededFails(radar: nat, jitter: int): int {
    NextRadar(radar) * FailsPerLevel + jitter
  }

  /**
    The shape every row reachable from `Fresh` keeps: the radar counts the
    successes up to the cap, and the attempts at this level are failures.
   */
  predicate Consistent(s: Stat) {
    s.currentRadar == Min(s.successfulScans, MaxRadar) && s.failsInLevel <= s.failedScans
  }

  /** One accepted scan applied to the stat row (the amount is charged elsewhere). */
  function Step(s: Stat, jitter: int, coin: int): (o: Outcome)
    requires ValidDraw(jitter, coin)
    ensures o.success <==> s.failsInLevel + 1 >= NeededFails(s.currentRadar, jitter) && coin == 1
    ensures o.success ==> o.stat.currentRadar == NextRadar(s.currentRadar)
    ensures !o.success ==> o.stat.currentRadar == s.currentRadar
    ensures s.currentRadar <= MaxRadar ==> s.currentRadar <= o.stat.currentRadar <= MaxRadar
    ensures s.currentRadar > MaxRadar && o.success ==> o.stat.currentRadar == MaxRadar
    ensures o.success <==> o.stat.failsInLevel == 0
    ensures !o.success ==> o.stat.failsInLevel == s.failsInLevel + 1
    ensures o.stat.successfulScans == s.successfulScans + (if o.success then 1 else 0)
    ensures o.stat.failedScans == s.failedScans + (if o.success then 0 else 1)
    ensures o.stat.amountSpent == s.amountSpent
    ensures s.failsInLevel + 1 < FailsPerLevel - MaxJitter ==> !o.success
    ensures Consistent(s) ==> Consistent(o.stat)
  {
    var next := NextRadar(s.currentRadar);
    var fails := s.failsInLevel + 1;
    var success := fails >= NeededFails(s.currentRadar, jitter) && coin == 1;
    if success then
      Outcome(true, s.(currentRadar := next, successfulScans := s.successfulScans + 1, failsInLevel := 0))
    else
      Outcome(false, s.(failsInLevel := fails, failedScans := s.failedScans + 1))
  }

  /** The rule neither reads nor writes `amount_spent`. */
  lemma StepIgnoresAmount(s: Stat, amount: int, jitter: int, coin: int)
    requires ValidDraw(jitter, coin)
    ensures Step(s.(amountSpent := amount), jitter, coin).success == Step(s, jitter, coin).success
    ensures Step(s.(amountSpent := amount), jitter, coin).stat == Step(s, jitter, coin).stat.(amountSpent := amount)
  {
  }

  /** The first attempt on a fresh row always fails. */
  lemma FreshFirstAttemptFails(jitter: int, coin: int)
    requires ValidDraw(jitter, coin)
    ensures !Step(Fresh, jitter, coin).success
    ensures Step(Fresh, jitter, coin).stat == Stat(0, 1, 0, 0, 1)
  {
  }

  /** A sequence of draws, one pair per accepted attempt. */
  datatype Draw = Draw(jitter: int, coin: int)

  predicate ValidDraws(draws: seq<Draw>) {
    forall k :: 0 <= k < |draws| ==> ValidDraw(draws[k].jitter, draws[k].coin)
  }

  /** The row after applying `Step` once per draw, in order. */
  function Run(s: Stat, draws: seq<Draw>): (t: Stat)
    requires ValidDraws(draws)
    ensures s.currentRadar <= MaxRadar ==> s.currentRadar <= t.currentRadar <= MaxRadar
    ensures t.failedScans + t.successfulScans == s.failedScans + s.successfulScans + |draws|
    ensures t.amountSpent == s.amountSpent
    decreases draws
  {
    if |draws| == 0 then s
    else Run(Step(s, draws[0].jitter, draws[0].coin).stat, draws[1..])
  }

  /**
    Leaving the current level takes at least `8 - failsInLevel` attempts; in
    particular a fresh row needs eight paid attempts before radar level 1.
   */
  lemma {:induction false} LevelUpTakesAttempts(s: Stat, draws: seq<Draw>)
    requires ValidDraws(draws)
    requires s.currentRadar < MaxRadar
    requires Run(s, draws).currentRadar > s.currentRadar
    ensures |draws| + s.failsInLevel >= FailsPerLevel - MaxJitter
    decreases draws
  {
    if |draws| == 0 {
    } else {
      var o := Step(s, draws[0].jitter, draws[0].coin);
      if !o.success {
        LevelUpTakesAttempts(o.stat, draws[1..]);
      }
    }
  }
}
