/**
  `Game::attemptScan` and `Game::progressFor` (app/Models/Game.php): the
  checks in the order the code makes them, the debit, the progression rule,
  the scan record and the response. A rejection (`abort_unless` / `abort_if`)
  is a value, and it keeps whatever was written before it: the stat row that
  `firstOrCreate` may have created.
 */
module Scanning {
  import opened Wrappers
  import opened Progression
  import opened Ledger
  import opened Ranking
  import Settings

  /** The three ways an attempt is refused, with the HTTP status and reason of each. */
  datatype Rejection = GameDisabled | RadarOffline | NotEnoughBalance {
    function Status(): (code: int)
      ensures code == 402 <==> this == NotEnoughBalance
      ensures code == 402 || code == 423
    {
      match this
      case GameDisabled => 423
      case RadarOffline => 423
      case NotEnoughBalance => 402
    }

    function Reason(): (reason: string)
      ensures reason == "game_disabled" <==> this == GameDisabled
      ensures reason == "Radar offline" <==> this == RadarOffline
      ensures reason == "Not enough balance" <==> this == NotEnoughBalance
    {
      match this
      case GameDisabled => "game_disabled"
      case RadarOffline => "Radar offline"
      case NotEnoughBalance => "Not enough balance"
    }
  }

  /** Status and reason together tell the three rejections apart, though two share status 423. */
  lemma RejectionsDistinct(x: Rejection, y: Rejection)
    ensures x.Status() == y.Status() && x.Reason() == y.Reason() ==> x == y
    ensures GameDisabled.Status() == RadarOffline.Status()
  {
  }

  /**
    The array `progressFor` returns. A counter is `None` where the JSON holds
    null: the counters of a row inserted by the same call are not loaded.
   */
  datatype Progress = Progress(radarLevel: Option<nat>, failedScans: Option<nat>, successful: Option<nat>,
                               amountSpent: Option<int>, canWinFinal: bool)

  /** The response of an attempt: the JSON body of an accepted scan, or the abort. */
  datatype Response =
    | Scanned(antennaDetected: bool, progress: Progress, wallet: int)
    | Rejected(reason: Rejection)

  datatype Report = Report(progress: Progress, db: Db)

  datatype Attempt = Attempt(response: Response, db: Db)

  /**
    `progressFor`: get-or-create the user's row, report its counters and
    whether the user can currently win the game's final prize. The tie order
    of the ranking is the stable one of `RankBySpent`.
   */
  function ProgressFor(db: Db, game: Game, u: UserId): (r: Report)
    ensures r.db == db.(stats := GetOrCreateStat(db.stats, u, game.id).rows)
    ensures FindStat(db.stats, u, game.id).Some? ==>
      var s := StatOf(db.stats, u, game.id);
      && r.progress.radarLevel == Some(s.currentRadar)
      && r.progress.failedScans == Some(s.failedScans)
      && r.progress.successful == Some(s.successfulScans)
      && r.progress.amountSpent == Some(s.amountSpent)
    ensures FindStat(db.stats, u, game.id).None? ==>
      && r.progress.radarLevel.None? && r.progress.failedScans.None?
      && r.progress.successful.None? && r.progress.amountSpent.None?
    ensures r.progress.canWinFinal ==> Pot(r.db.stats, game.id) >= game.minimumAmountForWinning
    ensures r.progress.canWinFinal <==>
      CanUserWinFinal(r.db.stats, game, u, RankBySpent(GameRows(r.db.stats, game.id)))
  {
    var f := GetOrCreateStat(db.stats, u, game.id);
    var s := f.rows[f.index].stat;
    var can := CanUserWinFinal(f.rows, game, u, RankBySpent(GameRows(f.rows, game.id)));
    var progress :=
      if f.created then Progress(None, None, None, None, can)
      else Progress(Some(s.currentRadar), Some(s.failedScans), Some(s.successfulScans), Some(s.amountSpent), can);
    Report(progress, db.(stats := f.rows))
  }

  /**
    The `radar_level` the scan record gets: the in-memory `current_radar`,
    which is null on an instance `firstOrCreate` has just inserted unless a
    success assigned it.
   */
  function RecordedRadar(created: bool, success: bool, radar: nat): (level: Option<nat>)
    ensures level.None? <==> created && !success
    ensures level.Some? ==> level.value == radar
  {
    if created && !success then None else Some(radar)
  }

  /**
    The paid part of an attempt on row `i`: debit, charge, progression, scan
    record. `created` says whether `firstOrCreate` inserted the row just now.
   */
  function Play(db: Db, i: nat, game: Game, jitter: int, coin: int, created: bool): (played: Db)
    requires i < |db.stats| && db.stats[i].gameId == game.id
    requires db.stats[i].userId in db.wallets
    requires ValidDraw(jitter, coin)
    ensures var u := db.stats[i].userId;
      played.wallets == db.wallets[u := db.wallets[u] - game.pricePerPlay]
    ensures played.settings == db.settings
    ensures |played.stats| == |db.stats| && played.stats == db.stats[i := played.stats[i]]
    ensures Owns(played.stats[i], db.stats[i].userId, game.id)
    ensures played.stats[i].stat.amountSpent == db.stats[i].stat.amountSpent + game.pricePerPlay
    ensures var charged := db.stats[i].stat.(amountSpent := db.stats[i].stat.amountSpent + game.pricePerPlay);
      && played.stats[i].stat == Step(charged, jitter, coin).stat
      && |played.scans| == |db.scans| + 1
      && played.scans[|db.scans|].success == Step(charged, jitter, coin).success
    ensures var success := played.scans[|db.scans|].success;
      played.scans == db.scans + [Scan(db.stats[i].userId, game.id, success,
                                       RecordedRadar(created, success, played.stats[i].stat.currentRadar),
                                       game.pricePerPlay)]
  {
    var row := db.stats[i];
    var cost := game.pricePerPlay;
    var charged := row.stat.(amountSpent := row.stat.amountSpent + cost);
    var o := Step(charged, jitter, coin);
    db.(wallets := db.wallets[row.userId := db.wallets[row.userId] - cost],
        stats := db.stats[i := row.(stat := o.stat)],
        scans := db.scans + [Scan(row.userId, game.id, o.success, RecordedRadar(created, o.success, o.stat.currentRadar), cost)])
  }

  /** `Game::attemptScan` for user `u` with the two random draws given. */
  function AttemptScan(db: Db, game: Game, u: UserId, jitter: int, coin: int): (a: Attempt)
    requires u in db.wallets
    requires ValidDraw(jitter, coin)
    // the three checks, in the order the code makes them
    ensures !game.isEnabled ==> a == Attempt(Rejected(GameDisabled), db)
    ensures game.isEnabled && !Settings.ScansEnabled(db.settings) ==> a.response == Rejected(RadarOffline)
    ensures game.isEnabled && Settings.ScansEnabled(db.settings) && db.wallets[u] < game.pricePerPlay
      ==> a.response == Rejected(NotEnoughBalance)
    ensures a.response.Scanned? <==>
      game.isEnabled && Settings.ScansEnabled(db.settings) && db.wallets[u] >= game.pricePerPlay
    // a rejection keeps everything except, past the first check, a fresh row
    ensures a.response.Rejected? ==>
      && a.db.wallets == db.wallets && a.db.scans == db.scans
      && (a.db.stats == db.stats || a.db.stats == db.stats + [StatRow(u, game.id, Fresh)])
    ensures a.db.settings == db.settings
  {
    if !game.isEnabled then
      Attempt(Rejected(GameDisabled), db)
    else
      var f := GetOrCreateStat(db.stats, u, game.id);
      var fetched := db.(stats := f.rows);
      if !Settings.ScansEnabled(fetched.settings) then
        Attempt(Rejected(RadarOffline), fetched)
      else if fetched.wallets[u] < game.pricePerPlay then
        Attempt(Rejected(NotEnoughBalance), fetched)
      else
        var played := Play(fetched, f.index, game, jitter, coin, f.created);
        var success := played.scans[|played.scans| - 1].success;
        var report := ProgressFor(played, game, u);
        Attempt(Scanned(success, report.progress, played.wallets[u]), report.db)
  }

  /** The three checks an attempt passes: the game is enabled, the kill-switch is on, the wallet covers the price. */
  predicate Admits(db: Db, game: Game, u: UserId)
    requires u in db.wallets
  {
    game.isEnabled && Settings.ScansEnabled(db.settings) && db.wallets[u] >= game.pricePerPlay
  }

  /** An accepted attempt is `Play` on the fetched row, and the final progress read creates nothing. */
  lemma AcceptedIsPlay(db: Db, game: Game, u: UserId, jitter: int, coin: int)
    returns (f: Fetched)
    requires u in db.wallets
    requires ValidDraw(jitter, coin)
    requires Admits(db, game, u)
    ensures f == GetOrCreateStat(db.stats, u, game.id)
    ensures AttemptScan(db, game, u, jitter, coin).db == Play(db.(stats := f.rows), f.index, game, jitter, coin, f.created)
    ensures FindStat(AttemptScan(db, game, u, jitter, coin).db.stats, u, game.id) == Some(f.index)
    ensures var played := AttemptScan(db, game, u, jitter, coin).db;
      AttemptScan(db, game, u, jitter, coin).response
        == Scanned(played.scans[|played.scans| - 1].success, ProgressFor(played, game, u).progress, played.wallets[u])
  {
    f := GetOrCreateStat(db.stats, u, game.id);
    var fetched := db.(stats := f.rows);
    assert Settings.ScansEnabled(fetched.settings) && fetched.wallets[u] >= game.pricePerPlay;
    var played := Play(fetched, f.index, game, jitter, coin, f.created);
    FindStatSameKeys(f.rows, f.index, played.stats[f.index], u, game.id);
    var report := ProgressFor(played, game, u);
    assert report.db == played;
    assert AttemptScan(db, game, u, jitter, coin)
      == Attempt(Scanned(played.scans[|played.scans| - 1].success, report.progress, played.wallets[u]), played);
  }

  /** An accepted attempt takes the price from the user's wallet once, and never below zero. */
  lemma AcceptedScanDebitsOnce(db: Db, game: Game, u: UserId, jitter: int, coin: int)
    requires u in db.wallets
    requires ValidDraw(jitter, coin)
    requires Admits(db, game, u)
    ensures var a := AttemptScan(db, game, u, jitter, coin);
      && a.db.wallets.Keys == db.wallets.Keys
      && a.db.wallets[u] == db.wallets[u] - game.pricePerPlay
      && a.db.wallets[u] >= 0
      && (forall v :: v in db.wallets && v != u ==> a.db.wallets[v] == db.wallets[v])
      && a.response.wallet == a.db.wallets[u]
  {
    var a := AttemptScan(db, game, u, jitter, coin);
    var f := AcceptedIsPlay(db, game, u, jitter, coin);
    var fetched := db.(stats := f.rows);
    assert fetched.stats[f.index].userId == u;
    var played := Play(fetched, f.index, game, jitter, coin, f.created);
    assert a.db == played;
    assert db.wallets[u] >= game.pricePerPlay;
  }

  /**
    An accepted attempt leaves the row as the progression rule makes it from
    the row it started from (a zero row if there was none), with the price
    added to `amount_spent`.
   */
  lemma AcceptedScanAppliesRule(db: Db, game: Game, u: UserId, jitter: int, coin: int)
    requires u in db.wallets
    requires ValidDraw(jitter, coin)
    requires Admits(db, game, u)
    ensures var before := StatOf(db.stats, u, game.id);
      StatOf(AttemptScan(db, game, u, jitter, coin).db.stats, u, game.id)
        == Step(before, jitter, coin).stat.(amountSpent := before.amountSpent + game.pricePerPlay)
  {
    var f := AcceptedIsPlay(db, game, u, jitter, coin);
    PlayAppliesRule(db.(stats := f.rows), f.index, game, jitter, coin, f.created);
  }

  /** The row `Play` leaves behind, as the lookup finds it afterwards. */
  lemma PlayAppliesRule(db: Db, i: nat, game: Game, jitter: int, coin: int, created: bool)
    requires i < |db.stats| && db.stats[i].gameId == game.id
    requires db.stats[i].userId in db.wallets
    requires ValidDraw(jitter, coin)
    requires FindStat(Play(db, i, game, jitter, coin, created).stats, db.stats[i].userId, game.id) == Some(i)
    ensures var before := db.stats[i].stat;
      StatOf(Play(db, i, game, jitter, coin, created).stats, db.stats[i].userId, game.id)
        == Step(before, jitter, coin).stat.(amountSpent := before.amountSpent + game.pricePerPlay)
  {
    var before := db.stats[i].stat;
    StepIgnoresAmount(before, before.amountSpent + game.pricePerPlay, jitter, coin);
  }

  /**
    An accepted attempt appends exactly one scan carrying the outcome of the
    progression rule, the new radar and the price; `antenna_detected` is that
    scan's outcome. On a row inserted by this attempt the radar is recorded as
    null unless the scan succeeded.
   */
  lemma AcceptedScanLogsOutcome(db: Db, game: Game, u: UserId, jitter: int, coin: int)
    requires u in db.wallets
    requires ValidDraw(jitter, coin)
    requires Admits(db, game, u)
    ensures var a := AttemptScan(db, game, u, jitter, coin);
      var before := StatOf(db.stats, u, game.id);
      var after := StatOf(a.db.stats, u, game.id);
      && a.response.antennaDetected == Step(before, jitter, coin).success
      && var radar := if FindStat(db.stats, u, game.id).None? && !a.response.antennaDetected
                      then None else Some(after.currentRadar);
         a.db.scans == db.scans + [Scan(u, game.id, a.response.antennaDetected, radar, game.pricePerPlay)]
  {
    var a := AttemptScan(db, game, u, jitter, coin);
    var f := AcceptedIsPlay(db, game, u, jitter, coin);
    var played := Play(db.(stats := f.rows), f.index, game, jitter, coin, f.created);
    assert a.db == played;
    var before := StatOf(db.stats, u, game.id);
    assert f.rows[f.index].stat == before;
    assert StatOf(a.db.stats, u, game.id) == played.stats[f.index].stat;
    StepIgnoresAmount(before, before.amountSpent + game.pricePerPlay, jitter, coin);
    assert a.response.antennaDetected == played.scans[|db.scans|].success;
  }

  /** The progress in an accepted response is the user's row after the scan. */
  lemma AcceptedScanReportsProgress(db: Db, game: Game, u: UserId, jitter: int, coin: int)
    requires u in db.wallets
    requires ValidDraw(jitter, coin)
    requires Admits(db, game, u)
    ensures var a := AttemptScan(db, game, u, jitter, coin);
      var after := StatOf(a.db.stats, u, game.id);
      a.response.progress == Progress(Some(after.currentRadar), Some(after.failedScans), Some(after.successfulScans),
                                      Some(after.amountSpent), a.response.progress.canWinFinal)
  {
    var f := AcceptedIsPlay(db, game, u, jitter, coin);
  }

  /** The final-prize flag in an accepted response is the top-3 rule on the state after the scan. */
  lemma AcceptedScanReportsEligibility(db: Db, game: Game, u: UserId, jitter: int, coin: int)
    requires u in db.wallets
    requires ValidDraw(jitter, coin)
    requires Admits(db, game, u)
    ensures var a := AttemptScan(db, game, u, jitter, coin);
      a.response.progress.canWinFinal <==>
        CanUserWinFinal(a.db.stats, game, u, RankBySpent(GameRows(a.db.stats, game.id)))
  {
    var f := AcceptedIsPlay(db, game, u, jitter, coin);
  }

  /**
    An accepted attempt on a pair that has no stat row yet never detects the
    antenna, and, the row being inserted by this very attempt, its scan record
    carries a null radar level.
   */
  lemma FirstAttemptFails(db: Db, game: Game, u: UserId, jitter: int, coin: int)
    requires u in db.wallets
    requires ValidDraw(jitter, coin)
    requires FindStat(db.stats, u, game.id).None?
    requires Admits(db, game, u)
    ensures !AttemptScan(db, game, u, jitter, coin).response.antennaDetected
    ensures var a := AttemptScan(db, game, u, jitter, coin);
      |a.db.scans| == |db.scans| + 1 && a.db.scans[|db.scans|].radarLevel.None?
  {
    AcceptedScanLogsOutcome(db, game, u, jitter, coin);
    FreshFirstAttemptFails(jitter, coin);
  }

  /**
    An accepted attempt on a zero row (one inserted earlier, by `progressFor`
    or a rejected attempt) never detects the antenna either; its scan record
    carries radar level 0.
   */
  lemma ZeroRowScanFails(db: Db, game: Game, u: UserId, jitter: int, coin: int)
    requires u in db.wallets
    requires ValidDraw(jitter, coin)
    requires FindStat(db.stats, u, game.id).Some? && StatOf(db.stats, u, game.id) == Fresh
    requires Admits(db, game, u)
    ensures !AttemptScan(db, game, u, jitter, coin).response.antennaDetected
    ensures var a := AttemptScan(db, game, u, jitter, coin);
      |a.db.scans| == |db.scans| + 1 && a.db.scans[|db.scans|].radarLevel == Some(0)
  {
    AcceptedScanLogsOutcome(db, game, u, jitter, coin);
    AcceptedScanAppliesRule(db, game, u, jitter, coin);
    FreshFirstAttemptFails(jitter, coin);
  }
}
