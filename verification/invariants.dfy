/**
  What a scan attempt preserves across the whole ledger: the invariant
  `Ledger.Valid` (no negative wallet, one row per (user, game), every row in
  agreement with the scans log) and the sums of `amount_spent` the admin
  screens show.
 */
module ScanInvariants {
  import opened Progression
  import opened Ledger
  import opened Scanning

  /** Appending a row changes a sum by that row's amount when it is in scope. */
  lemma SpentAppend(rows: seq<StatRow>, row: StatRow, scope: Scope)
    ensures Spent(rows + [row], scope)
      == Spent(rows, scope) + (if scope.Covers(row.userId, row.gameId) then row.stat.amountSpent else 0)
  {
    assert (rows + [row])[..|rows|] == rows;
  }

  /** Get-or-create keeps the invariant: a created row is zero and has no scans yet. */
  lemma FetchKeepsValid(db: Db, u: UserId, g: GameId)
    requires Valid(db)
    ensures Valid(db.(stats := GetOrCreateStat(db.stats, u, g).rows))
  {
    if FindStat(db.stats, u, g).None? {
      AppendFreshKeepsValid(db, u, g);
    }
  }

  lemma AppendFreshKeepsValid(db: Db, u: UserId, g: GameId)
    requires Valid(db)
    requires FindStat(db.stats, u, g).None?
    ensures Valid(db.(stats := db.stats + [StatRow(u, g, Fresh)]))
  {
    var rows := db.stats + [StatRow(u, g, Fresh)];
    var n := |db.stats|;
    GetOrCreateKeepsKeysUnique(db.stats, u, g);
    assert UniqueKeys(rows);
    forall i | 0 <= i < |rows|
      ensures RowMatchesLog(rows[i], db.scans)
    {
      if i == n {
        NoRowNoScans(db.scans, db.stats, u, g);
      } else {
        assert rows[i] == db.stats[i];
      }
    }
    forall k | 0 <= k < |db.scans|
      ensures FindStat(rows, db.scans[k].userId, db.scans[k].gameId).Some?
    {
      var j := FindStat(db.stats, db.scans[k].userId, db.scans[k].gameId).value;
      assert Owns(rows[j], db.scans[k].userId, db.scans[k].gameId);
    }
    forall scope
      ensures Spent(rows, scope) == Paid(db.scans, scope)
    {
      SpentAppend(db.stats, StatRow(u, g, Fresh), scope);
    }
  }

  /** A new scan of (u, g) adds its cost to every sum whose scope covers (u, g). */
  lemma PaidAppend(scans: seq<Scan>, s: Scan, scope: Scope)
    ensures Paid(scans + [s], scope) == Paid(scans, scope) + (if scope.Covers(s.userId, s.gameId) then s.cost else 0)
  {
    assert (scans + [s])[..|scans|] == scans;
  }

  lemma TallyAppend(scans: seq<Scan>, s: Scan, u: UserId, g: GameId, success: bool)
    ensures Tally(scans + [s], u, g, success)
      == Tally(scans, u, g, success) + (if s.userId == u && s.gameId == g && s.success == success then 1 else 0)
  {
    assert (scans + [s])[..|scans|] == scans;
  }

  /** The paid part of an attempt keeps the invariant when the wallet covers the price. */
  lemma PlayKeepsValid(db: Db, i: nat, game: Game, jitter: int, coin: int, created: bool)
    requires Valid(db)
    requires i < |db.stats| && db.stats[i].gameId == game.id
    requires db.stats[i].userId in db.wallets
    requires db.wallets[db.stats[i].userId] >= game.pricePerPlay
    requires ValidDraw(jitter, coin)
    ensures Valid(Play(db, i, game, jitter, coin, created))
  {
    var played := Play(db, i, game, jitter, coin, created);
    // keys are unchanged, so uniqueness carries over
    forall j | 0 <= j < |played.stats|
      ensures played.stats[j].userId == db.stats[j].userId && played.stats[j].gameId == db.stats[j].gameId
    {
    }
    assert UniqueKeys(played.stats);
    PlayKeepsRowsMatching(db, i, game, jitter, coin, created);
    PlayKeepsScansRowed(db, i, game, jitter, coin, created);
    PlayKeepsSums(db, i, game, jitter, coin, created);
  }

  /** After `Play`, every row still agrees with the extended log. */
  lemma PlayKeepsRowsMatching(db: Db, i: nat, game: Game, jitter: int, coin: int, created: bool)
    requires UniqueKeys(db.stats)
    requires forall j :: 0 <= j < |db.stats| ==> RowMatchesLog(db.stats[j], db.scans)
    requires i < |db.stats| && db.stats[i].gameId == game.id
    requires db.stats[i].userId in db.wallets
    requires ValidDraw(jitter, coin)
    ensures var played := Play(db, i, game, jitter, coin, created);
      forall j :: 0 <= j < |played.stats| ==> RowMatchesLog(played.stats[j], played.scans)
  {
    var played := Play(db, i, game, jitter, coin, created);
    var row := db.stats[i];
    var u, g := row.userId, row.gameId;
    var s := played.scans[|db.scans|];
    var cost := game.pricePerPlay;
    var charged := row.stat.(amountSpent := row.stat.amountSpent + cost);
    var o := Step(charged, jitter, coin);
    assert played.stats[i] == row.(stat := o.stat);
    assert s == Scan(u, g, o.success, RecordedRadar(created, o.success, o.stat.currentRadar), cost);
    forall j | 0 <= j < |played.stats|
      ensures RowMatchesLog(played.stats[j], played.scans)
    {
      var r := played.stats[j];
      PaidAppend(db.scans, s, OfPair(r.userId, r.gameId));
      TallyAppend(db.scans, s, r.userId, r.gameId, true);
      TallyAppend(db.scans, s, r.userId, r.gameId, false);
      if j != i {
        assert r == db.stats[j];
        assert !Owns(r, u, g) by {
          if j < i { assert !Owns(db.stats[i], db.stats[j].userId, db.stats[j].gameId); }
        }
      }
    }
  }

  /** After `Play`, every scan of the log, the new one included, has its row. */
  lemma PlayKeepsScansRowed(db: Db, i: nat, game: Game, jitter: int, coin: int, created: bool)
    requires forall k :: 0 <= k < |db.scans| ==> FindStat(db.stats, db.scans[k].userId, db.scans[k].gameId).Some?
    requires i < |db.stats| && db.stats[i].gameId == game.id
    requires db.stats[i].userId in db.wallets
    requires ValidDraw(jitter, coin)
    ensures var played := Play(db, i, game, jitter, coin, created);
      forall k :: 0 <= k < |played.scans| ==> FindStat(played.stats, played.scans[k].userId, played.scans[k].gameId).Some?
  {
    var played := Play(db, i, game, jitter, coin, created);
    forall k | 0 <= k < |played.scans|
      ensures FindStat(played.stats, played.scans[k].userId, played.scans[k].gameId).Some?
    {
      FindStatSameKeys(db.stats, i, played.stats[i], played.scans[k].userId, played.scans[k].gameId);
      if k < |db.scans| {
        assert played.scans[k] == db.scans[k];
      } else {
        assert Owns(db.stats[i], played.scans[k].userId, played.scans[k].gameId);
      }
    }
  }

  /** After `Play`, every sum of `amount_spent` still equals the costs the log charged in its scope. */
  lemma PlayKeepsSums(db: Db, i: nat, game: Game, jitter: int, coin: int, created: bool)
    requires forall scope :: Spent(db.stats, scope) == Paid(db.scans, scope)
    requires i < |db.stats| && db.stats[i].gameId == game.id
    requires db.stats[i].userId in db.wallets
    requires ValidDraw(jitter, coin)
    ensures var played := Play(db, i, game, jitter, coin, created);
      forall scope :: Spent(played.stats, scope) == Paid(played.scans, scope)
  {
    var played := Play(db, i, game, jitter, coin, created);
    var s := played.scans[|db.scans|];
    forall scope
      ensures Spent(played.stats, scope) == Paid(played.scans, scope)
    {
      SpentUpdate(db.stats, i, played.stats[i], scope);
      PaidAppend(db.scans, s, scope);
    }
  }

  /** Every attempt, accepted or rejected, keeps the ledger invariant. */
  lemma AttemptScanKeepsValid(db: Db, game: Game, u: UserId, jitter: int, coin: int)
    requires Valid(db)
    requires u in db.wallets
    requires ValidDraw(jitter, coin)
    ensures Valid(AttemptScan(db, game, u, jitter, coin).db)
  {
    var a := AttemptScan(db, game, u, jitter, coin);
    if game.isEnabled {
      FetchKeepsValid(db, u, game.id);
      if a.response.Scanned? {
        var f := AcceptedIsPlay(db, game, u, jitter, coin);
        PlayKeepsValid(db.(stats := f.rows), f.index, game, jitter, coin, f.created);
      }
    }
  }

  /**
    The pot of the game and the user's total spent grow by exactly the price on
    an accepted attempt; no sum of `amount_spent` moves on a rejection.
   */
  lemma AttemptScanMovesSums(db: Db, game: Game, u: UserId, jitter: int, coin: int, scope: Scope)
    requires u in db.wallets
    requires ValidDraw(jitter, coin)
    ensures var a := AttemptScan(db, game, u, jitter, coin);
      Spent(a.db.stats, scope) == Spent(db.stats, scope)
        + (if a.response.Scanned? && scope.Covers(u, game.id) then game.pricePerPlay else 0)
  {
    var a := AttemptScan(db, game, u, jitter, coin);
    if game.isEnabled {
      var f := GetOrCreateStat(db.stats, u, game.id);
      if FindStat(db.stats, u, game.id).None? {
        SpentAppend(db.stats, StatRow(u, game.id, Fresh), scope);
      }
      assert Spent(f.rows, scope) == Spent(db.stats, scope);
      if a.response.Scanned? {
        var f' := AcceptedIsPlay(db, game, u, jitter, coin);
        var played := Play(db.(stats := f.rows), f.index, game, jitter, coin, f.created);
        SpentUpdate(f.rows, f.index, played.stats[f.index], scope);
      }
    }
  }
}
