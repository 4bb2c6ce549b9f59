/**
  The records the scan attempt reads and writes: games, users' wallets, the
  `game_user_stats` table and the append-only `scans` table, plus the sums the
  admin screens show over them.
 */
module Ledger {
  import opened Wrappers
  import opened Progression
  import Settings

  type UserId = nat
  type GameId = nat

  /** The columns of `games` the core reads; amounts are whole currency units. */
  datatype Game = Game(id: GameId, pricePerPlay: int, minimumAmountForWinning: int, isEnabled: bool)

  /** One row of `game_user_stats`. */
  datatype StatRow = StatRow(userId: UserId, gameId: GameId, stat: Stat)

  /**
    One row of `scans`: who scanned what, the outcome, the radar after it and
    the price charged. The radar is `None` when the request wrote a null there.
   */
  datatype Scan = Scan(userId: UserId, gameId: GameId, success: bool, radarLevel: Option<nat>, cost: int)

  /** The persistent state: wallets by user, stat rows and scans in storage order, settings. */
  datatype Db = Db(wallets: map<UserId, int>, stats: seq<StatRow>, scans: seq<Scan>, settings: Settings.Store)

  predicate Owns(row: StatRow, u: UserId, g: GameId) {
    row.userId == u && row.gameId == g
  }

  /** At most one stat row per (user, game). */
  predicate UniqueKeys(rows: seq<StatRow>) {
    forall i, j :: 0 <= i < j < |rows| ==> !Owns(rows[j], rows[i].userId, rows[i].gameId)
  }

  /** The index of the first row of (u, g), as `firstOrCreate` looks it up. */
  function FindStat(rows: seq<StatRow>, u: UserId, g: GameId): (r: Option<nat>)
    ensures r.Some? ==> r.value < |rows| && Owns(rows[r.value], u, g)
    ensures r.Some? ==> forall j :: 0 <= j < r.value ==> !Owns(rows[j], u, g)
    ensures r.None? <==> forall j :: 0 <= j < |rows| ==> !Owns(rows[j], u, g)
  {
    if |rows| == 0 then None
    else if Owns(rows[0], u, g) then Some(0)
    else match FindStat(rows[1..], u, g)
      case None => None
      case Some(i) => Some(i + 1)
  }

  /** Under unique keys, the row of (u, g) is the one `FindStat` finds. */
  lemma FindStatUnique(rows: seq<StatRow>, j: nat)
    requires UniqueKeys(rows)
    requires j < |rows|
    ensures FindStat(rows, rows[j].userId, rows[j].gameId) == Some(j)
  {
  }

  /** Replacing a row by one with the same key moves no row of any (user, game). */
  lemma FindStatSameKeys(rows: seq<StatRow>, i: nat, row: StatRow, u: UserId, g: GameId)
    requires i < |rows|
    requires row.userId == rows[i].userId && row.gameId == rows[i].gameId
    ensures FindStat(rows[i := row], u, g) == FindStat(rows, u, g)
  {
    assert forall j :: 0 <= j < |rows| ==> Owns(rows[i := row][j], u, g) == Owns(rows[j], u, g);
  }

  /** The stat of (u, g), or the zero stat `firstOrCreate` would create. */
  function StatOf(rows: seq<StatRow>, u: UserId, g: GameId): (s: Stat)
    ensures FindStat(rows, u, g).None? ==> s == Fresh
    ensures FindStat(rows, u, g).Some? ==> s == rows[FindStat(rows, u, g).value].stat
  {
    match FindStat(rows, u, g)
    case Some(i) => rows[i].stat
    case None => Fresh
  }

  /**
    What `firstOrCreate` hands back: the table afterwards, the position of the
    row, and whether the row was inserted just now. An inserted instance is not
    reloaded, so in memory it holds none of the column defaults.
   */
  datatype Fetched = Fetched(rows: seq<StatRow>, index: nat, created: bool)

  /**
    `$this->stats()->firstOrCreate(['user_id' => ...])`: the first row of
    (u, g), appending a zero row when there is none.
   */
  function GetOrCreateStat(rows: seq<StatRow>, u: UserId, g: GameId): (f: Fetched)
    ensures f.index < |f.rows| && Owns(f.rows[f.index], u, g)
    ensures FindStat(f.rows, u, g) == Some(f.index)
    ensures f.rows[f.index].stat == StatOf(rows, u, g)
    ensures FindStat(rows, u, g).Some? ==> f.rows == rows
    ensures FindStat(rows, u, g).None? ==> f.rows == rows + [StatRow(u, g, Fresh)]
    ensures f.created <==> FindStat(rows, u, g).None?
  {
    match FindStat(rows, u, g)
    case Some(i) => Fetched(rows, i, false)
    case None => Fetched(rows + [StatRow(u, g, Fresh)], |rows|, true)
  }

  /** Fetching again after a get-or-create finds the same row and creates nothing. */
  lemma GetOrCreateIdempotent(rows: seq<StatRow>, u: UserId, g: GameId)
    ensures var f := GetOrCreateStat(rows, u, g);
      GetOrCreateStat(f.rows, u, g) == f.(created := false)
  {
  }

  lemma GetOrCreateKeepsKeysUnique(rows: seq<StatRow>, u: UserId, g: GameId)
    requires UniqueKeys(rows)
    ensures UniqueKeys(GetOrCreateStat(rows, u, g).rows)
  {
  }

  /** Which rows and scans an aggregate ranges over. */
  datatype Scope = OfGame(g: GameId) | OfUser(u: UserId) | OfPair(pu: UserId, pg: GameId) {
    predicate Covers(u: UserId, g: GameId) {
      match this
      case OfGame(g') => g == g'
      case OfUser(u') => u == u'
      case OfPair(u', g') => u == u' && g == g'
    }
  }

  /** `SUM(amount_spent)` over the stat rows in scope. */
  function Spent(rows: seq<StatRow>, scope: Scope): int {
    if |rows| == 0 then 0
    else
      var last := rows[|rows| - 1];
      Spent(rows[..|rows| - 1], scope) + (if scope.Covers(last.userId, last.gameId) then last.stat.amountSpent else 0)
  }

  /** The sum of `cost` over the scans in scope: what was actually charged. */
  function Paid(scans: seq<Scan>, scope: Scope): int {
    if |scans| == 0 then 0
    else
      var last := scans[|scans| - 1];
      Paid(scans[..|scans| - 1], scope) + (if scope.Covers(last.userId, last.gameId) then last.cost else 0)
  }

  /** The number of scans of (u, g) with the given outcome. */
  function Tally(scans: seq<Scan>, u: UserId, g: GameId, success: bool): nat {
    if |scans| == 0 then 0
    else
      var last := scans[|scans| - 1];
      Tally(scans[..|scans| - 1], u, g, success) + (if last.userId == u && last.gameId == g && last.success == success then 1 else 0)
  }

  /** Replacing one row changes a sum by the change of that row's amount, when it is in scope. */
  lemma {:induction false} SpentUpdate(rows: seq<StatRow>, i: nat, row: StatRow, scope: Scope)
    requires i < |rows|
    requires row.userId == rows[i].userId && row.gameId == rows[i].gameId
    ensures Spent(rows[i := row], scope) == Spent(rows, scope)
      + (if scope.Covers(row.userId, row.gameId) then row.stat.amountSpent - rows[i].stat.amountSpent else 0)
  {
    var n := |rows| - 1;
    if i == n {
      assert rows[i := row][..n] == rows[..n];
    } else {
      assert rows[i := row][..n] == rows[..n][i := row];
      SpentUpdate(rows[..n], i, row, scope);
    }
  }

  /** A stat row agrees with the scans log of its (user, game). */
  predicate RowMatchesLog(row: StatRow, scans: seq<Scan>) {
    && row.stat.amountSpent == Paid(scans, OfPair(row.userId, row.gameId))
    && row.stat.successfulScans == Tally(scans, row.userId, row.gameId, true)
    && row.stat.failedScans == Tally(scans, row.userId, row.gameId, false)
    && Consistent(row.stat)
  }

  /**
    The ledger invariant: one row per (user, game), no negative wallet, every
    row agrees with the scans log, every scan has its row, and every sum of
    `amount_spent` equals what the scans in the same scope charged.
   */
  ghost predicate Valid(db: Db) {
    && UniqueKeys(db.stats)
    && (forall u :: u in db.wallets ==> db.wallets[u] >= 0)
    && (forall i :: 0 <= i < |db.stats| ==> RowMatchesLog(db.stats[i], db.scans))
    && (forall k :: 0 <= k < |db.scans| ==> FindStat(db.stats, db.scans[k].userId, db.scans[k].gameId).Some?)
    && (forall scope :: Spent(db.stats, scope) == Paid(db.scans, scope))
  }

  /** Without a row of (u, g), the log holds no scan of (u, g). */
  lemma {:induction false} NoRowNoScans(scans: seq<Scan>, rows: seq<StatRow>, u: UserId, g: GameId)
    requires forall k :: 0 <= k < |scans| ==> FindStat(rows, scans[k].userId, scans[k].gameId).Some?
    requires FindStat(rows, u, g).None?
    ensures Paid(scans, OfPair(u, g)) == 0
    ensures Tally(scans, u, g, true) == 0 && Tally(scans, u, g, false) == 0
  {
    if |scans| > 0 {
      var n := |scans| - 1;
      assert FindStat(rows, scans[n].userId, scans[n].gameId).Some?;
      NoRowNoScans(scans[..n], rows, u, g);
    }
  }

  /** A database with wallets only satisfies the invariant. */
  lemma EmptyIsValid(wallets: map<UserId, int>, settings: Settings.Store)
    requires forall u :: u in wallets ==> wallets[u] >= 0
    ensures Valid(Db(wallets, [], [], settings))
  {
  }
}
