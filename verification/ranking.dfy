/**
  `Game::canUserWinFinal` (app/Models/Game.php lines 75-86): the pot must reach
  the game's minimum, and the user must be among the first three rows of the
  game's stats ordered by `amount_spent` descending. The query has no
  tie-break, so the rule is stated for every ordering of the game's rows that
  is sorted by non-increasing amount; `RankBySpent` is one such ordering.
 */
module Ranking {
  import opened Ledger

  /** How many rows the ranking keeps (`->take(3)`). */
  const TopSpenders: nat := 3

  /** The stat rows of game `g`, in storage order (`$this->stats()`). */
  function GameRows(rows: seq<StatRow>, g: GameId): (r: seq<StatRow>)
    ensures forall x :: x in r <==> x in rows && x.gameId == g
    ensures |r| <= |rows|
  {
    if |rows| == 0 then []
    else
      var last := rows[|rows| - 1];
      GameRows(rows[..|rows| - 1], g) + (if last.gameId == g then [last] else [])
  }

  predicate SortedBySpent(rs: seq<StatRow>) {
    forall i, j :: 0 <= i < j < |rs| ==> rs[j].stat.amountSpent <= rs[i].stat.amountSpent
  }

  /** `ranking` is a possible result of `orderByDesc('amount_spent')` over `rows`. */
  predicate IsRanking(rows: seq<StatRow>, ranking: seq<StatRow>) {
    multiset(ranking) == multiset(rows) && SortedBySpent(ranking)
  }

  /** Inserts `x` after every row that spent at least as much. */
  function Insert(x: StatRow, rs: seq<StatRow>): (r: seq<StatRow>)
    ensures multiset(r) == multiset(rs) + multiset{x}
    ensures |r| == |rs| + 1
  {
    if |rs| == 0 then [x]
    else if x.stat.amountSpent <= rs[0].stat.amountSpent then
      assert rs == [rs[0]] + rs[1..];
      [rs[0]] + Insert(x, rs[1..])
    else
      [x] + rs
  }

  lemma {:induction false} InsertSorted(x: StatRow, rs: seq<StatRow>)
    requires SortedBySpent(rs)
    ensures SortedBySpent(Insert(x, rs))
  {
    if |rs| > 0 && x.stat.amountSpent <= rs[0].stat.amountSpent {
      var t := Insert(x, rs[1..]);
      InsertSorted(x, rs[1..]);
      forall k | 0 <= k < |t|
        ensures t[k].stat.amountSpent <= rs[0].stat.amountSpent
      {
        assert t[k] in multiset(t);
        if t[k] != x {
          assert t[k] in multiset(rs[1..]);
          var j :| 0 <= j < |rs[1..]| && rs[1..][j] == t[k];
          assert rs[j + 1] == t[k];
        }
      }
      assert Insert(x, rs) == [rs[0]] + t;
    }
  }

  /** One ordering the query may return: a stable sort by non-increasing amount. */
  function RankBySpent(rows: seq<StatRow>): (r: seq<StatRow>)
    ensures IsRanking(rows, r)
  {
    if |rows| == 0 then []
    else
      var n := |rows| - 1;
      assert rows == rows[..n] + [rows[n]];
      InsertSorted(rows[n], RankBySpent(rows[..n]));
      Insert(rows[n], RankBySpent(rows[..n]))
  }

  /** The user ids of the first rows of a ranking (`->take(3)->pluck('user_id')`). */
  function TopUserIds(ranking: seq<StatRow>): (ids: seq<UserId>)
    ensures |ids| == if |ranking| < TopSpenders then |ranking| else TopSpenders
    ensures forall i :: 0 <= i < |ids| ==> ids[i] == ranking[i].userId
  {
    var k := if |ranking| < TopSpenders then |ranking| else TopSpenders;
    seq(k, i requires 0 <= i < k => ranking[i].userId)
  }

  /** The plain sum of `amount_spent` over a list of rows. */
  function Total(rs: seq<StatRow>): int {
    if |rs| == 0 then 0 else Total(rs[..|rs| - 1]) + rs[|rs| - 1].stat.amountSpent
  }

  /** Summing the game's scope of the table is summing the game's rows. */
  lemma {:induction false} SpentOfGameIsTotal(rows: seq<StatRow>, g: GameId)
    ensures Spent(rows, OfGame(g)) == Total(GameRows(rows, g))
  {
    if |rows| > 0 {
      var n := |rows| - 1;
      SpentOfGameIsTotal(rows[..n], g);
      var prefix := GameRows(rows[..n], g);
      if rows[n].gameId == g {
        assert GameRows(rows, g) == prefix + [rows[n]];
        assert (prefix + [rows[n]])[..|prefix|] == prefix;
      } else {
        assert GameRows(rows, g) == prefix;
      }
    }
  }

  /** The pot of game `g`: `$this->stats()->sum('amount_spent')`, the sum over the game's rows. */
  function Pot(rows: seq<StatRow>, g: GameId): (pot: int)
    ensures pot == Total(GameRows(rows, g))
  {
    SpentOfGameIsTotal(rows, g);
    Spent(rows, OfGame(g))
  }

  function CanUserWinFinal(rows: seq<StatRow>, game: Game, u: UserId, ranking: seq<StatRow>): (can: bool)
    requires IsRanking(GameRows(rows, game.id), ranking)
    ensures Pot(rows, game.id) < game.minimumAmountForWinning ==> !can
  {
    Pot(rows, game.id) >= game.minimumAmountForWinning && u in TopUserIds(ranking)
  }

  /** The number of rows that spent at least `a`. */
  function CountAtLeast(rs: seq<StatRow>, a: int): (c: nat)
    ensures c <= |rs|
  {
    if |rs| == 0 then 0
    else (if rs[0].stat.amountSpent >= a then 1 else 0) + CountAtLeast(rs[1..], a)
  }

  lemma {:induction false} CountAtLeastConcat(xs: seq<StatRow>, ys: seq<StatRow>, a: int)
    ensures CountAtLeast(xs + ys, a) == CountAtLeast(xs, a) + CountAtLeast(ys, a)
  {
    if |xs| == 0 {
      assert xs + ys == ys;
    } else {
      assert (xs + ys)[0] == xs[0];
      assert (xs + ys)[1..] == xs[1..] + ys;
      CountAtLeastConcat(xs[1..], ys, a);
    }
  }

  /** Counting rows does not depend on their order. */
  lemma {:induction false} CountAtLeastPermutation(xs: seq<StatRow>, ys: seq<StatRow>, a: int)
    requires multiset(xs) == multiset(ys)
    ensures CountAtLeast(xs, a) == CountAtLeast(ys, a)
    decreases |xs|
  {
    if |xs| == 0 {
      assert |ys| == |multiset(ys)| == 0;
    } else {
      var x := xs[0];
      assert x in multiset(ys);
      var k :| 0 <= k < |ys| && ys[k] == x;
      var rest := ys[..k] + ys[k + 1..];
      assert ys == ys[..k] + [x] + ys[k + 1..];
      assert xs == [x] + xs[1..];
      assert multiset(ys) == multiset(ys[..k]) + multiset{x} + multiset(ys[k + 1..]);
      assert multiset(rest) == multiset(ys[..k]) + multiset(ys[k + 1..]);
      assert multiset(xs) == multiset{x} + multiset(xs[1..]);
      assert multiset(xs[1..]) == multiset(xs) - multiset{x};
      assert multiset(rest) == multiset(ys) - multiset{x};
      CountAtLeastPermutation(xs[1..], rest, a);
      CountAtLeastConcat(ys[..k] + [x], ys[k + 1..], a);
      CountAtLeastConcat(ys[..k], [x], a);
      CountAtLeastConcat(ys[..k], ys[k + 1..], a);
    }
  }

  /** When every row spent at least `a`, all of them count. */
  lemma {:induction false} CountAtLeastAll(rs: seq<StatRow>, a: int)
    requires forall i :: 0 <= i < |rs| ==> rs[i].stat.amountSpent >= a
    ensures CountAtLeast(rs, a) == |rs|
  {
    if |rs| > 0 {
      CountAtLeastAll(rs[1..], a);
    }
  }

  /** When no row spent `a` or more, none counts. */
  lemma {:induction false} CountAtLeastNone(rs: seq<StatRow>, a: int)
    requires forall i :: 0 <= i < |rs| ==> rs[i].stat.amountSpent < a
    ensures CountAtLeast(rs, a) == 0
  {
    if |rs| > 0 {
      CountAtLeastNone(rs[1..], a);
    }
  }

  /**
    A user whose row is outspent-or-equalled by at most three rows of the game
    (their own included) qualifies once the pot is reached, whatever the tie order.
   */
  lemma WinnerComplete(rows: seq<StatRow>, game: Game, u: UserId, ranking: seq<StatRow>)
    requires IsRanking(GameRows(rows, game.id), ranking)
    requires Pot(rows, game.id) >= game.minimumAmountForWinning
    requires FindStat(rows, u, game.id).Some?
    requires CountAtLeast(GameRows(rows, game.id), StatOf(rows, u, game.id).amountSpent) <= TopSpenders
    ensures CanUserWinFinal(rows, game, u, ranking)
  {
    var x := rows[FindStat(rows, u, game.id).value];
    var i := RankOf(GameRows(rows, game.id), ranking, x);
    RankBound(GameRows(rows, game.id), ranking, i);
    assert TopUserIds(ranking)[i] == u;
  }

  /** The position of a row of the game in a ranking. */
  lemma RankOf(rows: seq<StatRow>, ranking: seq<StatRow>, x: StatRow) returns (i: nat)
    requires multiset(ranking) == multiset(rows)
    requires x in rows
    ensures i < |ranking| && ranking[i] == x
  {
    assert x in multiset(rows);
    i :| 0 <= i < |ranking| && ranking[i] == x;
  }

  /** Everything ranked up to position `i` spent at least as much as row `i`. */
  lemma RankBound(rows: seq<StatRow>, ranking: seq<StatRow>, i: nat)
    requires IsRanking(rows, ranking)
    requires i < |ranking|
    ensures i < CountAtLeast(rows, ranking[i].stat.amountSpent)
  {
    var a := ranking[i].stat.amountSpent;
    CountAtLeastAll(ranking[..i + 1], a);
    assert ranking == ranking[..i + 1] + ranking[i + 1..];
    CountAtLeastConcat(ranking[..i + 1], ranking[i + 1..], a);
    CountAtLeastPermutation(ranking, rows, a);
  }

  /**
    A qualifying user has a row, the pot is reached, and fewer than three rows
    of the game spent strictly more than they did.
   */
  lemma WinnerSound(rows: seq<StatRow>, game: Game, u: UserId, ranking: seq<StatRow>)
    requires UniqueKeys(rows)
    requires IsRanking(GameRows(rows, game.id), ranking)
    requires CanUserWinFinal(rows, game, u, ranking)
    ensures Pot(rows, game.id) >= game.minimumAmountForWinning
    ensures FindStat(rows, u, game.id).Some?
    ensures OutspentByFewerThanTop(rows, game.id, u)
  {
    var i := TopRank(ranking, u);
    RankedRowIsOwnRow(rows, game.id, ranking, i, u);
    OwnRowCeiling(rows, game.id, ranking, i, u);
  }

  /** Fewer than `TopSpenders` rows of game `g` spent strictly more than user `u`. */
  predicate OutspentByFewerThanTop(rows: seq<StatRow>, g: GameId, u: UserId) {
    CountAtLeast(GameRows(rows, g), StatOf(rows, u, g).amountSpent + 1) < TopSpenders
  }

  /** The ceiling of a ranked position, stated for the user's own row. */
  lemma OwnRowCeiling(rows: seq<StatRow>, g: GameId, ranking: seq<StatRow>, i: nat, u: UserId)
    requires IsRanking(GameRows(rows, g), ranking)
    requires i < |ranking| && StatOf(rows, u, g) == ranking[i].stat
    requires i < TopSpenders
    ensures OutspentByFewerThanTop(rows, g, u)
  {
    var gr := GameRows(rows, g);
    var a := StatOf(rows, u, g).amountSpent + 1;
    RankCeiling(gr, ranking, i);
    assert CountAtLeast(gr, a) < TopSpenders;
  }

  /** A user among the top ids sits at a ranked position below three. */
  lemma TopRank(ranking: seq<StatRow>, u: UserId) returns (i: nat)
    requires u in TopUserIds(ranking)
    ensures i < TopSpenders && i < |ranking| && ranking[i].userId == u
  {
    var ids := TopUserIds(ranking);
    i :| 0 <= i < |ids| && ids[i] == u;
  }

  /** Under unique keys, a ranked row of the game is its user's row. */
  lemma RankedRowIsOwnRow(rows: seq<StatRow>, g: GameId, ranking: seq<StatRow>, i: nat, u: UserId)
    requires UniqueKeys(rows)
    requires multiset(ranking) == multiset(GameRows(rows, g))
    requires i < |ranking| && ranking[i].userId == u
    ensures FindStat(rows, u, g).Some?
    ensures StatOf(rows, u, g) == ranking[i].stat
  {
    var x := ranking[i];
    assert x in multiset(GameRows(rows, g));
    assert x in GameRows(rows, g);
    var j :| 0 <= j < |rows| && rows[j] == x;
    FindStatUnique(rows, j);
  }

  /** Fewer rows than the position of row `i` spent strictly more than it. */
  lemma RankCeiling(rows: seq<StatRow>, ranking: seq<StatRow>, i: nat)
    requires IsRanking(rows, ranking)
    requires i < |ranking|
    ensures CountAtLeast(rows, ranking[i].stat.amountSpent + 1) <= i
  {
    var a := ranking[i].stat.amountSpent + 1;
    CountAtLeastNone(ranking[i..], a);
    assert ranking == ranking[..i] + ranking[i..];
    CountAtLeastConcat(ranking[..i], ranking[i..], a);
    CountAtLeastPermutation(ranking, rows, a);
  }

  /** The distinct elements of a list of ids. */
  function IdSet(ids: seq<UserId>): (r: set<UserId>)
    ensures forall v :: v in r <==> v in ids
  {
    set v | v in ids
  }

  lemma {:induction false} IdSetSize(ids: seq<UserId>)
    ensures |IdSet(ids)| <= |ids|
  {
    if |ids| > 0 {
      var n := |ids| - 1;
      assert ids == ids[..n] + [ids[n]];
      var prefix := IdSet(ids[..n]);
      assert IdSet(ids) == prefix + {ids[n]};
      IdSetSize(ids[..n]);
      if ids[n] !in prefix {
        assert |prefix + {ids[n]}| == |prefix| + 1;
      } else {
        assert prefix + {ids[n]} == prefix;
      }
    }
  }

  /** For a given ordering, at most three users of a game qualify. */
  lemma AtMostThreeWinners(rows: seq<StatRow>, game: Game, ranking: seq<StatRow>, winners: set<UserId>)
    requires IsRanking(GameRows(rows, game.id), ranking)
    requires forall u :: u in winners ==> CanUserWinFinal(rows, game, u, ranking)
    ensures |winners| <= TopSpenders
  {
    var ids := TopUserIds(ranking);
    var top := IdSet(ids);
    forall u | u in winners
      ensures u in top
    {
      assert CanUserWinFinal(rows, game, u, ranking);
    }
    IdSetSize(ids);
    SubsetSize(winners, top);
  }

  lemma SubsetSize(a: set<UserId>, b: set<UserId>)
    requires a <= b
    ensures |a| <= |b|
  {
    assert b == a + (b - a);
  }
}
