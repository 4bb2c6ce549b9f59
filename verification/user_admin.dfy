/**
  The two pieces of logic in the user admin screen (UserResource.php): the
  per-user "Amount Spent" column and the "Add to Wallet" action, the credit
  counterpart of the debit a scan makes.
 */
module UserAdmin {
  import opened Wrappers
  import opened Progression
  import opened Ledger
  import Scanning
  import Settings

  /** The form's `minValue(1)` on the entered amount. */
  const MinimumCredit: int := 1

  /** The form rejects the entered amount before the action runs. */
  datatype CreditError = AmountBelowMinimum

  /**
    "Add to Wallet": `increment('wallet_balance', amount)` on the chosen user,
    once the amount passed the form's validation. Nothing but that wallet moves.
   */
  function AddWallet(db: Db, u: UserId, amount: int): (r: Result<Db, CreditError>)
    requires u in db.wallets
    ensures r.Success? <==> amount >= MinimumCredit
    ensures r.Success? ==>
      && r.value.wallets.Keys == db.wallets.Keys
      && r.value.wallets[u] == db.wallets[u] + amount
      && r.value.wallets[u] > db.wallets[u]
      && (forall v :: v in db.wallets && v != u ==> r.value.wallets[v] == db.wallets[v])
    ensures r.Success? ==> r.value.stats == db.stats && r.value.scans == db.scans && r.value.settings == db.settings
  {
    if amount < MinimumCredit then Failure(AmountBelowMinimum)
    else Success(db.(wallets := db.wallets[u := db.wallets[u] + amount]))
  }

  /**
    The "Amount Spent" column: `SUM(amount_spent)` over the user's stat rows of
    every game. Under the ledger invariant it is what the user's scans cost.
   */
  function AmountSpent(db: Db, u: UserId): (total: int)
    ensures Valid(db) ==> total == Paid(db.scans, OfUser(u))
  {
    Spent(db.stats, OfUser(u))
  }

  /** A credit keeps the ledger invariant. */
  lemma AddWalletKeepsValid(db: Db, u: UserId, amount: int)
    requires Valid(db)
    requires u in db.wallets
    requires AddWallet(db, u, amount).Success?
    ensures Valid(AddWallet(db, u, amount).value)
  {
  }

  /**
    A credit of at least the price, on a wallet that was not negative, lets
    the next attempt past the balance check: credit and debit meet.
   */
  lemma CreditCoversNextScan(db: Db, u: UserId, amount: int, game: Game, jitter: int, coin: int)
    requires u in db.wallets && db.wallets[u] >= 0
    requires amount >= MinimumCredit && amount >= game.pricePerPlay
    requires game.isEnabled && Settings.ScansEnabled(db.settings)
    requires ValidDraw(jitter, coin)
    ensures var credited := AddWallet(db, u, amount).value;
      var a := Scanning.AttemptScan(credited, game, u, jitter, coin);
      && a.response.Scanned?
      && a.db.wallets[u] == db.wallets[u] + amount - game.pricePerPlay
  {
    var credited := AddWallet(db, u, amount).value;
    Scanning.AcceptedScanDebitsOnce(credited, game, u, jitter, coin);
  }
}
