# RadarLeb scan attempt — a verified Dafny model

RadarLeb is a prize promotion: a user pays `price_to_play` from their wallet to
"scan" a game, and each scan may move the user's radar level up by one, from 0
to 6. Once a game's pot reaches `minimum_amount_for_winning`, the top three
spenders on that game can win its final prize. This project models that logic
and proves properties about it.

- **The scan attempt.** `Game::attemptScan` makes three checks in order:
  1. the game is enabled;
  2. the global `scans_enabled` kill-switch is on;
  3. the wallet covers the price.

  On success it debits the wallet and adds the price to the user's stat row.
  It then runs the progression rule, appends a `Scan` record, and answers
  with `progressFor`.
- **The progression rule.** It draws a threshold of `10 * nextLevel ± 2`
  attempts and a 50/50 coin. The level goes up only when the attempt count at
  the current level has reached the threshold and the coin shows 1.
- **Final-prize eligibility** (`canUserWinFinal`).
- **The settings store** that holds the kill-switch (`SystemSetting::get/put`).
- **The admin screens.** The pot-progress percentage, the radar toggle, the
  per-user amount spent and the wallet credit.

Everything is immutable data and pure functions:

| file | module | what it holds |
|---|---|---|
| `wrappers.dfy` | `Wrappers` | `Option` and `Result` |
| `settings.dfy` | `Settings` | `system_settings` as a map from key to decoded JSON value; PHP truthiness |
| `progression.dfy` | `Progression` | the stat record, the progression rule `Step`, runs of several steps |
| `ledger.dfy` | `Ledger` | games, stat rows, scans, wallets; `firstOrCreate`; the `amount_spent` and cost sums; the ledger invariant `Valid` |
| `ranking.dfy` | `Ranking` | the top-3 eligibility rule and what it means for every tie order |
| `scanning.dfy` | `Scanning` | `attemptScan`, `progressFor`, the rejection kinds and their HTTP statuses |
| `invariants.dfy` | `ScanInvariants` | every attempt keeps `Valid`; how the sums move |
| `game_admin.dfy` | `GameAdmin` | pot percentage and the radar toggle |
| `user_admin.dfy` | `UserAdmin` | "Add to Wallet" and "Amount Spent" |

Modelling choices:

- **Inputs, not side effects.**
  - The two `mt_rand` draws are parameters: `jitter` in [-2, 2] and `coin` in {0, 1}.
  - The source draws the coin only once the threshold is reached. The model always takes it and ignores it otherwise.
- **Money.** All amounts are whole currency units (`int`).
- **Storage.**
  - The stat table is a sequence in storage order.
  - "One row per (user, game)" is an invariant that every operation keeps, not a property of the type.
  - `firstOrCreate` returns the first matching row, or inserts a row that the table fills with the migration's column defaults (all zero).
  - An inserted row is not reloaded, so the instance in memory carries none of those defaults: its counters read as null. `progressFor` on a pair it has just created therefore reports null counters, and an attempt on a pair that has no stat row yet records a null `radar_level` in its scan unless it succeeded (which it cannot). A pair whose zero row was inserted earlier (by `progressFor` or a rejected attempt) records 0 instead. The model records these nulls as `None`.
- **Rejections are values.** A rejected attempt returns `Rejected(GameDisabled | RadarOffline | NotEnoughBalance)`, with status 423, 423 and 402.
- **Rejections keep earlier writes.** The source has no transaction, so a rejection keeps whatever was written before it.
- **Ties in the ranking.** The ranking query has no tie-break. `CanUserWinFinal` therefore takes any ordering of the game's rows sorted by non-increasing `amount_spent`. `RankBySpent` is the concrete one (a stable insertion sort) used by `progressFor`. The lemmas `WinnerSound`, `WinnerComplete` and `AtMostThreeWinners` hold for every such ordering.

Behaviour of the code worth stating plainly:

- **Order of the checks.** The code checks the game's enabled flag first, then runs `firstOrCreate`, then checks the kill-switch, then the balance (app/Models/Game.php:29-35).
- **A rejection is not free of side effects.** A kill-switch or balance rejection can leave a freshly created zero stat row behind.
- **No transaction.** The debit, the row update and the scan insert are separate writes; see "Left out".
- **Radar above 6.** The code caps the next level at 6, so a row edited above 6 is pulled *down* to 6 by its next success. `Progression.Step` states monotonicity only for rows at or below 6, and states the pull-down for the others.

## Model

| member | source | states |
|---|---|---|
| `Settings.Get` | SystemSetting.php:14-17 | a present non-null value is returned as stored; an absent key or a stored null yields the default |
| `Settings.StoredFalseIsKept` | SystemSetting.php:16 | a stored `false` comes back as `false` (and falsy) whatever the default, because `??` only replaces null |
| `Settings.Put` | SystemSetting.php:19-22 | upsert: the key set gains only the key, every other key keeps its value, and reading the key back returns the stored value for any default (the default when null was stored) |
| `Settings.PutOverwrites` | SystemSetting.php:21 | two puts on one key leave only the last value: one entry per key |
| `Settings.ScansEnabled` | app/Models/Game.php:33 | the kill-switch is on when the key is absent or holds null (the `?? true` fallback), off when `false` is stored, and otherwise the truthiness of the stored value |
| `Progression.NextRadar` | app/Models/Game.php:39 | the next level is one up, saturating at 6, and never above 6 |
| `Progression.Step` | app/Models/Game.php:39-57 | success iff the incremented attempts reach `nextLevel*10 + jitter` and the coin is 1; on success the radar becomes the next level and `fails_in_level` resets, otherwise the radar stays and `fails_in_level` grows by one; `fails_in_level` is 0 exactly after a success; exactly one of the success/failure counters grows by one; the radar never decreases and stays at most 6 when it started at most 6 (a row above 6 is set to 6 by a success); no success before the eighth attempt at a level; the shape radar = min(successes, 6), attempts-at-level <= failures is kept |
| `Progression.FreshFirstAttemptFails` | database/migrations/2025_05_01_075811_create_create_game_user_stats_table.php:18-22 | on the zero row the migration creates, the first attempt fails and leaves one failure and one attempt at level 0 |
| `Progression.StepIgnoresAmount` | app/Models/Game.php:37-57 | the outcome and every counter the rule sets do not depend on `amount_spent`, so charging before the rule changes nothing else |
| `Progression.Run` | app/Models/Game.php:39-57 | over any number of attempts the radar stays monotone and within 6, the two counters grow by the number of attempts together, and the rule never touches `amount_spent` |
| `Progression.LevelUpTakesAttempts` | app/Models/Game.php:40-47 | leaving a level below 6 takes at least `8 - fails_in_level` attempts, so a fresh row needs eight paid scans to reach level 1 |
| `Ledger.FindStat` | app/Models/Game.php:31 | the lookup returns the first row of (user, game), and none exactly when no row belongs to that pair |
| `Ledger.GetOrCreateStat` | app/Models/Game.php:31 | returns a row of the pair; an existing row leaves the table unchanged, otherwise exactly one zero row is appended and the result is marked as just inserted; the returned row is the one the next lookup finds |
| `Ledger.GetOrCreateIdempotent` | app/Models/Game.php:17 | a second get-or-create (as `progressFor` does after `attemptScan`) finds the same row, creates nothing and reports it as existing |
| `Ledger.GetOrCreateKeepsKeysUnique` | app/Models/Game.php:31 | get-or-create never creates a second row for a pair |
| `Ledger.SpentUpdate` | app/Models/Game.php:37 | changing one row's `amount_spent` moves every sum whose scope covers that row by exactly the change |
| `Ledger.NoRowNoScans` | app/Models/Game.php:61-66 | when every scan has its stat row, a pair without a row has no scans, no cost and no outcomes in the log |
| `Ranking.RankBySpent` | app/Models/Game.php:80-84 | the concrete ordering is a permutation of the game's rows sorted by non-increasing `amount_spent` |
| `Ranking.CanUserWinFinal` | app/Models/Game.php:77-78 | a pot below `minimum_amount_for_winning` makes nobody eligible |
| `Ranking.TopUserIds` | app/Models/Game.php:80-84 | the first three user ids of the ranking (fewer when the game has fewer rows), in ranking order |
| `Ranking.Pot` | app/Models/Game.php:77 | the pot is the sum of `amount_spent` over exactly the game's rows |
| `Ranking.SpentOfGameIsTotal` | GameResource.php:89 | the per-scope sum used for the admin percentage and the game's row sum agree |
| `Ranking.WinnerComplete` | app/Models/Game.php:75-86 | once the pot is reached, a user with a row that at most three rows (their own included) equal or beat is eligible under every tie order |
| `Ranking.WinnerSound` | app/Models/Game.php:75-86 | an eligible user has a row, the pot is reached, and fewer than three rows of the game spent strictly more |
| `Ranking.AtMostThreeWinners` | app/Models/Game.php:80-85 | for a given ordering, at most three users of a game are eligible |
| `Scanning.ProgressFor` | app/Models/Game.php:15-25 | creates the user's row when missing and changes nothing else; reports an existing row's radar, failure, success and spent counters, and null counters for a row it has just inserted; `can_win_final` is the top-3 rule on the state after the creation |
| `Scanning.AttemptScan` | app/Models/Game.php:27-36 | a disabled game is rejected with nothing changed; otherwise an off kill-switch gives `RadarOffline` and a short wallet gives `NotEnoughBalance`; the attempt is accepted exactly when the game is enabled, the switch is on and the wallet covers the price; a rejection keeps wallets and scans and at most appends a zero stat row; settings never change |
| `Scanning.Play` | app/Models/Game.php:36-66 | the paid part of an attempt: the wallet drops by the price and no other wallet changes, only the fetched row changes, its `amount_spent` grows by the price and its counters are the progression rule's, and exactly one scan is appended with the rule's outcome, the recorded radar and the price |
| `Scanning.Rejection.Status` | app/Models/Game.php:29-35 | 402 exactly for the balance rejection; the other two rejections are 423 |
| `Scanning.Rejection.Reason` | app/Models/Game.php:29-35 | each rejection carries its own message: "game_disabled", "Radar offline", "Not enough balance" |
| `Scanning.RejectionsDistinct` | app/Models/Game.php:29-35 | status and message together identify the rejection, though two share status 423 |
| `Scanning.RecordedRadar` | app/Models/Game.php:48-64 | the scan's `radar_level` is null exactly when the row was inserted by this request and the scan failed, and otherwise the row's radar |
| `Scanning.AcceptedScanDebitsOnce` | app/Models/Game.php:35-36 | an accepted attempt lowers the user's wallet by exactly the price, to a non-negative balance, touches no other wallet, and the response's wallet is that new balance |
| `Scanning.AcceptedScanAppliesRule` | app/Models/Game.php:37-57 | after an accepted attempt the user's row is the progression rule applied to the row it started from (a zero row if none), with `amount_spent` raised by exactly the price |
| `Scanning.AcceptedScanLogsOutcome` | app/Models/Game.php:61-69 | an accepted attempt appends exactly one scan with the rule's outcome, `cost` = price, and as `radar_level` the new radar, or null when the row was inserted by this attempt and the scan failed; `antenna_detected` equals that scan's `success` |
| `Scanning.AcceptedScanReportsProgress` | app/Models/Game.php:70 | the response's progress reports the updated row's radar, failure, success and spent counters, all non-null because the row now exists |
| `Scanning.AcceptedScanReportsEligibility` | app/Models/Game.php:70 | the response's `can_win_final` is the top-3 rule evaluated on the state after the scan |
| `Scanning.FirstAttemptFails` | app/Models/Game.php:31-64 | an accepted attempt on a pair that has no stat row yet never detects the antenna, and its scan record carries a null radar level |
| `Scanning.ZeroRowScanFails` | app/Models/Game.php:31-64 | an accepted attempt on a stored zero row never detects the antenna either, and its scan record carries radar level 0 |
| `ScanInvariants.FetchKeepsValid` | app/Models/Game.php:31 | creating a zero row keeps the ledger invariant |
| `ScanInvariants.PlayKeepsValid` | app/Models/Game.php:35-66 | the debit, charge, progression and scan record keep the ledger invariant: wallets non-negative, one row per pair, each row's spent, success and failure counters equal to its scans in the log, every scan with its row, every sum of `amount_spent` equal to the costs charged |
| `ScanInvariants.AttemptScanKeepsValid` | app/Models/Game.php:27-73 | every attempt, accepted or rejected, keeps the ledger invariant |
| `ScanInvariants.AttemptScanMovesSums` | app/Models/Game.php:37 | the game's pot and the user's total grow by exactly the price on acceptance; a rejection moves no sum |
| `GameAdmin.PotPercent` | GameResource.php:87-92 | the percentage is in 0..100; it is 0 when the minimum is not positive or nothing was spent, and 100 once the amount spent reaches a positive minimum |
| `GameAdmin.GamePotPercent` | GameResource.php:87-92 | the percentage of a game compares its minimum with the sum of its rows' `amount_spent`, and is 100 once the pot is reached |
| `GameAdmin.PotPercentIsNearest` | GameResource.php:91-92 | below the minimum, the percentage is the integer nearest to 100 * spent / minimum, halves rounded up |
| `GameAdmin.PotPercentMonotone` | GameResource.php:91-92 | more spent never shows a smaller percentage |
| `GameAdmin.RadarAction` | GameResource.php:118-119 | the action reads "Disable Radar" in color "danger" exactly when the kill-switch is on, and "Enable Radar" in "success" exactly when it is off |
| `GameAdmin.ToggleRadar` | GameResource.php:120-123 | after the toggle the kill-switch reads as the negation of before, stored as a boolean; every other setting is kept |
| `GameAdmin.ToggleTwiceRestores` | GameResource.php:120-123 | two toggles restore whether scans are enabled |
| `GameAdmin.FirstToggleDisables` | GameResource.php:118-123 | on a store without the key the radar is on, and the first toggle turns it off and relabels the action "Enable Radar" |
| `UserAdmin.AddWallet` | UserResource.php:64-74 | the credit is refused below 1; otherwise the wallet grows by exactly the amount, strictly, and no other wallet, stat row, scan or setting changes |
| `UserAdmin.AddWalletKeepsValid` | UserResource.php:72-73 | a credit keeps the ledger invariant |
| `UserAdmin.CreditCoversNextScan` | UserResource.php:72-73 | crediting at least the price to a non-negative wallet lets the next attempt on an enabled game with the radar on pass the balance check, leaving the wallet at old + amount - price |
| `UserAdmin.AmountSpent` | UserResource.php:53-55 | the column sums `amount_spent` over all the user's rows; under the ledger invariant it equals the total cost of the user's scans |

## Left out

- Concurrency, atomicity and locking. The source wraps lines 31-66 of app/Models/Game.php in no transaction and locks no row. The model is one sequential attempt. Nothing models double-spend races or duplicate rows from two simultaneous first scans.
- `NotFound` for a missing game or user. Route model binding and authentication resolve both before the core runs. The model requires the user to have a wallet.
- Randomness. `mt_rand` becomes explicit parameters with their ranges as preconditions. The order in which the generator is consumed is not modelled.
- The response's `wallet`. The source re-reads it from `auth()->user()` (app/Models/Game.php:71); the model reports the balance after the debit.
- Column widths and fractions.
  - `amount_spent` is `decimal(12,2)`; the other counters are `unsignedInteger` or `unsignedTinyInteger`.
  - Amounts here are unbounded whole units and counters are unbounded naturals.
  - Overflow and cents are not modelled.
- `GameAdmin.PotPercent`: computes `100 * spent / minimum` exactly and rounds it as PHP's `round()` does. It does not model float error from the `(float)` casts. A `null` minimum is read as 0 by the source; the model's integer minimum cannot be null, and a minimum of 0 gives the same 0%.
- Settings values.
  - JSON arrays and objects are not among the modelled values.
  - JSON floats are not modelled either; numbers are integers only, so PHP's truthiness of `0.0` (falsy) and `0.5` (truthy) is not covered.
  - Storing `null` would violate the `value` column's NOT NULL constraint; the model stores it as `None`.
- HTML and number formatting of the admin columns, every Blade view and the compiled views.
- Administrator login, rate limiting, audit logging and `canAccessPanel`. These are authorization plumbing over framework facades.
- The `scans` table's migration is not part of this model. The model assumes its `radar_level` column accepts the null written when an attempt inserts the pair's row; if the column were NOT NULL that insert would fail after the debit and the row update had been written.
- The service workers, the front-end scripts, the analytics widgets and pages, the connection-test command and script, the migrations other than the stat defaults, and the seeders.
