# surebet-app bookkeeping, modelled in Dafny

surebet-app is a small Next.js tool for running matched ("surebet") betting
across several bookmaker accounts owned by several people. This project
models the in-memory bookkeeping of its three pages, leaving out the
database calls around it:

* **Balances page** (`src/app/page.tsx`):
  * it groups transactions and balance adjustments into a calendar of
    months and days with running totals (`groupMonthDay`);
  * it tells baseline resets ("set saldo a valore") apart from regular
    adjustments and splits the loaded list in two;
  * it turns a bookmaker name into a logo slug;
  * it adds up each person's payment-method balances and incoming amounts;
  * it checks a new transaction or adjustment and builds the row it would
    insert.
* **Bets page** (`src/app/scommesse/page.tsx`):
  * it groups bet legs per bet in `(created_at, id)` order;
  * it summarises each bet (closed or not, stake, payout, profit) and splits
    the bets into running and closed ones;
  * it groups the closed-bet profit by month and day;
  * it checks a new bet and an edited leg;
  * it edits the draft legs of a new bet;
  * it applies a leg's settlement locally and decides whether to reload.
* **Summary page** (`src/app/riepilogo/page.tsx`):
  * it sums equity events per partner and splits the current capital pro
    quota;
  * it adds closed-bet profit and regular adjustments per day;
  * it combines the two into a monthly profit-and-loss table.

Every loop of the source that updates a map or a running sum is a `method`
with a `while` or `for` loop. Each such method is proved equal to a
recursive specification function, and the source's promises are proved as
lemmas about those functions. The one exception is the loop of `summaries`
(src/app/scommesse/page.tsx:335-348), which only pushes one summary per bet
that has legs. It is the recursive function `Legs.Summaries`. Expressions
built from `map`, `filter`, `every` and `reduce` are plain functions.

Modules:

* `Common`: Option, Result, a pair of amounts, and a parsed number that is
  either finite or not.
* `Seqs`: sums, selection (`filter`), flattening and search over sequences.
* `Text`: the string order and trimming as JavaScript has them.
* `Sorting`: a stable sort.
* `OrderedMap`: a JavaScript `Map`, with insertion order and one entry per
  key.
* `Keyed`: running sums per key, and rows pushed per key.
* `Tally`: two running sums per key, starting from listed keys.
* `Calendar`: the month/day grouping.
* `Legs`: legs per bet and bet summaries.
* `Bets`: the bets page.
* `Balances`: the balances page.
* `Equity`: partner equity.
* `Summary`: daily bet profit and daily adjustments.
* `Monthly`: monthly profit and loss.

## Model

| member | source | states |
|---|---|---|
| Calendar.MonthKeyProperties | src/app/page.tsx:77-79 | The month key of a day is its first seven characters followed by "-01". Two days share a month key exactly when they share those seven characters. The month key of a month key is itself. |
| Calendar.Bucket | src/app/page.tsx:157-170 | The grouping loop builds the same month buckets as the specification `Bucketed`, which adds items one by one. |
| Calendar.BucketOne | src/app/page.tsx:158-169 | One pass of the loop body: the month and then the day of the item get the item's amount and the item. Either bucket is created empty when missing. |
| Calendar.AddItemOk | src/app/page.tsx:162-169 | One item keeps the buckets well formed. It raises the grand total by exactly its amount and adds exactly itself to the items. |
| Calendar.BucketedOk | src/app/page.tsx:157-170 | After the loop there is one bucket per month and, inside it, one per day. Each day bucket holds only items of its day, and its total is the sum of their amounts. Each month total is the sum of its day totals. The items are the input as a multiset, and the month totals add up to the input's amounts. |
| Calendar.BucketOfItem | src/app/page.tsx:157-170 | Every grouped item sits in exactly one day bucket. That bucket is keyed by the item's day and lies under the month of that day. |
| Calendar.SortDaysOk | src/app/page.tsx:175 | Sorting a month's days keeps its key, its total and its items, and puts the days newest first. |
| Calendar.ArrangedOk | src/app/page.tsx:172-175 | Sorting months and days keeps the buckets well formed, their items and their grand total. Months come strictly newest first, and so do the days inside each month. |
| Calendar.WithItemsByTimeOk | src/app/page.tsx:176-183 | Sorting each day's items latest first keeps the buckets, their order, their items and their totals. Inside every day, timestamps do not increase. |
| Calendar.GroupMonthDay | src/app/page.tsx:154-186 | `groupMonthDay` yields well-formed buckets with months and days strictly newest first and each day's items latest first. Its items are the input as a multiset, and its month totals add up to the sum of the input amounts. |
| Balances.IsBaselineAdjustmentSpec | src/app/page.tsx:70-73 | A note marks a baseline reset exactly when it is present and is "set saldo a valore" (any letter case) with only white space around it. A missing note never marks one. |
| Balances.AdjustmentSplit | src/app/page.tsx:272-274 | The regular and the baseline lists hold no common element and lose none. Together they have the loaded length and, as multisets, make up the loaded list. Each keeps the loaded order: splitting a concatenation concatenates the splits. |
| Balances.Slugify | src/app/page.tsx:67-69 | A slug holds only `a`-`z` and `0`-`9`. |
| Balances.SlugifyKeepsLettersAndDigits | src/app/page.tsx:67-69 | The slug is the lower-cased name with everything except letters and digits removed, in order. Trimming and dropping white space first change nothing. |
| Balances.SlugifyIdempotent | src/app/page.tsx:67-69 | Slugifying a slug gives the same slug. |
| Balances.MethodsTotalsByPerson | src/app/page.tsx:299-309 | There is one entry per listed person and per owner named by a method. Each entry holds the sum of that owner's method balances (`saldo`) and of their incoming amounts (`transito`); a listed person without methods keeps zero. The entries together hold every method's amounts. |
| Balances.NoteOf | src/app/page.tsx:386 | The stored note is missing exactly when the typed note is all white space. Otherwise it is non-empty and has no white space at either end. |
| Balances.BuildTransaction | src/app/page.tsx:377-410 | A non-finite or non-positive amount is refused before anything else. For each kind, a missing endpoint gives that kind's error, and any payload carries exactly the endpoints of its kind, taken from the form. Deposits and transfers are completed; a withdrawal keeps the chosen status. The payload has the form's kind and amount and the trimmed note. |
| Balances.BuildAdjustment | src/app/page.tsx:440-452 | An adjustment is accepted exactly when a target is chosen and the amount is finite and non-zero. The target is checked first. The payload carries the form's target, its amount and its trimmed note. |
| Legs.LegBeforeIsStrictTotal | src/app/scommesse/page.tsx:323-327 | The leg comparator (`created_at`, then id) is a strict order that ranks any two different keys. |
| Legs.LegsByBet | src/app/scommesse/page.tsx:315-331 | The two loops of `legsByBet` build the map `LegsByBetOf`: legs pushed per bet, then every bucket sorted. |
| Legs.LegsByBetGet | src/app/riepilogo/page.tsx:178-194 | There is one bucket per bet that a leg names. The bucket of a bet holds exactly that bet's legs, as often as they occur, in ascending `(created_at, id)` order. The code is the same on both pages. |
| Legs.Summarize | src/app/scommesse/page.tsx:336-347 | A bet without legs has no summary. Otherwise the summary carries the bet and its legs, and it is closed exactly when no leg is open. |
| Legs.PayoutOfWins | src/app/scommesse/page.tsx:341-344 | The payouts of all legs add up to stake times odds summed over the winning legs alone. |
| Legs.ProfitOfLegs | src/app/scommesse/page.tsx:340-345 | The stake total is the sum of the stakes. The payout total is stake times odds summed over the winning legs only. The profit is that payout less the stake total, which is also each leg's gain or loss summed. When every leg lost, nothing is paid out and the profit is minus the stake total. |
| Legs.ProfitAtLeastMinusStake | src/app/scommesse/page.tsx:340-345 | With no negative stake or odds, a bet never loses more than its stake total. |
| Legs.SummariesSound | src/app/scommesse/page.tsx:333-350 | There are no more summaries than bets. Each summary is that of a listed bet, built from its non-empty legs. |
| Legs.SummariesComplete | src/app/scommesse/page.tsx:335-337 | Every bet with at least one leg has its summary among the summaries. |
| Bets.InProgressAndClosed | src/app/scommesse/page.tsx:352-364 | The running and the closed lists together are the summaries as a multiset, each summary in exactly one. Running bets have an open leg and are ordered by non-decreasing match instant. Closed bets have none. |
| Bets.ClosedGrouped | src/app/scommesse/page.tsx:366-389 | Closed bets are grouped by month and match day, months and days strictly newest first. Each day profit is the sum of its bets' profits, and each month profit is the sum of its day profits. The grouped bets are the closed bets, and the month profits add up to their profit. |
| Bets.DraftsFor | src/app/scommesse/page.tsx:271-280 | A single bet starts with one blank leg and a surebet with two. |
| Bets.AddNewLeg | src/app/scommesse/page.tsx:391-393 | Adding a leg keeps the existing legs and appends one blank leg. |
| Bets.Patched | src/app/scommesse/page.tsx:395 | A patched leg takes every field the patch sets and keeps the others. |
| Bets.UpdateNewLeg | src/app/scommesse/page.tsx:394-396 | Updating leg `i` keeps the length and every other leg, and patches leg `i`. |
| Bets.UpdateNewLegIdempotent | src/app/scommesse/page.tsx:394-396 | Applying a patch twice is applying it once, and an empty patch changes nothing. |
| Bets.DropIndexSpec | src/app/scommesse/page.tsx:399 | Filtering out index `i` removes exactly that element, when it exists, and keeps the rest in order. |
| Bets.RemoveNewLeg | src/app/scommesse/page.tsx:397-403 | The updater of `removeNewLeg` leaves a list of at most one leg as it is. A longer list loses exactly leg `i`. It asks for a single bet exactly when one leg is left. |
| Bets.AfterRemoval | src/app/scommesse/page.tsx:271-280 | What the page holds after a removal. The mode becomes single when one leg is left. When that changes the mode, the `betMode` effect replaces the legs with one blank leg. Otherwise the legs are those the updater kept. |
| Bets.RemovalBlanksSurebet | src/app/scommesse/page.tsx:397-403 | Removing one of the two legs of a surebet keeps the other leg in the updater but leaves the page with a single blank leg. |
| Bets.RemovalLosesTypedLeg | src/app/scommesse/page.tsx:400 | A concrete surebet with two filled legs: after removing the first, the second is not among the legs. |
| Bets.AfterRemovalKept | src/app/scommesse/page.tsx:397-403 | The corrected removal: the legs are exactly those the updater kept, with leg `i` gone and the rest in order. The mode is single exactly when one leg is left or it already was. |
| Bets.AfterRemovalKeptOk | src/app/scommesse/page.tsx:391-403 | With the corrected removal, removing the leg just added gives back the legs before it. Both removals agree whenever the mode does not change. |
| Bets.RemoveAddedLeg | src/app/scommesse/page.tsx:391-403 | Removing the leg just added gives back the legs before it. |
| Bets.LegFaultOf | src/app/scommesse/page.tsx:415-417 | A leg passes exactly when it has an account, a finite stake above 0 and finite odds above 1. Otherwise the first failing check, in that order, is reported. |
| Bets.ValidateNewBet | src/app/scommesse/page.tsx:405-418 | A missing date or time is refused first, then a bet without legs, then a surebet with one leg. After that, the bet passes exactly when every leg passes. Otherwise the report names the first failing leg (1-based) and its first fault, and all legs before it pass. |
| Bets.BlankBetRefused | src/app/scommesse/page.tsx:192-195 | A new bet whose legs are still blank passes the header checks and is refused at its first leg for want of an account. |
| Bets.ValidateEditLeg | src/app/scommesse/page.tsx:530-539 | An edit without a leg is refused. Otherwise it passes or fails exactly as one leg of a new bet does, with the same fault. |
| Bets.PatchLegs | src/app/scommesse/page.tsx:469 | Only the legs with the given id take the new status; every other leg is kept. |
| Bets.WherePatched | src/app/scommesse/page.tsx:472-474 | Patching the legs and then picking those of a bet is the same as picking and then patching. |
| Bets.SetLegStatusSpec | src/app/scommesse/page.tsx:455-480 | An unknown leg or a failed update changes nothing. Otherwise exactly the legs with that id take the new status. The page reloads exactly when the leg is known, the update went through and no leg of its bet is still open. |
| Equity.ByPartner | src/app/riepilogo/page.tsx:139-149 | The loops of `byPartner` build the map `ByPartnerOf`. |
| Equity.ByPartnerOk | src/app/riepilogo/page.tsx:139-149 | There is one entry per partner and per partner an event names. Each entry holds the sums of that partner's cash paid in and units minted, and the entries together hold all events. |
| Equity.ByPartnerGet | src/app/riepilogo/page.tsx:141-147 | A listed partner's entry sums that partner's events, and is zero when the partner has none. |
| Equity.TotalUnits | src/app/riepilogo/page.tsx:151-155 | `totalUnits` is the sum of the units of all entries. |
| Equity.TotalCashIn | src/app/riepilogo/page.tsx:157-161 | `totalCashIn` is the sum of the cash of all entries. |
| Equity.QuotaOfTotal | src/app/riepilogo/page.tsx:169 | When units exist, a share times the total units gives back the partner's units. Otherwise every share is 0. |
| Equity.RowOfEvents | src/app/riepilogo/page.tsx:166-172 | Each row names its partner and carries that partner's cash. Its quota is the partner's share of all units, or 0 while no units exist. Its capital is that share of the capital, and its gain is that capital less the cash. |
| Equity.TableShape | src/app/riepilogo/page.tsx:166-174 | The table has one row per partner, the same rows as the unsorted map, largest quota first. |
| Equity.TableSplitsCapital | src/app/riepilogo/page.tsx:141-174 | Suppose every event belongs to a partner listed once and units exist. Then the quotas add up to 1, the capital column adds up to the capital, and the gains add up to the overall profit `capital - totalCashIn`. |
| Equity.EquityOverview | src/app/riepilogo/page.tsx:139-175 | The equity part of the summary page: `totalUnits` and `totalCashIn` are the sums over all events, `overallProfit` is the capital less the cash paid in, and the table is built from `byPartner`. |
| Summary.BetProfitByDay | src/app/riepilogo/page.tsx:196-213 | The loop of `betProfitByDay` builds the map `BetProfitByDayOf`. It skips bets without legs or with an open leg and adds every other bet's profit to its match day. |
| Summary.BetProfitByDaySummed | src/app/riepilogo/page.tsx:196-213 | The map is the profit of the closed summaries added per match day. The bets the loop skips are exactly those without a closed summary. |
| Summary.BetProfitByDayGet | src/app/riepilogo/page.tsx:196-213 | There is one day per match day of a closed bet. Each day holds the summed profit of that day's closed bets, and the days together hold the profit of all closed bets. |
| Summary.ClosedOfSpec | src/app/riepilogo/page.tsx:199-203 | The closed summaries are those of the listed bets that have legs, all settled, and every such bet has one. |
| Summary.AdjByDay | src/app/riepilogo/page.tsx:216-224 | The loop of `adjByDay` builds the map `AdjByDayOf`. It skips baseline resets and adds every other adjustment to its local day. |
| Summary.AdjByDayGet | src/app/riepilogo/page.tsx:216-224 | There is one day per local day of a regular adjustment. Each day holds the sum of that day's regular adjustments, no baseline reset counts, and the days together hold all regular adjustments. |
| Monthly.DaySet | src/app/riepilogo/page.tsx:228-230 | The two loops that fill `daySet` build the set `DaySetOf`. |
| Monthly.AddKeysOk | src/app/riepilogo/page.tsx:229-230 | Adding a map's keys to a set gives the union, with each element once. |
| Monthly.DayListOk | src/app/riepilogo/page.tsx:228-232 | The day list holds exactly the days of either map, once each, strictly newest first. |
| Monthly.MonthMap | src/app/riepilogo/page.tsx:239-252 | The loop over the day list builds the map `MonthMapOf`. It follows the source step by step: create the month when missing, get it, add the three amounts and push the day row. |
| Monthly.AddDayOk | src/app/riepilogo/page.tsx:240-251 | A day not yet in the month map goes into its month. The map stays well formed, and its rows grow by exactly that day's row. |
| Monthly.MonthMapOk | src/app/riepilogo/page.tsx:239-252 | Over distinct days, the month map has one entry per month. Each entry holds only days of its month, once each, each showing `bet`, `adj` and `bet + adj` for its day. Its totals are the sums of its days, and all its rows are the rows of the input days. |
| Monthly.RowOfOk | src/app/riepilogo/page.tsx:255 | Sorting a month's days keeps its key, its days and its totals, and puts the days strictly newest first. |
| Monthly.MonthTotalSplits | src/app/riepilogo/page.tsx:248-250 | A month's total is its bet profit plus its adjustments. |
| Monthly.MonthlyPL | src/app/riepilogo/page.tsx:227-256 | `monthlyPL` builds the rows `MonthlyPLOf`: the month map's entries newest first, each with its days newest first. |
| Monthly.MonthlyPLOk | src/app/riepilogo/page.tsx:227-256 | Months are strictly newest first and days inside each month strictly newest first. Each month holds its days' bet profits, adjustments and totals as sums. All the day rows together are the rows of the day list. |
| Monthly.MonthlyPLDays | src/app/riepilogo/page.tsx:227-256 | A day row appears exactly when its day is a key of `betProfitByDay` or `adjByDay`. It shows that day's bet profit (0 when missing), its adjustments (0 when missing) and their sum. |
| Monthly.MonthlyPLDaysOnce | src/app/riepilogo/page.tsx:239-255 | No day appears twice in the table, in one month or across months. |
| Monthly.MonthlyPLTotals | src/app/riepilogo/page.tsx:248-250 | Every month's total is its bet profit plus its adjustments. |
| Monthly.SumOfLookups | src/app/riepilogo/page.tsx:240-241 | Looking up, once each, the days of a list that covers a map's keys adds up the whole map; a missing day counts 0. |
| Monthly.MonthlyPLColumns | src/app/riepilogo/page.tsx:227-256 | The monthly bet profits add up to all of `betProfitByDay`, and the monthly adjustments to all of `adjByDay`. |
| Monthly.MonthlyPLAddsUp | src/app/riepilogo/page.tsx:196-256 | On the summary page, the monthly bet profits add up to the profit of all closed bets, and the monthly adjustments to all regular (non-baseline) adjustments. |
| Tally.TallyByKey | src/app/page.tsx:300-307 | The shared loop shape of `methodsTotalsByPerson` and `byPartner` (zero entries for the listed keys, then two running sums per row) builds `Tallied(Zeroed(keys), rows)`. |
| Tally.TallyOk | src/app/riepilogo/page.tsx:140-147 | There is one entry per listed key and per key a row names. Each entry holds the two sums of that key's rows, and the entries together hold all rows. |
| Keyed.SummedGet | src/app/riepilogo/page.tsx:210 | A running sum per key (`map.set(k, (map.get(k) ?? 0) + x)`) holds, for a key, the sum of the amounts of that key's rows. The key is present exactly when some row has it. |
| Keyed.ListedGet | src/app/scommesse/page.tsx:317-321 | Pushing rows per key keeps, under each key, exactly that key's rows in their order. |
| OrderedMap.PutGet | src/app/scommesse/page.tsx:320 | After `m.set(k, v)`, `get` of `k` gives `v` and every other key is unchanged. |
| Sorting.SortBySorted | src/app/page.tsx:172 | `Array.sort` with a strict comparator gives a sorted permutation of its input. |
| Text.LaterIsStrictTotal | src/app/page.tsx:172 | The comparator `(a, b) => (a < b ? 1 : -1)` orders strings strictly newest first, ranking any two different strings. |

## Left out

- Database reads, inserts, updates and deletes, and the server procedures (`delete_transaction_and_revert`, `replace_bet_leg`, `delete_bet_and_revert_safe`, the capital query) are not modelled. They are opaque backend calls. `capital` is an input, and the outcome of the update in `setLegStatus` is the parameter `updateOk`.
- `loadAll`, `Promise.all`, the polling timers (src/app/page.tsx:287-291, src/app/riepilogo/page.tsx:131-136), React state and effects, `window.confirm`, scrolling and `requestAnimationFrame` are not modelled. They are scheduling and UI with nothing sequential to prove.
- `dateKeyLocal` and `toLocalDayISO` are the function parameters `dayOf` and `localDay`. They depend on the time zone of the browser.
- The instants of `getTime` and `toTs` are the function parameters `timeOf` and `tsOf`, for the same reason.
- Money is an exact `real`. IEEE rounding, `Number.isFinite` on sums and the `1e-9` epsilon of the colour helpers are not modelled.
- Parsing (`Number(...)`, `toNumber`) is not modelled. A parsed number is given as `Num`, finite with a value or not finite.
- String `<` is modelled as the order of Unicode code points, since a `char` here is a code point. JavaScript compares UTF-16 code units, and the two orders differ when a character above U+FFFF is compared with one between U+E000 and U+FFFF. The page only compares ISO dates, timestamps and ids this way, so the difference does not arise for them. `id.localeCompare` in the leg comparator is approximated by the same order, because locale collation is not available here.
- `toLowerCase` is modelled for ASCII letters only. `\s` and `trim` use the white-space and line-terminator characters of ECMAScript.
- Presentation is not modelled: `euro`, `monthLabel`, `signClass`, `balanceClass`, `pendingClass`, `SearchSelect` and its blur timer, and the option lists and labels built for the selects.
- `Array.sort`, the in-place `sort` of map buckets and the objects mutated through `Map.get` are modelled on values: a sorted copy replaces the bucket, and a changed month is written back with `Put`. Aliasing between the map and the arrays it holds is not modelled.
- `Balances.BuildTransaction`: the withdrawal branch's `if (!payload.status) payload.status = "pending"` is not modelled as a separate case. The status is always one of the typed values, so that branch never changes anything, and the model keeps the chosen status.
- `saveNewBet`'s insert payload, row refresh and form reset after a successful save are not modelled; only its checks are. The same holds for `saveEditBet` and `openEditBetModal`, whose only logic is writing the form to the database.
- `markWithdrawalArrived`, `deleteTransaction`, `deleteAdjustment` and `deleteBet` are single backend calls and are not modelled.
- The summary page repeats `legsByBet`, `isBaselineAdjustment`, `monthStartFromDay` and the profit formula of the bets page. Each is modelled once (`Legs.LegsByBet`, `Balances.IsBaselineAdjustment`, `Calendar.MonthKey`, `Legs.Summarize`). The summary page's narrower record types are the same datatypes.
- `Equity.TableSplitsCapital` needs every event to belong to a partner who is listed once, and units to exist. When an event names an unlisted partner, its units count in `totalUnits` but no row holds them, so the quotas add up to less than 1.
- `Monthly.MonthlyPLColumns` needs both maps to have one entry per key. Every map the page builds has that, as `Summary.BetProfitByDayGet` and `Summary.AdjByDayGet` state.
- The other files of the repository (authentication, layout, navigation, the UI-mode provider) are not part of this model.

## Findings

| source | as written | input that shows it | evidently intended | confidence | as-written member | corrected member |
|---|---|---|---|---|---|---|
| src/app/scommesse/page.tsx:397-403 | When a removal leaves one leg in surebet mode, `removeNewLeg` switches the mode to single. The `betMode` effect (lines 271-280) then replaces the legs with one blank leg, so the leg that was kept loses its account, stake and odds. | A surebet with two filled legs, removing the first: the page is left with one blank leg, not the second leg as typed. | The leg left after the removal keeps what was typed into it, and the mode becomes single. | medium, not executed | Bets.AfterRemoval, Bets.RemovalLosesTypedLeg | Bets.AfterRemovalKept, Bets.AfterRemovalKeptOk |
