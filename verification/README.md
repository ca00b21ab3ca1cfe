# Verification of the stock, billing and import core

A Dafny model of the parts of this multi-tenant inventory service where an error is expensive: the
stock ledger, the billing lifecycle, bulk product creation from an NF-e, and a few algorithms with
sharp specifications. `dafny verify dfyconfig.toml` checks everything.

## How the model is laid out

**Stock.** Stock is not stored. It is `balanceAfter` of the latest movement of a (product, store) pair,
computed from the previous movement while a hashed advisory lock is held. `Ledger` says when such a
cached sum is right at all. `Stock` gives every entry, exit, sale, transfer and NF-e confirmation as one
uninterrupted transaction, and `StockService` is the same in the source's own form: a class whose
methods run the loops and are proved equal to those functions. `StockEntries`, `StockExits` and `StockTraces` say
on the requested items what the operations leave in the tables. `Transactions` runs the operations
statement by statement: each open transaction sees committed rows and its own, waits for advisory locks and
for lot rows that another one has updated, and commits or rolls back at any point. The hash of the lock is an
arbitrary function. `TransactionSerial` proves that interleavings amount to running the committed operations
alone in commit order, as long as operations lock the lots they choose. What holds without that condition is
carried through every interleaving by invariants of the open transactions: the books of sales and transfers in
`TransactionBooks`, the units of lot numbers in `TransactionLots`, the solvency of a pair in
`TransactionSolvency`. `TransactionDeadlock` and `TransactionCrossing` say when transactions can block each
other, with the schedules built in `TransactionSchedule`. `StockChosenLots` and `TransactionForeignLots` say
what happens when a lot of another pair is chosen, in one operation and in several at once.

**Billing.** `PixCheckout` is the checkout saga, `Webhook` the event handler, `MonthlyCharge` the cron
and checkout attempts that race for one tenant, `TrialAccess` the access check under all of these. The
gateway is an abstract state. Every call to it can be refused, carried out without its answer arriving,
or answered, and every local transaction can commit, roll back, or commit without its caller hearing of it.
`PixCheckoutOutcomes` says what a checkout leaves in the rows, and `PixCheckoutRaces` opens it up to deliveries
between its steps.

**Imports and algorithms.** `NfeBulk` (with `NfeBulkOutcomes` for what becomes of each item and `NfeBulkRaces` for
two at once), `Csv`, `Fefo`, `AbcCurve`,
`RateLimit`, `Pagination`, `Balances`.

Every lemma switches automatic induction off, so each proof is the one that is written down.
Where the source changes things step by step the model is a class or a loop proved against a function,
and the laws are lemmas about that function. Modules whose name ends in `Laws` hold what is proved about the
module they are named after.

## What turned out false, and the exact conditions

- The cached balance is right for all quantities and all query answers if and only if the timestamps that
  get read strictly increase within the pair (`Ledger.CachedBalanceIff`). Every solvency theorem states this
  as `Chronological`.
- An exit or transfer from an explicitly chosen lot compares the request with the lot only. Out of the pair's
  own lot an exit keeps a solvent tenant solvent; out of any other lot it does if and only if the pair's own
  lots and the request together fit the stock (`StockChosenLots.ChosenLotSolventIff`). A transfer needs a
  perishable product besides (`ChosenLotMoveSolventIff`). The exit drives the balance negative exactly when the
  stock is smaller than the request (`ExplicitLotExact`, with `ForeignLotOversells` as the failing input).
- A transfer always conserves stock, but not always lot units: the transfer of one item does if and only if
  the chosen lot is one of the transferred product (`StockTransfers.ChosenLotConservesIff`), since another
  product's lot makes units appear (`ForeignLotMints`). The items of a list can cancel each other out, so for
  a list the drift is given exactly (`TransferLotDrift`).
- Serializability needs the chosen lots to be locked. With that it holds in every run
  (`TransactionSerial.CommitOrderIsSerial`). Without it any accepted operation that takes units of a lot whose
  pair it never locks commits together with an exit of that pair, although the lot holds less than both take
  and neither order accepts both (`TransactionForeignLots.ForeignLotRace`). Conservation of stock and of lot
  numbers does not need it (`TransactionBooks.CommittedTransferConserves`,
  `TransactionLots.CommittedTransferConservesLots`).
- Ascending product order alone does not prevent deadlock. With chosen lots locked nobody waits for a row, and
  no circle forms (`TransactionDeadlock.NoCircularWait`); with a foreign lot one can, although the hash tells
  all pairs apart (`TransactionForeignLots.ForeignLotDeadlock`).
- Operations in any order can deadlock. Before anything is committed they do if and only if each can come to a
  stop alone, at a lock or row of the next one and apart from the others
  (`TransactionCrossing.UncommittedDeadlockIff`, for every operation and every hash). In every run, a circle
  means that the lists of what they lock and draw cross (`DeadlockCrosses`), and confirmations can deadlock if
  and only if their lists cross (`ConfirmationsDeadlockIff`). A circle lasts until one of its members is rolled
  back (`WaitingLasts`).
- The batched balance of a product agrees with the single one on every answer the database may give if and
  only if the most recent rows of each of its pairs agree (`Balances.BatchedAgreesIff`).
- A Pix checkout leaves an orphan subscription at the gateway in exactly the cases of
  `PixCheckoutLaws.OrphanIff`. One is a creation that the gateway carried out without its answer arriving,
  which no cancellation can repair because its id is unknown; another is a second checkout of a tenant that
  is not waiting for payment.
- The failure of a replaced bill is a no-op if and only if that bill was not paid, and a late
  subscription_canceled changes the tenant if and only if the row still stores the cancelled id and is not
  canceled yet (`PixCheckoutLaws.CheckoutsStayTidy`). A retry whose new subscription is refused keeps the
  cancelled id, so the event that the retry itself caused gives a blocked tenant that never paid its access
  back (`FailedRetryUnblocks`).
- A payment delivered while a checkout asks the gateway is lost if and only if the checkout then saves an unpaid
  subscription: the row gets the status computed from what was read at the start
  (`PixCheckoutRaces.PaymentLostIff`, with `PaidInsideBlocked` as the failing input).
- Payment is not the only way out of a block: a delivery ends it in exactly three cases, a fresh payment, a
  first failure and a cancellation (`TrialAccess.UnblockedIff`), and over any run a blocked tenant stays
  blocked if and only if none of them happens (`BlockedUntilOpened`). If one happens between the read and the
  write of an access check, the check undoes it if and only if it had read an expired trial (`CheckRaceIff`).
- `paid` is not final: a payment stands exactly when no failure of the same charge is delivered after it
  (`WebhookLaws.PaymentStandsIff`).
- A later import finds the product of an item without barcode if and only if a product already answered its
  code or the SKU was free; otherwise the product is created without SKU, again at each import
  (`NfeBulkLaws.LaterImportReusesSkuIff`).
- Two bulk creations that plan before either commits keep live barcodes unique if and only if no barcode is new
  in both, and both count against the plan as if the other were not there (`NfeBulkRaces.BulkRaceIff`).
- A fixed window is looser than a sliding one: up to 2 * limit - 1 calls pass in some window length
  (`RateLimit.SlidingWindowAttained`), and never more (`RateLimit.SlidingWindowBound`).

## Model

| member | source | states |
|---|---|---|
| Ledger.CachedBalanceIff | services/app/src/modules/stock/balance.ts:19-54 | the cached running sum is right for every choice of quantities and every row the query may call most recent, if and only if the timestamps that get read strictly increase |
| Ledger.BalanceIsUnits | services/app/src/modules/stock/balance.ts:25-47 | with increasing timestamps and correct running sums, the latest balanceAfter is the sum of all movements |
| Ledger.AppendKeepsSums | services/app/src/modules/stock/balance.ts:49-54 | a row written as previous balance plus delta keeps every running sum right |
| Fefo.SuggestFefoBatches | services/app/src/modules/stock/fefo.ts:34-54 | the loop computes the greedy suggestion over the positive lots sorted by expiry, and throws exactly on a request that is not positive |
| Fefo.SuggestionExact | services/app/src/modules/stock/fefo.ts:34-54 | by every cutoff date the suggestion takes min(requested, available by then); the total is min(requested, available); fullyCovered if and only if the lots suffice |
| Fefo.FefoDominates | services/app/src/modules/stock/fefo.ts:25-54 | no allocation of the same total takes more units from the lots expiring by any cutoff |
| Fefo.SuggestionExecutable | services/app/src/modules/stock/fefo.ts:34-54 | suggestion lines name distinct lots and each takes between one unit and what its lot holds |
| StockInvariants.ResolvedLinesTotal | services/app/src/modules/stock/resolve-batches.ts:21-64 | an accepted exit splits into lines that add up to exactly the requested quantity |
| StockInvariants.ResolvedLinesBacked | services/app/src/modules/stock/resolve-batches.ts:21-64 | no accepted exit draws on what is not there: a chosen lot, whosever it is, holds the request; without one the lines take from distinct lots of the pair within their contents, or an unlotted line from the stock |
| StockExits.ItemAcceptedIff | services/app/src/modules/stock/resolve-batches.ts:21-64 | an item is refused for an unknown product, and otherwise if and only if the chosen lot, the stock of a non-perishable product, or the lots of the pair together hold less than it asks |
| StockExits.FlagsTell | services/app/src/modules/stock/resolve-batches.ts:29-63 | every line of an accepted exit is marked as overridden if and only if a lot was chosen, and as applied if and only if none was and the product is perishable |
| StockExits.EarliestFirst | services/app/src/modules/stock/resolve-batches.ts:45-63 | an accepted exit, sale or transfer without a chosen lot leaves the lots of the pair such that by every date it has taken as much as it could from those that expire until then |
| StockExits.SaleItemsGrouped | services/app/src/modules/sales/sales.ts:74-112 | the stored items of a sale are, for each requested item in order, one group with its product and price that adds up to its quantity: the chosen lot alone, no lot, or different lots of the pair |
| StockExits.TransferItemsGrouped | services/app/src/modules/stock/transfers.ts:85-156 | the same of the stored items of a transfer |
| StockTraces.LotsTraced | services/app/src/modules/stock/transfers.ts:87-144 | no accepted operation, whatever lots it chose, moves units in or out of a lot without movements that name the lot and say how many; from empty tables on each lot holds what the movements that name it add up to |
| StockTraces.LabelsStay | services/app/src/modules/stock/transfers.ts:106-128 | exits, sales and transfers keep the number and expiry of every lot, and a lot that a transfer opens has those of a lot there was |
| StockTraces.RowsExplained | services/app/src/modules/stock/exits.ts:35-65 | operations only add movements, and each has the pair, kind, sign and lot of one of the items |
| StockTraces.SaleMovements | services/app/src/modules/sales/sales.ts:74-100 | every movement of a sale is a sale exit of its store that takes from one of the requested items |
| StockTraces.TransferMovements | services/app/src/modules/stock/transfers.ts:87-156 | every movement of a transfer leaves the origin as an outgoing or reaches the destination as an incoming one |
| StockInvariants.DoJobsKeepsLedger | services/app/src/modules/stock/balance.ts:49-54 | no list of items, whatever they ask for, breaks a pair's running sums |
| StockInvariants.DoJobsKeepsSolvent | services/app/src/modules/stock/resolve-batches.ts:29-63 | operations that use a pair's own lots and lot-track only perishable products keep every lot and balance non-negative and the lots within the stock |
| StockBooks.OperationBooksExactly | services/app/src/modules/stock/exits.ts:35-65 | an accepted operation changes each pair's stock by exactly what its items asked for, over however many lots it was split |
| StockBooks.SaleAddsUp | services/app/src/modules/sales/sales.ts:55-113 | the stored total is the sum over the persisted sale items of quantity times price, and per product the items, the request and the units debited agree |
| StockTransfers.TransferConserves | services/app/src/modules/stock/transfers.ts:34-156 | whatever lots were chosen, over every list of distinct stores with both ends in it each product's stock is unchanged, the requested units went from origin to destination, and no other store changed |
| StockTransfers.TransferLotDrift | services/app/src/modules/stock/transfers.ts:104-128 | the exact change of a lot number's units over the stores, whatever lots were chosen: each chosen lot of that number credits the transferred product and debits the product it is of |
| StockTransfers.TransferConservesLots | services/app/src/modules/stock/transfers.ts:104-128 | when every chosen lot is one of the transferred product, in whatever listed store, the units of every lot number are conserved |
| StockTransfers.ChosenLotConservesIff | services/app/src/modules/stock/transfers.ts:104-128 | a transfer of one item out of a chosen lot conserves every lot number of every product if and only if that lot is one of the transferred product; otherwise the requested units appear under that product |
| StockTransfers.ForeignLotMints | services/app/src/modules/stock/transfers.ts:104-128 | every other product's lot that holds enough is accepted and breaks that conservation |
| StockService.TenantStock.CreateManualEntry | services/app/src/modules/stock/entries.ts:21-72 | the entry always succeeds, does what the credit operation does and returns the previous stock plus the quantity; the pair has one more movement, and one more lot with that number, expiry and quantity if one was given, and every other pair is unchanged |
| StockService.TenantStock.CreateStockExit | services/app/src/modules/stock/exits.ts:22-79 | a loss without reason or an uncovered exit changes nothing; otherwise the tables become those of the debit operation and the balance of the last movement written is returned |
| StockService.ResolveSaleDate | services/app/src/modules/sales/sales.ts:29-38 | no date or today gives the current time, a past day noon of exactly that day, a later one or text that sorts after today is refused as future, any other text as invalid |
| StockService.TenantStock.CreateSale | services/app/src/modules/sales/sales.ts:28-126 | an empty sale and a future or invalid date are refused; all or nothing over the items; the sale is stored with its resolved date and the total of the request, and every stored sale's total equals its items' |
| StockService.TenantStock.CreateTransfer | services/app/src/modules/stock/transfers.ts:26-156 | equal stores, an empty list or any failing item leave everything unchanged; otherwise the tables are those of the move operations in order |
| StockService.TenantStock.MoveOne | services/app/src/modules/stock/transfers.ts:85-154 | one line: debit the origin, take from its lot, credit or create the lot with the same number in the destination, credit the destination |
| StockService.TenantStock.ConfirmItems | services/app/src/modules/stock/nfe-import.ts:257-310 | the confirmation loop credits each item whose product exists, in order, with a lot only for perishable products; every pair of the store has entered exactly its items and every other pair is unchanged |
| StockEntries.ConfirmationExact | services/app/src/modules/stock/nfe-import.ts:257-310 | for every tables, catalog, store and list of items the confirmation succeeds; each pair of the store gets one movement per item of its existing product, its stock grows by the sum of their quantities, each perishable item with an override brings one lot with that number, expiry and quantity, named by its movement, no other lot is added or changed, and every other pair stays as it was |
| TransactionLocks.ScriptCoveredIff | services/app/src/modules/stock/balance.ts:15-17 | every statement of an operation reads and inserts movements only of pairs locked before it, and reads and updates lots only of such pairs if and only if every chosen lot is of a pair locked by then |
| TransactionLocks.RunRowsApart | services/app/src/modules/stock/transfers.ts:106-113 | in every run no lot row has uncommitted updates of two open transactions |
| TransactionLocks.HeldOnce | libs/shared/src/db/client.ts:53-63 | in every run and for every hash, two open transactions never hold the same pair, nor two pairs with the same hash |
| TransactionLedger.NoLostUpdate | services/app/src/modules/stock/balance.ts:15-54 | in every interleaving and for every hash, each committed movement carries the sum of the quantities up to and including it, and only the lock holder has uncommitted rows for a pair |
| TransactionSerial.ScriptOutcome | services/app/src/modules/stock/transfers.ts:62-156 | the statements of an operation, run without interruption, amount to the operation |
| TransactionSerial.CommitOrderIsSerial | libs/shared/src/db/client.ts:43-63 | in every run whose operations lock the pairs of the lots they choose, each committed operation, run alone on the tables left by those committed before it, succeeds and produces exactly what was committed; rolled-back ones leave no trace |
| TransactionSolvency.AlwaysSolvent | services/app/src/modules/stock/resolve-batches.ts:29-63 | over all interleavings, from any tables on which the pair is solvent: if the items that use the pair or choose one of its lots respect the discipline, no balance or lot of the pair is negative and its lots hold at most its stock, whatever other items do |
| TransactionBooks.CommittedBooksExactly | services/app/src/modules/stock/balance.ts:15-54 | every committed operation, whatever ran beside it and whatever lots anyone chose, changed each pair's stock by exactly what its items asked for and persisted items of exactly that value and those units |
| TransactionBooks.CommittedSaleAddsUp | services/app/src/modules/sales/sales.ts:55-113 | every committed sale adds up, in every run and for every lot that anyone chose |
| TransactionBooks.CommittedTransferConserves | services/app/src/modules/stock/transfers.ts:71-144 | every committed transfer conserves each product's stock and moves exactly the request, in every run and for every lot that anyone chose |
| TransactionLots.CommittedTransferConservesLots | services/app/src/modules/stock/transfers.ts:104-128 | a committed transfer out of lots of the transferred product, in whatever listed store, conserves every lot number, in every run and whatever lots the other operations chose |
| TransactionForeignLots.ForeignLotRace | services/app/src/modules/stock/resolve-batches.ts:29-35 | any accepted operation that takes units of a lot whose pair it never locks can commit together with an exit of that pair although in neither order both are accepted, which leaves the lot below zero |
| TransactionForeignLots.ForeignLotDeadlock | services/app/src/modules/sales/sales.ts:78-100 | a sale out of a lot of a later product that it then sells too, and an exit of that product out of that lot, can wait for each other, although all items ascend and the hash tells the pairs apart |
| StockChosenLots.ChosenLotSolventIff | services/app/src/modules/stock/resolve-batches.ts:29-35 | an exit out of a chosen lot that holds enough is accepted, and a solvent tenant stays solvent if and only if the lot is the pair's own or the pair's lots and the request together fit its stock |
| StockChosenLots.ChosenLotMoveSolventIff | services/app/src/modules/stock/transfers.ts:83-128 | a transfer out of a chosen lot that holds enough is accepted, and a solvent tenant stays solvent if and only if the product is perishable and the lot is the origin's own or the origin's lots and the request together fit its stock |
| StockChosenLots.ExplicitLotExact | services/app/src/modules/stock/resolve-batches.ts:29-35 | an exit from an explicit lot that holds enough is accepted, and its balance is negative if and only if the pair's stock is smaller than the request |
| StockChosenLots.ForeignLotOversells | services/app/src/modules/stock/resolve-batches.ts:29-35 | a solvent tenant and an accepted exit from another product's lot that leaves it insolvent |
| StockChosenLots.UnlottedExitExact | services/app/src/modules/stock/resolve-batches.ts:37-43 | an exit of a non-perishable product leaves its lots alone, so they still fit the new balance if and only if they fitted what was to remain |
| TransactionDeadlock.LockedLotsNoRowWaits | services/app/src/modules/stock/transfers.ts:106-113 | in every run whose operations lock the pairs of the lots they choose, nobody waits for a lot row |
| TransactionDeadlock.NoCircularWait | services/app/src/modules/stock/transfers.ts:71-78 | with items in ascending product order, chosen lots locked and a hash that tells the locked pairs apart, no transactions of any run wait in a circle, for locks or for rows |
| TransactionDeadlock.DeadlockFree | services/app/src/modules/stock/transfers.ts:71-78 | under the same assumptions some open transaction can always take its next step |
| TransactionCrossing.DeadlockCrosses | services/app/src/modules/stock/balance.ts:15-17 | in every run, operations of any kind, whatever lots they chose, that wait in a circle cross: disjoint prefixes of the pairs they lock and the unlocked lots they draw from, each followed by an entry of the next one's prefix |
| TransactionCrossing.StandDeadlocks | services/app/src/modules/stock/balance.ts:15-17 | operations that can each come to a stop alone, compatible with each other and each stopped by what the next one holds, do wait in a circle in some run |
| TransactionCrossing.UncommittedDeadlockIff | services/app/src/modules/stock/balance.ts:15-17 | for every hash, operations of any kind can come to wait in a circle before anything is committed if and only if they can come to such a stop |
| TransactionCrossing.ConfirmationsDeadlockIff | services/app/src/modules/stock/nfe-import.ts:257-262 | any number of confirmations, on any tables, can come to wait in a circle if and only if their lists of pairs cross |
| TransactionCrossing.TwoConfirmationsDeadlockIff | services/app/src/modules/stock/nfe-import.ts:257-262 | two confirmations can deadlock if and only if there are disjoint prefixes of their lists of which each is followed by a pair of the other |
| TransactionCrossing.OppositeOrdersDeadlock | services/app/src/modules/stock/nfe-import.ts:257-262 | two confirmations of the same two products in opposite orders can deadlock, whatever hash tells the pairs apart |
| TransactionCrossing.WaitingLasts | libs/shared/src/db/client.ts:53-63 | transactions that wait in a circle keep waiting through every continuation in which none of them is rolled back |
| Balances.CurrentStockForProducts | services/app/src/modules/stock/balance.ts:64-90 | the loop that fills the map gives, for each id with default 0, the sum of the balances of its rows |
| Balances.BatchedAgreesIff | services/app/src/modules/stock/balance.ts:25-90 | looking an id up in the batched answer gives what the single query gives, with or without a store and whichever rows the database picks, if and only if the most recent rows of each pair of the product agree |
| Balances.BalanceIsAllMovements | services/app/src/modules/stock/balance.ts:25-47 | the balance of a product, in one store or over all of them, is the sum of the quantities of all its movements there |
| Pagination.PageAfter | services/app/src/modules/stock/queries.ts:25-45 | the page after n rows is the next limit rows even if newer rows arrived, has_more says whether more remain, and the cursor is the last row shown |
| Pagination.FollowingCursorsIsComplete | services/app/src/modules/stock/queries.ts:25-45 | following next_cursor terminates, and has_more is false if and only if every row present at the start has been yielded exactly once, newest first |
| RateLimit.RedisStore.Increment | services/app/src/lib/rate-limit.ts:22-35 | counts the call, starts a new count after expiry, and sets the deadline only when the key is new |
| RateLimit.RedisStore.CheckRateLimit | services/app/src/lib/rate-limit.ts:85-95 | a call passes if and only if its count is within the limit, or the store fails |
| RateLimit.PassesPerLifetime | services/app/src/lib/rate-limit.ts:22-35 | at most limit calls pass in one lifetime of the key, namely its first ones |
| RateLimit.SlidingWindowBound | services/app/src/lib/rate-limit.ts:85-95 | for all arrivals in order, at most 2 * limit - 1 calls pass in any half-open interval of one window length |
| RateLimit.SlidingWindowAttained | services/app/src/lib/rate-limit.ts:85-95 | for every limit and window of at least one there are arrivals in order that reach that bound |
| AbcCurve.Aggregate | services/app/src/modules/sales/dashboard.ts:83-87 | exactly one entry for every product that was sold and none for any other, with its value summed over all its items |
| AbcCurve.GetAbcCurve | services/app/src/modules/sales/dashboard.ts:67-106 | the loops give every product its place in the descending order, its running total and the class of the value before it |
| AbcCurve.CurveCoversAll | services/app/src/modules/sales/dashboard.ts:83-106 | what the curve accumulates in the end is the revenue, or the number of units, of everything sold |
| AbcCurve.NothingOfValue | services/app/src/modules/sales/dashboard.ts:92-104 | for a total of zero every product is of class A |
| AbcCurve.ClassesOptimal | services/app/src/modules/sales/dashboard.ts:92-104 | for a positive total, class A is a smallest set of products reaching 80% of the value among all subsets, A with B a smallest reaching 95%, and classes run A, B, C |
| Csv.ParseCsvLine | services/app/src/modules/catalog/csv-parser.ts:24-52 | the character loop computes the recursive scan of quotes, doubled quotes and commas, trimmed |
| Csv.ParseProductsCsv | services/app/src/modules/catalog/csv-parser.ts:54-102 | the row loop computes the parse function, including the empty file, missing columns and per-line errors |
| Csv.FieldsOfJoined | services/app/src/modules/catalog/csv-parser.ts:24-52 | a line written with quoted, quote-doubled or bare fields scans back to its fields |
| Csv.PrintThenParse | services/app/src/modules/catalog/csv-parser.ts:54-102 | for every header of different clean names that contains the two mandatory ones, in any order and with any others, every list of printable rows, both quoting styles and both line endings: parsing what was printed gives the rows in order, with None for every column the header lacks, and no error |
| Csv.FullHeaderKeepsAll | services/app/src/modules/catalog/csv-parser.ts:76-96 | a header with all ten columns, in whatever order and among any others, loses nothing of any row |
| Csv.ParseNormalizes | services/app/src/modules/catalog/csv-parser.ts:54-102 | for every text at all, the rows read are printable, and survive printing under any such header and parsing again |
| Csv.RejectedLines | services/app/src/modules/catalog/csv-parser.ts:71-83 | with a header that names both mandatory columns, in whatever order and however often, a line is reported, under its own number, if and only if its value under the last of one of them is empty |
| Csv.NumberOfPrefix | services/app/src/modules/catalog/csv-parser.ts:94-96 | a number field counts as its sign and the digits it starts with, whatever follows, and as 0 without digits |
| Csv.TrueInAnyCase | services/app/src/modules/catalog/csv-parser.ts:93-93 | a perishable field is true if and only if it spells the word in any mix of cases, false otherwise, and absent if empty |
| Csv.EveryLineAnswered | services/app/src/modules/catalog/csv-parser.ts:71-99 | every non-empty line after a usable header becomes exactly one row or one error |
| NfeBulk.TenantCatalog.LinkNfeImportItemToProduct | services/app/src/modules/stock/nfe-import.ts:22-47 | links an unmatched item of an import in review to a live product; each refusal changes nothing |
| NfeBulk.TenantCatalog.BulkCreateProductsFromNfeImport | services/app/src/modules/stock/nfe-import.ts:58-144 | plan, create and link passes compute the bulk function; every error leaves products and imports as they were |
| NfeBulkLaws.BulkLeavesNoneUnmatched | services/app/src/modules/stock/nfe-import.ts:131-141 | on success no item is unmatched, earlier links are kept, and the confirmation checks pass |
| NfeBulkLaws.EqualKeysShareProduct | services/app/src/modules/stock/nfe-import.ts:81-96 | two open items end on the same product if and only if their keys are equal |
| NfeBulkOutcomes.ItemOutcome | services/app/src/modules/stock/nfe-import.ts:74-141 | each open item ends on the first live product with its barcode, or without one with its code as SKU and no barcode, left unchanged; if there is none, on a new product with the barcode, name, cost and supplier of the first open item of the same goods |
| NfeBulkOutcomes.SameProductIff | services/app/src/modules/stock/nfe-import.ts:79-96 | two open items end on the same product if and only if they have the same barcode, or neither has one and their trimmed codes are the same and not empty, or they are one item |
| NfeBulkOutcomes.CreatedPerGoods | services/app/src/modules/stock/nfe-import.ts:74-128 | refused if and only if not in review or the goods that no product knows do not fit the plan beside the live products; otherwise exactly one product is created for each |
| NfeBulkLaws.LinkedByBarcode | services/app/src/modules/stock/nfe-import.ts:88-141 | an item with a barcode ends on a live product with that barcode, found or created |
| NfeBulkLaws.LaterImportReuses | services/app/src/modules/stock/nfe-import.ts:85-93 | a later import with the same barcode finds that very product |
| NfeBulkLaws.LaterImportReusesSkuIff | services/app/src/modules/stock/nfe-import.ts:87-112 | for an item without barcode a later import finds that product if and only if a product already answered its code, or the SKU was held by no product and claimed by no earlier item |
| NfeBulkLaws.BulkKeepsUnique | services/app/src/modules/stock/nfe-import.ts:108-128 | unique live barcodes and unique SKUs stay unique |
| NfeBulkLaws.BulkGrowth | services/app/src/modules/stock/nfe-import.ts:98-128 | refused if and only if not in review or the distinct unseen keys exceed the plan; otherwise the catalog grows by exactly those keys and old products are untouched |
| NfeBulkRaces.BulkRaceIff | services/app/src/modules/stock/nfe-import.ts:58-144 | two creations that plan before either commits keep SKUs unique, keep live barcodes unique if and only if no barcode is new in both imports, and add the new keys of both to the live products |
| NfeBulkLaws.BulkAgain | services/app/src/modules/stock/nfe-import.ts:76-76 | a second call creates and links nothing |
| NfeBulkLaws.LinkThenBulk | services/app/src/modules/stock/nfe-import.ts:22-144 | a link made by hand never makes the bulk creation fail and survives it |
| PixCheckout.Checkouts.CreateRecurringPixSubscription | services/app/src/modules/billing/subscriptions.ts:221-312 | the saga over rows and gateway computes the checkout function for every combination of failures |
| PixCheckout.Vindi.WaitForPixQrCode | libs/shared/src/payments/providers/vindi.ts:109-124 | up to five polls, a failed poll skipped, the first link kept, stopping at the first QR code |
| PixCheckout.Vindi.CreateRecurringPixCharge | libs/shared/src/payments/providers/vindi.ts:90-133 | an unusable first charge cancels the new subscription and throws; otherwise the charge has a QR code or a link and is not failed |
| PixCheckoutLaws.OrphanIff | services/app/src/modules/billing/subscriptions.ts:221-312 | from no orphans, a checkout leaves a live subscription the row does not know if and only if one of the listed failures happens or the row was not waiting for payment over a live one |
| PixCheckoutLaws.CheckoutsStayTidy | services/app/src/modules/billing/subscriptions.ts:243-262 | over every run of checkouts that start waiting for payment or settled, with any deliveries between them except new bills of the stored subscription, only the stored subscription is live, at most one invoice is open, the failure of a replaced bill changes something if and only if it was paid, and subscription_canceled if and only if the row still stores that id and is not canceled |
| PixCheckoutLaws.FailedRetryUnblocks | services/app/src/modules/billing/subscriptions.ts:243-271 | a retry that cancels the stored subscription and saves no new one leaves a blocked tenant on which late failures do nothing, but whose late subscription_canceled ends the block |
| PixCheckoutLaws.LateCancelIgnored | services/app/src/modules/billing/webhook.ts:202-220 | delivering charge.failed for a replaced bill that was not paid leaves invoices, status and audit log as they are |
| PixCheckoutOutcomes.RowAfter | services/app/src/modules/billing/subscriptions.ts:277-288 | a checkout that saves a subscription with a paid first bill leaves the tenant active; with an unpaid one, whatever the status was, blocked and waiting for payment if and only if it was not on a running trial, which it otherwise keeps; the end of the trial is never touched, and a checkout that saves nothing leaves the row alone |
| PixCheckoutOutcomes.InvoicesKept | services/app/src/modules/billing/subscriptions.ts:243-247 | a retry that cannot show a code fails the invoices still to be paid, and no other invoice changes |
| PixCheckoutOutcomes.InvoiceAdded | services/app/src/modules/billing/subscriptions.ts:291-304 | the saved invoice has the bill's id, its amount or else the price of the plan, and the code and link that came with the bill or with its polls |
| PixCheckoutOutcomes.AnswerIff | services/app/src/modules/billing/subscriptions.ts:221-312 | the checkout succeeds if and only if it shows an open code or saves and hears its commit, and each way in which it throws has its exact condition |
| PixCheckoutOutcomes.PolledExact | libs/shared/src/payments/providers/vindi.ts:109-124 | polling gives the first code that comes in five polls, and the link of the charge or the first one that comes until then |
| PixCheckoutRaces.BesideNothing | services/app/src/modules/billing/subscriptions.ts:221-312 | the checkout opened to deliveries between its local transactions is the checkout itself when none arrives |
| PixCheckoutRaces.OrphanIffBeside | services/app/src/modules/billing/subscriptions.ts:221-312 | whatever is delivered inside a checkout, it leaves an orphan subscription in the same cases |
| PixCheckoutRaces.PaymentLostIff | services/app/src/modules/billing/subscriptions.ts:275-285 | a tenant made active by a delivery inside the checkout is active after it if and only if the checkout saves no unpaid subscription; otherwise its status comes from the row read at the start, and the invoices it had are kept as they were |
| PixCheckoutRaces.PaidInsideBlocked | services/app/src/modules/billing/subscriptions.ts:243-285 | a bill of the replaced subscription that is paid inside the retry ends paid and leaves the tenant blocked |
| Webhook.Handler.ProcessVerifiedWebhook | services/app/src/modules/billing/webhook.ts:68-226 | the guarded updates compute the delivery function; a delivery that throws changes nothing |
| WebhookLaws.DeliverTwice | services/app/src/modules/billing/webhook.ts:92-102 | delivering any event twice in a row equals delivering it once |
| WebhookLaws.OnePaymentApplies | services/app/src/modules/billing/webhook.ts:171-187 | in every run where an invoice's payments carry one id of their own, the first delivery pays the invoice, activates the subscription and writes audit, and every other one changes nothing, however other events interleave |
| WebhookLaws.FinalStatus | services/app/src/modules/billing/webhook.ts:171-220 | the invoice's status after any run: failed if a failure follows the first payment, else paid if there was one |
| WebhookLaws.PaymentStandsIff | services/app/src/modules/billing/webhook.ts:171-220 | a received payment stands if and only if no failure of its charge is delivered after it |
| WebhookLaws.FailureApplies | services/app/src/modules/billing/webhook.ts:202-220 | a failure leaves its invoice failed, its subscription past due and one audit entry, and nothing else changed; on a failed invoice it does nothing |
| WebhookLaws.CancellationApplies | services/app/src/modules/billing/webhook.ts:222-234 | a cancellation leaves its subscription canceled and one audit entry, and nothing else changed; on a canceled one it does nothing |
| WebhookLaws.NewBillApplies | services/app/src/modules/billing/webhook.ts:125-152 | an unknown bill becomes a pending invoice with the bill's own amount or that of the plan and one audit entry; it is refused without either amount or when its event id is taken |
| WebhookLaws.KnownBillApplies | services/app/src/modules/billing/webhook.ts:106-124 | a known bill fills the missing code and corrects the amount of its invoice, and nothing else changes |
| WebhookLaws.LateQrApplies | services/app/src/modules/billing/webhook.ts:157-168 | a late code replaces that of an open invoice, with the link if there is one, and does nothing on an invoice that is not open |
| WebhookLaws.RefusedIff | services/app/src/modules/billing/webhook.ts:84-147 | the exact conditions under which a delivery is refused |
| WebhookLaws.FinalSubscription | services/app/src/modules/billing/webhook.ts:171-234 | after any run the subscription is active, past due or canceled as the last payment, failure or cancellation said that applied to it, or has its first status; nothing else about it ever changes |
| MonthlyCharge.Biller.GenerateChargeForTenant | services/app/src/modules/billing/monthly-charge.ts:63-159 | every early return, throw and rollback, and the invoice and period of a generated charge; true if and only if the setting, the status, the trial, the period, the data, the answer and the commit all allow it |
| MonthlyCharge.Biller.GenerateMonthlyCharges | services/app/src/modules/billing/monthly-charge.ts:9-37 | each tenant gets the outcome of its own attempt whatever failed before it, and the three counters count those outcomes |
| MonthlyChargeLaws.RaceIsExclusive | services/app/src/modules/billing/monthly-charge.ts:64-70 | two attempts are never past the tenant's lock together, and one past the due check is still due |
| MonthlyChargeLaws.PeriodsNeverOverlap | services/app/src/modules/billing/monthly-charge.ts:81-156 | in every race with rollbacks at any point, generated periods follow one another |
| MonthlyChargeLaws.OneInvoicePerCycle | services/app/src/modules/billing/monthly-charge.ts:124-156 | different invoices have different keys and charges, the row holds the last one's period, and no cycle is billed before the previous one ended |
| MonthlyChargeLaws.OneChargePerCycle | services/app/src/modules/billing/monthly-charge.ts:124-147 | a gateway that honours keys holds exactly one charge per invoice, plus at most one for the cycle still open |
| MonthlyChargeLaws.RetryReusesCharge | services/app/src/modules/billing/monthly-charge.ts:124-137 | a retry of an open cycle reuses its key and gets the charge an attempt that rolled back left at the gateway |
| MonthlyChargeLaws.AloneIsGenerate | services/app/src/modules/billing/monthly-charge.ts:63-159 | an attempt nobody interrupts does to rows and gateway what the whole-attempt function says |
| MonthlyChargeLaws.ChargedIff | services/app/src/modules/billing/monthly-charge.ts:72-156 | column by column, when an attempt alone orders a charge, when it writes one invoice for the month from then on, and when it answers true |
| MonthlyChargeLaws.ProtectedNotCharged | services/app/src/modules/billing/monthly-charge.ts:78-81 | in every race, while the tenant is past due, canceled or on a running trial, and nobody was past the check before, nothing is ordered and nothing written |
| MonthlyChargeLaws.TrialNotCharged | services/app/src/modules/billing/monthly-charge.ts:80-81 | in every race a tenant that stays on trial has no invoice and no charge before the trial ends |
| MonthlyChargeLaws.InactiveNotCharged | services/app/src/modules/billing/monthly-charge.ts:78-79 | in every race a tenant that stays past due or canceled has neither |
| MonthlyChargeLaws.PeriodsAreMonths | services/app/src/modules/billing/monthly-charge.ts:153-159 | in every race each invoice covers the month from its start, and so does the period of the row |
| MonthlyChargeLaws.SameKeyIff | services/app/src/modules/billing/monthly-charge.ts:126-126 | two period ends give the same idempotency key if and only if they fall on the same day |
| TrialAccess.Access.IsSubscriptionBlocked | services/app/src/modules/auth/rbac.ts:37-48 | answers whether the row is blocked, rewrites an expired trial, and answers the same again |
| TrialAccess.TrialAccessExact | services/app/src/modules/auth/rbac.ts:26-48 | under any interleaving of checkouts with stale snapshots, cron runs, plan changes, new bills, late QR codes and checks, a tenant on trial is blocked if and only if trialEndsAt has been reached |
| TrialAccess.UnblockedIff | services/app/src/modules/billing/webhook.ts:171-234 | a delivery ends a subscription's block if and only if it is a payment with a fresh id for one of its invoices, a failure of one of its invoices not failed yet, or its own cancellation |
| TrialAccess.BlockedUntilOpened | services/app/src/modules/billing/webhook.ts:171-234 | over any run of deliveries a blocked subscription is still blocked if and only if none of them opened access |
| TrialAccess.CheckRaceIff | services/app/src/modules/auth/rbac.ts:37-48 | when deliveries open access between the read and the write of a check, the tenant is blocked again if and only if the row read was an expired trial |

## Left out

- Ledger.CachedBalanceIff: movements created in the same millisecond of one pair have no order of their own; the stock theorems assume strictly increasing timestamps per pair, which the clock of the database client does not enforce.
- TransactionLedger.NoLostUpdate: the timestamps of a transaction are an arbitrary function of its insertions; that they follow the order of the rows is a hypothesis on the resulting table, not on the clock.
- TransactionSerial.CommitOrderIsSerial: an operation is assumed to lock the pair of every lot it chooses, because the code takes no lock for a foreign lot; ForeignLotRace shows for every operation that does not that the statement is false.
- TransactionSolvency.AlwaysSolvent: assumes of the items that touch the pair that only perishable products are lot-tracked and that explicit lots belong to their pair; ChosenLotSolventIff, ChosenLotMoveSolventIff and UnlottedExitExact say exactly what happens otherwise.
- TransactionDeadlock.DeadlockFree: assumes items in ascending product order, which nothing enforces and OppositeOrdersDeadlock shows to be needed, locked lots, which ForeignLotDeadlock shows to be needed, and a hash without a collision among the pairs that the run locks, since a collision could order two locks differently; the last also in DeadlockCrosses and ConfirmationsDeadlockIff, but not in UncommittedDeadlockIff.
- TransactionCrossing.UncommittedDeadlockIff: is exact until the first commit; afterwards operations may fail or stop where they would not have before, and DeadlockCrosses and, for confirmations, ConfirmationsDeadlockIff hold in every run.
- Row locks are those of lot updates; inserts and the key checks of foreign keys do not conflict with them and are not modelled, and the order in which the database grants waiting requests is left open.
- MonthlyChargeLaws.OneInvoicePerCycle: adding a month is assumed to advance by at least one whole day; calendar, time zone and daylight saving are not modelled.
- MonthlyChargeLaws.OneChargePerCycle: the gateway is assumed to honour idempotency keys for ever.
- PixCheckoutLaws.CheckoutsStayTidy: assumes that cancellations are not refused and creations not lost, with OrphanIff for what happens otherwise; checkouts run one after another, and deliveries come between them, with PixCheckoutRaces for deliveries inside; concurrent checkouts, the bills of renewals, which may be open beside another bill, and the card checkout (subscriptions.ts:131-199) are not covered.
- Csv.PrintThenParse: numbers are exact integers, so the rounding of parseInt above 2^53 is not modelled; characters are Unicode scalar values.
- NfeBulkLaws.BulkKeepsUnique: items are as the NF-e parser leaves them, with a barcode absent or non-empty.
- NfeBulkLaws.BulkGrowth: one creation at a time, as in BulkKeepsUnique, because two take no common lock (nfe-import.ts:58-144); BulkRaceIff says what two at once do when both plan before either commits.
- Pagination.FollowingCursorsIsComplete: rows are only added, all newer than those present at the start, and the filters of a session stay the same.
- Confirmation of an NF-e checks its status without a lock; double confirmation of one import and a re-run of its parse job are not modelled, and rounding of quantities happens before the model.
- An item's id is its position in its table or import, so lots and products are never deleted physically; foreign keys, row-level security and the lookup of tenants are given.
- The order of rows that a findFirst without an order returns is taken to be the order of creation.
- Webhook rows omit due date, paid date, payment method and the confirmation mail; an event without a match throws, as it does for Vindi (PagBank's is dropped instead, also without a change).
- StockService.TenantStock.CreateSale: a date arrives parsed into a day or as malformed; time zones and the clock are not modelled.
- Which error type and message a refusal of the gateway is turned into (subscriptions.ts:137-151, 255-271).
- The provider's customer lookup and address update, parsing of raw webhook bodies, signatures and HTTP are foreign calls; a failure there is a rejected creation.
- createOrGetInitialInvoice, which looks for an open invoice before and after generateChargeForTenant, adds no state of its own.
- Limits in changePlan, suppliers of an import, units, categories and product names beyond the fallback are easy or only copied.
- User interface, route handlers, authentication, XML parsing of the NF-e, files, queues and mail.
