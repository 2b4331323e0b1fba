# Gas depot day lifecycle

A model of the day lifecycle of a gas cylinder depot's web application. One
*stock day* moves through a fixed order of stages:

1. the day is created and its office counter opening stock is seeded from the latest day;
2. opening stock: the empty cylinders left in each delivery vehicle are reconciled;
3. IOCL movements: the supplier's receipts and returns are recorded, or a no-movement flag is set;
4. delivery issues: what each delivery boy took out is stored sparsely, and the TV-out total of each cylinder type is rolled up;
5. stock closing: the closing stock is computed and a one-shot lock is set;
6. cash settlement: the amount each delivery boy must bring back is computed from his issues and the prices, and written once;
7. cash collection: the deposits are written once;
8. cash reconciliation: the closing balance and its status are computed for every active boy, and the day close closes the day.

Alongside these sit the office counter (sales and its finalize flag), the
dashboard's progress flags, and the creation of delivery boys.

The database is the class `Db.Database`, with one field per table. Days and
delivery boys are sequences indexed by their id. The other tables are maps
keyed by (day, type), (day, boy) or (day, boy, type). `Snapshot()` packs the
fields into a `Tables` value. Every POST action is modelled twice:

- a pure function from `Tables` to a `Step`, which holds the new tables and an `Outcome` (`Done` or `Rejected(error)`);
- a method that changes the database with the same loops as the route, and whose `ensures` ties the new snapshot and the outcome to that function.

A rejected action leaves every table as it was. This covers the guards the
routes check, and also the statements that would raise before the commit (a
blank number field, a missing previous day, a duplicate primary key). The
properties are lemmas about the step functions. Money is an integer number
of paise.

Module `Lifecycle` relates the routes to each other: which day each route
works on, how one stage's save locks or completes another, and how the day
close hands balances over to the next day.

## Model

| member | source | states |
|---|---|---|
| Db.LatestIn | app/routes/stock_day.py:18-21 | `ORDER BY stock_date DESC LIMIT 1`: no result exactly when no day is eligible; otherwise an eligible day whose date is not below any eligible day's date, and no eligible day with a lower id has the same date |
| Db.FirstOpen | app/routes/delivery_transactions.py:8-9 | `WHERE status = 'OPEN' LIMIT 1`: no result exactly when no day is OPEN; otherwise an OPEN day such that no day with a lower id is OPEN |
| Db.Database.constructor | app/routes/stock_day.py:263-266 | an empty depot over fixed cylinder types and prices, whose foreign keys hold |
| StockDays.DayProgress | app/routes/stock_day.py:36-70 | each of the seven flags is its stage's own test, and the flag before it: opening, IOCL, deliveries, finalized, expected cash, collection, reconciled |
| StockDays.Dashboard | app/routes/stock_day.py:18-36 | the flags are chained; with no day, or with the latest-dated day CLOSED, no flag is set; otherwise they are that day's flags |
| StockDays.NextAvailableDate | app/routes/stock_day.py:243-245 | today when there is no day; otherwise one day after the latest date, later than every existing date |
| StockDays.SeededOffice | app/routes/stock_day.py:270-286 | the new day gets exactly one office row per cylinder type, and no other row |
| StockDays.CreateNewDay | app/routes/stock_day.py:252-286 | the new database and outcome are those of `CreateDay`: a duplicate date is refused; otherwise the day is appended with its office rows |
| StockDays.CreateDayRejectsTakenDate | app/routes/stock_day.py:252-260 | a date that already has a day is refused with DuplicateDate, and nothing is inserted |
| StockDays.CreateDaySeedsOffice | app/routes/stock_day.py:263-286 | a new day is OPEN with both flags 0; each type's office row starts from the latest day's closing counts of that type, or zeros, with nothing received or sold |
| StockDays.CreateDayTouchesOnlyNewDay | app/routes/stock_day.py:263-286 | creating a day changes only the day list and office rows of the new day; every existing office row is kept |
| StockDays.NextAvailableDateIsFree | app/routes/stock_day.py:243-263 | creating a day on the suggested date always succeeds |
| StockDays.CreateDayPreservesValid | app/routes/stock_day.py:263-286 | creating a day keeps dates distinct and every foreign key in range |
| StockDays.CreateDayKeepsOtherOpenDays | app/routes/stock_day.py:252-266 | nothing stops a second OPEN day: creating a day while another is OPEN leaves two OPEN days |
| StockDays.EarlyProgressKept | app/routes/stock_day.py:39-53 | the first three flags' tests read only the issues and the opening and movement columns, so a table change that keeps those keeps the tests |
| OpeningStock.PreviousVehicleEmptyIsLatest | app/routes/opening_stock.py:72-76 | the previous vehicle empty is the quantity of the row with the highest day id below the open day, or 0 when there is none |
| OpeningStock.StageVehicleEmpties | app/routes/opening_stock.py:61-83 | the loop over the `actual_` entries yields the vehicle-empty table with every entry upserted on the open day |
| OpeningStock.SaveReconciliation | app/routes/opening_stock.py:58-102 | the new database and outcome are those of `Reconcile`: the vehicle rows are upserted, then the summary rows are synced |
| OpeningStock.ConfirmAllReturned | app/routes/opening_stock.py:147-158 | the new database and outcome are those of `ConfirmAll` |
| OpeningStock.ReconcileOutcome | app/routes/opening_stock.py:58-99 | a save goes through exactly when there is an OPEN day and a CLOSED day and every entry names an existing boy and type; otherwise nothing changes |
| OpeningStock.ReconcileSavesEntries | app/routes/opening_stock.py:61-83 | each entry stores previous vehicle empty + previous day's regular issues − actual (blank as 0) on the open day; no other vehicle row is added or changed |
| OpeningStock.ReconcileBlankIsZero | app/routes/opening_stock.py:65 | a blank actual count saves exactly what an actual count of 0 saves |
| OpeningStock.SyncConservesEmpties | app/routes/opening_stock.py:86-98 | each type of the previous day gets an open-day row whose defective empties are the open day's vehicle total, and opening empty + defective equals the previous closing empty + defective |
| OpeningStock.SyncKeepsOpeningFilled | app/routes/opening_stock.py:86-98 | re-syncing an existing row changes only its opening empties and defective empties; a new row takes opening filled from the previous closing filled |
| OpeningStock.SyncTouchesOnlyCarriedRows | app/routes/opening_stock.py:86-98 | the save changes only the vehicle and summary tables, and the sync writes only open-day rows of the previous day's types |
| OpeningStock.ReconcileIdempotent | app/routes/opening_stock.py:61-98 | posting the same entries twice leaves what posting them once left |
| OpeningStock.PreviousIsNotOpen | app/routes/opening_stock.py:10-16 | the previous day and the open day are different days |
| OpeningStock.ConfirmAllCopiesClosing | app/routes/opening_stock.py:152-156 | confirm-all inserts, per type of the previous day, a row whose opening filled, opening empty and defective empties are the previous closing figures, unlocked and without movement |
| OpeningStock.ConfirmAllOnlyInserts | app/routes/opening_stock.py:152-156 | confirm-all keeps every existing row and every other table, vehicle empties included; it adds only open-day rows of the previous day's types |
| OpeningStock.ConfirmAllRejectsExistingRow | app/routes/opening_stock.py:152-156 | when the open day already has a row of a copied type, the insert fails and nothing changes |
| OpeningStock.ConfirmAfterReconcileRejected | app/routes/opening_stock.py:86-156 | after a reconciliation save has synced a type, confirm-all fails |
| OpeningStock.ConfirmAllCompletesOpening | app/routes/stock_day.py:39-42 | confirm-all completes the opening flag's test as soon as some copied row has a closing filled count |
| OpeningStock.Fallback | app/routes/opening_stock.py:38-40 | `COALESCE(today, previous, 0)`: today's value when set, else the previous value when set, else 0 |
| OpeningStock.Line | app/routes/opening_stock.py:38-43 | filled, empty and defective of a type are `COALESCE` of the open day's opening filled, opening empty and defective empties over the previous CLOSED day's closing filled, closing empty and defective empties, else 0; the total is their sum |
| OpeningStock.SummaryPage | app/routes/opening_stock.py:10-48 | no page without an OPEN day; one line per cylinder type, each the fallback line of the first OPEN day over the latest-dated CLOSED day; confirmed exactly when the open day has a summary row |
| OpeningStock.ConfirmAllKeepsLine | app/routes/opening_stock.py:38-43 | confirm-all leaves each type's summary line unchanged |
| OpeningStock.ConfirmAllKeepsPage | app/routes/opening_stock.py:36-48 | confirm-all does not change the lines the summary page shows |
| IoclMovements.SaveMovements | app/routes/iocl_movements.py:43-64 | the new database and outcome are those of `Save` |
| IoclMovements.UpdateTypes | app/routes/iocl_movements.py:54-61 | the loop over the `receipt_` entries yields the summary with every posted type's row of the day updated |
| IoclMovements.ResetMovements | app/routes/iocl_movements.py:86-105 | the new database and outcome are those of `Reset` |
| IoclMovements.Page | app/routes/iocl_movements.py:27-81 | no page without an OPEN day; otherwise, for the latest-dated OPEN day, the opening-done, finalized and no-movement tests, the received and returned totals; editable exactly when opening stock exists and the day is not finalized; there is data exactly when received + returned > 0 or the flag is set |
| IoclMovements.SaveOutcome | app/routes/iocl_movements.py:32-58 | a save goes through exactly when there is an OPEN day whose stage is editable and the form parses; a locked day refuses with Locked; a refused save changes nothing |
| IoclMovements.SaveTouchesOnlyMovements | app/routes/iocl_movements.py:48-61 | a save changes only the receipt, return and flag columns of the open day's summary rows |
| IoclMovements.MovementsKeepGates | app/routes/iocl_movements.py:32-41 | changing only movement columns keeps the opening and finalized tests that decide editability, on every day |
| IoclMovements.NoMovementCompletesStage | app/routes/iocl_movements.py:48-52 | "no movement" sets receipt 0, return 0 and the flag on every row of the day, which completes the stage on the page and on the dashboard |
| IoclMovements.SaveRecordsPostedTypes | app/routes/iocl_movements.py:54-61 | each posted type's row holds the receipt (blank as 0) and the return (missing as 0) with the flag cleared; rows of other types keep their values |
| IoclMovements.SaveIdempotent | app/routes/iocl_movements.py:43-62 | posting the same form twice leaves what posting it once left |
| IoclMovements.ResetOutcome | app/routes/iocl_movements.py:90-97 | a reset goes through exactly when there is an OPEN day that is not finalized; otherwise nothing changes |
| IoclMovements.ResetClearsStage | app/routes/iocl_movements.py:98-100 | a reset zeroes receipt, return and flag on every row of the day and changes nothing else; the stage is then incomplete on the page and on the dashboard |
| IoclMovements.HasDataAgreesWithDashboard | app/routes/iocl_movements.py:66-76 | the page reads each NULL as 0 and the dashboard drops a row with a NULL, but they agree on a day whose rows have both columns set or both NULL |
| IoclMovements.FullSaveAgreesWithDashboard | app/routes/iocl_movements.py:54-76 | after a save that posts every row of the day, the page and the dashboard agree on whether the stage is done |
| DeliveryTransactions.BuildDataMap | app/routes/delivery_transactions.py:45-56 | the loop over the `issue_` fields yields the pair map `DataMap` |
| DeliveryTransactions.ReadOneMore | app/routes/delivery_transactions.py:51-56 | reading one more field adds its pair with zero quantities when new, and sets at most the one quantity its category names |
| DeliveryTransactions.StoreIssues | app/routes/delivery_transactions.py:59-74 | the upsert-or-delete loop yields the issue table with every pair of the map stored |
| DeliveryTransactions.SaveTransactions | app/routes/delivery_transactions.py:25-87 | the new database and outcome are those of `Save` |
| DeliveryTransactions.SaveOutcome | app/routes/delivery_transactions.py:25-60 | a save goes through exactly when there is an OPEN day that is not locked (`SUM(sales_regular) > 0`) and every positive pair names an existing boy and type; a locked day refuses with Locked; a refused save changes nothing |
| DeliveryTransactions.DataMapReadsForm | app/routes/delivery_transactions.py:45-56 | each pair the form names gets the posted quantity of each recognised category, blank as 0, and 0 for a category it does not post |
| DeliveryTransactions.UnknownCategoryDeletes | app/routes/delivery_transactions.py:51-74 | a field of an unrecognised category still names its pair, with zero quantities, so the save deletes that pair's row |
| DeliveryTransactions.SaveStoresSparsely | app/routes/delivery_transactions.py:59-74 | after a save, a named pair has a row exactly when one of its quantities is positive, and the row holds them; rows of unnamed pairs and of other days are kept |
| DeliveryTransactions.SaveKeepsSparse | app/routes/delivery_transactions.py:36-74 | saves and resets keep the day free of all-zero issue rows |
| DeliveryTransactions.TvOutIsRollup | app/routes/delivery_transactions.py:36-85 | after a save or reset, each summary row of the day holds the sum of its type's TV-out issues, 0 when there are none |
| DeliveryTransactions.SaveTouchesOnlyIssues | app/routes/delivery_transactions.py:36-85 | a save or reset changes only the issues and the TV-out column, so it keeps the sales counters that decide the lock |
| DeliveryTransactions.SavePreservesValid | app/routes/delivery_transactions.py:59-74 | saves and resets keep every foreign key in range |
| DeliveryTransactions.PositivePairMeetsGate | app/routes/stock_day.py:51-53 | a save that stores a positive pair completes the deliveries flag's own test |
| DeliveryTransactions.ResetClearsDay | app/routes/delivery_transactions.py:36-42 | a reset removes every issue row of the day and keeps every other day's rows |
| ClosingStock.FinalizeStock | app/routes/closing_stock.py:107-144 | the new database and outcome are those of `Finalize` |
| ClosingStock.CloseRows | app/routes/closing_stock.py:116-140 | the update loop yields the summary with every row of the day closed from its values before the loop |
| ClosingStock.FinalizeOutcome | app/routes/closing_stock.py:107-114 | a finalize goes through exactly when there is an OPEN day that is not finalized and whose deliveries are done; a finalized day refuses with AlreadyFinalized even when its deliveries are not done; a refused finalize changes nothing |
| ClosingStock.ClosingConservesStock | app/routes/closing_stock.py:86-92 | total stock = opening filled + opening empty + defective + receipts − returns − NC − DBC + TV-out: regular sales only turn filled cylinders into empties |
| ClosingStock.FinalizeWritesRows | app/routes/closing_stock.py:116-140 | every row of the day gets its closing line and the lock; rows of other days and every other table are unchanged |
| ClosingStock.ClosedRowBalances | app/routes/closing_stock.py:65-92 | a closed row holds closing filled = opening filled + receipts − all issues, closing empty = opening empty + regular + TV-out − returns, the total with the defective empties, and the issue sums |
| ClosingStock.FinalizeOnce | app/routes/closing_stock.py:42-46 | once a finalize has written a row, the next one is refused with AlreadyFinalized and changes nothing |
| ClosingStock.FinalizeAndDashboard | app/routes/stock_day.py:51-58 | after a finalize the dashboard's finalized flag equals its deliveries flag before it |
| OfficeSales.RecordOfficeSale | app/routes/office_sales.py:36-71 | the new database and outcome are those of `RecordSale` |
| OfficeSales.FinalizeOfficeSales | app/routes/office_sales.py:115-131 | the new database and outcome are those of `FinalizeOffice` |
| OfficeSales.PriceMap | app/routes/office_sales.py:74-89 | one entry per price row: REFILL is the refill amount; DBC is refill + deposit + document + installation; NC is DBC plus the regulator, 0 when there is none |
| OfficeSales.RecordSaleOutcome | app/routes/office_sales.py:33-52 | a sale goes through exactly when there is an OPEN day whose office sales are not frozen, the numbers parse and the sale type is REFILL, NC or DBC; a frozen day refuses with Locked; a refused sale changes nothing |
| OfficeSales.RecordSaleAdds | app/routes/office_sales.py:54-67 | a sale adds its quantity to its type's sold counter of the matching category and its cash and UPI to the totals; no other row or table changes |
| OfficeSales.SalesCommute | app/routes/office_sales.py:54-67 | sales accumulate: two sales recorded in either order leave the same tables |
| OfficeSales.FinalizeOfficeLocks | app/routes/office_sales.py:119-124 | freezing sets the flag on the latest OPEN day, after which every sale is refused; freezing again changes nothing |
| CashSettlement.SaveExpected | app/routes/cash_settlement.py:53-65 | the new database and outcome are those of `Settle` |
| CashSettlement.InsertRows | app/routes/cash_settlement.py:54-62 | the insert loop yields the expected table with one row per settlement row |
| CashSettlement.Page | app/routes/cash_settlement.py:14-27 | no page without an OPEN day; otherwise the first OPEN day's settlement rows, and whether amounts are already saved for it |
| CashSettlement.SettleOutcome | app/routes/cash_settlement.py:20-53 | the amounts are saved exactly when there is an OPEN day with none saved yet; otherwise nothing changes |
| CashSettlement.SettleWritesRows | app/routes/cash_settlement.py:53-62 | a save writes, for the open day, exactly one expected amount per settlement row, its final amount; every other row and table is kept |
| CashSettlement.SettleOnce | app/routes/cash_settlement.py:20-27 | once a row is saved, the next post is refused and changes nothing |
| CashSettlement.NothingPricedSavesNothing | app/routes/cash_settlement.py:44-62 | a day with no priced issue row saves nothing, so the save stays open |
| CashSettlement.SettlementRows | app/routes/cash_settlement.py:44-48 | a boy has a settlement row exactly when he exists and has an issue row of the day whose type has a price |
| CashSettlement.FinalIsSumOfLines | app/routes/cash_settlement.py:34-43 | the final amount is the sum over the boy's priced issue rows of regular × refill + NC × NC price + DBC × DBC price − TV-out × deposit |
| CashSettlement.NoRefundNoDebt | app/routes/cash_settlement.py:34-43 | without TV-out and with non-negative quantities and prices, no boy's final amount is negative |
| CashSettlement.SettlePreservesValid | app/routes/cash_settlement.py:53-62 | a save keeps every foreign key in range |
| CashCollection.DepositOf | app/routes/cash_collection.py:24-29 | a deposit's total is its cash plus its UPI |
| CashCollection.SaveCollection | app/routes/cash_collection.py:18-32 | the new database and outcome are those of `Collect` |
| CashCollection.InsertDeposits | app/routes/cash_collection.py:22-29 | the insert loop over every boy yields the deposit table `Collected` |
| CashCollection.Page | app/routes/cash_collection.py:11-38 | no page without an OPEN day; otherwise the first OPEN day's saved deposits by boy, and the form is locked exactly when that day has deposits |
| CashCollection.DayDeposits | app/routes/cash_collection.py:34 | the saved deposits of the day, by boy, are exactly the day's deposit rows |
| CashCollection.CollectOutcome | app/routes/cash_collection.py:11-21 | the deposits are saved exactly when there is an OPEN day without any; otherwise nothing changes |
| CashCollection.CollectWritesEveryBoy | app/routes/cash_collection.py:22-29 | a save writes a row for every boy, active or not, with his fields (blank or missing as 0) and their sum; every other row and table is kept |
| CashCollection.CollectOnce | app/routes/cash_collection.py:18-21 | with at least one boy, the next post is refused and changes nothing |
| CashCollection.CollectKeepsTotals | app/routes/cash_collection.py:24-29 | every deposit total stays its cash plus its UPI |
| CashCollection.CollectPreservesValid | app/routes/cash_collection.py:22-29 | a save keeps every foreign key in range |
| CashReconciliation.StatusOf | app/routes/cash_reconciliation.py:44-49 | SETTLED exactly when the closing balance is 0, EXCESS exactly when it is negative, PENDING exactly when it is positive |
| CashReconciliation.UpdateBalances | app/routes/cash_reconciliation.py:21-65 | the new database and outcome are those of `Reconcile` |
| CashReconciliation.StageBalances | app/routes/cash_reconciliation.py:32-61 | the loop over the active boys succeeds exactly when no active boy's field is blank, and then yields the upserted balance table |
| CashReconciliation.StageBoy | app/routes/cash_reconciliation.py:35-61 | one boy: an inactive boy is skipped; an active boy with a blank field fails; otherwise his balance row is upserted |
| CashReconciliation.CloseDay | app/routes/cash_reconciliation.py:117-127 | the new database and outcome are those of `DayClose` |
| CashReconciliation.Page | app/routes/cash_reconciliation.py:69-105 | no page without an OPEN day; otherwise, for the first OPEN day, one row per active boy holding his carried opening, expected amount, proposed deposit and saved status; `has_updated` exactly when the day has balance rows |
| CashReconciliation.ReconcileOutcome | app/routes/cash_reconciliation.py:21-39 | the balances are saved exactly when there is an OPEN day and no active boy's field is blank; otherwise nothing changes |
| CashReconciliation.ReconcileWrites | app/routes/cash_reconciliation.py:32-61 | every active boy gets a row with his fields (missing as 0), closing = opening + expected − deposited, and the status of that closing; every other row and table is kept |
| CashReconciliation.ReconcileIdempotent | app/routes/cash_reconciliation.py:51-61 | posting the same form twice leaves what posting it once left |
| CashReconciliation.DayCloseClosesAll | app/routes/cash_reconciliation.py:122 | the day close leaves no OPEN day and keeps every date and every other table; closing again changes nothing |
| CashReconciliation.CarryForward | app/routes/cash_reconciliation.py:73-80 | when the open day holds the boy's latest balance row, closing the day makes its closing balance the proposed opening |
| CashReconciliation.NoHistoryOpensAtZero | app/routes/cash_reconciliation.py:73-80 | a boy with no balance row on a CLOSED day is proposed an opening of 0 |
| CashReconciliation.OfficeTakingsGrow | app/routes/cash_reconciliation.py:86-92 | adding an amount to the cash and UPI of one office row of the day adds it to the day's office takings when the row's type is a known cylinder type, and adds nothing otherwise |
| CashReconciliation.PostingProposalSavesIt | app/routes/cash_reconciliation.py:31-105 | posting the form as the page fills it in always goes through and saves the proposed figures of every active boy |
| CashReconciliation.ReconcilePreservesValid | app/routes/cash_reconciliation.py:51-61 | a save keeps every foreign key in range |
| DeliveryBoys.CreateDeliveryBoy | app/routes/delivery_boys.py:15-36 | the new database and outcome are those of `CreateBoy` |
| DeliveryBoys.TrimLeftDropsSpaces | app/routes/delivery_boys.py:18-19 | trimming the left drops a run of leading whitespace, up to a non-space |
| DeliveryBoys.TrimRightDropsSpaces | app/routes/delivery_boys.py:18-19 | trimming the right drops a run of trailing whitespace, back to a non-space |
| DeliveryBoys.StripTrims | app/routes/delivery_boys.py:18-19 | `strip()` yields the slice of the input between a whitespace prefix and a whitespace suffix, with no whitespace at either end; whitespace is space, tab to carriage return, and 0x1c to 0x1f |
| DeliveryBoys.StripIdempotent | app/routes/delivery_boys.py:18-19 | stripping twice is stripping once |
| DeliveryBoys.SeparatorsAreStripped | app/routes/delivery_boys.py:18-33 | a name made of the separator 0x1c is refused as required, and a free mobile number followed by 0x1f is accepted |
| DeliveryBoys.CreateBoyOutcome | app/routes/delivery_boys.py:15-33 | a create goes through exactly when the stripped name is non-empty, the stripped mobile is ten digits, and neither is registered; another action or a refused create changes nothing |
| DeliveryBoys.CreateBoyAppends | app/routes/delivery_boys.py:32-33 | a created boy is appended, active, with the stripped fields and a valid mobile; nothing else changes |
| DeliveryBoys.CreateBoyKeepsUnique | app/routes/delivery_boys.py:27-33 | creating a boy keeps names and mobile numbers unique |
| DeliveryBoys.CreateBoyPreservesValid | app/routes/delivery_boys.py:32-33 | creating a boy keeps every foreign key in range |
| Lifecycle.OneOpenDaySameRouteDay | app/routes/cash_settlement.py:15-16 | with at most one OPEN day, the routes that take the first OPEN day by id and those that take the latest-dated OPEN day work on the same day |
| Lifecycle.CreateLaterDaySplitsRoutes | app/routes/stock_day.py:252-266 | creating a later day while one is OPEN makes the two kinds of routes work on different days |
| Lifecycle.DayCloseClearsDashboard | app/routes/cash_reconciliation.py:117-125 | after the day close the dashboard shows no progress |
| Lifecycle.NextDayIsOnlyOpenDay | app/routes/stock_day.py:263-266 | a day created after the day close is the only OPEN day, so every route works on it |
| Lifecycle.BalanceCarriesIntoNextDay | app/routes/cash_reconciliation.py:73-80 | after the day close and the next day's creation, the next day's page proposes the boy's last closing balance as his opening |
| Lifecycle.OfficeSaleCreditsOffice | app/routes/cash_reconciliation.py:68-92 | with one OPEN day, a recorded office sale adds its cash and UPI to the deposit the reconciliation page proposes for the boy named OFFICE, and leaves every other boy's proposed deposit unchanged; a sale that matches no office row of a known type adds nothing |
| Lifecycle.FinalizeLocksIocl | app/routes/iocl_movements.py:32-46 | after the stock closing every IOCL save is refused and changes nothing |
| Lifecycle.FinalizeLocksDeliveries | app/routes/delivery_transactions.py:25-33 | with one OPEN day, the stock closing locks the delivery issues as soon as some regular cylinders were issued |
| Lifecycle.SettleCompletesStage | app/routes/stock_day.py:60-62 | saving a non-empty settlement sets the expected-cash flag to the finalized flag |
| Lifecycle.CollectCompletesStage | app/routes/stock_day.py:64-66 | with at least one boy, saving the deposits sets the collection flag to the expected-cash flag |
| Lifecycle.ReconcileCompletesStage | app/routes/stock_day.py:68-70 | with an active boy, saving the balances sets the reconciled flag to the collection flag |

## Left out

- Flask routing, redirects, flash messages, templates and the GET pages' row order (`ORDER BY` name or code): an action returns `Done` or the error the route reports, and the pages are maps keyed by id.
- The download routes, the reports, the report preview, login, the cylinder type listing and the database session: formatting, export and I/O outside the lifecycle.
- The GET form of the opening stock reconciliation (`app/routes/opening_stock.py:105-113`) and the office counter stock listing (`app/routes/office_sales.py:92-102`): display queries whose figures the model already defines as `PreviousVehicleEmpty`, `ExpectedEmpty` and the office rows.
- The SQL engine: each statement's effect is written directly on maps. A foreign key violation, an insert on an existing key, and a dereference of a missing day or row all raise before the commit, so they are modelled as a refusal with no change.
- The office counter's generated closing columns: their formula is not in the code, so `CreateDay` takes it as the parameter `closingOf`.
- Floating-point money: amounts are integer paise, and `round(cl, 2) == 0` is `cl == 0`.
- Form field names: the `issue_<boy>_<type>_<category>`, `actual_<boy>_<type>`, `receipt_<type>` and `return_<type>` names arrive already split into ids and a category, with ids in canonical decimal. A malformed name (a missing part, or a non-numeric id in the opening stock form) raises before the commit, and the model does not represent it. Two delivery fields whose ids differ only in leading zeros (`issue_01_2_REFILL` and `issue_1_2_NC`) are two entries of the route's map that write the same row, the later one winning; the model has one entry per pair and does not capture that order.
- Number parsing: a form field is missing, blank or a number. Non-numeric text raises before the commit in every route; the model's fields cannot hold it, so that refusal is not represented. In the opening stock, IOCL receipt, delivery issue and cash collection fields it differs from a blank, which reads as 0.
- `str.strip()` and `str.isdigit()` cover ASCII whitespace and the digits 0 to 9 only; string comparison is exact, without database collation.
- The clock: today's date is a parameter of `NextAvailableDate`. Dates are day numbers.
- Concurrency: every action runs alone against the tables.
- The `delivery_no_movement` flag: no route of the lifecycle sets it, so it stays the 0 that creation writes, and the model reads it but never changes it.
- Db.IssueSum, OpeningStock.VehicleSum, CashSettlement.Settlement, CashReconciliation.OfficeTakings, IoclMovements.TotalReceived, IoclMovements.TotalReturned, DeliveryTransactions.SalesSum: the sums range over boy ids and type ids below the number of boys and types. This equals the SQL `SUM` over the joined rows whenever every row's boy and type exist, which `Db.Valid` states and every action preserves.
- CashSettlement.NoRefundNoDebt: a conditional property. With TV-out cylinders or negative figures a final amount can be negative, and the code allows it.

Where the code and the application's design description differ, the model
follows the code:

- Cash settlement has no office-finalized gate and does not pool the NC and DBC revenue to the office. Every boy with a priced issue row, the office included, gets his own regular + NC + DBC − TV-refund amount.
- Creating a day checks only for a duplicate date. It neither requires a date after the latest one nor refuses while another day is OPEN (`StockDays.CreateDayKeepsOtherOpenDays`, `Lifecycle.CreateLaterDaySplitsRoutes`).
- The routes pick the open day in two ways. IOCL movements, stock closing and office sales take the latest-dated OPEN day. Deliveries, the IOCL reset, opening stock and the three cash routes take the first OPEN day by id. They agree while at most one day is OPEN (`Lifecycle.OneOpenDaySameRouteDay`).
- "Finalized" means some summary row of the day has `is_reconciled = 1`, not all of them.
- The delivery lock is `SUM(sales_regular) > 0` over the day's summary rows. A finalized day whose regular sales are all 0 stays open for edits.
- Stages do not check the stage before them, except that stock closing needs deliveries and IOCL edits need opening stock. Stock closing does not check the IOCL stage, and the cash stages check nothing before them.
- Confirm-all copies the previous closing figures and leaves the vehicle empties as they are. It does not zero them.
- The summary sync stores opening empty = previous closing empty + previous defective − vehicle total.
- Cash collection inserts a row for every delivery boy, active or not.
- The carried opening balance is the closing balance of the latest CLOSED day that holds a balance row for that boy, not necessarily the day just before.
- There is no delivery-issue "no movement" toggle. The reset button deletes the day's issues and zeroes TV-out.
