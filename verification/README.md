# doenerstag, modelled and proved in Dafny

doenerstag collects a group's lunch order: people add dishes to an order at one restaurant until its
deadline, one of them fetches the food and one collects the money, and a page reads the order out. This
project models the parts of it that have rules to keep and proves that they keep them, for all inputs
and all runs.

| part | files |
|---|---|
| the tables, the statements that write them and the handlers that decide | Schema, Sql, SqlInvariants, Database, Handlers, OrderHandlers, Effects, Answers, Menu |
| what holds over whole runs and under interleaving | Sparing, Runs, Interleaving, Draws, Deletion, Cleanup, Burials |
| the summary, the order page and the menu's order | Sorting, Sums, MenuOrder, Summary, Totals, Pages |
| naming copies | CopyName |
| the configuration file | Duration, ByteSize, Quoting, Settings, Registry, Witness, ConfigFile, ConfigLines, ConfigReader, ConfigRoundTrip, ConfigRewrite, Retiring, RetiredOnce, RetiredReturns |
| amounts of money as typed | Money |
| protocols in memory | Limiter, Resets, Router |
| shared | Prelude, Text, TextLines, Float64 |

`dafny verify dfyconfig.toml` verifies the whole project.

## How it is built

A table is a map from ids to rows, the database the tables of migrations 000001 to 000017 that orders,
menus, accounts and logins need. Each writing statement or transaction is one function `Exec` on those
tables; the class `Pool` carries the same operations out step by step, as the Go code does, and each of
its methods is proved to end in the state `Exec` gives. A handler is a decision on the tables it reads
that ends in one statement or a fault; `OrderApi` is its step-by-step form, proved to give the same tables
and answer, and `Answers` says what those answers mean. Runs interleave handler
steps, draws, deletions, menu edits and cleanups under a clock that does not go back. Statement
granularity, with handlers interleaved at will, is a second, finer run.

The limiter, the reset store, the set of taken names and the router are classes with the fields the
source has, and every method states its whole new state; the theorems are about runs of those steps.
Renders in flight share lists with the router by reference; lists are therefore named by the render that
made them, and `owner` says which of them the router's own field refers to.

What the code takes from outside is a parameter with the law it relies on stated beside it: float64
arithmetic (`Floats`, `Platform`; where whole numbers suffice it is defined outright in Float64), the
standard library's form of a duration, per-rune letter case, base64, UUID text, the MAC and the hash of
reset links, the people a draw picks, the ids inserts mint, and whether a dish is served at the order's
time. The reader of the configuration file follows YAML 1.2.2 for the shape the writer produces: lines end
at line feeds and returns (section 5.4), and what stands unquoted or in a comment is printable (sections 5.1
and 6.6). The YAML library the program links is not part of this model.

## What the proofs found

- `AddOrderItem` reads the dish and the order in one statement and inserts in another. Under READ
  COMMITTED an `UpdateOrder` may commit in between, and the order then holds another restaurant's food
  (`Interleaving.RestaurantMayMoveBetweenHalves`). It does if and only if the order's restaurant has
  changed since the join (`AddingKeepsIff`). With the transaction as one step the rule holds under every
  interleaving.
- A claim looks for a vacancy in the handler only, so two claims can both succeed
  (`Interleaving.SecondClaimOverwrites`), and a claim takes a job from somebody if and only if another
  person holds it when the statement runs (`ClaimOverwritesIff`). The deadline too is asked about only
  there: a late deletion reaches a closed order (`LateWriteReachesAClosedOrder`) and a late patch opens a drawn
  one again (`Draws.LatePatchReopens`), which no other statement does (`OpensIff`, `ClosedAllAlongIff`).
- An order may be moved to a restaurant deleted in the meantime (`Burials.LateMoveReachesADeletedRestaurant`):
  the update looks at the reference and not at the flag. No other statement puts an order there, and a
  deleted restaurant stays without orders if and only if no such move is executed
  (`ClosedUnlessMovedTo`, `ClosedThroughoutIff`); handlers, run one at a time, never issue one
  (`DeletedRestaurantTakesNoOrder`).
- `SoftDeleteCategory` takes dishes out of a category even when it answers that there is no such
  category to delete (internal/db/menu.go:147-162).
- Cleanup removes living modifications of a soft-deleted dish, by the cascade of migration 000006
  (`Cleanup.ALivingModificationGoes`); `PassTakesNoLivingRow` says exactly when.
- The comment at internal/db/cleanup.go:177-182 promises that a dry run's report matches the run. It
  reports no more than the run removes, and less when an earlier step frees a row
  (`Cleanup.DryRunCounts`, `DryRunMayFallShort`).
- External ids may have 32 digits; from 2^63 up numericID wraps, and the summary's order departs from the
  menu's for some line the menu can print, unless the id wraps to the very top of int64 and its text is
  greater still (`MenuOrder.OrdersAgreeIff`).
- A configured 0 of an integer setting, which for the rate limits means "off", is written as the
  default (`ConfigRewrite.UnsetIff`). An unset log level is not a zero text, so it is written as a name no
  reader knows (`Settings.NamesReadBackIff`). A level given as 257 is taken for 1
  (`Settings.LevelNumbersWrap`).
- `quote` leaves C0 controls other than tab, line feed and return as they are, which YAML 1.2.2
  (sections 5.1 and 7.3.1) does not allow, so one such value makes the file unreadable
  (`ConfigRewrite.UnquotableTextBreaksTheFile`).
- The block of retired keys survives one rewrite: it is comments, and nothing is retired from comments
  (`RetiredOnce.NothingToRetire`).
- The search for retired keys breaks lines at line feeds, YAML at returns too. In
  `"server:\n  gone: 1\r  host: good\n"` YAML sees two keys, the search one whose value runs over the
  return (`RetiredReturns.AReturnIsKept`, `AReturnEndsTheLine`). Written into a comment, what follows the
  return is a setting of the file's last section, and if that setting is there already the file cannot be
  read (`AReturnLetsASettingIn`); the comment at internal/config/retired.go:45-48 expects a spurious comment
  at most. It takes a return with something on both sides of it (`RetiredOnce.FoundReturnsIff`,
  `RetiredKeysAreLines`).
- `inf`, `infinity` and `nan` are accepted as byte sizes (`ByteSize.WordsAreTakenForSizes`).
- The least int64 duration and sizes float64 cannot hold do not survive the file
  (`Duration.DurationsReadBackIff`, `ByteSize.PrintedSizesReadBackIff`).
- A reset link can be spent twice, because `complete` reads the clock twice
  (`Resets.TwoReadingsSpendTwice`); with one reading it cannot (`EachLinkWorksOnce`).
- A currency whose minor unit is finer than the places written loses amounts in the input field
  (`Money.CurrencyReadsBackIff`). One whose major unit is one minor unit short of the written scale
  loses some large positive amounts to float64 (`AmountsReadBackIff`, `ANinthIsGained`).
- An interval of a window's length can hold one failure short of twice the limit, and no more
  (`Limiter.AnyIntervalHolds`, `AnIntervalMayHoldThatMany`).

## Model

| member | source | states |
|---|---|---|
| SqlInvariants.ExecKeeps | internal/db/orders.go:75-244 | Every write statement of the data layer, from any tables that satisfy the schema, leaves every foreign key resolved and every modelled CHECK true; and if every item was its order's restaurant's and every snapshot its dish's, they still are. |
| SqlInvariants.RemapAndDeleteKeeps | internal/db/deletion.go:117-151 | The statements of one account deletion keep the schema and both cross-table rules. |
| SqlInvariants.DrawKeeps | internal/db/orderdraw.go:26-81 | A draw names only accounts that exist and moves no order. |
| SqlInvariants.RemoveRestaurantsKeepsIntegrity | internal/db/restaurants.go:273-295 | Cascading a restaurant's menu away is safe once nothing is ordered there. |
| Effects.NewOrderIsEmpty | internal/db/orders.go:75-108 | A new order comes under a new id, holds nothing and costs nothing, and no other order changes or costs anything else. |
| Effects.DeletingUndoesCreating | internal/db/orders.go:82-244 | Creating an order and deleting it gives back exactly the tables there were. |
| Database.Pool.UpdateOrder | internal/db/orders.go:157-228 | Column by column from the update, behind the NOT EXISTS restaurant lock, with the locked/not-found distinction; the whole new state is stated. |
| Effects.DeletedOrderIsGone | internal/db/orders.go:230-244 | An order goes with all its items and their snapshots and nothing else; every other order keeps its contents and its total, and a second deletion is NotFound. |
| Database.Pool.SnapshotAll | internal/db/orderitems.go:160-198 | The inserting loop writes exactly one snapshot per modification found, each under an id of its own. |
| Database.Pool.InsertModifications | internal/db/orderitems.go:137-198 | All chosen modifications are living ones of the dish and are snapshotted, or the whole is refused. |
| Database.EveryChoiceIsSnapshotted | internal/db/orderitems.go:137-198 | Ids minted one per row found cover every chosen modification, each by exactly one snapshot. |
| Database.Pool.AddOrderItem | internal/db/orderitems.go:58-130 | Join, availability, insert and snapshots: all of it or nothing, with the error that comes first. |
| Database.Pool.UpdateOrderItem | internal/db/orderitems.go:300-345 | Quantity, note and a replaced selection in one transaction: all of it or nothing. |
| Effects.DeletingUndoesAdding | internal/db/orderitems.go:58-357 | Adding an item with any selection and deleting it gives back exactly the tables there were. |
| Effects.ItemCosts | internal/db/orderitems.go:58-130 | A new item adds exactly its own line to the total of its order and nothing to any other. |
| Effects.DeletedItemCosts | internal/db/orderitems.go:348-357 | A deleted item takes exactly its own line off its order, and nothing off any other. |
| Effects.TickingIsUndone | internal/db/orderitems.go:359-376 | Ticking back gives the tables there were, and no tick changes what any order costs. |
| Effects.AccountGoesOnce | internal/db/deletion.go:96-151 | An account goes if and only if it is known, not the placeholder and no administrator's; only users, orders, items and logins are touched, and a second deletion at any time is NotFound. |
| Database.Pool.Pick | internal/db/orderdraw.go:26-60 | Exactly the due orders that have people are picked for, each one of its people. |
| Database.Pool.CollectFilled | internal/db/orderdraw.go:60-81 | The answer lists exactly the orders somebody was picked for, each once. |
| Database.Pool.DrawJobs | internal/db/orderdraw.go:26-81 | The new tables are those of the draw with these picks; the answer lists, once each, the orders not locked, not drawn before and past their deadline that had a vacant job and a person with an item. |
| Cleanup.SweepSettlesItself | internal/db/cleanup.go:183-211 | A step leaves no row its own condition selects, so running it again removes nothing. |
| Database.Pool.Cleanup | internal/db/cleanup.go:45-159 | The loop over the steps ends in the state of the pass, or the untouched one, with each step's own count in the report. |
| Burials.SoftDeletedRestaurant | internal/db/restaurants.go:180-208 | It succeeds if and only if the restaurant is living and no order is at it, marks that row alone, and a second time answers NotFound. |
| Burials.DeletedRestaurantTakesNoOrder | internal/db/restaurants.go:171-208 | In every run of handlers, draws, edits and cleanups no order is ever placed at, or moved to, a soft-deleted restaurant. |
| Burials.ClosedUnlessMovedTo | internal/db/orders.go:163-228 | Of all statements, whatever was read for them, a patch that moves an order there is the only one after which a deleted restaurant without orders is no longer that. |
| Burials.ClosedThroughoutIff | internal/db/restaurants.go:171-208 | However statements interleave, it is so in every state if and only if none of them, executed where it stands, is such a move. |
| Burials.LateMoveReachesADeletedRestaurant | internal/db/orders.go:163-228 | A handler issues such a move in time, and with the soft deletion in between it succeeds all the same. |
| Database.Pool.SoftDeleteCategory | internal/db/menu.go:147-162 | Marks the category and takes its dishes out of it; the dishes are taken out even when the answer is NotFound. |
| Burials.SoftDeletedDish | internal/db/menu.go:291-307 | It takes a living dish off the menu once, touching its row alone; no order can be given it then. |
| Burials.BuriedDishIsNotOrdered | internal/db/orderitems.go:65-91 | However statements interleave, a dish off the menu gets no new item and never comes back. |
| Database.Pool.UpdateMenuItem | internal/db/menu.go:237-289 | Field by field, only on a living dish and only to rows there are. |
| Menu.DishEdited | internal/db/menu.go:237-289 | A living dish's category, picture, name, price and availability are as sent or as they were, if and only if the category is its restaurant's and the picture there; nothing else moves, and the two refusals are told apart. |
| Menu.RestaurantEdited | internal/db/restaurants.go:119-170 | A living restaurant's terms and logo are as sent or as they were, if and only if the logo is there. |
| Menu.CategoryDeleted | internal/db/menu.go:147-162 | Exactly the category's dishes leave it, and a living one is marked; a deleted one is answered NotFound, and its dishes leave it all the same. |
| Effects.HardDeleteLeavesNothing | internal/db/restaurants.go:273-295 | On consistent tables it always succeeds, leaves no order, dish or category of the restaurant, keeps every other order's contents and total, and a second time answers NotFound. |
| Answers.RefusalChangesNothing | internal/api/orders.go:372-650 | A request that is refused, by the handler or by the statement, leaves the tables as they were. |
| Answers.StrangersAreRefused | internal/api/orderitems.go:215-242 | Unauthenticated requests change nothing and answer NotAuthenticated, or NotFound where what they name is not there. |
| Answers.ClosedOrderAnswers | internal/api/orderitems.go:91-207 | Which answer comes first after the deadline: closed for items and claims even to strangers, being a stranger first for the order itself and a release; removing and ticking never answer closed. |
| Answers.NotTheirs | internal/api/authorize.go:58-80 | Signed in, one is told that an order, item, job or account is not one's own if and only if one is none of those who may act on it and what is asked for is there (for items, in an open order). |
| Answers.CreateAnswer | internal/api/orders.go:372-466 | A success if and only if the caller has an account, the deadline is ahead and before the fulfilment, those named are people and the restaurant lives; the order is then empty, open, undrawn and has the restaurant's terms of that moment. |
| Answers.CreateFaults | internal/api/orders.go:412-483 | Which fault opening an order has: the order of the two times, then the past, then people or restaurant. |
| Answers.PatchAnswer | internal/api/orders.go:489-620 | A success if and only if creator or administrator, open, and the body fits the row; the restaurant lock outranks every other fault of the body; each field is as sent or as it was, terms with the restaurant, and no other row is touched. |
| Answers.PatchFaults | internal/api/orders.go:531-612 | Which fault patching has: the lock, then the restaurant, then the times, then the people; and none otherwise. |
| Answers.LateRefusalsAreTold | internal/db/orders.go:208-228 | A patch decided on some tables and executed on others is told that the order is gone, that it holds something by now, or that somebody it names is gone. |
| Answers.RemoveAnswer | internal/api/orders.go:622-650 | A success if and only if the order is there and the caller is its creator or the administrator, closed or not; everything of it is gone and every other order costs what it did. |
| Answers.AddItemAnswer | internal/api/orderitems.go:24-80 | A success if and only if the order is open, the quantity 1 to 99, the dish living, available, served and of the order's restaurant, and the selection living modifications of it, none twice; the item is the caller's at the menu's price and adds exactly its line to the total. |
| Answers.AddItemFaults | internal/api/orderitems.go:245-290 | Which fault adding to an open order has, exactly: quantity below, quantity above, another restaurant or a deleted dish, sold out, not served then, selection; and none otherwise. |
| Answers.ChoosableIff | internal/db/orderitems.go:132-158 | As many rows found as ids sent means exactly that all are living modifications of the dish and none is sent twice. |
| Answers.PatchItemAnswer | internal/api/orderitems.go:91-157 | A success if and only if owner or administrator, open, and quantity and selection allowed; owner, dish, name, price and tick stay, an unsent selection stays, and nothing of another item moves. |
| Answers.PatchItemFaults | internal/api/orderitems.go:110-157 | Which fault changing one's item has, exactly: quantity below, quantity above, selection; and none otherwise. |
| Answers.DeleteItemAnswer | internal/api/orderitems.go:160-193 | A success if and only if the item is in that order, the caller its owner or the administrator, and the order open; the order then costs exactly that line less. |
| Answers.SetPaidAnswer | internal/api/orderitems.go:294-348 | A success if and only if the item is in that order, the caller is its owner, the creator, the collector or the administrator, and a value is sent, at any time; the tick alone changes and no total. |
| Answers.ClaimAnswer | internal/api/orderjobs.go:61-95 | A success if and only if the order is open, the job vacant and the claimant known; the claimant then has that job, the other job and all other rows as before. |
| Answers.ClaimFault | internal/api/orderjobs.go:74-95 | A claim is told the job is taken if and only if the order is open and somebody has it. |
| Answers.ReleaseAnswer | internal/api/orderjobs.go:107-161 | A success if and only if the order is open and the caller holds the job, opened the order or is the administrator; the job is vacant then, and giving up a vacant one changes nothing. |
| Answers.DeleteUserAnswer | internal/api/users.go:542-605 | An account goes if and only if it asks itself or the administrator does and it is neither the placeholder nor an administrator, which are told apart; then no row names it and the rows that did not stand. |
| Sparing.SparedStays | internal/db/orders.go:157-244 | A statement that misses an order leaves its terms, items, quantities, notes, prices and snapshots as they are, cascades and remaps included. |
| Sparing.SameContentsSameTotal | internal/model/order.go:127-133 | Orders with the same contents cost the same. |
| Runs.RunKeeps | internal/api/orders.go:472-477 | In every run of handler steps, draws, deletions, menu edits and cleanups every state satisfies the schema (deadline before fulfilment included) and both cross-table rules. |
| Runs.ClosedOrderStands | internal/api/orderitems.go:202-207 | One event after the deadline leaves a closed order's contents alone; only ticks, jobs, owners and flags may move. |
| Runs.ClosedOrderIsFrozen | internal/api/orders.go:504-510 | From its deadline on an order keeps restaurant, times, terms, items, quantities, notes and snapshots through every run under a clock that never goes back, until it is removed. |
| Runs.ClosedOrderCostsTheSame | internal/model/order.go:127-133 | No menu edit, account deletion or cleanup changes a closed order's total. |
| Pages.PageShowsTheTotal | internal/db/orderitems.go:220-283 | The rows of an order, in whatever order they come back, add up to the total of the tables. |
| Pages.RowShows | internal/db/orderitems.go:217-283 | Each row shown is its item's user, dish, quantity, name, price, note and tick, with the names and deltas of its snapshots. |
| Pages.PageShowsWhatIsPaid | internal/api/summary.go:147-154 | What a page says is settled and open is what the paid and the unpaid items of the tables cost. |
| Pages.ClosedOrderShowsTheSame | internal/api/orders.go:317-359 | Item total, grand total and the below-minimum warning of a closed order are the same on the page before and after any run. |
| Interleaving.AnyInterleavingKeeps | internal/db/orders.go:202-226 | With each statement its own step and handlers interleaved at will, every item is still its order's current restaurant's and every snapshot its dish's, whatever the handlers had read. |
| Interleaving.AddingKeepsIff | internal/db/orderitems.go:58-130 | For any statements between the join and the insert with its snapshots, the tables are consistent afterwards if and only if the order is at the restaurant it was at when the dish was read; name and price are those read. |
| Interleaving.AddingKeepsUnlessMoved | internal/db/orderitems.go:62-130 | So they are, unless one of those statements sets that order's restaurant. |
| Interleaving.RestaurantMayMoveBetweenHalves | internal/db/orderitems.go:58-125 | A concrete state in which UpdateOrder between the two statements breaks the restaurant rule although each succeeds. |
| Interleaving.ClaimFillsAVacancy | internal/api/orderjobs.go:74-95 | As one step, a claim changes something only by filling a vacant job of an open order with the claimant. |
| Interleaving.ClaimOverwritesIff | internal/api/orderjobs.go:74-95 | A claim decided on some tables and executed on any later ones succeeds, gives the claimant the job, and takes it from somebody if and only if another person had come to hold it; nothing else moves. |
| Interleaving.SecondClaimOverwrites | internal/api/orderjobs.go:78-95 | Two claims decided on the same vacancy both succeed, and the second takes the job from the first exactly when they are two people. |
| Interleaving.LateWriteReachesAClosedOrder | internal/api/orderitems.go:160-207 | A deletion decided before the deadline and executed on any later tables removes the item if it is still there and does nothing else, although no handler would decide it then. |
| Draws.DrawSettles | internal/db/orderdraw.go:13-81 | An order is flagged and settled if and only if it is not locked, not drawn before and its deadline is not ahead, of whatever kind it is; any other row stands. A held job is as it was; a vacant one is filled exactly when a person other than the placeholder has an item, with such a person; two vacant jobs go to the same one. |
| Draws.DrawIsPossible | internal/db/orderdraw.go:26-60 | There are always picks the statement may make. |
| Draws.FilledOrders | internal/db/orderdraw.go:60-81 | The orders answered are exactly those not locked, not drawn before and closed that have a person in them and a vacant job. |
| Draws.LaterDrawsTakeTheRest | internal/db/orderdraw.go:26-60 | At any later time and under any locks, what a draw did not take is due as before, and what it took is not. |
| Draws.SecondDrawTakesTheLocked | internal/db/orderdraw.go:26-60 | A second draw at once is for exactly the orders the first found locked and the second does not; a third for those locked both times. |
| Draws.SecondDrawIsIdle | internal/db/orderdraw.go:26-60 | So after one that found nothing locked a second changes and answers nothing, whatever is locked then. |
| Draws.FlagStands | internal/api/orders.go:504-510 | A drawn order stays drawn and closed through every event. |
| Draws.DrawnAtMostOnce | internal/db/orderdraw.go:26-60 | No order is drawn twice in any run. |
| Draws.DrawnIsClosedForGood | internal/api/orders.go:504-510 | In handler runs a drawn order is never open again. |
| Draws.DrawnAtMostOnceByStatements | internal/db/orderdraw.go:26-60 | With statements interleaved at will, and whatever clock each draw reads, no order is drawn twice. |
| Draws.OpensIff | internal/db/orders.go:163-228 | Of all statements a patch of its deadline to a later time is the only one that opens a closed order. |
| Draws.ClosedAllAlongIff | internal/db/orders.go:163-228 | However statements interleave, an order closed at a time stays closed for it if and only if none of them is such a patch. |
| Draws.LatePatchReopens | internal/db/orders.go:163-228 | A deadline patched in time but executed after the draw opens the drawn order again until the new deadline. |
| Draws.SparedByAll | internal/db/orders.go:157-244 | However many statements that miss an order interleave, it keeps its contents and what it costs. |
| Deletion.ActiveOrdersAreParticipations | internal/db/deletion.go:44-75 | The predicted number of active orders is the number of active orders in which IsParticipant holds. |
| Deletion.DeletionRows | internal/db/deletion.go:117-151 | Row by row what account deletion leaves: open items gone, closed ones the placeholder's, orders passed on, jobs vacated. |
| Deletion.ImpactIsExact | internal/db/deletion.go:44-75 | Each of the predicted counts is the number of rows the deletion then removes, passes on or vacates. |
| Deletion.NothingRefersToTheDeleted | internal/db/deletion.go:117-151 | Afterwards no order, item, session or token names the user. |
| Deletion.ExpiredTotalsStand | internal/db/deletion.go:117-151 | A closed order costs what it cost. |
| Deletion.OpenTotalsDropTheirLines | internal/db/deletion.go:117-151 | An open order costs what the others' items in it cost. |
| Cleanup.PassKeepsIntegrity | internal/db/cleanup.go:45-159 | Every step of the pass keeps the schema. |
| Cleanup.CleanupIsAFixpoint | internal/db/cleanup.go:45-159 | From any tables that satisfy the schema, a second pass with the same clock and retention removes nothing and changes nothing. |
| Cleanup.PassTakesExactly | internal/db/cleanup.go:45-159 | Step by step the pass takes exactly the rows a closed form on the tables before it says, each table keeping every other row: old orders with their items; soft-deleted dishes and modifications only such items refer to; categories, restaurants and images when all that refers to them goes. |
| Cleanup.PassTakesNoLivingRow | internal/db/cleanup.go:45-159 | No living restaurant, category or dish is removed or changed; a living modification goes if and only if its dish is soft-deleted and in no order that stays. |
| Cleanup.ALivingModificationGoes | migrations/000006_menu.up.sql:86-95 | A concrete pass that removes a living modification of a soft-deleted dish by cascade. |
| Cleanup.DryRunCounts | internal/db/cleanup.go:177-211 | A dry run's count is never above the real run's, step by step, and equals it if and only if the pass takes no row of that step that something refers to now, by the closed form on the tables before it. |
| Cleanup.DryRunIsExactForLeaves | internal/db/cleanup.go:177-211 | For orders, sessions and tokens the counts are always equal. |
| Cleanup.DryRunMayFallShort | internal/db/cleanup.go:177-211 | Concrete tables on which the dry run reports less than the run removes. |
| Cleanup.DishesBeforeOrdersLeavesWork | internal/db/cleanup.go:45-159 | Taking dishes before orders would leave work for a second pass: the order of the steps matters. |
| MenuOrder.ComputeNumericId | internal/api/summary.go:261-273 | The digit loop, in int64 arithmetic that wraps. |
| MenuOrder.NumericIdIsExactIff | internal/api/summary.go:261-273 | It reads the number that is written if and only if that is below 2^63. |
| MenuOrder.MenuLessIsStrictWeak | internal/api/summary.go:241-259 | lessByMenuOrder is a strict weak order for all ids, those that wrap included. |
| MenuOrder.SummaryOrderIsMenuOrder | internal/db/menu.go:15-30 | For ids that fit a bigint it is the order the SQL sorts the menu by. |
| MenuOrder.OrdersAgreeIff | internal/api/summary.go:241-273 | A line sorts among all that the menu can print as the menu has it if and only if its id fits a bigint, or wraps to exactly 2^63 - 1 with a text that is greater than that number's. |
| MenuOrder.SomeIdWrapsToTheTop | internal/api/menu.go:30 | Such an id there is, of 21 of the 32 digits allowed. |
| MenuOrder.HugeIdsSortFirst | internal/api/summary.go:241-273 | Ids from 2^63 up to 2^64 wrap below zero and sort before every number that fits, which the menu has the other way round. |
| Sorting.StableSortSorts | internal/api/summary.go:231-237 | The sort leaves the lines in order. |
| Sorting.StableSortPermutes | internal/api/summary.go:231-237 | It is a permutation of them. |
| Sorting.AnyStableSortIsThisOne | internal/api/summary.go:231-237 | Any stable sorting by a strict weak order gives this very sequence, so the library's algorithm does not matter. |
| Summary.LineTotalCents | internal/model/order.go:127-133 | The loop adds every delta to the unit price and multiplies once. |
| Summary.ModificationNames | internal/api/summary.go:279-286 | The names in byte order, a permutation of those ticked. |
| Summary.JoinedIsInjective | internal/api/summary.go:195-200 | The NUL join loses nothing of names a text column can hold. |
| Text.TrimIs | internal/api/summary.go:288-291 | Trimming takes off exactly the space outside the first and the last character that is none. |
| Summary.OneLineIff | internal/api/summary.go:180-200 | Two items share a line if and only if dish, unit price and the multiset of modification names agree, and the notes rune by rune in lower case but for the space around them. |
| Summary.Aggregate | internal/api/summary.go:180-238 | Map and order list grow to one line per key in first-met order, counting every item once, and come out in menu order. |
| Totals.LinesAreKinds | internal/api/summary.go:180-238 | Said of the items alone: the lines are one for each item that none before it is alike to, with its name, number, note and modifications, and the count and total of all alike to it; so items are on one line if and only if they are alike. |
| Totals.ArrangementDoesNotMatter | internal/api/summary.go:180-238 | Which keys there are, and each line's count and total, are the same for every permutation of the items. |
| Totals.FirstItemIsShown | internal/api/summary.go:202-217 | The name, note and modifications shown are those of the first item of the line. |
| Totals.PerPerson | internal/api/summary.go:294-331 | One entry per user with that user's items in order, what is owed and what is paid, sorted by name. |
| Totals.LinesConserve | internal/api/summary.go:140-146 | Line totals add up to the items' total and line counts to their quantities. |
| Totals.PersonsConserve | internal/api/summary.go:294-331 | What everybody owes adds up to what is unpaid, what everybody paid to what is paid. |
| Totals.OwedAndSettledMakeTheTotal | internal/api/summary.go:147-154 | Paid and unpaid make the whole. |
| Totals.BuildSummary | internal/api/summary.go:125-165 | The figures worked out from the aggregated lines are those of the items themselves, and everyone's shares come to the same; the fee is added once, and the warning is for a total strictly below the minimum. |
| Totals.WriteDetail | internal/api/orders.go:317-345 | The order page's own loop comes to the same figures, fee and warning. |
| CopyName.Taken.CopyName | internal/db/menucopy.go:22-39 | The loop ends within the number of names taken plus two rounds with the first candidate not taken; the name has at most 200 runes, and the set grows by exactly its lower-case form. |
| CopyName.NoMoreRounds | internal/db/menucopy.go:22-39 | The pigeonhole: counted candidates differ from one another, so only so many can be taken. |
| CopyName.CountedNamesDiffer | internal/db/menucopy.go:22-39 | Two counters never give names alike but for case, whatever was cut off the base. |
| CopyName.SuffixFits | internal/api/menucopy.go:11-40 | The label's bound leaves room for any counter an int can hold. |
| CopyName.TakenNames | internal/db/menucopy.go:123-141 | The set is exactly the lower-case forms of the living names. |
| CopyName.NamesTriedLook | internal/db/menucopy.go:22-39 | A name tried is the base, or its first runes trimmed where 200 are too few, with the label in brackets and the counter from the second on. |
| CopyName.DuplicateCategory | internal/db/menucopy.go:73-119 | Each dish's copy, in order, is the first name tried for that dish that neither a living dish nor an earlier copy has but for case, and the category's copy the first for the category; so the unique indexes let all of them in. |
| Duration.ExpandDayAndWeekUnits | internal/config/duration.go:54-107 | The index-driven scan writes what the component-wise expansion says, errors included. |
| Duration.UnitsAreMultiples | internal/config/duration.go:14-28 | Every unit is so many of the next smaller one, from nanoseconds to weeks, and nothing else is a unit. |
| Duration.FormatDuration | internal/config/duration.go:119-151 | The unit loop and the sign, in int64 arithmetic that wraps. |
| Duration.ExpansionKeepsTheSum | internal/config/duration.go:54-107 | Rewriting whole days and weeks as hours keeps the sum of the components, or keeps it out of range. |
| Duration.WholeDurationsAddUp | internal/config/duration.go:29-46 | A duration of whole components is their sum, with its sign, and refused exactly when that does not fit. |
| Duration.PrintedDurationsReadBack | internal/config/duration.go:119-151 | Every whole number of seconds reads back as itself. |
| Duration.DurationsReadBackIff | internal/config/duration.go:119-151 | Every duration does if and only if it is not the least int64. |
| Duration.LeastDurationIsRefused | internal/config/duration.go:128-151 | The least int64 prints with two signs and does not parse. |
| ByteSize.ParseByteSize | internal/config/bytesize.go:49-82 | Unit table, float64 product and conversion, with each way to fail. |
| ByteSize.FormatByteSize | internal/config/bytesize.go:88-108 | The largest binary unit that divides the size. |
| ByteSize.PrintedSizesReadBackIff | internal/config/bytesize.go:49-108 | A size reads back exactly when float64 can hold it, or the platform happens to convert the overflow to it. |
| ByteSize.PrintedSizesReadBack | internal/config/bytesize.go:49-108 | So sizes up to 2^53 and all multiples of 1024 do. |
| ByteSize.DecimalSizesAreRead | internal/config/bytesize.go:17-82 | K, M and G, with a B or not, stand for a thousand, a million and a thousand million bytes, read exactly up to 2^53. |
| ByteSize.NegativeSizesAreRefused | internal/config/bytesize.go:76-92 | A negative size prints as text the parser refuses. |
| ByteSize.WordsAreTakenForSizes | internal/config/bytesize.go:69-82 | Of the words ParseFloat reads, in any capitals, inf, infinity and nan, with a plus or not, are taken for sizes of the platform's choice; only -inf and -infinity are refused, as negative. |
| Float64.RoundingKeepsIff | internal/config/bytesize.go:69-82 | Rounding to 53 bits leaves exactly the multiples of the unit in the last place alone. |
| Float64.RoundingIsIdempotent | internal/config/bytesize.go:69-82 | What rounding gives is kept by rounding again. |
| Float64.DivisionRoundsExactlyIff | frontend/src/format.ts:262-285 | Below 2^53, rounding the float64 quotient of either sign gives what rounding the exact quotient gives, and one more exactly where that is half a unit of the divisor short of a half and the quotient has too few places left to show it. |
| Quoting.Quote | internal/config/writer.go:213-234 | The rune loop writes the escapes. |
| Quoting.QuotingIsUndoneIff | internal/config/writer.go:196-234 | Reading by YAML 1.2.2 undoes quoting if and only if the value has no C0 control character but tab, line feed and return; otherwise nothing can be read. |
| Settings.FormatReadsBackIff | internal/config/bind.go:19-74 | readSetting undoes formatSetting if and only if the value is one text can carry. |
| Settings.NamesReadBackIff | internal/logging/level.go:42-111 | A level's name parses to it exactly for the five real levels; the unset level does not. |
| Settings.LevelNumbersWrap | internal/logging/level.go:85-111 | A level given by number is one of the five modulo 256. |
| Settings.LevelNamesAreRead | internal/logging/level.go:85-111 | A level given by name is read in any capitals and with space around it, warning as warn. |
| Settings.NonsenseIsZero | internal/config/bind.go:19-55 | A number that cannot be read is 0, and a switch is on for six spellings and off for any other text. |
| Registry.RowIsGood | internal/config/settings.go:106-460 | A row of any kind the registry declares, with a sound default, is a setting the round trip is proved for. |
| Witness.SystemIsLawful | internal/config/bytesize.go:49-108 | A platform is given that satisfies every law the configuration theorems rest on, all at once. |
| Witness.RowsAreGood | internal/config/settings.go:103-116 | Two rows as declared make, on that platform, a table the theorems speak of. |
| ConfigFile.ValuesFrom | internal/config/writer.go:31-51 | Every setting has its value's text, or its default where that text is its type's zero. |
| ConfigRewrite.UnsetIff | internal/config/writer.go:31-74 | What is written as the declared default is exactly the empty text, the number 0, the duration 0 and the size 0: no switch, and no level, not even one that is unset. |
| ConfigFile.UnknownKeys | internal/config/writer.go:276-297 | Lists exactly the keys no section of the file would show. |
| ConfigRoundTrip.SettingIsRead | internal/config/writer.go:141-162 | A setting's lines add to what is read from its section exactly that setting with the text written, its two comments nothing. |
| ConfigFile.RenderFile | internal/config/writer.go:101-139 | The file section by section, or the unknown keys. |
| ConfigFile.FileReads | internal/config/writer.go:101-139 | The file is heading, explanation, the six sections in their order and the retired block. |
| ConfigFile.SettingReads | internal/config/writer.go:141-162 | A setting's comments: its usage as a sentence, then flag, variable and default; for a secret the variable alone, and no default. |
| ConfigFile.SectionKeepsOrder | internal/config/writer.go:247-255 | A section lists its settings in the order of the registry. |
| ConfigRoundTrip.RetiredBlockIsComment | internal/config/retired.go:95-109 | The block of retired keys is blank lines and comments, to YAML too, if and only if every retired key and value is printable. |
| ConfigReader.Load | internal/config/config.go:265-305 | Fails exactly when the file or one of its settings cannot be read. |
| ConfigRoundTrip.RenderedLinesAreLinesIff | internal/config/writer.go:101-162 | YAML breaks the file into the lines written, no value or comment breaking one, if and only if no retired key or value has a line feed or return. |
| ConfigRoundTrip.RenderedTextIsRead | internal/config/writer.go:101-234 | Reading the rendered text finds every setting with exactly the text written for it, and nothing else, if what is retired is printable. |
| ConfigRewrite.UnquotableTextBreaksTheFile | internal/config/writer.go:213-234 | One value with such a control character makes the whole file unreadable, whatever is retired. |
| ConfigRewrite.SpellingReadsTheSame | internal/config/writer.go:168-186 | Writing the default's spelling instead changes no meaning. |
| ConfigRewrite.UnbrokenRetiredReadsIff | internal/config/retired.go:95-109 | Without a break in it, what is retired can be read after the settings if and only if it is printable. |
| ConfigRewrite.ConfigurationReadsBackIff | internal/config/writer.go:22-51 | What is read back is the configuration with each zero field at its default, if and only if text can carry every value and YAML can read the retired lines after the settings; and each line is read as written if and only if what is retired is printable besides. |
| ConfigRewrite.RewritingAgainChangesNothing | internal/config/writer.go:22-162 | A second rewrite gives the same lines as the first, for every configuration. |
| Retiring.RetiredIn | internal/config/retired.go:49-92 | The line loop finds the unknown keys, sorted by key. |
| RetiredOnce.NothingToRetire | internal/config/retired.go:39-109 | A rendered file has nothing to retire, whatever was retired into it, returns included. |
| RetiredOnce.NothingBeforeAHeader | internal/config/retired.go:59-81 | What stands before the first section header is never retired. |
| RetiredOnce.FoundReturnsIff | internal/config/retired.go:68-88 | A section, key or value found has a return if and only if its part of the line has one with something other than space on both sides. |
| RetiredOnce.RetiredKeysAreLines | internal/config/retired.go:63-88 | No key or value found has a line feed; none has a return unless some line of the file has one with something on both sides; otherwise all are printable if the file is. |
| RetiredReturns.AReturnIsKept | internal/config/retired.go:63-88 | From a line with a return inside, the search finds one key whose value has what follows the return, for every such line. |
| RetiredReturns.AReturnEndsTheLine | internal/config/retired.go:39-48 | To YAML the same file has two keys. |
| RetiredReturns.AReturnLetsASettingIn | internal/config/retired.go:95-109 | Written back, what follows the return is a setting of the last section: one the file has already makes the whole unreadable, any other is read from it. |
| Money.PrintedIsParsed | frontend/src/format.ts:230-289 | The parser sees the written amount and sign the printer wrote, leading zeros and all. |
| Money.AmountsReadBackIff | frontend/src/format.ts:230-289 | With a minor unit not finer than the places written and both products below 2^53, an amount of either sign reads back if and only if it does not slip: perMajor one short of 10^digits, n positive, n mod perMajor half of it, and the first product too large. |
| Money.AmountsReadBack | frontend/src/format.ts:230-289 | So all do for every such perMajor but 10^digits - 1, decimal currencies and the ariary included. |
| Money.ANinthIsGained | frontend/src/format.ts:252-289 | Nine to the major unit at one place: 529114434788074 comes back as 529114434788075. |
| Money.CurrencyReadsBackIff | frontend/src/format.ts:252-289 | Where perMajor is at most 10^digits, all such amounts of a currency read back if and only if none slips, and always unless perMajor is 10^digits - 1; where it is more, some does not. |
| Money.TypedIff | frontend/src/format.ts:225-247 | A text is an amount if and only if what it has of digits, points, commas and minus signs is digits, a point or a comma and digits, with a minus before them or not and a digit among them. |
| Money.TypedAmountsAreCut | frontend/src/format.ts:245-266 | For a decimal currency what is typed, with a point or a comma, is cut to the places written: off by less than one minor unit, never upward in magnitude. |
| Limiter.LoginLimiter.Sweep | internal/api/ratelimit.go:150-158 | The sweeping loop leaves exactly the counters whose window runs. |
| Limiter.LoginLimiter.Allow | internal/api/ratelimit.go:68-82 | Sweeps; grants exactly when neither counter holds as many failures as its limit, a limit of zero or less and an empty key being none; otherwise names the positive wait of the name's counter, or of the address's if the name's is not full. |
| Limiter.LoginLimiter.RecordFailure | internal/api/ratelimit.go:85-100 | Sweeps and counts one failure on both keys. |
| Limiter.LoginLimiter.RecordSuccess | internal/api/ratelimit.go:108-113 | Forgets the name and nothing else. |
| Limiter.SpellingsShareIff | internal/api/ratelimit.go:43-53 | Two names share a counter if and only if they are alike but for case and the space around them. |
| Limiter.FailureCountsForAllSpellings | internal/api/ratelimit.go:85-142 | A failure under one spelling counts once for every other, in the window that runs or a new one, and no other name's counter moves. |
| Limiter.BoundIsKept | internal/api/ratelimit.go:115-142 | Failures counted plus attempts in flight never pass limit + c - 1 with c in flight. |
| Limiter.OneWindowHolds | internal/api/ratelimit.go:43-53 | One fixed window holds at most limit + c - 1 failures. |
| Limiter.AnyIntervalHolds | internal/api/ratelimit.go:43-53 | Any interval of a window's length holds fewer than twice that: fewer than twice the limit when each failure follows its own granting Allow. |
| Limiter.AnIntervalMayHoldThatMany | internal/api/ratelimit.go:43-53 | For every limit and window there is a run of attempts one after another in which an interval holds one short of twice the limit: the bound is exact. |
| Limiter.AWindowMayHoldThatMany | internal/api/ratelimit.go:43-53 | With two attempts in flight a limit of one lets two failures into one window. |
| Limiter.AddressesAreUnforgiven | internal/api/ratelimit.go:102-113 | For an address that needs no condition on successes. |
| Limiter.SweptIsFresh | internal/api/ratelimit.go:144-158 | After each sweeping call every counter was created within the last window. |
| Resets.IssuedLinksParseUntilExpiry | internal/auth/reset.go:86-134 | ParseReset undoes IssueReset exactly until the expiry in the link, which lies within the last second of the lifetime. |
| Resets.UsedResets.Spend | internal/api/passwordreset.go:88-106 | Sweeps, answers whether the token was used, and remembers it for a lifetime. |
| Resets.ParsesIff | internal/auth/reset.go:100-134 | For every token: taken for an account if and only if what follows its first separator is the signature of what precedes it, that decodes to the account and a second, and the second is ahead; expired if and only if it is all that and the second is not; malformed if and only if it is not. |
| Resets.ForgedLinksAreRefused | internal/auth/reset.go:104-108 | A token with another signature is malformed at any time, whatever it decodes to. |
| Resets.ResetHandlers.Complete | internal/api/passwordreset.go:207-240 | Parse, complexity, spend, in that order; only the last touches the store; a token with another signature is answered as invalid and leaves the store alone. |
| Resets.OutcomeIff | internal/api/passwordreset.go:207-240 | Which answer a request gets, on the parts of the link: expired, too weak with the link in time, or the password set if and only if no use of it is remembered. |
| Resets.StoreIs | internal/api/passwordreset.go:223-240 | The store stands unless a link in time comes with a strong password; then it is what has not run out and this link until an hour later. |
| Resets.SpendingKeepsOnlyRecent | internal/api/passwordreset.go:67-80 | The store holds only tokens spent within the last lifetime. |
| Resets.EachLinkWorksOnce | internal/api/passwordreset.go:88-106 | With one clock reading per request, no link sets two passwords in any run. |
| Resets.TwoReadingsSpendTwice | internal/api/passwordreset.go:215-237 | With the handler's two readings a concrete run spends one link twice. |
| Resets.WorksAgainIff | internal/api/passwordreset.go:207-240 | The next use of a link that parses succeeds if and only if it is spent a lifetime or more after the first, whatever other links are used in between. |
| Router.Router.RunList | frontend/src/router.ts:140-144 | Empties a list before calling anything in it, then calls each once in order. |
| Router.Router.BeginRender | frontend/src/router.ts:167-195 | A render takes the next ticket and an empty list of its own. |
| Router.Router.FinishRender | frontend/src/router.ts:197-211 | Overtaken, it runs its own list; otherwise the outgoing page's, and takes over. |
| Router.Router.StopRouting | frontend/src/router.ts:116-120 | Runs the list of the page on screen. |
| Router.ShownTicketsIncrease | frontend/src/router.ts:87-90 | In every run of interleaved renders the tickets of the pages shown strictly increase. |
| Router.NewestRenderIsShown | frontend/src/router.ts:167-211 | Once all builds are done, the newest render is on screen unless it was itself rejected, whatever became of the others. |
| Router.GonePagesAreUndoneOnce | frontend/src/router.ts:92-95 | A cleanup registered while its page was being built or shown has run exactly once when the page is gone. |
| Router.NothingRunsTwice | frontend/src/router.ts:140-144 | No cleanup ever runs twice. |
| Router.OnlyStopUndoesTheScreen | frontend/src/router.ts:197-211 | Nothing but stop runs a cleanup of the page that is on screen. |

## Left out

- HTTP, JSON, cookies, middleware, server-sent events, mail and logging: plumbing over libraries.
- Sessions and tokens beyond their rows, their cleanup and their deletion with an account.
- Order messages (migration 000017): no rule modelled here reads them; they go with their order and account by cascade.
- Unique indexes on names and the CHECKs on lengths, prices and id formats: no statement modelled here depends on them; a statement they refuse is `Refused`.
- Audit columns, timestamps of rows, tags, allergens, additives, availability filters, contacts and opening hours.
- Availability evaluation: whether a dish is served at the order's time is a parameter of adding an item.
- Updating a category's name or order, and the handlers of restaurants, menus and users: the statements are steps of a run on their own, with any arguments.
- Locks: each statement sees the tables as they are and is one step. Under READ COMMITTED that is an idealisation where a statement asks about rows of another table that are not committed yet: an order's INSERT holds its restaurant's row FOR KEY SHARE, which the soft delete's UPDATE does not wait for, and UpdateOrder's NOT EXISTS does not see an item in another's open transaction.
- Uniformity of the draw: a pick is any person it may pick.
- plainText, titles and the retry-after seconds: single-body renderings.
- int64 overflow of totals: sums are exact integers, as the schema's bounds on quantities and prices keep them far below 2^63.
- A line's total as count times unit price: price deltas are not in the key, so the code promises no such product.
- Fractions in durations: what float64 makes of them is a parameter; whole components are exact.
- Duration.DurationsReadBackIff: for durations that are no whole number of seconds it rests on the standard library's String and ParseDuration undoing each other.
- Money.CurrencyReadsBackIff: that a finer minor unit loses an amount, for scales so large that half a major unit's products pass 2^52.
- Settings.ParseLevel: numbers are taken modulo 256 as the conversion to uint8 does.
- Registry.RowIsGood: of the registry's 38 rows two are entered (`Witness.RowsAreGood`); that the keys and flags of all are distinct is a hypothesis of the file's theorems.
- Settings without a key, flags, environment and precedence: they never reach the file.
- Retiring.RetiredIn: the order among equal keys is the sort's choice, as in the source.
- Hexadecimal escapes and folding in YAML scalars: the writer produces neither, and a scalar is one line.
- Writing the file atomically, its mode and owner: operating-system effects.
- Interleaving.AddingKeepsIff: what commits between the insert and the reading of the chosen modifications; the snapshots are taken with the insert.
- CopyName.DuplicateCategory: the rows it inserts are left out; PostgreSQL's lower() and Go's ToLower are taken to agree.
- Limiter.LoginLimiter.Allow: the mutex makes each call one step; locking itself is not modelled.
- Cryptography: the MAC lets no other link through (`Genuine`), and distinct links have distinct hashes.
- Restarting the server, which forgets the limiter's and the reset store's contents.
- Router.Router.FinishRender: a cleanup that throws, and one that calls the router while a list is being run, which has the effect of doing so right after.
- Router.GonePagesAreUndoneOnce: a render whose build was rejected is outside it; its list is never run.
- Unicode normalisation and locale collation: letter case is a map on runes that fixes digits, spaces and brackets.
