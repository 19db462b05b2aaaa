# Butterfly farm management — the business rules, in Dafny

This project models the deterministic business layer of a farm-management
web application for a butterfly breeding operation. The pages themselves
are out of scope. The layer underneath them keeps its data in CSV tables and
one SQLite users table, and consists of:

- **`CsvStore`** — the tabular record store. A file system is a map from a
  file name to a file. A file is a header plus positional data lines, or a
  file that cannot be parsed. Loading turns a file into a frame: its columns
  plus rows, where each row maps column names to values. Empty fields read
  back as the missing value. The operations are append/overwrite saving,
  loading, update-all-matching with a `last_updated` stamp,
  delete-matching, AND-ed search, merging with optional de-duplication,
  filtered export and column-set validation.
- **`Database`** — the registry of the ten CSV tables and their columns.
  Initialisation creates only the missing tables, header-only. The module
  also covers the record count on the information page, the reset, and the
  default administrator inserted with `INSERT OR IGNORE`.
- **`Premium`** — the wallet and commission state machine, as a class over
  the users table and three append-only ledgers. It covers:
  - the one-time 200-peso signup bonus;
  - the one-shot promotion to level 2 at 260,000 earnings, which credits 20,000;
  - the premium subscription;
  - wallet purchases, debited only when the balance covers them;
  - the wallet ledger's before/after balances.
- **`PointOfSale`** — the cashier's cart:
  - a cart that merges entries by item id;
  - quantity edits and removal by position;
  - the totals;
  - payment, which writes one transaction line plus one line per cart entry;
  - the order-number format.
- **`PosOrder`** — the standalone purchase terminal:
  - an append-only current order and its revenue, cost and profit subtotals;
  - checkout into the purchase log;
  - breeding events and the overdue and upcoming feeding windows.
- **`SalesTracking`** — pupae sales and purchases:
  - the record-construction guards;
  - the user and inclusive date-range filters;
  - market totals;
  - per-customer aggregation and customer contacts.
- **`Booking`** — farm visits:
  - the cost and capacity rules;
  - the submission guard;
  - the Pending → Cancelled transition on the bookings table;
  - per-user status counts;
  - the farms a user may review, and the review guard.
- **`PurchaserProfile`** — the purchaser pages:
  - the quick-order builder and its running total;
  - writing one history row per ordered species;
  - the order-history filters;
  - the status glyphs;
  - saving and loading the purchaser profile.
- **`Util`** — generic sequence helpers: filtering with `Where`, sums,
  de-duplication that keeps the first occurrence, subsequences and
  integer-to-text conversion.

Values are `Str`, `Num` (an unbounded integer) or `Null`. Money is an
integer number of pesos, or of cents where the page accepts decimal prices.
Dates are day numbers and times are second counts. The clock, identifiers,
random order numbers and password hashes become parameters.

Some behaviour of the code as written is kept in the model on purpose:

- Claiming the signup bonus for an id that has no users row still reports
  success and writes a ledger line from 0 to 200 (`Premium.ClaimUnknownUser`).
  The SQL `UPDATE` touches no row, and the status read answers "not
  claimed".
- A string search criterion is matched against the text form of the cell.
  A missing cell therefore reads as `NaN`, and a criterion such as `"an"`
  matches empty cells (`CsvStore.EmptyCellMatchesNan`).
- The cashier session's `add_to_cart` merges an entry without resetting its
  profit (`PointOfSale.PosSession.AddToCart`). The profit shown, and the item
  lines' `subtotal_profit`, then lag behind revenue − cost
  (`PointOfSale.MergeBreaksProfit`). The corrected merge is proved beside it
  (`PointOfSale.AddKeepsValid`).

## Model

| member | source | states |
|---|---|---|
| CsvStore.SaveToCsv | utils/csv_handlers.py:12-40 | Only the named file changes. An existing file in append mode gets the record as one more positional line with no header. Otherwise the file is rewritten with the record's keys as the header and the record as its only line. |
| CsvStore.AppendReadsBack | utils/csv_handlers.py:29-31 | Appending a record whose keys are the file's header reads back as the old rows plus that record, with its empty fields read as missing. The columns are unchanged. |
| CsvStore.FreshSaveReadsBack | utils/csv_handlers.py:32-34 | An overwrite, or a save to an absent file, reads back as a table with the record's keys as columns and the record as its only row. |
| CsvStore.SaveReadsBack | utils/csv_handlers.py:28-34 | A save to an absent file, or an append to a file already holding those columns, keeps the file loadable with those columns. The loaded rows are the old rows plus the new record. |
| CsvStore.AppendKeepsReady | utils/csv_handlers.py:29-31 | Appending a record with the file's columns keeps the file well-formed: same header, and no line longer than it. |
| CsvStore.Load | utils/csv_handlers.py:42-62 | Every loaded table is well-formed. A missing file or an unparsable file gives the empty table, and so does a file with a line longer than its header (see "## Left out" for where pandas differs). Otherwise the columns are the header's names and there is one row per line. |
| CsvStore.LoadedRowsNormalized | utils/csv_handlers.py:52-55 | No loaded row holds an empty string: an empty field reads back as missing. |
| CsvStore.LoadAfterWrite | utils/csv_handlers.py:99 | Writing a table with `to_csv` and loading it back gives the same table, with empty strings read back as missing. |
| CsvStore.ParseDictLine | utils/csv_handlers.py:26-34 | The line a record becomes parses back, under its own keys as header, to the record. |
| CsvStore.FieldReadsBack | utils/csv_handlers.py:26-34 | Each field of a saved record reads back as its normalised value. |
| CsvStore.MatchMask | utils/csv_handlers.py:85 | The mask is true exactly at the rows whose id column equals the record id. |
| CsvStore.UpdateRecord | utils/csv_handlers.py:64-105 | It fails and leaves the files unchanged exactly when the table is empty, lacks the id column (the lookup raises), or has no matching row. Otherwise it rewrites the file with the updates, and then the stamp, applied to the matching rows by a mask computed once. |
| CsvStore.UpdateEffect | utils/csv_handlers.py:85-99 | Every matching row, not only the first, gets each updated field's last value and `last_updated` = now. Fields not updated keep their values. Non-matching rows keep all their values and get missing values in any new columns. The row count is unchanged. |
| CsvStore.ApplyUpdatesWellFormed | utils/csv_handlers.py:92-96 | After the updates the table is still well-formed. Its column set is the old one plus the updated fields. |
| CsvStore.ApplyUpdatesRow | utils/csv_handlers.py:92-93 | Row i after the update loop takes the last assigned value of every assigned field when its mask bit is set. Every other cell it had is kept, and a newly added column is missing in a row whose bit is clear. |
| CsvStore.Stamped | utils/csv_handlers.py:92-96 | The stamp is applied after the caller's updates, as the last field. |
| CsvStore.DeleteRecord | utils/csv_handlers.py:107-143 | It fails and leaves the files unchanged exactly when the table is empty, lacks the id column, or has no matching row. On success only the named file changes. |
| CsvStore.DeletedRows | utils/csv_handlers.py:127-134 | The kept rows are a subsequence of the table, in order, with the same columns. Kept plus matching rows count the whole table. A row is kept iff it is in the table and does not match. |
| CsvStore.DeleteReadsBack | utils/csv_handlers.py:134-137 | After a successful delete, loading the file gives exactly the non-matching rows. |
| CsvStore.SearchRecords | utils/csv_handlers.py:145-176 | The loop that narrows the table criterion by criterion computes the AND-ed search over the loaded table. |
| CsvStore.SearchedRows | utils/csv_handlers.py:159-172 | A search result has the table's columns and is a subsequence of its rows. A row is in it iff it is in the table and meets every criterion. |
| CsvStore.MatchesAllEach | utils/csv_handlers.py:163-170 | A row passes the search iff it meets each criterion separately. A string meets a cell by case-insensitive substring match, other values by equality, and criteria naming absent columns are ignored. |
| CsvStore.EmptyCellMatchesNan | utils/csv_handlers.py:167 | A missing cell in a searched column matches the string criterion "NaN", because the cell is searched in its text form. |
| CsvStore.Concat | utils/csv_handlers.py:269 | Concatenating two tables keeps every row and unions their column sets. |
| CsvStore.MergeFiles | utils/csv_handlers.py:250-286 | It fails and leaves the files unchanged iff every input is missing or empty. Otherwise it writes the concatenation of the non-empty inputs, in order, de-duplicated when asked. |
| CsvStore.MergedContainsInputs | utils/csv_handlers.py:265-269 | Every row of every non-empty input is in the merged table, padded with missing values to the merged columns. |
| CsvStore.MergedRowCount | utils/csv_handlers.py:265-269 | The merged table has exactly as many rows as the non-empty inputs together. |
| CsvStore.MergeDeduplicated | utils/csv_handlers.py:276-277 | After de-duplication no two rows are equal. The same rows are still represented, and there are no more rows than the inputs had. |
| CsvStore.ExportFiltered | utils/csv_handlers.py:288-313 | It fails and leaves the files unchanged iff the search result is empty. Otherwise it writes the search result to the export file. |
| CsvStore.ValidateStructure | utils/csv_handlers.py:315-354 | An empty table is invalid, with every required column missing and no record count. Otherwise missing = required − existing, extra = existing − required, and the count is the row count. Valid iff the table is non-empty and contains every required column. A non-empty table also reports its column count, and an invalid one an error naming the missing columns; an empty table reports the empty-file error. |
| Database.InitializeCsvFiles | modules/database.py:53-110 | The loop over the registry computes the initialisation of every missing table. |
| Database.CreateMissing | modules/database.py:107-110 | For any list of tables, the loop leaves the files the initialiser defines: each missing table is created header-only, in list order. |
| Database.InitializeEffect | modules/database.py:107-110 | Afterwards every registry table exists and existing files are untouched. Each previously absent table is header-only, with its columns in registry order. |
| Database.InitializeWhenComplete | modules/database.py:107-110 | When every table already exists, initialisation changes nothing. |
| Database.InitializeIdempotent | modules/database.py:107-110 | Initialising twice gives the same files as initialising once. |
| Database.RegistryNamesDistinct | modules/database.py:56-105 | The ten registry table names are distinct. |
| Database.CreatedTableLoadsEmpty | modules/database.py:108-110 | A table created by initialisation loads as an empty table with the registry columns. |
| Database.GetDatabaseInfo | modules/database.py:112-164 | It lists every database table and every existing CSV table. The total is the sum of all listed record counts. |
| Database.CopyTables | modules/database.py:127-135 | The database tables are listed in order, and the running total is the sum of their counts. |
| Database.CountFiles | modules/database.py:147-162 | For any list of names, the loop lists one entry per existing table, in order, and the running total is the sum of their records. |
| Database.CsvEntriesListExisting | modules/database.py:147-162 | Exactly the existing listed CSV files are reported. An unreadable one is reported with 0 records. |
| Database.RemoveAll | modules/database.py:207-209 | Removing the listed files drops exactly those names and leaves every other file as it was. |
| Database.ResetCsvFiles | modules/database.py:192-212 | The reset removes every listed CSV file and then runs the initialiser. |
| Database.RemoveTables | modules/database.py:207-209 | For any list of names, the loop removes exactly the existing listed files. |
| Database.ResetEffect | modules/database.py:192-212 | After a reset every registry table is header-only, whatever it held, and every file outside the list is untouched. |
| Database.InsertOrIgnore | modules/database.py:45-48 | The username is present afterwards. A taken name leaves the table unchanged; a new name appends exactly one row. |
| Database.CountUserUnique | modules/database.py:33 | Under the UNIQUE constraint a username occurs at most once, and once iff it is present. |
| Database.InsertKeepsUnique | modules/database.py:45-48 | `INSERT OR IGNORE` preserves username uniqueness. |
| Database.SingleAdmin | modules/database.py:25-51 | After user initialisation there is exactly one admin row. Running the initialisation again changes nothing. |
| Premium.AddSql | modules/premium_system.py:112 | SQL addition on a NULL column stays NULL. Otherwise the value grows by the amount. |
| Premium.Status | modules/premium_system.py:73-97 | An unknown id gives nothing. A NULL earnings value reads as 0, a NULL level as 1 and a NULL balance as 0. The claimed flag is read as a truth value. |
| Premium.LedgerRow | modules/premium_system.py:205-214 | `balance_before` is the balance as read. `balance_after` is before + amount for bonus, commission and deposit, and before − amount for every other type. |
| Premium.AddEwalletTransaction | modules/premium_system.py:205-214 | Exactly one ledger line is appended and nothing else changes. |
| Premium.ClaimEffect | modules/premium_system.py:99-124 | When the flag is set the claim fails and nothing changes. Otherwise only this user's balance grows by 200, the flag is set, and one "bonus" ledger line is appended. |
| Premium.ClaimOnce | modules/premium_system.py:104-107 | A second claim by a known user always fails and changes nothing. |
| Premium.ClaimUnknownUser | modules/premium_system.py:99-121 | For an id with no users row the claim reports success and touches no user, but appends a ledger line from 0 to 200. |
| Premium.AddEarningsEffect | modules/premium_system.py:156-200 | Earnings always grow by the amount. Reaching 260000 below level 2 sets level 2, credits 20000, and appends one commission line with milestone 260000 and one ledger line. Otherwise only the earnings change. |
| Premium.AddEarningsNullFails | modules/premium_system.py:163-177 | A NULL earnings value, or a NULL level compared at the milestone, makes the call fail with nothing changed. |
| Premium.PromotionAtMostOnce | modules/premium_system.py:177-200 | Over any sequence of `add_earnings` calls, at most one commission line is appended and earlier lines are kept. A user already at level 2 gets none. |
| Premium.SettledRunNoCommission | modules/premium_system.py:177 | Once the level is at least 2, no run of earnings appends a commission. |
| Premium.PurchaseEffect | modules/premium_system.py:216-238 | An unknown user, or a balance below the amount, fails with nothing changed. Otherwise only this user's balance drops by exactly the amount, staying non-negative, and one "purchase" ledger line is appended. |
| Premium.SubscribeEffect | modules/premium_system.py:126-154 | The user becomes premium with end date = start + 30 days. One subscription line at 299 is appended; the balance and the other ledgers are unchanged. |
| Premium.LastBalanceAppend | modules/premium_system.py:211-214 | A user's last recorded balance is that of their newest ledger line. |
| Premium.DefaultRowsAgree | modules/premium_system.py:22-31 | Fresh users with default columns agree with an empty ledger. |
| Premium.OperationsKeepLedgerAgreement | modules/premium_system.py:99-238 | Claim, earnings, purchase and subscription all keep the invariant: each user's newest ledger `balance_after` equals their balance. |
| Premium.PremiumDb.constructor | modules/premium_system.py:22-31 | The database starts with default user rows, empty ledgers and the ledger invariant. |
| Premium.PremiumDb.AppendLedger | modules/premium_system.py:205-214 | Appends exactly the ledger line computed from the committed state. |
| Premium.PremiumDb.ClaimSignupBonus | modules/premium_system.py:99-124 | The method's new state and result are those of the claim step. |
| Premium.PremiumDb.SubscribePremium | modules/premium_system.py:126-154 | The method's new state and result are those of the subscribe step. |
| Premium.PremiumDb.AddEarnings | modules/premium_system.py:156-203 | The method's new state and result are those of the earnings step. |
| Premium.PremiumDb.UseEwalletForPurchase | modules/premium_system.py:216-238 | The method's new state and result are those of the purchase step. |
| PointOfSale.NewItem | modules/point_of_sale.py:113-122 | A new entry has subtotal = price × q and profit = (price − cost) × q. |
| PointOfSale.FindItem | modules/point_of_sale.py:105-106 | It finds the first cart entry with the item id, or reports that there is none. |
| PointOfSale.AddToCartEffect | modules/point_of_sale.py:100-125 | As written: a new item is appended as a fresh entry. An item already in the cart has its quantity raised by q and its subtotal reset to the new quantity times the price, while its profit is kept. The cart length and the other entries are unchanged. Each item id stays in the cart at most once, with catalogue prices and subtotals that match the quantities. |
| PointOfSale.AddTotals | modules/point_of_sale.py:100-125 | As written, after adding, total items, revenue and cost grow by q, price × q and cost × q. The profit shown grows by (price − cost) × q for a new entry and stays the same for a merge. |
| PointOfSale.AddProfitGap | modules/point_of_sale.py:105-110 | As written, a merge widens the gap between revenue − cost and the profit shown by (price − cost) × q. Adding a new entry leaves the gap unchanged. |
| PointOfSale.MergeBreaksProfit | modules/point_of_sale.py:105-110 | Starting from a valid cart, the profit shown after a merge as written equals revenue − cost exactly when (price − cost) × q is zero. |
| PointOfSale.AddKeepsValid | modules/point_of_sale.py:157-160 | Corrected half of the merge finding: a merge that also resets profit, as the quantity edit does, keeps the cart valid, with subtotals and profits that both match the quantities. |
| PointOfSale.StaleProfitAfterMerge | modules/point_of_sale.py:105-110 | As written, adding the same item twice leaves profit at the first add's value. The shown profit is then 13 while revenue − cost is 26. |
| PointOfSale.EditQuantityEffect | modules/point_of_sale.py:157-160 | An edit sets that entry's quantity, subtotal and profit together. Every other entry is unchanged, and the item total changes by the difference. |
| PointOfSale.EditKeepsSession | modules/point_of_sale.py:157-160 | As written, the quantity edit keeps the cart invariant that holds after `add_to_cart`, and a changed entry's profit again matches its quantity. |
| PointOfSale.RemoveKeepsSession | modules/point_of_sale.py:167-168 | As written, removing an entry keeps the cart invariant that holds after `add_to_cart`. |
| PointOfSale.RemoveEffect | modules/point_of_sale.py:167-168 | Removing at idx deletes exactly that entry and keeps the rest in order. Each total drops by that entry's part. |
| PointOfSale.ProfitIsRevenueMinusCost | modules/point_of_sale.py:173-175 | For entries whose profit matches their quantity, the summed profit is revenue − Σ cost × quantity. |
| PointOfSale.ItemProfitsMatchTransaction | modules/point_of_sale.py:226-228 | Corrected half of the merge finding: in a valid cart, which the corrected merge keeps, the item lines' profits add up to the transaction's total profit. |
| PointOfSale.TransactionFields | modules/point_of_sale.py:231-244 | The transaction record has exactly the transaction columns, in order. |
| PointOfSale.ItemFields | modules/point_of_sale.py:251-264 | Each item record has exactly the item columns, in order. |
| PointOfSale.SaveItemsFrame | modules/point_of_sale.py:250-265 | Writing the item lines leaves every other file unchanged. |
| PointOfSale.ItemsReadBack | modules/point_of_sale.py:250-265 | The items file reads back as its old rows plus one row per cart entry, in order. |
| PointOfSale.PaymentReadsBack | modules/point_of_sale.py:246-265 | Payment adds exactly one transaction row and one item row per cart entry. |
| PointOfSale.InitializedTablesAreReady | modules/point_of_sale.py:246-265 | Tables created by the schema initialiser accept the payment's records. |
| PointOfSale.GenerateOrderNumber | modules/point_of_sale.py:500-502 | The order number is "ORD", the date, then four digits. |
| PointOfSale.PosSession.constructor | modules/point_of_sale.py:35-39 | A session starts with an empty cart and a given order number. |
| PointOfSale.PosSession.AddToCart | modules/point_of_sale.py:100-125 | The cart becomes the cart after `add_to_cart` as written: a merge updates quantity and subtotal and keeps the profit. |
| PointOfSale.PosSession.EditQuantity | modules/point_of_sale.py:157-160 | The cart becomes the cart after the edit. |
| PointOfSale.PosSession.RemoveItem | modules/point_of_sale.py:167-168 | The cart becomes the old cart without entry idx. |
| PointOfSale.PosSession.ClearCart | modules/point_of_sale.py:218-220 | Empties the cart and keeps the order number. |
| PointOfSale.PosSession.ProcessPayment | modules/point_of_sale.py:222-279 | Writes the transaction and item rows for the old cart, empties the cart and takes the next order number. |
| PosOrder.LineFor | attached_assets/POS_1753670342043.py:74-83 | A line has revenue = price × q and cost = cost × q, and profit = revenue − cost. |
| PosOrder.AddItemEffect | attached_assets/POS_1753670342043.py:67-87 | An unknown id leaves the order unchanged. A known id always appends one new line, and the revenue and cost totals grow by that line's. |
| PosOrder.NetProfitIsSumOfProfits | attached_assets/POS_1753670342043.py:363-365 | Net profit (total revenue − total cost) equals the sum of the lines' profits. |
| PosOrder.RowsFor | attached_assets/POS_1753670342043.py:398-411 | Checkout writes one purchase row per order line, in order. |
| PosOrder.RowsForTotals | attached_assets/POS_1753670342043.py:398-411 | The rows written carry the order's total revenue and total cost. |
| PosOrder.CheckoutAddsToAnalytics | attached_assets/POS_1753670342043.py:393-426 | After a checkout the log's revenue grows by the order total and its profit by the order's net profit. |
| PosOrder.BreedingEvent | attached_assets/POS_1753670342043.py:530-557 | An event is recorded iff both parents are chosen. Its next feeding day is the breeding day + 7. |
| PosOrder.FeedingWindowsDisjoint | attached_assets/POS_1753670342043.py:628-669 | No batch is both overdue and upcoming, so the two alerts together list at most the whole log. |
| PosOrder.FreshBatchIsUpcoming | attached_assets/POS_1753670342043.py:664-669 | A batch bred today is upcoming and not overdue. |
| PosOrder.OldBatchIsOverdue | attached_assets/POS_1753670342043.py:628-632 | A batch whose feeding day has passed is overdue. |
| PosOrder.PurchaseTerminal.constructor | attached_assets/POS_1753670342043.py:311-316 | The terminal starts with an empty order and an order number in [100000, 999999]. |
| PosOrder.PurchaseTerminal.AddItemToSessionOrder | attached_assets/POS_1753670342043.py:67-83 | It reports whether the id is known, and the order becomes the order after adding. Every line stays balanced. |
| PosOrder.PurchaseTerminal.CompletePurchase | attached_assets/POS_1753670342043.py:393-426 | An empty order writes nothing. Otherwise one row per line is logged, the order is cleared and a new number in range is taken. |
| PosOrder.PurchaseTerminal.AddBreedingEvent | attached_assets/POS_1753670342043.py:530-557 | The event is appended iff both parents are chosen; nothing else changes. |
| SalesTracking.SaleFields | modules/sales_tracking.py:67-82 | The sale record has exactly the 14 sale columns, in order. |
| SalesTracking.PurchaseFields | modules/sales_tracking.py:196-212 | The purchase record has exactly the 15 purchase columns, in order. |
| SalesTracking.SaleRow | modules/sales_tracking.py:63-82 | A saved sale has total_amount = quantity × price and carries the seller, buyer and date. |
| SalesTracking.PurchaseRow | modules/sales_tracking.py:192-212 | A saved purchase has total_cost = quantity × price and carries the buyer, seller and date. |
| SalesTracking.RecordSaleEffect | modules/sales_tracking.py:63-85 | With no buyer name nothing is saved. Otherwise the sale is the new last row, and "my sales" grows by exactly that row. |
| SalesTracking.RecordPurchaseEffect | modules/sales_tracking.py:192-215 | With no seller name nothing is saved. Otherwise the purchase is the new last row, and "my purchases" grows by exactly that row. |
| SalesTracking.RecordKeepsReady | modules/sales_tracking.py:85-215 | Recording either kind keeps both tables loadable with their columns. |
| SalesTracking.UserSalesExactly | modules/sales_tracking.py:97 | "My sales" are exactly the rows whose seller is the user, in table order. |
| SalesTracking.DateFilterInclusive | modules/sales_tracking.py:130-134 | A row passes the date filter iff start ≤ date ≤ end; both end days are included. |
| SalesTracking.FilterOrderAgrees | modules/sales_tracking.py:288-348 | Filtering by user then by date gives what filtering by date then by user gives. |
| SalesTracking.Market | modules/sales_tracking.py:283-309 | The overview exists iff both tables are non-empty. Transactions are the filtered row counts added, and volume and value are the column sums added. |
| SalesTracking.RangeSplit | modules/sales_tracking.py:288-297 | Splitting a date range at a day splits the filtered rows and their sums exactly. |
| SalesTracking.MarketSplit | modules/sales_tracking.py:301-309 | The market totals over a range are the totals of its two halves added. |
| SalesTracking.CustomerNames | modules/sales_tracking.py:397 | The grouping keys are distinct and cover every sale with a buyer name. |
| SalesTracking.IndicatorSum | modules/sales_tracking.py:397-401 | Summed over distinct buyers, a sale's contribution counts once, under its own buyer, and only if it has one. |
| SalesTracking.BuyerTotalsAddUp | modules/sales_tracking.py:397-401 | Per-buyer sums add up to the sum over all named sales. |
| SalesTracking.StatsOverSums | modules/sales_tracking.py:397-405 | The stats' order counts and amounts are the per-buyer counts and sums. |
| SalesTracking.CustomerOrdersAddUp | modules/sales_tracking.py:397-405 | Customer order counts sum to the named sales with a date; when every sale has both, they sum to the number of the user's sales. The amounts add up likewise. |
| SalesTracking.ContactsExactly | modules/sales_tracking.py:436-437 | Contacts are distinct, and are exactly the (buyer, contact) pairs of the sales whose contact is present. |
| SalesTracking.BlankContactListed | modules/sales_tracking.py:436-437 | As written, a sale recorded with an empty contact is listed with a missing contact. The corrected list omits it. |
| SalesTracking.BlankContactIn | modules/sales_tracking.py:437 | A sale with a missing contact is in the as-written list but not in the corrected one. |
| Booking.TotalCost | modules/booking_system.py:148-172 | Cost = visitors × price per person, between one visitor's price and a full farm's. |
| Booking.FarmsBookable | modules/booking_system.py:32-105 | Every farm has a positive price, room for at least one visitor and a name. |
| Booking.BookingFields | modules/booking_system.py:183-199 | The booking record has exactly the 15 booking columns, in order. |
| Booking.BookingRow | modules/booking_system.py:183-199 | A new booking is Pending, booked by the user, with total cost = visitors × price. |
| Booking.SubmitBookingEffect | modules/booking_system.py:180-202 | Without name, phone and terms agreement nothing is saved. Otherwise the booking is the new last row and the user's bookings grow by it. |
| Booking.StatsBounded | modules/booking_system.py:228-244 | Confirmed + pending ≤ total ≤ rows, where each count is the number of the user's rows with that status. |
| Booking.StatusFilterExactly | modules/booking_system.py:228-258 | The status filter keeps exactly the user's rows with that status. |
| Booking.WithStatus | modules/booking_system.py:289 | Setting one row's status keeps the columns and the row count. |
| Booking.BookingsTable.FromFile | modules/booking_system.py:225 | The in-memory table is the loaded bookings file. |
| Booking.BookingsTable.SetStatus | modules/booking_system.py:289 | The table becomes the old one with that row's status set. |
| Booking.CancelBooking | modules/booking_system.py:284-290 | It cancels iff the row is the user's own Pending booking, and the files become the cancel result. |
| Booking.CancelEffect | modules/booking_system.py:284-290 | Cancel sets that one row's status to Cancelled and leaves every other row, and the row count, unchanged. |
| Booking.CancelCounts | modules/booking_system.py:239-290 | After a cancel the user's total and confirmed counts are unchanged and pending is one fewer. |
| Booking.CancelRowCounts | modules/booking_system.py:239-244 | Setting one pending row of the user to Cancelled keeps the user's total and confirmed counts and lowers pending by one. |
| Booking.NewBookingCancellable | modules/booking_system.py:196-284 | A booking just submitted can be cancelled by the user who made it. |
| Booking.ReviewableExactly | modules/booking_system.py:413-419 | The reviewable farms are distinct, and are exactly the farm names of the user's Confirmed bookings. |
| Booking.OfferedFarmVisited | modules/booking_system.py:413-422 | A farm offered for review comes from a Confirmed booking of the user. |
| Booking.ReviewFields | modules/booking_system.py:441-453 | The review record has exactly the 11 review columns, in order. |
| Booking.SubmitReviewEffect | modules/booking_system.py:439-456 | Without both title and text nothing is saved. Otherwise the review is the new last row, naming the reviewer and the chosen farm. |
| Booking.ReviewSaved | modules/booking_system.py:456 | A saved review reads back as the last row with its reviewer and farm. |
| PurchaserProfile.ItemFor | modules/purchaser_profile.py:126-133 | A summary line has total = quantity × unit price. |
| PurchaserProfile.QuickOrderItems | modules/purchaser_profile.py:100-134 | Only species with quantity > 0 are included, and all of them are, each from the inventory and within stock. Each has total = quantity × price, and the line totals add up to the order total. |
| PurchaserProfile.BuildQuickOrder | modules/purchaser_profile.py:100-134 | Over the shop's inventory, the form builds exactly the summary lines. Its running total is their sum and equals quantity × price over the whole form. |
| PurchaserProfile.SummarizeOrder | modules/purchaser_profile.py:101-134 | For any inventory, the loop yields one summary line per species with a positive quantity, in order, and a running total equal to the lines' sum. |
| PurchaserProfile.OrderFields | modules/purchaser_profile.py:324-337 | An order row has exactly the 12 history columns, in order. |
| PurchaserProfile.ProcessQuickOrder | modules/purchaser_profile.py:318-343 | The loop writes one history row per item. |
| PurchaserProfile.SubmitQuickOrder | modules/purchaser_profile.py:158-166 | The order is placed iff it has at least one line and a delivery address; otherwise nothing is written. |
| PurchaserProfile.OrdersReadBack | modules/purchaser_profile.py:323-339 | The history reads back as its old rows plus one row per item, in order. |
| PurchaserProfile.OrderRowsShareId | modules/purchaser_profile.py:321-337 | Every row of one order carries the same order id, the user, the item's species, quantity and total, and status Pending. |
| PurchaserProfile.PlacedOrderEffect | modules/purchaser_profile.py:318-339 | Placing an order keeps the old history and appends one Pending row per line, sharing one order id. |
| PurchaserProfile.ApplyOrderFilters | modules/purchaser_profile.py:345-362 | Filtering keeps the columns. |
| PurchaserProfile.OrderFiltersExactly | modules/purchaser_profile.py:345-362 | The result is a subsequence of the history. A row is kept iff it passes the status and species filters, each applied only when its column exists. The date filter has no effect, and "All" with "All Species" returns the input. |
| PurchaserProfile.StatusColor | modules/purchaser_profile.py:364-373 | The grey glyph is returned exactly for statuses outside the five known ones. |
| PurchaserProfile.StatusColorsDistinct | modules/purchaser_profile.py:366-372 | The five known statuses have five different glyphs. |
| PurchaserProfile.ProfileFields | modules/purchaser_profile.py:263-274 | The profile record has exactly the 10 profile columns, in order. |
| PurchaserProfile.SaveProfileReadsBack | modules/purchaser_profile.py:262-276 | Saving a profile appends it as the last row of the profiles file. |
| PurchaserProfile.FirstRowOf | modules/purchaser_profile.py:379-381 | Finds the first row of the user, or the end when there is none. |
| PurchaserProfile.LastRowOf | modules/purchaser_profile.py:379-381 | Finds the last row of the user, or −1 when there is none. |
| PurchaserProfile.ProfileAsWrittenFirstMatch | modules/purchaser_profile.py:375-382 | As written, load returns the first row whose username is the user, or an empty map when there is none. |
| PurchaserProfile.SecondProfileHiddenAsWritten | modules/purchaser_profile.py:375-382 | As written, after two saves with different names the load returns the first save. The corrected load returns the second. |
| PurchaserProfile.FirstProfileKept | modules/purchaser_profile.py:375-382 | As written, a second save never changes what is loaded after the first. |
| PurchaserProfile.ProfileLastMatch | modules/purchaser_profile.py:375-382 | The corrected load returns the newest row of the user, or an empty map when there is none. |
| PurchaserProfile.SavedProfileLoads | modules/purchaser_profile.py:262-276 | Corrected: after a save, the loaded profile shows the name just saved. |

## Left out

- Rendering is not modelled:
  - page layout, widgets, tabs, charts, maps, receipts, CSS and HTML;
  - display-only metrics such as averages, margins, mean ratings, projected profit, progress bars and "this month" counts.

  Ratios and floating-point statistics have no integer model.
- The clock, generated identifiers, random order numbers and random quality scores are parameters passed in, and are not modelled. `process_payment` and `process_quick_order` read the clock again for each row; the model stamps every row of one payment or order with the same date and time, so rows written across a change of second or of day are not modelled.
- Password hashing and the e-mail sending are foreign libraries or network calls. A hash is an opaque string.
- I/O failures other than unparsable files and missing files or columns are not modelled, nor is any exception raised by pandas. Each of those operations returns `False` or an empty table on any exception.
- Concurrency is not modelled: cross-process access to the shared files, and the window between a SQLite commit and its ledger append.
- pandas type inference and float columns are simplified. A value is text, an integer or missing. Booleans and lists in saved records are stored as text, and dates are day numbers.
- Text comparisons have no Unicode case folding. Search lower-cases ASCII only and treats the pattern as literal text rather than a regular expression.
- In `to_csv` output, dates, times and prices are simplified, and quoting is not modelled.
- `get_csv_statistics`, `backup_csv_file`, `clean_csv_data`, `generate_csv_report` and `schedule_csv_cleanup` depend on file metadata, timestamps or floating-point statistics.
- Ordering and truncation are not modelled:
  - groupby output order and `sort_values`;
  - the `nlargest` top-5 lists;
  - the ordering of review lists and `head`.

  The per-buyer statistics are a list in first-appearance order.
- The farm-location pages, the map and the reviews list are display only.
- The order-history "Reorder", "Cancel Order" and "details" buttons only show a message.
- `backup_data` copies files, and is not modelled.
- The `users.db` removal in `reset_database`, re-creating the users table, is covered by `Database.SingleAdmin`. The premium columns added by `initialize_premium_db` are modelled only as the default user row.
- Booking.TotalCost: requires 1 ≤ visitors ≤ capacity. The number input enforces that range, and the model does not check it.
- PurchaserProfile.QuickOrderItems: requires each quantity to be within stock. The number input enforces that limit, and the model does not check it.
- Booking.CancelBooking: the cancel button is identified by the row's position in the loaded table, which is the pandas index label as long as the table is freshly loaded.
- CsvStore.Load: a line longer than the header always gives the empty table. pandas raises only when a later line is longer than the first data line; when the first data line is the longest, it uses the extra leading fields as the index and loads the rows (header `a,b` with line `1,2,3` loads a=2, b=3). Repeated header names are kept once, where pandas renames them `x.1`, `x.2`. Every table the app writes has the registry's distinct columns and lines of the header's width, so its own flows never reach either case.
- CsvStore.ValidateStructure: the error is a value naming its kind and the missing columns, not the message text, whose list order depends on set iteration.
- Modifying a booking is not modelled: the "Modify Booking" button only shows a message.

## Findings

| source | as written | input that shows it | evidently intended | confidence | as-written member | corrected member |
|---|---|---|---|---|---|---|
| modules/point_of_sale.py:105-110 | Adding an item already in the cart raises quantity and subtotal but leaves `profit` from the first add. | Add item 1 with quantity 1, then add it again with quantity 1. The cart profit is 13, but revenue − cost is 26. | A merge also sets profit = (price − cost) × quantity, as a quantity edit does. | not executed | PointOfSale.MergeBreaksProfit | PointOfSale.AddKeepsValid |
| modules/sales_tracking.py:436-437 | Contacts are filtered with `buyer_contact != ''`. An empty contact reads back from the CSV as missing, which is not `''`, so it stays listed. | Record a sale with buyer "Ana" and an empty contact; the contact list contains ("Ana", missing). | Only sales with a contact are listed. | not executed | SalesTracking.BlankContactListed | SalesTracking.ContactsExactly |
| modules/purchaser_profile.py:276-381 | Saving a profile appends a row, and loading returns the first matching row. | Save the profile of user "u" with full name "A", then with "B". The loaded profile still shows "A". | Loading shows the most recently saved profile. | not executed | PurchaserProfile.SecondProfileHiddenAsWritten | PurchaserProfile.SavedProfileLoads |
