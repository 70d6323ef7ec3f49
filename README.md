# Finance dashboard: transaction model, dashboard view and sample-data seeder

This project models the core of a small Django finance dashboard:

- **Models** (`models.dfy`). The two stored entities are `Category` and `Transaction`.
  - A category has a unique name, a colour, an icon and an income flag.
  - A transaction has a name, an amount, a category reference, a type tag (`income` or `expense`), an optional description and a date.
  - A transaction's derived signed amount is `-abs(amount)` for an expense and `abs(amount)` otherwise.
  - Transactions list newest first by default.
- **Ordering** (`ordering.dfy`). A stable descending sort by an integer key. It stands for the database's `ORDER BY -<field>`.
- **Views** (`views.py` `main_dashboard`, in `views.dfy`). The dashboard reads the store and builds:
  - total income, total expenses and the balance;
  - the five most recent transactions, each shown with its signed amount and its category's name and icon;
  - the expense breakdown: expenses grouped by category, ordered by descending total, and stored into the `analytics_data` dictionary.
- **Seeder** (`populate_sample_data.py` `Command.handle`, in `seeder.dfy`). The command upserts two catalogues into the store with `get_or_create`:
  - 9 categories, keyed by name;
  - 15 transactions, keyed by (name, amount, category, type).

  A new transaction gets two defaults:
  - a date 0 to 30 whole days after "now minus 30 days";
  - the description `Sample <type> transaction`.

  The command is a `Store` class with the two tables as fields. Each of its two loops is a method with loop invariants. Its central promise, idempotence, is proved on the function `Seed` that the method is specified by.

Representation choices:

- Amounts are integer cents. `DecimalField(max_digits=10, decimal_places=2)` becomes `|cents| < 10^10`.
- Dates are integer seconds.
- A category's primary key is its index in the category table. Rows are never deleted in this core, so the keys are stable.
- Totals follow SQL: `Sum` over no rows is NULL (`None`), which the view maps to 0.

Where the database leaves an order open, the model makes one choice and proves its properties over every valid order:

- **Ties between equal dates.** `Listing` keeps insertion order among them. `RecentAreNewest` and `ListingStartsWithNewest` hold for any date-descending permutation of the store (`IsListing`).
- **Grouped rows.** `Breakdown` sorts the grouped rows by total and keeps insertion order among equal totals. The breakdown lemmas (`BreakdownPartitionsExpenses`, `BreakdownRowsAreCategories`, `BreakdownKeys`, `BreakdownValues`, `BreakdownOrderAndSum`) hold for any permutation of the grouped rows in non-increasing order of total (`IsBreakdown`). `Breakdown` is one such permutation. `MainDashboard` states its result through `Breakdown`.

Three consequences of the code:

- **Negative amounts.** `amount` (`models.py:30`) has no validator, so a stored amount may be negative.
  - The totals add raw amounts, while `signed_amount` takes magnitudes.
  - `Views.BalanceIsSumOfSignedAmounts` needs non-negative amounts.
  - `Views.NegativeExpenseRaisesBalance` shows why: one expense stored as -1.00 raises the balance by 1.00.
- **Type tags.** `choices` (`models.py:23-26`, `:32`) is checked only by model validation, not when a row is saved, so a stored `transaction_type` other than `income` or `expense` is possible. Such a row would count in neither total, and `signed_amount` would give it `abs(amount)`. The two-valued `TransactionType` cannot represent it; see "Left out".
- **Zero expenses.** For an expense of 0, `-abs(0)` is 0, so `Models.SignedAmount` states `<= 0` for an expense.

## Model

| member | source | states |
|---|---|---|
| Models.ParseType | dashboard/models.py:23-26 | a stored type tag is accepted exactly when it is `income` or `expense`, and the accepted type has that tag |
| Models.TypeTagRoundTrip | dashboard/models.py:32 | every transaction type's tag is one of the two choices and reads back as that type |
| Models.SignedAmount | dashboard/models.py:44-47 | the signed amount has the stored amount's magnitude; it is never positive for an expense and never negative for income, whatever the stored sign |
| Models.SignedAmountDeterminedBySignAndMagnitude | dashboard/models.py:47 | any value with those magnitude and sign laws is the signed amount |
| Models.SignedAmountIgnoresStoredSign | dashboard/models.py:47 | negating the stored amount leaves the signed amount unchanged |
| Models.SignedAmountFits | dashboard/models.py:30 | the signed amount of an amount within 10 digits is within 10 digits |
| Models.Listing | dashboard/models.py:38-39 | the default listing is a permutation of the store in non-increasing date order |
| Models.ListingStartsWithNewest | dashboard/models.py:38-39 | in every date-descending listing, the first row is at least as new as every stored transaction |
| Ordering.SortDesc | dashboard/models.py:39 | the sorted sequence is in non-increasing key order and is a permutation of the input |
| Views.OfType | dashboard/views.py:15 | the filtered rows all have the requested type, and there are none exactly when the store has no row of that type |
| Views.OfTypeSelects | dashboard/views.py:15 | the filter keeps every stored row of the requested type, as many times as it is stored, and no row of the other type |
| Views.AggregateSum | dashboard/views.py:15-16 | `Sum('amount')` over one type is NULL exactly when no row has that type, and otherwise the sum of those rows' amounts |
| Views.Total | dashboard/views.py:15-21 | each total is the sum of its type's amounts, and 0 when there are none |
| Views.BalanceIsNetFlow | dashboard/views.py:24 | the balance, income minus expenses, adds each income amount and subtracts each expense amount |
| Views.BalanceIsSumOfSignedAmounts | dashboard/views.py:24 | with no negative stored amount, the balance is the sum of the signed amounts |
| Views.NegativeExpenseRaisesBalance | dashboard/views.py:19-24 | one expense stored as -1.00 raises the balance by 1.00, while its signed amount is -1.00 |
| Views.Recent | dashboard/views.py:27 | the recent rows are the first `min(5, n)` rows of the listing |
| Views.RecentAreNewest | dashboard/views.py:27 | from any date-descending listing, the recent rows are stored rows in date order, and no row left out is newer than a row taken |
| Views.BuildRecentData | dashboard/views.py:30-39 | entry i of the loop's list presents recent row i: name, signed amount, type, date, and its category's name and icon |
| Views.AddToGroup | dashboard/views.py:43-46 | adding one expense adds its amount to the total of the row with its (name, colour), leaves every other row unchanged, and appends a row holding just that amount when no row has that key; keys stay distinct |
| Views.ExpenseGroups | dashboard/views.py:43-46 | the grouped query has one row per (category name, colour) that has an expense, holding that group's summed expense amounts |
| Views.Breakdown | dashboard/views.py:43-47 | the breakdown rows are the grouped rows, permuted into non-increasing order of total |
| Views.BreakdownPartitionsExpenses | dashboard/views.py:43-47 | in every valid order of the grouped rows, the totals add up to total expenses |
| Views.BreakdownRowsAreCategories | dashboard/views.py:43-46 | under unique names, in every valid order, each breakdown row is one category's name, colour and expense sum, and no two rows share a name |
| Views.Put | dashboard/views.py:54-57 | a dict assignment maps the key to the new value; an existing key keeps its position and a new key goes last |
| Views.AnalyticsFrom | dashboard/views.py:50-57 | the dict built from the rows has a key for exactly the names of the rows, each listed once |
| Views.AnalyticsOfDistinctRows | dashboard/views.py:50-57 | with distinct names, the dict lists the rows' names in row order, each mapped to its row's amount and colour |
| Views.BuildAnalytics | dashboard/views.py:50-57 | the loop builds exactly the dict AnalyticsFrom describes |
| Views.BreakdownKeys | dashboard/views.py:43-57 | in every valid order, `analytics_data` has a key for exactly the category names with at least one expense |
| Views.BreakdownValues | dashboard/views.py:43-57 | under unique names, in every valid order, each category's key maps to the sum of its expense amounts and its colour, keys in breakdown order |
| Views.BreakdownOrderAndSum | dashboard/views.py:43-57 | under unique names, in every valid order, the dict's keys come in non-increasing order of amount, and the amounts add up to total expenses |
| Views.MainDashboard | dashboard/views.py:10-73 | the context holds both totals, their difference as the balance, the presented recent rows and the breakdown dict; on an empty store all are zero or empty |
| Seeder.FindCategory | dashboard/management/commands/populate_sample_data.py:31-32 | the lookup by name finds the first category with that name, and none exactly when no category has it |
| Seeder.UpsertCategory | dashboard/management/commands/populate_sample_data.py:31-34 | get_or_create leaves the table alone when the name is present, and otherwise appends the catalogue entry; either way the returned key resolves the name |
| Seeder.UpsertKeepsFirstMatches | dashboard/management/commands/populate_sample_data.py:31-34 | get_or_create for one name never changes which row another present name resolves to |
| Seeder.SeedCategoriesSpec | dashboard/management/commands/populate_sample_data.py:30-37 | after the category loop every catalogue name is present, existing rows are untouched and resolve as before, and each new row is a catalogue entry that its name resolves to |
| Seeder.SeedCategoriesWhenPresent | dashboard/management/commands/populate_sample_data.py:30-37 | when every catalogue name is present, the category loop changes nothing |
| Seeder.SeedCategoriesKeepsNamesUnique | dashboard/management/commands/populate_sample_data.py:30-37 | the category loop keeps category names unique |
| Seeder.KeyPresent | dashboard/management/commands/populate_sample_data.py:70-74 | the lookup finds a row exactly when some row has the (name, amount, category, type) key |
| Seeder.NewTransaction | dashboard/management/commands/populate_sample_data.py:75-78 | a created transaction carries its lookup key |
| Seeder.UpsertTransaction | dashboard/management/commands/populate_sample_data.py:70-79 | get_or_create leaves the table alone when the key is present, and otherwise appends a row with that key, the date and the sample description |
| Seeder.SeedTransactions | dashboard/management/commands/populate_sample_data.py:66-79 | the transaction loop keeps the existing rows, makes every catalogue key present, and adds only rows whose key was absent, each built from a catalogue entry |
| Seeder.SeedTransactionsWhenPresent | dashboard/management/commands/populate_sample_data.py:66-79 | when every catalogue key is present, the transaction loop changes nothing |
| Seeder.CatalogueClosed | dashboard/management/commands/populate_sample_data.py:42-61 | every category named in the transaction catalogue is in the category catalogue |
| Seeder.CatalogueNamesDistinct | dashboard/management/commands/populate_sample_data.py:14-27 | the 9 catalogue categories have distinct names |
| Seeder.CatalogueAmountsFit | dashboard/management/commands/populate_sample_data.py:42-61 | every catalogue amount fits the amount column |
| Seeder.CatalogueSizes | dashboard/management/commands/populate_sample_data.py:14-61 | the catalogues hold 9 categories and 15 transactions |
| Seeder.CatalogueEntryNamesDistinct | dashboard/management/commands/populate_sample_data.py:42-61 | the 15 catalogue transactions have distinct names, so distinct keys |
| Seeder.SeedWithIdempotent | dashboard/management/commands/populate_sample_data.py:30-79 | for any closed catalogue, a second run changes nothing, whatever dates it draws |
| Seeder.SeedWithCreatesOnlyNew | dashboard/management/commands/populate_sample_data.py:70-79 | a run keeps both tables' existing rows, and each new transaction has a key no earlier row has and is built from a catalogue entry, date and description included |
| Seeder.SeedWithKeepsWellFormed | dashboard/management/commands/populate_sample_data.py:30-79 | a run keeps names unique, references valid and amounts within the column |
| Seeder.SeedWithPopulates | dashboard/management/commands/populate_sample_data.py:30-79 | after a run every catalogue category name is present, and every catalogue transaction's category resolves and its key is present |
| Seeder.SeedWithCreatesInWindow | dashboard/management/commands/populate_sample_data.py:64-77 | with offsets of 0 to 30 days, every created transaction is dated within 30 days after the base date, and is built from a catalogue entry and dated by the offset drawn for that entry |
| Seeder.SeedWithDatesWithin | dashboard/management/commands/populate_sample_data.py:64-68 | every created transaction is dated between the base date and 30 days after it |
| Seeder.SeedCategoriesFresh | dashboard/management/commands/populate_sample_data.py:30-37 | a table holding none of the catalogue's names gains the whole catalogue, in order, when the catalogue's names are distinct |
| Seeder.SeedTransactionsFresh | dashboard/management/commands/populate_sample_data.py:66-79 | a table holding none of the catalogue's keys gains one row per entry when the entries' names are distinct |
| Seeder.SeedWithFreshCounts | dashboard/management/commands/populate_sample_data.py:30-79 | a run on an empty store creates exactly the catalogue's categories, in order, and one transaction per entry |
| Seeder.OffsetDates | dashboard/management/commands/populate_sample_data.py:68 | one date per offset; an offset from 0 to 30 days puts the date within 30 days after the base |
| Seeder.SeedIdempotent | dashboard/management/commands/populate_sample_data.py:10-79 | running the command a second time, at any time and with any random offsets, leaves the store as the first run left it |
| Seeder.SeedAddsCategories | dashboard/management/commands/populate_sample_data.py:14-35 | after a run every one of the 9 catalogue category names is present |
| Seeder.SeedAddsTransactions | dashboard/management/commands/populate_sample_data.py:66-79 | after a run every catalogue transaction's category resolves and its key is present |
| Seeder.SeedCreatesInWindow | dashboard/management/commands/populate_sample_data.py:64-68 | every transaction a run creates is dated between 30 days before now and now, both included |
| Seeder.SeedEmptyCounts | dashboard/management/commands/populate_sample_data.py:10-84 | run on an empty store, the command creates the 9 catalogue categories in catalogue order and 15 transactions, the numbers its final message reports |
| Seeder.SeedKeepsWellFormed | dashboard/management/commands/populate_sample_data.py:10-79 | a run keeps the store well formed |
| Seeder.Store.GetOrCreateCategory | dashboard/management/commands/populate_sample_data.py:31-34 | the table becomes the upserted table, the key resolves the name, and the row is created exactly when the name was absent |
| Seeder.Store.GetOrCreateTransaction | dashboard/management/commands/populate_sample_data.py:70-79 | the table becomes the upserted table, and the row is created exactly when its key was absent |
| Seeder.Store.SeedCategoryTable | dashboard/management/commands/populate_sample_data.py:29-37 | the category loop leaves the table as SeedCategories describes, and fills the `categories` dict with every catalogue name mapped to the key it resolves to |
| Seeder.Store.SeedTransactionTable | dashboard/management/commands/populate_sample_data.py:66-79 | the transaction loop, resolving categories through the dict, leaves the table as SeedTransactions describes |
| Seeder.Store.Run | dashboard/management/commands/populate_sample_data.py:10-84 | both loops over any closed catalogue leave the store as SeedWith describes, and report the dict size and the entry count |
| Seeder.Store.Populate | dashboard/management/commands/populate_sample_data.py:10-84 | the command leaves the store as Seed describes, and reports 9 categories and 15 transactions whatever was created |

## Left out

- **Float conversions and serialisation.** The `float(...)` conversions, `json.dumps` and `render` in `views.py` are left out. Amounts stay integer cents.
- **Date formatting.** The recent entries carry the date as a number, not as a `YYYY-MM-DD` string.
- **Upcoming payments.** `upcoming_payments` is fixed sample data, so the context does not carry it.
- **Console output.** The seeder's console messages are logging only. Its final message's two numbers are returned as the counts.
- **Clock and randomness.** `datetime.now()` and `random.randint(0, 30)` become parameters: `now`, and one offset per catalogue transaction, constrained to 0..30.
- **Type tags outside the two choices.** A stored `transaction_type` other than `income` or `expense` is not modelled. Django checks `choices` only in model validation, so the code would store such a tag, but `TransactionType` has exactly the two declared values.
- **Unmodelled fields.** `created_at`, `updated_at` and the `User` reference are not modelled. Nothing in this core reads them.
- **Column defaults and lengths.** The category field defaults are not modelled because the seeder always supplies every field. The `max_length` limits are not modelled because no operation here depends on them.
- **Cascade delete.** Nothing in this core deletes rows.
- **Duplicate matches.** `get_or_create` raises `MultipleObjectsReturned` when several rows match. The model takes the first match instead. The seeder never creates a second row with a key already present.
- **Tie order.** The database's order among equal dates or equal totals is not modelled. A single stable choice stands for it. The listing and breakdown properties are proved for every valid order.
- **MainDashboard:** its contract gives the breakdown dict for the model's one order of the grouped rows (`Breakdown`). The breakdown lemmas carry the properties over to every other valid order.
- **Front-end script.** The browser script (`script.js`) is not part of this model. It only draws the chart and the lists from the context, in floating point.
- **Created rows for the command's own catalogue.** `Seeder.SeedWithCreatesOnlyNew` and `Seeder.SeedWithCreatesInWindow` are stated for any closed catalogue. `Seed` is `SeedWith` on the command's catalogue, so they apply to it, but there is no separate lemma instance for the command's catalogue.
