# Expense tracker ledger — a Dafny model

This project models the ledger inside the expense tracker's `app.py`.
Users sign up with a unique e-mail and each gets one wallet. They record
income and expense transactions against the wallet balance and delete
their own transactions. The dashboard lists a user's transactions,
filtered and sorted. Two charts group the expenses by category. A chatbot
answers questions over a text rendering of the user's transactions.

The model has six modules, one file each:

- `Transactions` (`transactions.dfy`) holds the transaction row `Txn` and the sums the wallet balance must equal. `Net` is the signed total of one user's rows, taken in primary-key order. `IncomeTotal` and `SpendingTotal` are its two halves.
- `LedgerState` (`ledger.dfy`) holds the class `Ledger`. Its fields are the e-mail → user id map, the stored password hashes, the user id → balance map and the transaction table. The handlers `signup`, `add_transaction` and `delete_transaction` are methods that update these maps in place. `Valid()` is the ledger invariant, built from three predicates. `UsersWellFormed`: e-mails map one-to-one onto user ids, and every user has a password hash and exactly one wallet. `TableWellFormed`: every row is stored under its own id and belongs to a user. `BalancesAgree`: every balance equals `Net` over that user's live rows.
- `Query` (`query.dfy`) holds the dashboard list as pure functions. It keeps the user's rows, applies the three AND-combined filters, then runs an insertion sort on one column, ascending or descending. The sort is proved to produce an ordered permutation of its input.
- `Charts` (`charts.dfy`) holds the aggregation behind both charts. It is a loop that fills a map from category to total, proved against recursive specification functions. `generate_pie_chart` (app.py:187-193) and `generate_bar_chart` (app.py:199-205) run the same loop, so it is modelled once.
- `Chat` (`chat.dfy`) builds the chatbot context, one line per transaction joined with newlines. It also gives the reply: the model's answer, or an error text when the model fails.
- `Wrappers` (`wrappers.dfy`) holds `Option` and `Result`.

Amounts are exact integers in paise, hundredths of a rupee. The logged-in user, the creation time and the parsed amount field are parameters. The question-answering model is a function parameter.

The transaction type is a free string. The balance adds the amount for `"income"` and subtracts it for every other type (app.py:123-126, 150-153). The charts count only `"expense"` rows (app.py:190, 202). So `Txn.kind` is a string, `Effect` subtracts every non-income row, and `SpendingTotal` counts every non-income row.

## Model

| member | source | states |
|---|---|---|
| `LedgerState.Ledger.constructor` | app.py:229-231 | the empty database satisfies the ledger invariant: no users, no wallets, no transactions |
| `LedgerState.Ledger.Signup` | app.py:38-58 | a known e-mail is refused with nothing changed; otherwise exactly one new user id is created, with its hash and one wallet with balance 0, no other entry changes, and the invariant is kept |
| `LedgerState.Ledger.AddTransaction` | app.py:105-140 | an amount that does not parse aborts with nothing changed; otherwise the row is stored under a fresh key, the owner's balance changes by the row's `Effect` (up by the amount for "income", down by it for any other type), nothing else changes, and balance = signed sum of live rows still holds for every user |
| `LedgerState.Ledger.DeleteTransaction` | app.py:142-159 | an unknown id is NotFound and a row of another user is Unauthorized, both with nothing changed; otherwise the row is removed and its effect exactly reversed on the owner's balance, and the invariant is kept |
| `LedgerState.Ledger.TransactionsOf` | app.py:168 | holds exactly the user's live rows, each once (no two share an id), and their signed sum is the user's wallet balance |
| `LedgerState.Ledger.Dashboard` | app.py:73-92 | a row is listed iff it is live, belongs to the user and passes all three filters; each is listed once (no two share an id); the list is ordered by the chosen column and direction |
| `Transactions.NetIsIncomeMinusSpending` | app.py:123-126 | the signed total equals the income total minus the total of all other types |
| `Transactions.NetInsert` | app.py:123-129 | storing a row under a fresh key changes only its owner's signed total, by exactly its effect |
| `Transactions.NetRemove` | app.py:150-156 | removing a row takes exactly its effect off its owner's signed total and leaves every other user's total unchanged |
| `Transactions.InsertKeepsAgreement` | app.py:123-129 | storing a row under the next key and adding its effect to its owner's balance keeps the table well formed and every balance equal to its signed total |
| `Transactions.RemoveKeepsAgreement` | app.py:150-156 | deleting a row and taking its effect off its owner's balance keeps the table well formed and every balance equal to its signed total |
| `Transactions.NewWalletKeepsAgreement` | app.py:51-53 | a new wallet at 0 for a user with no rows keeps every balance equal to its signed total |
| `LedgerState.NewUserKeepsUsersWellFormed` | app.py:43-53 | registering an unknown e-mail under the next user id, with a hash and a wallet, keeps e-mails unique and one wallet per user; the new id was not in use |
| `LedgerState.AddThenDelete` | app.py:105-159 | adding a transaction and then deleting it as its owner leaves e-mails, hashes, balances and the table exactly as they were |
| `Transactions.NetOfNoRows` | app.py:51 | a user who owns no row has signed total 0, so a new wallet at 0.0 agrees with the invariant |
| `Transactions.NetIsSignedSumOfOwnedRows` | app.py:168 | the signed total over keys equals the signed sum of the user's rows as the table lists them |
| `Transactions.RowsDistinct` | app.py:168 | a table whose rows sit under their own primary keys lists each row once, every id below the next key |
| `Transactions.OwnedByDistinct` | app.py:168 | `filter_by(user_id=u)` of a list with distinct ids lists each kept row once |
| `Transactions.OwnedByMembership` | app.py:168 | `filter_by(user_id=u)` keeps a row iff it is in the table and belongs to u |
| `Query.ContainsIffOccurs` | app.py:77-78 | the description filter holds iff the search text occurs at some position of the description |
| `Query.Select` | app.py:74-86 | a row is kept iff it belongs to the user, contains the search text (unless empty), has the type (unless empty or "all") and has the category (unless empty or "all"); each kept row is kept as often as it occurs |
| `Query.SelectKeepsDistinctIds` | app.py:74-86 | filtering a list with distinct ids keeps them distinct |
| `Query.StrLeqTotal` | app.py:90 | any two strings are comparable in code-point order |
| `Query.StrLeqTransitive` | app.py:90 | code-point order on strings is transitive |
| `Query.Insert` | app.py:88-90 | the result holds exactly one more copy of the row than the list it was inserted into |
| `Query.InsertOrdered` | app.py:88-90 | inserting a row into a list ordered on the column keeps it ordered |
| `Query.Sort` | app.py:88-90 | the result is ordered on the column, ascending or descending, and is a permutation of the input |
| `Query.InsertKeepsDistinctIds` | app.py:88-90 | inserting a row with a new id into a list of distinct ids keeps them distinct |
| `Query.SortKeepsDistinctIds` | app.py:88-90 | sorting a list with distinct ids keeps them distinct |
| `Query.DashboardList` | app.py:73-92 | the list holds exactly the filtered rows, as a permutation of the filtered set, descending exactly when `order` is "desc" |
| `Query.SortByAmountDescending` | app.py:88-90 | any three rows of 100, 50 and 300 rupees, sorted by amount, descending, come out as 300, 100, 50 |
| `Charts.ExpenseByCategory` | app.py:187-193 | None iff there is no expense row; otherwise the keys are exactly the categories of expense rows (a zero-amount expense still makes a key), and each total is the sum of that category's expense amounts |
| `Charts.NoCategoriesIffNoExpense` | app.py:192-193 | the grouping is empty exactly when no row has type "expense" |
| `Charts.CategoryTotalPermutation` | app.py:94-95 | each category total is the same under any permutation of the rows, so the totals do not depend on the dashboard's sort |
| `Chat.DigitsRoundTrip` | app.py:171 | the decimal digits of a number read back as that number |
| `Chat.FormatAmountRoundTrip` | app.py:171 | the amount printed in a context line reads back as exactly the stored amount |
| `Chat.ContextLines` | app.py:170-173 | when no free-text field holds a newline, the context of one or more transactions splits into exactly one line per transaction, in order, each `type - ₹amount - category - description`; with no transactions the context is the empty string |

## Left out

- Login (app.py:60-69), logout and session handling are left out. Password hashing is a foreign library, so a stored hash is an opaque string. The logged-in user is a parameter of each handler.
- Flask routing, `render_template`, `flash` and `redirect` are left out. Each handler's outcome is a `Result` value instead.
- Drawing the charts with matplotlib and their PNG/base64 encoding (app.py:194-197, 206-219) are left out. Only the aggregated map is kept.
- The question-answering model (app.py:18, 176-180) is an opaque function parameter of `Chat.Reply`. The GET path, whose reply is the empty string, is not modelled.
- Chat.Reply: a pass-through of the model's answer, or of the error prefix followed by the error text; it has no contract of its own, since the model it calls is opaque.
- The order of wedges and bars in the charts is not modelled. `ax.pie` and `ax.bar` draw categories in the order their first expense appears in the list (app.py:195, 207), so that order changes with the dashboard's sort. Only the totals are modelled, and they do not depend on it.
- The `/analysis` page (app.py:220-226) is not modelled as its own member. It passes `TransactionsOf` to the chart aggregation, while the dashboard passes its filtered, sorted list.
- Amounts are exact integers in paise, not floats. Parsing `float(request.form['amount'])` is not modelled: the handler receives the parsed value, or None when parsing (or reading a form field) raised. The model cannot express inputs with more than two decimals, exponents, `nan`, `inf` or `-0.0`, nor float rounding in the balance.
- `Chat.FormatAmount` matches Python's float printing only for amounts of at most 15 significant digits. From 10^16 rupees Python switches to exponent notation.
- `Chat.ContextLines` requires newline-free type, category and description fields. A description holding a newline spans several context lines in the source too.
- The description filter is an exact, case-sensitive substring test. SQL `LIKE` also treats `%` and `_` in the search text as wildcards, and on SQLite it ignores ASCII case. The database backend is not part of this model.
- The sort column is one of the Transaction columns. An unknown `sort_by` string makes `getattr` raise, and that error path is not modelled.
- SQL gives no order among rows with equal sort keys. The model proves only that the list is ordered and is a permutation of the filtered rows. `Query.Sort`'s placement of ties is one admissible order.
- Database commits are not modelled: the model has no commit failure, atomicity or concurrent requests. Signup commits the user before the wallet (app.py:48-53), so a crash between the two commits could leave a user without a wallet. The model treats each handler as one atomic step.
- The model hands out primary keys from a counter and never reuses one. This is a choice of the model: an SQLite `INTEGER PRIMARY KEY` without AUTOINCREMENT may reuse the largest id after a delete.
- `filter_by(...).all()` (app.py:168) has no ORDER BY, so the database may return a user's rows in any order. The model lists them by primary key.
- The creation timestamp is a parameter supplied by the caller.
