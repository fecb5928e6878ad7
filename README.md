# Expense tracker: a verified model of its tools

`main.py` is a multi-tenant expense tracker. Its server offers tools over two
SQLite tables:

- `users`, with primary key `user_id` and UNIQUE `api_key` and `email`;
- `expenses`, whose `id` is `INTEGER PRIMARY KEY AUTOINCREMENT`.

Anyone can register with an email, a name and a password, and receives a
bearer API key. Rotating that key needs the email and the password. Every
ledger tool first turns its key into a user id and then works only on that
user's rows:

- add an expense;
- list expenses in a date range;
- summarize by category;
- delete one expense.

This project models the tables as an in-memory store. The store is the class
`Tracker.ExpenseTracker`, with three fields:

- `users`, a sequence of rows;
- `expenses`, a sequence of rows in table order;
- `lastId`, the AUTOINCREMENT counter kept in `sqlite_sequence`.

The write tools (`register_user`, `regenerate_api_key`, `add_expense`,
`delete_expense`) are methods that change those fields. Each method states its
whole new state and result, for every branch of the source. The read tools
(`list_expenses`, `summarize`) and `_authenticate` are functions over the
tables. Each one is stated against an independent description: a
membership filter, a permutation that is sorted, and a grouping whose lines
carry each category's sum and count.

Modules:

- `Wrappers`: `Option` and `Result`.
- `Collation`: the BINARY text order that `date BETWEEN ? AND ?` uses, and ASCII `LOWER`.
- `Email`: the sanity check of line 121.
- `Sequences`: insertion sort by a comparator, sortedness, key distinctness and sums.
- `Accounts`: the `users` table, its lookups and `_authenticate`.
- `Ledger`: the `expenses` table and the list, summarize and delete queries.
- `Tracker`: the store class, its invariant and worked examples.

The store invariant `Valid()` holds after the constructor and is kept by every method. It says:

- user ids, API keys and stored emails are pairwise distinct;
- stored emails are lower-case and keys are non-empty;
- expense ids ascend in table order and lie in `1..lastId`;
- `lastId` fits a rowid;
- every expense belongs to a registered user.

Inputs the source draws itself are parameters of the methods:

- the random `user_id` token, `api_key` and `salt`;
- the new key of a rotation;
- the password hash, a `(password, salt) -> hash` function given to the constructor.

Collisions of random tokens with existing rows are not assumed away. A clash with
an existing `user_id` or `api_key` makes the INSERT or UPDATE violate a table
constraint inside the `try`, and the model reports it as `StorageError`. The only
precondition on a fresh key is that it is non-empty: `token_urlsafe(32)` yields
43 characters.

Errors are tagged variants, one per distinct message of the source, except that
the replies of the `except Exception` branches ("Registration error: …",
"Database error: …" and "Error: …") all become `StorageError`; the tool that
replied tells them apart.
Authentication failures raise outside the `try` in each ledger tool. They
become `Unauthenticated(KeyRequired)` or `Unauthenticated(KeyInvalid)`, and the
state does not change.

Worked examples are methods without a contract of their own:

- `Tracker.DuplicateRegistrationScenario` registers, and a second registration of the same address fails.
- `Tracker.RotationScenario` rotates with a wrong and then a right password; the old key then fails.
- `Tracker.TwoExpensesScenario` adds 45.50 and 12.00 as cents; ids 1 and 2, newest-first listing, total 5750.
- `Tracker.DeleteTwiceScenario` deletes, and the same delete again reports not found.

## Model

| member | source | states |
|---|---|---|
| Email.AfterLastAt | main.py:121 | `email.split("@")[-1]`: the result is a suffix of the input with no '@'; when it is shorter than the input, an '@' precedes it; with no '@' it is the whole input |
| Email.EmailLooksValid | main.py:121 | the email check: an '@' somewhere and a '.' in the text after the last '@' |
| Email.EmailLooksValidIff | main.py:121 | the check accepts a string iff it has an '@' at some position with no later '@' and some '.' after it |
| Email.AfterLastAtOf | main.py:121 | for `local + "@" + domain` with an '@'-free domain, the part after the last '@' is exactly the domain |
| Email.EmailAcceptedExamples | main.py:121 | `"a@b@c.d"` and `"@x.y"` pass the check |
| Email.EmailRejectedExamples | main.py:121 | `"abc.de"` (no '@') and `"a.b@cd"` (no '.' after the '@') fail the check |
| Collation.LexLe | main.py:255-256 | the BINARY collation behind `BETWEEN` and `ORDER BY date`: texts compare character by character by code point, and a proper prefix comes first |
| Collation.LexLeReflexive | main.py:255 | the BINARY text order is reflexive |
| Collation.LexLeAntisymmetric | main.py:255 | two texts each at most the other are equal |
| Collation.LexLeTransitive | main.py:255 | the text order is transitive |
| Collation.LexLeTotal | main.py:255 | any two texts are comparable |
| Collation.LowerChar | main.py:128 | `LOWER` on one character: the result is never an ASCII capital; it is a lower-case letter exactly when the input is a letter of either case; and a character changes only when it is an ASCII capital, which moves to its lower-case partner |
| Collation.LowerCharCaseless | main.py:128 | two characters fold alike exactly when they are equal or are the two cases of one ASCII letter |
| Collation.Lower | main.py:128 | `LOWER(s)` has the length of `s`, has no ASCII capital, changes each character only by ASCII folding, and leaves lower-case text unchanged |
| Sequences.Insert | main.py:256 | inserting into a sorted result adds exactly that element (multiset) |
| Sequences.SortBy | main.py:256 | sorting is a permutation of its input (multiset equality) |
| Sequences.InsertSorted | main.py:256 | inserting by a total preorder keeps a sorted sequence sorted |
| Sequences.SortBySorted | main.py:256 | sorting by a total preorder yields a sorted sequence |
| Sequences.InsertDistinct | main.py:289 | inserting an element with a fresh key keeps keys distinct |
| Sequences.SortByDistinct | main.py:289 | sorting keeps keys distinct |
| Sequences.SumByInsert | main.py:297 | the sum over an insertion is the element plus the old sum |
| Sequences.SumBySortBy | main.py:297 | sorting does not change a sum |
| Sequences.SumByAppend | main.py:283 | appending adds the element to the sum |
| Sequences.SumByUpdate | main.py:283 | replacing one element changes the sum by the difference |
| Accounts.UsersValid | main.py:50-52 | the PRIMARY KEY on `user_id` and the UNIQUE constraints on `api_key` and `email`: no two users share an id, a key or an email; every stored email is lower-cased and every key non-empty |
| Accounts.FindByEmail | main.py:127-130 | `WHERE LOWER(email) = LOWER(?)`: a hit is a row whose email equals the argument ignoring case; no hit iff no row does |
| Accounts.FindByKey | main.py:94-97 | `WHERE api_key = ?`: a hit holds the key; no hit iff no row holds it |
| Accounts.Authenticate | main.py:89-100 | `KeyRequired` iff the key is empty; `KeyInvalid` iff it is non-empty and nobody holds it; a success is the id of a holder, and under the table constraints the id of every holder |
| Accounts.EmailMatchUnique | main.py:177-181 | with lower-case, distinct stored emails, at most one user matches an email ignoring case |
| Accounts.StoredEmailFree | main.py:143-147 | after the case-insensitive check found nothing, the lower-cased email clashes with no stored email, so under ASCII folding the UNIQUE constraint on `email` cannot fire |
| Accounts.InsertUser | main.py:143-148 | inserting a row with a fresh id, key and email keeps the table constraints and keeps every existing user id |
| Accounts.KeyAuthenticates | main.py:94-100 | under the constraints each user's key authenticates to that user |
| Accounts.ReplaceKey | main.py:191-194 | replacing one user's key with a key no other user holds keeps the constraints; the new key authenticates to that user, the old one (if different) is invalid, and the set of user ids is unchanged |
| Ledger.RowOf | main.py:254 | the column list `id, date, amount, category, subcategory, note`: every column of an expense except `user_id` |
| Ledger.IdsAscending | main.py:35 | `AUTOINCREMENT`: ids strictly increase in table order, so no two rows share one |
| Ledger.Matches | main.py:255 | `WHERE user_id = ? AND date BETWEEN ? AND ?`: the row is the owner's and its date is within the range |
| Ledger.Select | main.py:253-255 | the rows selected are exactly the projections of the owner's expenses dated within the range, and when the table's ids ascend so do the selected ids, so no row appears twice |
| Ledger.OwnedBy | main.py:255 | `WHERE user_id = ?`: exactly the owner's rows, no more of them than the table holds, with ids still ascending when the table's ids ascend |
| Ledger.NewestFirst | main.py:256 | `ORDER BY date DESC, id DESC`: a row may precede another when its date is later, or the dates are equal and its id is at least as large |
| Ledger.NewestFirstTotalPreorder | main.py:256 | `ORDER BY date DESC, id DESC` is a total preorder |
| Ledger.ListRows | main.py:253-260 | the listing is a permutation of the selected rows, sorted by date descending, then id descending |
| Ledger.ListRowsMembers | main.py:253-260 | a row is listed iff it is the projection of one of the caller's expenses dated within the range |
| Ledger.ListRowsReversedRange | main.py:255 | a range with start after end lists nothing |
| Ledger.InRange | main.py:255 | `date BETWEEN ? AND ?`: the start is at most the date and the date at most the end, in the binary text order |
| Ledger.SelectOwnedBy | main.py:255 | the selection sees only the owner's rows |
| Ledger.WithCategory | main.py:286-288 | `if category:` — no category, or the empty one, keeps every row; any other category keeps the rows of that category only |
| Ledger.OfCategory | main.py:286-288 | `AND category = ?`: exactly the rows of that category, as many as the category counts |
| Ledger.CategorySum | main.py:283 | `SUM(amount)` of one category: the amounts of that category's rows added up |
| Ledger.CategoryCount | main.py:283 | `COUNT(*)` of one category: the number of that category's rows |
| Ledger.AbsentCategory | main.py:283 | a category no row has sums to 0 with count 0 |
| Ledger.CategoryIndex | main.py:289 | the position of the line for a category, or the end when no line has it |
| Ledger.AddRow | main.py:283-289 | one `GROUP BY` accumulation step: a row of a category already present adds its amount and one to that line; a row of a new category opens a line of its own amount and count 1 |
| Ledger.AddRowGroups | main.py:283-289 | accounting one more row keeps the lines a grouping of the rows, and keeps the line totals equal to the rows' total |
| Ledger.AddRowExisting | main.py:283-289 | a row of a category already present adds to that line, keeping the grouping and the total |
| Ledger.ExistingFits | main.py:283-289 | after that update, every line carries its category's sum and count over the extended rows |
| Ledger.ExistingCovers | main.py:289 | replacing a line by one of the same category keeps every row's category covered |
| Ledger.AddRowNew | main.py:283-289 | a row of a new category opens a one-row line, keeping the grouping and the total |
| Ledger.GroupByCategory | main.py:283-289 | `GROUP BY category`: one line per distinct category of the rows and no other, each with that category's sum and count (at least 1); the line totals sum to the rows' total |
| Ledger.CategoryPresent | main.py:289 | a category with count at least 1 is some row's category |
| Ledger.LargestFirst | main.py:289 | `ORDER BY total_amount DESC`: a line may precede another when its total is at least as large |
| Ledger.SortGroups | main.py:289 | `ORDER BY total_amount DESC` keeps the grouping and the total and sorts the lines by total, non-increasing |
| Ledger.SummarizeRows | main.py:283-297 | the summary lines group the caller's matching rows (filtered by category only when one is given and non-empty), ordered by total non-increasing; the grand total is the sum of the line totals and also the sum of the matching rows |
| Ledger.SummaryTotalIsListingTotal | main.py:283-297 | without a filter, the grand total equals the sum of the amounts that the listing of the same range returns |
| Ledger.SummaryOfNothing | main.py:294-297 | no matching rows give total 0 and no lines |
| Ledger.SummaryFiltered | main.py:286-289 | with a category filter every line is of that category, so there is at most one |
| Ledger.TenantIsolation | main.py:253-257 | a tenant's listing and summary depend only on that tenant's rows |
| Ledger.OwnedByAppend | main.py:231-233 | adding a row changes no other tenant's rows |
| Ledger.Owns | main.py:315-319 | `SELECT 1 ... WHERE id = ? AND user_id = ?` finds a row: some expense has that id and that owner |
| Ledger.DeleteWhere | main.py:321-324 | `DELETE ... WHERE id = ? AND user_id = ?` keeps exactly the rows not matching both, and keeps ids ascending |
| Ledger.DeleteWhereNoMatch | main.py:321-324 | when no row matches, the delete changes nothing |
| Ledger.DeleteWhereAt | main.py:321-324 | with ascending ids, deleting the owned row at position k leaves the rows before and after it, in order |
| Ledger.IdsAscendingTail | main.py:35 | the rows after the first keep ascending ids, all above the first |
| Ledger.ConsAscending | main.py:35 | a row below all others, put in front, keeps ids ascending |
| Ledger.DeleteWhereKeepsHead | main.py:321-324 | a first row that does not match is kept in front |
| Ledger.OthersRowNotOwned | main.py:315-320 | with distinct ids, another tenant's row with that id counts as not found for the caller |
| Ledger.OwnedByDelete | main.py:321-324 | a tenant's delete leaves every other tenant's rows unchanged |
| Tracker.CounterValid | main.py:35 | the AUTOINCREMENT bookkeeping: ids ascend, the counter lies in 0..2^63-1, and every id lies in 1..counter |
| Tracker.FitsInteger | main.py:315-318 | a parameter binds only within SQLite's 64-bit INTEGER range, -2^63..2^63-1 |
| Tracker.OwnersStayRegistered | main.py:143-148 | expenses stay attached to registered users when no user id disappears |
| Tracker.DeleteKeepsCounter | main.py:35 | deleting rows keeps ids ascending in `1..lastId` and keeps their owners registered |
| Tracker.ExpenseTracker.constructor | main.py:28-59 | a fresh store: both tables empty, counter 0, invariant established |
| Tracker.ExpenseTracker.Register | main.py:107-159 | check order: an invalid email gives `InvalidEmail`; a case-insensitive duplicate gives `DuplicateEmail`; an id or key clash gives `StorageError`; otherwise success. On success exactly one user is appended (lower-cased email, `hash(password, salt)`, the salt), the result holds the key, id, name and lower-cased email, and the key authenticates to the id. Every failure leaves the users table unchanged, and the expenses table never changes |
| Tracker.ExpenseTracker.InsertRow | main.py:143-149 | appends one user row meeting the constraints, keeps the invariant, and its key authenticates |
| Tracker.ExpenseTracker.RegenerateApiKey | main.py:165-203 | no case-insensitive match gives `EmailNotFound`; a wrong password gives `IncorrectPassword`; a key held by another user gives `StorageError`; otherwise the matching user's key alone is replaced. The new key authenticates to the same id, and the old key, if different, is invalid. Failures leave both tables unchanged |
| Tracker.ExpenseTracker.AddExpense | main.py:209-236 | an unauthenticated call fails with the reason; a used-up counter gives `StorageError`; otherwise exactly one row is appended with id `lastId + 1`, above every earlier id, owned by the caller and with the given fields. Users never change; failures change nothing |
| Tracker.ExpenseTracker.ListExpenses | main.py:242-261 | an unauthenticated call fails with the reason; otherwise `count` is the number of rows, and the rows are a permutation of the caller's in-range rows sorted newest first |
| Tracker.ExpenseTracker.Summarize | main.py:267-299 | an unauthenticated call fails with the reason; otherwise the lines group the caller's matching rows by category, sorted by total, with the grand total equal to the sum of lines and of rows |
| Tracker.OwnedIdFits | main.py:315-318 | an id some expense carries binds as a 64-bit INTEGER, so only a missing id can be out of range |
| Tracker.ExpenseTracker.DeleteExpense | main.py:305-328 | an unauthenticated call fails with the reason; an id outside the 64-bit INTEGER range cannot be bound and gives `StorageError`; otherwise a row not owned by the caller, missing or another tenant's, gives `NotFoundOrNotYours` and changes nothing; otherwise exactly that row is removed, the others stay in order, and the id is no longer owned, so a repeat fails. Users and the counter never change |
| Tracker.ListingOfTwo | main.py:253-261 | two rows of one user in range, the second dated later, are listed later first with `count` 2 |
| Tracker.SummaryOfTwo | main.py:283-298 | two rows of one user in range in different categories give one single-row line each and the sum of both as total |
| Tracker.GroupsOfTwo | main.py:283-289 | the grouping of two rows of different categories has one single-row line per category |

## Left out

- Storage plumbing (main.py:17-74): SQLite connections, the WAL pragma, the indexes and the database path. The tables live in memory.
- Transport (main.py:22, 347-363): the FastMCP server, the tool and resource decorators and the HTTP entry point.
- The internals of PBKDF2 with 260 000 iterations (main.py:79-86): the hash is a function given to the constructor, about which nothing is assumed.
- The randomness of `secrets` (main.py:137-139, 190): the drawn values are parameters.
- The `datetime.now()` timestamps `registered_at` and `api_key_regen_at` (main.py:141, 193): they are informational and are not stored.
- Amounts are integers (cents) rather than REAL floats, so sums are exact.
- Concurrency: the async tools run one at a time; interleaved connections are not modelled.
- The catch-all `except Exception` branches (main.py:160-161, 204-205, 237-238, 262-263, 300-301, 327-328). Only the failures this model can name reach them: the table-constraint clashes, a used-up AUTOINCREMENT counter and an expense id too large for a 64-bit INTEGER (`OverflowError` on binding), all reported as `StorageError`. Other database failures have no source in the model.
- Exact message strings: errors are tagged variants.
- The advisory `CATEGORIES` list (main.py:334-350): it has no behaviour; categories are never checked against it.
- Tracker.ExpenseTracker.Register: Python's `str.lower` is modelled as ASCII folding, the same as SQLite's `LOWER`. The two differ on non-ASCII capitals, which Python folds and SQLite keeps. So an address with such a capital is stored folded but later looked up unfolded; that lookup mismatch is not modelled. In particular, registering "\u212A@x.y" (KELVIN SIGN) while "k@x.y" is stored passes the duplicate check, Python folds it to "k@x.y" and the INSERT violates the UNIQUE constraint, so the source replies "Registration error"; the model instead succeeds and stores the address unfolded.
- Accounts.StoredEmailFree: holds only under ASCII folding; with Python's full `str.lower` the folded address can clash with a stored one, as in the KELVIN SIGN case above.
- Ledger.SummarizeRows: SQLite leaves the order of lines with equal totals open. The model fixes one such order: first appearance, stably sorted. Its contract states only what the query promises.
- Dates are compared as text (code-point order, which is UTF-8 byte order), as SQLite does; their `YYYY-MM-DD` format is not checked, as in the source.
