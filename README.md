# Expense tracker, modelled in Dafny

A model of the core of a small Flask expense tracker: the request handlers of
`app.py` and the date parser `convert_date` of `utils.py`. Users register,
log in and manage dated, categorised expenses. The home page lists the
expenses matching an optional date range and category, newest first, with
their total, a per-category sum and a per-day sum. The whole table can be
downloaded as a CSV file.

The model has six modules:

- `Wrappers`: the `Option` type.
- `Numerals`: decimal digits, their values and zero-padded renderings.
- `Dates`:
  - calendar dates;
  - `convert_date`, which is `strptime` with `%Y-%m-%d`;
  - `date.fromisoformat`, as the `add` handler uses it;
  - `date.isoformat`.
- `Ledger`: the pure queries of the home page over the `expense` table.
  - The table is a sequence of rows in rowid order.
  - The queries are the filter, the `(created_date, id)` ordering in both directions, the total, and the grouped sums.
- `CsvExport`: the export text, built line by line by a method, and the download's file name.
- `App`: the class `Tracker`.
  - Its fields are the `expense` table, the `user` table and the session's `user_id`.
  - It has one method per view function.
  - `Handle` runs the `require_login` gate before dispatching a request.
  - Each handler method states its whole new state, its outcome (redirect, page, 404, server error, file) and the flash messages it emits, with their categories.

Modelling choices:

- **Amounts** are integer cents. `round(float(text), 2)` is a parameter `parseAmount: string -> Option<int>`. `None` means that `float` raises.
- **The current date** (`date.today()`) is a parameter `today`.
- **New ids** follow SQLite's rule for an `INTEGER PRIMARY KEY`: one more than the largest id present, or 1 for an empty table. This applies to expenses and users alike.
- **Request fields** are taken after `.strip()`. Delete's path segment is taken as an integer. A segment that is not a number matches no row, just like an absent id.

Behaviours of the code a reader may not expect, all modelled as written:

- **The gate** lets only `login`, `register` and `static` through without a session, so `logout` without a session redirects to the login page (`App.PublicRequests`).
- **`convert_date`** is `strptime`. Besides `YYYY-MM-DD` it accepts a one-digit month or day, and a day written as a space followed by one digit (`Dates.ParseDateSpec`, `Dates.UnpaddedAccepted`).
- **`register`** does not reject an empty email.
- **`edit_post`'s failure paths** call `url_for('edit')` without the id the route needs. That raises instead of redirecting, so the outcome is `ServerError`. The flash message is already set at that point.
- **`export_csv`** computes the filter and then exports every row. The file name still uses the parsed bounds.

## Model

| member | source | states |
|---|---|---|
| Dates.ParseDate | utils.py:3-9 | `convert_date` yields `None` for the empty text and for any text shorter than 8 or longer than 10 characters, and otherwise only dates that exist in the calendar; `ParseDateSpec` characterises every result |
| Dates.ParseDateSpec | utils.py:3-9 | `convert_date(s)` is `d` exactly when `d` is a valid date and `s` is a 4-digit year, `-`, a month spelling (`01`–`12` or `1`–`9`), `-`, and a day spelling (`01`–`31`, `1`–`9` or space and digit), with nothing left over |
| Dates.ParseDateSound | utils.py:7 | every text `convert_date` accepts spells the valid date it returns |
| Dates.ParseDateComplete | utils.py:7 | every spelling of a valid date is accepted and yields that date |
| Dates.UnpaddedAccepted | utils.py:7 | `convert_date` accepts a one-digit month and day, which `date.fromisoformat` refuses |
| Dates.ImpossibleDateRejected | utils.py:6-9 | a well-formed text naming a day the month lacks yields `None` from both parsers rather than an error |
| Dates.BeforeTotal | app.py:68 | date comparison is irreflexive, and of two different dates exactly one is before the other |
| Dates.BeforeTransitive | app.py:68 | date comparison is transitive |
| Dates.Before | app.py:68 | the date `>` of `start_date>end_date`, read with its operands swapped; characterised by `Dates.BeforeTotal` and `Dates.BeforeTransitive` |
| Dates.IsoFormat | app.py:210 | `isoformat()` is always ten characters |
| Dates.ParseIsoDate | app.py:154-161 | `date.fromisoformat` yields only dates that exist in the calendar |
| Dates.IsoFormatRoundTrip | app.py:156 | both parsers read the ISO text of a valid date back as that date |
| Dates.ParseIsoDateCanonical | app.py:156 | `fromisoformat` accepts a text only when it is the ISO text of the date returned |
| Dates.ParseIsoDateIsParseDate | app.py:156 | a date `add` accepts is read the same way by `convert_date` |
| Ledger.Matches | app.py:74-79 | the filter predicate: date not before the start, not after the end, category equal, each only when set; characterised by `Ledger.FilterRows` and `Ledger.ListingSpec` |
| Ledger.FilterRows | app.py:73-79 | a row is kept exactly when it lies within the set bounds and has the set category, if any; ids stay unique |
| Ledger.KeyLessOrder | app.py:81 | `(created_date, id)` is a strict total order on rows with distinct ids |
| Ledger.SortAsc | app.py:206 | the sorted rows are a permutation of the input |
| Ledger.SortAscending | app.py:206 | the sorted rows are strictly ascending by `(created_date, id)` |
| Ledger.AscendingUnique | app.py:206 | two ascending arrangements of the same rows are equal, so the export order is determined |
| Ledger.Listing | app.py:73-81 | the home page's list; characterised by `Ledger.ListingSpec` and `Ledger.ListingDetermined` |
| Ledger.ListingSpec | app.py:73-81 | the listed expenses are exactly the stored rows the filter keeps, each once, strictly descending by `(created_date, id)` |
| Ledger.ListingDetermined | app.py:81 | any descending arrangement of the filtered rows is the listing |
| Ledger.Total | app.py:82 | `sum(i.amount for i in expenses)`, 0 for no rows; characterised by `Ledger.TotalPermutation` and `Ledger.ReportTotals` |
| Ledger.TotalPermutation | app.py:82 | a sum of amounts does not depend on the order of the rows |
| Ledger.Groups | app.py:85-93 | one `(key, sum)` row per key, each the sum over the rows with that key |
| Ledger.PartitionTotal | app.py:85-108 | when every row's key is listed once, the group sums add up to the total |
| Ledger.Distinct | app.py:93 | the distinct categories: no repeats, the same set of values |
| Ledger.DayKeys | app.py:107 | the distinct dates of the rows, strictly ascending, no more and no fewer |
| Ledger.CategoryRows | app.py:85-96 | the pie chart's `GROUP BY category` rows over the filtered expenses; characterised by `Ledger.CategoryRowsSpec` and `Ledger.ReportTotals` |
| Ledger.DayRows | app.py:99-109 | the per-day `GROUP BY created_date ORDER BY created_date` rows over the filtered expenses; characterised by `Ledger.DayRowsSpec` and `Ledger.ReportTotals` |
| Ledger.CategoryRowsSpec | app.py:85-96 | the pie-chart rows' own keys hold no category twice and are exactly the categories present; each row is its group's sum, and together they make the total |
| Ledger.DayRowsSpec | app.py:99-109 | the per-day rows' own keys are strictly ascending and exactly the dates present; each row is its day's sum, and together they make the total |
| Ledger.MakeReport | app.py:73-109 | the figures the home page renders; characterised by `Ledger.ReportTotals`, `Ledger.ListingSpec`, `Ledger.CategoryRowsSpec` and `Ledger.DayRowsSpec` |
| Ledger.ReportTotals | app.py:82-109 | the home page's total is the sum over the filtered rows, and both groupings sum to it |
| CsvExport.CsvLine | app.py:210 | one record line; characterised by `CsvExport.MoneyRoundTrip`, `Dates.IsoFormatRoundTrip`, `CsvExport.CsvLineNoNewline` and `CsvExport.NewlineAddsLine` |
| CsvExport.MoneyRoundTrip | app.py:210 | the amount column `{amount:.2f}` reads back as the stored amount |
| CsvExport.Money | app.py:210 | `{amount:.2f}` of an amount held in cents; characterised by `CsvExport.MoneyRoundTrip` and `CsvExport.MoneyNoNewline` |
| CsvExport.Document | app.py:208-210 | the `lines` list: the header and then one line per row, in the order given; its length is the number of rows plus one, and `CsvExport.ExportSpec` and `CsvExport.DocumentNoNewline` characterise its content |
| CsvExport.Join | app.py:212 | `'\n'.join(lines)`; characterised by `CsvExport.SplitJoin` and `CsvExport.SplitConcat` |
| CsvExport.Render | app.py:206-212 | the export text is the header and then one line per row in ascending `(created_date, id)` order, joined by newlines |
| CsvExport.ExportSpec | app.py:206-212 | every stored row is exported once, in ascending order; when no description or category holds a newline, splitting the text at newlines gives back the header and the lines |
| CsvExport.NewlineAddsLine | app.py:206-212 | `.strip()` on the form fields (app.py:136) keeps inner newlines, so a description holding one makes the file split into more lines than the header plus one per row |
| CsvExport.SplitConcat | app.py:212 | splitting at a joining newline splits the two sides separately |
| CsvExport.SplitJoin | app.py:212 | splitting `'\n'.join(lines)` at newlines gives back lines that hold no newline |
| CsvExport.DocumentNoNewline | app.py:208-210 | no line of the export holds a newline when no description or category does |
| CsvExport.FileName | app.py:213-215 | `expenses_<start>_to_<end>.csv`; characterised by `CsvExport.BoundRoundTrip` |
| CsvExport.BoundRoundTrip | app.py:213-215 | each bound in the file name reads back through `convert_date` as the bound it names, `all` as no bound |
| App.MayProceed | app.py:46-51 | the `require_login` test; characterised by `App.PublicRequests` and the gate clauses of `App.Tracker.Handle` |
| App.Endpoint | app.py:48 | `request.endpoint`: the view function's name for a routed request, `None` for an unrouted one; characterised by `App.PublicRequests` and the gate clauses of `App.Tracker.Handle` |
| App.PublicRequests | app.py:46-51 | without a session, exactly the login, registration and static requests pass the gate, and logout does not |
| App.NextId | app.py:24 | a new expense id is positive and larger than every stored id |
| App.NextUserId | app.py:32 | a new user id is positive and larger than every stored id |
| App.Find | app.py:182 | the lookup by primary key returns a position holding that id, or `None` when no row has it |
| App.FindStored | app.py:227 | every stored id is found, at its own position |
| App.RemoveAt | app.py:183 | the table without one row, as `db.session.delete` leaves it; characterised by `App.RemoveAtSpec` |
| App.RemoveAtSpec | app.py:182-184 | deleting a row removes exactly the rows with its id and keeps every other row, one row fewer |
| App.FindUser | app.py:300 | a stored user with that email, or `None` when no user has it; emails are unique in a valid store, so that user is the only one |
| App.Authenticate | app.py:300-305 | the id login stores in the session; characterised by `App.AuthenticateSpec` and `App.RegisterThenLogin` |
| App.AuthenticateSpec | app.py:300-305 | login yields id `i` exactly when a user with this email and password has id `i` |
| App.RegisterThenLogin | app.py:275-305 | a user that registration creates can log in with the password it gave |
| App.HomeFilter | app.py:65-71 | the warning is raised exactly when both bounds parse and the end is before the start; both bounds are then dropped; the filter never has its end before its start |
| App.StoredAmount | app.py:146-152 | the stored amount is never negative: the parsed amount, or 0 |
| App.AddedListed | app.py:164-172 | a row `add` inserts is listed, exactly once, exactly when it matches the filter |
| App.DeletedUnlisted | app.py:182-184 | after `delete` no row with the deleted id is listed, and every other matching row still is |
| App.AppendKeepsTable | app.py:164-172 | inserting keeps ids ascending, amounts non-negative and dates valid |
| App.RemoveKeepsTable | app.py:182-184 | deleting keeps ids ascending, amounts non-negative and dates valid |
| App.ReplaceKeepsTable | app.py:256-261 | editing a row in place, with its id kept, keeps the table's invariants |
| App.Tracker.constructor | app.py:40-41 | a fresh database: no expenses, no users and no session |
| App.Tracker.Index | app.py:55-132 | the page shows the report of the filter `HomeFilter` builds, with the end-before-start warning exactly when it drops the bounds |
| App.Tracker.Add | app.py:134-176 | an empty field inserts nothing; otherwise exactly one row is appended with a fresh id, the amount or 0, and the ISO date or today, with a flash for each defaulted field and then the success flash |
| App.Tracker.Delete | app.py:179-186 | an absent id gives 404 and changes nothing; otherwise exactly the row with that id is removed |
| App.Tracker.Edit | app.py:225-228 | the form shows the stored row with that id, or 404 |
| App.Tracker.EditPost | app.py:230-264 | 404 for an absent id; an empty field or an amount that is not positive changes nothing and fails; otherwise that row alone gets the new fields and keeps its id, its date read by `convert_date` or today |
| App.Tracker.Export | app.py:189-222 | the file holds every stored row, whatever the filter, and is named after the parsed bounds |
| App.Tracker.Register | app.py:267-290 | a taken email or differing passwords change nothing; otherwise exactly one user is appended with a fresh id |
| App.Tracker.Login | app.py:293-309 | the session gets the user's id exactly when email and password match; otherwise it is unchanged |
| App.Tracker.Logout | app.py:311-315 | the session is cleared |
| App.Tracker.Handle | app.py:46-51 | a gated request changes nothing and redirects to login; only add, delete and edit change the expenses, only registration the users, only login and logout the session; every handler keeps the store's invariants |

## Left out

- Floating point: amounts are integer cents, and `round(float(text), 2)` is a parameter. `NaN`, infinities and binary rounding of sums are not modelled. The rounding of the total and of the chart values is therefore the identity.
- `datetime.strptime` (`convert_date`, and the date of `edit_post`) accepts Unicode decimal digits other than ASCII; the model accepts ASCII digits only.
- `date.fromisoformat`'s extra formats from Python 3.11 on (basic format, week dates) are not modelled. The code's `str|None` annotation needs Python 3.10, whose `fromisoformat` takes exactly `YYYY-MM-DD`.
- A form field missing from a POST request is not modelled. In `register`, `login` and `add` (category) that makes `None.strip()` raise; the model's requests always carry every field.
- Flask and SQLAlchemy plumbing is not modelled: templates, `render_template`, the `view` parameter, `date_today`, `CATEGORIES`, the WTForms form object, the `print(expense_id)` of `delete` (app.py:181) and the HTTP headers of the CSV response.
- Passwords are compared as stored, in plain text, as the code does; hashing is not part of the code.
- Column lengths (`String(120)` and the like) are not modelled; SQLite does not enforce them.
- Rowid exhaustion at 2^63 - 1 is not modelled.
- Concurrency between requests is not modelled; the store is a single object.
- Ledger.CategoryRows: SQL leaves the order of `GROUP BY category` rows unspecified. The model picks one order, and its contracts say nothing about that order.
- App.Tracker.Handle: it states the gate, the frame of each kind of request and the store's invariants; what each handler does is stated by that handler's own method.
- App.Tracker.Index: the report's figures are stated through `Ledger.MakeReport`; their properties are proved by `Ledger.ReportTotals` and `Ledger.ListingSpec`.
- A routed URL requested with a method its route does not accept (`GET /add`, `GET /delete/1`) gets 405 from Flask; the model has no such request. The gate treats it as it treats an unrouted URL, since `request.endpoint` is `None` for both.
- The session is modelled as the user id alone; other session content is not modelled. Flashes are returned from each request rather than queued in the session.
