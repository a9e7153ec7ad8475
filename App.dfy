/**
 * The request handlers of the expense tracker over an in-memory store: the
 * `expense` and `user` tables and the session's `user_id`. Each handler
 * returns what the browser gets (a redirect, a page, a 404, a file)
 * together with the flash messages it emits; `Handle` runs the login gate
 * before dispatching a request to its handler.
 */
module App {
  import opened Wrappers
  import opened Dates
  import opened Ledger
  import opened CsvExport

  /** A row of the `user` table. The password is kept as submitted. */
  datatype User = User(id: nat, email: string, password: string)

  /** A flash message and its category (`message` is Flask's default). */
  datatype Flash = Flash(category: string, message: string)

  const INPUT_VALID_DATA := Flash("message", "Input valid data")
  const NOT_VALID_AMOUNT := Flash("error", "Not valid amount used")
  const DATE_ERROR := Flash("error", "Date error, input valid date")
  const SUCCESS_ADDED := Flash("success", "Success added \U{2705}")
  const EXPENSE_DELETED := Flash("success", "Expense success deleted")
  const ALL_FIELDS_REQUIRED := Flash("error", "All fields are required")
  const INVALID_AMOUNT := Flash("error", "Invalid amount")
  const EXPENSE_UPDATED := Flash("success", "\"Expense updated \U{2705}\"")
  const END_BEFORE_START := Flash("message", "End date cannot be before start date")
  const EMAIL_TAKEN := Flash("message", "Email already registered")
  const PASSWORDS_DIFFER := Flash("message", "Passwords do not match")
  const ACCOUNT_CREATED := Flash("message", "Account created successfully")
  const INVALID_LOGIN := Flash("message", "Invalid email or password")
  const LOGGED_IN := Flash("message", "Logged in successfully")
  const LOGGED_OUT := Flash("message", "Logged out")

  datatype Route = IndexPage | LoginPage | RegisterPage

  /** What a request produces. */
  datatype Outcome =
    | Redirect(to: Route)
      /** The 404 of `get_or_404`, and of a URL no route matches (the 405 of a wrong method is not modelled). */
    | NotFound
      /** `edit_post`'s failure path: `url_for('edit')` without the id it needs cannot build a URL. */
    | ServerError
    | ShowIndex(report: Report, startText: string, endText: string, category: string)
    | ShowEdit(expense: Expense)
    | ShowLoginForm
    | ShowRegisterForm
    | StaticFile(path: string)
    | CsvFile(name: string, text: string)

  /**
   * A request as it reaches a view function: its route and its query or
   * form fields, each already stripped of surrounding white space.
   */
  datatype Request =
    | Home(start: string, end: string, category: string)
    | AddExpense(description: string, amount: string, category: string, date: string)
    | DeleteExpense(key: int)
    | ExportCsv(start: string, end: string, category: string)
    | EditForm(id: nat)
    | EditExpense(id: nat, description: string, category: string, amount: string, date: string)
    | RegisterForm
    | RegisterUser(email: string, password: string, password1: string)
    | LoginForm
    | LoginUser(email: string, password: string)
    | Logout
    | StaticAsset(path: string)
      /**
       * A URL no route matches: `request.endpoint` is `None`. A routed URL
       * with a method its route refuses (405 in Flask) also has no endpoint
       * and meets the gate the same way; its 405 reply is not modelled.
       */
    | Unrouted

  /** `request.endpoint`: the name of the view function the request is routed to. */
  function Endpoint(r: Request): Option<string> {
    match r
    case Home(_, _, _) => Some("index")
    case AddExpense(_, _, _, _) => Some("add")
    case DeleteExpense(_) => Some("delete")
    case ExportCsv(_, _, _) => Some("export_csv")
    case EditForm(_) => Some("edit")
    case EditExpense(_, _, _, _, _) => Some("edit_post")
    case RegisterForm | RegisterUser(_, _, _) => Some("register")
    case LoginForm | LoginUser(_, _) => Some("login")
    case Logout => Some("logout")
    case StaticAsset(_) => Some("static")
    case Unrouted => None
  }

  /** The endpoints `require_login` lets through without a session. */
  const ALLOWED_ROUTES: set<string> := {"login", "register", "static"}

  /** `require_login`: a request proceeds unless its endpoint is not allowed and no user is logged in. */
  predicate MayProceed(endpoint: Option<string>, session: Option<nat>) {
    !((endpoint.None? || endpoint.value !in ALLOWED_ROUTES) && session.None?)
  }

  /**
   * Without a session exactly the login and registration pages and the
   * static files are reachable; `logout` is not among them.
   */
  lemma PublicRequests(r: Request)
    ensures MayProceed(Endpoint(r), None) <==>
      r.LoginForm? || r.LoginUser? || r.RegisterForm? || r.RegisterUser? || r.StaticAsset?
    ensures r.Logout? ==> !MayProceed(Endpoint(r), None)
  {
  }

  // ---------------------------------------------------------------------
  // The tables

  /** Ids strictly increase in table order, the order of SQLite's rowid. */
  predicate IdsAscending(rows: seq<Expense>) {
    forall i, j :: 0 <= i < j < |rows| ==> rows[i].id < rows[j].id
  }

  /** What every stored expense satisfies when only the handlers write the table. */
  predicate TableOk(rows: seq<Expense>) {
    && IdsAscending(rows)
    && (forall e :: e in rows ==> e.amount >= 0)
    && (forall e :: e in rows ==> ValidDate(e.date))
  }

  lemma AscendingIdsUnique(rows: seq<Expense>)
    requires IdsAscending(rows)
    ensures UniqueIds(rows)
  {
  }

  /**
   * The id SQLite gives a new row of a table whose key is `INTEGER PRIMARY
   * KEY`: one more than the largest id present, 1 for an empty table.
   */
  function NextId(rows: seq<Expense>): (id: nat)
    requires IdsAscending(rows)
    ensures id >= 1 && forall e :: e in rows ==> e.id < id
  {
    if rows == [] then 1 else rows[|rows| - 1].id + 1
  }

  /** `Expense.query.get(id)`: the position of the row with that id. */
  function Find(rows: seq<Expense>, id: int): (r: Option<nat>)
    ensures r.Some? ==> r.value < |rows| && rows[r.value].id == id
    ensures r.None? ==> forall e :: e in rows ==> e.id != id
  {
    if rows == [] then None
    else if rows[0].id == id then Some(0)
    else
      match Find(rows[1..], id)
      case Some(i) => Some(i + 1)
      case None => None
  }

  /** The table without its row at position `i`: the `db.session.delete` of `delete`. */
  function RemoveAt(rows: seq<Expense>, i: nat): seq<Expense>
    requires i < |rows|
  {
    rows[..i] + rows[i + 1..]
  }

  /** Removing the row at `i` removes exactly the rows with its id and keeps every other row. */
  lemma RemoveAtSpec(rows: seq<Expense>, i: nat)
    requires UniqueIds(rows) && i < |rows|
    ensures |RemoveAt(rows, i)| == |rows| - 1
    ensures forall e :: e in RemoveAt(rows, i) <==> e in rows && e.id != rows[i].id
  {
    var r := RemoveAt(rows, i);
    forall e | e in r
      ensures e in rows && e.id != rows[i].id
    {
      var k :| 0 <= k < |r| && r[k] == e;
      if k < i {
        assert e == rows[k];
      } else {
        assert e == rows[k + 1];
      }
    }
    forall e | e in rows && e.id != rows[i].id
      ensures e in r
    {
      var k :| 0 <= k < |rows| && rows[k] == e;
      if k < i {
        assert r[k] == e;
      } else {
        assert k != i;
        assert r[k - 1] == e;
      }
    }
  }

  /** Ids strictly increase and emails are unique. */
  predicate UsersOk(users: seq<User>) {
    forall i, j :: 0 <= i < j < |users| ==> users[i].id < users[j].id && users[i].email != users[j].email
  }

  function NextUserId(users: seq<User>): (id: nat)
    requires UsersOk(users)
    ensures id >= 1 && forall u :: u in users ==> u.id < id
  {
    if users == [] then 1 else users[|users| - 1].id + 1
  }

  /** `User.query.filter_by(email=email).first()`. */
  function FindUser(users: seq<User>, email: string): (r: Option<User>)
    ensures r.Some? ==> r.value in users && r.value.email == email
    ensures r.None? ==> forall u :: u in users ==> u.email != email
  {
    if users == [] then None
    else if users[0].email == email then Some(users[0])
    else FindUser(users[1..], email)
  }

  /** The id `login` puts in the session: that of the user with this email, if the password matches. */
  function Authenticate(users: seq<User>, email: string, password: string): Option<nat> {
    match FindUser(users, email)
    case Some(u) => if u.password == password then Some(u.id) else None
    case None => None
  }

  /** Login succeeds, with id `id`, exactly when some user has this email, this password and this id. */
  lemma AuthenticateSpec(users: seq<User>, email: string, password: string, id: nat)
    requires UsersOk(users)
    ensures Authenticate(users, email, password) == Some(id) <==>
      exists u :: u in users && u.email == email && u.password == password && u.id == id
  {
    var found := FindUser(users, email);
    if u :| u in users && u.email == email && u.password == password && u.id == id {
      var i :| 0 <= i < |users| && users[i] == u;
      var j :| 0 <= j < |users| && users[j] == found.value;
      assert i == j;
    }
  }

  /** The session holds only the id of a registered user. */
  predicate SessionOk(session: Option<nat>, users: seq<User>) {
    session.Some? ==> exists u :: u in users && u.id == session.value
  }

  // ---------------------------------------------------------------------
  // Helpers of the handlers

  /** `'' in [...]`: one of the required fields is empty. */
  predicate AnyBlank(fields: seq<string>) {
    "" in fields
  }

  /**
   * The filter of the home page: both texts through `convert_date`, and
   * both bounds dropped, with a warning, when the start is after the end.
   */
  function HomeFilter(startText: string, endText: string, category: string): (r: (Filter, bool))
    ensures r.0.category == category
    ensures r.1 <==> ParseDate(startText).Some? && ParseDate(endText).Some?
                     && Before(ParseDate(endText).value, ParseDate(startText).value)
    ensures r.1 ==> r.0.start.None? && r.0.end.None?
    ensures !r.1 ==> r.0.start == ParseDate(startText) && r.0.end == ParseDate(endText)
    ensures r.0.start.Some? && r.0.end.Some? ==> !Before(r.0.end.value, r.0.start.value)
  {
    var start, end := ParseDate(startText), ParseDate(endText);
    if start.Some? && end.Some? && Before(end.value, start.value) then
      (Filter(None, None, category), true)
    else
      (Filter(start, end, category), false)
  }

  /** The amount `add` stores: the parsed amount, or 0 when it does not parse or is negative. */
  function StoredAmount(parsed: Option<int>): (amount: int)
    ensures amount >= 0
    ensures amount == 0 || parsed == Some(amount)
    ensures parsed.Some? && parsed.value >= 0 ==> amount == parsed.value
  {
    if parsed.Some? && parsed.value >= 0 then parsed.value else 0
  }

  /** The flashes of an `add` that inserts. */
  function AddFlashes(parsed: Option<int>, date: Option<Date>): seq<Flash> {
    (if parsed.Some? && parsed.value >= 0 then [] else [NOT_VALID_AMOUNT])
    + (if date.Some? then [] else [DATE_ERROR])
    + [SUCCESS_ADDED]
  }

  // ---------------------------------------------------------------------
  // What the handlers' table changes mean for later requests

  /** Every stored id is found, at its own position. */
  lemma {:induction false} FindStored(rows: seq<Expense>, i: nat)
    requires UniqueIds(rows) && i < |rows|
    ensures Find(rows, rows[i].id) == Some(i)
  {
    if i > 0 {
      FindStored(rows[1..], i - 1);
    }
  }

  /** A row `add` appends is on the home page exactly when it matches the filter, and only once. */
  lemma AddedListed(rows: seq<Expense>, e: Expense, f: Filter)
    requires IdsAscending(rows) && e.id == NextId(rows)
    ensures e in Listing(rows + [e], f) <==> Matches(f, e)
    ensures multiset(Listing(rows + [e], f))[e] == if Matches(f, e) then 1 else 0
  {
    var all := rows + [e];
    assert IdsAscending(all);
    ListingSpec(all, f);
    var kept := FilterRows(all, f);
    AscendingIdsUnique(all);
    if e in kept {
      var k :| 0 <= k < |kept| && kept[k] == e;
      UniqueCount(kept, k);
    } else {
      assert multiset(kept)[e] == 0;
    }
  }

  /** An element of a sequence with unique ids occurs in it once. */
  lemma {:induction false} UniqueCount(rows: seq<Expense>, k: nat)
    requires UniqueIds(rows) && k < |rows|
    ensures multiset(rows)[rows[k]] == 1
  {
    assert rows == [rows[0]] + rows[1..];
    if k == 0 {
      assert rows[0] !in rows[1..];
    } else {
      UniqueCount(rows[1..], k - 1);
      assert rows[0] != rows[k];
    }
  }

  /** After `delete`, no row with the deleted id is on the home page, and the others stay. */
  lemma DeletedUnlisted(rows: seq<Expense>, i: nat, f: Filter)
    requires IdsAscending(rows) && i < |rows|
    ensures forall e :: e in Listing(RemoveAt(rows, i), f) <==>
      e in rows && e.id != rows[i].id && Matches(f, e)
  {
    AscendingIdsUnique(rows);
    RemoveAtSpec(rows, i);
    RemoveKeepsAscending(rows, i);
    ListingSpec(RemoveAt(rows, i), f);
  }

  lemma RemoveKeepsAscending(rows: seq<Expense>, i: nat)
    requires IdsAscending(rows) && i < |rows|
    ensures IdsAscending(RemoveAt(rows, i))
  {
    var rest := RemoveAt(rows, i);
    forall a, b | 0 <= a < b < |rest|
      ensures rest[a].id < rest[b].id
    {
      var a', b' := if a < i then a else a + 1, if b < i then b else b + 1;
      assert rest[a] == rows[a'] && rest[b] == rows[b'];
    }
  }

  /** `delete` keeps the table's invariants. */
  lemma RemoveKeepsTable(rows: seq<Expense>, i: nat)
    requires TableOk(rows) && i < |rows|
    ensures TableOk(RemoveAt(rows, i))
  {
    AscendingIdsUnique(rows);
    RemoveAtSpec(rows, i);
    RemoveKeepsAscending(rows, i);
  }

  /** `add` keeps the table's invariants. */
  lemma AppendKeepsTable(rows: seq<Expense>, e: Expense)
    requires TableOk(rows) && e.id == NextId(rows) && e.amount >= 0 && ValidDate(e.date)
    ensures TableOk(rows + [e])
  {
    var all := rows + [e];
    forall x | x in all
      ensures x.amount >= 0 && ValidDate(x.date)
    {
      if x != e {
        assert x in rows;
      }
    }
    assert IdsAscending(all) by {
      forall a, b | 0 <= a < b < |all|
        ensures all[a].id < all[b].id
      {
        assert all[a] in rows;
      }
    }
  }

  /** `edit_post` keeps the table's invariants: the row keeps its id. */
  lemma ReplaceKeepsTable(rows: seq<Expense>, i: nat, e: Expense)
    requires TableOk(rows) && i < |rows| && e.id == rows[i].id && e.amount >= 0 && ValidDate(e.date)
    ensures TableOk(rows[i := e])
  {
    forall x | x in rows[i := e]
      ensures x.amount >= 0 && ValidDate(x.date)
    {
      var k :| 0 <= k < |rows[i := e]| && rows[i := e][k] == x;
      if k != i {
        assert x == rows[k];
      }
    }
  }

  /** `FindUser` on a table with one more user, whose email is new. */
  lemma {:induction false} FindUserAppend(users: seq<User>, u: User)
    requires FindUser(users, u.email).None?
    ensures FindUser(users + [u], u.email) == Some(u)
  {
    if users != [] {
      assert (users + [u])[1..] == users[1..] + [u];
      FindUserAppend(users[1..], u);
    } else {
      assert (users + [u])[0] == u;
    }
  }

  /** A user that `register` creates can log in with the password it was given. */
  lemma RegisterThenLogin(users: seq<User>, email: string, password: string)
    requires UsersOk(users) && FindUser(users, email).None?
    ensures Authenticate(users + [User(NextUserId(users), email, password)], email, password)
            == Some(NextUserId(users))
  {
    FindUserAppend(users, User(NextUserId(users), email, password));
  }

  // ---------------------------------------------------------------------
  // The application

  class Tracker {
    /** The `expense` table in rowid order. */
    var expenses: seq<Expense>
    /** The `user` table in rowid order. */
    var users: seq<User>
    /** `session["user_id"]`, absent when nobody is logged in. */
    var session: Option<nat>

    ghost predicate Valid()
      reads this
    {
      TableOk(expenses) && UsersOk(users) && SessionOk(session, users)
    }

    /** A fresh database: `create_all` on a file that holds no tables yet. */
    constructor ()
      ensures Valid()
      ensures expenses == [] && users == [] && session == None
    {
      expenses, users, session := [], [], None;
    }

    /** `index`: the filtered, ordered list and its sums. */
    method Index(startText: string, endText: string, category: string) returns (out: Outcome, flashes: seq<Flash>)
      requires Valid()
      ensures out == ShowIndex(MakeReport(expenses, HomeFilter(startText, endText, category).0),
                               startText, endText, category)
      ensures flashes == if HomeFilter(startText, endText, category).1 then [END_BEFORE_START] else []
    {
      var (filter, warned) := HomeFilter(startText, endText, category);
      flashes := if warned then [END_BEFORE_START] else [];
      out := ShowIndex(MakeReport(expenses, filter), startText, endText, category);
    }

    /** `add`: insert one expense unless a field is empty; bad amounts become 0, bad dates today. */
    method Add(description: string, amountText: string, category: string, dateText: string,
               parseAmount: string -> Option<int>, today: Date)
      returns (out: Outcome, flashes: seq<Flash>)
      requires Valid() && ValidDate(today)
      modifies this
      ensures Valid()
      ensures users == old(users) && session == old(session)
      ensures out == Redirect(IndexPage)
      ensures AnyBlank([description, category, dateText, amountText]) ==>
        expenses == old(expenses) && flashes == [INPUT_VALID_DATA]
      ensures !AnyBlank([description, category, dateText, amountText]) ==>
        && expenses == old(expenses) + [Expense(NextId(old(expenses)), description,
             StoredAmount(parseAmount(amountText)), category, ParseIsoDate(dateText).GetOr(today))]
        && flashes == AddFlashes(parseAmount(amountText), ParseIsoDate(dateText))
    {
      if AnyBlank([description, category, dateText, amountText]) {
        out, flashes := Redirect(IndexPage), [INPUT_VALID_DATA];
        return;
      }
      flashes := [];
      var amount := 0;
      var parsed := parseAmount(amountText);
      if parsed.Some? && parsed.value >= 0 {
        amount := parsed.value;
      } else {
        flashes := flashes + [NOT_VALID_AMOUNT];
      }
      var date := today;
      var iso := ParseIsoDate(dateText);
      if iso.Some? {
        date := iso.value;
      } else {
        flashes := flashes + [DATE_ERROR];
      }
      var e := Expense(NextId(expenses), description, amount, category, date);
      AppendKeepsTable(expenses, e);
      expenses := expenses + [e];
      flashes := flashes + [SUCCESS_ADDED];
      out := Redirect(IndexPage);
    }

    /** `delete`: 404 for an absent id, otherwise that row is removed. */
    method Delete(id: int) returns (out: Outcome, flashes: seq<Flash>)
      requires Valid()
      modifies this
      ensures Valid()
      ensures users == old(users) && session == old(session)
      ensures Find(old(expenses), id).None? ==>
        out == NotFound && flashes == [] && expenses == old(expenses)
      ensures Find(old(expenses), id).Some? ==>
        var i := Find(old(expenses), id).value;
        && out == Redirect(IndexPage) && flashes == [EXPENSE_DELETED]
        && expenses == RemoveAt(old(expenses), i)
    {
      var found := Find(expenses, id);
      if found.None? {
        out, flashes := NotFound, [];
        return;
      }
      var i := found.value;
      RemoveKeepsTable(expenses, i);
      expenses := RemoveAt(expenses, i);
      out, flashes := Redirect(IndexPage), [EXPENSE_DELETED];
    }

    /** `edit` (GET): the form for an existing expense, 404 otherwise. */
    method Edit(id: nat) returns (out: Outcome)
      requires Valid()
      ensures Find(expenses, id).None? ==> out == NotFound
      ensures Find(expenses, id).Some? ==> out.ShowEdit? && out.expense in expenses && out.expense.id == id
    {
      var found := Find(expenses, id);
      if found.None? {
        out := NotFound;
      } else {
        out := ShowEdit(expenses[found.value]);
      }
    }

    /**
     * `edit_post`: 404 for an absent id; the error outcome, with nothing
     * changed, for an empty field or an amount that is not positive;
     * otherwise the row's four fields are overwritten and its id kept.
     */
    method EditPost(id: nat, description: string, category: string, amountText: string, dateText: string,
                    parseAmount: string -> Option<int>, today: Date)
      returns (out: Outcome, flashes: seq<Flash>)
      requires Valid() && ValidDate(today)
      modifies this
      ensures Valid()
      ensures users == old(users) && session == old(session)
      ensures Find(old(expenses), id).None? ==>
        out == NotFound && flashes == [] && expenses == old(expenses)
      ensures Find(old(expenses), id).Some? && AnyBlank([description, category, amountText, dateText]) ==>
        out == ServerError && flashes == [ALL_FIELDS_REQUIRED] && expenses == old(expenses)
      ensures Find(old(expenses), id).Some? && !AnyBlank([description, category, amountText, dateText])
              && !(parseAmount(amountText).Some? && parseAmount(amountText).value > 0) ==>
        out == ServerError && flashes == [INVALID_AMOUNT] && expenses == old(expenses)
      ensures Find(old(expenses), id).Some? && !AnyBlank([description, category, amountText, dateText])
              && parseAmount(amountText).Some? && parseAmount(amountText).value > 0 ==>
        var i := Find(old(expenses), id).value;
        && out == Redirect(IndexPage) && flashes == [EXPENSE_UPDATED]
        && expenses == old(expenses)[i := Expense(id, description, parseAmount(amountText).value, category,
                                                  ParseDate(dateText).GetOr(today))]
    {
      var found := Find(expenses, id);
      if found.None? {
        out, flashes := NotFound, [];
        return;
      }
      var i := found.value;
      if AnyBlank([description, category, amountText, dateText]) {
        out, flashes := ServerError, [ALL_FIELDS_REQUIRED];
        return;
      }
      var parsed := parseAmount(amountText);
      if !(parsed.Some? && parsed.value > 0) {
        out, flashes := ServerError, [INVALID_AMOUNT];
        return;
      }
      var date := ParseDate(dateText).GetOr(today);
      var e := Expense(expenses[i].id, description, parsed.value, category, date);
      ReplaceKeepsTable(expenses, i, e);
      expenses := expenses[i := e];
      out, flashes := Redirect(IndexPage), [EXPENSE_UPDATED];
    }

    /** `export_csv`: every stored row, whatever the filter, and a file name from the parsed bounds. */
    method Export(startText: string, endText: string, category: string) returns (out: Outcome)
      requires Valid()
      ensures out == CsvFile(FileName(ParseDate(startText), ParseDate(endText)), Join(Document(SortAsc(expenses))))
    {
      var text := Render(expenses);
      out := CsvFile(FileName(ParseDate(startText), ParseDate(endText)), text);
    }

    /** `register` (POST): a new user unless the email is taken or the passwords differ. */
    method Register(email: string, password: string, password1: string) returns (out: Outcome, flashes: seq<Flash>)
      requires Valid()
      modifies this
      ensures Valid()
      ensures expenses == old(expenses) && session == old(session)
      ensures FindUser(old(users), email).Some? ==>
        out == Redirect(RegisterPage) && flashes == [EMAIL_TAKEN] && users == old(users)
      ensures FindUser(old(users), email).None? && password != password1 ==>
        out == Redirect(RegisterPage) && flashes == [PASSWORDS_DIFFER] && users == old(users)
      ensures FindUser(old(users), email).None? && password == password1 ==>
        && out == Redirect(LoginPage) && flashes == [ACCOUNT_CREATED]
        && users == old(users) + [User(NextUserId(old(users)), email, password)]
    {
      if FindUser(users, email).Some? {
        out, flashes := Redirect(RegisterPage), [EMAIL_TAKEN];
        return;
      }
      if password != password1 {
        out, flashes := Redirect(RegisterPage), [PASSWORDS_DIFFER];
        return;
      }
      var u := User(NextUserId(users), email, password);
      users := users + [u];
      out, flashes := Redirect(LoginPage), [ACCOUNT_CREATED];
    }

    /** `login` (POST): the session gets the user's id when email and password match. */
    method Login(email: string, password: string) returns (out: Outcome, flashes: seq<Flash>)
      requires Valid()
      modifies this
      ensures Valid()
      ensures expenses == old(expenses) && users == old(users)
      ensures Authenticate(users, email, password).Some? ==>
        session == Authenticate(users, email, password) && out == Redirect(IndexPage) && flashes == [LOGGED_IN]
      ensures Authenticate(users, email, password).None? ==>
        session == old(session) && out == Redirect(LoginPage) && flashes == [INVALID_LOGIN]
    {
      var user := FindUser(users, email);
      if user.None? || user.value.password != password {
        out, flashes := Redirect(LoginPage), [INVALID_LOGIN];
        return;
      }
      session := Some(user.value.id);
      out, flashes := Redirect(IndexPage), [LOGGED_IN];
    }

    /** `logout`: the session is cleared. */
    method Logout() returns (out: Outcome, flashes: seq<Flash>)
      requires Valid()
      modifies this
      ensures Valid()
      ensures expenses == old(expenses) && users == old(users)
      ensures session == None && out == Redirect(LoginPage) && flashes == [LOGGED_OUT]
    {
      session := None;
      out, flashes := Redirect(LoginPage), [LOGGED_OUT];
    }

    /**
     * One request: `require_login` first, which answers a gated request
     * with a redirect to the login page and changes nothing; otherwise the
     * request's handler.
     */
    method Handle(r: Request, parseAmount: string -> Option<int>, today: Date) returns (out: Outcome, flashes: seq<Flash>)
      requires Valid() && ValidDate(today)
      modifies this
      ensures Valid()
      ensures !MayProceed(Endpoint(r), old(session)) ==>
        && out == Redirect(LoginPage) && flashes == []
        && expenses == old(expenses) && users == old(users) && session == old(session)
      ensures !(r.AddExpense? || r.DeleteExpense? || r.EditExpense?) ==> expenses == old(expenses)
      ensures !r.RegisterUser? ==> users == old(users)
      ensures !(r.LoginUser? || r.Logout?) ==> session == old(session)
      ensures MayProceed(Endpoint(r), old(session)) && (r.Unrouted? || r.StaticAsset?) ==>
        && out == (if r.Unrouted? then NotFound else StaticFile(r.path)) && flashes == []
        && expenses == old(expenses) && users == old(users) && session == old(session)
    {
      if !MayProceed(Endpoint(r), session) {
        out, flashes := Redirect(LoginPage), [];
        return;
      }
      match r {
        case Home(start, end, category) =>
          out, flashes := Index(start, end, category);
        case AddExpense(description, amount, category, date) =>
          out, flashes := Add(description, amount, category, date, parseAmount, today);
        case DeleteExpense(id) =>
          out, flashes := Delete(id);
        case ExportCsv(start, end, category) =>
          out := Export(start, end, category);
          flashes := [];
        case EditForm(id) =>
          out := Edit(id);
          flashes := [];
        case EditExpense(id, description, category, amount, date) =>
          out, flashes := EditPost(id, description, category, amount, date, parseAmount, today);
        case RegisterForm =>
          out, flashes := ShowRegisterForm, [];
        case RegisterUser(email, password, password1) =>
          out, flashes := Register(email, password, password1);
        case LoginForm =>
          out, flashes := ShowLoginForm, [];
        case LoginUser(email, password) =>
          out, flashes := Login(email, password);
        case Logout =>
          out, flashes := Logout();
        case StaticAsset(path) =>
          out, flashes := StaticFile(path), [];
        case Unrouted =>
          out, flashes := NotFound, [];
      }
    }
  }
}
