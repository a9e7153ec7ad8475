/**
 * The `expense` table as a sequence of rows in rowid order, and the
 * queries the home page runs over it: the filter on optional date bounds
 * and category, the `(created_date, id)` ordering, the total and the
 * per-category and per-day sums.
 */
module Ledger {
  import opened Wrappers
  import opened Dates

  /** A row of the `expense` table. `amount` is in cents. */
  datatype Expense = Expense(id: nat, description: string, amount: int, category: string, date: Date)

  /** No two rows share an id (the primary key). */
  predicate UniqueIds(rows: seq<Expense>) {
    forall i, j :: 0 <= i < j < |rows| ==> rows[i].id != rows[j].id
  }

  /** `a` comes before `b` in `ORDER BY created_date, id`. */
  predicate KeyLess(a: Expense, b: Expense) {
    Before(a.date, b.date) || (a.date == b.date && a.id < b.id)
  }

  lemma KeyLessOrder(a: Expense, b: Expense, c: Expense)
    ensures !KeyLess(a, a)
    ensures KeyLess(a, b) ==> !KeyLess(b, a)
    ensures a.id != b.id ==> KeyLess(a, b) || KeyLess(b, a)
    ensures KeyLess(a, b) && KeyLess(b, c) ==> KeyLess(a, c)
  {
    BeforeTotal(a.date, b.date);
    if Before(a.date, b.date) && Before(b.date, c.date) {
      BeforeTransitive(a.date, b.date, c.date);
    }
  }

  /** Strictly ascending by `(created_date, id)`. */
  predicate Ascending(s: seq<Expense>) {
    forall i, j :: 0 <= i < j < |s| ==> KeyLess(s[i], s[j])
  }

  /** Strictly descending by `(created_date, id)`. */
  predicate Descending(s: seq<Expense>) {
    forall i, j :: 0 <= i < j < |s| ==> KeyLess(s[j], s[i])
  }

  // ---------------------------------------------------------------------
  // The filter

  /** The optional bounds of a query; the empty category means "any category". */
  datatype Filter = Filter(start: Option<Date>, end: Option<Date>, category: string)

  /** `created_date >= start AND created_date <= end AND category == category`, each only when set. */
  predicate Matches(f: Filter, e: Expense) {
    && (f.start.None? || !Before(e.date, f.start.value))
    && (f.end.None? || !Before(f.end.value, e.date))
    && (f.category == "" || e.category == f.category)
  }

  /** The rows the filter keeps, in table order. */
  function FilterRows(rows: seq<Expense>, f: Filter): (r: seq<Expense>)
    ensures forall e :: e in r <==> e in rows && Matches(f, e)
    ensures UniqueIds(rows) ==> UniqueIds(r)
  {
    if rows == [] then []
    else
      var rest := FilterRows(rows[1..], f);
      assert UniqueIds(rows) ==> forall e :: e in rest ==> e.id != rows[0].id;
      if Matches(f, rows[0]) then [rows[0]] + rest else rest
  }

  // ---------------------------------------------------------------------
  // The ordering

  /** `e` put into place in an ascending sequence. */
  function Insert(e: Expense, s: seq<Expense>): (r: seq<Expense>)
    ensures multiset(r) == multiset(s) + multiset{e}
    ensures forall x :: x in r <==> x == e || x in s
  {
    if s == [] || KeyLess(e, s[0]) then [e] + s
    else
      assert s == [s[0]] + s[1..];
      [s[0]] + Insert(e, s[1..])
  }

  /** Insertion sort into `ORDER BY created_date, id`. */
  function SortAsc(rows: seq<Expense>): (r: seq<Expense>)
    ensures multiset(r) == multiset(rows)
  {
    if rows == [] then []
    else
      assert rows == [rows[0]] + rows[1..];
      Insert(rows[0], SortAsc(rows[1..]))
  }

  lemma {:induction false} InsertAscending(e: Expense, s: seq<Expense>)
    requires Ascending(s)
    requires forall x :: x in s ==> x.id != e.id
    ensures Ascending(Insert(e, s))
  {
    if s == [] || KeyLess(e, s[0]) {
      forall j | 0 < j < |s| + 1
        ensures KeyLess(e, ([e] + s)[j])
      {
        KeyLessOrder(e, s[0], s[j - 1]);
      }
    } else {
      KeyLessOrder(e, s[0], s[0]);
      InsertAscending(e, s[1..]);
      var r := Insert(e, s);
      forall j | 0 < j < |r|
        ensures KeyLess(s[0], r[j])
      {
        assert r[j] in Insert(e, s[1..]);
      }
    }
  }

  lemma {:induction false} SortAscending(rows: seq<Expense>)
    requires UniqueIds(rows)
    ensures Ascending(SortAsc(rows))
  {
    if rows != [] {
      SortAscending(rows[1..]);
      forall x | x in SortAsc(rows[1..])
        ensures x.id != rows[0].id
      {
        assert x in multiset(rows[1..]);
      }
      InsertAscending(rows[0], SortAsc(rows[1..]));
    }
  }

  /** Two ascending arrangements of the same rows start with the same row. */
  lemma AscendingHead(a: seq<Expense>, b: seq<Expense>)
    requires Ascending(a) && Ascending(b) && multiset(a) == multiset(b) && a != []
    ensures b != [] && a[0] == b[0]
  {
    assert a[0] in multiset(b);
    assert b[0] in multiset(a);
    if a[0] != b[0] {
      var k :| 0 <= k < |b| && b[k] == a[0];
      var m :| 0 <= m < |a| && a[m] == b[0];
      assert KeyLess(b[0], a[0]);
      assert KeyLess(a[0], b[0]);
      KeyLessOrder(a[0], b[0], a[0]);
      assert false;
    }
  }

  /** Two ascending arrangements of the same rows are the same sequence. */
  lemma {:induction false} AscendingUnique(a: seq<Expense>, b: seq<Expense>)
    requires Ascending(a) && Ascending(b) && multiset(a) == multiset(b)
    ensures a == b
  {
    if a != [] {
      AscendingHead(a, b);
      assert a == [a[0]] + a[1..] && b == [b[0]] + b[1..];
      calc {
        multiset(a[1..]);
        multiset(a) - multiset{a[0]};
        multiset(b) - multiset{b[0]};
        multiset(b[1..]);
      }
      AscendingTail(a);
      AscendingTail(b);
      AscendingUnique(a[1..], b[1..]);
    }
  }

  lemma AscendingTail(s: seq<Expense>)
    requires Ascending(s) && s != []
    ensures Ascending(s[1..])
  {
    forall i, j | 0 <= i < j < |s| - 1
      ensures KeyLess(s[1..][i], s[1..][j])
    {
      assert s[1..][i] == s[i + 1] && s[1..][j] == s[j + 1];
    }
  }

  function Reverse(s: seq<Expense>): (r: seq<Expense>)
    ensures |r| == |s| && forall i :: 0 <= i < |s| ==> r[i] == s[|s| - 1 - i]
    ensures multiset(r) == multiset(s)
  {
    if s == [] then []
    else
      assert s == [s[0]] + s[1..];
      Reverse(s[1..]) + [s[0]]
  }

  /** The home page's list: `ORDER BY created_date DESC, id DESC` over the filtered rows. */
  function Listing(rows: seq<Expense>, f: Filter): seq<Expense> {
    Reverse(SortAsc(FilterRows(rows, f)))
  }

  /**
   * The listed expenses are exactly the stored rows the filter keeps, each
   * once, in strictly descending `(created_date, id)` order.
   */
  lemma ListingSpec(rows: seq<Expense>, f: Filter)
    requires UniqueIds(rows)
    ensures forall e :: e in Listing(rows, f) <==> e in rows && Matches(f, e)
    ensures multiset(Listing(rows, f)) == multiset(FilterRows(rows, f))
    ensures Descending(Listing(rows, f))
  {
    var sorted := SortAsc(FilterRows(rows, f));
    SortAscending(FilterRows(rows, f));
    var l := Listing(rows, f);
    forall e
      ensures e in l <==> e in rows && Matches(f, e)
    {
      assert e in l <==> e in multiset(l);
      assert e in FilterRows(rows, f) <==> e in multiset(FilterRows(rows, f));
    }
  }

  lemma ReverseDescending(s: seq<Expense>)
    requires Descending(s)
    ensures Ascending(Reverse(s))
  {
    var r := Reverse(s);
    forall i, j | 0 <= i < j < |r|
      ensures KeyLess(r[i], r[j])
    {
      assert r[i] == s[|s| - 1 - i] && r[j] == s[|s| - 1 - j];
    }
  }

  lemma ReverseReverse(s: seq<Expense>)
    ensures Reverse(Reverse(s)) == s
  {
    var t := Reverse(s);
    var r := Reverse(t);
    assert |r| == |s|;
    forall i | 0 <= i < |s|
      ensures r[i] == s[i]
    {
      assert r[i] == t[|s| - 1 - i];
    }
  }

  /** No other order has those properties: the listing is determined by the filtered rows. */
  lemma ListingDetermined(rows: seq<Expense>, f: Filter, l: seq<Expense>)
    requires UniqueIds(rows)
    requires multiset(l) == multiset(FilterRows(rows, f)) && Descending(l)
    ensures l == Listing(rows, f)
  {
    var l' := Listing(rows, f);
    ListingSpec(rows, f);
    ReverseDescending(l);
    ReverseDescending(l');
    AscendingUnique(Reverse(l), Reverse(l'));
    ReverseReverse(l);
    ReverseReverse(l');
  }

  // ---------------------------------------------------------------------
  // Sums

  /** `sum(e.amount for e in rows)`, 0 for no rows. */
  function Total(rows: seq<Expense>): int {
    if rows == [] then 0 else rows[0].amount + Total(rows[1..])
  }

  lemma {:induction false} TotalConcat(a: seq<Expense>, b: seq<Expense>)
    ensures Total(a + b) == Total(a) + Total(b)
  {
    if a != [] {
      assert a + b != [] && (a + b)[0] == a[0];
      assert (a + b)[1..] == a[1..] + b;
      TotalConcat(a[1..], b);
      assert Total(a + b) == a[0].amount + Total(a[1..] + b);
    } else {
      assert a + b == b;
    }
  }

  /** A sum does not depend on the order of the rows. */
  lemma {:induction false} TotalPermutation(a: seq<Expense>, b: seq<Expense>)
    requires multiset(a) == multiset(b)
    ensures Total(a) == Total(b)
  {
    if a != [] {
      assert a[0] in multiset(b);
      var k :| 0 <= k < |b| && b[k] == a[0];
      var rest := b[..k] + b[k + 1..];
      assert b == b[..k] + [b[k]] + b[k + 1..];
      TotalConcat(b[..k] + [b[k]], b[k + 1..]);
      TotalConcat(b[..k], [b[k]]);
      TotalConcat(b[..k], b[k + 1..]);
      assert a == [a[0]] + a[1..];
      calc {
        multiset(a[1..]);
        multiset(a) - multiset{a[0]};
        multiset(b) - multiset{b[k]};
        multiset(rest);
      }
      TotalPermutation(a[1..], rest);
    }
  }

  // ---------------------------------------------------------------------
  // Grouped sums: `SELECT key, SUM(amount) ... GROUP BY key`

  predicate NoDups<K(==)>(ks: seq<K>) {
    forall i, j :: 0 <= i < j < |ks| ==> ks[i] != ks[j]
  }

  /** The sum of the amounts of the rows whose key is `k`. */
  function GroupTotal<K(==)>(rows: seq<Expense>, key: Expense -> K, k: K): int {
    if rows == [] then 0
    else (if key(rows[0]) == k then rows[0].amount else 0) + GroupTotal(rows[1..], key, k)
  }

  /** One `(key, sum)` row per key of `ks`. */
  function Groups<K(==)>(rows: seq<Expense>, key: Expense -> K, ks: seq<K>): (g: seq<(K, int)>)
    ensures |g| == |ks|
    ensures forall i :: 0 <= i < |ks| ==> g[i] == (ks[i], GroupTotal(rows, key, ks[i]))
  {
    if ks == [] then [] else [(ks[0], GroupTotal(rows, key, ks[0]))] + Groups(rows, key, ks[1..])
  }

  function SumValues<K>(g: seq<(K, int)>): int {
    if g == [] then 0 else g[0].1 + SumValues(g[1..])
  }

  lemma {:induction false} GroupsCons<K>(e: Expense, rest: seq<Expense>, key: Expense -> K, ks: seq<K>)
    requires NoDups(ks)
    ensures SumValues(Groups([e] + rest, key, ks))
         == (if key(e) in ks then e.amount else 0) + SumValues(Groups(rest, key, ks))
  {
    if ks != [] {
      assert ([e] + rest)[1..] == rest;
      assert NoDups(ks[1..]);
      assert key(e) == ks[0] ==> key(e) !in ks[1..];
      GroupsCons(e, rest, key, ks[1..]);
    }
  }

  /**
   * Grouping partitions the rows: when every row's key is listed exactly
   * once, the group sums add up to the total.
   */
  lemma {:induction false} PartitionTotal<K>(rows: seq<Expense>, key: Expense -> K, ks: seq<K>)
    requires NoDups(ks)
    requires forall e :: e in rows ==> key(e) in ks
    ensures SumValues(Groups(rows, key, ks)) == Total(rows)
  {
    if rows == [] {
      ZeroGroups(key, ks);
    } else {
      assert rows == [rows[0]] + rows[1..];
      GroupsCons(rows[0], rows[1..], key, ks);
      PartitionTotal(rows[1..], key, ks);
    }
  }

  lemma {:induction false} ZeroGroups<K>(key: Expense -> K, ks: seq<K>)
    ensures SumValues(Groups([], key, ks)) == 0
  {
    if ks != [] {
      ZeroGroups(key, ks[1..]);
    }
  }

  /** The keys of grouped rows, in order. */
  function Keys<K>(g: seq<(K, int)>): (ks: seq<K>)
    ensures |ks| == |g| && forall i :: 0 <= i < |g| ==> ks[i] == g[i].0
  {
    if g == [] then [] else [g[0].0] + Keys(g[1..])
  }

  /** The groups carry exactly the keys they were asked for, in that order. */
  lemma GroupsKeys<K>(rows: seq<Expense>, key: Expense -> K, ks: seq<K>)
    ensures Keys(Groups(rows, key, ks)) == ks
  {
  }

  /** Each category once, in the order of its last occurrence. */
  function Distinct(ks: seq<string>): (r: seq<string>)
    ensures NoDups(r)
    ensures forall k :: k in r <==> k in ks
  {
    if ks == [] then []
    else if ks[0] in ks[1..] then Distinct(ks[1..])
    else [ks[0]] + Distinct(ks[1..])
  }

  function CategoryOf(e: Expense): string {
    e.category
  }

  function DateOf(e: Expense): Date {
    e.date
  }

  /** The category of every row, with repeats. */
  function Categories(rows: seq<Expense>): (cs: seq<string>)
    ensures forall e :: e in rows ==> e.category in cs
    ensures forall c :: c in cs ==> exists e :: e in rows && e.category == c
  {
    if rows == [] then [] else [rows[0].category] + Categories(rows[1..])
  }

  /** Strictly ascending dates. */
  predicate DatesAscending(ds: seq<Date>) {
    forall i, j :: 0 <= i < j < |ds| ==> Before(ds[i], ds[j])
  }

  /** `d` put into place in a strictly ascending list of dates, unless already there. */
  function InsertDate(d: Date, ds: seq<Date>): (r: seq<Date>)
    requires DatesAscending(ds)
    ensures DatesAscending(r)
    ensures forall x :: x in r <==> x == d || x in ds
  {
    if ds == [] then [d]
    else if d == ds[0] then ds
    else if Before(d, ds[0]) then
      assert forall j :: 0 <= j < |ds| ==> Before(d, ds[j]) by {
        forall j | 0 <= j < |ds| ensures Before(d, ds[j]) {
          if j > 0 { BeforeTransitive(d, ds[0], ds[j]); }
        }
      }
      [d] + ds
    else
      BeforeTotal(d, ds[0]);
      var r := [ds[0]] + InsertDate(d, ds[1..]);
      assert forall j :: 0 < j < |r| ==> r[j] == d || r[j] in ds[1..];
      r
  }

  /** The distinct dates of the rows, ascending (`GROUP BY created_date ORDER BY created_date`). */
  function DayKeys(rows: seq<Expense>): (ds: seq<Date>)
    ensures DatesAscending(ds)
    ensures forall e :: e in rows ==> e.date in ds
    ensures forall d :: d in ds ==> exists e :: e in rows && e.date == d
  {
    if rows == [] then [] else InsertDate(rows[0].date, DayKeys(rows[1..]))
  }

  /** The pie chart's rows: one per category present in the filtered rows. */
  function CategoryRows(matching: seq<Expense>): seq<(string, int)> {
    Groups(matching, CategoryOf, Distinct(Categories(matching)))
  }

  /** The per-day chart's rows: one per date present, ascending by date. */
  function DayRows(matching: seq<Expense>): seq<(Date, int)> {
    Groups(matching, DateOf, DayKeys(matching))
  }

  /**
   * Category rows: no category twice, one row for each category of the
   * rows and no other, each the sum over its group, together the total.
   */
  lemma CategoryRowsSpec(matching: seq<Expense>)
    ensures NoDups(Keys(CategoryRows(matching)))
    ensures forall c :: c in Keys(CategoryRows(matching)) <==> exists e :: e in matching && e.category == c
    ensures forall i :: 0 <= i < |CategoryRows(matching)| ==>
      CategoryRows(matching)[i].1 == GroupTotal(matching, CategoryOf, CategoryRows(matching)[i].0)
    ensures SumValues(CategoryRows(matching)) == Total(matching)
  {
    GroupsKeys(matching, CategoryOf, Distinct(Categories(matching)));
    PartitionTotal(matching, CategoryOf, Distinct(Categories(matching)));
  }

  /**
   * Day rows: strictly ascending by date, one row for each date of the
   * rows and no other, each the sum over its day, together the total.
   */
  lemma DayRowsSpec(matching: seq<Expense>)
    ensures forall i, j :: 0 <= i < j < |DayRows(matching)| ==> Before(DayRows(matching)[i].0, DayRows(matching)[j].0)
    ensures forall d :: d in Keys(DayRows(matching)) <==> exists e :: e in matching && e.date == d
    ensures forall i :: 0 <= i < |DayRows(matching)| ==>
      DayRows(matching)[i].1 == GroupTotal(matching, DateOf, DayRows(matching)[i].0)
    ensures SumValues(DayRows(matching)) == Total(matching)
  {
    var ks := DayKeys(matching);
    assert NoDups(ks) by {
      forall i, j | 0 <= i < j < |ks| ensures ks[i] != ks[j] {
        BeforeTotal(ks[i], ks[j]);
      }
    }
    GroupsKeys(matching, DateOf, ks);
    PartitionTotal(matching, DateOf, ks);
  }

  // ---------------------------------------------------------------------
  // The home page's figures

  /** What the home page shows for a filter. */
  datatype Report = Report(
    expenses: seq<Expense>,
    total: int,
    categoryRows: seq<(string, int)>,
    dayRows: seq<(Date, int)>)

  function MakeReport(rows: seq<Expense>, f: Filter): Report {
    var listed := Listing(rows, f);
    var matching := FilterRows(rows, f);
    Report(listed, Total(listed), CategoryRows(matching), DayRows(matching))
  }

  /**
   * The total is the sum over the listed rows and over the filtered rows
   * alike, and each grouping of the filtered rows sums to it.
   */
  lemma ReportTotals(rows: seq<Expense>, f: Filter)
    requires UniqueIds(rows)
    ensures MakeReport(rows, f).total == Total(FilterRows(rows, f))
    ensures SumValues(MakeReport(rows, f).categoryRows) == MakeReport(rows, f).total
    ensures SumValues(MakeReport(rows, f).dayRows) == MakeReport(rows, f).total
  {
    ListingSpec(rows, f);
    TotalPermutation(Listing(rows, f), FilterRows(rows, f));
    CategoryRowsSpec(FilterRows(rows, f));
    DayRowsSpec(FilterRows(rows, f));
  }
}
