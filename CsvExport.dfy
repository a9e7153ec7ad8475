/**
 * The text of `export.csv`: a header line and one line per expense, joined
 * with newlines, and the download's file name. The lines are not RFC 4180
 * records: fields are separated by a comma and a space and never quoted.
 */
module CsvExport {
  import opened Wrappers
  import opened Numerals
  import opened Dates
  import opened Ledger

  const HEADER := "date, description, category, amount"

  /** `f"{amount:.2f}"` for an amount held in cents. */
  function Money(cents: int): string {
    if cents < 0 then "-" + Unsigned(-cents) else Unsigned(cents)
  }

  function Unsigned(cents: nat): string {
    NatText(cents / 100) + "." + Pad2(cents % 100)
  }

  /** Reads back what `Money` writes: an optional minus, digits, a point and two digits. */
  function ParseMoney(s: string): Option<int> {
    if |s| >= 1 && s[0] == '-' then
      match ParseUnsigned(s[1..])
      case Some(c) => Some(0 - c as int)
      case None => None
    else ParseUnsigned(s)
  }

  function ParseUnsigned(s: string): Option<nat> {
    if |s| >= 4 && AllDigits(s[..|s| - 3]) && s[|s| - 3] == '.' && AllDigits(s[|s| - 2..]) then
      Some(100 * Value(s[..|s| - 3]) + Value(s[|s| - 2..]))
    else None
  }

  /** The amount column loses nothing: it reads back as the stored amount. */
  lemma MoneyRoundTrip(cents: int)
    ensures ParseMoney(Money(cents)) == Some(cents)
  {
    var c: nat := if cents < 0 then -cents else cents;
    UnsignedRoundTrip(c);
    if cents < 0 {
      assert Money(cents)[1..] == Unsigned(c);
    } else {
      assert Unsigned(c)[0] != '-';
    }
  }

  lemma UnsignedRoundTrip(c: nat)
    ensures ParseUnsigned(Unsigned(c)) == Some(c)
  {
    var u := Unsigned(c);
    assert u[..|u| - 3] == NatText(c / 100);
    assert u[|u| - 2..] == Pad2(c % 100);
  }

  /** `f"{created_date.isoformat()}, {description}, {category}, {amount:.2f} "`. */
  function CsvLine(e: Expense): string {
    IsoFormat(e.date) + ", " + e.description + ", " + e.category + ", " + Money(e.amount) + " "
  }

  /** `[line(r) for r in rows]`: one line per row, in the order given. */
  function Lines<T>(line: T -> string, rows: seq<T>): (lines: seq<string>)
    ensures |lines| == |rows|
    ensures forall i :: 0 <= i < |rows| ==> lines[i] == line(rows[i])
  {
    if rows == [] then [] else [line(rows[0])] + Lines(line, rows[1..])
  }

  /** `'\n'.join(lines)`. */
  function Join(lines: seq<string>): string {
    if lines == [] then ""
    else if |lines| == 1 then lines[0]
    else lines[0] + "\n" + Join(lines[1..])
  }

  /** `s.split('\n')`: the pieces between newlines, empty ones included. */
  function Split(s: string): (pieces: seq<string>)
    ensures |pieces| >= 1
  {
    if s == [] then [""]
    else
      var rest := Split(s[1..]);
      if s[0] == '\n' then [""] + rest else [[s[0]] + rest[0]] + rest[1..]
  }

  predicate NoNewline(s: string) {
    forall i :: 0 <= i < |s| ==> s[i] != '\n'
  }

  lemma {:induction false} SplitNoNewline(l: string, t: string)
    requires NoNewline(l)
    ensures Split(l) == [l]
    ensures Split(l + "\n" + t) == [l] + Split(t)
  {
    if l == [] {
      assert ([] + "\n" + t)[1..] == t;
    } else {
      SplitNoNewline(l[1..], t);
      assert (l + "\n" + t)[1..] == l[1..] + "\n" + t;
      assert [l[0]] + l[1..] == l;
    }
  }

  /** Splitting the joined text at its newlines gives the lines back. */
  lemma {:induction false} SplitJoin(lines: seq<string>)
    requires |lines| >= 1
    requires forall i :: 0 <= i < |lines| ==> NoNewline(lines[i])
    ensures Split(Join(lines)) == lines
  {
    if |lines| == 1 {
      SplitNoNewline(lines[0], "");
    } else {
      SplitJoin(lines[1..]);
      SplitNoNewline(lines[0], Join(lines[1..]));
    }
  }

  /**
   * The CSV text: the header, then one line per row in ascending
   * `(created_date, id)` order, joined by newlines, built line by line.
   */
  method Render(rows: seq<Expense>) returns (text: string)
    ensures text == Join(Document(SortAsc(rows)))
  {
    var sorted := SortAsc(rows);
    var lines := [HEADER];
    var i := 0;
    while i < |sorted|
      invariant 0 <= i <= |sorted|
      invariant lines == Document(sorted[..i])
    {
      DocumentStep(sorted, i);
      lines := lines + [CsvLine(sorted[i])];
      i := i + 1;
    }
    assert sorted[..i] == sorted;
    text := Join(lines);
  }

  /** The lines of the export: the header, then one line per row in the order given. */
  function Document(rows: seq<Expense>): (lines: seq<string>)
    ensures |lines| == |rows| + 1
  {
    [HEADER] + Lines(CsvLine, rows)
  }

  lemma DocumentStep(rows: seq<Expense>, i: nat)
    requires i < |rows|
    ensures Document(rows[..i + 1]) == Document(rows[..i]) + [CsvLine(rows[i])]
  {
    LinesStep(CsvLine, rows, i);
  }

  lemma LinesStep<T>(line: T -> string, rows: seq<T>, i: nat)
    requires i < |rows|
    ensures Lines(line, rows[..i + 1]) == Lines(line, rows[..i]) + [line(rows[i])]
  {
    var a, b := Lines(line, rows[..i + 1]), Lines(line, rows[..i]) + [line(rows[i])];
    forall j | 0 <= j < |a|
      ensures a[j] == b[j]
    {
      if j < i {
        assert rows[..i + 1][j] == rows[..i][j];
      }
    }
  }

  /**
   * Every stored row is exported once, in ascending `(created_date, id)`
   * order, after the header: line `i + 1` of the text is the line of the
   * `i`-th row of that order.
   */
  lemma ExportSpec(rows: seq<Expense>)
    requires UniqueIds(rows)
    ensures multiset(SortAsc(rows)) == multiset(rows)
    ensures Ascending(SortAsc(rows))
    ensures (forall e :: e in rows ==> NoNewline(e.description) && NoNewline(e.category)) ==>
      Split(Join(Document(SortAsc(rows)))) == Document(SortAsc(rows))
  {
    SortAscending(rows);
    var sorted := SortAsc(rows);
    if forall e :: e in rows ==> NoNewline(e.description) && NoNewline(e.category) {
      forall e | e in sorted
        ensures NoNewline(e.description) && NoNewline(e.category)
      {
        assert e in multiset(sorted);
      }
      DocumentNoNewline(sorted);
      SplitJoin(Document(sorted));
    }
  }

  /**
   * `.strip()` keeps inner newlines: a description holding one splits its
   * record over more than one line of the file, so the file has more lines
   * than the header and one per row.
   */
  lemma NewlineAddsLine(rows: seq<Expense>, e: Expense)
    requires e in rows && !NoNewline(e.description)
    ensures |Split(Join(Document(SortAsc(rows))))| > |rows| + 1
  {
    var sorted := SortAsc(rows);
    assert e in multiset(sorted);
    assert |sorted| == |multiset(sorted)| == |rows|;
    var k :| 0 <= k < |sorted| && sorted[k] == e;
    DocumentLine(sorted, k);
    CsvLineNewline(e);
    SplitJoinCount(Document(sorted));
  }

  lemma DocumentLine(rows: seq<Expense>, k: nat)
    requires k < |rows|
    ensures Document(rows)[k + 1] == CsvLine(rows[k])
  {
  }

  /** A newline in the description is a newline in the record's line. */
  lemma CsvLineNewline(e: Expense)
    requires !NoNewline(e.description)
    ensures !NoNewline(CsvLine(e))
  {
    var sep := ", ";
    NewlineRight(IsoFormat(e.date) + sep, e.description);
    NewlineLeft(IsoFormat(e.date) + sep + e.description, sep);
    NewlineLeft(IsoFormat(e.date) + sep + e.description + sep, e.category);
    NewlineLeft(IsoFormat(e.date) + sep + e.description + sep + e.category, sep);
    NewlineLeft(IsoFormat(e.date) + sep + e.description + sep + e.category + sep, Money(e.amount));
    NewlineLeft(IsoFormat(e.date) + sep + e.description + sep + e.category + sep + Money(e.amount), " ");
  }

  lemma NewlineLeft(a: string, b: string)
    requires !NoNewline(a)
    ensures !NoNewline(a + b)
  {
    var k :| 0 <= k < |a| && a[k] == '\n';
    assert (a + b)[k] == '\n';
  }

  lemma NewlineRight(a: string, b: string)
    requires !NoNewline(b)
    ensures !NoNewline(a + b)
  {
    var k :| 0 <= k < |b| && b[k] == '\n';
    assert (a + b)[|a| + k] == '\n';
  }

  /** Splitting at a newline splits the two sides separately. */
  lemma {:induction false} SplitConcat(a: string, b: string)
    ensures Split(a + "\n" + b) == Split(a) + Split(b)
  {
    if a == [] {
      assert a + "\n" + b == "\n" + b;
      assert ("\n" + b)[1..] == b;
    } else {
      assert (a + "\n" + b)[0] == a[0];
      assert (a + "\n" + b)[1..] == a[1..] + "\n" + b;
      SplitConcat(a[1..], b);
    }
  }

  /** Text holding a newline splits into at least two pieces. */
  lemma {:induction false} SplitCount(s: string)
    ensures !NoNewline(s) ==> |Split(s)| >= 2
  {
    if s != [] && s[0] != '\n' {
      SplitCount(s[1..]);
      if !NoNewline(s) {
        var k :| 0 <= k < |s| && s[k] == '\n';
        assert s[1..][k - 1] == '\n';
      }
    }
  }

  /** The joined lines split into at least one piece per line, and more when a line holds a newline. */
  lemma {:induction false} SplitJoinCount(lines: seq<string>)
    requires |lines| >= 1
    ensures |Split(Join(lines))| >= |lines|
    ensures (exists i :: 0 <= i < |lines| && !NoNewline(lines[i])) ==> |Split(Join(lines))| > |lines|
  {
    SplitCount(lines[0]);
    if |lines| > 1 {
      SplitConcat(lines[0], Join(lines[1..]));
      SplitJoinCount(lines[1..]);
      if exists i :: 0 <= i < |lines| && !NoNewline(lines[i]) {
        var i :| 0 <= i < |lines| && !NoNewline(lines[i]);
        if i > 0 {
          assert lines[1..][i - 1] == lines[i];
        }
      }
    }
  }

  /** No line of the export holds a newline when no description or category does. */
  lemma DocumentNoNewline(rows: seq<Expense>)
    requires forall e :: e in rows ==> NoNewline(e.description) && NoNewline(e.category)
    ensures forall i :: 0 <= i < |Document(rows)| ==> NoNewline(Document(rows)[i])
  {
    var lines := Document(rows);
    forall i | 0 <= i < |lines|
      ensures NoNewline(lines[i])
    {
      if i == 0 {
        assert lines[0] == HEADER;
        HeaderNoNewline();
      } else {
        assert lines[i] == CsvLine(rows[i - 1]);
        CsvLineNoNewline(rows[i - 1]);
      }
    }
  }

  lemma CsvLineNoNewline(e: Expense)
    requires NoNewline(e.description) && NoNewline(e.category)
    ensures NoNewline(CsvLine(e))
  {
    IsoFormatNoNewline(e.date);
    MoneyNoNewline(e.amount);
    var sep := ", ";
    assert NoNewline(sep) && NoNewline(" ");
    NoNewlineConcat(IsoFormat(e.date), sep);
    NoNewlineConcat(IsoFormat(e.date) + sep, e.description);
    NoNewlineConcat(IsoFormat(e.date) + sep + e.description, sep);
    NoNewlineConcat(IsoFormat(e.date) + sep + e.description + sep, e.category);
    NoNewlineConcat(IsoFormat(e.date) + sep + e.description + sep + e.category, sep);
    NoNewlineConcat(IsoFormat(e.date) + sep + e.description + sep + e.category + sep, Money(e.amount));
    NoNewlineConcat(IsoFormat(e.date) + sep + e.description + sep + e.category + sep + Money(e.amount), " ");
  }

  lemma NoNewlineConcat(a: string, b: string)
    requires NoNewline(a) && NoNewline(b)
    ensures NoNewline(a + b)
  {
    forall i | 0 <= i < |a + b|
      ensures (a + b)[i] != '\n'
    {
      if i >= |a| {
        assert (a + b)[i] == b[i - |a|];
      }
    }
  }

  lemma HeaderNoNewline()
    ensures NoNewline(HEADER)
  {
  }

  lemma IsoFormatNoNewline(d: Date)
    ensures NoNewline(IsoFormat(d))
  {
  }

  lemma MoneyNoNewline(cents: int)
    ensures NoNewline(Money(cents))
  {
  }

  /** A bound of the file name: the ISO date, or `all` when the bound is absent. */
  function Bound(b: Option<Date>): string {
    match b
    case Some(d) => IsoFormat(d)
    case None => "all"
  }

  /** `expenses_<start>_to_<end>.csv`. */
  function FileName(start: Option<Date>, end: Option<Date>): string {
    "expenses_" + Bound(start) + "_to_" + Bound(end) + ".csv"
  }

  /** Each bound of the file name reads back, through `convert_date`, as the bound it names. */
  lemma BoundRoundTrip(b: Option<Date>)
    requires b.Some? ==> ValidDate(b.value)
    ensures ParseDate(Bound(b)) == b
  {
    if b.Some? {
      IsoFormatRoundTrip(b.value);
    }
  }
}
