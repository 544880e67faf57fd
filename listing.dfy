/** The listing side of `get_recent_actions`: turning each row of the recent-actions page
    into an action record, with the date re-formatted from `%m/%d/%Y` to `%Y%m%d` and the
    de-duplication key `full_url` built from that date. */
module Listing {
  import opened Text

  // ---------------------------------------------------------------------------
  // Calendar dates

  datatype Date = Date(year: int, month: int, day: int)

  predicate IsLeapYear(y: int)
  {
    y % 4 == 0 && (y % 100 != 0 || y % 400 == 0)
  }

  function DaysInMonth(y: int, m: int): int
    requires 1 <= m <= 12
  {
    if m == 2 then (if IsLeapYear(y) then 29 else 28)
    else if m == 4 || m == 6 || m == 9 || m == 11 then 30
    else 31
  }

  /** The dates a `datetime.date` can hold. */
  predicate ValidDate(d: Date)
  {
    1 <= d.year <= 9999 && 1 <= d.month <= 12 && 1 <= d.day <= DaysInMonth(d.year, d.month)
  }

  // ---------------------------------------------------------------------------
  // Decimal digits

  predicate IsDigit(c: char) { '0' <= c <= '9' }

  predicate AllDigits(s: string)
  {
    forall i :: 0 <= i < |s| ==> IsDigit(s[i])
  }

  function DigitValue(c: char): int
    requires IsDigit(c)
  {
    c as int - '0' as int
  }

  function DigitChar(n: int): char
    requires 0 <= n <= 9
  {
    ('0' as int + n) as char
  }

  /** The value of a string of decimal digits. */
  function Number(s: string): nat
    requires AllDigits(s)
    decreases |s|
  {
    if s == [] then 0 else Number(s[..|s| - 1]) * 10 + DigitValue(s[|s| - 1])
  }

  /** Two digits, zero-padded (`%m`, `%d` of strftime). */
  function Pad2(n: int): string
    requires 0 <= n <= 99
  {
    [DigitChar(n / 10), DigitChar(n % 10)]
  }

  /** Four digits, zero-padded (`%Y` of strftime). */
  function Pad4(n: int): string
    requires 0 <= n <= 9999
  {
    Pad2(n / 100) + Pad2(n % 100)
  }

  /** `date_obj.strftime('%Y%m%d')`. */
  function Compact(d: Date): string
    requires ValidDate(d)
  {
    Pad4(d.year) + Pad2(d.month) + Pad2(d.day)
  }

  // ---------------------------------------------------------------------------
  // strptime(date_str, '%m/%d/%Y')

  /** A `%m` field: the expression `1[0-2]|0[1-9]|[1-9]`, i.e. one or two digits worth 1 to 12. */
  predicate MonthField(f: string)
  {
    1 <= |f| <= 2 && AllDigits(f) && 1 <= Number(f) <= 12
  }

  /** A `%d` field: the expression `3[01]|[12]\d|0[1-9]|[1-9]| [1-9]`, i.e. one or two digits
      worth 1 to 31, or a space followed by a digit 1 to 9. */
  predicate DayField(f: string)
  {
    (1 <= |f| <= 2 && AllDigits(f) && 1 <= Number(f) <= 31)
    || (|f| == 2 && f[0] == ' ' && '1' <= f[1] <= '9')
  }

  function DayValue(f: string): int
    requires DayField(f)
  {
    if f[0] == ' ' then DigitValue(f[1]) else Number(f)
  }

  /** A `%Y` field: exactly four digits. */
  predicate YearField(f: string)
  {
    |f| == 4 && AllDigits(f)
  }

  /** `datetime.strptime(s, '%m/%d/%Y')`: the whole string must match `%m/%d/%Y`, and the
      three numbers must form a date; otherwise it raises `ValueError` (here `None`). */
  function ParseDate(s: string): (r: Option<Date>)
    ensures r.Some? ==> ValidDate(r.value)
  {
    var parts := Split(s, '/');
    if |parts| == 3 && MonthField(parts[0]) && DayField(parts[1]) && YearField(parts[2]) then
      var d := Date(Number(parts[2]), Number(parts[0]), DayValue(parts[1]));
      if ValidDate(d) then Some(d) else None
    else None
  }

  /** The formatted date of lines 139-143: the parsed date as eight digits `YYYYMMDD`
      that decode back to it, or, when parsing fails, the input with every `/` removed.
      Either way it holds no `/`. */
  function FormatDate(s: string): (r: string)
    ensures '/' !in r
    ensures ParseDate(s).Some? ==>
      var d := ParseDate(s).value;
      |r| == 8 && AllDigits(r) &&
      Number(r[..4]) == d.year && Number(r[4..6]) == d.month && Number(r[6..]) == d.day
    ensures ParseDate(s).None? ==> r == Remove(s, '/')
  {
    match ParseDate(s)
    case Some(d) =>
      CompactDecodes(d);
      Compact(d)
    case None =>
      RemoveSpec(s, '/');
      Remove(s, '/')
  }

  // ---------------------------------------------------------------------------
  // Lemmas about dates

  lemma Pad2Digits(n: int)
    requires 0 <= n <= 99
    ensures |Pad2(n)| == 2 && AllDigits(Pad2(n)) && Number(Pad2(n)) == n
    ensures Pad2(n)[0] != ' ' && '/' !in Pad2(n)
  {
    var s := Pad2(n);
    assert s[..1][..0] == [];
    assert s[..1] == [s[0]];
    assert Number(s[..1]) == DigitValue(s[0]);
    assert Number(s) == DigitValue(s[0]) * 10 + DigitValue(s[1]);
    assert DigitValue(s[0]) == n / 10 && DigitValue(s[1]) == n % 10;
  }

  lemma NumberAppend2(a: string, b: string)
    requires AllDigits(a) && AllDigits(b) && |b| == 2
    ensures AllDigits(a + b) && Number(a + b) == Number(a) * 100 + Number(b)
  {
    var ab := a + b;
    var a0 := a + [b[0]];
    assert ab[..|ab| - 1] == a0;
    assert a0[..|a0| - 1] == a;
    assert Number(a0) == Number(a) * 10 + DigitValue(b[0]);
    assert Number(ab) == Number(a0) * 10 + DigitValue(b[1]);
    assert b[..1] == [b[0]];
    assert b[..1][..0] == [];
    assert Number(b[..1]) == DigitValue(b[0]);
    assert Number(b) == DigitValue(b[0]) * 10 + DigitValue(b[1]);
  }

  lemma Pad4Digits(n: int)
    requires 0 <= n <= 9999
    ensures |Pad4(n)| == 4 && AllDigits(Pad4(n)) && Number(Pad4(n)) == n
    ensures '/' !in Pad4(n)
  {
    Pad2Digits(n / 100);
    Pad2Digits(n % 100);
    NumberAppend2(Pad2(n / 100), Pad2(n % 100));
  }

  /** The eight digits of a date decode back to its year, month and day. */
  lemma CompactDecodes(d: Date)
    requires ValidDate(d)
    ensures |Compact(d)| == 8 && AllDigits(Compact(d)) && '/' !in Compact(d)
    ensures Number(Compact(d)[..4]) == d.year
    ensures Number(Compact(d)[4..6]) == d.month
    ensures Number(Compact(d)[6..]) == d.day
  {
    var c := Compact(d);
    Pad4Digits(d.year);
    Pad2Digits(d.month);
    Pad2Digits(d.day);
    assert c[..4] == Pad4(d.year);
    assert c[4..6] == Pad2(d.month);
    assert c[6..] == Pad2(d.day);
  }

  /** Distinct dates give distinct eight-digit forms. */
  lemma CompactInjective(d1: Date, d2: Date)
    requires ValidDate(d1) && ValidDate(d2)
    ensures Compact(d1) == Compact(d2) <==> d1 == d2
  {
    CompactDecodes(d1);
    CompactDecodes(d2);
  }

  /** A one-digit field without padding, as `strptime` also accepts. */
  function Short(n: int): string
    requires 1 <= n <= 99
  {
    if n < 10 then [DigitChar(n)] else Pad2(n)
  }

  lemma ShortDigits(n: int)
    requires 1 <= n <= 99
    ensures 1 <= |Short(n)| <= 2 && AllDigits(Short(n)) && Number(Short(n)) == n
    ensures Short(n)[0] != ' ' && '/' !in Short(n)
  {
    if n < 10 {
      assert Short(n)[..0] == [];
    } else {
      Pad2Digits(n);
    }
  }

  /** A date written as `MM/DD/YYYY`, or with month and day unpadded (`M/D/YYYY`). */
  function Slashed(d: Date, padded: bool): string
    requires ValidDate(d)
  {
    var m := if padded then Pad2(d.month) else Short(d.month);
    var dd := if padded then Pad2(d.day) else Short(d.day);
    m + ['/'] + (dd + ['/'] + Pad4(d.year))
  }

  lemma SplitFields(mf: string, df: string, yf: string)
    requires '/' !in mf && '/' !in df && '/' !in yf
    ensures Split(mf + ['/'] + (df + ['/'] + yf), '/') == [mf, df, yf]
  {
    SplitAtSep(mf, '/', df + ['/'] + yf);
    SplitAtSep(df, '/', yf);
    SplitNoSep(yf, '/');
  }

  /** Every date, written either way, parses back to itself. */
  lemma ParseSlashed(d: Date, padded: bool)
    requires ValidDate(d)
    ensures ParseDate(Slashed(d, padded)) == Some(d)
  {
    var m := if padded then Pad2(d.month) else Short(d.month);
    var dd := if padded then Pad2(d.day) else Short(d.day);
    if padded {
      Pad2Digits(d.month);
      Pad2Digits(d.day);
    } else {
      ShortDigits(d.month);
      ShortDigits(d.day);
    }
    Pad4Digits(d.year);
    SplitFields(m, dd, Pad4(d.year));
    assert MonthField(m) && DayField(dd) && YearField(Pad4(d.year));
    assert DayValue(dd) == d.day;
  }

  /** The spellings `%m` accepts for month n: two digits, or one digit below 10. */
  predicate MonthSpelling(f: string, n: int)
  {
    1 <= n <= 12 && (f == Pad2(n) || f == Short(n))
  }

  /** The spellings `%d` accepts for day n: two digits, one digit below 10, or a space and
      one digit below 10. */
  predicate DaySpelling(f: string, n: int)
  {
    1 <= n <= 31 && (f == Pad2(n) || f == Short(n) || (n < 10 && f == [' ', DigitChar(n)]))
  }

  /** `s` is one way of writing `d` as `%m/%d/%Y`. */
  ghost predicate Spells(s: string, d: Date)
  {
    ValidDate(d) &&
    exists m, dd :: MonthSpelling(m, d.month) && DaySpelling(dd, d.day) && s == m + ['/'] + (dd + ['/'] + Pad4(d.year))
  }

  lemma TwoDigitsArePad2(f: string)
    requires |f| == 2 && AllDigits(f)
    ensures Number(f) <= 99 && f == Pad2(Number(f))
  {
    assert f[..1][..0] == [];
    assert f[..1] == [f[0]];
    var a, b := DigitValue(f[0]), DigitValue(f[1]);
    assert f[..|f| - 1] == f[..1];
    assert Number(f[..1]) == a;
    assert Number(f) == a * 10 + b;
    assert (a * 10 + b) / 10 == a && (a * 10 + b) % 10 == b;
  }

  lemma FourDigitsArePad4(f: string)
    requires |f| == 4 && AllDigits(f)
    ensures Number(f) <= 9999 && f == Pad4(Number(f))
  {
    var hi, lo := f[..2], f[2..];
    assert f == hi + lo;
    NumberAppend2(hi, lo);
    TwoDigitsArePad2(hi);
    TwoDigitsArePad2(lo);
    var a, b := Number(hi), Number(lo);
    assert (a * 100 + b) / 100 == a && (a * 100 + b) % 100 == b;
  }

  lemma MonthFieldSpelling(f: string)
    requires MonthField(f)
    ensures MonthSpelling(f, Number(f))
  {
    if |f| == 2 {
      TwoDigitsArePad2(f);
    } else {
      assert f[..0] == [];
      assert Number(f) == DigitValue(f[0]);
      assert f == [f[0]];
    }
  }

  lemma DayFieldSpelling(f: string)
    requires DayField(f)
    ensures DaySpelling(f, DayValue(f))
  {
    if f[0] == ' ' {
      assert f == [' ', f[1]];
    } else if |f| == 2 {
      TwoDigitsArePad2(f);
    } else {
      assert f[..0] == [];
      assert Number(f) == DigitValue(f[0]);
      assert f == [f[0]];
    }
  }

  lemma MonthSpellingField(f: string, n: int)
    requires MonthSpelling(f, n)
    ensures MonthField(f) && Number(f) == n && '/' !in f
  {
    if f == Pad2(n) {
      Pad2Digits(n);
    } else {
      ShortDigits(n);
    }
  }

  lemma DaySpellingField(f: string, n: int)
    requires DaySpelling(f, n)
    ensures DayField(f) && DayValue(f) == n && '/' !in f
  {
    if f == Pad2(n) {
      Pad2Digits(n);
    } else if f == Short(n) {
      ShortDigits(n);
    }
  }

  /** `strptime(s, '%m/%d/%Y')` gives `d` exactly when `s` writes the valid date `d` with a
      one- or two-digit month, a one- or two-digit or space-padded day, and a four-digit year. */
  lemma ParseDateIff(s: string, d: Date)
    ensures ParseDate(s) == Some(d) <==> Spells(s, d)
  {
    if ParseDate(s) == Some(d) {
      var parts := Split(s, '/');
      var m, dd, y := parts[0], parts[1], parts[2];
      JoinSplit(s, '/');
      assert parts[1..] == [dd, y] && parts[1..][1..] == [y];
      assert Join([y], '/') == y;
      assert Join([dd, y], '/') == dd + ['/'] + y;
      assert Join(parts, '/') == m + ['/'] + Join([dd, y], '/');
      assert s == m + ['/'] + (dd + ['/'] + y);
      MonthFieldSpelling(m);
      DayFieldSpelling(dd);
      FourDigitsArePad4(y);
      assert MonthSpelling(m, d.month) && DaySpelling(dd, d.day) && y == Pad4(d.year);
    }
    if Spells(s, d) {
      var m, dd :| MonthSpelling(m, d.month) && DaySpelling(dd, d.day) && s == m + ['/'] + (dd + ['/'] + Pad4(d.year));
      MonthSpellingField(m, d.month);
      DaySpellingField(dd, d.day);
      Pad4Digits(d.year);
      SplitFields(m, dd, Pad4(d.year));
      assert YearField(Pad4(d.year));
    }
  }

  /** Two date strings that both parse get the same formatted date exactly when they name the
      same day: `01/05/2024` and `1/5/2024` share one, `01/05/2024` and `01/06/2024` do not. */
  lemma FormatDateKeysDays(s1: string, s2: string)
    requires ParseDate(s1).Some? && ParseDate(s2).Some?
    ensures FormatDate(s1) == FormatDate(s2) <==> ParseDate(s1) == ParseDate(s2)
  {
    CompactInjective(ParseDate(s1).value, ParseDate(s2).value);
  }

  // ---------------------------------------------------------------------------
  // Rows and actions

  /** The `h3 a` element of a row: its text and its `href` attribute, if it has one. */
  datatype TitleLink = TitleLink(text: string, href: Option<string>)

  /** One `.views-row` of the listing page as the HTML parser yields it: the text of its
      `.datetime` element and its `h3 a` element, each when present. */
  datatype Row = Row(dateText: Option<string>, heading: Option<TitleLink>)

  /** The action record built for one row. */
  datatype Action = Action(date: string, dateFormatted: string, title: string, link: string, fullUrl: string)

  const RecentActionsPath: string := "/recent-actions/"

  /** Lines 130-151: a row yields an action when it has both elements and the link has an
      `href` (otherwise `link.startswith` raises and the row is skipped). */
  function MakeAction(baseUrl: string, row: Row): (r: Option<Action>)
    ensures r.Some? <==> row.dateText.Some? && row.heading.Some? && row.heading.value.href.Some?
    ensures r.Some? ==>
      var a := r.value;
      var href := row.heading.value.href.value;
      && a.date == Strip(row.dateText.value)
      && a.title == Strip(row.heading.value.text)
      && a.dateFormatted == FormatDate(a.date)
      && a.fullUrl == baseUrl + RecentActionsPath + a.dateFormatted
      && (if "/" <= href then a.link == baseUrl + href else a.link == href)
  {
    if row.dateText.None? || row.heading.None? || row.heading.value.href.None? then None
    else
      var date := Strip(row.dateText.value);
      var link := row.heading.value.href.value;
      var formatted := FormatDate(date);
      Some(Action(date, formatted, Strip(row.heading.value.text),
                  if "/" <= link then baseUrl + link else link,
                  baseUrl + RecentActionsPath + formatted))
  }

  /** The key of an action depends on its date alone: two rows whose dates parse give the same
      `full_url` exactly when the dates name the same day, whatever their titles and links. */
  lemma SameKeyIffSameDay(baseUrl: string, r1: Row, r2: Row)
    requires MakeAction(baseUrl, r1).Some? && MakeAction(baseUrl, r2).Some?
    requires ParseDate(MakeAction(baseUrl, r1).value.date).Some?
    requires ParseDate(MakeAction(baseUrl, r2).value.date).Some?
    ensures MakeAction(baseUrl, r1).value.fullUrl == MakeAction(baseUrl, r2).value.fullUrl
        <==> ParseDate(MakeAction(baseUrl, r1).value.date) == ParseDate(MakeAction(baseUrl, r2).value.date)
  {
    var a1, a2 := MakeAction(baseUrl, r1).value, MakeAction(baseUrl, r2).value;
    var prefix := baseUrl + RecentActionsPath;
    FormatDateKeysDays(a1.date, a2.date);
    if a1.fullUrl == a2.fullUrl {
      assert a1.dateFormatted == a1.fullUrl[|prefix|..];
      assert a2.dateFormatted == a2.fullUrl[|prefix|..];
    }
  }

  predicate Yields(baseUrl: string, rows: seq<Row>, k: int, a: Action)
  {
    0 <= k < |rows| && MakeAction(baseUrl, rows[k]) == Some(a)
  }

  /** The actions of a listing, in row order. */
  function ParseRows(baseUrl: string, rows: seq<Row>): (r: seq<Action>)
    ensures |r| <= |rows|
    decreases |rows|
  {
    if rows == [] then []
    else
      var prev := ParseRows(baseUrl, rows[..|rows| - 1]);
      var last := MakeAction(baseUrl, rows[|rows| - 1]);
      if last.Some? then prev + [last.value] else prev
  }

  /** The actions of a listing are exactly those that some row yields. */
  lemma {:induction false} ParseRowsMembers(baseUrl: string, rows: seq<Row>, a: Action)
    ensures a in ParseRows(baseUrl, rows) <==> exists k :: Yields(baseUrl, rows, k, a)
    decreases |rows|
  {
    if rows != [] {
      var init := rows[..|rows| - 1];
      ParseRowsMembers(baseUrl, init, a);
      if exists k :: Yields(baseUrl, init, k, a) {
        var k :| Yields(baseUrl, init, k, a);
        assert Yields(baseUrl, rows, k, a);
      }
      forall k | Yields(baseUrl, rows, k, a) && k < |rows| - 1
        ensures exists k' :: Yields(baseUrl, init, k', a)
      {
        assert Yields(baseUrl, init, k, a);
      }
      if MakeAction(baseUrl, rows[|rows| - 1]) == Some(a) {
        assert Yields(baseUrl, rows, |rows| - 1, a);
      }
    }
  }

  /** The loop of lines 128-154, collecting the actions of the rows. */
  method CollectActions(baseUrl: string, rows: seq<Row>) returns (actions: seq<Action>)
    ensures actions == ParseRows(baseUrl, rows)
  {
    actions := [];
    for i := 0 to |rows|
      invariant actions == ParseRows(baseUrl, rows[..i])
    {
      assert rows[..i + 1][..i] == rows[..i];
      var item := rows[i];
      if item.dateText.Some? && item.heading.Some? && item.heading.value.href.Some? {
        var dateStr := Strip(item.dateText.value);
        var title := Strip(item.heading.value.text);
        var link := item.heading.value.href.value;
        var dateFormatted := FormatDate(dateStr);
        var action := Action(dateStr, dateFormatted, title,
                             if "/" <= link then baseUrl + link else link,
                             baseUrl + RecentActionsPath + dateFormatted);
        actions := actions + [action];
      }
    }
    assert rows[..|rows|] == rows;
  }
}
