/**
 * Calendar dates and format_date: the "YYYY-MM-DD" text the user types is split on '-', its year
 * must have four characters, it must be accepted by strptime's "%Y-%m-%d" and name a real date no
 * later than today, and it comes back zero-padded.
 */
module Dates {
  import opened Options
  import opened Digits

  datatype Date = Date(year: int, month: int, day: int)

  predicate IsLeap(y: int) { y % 4 == 0 && (y % 100 != 0 || y % 400 == 0) }

  function DaysInMonth(y: int, m: int): int
    requires 1 <= m <= 12
  {
    if m == 2 then (if IsLeap(y) then 29 else 28)
    else if m == 4 || m == 6 || m == 9 || m == 11 then 30
    else 31
  }

  /** A date Python's datetime can hold: years 1 to 9999 of the proleptic Gregorian calendar. */
  predicate ValidDate(d: Date)
  {
    1 <= d.year <= 9999 && 1 <= d.month <= 12 && 1 <= d.day <= DaysInMonth(d.year, d.month)
  }

  /** a is strictly earlier than b. */
  predicate Before(a: Date, b: Date)
  {
    a.year < b.year || (a.year == b.year && (a.month < b.month || (a.month == b.month && a.day < b.day)))
  }

  /** Joins the parts back with the separator between them. */
  function Join(parts: seq<string>, sep: char): string
    requires |parts| >= 1
  {
    if |parts| == 1 then parts[0] else parts[0] + [sep] + Join(parts[1..], sep)
  }

  /** Python's str.split(sep): the maximal separator-free runs, "" around adjacent separators. */
  function SplitOn(s: string, sep: char): (parts: seq<string>)
    ensures |parts| >= 1
    ensures forall p | p in parts :: sep !in p
    ensures Join(parts, sep) == s
  {
    if s == [] then [""]
    else
      var rest := SplitOn(s[1..], sep);
      if s[0] == sep then
        assert ([""] + rest)[1..] == rest;
        [""] + rest
      else
        var parts := [[s[0]] + rest[0]] + rest[1..];
        assert parts[1..] == rest[1..];
        assert forall p | p in parts :: sep !in p by {
          forall p | p in parts ensures sep !in p {
            if p != parts[0] { assert p in rest; }
          }
        }
        parts
  }

  /** Splitting at the first separator: the run before it, then the split of the rest. */
  lemma {:induction false} SplitOnFirst(a: string, b: string, sep: char)
    requires sep !in a
    ensures SplitOn(a + [sep] + b, sep) == [a] + SplitOn(b, sep)
  {
    if a != [] {
      assert (a + [sep] + b)[1..] == a[1..] + [sep] + b;
      SplitOnFirst(a[1..], b, sep);
      assert [a[0]] + a[1..] == a;
    } else {
      assert (a + [sep] + b)[1..] == b;
    }
  }

  /** A string without the separator splits into itself alone. */
  lemma {:induction false} SplitOnNone(a: string, sep: char)
    requires sep !in a
    ensures SplitOn(a, sep) == [a]
  {
    if a != [] {
      SplitOnNone(a[1..], sep);
      assert [a[0]] + a[1..] == a;
    }
  }

  /** The value of one or two digits. */
  lemma ShortValue(s: string)
    ensures 1 <= |s| <= 2 && AllDigits(s) ==>
              Value(s) == if |s| == 1 then DigitValue(s[0]) else 10 * DigitValue(s[0]) + DigitValue(s[1])
  {
    if 1 <= |s| <= 2 && AllDigits(s) && |s| == 2 {
      assert s[..1][..0] == [];
    }
  }

  /** strptime's %m: "1".."9", "01".."09" or "10".."12", the whole field. */
  function MonthField(m: string): (r: Option<int>)
    ensures r.Some? <==> 1 <= |m| <= 2 && AllDigits(m) && 1 <= Value(m) <= 12
    ensures r.Some? ==> r.value == Value(m)
    ensures r.Some? ==> '-' !in m
  {
    ShortValue(m);
    if |m| == 1 && '1' <= m[0] <= '9' then Some(DigitValue(m[0]))
    else if |m| == 2 && m[0] == '0' && '1' <= m[1] <= '9' then Some(DigitValue(m[1]))
    else if |m| == 2 && m[0] == '1' && '0' <= m[1] <= '2' then Some(10 + DigitValue(m[1]))
    else None
  }

  /** strptime's %d: "1".."9", "01".."09", " 1".." 9" or "10".."31", the whole field. */
  function DayField(d: string): (r: Option<int>)
    ensures r.Some? <==> (1 <= |d| <= 2 && AllDigits(d) && 1 <= Value(d) <= 31) || (|d| == 2 && d[0] == ' ' && '1' <= d[1] <= '9')
    ensures r.Some? ==> |d| >= 1 && r.value == if d[0] == ' ' then DigitValue(d[1]) else Value(d)
    ensures r.Some? ==> 1 <= r.value <= 31 && '-' !in d
  {
    ShortValue(d);
    if |d| == 1 && '1' <= d[0] <= '9' then Some(DigitValue(d[0]))
    else if |d| == 2 && (d[0] == '0' || d[0] == ' ') && '1' <= d[1] <= '9' then Some(DigitValue(d[1]))
    else if |d| == 2 && '1' <= d[0] <= '3' && IsDigit(d[1]) && (d[0] != '3' || d[1] <= '1') then
      Some(10 * DigitValue(d[0]) + DigitValue(d[1]))
    else None
  }

  /**
   * The date format_date reads: exactly three '-'-separated parts, a four-character all-digit year
   * (strptime's %Y), a month and a day strptime accepts, and a real calendar date.
   */
  function ParseDate(s: string): (r: Option<Date>)
    ensures r.Some? ==> ValidDate(r.value)
    ensures r.Some? ==> |SplitOn(s, '-')| == 3 && |SplitOn(s, '-')[0]| == 4
    ensures var p := SplitOn(s, '-');
            r.Some? <==> |p| == 3 && |p[0]| == 4 && AllDigits(p[0]) && MonthField(p[1]).Some? && DayField(p[2]).Some?
                         && ValidDate(Date(Value(p[0]), MonthField(p[1]).value, DayField(p[2]).value))
    ensures var p := SplitOn(s, '-');
            r.Some? && |p| == 3 && AllDigits(p[0]) && MonthField(p[1]).Some? && DayField(p[2]).Some? ==>
              r.value == Date(Value(p[0]), MonthField(p[1]).value, DayField(p[2]).value)
  {
    var parts := SplitOn(s, '-');
    if |parts| != 3 || |parts[0]| != 4 || !AllDigits(parts[0]) then None
    else match (MonthField(parts[1]), DayField(parts[2]))
      case (Some(m), Some(d)) =>
        var date := Date(Value(parts[0]), m, d);
        if ValidDate(date) then Some(date) else None
      case _ => None
  }

  /** strftime("%Y-%m-%d"): zero-padded year, month and day. */
  function DateToString(d: Date): string
    requires ValidDate(d)
  {
    Fixed(d.year, 4) + "-" + Fixed(d.month, 2) + "-" + Fixed(d.day, 2)
  }

  /** The date format_date accepts, or None: unreadable or after today. */
  function CheckDate(s: string, today: Date): (r: Option<Date>)
    ensures r.Some? ==> ValidDate(r.value) && !Before(today, r.value)
  {
    match ParseDate(s)
    case None => None
    case Some(d) => if Before(today, d) then None else Some(d)
  }

  lemma DigitsHaveNoDash(s: string)
    requires AllDigits(s)
    ensures '-' !in s
  {
    assert forall i | 0 <= i < |s| :: s[i] != '-';
  }

  lemma Fixed2(n: nat)
    requires n < 100
    ensures Fixed(n, 2) == [DigitChar(n / 10), DigitChar(n % 10)]
  {
    var q := n / 10;
    assert q < 10 && q % 10 == q;
    assert Fixed(q, 1) == [DigitChar(q)];
  }

  /** The zero-padded form is read back as the same date. */
  lemma {:induction false} ParseDateRoundTrip(d: Date)
    requires ValidDate(d)
    ensures ParseDate(DateToString(d)) == Some(d)
  {
    var y, m, dd := Fixed(d.year, 4), Fixed(d.month, 2), Fixed(d.day, 2);
    DigitsHaveNoDash(y);
    DigitsHaveNoDash(m);
    DigitsHaveNoDash(dd);
    SplitThree(y, m, dd);
    assert Pow10(4) == 10000;
    FixedValue(d.year, 4);
    Fixed2(d.month);
    Fixed2(d.day);
    assert MonthField(m) == Some(d.month);
    assert DayField(dd) == Some(d.day);
  }

  /**
   * format_date: the zero-padded form of the date the text names, or None. The form it returns
   * names the same date as its input.
   */
  function FormatDate(s: string, today: Date): (r: Option<string>)
    ensures r.Some? <==> ParseDate(s).Some? && !Before(today, ParseDate(s).value)
    ensures r.Some? ==> r.value == DateToString(ParseDate(s).value)
    ensures r.Some? ==> ParseDate(r.value) == ParseDate(s) && |r.value| == 10
  {
    match CheckDate(s, today)
    case None => None
    case Some(d) => ParseDateRoundTrip(d); Some(DateToString(d))
  }

  /** format_date is idempotent: its own output comes back unchanged. */
  lemma FormatDateIdempotent(s: string, today: Date)
    requires FormatDate(s, today).Some?
    ensures FormatDate(FormatDate(s, today).value, today) == FormatDate(s, today)
  {
  }

  /** Every real date up to today, written in the zero-padded form, is accepted; a later one is not. */
  lemma FormatDateAcceptsPast(d: Date, today: Date)
    requires ValidDate(d)
    ensures FormatDate(DateToString(d), today) == if Before(today, d) then None else Some(DateToString(d))
  {
    ParseDateRoundTrip(d);
  }

  /** Three separator-free fields joined by '-' split back into those fields. */
  lemma SplitThree(y: string, m: string, d: string)
    requires '-' !in y && '-' !in m && '-' !in d
    ensures SplitOn(y + "-" + m + "-" + d, '-') == [y, m, d]
  {
    assert y + "-" + m + "-" + d == y + ['-'] + (m + ['-'] + d);
    SplitOnFirst(y, m + ['-'] + d, '-');
    SplitOnFirst(m, d, '-');
    SplitOnNone(d, '-');
  }

  /**
   * Every spelling strptime accepts for the month ("1", "01", "12") and the day ("5", "05", " 5",
   * "15") names the date it reads, which is accepted and zero-padded when it is a real date no
   * later than today, and refused otherwise.
   */
  lemma {:induction false} AnySpellingAccepted(y: string, m: string, dd: string, today: Date)
    requires |y| == 4 && AllDigits(y) && MonthField(m).Some? && DayField(dd).Some?
    ensures var d := Date(Value(y), MonthField(m).value, DayField(dd).value);
            FormatDate(y + "-" + m + "-" + dd, today) == if ValidDate(d) && !Before(today, d) then Some(DateToString(d)) else None
  {
    DigitsHaveNoDash(y);
    SplitThree(y, m, dd);
  }

  /**
   * Three fields with a four-character year are refused when the year is not all digits or the
   * month or day is not a field strptime reads ("abcd-01-01", "2024-13-01", "2024-01-32").
   */
  lemma FieldsRefused(y: string, m: string, dd: string, today: Date)
    requires |y| == 4 && '-' !in y && '-' !in m && '-' !in dd
    requires !AllDigits(y) || MonthField(m).None? || DayField(dd).None?
    ensures FormatDate(y + "-" + m + "-" + dd, today) == None
  {
    SplitThree(y, m, dd);
  }

  /** A year that is not four characters long is refused ("99-1-1", "02024-1-1"). */
  lemma YearLengthRefused(s: string, today: Date)
    requires |SplitOn(s, '-')| == 3 && |SplitOn(s, '-')[0]| != 4
    ensures FormatDate(s, today) == None
  {
  }

  /** A string that does not split into exactly three parts is refused. */
  lemma PartCountRefused(s: string, today: Date)
    requires |SplitOn(s, '-')| != 3
    ensures FormatDate(s, today) == None
  {
  }
}
