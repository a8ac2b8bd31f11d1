// Instants are stored and compared as RFC 3339 text. Columns are stored with nine fraction digits,
// older ones with as many as they needed (0, 3, 6 or 9), and so are most query bounds printed. This
// module shows when comparing the texts selects the rows that comparing the instants would select.

module TimeText {
  import opened Text

  // A UTC instant of the years 0000-9999, by its civil fields.
  datatype Instant = Instant(year: nat, month: nat, day: nat, hour: nat, minute: nat, second: nat, nano: nat)

  predicate LeapYear(y: nat) {
    y % 4 == 0 && (y % 100 != 0 || y % 400 == 0)
  }

  function DaysIn(y: nat, m: nat): nat {
    if m == 2 then (if LeapYear(y) then 29 else 28)
    else if m == 4 || m == 6 || m == 9 || m == 11 then 30
    else 31
  }

  predicate Valid(t: Instant) {
    && t.year <= 9999 && 1 <= t.month <= 12 && 1 <= t.day <= DaysIn(t.year, t.month)
    && t.hour < 24 && t.minute < 60 && t.second < 60 && t.nano < 1_000_000_000
  }

  // The time line: seconds and nanoseconds elapsed since 0000-01-01T00:00:00Z.

  function DaysBeforeMonth(y: nat, m: nat): nat {
    if m <= 1 then 0 else DaysBeforeMonth(y, m - 1) + DaysIn(y, m - 1)
  }

  function DaysBeforeYear(y: nat): nat {
    if y == 0 then 0 else DaysBeforeYear(y - 1) + DaysBeforeMonth(y - 1, 13)
  }

  function DayNumber(t: Instant): nat {
    DaysBeforeYear(t.year) + DaysBeforeMonth(t.year, t.month) + t.day
  }

  function Seconds(t: Instant): nat {
    ((DayNumber(t) * 24 + t.hour) * 60 + t.minute) * 60 + t.second
  }

  function Elapsed(t: Instant): nat {
    Seconds(t) * 1_000_000_000 + t.nano
  }

  lemma {:induction false} MonthsAscend(y: nat, m: nat, n: nat)
    requires 1 <= m < n
    ensures DaysBeforeMonth(y, m) + DaysIn(y, m) <= DaysBeforeMonth(y, n)
    decreases n
  {
    if m < n - 1 {
      MonthsAscend(y, m, n - 1);
    }
  }

  lemma {:induction false} YearsAscend(y: nat, z: nat)
    requires y < z
    ensures DaysBeforeYear(y) + DaysBeforeMonth(y, 13) <= DaysBeforeYear(z)
    decreases z
  {
    if y < z - 1 {
      YearsAscend(y, z - 1);
    }
  }

  // A Gregorian year has 365 days, a leap year one more.
  lemma YearLength(y: nat)
    ensures DaysBeforeMonth(y, 13) == if y % 400 == 0 || (y % 4 == 0 && y % 100 != 0) then 366 else 365
  {
    MonthSum(y, 6);
    MonthSum(y, 12);
    assert DaysBeforeMonth(y, 1) == 0;
  }

  lemma MonthSum(y: nat, m: nat)
    requires m == 6 || m == 12
    ensures DaysBeforeMonth(y, m + 1)
         == DaysBeforeMonth(y, m - 5) + DaysIn(y, m - 5) + DaysIn(y, m - 4) + DaysIn(y, m - 3) + DaysIn(y, m - 2)
            + DaysIn(y, m - 1) + DaysIn(y, m)
  {
    hide DaysIn;
    assert DaysBeforeMonth(y, m) == DaysBeforeMonth(y, m - 1) + DaysIn(y, m - 1);
    assert DaysBeforeMonth(y, m - 2) == DaysBeforeMonth(y, m - 3) + DaysIn(y, m - 3);
    assert DaysBeforeMonth(y, m - 4) == DaysBeforeMonth(y, m - 5) + DaysIn(y, m - 5);
  }

  // A day has 86400 seconds.
  lemma DayLength(t: Instant)
    ensures Seconds(t.(day := t.day + 1)) == Seconds(t) + 86_400
    ensures Seconds(t.(hour := t.hour + 1)) == Seconds(t) + 3_600
    ensures Seconds(t.(minute := t.minute + 1)) == Seconds(t) + 60
  {
    assert DayNumber(t.(day := t.day + 1)) == DayNumber(t) + 1;
    hide DaysBeforeYear, DaysBeforeMonth;
  }

  // Civil fields, most significant first.
  predicate FieldsLess(a: Instant, b: Instant) {
    || a.year < b.year
    || (a.year == b.year &&
        (|| a.month < b.month
         || (a.month == b.month &&
             (|| a.day < b.day
              || (a.day == b.day &&
                  (|| a.hour < b.hour
                   || (a.hour == b.hour &&
                       (a.minute < b.minute || (a.minute == b.minute && a.second < b.second)))))))))
  }

  predicate SameSecond(a: Instant, b: Instant) {
    a == b.(nano := a.nano)
  }

  lemma FieldsAscend(a: Instant, b: Instant)
    requires Valid(a) && Valid(b) && FieldsLess(a, b)
    ensures Seconds(a) < Seconds(b)
  {
    if a.year < b.year {
      YearsAscend(a.year, b.year);
      MonthsAscend(a.year, a.month, 13);
      assert DayNumber(a) < DayNumber(b);
    } else if a.month < b.month {
      MonthsAscend(a.year, a.month, b.month);
      assert DayNumber(a) < DayNumber(b);
    }
  }

  // The calendar is strictly increasing: field order is the order of the time line.
  lemma FieldsAreChronological(a: Instant, b: Instant)
    requires Valid(a) && Valid(b)
    ensures FieldsLess(a, b) <==> Seconds(a) < Seconds(b)
    ensures SameSecond(a, b) <==> Seconds(a) == Seconds(b)
  {
    if FieldsLess(a, b) {
      FieldsAscend(a, b);
    } else if FieldsLess(b, a) {
      FieldsAscend(b, a);
    } else {
      assert SameSecond(a, b);
    }
  }

  // RFC 3339 text.

  function DateTime(t: Instant): string {
    Digits(t.year, 4) + ("-" + (Digits(t.month, 2) + ("-" + (Digits(t.day, 2) + ("T" +
    (Digits(t.hour, 2) + (":" + (Digits(t.minute, 2) + (":" + Digits(t.second, 2))))))))))
  }

  function Fraction(nano: nat, digits: nat): string
    requires digits <= 9
  {
    if digits == 0 then "" else "." + Digits(DropDigits(nano, 9 - digits), digits)
  }

  const OFFSET: string := "+00:00"

  function Print(t: Instant, digits: nat): string
    requires digits <= 9
  {
    DateTime(t) + (Fraction(t.nano, digits) + OFFSET)
  }

  // `to_rfc3339_opts(SecondsFormat::Nanos, false)`: every column as it is stored now.
  function Stored(t: Instant): string {
    Print(t, 9)
  }

  // The marks of the text, each in its place.
  lemma PrintShape(t: Instant)
    ensures var s := Stored(t);
      && |s| == 35 && s[4] == '-' && s[7] == '-' && s[10] == 'T' && s[13] == ':' && s[16] == ':' && s[19] == '.'
      && s[29..] == "+00:00" && s[..4] == Digits(t.year, 4) && s[20..29] == Digits(t.nano, 9)
  {
    assert DropDigits(t.nano, 0) == t.nano;
    assert |DateTime(t)| == 19;
    assert Stored(t)[..19] == DateTime(t);
    assert Stored(t)[19..] == "." + Digits(t.nano, 9) + "+00:00";
    assert Stored(t)[29..] == "+00:00";
  }

  // `to_rfc3339()`: the shortest of 0, 3, 6 and 9 digits that loses nothing.
  function AutoDigits(nano: nat): nat {
    if nano % 1_000_000_000 == 0 then 0
    else if nano % 1_000_000 == 0 then 3
    else if nano % 1_000 == 0 then 6
    else 9
  }

  function Bound(t: Instant): string {
    Print(t, AutoDigits(t.nano))
  }

  lemma BlockOrder(a: nat, b: nat, width: nat, x: string, y: string)
    requires a < Pow10(width) && b < Pow10(width)
    ensures Less(Digits(a, width) + x, Digits(b, width) + y) <==> a < b || (a == b && Less(x, y))
  {
    DigitsOrder(a, b, width);
    LessByBlocks(Digits(a, width), Digits(b, width), x, y);
  }

  lemma MarkedOrder(mark: char, a: nat, b: nat, width: nat, x: string, y: string)
    requires a < Pow10(width) && b < Pow10(width)
    ensures Less([mark] + (Digits(a, width) + x), [mark] + (Digits(b, width) + y)) <==> a < b || (a == b && Less(x, y))
  {
    LessByBlocks([mark], [mark], Digits(a, width) + x, Digits(b, width) + y);
    LessAsymmetric([mark], [mark]);
    BlockOrder(a, b, width, x, y);
  }

  lemma DateTimeLess(a: Instant, b: Instant)
    requires Valid(a) && Valid(b)
    ensures Less(DateTime(a), DateTime(b)) <==> Seconds(a) < Seconds(b)
  {
    var sa, sb := ":" + Digits(a.second, 2), ":" + Digits(b.second, 2);
    var ia, ib := ":" + (Digits(a.minute, 2) + sa), ":" + (Digits(b.minute, 2) + sb);
    var ha, hb := "T" + (Digits(a.hour, 2) + ia), "T" + (Digits(b.hour, 2) + ib);
    var da, db := "-" + (Digits(a.day, 2) + ha), "-" + (Digits(b.day, 2) + hb);
    var ma, mb := "-" + (Digits(a.month, 2) + da), "-" + (Digits(b.month, 2) + db);
    assert Pow10(2) == 100 && Pow10(4) == 10000;
    assert Digits(a.second, 2) + [] == Digits(a.second, 2) && Digits(b.second, 2) + [] == Digits(b.second, 2);
    MarkedOrder(':', a.second, b.second, 2, [], []);
    MarkedOrder(':', a.minute, b.minute, 2, sa, sb);
    MarkedOrder('T', a.hour, b.hour, 2, ia, ib);
    MarkedOrder('-', a.day, b.day, 2, ha, hb);
    MarkedOrder('-', a.month, b.month, 2, da, db);
    BlockOrder(a.year, b.year, 4, ma, mb);
    assert Less(DateTime(a), DateTime(b)) <==> FieldsLess(a, b);
    FieldsAreChronological(a, b);
  }

  lemma DateTimeOrder(a: Instant, b: Instant)
    requires Valid(a) && Valid(b)
    ensures |DateTime(a)| == |DateTime(b)| == 19
    ensures Less(DateTime(a), DateTime(b)) <==> Seconds(a) < Seconds(b)
    ensures DateTime(a) == DateTime(b) <==> Seconds(a) == Seconds(b)
  {
    DateTimeLess(a, b);
    DateTimeLess(b, a);
    LessTotal(DateTime(a), DateTime(b));
    LessAsymmetric(DateTime(a), DateTime(b));
  }

  predicate Exact(nano: nat, digits: nat) {
    || digits == 9
    || (digits == 6 && nano % 1_000 == 0)
    || (digits == 3 && nano % 1_000_000 == 0)
    || (digits == 0 && nano == 0)
  }

  // The finer fraction first: '+' sorts below '.', and both sort below every digit.
  lemma FractionOrder(s: nat, more: nat, b: nat, digits: nat)
    requires s < 1_000_000_000 && b < 1_000_000_000
    requires digits in {0, 3, 6, 9} && more in {0, 3, 6, 9} && digits <= more && Exact(s, more) && Exact(b, digits)
    ensures Less(Fraction(s, more) + OFFSET, Fraction(b, digits) + OFFSET) <==> s < b
    ensures Fraction(s, more) + OFFSET == Fraction(b, digits) + OFFSET <==> s == b && digits == more
  {
    if digits == 0 {
      NoFraction(s, more, b);
    } else if digits == more {
      SameWidth(s, b, digits);
    } else {
      FinerFraction(s, more, b, digits);
    }
  }

  lemma NoFraction(s: nat, more: nat, b: nat)
    requires s < 1_000_000_000 && more in {0, 3, 6, 9} && Exact(s, more) && b == 0
    ensures !Less(Fraction(s, more) + OFFSET, Fraction(b, 0) + OFFSET)
    ensures Fraction(s, more) + OFFSET == Fraction(b, 0) + OFFSET <==> s == b && more == 0
  {
    assert Fraction(b, 0) + OFFSET == OFFSET;
    if more == 0 {
      LessAsymmetric(OFFSET, OFFSET);
    } else {
      assert (Fraction(s, more) + OFFSET)[0] == '.';
    }
  }

  lemma SameWidth(s: nat, b: nat, digits: nat)
    requires s < 1_000_000_000 && b < 1_000_000_000 && digits in {3, 6, 9} && Exact(s, digits) && Exact(b, digits)
    ensures Less(Fraction(s, digits) + OFFSET, Fraction(b, digits) + OFFSET) <==> s < b
    ensures Fraction(s, digits) + OFFSET == Fraction(b, digits) + OFFSET <==> s == b
  {
    var tail := 9 - digits;
    var p, q := DropDigits(s, tail), DropDigits(b, tail);
    DropDigitsSmall(s, tail, digits);
    DropDigitsSmall(b, tail, digits);
    assert Fraction(s, digits) + OFFSET == ['.'] + (Digits(p, digits) + OFFSET);
    assert Fraction(b, digits) + OFFSET == ['.'] + (Digits(q, digits) + OFFSET);
    MarkedOrder('.', p, q, digits, OFFSET, OFFSET);
    MarkedOrder('.', q, p, digits, OFFSET, OFFSET);
    LessAsymmetric(OFFSET, OFFSET);
    LessTotal(Fraction(s, digits) + OFFSET, Fraction(b, digits) + OFFSET);
    LessAsymmetric(Fraction(s, digits) + OFFSET, Fraction(s, digits) + OFFSET);
    if tail > 0 {
      DroppedOrder(s, b, tail);
      DroppedOrder(b, s, tail);
    }
  }

  lemma FinerFraction(s: nat, more: nat, b: nat, digits: nat)
    requires s < 1_000_000_000 && b < 1_000_000_000
    requires digits in {3, 6} && more in {6, 9} && digits < more && Exact(s, more) && Exact(b, digits)
    ensures Less(Fraction(s, more) + OFFSET, Fraction(b, digits) + OFFSET) <==> s < b
    ensures Fraction(s, more) + OFFSET != Fraction(b, digits) + OFFSET
  {
    var tail, mine := 9 - digits, Fraction(s, more) + OFFSET;
    var p, q := DropDigits(s, tail), DropDigits(b, tail);
    var x := FinerTail(s, more, digits);
    assert mine == ['.'] + (Digits(p, digits) + x);
    assert Fraction(b, digits) + OFFSET == ['.'] + (Digits(q, digits) + OFFSET);
    DropDigitsSmall(s, tail, digits);
    DropDigitsSmall(b, tail, digits);
    MarkedOrder('.', p, q, digits, x, OFFSET);
    assert !Less(x, OFFSET);
    assert |mine| != |Fraction(b, digits) + OFFSET|;
    DroppedOrder(s, b, tail);
  }

  // What a finer fraction has after the digits of a coarser one starts with a digit.
  lemma FinerTail(s: nat, more: nat, digits: nat) returns (x: string)
    requires digits in {3, 6} && more in {6, 9} && digits < more
    ensures Fraction(s, more) + OFFSET == ['.'] + (Digits(DropDigits(s, 9 - digits), digits) + x)
    ensures x != [] && '0' <= x[0] <= '9'
  {
    var v, extra := DropDigits(s, 9 - more), more - digits;
    DigitsSplit(v, more, extra);
    DropSum(s, 9 - more, extra);
    x := Digits(v, extra) + OFFSET;
    assert x[0] == Digits(v, extra)[0];
    assert Digits(v, extra)[0] in Digits(v, extra);
  }

  lemma {:induction false} DropSum(v: nat, m: nat, n: nat)
    ensures DropDigits(DropDigits(v, m), n) == DropDigits(v, m + n)
    decreases m
  {
    if m > 0 {
      DropSum(v / 10, m - 1, n);
    }
  }

  lemma DropDigitsSmall(v: nat, tail: nat, digits: nat)
    requires v < 1_000_000_000 && digits in {3, 6, 9} && tail == 9 - digits
    ensures DropDigits(v, tail) < Pow10(digits)
  {
    DropThree(v);
    DropThree(v / 1000);
    assert Pow10(3) == 1000 && Pow10(6) == 1_000_000 && Pow10(9) == 1_000_000_000;
    assert tail == 6 ==> DropDigits(v, tail) == DropDigits(DropDigits(v, 3), 3) by { DropTwice(v); }
  }

  lemma DropThree(v: nat)
    ensures DropDigits(v, 3) == v / 1000
  {
    assert DropDigits(v, 3) == DropDigits(v / 10, 2) == DropDigits(v / 10 / 10, 1) == DropDigits(v / 10 / 10 / 10, 0);
  }

  lemma DropTwice(v: nat)
    ensures DropDigits(v, 6) == DropDigits(DropDigits(v, 3), 3)
  {
    assert DropDigits(v, 6) == DropDigits(v / 10, 5) == DropDigits(v / 10 / 10, 4) == DropDigits(v / 10 / 10 / 10, 3);
    assert DropDigits(v, 3) == DropDigits(v / 10, 2) == DropDigits(v / 10 / 10, 1) == DropDigits(v / 10 / 10 / 10, 0);
  }

  lemma DroppedOrder(s: nat, b: nat, tail: nat)
    requires (tail == 3 && b % 1_000 == 0) || (tail == 6 && b % 1_000_000 == 0)
    ensures s < b <==> DropDigits(s, tail) < DropDigits(b, tail)
  {
    hide DropDigits;
    MillionsAreThousands(b);
    ThousandsOrder(s, b);
    if tail == 6 {
      DropTwice(s);
      DropTwice(b);
      ThousandsOrder(DropDigits(s, 3), DropDigits(b, 3));
    }
  }

  lemma MillionsAreThousands(b: nat)
    ensures b % 1_000_000 == 0 ==> b % 1_000 == 0
  {
    assert b == 1_000_000 * (b / 1_000_000) + b % 1_000_000;
    if b % 1_000_000 == 0 {
      assert b == 1_000 * (1_000 * (b / 1_000_000));
    }
  }

  lemma ThousandsOrder(s: nat, b: nat)
    requires b % 1_000 == 0
    ensures s < b <==> DropDigits(s, 3) < DropDigits(b, 3)
    ensures b % 1_000_000 == 0 ==> DropDigits(b, 3) % 1_000 == 0
  {
    DropThree(s);
    DropThree(b);
  }

  // Main result: for any two instants, each printed with any of the precisions that lose nothing,
  // text order is chronological order, and of two prints of one instant the shorter sorts first.
  lemma PrintOrder(s: Instant, more: nat, b: Instant, digits: nat)
    requires Valid(s) && Valid(b) && more in {0, 3, 6, 9} && digits in {0, 3, 6, 9}
    requires Exact(s.nano, more) && Exact(b.nano, digits)
    ensures Less(Print(s, more), Print(b, digits))
       <==> Elapsed(s) < Elapsed(b) || (Elapsed(s) == Elapsed(b) && more < digits)
    ensures Print(s, more) == Print(b, digits) <==> Elapsed(s) == Elapsed(b) && more == digits
  {
    if digits <= more {
      FinerOrder(s, more, b, digits);
    } else {
      FinerOrder(b, digits, s, more);
      LessTotal(Print(s, more), Print(b, digits));
      LessAsymmetric(Print(s, more), Print(b, digits));
    }
  }

  lemma FinerOrder(s: Instant, more: nat, b: Instant, digits: nat)
    requires Valid(s) && Valid(b) && more in {0, 3, 6, 9} && digits in {0, 3, 6, 9} && digits <= more
    requires Exact(s.nano, more) && Exact(b.nano, digits)
    ensures Less(Print(s, more), Print(b, digits)) <==> Elapsed(s) < Elapsed(b)
    ensures Print(s, more) == Print(b, digits) <==> Elapsed(s) == Elapsed(b) && more == digits
  {
    DateTimeOrder(s, b);
    FractionOrder(s.nano, more, b.nano, digits);
    var x, y := Fraction(s.nano, more) + OFFSET, Fraction(b.nano, digits) + OFFSET;
    LessByBlocks(DateTime(s), DateTime(b), x, y);
    if Print(s, more) == Print(b, digits) {
      assert DateTime(s) == Print(s, more)[..19] == DateTime(b);
      assert x == Print(s, more)[19..] == y;
    }
  }

  // A stored column: nine digits since the text form was fixed, the shortest form in older rows.
  datatype Column = Column(at: Instant, digits: nat)

  predicate Sound(c: Column) {
    Valid(c.at) && c.digits in {0, 3, 6, 9} && Exact(c.at.nano, c.digits)
  }

  function Written(c: Column): string
    requires Sound(c)
  {
    Print(c.at, c.digits)
  }

  // No sufficient precision is shorter than the shortest.
  lemma ShortestDigits(nano: nat, digits: nat)
    requires nano < 1_000_000_000 && Exact(nano, digits)
    ensures AutoDigits(nano) <= digits && Exact(nano, AutoDigits(nano))
  {
  }

  // The SQL filters, as text and as time.

  function Select(rows: seq<Column>, keep: Column -> bool): (r: seq<Column>) {
    if rows == [] then []
    else (if keep(rows[0]) then [rows[0]] else []) + Select(rows[1..], keep)
  }

  lemma {:induction false} SelectAgrees(rows: seq<Column>, p: Column -> bool, q: Column -> bool)
    requires forall t :: t in rows ==> p(t) == q(t)
    ensures Select(rows, p) == Select(rows, q)
  {
    if rows != [] {
      SelectAgrees(rows[1..], p, q);
    }
  }

  lemma {:induction false} SelectFewer(rows: seq<Column>, p: Column -> bool, q: Column -> bool)
    requires forall t :: t in rows && p(t) ==> q(t)
    ensures |Select(rows, p)| <= |Select(rows, q)|
    ensures |Select(rows, p)| == |Select(rows, q)| ==> forall t :: t in rows ==> p(t) == q(t)
  {
    if rows != [] {
      assert rows == [rows[0]] + rows[1..];
      SelectFewer(rows[1..], p, q);
    }
  }

  lemma SelectEqualIff(rows: seq<Column>, p: Column -> bool, q: Column -> bool)
    requires forall t :: t in rows && p(t) ==> q(t)
    ensures Select(rows, p) == Select(rows, q) <==> forall t :: t in rows ==> p(t) == q(t)
    ensures |Select(rows, p)| <= |Select(rows, q)|
  {
    SelectFewer(rows, p, q);
    if forall t :: t in rows ==> p(t) == q(t) {
      SelectAgrees(rows, p, q);
    }
  }

  // A row on the bound whose text has another number of digits than the bound's.
  predicate Tied(c: Column, bound: Instant, digits: nat) {
    Elapsed(c.at) == Elapsed(bound) && c.digits != digits
  }

  // The filters on one row: `column < ?` and `column <= ?`.

  predicate TextBefore(c: Column, bound: string) {
    Sound(c) && Less(Written(c), bound)
  }

  predicate TextUpTo(c: Column, bound: string) {
    Sound(c) && (Less(Written(c), bound) || Written(c) == bound)
  }

  lemma RowAgainstShortest(c: Column, bound: Instant)
    requires Sound(c) && Valid(bound)
    ensures TextBefore(c, Bound(bound)) <==> Elapsed(c.at) < Elapsed(bound)
    ensures TextUpTo(c, Bound(bound)) <==> Elapsed(c.at) <= Elapsed(bound) && !Tied(c, bound, AutoDigits(bound.nano))
  {
    ShortestDigits(bound.nano, 9);
    PrintOrder(c.at, c.digits, bound, AutoDigits(bound.nano));
    if Elapsed(c.at) == Elapsed(bound) {
      SameNano(c.at, bound);
      ShortestDigits(c.at.nano, c.digits);
    }
  }

  lemma SameNano(a: Instant, b: Instant)
    requires Valid(a) && Valid(b) && Elapsed(a) == Elapsed(b)
    ensures a.nano == b.nano
  {
    LastNano(Seconds(a), a.nano, Seconds(b), b.nano);
  }

  lemma LastNano(p: nat, x: nat, q: nat, y: nat)
    requires p * 1_000_000_000 + x == q * 1_000_000_000 + y && x < 1_000_000_000 && y < 1_000_000_000
    ensures x == y
  {
  }

  lemma RowAgainstNine(c: Column, bound: Instant)
    requires Sound(c) && Valid(bound)
    ensures !TextBefore(c, Stored(bound)) <==> Elapsed(c.at) >= Elapsed(bound) && !Tied(c, bound, 9)
  {
    PrintOrder(c.at, c.digits, bound, 9);
  }

  // `created_on < ?` with a shortest-form bound: the rows both retention purges delete, and by
  // complement the rows `created_from` and `last_seen_from` (`>= ?`) return, old rows included.
  lemma PurgeSelectsByTime(rows: seq<Column>, cutoff: Instant)
    requires Valid(cutoff) && forall c :: c in rows ==> Sound(c)
    ensures Select(rows, c => TextBefore(c, Bound(cutoff))) == Select(rows, (c: Column) => Elapsed(c.at) < Elapsed(cutoff))
    ensures Select(rows, c => !TextBefore(c, Bound(cutoff))) == Select(rows, (c: Column) => Elapsed(c.at) >= Elapsed(cutoff))
  {
    forall c | c in rows
      ensures TextBefore(c, Bound(cutoff)) <==> Elapsed(c.at) < Elapsed(cutoff)
    {
      RowAgainstShortest(c, cutoff);
    }
    SelectAgrees(rows, c => TextBefore(c, Bound(cutoff)), (c: Column) => Elapsed(c.at) < Elapsed(cutoff));
    SelectAgrees(rows, c => !TextBefore(c, Bound(cutoff)), (c: Column) => Elapsed(c.at) >= Elapsed(cutoff));
  }

  function DedupText(rows: seq<Column>, since: Instant): (r: seq<Column>) {
    Select(rows, c => !TextBefore(c, Stored(since)))
  }

  function DedupTime(rows: seq<Column>, since: Instant): (r: seq<Column>) {
    Select(rows, (c: Column) => Elapsed(c.at) >= Elapsed(since))
  }

  // `created_on >= ?` with a nine-digit bound, the deduplication lookup: it selects by time exactly
  // when no row with fewer digits lies on the bound. Rows written since the form was fixed never do.
  lemma DedupSelectsByTimeIff(rows: seq<Column>, since: Instant)
    requires Valid(since) && forall c :: c in rows ==> Sound(c)
    ensures DedupText(rows, since) == DedupTime(rows, since) <==> forall c :: c in rows ==> !Tied(c, since, 9)
    ensures |DedupText(rows, since)| <= |DedupTime(rows, since)|
  {
    var p := c => !TextBefore(c, Stored(since));
    var q := (c: Column) => Elapsed(c.at) >= Elapsed(since);
    forall c | c in rows
      ensures p(c) <==> q(c) && !Tied(c, since, 9)
    {
      RowAgainstNine(c, since);
    }
    SelectEqualIff(rows, p, q);
    TiesDecide(rows, p, q, since, 9);
  }

  function UpToText(rows: seq<Column>, to: Instant): (r: seq<Column>) {
    Select(rows, c => TextUpTo(c, Bound(to)))
  }

  function UpToTime(rows: seq<Column>, to: Instant): (r: seq<Column>) {
    Select(rows, (c: Column) => Elapsed(c.at) <= Elapsed(to))
  }

  // `last_seen <= ?` (`last_seen_to`) with a shortest-form bound selects by time exactly when every
  // row on the bound has as few digits; a nine-digit row on a shorter bound is left out.
  lemma UpToSelectsByTimeIff(rows: seq<Column>, to: Instant)
    requires Valid(to) && forall c :: c in rows ==> Sound(c)
    ensures UpToText(rows, to) == UpToTime(rows, to) <==> forall c :: c in rows ==> !Tied(c, to, AutoDigits(to.nano))
    ensures |UpToText(rows, to)| <= |UpToTime(rows, to)|
  {
    var p := c => TextUpTo(c, Bound(to));
    var q := (c: Column) => Elapsed(c.at) <= Elapsed(to);
    forall c | c in rows
      ensures p(c) <==> q(c) && !Tied(c, to, AutoDigits(to.nano))
    {
      RowAgainstShortest(c, to);
    }
    SelectEqualIff(rows, p, q);
    TiesDecide(rows, p, q, to, AutoDigits(to.nano));
  }

  // Every bound of whole microseconds is such a case: `last_seen_to` misses a row stored at that instant.
  lemma UpToMisses(to: Instant)
    requires Valid(to) && to.nano % 1_000 == 0
    ensures var rows := [Column(to, 9)]; UpToText(rows, to) == [] && UpToTime(rows, to) == rows
  {
    hide Valid, TextUpTo, Bound;
    RowMissed(to);
    SelectOne(Column(to, 9), c => TextUpTo(c, Bound(to)));
    SelectOne(Column(to, 9), (c: Column) => Elapsed(c.at) <= Elapsed(to));
  }

  lemma SelectOne(row: Column, keep: Column -> bool)
    ensures Select([row], keep) == if keep(row) then [row] else []
  {
    assert [row][1..] == [];
  }

  lemma RowMissed(to: Instant)
    requires Valid(to) && to.nano % 1_000 == 0
    ensures !TextUpTo(Column(to, 9), Bound(to))
  {
    RowAgainstShortest(Column(to, 9), to);
  }

  // A filter that differs from the chronological one on tied rows alone, which the latter keeps.
  lemma TiesDecide(rows: seq<Column>, p: Column -> bool, q: Column -> bool, bound: Instant, digits: nat)
    requires forall c :: c in rows ==> (p(c) <==> q(c) && !Tied(c, bound, digits))
    requires forall c: Column :: Elapsed(c.at) == Elapsed(bound) ==> q(c)
    ensures (forall c :: c in rows ==> p(c) == q(c)) <==> forall c :: c in rows ==> !Tied(c, bound, digits)
  {
  }
}
