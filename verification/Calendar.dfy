/** UTC timestamps of the fixed form `YYYY-MM-DDThh:mm:ssZ` and the day count since 1970. */
module Calendar {
  import opened Results
  import opened Text
  import opened Ordering

  const U32_MAX: nat := 0xFFFF_FFFF
  const U64_MAX: nat := 0xFFFF_FFFF_FFFF_FFFF

  // ---------------------------------------------------------------- days

  predicate LeapYear(year: nat) { year % 4 == 0 && (year % 100 != 0 || year % 400 == 0) }

  function DaysInMonth(year: nat, month: nat): nat {
    if month in {1, 3, 5, 7, 8, 10, 12} then 31
    else if month in {4, 6, 9, 11} then 30
    else if month == 2 then if LeapYear(year) then 29 else 28
    else 0
  }

  /** The closed form that the source computes. */
  function DaysBeforeYear(year: nat): int
    requires year >= 1970
  {
    (year - 1970) * 365 + ((year - 1) / 4 - (year - 1) / 100 + (year - 1) / 400) - (1969 / 4 - 1969 / 100 + 1969 / 400)
  }

  function DaysBeforeMonth(year: nat, month: nat): nat {
    if month <= 1 then 0 else DaysBeforeMonth(year, month - 1) + DaysInMonth(year, month - 1)
  }

  function DaysInYear(year: nat): nat { DaysBeforeMonth(year, 13) }

  /** The naive count: the lengths of the years since 1970, added up. */
  function SumOfYears(year: nat): nat
    requires year >= 1970
  {
    if year == 1970 then 0 else SumOfYears(year - 1) + DaysInYear(year - 1)
  }

  lemma YearLength(year: nat)
    ensures DaysInYear(year) == if LeapYear(year) then 366 else 365
  {
    assert DaysBeforeMonth(year, 4) == (if LeapYear(year) then 91 else 90) by {
      assert DaysBeforeMonth(year, 2) == 31;
      assert DaysBeforeMonth(year, 3) == 31 + DaysInMonth(year, 2);
    }
    assert DaysBeforeMonth(year, 7) == DaysBeforeMonth(year, 4) + 91 by {
      assert DaysBeforeMonth(year, 5) == DaysBeforeMonth(year, 4) + 30;
      assert DaysBeforeMonth(year, 6) == DaysBeforeMonth(year, 5) + 31;
    }
    assert DaysBeforeMonth(year, 10) == DaysBeforeMonth(year, 7) + 92 by {
      assert DaysBeforeMonth(year, 8) == DaysBeforeMonth(year, 7) + 31;
      assert DaysBeforeMonth(year, 9) == DaysBeforeMonth(year, 8) + 31;
    }
    assert DaysBeforeMonth(year, 11) == DaysBeforeMonth(year, 10) + 31;
    assert DaysBeforeMonth(year, 12) == DaysBeforeMonth(year, 11) + 30;
  }

  lemma NextYear(year: nat)
    requires year >= 1970
    ensures DaysBeforeYear(year + 1) == DaysBeforeYear(year) + DaysInYear(year)
  {
    hide DaysInYear;
    YearLength(year);
    Fourths(year);
    Hundredths(year);
  }

  lemma Fourths(year: nat)
    requires year >= 1
    ensures year / 4 == (year - 1) / 4 + if year % 4 == 0 then 1 else 0
    ensures year % 100 == 0 ==> year % 4 == 0
  {
  }

  lemma Hundredths(year: nat)
    requires year >= 1
    ensures year / 100 == (year - 1) / 100 + if year % 100 == 0 then 1 else 0
    ensures year / 400 == (year - 1) / 400 + if year % 400 == 0 then 1 else 0
    ensures year % 400 == 0 ==> year % 100 == 0
  {
  }

  /** The closed form is the sum of the year lengths. */
  lemma {:induction false} ClosedForm(year: nat)
    requires year >= 1970
    ensures DaysBeforeYear(year) == SumOfYears(year)
  {
    if year > 1970 {
      ClosedForm(year - 1);
      NextYear(year - 1);
    }
  }

  // ---------------------------------------------------------------- timestamps

  datatype Fields = Fields(year: nat, month: nat, day: nat, hour: nat, minute: nat, second: nat)

  predicate Valid(f: Fields) {
    && 1970 <= f.year <= 9999 && 1 <= f.month <= 12
    && 1 <= f.day <= DaysInMonth(f.year, f.month)
    && f.hour <= 23 && f.minute <= 59 && f.second <= 59
  }

  function Days(f: Fields): int
    requires f.year >= 1970
  {
    DaysBeforeYear(f.year) + DaysBeforeMonth(f.year, f.month) + f.day - 1
  }

  function Seconds(f: Fields): int
    requires f.year >= 1970
  {
    Days(f) * 86_400 + f.hour * 3_600 + f.minute * 60 + f.second
  }

  /** `checked_add` and `checked_mul`: nothing beyond `max`. */
  function Checked(max: nat, value: int): Option<nat> {
    if 0 <= value <= max then Some(value) else None
  }

  /** `number`: digits read with checked 32-bit arithmetic. */
  function Number(bytes: string): Option<nat> {
    if bytes == "" || exists i :: 0 <= i < |bytes| && !IsAsciiDigit(bytes[i]) then None else Folded(bytes)
  }

  function DigitValue(c: char): nat
    requires IsAsciiDigit(c)
  {
    c as int - '0' as int
  }

  function Folded(bytes: string): Option<nat>
    requires forall i :: 0 <= i < |bytes| ==> IsAsciiDigit(bytes[i])
  {
    if bytes == "" then Some(0)
    else
      match Folded(bytes[..|bytes| - 1])
      case None => None
      case Some(value) =>
        if Checked(U32_MAX, value * 10).None? then None
        else Checked(U32_MAX, value * 10 + DigitValue(bytes[|bytes| - 1]))
  }

  /** The parser; `None` is the malformed-response error. A text with a non-ASCII character is refused either way of counting its length. */
  function ParseUtcTimestamp(s: string): Option<nat> {
    if |s| != 20 || s[4] != '-' || s[7] != '-' || s[10] != 'T' || s[13] != ':' || s[16] != ':' || s[19] != 'Z' then None
    else
      match (Number(s[0..4]), Number(s[5..7]), Number(s[8..10]), Number(s[11..13]), Number(s[14..16]), Number(s[17..19]))
      case (Some(year), Some(month), Some(day), Some(hour), Some(minute), Some(second)) =>
        if year < 1970 || !(1 <= month <= 12) || day == 0 || day > DaysInMonth(year, month)
           || hour > 23 || minute > 59 || second > 59 then None
        else CheckedSeconds(Fields(year, month, day, hour, minute, second))
      case _ => None
  }

  /** The chain of checked 64-bit operations that ends the parser. */
  function CheckedSeconds(f: Fields): Option<nat>
    requires f.year >= 1970 && f.day >= 1
  {
    var months := Checked(U64_MAX, DaysBeforeYear(f.year) + DaysBeforeMonth(f.year, f.month));
    if months.None? then None
    else
      var days := Checked(U64_MAX, months.value + (f.day - 1));
      if days.None? then None
      else
        var midnight := Checked(U64_MAX, days.value * 86_400);
        if midnight.None? then None
        else
          var hours := Checked(U64_MAX, midnight.value + f.hour * 3_600);
          if hours.None? then None
          else
            var minutes := Checked(U64_MAX, hours.value + f.minute * 60);
            if minutes.None? then None else Checked(U64_MAX, minutes.value + f.second)
  }

  // ---------------------------------------------------------------- printing

  function Digit(n: nat): char
    requires n < 10
  {
    ('0' as int + n) as char
  }

  function Two(n: nat): (r: string)
    requires n < 100
    ensures |r| == 2
  {
    [Digit(n / 10), Digit(n % 10)]
  }

  function Four(n: nat): (r: string)
    requires n < 10_000
    ensures |r| == 4
  {
    Two(n / 100) + Two(n % 100)
  }

  function TimeOfDay(f: Fields): string
    requires Valid(f)
  {
    Two(f.hour) + ":" + (Two(f.minute) + ":" + (Two(f.second) + "Z"))
  }

  function Printed(f: Fields): string
    requires Valid(f)
  {
    Four(f.year) + "-" + (Two(f.month) + "-" + (Two(f.day) + "T" + TimeOfDay(f)))
  }

  lemma TwoRead(n: nat)
    requires n < 100
    ensures Number(Two(n)) == Some(n)
  {
    var s := Two(n);
    assert s[..1] == [Digit(n / 10)];
    assert Folded(s[..1]) == Some(n / 10) by { assert s[..1][..0] == ""; }
    assert Folded(s) == Some(n);
  }

  /** One digit more. */
  lemma DigitRead(s: string, value: nat, digit: nat)
    requires digit < 10 && value * 10 + digit <= U32_MAX && Number(s) == Some(value)
    ensures Number(s + [Digit(digit)]) == Some(value * 10 + digit)
  {
    var more := s + [Digit(digit)];
    assert more[..|more| - 1] == s;
    assert forall i :: 0 <= i < |s| ==> more[i] == s[i];
  }

  lemma FourRead(n: nat)
    requires n < 10_000
    ensures Number(Four(n)) == Some(n)
  {
    var front, tens, ones := Two(n / 100), (n % 100) / 10, n % 10;
    TwoRead(n / 100);
    assert Four(n) == (front + [Digit(tens)]) + [Digit(ones)];
    hide Number, Two, Four, Digit;
    DigitRead(front, n / 100, tens);
    DigitRead(front + [Digit(tens)], n / 100 * 10 + tens, ones);
  }

  lemma ReadTwo(s: string)
    requires |s| == 2 && Number(s).Some?
    ensures Number(s).value < 100 && Two(Number(s).value) == s
  {
    assert s[..1][..0] == "";
    var hi, lo := DigitValue(s[0]), DigitValue(s[1]);
    assert Folded(s[..1]) == Some(hi);
    assert Number(s) == Some(hi * 10 + lo);
    assert (hi * 10 + lo) / 10 == hi && (hi * 10 + lo) % 10 == lo;
  }

  lemma ReadFour(s: string)
    requires |s| == 4 && Number(s).Some?
    ensures Number(s).value < 10_000 && Four(Number(s).value) == s
  {
    var a, b := s[..2], s[2..];
    assert forall i :: 0 <= i < 4 ==> IsAsciiDigit(s[i]);
    assert a[..1][..0] == "" && b[..1][..0] == "";
    var na, nb := DigitValue(s[0]) * 10 + DigitValue(s[1]), DigitValue(s[2]) * 10 + DigitValue(s[3]);
    assert Folded(a[..1]) == Some(DigitValue(s[0]));
    assert Number(a) == Some(na);
    assert Folded(b[..1]) == Some(DigitValue(s[2]));
    assert Number(b) == Some(nb);
    ReadTwo(a);
    ReadTwo(b);
    FourRead(na * 100 + nb);
    assert (na * 100 + nb) / 100 == na && (na * 100 + nb) % 100 == nb;
    assert s == a + b;
  }

  // ---------------------------------------------------------------- fields and seconds

  lemma {:induction false} MonthsGrow(year: nat, m: nat, n: nat)
    requires 1 <= m < n <= 13
    ensures DaysBeforeMonth(year, m) + DaysInMonth(year, m) <= DaysBeforeMonth(year, n)
    decreases n
  {
    if m + 1 < n { MonthsGrow(year, m, n - 1); }
  }

  lemma {:induction false} YearsGrow(y: nat, z: nat)
    requires 1970 <= y < z
    ensures DaysBeforeYear(y) + DaysInYear(y) <= DaysBeforeYear(z)
    decreases z
  {
    NextYear(z - 1);
    if y + 1 < z { YearsGrow(y, z - 1); }
  }

  /** One past the last second of the year 9999. */
  const END: int := DaysBeforeYear(10_000) * 86_400

  lemma SecondsInRange(f: Fields)
    requires Valid(f)
    ensures 0 <= DaysBeforeYear(f.year) && 0 <= Days(f)
    ensures 0 <= Seconds(f) < END < U64_MAX
    ensures Days(f) < DaysBeforeYear(f.year) + DaysInYear(f.year)
  {
    ClosedForm(f.year);
    MonthsGrow(f.year, f.month, 13);
    YearsGrow(f.year, 10_000);
  }

  /** No checked operation of the parser fails on a valid date, and the result is its count of seconds. */
  lemma CheckedNeverFails(f: Fields)
    requires Valid(f)
    ensures CheckedSeconds(f) == Some(Seconds(f))
  {
    SecondsInRange(f);
  }

  /** The order of dates by their fields. */
  predicate Earlier(f: Fields, g: Fields) {
    || f.year < g.year
    || (f.year == g.year && f.month < g.month)
    || (f.year == g.year && f.month == g.month && f.day < g.day)
    || (f.year == g.year && f.month == g.month && f.day == g.day && f.hour < g.hour)
    || (f.year == g.year && f.month == g.month && f.day == g.day && f.hour == g.hour && f.minute < g.minute)
    || (f.year == g.year && f.month == g.month && f.day == g.day && f.hour == g.hour && f.minute == g.minute && f.second < g.second)
  }

  lemma EarlierDays(f: Fields, g: Fields)
    requires Valid(f) && Valid(g)
    requires f.year < g.year || (f.year == g.year && f.month < g.month) || (f.year == g.year && f.month == g.month && f.day < g.day)
    ensures Days(f) < Days(g)
  {
    SecondsInRange(f);
    SecondsInRange(g);
    if f.year < g.year {
      YearsGrow(f.year, g.year);
    } else if f.month < g.month {
      MonthsGrow(f.year, f.month, g.month);
    }
  }

  lemma EarlierSeconds(f: Fields, g: Fields)
    requires Valid(f) && Valid(g) && Earlier(f, g)
    ensures Seconds(f) < Seconds(g)
  {
    if f.year != g.year || f.month != g.month || f.day != g.day { EarlierDays(f, g); }
  }

  /** Seconds order valid dates exactly as their fields do; in particular no two share a second. */
  lemma SecondsOrder(f: Fields, g: Fields)
    requires Valid(f) && Valid(g)
    ensures Seconds(f) < Seconds(g) <==> Earlier(f, g)
    ensures Seconds(f) == Seconds(g) <==> f == g
  {
    if Earlier(f, g) {
      EarlierSeconds(f, g);
    } else if f != g {
      EarlierSeconds(g, f);
    }
  }

  function FindYear(days: nat, year: nat): (r: nat)
    requires year >= 1970 && DaysBeforeYear(year) <= days
    ensures r >= year && DaysBeforeYear(r) <= days < DaysBeforeYear(r) + DaysInYear(r)
    decreases days - DaysBeforeYear(year)
  {
    NextYear(year);
    YearLength(year);
    if days < DaysBeforeYear(year + 1) then year else FindYear(days, year + 1)
  }

  function FindMonth(year: nat, day: nat, month: nat): (r: nat)
    requires 1 <= month <= 12 && DaysBeforeMonth(year, month) <= day < DaysInYear(year)
    ensures month <= r <= 12 && DaysBeforeMonth(year, r) <= day < DaysBeforeMonth(year, r) + DaysInMonth(year, r)
    decreases 12 - month
  {
    if day < DaysBeforeMonth(year, month + 1) then month else FindMonth(year, day, month + 1)
  }

  lemma ClockParts(rest: nat)
    requires rest < 86_400
    ensures rest / 3_600 < 24 && rest % 3_600 / 60 < 60 && rest % 60 < 60
    ensures rest == rest / 3_600 * 3_600 + rest % 3_600 / 60 * 60 + rest % 60
  {
    var inHour := rest % 3_600;
    assert rest == rest / 3_600 * 3_600 + inHour && inHour == inHour / 60 * 60 + inHour % 60;
    assert inHour % 60 == rest % 60;
  }

  /** The date at a given second. */
  function FieldsOf(t: nat): (f: Fields)
    requires t < END
    ensures Valid(f) && Seconds(f) == t
  {
    var days, rest := t / 86_400, t % 86_400;
    ClockParts(rest);
    var year := FindYear(days, 1970);
    assert year <= 9999 by { if year > 10_000 { YearsGrow(10_000, year); } }
    var ofYear := days - DaysBeforeYear(year);
    var month := FindMonth(year, ofYear, 1);
    Fields(year, month, ofYear - DaysBeforeMonth(year, month) + 1, rest / 3_600, rest % 3_600 / 60, rest % 60)
  }

  // ---------------------------------------------------------------- the parser is an order-preserving bijection

  lemma PrintedSlices(f: Fields)
    requires Valid(f)
    ensures var s := Printed(f);
      && |s| == 20 && s[4] == '-' && s[7] == '-' && s[10] == 'T' && s[13] == ':' && s[16] == ':' && s[19] == 'Z'
      && s[0..4] == Four(f.year) && s[5..7] == Two(f.month) && s[8..10] == Two(f.day)
      && s[11..13] == Two(f.hour) && s[14..16] == Two(f.minute) && s[17..19] == Two(f.second)
  {
    hide Two, Four;
  }

  lemma PrintedParses(f: Fields)
    requires Valid(f)
    ensures ParseUtcTimestamp(Printed(f)) == Some(Seconds(f))
  {
    hide Printed, Number, Two, Four, CheckedSeconds, Seconds;
    PrintedSlices(f);
    FourRead(f.year);
    TwoRead(f.month);
    TwoRead(f.day);
    TwoRead(f.hour);
    TwoRead(f.minute);
    TwoRead(f.second);
    CheckedNeverFails(f);
  }

  /** The date that an accepted text states. */
  function FieldsIn(s: string): (f: Fields)
    requires ParseUtcTimestamp(s).Some?
    ensures Valid(f)
  {
    ReadFour(s[0..4]);
    Fields(Number(s[0..4]).value, Number(s[5..7]).value, Number(s[8..10]).value,
           Number(s[11..13]).value, Number(s[14..16]).value, Number(s[17..19]).value)
  }

  /** Every accepted text is the printed form of its date, and its value is that date's second. */
  lemma ParsedIsPrinted(s: string)
    requires ParseUtcTimestamp(s).Some?
    ensures s == Printed(FieldsIn(s)) && ParseUtcTimestamp(s) == Some(Seconds(FieldsIn(s)))
  {
    var f := FieldsIn(s);
    ReadFour(s[0..4]);
    ReadTwo(s[5..7]);
    ReadTwo(s[8..10]);
    ReadTwo(s[11..13]);
    ReadTwo(s[14..16]);
    ReadTwo(s[17..19]);
    CheckedNeverFails(f);
    var p := Printed(f);
    assert p[0..4] == Four(f.year) && p[5..7] == Two(f.month) && p[8..10] == Two(f.day);
    assert p[11..13] == Two(f.hour) && p[14..16] == Two(f.minute) && p[17..19] == Two(f.second);
    forall i | 0 <= i < 20 ensures s[i] == p[i] {
      Pieces(s, p, i);
    }
  }

  lemma Pieces(s: string, p: string, i: nat)
    requires |s| == |p| == 20 && i < 20
    requires s[0..4] == p[0..4] && s[5..7] == p[5..7] && s[8..10] == p[8..10]
    requires s[11..13] == p[11..13] && s[14..16] == p[14..16] && s[17..19] == p[17..19]
    requires forall k :: k in {4, 7, 10, 13, 16, 19} ==> s[k] == p[k]
    ensures s[i] == p[i]
  {
    if i < 4 { assert s[0..4][i] == p[0..4][i]; }
    else if 5 <= i < 7 { assert s[5..7][i - 5] == p[5..7][i - 5]; }
    else if 8 <= i < 10 { assert s[8..10][i - 8] == p[8..10][i - 8]; }
    else if 11 <= i < 13 { assert s[11..13][i - 11] == p[11..13][i - 11]; }
    else if 14 <= i < 16 { assert s[14..16][i - 14] == p[14..16][i - 14]; }
    else if 17 <= i < 19 { assert s[17..19][i - 17] == p[17..19][i - 17]; }
  }

  /** Every second of the range has exactly one text. */
  lemma EverySecondOnce(t: nat)
    requires t < END
    ensures ParseUtcTimestamp(Printed(FieldsOf(t))) == Some(t)
    ensures forall s :: ParseUtcTimestamp(s) == Some(t) ==> s == Printed(FieldsOf(t))
  {
    PrintedParses(FieldsOf(t));
    forall s | ParseUtcTimestamp(s) == Some(t)
      ensures s == Printed(FieldsOf(t))
    {
      ParsedIsPrinted(s);
      SecondsOrder(FieldsIn(s), FieldsOf(t));
    }
  }

  /** Every accepted text means a second of the range. */
  lemma AcceptedInRange(s: string)
    requires ParseUtcTimestamp(s).Some?
    ensures ParseUtcTimestamp(s).value < END
  {
    ParsedIsPrinted(s);
    SecondsInRange(FieldsIn(s));
  }

  lemma TwoOrder(a: nat, b: nat, x: string, y: string)
    requires a < 100 && b < 100
    ensures LexLess(Two(a) + x, Two(b) + y) <==> a < b || (a == b && LexLess(x, y))
  {
    var s, t := Two(a) + x, Two(b) + y;
    assert s[1..] == [Digit(a % 10)] + x && t[1..] == [Digit(b % 10)] + y;
    assert s[1..][1..] == x && t[1..][1..] == y;
    assert LexLess(s, t) <==> s[0] < t[0] || (s[0] == t[0] && LexLess(s[1..], t[1..]));
  }

  lemma FourOrder(a: nat, b: nat, x: string, y: string)
    requires a < 10_000 && b < 10_000
    ensures LexLess(Four(a) + x, Four(b) + y) <==> a < b || (a == b && LexLess(x, y))
  {
    assert Four(a) + x == Two(a / 100) + (Two(a % 100) + x);
    assert Four(b) + y == Two(b / 100) + (Two(b % 100) + y);
    TwoOrder(a / 100, b / 100, Two(a % 100) + x, Two(b % 100) + y);
    TwoOrder(a % 100, b % 100, x, y);
  }

  lemma SameHead(c: char, x: string, y: string)
    ensures LexLess([c] + x, [c] + y) <==> LexLess(x, y)
  {
    assert ([c] + x)[1..] == x && ([c] + y)[1..] == y;
  }

  lemma TimeOrder(f: Fields, g: Fields)
    requires Valid(f) && Valid(g)
    ensures LexLess(TimeOfDay(f), TimeOfDay(g)) <==>
      || f.hour < g.hour
      || (f.hour == g.hour && f.minute < g.minute)
      || (f.hour == g.hour && f.minute == g.minute && f.second < g.second)
  {
    var sf, sg := Two(f.second) + "Z", Two(g.second) + "Z";
    var mf, mg := Two(f.minute) + (":" + sf), Two(g.minute) + (":" + sg);
    assert TimeOfDay(f) == Two(f.hour) + (":" + mf) && TimeOfDay(g) == Two(g.hour) + (":" + mg);
    TwoOrder(f.hour, g.hour, ":" + mf, ":" + mg);
    SameHead(':', mf, mg);
    TwoOrder(f.minute, g.minute, ":" + sf, ":" + sg);
    SameHead(':', sf, sg);
    TwoOrder(f.second, g.second, "Z", "Z");
    LexIrreflexive("Z");
  }

  lemma PrintedOrder(f: Fields, g: Fields)
    requires Valid(f) && Valid(g)
    ensures LexLess(Printed(f), Printed(g)) <==> Earlier(f, g)
  {
    var tf, tg := "T" + TimeOfDay(f), "T" + TimeOfDay(g);
    var df, dg := "-" + (Two(f.day) + tf), "-" + (Two(g.day) + tg);
    var mf, mg := "-" + (Two(f.month) + df), "-" + (Two(g.month) + dg);
    assert Printed(f) == Four(f.year) + mf && Printed(g) == Four(g.year) + mg;
    FourOrder(f.year, g.year, mf, mg);
    SameHead('-', Two(f.month) + df, Two(g.month) + dg);
    TwoOrder(f.month, g.month, df, dg);
    SameHead('-', Two(f.day) + tf, Two(g.day) + tg);
    TwoOrder(f.day, g.day, tf, tg);
    SameHead('T', TimeOfDay(f), TimeOfDay(g));
    TimeOrder(f, g);
  }

  /** Comparing two accepted texts as strings compares the instants they mean. */
  lemma TextOrderIsTimeOrder(s: string, t: string)
    requires ParseUtcTimestamp(s).Some? && ParseUtcTimestamp(t).Some?
    ensures LexLess(s, t) <==> ParseUtcTimestamp(s).value < ParseUtcTimestamp(t).value
  {
    ParsedIsPrinted(s);
    ParsedIsPrinted(t);
    PrintedOrder(FieldsIn(s), FieldsIn(t));
    SecondsOrder(FieldsIn(s), FieldsIn(t));
  }
}
