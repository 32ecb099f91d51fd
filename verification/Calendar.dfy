// Dates on the wire (daysSince1 and encodeDateTime2 in internal/wire/result.go; section 2.2.5.5.1.8 of MS-TDS).

module Calendar {
  import opened Arithmetic
  import opened Framing
  import opened WireValues

  datatype Date = Date(y: int, m: int, d: int)

  predicate IsLeap(y: int) { y % 4 == 0 && (y % 100 != 0 || y % 400 == 0) }

  function MonthLength(y: int, m: int): int {
    if m == 2 then (if IsLeap(y) then 29 else 28)
    else if m in {4, 6, 9, 11} then 30 else 31
  }

  predicate Valid(t: Date) { 1 <= t.y && 1 <= t.m <= 12 && 1 <= t.d <= MonthLength(t.y, t.m) }

  // The Gregorian date after a date.
  function NextDay(t: Date): Date {
    if t.d < MonthLength(t.y, t.m) then t.(d := t.d + 1)
    else if t.m < 12 then Date(t.y, t.m + 1, 1)
    else Date(t.y + 1, 1, 1)
  }

  function DayBefore(t: Date): Date {
    if t.d > 1 then t.(d := t.d - 1)
    else if t.m > 1 then Date(t.y, t.m - 1, MonthLength(t.y, t.m - 1))
    else Date(t.y - 1, 12, 31)
  }

  const FIRST := Date(1, 1, 1)

  // The date n days after the first.
  function Nth(n: nat): Date { if n == 0 then FIRST else NextDay(Nth(n - 1)) }

  // Julian-day arithmetic; every operand is positive, so / rounds the same way in either language.
  function DaysSince1(y: int, m: int, d: int): int
    requires 1 <= y && 1 <= m <= 12
  {
    var a := (14 - m) / 12;
    var yy := y + 4800 - a;
    var mm := m + 12 * a - 3;
    var jdn := d + (153 * mm + 2) / 5 + 365 * yy + yy / 4 - yy / 100 + yy / 400 - 32045;
    jdn - 1721426
  }

  function Days(t: Date): int
    requires Valid(t)
  {
    DaysSince1(t.y, t.m, t.d)
  }

  lemma NextIsValid(t: Date)
    requires Valid(t)
    ensures Valid(NextDay(t)) && DayBefore(NextDay(t)) == t
  {
  }

  lemma BeforeIsValid(t: Date)
    requires Valid(t) && t != FIRST
    ensures Valid(DayBefore(t)) && NextDay(DayBefore(t)) == t
  {
  }

  // ---------- The formula, month by month ----------

  // Days of whole years, counted from March; the start of a month in such a year.
  function Years(yy: int): int { 365 * yy + yy / 4 - yy / 100 + yy / 400 }

  function MonthStart(m: int): int
    requires 1 <= m <= 12
  {
    [306, 337, 0, 31, 61, 92, 122, 153, 184, 214, 245, 275][m - 1]
  }

  function MarchYear(y: int, m: int): int { if m <= 2 then y + 4799 else y + 4800 }

  lemma Formula(y: int, m: int, d: int)
    requires 1 <= y && 1 <= m <= 12
    ensures DaysSince1(y, m, d) == d + MonthStart(m) + Years(MarchYear(y, m)) - 1753471
  {
    MonthFormula(m);
  }

  lemma MonthFormula(m: int)
    requires 1 <= m <= 12
    ensures var a := (14 - m) / 12; a == (if m <= 2 then 1 else 0) && (153 * (m + 12 * a - 3) + 2) / 5 == MonthStart(m)
  {
  }

  lemma Every(yy: int, k: int)
    requires k in {4, 100, 400}
    ensures yy / k == (yy - 1) / k + if yy % k == 0 then 1 else 0
  {
    if k == 4 { Every4(yy); } else if k == 100 { Every100(yy); } else { Every400(yy); }
  }

  lemma Every4(yy: int)
    ensures yy / 4 == (yy - 1) / 4 + if yy % 4 == 0 then 1 else 0
  {
  }

  lemma Every100(yy: int)
    ensures yy / 100 == (yy - 1) / 100 + if yy % 100 == 0 then 1 else 0
  {
  }

  lemma Every400(yy: int)
    ensures yy / 400 == (yy - 1) / 400 + if yy % 400 == 0 then 1 else 0
  {
  }

  lemma YearTurns(yy: nat)
    ensures Years(yy) == Years(yy - 1) + if IsLeap(yy) then 366 else 365
  {
    Every(yy, 4);
    Every(yy, 100);
    Every(yy, 400);
    Multiples(yy);
  }

  lemma Multiples(yy: nat)
    ensures yy % 100 == 0 ==> yy % 4 == 0
    ensures yy % 400 == 0 ==> yy % 100 == 0
  {
    if yy % 100 == 0 { Quotient(yy, 4, 25 * (yy / 100), 0); }
    if yy % 400 == 0 { Quotient(yy, 100, 4 * (yy / 400), 0); }
  }

  // The number grows by one from each date to the next, over month ends, leap days and year ends.
  lemma NextDayIsOneMore(t: Date)
    requires Valid(t)
    ensures Valid(NextDay(t)) && Days(NextDay(t)) == Days(t) + 1
  {
    hide DaysSince1, Years;
    var n := NextDay(t);
    NextIsValid(t);
    Formula(t.y, t.m, t.d);
    Formula(n.y, n.m, n.d);
    YearTurns(t.y + 4800);
    LeapShift(t.y);
  }

  lemma LeapShift(y: nat)
    ensures IsLeap(y + 4800) == IsLeap(y)
  {
    Quotient(y + 4800, 4, y / 4 + 1200, y % 4);
    Quotient(y + 4800, 100, y / 100 + 48, y % 100);
    Quotient(y + 4800, 400, y / 400 + 12, y % 400);
  }

  lemma FirstIsZero()
    ensures Valid(FIRST) && Days(FIRST) == 0
  {
    hide DaysSince1;
    Formula(1, 1, 1);
    assert Years(4800) == 365 * 4800 + 1200 - 48 + 12;
  }

  // The number of a date is how many days it lies after the first.
  lemma {:induction false} NthHasNumber(n: nat)
    ensures Valid(Nth(n)) && Days(Nth(n)) == n
  {
    if n == 0 {
      FirstIsZero();
    } else {
      NthHasNumber(n - 1);
      NextDayIsOneMore(Nth(n - 1));
    }
  }

  // Every date is reached, on its own day: so the numbers tell dates apart and leave none out.
  lemma {:induction false} DateIsNth(t: Date)
    requires Valid(t)
    ensures Days(t) >= 0 && Nth(Days(t)) == t
    decreases t.y, t.m, t.d
  {
    if t == FIRST {
      FirstIsZero();
    } else {
      var b := DayBefore(t);
      BeforeIsValid(t);
      DateIsNth(b);
      NextDayIsOneMore(b);
    }
  }

  lemma NumbersTellDatesApart(s: Date, t: Date)
    requires Valid(s) && Valid(t)
    ensures Days(s) == Days(t) <==> s == t
  {
    DateIsNth(s);
    DateIsNth(t);
  }

  // Three bytes are enough through the year 9999.
  lemma FitsThreeBytes(t: Date)
    requires Valid(t) && t.y <= 9999
    ensures 0 <= Days(t) <= 3652058 < 0x100_0000
  {
    DateIsNth(t);
    DaysBound(t.y, t.m, t.d);
  }

  lemma DaysBound(y: int, m: int, d: int)
    requires 1 <= y <= 9999 && 1 <= m <= 12 && d <= 31
    ensures DaysSince1(y, m, d) <= 3652058
  {
    hide DaysSince1, Years;
    Formula(y, m, d);
    YearsGrow(MarchYear(y, m), if m <= 2 then 14798 else 14799);
    LastYears();
  }

  lemma LastYears()
    ensures Years(14799) == 5405223 && Years(14798) == 5404858
  {
  }

  lemma {:induction false} YearsGrow(a: nat, b: nat)
    requires a <= b
    ensures Years(a) <= Years(b)
    decreases b - a
  {
    hide Years;
    if a < b {
      YearsGrow(a, b - 1);
      YearTurns(b);
    }
  }

  // ---------- encodeDateTime2 ----------

  // Seconds of the day and the day, three bytes each.
  function EncodeDateTime2(t: Date, secs: nat): seq<byte>
    requires Valid(t) && t.y <= 9999
  {
    FitsThreeBytes(t);
    [6] + Le(secs, 3) + Le(Days(t), 3)
  }

  // Date and time of day come back from the six bytes.
  lemma DateTimeRoundTrip(t: Date, secs: nat)
    requires Valid(t) && t.y <= 9999 && secs < 86400
    ensures var b := EncodeDateTime2(t, secs);
      && |b| == 7 && b[0] == 6
      && FromLe(b[1..4]) == secs && Nth(FromLe(b[4..7])) == t
  {
    hide Le, FromLe, DaysSince1, Nth, NextDay, Pow256;
    FitsThreeBytes(t);
    DateIsNth(t);
    var b := EncodeDateTime2(t, secs);
    assert b[1..4] == Le(secs, 3) && b[4..7] == Le(Days(t), 3);
    LeReads(secs, 3);
    LeReads(Days(t), 3);
    ThreeBytes();
  }

  lemma ThreeBytes()
    ensures Pow256(3) == 0x100_0000
  {
    assert Pow256(0) == 1 && Pow256(1) == 256 && Pow256(2) == 0x1_0000;
  }
}
