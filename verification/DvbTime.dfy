/** Dates and times in DVB tables (src/psi/mod.rs:235-291; Annex C of ETSI EN 300 468). */
module DvbTime {
  import opened Common

  datatype Date = Date(year: int, month: int, day: int)

  predicate Leap(y: int) {
    y % 4 == 0 && (y % 100 != 0 || y % 400 == 0)
  }

  function DaysIn(y: int, m: int): int {
    if m == 2 then if Leap(y) then 29 else 28
    else if m == 4 || m == 6 || m == 9 || m == 11 then 30
    else 31
  }

  /** A date of the Gregorian calendar in a whole Gregorian year. */
  predicate ValidDate(d: Date) {
    d.year >= 1583 && 1 <= d.month <= 12 && 1 <= d.day <= DaysIn(d.year, d.month)
  }

  function NextDay(d: Date): Date {
    if d.day < DaysIn(d.year, d.month) then d.(day := d.day + 1)
    else if d.month < 12 then Date(d.year, d.month + 1, 1)
    else Date(d.year + 1, 1, 1)
  }

  /** `mjd` before the final cast.  The two floating-point products are floors of exact quotients:
    * 365.25 is a binary fraction, and 30.6001 * k keeps clear of integers for k from 4 to 15. */
  function DayCount(year: int, month: int, day: int): int {
    var y := if month <= 2 then year - 1 else year;
    var m := if month <= 2 then month + 12 else month;
    var a := y / 100;
    var b := 2 - a + a / 4;
    var jd := 1461 * (y + 4716) / 4 + 306001 * (m + 1) / 10000 + day + b - 1524;
    jd - 2400001
  }

  /** `mjd`: cast to 16 bits. */
  function Mjd(d: Date): nat {
    DayCount(d.year, d.month, d.day) % 0x1_0000
  }

  function Count(d: Date): int {
    DayCount(d.year, d.month, d.day)
  }

  // ----- MJD is a day count -----

  /** Leap days up to a year that starts in March: one in four, except centuries, except one in
    * four of those. */
  lemma YearStep(y: int)
    requires y >= 1583
    ensures var before, after := y - 1, y;
            1461 * (after + 4716) / 4 - 1461 * (before + 4716) / 4
            + (after / 100 / 4 - after / 100) - (before / 100 / 4 - before / 100)
            == if Leap(y) then 366 else 365
  {
    var q, r := y / 400, y % 400;
    assert y == 400 * q + r;
    assert 1461 * (y + 4716) / 4 == 365 * (y + 4716) + (y + 4716) / 4;
    assert 1461 * (y + 4715) / 4 == 365 * (y + 4715) + (y + 4715) / 4;
    assert (y + 4716) / 4 - (y + 4715) / 4 == if y % 4 == 0 then 1 else 0;
    assert y / 100 - (y - 1) / 100 == if y % 100 == 0 then 1 else 0;
    assert y / 100 / 4 - (y - 1) / 100 / 4 == if y % 400 == 0 then 1 else 0;
  }

  /** The first of a month follows the last of the month before, in every year. */
  lemma MonthStep(y: int, m: int)
    requires y >= 1583 && 1 <= m <= 12
    ensures var (y', m') := if m < 12 then (y, m + 1) else (y + 1, 1);
            DayCount(y', m', 1) == DayCount(y, m, DaysIn(y, m)) + 1
  {
    if m == 2 {
      YearStep(y);
    }
  }

  lemma DaysAdd(y: int, m: int, day: int, n: int)
    ensures DayCount(y, m, day + n) == DayCount(y, m, day) + n
  {
  }

  lemma CastStep(c: int)
    ensures (c + 1) % 0x1_0000 == (c % 0x1_0000 + 1) % 0x1_0000
  {
  }

  /** Tomorrow counts one more than today, across months, leap days and centuries. */
  lemma NextDayCountsOne(d: Date)
    requires ValidDate(d)
    ensures ValidDate(NextDay(d)) && Count(NextDay(d)) == Count(d) + 1
    ensures Mjd(NextDay(d)) == (Mjd(d) + 1) % 0x1_0000
  {
    if d.day < DaysIn(d.year, d.month) {
      DaysAdd(d.year, d.month, d.day, 1);
    } else {
      MonthStep(d.year, d.month);
    }
    CastStep(Count(d));
  }

  function DaysAfter(d: Date, n: nat): Date {
    if n == 0 then d else NextDay(DaysAfter(d, n - 1))
  }

  const EPOCH := Date(1858, 11, 17)

  /** Modified Julian Day: the number of days since 17 November 1858, modulo 2^16. */
  lemma {:induction false} MjdCountsDays(n: nat)
    ensures ValidDate(DaysAfter(EPOCH, n))
    ensures Count(DaysAfter(EPOCH, n)) == n && Mjd(DaysAfter(EPOCH, n)) == n % 0x1_0000
  {
    if n > 0 {
      MjdCountsDays(n - 1);
      NextDayCountsOne(DaysAfter(EPOCH, n - 1));
    }
  }

  predicate Earlier(d: Date, e: Date) {
    d.year < e.year || (d.year == e.year && (d.month < e.month || (d.month == e.month && d.day < e.day)))
  }

  /** First days of months are at least as far apart as the months in between are long. */
  lemma {:induction false} MonthsInOrder(y: int, m: int, y': int, m': int)
    requires y >= 1583 && 1 <= m <= 12 && 1 <= m' <= 12 && (y < y' || (y == y' && m < m'))
    ensures DayCount(y, m, DaysIn(y, m)) < DayCount(y', m', 1)
    decreases 12 * y' + m'
  {
    var (py, pm) := if m' == 1 then (y' - 1, 12) else (y', m' - 1);
    MonthStep(py, pm);
    if (py, pm) != (y, m) {
      MonthsInOrder(y, m, py, pm);
      assert DaysIn(py, pm) >= 1;
    }
  }

  lemma EarlierCountsLess(d: Date, e: Date)
    requires ValidDate(d) && ValidDate(e) && Earlier(d, e)
    ensures Count(d) < Count(e)
  {
    DaysAdd(d.year, d.month, d.day, DaysIn(d.year, d.month) - d.day);
    DaysAdd(e.year, e.month, 1, e.day - 1);
    DaysAdd(d.year, d.month, d.day, e.day - d.day);
    if d.year != e.year || d.month != e.month {
      MonthsInOrder(d.year, d.month, e.year, e.month);
    }
  }

  predicate InRange(d: Date) {
    ValidDate(d) && !Earlier(d, EPOCH) && !Earlier(Date(2038, 4, 22), d)
  }

  lemma InRangeFits(d: Date)
    requires InRange(d)
    ensures Mjd(d) == Count(d)
  {
    var last := Date(2038, 4, 22);
    assert Count(EPOCH) == 0 && Count(last) == 0xFFFF;
    if d != EPOCH { EarlierCountsLess(EPOCH, d); }
    if d != last { EarlierCountsLess(d, last); }
    CastFits(Count(d));
  }

  lemma CastFits(c: int)
    requires 0 <= c < 0x1_0000
    ensures c % 0x1_0000 == c
  {
  }

  /** From 1858-11-17 to 2038-04-22, and not a day longer, the 16-bit value orders dates as the
    * calendar does. */
  lemma MjdOrdersDates(d: Date, e: Date)
    requires InRange(d) && InRange(e)
    ensures Mjd(d) < Mjd(e) <==> Earlier(d, e)
    ensures Mjd(Date(2038, 4, 22)) == 0xFFFF && Mjd(Date(2038, 4, 23)) == 0
  {
    InRangeFits(d);
    InRangeFits(e);
    if Earlier(d, e) {
      EarlierCountsLess(d, e);
    } else if d != e {
      EarlierCountsLess(e, d);
    }
  }

  // ----- times of day and durations -----

  function Bcd(v: nat): Byte
    requires v < 100
  {
    v / 10 * 16 + v % 10
  }

  function FromBcd(b: Byte): nat {
    b / 16 * 10 + b % 16
  }

  datatype Time = Time(hour: nat, minute: nat, second: nat)

  /** The parts of the clock time `chrono` hands over. */
  predicate ValidTime(t: Time) {
    t.hour < 24 && t.minute < 60 && t.second < 60
  }

  function EncodeDvbTime(d: Date, t: Time): (s: seq<Byte>)
    requires ValidTime(t)
    ensures |s| == 5
  {
    [High(Mjd(d)), Low(Mjd(d)), Bcd(t.hour), Bcd(t.minute), Bcd(t.second)]
  }

  function EncodeDuration(seconds: nat): (s: seq<Byte>)
    ensures |s| == 3
  {
    [Bcd(Min(seconds / 3600, 99)), Bcd(seconds % 3600 / 60), Bcd(seconds % 60)]
  }

  function DecodeDuration(s: seq<Byte>): nat
    requires |s| == 3
  {
    FromBcd(s[0]) * 3600 + FromBcd(s[1]) * 60 + FromBcd(s[2])
  }

  lemma BcdBack(v: nat)
    requires v < 100
    ensures FromBcd(Bcd(v)) == v
  {
  }

  lemma SecondsLeft(h: nat, r: nat)
    ensures (3600 * h + r) % 60 == r % 60
  {
  }

  /** A duration is read back exactly if it is below 100 hours. */
  lemma DurationRoundTripIff(seconds: nat)
    ensures DecodeDuration(EncodeDuration(seconds)) == seconds <==> seconds < 360000
  {
    var h, r := seconds / 3600, seconds % 3600;
    BcdBack(Min(h, 99));
    BcdBack(r / 60);
    BcdBack(seconds % 60);
    SecondsLeft(h, r);
    assert seconds == 3600 * h + r;
    assert r == 60 * (r / 60) + r % 60;
  }
}
