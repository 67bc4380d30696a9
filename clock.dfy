/** Clock values the handlers receive instead of reading the system clock, and the
    `strftime`/`isoformat` renderings they use: `%H:%M`, `YYYY-MM-DD` and `%d.%m.%Y`. */
module Clock {
  import opened Strings

  /** A wall-clock time of day (seconds play no part in any handler). */
  datatype Time = Time(hour: int, minute: int)

  predicate ValidTime(t: Time) {
    0 <= t.hour < 24 && 0 <= t.minute < 60
  }

  const MinutesPerDay := 1440

  function MinuteOfDay(t: Time): int {
    t.hour * 60 + t.minute
  }

  /** `t + timedelta(minutes=k)`, of which only the time of day is kept. */
  function AddMinutes(t: Time, k: int): (r: Time)
    ensures ValidTime(r)
    ensures MinuteOfDay(r) == (MinuteOfDay(t) + k) % MinutesPerDay
  {
    var m := (MinuteOfDay(t) + k) % MinutesPerDay;
    Time(m / 60, m % 60)
  }

  /** The minute of the day tells valid times apart. */
  lemma MinuteOfDayInjective(a: Time, b: Time)
    requires ValidTime(a) && ValidTime(b) && MinuteOfDay(a) == MinuteOfDay(b)
    ensures a == b
  {
    assert a.hour * 60 <= MinuteOfDay(a) < a.hour * 60 + 60;
    assert b.hour * 60 <= MinuteOfDay(b) < b.hour * 60 + 60;
  }

  /** Going `i` minutes forward from minute `x` and back again leaves `i`, for `i` under a day. */
  lemma MinutesBetween(x: int, i: int, n: int)
    requires 0 <= i < MinutesPerDay && n == (x + i) % MinutesPerDay
    ensures (n - x) % MinutesPerDay == i
  {
    var q := (x + i) / MinutesPerDay;
    assert (x + i) % MinutesPerDay - x == i - q * MinutesPerDay;
    ModOfShift(i, -q);
  }

  /** Going forward from `x` by the distance from `x` to minute `n` reaches `n`. */
  lemma MinutesReach(x: int, n: int)
    requires 0 <= n < MinutesPerDay
    ensures (x + (n - x) % MinutesPerDay) % MinutesPerDay == n
  {
    var q := (n - x) / MinutesPerDay;
    assert x + (n - x) % MinutesPerDay == n - q * MinutesPerDay;
    ModOfShift(n, -q);
  }

  /** Two minutes of the same day at distance zero are the same minute. */
  lemma DistanceZero(x: int, n: int)
    requires 0 <= x < MinutesPerDay && 0 <= n < MinutesPerDay && (n - x) % MinutesPerDay == 0
    ensures n == x
  {
    var q := (n - x) / MinutesPerDay;
    assert n - x == q * MinutesPerDay;
    assert -MinutesPerDay < n - x < MinutesPerDay;
  }

  /** Whole days do not change the minute. */
  lemma ModOfShift(r: int, q: int)
    requires 0 <= r < MinutesPerDay
    ensures (r + q * MinutesPerDay) % MinutesPerDay == r
  {
    var p := (r + q * MinutesPerDay) / MinutesPerDay;
    var m := (r + q * MinutesPerDay) % MinutesPerDay;
    assert m - r == (q - p) * MinutesPerDay;
    assert -MinutesPerDay < m - r < MinutesPerDay;
  }

  /** A zero-padded two-digit number. */
  function Pad2(n: int): (r: string)
    requires 0 <= n < 100
    ensures |r| == 2 && AllDigits(r)
  {
    [DigitChar(n / 10), DigitChar(n % 10)]
  }

  /** A zero-padded four-digit number. */
  function Pad4(n: int): (r: string)
    requires 0 <= n < 10000
    ensures |r| == 4 && AllDigits(r)
  {
    Pad2(n / 100) + Pad2(n % 100)
  }

  lemma Pad2Injective(a: int, b: int)
    requires 0 <= a < 100 && 0 <= b < 100
    requires Pad2(a) == Pad2(b)
    ensures a == b
  {
    assert DigitChar(a / 10) == Pad2(a)[0] && DigitChar(a % 10) == Pad2(a)[1];
    assert DigitChar(b / 10) == Pad2(b)[0] && DigitChar(b % 10) == Pad2(b)[1];
  }

  lemma Pad4Injective(a: int, b: int)
    requires 0 <= a < 10000 && 0 <= b < 10000
    requires Pad4(a) == Pad4(b)
    ensures a == b
  {
    assert Pad4(a)[..2] == Pad2(a / 100) && Pad4(a)[2..] == Pad2(a % 100);
    assert Pad4(b)[..2] == Pad2(b / 100) && Pad4(b)[2..] == Pad2(b % 100);
    Pad2Injective(a / 100, b / 100);
    Pad2Injective(a % 100, b % 100);
  }

  /** `strftime("%H:%M")`. */
  function HHMM(t: Time): (r: string)
    requires ValidTime(t)
    ensures |r| == 5 && r[2] == ':'
  {
    Pad2(t.hour) + ":" + Pad2(t.minute)
  }

  lemma HHMMInjective(a: Time, b: Time)
    requires ValidTime(a) && ValidTime(b)
    requires HHMM(a) == HHMM(b)
    ensures a == b
  {
    assert HHMM(a)[..2] == Pad2(a.hour) && HHMM(a)[3..] == Pad2(a.minute);
    assert HHMM(b)[..2] == Pad2(b.hour) && HHMM(b)[3..] == Pad2(b.minute);
    Pad2Injective(a.hour, b.hour);
    Pad2Injective(a.minute, b.minute);
  }

  /** A calendar date. The check on the day ignores month lengths; four-digit years
      keep `%Y` a fixed-width field. */
  datatype Date = Date(year: int, month: int, day: int)

  predicate ValidDate(d: Date) {
    1000 <= d.year <= 9999 && 1 <= d.month <= 12 && 1 <= d.day <= 31
  }

  /** `date.isoformat()`: `YYYY-MM-DD`. */
  function IsoDate(d: Date): (r: string)
    requires ValidDate(d)
    ensures |r| == 10 && r[4] == '-' && r[7] == '-'
    ensures AllDigits(r[..4]) && AllDigits(r[5..7]) && AllDigits(r[8..])
  {
    Pad4(d.year) + "-" + Pad2(d.month) + "-" + Pad2(d.day)
  }

  /** Two dates have the same ISO text only when they are the same date, so comparing
      the stored text with today's text compares the dates. */
  lemma IsoDateInjective(a: Date, b: Date)
    requires ValidDate(a) && ValidDate(b)
    requires IsoDate(a) == IsoDate(b)
    ensures a == b
  {
    var x, y := IsoDate(a), IsoDate(b);
    assert x[..4] == Pad4(a.year) && x[5..7] == Pad2(a.month) && x[8..] == Pad2(a.day);
    assert y[..4] == Pad4(b.year) && y[5..7] == Pad2(b.month) && y[8..] == Pad2(b.day);
    Pad4Injective(a.year, b.year);
    Pad2Injective(a.month, b.month);
    Pad2Injective(a.day, b.day);
  }

  /** `strftime("%d.%m.%Y")`. */
  function DottedDate(d: Date): (r: string)
    requires ValidDate(d)
    ensures |r| == 10 && r[2] == '.' && r[5] == '.'
  {
    Pad2(d.day) + "." + Pad2(d.month) + "." + Pad4(d.year)
  }
}
