/** The "angel time" handler of modules/angel_time/handler.py: strict `HH:MM` text, the
    meanings file, the closeness test with its one-minute grace period that wraps at
    midnight, and the branching of the reply. */
module AngelTime {
  import opened Optional
  import opened Strings
  import opened Clock
  import opened Actions
  import opened Dicts

  // ---------------------------------------------------------------- strict HH:MM

  /** `_TIME_RE`: two digits 00-23, a colon, two digits 00-59. */
  predicate IsStrictTime(s: string) {
    |s| == 5 && s[2] == ':'
    && (((s[0] == '0' || s[0] == '1') && IsDigit(s[1])) || (s[0] == '2' && '0' <= s[1] <= '3'))
    && '0' <= s[3] <= '5' && IsDigit(s[4])
  }

  /** The time a strict `HH:MM` text names. */
  function TimeOf(s: string): (t: Time)
    requires IsStrictTime(s)
    ensures ValidTime(t)
  {
    Time(10 * DigitValue(s[0]) + DigitValue(s[1]), 10 * DigitValue(s[3]) + DigitValue(s[4]))
  }

  lemma Pad2Digits(a: nat, b: nat)
    requires a < 10 && b < 10
    ensures Pad2(10 * a + b) == [DigitChar(a), DigitChar(b)]
  {
    assert (10 * a + b) / 10 == a && (10 * a + b) % 10 == b;
  }

  lemma DigitRoundTrip(c: char)
    requires IsDigit(c)
    ensures DigitValue(c) < 10 && DigitChar(DigitValue(c)) == c
  {
  }

  /** The strict texts are exactly the `%H:%M` renderings of valid times. */
  lemma StrictTimeIsHHMM(s: string)
    requires IsStrictTime(s)
    ensures HHMM(TimeOf(s)) == s
  {
    DigitRoundTrip(s[0]);
    DigitRoundTrip(s[1]);
    DigitRoundTrip(s[3]);
    DigitRoundTrip(s[4]);
    Pad2Digits(DigitValue(s[0]), DigitValue(s[1]));
    Pad2Digits(DigitValue(s[3]), DigitValue(s[4]));
  }

  lemma HHMMIsStrict(t: Time)
    requires ValidTime(t)
    ensures IsStrictTime(HHMM(t)) && TimeOf(HHMM(t)) == t
  {
    var s := HHMM(t);
    assert s[0] == DigitChar(t.hour / 10) && s[1] == DigitChar(t.hour % 10);
    assert s[3] == DigitChar(t.minute / 10) && s[4] == DigitChar(t.minute % 10);
  }

  /** `re.match(r"^\d{1,2}[.\-:]\d{1,2}$", t)`: one or two digits, a separator, one or two
      digits. */
  predicate LooksLikeTime(s: string) {
    exists p | 1 <= p <= 2 :: SeparatorAt(s, p)
  }

  predicate SeparatorAt(s: string, p: int) {
    1 <= p < |s| && AllDigits(s[..p]) && s[p] in {'.', '-', ':'} && 1 <= |s| - p - 1 <= 2 && AllDigits(s[p + 1..])
  }

  /** Every strict time looks like a time, so the format error never answers one. */
  lemma StrictLooksLikeTime(s: string)
    requires IsStrictTime(s)
    ensures LooksLikeTime(s)
  {
    assert SeparatorAt(s, 2);
  }

  // ---------------------------------------------------------------- the meanings file

  /** The entry one line contributes: the trimmed line, not a comment, holding `|`, with a
      strict time before it and non-empty text after it (both trimmed). */
  function MeaningLine(line: string): (r: Option<(string, string)>)
    ensures r.Some? ==> IsStrictTime(r.value.0) && r.value.1 != ""
  {
    var t := Strip(line);
    if t == "" || StartsWith(t, "#") || !Has(t, '|') then None
    else
      var k := Strip(Before(t, '|'));
      var v := Strip(After(t, '|'));
      if IsStrictTime(k) && v != "" then Some((k, v)) else None
  }

  function Entries(lines: seq<string>): (es: seq<Option<(string, string)>>)
    ensures |es| == |lines| && forall i :: 0 <= i < |lines| ==> es[i] == MeaningLine(lines[i])
  {
    seq(|lines|, i requires 0 <= i < |lines| => MeaningLine(lines[i]))
  }

  /** `_load_meanings`: a missing file gives the empty map. */
  method LoadMeanings(file: Option<seq<string>>) returns (meanings: map<string, string>)
    ensures meanings == if file.None? then map[] else Assign(Entries(file.value))
  {
    meanings := map[];
    if file.None? {
      return;
    }
    var lines := file.value;
    ghost var es := Entries(lines);
    var i := 0;
    while i < |lines|
      invariant 0 <= i <= |lines|
      invariant meanings == Assign(es[..i])
    {
      AssignStep(es, i);
      var e := MeaningLine(lines[i]);
      assert e == es[i];
      if e.Some? {
        meanings := meanings[e.value.0 := e.value.1];
      }
      i := i + 1;
    }
    assert es[..|lines|] == es;
  }

  /** Every key of the loaded map is a strict time and every value non-empty. */
  lemma LoadedMeaningsWellFormed(lines: seq<string>)
    ensures forall k :: k in Assign(Entries(lines)) ==> IsStrictTime(k) && Assign(Entries(lines))[k] != ""
  {
    AssignSpec(Entries(lines));
  }

  // ---------------------------------------------------------------- closeness

  /** `user_time.split(":")` into two parts, each `int()`, and `now.replace(hour, minute)`,
      which rejects an hour or minute out of range. */
  function ParseHM(s: string): Option<Time> {
    var parts := Split(s, ':');
    if |parts| != 2 then None
    else
      match (ParseInt(parts[0]), ParseInt(parts[1]))
      case (Some(h), Some(m)) => if ValidTime(Time(h, m)) then Some(Time(h, m)) else None
      case _ => None
  }

  /** `now` shows `base`, or `base` plus one of the minutes `1..tol`, on the clock. The
      exact time is accepted whatever `tol` is, even a negative one, since it is tested
      before the `range(1, tol + 1)` loop. The source compares the `%H:%M` renderings; by
      `HHMMInjective` (and `HHMM` being a function) that is comparing the times. */
  predicate Within(base: Time, now: Time, tol: int) {
    now == base || exists i | 1 <= i <= tol :: now == AddMinutes(base, i)
  }

  /** `_is_time_close`: false, not an exception, when the text does not parse. */
  predicate TimeClose(userTime: string, now: Time, tol: int) {
    ParseHM(userTime).Some? && Within(ParseHM(userTime).value, now, tol)
  }

  method IsTimeClose(userTime: string, now: Time, tol: int) returns (close: bool)
    ensures close == TimeClose(userTime, now, tol)
  {
    var parsed := ParseHM(userTime);
    if parsed.None? {
      return false;
    }
    close := IsWithin(parsed.value, now, tol);
  }

  /** The comparisons `_is_time_close` makes once the text has parsed: the time itself,
      then each minute `1..tol` of the grace period. */
  method IsWithin(base: Time, now: Time, tol: int) returns (close: bool)
    ensures close == Within(base, now, tol)
  {
    if now == base {
      return true;
    }
    var i := 1;
    while i <= tol
      invariant 1 <= i && (tol >= 1 ==> i <= tol + 1)
      invariant forall j :: 1 <= j < i ==> now != AddMinutes(base, j)
    {
      var shifted := AddMinutes(base, i);
      if now == shifted {
        return true;
      }
      i := i + 1;
    }
    return false;
  }

  /** Closeness is arithmetic on the clock face: `now` is at most `tol` minutes after `base`,
      counting across midnight. */
  lemma WithinIsMinutesAfter(base: Time, now: Time, tol: int)
    requires ValidTime(base) && ValidTime(now) && 0 <= tol < MinutesPerDay
    ensures Within(base, now, tol) <==> (MinuteOfDay(now) - MinuteOfDay(base)) % MinutesPerDay <= tol
  {
    if Within(base, now, tol) {
      WithinIsAfter(base, now, tol);
    }
    if (MinuteOfDay(now) - MinuteOfDay(base)) % MinutesPerDay <= tol {
      AfterIsWithin(base, now, tol);
    }
  }

  lemma WithinIsAfter(base: Time, now: Time, tol: int)
    requires ValidTime(base) && ValidTime(now) && 0 <= tol < MinutesPerDay && Within(base, now, tol)
    ensures (MinuteOfDay(now) - MinuteOfDay(base)) % MinutesPerDay <= tol
  {
    var x, n := MinuteOfDay(base), MinuteOfDay(now);
    if now == base {
      assert (n - x) % MinutesPerDay == 0;
    } else {
      var i :| 1 <= i <= tol && now == AddMinutes(base, i);
      assert n == (x + i) % MinutesPerDay;
      MinutesBetween(x, i, n);
    }
  }

  lemma AfterIsWithin(base: Time, now: Time, tol: int)
    requires ValidTime(base) && ValidTime(now) && 0 <= tol < MinutesPerDay
    requires (MinuteOfDay(now) - MinuteOfDay(base)) % MinutesPerDay <= tol
    ensures Within(base, now, tol)
  {
    var d := (MinuteOfDay(now) - MinuteOfDay(base)) % MinutesPerDay;
    if d == 0 {
      DistanceZero(MinuteOfDay(base), MinuteOfDay(now));
      MinuteOfDayInjective(base, now);
    } else {
      ForwardByDistance(base, now);
      assert 1 <= d <= tol && now == AddMinutes(base, d);
    }
  }

  /** Going forward from `base` by its clock-face distance to `now` reaches `now`. */
  lemma ForwardByDistance(base: Time, now: Time)
    requires ValidTime(base) && ValidTime(now)
    ensures now == AddMinutes(base, (MinuteOfDay(now) - MinuteOfDay(base)) % MinutesPerDay)
  {
    var x, n := MinuteOfDay(base), MinuteOfDay(now);
    var d := (n - x) % MinutesPerDay;
    var t := AddMinutes(base, d);
    assert MinuteOfDay(t) == (x + d) % MinutesPerDay;
    MinutesReach(x, n);
    assert MinuteOfDay(t) == n;
    MinuteOfDayInjective(t, now);
  }

  /** With no grace period, or a negative one, only the exact time is accepted: the
      equality test before the loop still runs when `range(1, tol + 1)` is empty. */
  lemma NoGraceExactOnly(s: string, now: Time, tol: int)
    requires tol <= 0
    ensures TimeClose(s, now, tol) <==> ParseHM(s).Some? && now == ParseHM(s).value
  {
  }

  /** 23:59 is still accepted at 00:00. */
  lemma MidnightWraps()
    ensures Within(Time(23, 59), Time(0, 0), 1)
  {
    assert Time(0, 0) == AddMinutes(Time(23, 59), 1);
  }

  /** A strict text splits at its one colon. */
  lemma SplitStrict(s: string)
    requires IsStrictTime(s)
    ensures Split(s, ':') == [s[..2], s[3..]]
  {
    assert IndexOf(s, ':') == 2;
    var b := s[3..];
    assert Before(s, ':') == s[..2] && After(s, ':') == b;
    assert !Has(b, ':');
  }

  /** `int()` of two digits. */
  lemma ParseTwoDigits(a: string, x: char, y: char)
    requires |a| == 2 && a[0] == x && a[1] == y && IsDigit(x) && IsDigit(y)
    ensures ParseInt(a) == Some(10 * DigitValue(x) + DigitValue(y))
  {
    assert AllDigits(a);
    ParseDigits(a);
    TwoDigitsValue(a, x, y);
  }

  lemma TwoDigitsValue(a: string, x: char, y: char)
    requires |a| == 2 && a[0] == x && a[1] == y && IsDigit(x) && IsDigit(y)
    ensures AllDigits(a) && DigitsValue(a) == 10 * DigitValue(x) + DigitValue(y)
  {
    assert a[..1][..0] == [];
    assert DigitsValue(a[..1]) == DigitValue(x);
  }

  /** A strict text parses to the time it shows. */
  lemma StrictParses(s: string)
    requires IsStrictTime(s)
    ensures ParseHM(s) == Some(TimeOf(s))
  {
    SplitStrict(s);
    HourParses(s);
    MinuteParses(s);
    ParseHMOf(s, s[..2], s[3..], TimeOf(s));
  }

  lemma HourParses(s: string)
    requires IsStrictTime(s)
    ensures ParseInt(s[..2]) == Some(TimeOf(s).hour)
  {
    ParseTwoDigits(s[..2], s[0], s[1]);
  }

  lemma MinuteParses(s: string)
    requires IsStrictTime(s)
    ensures ParseInt(s[3..]) == Some(TimeOf(s).minute)
  {
    ParseTwoDigits(s[3..], s[3], s[4]);
  }

  lemma ParseHMOf(s: string, hh: string, mm: string, t: Time)
    requires Split(s, ':') == [hh, mm] && ValidTime(t)
    requires ParseInt(hh) == Some(t.hour) && ParseInt(mm) == Some(t.minute)
    ensures ParseHM(s) == Some(t)
  {
  }

  /** With a grace of one minute, `now` is the time itself or the minute after it. */
  lemma WithinOne(base: Time, now: Time)
    requires ValidTime(base)
    ensures Within(base, now, 1) <==> now == base || now == AddMinutes(base, 1)
  {
    if ValidTime(now) {
      WithinOneValid(base, now);
    }
  }

  lemma WithinOneValid(base: Time, now: Time)
    requires ValidTime(base) && ValidTime(now)
    ensures Within(base, now, 1) <==> now == base || now == AddMinutes(base, 1)
  {
    WithinIsMinutesAfter(base, now, 1);
    OneMinuteApart(base, now);
  }

  lemma OneMinuteApart(base: Time, now: Time)
    requires ValidTime(base) && ValidTime(now)
    ensures (MinuteOfDay(now) - MinuteOfDay(base)) % MinutesPerDay <= 1
            <==> now == base || now == AddMinutes(base, 1)
  {
    if (MinuteOfDay(now) - MinuteOfDay(base)) % MinutesPerDay <= 1 {
      SameOrNextMinute(base, now);
    }
    if now == base || now == AddMinutes(base, 1) {
      AtMostOneMinuteApart(base, now);
    }
  }

  lemma AtMostOneMinuteApart(base: Time, now: Time)
    requires ValidTime(base)
    requires now == base || now == AddMinutes(base, 1)
    ensures (MinuteOfDay(now) - MinuteOfDay(base)) % MinutesPerDay <= 1
  {
    if now != base {
      MinutesBetween(MinuteOfDay(base), 1, MinuteOfDay(now));
    }
  }

  lemma SameOrNextMinute(base: Time, now: Time)
    requires ValidTime(base) && ValidTime(now)
    requires (MinuteOfDay(now) - MinuteOfDay(base)) % MinutesPerDay <= 1
    ensures now == base || now == AddMinutes(base, 1)
  {
    if (MinuteOfDay(now) - MinuteOfDay(base)) % MinutesPerDay == 0 {
      DistanceZero(MinuteOfDay(base), MinuteOfDay(now));
      MinuteOfDayInjective(base, now);
    } else {
      OneMinuteLater(base, now);
    }
  }

  lemma OneMinuteLater(base: Time, now: Time)
    requires ValidTime(base) && ValidTime(now)
    requires (MinuteOfDay(now) - MinuteOfDay(base)) % MinutesPerDay == 1
    ensures now == AddMinutes(base, 1)
  {
    var later := AddMinutes(base, 1);
    MinutesReach(MinuteOfDay(base), MinuteOfDay(now));
    assert MinuteOfDay(later) == MinuteOfDay(now);
    MinuteOfDayInjective(later, now);
  }

  /** For a strict time and a grace of one minute: `now` shows the time itself or the
      minute after it. */
  lemma CloseWithinOneMinute(s: string, now: Time)
    requires IsStrictTime(s) && ValidTime(now)
    ensures TimeClose(s, now, 1) <==> HHMM(now) == s || HHMM(now) == HHMM(AddMinutes(TimeOf(s), 1))
  {
    var t := TimeOf(s);
    StrictParses(s);
    WithinOne(t, now);
    StrictTimeIsHHMM(s);
    if HHMM(now) == HHMM(t) {
      HHMMInjective(now, t);
    }
    if HHMM(now) == HHMM(AddMinutes(t, 1)) {
      HHMMInjective(now, AddMinutes(t, 1));
    }
  }

  // ---------------------------------------------------------------- the reply

  const FormatErrorReplies: seq<string> := [
    "❗ Формат времени неверный. Напиши вот так: 11:11",
    "⛔ Я понимаю только формат HH:MM. Пример: 11:11",
    "⌛ Немного не так. Время нужно писать вот так: 11:11"
  ]

  /** `OTHER_TIME_REPLIES`, each as the text before and after its `{now}` field. */
  const OtherTimeReplies: seq<(string, string)> := [
    ("⏰ Не не не... Сейчас другое время: ", ""),
    ("🕰 Сейчас на часах ", ", Хочешь меня запутать?"),
    ("⌚ Не ври! Сейчас ", ".")
  ]

  const NoMeaningReplies: seq<string> := [
    "🤷 Это время ничего не значит.",
    "😌 Для этого времени нет особого значения.",
    "✨ Иногда время — просто время. Здесь без знаков."
  ]

  const MyStatsTriggers: set<string> := {
    "мое ангельское время", "моё ангельское время", "мои зеркальные цифры", "/my_angel_time"
  }

  const StatsUnavailable := "📊 Статистика пока недоступна (Postgres не подключен)."
  const StatsInitFailed := "📊 Не получилось открыть статистику (ошибка базы)."
  const StatsQueryFailed := "📊 Не получилось получить статистику (ошибка базы)."
  const StatsEmpty := "📊 У тебя пока нет статистики. Поймай время типа 11:11 и напиши его 🙂"
  const StatsHint := "\n\n📊 Хочешь свою статистику? Напиши: Мое ангельское время или введи команду /my_angel_time"

  /** The statistics store as the handler sees it: whether its functions import, whether
      creating the table and logging succeed, and what the query returns (`None` when it
      raises). */
  datatype StatsStore = StatsStore(connected: bool, initOk: bool, logOk: bool,
                                   query: Option<(int, seq<(string, int)>)>)

  /** The lines of the statistics text. */
  function TopLines(top: seq<(string, int)>): (r: seq<string>)
    ensures |r| == |top|
  {
    if |top| == 0 then []
    else ["• " + top[0].0 + " — " + IntToString(top[0].1) + " раз"] + TopLines(top[1..])
  }

  function StatsText(total: int, top: seq<(string, int)>): string {
    Join("\n", ["📊 Твоя статистика (в этом чате): всего попаданий — " + IntToString(total), "", "Топ времени:"]
               + TopLines(top))
  }

  function StatsReply(db: StatsStore): string {
    if !db.connected then StatsUnavailable
    else if !db.initOk then StatsInitFailed
    else if db.query.None? then StatsQueryFailed
    else if db.query.value.0 == 0 then StatsEmpty
    else StatsText(db.query.value.0, db.query.value.1)
  }

  /** The reply and whether a hit was written to the statistics. */
  datatype AngelResult = AngelResult(reply: Option<seq<Action>>, logged: bool)

  /** `get_angel_time_reply`: `now` is the current time in the chat's time zone, `meanings`
      what `_load_meanings` read, `pick` the random choice. */
  function AngelReply(text: string, db: StatsStore, now: Time, meanings: map<string, string>, pick: nat)
    : (r: AngelResult)
    requires ValidTime(now)
    ensures text == "" ==> r == AngelResult(None, false)
    ensures r.reply.Some? ==> |r.reply.value| == 1 && r.reply.value[0].Text?
    ensures r.logged ==> IsStrictTime(Strip(text)) && TimeClose(Strip(text), now, 1) && Strip(text) in meanings
  {
    if text == "" then AngelResult(None, false)
    else
      var t := Strip(text);
      if Strip(Lower(t)) in MyStatsTriggers then AngelResult(Some(Say(StatsReply(db))), false)
      else if LooksLikeTime(t) && !IsStrictTime(t) then
        AngelResult(Some(Say(FormatErrorReplies[pick % |FormatErrorReplies|])), false)
      else if !IsStrictTime(t) then AngelResult(None, false)
      else if !TimeClose(t, now, 1) then
        var (before, after) := OtherTimeReplies[pick % |OtherTimeReplies|];
        AngelResult(Some(Say(before + HHMM(now) + after)), false)
      else if t in meanings then
        AngelResult(Some(Say(meanings[t] + StatsHint)), db.connected && db.initOk && db.logOk)
      else AngelResult(Some(Say(NoMeaningReplies[pick % |NoMeaningReplies|])), false)
  }

  // ---------------------------------------------------------------- the reply: properties

  /** The statistics phrases are all longer than any time-like text. */
  lemma TimeLikeIsShort(t: string)
    requires LooksLikeTime(t)
    ensures |t| <= 5 && Strip(Lower(t)) !in MyStatsTriggers
  {
    assert forall s :: s in MyStatsTriggers ==> |s| > 5;
  }

  /** A statistics phrase gets exactly one text, the statistics reply, and logs nothing. */
  lemma StatsPhraseAnswered(text: string, db: StatsStore, now: Time, meanings: map<string, string>, pick: nat)
    requires ValidTime(now)
    requires Strip(Lower(Strip(text))) in MyStatsTriggers
    ensures AngelReply(text, db, now, meanings, pick) == AngelResult(Some(Say(StatsReply(db))), false)
  {
    assert Strip(Lower(Strip(""))) == "";
  }

  /** Time-like text that is not strict `HH:MM` gets exactly one format-error reply. */
  lemma FormatErrorForLooseTime(text: string, db: StatsStore, now: Time, meanings: map<string, string>, pick: nat)
    requires ValidTime(now)
    requires LooksLikeTime(Strip(text)) && !IsStrictTime(Strip(text))
    ensures var r := AngelReply(text, db, now, meanings, pick);
            r.reply.Some? && |r.reply.value| == 1 && r.reply.value[0].Text?
            && r.reply.value[0].text in FormatErrorReplies && !r.logged
  {
    var t := Strip(text);
    TimeLikeIsShort(t);
    if text == "" {
      StripBlank(text);
      assert false;
    }
    var reply := FormatErrorReplies[pick % |FormatErrorReplies|];
    assert AngelReply(text, db, now, meanings, pick) == AngelResult(Some(Say(reply)), false);
  }

  /** Text that is neither a statistics phrase nor a strict time gets no reply. */
  lemma OtherTextIgnored(text: string, db: StatsStore, now: Time, meanings: map<string, string>, pick: nat)
    requires ValidTime(now)
    requires Strip(Lower(Strip(text))) !in MyStatsTriggers && !LooksLikeTime(Strip(text))
    requires !IsStrictTime(Strip(text))
    ensures AngelReply(text, db, now, meanings, pick) == AngelResult(None, false)
  {
  }

  /** A strict time that is not close to now gets one reply that shows the current time. */
  lemma WrongTimeShowsNow(text: string, db: StatsStore, now: Time, meanings: map<string, string>, pick: nat)
    requires ValidTime(now)
    requires IsStrictTime(Strip(text)) && !TimeClose(Strip(text), now, 1)
    ensures var r := AngelReply(text, db, now, meanings, pick);
            r.reply.Some? && |r.reply.value| == 1 && r.reply.value[0].Text?
            && Contains(r.reply.value[0].text, HHMM(now)) && !r.logged
  {
    var t := Strip(text);
    StrictLooksLikeTime(t);
    TimeLikeIsShort(t);
    var (before, after) := OtherTimeReplies[pick % |OtherTimeReplies|];
    ContainsMiddle(before, HHMM(now), after);
  }

  /** A close time with a meaning gets the meaning and the hint, whatever happens to the
      statistics; the hit is logged only when the store works. */
  lemma MeaningIgnoresStatsFailures(text: string, db1: StatsStore, db2: StatsStore, now: Time,
                                    meanings: map<string, string>, pick: nat)
    requires ValidTime(now)
    requires IsStrictTime(Strip(text)) && TimeClose(Strip(text), now, 1) && Strip(text) in meanings
    ensures var r1 := AngelReply(text, db1, now, meanings, pick);
            var r2 := AngelReply(text, db2, now, meanings, pick);
            r1.reply == r2.reply == Some(Say(meanings[Strip(text)] + StatsHint))
            && (r1.logged <==> db1.connected && db1.initOk && db1.logOk)
  {
    StrictLooksLikeTime(Strip(text));
    TimeLikeIsShort(Strip(text));
  }

  /** A close time without a meaning gets one of the fixed no-meaning replies. */
  lemma NoMeaningReply(text: string, db: StatsStore, now: Time, meanings: map<string, string>, pick: nat)
    requires ValidTime(now)
    requires IsStrictTime(Strip(text)) && TimeClose(Strip(text), now, 1) && Strip(text) !in meanings
    ensures var r := AngelReply(text, db, now, meanings, pick);
            r.reply.Some? && |r.reply.value| == 1 && r.reply.value[0].Text?
            && r.reply.value[0].text in NoMeaningReplies
  {
    StrictLooksLikeTime(Strip(text));
    TimeLikeIsShort(Strip(text));
  }
}
