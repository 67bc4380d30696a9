/** The older lunar-day command of handlers/lunar_day.py: the `<day>:<text>` descriptions
    file loaded once (loading stops at the first line it cannot read), the lunar day counted
    from the last new moon, the end of that day, and the reply. The time of the last new
    moon and the rendering of a date-time are oracles. */
module LunarLegacy {
  import opened Optional
  import opened Strings
  import opened Dicts

  const NotFound := "Описание не найдено."

  // ---------------------------------------------------------------- the descriptions file

  /** What one line does to the loading: `Some` adds the entry; `None` is a line whose
      unpacking or `int()` raises, which ends the loading (a blank line is one). The value
      is trimmed and its backslash-n escapes become newlines. */
  function LineEntry(line: string): (e: Option<(int, string)>)
    ensures e.None? <==> !Has(Strip(line), ':') || ParseInt(Before(Strip(line), ':')).None?
    ensures Strip(line) == "" ==> e.None?
  {
    var t := Strip(line);
    if !Has(t, ':') then None
    else
      match ParseInt(Before(t, ':'))
      case None => None
      case Some(k) => Some((k, Unescape(Strip(After(t, ':')))))
  }

  function LineEntries(lines: seq<string>): (es: seq<Option<(int, string)>>)
    ensures |es| == |lines| && forall i :: 0 <= i < |lines| ==> es[i] == LineEntry(lines[i])
  {
    seq(|lines|, i requires 0 <= i < |lines| => LineEntry(lines[i]))
  }

  /** The position of the first line that raises, or the number of lines when none does. */
  function FirstFailure(es: seq<Option<(int, string)>>): (n: nat)
    ensures n <= |es|
    ensures forall i :: 0 <= i < n ==> es[i].Some?
    ensures n < |es| ==> es[n].None?
  {
    FailureFrom(es, 0)
  }

  /** The first failure at or after position `from`. */
  function FailureFrom(es: seq<Option<(int, string)>>, from: nat): (n: nat)
    requires from <= |es|
    ensures from <= n <= |es|
    ensures forall i :: from <= i < n ==> es[i].Some?
    ensures n < |es| ==> es[n].None?
    decreases |es| - from
  {
    if from == |es| || es[from].None? then from else FailureFrom(es, from + 1)
  }

  /** The dictionary `load_lunar_descriptions` returns: the entries of the lines before the
      first failing one, a later day overwriting an earlier one; nothing for a missing
      file. */
  function Loaded(file: Option<seq<string>>): map<int, string> {
    if file.None? then map[] else LoadedEntries(LineEntries(file.value))
  }

  function LoadedEntries(es: seq<Option<(int, string)>>): map<int, string> {
    Assign(es[..FirstFailure(es)])
  }

  /** `load_lunar_descriptions`: the exception ends the loop and keeps what was read. */
  method LoadLunarDescriptions(file: Option<seq<string>>) returns (descriptions: map<int, string>)
    ensures descriptions == Loaded(file)
  {
    descriptions := map[];
    if file.None? {
      return;
    }
    var lines := file.value;
    ghost var es := LineEntries(lines);
    var i := 0;
    while i < |lines|
      invariant 0 <= i <= |lines|
      invariant i <= FirstFailure(es)
      invariant descriptions == Assign(es[..i])
    {
      AssignStep(es, i);
      var e := LineEntry(lines[i]);
      assert e == es[i];
      if e.None? {
        assert FirstFailure(es) == i;
        return;
      }
      descriptions := descriptions[e.value.0 := e.value.1];
      i := i + 1;
    }
    assert es[..FirstFailure(es)] == es[..i];
  }

  /** The first failure is the position before which every entry reads and at which one
      does not. */
  lemma FirstFailureAt(es: seq<Option<(int, string)>>, n: nat)
    requires n <= |es| && forall j :: 0 <= j < n ==> es[j].Some?
    requires n < |es| ==> es[n].None?
    ensures FirstFailure(es) == n
  {
  }

  /** Entries after a failing one make no difference to the loaded dictionary. */
  lemma StopAtFailure(es: seq<Option<(int, string)>>, rest: seq<Option<(int, string)>>)
    ensures var all := es + [None] + rest;
            all[..FirstFailure(all)] == es[..FirstFailure(es)]
  {
    var all := es + [None] + rest;
    var n := FirstFailure(es);
    assert forall j :: 0 <= j < |es| ==> all[j] == es[j];
    assert all[|es|] == None;
    FirstFailureAt(all, n);
    assert all[..n] == es[..n];
  }

  lemma LineEntriesAppend(x: seq<string>, y: seq<string>)
    ensures LineEntries(x + y) == LineEntries(x) + LineEntries(y)
  {
  }

  /** A line that cannot be read ends the loading: nothing after it is ever loaded. */
  lemma NothingAfterFailure(lines: seq<string>, bad: string, rest: seq<string>)
    requires LineEntry(bad).None?
    ensures Loaded(Some(lines + [bad] + rest)) == Loaded(Some(lines))
  {
    var es, eb, er := LineEntries(lines), LineEntries([bad]), LineEntries(rest);
    LineEntriesAppend(lines + [bad], rest);
    LineEntriesAppend(lines, [bad]);
    assert eb == [None];
    StopAtFailure(es, er);
  }

  /** A blank line, or one of spaces only, cannot be read and so ends the loading. */
  lemma BlankLineFails(line: string)
    requires forall i :: 0 <= i < |line| ==> IsSpace(line[i])
    ensures LineEntry(line).None?
  {
    StripBlank(line);
  }

  /** The fields of a `<key>:<text>` line whose key is unpadded and holds no `:`. */
  lemma LineFields(key: string, text: string)
    requires key != [] && !IsSpace(key[0]) && !IsSpace(key[|key| - 1]) && !Has(key, ':')
    requires text != [] ==> !IsSpace(text[0]) && !IsSpace(text[|text| - 1])
    ensures var line := key + ":" + text;
            Strip(line) == line && Has(line, ':') && Before(line, ':') == key && After(line, ':') == text
            && Strip(text) == text
  {
    var line := key + ":" + text;
    assert line[0] == key[0];
    assert line[|line| - 1] == if text == [] then ':' else text[|text| - 1];
    StripUnpadded(line);
    BeforeOfPrefix(key, ':', text);
    StripUnpadded(text);
  }

  /** A line written as `<day>:<text>`, the text escaped and without surrounding blanks,
      reads back as that day and text, newlines included. */
  lemma LineRoundTrip(day: int, text: string)
    requires !Has(text, '\\')
    requires text != [] ==> !IsSpace(text[0]) && !IsSpace(text[|text| - 1])
    ensures LineEntry(IntToString(day) + ":" + Escape(text)) == Some((day, text))
  {
    var d, e := IntToString(day), Escape(text);
    assert e != [] ==> !IsSpace(e[0]) && !IsSpace(e[|e| - 1]);
    IntToStringHasNo(day, ':');
    LineFields(d, e);
    ParseIntToString(day);
    UnescapeEscape(text);
  }

  // ---------------------------------------------------------------- the day and its end

  const SecondsPerDay := 86400

  /** `timedelta.days` of the time from the last new moon to now, both in seconds: the
      floor of the difference in days. */
  function DaysSince(lastNewMoon: int, now: int): (d: int)
    ensures d * SecondsPerDay <= now - lastNewMoon < (d + 1) * SecondsPerDay
  {
    var q, r := (now - lastNewMoon) / SecondsPerDay, (now - lastNewMoon) % SecondsPerDay;
    assert now - lastNewMoon == q * SecondsPerDay + r && 0 <= r < SecondsPerDay;
    q
  }

  /** `(delta_days % 29) + 1`, with Python's modulo. */
  function LunarDayOf(deltaDays: int): (day: int)
    ensures 1 <= day <= 29
  {
    (deltaDays % 29) + 1
  }

  /** The count restarts every 29 days and is one more than the days elapsed within the
      first 29. */
  lemma LunarDayCycle(deltaDays: int)
    ensures LunarDayOf(deltaDays + 29) == LunarDayOf(deltaDays)
    ensures 0 <= deltaDays < 29 ==> LunarDayOf(deltaDays) == deltaDays + 1
  {
  }

  /** `last_new_moon + timedelta(days=delta_days + 1)`. */
  function EndOfLunarDay(lastNewMoon: int, deltaDays: int): (end: int)
    ensures (end - lastNewMoon) % SecondsPerDay == 0 && (end - lastNewMoon) / SecondsPerDay == deltaDays + 1
  {
    lastNewMoon + (deltaDays + 1) * SecondsPerDay
  }

  /** Now lies in the day-long interval that the end closes: the end is always later
      than now and at most one day later. */
  lemma {:induction false} EndBracketsNow(lastNewMoon: int, now: int)
    ensures var end := EndOfLunarDay(lastNewMoon, DaysSince(lastNewMoon, now));
            end - SecondsPerDay <= now < end
  {
    var q, r := (now - lastNewMoon) / SecondsPerDay, (now - lastNewMoon) % SecondsPerDay;
    assert now - lastNewMoon == q * SecondsPerDay + r && 0 <= r < SecondsPerDay;
    assert EndOfLunarDay(lastNewMoon, q) == lastNewMoon + q * SecondsPerDay + SecondsPerDay;
  }

  // ---------------------------------------------------------------- the reply

  /** `lunar_descriptions.get(lunar_day, ...)`. */
  function Description(descriptions: map<int, string>, day: int): (r: string)
    ensures day in descriptions ==> r == descriptions[day]
    ensures day !in descriptions ==> r == NotFound
  {
    if day in descriptions then descriptions[day] else NotFound
  }

  const ReplyHead := "Сейчас продолжается "

  /** The reply text; `end` is the end of the day already rendered. */
  function Reply(day: int, description: string, end: string): string {
    var d := IntToString(day);
    BeforeDescription(d) + (description + (BeforeEnd(d) + end))
  }

  const DayWords := "лунный день. \n\n"
  const EndWords := " \n\nВремя окончания "
  const EndOrdinal := "-го лунного дня: "

  /** The text before the description: the opening, the day's number, a space and the
      fixed words. */
  function BeforeDescription(d: string): string {
    ReplyHead + (d + (" " + DayWords))
  }

  /** The text between the description and the end of the day. */
  function BeforeEnd(d: string): string {
    EndWords + (d + EndOrdinal)
  }

  /** Where the description starts in the reply for `day`: after the opening, the day's
      number, a space and the fixed words. */
  function DescriptionAt(day: int): nat {
    |ReplyHead| + |IntToString(day)| + 1 + |DayWords|
  }

  /** `lunar_day_command`: the day and its end from the time of the last new moon before
      now (an oracle), the end rendered by `render` (an oracle for `strftime`). */
  function LunarDayCommand(descriptions: map<int, string>, lastNewMoon: int, now: int, render: int -> string)
    : (r: string)
    ensures var day := LunarDayOf(DaysSince(lastNewMoon, now));
            var description := Description(descriptions, day);
            var end := render(EndOfLunarDay(lastNewMoon, DaysSince(lastNewMoon, now)));
            StartsWith(r, ReplyHead)
            && ParseInt(Before(r[|ReplyHead|..], ' ')) == Some(day)
            && DescriptionAt(day) + |description| <= |r|
            && r[DescriptionAt(day)..DescriptionAt(day) + |description|] == description
            && |end| <= |r| && r[|r| - |end|..] == end
  {
    var delta := DaysSince(lastNewMoon, now);
    var day := LunarDayOf(delta);
    var end := render(EndOfLunarDay(lastNewMoon, delta));
    ReplyNamesDay(day, Description(descriptions, day), end);
    Reply(day, Description(descriptions, day), end)
  }

  /** The reply can be read back: after the fixed opening, the text up to the first space
      is the day's number; the description follows the fixed words after it; and the
      reply ends with the rendered end of the day. */
  lemma ReplyNamesDay(day: int, description: string, end: string)
    ensures var r := Reply(day, description, end);
            StartsWith(r, ReplyHead) && ParseInt(Before(r[|ReplyHead|..], ' ')) == Some(day)
            && DescriptionAt(day) + |description| <= |r|
            && r[DescriptionAt(day)..DescriptionAt(day) + |description|] == description
            && |end| <= |r| && r[|r| - |end|..] == end
  {
    ReplyDayReadsBack(day, description, end);
    ReplyPieces(day, description, end);
  }

  lemma ReplyDayReadsBack(day: int, description: string, end: string)
    ensures var r := Reply(day, description, end);
            StartsWith(r, ReplyHead) && ParseInt(Before(r[|ReplyHead|..], ' ')) == Some(day)
  {
    var d := IntToString(day);
    var tail := DayWords + (description + (BeforeEnd(d) + end));
    var r := Reply(day, description, end);
    assert r[|ReplyHead|..] == d + " " + tail;
    NumberBeforeSpace(day, tail);
  }

  lemma ReplyPieces(day: int, description: string, end: string)
    ensures var r := Reply(day, description, end);
            DescriptionAt(day) + |description| <= |r|
            && r[DescriptionAt(day)..DescriptionAt(day) + |description|] == description
            && |end| <= |r| && r[|r| - |end|..] == end
  {
    var d := IntToString(day);
    var pre, post := BeforeDescription(d), BeforeEnd(d);
    var r := Reply(day, description, end);
    PiecesReadBack(pre, description, post + end);
    LastPiece(pre + (description + post), end);
    assert r == (pre + (description + post)) + end;
  }

  /** The last piece of a concatenation is its suffix. */
  lemma LastPiece(a: string, b: string)
    ensures (a + b)[|a + b| - |b|..] == b
  {
  }

  /** The middle and the last piece of a concatenation are found at their offsets. */
  lemma PiecesReadBack(a: string, b: string, c: string)
    ensures (a + (b + c))[|a|..|a| + |b|] == b
  {
    assert (a + (b + c))[|a|..] == b + c;
    assert (b + c)[..|b|] == b;
  }

  /** A number followed by a space and any text reads back as the number. */
  lemma NumberBeforeSpace(n: int, tail: string)
    ensures ParseInt(Before(IntToString(n) + " " + tail, ' ')) == Some(n)
  {
    IntToStringHasNo(n, ' ');
    BeforeOfPrefix(IntToString(n), ' ', tail);
    ParseIntToString(n);
  }
}
