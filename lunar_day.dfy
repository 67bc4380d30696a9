/** The lunar-day handler of modules/lunar_day/handler.py: exact trigger phrases, the
    `<day>|<text>` files, the `key=value;...` detail lines rendered into six fixed
    sections, and the fallbacks of the reply. The astronomy is an oracle. */
module LunarDay {
  import opened Optional
  import opened Strings
  import opened Actions
  import opened Dicts

  const TriggersMain: set<string> := {"лунный день", "лунные сутки", "луна", "лунник"}

  const TriggersExtra: set<string> :=
    {"лунный день подробно", "лунный день подробнее", "лунные сутки подробно", "лунные сутки подробнее"}

  const NoDetail := "📌 Подробной информации для этого лунного дня пока нет. (Добавь строку в lunar_extra.txt)"

  const NoShort := "Описание для этого дня пока не заполнено."

  const NoInfo := "Пока нет информации."

  // ---------------------------------------------------------------- triggers

  /** What the trimmed, lower-cased text asks for. */
  datatype Request = Ignore | Main | Extra

  function RequestOf(text: string): Request {
    if text == "" then Ignore
    else
      var t := Lower(Strip(text));
      if t in TriggersExtra then Extra else if t in TriggersMain then Main else Ignore
  }

  /** No phrase is both a main and a detail trigger, so the order of the two tests does
      not matter. */
  lemma TriggersDisjoint()
    ensures TriggersMain * TriggersExtra == {}
  {
  }

  /** Only an exact phrase, trimmed and lower-cased, triggers; a detail phrase asks for the
      details and a main phrase for the summary. */
  lemma RequestExact(text: string)
    ensures RequestOf(text) == Extra <==> Lower(Strip(text)) in TriggersExtra
    ensures RequestOf(text) == Main <==> Lower(Strip(text)) in TriggersMain
  {
    TriggersDisjoint();
    if text == "" {
      assert Lower(Strip(text)) == "";
    }
  }

  // ---------------------------------------------------------------- `<day>|<text>` files

  /** The entry one line contributes: a trimmed line that is not empty, not a comment and
      holds `|`, whose text before the first `|` is an integer; the text after it is
      trimmed. */
  function KvEntry(line: string): (e: Option<(int, string)>)
    ensures Strip(line) == "" || StartsWith(Strip(line), "#") || !Has(Strip(line), '|') ==> e.None?
    ensures e.Some? ==> ParseInt(Strip(Before(Strip(line), '|'))) == Some(e.value.0)
  {
    var t := Strip(line);
    if t == "" || StartsWith(t, "#") || !Has(t, '|') then None
    else
      match ParseInt(Strip(Before(t, '|')))
      case None => None
      case Some(k) => Some((k, Strip(After(t, '|'))))
  }

  function KvEntries(lines: seq<string>): (es: seq<Option<(int, string)>>)
    ensures |es| == |lines| && forall i :: 0 <= i < |lines| ==> es[i] == KvEntry(lines[i])
  {
    seq(|lines|, i requires 0 <= i < |lines| => KvEntry(lines[i]))
  }

  function LoadedKv(file: Option<seq<string>>): map<int, string> {
    if file.None? then map[] else Assign(KvEntries(file.value))
  }

  /** `_read_kv_file`: a missing file gives the empty map. */
  method ReadKvFile(file: Option<seq<string>>) returns (out: map<int, string>)
    ensures out == LoadedKv(file)
  {
    out := map[];
    if file.None? {
      return;
    }
    var lines := file.value;
    ghost var es := KvEntries(lines);
    var i := 0;
    while i < |lines|
      invariant 0 <= i <= |lines|
      invariant out == Assign(es[..i])
    {
      AssignStep(es, i);
      var e := KvEntry(lines[i]);
      assert e == es[i];
      if e.Some? {
        out := out[e.value.0 := e.value.1];
      }
      i := i + 1;
    }
    assert es[..|lines|] == es;
  }

  /** A line written as `<day>|<text>`, the text without surrounding whitespace, reads back
      as that day and text. */
  lemma KvLineRoundTrip(day: int, text: string)
    requires text != [] ==> !IsSpace(text[0]) && !IsSpace(text[|text| - 1])
    ensures KvEntry(IntToString(day) + "|" + text) == Some((day, text))
  {
    var d := IntToString(day);
    IntToStringHasNo(day, '|');
    IntToStringHasNo(day, '#');
    KvFields(d, text);
    StripUnpadded(d);
    ParseIntToString(day);
  }

  /** The fields of a `<key>|<text>` line whose key is unpadded, holds no `|` and does not
      start with `#`. */
  lemma KvFields(key: string, text: string)
    requires key != [] && !IsSpace(key[0]) && !IsSpace(key[|key| - 1]) && !Has(key, '|') && !Has(key, '#')
    requires text != [] ==> !IsSpace(text[0]) && !IsSpace(text[|text| - 1])
    ensures var line := key + "|" + text;
            Strip(line) == line && line != "" && !StartsWith(line, "#") && Has(line, '|')
            && Before(line, '|') == key && After(line, '|') == text && Strip(text) == text
  {
    var line := key + "|" + text;
    assert line[0] == key[0];
    assert line[|line| - 1] == if text == [] then '|' else text[|text| - 1];
    StripUnpadded(line);
    assert key[0] != '#';
    BeforeOfPrefix(key, '|', text);
    StripUnpadded(text);
  }

  // ---------------------------------------------------------------- detail lines

  /** The headings of `_format_extra` with the key each one shows, in their fixed order. */
  const Sections: seq<(string, string)> := [
    ("Работа/бизнес/новые дела.", "работа"),
    ("Общение.", "общение"),
    ("Семейные дела.", "семья"),
    ("Питание, здоровье.", "здоровье"),
    ("Сад, огород.", "сад"),
    ("Сновидения.", "сны")
  ]

  /** What one `;`-separated part contributes: a trimmed, non-empty part holding `=` gives
      its trimmed, lower-cased key and its trimmed value. */
  function DetailEntry(part: string): (r: Option<(string, string)>)
    ensures r.Some? ==> Lower(r.value.0) == r.value.0
  {
    var p := Strip(part);
    if p == "" || !Has(p, '=') then None
    else
      LowerIdempotent(Strip(Before(p, '=')));
      Some((Lower(Strip(Before(p, '='))), Strip(After(p, '='))))
  }

  function DetailEntries(parts: seq<string>): (es: seq<Option<(string, string)>>)
    ensures |es| == |parts| && forall i :: 0 <= i < |parts| ==> es[i] == DetailEntry(parts[i])
  {
    seq(|parts|, i requires 0 <= i < |parts| => DetailEntry(parts[i]))
  }

  /** The dictionary `_format_extra` builds from a detail line. */
  function Details(raw: string): (r: map<string, string>)
    ensures forall k :: k in r ==> Lower(k) == k
  {
    var es := DetailEntries(Split(raw, ';'));
    AssignSpec(es);
    Assign(es)
  }

  function Get(m: map<string, string>, key: string): string {
    if key in m then m[key] else NoInfo
  }

  /** One block of the rendering: the heading, then the value or the placeholder. */
  function Block(m: map<string, string>, i: int): string
    requires 0 <= i < |Sections|
  {
    Sections[i].0 + "\n" + Get(m, Sections[i].1)
  }

  /** The rendering: the six blocks in order, separated by blank lines. */
  function DetailText(m: map<string, string>): string {
    Join("\n\n", seq(|Sections|, i requires 0 <= i < |Sections| => Block(m, i)))
  }

  /** `_format_extra`. */
  method FormatExtra(raw: string) returns (text: string)
    ensures text == DetailText(Details(raw))
  {
    var parts := Split(raw, ';');
    ghost var es := DetailEntries(parts);
    var m: map<string, string> := map[];
    var i := 0;
    while i < |parts|
      invariant 0 <= i <= |parts|
      invariant m == Assign(es[..i])
    {
      AssignStep(es, i);
      var e := DetailEntry(parts[i]);
      assert e == es[i];
      if e.Some? {
        m := m[e.value.0 := e.value.1];
      }
      i := i + 1;
    }
    assert es[..|parts|] == es;
    text := DetailText(m);
  }

  /** A block shows the placeholder exactly when its key is missing. */
  lemma MissingKeyPlaceholder(m: map<string, string>, i: int)
    requires 0 <= i < |Sections|
    ensures Sections[i].1 !in m ==> Block(m, i) == Sections[i].0 + "\n" + NoInfo
    ensures Sections[i].1 in m ==> Block(m, i) == Sections[i].0 + "\n" + m[Sections[i].1]
  {
  }

  /** Keys other than the six are ignored: adding one changes nothing. */
  lemma UnknownKeysIgnored(m: map<string, string>, key: string, value: string)
    requires forall i :: 0 <= i < |Sections| ==> Sections[i].1 != key
    ensures DetailText(m[key := value]) == DetailText(m)
  {
    assert seq(|Sections|, i requires 0 <= i < |Sections| => Block(m[key := value], i))
        == seq(|Sections|, i requires 0 <= i < |Sections| => Block(m, i));
  }

  /** A part written as `key=value` reads back as the lower-cased key and the value. */
  lemma DetailPartRoundTrip(key: string, value: string)
    requires key != [] && !IsSpace(key[0]) && !IsSpace(key[|key| - 1]) && !Has(key, '=')
    requires value != [] ==> !IsSpace(value[0]) && !IsSpace(value[|value| - 1])
    ensures DetailEntry(key + "=" + value) == Some((Lower(key), value))
  {
    var part := key + "=" + value;
    assert part[0] == key[0];
    assert part[|part| - 1] == if value == [] then '=' else value[|value| - 1];
    StripUnpadded(part);
    BeforeOfPrefix(key, '=', value);
    StripUnpadded(key);
    StripUnpadded(value);
  }

  /** Detail text read in two pieces joined by `;` gives the parts of both in order. */
  lemma DetailsAppend(a: string, b: string)
    ensures DetailEntries(Split(a + ";" + b, ';')) == DetailEntries(Split(a, ';')) + DetailEntries(Split(b, ';'))
  {
    SplitAppend(a, ';', b);
  }

  lemma DetailEntriesAppend(x: seq<string>, y: seq<string>)
    ensures DetailEntries(x + y) == DetailEntries(x) + DetailEntries(y)
  {
  }

  /** The last part for a key wins: a part `key=value` followed only by parts for other
      keys decides the key. */
  lemma LaterDetailWins(before: seq<string>, part: string, after: seq<string>, key: string, value: string)
    requires DetailEntry(part) == Some((key, value))
    requires forall i :: 0 <= i < |after| ==> DetailEntry(after[i]).None? || DetailEntry(after[i]).value.0 != key
    ensures var m := Assign(DetailEntries(before + [part] + after)); key in m && m[key] == value
  {
    var eb, ep, ea := DetailEntries(before), DetailEntries([part]), DetailEntries(after);
    DetailEntriesAppend(before + [part], after);
    DetailEntriesAppend(before, [part]);
    assert ep == [Some((key, value))];
    forall i | 0 <= i < |ea| && ea[i].Some?
      ensures ea[i].value.0 != key
    {
      assert ea[i] == DetailEntry(after[i]);
    }
    LaterAssignmentWins(eb, key, value, ea);
  }

  // ---------------------------------------------------------------- the reply

  /** What `_compute_lunar` reports, its date-times already rendered: an oracle. */
  datatype Lunar = Lunar(day: int, start: string, end: string, phase: string, nextNew: string, nextFull: string)

  /** The fixed pieces of the summary, each up to the value that follows it. */
  const NowLabel := "🌙 Сейчас: "
  const StartLabel := "-е лунные сутки\nНачало: "
  const EndLabel := "\nОкончание: "
  const PhaseLabel := "\n\nФаза: "
  const NewMoonLabel := "\nБлижайшее новолуние: "
  const FullMoonLabel := "\nБлижайшее полнолуние: "
  const ShortLabel := "\n\nКоротко о дне: "
  const MainFooter := "\n\n📌 Хочешь подробнее? Напиши: Лунный день подробно\n\nℹ️ Расчёт выполнен по московскому времени и может быть приближённым."

  function MainText(lunar: Lunar, short: string): string {
    NowLabel + IntToString(lunar.day) + StartLabel + lunar.start + EndLabel + lunar.end
    + PhaseLabel + lunar.phase + NewMoonLabel + lunar.nextNew + FullMoonLabel + lunar.nextFull
    + ShortLabel + short + MainFooter
  }

  /** The reply for a request, given the lunar data and the two loaded files. */
  function Respond(req: Request, lunar: Lunar, short: map<int, string>, extra: map<int, string>)
    : (r: Option<seq<Action>>)
    ensures r.None? <==> req.Ignore?
    ensures r.Some? ==> |r.value| == 1 && r.value[0].Text?
  {
    match req
    case Ignore => None
    case Extra =>
      if lunar.day !in extra || extra[lunar.day] == "" then Some([Text(NoDetail)])
      else Some([Text(DetailText(Details(extra[lunar.day])))])
    case Main =>
      Some([Text(MainText(lunar, if lunar.day in short then short[lunar.day] else NoShort))])
  }

  /** `get_lunar_day_reply`; the two files are passed in, `None` when missing. */
  method GetLunarDayReply(text: string, lunar: Lunar, shortFile: Option<seq<string>>, extraFile: Option<seq<string>>)
    returns (reply: Option<seq<Action>>)
    ensures reply == Respond(RequestOf(text), lunar, LoadedKv(shortFile), LoadedKv(extraFile))
  {
    var req := RequestOf(text);
    if req == Ignore {
      return None;
    }
    var shortMap := ReadKvFile(shortFile);
    var extraMap := ReadKvFile(extraFile);
    if req == Extra {
      if lunar.day !in extraMap || extraMap[lunar.day] == "" {
        return Some([Text(NoDetail)]);
      }
      var detail := FormatExtra(extraMap[lunar.day]);
      return Some([Text(detail)]);
    }
    var shortDesc := if lunar.day in shortMap then shortMap[lunar.day] else NoShort;
    return Some([Text(MainText(lunar, shortDesc))]);
  }

  /** Every triggered request gets exactly one text; anything else gets no reply. */
  lemma OneTextPerTrigger(req: Request, lunar: Lunar, short: map<int, string>, extra: map<int, string>)
    ensures var r := Respond(req, lunar, short, extra);
            (r.None? <==> req == Ignore) && (r.Some? ==> |r.value| == 1 && r.value[0].Text?)
  {
  }

  /** A detail request for a day without details gets the fixed message. */
  lemma MissingDetailMessage(lunar: Lunar, short: map<int, string>, extra: map<int, string>)
    requires lunar.day !in extra
    ensures Respond(Extra, lunar, short, extra) == Some([Text(NoDetail)])
  {
  }

  /** A summary for a day without a short text uses the fixed placeholder. */
  lemma MissingShortPlaceholder(lunar: Lunar, short: map<int, string>, extra: map<int, string>)
    requires lunar.day !in short
    ensures Respond(Main, lunar, short, extra) == Some([Text(MainText(lunar, NoShort))])
  {
  }
}
