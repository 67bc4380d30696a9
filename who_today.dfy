/** The "кто сегодня" module of modules/who_today/handler.py: the title is taken from the
    text after the phrase, the requester is filtered out of the day's candidates, one
    candidate is picked and given the title, and the reply is a phrase with the title and
    the name filled in. The database is an oracle, the random picks are parameters. */
module WhoToday {
  import opened Optional
  import opened Strings
  import opened Actions

  // ---------------------------------------------------------------- finding the phrase

  /** The characters that may stand before "кто" (`[\s,!.?]`). */
  predicate IsSeparator(c: char) {
    IsSpace(c) || c == ',' || c == '!' || c == '.' || c == '?'
  }

  /** The end of the run of whitespace that starts at `i`. */
  function SpaceRun(s: string, i: nat): (j: nat)
    requires i <= |s|
    ensures i <= j <= |s|
    ensures forall k :: i <= k < j ==> IsSpace(s[k])
    ensures j < |s| ==> !IsSpace(s[j])
    decreases |s| - i
  {
    if i < |s| && IsSpace(s[i]) then SpaceRun(s, i + 1) else i
  }

  /** The end of a match of `(?:^|[\s,!.?])кто\s+сегодня\b` whose "кто" starts at `k`.
      The whitespace run is taken whole: a shorter one would leave a space where "с" must
      stand, so backtracking never finds another end. */
  function WhoAt(low: string, k: nat): (r: Option<nat>)
    ensures r.Some? ==> k + 3 < r.value <= |low|
  {
    if OccursAt(low, "кто", k) && (k == 0 || IsSeparator(low[k - 1])) then
      var j := SpaceRun(low, k + 3);
      if j > k + 3 && OccursAt(low, "сегодня", j) && (j + 7 == |low| || !IsWordChar(low[j + 7]))
      then Some(j + 7)
      else None
    else None
  }

  /** The match ends for every position of "кто". */
  function Matches(low: string): (ms: seq<Option<nat>>)
    ensures |ms| == |low| && forall k :: 0 <= k < |low| ==> ms[k] == WhoAt(low, k)
    ensures forall k :: 0 <= k < |low| && ms[k].Some? ==> ms[k].value <= |low|
  {
    seq(|low|, k requires 0 <= k < |low| => WhoAt(low, k))
  }

  /** The first present entry at or after `k`. */
  function FirstFrom(ms: seq<Option<nat>>, k: nat): (r: Option<nat>)
    decreases |ms| - k
  {
    if k >= |ms| then None else if ms[k].Some? then ms[k] else FirstFrom(ms, k + 1)
  }

  /** `FirstFrom` finds an entry exactly when there is one, and it is the first. */
  lemma {:induction false} FirstFromSpec(ms: seq<Option<nat>>, k: nat)
    ensures FirstFrom(ms, k).None? <==> forall i :: k <= i < |ms| ==> ms[i].None?
    ensures FirstFrom(ms, k).Some? ==>
              exists i :: k <= i < |ms| && ms[i] == FirstFrom(ms, k) && forall j :: k <= j < i ==> ms[j].None?
    decreases |ms| - k
  {
    if k < |ms| && ms[k].None? {
      FirstFromSpec(ms, k + 1);
    }
  }

  /** `WHO_RE.search`: the end of the leftmost match. A match starting at position p has
      its "кто" at p (the `^` branch, only for p = 0) or at p + 1 (a separator at p); the
      two cannot both hold at p = 0, so the leftmost match is the one with the leftmost
      "кто". */
  function Search(low: string): (r: Option<nat>)
    ensures r.Some? ==> r.value <= |low|
  {
    var ms := Matches(low);
    FirstFromSpec(ms, 0);
    FirstFrom(ms, 0)
  }

  // ---------------------------------------------------------------- the title

  /** The filler words dropped from the start of the title, in the order they are tried. */
  const Fillers: seq<string> := ["у нас", "в чате", "тут", "вообще", "сейчас", "значит"]

  /** The characters dropped from the end of the title (`[?!.,:;]+$`). */
  const Punctuation: set<char> := {'?', '!', '.', ',', ':', ';'}

  const MaxTitle := 60

  /** One round of the filler loop: the filler is dropped when the lower-cased, trimmed
      tail starts with it and a space. */
  function DropFiller(tail: string, filler: string): (r: string)
    ensures |r| <= |tail|
  {
    var low := Strip(Lower(tail));
    if StartsWith(low, filler + " ") then
      assert |low| <= |tail|;
      Strip(tail[|filler|..])
    else tail
  }

  /** The filler loop: each filler tried once, in order. */
  function DropFillers(tail: string, fillers: seq<string>): (r: string)
    ensures |r| <= |tail|
    decreases |fillers|
  {
    if |fillers| == 0 then tail else DropFillers(DropFiller(tail, fillers[0]), fillers[1..])
  }

  /** The end of `_extract_title`: trailing punctuation dropped, then surrounding blanks;
      a long title is cut to 60 characters and right-trimmed. */
  function Finish(tail: string): string {
    var t := Strip(TrimEnd(tail, Punctuation));
    if t == "" then "" else if |t| > MaxTitle then RStrip(t[..MaxTitle]) else t
  }

  /** `_extract_title`: `None` without the phrase, otherwise the finished tail after it. */
  function Title(text: string): (r: Option<string>)
    ensures r.Some? ==> |r.value| <= MaxTitle
  {
    match Search(Lower(text))
    case None => None
    case Some(e) =>
      FinishShape(DropFillers(Strip(text[e..]), Fillers));
      Some(Finish(DropFillers(Strip(text[e..]), Fillers)))
  }

  /** `_extract_title`. */
  method ExtractTitle(text: string) returns (title: Option<string>)
    ensures title == Title(text)
  {
    var low := Lower(text);
    var m := Search(low);
    if m.None? {
      return None;
    }
    var tail := Strip(text[m.value..]);
    tail := DropFillerWords(tail);
    tail := Strip(TrimEnd(tail, Punctuation));
    if tail == "" {
      return Some("");
    }
    if |tail| > MaxTitle {
      tail := RStrip(tail[..MaxTitle]);
    }
    title := Some(tail);
  }

  /** The filler loop of `_extract_title`, which keeps the lower-cased, trimmed tail
      beside the tail. */
  method DropFillerWords(start: string) returns (tail: string)
    ensures tail == DropFillers(start, Fillers)
  {
    tail := start;
    var tailLow := Strip(Lower(tail));
    var i := 0;
    while i < |Fillers|
      invariant 0 <= i <= |Fillers|
      invariant tailLow == Strip(Lower(tail))
      invariant DropFillers(tail, Fillers[i..]) == DropFillers(start, Fillers)
    {
      DropFillersStep(tail, Fillers, i);
      tail, tailLow := TryFiller(tail, tailLow, Fillers[i]);
      i := i + 1;
    }
    assert Fillers[i..] == [];
  }

  /** One round of the filler loop. */
  method TryFiller(tail: string, tailLow: string, filler: string) returns (next: string, nextLow: string)
    requires tailLow == Strip(Lower(tail))
    ensures next == DropFiller(tail, filler) && nextLow == Strip(Lower(next))
  {
    next, nextLow := tail, tailLow;
    if StartsWith(tailLow, filler + " ") {
      assert |tailLow| <= |tail|;
      next := Strip(tail[|filler|..]);
      nextLow := Strip(Lower(next));
    }
  }

  lemma DropFillersStep(tail: string, fillers: seq<string>, i: nat)
    requires i < |fillers|
    ensures DropFillers(tail, fillers[i..]) == DropFillers(DropFiller(tail, fillers[i]), fillers[i + 1..])
  {
    assert fillers[i..][1..] == fillers[i + 1..];
  }

  /** There is a title exactly when the text holds the phrase; then it is taken after the
      leftmost occurrence. */
  lemma TitleExactlyWithPhrase(text: string)
    ensures Title(text).None? <==> forall k :: 0 <= k < |text| ==> WhoAt(Lower(text), k).None?
    ensures Title(text).Some? ==>
              exists k :: 0 <= k < |text| && WhoAt(Lower(text), k) == Search(Lower(text))
                          && forall j :: 0 <= j < k ==> WhoAt(Lower(text), j).None?
  {
    var low := Lower(text);
    var ms := Matches(low);
    FirstFromSpec(ms, 0);
    if Title(text).Some? {
      var k :| 0 <= k < |ms| && ms[k] == FirstFrom(ms, 0) && forall j :: 0 <= j < k ==> ms[j].None?;
      assert WhoAt(low, k) == Search(low);
      assert forall j :: 0 <= j < k ==> WhoAt(low, j).None? by {
        forall j | 0 <= j < k
          ensures WhoAt(low, j).None?
        {
          assert ms[j] == WhoAt(low, j);
        }
      }
    } else {
      forall j | 0 <= j < |text|
        ensures WhoAt(low, j).None?
      {
        assert ms[j] == WhoAt(low, j);
      }
    }
  }

  /** A title is at most 60 characters and neither starts nor ends with whitespace. */
  lemma FinishShape(tail: string)
    ensures var r := Finish(tail);
            |r| <= MaxTitle && (r != "" ==> !IsSpace(r[0]) && !IsSpace(r[|r| - 1]))
  {
    var t := Strip(TrimEnd(tail, Punctuation));
    if |t| > MaxTitle {
      TrimEndPrefix(t[..MaxTitle], Whitespace);
    }
  }

  lemma ContainsTrans(a: string, b: string, c: string)
    requires Contains(b, a) && Contains(c, b)
    ensures Contains(c, a)
  {
    var i :| 0 <= i <= |b| - |a| && OccursAt(b, a, i);
    var j :| 0 <= j <= |c| - |b| && OccursAt(c, b, j);
    forall k | 0 <= k < |b|
      ensures c[j + k] == b[k]
    {
      assert c[j..j + |b|][k] == c[j + k];
    }
    assert c[j + i..j + i + |a|] == b[i..i + |a|];
    assert OccursAt(c, a, j + i);
  }

  lemma StripContained(s: string)
    ensures Contains(s, Strip(s))
  {
    var t := TrimStart(s, Whitespace);
    var a := |s| - |t|;
    TrimStartSuffix(s, Whitespace);
    TrimEndPrefix(t, Whitespace);
    assert Strip(s) == t[..|Strip(s)|];
    assert OccursAt(s, Strip(s), a);
  }

  lemma SliceContained(s: string, i: nat, j: nat)
    requires i <= j <= |s|
    ensures Contains(s, s[i..j])
  {
    assert OccursAt(s, s[i..j], i);
  }

  lemma DropFillerContained(tail: string, filler: string)
    ensures Contains(tail, DropFiller(tail, filler))
  {
    if StartsWith(Strip(Lower(tail)), filler + " ") {
      assert |filler| <= |tail|;
      StripRestContained(tail, |filler|);
    } else {
      SliceContained(tail, 0, |tail|);
      assert tail[0..|tail|] == tail;
    }
  }

  lemma StripRestContained(s: string, n: nat)
    requires n <= |s|
    ensures Contains(s, Strip(s[n..]))
  {
    StripContained(s[n..]);
    SliceContained(s, n, |s|);
    assert s[n..|s|] == s[n..];
    ContainsTrans(Strip(s[n..]), s[n..], s);
  }

  lemma {:induction false} DropFillersContained(tail: string, fillers: seq<string>)
    ensures Contains(tail, DropFillers(tail, fillers))
    decreases |fillers|
  {
    if |fillers| == 0 {
      SliceContained(tail, 0, |tail|);
      assert tail[0..|tail|] == tail;
    } else {
      var next := DropFiller(tail, fillers[0]);
      DropFillersContained(next, fillers[1..]);
      DropFillerContained(tail, fillers[0]);
      ContainsTrans(DropFillers(tail, fillers), next, tail);
    }
  }

  lemma FinishContained(tail: string)
    ensures Contains(tail, Finish(tail))
  {
    var u := TrimEnd(tail, Punctuation);
    var t := Strip(u);
    TrimEndPrefix(tail, Punctuation);
    SliceContained(tail, 0, |u|);
    StripContained(u);
    ContainsTrans(t, u, tail);
    if t == "" {
      SliceContained(tail, 0, 0);
    } else if |t| > MaxTitle {
      var c := t[..MaxTitle];
      SliceContained(t, 0, MaxTitle);
      TrimEndPrefix(c, Whitespace);
      SliceContained(c, 0, |RStrip(c)|);
      ContainsTrans(RStrip(c), c, t);
      ContainsTrans(RStrip(c), t, tail);
    }
  }

  /** The title is a piece of what the user wrote after the phrase: nothing is added,
      only cut away. */
  lemma TitleFromText(text: string)
    requires Title(text).Some?
    ensures var e := Search(Lower(text)).value; Contains(text[e..], Title(text).value)
  {
    var e := Search(Lower(text)).value;
    var tail := Strip(text[e..]);
    var dropped := DropFillers(tail, Fillers);
    StripContained(text[e..]);
    DropFillersContained(tail, Fillers);
    FinishContained(dropped);
    ContainsTrans(dropped, tail, text[e..]);
    ContainsTrans(Finish(dropped), dropped, text[e..]);
  }

  /** A tail whose lower-cased start is none of the fillers followed by a space keeps
      every word. */
  lemma {:induction false} NoFillerKept(tail: string, fillers: seq<string>)
    requires forall i :: 0 <= i < |fillers| ==> !StartsWith(Strip(Lower(tail)), fillers[i] + " ")
    ensures DropFillers(tail, fillers) == tail
    decreases |fillers|
  {
    if |fillers| > 0 {
      NoFillerKept(tail, fillers[1..]);
    }
  }

  // ---------------------------------------------------------------- the word lists

  /** What `_read_lines` keeps of a line: the trimmed line, unless it is empty or a
      comment. */
  predicate Kept(line: string) {
    Strip(line) != "" && !StartsWith(Strip(line), "#")
  }

  function Keep(line: string): Option<string> {
    if Kept(line) then Some(Strip(line)) else None
  }

  function Keeps(lines: seq<string>): (es: seq<Option<string>>)
    ensures |es| == |lines| && forall i :: 0 <= i < |lines| ==> es[i] == Keep(lines[i])
  {
    seq(|lines|, i requires 0 <= i < |lines| => Keep(lines[i]))
  }

  /** The lines `_read_lines` keeps, trimmed, in order. */
  function LinesOf(lines: seq<string>): seq<string> {
    Somes(Keeps(lines))
  }

  /** Every kept line is trimmed, non-empty and not a comment. */
  lemma LinesOfClean(lines: seq<string>)
    ensures |LinesOf(lines)| <= |lines|
    ensures forall s :: s in LinesOf(lines) ==> s != "" && Strip(s) == s && s[0] != '#'
  {
    var es := Keeps(lines);
    SomesSpec(es);
    forall s | s in LinesOf(lines)
      ensures s != "" && Strip(s) == s && s[0] != '#'
    {
      var i :| 0 <= i < |es| && es[i] == Some(s);
      KeepClean(lines[i]);
    }
  }

  lemma KeepClean(line: string)
    requires Keep(line).Some?
    ensures var s := Keep(line).value; s != "" && Strip(s) == s && s[0] != '#'
  {
    var s := Strip(line);
    StripUnpadded(s);
    assert s[..1] == [s[0]];
  }

  /** `_read_lines`: a missing file gives no lines. */
  function ReadLinesOf(file: Option<seq<string>>): seq<string> {
    if file.None? then [] else LinesOf(file.value)
  }

  method ReadLines(file: Option<seq<string>>) returns (lines: seq<string>)
    ensures lines == ReadLinesOf(file)
  {
    lines := [];
    if file.None? {
      return;
    }
    var all := file.value;
    ghost var es := Keeps(all);
    var i := 0;
    while i < |all|
      invariant 0 <= i <= |all|
      invariant lines == Somes(es[..i])
    {
      SomesStep(es, i);
      var s := Strip(all[i]);
      if s != "" && !StartsWith(s, "#") {
        lines := lines + [s];
      }
      i := i + 1;
    }
    assert es[..|all|] == es;
  }

  /** Reading lines works line by line. */
  lemma LinesOfAppend(a: seq<string>, b: seq<string>)
    ensures LinesOf(a + b) == LinesOf(a) + LinesOf(b)
  {
    assert Keeps(a + b) == Keeps(a) + Keeps(b);
    SomesAppend(Keeps(a), Keeps(b));
  }

  /** A kept line reads as its trimmed self; a blank or comment line adds nothing. */
  lemma LinesOfOne(line: string)
    ensures LinesOf([line]) == if Kept(line) then [Strip(line)] else []
  {
    var es := [Keep(line)];
    assert Keeps([line]) == es;
    assert es[..0] == [];
    assert Somes(es) == Somes(es[..0]) + (match es[0] case None => [] case Some(v) => [v]);
  }

  // ---------------------------------------------------------------- names and phrases

  /** `_format_name`; `""` stands for a missing display name. */
  function FormatName(platform: string, userId: int, displayName: string): (r: string)
    ensures displayName != "" ==> r == displayName
    ensures r != ""
  {
    if displayName != "" then displayName
    else if platform == "tg" then "пользователь " + IntToString(userId)
    else "[id" + IntToString(userId) + "|" + "пользователь " + IntToString(userId) + "]"
  }

  /** Without a display name, different users get different names on every platform. */
  lemma FallbackNamesDistinct(platform: string, a: int, b: int)
    requires FormatName(platform, a, "") == FormatName(platform, b, "")
    ensures a == b
  {
    if platform == "tg" {
      TgNameHoldsId(a);
      TgNameHoldsId(b);
    } else {
      LinkNameHoldsId(a);
      LinkNameHoldsId(b);
    }
    IntToStringInjective(a, b);
  }

  lemma TgNameHoldsId(id: int)
    ensures var p := "пользователь "; ("пользователь " + IntToString(id))[|p|..] == IntToString(id)
  {
  }

  lemma LinkNameHoldsId(id: int)
    ensures var n := "[id" + IntToString(id) + "|" + "пользователь " + IntToString(id) + "]";
            Before(n[3..], '|') == IntToString(id)
  {
    var d := IntToString(id);
    var t := "пользователь " + d + "]";
    var n := "[id" + d + "|" + "пользователь " + d + "]";
    assert n[3..] == d + ['|'] + t;
    IntToStringHasNo(id, '|');
    BeforeOfPrefix(d, '|', t);
  }

  /** `tpl.format(title=..., name=...)` for templates whose only fields are `{title}`
      and `{name}`; `{{` and `}}` stand for single braces. */
  function Format(tpl: string, title: string, name: string): (r: string)
    ensures NoBraces(tpl) ==> r == tpl
    decreases |tpl|
  {
    if |tpl| == 0 then ""
    else if tpl[0] == '{' then
      if StartsWith(tpl, "{title}") then title + Format(tpl[7..], title, name)
      else if StartsWith(tpl, "{name}") then name + Format(tpl[6..], title, name)
      else if StartsWith(tpl, "{{") then "{" + Format(tpl[2..], title, name)
      else [tpl[0]] + Format(tpl[1..], title, name)
    else if tpl[0] == '}' && StartsWith(tpl, "}}") then "}" + Format(tpl[2..], title, name)
    else [tpl[0]] + Format(tpl[1..], title, name)
  }

  /** Text with no brace, which `str.format` copies as it is. */
  predicate NoBraces(s: string) {
    |s| == 0 || (s[0] != '{' && s[0] != '}' && NoBraces(s[1..]))
  }

  /** Text without braces is copied as it is. */
  lemma {:induction false} FormatPlain(a: string, rest: string, title: string, name: string)
    requires NoBraces(a)
    ensures Format(a + rest, title, name) == a + Format(rest, title, name)
    decreases |a|
  {
    if |a| > 0 {
      var s := a + rest;
      assert s[0] == a[0];
      assert s[1..] == a[1..] + rest;
      FormatPlain(a[1..], rest, title, name);
    } else {
      assert a + rest == rest;
    }
  }

  /** The fields are replaced by the title and the name. */
  lemma FormatFields(rest: string, title: string, name: string)
    ensures Format("{title}" + rest, title, name) == title + Format(rest, title, name)
    ensures Format("{name}" + rest, title, name) == name + Format(rest, title, name)
  {
    assert ("{title}" + rest)[..7] == "{title}";
    assert ("{title}" + rest)[7..] == rest;
    var s := "{name}" + rest;
    assert s[..6] == "{name}";
    assert s[6..] == rest;
    assert !StartsWith(s, "{title}") by {
      assert |s| >= 7 ==> s[..7][1] == 'n';
    }
  }

  const PhraseHead := "🎭 Сегодня "
  const PhraseMid := " — "
  const PhraseEnd := "."
  const DefaultPhrase := PhraseHead + ("{title}" + (PhraseMid + ("{name}" + PhraseEnd)))

  /** The built-in phrase reads "Сегодня <title> — <name>." whatever the title and name. */
  lemma DefaultPhraseFilled(title: string, name: string)
    ensures Format(DefaultPhrase, title, name) == PhraseHead + (title + (PhraseMid + (name + PhraseEnd)))
  {
    PhrasePartsPlain();
    FormatTwoFields(PhraseHead, PhraseMid, PhraseEnd, title, name);
  }

  /** The text around the fields of the built-in phrase has no braces. */
  lemma PhrasePartsPlain()
    ensures NoBraces(PhraseHead) && NoBraces(PhraseMid) && NoBraces(PhraseEnd)
  {
    PlainHead();
    NoBracesWhenNoneAt(PhraseMid);
    NoBracesWhenNoneAt(PhraseEnd);
  }

  lemma PlainHead()
    ensures NoBraces(PhraseHead)
  {
    NoBracesWhenNoneAt(PhraseHead);
  }

  /** Text none of whose characters is a brace has no braces. */
  lemma {:induction false} NoBracesWhenNoneAt(s: string)
    requires forall i :: 0 <= i < |s| ==> s[i] != '{' && s[i] != '}'
    ensures NoBraces(s)
    decreases |s|
  {
    if |s| > 0 {
      NoBracesWhenNoneAt(s[1..]);
    }
  }

  /** A phrase with the two fields and plain text around them. */
  lemma FormatTwoFields(a: string, b: string, c: string, title: string, name: string)
    requires NoBraces(a) && NoBraces(b) && NoBraces(c)
    ensures Format(a + ("{title}" + (b + ("{name}" + c))), title, name) == a + (title + (b + (name + c)))
  {
    var r3 := "{name}" + c;
    assert Format(r3, title, name) == name + c by {
      FormatFields(c, title, name);
      FormatPlain(c, "", title, name);
      assert c + "" == c;
    }
    FormatPlain(b, r3, title, name);
    FormatFields(b + r3, title, name);
    FormatPlain(a, "{title}" + (b + r3), title, name);
  }

  // ---------------------------------------------------------------- the reply

  const AskWhich := "😄 А кто именно? Напиши: «кто сегодня кот» или «кто сегодня главный по мемам»."
  const NoDatabase := "😕 Модуль «Кто сегодня» пока недоступен (Postgres не подключен)."
  const NoOpen := "😕 Не получилось открыть базу для «Кто сегодня»."
  const NoMembers := "😕 Не получилось получить список участников для этого чата."
  const AllGiven := "😄 На сегодня я уже всем раздал титулы. Завтра продолжим!"

  /** What the database does for this request: its functions cannot be imported, opening
      the tables fails, listing the day's available users fails, or it lists them (id and
      display name, `""` for none). */
  datatype Db = NoDriver | OpenFails | ListFails | Members(users: seq<(int, string)>)

  /** The reply, and the (user, title) the handler asks the database to record, if any
      (whether the write succeeds does not change the reply). */
  datatype Outcome = Outcome(reply: Option<seq<Action>>, recorded: Option<(int, string)>)

  /** The candidates without the requester. */
  function Others(users: seq<(int, string)>, userId: int): (r: seq<(int, string)>)
    ensures forall i :: 0 <= i < |r| ==> r[i].0 != userId && r[i] in users
    ensures forall u :: u in users && u.0 != userId ==> u in r
    decreases |users|
  {
    if |users| == 0 then []
    else
      var rest := Others(users[1..], userId);
      if users[0].0 != userId then [users[0]] + rest else rest
  }

  /** `random.choice` of a non-empty list, `pick` standing for the random draw. */
  function Choice<T>(xs: seq<T>, pick: nat): (x: T)
    requires |xs| > 0
    ensures x in xs
  {
    xs[pick % |xs|]
  }

  /** `get_who_today_reply` after the title has been extracted; `fallbacks` and `phrases`
      are the lines read from the two files. */
  function Respond(title: Option<string>, platform: string, userId: int, db: Db,
                   fallbacks: seq<string>, phrases: seq<string>,
                   pickUser: nat, pickLine: nat, pickPhrase: nat): (r: Outcome)
    ensures r.reply.None? <==> title.None?
    ensures r.reply.Some? ==> |r.reply.value| == 1 && r.reply.value[0].Text?
    ensures r.recorded.Some? ==> title.Some? && title.value != "" && r.recorded.value.1 == title.value
  {
    if title.None? then Outcome(None, None)
    else if title.value == "" then Outcome(Some([Text(AskWhich)]), None)
    else match db
      case NoDriver => Outcome(Some([Text(NoDatabase)]), None)
      case OpenFails => Outcome(Some([Text(NoOpen)]), None)
      case ListFails => Outcome(Some([Text(NoMembers)]), None)
      case Members(users) =>
        var candidates := Others(users, userId);
        if |candidates| == 0 then
          var lines := if |fallbacks| == 0 then [AllGiven] else fallbacks;
          Outcome(Some([Text(Choice(lines, pickLine))]), None)
        else
          var chosen := Choice(candidates, pickUser);
          var tpls := if |phrases| == 0 then [DefaultPhrase] else phrases;
          var name := FormatName(platform, chosen.0, chosen.1);
          Outcome(Some([Text(Format(Choice(tpls, pickPhrase), title.value, name))]), Some((chosen.0, title.value)))
  }

  /** `get_who_today_reply`: the fallback lines are read only when nobody is left, the
      phrases only after a pick. */
  method GetWhoTodayReply(text: string, platform: string, userId: int, db: Db,
                          fallbackFile: Option<seq<string>>, phrasesFile: Option<seq<string>>,
                          pickUser: nat, pickLine: nat, pickPhrase: nat)
    returns (outcome: Outcome)
    ensures outcome == Respond(Title(text), platform, userId, db, ReadLinesOf(fallbackFile),
                               ReadLinesOf(phrasesFile), pickUser, pickLine, pickPhrase)
  {
    if text == "" {
      return Outcome(None, None);
    }
    var title := ExtractTitle(text);
    if title.None? {
      return Outcome(None, None);
    }
    if title.value == "" {
      return Outcome(Some([Text(AskWhich)]), None);
    }
    if db.NoDriver? {
      return Outcome(Some([Text(NoDatabase)]), None);
    }
    if db.OpenFails? {
      return Outcome(Some([Text(NoOpen)]), None);
    }
    if db.ListFails? {
      return Outcome(Some([Text(NoMembers)]), None);
    }
    var candidates := Others(db.users, userId);
    if |candidates| == 0 {
      var fallbacks := ReadLines(fallbackFile);
      if |fallbacks| == 0 {
        fallbacks := [AllGiven];
      }
      return Outcome(Some([Text(Choice(fallbacks, pickLine))]), None);
    }
    var chosen := Choice(candidates, pickUser);
    var phrases := ReadLines(phrasesFile);
    if |phrases| == 0 {
      phrases := [DefaultPhrase];
    }
    var name := FormatName(platform, chosen.0, chosen.1);
    var tpl := Choice(phrases, pickPhrase);
    outcome := Outcome(Some([Text(Format(tpl, title.value, name))]), Some((chosen.0, title.value)));
  }

  /** The requester is never given the title; whoever is given it is one of the day's
      available users, and the title is the one asked for. */
  lemma RequesterNeverChosen(title: Option<string>, platform: string, userId: int, db: Db,
                             fallbacks: seq<string>, phrases: seq<string>, pickUser: nat, pickLine: nat, pickPhrase: nat)
    ensures var o := Respond(title, platform, userId, db, fallbacks, phrases, pickUser, pickLine, pickPhrase);
            o.recorded.Some? ==>
              o.recorded.value.0 != userId && db.Members? && title.Some?
              && o.recorded.value.1 == title.value
              && exists name :: (o.recorded.value.0, name) in db.users
  {
    var o := Respond(title, platform, userId, db, fallbacks, phrases, pickUser, pickLine, pickPhrase);
    if o.recorded.Some? {
      var c := Choice(Others(db.users, userId), pickUser);
      assert (c.0, c.1) in db.users;
    }
  }

  /** Every reply is exactly one text; without the phrase there is none, and without a
      title, or when nobody is left, nothing is recorded. */
  lemma ReplyShape(title: Option<string>, platform: string, userId: int, db: Db,
                   fallbacks: seq<string>, phrases: seq<string>, pickUser: nat, pickLine: nat, pickPhrase: nat)
    ensures var o := Respond(title, platform, userId, db, fallbacks, phrases, pickUser, pickLine, pickPhrase);
            (o.reply.None? <==> title.None?)
            && (o.reply.Some? ==> |o.reply.value| == 1 && o.reply.value[0].Text?)
            && (title == Some("") ==> o.reply == Some([Text(AskWhich)]) && o.recorded.None?)
            && (db.Members? && title.Some? && title.value != "" ==>
                  (o.recorded.None? <==> forall u :: u in db.users ==> u.0 == userId))
  {
    if db.Members? && title.Some? && title.value != "" {
      var c := Others(db.users, userId);
      if |c| > 0 {
        assert c[0] in c;
      }
    }
  }

  /** When nobody but the requester is available, the reply is one of the fallback lines,
      or the built-in one when the file gives none. */
  lemma NobodyLeftFallback(title: string, platform: string, userId: int, users: seq<(int, string)>,
                           fallbacks: seq<string>, phrases: seq<string>, pickUser: nat, pickLine: nat, pickPhrase: nat)
    requires title != "" && forall u :: u in users ==> u.0 == userId
    ensures var o := Respond(Some(title), platform, userId, Members(users), fallbacks, phrases, pickUser, pickLine, pickPhrase);
            o.recorded.None? && o.reply.Some? && |o.reply.value| == 1
            && (if fallbacks == [] then o.reply.value[0] == Text(AllGiven) else o.reply.value[0].text in fallbacks)
  {
    var c := Others(users, userId);
    if |c| > 0 {
      assert c[0] in users;
    }
  }
}
