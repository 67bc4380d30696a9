/** The horoscope handler of modules/horoscope/handler.py: the whole-word sign and
    "гороскоп" detection, and the per-(platform, chat, user) record of who was asked for a
    sign, each entry expiring ten minutes after it was set. */
module Horoscope {
  import opened Optional
  import opened Strings
  import opened Clock
  import opened Actions
  import opened HoroscopeSite

  const HoroWord := "гороскоп"

  /** `WAIT_TTL_SECONDS`. */
  const WaitTtl: real := 600.0

  const AskText := "🔮 Хочешь гороскоп? Напиши, для какого знака.\nЯ всех не упомню 🙂\n\nПримеры:\n• гороскоп овен\n• гороскоп деве\n• овну"

  /** `SIGN_FORMS`: canonical sign to every form a person may write. */
  const SignForms: SignTable := [
    ("овен", ["овен", "овна", "овну", "овнов", "овнам"]),
    ("телец", ["телец", "тельца", "тельцу", "тельцов", "тельцам"]),
    ("близнецы", ["близнецы", "близнеца", "близнецу", "близнецов", "близнецам"]),
    ("рак", ["рак", "рака", "раку", "раков", "ракам"]),
    ("лев", ["лев", "льва", "льву", "львов", "львам"]),
    ("дева", ["дева", "девы", "деве", "девам", "дев"]),
    ("весы", ["весы", "весов", "весам"]),
    ("скорпион", ["скорпион", "скорпиона", "скорпиону", "скорпионам"]),
    ("стрелец", ["стрелец", "стрельца", "стрельцу", "стрельцам"]),
    ("козерог", ["козерог", "козерога", "козерогу", "козерогам"]),
    ("водолей", ["водолей", "водолея", "водолею", "водолеям"]),
    ("рыбы", ["рыбы", "рыбе", "рыбам", "рыб"])
  ]

  // ---------------------------------------------------------------- forms and signs

  /** Every form of a table, in table order: the alternatives of `SIGN_RE`. */
  function AllForms(table: SignTable): (r: seq<string>)
    ensures forall f :: f in r <==> exists k :: 0 <= k < |table| && f in table[k].1
    decreases |table|
  {
    if |table| == 0 then []
    else
      var rest := AllForms(table[1..]);
      assert forall k :: 1 <= k < |table| ==> table[k] == table[1..][k - 1];
      table[0].1 + rest
  }

  /** `FORM_TO_SIGN`, built as the source's loop builds it: entry after entry, a later
      entry overwriting a form an earlier one listed. */
  function FormToSign(table: SignTable): map<string, string>
    decreases |table|
  {
    if |table| == 0 then map[]
    else
      var last := table[|table| - 1];
      FormToSign(table[..|table| - 1]) + map f | f in last.1 :: last.0
  }

  /** No form is listed under two signs. */
  predicate FormsDisjoint(table: SignTable) {
    forall j, k, f :: 0 <= j < k < |table| && f in table[j].1 ==> f !in table[k].1
  }

  /** With no form listed twice, every form maps to the sign it is listed under, and the
      map holds nothing else. */
  lemma {:induction false} FormToSignOwn(table: SignTable)
    requires FormsDisjoint(table)
    ensures forall k, f :: 0 <= k < |table| && f in table[k].1 ==> f in FormToSign(table) && FormToSign(table)[f] == table[k].0
    ensures forall f :: f in FormToSign(table) ==> f in AllForms(table)
    decreases |table|
  {
    if |table| > 0 {
      var n := |table| - 1;
      var init := table[..n];
      assert FormsDisjoint(init) by {
        forall j, k, f | 0 <= j < k < |init| && f in init[j].1
          ensures f !in init[k].1
        {
          assert init[j] == table[j] && init[k] == table[k];
        }
      }
      FormToSignOwn(init);
      forall k, f | 0 <= k < |table| && f in table[k].1
        ensures f in FormToSign(table) && FormToSign(table)[f] == table[k].0
      {
        if k < n {
          assert init[k] == table[k];
          assert f !in table[n].1;
        }
      }
      forall f | f in FormToSign(table)
        ensures f in AllForms(table)
      {
        if f !in table[n].1 {
          assert f in FormToSign(init);
          var k :| 0 <= k < |init| && f in init[k].1;
          assert init[k] == table[k];
        }
      }
    }
  }

  /** The first two letters of the forms of each sign of `SignForms`. */
  const Stems: seq<set<(char, char)>> := [
    {('о', 'в')}, {('т', 'е')}, {('б', 'л')}, {('р', 'а')}, {('л', 'е'), ('л', 'ь')}, {('д', 'е')},
    {('в', 'е')}, {('с', 'к')}, {('с', 'т')}, {('к', 'о')}, {('в', 'о')}, {('р', 'ы')}
  ]

  /** Forms whose first two letters tell their sign apart are listed under one sign only. */
  lemma StemsSeparate(table: SignTable, stems: seq<set<(char, char)>>)
    requires |stems| == |table|
    requires forall k, f :: 0 <= k < |table| && f in table[k].1 ==> |f| >= 2 && (f[0], f[1]) in stems[k]
    requires forall j, k, p :: 0 <= j < k < |stems| && p in stems[j] ==> p !in stems[k]
    ensures FormsDisjoint(table)
  {
    forall j, k, f | 0 <= j < k < |table| && f in table[j].1
      ensures f !in table[k].1
    {
      var p := (f[0], f[1]);
      assert p in stems[j];
      assert p !in stems[k];
    }
  }

  lemma StemsOfForms()
    ensures |Stems| == |SignForms|
    ensures forall k, f :: 0 <= k < |SignForms| && f in SignForms[k].1 ==> |f| >= 2 && (f[0], f[1]) in Stems[k]
  {
  }

  lemma StemsDisjoint()
    ensures forall j, k, p :: 0 <= j < k < |Stems| && p in Stems[j] ==> p !in Stems[k]
  {
  }

  /** The table of the handler lists no form twice: the first two letters of a form name
      its sign. */
  lemma SignFormsDisjoint()
    ensures FormsDisjoint(SignForms)
  {
    StemsOfForms();
    StemsDisjoint();
    StemsSeparate(SignForms, Stems);
  }

  /** Each sign is among its own forms. */
  lemma SignsAmongForms()
    ensures forall k :: 0 <= k < |SignForms| ==> SignForms[k].0 in SignForms[k].1
  {
  }

  /** Every form is a non-empty word of lower-case Cyrillic letters. */
  lemma FormsAreWords()
    ensures forall k, f :: 0 <= k < |SignForms| && f in SignForms[k].1 ==> f != "" && LowerCyrillic(f)
  {
    FirstFormsAreWords();
    LastFormsAreWords();
  }

  lemma FirstFormsAreWords()
    ensures forall k, f :: 0 <= k < 6 && f in SignForms[k].1 ==> f != "" && LowerCyrillic(f)
  {
  }

  lemma LastFormsAreWords()
    ensures forall k, f :: 6 <= k < |SignForms| && f in SignForms[k].1 ==> f != "" && LowerCyrillic(f)
  {
  }

  /** With no form listed twice and each sign among its own forms, each canonical sign
      maps to itself. */
  lemma {:induction false} CanonicalMapsToItself(table: SignTable)
    requires FormsDisjoint(table)
    requires forall k :: 0 <= k < |table| ==> table[k].0 in table[k].1
    ensures forall k :: 0 <= k < |table| ==> table[k].0 in FormToSign(table) && FormToSign(table)[table[k].0] == table[k].0
  {
    FormToSignOwn(table);
  }

  /** Two forms of lower-case Cyrillic letters never both stand as whole words at one
      position, so the order in which `SIGN_RE` lists its alternatives never decides the
      match. */
  lemma OneFormPerPosition(s: string, f: string, g: string, i: int)
    requires LowerCyrillic(f) && LowerCyrillic(g)
    requires WholeWordAt(s, f, i) && WholeWordAt(s, g, i)
    ensures f == g
  {
    WholeWordUnique(s, f, g, i);
  }

  // ---------------------------------------------------------------- whole-word search

  /** The first of `forms` that stands as a whole word at `i`. All forms being words, at
      most one of them can (`WholeWordUnique`), so the length order of the regex
      alternatives plays no part. */
  function FormAt(s: string, i: int, forms: seq<string>): (r: Option<string>)
    ensures r.Some? ==> r.value in forms && WholeWordAt(s, r.value, i)
    ensures r.None? ==> forall f :: f in forms ==> !WholeWordAt(s, f, i)
    decreases |forms|
  {
    if |forms| == 0 then None
    else if WholeWordAt(s, forms[0], i) then Some(forms[0])
    else FormAt(s, i, forms[1..])
  }

  /** `SIGN_RE.search(s)` from position `i`: the leftmost position where a form stands as
      a whole word, with that form. */
  function SearchFrom(s: string, i: nat, forms: seq<string>): (r: Option<(nat, string)>)
    ensures r.Some? ==> i <= r.value.0 && r.value.1 in forms && WholeWordAt(s, r.value.1, r.value.0)
    ensures r.Some? ==> forall j, f :: i <= j < r.value.0 && f in forms ==> !WholeWordAt(s, f, j)
    ensures r.None? ==> forall j, f :: i <= j && f in forms ==> !WholeWordAt(s, f, j)
    decreases |s| - i
  {
    if i > |s| then None
    else
      match FormAt(s, i, forms)
      case Some(f) => Some((i, f))
      case None => SearchFrom(s, i + 1, forms)
  }

  /** The sign search over a table: the sign of the leftmost whole-word form. */
  function SignIn(table: SignTable, text: string): Option<string> {
    match SearchFrom(Lower(text), 0, AllForms(table))
    case None => None
    case Some((_, f)) => if f in FormToSign(table) then Some(FormToSign(table)[f]) else None
  }

  /** With no form listed twice, the search finds nothing exactly when no form stands as a
      whole word in the lower-cased text; otherwise it names the sign of a form at the
      leftmost such position. */
  lemma SignInSpec(table: SignTable, text: string)
    requires FormsDisjoint(table)
    ensures SignIn(table, text).None? <==>
              forall j, f :: f in AllForms(table) ==> !WholeWordAt(Lower(text), f, j)
    ensures SignIn(table, text).Some? ==>
              exists i, k, f :: 0 <= k < |table| && f in table[k].1 && WholeWordAt(Lower(text), f, i)
                                && SignIn(table, text).value == table[k].0
                                && forall j, g :: 0 <= j < i && g in AllForms(table) ==> !WholeWordAt(Lower(text), g, j)
  {
    var low := Lower(text);
    var r := SearchFrom(low, 0, AllForms(table));
    if r.Some? {
      var (i, f) := r.value;
      var k :| 0 <= k < |table| && f in table[k].1;
      SignOfForm(table, k, f);
      assert SignIn(table, text) == Some(table[k].0);
      assert forall j, g :: 0 <= j < i && g in AllForms(table) ==> !WholeWordAt(low, g, j);
      assert 0 <= k < |table| && f in table[k].1 && WholeWordAt(low, f, i);
    }
  }

  /** A form listed under a sign maps to that sign. */
  lemma SignOfForm(table: SignTable, k: int, f: string)
    requires FormsDisjoint(table) && 0 <= k < |table| && f in table[k].1
    ensures f in FormToSign(table) && FormToSign(table)[f] == table[k].0
  {
    FormToSignOwn(table);
  }

  /** `_extract_sign`. */
  function ExtractSign(text: string): (r: Option<string>)
    ensures r.Some? ==> r.value in FormToSign(SignForms).Values
  {
    SignIn(SignForms, text)
  }

  /** `_extract_sign` finds the sign of the leftmost whole-word form, case ignored. */
  lemma ExtractSignSpec(text: string)
    ensures ExtractSign(text).None? <==>
              forall j, f :: f in AllForms(SignForms) ==> !WholeWordAt(Lower(text), f, j)
    ensures ExtractSign(text).Some? ==>
              exists i, k, f :: 0 <= k < |SignForms| && f in SignForms[k].1 && WholeWordAt(Lower(text), f, i)
                                && ExtractSign(text).value == SignForms[k].0
                                && forall j, g :: 0 <= j < i && g in AllForms(SignForms) ==> !WholeWordAt(Lower(text), g, j)
  {
    ExtractSignFromTable(text);
    SignInSpec(SignForms, text);
  }

  lemma ExtractSignFromTable(text: string)
    ensures ExtractSign(text) == SignIn(SignForms, text) && FormsDisjoint(SignForms)
  {
    SignFormsDisjoint();
  }

  /** A form followed by another letter is no match there: "гороскопы" is not "гороскоп". */
  lemma LongerWordNoMatch(s: string, w: string, i: int, c: char)
    requires IsWordChar(c) && OccursAt(s, w + [c], i)
    ensures !WholeWordAt(s, w, i)
  {
    assert s[i + |w|] == (w + [c])[|w|];
  }

  /** `HORO_WORD_RE.search`. */
  predicate HasHoroWord(low: string) {
    HasWholeWord(Lower(low), HoroWord)
  }

  // ---------------------------------------------------------------- the waiting map

  type Key = (string, int, int)

  /** The entries `_cleanup_waiting` keeps: those whose expiry is still ahead. */
  function Live(m: map<Key, real>, now: real): (r: map<Key, real>)
    ensures forall k :: k in r <==> k in m && m[k] > now
    ensures forall k :: k in r ==> r[k] == m[k]
  {
    map k | k in m && m[k] > now :: m[k]
  }

  /** Whether `_is_waiting` answers yes: a live entry whose expiry is not zero. */
  predicate IsLive(m: map<Key, real>, key: Key, now: real) {
    key in m && m[key] > now && m[key] != 0.0
  }

  /** `_WAITING`, a module-level dictionary the handler updates in place. */
  class Waiting {
    var entries: map<Key, real>

    constructor()
      ensures entries == map[]
    {
      entries := map[];
    }

    /** `_cleanup_waiting`: collect the expired keys, then pop them one by one. */
    method Cleanup(now: real)
      modifies this
      ensures entries == Live(old(entries), now)
    {
      ghost var start := entries;
      var dead := set k | k in entries && entries[k] <= now;
      while dead != {}
        invariant forall k :: k in dead ==> k in start && start[k] <= now
        invariant forall k :: k in entries <==> k in start && (start[k] > now || k in dead)
        invariant forall k :: k in entries ==> entries[k] == start[k]
        decreases dead
      {
        var k :| k in dead;
        entries := entries - {k};
        dead := dead - {k};
      }
      assert entries == Live(start, now);
    }

    /** `_set_waiting`. */
    method SetWaiting(key: Key, now: real)
      modifies this
      ensures entries == Live(old(entries), now)[key := now + WaitTtl]
    {
      Cleanup(now);
      entries := entries[key := now + WaitTtl];
    }

    /** `_is_waiting`. Its second expiry test follows a clean-up that has already removed
        every expired entry, so it never fires and is not modelled. */
    method IsWaiting(key: Key, now: real) returns (waiting: bool)
      modifies this
      ensures entries == Live(old(entries), now)
      ensures waiting == IsLive(old(entries), key, now)
    {
      Cleanup(now);
      if key !in entries || entries[key] == 0.0 {
        return false;
      }
      return true;
    }

    /** `_clear_waiting`. */
    method ClearWaiting(key: Key)
      modifies this
      ensures entries == old(entries) - {key}
    {
      entries := entries - {key};
    }
  }

  // ---------------------------------------------------------------- the reply

  /** What the handler reads from a message: nothing (empty text), or whether the word
      "гороскоп" stands in it and which sign, if any. */
  datatype Request = NoText | Request(hasWord: bool, sign: Option<string>)

  function RequestOf(text: string): Request {
    if text == "" then NoText
    else
      var low := Lower(Strip(text));
      Request(HasHoroWord(low), ExtractSign(low))
  }

  /** The reply text: the date, the capitalised sign, a blank line and the fetched text. */
  function HoroscopeText(sign: string, today: Date, page: string -> string): (r: string)
    requires ValidDate(today)
  {
    "🔮 Гороскоп на сегодня (" + DottedDate(today) + ") — " + Capitalize(sign) + "\n\n" + page(sign)
  }

  /** `get_horoscope_reply` on the waiting map: the reply and the map afterwards. `page`
      stands for `_get_horoscope_from_website`. */
  function Respond(m: map<Key, real>, req: Request, key: Key, now: real, today: Date, page: string -> string)
    : (r: (Option<seq<Action>>, map<Key, real>))
    requires ValidDate(today)
    ensures req.NoText? ==> r == (None, m)
    ensures r.0.Some? ==> |r.0.value| == 1 && r.0.value[0].Text?
    ensures forall k :: k in r.1 && k != key ==> k in m && r.1[k] == m[k]
  {
    match req
    case NoText => (None, m)
    case Request(hasWord, sign) =>
      if hasWord && sign.None? then (Some([Text(AskText)]), Live(m, now)[key := now + WaitTtl])
      else if sign.None? then (None, m)
      else if IsLive(m, key, now) then (Some([Text(HoroscopeText(sign.value, today, page))]), Live(m, now) - {key})
      else if hasWord then (Some([Text(HoroscopeText(sign.value, today, page))]), Live(m, now))
      else (None, Live(m, now))
  }

  /** `get_horoscope_reply`; `today` is the Moscow date and `page` the website. */
  method GetHoroscopeReply(waiting: Waiting, text: string, platform: string, chatId: int, userId: int,
                           now: real, today: Date, page: string -> string)
    returns (reply: Option<seq<Action>>)
    requires ValidDate(today)
    modifies waiting
    ensures (reply, waiting.entries)
            == Respond(old(waiting.entries), RequestOf(text), (platform, chatId, userId), now, today, page)
  {
    var req := RequestOf(text);
    if req.NoText? {
      return None;
    }
    var key := (platform, chatId, userId);
    if req.hasWord && req.sign.None? {
      waiting.SetWaiting(key, now);
      return Some([Text(AskText)]);
    }
    if req.sign.Some? {
      var isWaiting := waiting.IsWaiting(key, now);
      if isWaiting {
        waiting.ClearWaiting(key);
        return Some([Text(HoroscopeText(req.sign.value, today, page))]);
      }
    }
    if req.hasWord && req.sign.Some? {
      return Some([Text(HoroscopeText(req.sign.value, today, page))]);
    }
    return None;
  }

  // ---------------------------------------------------------------- reply properties

  /** "гороскоп" without a sign asks for one and sets the caller's entry to expire ten
      minutes from now, after dropping the expired entries. */
  lemma AskSetsExpiry(m: map<Key, real>, key: Key, now: real, today: Date, page: string -> string)
    requires ValidDate(today)
    ensures var (reply, next) := Respond(m, Request(true, None), key, now, today, page);
            reply == Some([Text(AskText)]) && key in next && next[key] == now + 600.0
            && forall k :: k != key ==> (k in next <==> k in m && m[k] > now)
  {
  }

  /** A sign sent while the caller's entry is live is answered, and only that entry (with
      the expired ones) is removed. */
  lemma LiveSignAnswered(m: map<Key, real>, hasWord: bool, sign: string, key: Key, now: real, today: Date,
                         page: string -> string)
    requires ValidDate(today) && IsLive(m, key, now)
    ensures var (reply, next) := Respond(m, Request(hasWord, Some(sign)), key, now, today, page);
            reply == Some([Text(HoroscopeText(sign, today, page))])
            && key !in next
            && forall k :: k != key ==> (k in next <==> k in m && m[k] > now)
  {
  }

  /** "гороскоп" with a sign, and no live entry for the caller, is answered at once; only
      the expired entries are removed. */
  lemma WordAndSignAnswered(m: map<Key, real>, sign: string, key: Key, now: real, today: Date,
                            page: string -> string)
    requires ValidDate(today) && !IsLive(m, key, now)
    ensures Respond(m, Request(true, Some(sign)), key, now, today, page)
            == (Some([Text(HoroscopeText(sign, today, page))]), Live(m, now))
  {
  }

  /** A sign on its own, with no live entry for the caller, gets no reply; only the
      expired entries are removed. */
  lemma SignAloneIgnored(m: map<Key, real>, sign: string, key: Key, now: real, today: Date,
                         page: string -> string)
    requires ValidDate(today) && !IsLive(m, key, now)
    ensures Respond(m, Request(false, Some(sign)), key, now, today, page) == (None, Live(m, now))
  {
  }

  /** Every change the handler makes keeps only live entries: after any reply, each entry
      it touched expires in the future. */
  lemma EntriesAfterStepLive(m: map<Key, real>, req: Request, key: Key, now: real, today: Date,
                             page: string -> string)
    requires ValidDate(today)
    ensures var next := Respond(m, req, key, now, today, page).1;
            next == m || forall k :: k in next ==> next[k] > now
  {
  }

  /** Without a reply the handler never adds an entry. */
  lemma SilenceAddsNothing(m: map<Key, real>, req: Request, key: Key, now: real, today: Date,
                           page: string -> string)
    requires ValidDate(today)
    requires Respond(m, req, key, now, today, page).0.None?
    ensures forall k :: k in Respond(m, req, key, now, today, page).1 ==> k in m
  {
  }

  /** A reply is either the question or one text made of the header line for the sign,
      a blank line and the fetched horoscope. */
  lemma ReplyShape(m: map<Key, real>, req: Request, key: Key, now: real, today: Date, page: string -> string)
    requires ValidDate(today)
    ensures var reply := Respond(m, req, key, now, today, page).0;
            reply.Some? ==> reply == Some([Text(AskText)])
                            || (req.Request? && req.sign.Some?
                                && reply == Some([Text("🔮 Гороскоп на сегодня (" + DottedDate(today) + ") — "
                                                       + Capitalize(req.sign.value) + "\n\n" + page(req.sign.value))]))
  {
  }

  /** After the ask, a sign sent within ten minutes is answered, and the entry is gone. */
  lemma AskThenSign(m: map<Key, real>, key: Key, now: real, later: real, sign: string, today: Date,
                    page: string -> string)
    requires ValidDate(today) && now <= later < now + WaitTtl && now + WaitTtl != 0.0
    ensures var next := Respond(m, Request(true, None), key, now, today, page).1;
            var (reply, after) := Respond(next, Request(false, Some(sign)), key, later, today, page);
            reply.Some? && key !in after
  {
  }

  /** Once ten minutes have passed, the sign alone is ignored. */
  lemma AskExpires(m: map<Key, real>, key: Key, now: real, later: real, sign: string, today: Date,
                   page: string -> string)
    requires ValidDate(today) && now + WaitTtl <= later
    ensures var next := Respond(m, Request(true, None), key, now, today, page).1;
            Respond(next, Request(false, Some(sign)), key, later, today, page).0.None?
  {
  }
}
