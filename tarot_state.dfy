/** The per-user "card of the day" store of modules/tarot_day/state.py: a JSON object
    kept in a file, keyed by "<source>:<user id>", each value a record holding the UTC
    date and the card file name. */
module TarotState {
  import opened Optional
  import opened Strings
  import opened Clock

  /** The JSON values a record may hold once the file is parsed. */
  datatype Json =
    | JNull
    | JBool(b: bool)
    | JNum(n: int)
    | JStr(s: string)
    | JArr(items: seq<Json>)
    | JObj(fields: map<string, Json>)

  /** What reading the state file yields: no file, text that does not parse, or an object. */
  datatype StateFile = Missing | Corrupt | Stored(raw: map<string, Json>)

  datatype DailyState = DailyState(date: string, card: string)

  /** `_load_raw`: a missing or unparsable file is the empty object, as is a falsy one
      (an empty object is its own `or {}`). */
  function LoadRaw(f: StateFile): map<string, Json> {
    if f.Stored? then f.raw else map[]
  }

  /** The normalised platform name: trimmed, lower-cased, "unknown" when empty. */
  function NormalizeSource(source: string): (r: string)
    ensures r != ""
  {
    var s := Lower(Strip(source));
    if s == "" then "unknown" else s
  }

  /** `_user_key`. */
  function UserKey(userId: int, source: string): string {
    NormalizeSource(source) + ":" + IntToString(userId)
  }

  /** The record `set_today_card_for_user` writes. */
  function Record(today: Date, card: string): Json
    requires ValidDate(today)
  {
    JObj(map["date" := JStr(IsoDate(today)), "card" := JStr(card)])
  }

  /** `get_today_card_for_user` on the loaded object. */
  function TodayCard(raw: map<string, Json>, userId: int, source: string, today: Date): (r: Option<DailyState>)
    requires ValidDate(today)
    ensures r.Some? ==> UserKey(userId, source) in raw && r.value.date == IsoDate(today) && r.value.card != ""
  {
    var key := UserKey(userId, source);
    if key !in raw || !raw[key].JObj? then None
    else
      var rec := raw[key].fields;
      if "date" !in rec || rec["date"] != JStr(IsoDate(today)) then None
      else if "card" !in rec || !rec["card"].JStr? || rec["card"].s == "" then None
      else Some(DailyState(IsoDate(today), rec["card"].s))
  }

  /** The object `set_today_card_for_user` saves. */
  function PutCard(raw: map<string, Json>, userId: int, source: string, card: string, today: Date): map<string, Json>
    requires ValidDate(today)
  {
    raw[UserKey(userId, source) := Record(today, card)]
  }

  /** The file as a class: `set` and the reset command rewrite it in place. */
  class StateStore {
    var file: StateFile

    constructor(f: StateFile)
      ensures file == f
    {
      file := f;
    }

    function GetTodayCardForUser(userId: int, source: string, today: Date): Option<DailyState>
      requires ValidDate(today)
      reads this
    {
      TodayCard(LoadRaw(file), userId, source, today)
    }

    method SetTodayCardForUser(userId: int, source: string, card: string, today: Date) returns (st: DailyState)
      requires ValidDate(today)
      modifies this
      ensures file == Stored(PutCard(LoadRaw(old(file)), userId, source, card, today))
      ensures st == DailyState(IsoDate(today), card)
    {
      var raw := LoadRaw(file);
      st := DailyState(IsoDate(today), card);
      raw := raw[UserKey(userId, source) := JObj(map["date" := JStr(st.date), "card" := JStr(st.card)])];
      file := Stored(raw);
    }

    /** The reset operation the handler imports but state.py does not define: it drops the
        caller's record and reports whether there was one. */
    method ResetTodayCardForUser(userId: int, source: string) returns (cleared: bool)
      modifies this
      ensures cleared == (UserKey(userId, source) in LoadRaw(old(file)))
      ensures file == if cleared then Stored(LoadRaw(old(file)) - {UserKey(userId, source)}) else old(file)
    {
      var raw := LoadRaw(file);
      var key := UserKey(userId, source);
      cleared := key in raw;
      if cleared {
        file := Stored(raw - {key});
      }
    }
  }

  // ---------------------------------------------------------------- properties

  /** After `set` with a non-empty card, `get` on the same day returns that card. */
  lemma SetThenGet(raw: map<string, Json>, userId: int, source: string, card: string, today: Date)
    requires ValidDate(today) && card != ""
    ensures TodayCard(PutCard(raw, userId, source, card, today), userId, source, today)
            == Some(DailyState(IsoDate(today), card))
  {
  }

  /** A record written on another day is not today's card. */
  lemma StaleRecordIgnored(raw: map<string, Json>, userId: int, source: string, card: string, day: Date, today: Date)
    requires ValidDate(day) && ValidDate(today) && day != today
    ensures TodayCard(PutCard(raw, userId, source, card, day), userId, source, today) == None
  {
    if IsoDate(day) == IsoDate(today) {
      IsoDateInjective(day, today);
    }
  }

  /** An empty card name is never reported back. */
  lemma EmptyCardIgnored(raw: map<string, Json>, userId: int, source: string, today: Date)
    requires ValidDate(today)
    ensures TodayCard(PutCard(raw, userId, source, "", today), userId, source, today) == None
  {
  }

  /** `set` touches only the caller's key: every other user's card of the day is unchanged. */
  lemma SetKeepsOthers(raw: map<string, Json>, userId: int, source: string, card: string, today: Date,
                       otherId: int, otherSource: string, day: Date)
    requires ValidDate(today) && ValidDate(day)
    requires UserKey(otherId, otherSource) != UserKey(userId, source)
    ensures TodayCard(PutCard(raw, userId, source, card, today), otherId, otherSource, day)
            == TodayCard(raw, otherId, otherSource, day)
  {
  }

  /** A missing, unparsable or empty state file holds no card for anybody. */
  lemma NoFileNoCard(f: StateFile, userId: int, source: string, today: Date)
    requires ValidDate(today)
    requires f == Missing || f == Corrupt || f == Stored(map[])
    ensures TodayCard(LoadRaw(f), userId, source, today) == None
  {
  }

  /** Keys tell users apart: for platform names without a colon, two keys agree exactly
      when the normalised platforms and the ids agree. */
  lemma UserKeyIdentifies(id1: int, source1: string, id2: int, source2: string)
    requires !Has(NormalizeSource(source1), ':') && !Has(NormalizeSource(source2), ':')
    ensures UserKey(id1, source1) == UserKey(id2, source2)
            <==> NormalizeSource(source1) == NormalizeSource(source2) && id1 == id2
  {
    var a1, a2 := NormalizeSource(source1), NormalizeSource(source2);
    var d1, d2 := IntToString(id1), IntToString(id2);
    if UserKey(id1, source1) == UserKey(id2, source2) {
      BeforeOfPrefix(a1, ':', d1);
      BeforeOfPrefix(a2, ':', d2);
      assert a1 + [':'] + d1 == UserKey(id1, source1);
      assert a2 + [':'] + d2 == UserKey(id2, source2);
      IntToStringInjective(id1, id2);
    }
  }

  /** The platform part of the key ignores case: `" TG "`, `"tg"` and `"Tg"` share keys. */
  lemma NormalizeIgnoresCase(source: string)
    ensures NormalizeSource(Lower(source)) == NormalizeSource(source)
  {
    StripLower(source);
    LowerIdempotent(Strip(source));
  }

  /** The platform part of the key ignores leading whitespace. */
  lemma NormalizeIgnoresLeadingSpace(c: char, source: string)
    requires IsSpace(c)
    ensures NormalizeSource([c] + source) == NormalizeSource(source)
  {
    StripLeadingSpace(c, source);
  }

  /** A blank platform name is filed under "unknown". */
  lemma BlankSourceIsUnknown(source: string)
    requires forall i :: 0 <= i < |source| ==> IsSpace(source[i])
    ensures NormalizeSource(source) == "unknown"
  {
    StripBlank(source);
  }
}
