/** The "card of the day" handler of modules/tarot_day/handler.py: trigger and reset
    phrases, the multi-line descriptions file, the image folder, the description lookup and
    the reply, over the per-user store of module TarotState. */
module TarotDay {
  import opened Optional
  import opened Strings
  import opened Clock
  import opened Actions
  import opened TarotState

  // ---------------------------------------------------------------- triggers

  const TarotTriggers: seq<string> := ["карта дня", "карту дня", "карте дня", "таро", "совет"]

  const ResetTriggers: set<string> := {
    "/tarot_reset", "/reset_tarot", "сброс карты дня", "сбросить карту дня",
    "сброс карты таро", "сбросить карту таро"
  }

  const ResetDone := "✅ Сбросила твою статистику по «карте дня». Можешь запросить карту снова 🙂"
  const ResetNone := "ℹ️ У тебя и так нет записи о карте на сегодня. Просто попроси «карту дня»."
  const AlreadyResponses: seq<string> := [
    "Эй, полегче 😄 Карта дня уже была. Вселенная на сегодня высказалась, следующая — только завтра 🔮",
    "Я бы рад, но карты сегодня уже всё сказали 😏 Завтра будет новое предсказание ✨",
    "Вторую карту сегодня не выдаём — гадание по расписанию 😄 Следующая завтра",
    "Осторожно, перерасход магии! ✨ На сегодня лимит исчерпан, приходи завтра 🔮",
    "Вселенная сказала: «Хватит на сегодня» 🤷‍♂️ Завтра продолжим 🔮"
  ]
  const NoFolder := "Папка с картами не найдена (modules/tarot_day/images)."
  const NoImages := "В папке modules/tarot_day/images нет картинок."
  const NotFound := "Описание для этой карты не найдено."

  /** `_normalize`: lower-cased, then trimmed. */
  function Normalize(text: string): (r: string)
    ensures r != "" ==> !IsSpace(r[0]) && !IsSpace(r[|r| - 1])
  {
    Strip(Lower(text))
  }

  /** `_triggered`: one of the trigger phrases occurs in the normalised text. */
  predicate Triggered(text: string) {
    ContainsAny(Normalize(text), TarotTriggers)
  }

  /** Empty text never triggers. */
  lemma EmptyNeverTriggers()
    ensures !Triggered("")
  {
    NothingInEmpty(TarotTriggers);
  }

  // ---------------------------------------------------------------- descriptions file

  const ImageExtensions: set<string> := {"jpg", "jpeg", "png"}

  /** `re.match(r"^image\d+\.(jpg|jpeg|png)$", h, re.IGNORECASE)`. */
  predicate IsImageName(h: string) {
    var l := Lower(h);
    var d := IndexOf(l, '.');
    5 < d < |l| && l[..5] == "image" && AllDigits(l[5..d]) && l[d + 1..] in ImageExtensions
  }

  /** The line as the loop sees it, with trailing newline characters removed. */
  function Line(raw: string): string {
    TrimEnd(raw, {'\n'})
  }

  /** A comment: the trimmed line starts with `#`. */
  predicate IsComment(line: string) {
    StartsWith(Strip(line), "#")
  }

  /** The text before the first `|`, then before the first `:`, trimmed. */
  function Head(line: string): string {
    Strip(Before(Before(line, '|'), ':'))
  }

  /** A line that starts a new record. */
  predicate IsHeader(line: string) {
    IsImageName(Head(line)) && (Has(line, '|') || Has(line, ':'))
  }

  /** The record name: the text before the first `|` when there is one, otherwise before
      the first `:`, trimmed. */
  function HeaderName(line: string): string {
    Strip(if Has(line, '|') then Before(line, '|') else Before(line, ':'))
  }

  /** The start of the record text on the header line, without its leading whitespace. */
  function HeaderFirst(line: string): string
    requires Has(line, '|') || Has(line, ':')
  {
    LStrip(if Has(line, '|') then After(line, '|') else After(line, ':'))
  }

  /** What one line of the file is to the loop. */
  datatype LineKind =
    | Comment
    | Header(name: string, first: string)
    | Continuation(line: string)

  function Classify(raw: string): LineKind {
    var line := Line(raw);
    if IsComment(line) then Comment
    else if IsHeader(line) then Header(HeaderName(line), HeaderFirst(line))
    else Continuation(line)
  }

  function Kinds(lines: seq<string>): (ks: seq<LineKind>)
    ensures |ks| == |lines| && forall i :: 0 <= i < |lines| ==> ks[i] == Classify(lines[i])
  {
    seq(|lines|, i requires 0 <= i < |lines| => Classify(lines[i]))
  }

  /** The stored text of a record: the lines joined by newlines, outer newlines stripped,
      literal backslash-n sequences turned into newlines. */
  function RecordText(buf: seq<string>): string {
    Unescape(StripChars(Join("\n", buf), {'\n'}))
  }

  /** The loop's variables: the map built so far, the open record's name, its lines. */
  datatype Parse = Parse(out: map<string, string>, current: Option<string>, buf: seq<string>)

  const Start := Parse(map[], None, [])

  /** `_flush`, as far as the map is concerned: the open record is stored when it has a
      non-empty name and non-empty text. */
  function FlushOut(p: Parse): map<string, string> {
    if p.current.None? || p.current.value == "" then p.out
    else
      var text := RecordText(p.buf);
      if text != "" then p.out[p.current.value := text] else p.out
  }

  /** One turn of the loop: comments are skipped, a header flushes the open record and
      opens a new one, other lines extend the open record or are dropped. */
  function Step(p: Parse, k: LineKind): Parse {
    match k
    case Comment => p
    case Header(name, first) => Parse(FlushOut(p), Some(name), [first])
    case Continuation(line) => if p.current.Some? then p.(buf := p.buf + [line]) else p
  }

  function Fold(ks: seq<LineKind>): Parse {
    if |ks| == 0 then Start else Step(Fold(ks[..|ks| - 1]), ks[|ks| - 1])
  }

  /** The records of a classified file: the loop, then the final flush. */
  function Assemble(ks: seq<LineKind>): map<string, string> {
    FlushOut(Fold(ks))
  }

  /** `_load_descriptions` on the lines of the file. */
  function Descriptions(lines: seq<string>): (r: map<string, string>)
    ensures GoodValues(r)
  {
    StoredTextsNonEmptyUnescaped(Kinds(lines));
    Assemble(Kinds(lines))
  }

  /** `_load_descriptions`: a missing file gives the empty map. */
  method LoadDescriptions(file: Option<seq<string>>) returns (out: map<string, string>)
    ensures out == if file.None? then map[] else Descriptions(file.value)
  {
    if file.None? {
      return map[];
    }
    var lines := file.value;
    ghost var ks := Kinds(lines);
    out := map[];
    var current: Option<string> := None;
    var buf: seq<string> := [];
    var i := 0;
    while i < |lines|
      invariant 0 <= i <= |lines|
      invariant Parse(out, current, buf) == Fold(ks[..i])
    {
      assert ks[..i + 1][..i] == ks[..i];
      var kind := Classify(lines[i]);
      assert kind == ks[..i + 1][i];
      match kind {
        case Comment =>
        case Header(name, first) =>
          out := FlushOut(Parse(out, current, buf));
          current := Some(name);
          buf := [first];
        case Continuation(line) =>
          if current.Some? {
            buf := buf + [line];
          }
      }
      i := i + 1;
    }
    assert ks[..|lines|] == ks;
    out := FlushOut(Parse(out, current, buf));
  }

  // ---------------------------------------------------------------- descriptions: properties

  /** A header's name is never empty, since its head is an image name. */
  lemma HeaderNameNonEmpty(line: string)
    requires IsHeader(line)
    ensures HeaderName(line) != ""
  {
    var name := if Has(line, '|') then Before(line, '|') else Before(line, ':');
    HeadWithinName(line);
    ImageNameNonEmpty(Head(line));
    BlankPrefix(name, |Before(Before(line, '|'), ':')|);
  }

  /** The text a header's head is cut from starts its name. */
  lemma HeadWithinName(line: string)
    ensures var name := if Has(line, '|') then Before(line, '|') else Before(line, ':');
            var h := Before(Before(line, '|'), ':');
            |h| <= |name| && h == name[..|h|]
  {
    if !Has(line, '|') {
      assert Before(line, '|') == line;
    }
  }

  lemma ImageNameNonEmpty(h: string)
    requires IsImageName(h)
    ensures h != ""
  {
  }

  /** A text with a prefix that is not blank is not blank either. */
  lemma BlankPrefix(s: string, n: nat)
    requires n <= |s| && Strip(s[..n]) != ""
    ensures Strip(s) != ""
  {
    StripBlank(s);
    StripBlank(s[..n]);
  }

  predicate GoodValues(m: map<string, string>) {
    forall k :: k in m ==> m[k] != "" && NoEscapedNewline(m[k])
  }

  lemma {:induction false} FoldGoodValues(ks: seq<LineKind>)
    ensures GoodValues(Fold(ks).out)
    decreases |ks|
  {
    if |ks| > 0 {
      FoldGoodValues(ks[..|ks| - 1]);
    }
  }

  /** Every stored description is non-empty and holds no literal backslash-n any more. */
  lemma StoredTextsNonEmptyUnescaped(ks: seq<LineKind>)
    ensures GoodValues(Assemble(ks))
  {
    FoldGoodValues(ks);
  }

  predicate NamedByHeader(ks: seq<LineKind>, k: string) {
    exists i | 0 <= i < |ks| :: ks[i].Header? && ks[i].name == k
  }

  lemma {:induction false} FoldKeysFromHeaders(ks: seq<LineKind>)
    ensures forall k :: k in Fold(ks).out ==> NamedByHeader(ks, k)
    ensures Fold(ks).current.Some? ==> NamedByHeader(ks, Fold(ks).current.value)
    decreases |ks|
  {
    if |ks| > 0 {
      var n := |ks| - 1;
      var pre := ks[..n];
      FoldKeysFromHeaders(pre);
      forall k | NamedByHeader(pre, k)
        ensures NamedByHeader(ks, k)
      {
        var i :| 0 <= i < |pre| && pre[i].Header? && pre[i].name == k;
        assert ks[i] == pre[i];
      }
      if ks[n].Header? {
        assert NamedByHeader(ks, ks[n].name);
      }
    }
  }

  /** Every stored name is the name of some header line, so a file without headers gives
      the empty map. */
  lemma KeysComeFromHeaders(ks: seq<LineKind>)
    ensures forall k :: k in Assemble(ks) ==> NamedByHeader(ks, k)
  {
    FoldKeysFromHeaders(ks);
  }

  /** Two line lists that leave the loop in the same state still agree after any
      common continuation. */
  lemma {:induction false} FoldCongruent(a: seq<LineKind>, b: seq<LineKind>, rest: seq<LineKind>)
    requires Fold(a) == Fold(b)
    ensures Fold(a + rest) == Fold(b + rest)
    decreases |rest|
  {
    if |rest| > 0 {
      var n := |rest| - 1;
      assert (a + rest)[..|a| + n] == a + rest[..n];
      assert (b + rest)[..|b| + n] == b + rest[..n];
      FoldCongruent(a, b, rest[..n]);
    } else {
      assert a + rest == a && b + rest == b;
    }
  }

  /** A comment line can be removed without changing the result. */
  lemma CommentIgnored(pre: seq<LineKind>, post: seq<LineKind>)
    ensures Assemble(pre + [Comment] + post) == Assemble(pre + post)
  {
    assert (pre + [Comment])[..|pre|] == pre;
    FoldCongruent(pre + [Comment], pre, post);
  }

  lemma {:induction false} PreambleStart(ks: seq<LineKind>)
    requires forall i :: 0 <= i < |ks| ==> !ks[i].Header?
    ensures Fold(ks) == Start
    decreases |ks|
  {
    if |ks| > 0 {
      PreambleStart(ks[..|ks| - 1]);
    }
  }

  /** Lines before the first header are ignored. */
  lemma PreambleIgnored(pre: seq<LineKind>, rest: seq<LineKind>)
    requires forall i :: 0 <= i < |pre| ==> !pre[i].Header?
    ensures Assemble(pre + rest) == Assemble(rest)
  {
    PreambleStart(pre);
    assert [] + rest == rest;
    FoldCongruent(pre, [], rest);
  }

  function Continuations(body: seq<string>): (cs: seq<LineKind>)
    ensures |cs| == |body| && forall i :: 0 <= i < |body| ==> cs[i] == Continuation(body[i])
  {
    seq(|body|, i requires 0 <= i < |body| => Continuation(body[i]))
  }

  /** The lines after a header, up to the next header, are that record's lines. */
  lemma {:induction false} RecordLines(pre: seq<LineKind>, name: string, first: string, body: seq<string>)
    ensures Fold(pre + [Header(name, first)] + Continuations(body))
            == Parse(FlushOut(Fold(pre)), Some(name), [first] + body)
    decreases |body|
  {
    var h := Header(name, first);
    var cs := Continuations(body);
    if |body| > 0 {
      var n := |body| - 1;
      assert cs[..n] == Continuations(body[..n]);
      assert (pre + [h] + cs)[..|pre| + 1 + n] == pre + [h] + Continuations(body[..n]);
      RecordLines(pre, name, first, body[..n]);
      assert [first] + body == [first] + body[..n] + [body[n]];
    } else {
      assert (pre + [h] + cs)[..|pre|] == pre;
    }
  }

  /** The last record with a given name wins: it holds the header's text followed by the
      lines after it, blank ones included, once that text is non-empty. */
  lemma LastRecordWins(pre: seq<LineKind>, name: string, first: string, body: seq<string>)
    requires name != "" && RecordText([first] + body) != ""
    ensures var m := Assemble(pre + [Header(name, first)] + Continuations(body));
            name in m && m[name] == RecordText([first] + body)
  {
    RecordLines(pre, name, first, body);
  }

  // ---------------------------------------------------------------- image folder

  /** An entry of the images folder. */
  datatype DirEntry = DirEntry(name: string, isFile: bool)

  /** `Path(name).suffix`: from the last dot, unless the dot starts or ends the name. */
  function Suffix(name: string): (r: string)
    ensures r != "" ==> r[0] == '.' && |r| >= 2
  {
    var i := LastIndexOf(name, '.');
    if 0 < i < |name| - 1 then name[i..] else ""
  }

  const ImageSuffixes: set<string> := {".jpg", ".jpeg", ".png"}

  predicate IsImageFile(e: DirEntry) {
    e.isFile && Lower(Suffix(e.name)) in ImageSuffixes
  }

  /** The image files of the folder, in listing order. */
  function ImageFiles(entries: seq<DirEntry>): seq<string>
    decreases |entries|
  {
    if |entries| == 0 then []
    else
      var rest := ImageFiles(entries[1..]);
      if IsImageFile(entries[0]) then [entries[0].name] + rest else rest
  }

  /** The listed images are exactly the image files of the folder, and none has an empty
      name. */
  lemma {:induction false} ImageFilesSpec(entries: seq<DirEntry>)
    ensures forall e :: e in entries && IsImageFile(e) ==> e.name in ImageFiles(entries)
    ensures forall x :: x in ImageFiles(entries) ==>
              x != "" && exists e :: e in entries && IsImageFile(e) && e.name == x
    decreases |entries|
  {
    if |entries| > 0 {
      ImageFilesSpec(entries[1..]);
      assert forall e :: e in entries ==> e == entries[0] || e in entries[1..];
      assert forall e :: e in entries[1..] ==> e in entries;
    }
  }

  // ---------------------------------------------------------------- description lookup

  /** The `image<N>.jpg` key of an image name. */
  function JpgKey(card: string): string
    requires IsImageName(card)
  {
    "image" + card[5..IndexOf(Lower(card), '.')] + ".jpg"
  }

  /** The keys the lookup may use for a card. */
  function LookupKeys(card: string): set<string> {
    {card, Lower(card)} + if IsImageName(card) then {JpgKey(card)} else {}
  }

  function Get(descs: map<string, string>, k: string): string {
    if k in descs then descs[k] else ""
  }

  /** The description of a card: the exact name, then the lower-cased name, then
      `image<N>.jpg`; "" when none of them has a non-empty description. */
  function DescriptionFor(descs: map<string, string>, card: string): (r: string)
    ensures r != "" ==> r in descs.Values
  {
    var d := Get(descs, card);
    if d != "" then d
    else
      var d := Get(descs, Lower(card));
      if d != "" then d
      else if IsImageName(card) then Get(descs, JpgKey(card))
      else ""
  }
  /** The exact name wins; any description found is stored under one of the lookup keys;
      and "" comes back exactly when none of the keys has a non-empty description. */
  lemma DescriptionForSpec(descs: map<string, string>, card: string)
    ensures var r := DescriptionFor(descs, card);
            (Get(descs, card) != "" ==> r == Get(descs, card))
            && (r != "" ==> exists k :: k in LookupKeys(card) && k in descs && descs[k] == r)
            && (r == "" <==> forall k :: k in LookupKeys(card) ==> Get(descs, k) == "")
  {
  }


  // ---------------------------------------------------------------- the reply

  /** What the text asks for: nothing, the reset command, or a card. */
  datatype Request = Silent | ResetCommand | Draw

  /** The first steps of `get_tarot_day_reply`: empty text, then the exact reset phrases,
      then the triggers. */
  function RequestOf(text: string): Request {
    if text == "" then Silent
    else if Normalize(text) in ResetTriggers then ResetCommand
    else if Triggered(text) then Draw
    else Silent
  }

  /** What one call returns and the state file it leaves. */
  datatype TarotResult = TarotResult(reply: Option<seq<Action>>, file: StateFile)

  /** The rest of `get_tarot_day_reply`: the folder is `None` when it does not exist,
      `descs` is what `_load_descriptions` read, `pick` stands for the random choices. */
  function Respond(file: StateFile, req: Request, userId: int, source: string, today: Date,
                   imagesDir: string, folder: Option<seq<DirEntry>>, descs: map<string, string>,
                   pick: nat): (r: TarotResult)
    requires ValidDate(today)
    ensures req.Silent? <==> r.reply.None?
    ensures req.Silent? ==> r.file == file
    ensures r.reply.Some? ==> 1 <= |r.reply.value| <= 2
  {
    match req
    case Silent => TarotResult(None, file)
    case ResetCommand => ResetResult(file, userId, source)
    case Draw => DrawResult(file, userId, source, today, imagesDir, folder, descs, pick)
  }

  /** The reset command: the caller's record is dropped when there is one. */
  function ResetResult(file: StateFile, userId: int, source: string): TarotResult {
    var raw := LoadRaw(file);
    var key := UserKey(userId, source);
    if key in raw then TarotResult(Some(Say(ResetDone)), Stored(raw - {key}))
    else TarotResult(Some(Say(ResetNone)), file)
  }

  /** A request for a card. */
  function DrawResult(file: StateFile, userId: int, source: string, today: Date,
                      imagesDir: string, folder: Option<seq<DirEntry>>, descs: map<string, string>,
                      pick: nat): (r: TarotResult)
    requires ValidDate(today)
    ensures r.reply.Some? && (|r.reply.value| == 1 || |r.reply.value| == 2)
    ensures |r.reply.value| == 1 ==> r.reply.value[0].Text? && r.file == file
    ensures |r.reply.value| == 2 ==> r.reply.value[0].Photo? && r.reply.value[1].Text? && r.file.Stored?
  {
    if TodayCard(LoadRaw(file), userId, source, today).Some? then
      TarotResult(Some(Say(AlreadyResponses[pick % |AlreadyResponses|])), file)
    else if folder.None? then TarotResult(Some(Say(NoFolder)), file)
    else
      var files := ImageFiles(folder.value);
      if |files| == 0 then TarotResult(Some(Say(NoImages)), file)
      else
        var card := files[pick % |files|];
        var desc := DescriptionFor(descs, card);
        TarotResult(Some([Photo(imagesDir + "/" + card, ""), Text(if desc != "" then desc else NotFound)]),
                    Stored(PutCard(LoadRaw(file), userId, source, card, today)))
  }

  function LoadedDescriptions(descFile: Option<seq<string>>): map<string, string> {
    if descFile.None? then map[] else Descriptions(descFile.value)
  }

  /** `get_tarot_day_reply` against the state store. */
  method GetTarotDayReply(store: StateStore, text: string, userId: int, source: string, today: Date,
                          imagesDir: string, folder: Option<seq<DirEntry>>, descFile: Option<seq<string>>,
                          pick: nat) returns (reply: Option<seq<Action>>)
    requires ValidDate(today)
    modifies store
    ensures TarotResult(reply, store.file)
            == Respond(old(store.file), RequestOf(text), userId, source, today, imagesDir, folder,
                       LoadedDescriptions(descFile), pick)
  {
    var req := RequestKind(text);
    match req {
      case Silent => reply := None;
      case ResetCommand => reply := ResetCard(store, userId, source);
      case Draw => reply := DrawCard(store, userId, source, today, imagesDir, folder, descFile, pick);
    }
  }

  /** The first steps of `get_tarot_day_reply`: the empty text, the reset phrases on the
      normalised text, then the triggers. */
  method RequestKind(text: string) returns (req: Request)
    ensures req == RequestOf(text)
  {
    if text == "" {
      return Silent;
    }
    var low := Normalize(text);
    if low in ResetTriggers {
      return ResetCommand;
    }
    if !Triggered(text) {
      return Silent;
    }
    return Draw;
  }

  /** The reset branch of `get_tarot_day_reply`. */
  method ResetCard(store: StateStore, userId: int, source: string) returns (reply: Option<seq<Action>>)
    modifies store
    ensures TarotResult(reply, store.file) == ResetResult(old(store.file), userId, source)
  {
    var cleared := store.ResetTodayCardForUser(userId, source);
    reply := if cleared then Some(Say(ResetDone)) else Some(Say(ResetNone));
  }

  /** The card-drawing part of `get_tarot_day_reply`, once a trigger was found. */
  method DrawCard(store: StateStore, userId: int, source: string, today: Date,
                  imagesDir: string, folder: Option<seq<DirEntry>>, descFile: Option<seq<string>>,
                  pick: nat) returns (reply: Option<seq<Action>>)
    requires ValidDate(today)
    modifies store
    ensures TarotResult(reply, store.file)
            == DrawResult(old(store.file), userId, source, today, imagesDir, folder,
                          LoadedDescriptions(descFile), pick)
  {
    var already := store.GetTodayCardForUser(userId, source, today);
    if already.Some? {
      return Some(Say(AlreadyResponses[pick % |AlreadyResponses|]));
    }
    if folder.None? {
      return Some(Say(NoFolder));
    }
    var files := ImageFiles(folder.value);
    if |files| == 0 {
      return Some(Say(NoImages));
    }
    var descs := LoadDescriptions(descFile);
    var card := files[pick % |files|];
    var _ := store.SetTodayCardForUser(userId, source, card, today);
    var desc := DescriptionFor(descs, card);
    reply := Some([Photo(imagesDir + "/" + card, ""), Text(if desc != "" then desc else NotFound)]);
  }

  // ---------------------------------------------------------------- the reply: properties

  /** Empty text, and text with neither a reset phrase nor a trigger, ask for nothing. */
  lemma SilentRequests(text: string)
    requires text == "" || (Normalize(text) !in ResetTriggers && !Triggered(text))
    ensures RequestOf(text) == Silent
  {
  }

  /** Nothing is answered and nothing is written for a silent request. */
  lemma SilentWritesNothing(file: StateFile, userId: int, source: string, today: Date,
                            imagesDir: string, folder: Option<seq<DirEntry>>, descs: map<string, string>,
                            pick: nat)
    requires ValidDate(today)
    ensures Respond(file, Silent, userId, source, today, imagesDir, folder, descs, pick) == TarotResult(None, file)
  {
  }

  /** The reset command answers with exactly one text, the "done" one exactly when the user
      had a record, and afterwards the user has no card on any day. */
  lemma ResetClearsCard(file: StateFile, userId: int, source: string, today: Date,
                        imagesDir: string, folder: Option<seq<DirEntry>>, descs: map<string, string>,
                        pick: nat, day: Date)
    requires ValidDate(today) && ValidDate(day)
    ensures var r := Respond(file, ResetCommand, userId, source, today, imagesDir, folder, descs, pick);
            r.reply == Some(Say(if UserKey(userId, source) in LoadRaw(file) then ResetDone else ResetNone))
            && TodayCard(LoadRaw(r.file), userId, source, day) == None
  {
  }

  /** A user who already has today's card gets one refusal text and nothing is written. */
  lemma AlreadyDrawnRefuses(file: StateFile, userId: int, source: string, today: Date,
                            imagesDir: string, folder: Option<seq<DirEntry>>, descs: map<string, string>,
                            pick: nat)
    requires ValidDate(today)
    requires TodayCard(LoadRaw(file), userId, source, today).Some?
    ensures var r := Respond(file, Draw, userId, source, today, imagesDir, folder, descs, pick);
            r.file == file && r.reply.Some? && |r.reply.value| == 1
            && r.reply.value[0].Text? && r.reply.value[0].text in AlreadyResponses
  {
  }

  /** A draw picks one of the folder's image files, records it as the user's card for today
      and replies with the photo, uncaptioned, and a non-empty text. */
  lemma DrawRecordsCard(file: StateFile, userId: int, source: string, today: Date,
                        imagesDir: string, folder: Option<seq<DirEntry>>, descs: map<string, string>,
                        pick: nat)
    requires ValidDate(today)
    requires TodayCard(LoadRaw(file), userId, source, today).None?
    requires folder.Some? && |ImageFiles(folder.value)| > 0
    ensures var r := Respond(file, Draw, userId, source, today, imagesDir, folder, descs, pick);
            exists card :: card in ImageFiles(folder.value)
              && TodayCard(LoadRaw(r.file), userId, source, today) == Some(DailyState(IsoDate(today), card))
              && r.reply.Some? && |r.reply.value| == 2
              && r.reply.value[0] == Photo(imagesDir + "/" + card, "")
              && r.reply.value[1].Text? && r.reply.value[1].text != ""
  {
    var files := ImageFiles(folder.value);
    var card := files[pick % |files|];
    assert card in files;
    ImageFilesSpec(folder.value);
    RespondDraw(file, userId, source, today, imagesDir, folder, descs, pick);
    SetThenGet(LoadRaw(file), userId, source, card, today);
  }

  /** The result of a draw, spelled out. */
  lemma RespondDraw(file: StateFile, userId: int, source: string, today: Date,
                    imagesDir: string, folder: Option<seq<DirEntry>>, descs: map<string, string>,
                    pick: nat)
    requires ValidDate(today)
    requires TodayCard(LoadRaw(file), userId, source, today).None?
    requires folder.Some? && |ImageFiles(folder.value)| > 0
    ensures var files := ImageFiles(folder.value);
            var card := files[pick % |files|];
            var desc := DescriptionFor(descs, card);
            DrawResult(file, userId, source, today, imagesDir, folder, descs, pick)
            == TarotResult(Some([Photo(imagesDir + "/" + card, ""), Text(if desc != "" then desc else NotFound)]),
                           Stored(PutCard(LoadRaw(file), userId, source, card, today)))
  {
  }

  /** One card a day: after a draw, any further request for a card from the same user on
      the same day is refused and writes nothing. */
  lemma OneCardPerDay(file: StateFile, userId: int, source: string, today: Date,
                      imagesDir: string, folder: Option<seq<DirEntry>>, descs: map<string, string>,
                      pick: nat, pick2: nat)
    requires ValidDate(today)
    requires TodayCard(LoadRaw(file), userId, source, today).None?
    requires folder.Some? && |ImageFiles(folder.value)| > 0
    ensures var r := Respond(file, Draw, userId, source, today, imagesDir, folder, descs, pick);
            Respond(r.file, Draw, userId, source, today, imagesDir, folder, descs, pick2)
            == TarotResult(Some(Say(AlreadyResponses[pick2 % |AlreadyResponses|])), r.file)
  {
    DrawRecordsCard(file, userId, source, today, imagesDir, folder, descs, pick);
  }

  /** A call by one user never changes another user's card of the day. */
  lemma OtherUsersUntouched(file: StateFile, req: Request, userId: int, source: string, today: Date,
                            imagesDir: string, folder: Option<seq<DirEntry>>, descs: map<string, string>,
                            pick: nat, otherId: int, otherSource: string, day: Date)
    requires ValidDate(today) && ValidDate(day)
    requires UserKey(otherId, otherSource) != UserKey(userId, source)
    ensures var r := Respond(file, req, userId, source, today, imagesDir, folder, descs, pick);
            TodayCard(LoadRaw(r.file), otherId, otherSource, day) == TodayCard(LoadRaw(file), otherId, otherSource, day)
  {
    match req
    case Silent =>
    case ResetCommand => ResetKeepsOthers(file, userId, source, otherId, otherSource, day);
    case Draw => DrawKeepsOthers(file, userId, source, today, imagesDir, folder, descs, pick, otherId, otherSource, day);
  }

  lemma ResetKeepsOthers(file: StateFile, userId: int, source: string, otherId: int, otherSource: string, day: Date)
    requires ValidDate(day)
    requires UserKey(otherId, otherSource) != UserKey(userId, source)
    ensures TodayCard(LoadRaw(ResetResult(file, userId, source).file), otherId, otherSource, day)
            == TodayCard(LoadRaw(file), otherId, otherSource, day)
  {
    var raw := LoadRaw(file);
    var key := UserKey(userId, source);
    if key in raw {
      assert LoadRaw(ResetResult(file, userId, source).file) == raw - {key};
      SameEntrySameCard(raw - {key}, raw, otherId, otherSource, day);
    }
  }

  lemma DrawKeepsOthers(file: StateFile, userId: int, source: string, today: Date,
                        imagesDir: string, folder: Option<seq<DirEntry>>, descs: map<string, string>,
                        pick: nat, otherId: int, otherSource: string, day: Date)
    requires ValidDate(today) && ValidDate(day)
    requires UserKey(otherId, otherSource) != UserKey(userId, source)
    ensures var r := DrawResult(file, userId, source, today, imagesDir, folder, descs, pick);
            TodayCard(LoadRaw(r.file), otherId, otherSource, day) == TodayCard(LoadRaw(file), otherId, otherSource, day)
  {
    var raw := LoadRaw(file);
    if TodayCard(raw, userId, source, today).None? && folder.Some? && |ImageFiles(folder.value)| > 0 {
      var files := ImageFiles(folder.value);
      RespondDraw(file, userId, source, today, imagesDir, folder, descs, pick);
      SetKeepsOthers(raw, userId, source, files[pick % |files|], today, otherId, otherSource, day);
    }
  }

  /** A user's card depends only on that user's entry of the object. */
  lemma SameEntrySameCard(a: map<string, Json>, b: map<string, Json>, userId: int, source: string, day: Date)
    requires ValidDate(day)
    requires var k := UserKey(userId, source); (k in a <==> k in b) && (k in a ==> a[k] == b[k])
    ensures TodayCard(a, userId, source, day) == TodayCard(b, userId, source, day)
  {
  }
}
