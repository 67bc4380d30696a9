/** The platform-neutral router of core/engine.py: `build_reply_actions` tries its branches
    in a fixed order (start, tarot, Romeo, Shine and the fortune teller, lunar day,
    horoscope) and otherwise falls back to the Telegram-shaped keyword handler. The handler
    runs against fakes: a fake message that collects the texts it is replied with, and a
    fake bot that appends the stickers it is sent to the output list itself. Only the
    fallback result is cleaned of empty texts. */
module Engine {
  import opened Optional
  import opened Strings
  import opened Clock
  import opened Actions
  import opened HoroscopeSite
  import opened TarotAdvice

  const Greeting := "Привет! Я бот. Напиши сообщение — я отвечу 🙂"
  const AskSign := "Хочешь гороскоп? Напиши: Гороскоп для ... Кого? \nЯ ж вас всех не упомню 😁"
  const PhotoPlaceholder := "(photo)"

  /** The engine's own table of signs and their forms, in the order the dictionary lists
      them. */
  const EngineSigns: SignTable := [
    ("овен", ["овен", "овна", "овну", "овном"]),
    ("телец", ["телец", "тельца", "тельцу", "тельцом"]),
    ("близнецы", ["близнец", "близнецы", "близнецам", "близнецов"]),
    ("рак", ["рак", "рака", "раку", "раком"]),
    ("лев", ["лев", "льва", "льву", "львом"]),
    ("дева", ["дева", "девы", "деве", "девой", "девою"]),
    ("весы", ["весы", "весам", "весов"]),
    ("скорпион", ["скорпион", "скорпиона", "скорпиону", "скорпионом"]),
    ("стрелец", ["стрелец", "стрельца", "стрельцу", "стрельцом"]),
    ("козерог", ["козерог", "козерога", "козерогу", "козерогом"]),
    ("водолей", ["водолей", "водолея", "водолею", "водолеем"]),
    ("рыбы", ["рыбы", "рыбам", "рыб"])
  ]

  /** What the fallback handler does to the fakes, in the order it does it. */
  datatype HandlerCall = ReplyText(text: string) | ReplyPhoto | SendSticker(fileId: string)

  /** The helpers the engine calls, which are not part of this model: the keyword lists,
      the random replies of Romeo and Shine, the page fetched for a horoscope, and the
      calls the fallback handler makes. */
  datatype Helpers = Helpers(
    romeoKeywords: seq<string>,
    shineKeywords: seq<string>,
    gadalkaKeywords: seq<string>,
    romeoReply: string,
    shineReply: string,
    page: string -> string,
    calls: seq<HandlerCall>)

  /** What `build_reply_actions` gives: the actions, or an exception that escapes. Two
      escape: the `IndexError` of a tarot draw from an empty deck, and the `TypeError` of
      the lunar-day branch, which calls `lunar_day_command()` without the `update` and
      `context` arguments that handlers/lunar_day.py requires. */
  datatype Built = Built(actions: seq<Action>) | Raised

  // ---------------------------------------------------------------- routing

  datatype Route = Start | Tarot | Romeo | Shine | Lunar | Horoscope | Fallback

  predicate IsStart(low: string) {
    low == "/start" || low == "start"
  }

  predicate IsLunar(low: string) {
    Contains(low, "лун") && (Contains(low, "день") || Contains(low, "календар"))
  }

  /** The branch `build_reply_actions` takes for the lower-cased, trimmed text. */
  function RouteOf(low: string, h: Helpers): (r: Route)
    ensures r == Tarot <==> !IsStart(low) && Contains(low, "таро")
    ensures r == Horoscope ==> Contains(low, "гороскоп") && !Contains(low, "таро")
  {
    if IsStart(low) then Start
    else if Contains(low, "таро") then Tarot
    else if ContainsAny(low, h.romeoKeywords) then Romeo
    else if ContainsAny(low, h.shineKeywords) || ContainsAny(low, h.gadalkaKeywords) then Shine
    else if IsLunar(low) then Lunar
    else if Contains(low, "гороскоп") then Horoscope
    else Fallback
  }

  /** The conditions of the branches, in the order they are tried. */
  function Conditions(low: string, h: Helpers): (cs: seq<bool>)
    ensures |cs| == 6
  {
    [IsStart(low), Contains(low, "таро"), ContainsAny(low, h.romeoKeywords),
     ContainsAny(low, h.shineKeywords) || ContainsAny(low, h.gadalkaKeywords),
     IsLunar(low), Contains(low, "гороскоп")]
  }

  /** The position of a routed branch in the order. */
  function Rank(r: Route): (k: nat)
    ensures k <= 6
  {
    match r
    case Start => 0
    case Tarot => 1
    case Romeo => 2
    case Shine => 3
    case Lunar => 4
    case Horoscope => 5
    case Fallback => 6
  }

  /** The first branch whose condition holds wins: the chosen branch's condition holds and
      no earlier one does, and the fallback is taken exactly when none holds. */
  lemma FirstMatchWins(low: string, h: Helpers)
    ensures var k, cs := Rank(RouteOf(low, h)), Conditions(low, h);
            (k < 6 ==> cs[k]) && (forall j :: 0 <= j < k ==> !cs[j])
            && (k == 6 <==> forall j :: 0 <= j < 6 ==> !cs[j])
  {
  }

  /** A text asking for both a tarot card and a horoscope gets the tarot answer. */
  lemma TarotBeforeHoroscope(before: string, middle: string, after: string, h: Helpers)
    requires !IsStart(before + "таро" + middle + "гороскоп" + after)
    ensures RouteOf(before + "таро" + middle + "гороскоп" + after, h) == Tarot
  {
    var low := before + "таро" + middle + "гороскоп" + after;
    assert low == before + "таро" + (middle + "гороскоп" + after);
    ContainsMiddle(before, "таро", middle + "гороскоп" + after);
  }

  // ---------------------------------------------------------------- branches

  /** The tarot branch: a drawn card becomes its photo with the description as caption, a
      refusal its text. */
  function TarotReply(o: DailyOutcome): Built {
    match o
    case Drawn(advice) => Built([Photo(advice.image, advice.description)])
    case Refused(message) => Built([Text(message)])
    case EmptyDeck => Raised
  }

  /** The text of the horoscope branch: the horoscope of the first sign of the engine's
      table with a form in the text, or the question which sign. */
  function HoroscopeText(low: string, page: string -> string): string {
    match FirstSign(EngineSigns, low)
    case Some(sign) => HoroscopeFromWebsite(sign, page)
    case None => AskSign
  }

  /** The loop over the engine's sign table, stopping at the first sign with a form in
      the text. */
  method FindSign(low: string) returns (found: Option<string>)
    ensures found == FirstSign(EngineSigns, low)
  {
    found := None;
    var i := 0;
    while i < |EngineSigns|
      invariant 0 <= i <= |EngineSigns|
      invariant FirstSign(EngineSigns, low) == FirstSign(EngineSigns[i..], low)
    {
      assert EngineSigns[i..][1..] == EngineSigns[i + 1..];
      var (zodiac, forms) := EngineSigns[i];
      if ContainsAny(low, forms) {
        found := Some(zodiac);
        return;
      }
      i := i + 1;
    }
  }

  /** The horoscope branch answers with one text: the horoscope of a sign whose form
      occurs, the first such in the table, and the question which sign exactly when no
      form occurs. */
  lemma HoroscopeAnswer(low: string, page: string -> string)
    ensures FirstSign(EngineSigns, low).None? <==>
              forall k :: 0 <= k < |EngineSigns| ==> !ContainsAny(low, EngineSigns[k].1)
    ensures FirstSign(EngineSigns, low).None? ==> HoroscopeText(low, page) == AskSign
    ensures FirstSign(EngineSigns, low).Some? ==>
              exists k :: 0 <= k < |EngineSigns| && ContainsAny(low, EngineSigns[k].1)
                          && (forall j :: 0 <= j < k ==> !ContainsAny(low, EngineSigns[j].1))
                          && HoroscopeText(low, page) == HoroscopeFromWebsite(EngineSigns[k].0, page)
  {
    FirstSignSpec(EngineSigns, low);
  }

  // ---------------------------------------------------------------- the fallback

  /** The output list `out`, shared by the engine and the fake bot. */
  class OutList {
    var items: seq<Action>

    constructor ()
      ensures items == []
    {
      items := [];
    }
  }

  /** `_FakeMessage`: it collects the replies it is given. */
  class FakeMessage {
    const text: string
    const chatId: int
    var out: seq<Action>

    constructor (text: string, chatId: int)
      ensures this.text == text && this.chatId == chatId && out == []
    {
      this.text := text;
      this.chatId := chatId;
      out := [];
    }

    method ReplyText(text: string)
      modifies this
      ensures out == old(out) + [Text(text)]
    {
      out := out + [Text(text)];
    }

    /** A photo reply is recorded as a placeholder text. */
    method ReplyPhoto()
      modifies this
      ensures out == old(out) + [Text(PhotoPlaceholder)]
    {
      out := out + [Text(PhotoPlaceholder)];
    }
  }

  /** `_FakeBot`: the stickers it is sent go straight to the engine's output list. */
  class FakeBot {
    const out: OutList

    constructor (out: OutList)
      ensures this.out == out
    {
      this.out := out;
    }

    method SendSticker(chatId: int, sticker: string)
      modifies out
      ensures out.items == old(out.items) + [Sticker(sticker)]
    {
      out.items := out.items + [Sticker(sticker)];
    }
  }

  /** What the calls leave in the fake message. */
  function MessageActions(calls: seq<HandlerCall>): (r: seq<Action>)
    ensures forall i :: 0 <= i < |r| ==> r[i].Text?
    decreases |calls|
  {
    if |calls| == 0 then []
    else
      var init := MessageActions(calls[..|calls| - 1]);
      match calls[|calls| - 1]
      case ReplyText(text) => init + [Text(text)]
      case ReplyPhoto => init + [Text(PhotoPlaceholder)]
      case SendSticker(_) => init
  }

  /** What the calls leave in the output list through the fake bot. */
  function BotActions(calls: seq<HandlerCall>): (r: seq<Action>)
    ensures forall i :: 0 <= i < |r| ==> r[i].Sticker?
    decreases |calls|
  {
    if |calls| == 0 then []
    else
      var init := BotActions(calls[..|calls| - 1]);
      match calls[|calls| - 1]
      case SendSticker(fileId) => init + [Sticker(fileId)]
      case _ => init
  }

  /** The handler's calls played against the fakes, in order. */
  method RunHandler(message: FakeMessage, bot: FakeBot, calls: seq<HandlerCall>)
    modifies message, bot.out
    ensures message.out == old(message.out) + MessageActions(calls)
    ensures bot.out.items == old(bot.out.items) + BotActions(calls)
  {
    var i := 0;
    while i < |calls|
      invariant 0 <= i <= |calls|
      invariant message.out == old(message.out) + MessageActions(calls[..i])
      invariant bot.out.items == old(bot.out.items) + BotActions(calls[..i])
    {
      assert calls[..i + 1][..i] == calls[..i];
      match calls[i] {
        case ReplyText(text) => message.ReplyText(text);
        case ReplyPhoto => message.ReplyPhoto();
        case SendSticker(fileId) => bot.SendSticker(message.chatId, fileId);
      }
      i := i + 1;
    }
    assert calls[..|calls|] == calls;
  }

  /** The actions without the empty texts, in order. */
  function Cleaned(out: seq<Action>): seq<Action>
    decreases |out|
  {
    if |out| == 0 then []
    else
      var a := out[|out| - 1];
      Cleaned(out[..|out| - 1]) + (if a.Text? && a.text == "" then [] else [a])
  }

  /** The cleaning loop at the end of the fallback. */
  method Clean(out: seq<Action>) returns (cleaned: seq<Action>)
    ensures cleaned == Cleaned(out)
  {
    cleaned := [];
    var i := 0;
    while i < |out|
      invariant 0 <= i <= |out|
      invariant cleaned == Cleaned(out[..i])
    {
      assert out[..i + 1][..i] == out[..i];
      var a := out[i];
      if !(a.Text? && a.text == "") {
        cleaned := cleaned + [a];
      }
      i := i + 1;
    }
    assert out[..|out|] == out;
  }

  /** Cleaning keeps exactly the actions that are not empty texts. */
  lemma {:induction false} CleanedSpec(out: seq<Action>)
    ensures forall a :: a in Cleaned(out) <==> a in out && !(a.Text? && a.text == "")
    decreases |out|
  {
    if |out| > 0 {
      CleanedSpec(out[..|out| - 1]);
      assert out == out[..|out| - 1] + [out[|out| - 1]];
    }
  }

  /** Cleaning works action by action, so it keeps the order of what it keeps. */
  lemma {:induction false} CleanedAppend(x: seq<Action>, y: seq<Action>)
    ensures Cleaned(x + y) == Cleaned(x) + Cleaned(y)
    decreases |y|
  {
    if |y| > 0 {
      var y0 := y[..|y| - 1];
      assert (x + y)[..|x + y| - 1] == x + y0;
      var a := y[|y| - 1];
      assert (x + y)[|x + y| - 1] == a;
      var last := if a.Text? && a.text == "" then [] else [a];
      CleanedAppend(x, y0);
      assert Cleaned(x + y) == Cleaned(x + y0) + last;
      assert Cleaned(y) == Cleaned(y0) + last;
    } else {
      assert x + y == x;
    }
  }

  /** The fallback result: the stickers sent through the bot, then the message's texts,
      without the empty texts. */
  function FallbackActions(calls: seq<HandlerCall>): seq<Action> {
    Cleaned(BotActions(calls) + MessageActions(calls))
  }

  /** In the fallback every sticker comes before every text, however the handler
      interleaved them. */
  lemma StickersBeforeTexts(calls: seq<HandlerCall>)
    ensures var r := FallbackActions(calls);
            forall i, j :: 0 <= i < j < |r| ==> !(r[i].Text? && r[j].Sticker?)
  {
    var b, m := BotActions(calls), MessageActions(calls);
    CleanedAppend(b, m);
    CleanedSpec(b);
    CleanedSpec(m);
    StickersThenTexts(Cleaned(b), Cleaned(m));
  }

  /** Stickers followed by texts have no text before a sticker. */
  lemma StickersThenTexts(p: seq<Action>, q: seq<Action>)
    requires forall a :: a in p ==> a.Sticker?
    requires forall a :: a in q ==> a.Text?
    ensures forall i, j :: 0 <= i < j < |p + q| ==> !((p + q)[i].Text? && (p + q)[j].Sticker?)
  {
    var r := p + q;
    forall i, j | 0 <= i < j < |r|
      ensures !(r[i].Text? && r[j].Sticker?)
    {
      if i < |p| {
        assert r[i] == p[i] && p[i] in p;
      } else {
        assert r[j] == q[j - |p|] && q[j - |p|] in q;
      }
    }
  }

  /** The fallback: the handler runs against a fake message for the trimmed text and a
      fake bot writing to `out`; then the message's replies are appended and the empty
      texts dropped. */
  method RunFallback(t: string, chatId: int, calls: seq<HandlerCall>) returns (actions: seq<Action>)
    ensures actions == FallbackActions(calls)
  {
    var out := new OutList();
    var message := new FakeMessage(t, chatId);
    var bot := new FakeBot(out);
    RunHandler(message, bot, calls);
    assert out.items == BotActions(calls) && message.out == MessageActions(calls);
    actions := Clean(out.items + message.out);
  }

  // ---------------------------------------------------------------- build_reply_actions

  /** What a branch other than the tarot one answers to the lower-cased, trimmed text. */
  function Answer(low: string, h: Helpers): Built
    requires RouteOf(low, h) != Tarot
  {
    match RouteOf(low, h)
    case Start => Built([Text(Greeting)])
    case Romeo => Built([Text(h.romeoReply)])
    case Shine => Built([Text(h.shineReply)])
    case Lunar => Raised
    case Horoscope => Built([Text(HoroscopeText(low, h.page))])
    case Fallback => Built(FallbackActions(h.calls))
  }

  /** `build_reply_actions` on the tarot reader's record of dates (`requests`) and deck
      (`data`): what it returns and the record afterwards. `pick` is the random draw. */
  function BuildReply(text: string, userId: int, requests: map<int, Date>, data: seq<Advice>, today: Date,
                      pick: nat, h: Helpers): (r: (Built, map<int, Date>))
    ensures Strip(text) == "" ==> r == (Built([]), requests)
    ensures r.1 != requests ==> RouteOf(Lower(Strip(text)), h) == Tarot
  {
    var t := Strip(text);
    if t == "" then (Built([]), requests)
    else
      var low := Lower(t);
      if RouteOf(low, h) == Tarot then
        var (o, next) := DailyAdvice(requests, data, userId, today, pick);
        (TarotReply(o), next)
      else (Answer(low, h), requests)
  }

  /** `build_reply_actions`, with the module's tarot reader. */
  method BuildReplyActions(text: string, userId: int, chatId: int, tarot: TarotAdvice,
                           today: Date, pick: nat, h: Helpers)
    returns (built: Built)
    modifies tarot
    ensures built == BuildReply(text, userId, old(tarot.userRequests), old(tarot.adviceData), today, pick, h).0
    ensures tarot.userRequests
              == BuildReply(text, userId, old(tarot.userRequests), old(tarot.adviceData), today, pick, h).1
    ensures tarot.adviceData == old(tarot.adviceData) && tarot.imageFolder == old(tarot.imageFolder)
  {
    var t := Strip(text);
    if t == "" {
      return Built([]);
    }
    var low := Lower(t);
    if low == "/start" || low == "start" {
      return Built([Text(Greeting)]);
    }
    if Contains(low, "таро") {
      var advice := tarot.GetDailyAdvice(userId, today, pick);
      return TarotReply(advice);
    }
    built := AnswerAfterTarot(low, t, chatId, h);
  }

  /** The branches after the tarot one, tried in order. */
  method AnswerAfterTarot(low: string, t: string, chatId: int, h: Helpers) returns (built: Built)
    requires !IsStart(low) && !Contains(low, "таро")
    ensures built == Answer(low, h)
  {
    if ContainsAny(low, h.romeoKeywords) {
      return Built([Text(h.romeoReply)]);
    }
    if ContainsAny(low, h.shineKeywords) || ContainsAny(low, h.gadalkaKeywords) {
      return Built([Text(h.shineReply)]);
    }
    if Contains(low, "лун") && (Contains(low, "день") || Contains(low, "календар")) {
      return Raised;
    }
    if Contains(low, "гороскоп") {
      var text := HoroscopeBranch(low, h.page);
      return Built([Text(text)]);
    }
    var actions := RunFallback(t, chatId, h.calls);
    return Built(actions);
  }

  /** The horoscope branch: the site's text for the sign found, or the question which sign. */
  method HoroscopeBranch(low: string, page: string -> string) returns (text: string)
    ensures text == HoroscopeText(low, page)
  {
    var found := FindSign(low);
    if found.Some? {
      return HoroscopeFromWebsite(found.value, page);
    }
    return AskSign;
  }

  // ---------------------------------------------------------------- properties

  /** An empty or blank text gets no actions and changes nothing. */
  lemma BlankTextNoActions(text: string, userId: int, requests: map<int, Date>, data: seq<Advice>, today: Date,
                           pick: nat, h: Helpers)
    requires forall i :: 0 <= i < |text| ==> IsSpace(text[i])
    ensures BuildReply(text, userId, requests, data, today, pick, h) == (Built([]), requests)
  {
    StripBlank(text);
  }

  /** Every branch but the fallback answers with at most one action, every branch but the
      tarot and lunar-day ones answers without raising, and only the tarot branch touches
      the record of dates. */
  lemma OneActionOutsideFallback(text: string, userId: int, requests: map<int, Date>, data: seq<Advice>,
                                 today: Date, pick: nat, h: Helpers)
    requires Strip(text) != "" && RouteOf(Lower(Strip(text)), h) != Fallback
    ensures var (b, next) := BuildReply(text, userId, requests, data, today, pick, h);
            (b.Built? ==> |b.actions| == 1)
            && (RouteOf(Lower(Strip(text)), h) !in {Tarot, Lunar} ==> b.Built?)
            && (RouteOf(Lower(Strip(text)), h) != Tarot ==> next == requests)
  {
  }

  /** The tarot branch gives the drawn card as a photo captioned with its description, or
      the refusal as a text, and fails only on an empty deck. */
  lemma TarotBranch(text: string, userId: int, requests: map<int, Date>, data: seq<Advice>, today: Date,
                    pick: nat, h: Helpers)
    requires Strip(text) != "" && RouteOf(Lower(Strip(text)), h) == Tarot
    ensures var (b, next) := BuildReply(text, userId, requests, data, today, pick, h);
            (b.Raised? <==> |data| == 0 && (userId !in requests || requests[userId] != today))
            && (b.Built? ==> (b.actions[0].Photo? && Photo(b.actions[0].path, b.actions[0].caption) in
                                (set a | a in data :: Photo(a.image, a.description)))
                             || b.actions == [Text(AlreadyAsked)])
  {
    var (o, next) := DailyAdvice(requests, data, userId, today, pick);
    if o.Drawn? {
      assert o.advice in data;
    }
  }

  /** The lunar branch needs "лун" together with "день" or "календар". */
  lemma LunarNeedsBoth(low: string, h: Helpers)
    requires RouteOf(low, h) == Lunar
    ensures Contains(low, "лун") && (Contains(low, "день") || Contains(low, "календар"))
  {
  }

  /** Every text routed to the lunar day raises, whatever the helpers, and changes
      nothing. */
  lemma LunarRouteRaises(text: string, userId: int, requests: map<int, Date>, data: seq<Advice>, today: Date,
                         pick: nat, h: Helpers)
    requires Strip(text) != "" && IsLunar(Lower(Strip(text)))
    requires !IsStart(Lower(Strip(text))) && !Contains(Lower(Strip(text)), "таро")
    requires !ContainsAny(Lower(Strip(text)), h.romeoKeywords)
    requires !ContainsAny(Lower(Strip(text)), h.shineKeywords) && !ContainsAny(Lower(Strip(text)), h.gadalkaKeywords)
    ensures BuildReply(text, userId, requests, data, today, pick, h) == (Raised, requests)
  {
  }
}
