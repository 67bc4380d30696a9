/** The admin commands of modules/admin_commands/handler.py: the admin id lists parsed from
    the settings, the broadcast commands `/all`, `/groups`, `/tg`, `/vk` over the chat
    directory, and `/send <kind> <id> <text>`. A send is recorded as an entry of a trace
    instead of an API call. A send may raise (the senders catch nothing); the oracle
    `fails` says which of the sends, counted from 0, does, and the exception then leaves
    the handler with the earlier sends made and no reply. The handler returns one bare
    action, not a list. */
module AdminCommands {
  import opened Optional
  import opened Strings
  import opened Actions
  import opened IdleNotifier

  // ---------------------------------------------------------------- admin ids

  /** The trimmed, non-empty parts of a comma-separated list. */
  function Parts(pieces: seq<string>): (parts: seq<string>)
    ensures forall i :: 0 <= i < |parts| ==> parts[i] != "" && Strip(parts[i]) == parts[i]
    decreases |pieces|
  {
    if |pieces| == 0 then []
    else
      var p := Strip(pieces[|pieces| - 1]);
      var init := Parts(pieces[..|pieces| - 1]);
      if p != "" then (StripUnpadded(p); init + [p]) else init
  }

  function AdminParts(raw: string): seq<string> {
    var r := Strip(raw);
    if r == "" then [] else Parts(Split(r, ','))
  }

  /** What `int()` makes of each part; `None` is a part it rejects. */
  function Reads(parts: seq<string>): (ns: seq<Option<int>>)
    ensures |ns| == |parts| && forall i :: 0 <= i < |parts| ==> ns[i] == ParseInt(parts[i])
  {
    seq(|parts|, i requires 0 <= i < |parts| => ParseInt(parts[i]))
  }

  /** The integers read, the rejected parts skipped. */
  function IdsOf(ns: seq<Option<int>>): set<int>
    decreases |ns|
  {
    if |ns| == 0 then {}
    else
      var init := IdsOf(ns[..|ns| - 1]);
      match ns[|ns| - 1]
      case None => init
      case Some(n) => init + {n}
  }

  function AdminIds(raw: string): set<int> {
    IdsOf(Reads(AdminParts(raw)))
  }

  /** `_parse_admin_ids`. */
  method ParseAdminIds(raw: string) returns (out: set<int>)
    ensures out == AdminIds(raw)
  {
    var r := Strip(raw);
    if r == "" {
      return {};
    }
    out := ReadIds(Parts(Split(r, ',')));
  }

  /** The loop of `_parse_admin_ids`: a part `int()` rejects is skipped. */
  method ReadIds(parts: seq<string>) returns (out: set<int>)
    ensures out == IdsOf(Reads(parts))
  {
    ghost var ns := Reads(parts);
    out := {};
    var i := 0;
    while i < |parts|
      invariant 0 <= i <= |parts|
      invariant out == IdsOf(ns[..i])
    {
      assert ns[..i + 1][..i] == ns[..i];
      var n := ParseInt(parts[i]);
      assert n == ns[..i + 1][i];
      if n.Some? {
        out := out + {n.value};
      }
      i := i + 1;
    }
    assert ns[..|parts|] == ns;
  }

  /** The ids are exactly the integers read. */
  lemma {:induction false} IdsOfSpec(ns: seq<Option<int>>)
    ensures forall n :: n in IdsOf(ns) <==> Some(n) in ns
    decreases |ns|
  {
    if |ns| > 0 {
      var init := ns[..|ns| - 1];
      IdsOfSpec(init);
      assert ns == init + [ns[|ns| - 1]];
    }
  }

  /** An id is an admin id exactly when some trimmed, non-empty part of the setting reads
      as it. */
  lemma AdminIdsSpec(raw: string, n: int)
    ensures n in AdminIds(raw) <==> exists i :: 0 <= i < |AdminParts(raw)| && ParseInt(AdminParts(raw)[i]) == Some(n)
  {
    var parts := AdminParts(raw);
    var ns := Reads(parts);
    IdsOfSpec(ns);
    if Some(n) in ns {
      var i :| 0 <= i < |ns| && ns[i] == Some(n);
      assert ParseInt(parts[i]) == Some(n);
    }
  }

  /** A setting holding one id makes exactly that id an admin. */
  lemma SingleAdmin(n: int)
    ensures AdminIds(IntToString(n)) == {n}
  {
    var d := IntToString(n);
    StripUnpadded(d);
    IntToStringHasNo(n, ',');
    assert Split(d, ',') == [d];
    assert Parts([d]) == [d] by {
      assert [d][..0] == [];
    }
    ParseIntToString(n);
    assert AdminParts(d) == [d];
    assert Reads([d]) == [Some(n)];
    assert IdsOf([Some(n)]) == {n} by {
      assert [Some(n)][..0] == [];
    }
    assert AdminIds(d) == IdsOf(Reads([d]));
  }

  /** `_is_admin`: only the two platforms have admins. */
  function IsAdmin(platform: string, fromId: int, tgAdmins: set<int>, vkAdmins: set<int>): (r: bool)
    ensures r <==> (platform == "tg" && fromId in tgAdmins) || (platform == "vk" && fromId in vkAdmins)
  {
    if platform == "tg" then fromId in tgAdmins
    else if platform == "vk" then fromId in vkAdmins
    else false
  }

  // ---------------------------------------------------------------- sending

  /** One text sent to one chat through a platform's sender. */
  datatype Send = Send(platform: string, chatId: int, text: string)

  /** The sends `_send_to_targets` makes, in target order; other platforms are skipped. */
  function Deliveries(targets: seq<Key>, text: string): seq<Send>
    decreases |targets|
  {
    if |targets| == 0 then []
    else
      var (plat, chatId) := targets[|targets| - 1];
      Deliveries(targets[..|targets| - 1], text)
      + (if plat == "tg" || plat == "vk" then [Send(plat, chatId, text)] else [])
  }

  /** How many targets are on a platform. */
  function CountOn(targets: seq<Key>, platform: string): nat
    decreases |targets|
  {
    if |targets| == 0 then 0
    else CountOn(targets[..|targets| - 1], platform) + (if targets[|targets| - 1].0 == platform then 1 else 0)
  }

  /** One more target only appends to the sends. */
  lemma {:induction false} DeliveriesAppend(a: seq<Key>, b: seq<Key>, text: string)
    ensures Deliveries(a + b, text) == Deliveries(a, text) + Deliveries(b, text)
    decreases |b|
  {
    if |b| == 0 {
      assert a + b == a;
    } else {
      var init := b[..|b| - 1];
      assert (a + b)[..|a + b| - 1] == a + init;
      assert (a + b)[|a + b| - 1] == b[|b| - 1];
      DeliveriesAppend(a, init, text);
    }
  }

  /** `_send_to_targets`: the sends made before the first one that raises, whether one
      raised, and, when none did, the numbers sent to VK and to Telegram. */
  method SendToTargets(targets: seq<Key>, text: string, fails: nat -> bool)
    returns (sentVk: nat, sentTg: nat, sends: seq<Send>, raised: bool)
    ensures var planned := Deliveries(targets, text);
            var k := FirstRaising(|planned|, fails);
            sends == planned[..k] && raised == (k < |planned|)
    ensures !raised ==> sentVk == CountOn(targets, "vk") && sentTg == CountOn(targets, "tg")
  {
    ghost var planned := Deliveries(targets, text);
    sentVk, sentTg, sends, raised := 0, 0, [], false;
    var i := 0;
    while i < |targets|
      invariant 0 <= i <= |targets|
      invariant sends == Deliveries(targets[..i], text)
      invariant forall j :: 0 <= j < |sends| ==> !fails(j)
      invariant sentVk == CountOn(targets[..i], "vk") && sentTg == CountOn(targets[..i], "tg")
    {
      assert targets[..i + 1][..i] == targets[..i];
      var (plat, chatId) := targets[i];
      if plat == "tg" || plat == "vk" {
        if fails(|sends|) {
          RaisingSendStops(targets, text, i, fails);
          raised := true;
          return;
        }
      }
      if plat == "tg" {
        sends := sends + [Send("tg", chatId, text)];
        sentTg := sentTg + 1;
      } else if plat == "vk" {
        sends := sends + [Send("vk", chatId, text)];
        sentVk := sentVk + 1;
      }
      i := i + 1;
    }
    assert targets[..|targets|] == targets;
    FirstRaisingAt(|planned|, fails, |planned|);
  }

  /** When the send to target `i` raises, the sends before it are those made. */
  lemma RaisingSendStops(targets: seq<Key>, text: string, i: nat, fails: nat -> bool)
    requires i < |targets| && targets[i].0 in {"tg", "vk"}
    requires var sends := Deliveries(targets[..i], text);
             fails(|sends|) && forall j :: 0 <= j < |sends| ==> !fails(j)
    ensures var planned, sends := Deliveries(targets, text), Deliveries(targets[..i], text);
            var k := FirstRaising(|planned|, fails);
            k == |sends| < |planned| && planned[..k] == sends
  {
    var sends := Deliveries(targets[..i], text);
    var (plat, chatId) := targets[i];
    assert targets[..i + 1][..i] == targets[..i];
    assert targets == targets[..i + 1] + targets[i + 1..];
    DeliveriesAppend(targets[..i + 1], targets[i + 1..], text);
    var planned := Deliveries(targets, text);
    assert planned == sends + [Send(plat, chatId, text)] + Deliveries(targets[i + 1..], text);
    assert planned[..|sends|] == sends;
    FirstRaisingAt(|planned|, fails, |sends|);
  }

  /** The counts are the numbers of sends to each platform; together they are at most
      the number of targets; every send carries the text to one of the targets. */
  lemma {:induction false} DeliveriesCounted(targets: seq<Key>, text: string)
    ensures |Deliveries(targets, text)| == CountOn(targets, "vk") + CountOn(targets, "tg") <= |targets|
    ensures forall s :: s in Deliveries(targets, text) ==>
              s.text == text && (s.platform == "tg" || s.platform == "vk") && (s.platform, s.chatId) in targets
    decreases |targets|
  {
    if |targets| > 0 {
      var init := targets[..|targets| - 1];
      DeliveriesCounted(init, text);
      assert forall k :: k in init ==> k in targets;
    }
  }

  // ---------------------------------------------------------------- the commands

  const FormatError := "❗ Формат: /send <tg|vk|tg_user|vk_user> <id> <текст>"
  const IdError := "❗ id должен быть числом"
  const KindError := "❗ kind должен быть: tg | vk | tg_user | vk_user"

  function AllReport(vk: int, tg: int): string {
    "✅ Отправлено: VK=" + IntToString(vk) + ", TG=" + IntToString(tg) + ", всего=" + IntToString(vk + tg)
  }

  function GroupsReport(vk: int, tg: int): string {
    "✅ В группы: VK=" + IntToString(vk) + ", TG=" + IntToString(tg) + ", всего=" + IntToString(vk + tg)
  }

  /** The reply to the current chat, the sends made, and whether a send raised, in which
      case the exception leaves the handler and there is no reply. */
  datatype Outcome = Outcome(reply: Option<Action>, sends: seq<Send>, raised: bool)

  /** The planned sends made one by one: the ones before the first that raises, and the
      reply only when none raises. */
  function Deliver(planned: seq<Send>, reply: Action, fails: nat -> bool): (o: Outcome)
    ensures o.raised ==> o.reply.None?
    ensures !o.raised ==> o.reply == Some(reply)
  {
    var k := FirstRaising(|planned|, fails);
    if k < |planned| then Outcome(None, planned[..k], true) else Outcome(Some(reply), planned, false)
  }

  /** A broadcast to the listed targets. */
  function Broadcast(targets: seq<Key>, msg: string, report: (int, int) -> string, fails: nat -> bool): Outcome {
    Deliver(Deliveries(targets, msg), Text(report(CountOn(targets, "vk"), CountOn(targets, "tg"))), fails)
  }

  /** `/send <kind> <id> <text>`, `t` being the trimmed command. */
  function SendCommand(t: string, fails: nat -> bool): (o: Outcome)
    ensures o.raised ==> o.reply.None?
    ensures o.reply.Some? ==> o.reply.value.Text? && !o.raised
  {
    var parts := SplitMax(t, ' ', 3);
    if |parts| < 4 then Outcome(Some(Text(FormatError)), [], false)
    else
      var kind, msg := Strip(parts[1]), Strip(parts[3]);
      match ParseInt(Strip(parts[2]))
      case None => Outcome(Some(Text(IdError)), [], false)
      case Some(id) =>
        match SendKind(kind)
        case None => Outcome(Some(Text(KindError)), [], false)
        case Some((plat, done)) => Deliver([Send(plat, id, msg)], Text(done), fails)
  }

  /** The platform a `/send` kind sends on and the confirmation it replies with. */
  function SendKind(kind: string): (r: Option<(string, string)>)
    ensures r.Some? <==> kind in {"tg", "vk", "tg_user", "vk_user"}
    ensures r.Some? ==> r.value.0 == if kind in {"tg", "tg_user"} then "tg" else "vk"
  {
    if kind == "tg" then Some(("tg", "✅ Отправлено в TG чат"))
    else if kind == "vk" then Some(("vk", "✅ Отправлено в VK чат"))
    else if kind == "tg_user" then Some(("tg", "✅ Попыталась отправить пользователю TG (если он запускал бота)"))
    else if kind == "vk_user" then Some(("vk", "✅ Попыталась отправить пользователю VK (если разрешены сообщения)"))
    else None
  }

  /** `handle_admin_command` over the directory's key order. */
  function Command(platform: string, fromId: int, text: string, tgAdmins: set<int>, vkAdmins: set<int>,
                   order: seq<Key>, fails: nat -> bool): (o: Outcome)
    ensures o.raised ==> o.reply.None?
    ensures o.reply.Some? ==> o.reply.value.Text? && !o.raised
  {
    if text == "" then Outcome(None, [], false)
    else
      var t := Strip(text);
      if !IsAdmin(platform, fromId, tgAdmins, vkAdmins) then Outcome(None, [], false)
      else if StartsWith(t, "/all ") then Broadcast(KnownChats(order, ""), Strip(t[5..]), AllReport, fails)
      else if StartsWith(t, "/groups ") then Broadcast(GroupChats(order, ""), Strip(t[8..]), GroupsReport, fails)
      else if StartsWith(t, "/tg ") then
        var targets := KnownChats(order, "tg");
        Deliver(Deliveries(targets, Strip(t[4..])), Text("✅ В Telegram: " + IntToString(CountOn(targets, "tg"))), fails)
      else if StartsWith(t, "/vk ") then
        var targets := KnownChats(order, "vk");
        Deliver(Deliveries(targets, Strip(t[4..])), Text("✅ В VK: " + IntToString(CountOn(targets, "vk"))), fails)
      else if StartsWith(t, "/send ") then SendCommand(t, fails)
      else Outcome(None, [], false)
  }

  /** `handle_admin_command`, listing the targets from the directory. */
  method HandleAdminCommand(directory: Directory, platform: string, fromId: int, text: string,
                            tgAdmins: set<int>, vkAdmins: set<int>, fails: nat -> bool)
    returns (outcome: Outcome)
    ensures outcome == Command(platform, fromId, text, tgAdmins, vkAdmins, directory.order, fails)
  {
    if text == "" {
      return Outcome(None, [], false);
    }
    var t := Strip(text);
    if !IsAdmin(platform, fromId, tgAdmins, vkAdmins) {
      return Outcome(None, [], false);
    }
    if StartsWith(t, "/all ") {
      var targets := directory.GetKnownChats("");
      var vk, tg, sends, raised := SendToTargets(targets, Strip(t[5..]), fails);
      return if raised then Outcome(None, sends, true) else Outcome(Some(Text(AllReport(vk, tg))), sends, false);
    }
    if StartsWith(t, "/groups ") {
      var targets := directory.GetGroupChats("");
      var vk, tg, sends, raised := SendToTargets(targets, Strip(t[8..]), fails);
      return if raised then Outcome(None, sends, true) else Outcome(Some(Text(GroupsReport(vk, tg))), sends, false);
    }
    if StartsWith(t, "/tg ") {
      var targets := directory.GetKnownChats("tg");
      var vk, tg, sends, raised := SendToTargets(targets, Strip(t[4..]), fails);
      return if raised then Outcome(None, sends, true) else Outcome(Some(Text("✅ В Telegram: " + IntToString(tg))), sends, false);
    }
    if StartsWith(t, "/vk ") {
      var targets := directory.GetKnownChats("vk");
      var vk, tg, sends, raised := SendToTargets(targets, Strip(t[4..]), fails);
      return if raised then Outcome(None, sends, true) else Outcome(Some(Text("✅ В VK: " + IntToString(vk))), sends, false);
    }
    if StartsWith(t, "/send ") {
      return SendCommand(t, fails);
    }
    return Outcome(None, [], false);
  }

  /** Empty text or a sender who is not an admin gets no reply and sends nothing. */
  lemma NonAdminSilent(platform: string, fromId: int, text: string, tgAdmins: set<int>, vkAdmins: set<int>,
                       order: seq<Key>, fails: nat -> bool)
    requires text == "" || !IsAdmin(platform, fromId, tgAdmins, vkAdmins)
    ensures Command(platform, fromId, text, tgAdmins, vkAdmins, order, fails) == Outcome(None, [], false)
  {
  }

  /** Admin text that starts with none of the command prefixes is not a command: no reply,
      nothing sent. */
  lemma OtherAdminTextIgnored(platform: string, fromId: int, text: string, tgAdmins: set<int>, vkAdmins: set<int>,
                              order: seq<Key>, fails: nat -> bool)
    requires var t := Strip(text);
             !StartsWith(t, "/all ") && !StartsWith(t, "/groups ") && !StartsWith(t, "/tg ")
             && !StartsWith(t, "/vk ") && !StartsWith(t, "/send ")
    ensures Command(platform, fromId, text, tgAdmins, vkAdmins, order, fails) == Outcome(None, [], false)
  {
  }

  /** The planned sends are made in order up to the first that raises. With none raising,
      all of them are made and the reply is the given one; with one raising, there is no
      reply. */
  lemma DeliverSpec(planned: seq<Send>, reply: Action, fails: nat -> bool)
    ensures var o := Deliver(planned, reply, fails);
            |o.sends| <= |planned| && o.sends == planned[..|o.sends|]
            && (o.raised <==> exists j :: 0 <= j < |planned| && fails(j))
            && (o.raised ==> o.reply == None && |o.sends| < |planned| && fails(|o.sends|))
            && (!o.raised ==> o.reply == Some(reply) && o.sends == planned)
  {
    var k := FirstRaising(|planned|, fails);
    if k == |planned| {
      assert planned[..k] == planned;
    }
  }

  /** A broadcast that completes reports as many messages as it sends; one that raises
      reports nothing; every send made carries the message to one of the targets, in
      target order. */
  lemma BroadcastReportsSends(targets: seq<Key>, msg: string, report: (int, int) -> string, fails: nat -> bool)
    ensures var o := Broadcast(targets, msg, report, fails);
            var planned := Deliveries(targets, msg);
            o.sends == planned[..|o.sends|]
            && (o.raised <==> exists j :: 0 <= j < |planned| && fails(j))
            && (o.raised ==> o.reply == None)
            && (!o.raised ==> exists vk: nat, tg: nat :: vk + tg == |o.sends| && o.reply == Some(Text(report(vk, tg))))
            && forall s :: s in o.sends ==> s.text == msg && (s.platform, s.chatId) in targets
  {
    DeliveriesCounted(targets, msg);
    var planned := Deliveries(targets, msg);
    var vk, tg := CountOn(targets, "vk"), CountOn(targets, "tg");
    var o := Broadcast(targets, msg, report, fails);
    DeliverSpec(planned, Text(report(vk, tg)), fails);
    assert |o.sends| <= |planned|;
    forall s | s in o.sends
      ensures s in planned
    {
      var i :| 0 <= i < |o.sends| && o.sends[i] == s;
      assert planned[i] == s;
    }
  }

  /** `/all` from an admin broadcasts the trimmed rest of the command to every known chat;
      when no send raises it reports how many messages went out. */
  lemma AllReportsSends(platform: string, fromId: int, text: string, tgAdmins: set<int>, vkAdmins: set<int>,
                        order: seq<Key>, fails: nat -> bool)
    requires text != "" && IsAdmin(platform, fromId, tgAdmins, vkAdmins) && StartsWith(Strip(text), "/all ")
    ensures var o := Command(platform, fromId, text, tgAdmins, vkAdmins, order, fails);
            var msg := Strip(Strip(text)[5..]);
            (o.raised ==> o.reply == None)
            && (!o.raised ==> exists vk: nat, tg: nat :: vk + tg == |o.sends| && o.reply == Some(Text(AllReport(vk, tg))))
            && forall s :: s in o.sends ==> s.text == msg && (s.platform, s.chatId) in order
  {
    var targets := KnownChats(order, "");
    BroadcastReportsSends(targets, Strip(Strip(text)[5..]), AllReport, fails);
    KnownChatsSpec(order, "");
  }

  /** `/tg` and `/vk` reach only the known chats of their own platform, and the number
      they report is the number of messages sent. */
  lemma PlatformBroadcast(order: seq<Key>, platform: string, msg: string)
    requires platform == "tg" || platform == "vk"
    ensures var sends := Deliveries(KnownChats(order, platform), msg);
            |sends| == CountOn(KnownChats(order, platform), platform)
            && forall s :: s in sends ==> s.platform == platform && (s.platform, s.chatId) in order
  {
    var targets := KnownChats(order, platform);
    DeliveriesCounted(targets, msg);
    KnownChatsSpec(order, platform);
    OnlyOnePlatform(targets, platform);
  }

  /** Targets all on one platform count none on any other. */
  lemma {:induction false} OnlyOnePlatform(targets: seq<Key>, platform: string)
    requires forall k :: k in targets ==> k.0 == platform
    ensures forall other :: other != platform ==> CountOn(targets, other) == 0
    decreases |targets|
  {
    if |targets| > 0 {
      OnlyOnePlatform(targets[..|targets| - 1], platform);
      assert targets[|targets| - 1] in targets;
    }
  }

  /** A group broadcast only reaches group chats. */
  lemma GroupsReachGroups(targets: seq<Key>, order: seq<Key>, msg: string)
    requires targets == GroupChats(order, "")
    ensures forall s :: s in Deliveries(targets, msg) ==> IsGroup((s.platform, s.chatId)) && (s.platform, s.chatId) in order
  {
    DeliveriesCounted(targets, msg);
    GroupChatsSpec(order, "");
  }

  /** A malformed `/send`, a non-numeric id or an unknown kind is answered with an error
      and sends nothing. */
  lemma SendErrorsSendNothing(t: string, fails: nat -> bool)
    requires var parts := SplitMax(t, ' ', 3);
             |parts| < 4 || ParseInt(Strip(parts[2])).None?
             || Strip(parts[1]) !in {"tg", "vk", "tg_user", "vk_user"}
    ensures var o := SendCommand(t, fails);
            o.sends == [] && !o.raised && o.reply.Some? && o.reply.value.Text?
            && o.reply.value.text in {FormatError, IdError, KindError}
  {
  }

  /** A well-formed `/send` sends the trimmed text once, to the given id on the kind's
      platform; when that send raises, the exception leaves the handler without a reply. */
  lemma SendOnce(t: string, fails: nat -> bool)
    requires var parts := SplitMax(t, ' ', 3);
             |parts| == 4 && ParseInt(Strip(parts[2])).Some?
             && Strip(parts[1]) in {"tg", "vk", "tg_user", "vk_user"}
    ensures var parts := SplitMax(t, ' ', 3);
            var kind := Strip(parts[1]);
            var o := SendCommand(t, fails);
            o.raised == fails(0) && (o.raised <==> o.reply == None)
            && o.sends
               == if fails(0) then []
                  else [Send(if kind in {"tg", "tg_user"} then "tg" else "vk", ParseInt(Strip(parts[2])).value, Strip(parts[3]))]
  {
    var parts := SplitMax(t, ' ', 3);
    var kind := Strip(parts[1]);
    var s := Send(if kind in {"tg", "tg_user"} then "tg" else "vk", ParseInt(Strip(parts[2])).value, Strip(parts[3]));
    DeliverOne(s, fails);
    assert SendCommand(t, fails) == Deliver([s], Text(SendKind(kind).value.1), fails);
  }

  /** A single send is made unless it raises; the reply is given only when it does not. */
  lemma DeliverOne(s: Send, fails: nat -> bool)
    ensures forall reply :: Deliver([s], reply, fails)
                            == if fails(0) then Outcome(None, [], true) else Outcome(Some(reply), [s], false)
  {
    if fails(0) {
      FirstRaisingAt(1, fails, 0);
    } else {
      FirstRaisingAt(1, fails, 1);
    }
  }
}
