/** The VK sender of adapters/vk_sender.py: every reply action becomes at most one
    `messages.send` call, in the order of the actions. The calls are recorded as a trace of
    messages. The answers of the two upload requests of a photo are an oracle, `upload`,
    from which `UploadPhoto` makes the attachment. Any request of an action may raise (a
    missing photo file, a failed or timed-out request, a reply that is not JSON, a saved
    item without `owner_id` or `id`); the oracle `raises` says which action's requests do,
    and the exception ends the sending there. The time-based `random_id` is left out. */
module VkSender {
  import opened Optional
  import opened Strings
  import opened Actions

  /** One `messages.send` call: the peer, the message text and the attachment, if any. */
  datatype VkMessage = VkMessage(peerId: int, message: string, attachment: Option<string>)

  const StickerNote := "🙂"

  // ---------------------------------------------------------------- photo upload

  /** The attachment string of a saved photo. */
  function Attachment(ownerId: int, id: int): string {
    "photo" + IntToString(ownerId) + "_" + IntToString(id)
  }

  /** `_upload_photo`: `uploadUrl` is the upload server's `upload_url` ("" when missing)
      and `saved` the (owner_id, id) items of the save response. */
  function UploadPhoto(uploadUrl: string, saved: seq<(int, int)>): (r: Option<string>)
    ensures r.Some? <==> uploadUrl != "" && |saved| > 0
    ensures r.Some? ==> r.value == Attachment(saved[0].0, saved[0].1)
  {
    if uploadUrl == "" then None
    else if |saved| == 0 then None
    else Some(Attachment(saved[0].0, saved[0].1))
  }

  /** The owner and the id can be read back from an attachment string. */
  lemma AttachmentRoundTrip(ownerId: int, id: int)
    ensures var a := Attachment(ownerId, id);
            StartsWith(a, "photo") && Has(a[5..], '_')
            && ParseInt(Before(a[5..], '_')) == Some(ownerId) && ParseInt(After(a[5..], '_')) == Some(id)
  {
    var o, i := IntToString(ownerId), IntToString(id);
    AttachmentParts(ownerId, id);
    IntToStringHasNo(ownerId, '_');
    BeforeOfPrefix(o, '_', i);
    ParseIntToString(ownerId);
    ParseIntToString(id);
  }

  lemma AttachmentParts(ownerId: int, id: int)
    ensures var a := Attachment(ownerId, id);
            StartsWith(a, "photo") && a[5..] == IntToString(ownerId) + ['_'] + IntToString(id)
  {
    var o, i := IntToString(ownerId), IntToString(id);
    var a := Attachment(ownerId, id);
    assert a == "photo" + (o + ['_'] + i);
  }

  /** Distinct saved photos have distinct attachment strings. */
  lemma AttachmentInjective(o1: int, i1: int, o2: int, i2: int)
    requires Attachment(o1, i1) == Attachment(o2, i2)
    ensures o1 == o2 && i1 == i2
  {
    AttachmentRoundTrip(o1, i1);
    AttachmentRoundTrip(o2, i2);
  }

  // ---------------------------------------------------------------- sending actions

  /** What the upload requests of a photo answer: the upload server's `upload_url` ("" when
      missing) and the (owner_id, id) items of the save response. */
  datatype UploadReply = UploadReply(uploadUrl: string, saved: seq<(int, int)>)

  /** The attachment `_upload_photo` gives for the photo at position `i`. */
  function AttachmentFor(i: nat, path: string, upload: (nat, string) -> UploadReply): Option<string> {
    UploadPhoto(upload(i, path).uploadUrl, upload(i, path).saved)
  }

  /** The messages sent for the action at position `i` when none of its requests raises.
      A photo without an attachment falls back to its caption alone, and sends nothing
      without one. */
  function MessagesFor(peerId: int, a: Action, i: nat, upload: (nat, string) -> UploadReply): (ms: seq<VkMessage>)
    ensures |ms| <= 1 && forall m :: m in ms ==> m.peerId == peerId
    ensures !a.Photo? ==> |ms| == 1
  {
    match a
    case Text(text) => [VkMessage(peerId, text, None)]
    case Photo(path, caption) =>
      var attachment := AttachmentFor(i, path, upload);
      if attachment.Some? && attachment.value != "" then [VkMessage(peerId, caption, attachment)]
      else if caption != "" then [VkMessage(peerId, caption, None)]
      else []
    case Sticker(_) => [VkMessage(peerId, StickerNote, None)]
  }

  /** The messages sent for the first `n` actions, in order. */
  function TraceUpTo(peerId: int, actions: seq<Action>, upload: (nat, string) -> UploadReply, n: nat): seq<VkMessage>
    requires n <= |actions|
  {
    if n == 0 then []
    else TraceUpTo(peerId, actions, upload, n - 1) + MessagesFor(peerId, actions[n - 1], n - 1, upload)
  }

  /** What `send_actions_vk` does: the messages of the actions before the first one whose
      requests raise, and whether one raised. */
  datatype VkResult = VkResult(sent: seq<VkMessage>, raised: bool)

  function VkTrace(peerId: int, actions: seq<Action>, upload: (nat, string) -> UploadReply,
                   raises: nat -> bool): VkResult
  {
    var k := FirstRaising(|actions|, raises);
    VkResult(TraceUpTo(peerId, actions, upload, k), k < |actions|)
  }

  /** `send_actions_vk`. */
  method SendActionsVk(peerId: int, actions: seq<Action>, upload: (nat, string) -> UploadReply,
                       raises: nat -> bool)
    returns (sent: seq<VkMessage>, raised: bool)
    ensures VkResult(sent, raised) == VkTrace(peerId, actions, upload, raises)
  {
    sent := [];
    var i := 0;
    while i < |actions|
      invariant 0 <= i <= |actions|
      invariant forall j :: 0 <= j < i ==> !raises(j)
      invariant sent == TraceUpTo(peerId, actions, upload, i)
    {
      if raises(i) {
        FirstRaisingAt(|actions|, raises, i);
        return sent, true;
      }
      var a := actions[i];
      match a {
        case Text(text) =>
          sent := sent + [VkMessage(peerId, text, None)];
        case Photo(path, caption) =>
          var reply := upload(i, path);
          var attachment := UploadPhoto(reply.uploadUrl, reply.saved);
          if attachment.Some? && attachment.value != "" {
            sent := sent + [VkMessage(peerId, caption, attachment)];
          } else if caption != "" {
            sent := sent + [VkMessage(peerId, caption, None)];
          }
        case Sticker(_) =>
          sent := sent + [VkMessage(peerId, StickerNote, None)];
      }
      i := i + 1;
    }
    FirstRaisingAt(|actions|, raises, i);
    raised := false;
  }

  /** An action sends nothing exactly when it is a photo whose upload gives no attachment
      (no upload address, or no saved item) and which has no caption; otherwise it sends
      one message, to the peer. */
  lemma SilentExactlyWhen(peerId: int, a: Action, i: nat, upload: (nat, string) -> UploadReply)
    ensures var ms := MessagesFor(peerId, a, i, upload);
            |ms| <= 1
            && (|ms| == 0 <==> a.Photo? && a.caption == ""
                               && (upload(i, a.path).uploadUrl == "" || |upload(i, a.path).saved| == 0))
            && forall m :: m in ms ==> m.peerId == peerId
  {
    if a.Photo? && upload(i, a.path).uploadUrl != "" && |upload(i, a.path).saved| > 0 {
      var item := upload(i, a.path).saved[0];
      AttachmentParts(item.0, item.1);
    }
  }

  /** A photo with an uploaded attachment is sent with that attachment, which names the
      first saved item. */
  lemma PhotoSentWithAttachment(peerId: int, path: string, caption: string, i: nat,
                                upload: (nat, string) -> UploadReply)
    requires upload(i, path).uploadUrl != "" && |upload(i, path).saved| > 0
    ensures var item := upload(i, path).saved[0];
            MessagesFor(peerId, Photo(path, caption), i, upload)
            == [VkMessage(peerId, caption, Some(Attachment(item.0, item.1)))]
  {
    var item := upload(i, path).saved[0];
    AttachmentParts(item.0, item.1);
  }

  /** The actions before the first raising one are all sent, and nothing after it: a
      raising action cuts the trace short, and none raising sends every action. */
  lemma {:induction false} NothingAfterRaise(peerId: int, actions: seq<Action>, upload: (nat, string) -> UploadReply,
                                             raises: nat -> bool, j: nat)
    requires j < |actions| && raises(j)
    ensures var r := VkTrace(peerId, actions, upload, raises);
            r.raised && exists k: nat :: k <= j && r.sent == TraceUpTo(peerId, actions, upload, k)
  {
    var k := FirstRaising(|actions|, raises);
    assert k <= j;
  }

  /** When no request raises, every action is sent and nothing is reported raised. */
  lemma NoRaiseSendsAll(peerId: int, actions: seq<Action>, upload: (nat, string) -> UploadReply,
                        raises: nat -> bool)
    requires forall i :: 0 <= i < |actions| ==> !raises(i)
    ensures VkTrace(peerId, actions, upload, raises) == VkResult(TraceUpTo(peerId, actions, upload, |actions|), false)
  {
    FirstRaisingAt(|actions|, raises, |actions|);
  }

  /** Each action sends at most one message, and every message goes to the peer. */
  lemma {:induction false} AtMostOnePerAction(peerId: int, actions: seq<Action>, upload: (nat, string) -> UploadReply, n: nat)
    requires n <= |actions|
    ensures |TraceUpTo(peerId, actions, upload, n)| <= n
    ensures forall m :: m in TraceUpTo(peerId, actions, upload, n) ==> m.peerId == peerId
  {
    if n > 0 {
      AtMostOnePerAction(peerId, actions, upload, n - 1);
      SilentExactlyWhen(peerId, actions[n - 1], n - 1, upload);
    }
  }

  /** Actions are handled in list order: the messages of the earlier actions come first,
      untouched by the later ones. */
  lemma {:induction false} InListOrder(peerId: int, actions: seq<Action>, upload: (nat, string) -> UploadReply, n: nat, m: nat)
    requires n <= m <= |actions|
    ensures var early, late := TraceUpTo(peerId, actions, upload, n), TraceUpTo(peerId, actions, upload, m);
            |early| <= |late| && late[..|early|] == early
    decreases m
  {
    if n < m {
      InListOrder(peerId, actions, upload, n, m - 1);
      TraceGrows(peerId, actions, upload, m);
      PrefixOfPrefix(TraceUpTo(peerId, actions, upload, n), TraceUpTo(peerId, actions, upload, m - 1),
                     TraceUpTo(peerId, actions, upload, m));
    }
  }

  /** One more action only appends to the trace. */
  lemma TraceGrows(peerId: int, actions: seq<Action>, upload: (nat, string) -> UploadReply, m: nat)
    requires 0 < m <= |actions|
    ensures var mid, late := TraceUpTo(peerId, actions, upload, m - 1), TraceUpTo(peerId, actions, upload, m);
            |mid| <= |late| && late[..|mid|] == mid
  {
    var mid := TraceUpTo(peerId, actions, upload, m - 1);
    assert (mid + MessagesFor(peerId, actions[m - 1], m - 1, upload))[..|mid|] == mid;
  }

  lemma PrefixOfPrefix<T>(a: seq<T>, b: seq<T>, c: seq<T>)
    requires |a| <= |b| && b[..|a|] == a && |b| <= |c| && c[..|b|] == b
    ensures c[..|a|] == a
  {
    assert c[..|a|] == c[..|b|][..|a|];
  }

  /** A reply of texts only is sent text for text, in order, without attachments. */
  lemma {:induction false} TextsSentInOrder(peerId: int, actions: seq<Action>, upload: (nat, string) -> UploadReply, n: nat)
    requires n <= |actions|
    requires forall i :: 0 <= i < |actions| ==> actions[i].Text?
    ensures var t := TraceUpTo(peerId, actions, upload, n);
            |t| == n && forall i :: 0 <= i < n ==> t[i] == VkMessage(peerId, actions[i].text, None)
  {
    if n > 0 {
      TextsSentInOrder(peerId, actions, upload, n - 1);
    }
  }
}
