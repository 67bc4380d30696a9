/** The chat directory of core/idle_notifier.py: the module-level `_last_activity`
    dictionary from (platform, chat id) to the time of the last message, which `touch` and
    `init_known_chats` update in place and the two getters list in insertion order. The
    directory is a class whose `order` field keeps the dictionary's key order and whose
    `stamps` field holds its values. The Postgres writes are left out. */
module IdleNotifier {

  type Key = (string, int)

  predicate NoDup(s: seq<Key>) {
    forall i, j :: 0 <= i < j < |s| ==> s[i] != s[j]
  }

  /** Assigning a key of a dictionary: a new key goes to the end of the key order, a
      known one keeps its place. */
  function Put(order: seq<Key>, k: Key): (r: seq<Key>)
    ensures forall x :: x in r <==> x in order || x == k
    ensures NoDup(order) ==> NoDup(r)
    ensures k in order ==> r == order
    ensures |order| <= |r| <= |order| + 1 && r[..|order|] == order
  {
    if k in order then order else order + [k]
  }

  /** The key order after `dict.update` with the given keys, one assignment at a time. */
  function PutAll(order: seq<Key>, keys: seq<Key>): (r: seq<Key>)
    decreases |keys|
  {
    if |keys| == 0 then order else PutAll(Put(order, keys[0]), keys[1..])
  }

  /** `update` keeps every chat already known, in its place, adds every loaded one, and
      adds nothing else. */
  lemma {:induction false} PutAllSpec(order: seq<Key>, keys: seq<Key>)
    ensures forall x :: x in PutAll(order, keys) <==> x in order || x in keys
    ensures |order| <= |PutAll(order, keys)| && PutAll(order, keys)[..|order|] == order
    ensures NoDup(order) ==> NoDup(PutAll(order, keys))
    decreases |keys|
  {
    if |keys| > 0 {
      var next := Put(order, keys[0]);
      PutAllSpec(next, keys[1..]);
      assert forall x :: x in keys <==> x == keys[0] || x in keys[1..];
      var r := PutAll(next, keys[1..]);
      assert r[..|order|] == r[..|next|][..|order|];
    }
  }

  /** The keys of loaded (key, time) pairs, in order. */
  function KeysOf(data: seq<(Key, real)>): (keys: seq<Key>)
    ensures |keys| == |data| && forall i :: 0 <= i < |data| ==> keys[i] == data[i].0
  {
    seq(|data|, i requires 0 <= i < |data| => data[i].0)
  }

  /** The values after `dict.update` with the pairs, one assignment at a time. */
  function UpdateAll(m: map<Key, real>, data: seq<(Key, real)>): map<Key, real>
    decreases |data|
  {
    if |data| == 0 then m else UpdateAll(m[data[0].0 := data[0].1], data[1..])
  }

  /** After `update` the dictionary holds the chats it held and the loaded ones, and
      every loaded chat holds the time of its last pair. */
  lemma UpdateAllSpec(m: map<Key, real>, data: seq<(Key, real)>)
    ensures forall k :: k in UpdateAll(m, data) <==> k in m || k in KeysOf(data)
    ensures forall i :: 0 <= i < |data| && (forall j :: i < j < |data| ==> data[j].0 != data[i].0) ==>
              data[i].0 in UpdateAll(m, data) && UpdateAll(m, data)[data[i].0] == data[i].1
  {
    UpdateAllKeys(m, data);
    forall i | 0 <= i < |data| && (forall j :: i < j < |data| ==> data[j].0 != data[i].0)
      ensures data[i].0 in UpdateAll(m, data) && UpdateAll(m, data)[data[i].0] == data[i].1
    {
      UpdateAllLast(m, data, i);
    }
  }

  lemma {:induction false} UpdateAllKeys(m: map<Key, real>, data: seq<(Key, real)>)
    ensures forall k :: k in UpdateAll(m, data) <==> k in m || k in KeysOf(data)
    decreases |data|
  {
    if |data| > 0 {
      var rest := data[1..];
      UpdateAllKeys(m[data[0].0 := data[0].1], rest);
      assert forall k :: k in KeysOf(data) <==> k == data[0].0 || k in KeysOf(rest) by {
        assert forall i :: 1 <= i < |data| ==> KeysOf(rest)[i - 1] == data[i].0;
      }
    }
  }

  /** The last pair for a key decides its value. */
  lemma {:induction false} UpdateAllLast(m: map<Key, real>, data: seq<(Key, real)>, i: nat)
    requires i < |data| && forall j :: i < j < |data| ==> data[j].0 != data[i].0
    ensures data[i].0 in UpdateAll(m, data) && UpdateAll(m, data)[data[i].0] == data[i].1
    decreases |data|
  {
    var rest := data[1..];
    if i == 0 {
      forall k | 0 <= k < |rest|
        ensures rest[k].0 != data[0].0
      {
        assert rest[k] == data[k + 1];
      }
      UpdateAllMissing(m[data[0].0 := data[0].1], rest, data[0].0);
    } else {
      assert data[i] == rest[i - 1];
      forall j | i - 1 < j < |rest|
        ensures rest[j].0 != rest[i - 1].0
      {
        assert rest[j] == data[j + 1];
      }
      UpdateAllLast(m[data[0].0 := data[0].1], rest, i - 1);
    }
  }

  /** A key no pair assigns keeps its value. */
  lemma {:induction false} UpdateAllMissing(m: map<Key, real>, data: seq<(Key, real)>, k: Key)
    requires k in m && forall i :: 0 <= i < |data| ==> data[i].0 != k
    ensures k in UpdateAll(m, data) && UpdateAll(m, data)[k] == m[k]
    decreases |data|
  {
    if |data| > 0 {
      assert forall i :: 0 <= i < |data[1..]| ==> data[1..][i] == data[i + 1];
      UpdateAllMissing(m[data[0].0 := data[0].1], data[1..], k);
    }
  }

  /** `if platform and plat != platform: continue`: an empty platform keeps every key. */
  predicate Wanted(k: Key, platform: string) {
    platform == "" || k.0 == platform
  }

  /** A group chat: a Telegram chat with a negative id or a VK peer from 2,000,000,000. */
  predicate IsGroup(k: Key) {
    (k.0 == "tg" && k.1 < 0) || (k.0 == "vk" && k.1 >= 2000000000)
  }

  /** What `get_known_chats(platform)` lists, in key order. */
  function KnownChats(order: seq<Key>, platform: string): (r: seq<Key>)
    ensures |r| <= |order|
    decreases |order|
  {
    if |order| == 0 then []
    else
      var last := order[|order| - 1];
      KnownChats(order[..|order| - 1], platform) + (if Wanted(last, platform) then [last] else [])
  }

  /** What `get_group_chats(platform)` lists, in key order. */
  function GroupChats(order: seq<Key>, platform: string): (r: seq<Key>)
    ensures |r| <= |order|
    decreases |order|
  {
    if |order| == 0 then []
    else
      var last := order[|order| - 1];
      GroupChats(order[..|order| - 1], platform) + (if Wanted(last, platform) && IsGroup(last) then [last] else [])
  }

  /** `get_known_chats` lists exactly the known chats of the platform (all of them for no
      platform). */
  lemma {:induction false} KnownChatsSpec(order: seq<Key>, platform: string)
    ensures forall x :: x in KnownChats(order, platform) <==> x in order && Wanted(x, platform)
    decreases |order|
  {
    if |order| > 0 {
      var init := order[..|order| - 1];
      KnownChatsSpec(init, platform);
      assert order == init + [order[|order| - 1]];
    }
  }

  /** `get_group_chats` lists exactly the known group chats of the platform. */
  lemma {:induction false} GroupChatsSpec(order: seq<Key>, platform: string)
    ensures forall x :: x in GroupChats(order, platform) <==> x in order && Wanted(x, platform) && IsGroup(x)
    decreases |order|
  {
    if |order| > 0 {
      var init := order[..|order| - 1];
      GroupChatsSpec(init, platform);
      assert order == init + [order[|order| - 1]];
    }
  }

  /** Every group chat is a known chat of the same platform. */
  lemma GroupsAreKnown(order: seq<Key>, platform: string)
    ensures forall x :: x in GroupChats(order, platform) ==> x in KnownChats(order, platform)
  {
    KnownChatsSpec(order, platform);
    GroupChatsSpec(order, platform);
  }

  /** Listing keeps the key order and lists each chat once. */
  lemma {:induction false} KnownChatsNoDup(order: seq<Key>, platform: string)
    requires NoDup(order)
    ensures NoDup(KnownChats(order, platform))
    decreases |order|
  {
    if |order| > 0 {
      var init := order[..|order| - 1];
      var last := order[|order| - 1];
      assert NoDup(init);
      KnownChatsNoDup(init, platform);
      KnownChatsSpec(init, platform);
      assert last !in init;
    }
  }

  class Directory {
    /** The keys of `_last_activity`, in insertion order. */
    var order: seq<Key>
    /** The time of the last activity of every key. */
    var stamps: map<Key, real>

    ghost predicate Valid()
      reads this
    {
      (forall k :: k in stamps <==> k in order) && NoDup(order)
    }

    constructor ()
      ensures Valid() && order == [] && stamps == map[]
    {
      order := [];
      stamps := map[];
    }

    /** `touch`: the chat is remembered with the current time; the save to Postgres runs
        in the background and is not modelled. */
    method Touch(platform: string, chatId: int, now: real)
      requires Valid()
      modifies this
      ensures Valid()
      ensures stamps == old(stamps)[(platform, chatId) := now]
      ensures order == Put(old(order), (platform, chatId))
    {
      order := Put(order, (platform, chatId));
      stamps := stamps[(platform, chatId) := now];
    }

    /** `init_known_chats`: the chats loaded from Postgres (an oracle, in its order) are
        merged in with `update`. */
    method InitKnownChats(data: seq<(Key, real)>)
      requires Valid()
      modifies this
      ensures Valid()
      ensures order == PutAll(old(order), KeysOf(data))
      ensures stamps == UpdateAll(old(stamps), data)
    {
      ghost var keys := KeysOf(data);
      var i := 0;
      while i < |data|
        invariant 0 <= i <= |data|
        invariant Valid()
        invariant PutAll(order, keys[i..]) == PutAll(old(order), keys)
        invariant UpdateAll(stamps, data[i..]) == UpdateAll(old(stamps), data)
      {
        assert keys[i..][1..] == keys[i + 1..];
        assert data[i..][1..] == data[i + 1..];
        order := Put(order, data[i].0);
        stamps := stamps[data[i].0 := data[i].1];
        i := i + 1;
      }
      assert keys[i..] == [];
      assert data[i..] == [];
    }

    /** `get_known_chats`. */
    method GetKnownChats(platform: string) returns (result: seq<Key>)
      ensures result == KnownChats(order, platform)
    {
      result := [];
      var i := 0;
      while i < |order|
        invariant 0 <= i <= |order|
        invariant result == KnownChats(order[..i], platform)
      {
        assert order[..i + 1][..i] == order[..i];
        var k := order[i];
        if platform == "" || k.0 == platform {
          result := result + [k];
        }
        i := i + 1;
      }
      assert order[..|order|] == order;
    }

    /** `get_group_chats`. */
    method GetGroupChats(platform: string) returns (result: seq<Key>)
      ensures result == GroupChats(order, platform)
    {
      result := [];
      var i := 0;
      while i < |order|
        invariant 0 <= i <= |order|
        invariant result == GroupChats(order[..i], platform)
      {
        assert order[..i + 1][..i] == order[..i];
        var (plat, chatId) := order[i];
        if platform != "" && plat != platform {
        } else if plat == "tg" {
          if chatId < 0 {
            result := result + [(plat, chatId)];
          }
        } else if plat == "vk" {
          if chatId >= 2000000000 {
            result := result + [(plat, chatId)];
          }
        }
        i := i + 1;
      }
      assert order[..|order|] == order;
    }
  }
}
