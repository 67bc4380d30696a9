/** Dictionaries that a loop fills one assignment `d[k] = v` at a time, as the file
    readers of the handlers do. */
module Dicts {
  import opened Optional

  /** The dictionary after the assignments in order (`None` assigns nothing): a later
      assignment to a key overwrites an earlier one. */
  function Assign<K, V>(es: seq<Option<(K, V)>>): map<K, V> {
    if |es| == 0 then map[]
    else
      var m := Assign(es[..|es| - 1]);
      match es[|es| - 1]
      case None => m
      case Some((k, v)) => m[k := v]
  }

  /** One more entry: what a loop over the entries does at position `i`. */
  lemma AssignStep<K, V>(es: seq<Option<(K, V)>>, i: nat)
    requires i < |es|
    ensures Assign(es[..i + 1]) == match es[i] case None => Assign(es[..i]) case Some((k, v)) => Assign(es[..i])[k := v]
  {
    assert es[..i + 1][..i] == es[..i];
  }

  /** Each key of the dictionary was assigned, with the value it holds, by some entry, and
      every assigned key is present. */
  lemma {:induction false} AssignSpec<K, V>(es: seq<Option<(K, V)>>)
    ensures forall k :: k in Assign(es) ==> exists i :: 0 <= i < |es| && es[i] == Some((k, Assign(es)[k]))
    ensures forall i :: 0 <= i < |es| && es[i].Some? ==> es[i].value.0 in Assign(es)
    decreases |es|
  {
    if |es| > 0 {
      var n := |es| - 1;
      var init := es[..n];
      AssignSpec(init);
      forall k | k in Assign(es)
        ensures exists i :: 0 <= i < |es| && es[i] == Some((k, Assign(es)[k]))
      {
        if es[n].Some? && es[n].value.0 == k {
          assert es[n] == Some((k, Assign(es)[k]));
        } else {
          var i :| 0 <= i < n && init[i] == Some((k, Assign(init)[k]));
          assert es[i] == init[i];
        }
      }
      forall i | 0 <= i < |es| && es[i].Some?
        ensures es[i].value.0 in Assign(es)
      {
        if i < n {
          assert init[i] == es[i];
        }
      }
    }
  }

  /** A later assignment to a key wins over every earlier one. */
  lemma {:induction false} LaterAssignmentWins<K, V>(es: seq<Option<(K, V)>>, k: K, v: V, rest: seq<Option<(K, V)>>)
    requires forall i :: 0 <= i < |rest| && rest[i].Some? ==> rest[i].value.0 != k
    ensures var m := Assign(es + [Some((k, v))] + rest); k in m && m[k] == v
    decreases |rest|
  {
    if |rest| > 0 {
      var n := |rest| - 1;
      assert (es + [Some((k, v))] + rest)[..|es| + 1 + n] == es + [Some((k, v))] + rest[..n];
      LaterAssignmentWins(es, k, v, rest[..n]);
    } else {
      assert es + [Some((k, v))] + rest == es + [Some((k, v))];
      assert (es + [Some((k, v))])[..|es|] == es;
    }
  }

  /** Entries that assign nothing can be dropped anywhere. */
  lemma {:induction false} NoneAssignsNothing<K, V>(es: seq<Option<(K, V)>>, rest: seq<Option<(K, V)>>)
    ensures Assign(es + [None] + rest) == Assign(es + rest)
    decreases |rest|
  {
    if |rest| > 0 {
      var n := |rest| - 1;
      assert (es + [None] + rest)[..|es| + 1 + n] == es + [None] + rest[..n];
      assert (es + rest)[..|es| + n] == es + rest[..n];
      NoneAssignsNothing(es, rest[..n]);
    } else {
      assert es + [None] + rest == es + [None];
      assert (es + [None])[..|es|] == es;
      assert es + rest == es;
    }
  }
}
