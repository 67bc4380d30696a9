/** The Some/None datatype used wherever the source returns a value or `None`. */
module Optional {

  datatype Option<+T> = None | Some(value: T) {

    /** The value, or `default` when there is none (Python's `x or default` on a missing key). */
    function GetOr(default: T): T {
      match this
      case Some(v) => v
      case None => default
    }
  }

  /** The values of the `Some` entries, in order. */
  function Somes<T>(xs: seq<Option<T>>): seq<T>
    decreases |xs|
  {
    if |xs| == 0 then []
    else Somes(xs[..|xs| - 1]) + (match xs[|xs| - 1] case None => [] case Some(v) => [v])
  }

  /** One more entry: what a loop over the entries does at position `i`. */
  lemma SomesStep<T>(xs: seq<Option<T>>, i: nat)
    requires i < |xs|
    ensures Somes(xs[..i + 1]) == Somes(xs[..i]) + (match xs[i] case None => [] case Some(v) => [v])
  {
    assert xs[..i + 1][..i] == xs[..i];
  }

  lemma {:induction false} SomesAppend<T>(a: seq<Option<T>>, b: seq<Option<T>>)
    ensures Somes(a + b) == Somes(a) + Somes(b)
    decreases |b|
  {
    if |b| == 0 {
      assert a + b == a;
    } else {
      var n := |b| - 1;
      assert (a + b)[..|a + b| - 1] == a + b[..n];
      assert (a + b)[|a + b| - 1] == b[n];
      SomesAppend(a, b[..n]);
    }
  }

  /** Every value kept is the value of some entry. */
  lemma {:induction false} SomesSpec<T>(xs: seq<Option<T>>)
    ensures |Somes(xs)| <= |xs|
    ensures forall y :: y in Somes(xs) ==> Some(y) in xs
    decreases |xs|
  {
    if |xs| > 0 {
      var init := xs[..|xs| - 1];
      SomesSpec(init);
      assert forall x :: x in init ==> x in xs;
    }
  }
}
