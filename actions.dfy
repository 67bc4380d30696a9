/** The reply actions every handler produces and every sender consumes. The source has
    two families of action classes (`OutText`/`OutPhoto` for the modules, and
    `OutText`/`OutSticker`/`OutPhoto` for the engine and the senders); both are this one
    closed sum type. */
module Actions {

  datatype Action =
    | Text(text: string)
    | Photo(path: string, caption: string)
    | Sticker(fileId: string)

  /** A reply of one text message, the shape most handlers return. */
  function Say(text: string): (r: seq<Action>)
    ensures |r| == 1 && r[0].Text? && r[0].text == text
  {
    [Text(text)]
  }

  /** The position of the first of `n` calls that raises, or `n` when none does: the
      calls before it complete, and the exception ends the sequence of calls there.
      `raises(i)` says whether the call at position `i` raises. */
  function FirstRaising(n: nat, raises: nat -> bool): (k: nat)
    ensures k <= n
    ensures forall i :: 0 <= i < k ==> !raises(i)
    ensures k < n ==> raises(k)
  {
    RaisingFrom(n, raises, 0)
  }

  function RaisingFrom(n: nat, raises: nat -> bool, from: nat): (k: nat)
    requires from <= n
    ensures from <= k <= n
    ensures forall i :: from <= i < k ==> !raises(i)
    ensures k < n ==> raises(k)
    decreases n - from
  {
    if from == n || raises(from) then from else RaisingFrom(n, raises, from + 1)
  }

  /** The first raising call is the one before which none raises and which raises. */
  lemma FirstRaisingAt(n: nat, raises: nat -> bool, k: nat)
    requires k <= n && (forall i :: 0 <= i < k ==> !raises(i)) && (k < n ==> raises(k))
    ensures FirstRaising(n, raises) == k
  {
  }
}
