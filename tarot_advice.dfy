/** The daily tarot advice of utils/Tarot/tarot_advice.py: the advice list read from a
    `image|description` file, and the per-user record of the last date a card was drawn. */
module TarotAdvice {
  import opened Optional
  import opened Strings
  import opened Clock

  /** One advice card: the image path and the description. */
  datatype Advice = Advice(image: string, description: string)

  const ImageFolder := "utils/Tarot/images/"

  const AlreadyAsked := "Вы уже запрашивали карту сегодня. Пожалуйста, попробуйте снова завтра."

  /** `os.path.join(folder, name)`: an absolute name replaces the folder, otherwise one
      slash separates them. */
  function JoinPath(folder: string, name: string): (r: string)
    ensures |name| > 0 && name[0] == '/' ==> r == name
    ensures !(|name| > 0 && name[0] == '/') ==> r == folder + name || r == folder + "/" + name
    ensures |folder| > 0 && folder[|folder| - 1] == '/' && !(|name| > 0 && name[0] == '/') ==> r == folder + name
  {
    if |name| > 0 && name[0] == '/' then name
    else if folder == "" || folder[|folder| - 1] == '/' then folder + name
    else folder + "/" + name
  }

  // ---------------------------------------------------------------- the advice file

  /** What one line of the file is to the loop: blank, an entry, or a line whose
      unpacking into two fields raises `ValueError`. */
  datatype AdviceLine = Blank | Entry(advice: Advice) | Malformed

  function ClassifyLine(folder: string, line: string): AdviceLine {
    var t := Strip(line);
    if t == "" then Blank
    else
      var parts := Split(t, '|');
      if |parts| == 2 then Entry(Advice(JoinPath(folder, parts[0]), parts[1])) else Malformed
  }

  /** A non-blank line is an entry exactly when its trimmed text holds exactly one `|`;
      the image is the text before it, the description the text after it. */
  lemma EntryLines(folder: string, line: string)
    requires Strip(line) != ""
    ensures var t := Strip(line);
            ClassifyLine(folder, line).Entry? <==> Has(t, '|') && !Has(After(t, '|'), '|')
    ensures var t := Strip(line);
            ClassifyLine(folder, line).Entry? ==>
              ClassifyLine(folder, line).advice == Advice(JoinPath(folder, Before(t, '|')), After(t, '|'))
  {
    var t := Strip(line);
    if Has(t, '|') {
      var rest := After(t, '|');
      assert Split(t, '|') == [Before(t, '|')] + Split(rest, '|');
      if Has(rest, '|') {
        assert Split(rest, '|') == [Before(rest, '|')] + Split(After(rest, '|'), '|');
      }
    }
  }

  /** The advice list read from classified lines: blank lines skipped, entries kept in
      order, and `None` as soon as one line is malformed (the exception ends the read). */
  function Collect(ls: seq<AdviceLine>): Option<seq<Advice>> {
    if |ls| == 0 then Some([])
    else
      match Collect(ls[..|ls| - 1])
      case None => None
      case Some(acc) =>
        match ls[|ls| - 1]
        case Blank => Some(acc)
        case Entry(a) => Some(acc + [a])
        case Malformed => None
  }

  function Lines(folder: string, lines: seq<string>): (ls: seq<AdviceLine>)
    ensures |ls| == |lines| && forall i :: 0 <= i < |lines| ==> ls[i] == ClassifyLine(folder, lines[i])
  {
    seq(|lines|, i requires 0 <= i < |lines| => ClassifyLine(folder, lines[i]))
  }

  /** `load_advice_data`: `None` when the file is missing or a line is malformed. */
  method LoadAdviceData(folder: string, file: Option<seq<string>>) returns (r: Option<seq<Advice>>)
    ensures r == if file.None? then None else Collect(Lines(folder, file.value))
  {
    if file.None? {
      return None;
    }
    var lines := file.value;
    ghost var ls := Lines(folder, lines);
    var adviceList: seq<Advice> := [];
    var i := 0;
    while i < |lines|
      invariant 0 <= i <= |lines|
      invariant Collect(ls[..i]) == Some(adviceList)
    {
      assert ls[..i + 1][..i] == ls[..i];
      match ClassifyLine(folder, lines[i]) {
        case Blank =>
        case Entry(a) =>
          adviceList := adviceList + [a];
        case Malformed =>
          assert Collect(ls[..i + 1]) == None;
          assert ls[..|ls|] == ls;
          MalformedStops(ls, i);
          return None;
      }
      i := i + 1;
    }
    assert ls[..|lines|] == ls;
    r := Some(adviceList);
  }

  /** Reading stops for good at a malformed line. */
  lemma {:induction false} MalformedStops(ls: seq<AdviceLine>, i: int)
    requires 0 <= i < |ls| && ls[i] == Malformed
    ensures Collect(ls) == None
    decreases |ls|
  {
    if i < |ls| - 1 {
      assert ls[..|ls| - 1][i] == Malformed;
      MalformedStops(ls[..|ls| - 1], i);
    }
  }

  function Entries(ls: seq<AdviceLine>): seq<Advice> {
    if |ls| == 0 then []
    else Entries(ls[..|ls| - 1]) + if ls[|ls| - 1].Entry? then [ls[|ls| - 1].advice] else []
  }

  /** The read succeeds exactly when no line is malformed, and then yields the entries in
      file order. */
  lemma {:induction false} CollectEntries(ls: seq<AdviceLine>)
    ensures Collect(ls).Some? <==> forall i :: 0 <= i < |ls| ==> ls[i] != Malformed
    ensures Collect(ls).Some? ==> Collect(ls).value == Entries(ls)
    decreases |ls|
  {
    if |ls| > 0 {
      var n := |ls| - 1;
      CollectEntries(ls[..n]);
      if Collect(ls).Some? {
        forall i | 0 <= i < |ls|
          ensures ls[i] != Malformed
        {
          if i < n {
            assert ls[i] == ls[..n][i];
          }
        }
      } else if ls[n] != Malformed {
        var i :| 0 <= i < n && ls[..n][i] == Malformed;
        assert ls[i] == Malformed;
      }
    }
  }

  /** Reading two parts of a file one after the other gives the two lists concatenated. */
  lemma {:induction false} EntriesAppend(a: seq<AdviceLine>, b: seq<AdviceLine>)
    ensures Entries(a + b) == Entries(a) + Entries(b)
    decreases |b|
  {
    if |b| > 0 {
      var n := |b| - 1;
      assert (a + b)[..|a| + n] == a + b[..n];
      EntriesAppend(a, b[..n]);
    } else {
      assert a + b == a;
    }
  }

  /** Blank lines can be removed or added anywhere without changing the list. */
  lemma BlankLinesSkipped(a: seq<AdviceLine>, b: seq<AdviceLine>)
    ensures Collect(a + [Blank] + b) == Collect(a + b)
  {
    CollectEntries(a + [Blank] + b);
    CollectEntries(a + b);
    EntriesAppend(a + [Blank], b);
    EntriesAppend(a, [Blank]);
    EntriesAppend(a, b);
    assert [Blank][..0] == [];
    assert Entries([Blank]) == [];
    assert Entries(a + [Blank] + b) == Entries(a + b);
    if Collect(a + b).Some? {
      forall i | 0 <= i < |a + [Blank] + b|
        ensures (a + [Blank] + b)[i] != Malformed
      {
        if i > |a| {
          assert (a + [Blank] + b)[i] == (a + b)[i - 1];
        } else if i < |a| {
          assert (a + [Blank] + b)[i] == (a + b)[i];
        }
      }
    } else {
      var i :| 0 <= i < |a + b| && (a + b)[i] == Malformed;
      if i < |a| {
        assert (a + [Blank] + b)[i] == Malformed;
      } else {
        assert (a + [Blank] + b)[i + 1] == Malformed;
      }
    }
  }

  // ---------------------------------------------------------------- daily advice

  /** What `get_daily_advice` does: the refusal string, a card, or `IndexError` from
      `random.choice` on an empty list. */
  datatype DailyOutcome = Refused(message: string) | Drawn(advice: Advice) | EmptyDeck

  /** `get_daily_advice` on the record of last dates; `pick` stands for the random choice. */
  function DailyAdvice(requests: map<int, Date>, data: seq<Advice>, userId: int, today: Date, pick: nat)
    : (r: (DailyOutcome, map<int, Date>))
    ensures r.0.Drawn? ==> r.0.advice in data && r.1 == requests[userId := today]
    ensures !r.0.Drawn? ==> r.1 == requests
  {
    if userId in requests && requests[userId] == today then (Refused(AlreadyAsked), requests)
    else if |data| == 0 then (EmptyDeck, requests)
    else (Drawn(data[pick % |data|]), requests[userId := today])
  }

  class TarotAdvice {
    var userRequests: map<int, Date>
    var imageFolder: string
    var adviceData: seq<Advice>

    /** `__init__`: construction fails unless the advice file reads without error. */
    constructor(file: seq<string>)
      requires Collect(Lines(ImageFolder, file)).Some?
      ensures userRequests == map[] && imageFolder == ImageFolder
      ensures adviceData == Collect(Lines(ImageFolder, file)).value
    {
      userRequests := map[];
      imageFolder := ImageFolder;
      var data := LoadAdviceData(ImageFolder, Some(file));
      adviceData := data.value;
    }

    method GetDailyAdvice(userId: int, today: Date, pick: nat) returns (outcome: DailyOutcome)
      modifies this
      ensures (outcome, userRequests) == DailyAdvice(old(userRequests), adviceData, userId, today, pick)
      ensures adviceData == old(adviceData) && imageFolder == old(imageFolder)
    {
      if userId in userRequests {
        var lastRequest := userRequests[userId];
        if lastRequest == today {
          return Refused(AlreadyAsked);
        }
      }
      if |adviceData| == 0 {
        return EmptyDeck;
      }
      outcome := Drawn(adviceData[pick % |adviceData|]);
      userRequests := userRequests[userId := today];
    }
  }

  // ---------------------------------------------------------------- daily advice: properties

  /** A first request on a date, with cards to draw from, gives one of the cards and
      records the date for the user. */
  lemma FirstRequestDraws(requests: map<int, Date>, data: seq<Advice>, userId: int, today: Date, pick: nat)
    requires userId !in requests || requests[userId] != today
    requires |data| > 0
    ensures var (out, next) := DailyAdvice(requests, data, userId, today, pick);
            out.Drawn? && out.advice in data && next == requests[userId := today]
  {
  }

  /** After a request that drew a card or was refused, a second request on the same date
      is refused and changes nothing. */
  lemma SecondRequestRefused(requests: map<int, Date>, data: seq<Advice>, userId: int, today: Date,
                             pick: nat, pick2: nat)
    ensures var (o, next) := DailyAdvice(requests, data, userId, today, pick);
            (o.Drawn? || o.Refused?) ==> DailyAdvice(next, data, userId, today, pick2) == (Refused(AlreadyAsked), next)
  {
  }

  /** The refusal depends only on the recorded date being today. */
  lemma RefusedExactlySameDay(requests: map<int, Date>, data: seq<Advice>, userId: int, today: Date, pick: nat)
    ensures DailyAdvice(requests, data, userId, today, pick).0.Refused?
            <==> userId in requests && requests[userId] == today
  {
  }

  /** With no cards, a new request raises and records nothing. */
  lemma EmptyDeckRecordsNothing(requests: map<int, Date>, userId: int, today: Date, pick: nat)
    ensures DailyAdvice(requests, [], userId, today, pick).1 == requests
  {
  }

  /** One user's request never changes another user's entry. */
  lemma OtherUsersKeepDates(requests: map<int, Date>, data: seq<Advice>, userId: int, today: Date,
                            pick: nat, other: int)
    requires other != userId
    ensures var next := DailyAdvice(requests, data, userId, today, pick).1;
            (other in next <==> other in requests) && (other in requests ==> next[other] == requests[other])
  {
  }
}
