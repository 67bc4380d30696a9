/** The time question of utils/time_checker.py: whether a message asks for the time, and
    the reply naming the current time. The current time in the configured zone is a
    parameter. */
module TimeChecker {
  import opened Strings
  import opened Clock

  const TimeTriggers: seq<string> := ["время", "который час", "сколько времени", "часов"]

  /** `is_time_request`; an empty text stands for `None`. */
  predicate IsTimeRequest(text: string)
    ensures IsTimeRequest(text) ==> |text| >= 5
  {
    TriggersAtLeastFive();
    ContainsAny(Lower(text), TimeTriggers)
  }

  /** Every phrase is at least five letters long. */
  lemma TriggersAtLeastFive()
    ensures forall k :: 0 <= k < |TimeTriggers| ==> |TimeTriggers[k]| >= 5
  {
  }

  /** A text asks for the time exactly when one of the four phrases occurs in it,
      lower-cased. */
  lemma TimeRequestSpec(text: string)
    ensures var low := Lower(text);
            IsTimeRequest(text) <==>
              Contains(low, "время") || Contains(low, "который час")
              || Contains(low, "сколько времени") || Contains(low, "часов")
  {
    var low := Lower(text);
    assert TimeTriggers[0] == "время" && TimeTriggers[1] == "который час";
    assert TimeTriggers[2] == "сколько времени" && TimeTriggers[3] == "часов";
  }

  /** An empty text is never a time question. */
  lemma EmptyNotTimeRequest()
    ensures !IsTimeRequest("")
  {
    assert Lower("") == "";
    NothingInEmpty(TimeTriggers);
  }

  /** A phrase written in any mix of upper and lower case, anywhere in the text, makes it a
      time question. */
  lemma AnyCaseTriggers(before: string, phrase: string, after: string, k: nat)
    requires k < |TimeTriggers| && Lower(phrase) == TimeTriggers[k]
    ensures IsTimeRequest(before + phrase + after)
  {
    LowerAppend(before + phrase, after);
    LowerAppend(before, phrase);
    ContainsMiddle(Lower(before), Lower(phrase), Lower(after));
  }

  const ReplyHead := "Сейчас "

  /** `get_time_reply`: `now` is the current time in the zone named `tz`. */
  function TimeReply(now: Time, tz: string): (r: string)
    requires ValidTime(now)
    ensures StartsWith(r, ReplyHead) && |r| == |ReplyHead| + |tz| + 9 && r[|r| - 1] == '.'
  {
    ReplyHead + HHMM(now) + " (" + tz + ")."
  }

  /** The time can be read back from the reply: it follows the fixed opening. */
  lemma TimeReplyNamesTime(now: Time, tz: string)
    requires ValidTime(now)
    ensures var r := TimeReply(now, tz);
            StartsWith(r, ReplyHead) && r[|ReplyHead|..|ReplyHead| + 5] == HHMM(now) && r[|r| - 1] == '.'
  {
    var r := TimeReply(now, tz);
    assert r == ReplyHead + (HHMM(now) + (" (" + tz + ")."));
  }

  /** Different times give different replies in the same zone. */
  lemma TimeReplyInjective(a: Time, b: Time, tz: string)
    requires ValidTime(a) && ValidTime(b)
    requires TimeReply(a, tz) == TimeReply(b, tz)
    ensures a == b
  {
    TimeReplyNamesTime(a, tz);
    TimeReplyNamesTime(b, tz);
    HHMMInjective(a, b);
  }
}
