/** The keyword replies of modules/simple_replies/handler.py: the rules are tried in
    order, and the first one with a trigger in the lower-cased text answers with one of its
    responses. The rule table lives in a file that is not part of this model, so it is a
    parameter; `random.choice` is the parameter `pick`. */
module SimpleReplies {
  import opened Optional
  import opened Strings
  import opened Actions

  /** One rule of the table: its trigger substrings and its possible responses. */
  datatype Rule = Rule(triggers: seq<string>, responses: seq<string>)

  predicate Fires(low: string, rule: Rule) {
    ContainsAny(low, rule.triggers)
  }

  /** The position of the first rule at or after `k` that fires. */
  function FirstRuleFrom(low: string, rules: seq<Rule>, k: nat): (r: Option<nat>)
    requires k <= |rules|
    ensures r.Some? ==> k <= r.value < |rules| && Fires(low, rules[r.value])
    decreases |rules| - k
  {
    if k == |rules| then None
    else if Fires(low, rules[k]) then Some(k)
    else FirstRuleFrom(low, rules, k + 1)
  }

  function FirstRule(low: string, rules: seq<Rule>): Option<nat> {
    FirstRuleFrom(low, rules, 0)
  }

  /** The first rule that fires is the one chosen: no earlier rule fires, and when none is
      chosen no rule fires at all. */
  lemma {:induction false} FirstRuleFromSpec(low: string, rules: seq<Rule>, k: nat)
    requires k <= |rules|
    ensures var r := FirstRuleFrom(low, rules, k);
            (r.None? <==> forall j :: k <= j < |rules| ==> !Fires(low, rules[j]))
            && (r.Some? ==> forall j :: k <= j < r.value ==> !Fires(low, rules[j]))
    decreases |rules| - k
  {
    if k < |rules| && !Fires(low, rules[k]) {
      FirstRuleFromSpec(low, rules, k + 1);
    }
  }

  /** `get_simple_reply`; an empty text stands for `None`. Every rule of the table has a
      response, as `random.choice` needs. */
  function SimpleReply(text: string, rules: seq<Rule>, pick: nat): (r: Option<seq<Action>>)
    requires forall k :: 0 <= k < |rules| ==> |rules[k].responses| > 0
    ensures r.Some? ==> |r.value| == 1 && r.value[0].Text?
                        && exists k :: 0 <= k < |rules| && r.value[0].text in rules[k].responses
  {
    var low := Lower(text);
    match FirstRule(low, rules)
    case None => None
    case Some(k) =>
      var responses := rules[k].responses;
      Some([Text(responses[pick % |responses|])])
  }

  /** A reply is exactly one text, one of the responses of the first rule whose trigger
      occurs in the lower-cased text; no reply means that no rule's trigger occurs. */
  lemma SimpleReplySpec(text: string, rules: seq<Rule>, pick: nat)
    requires forall k :: 0 <= k < |rules| ==> |rules[k].responses| > 0
    ensures var r := SimpleReply(text, rules, pick);
            (r.None? <==> forall j :: 0 <= j < |rules| ==> !Fires(Lower(text), rules[j]))
            && (r.Some? ==> exists k :: 0 <= k < |rules| && Fires(Lower(text), rules[k])
                              && (forall j :: 0 <= j < k ==> !Fires(Lower(text), rules[j]))
                              && |r.value| == 1 && r.value[0].Text? && r.value[0].text in rules[k].responses)
  {
    var low := Lower(text);
    FirstRuleFromSpec(low, rules, 0);
    var f := FirstRule(low, rules);
    if f.Some? {
      var k := f.value;
      var responses := rules[k].responses;
      assert responses[pick % |responses|] in responses;
    }
  }

  /** Matching ignores case: the text and its lower-cased form get the same reply. */
  lemma CaseInsensitive(text: string, rules: seq<Rule>, pick: nat)
    requires forall k :: 0 <= k < |rules| ==> |rules[k].responses| > 0
    ensures SimpleReply(Lower(text), rules, pick) == SimpleReply(text, rules, pick)
  {
    LowerIdempotent(text);
  }

  /** Rules whose triggers are all non-empty never answer an empty text. */
  lemma EmptyTextNoReply(rules: seq<Rule>, pick: nat)
    requires forall k :: 0 <= k < |rules| ==> |rules[k].responses| > 0
    requires forall k, i :: 0 <= k < |rules| && 0 <= i < |rules[k].triggers| ==> rules[k].triggers[i] != ""
    ensures SimpleReply("", rules, pick).None?
  {
    forall j | 0 <= j < |rules|
      ensures !Fires(Lower(""), rules[j])
    {
      assert Lower("") == "";
      NothingInEmpty(rules[j].triggers);
    }
    SimpleReplySpec("", rules, pick);
  }
}
