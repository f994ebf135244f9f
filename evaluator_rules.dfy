/**
 * The rule-based judge (voice_eval/evaluator_rules.py): does a bot reply meet
 * a step's expectation? An expectation is a small mapping loaded from a
 * scenario file; `contains` asks for one phrase and `contains_any` for any
 * phrase of a list, both case-insensitively.
 */
module EvaluatorRules {
  import opened Common

  /** A value of an expectation mapping: a string, a list of strings, or
      anything else the scenario file may hold (a number, a mapping, null). */
  datatype Value = Str(s: string) | StrList(items: seq<string>) | Other

  type Expectation = map<string, Value>

  const ContainsKey := "contains"
  const ContainsAnyKey := "contains_any"

  /** What the judge demands of its input: a `contains` phrase is a string
      (any other value makes `.lower()` raise, which nothing catches). */
  predicate Judgeable(e: Expectation) {
    ContainsKey in e ==> e[ContainsKey].Str?
  }

  /** Some phrase of the list occurs in the (lowercased) reply. */
  function AnyContained(items: seq<string>, botLower: string): (r: bool)
    ensures r <==> exists j :: 0 <= j < |items| && Contains(botLower, LowerStr(items[j]))
  {
    if |items| == 0 then false
    else Contains(botLower, LowerStr(items[0])) || AnyContained(items[1..], botLower)
  }

  /** The verdict the judge gives. An empty expectation passes; `contains`
      is looked at first, then `contains_any`; a `contains_any` that is not
      a list, and an expectation with neither key, fail. */
  function Verdict(botText: string, e: Expectation): (r: bool)
    requires Judgeable(e)
    ensures |e| == 0 ==> r
    ensures r ==> |e| == 0 || ContainsKey in e || (ContainsAnyKey in e && e[ContainsAnyKey].StrList?)
  {
    if |e| == 0 then true
    else
      var botLower := LowerStr(botText);
      if ContainsKey in e then Contains(botLower, LowerStr(e[ContainsKey].s))
      else if ContainsAnyKey in e then
        match e[ContainsAnyKey]
        case StrList(items) => AnyContained(items, botLower)
        case _ => false
      else false
  }

  /** check_bot_expect_enhanced: the phrases of a `contains_any` list are
      tried in order and the first one found decides. */
  method CheckBotExpectEnhanced(botText: string, expectation: Expectation) returns (ok: bool)
    requires Judgeable(expectation)
    ensures ok == Verdict(botText, expectation)
  {
    if |expectation| == 0 {
      return true;
    }
    var botLower := LowerStr(botText);
    if ContainsKey in expectation {
      return Contains(botLower, LowerStr(expectation[ContainsKey].s));
    } else if ContainsAnyKey in expectation {
      if !expectation[ContainsAnyKey].StrList? {
        return false;
      }
      var items := expectation[ContainsAnyKey].items;
      for j := 0 to |items|
        invariant forall k :: 0 <= k < j ==> !Contains(botLower, LowerStr(items[k]))
      {
        if Contains(botLower, LowerStr(items[j])) {
          return true;
        }
      }
      return false;
    }
    return false;
  }

  /** A `contains` expectation passes exactly when the phrase occurs, in
      lower case, at some position of the lowercased reply. */
  lemma ContainsMeansSubstring(botText: string, e: Expectation)
    requires Judgeable(e) && ContainsKey in e
    ensures Verdict(botText, e)
            <==> exists i :: OccursAt(LowerStr(botText), LowerStr(e[ContainsKey].s), i)
  {
    ContainsIffOccurs(LowerStr(botText), LowerStr(e[ContainsKey].s));
  }

  /** When both keys are given, `contains_any` is ignored. */
  lemma ContainsTakesPrecedence(botText: string, e: Expectation)
    requires Judgeable(e) && ContainsKey in e
    ensures Verdict(botText, e) == Verdict(botText, map[ContainsKey := e[ContainsKey]])
  {
  }

  /** A `contains_any` that is not a list fails, whatever the reply. */
  lemma NonListFails(botText: string, e: Expectation)
    requires Judgeable(e) && ContainsKey !in e && ContainsAnyKey in e && !e[ContainsAnyKey].StrList?
    ensures !Verdict(botText, e)
  {
  }

  /** An expectation with neither known key fails, whatever the reply. */
  lemma UnknownKeysFail(botText: string, e: Expectation)
    requires |e| > 0 && ContainsKey !in e && ContainsAnyKey !in e
    ensures !Verdict(botText, e)
  {
  }

  /** The case of the reply does not matter. */
  lemma VerdictIgnoresCase(botText: string, e: Expectation)
    requires Judgeable(e)
    ensures Verdict(LowerStr(botText), e) == Verdict(botText, e)
  {
    LowerStrIdempotent(botText);
  }

  /** A `contains_any` list passes exactly when one of its phrases, given as
      a `contains` expectation, would pass. */
  lemma ContainsAnyIsSomeContains(botText: string, items: seq<string>)
    ensures Verdict(botText, map[ContainsAnyKey := StrList(items)])
            <==> exists j :: 0 <= j < |items| && Verdict(botText, map[ContainsKey := Str(items[j])])
  {
    var single := map[ContainsAnyKey := StrList(items)];
    assert |single| > 0 && ContainsKey !in single && ContainsAnyKey in single by {
      assert single.Keys == {ContainsAnyKey};
    }
    forall j | 0 <= j < |items|
      ensures Verdict(botText, map[ContainsKey := Str(items[j])])
              == Contains(LowerStr(botText), LowerStr(items[j]))
    {
      assert |map[ContainsKey := Str(items[j])]| > 0;
    }
  }

  /** Adding phrases to a `contains_any` list never turns a pass into a fail. */
  lemma {:induction false} MorePhrasesStillPass(items: seq<string>, more: seq<string>, botLower: string)
    requires AnyContained(items, botLower)
    ensures AnyContained(items + more, botLower) && AnyContained(more + items, botLower)
  {
    var j :| 0 <= j < |items| && Contains(botLower, LowerStr(items[j]));
    assert (items + more)[j] == items[j];
    assert (more + items)[|more| + j] == items[j];
  }
}
