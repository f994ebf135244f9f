/**
 * The LLM judge (voice_eval/evaluator_llm.py). The prompt and the HTTP
 * exchange with the local model server are one abstract function, `ask`,
 * from a reply and an expectation to the outcome of the call; JSON parsing
 * is the abstract function `loads`. What is modelled is everything the
 * judge does with the model's raw text: the JSON object is cut out between
 * the first `{` and the last `}`, parsed, and checked for a "pass" field;
 * failing that, the text is searched for `"pass": true` or `"pass": false`;
 * failing that, the verdict is a conservative false. When the call itself
 * fails, the rule-based judge decides.
 */
module EvaluatorLlm {
  import opened Common
  import opened EvaluatorRules

  /** A JSON value, as far as the judge looks at it: the verdict is used by
      its truthiness only. */
  datatype JsonValue = JBool(b: bool) | JString(s: string) | JOther(truthy: bool)

  type JsonObject = map<string, JsonValue>

  /** The text of the model's answer, or a failure: the server is not
      reachable, answers with an error status, or its envelope cannot be read. */
  datatype CallOutcome = Responded(text: string) | Failed

  /** Python's truth value of a JSON value. */
  predicate Truthy(v: JsonValue) {
    match v
    case JBool(b) => b
    case JString(s) => |s| > 0
    case JOther(t) => t
  }

  const PassKey := "pass"
  const ReasonKey := "reason"

  /** The dictionaries the judge builds itself. */
  function Judgement(pass: bool, reason: string): JsonObject {
    map[PassKey := JBool(pass), ReasonKey := JString(reason)]
  }

  const TrueSpaced := "\"pass\": true"
  const TrueTight := "\"pass\":true"
  const FalseSpaced := "\"pass\": false"
  const FalseTight := "\"pass\":false"

  /** The candidate JSON text: from the first `{` to the last `}`, both
      included, when the last `}` comes after the first `{`. */
  datatype Span = Span(start: nat, end: nat)

  function JsonSpan(text: string): (r: Option<Span>)
    ensures r.Some? ==> r.value.start < r.value.end <= |text|
                        && text[r.value.start] == '{' && '{' !in text[..r.value.start]
                        && text[r.value.end - 1] == '}' && '}' !in text[r.value.end..]
    ensures r.None? ==> forall i, j :: 0 <= i < j < |text| && text[i] == '{' ==> text[j] != '}'
  {
    var start := Find(text, '{');
    var end := RFind(text, '}') + 1;
    if start != -1 && end > start then Some(Span(start, end))
    else
      assert forall i, j :: 0 <= i < j < |text| && text[i] == '{' ==> text[j] != '}' by {
        forall i, j | 0 <= i < j < |text| && text[i] == '{'
          ensures text[j] != '}'
        {
          FindFirst(text, '{', i);
          RFindLast(text, '}', j);
        }
      }
      None
  }

  /** The object parsed from the candidate text, when there is one, it
      parses, and it has a "pass" field. */
  function ParsedObject(text: string, loads: string -> Option<JsonObject>): (r: Option<JsonObject>)
    ensures r.Some? ==> PassKey in r.value
  {
    match JsonSpan(text)
    case None => None
    case Some(sp) =>
      match loads(text[sp.start..sp.end])
      case None => None
      case Some(obj) => if PassKey in obj then Some(obj) else None
  }

  /** The verdict read off the raw text when no usable JSON was found; the
      search is on the lowercased text, and a true fragment wins. */
  function TextFallback(text: string): (r: JsonObject)
    ensures PassKey in r && r[PassKey].JBool?
  {
    var lower := LowerStr(text);
    if Contains(lower, TrueSpaced) || Contains(lower, TrueTight) then
      Judgement(true, "Extracted from response text")
    else if Contains(lower, FalseSpaced) || Contains(lower, FalseTight) then
      Judgement(false, "Extracted from response text")
    else
      Judgement(false, "Failed to parse LLM response")
  }

  /** _call_ollama_llm: the object it returns, or None when it raises. */
  function CallOllama(outcome: CallOutcome, loads: string -> Option<JsonObject>): (r: Option<JsonObject>)
    ensures r.None? <==> outcome.Failed?
    ensures r.Some? ==> PassKey in r.value
  {
    match outcome
    case Failed => None
    case Responded(raw) =>
      var text := Strip(raw);
      match ParsedObject(text, loads)
      case Some(obj) => Some(obj)
      case None => Some(TextFallback(text))
  }

  /** The verdict check_bot_expect_llm returns: the raw "pass" value. */
  function LlmVerdict(botText: string, e: Expectation, ask: (string, Expectation) -> CallOutcome,
                      loads: string -> Option<JsonObject>): (r: JsonValue)
    requires Judgeable(e)
    ensures |e| == 0 ==> r == JBool(true)
    ensures |e| > 0 && CallOllama(ask(botText, e), loads).None? ==> r == JBool(Verdict(botText, e))
  {
    if |e| == 0 then JBool(true)
    else
      match CallOllama(ask(botText, e), loads)
      case None => JBool(Verdict(botText, e))
      case Some(result) => Get(result, PassKey, JBool(false))
  }

  /** _fallback_rule_evaluation: the rule-based judge, step for step. */
  method FallbackRuleEvaluation(botText: string, expectation: Expectation) returns (ok: bool)
    requires Judgeable(expectation)
    ensures ok == Verdict(botText, expectation)
  {
    ok := CheckBotExpectEnhanced(botText, expectation);
  }

  /** check_bot_expect_llm: an empty expectation passes without asking the
      model; a failed call falls back to the rules; otherwise the model's
      "pass" value is the verdict. */
  method CheckBotExpectLlm(botText: string, expectation: Expectation, ask: (string, Expectation) -> CallOutcome,
                           loads: string -> Option<JsonObject>) returns (r: JsonValue)
    requires Judgeable(expectation)
    ensures r == LlmVerdict(botText, expectation, ask, loads)
    ensures |expectation| == 0 ==> r == JBool(true)
  {
    if |expectation| == 0 {
      return JBool(true);
    }
    var result := CallOllama(ask(botText, expectation), loads);
    match result {
      case None =>
        var ok := FallbackRuleEvaluation(botText, expectation);
        r := JBool(ok);
      case Some(obj) =>
        r := Get(obj, PassKey, JBool(false));
    }
  }

  /** A failed call gives exactly the rule-based verdict. */
  lemma FailedCallMatchesRules(botText: string, e: Expectation, ask: (string, Expectation) -> CallOutcome,
                               loads: string -> Option<JsonObject>)
    requires Judgeable(e) && ask(botText, e).Failed?
    ensures LlmVerdict(botText, e, ask, loads) == JBool(Verdict(botText, e))
  {
  }

  /** When the model answered, the verdict is the "pass" field of the
      object the call returned: the default of `get` is never used. */
  lemma AnsweredVerdictIsPassField(botText: string, e: Expectation, ask: (string, Expectation) -> CallOutcome,
                                   loads: string -> Option<JsonObject>)
    requires Judgeable(e) && |e| > 0 && ask(botText, e).Responded?
    ensures var result := CallOllama(ask(botText, e), loads);
            result.Some? && LlmVerdict(botText, e, ask, loads) == result.value[PassKey]
  {
  }

  /** An answer whose JSON parses with a "pass" field is taken as it stands,
      whatever else the text says. */
  lemma ParsedAnswerWins(raw: string, loads: string -> Option<JsonObject>, obj: JsonObject)
    requires JsonSpan(Strip(raw)).Some?
    requires var sp := JsonSpan(Strip(raw)).value; loads(Strip(raw)[sp.start..sp.end]) == Some(obj)
    requires PassKey in obj
    ensures CallOllama(Responded(raw), loads) == Some(obj)
  {
  }

  /** Without usable JSON, the verdict is true exactly when a true fragment
      occurs in the lowercased text. */
  lemma FallbackTrueIffTrueFragment(text: string)
    ensures Truthy(TextFallback(text)[PassKey])
            <==> Contains(LowerStr(text), TrueSpaced) || Contains(LowerStr(text), TrueTight)
  {
  }

  /** Without usable JSON and without any fragment, the verdict is false. */
  lemma UnreadableAnswerFails(raw: string, loads: string -> Option<JsonObject>)
    requires ParsedObject(Strip(raw), loads).None?
    requires var lower := LowerStr(Strip(raw));
             !Contains(lower, TrueSpaced) && !Contains(lower, TrueTight)
             && !Contains(lower, FalseSpaced) && !Contains(lower, FalseTight)
    ensures CallOllama(Responded(raw), loads) == Some(Judgement(false, "Failed to parse LLM response"))
  {
  }

  /** The text search does not depend on the case of the answer. */
  lemma FallbackIgnoresCase(text: string)
    ensures TextFallback(LowerStr(text)) == TextFallback(text)
  {
    LowerStrIdempotent(text);
  }

  /** An answer without a `{` is never parsed: the text search decides. */
  lemma NoBraceMeansTextSearch(raw: string, loads: string -> Option<JsonObject>)
    requires '{' !in Strip(raw)
    ensures CallOllama(Responded(raw), loads) == Some(TextFallback(Strip(raw)))
  {
  }
}
