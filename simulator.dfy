/**
 * The simulation loop (voice_eval/simulator.py, with the Step and Scenario
 * records of voice_eval/scenario.py). Each step of a scenario is one turn:
 * the user's line is spoken and transcribed, the transcript goes through the
 * three tools (slots, policy, reply), the reply is judged against the step's
 * expectation, and a transcript entry is recorded. Speech synthesis followed
 * by recognition is the abstract function `speech`; the LLM judge's call is
 * `ask` and its JSON parser `loads`.
 */
module Simulator {
  import opened Common
  import opened McpTools
  import opened McpClient
  import opened EvaluatorRules
  import opened EvaluatorLlm

  /** One scripted step: what the user says, and what the reply must meet. */
  datatype Step = Step(user: Option<string>, botExpect: Option<Expectation>)

  datatype Scenario = Scenario(id: string, goal: string, steps: seq<Step>, acceptance: map<string, Value>)

  /** The settings of a run and the outside world it talks to. `speech`
      takes the user's line, the audio file it is spoken into and the
      recogniser's model size, and gives what the recogniser heard. */
  datatype Config = Config(
    audioDir: string,
    modelSize: string,
    judge: string,
    speech: (string, string, string) -> string,
    ask: (string, Expectation) -> CallOutcome,
    loads: string -> Option<JsonObject>)

  const LlmJudge := "llm"

  /** The reply used when response generation fails. */
  const Apology := "I'm sorry, I encountered an error. Could you please try again?"

  /** One transcript entry. */
  datatype TurnRecord = TurnRecord(
    turn: nat,
    userText: string,
    userAsr: string,
    botText: string,
    action: string,
    slots: Slots,
    pass: JsonValue,
    expectation: Expectation,
    userWav: string,
    botWav: string)

  datatype ScenarioResult = ScenarioResult(
    scenarioId: string,
    goal: string,
    scenarioPass: bool,
    stepsExpected: nat,
    stepsPassed: nat,
    transcript: seq<TurnRecord>)

  /** `step.user or ""`. */
  function UserText(step: Step): string {
    if step.user.Some? then step.user.value else ""
  }

  /** `step.bot_expect or {}`: a missing expectation reads as the empty one. */
  function Expect(step: Step): Expectation {
    if step.botExpect.Some? then step.botExpect.value else map[]
  }

  /** The step's expectation is truthy, so the step is judged and counted. */
  predicate HasExpectation(step: Step) {
    |Expect(step)| > 0
  }

  /** Every expectation of the scenario is one the judges accept. */
  predicate ScenarioJudgeable(s: Scenario) {
    forall k :: 0 <= k < |s.steps| ==> Judgeable(Expect(s.steps[k]))
  }

  /** `{audio_dir}/{id}/{speaker}_{i}.wav`. */
  function AudioPath(cfg: Config, id: string, speaker: string, i: nat): (r: string)
    ensures |r| > |cfg.audioDir| + 4 && r[..|cfg.audioDir|] == cfg.audioDir && r[|r| - 4..] == ".wav"
  {
    cfg.audioDir + "/" + id + "/" + speaker + "_" + NatToString(i) + ".wav"
  }

  /** The files of one scenario never collide: the user's file and the
      bot's differ, and so do the files of two different turns. */
  lemma AudioPathsDistinct(cfg: Config, id: string, i: nat, j: nat)
    ensures AudioPath(cfg, id, "user", i) != AudioPath(cfg, id, "bot", j)
    ensures i != j ==> AudioPath(cfg, id, "user", i) != AudioPath(cfg, id, "user", j)
    ensures i != j ==> AudioPath(cfg, id, "bot", i) != AudioPath(cfg, id, "bot", j)
  {
    var dir := cfg.audioDir + "/" + id + "/";
    assert AudioPath(cfg, id, "user", i)[|dir|] == 'u';
    assert AudioPath(cfg, id, "bot", j)[|dir|] == 'b';
    if i != j {
      NumberedPathsDistinct(dir + "user" + "_", i, j);
      NumberedPathsDistinct(dir + "bot" + "_", i, j);
    }
  }

  lemma NumberedPathsDistinct(prefix: string, i: nat, j: nat)
    requires i != j
    ensures prefix + NatToString(i) + ".wav" != prefix + NatToString(j) + ".wav"
  {
    var a, b := NatToString(i), NatToString(j);
    NatToStringInjective(i, j);
    assert (prefix + a + ".wav")[|prefix|..|prefix| + |a|] == a;
    assert (prefix + b + ".wav")[|prefix|..|prefix| + |b|] == b;
  }

  /** The verdict recorded for a reply: true without an expectation,
      otherwise the configured judge's ("llm" or, by default, the rules). */
  function Judge(cfg: Config, botText: string, e: Expectation): (r: JsonValue)
    requires Judgeable(e)
    ensures |e| == 0 ==> r == JBool(true)
    ensures cfg.judge != LlmJudge ==> r.JBool?
  {
    if |e| == 0 then JBool(true)
    else if cfg.judge == LlmJudge then LlmVerdict(botText, e, cfg.ask, cfg.loads)
    else JBool(Verdict(botText, e))
  }

  /** What the recogniser heard in turn i: the user's line, spoken into
      the turn's audio file and transcribed. */
  function Heard(cfg: Config, s: Scenario, i: nat): string
    requires 1 <= i <= |s.steps|
  {
    cfg.speech(UserText(s.steps[i - 1]), AudioPath(cfg, s.id, "user", i), cfg.modelSize)
  }

  /** Turn i (counted from 1) of a scenario, given the slots so far: the
      recogniser's transcript goes through slot extraction, the policy and
      the response templates, and the reply is judged. The loop's handling
      of failed tool calls is absent because those calls never fail
      (RunTurn proves it). */
  function Turn(cfg: Config, s: Scenario, i: nat, slots: Slots): (r: TurnRecord)
    requires 1 <= i <= |s.steps| && ScenarioJudgeable(s)
    ensures Records(cfg, s, i, r)
    ensures r.userWav != r.botWav
  {
    var step := s.steps[i - 1];
    AudioPathsDistinct(cfg, s.id, i, i);
    var asr := Heard(cfg, s, i);
    var current := ExtractSlots(asr, slots);
    var action := PolicyDecision(s.goal, asr, current).data.action;
    var botText := GenerateResponse(action, current).data.utterance;
    TurnRecord(i, UserText(step), asr, botText, action, current,
               Judge(cfg, botText, Expect(step)), Expect(step),
               AudioPath(cfg, s.id, "user", i), AudioPath(cfg, s.id, "bot", i))
  }

  /** The transcript of the first n turns and the slots after them. */
  datatype Progress = Progress(transcript: seq<TurnRecord>, slots: Slots)

  /** A turn as a function of its number and of the slots it starts from. */
  type TurnStep = (nat, Slots) --> TurnRecord

  /** The loop of run_scenario over any turn: n turns, each starting from
      the slots the previous one recorded, the first from no slots. */
  function Unroll(turn: TurnStep, n: nat): (p: Progress)
    requires forall i, slots :: 1 <= i <= n ==> turn.requires(i, slots)
    ensures |p.transcript| == n
  {
    if n == 0 then Progress([], map[])
    else
      var prev := Unroll(turn, n - 1);
      var rec := turn(n, prev.slots);
      Progress(prev.transcript + [rec], rec.slots)
  }

  /** The slots turn k + 1 starts from. */
  function SlotsBefore(t: seq<TurnRecord>, k: nat): Slots
    requires k <= |t|
  {
    if k == 0 then map[] else t[k - 1].slots
  }

  /** Entry k of the transcript is turn k + 1, run on the slots the first k
      turns left; the slots carried forward are the last entry's. */
  lemma {:induction false} UnrollEntries(turn: TurnStep, n: nat)
    requires forall i, slots :: 1 <= i <= n ==> turn.requires(i, slots)
    ensures Unroll(turn, n).slots == SlotsBefore(Unroll(turn, n).transcript, n)
    ensures forall k :: 0 <= k < n ==> Unroll(turn, n).transcript[k] == turn(k + 1, Unroll(turn, k).slots)
  {
    if n > 0 {
      UnrollEntries(turn, n - 1);
      var prev := Unroll(turn, n - 1);
      assert Unroll(turn, n).transcript == prev.transcript + [turn(n, prev.slots)];
    }
  }

  /** When no turn forgets a slot or adds one other than the order number
      and the card, a later entry holds every slot of an earlier one, and
      none holds anything else. */
  lemma {:induction false} UnrollSlotsGrow(turn: TurnStep, n: nat)
    requires forall i, slots :: 1 <= i <= n ==> turn.requires(i, slots)
    requires forall i, slots: Slots :: 1 <= i <= n ==>
               slots.Keys <= turn(i, slots).slots.Keys <= slots.Keys + {OrderKey, CardKey}
    ensures var t := Unroll(turn, n).transcript;
            forall k, l :: 0 <= k <= l < n ==> t[k].slots.Keys <= t[l].slots.Keys <= {OrderKey, CardKey}
  {
    if n > 0 {
      UnrollSlotsGrow(turn, n - 1);
      UnrollEntries(turn, n - 1);
      var prev := Unroll(turn, n - 1);
      var last := turn(n, prev.slots);
      var t := Unroll(turn, n).transcript;
      assert t == prev.transcript + [last];
      assert prev.slots.Keys <= {OrderKey, CardKey} by {
        if n > 1 {
          assert prev.slots == prev.transcript[n - 2].slots;
        }
      }
      assert forall k :: 0 <= k < n - 1 ==> t[k].slots.Keys <= prev.slots.Keys by {
        if n > 1 {
          assert prev.slots == prev.transcript[n - 2].slots;
        }
      }
    }
  }

  /** The turns of one scenario under one configuration. */
  function TurnOf(cfg: Config, s: Scenario): TurnStep {
    (i: nat, slots: Slots) requires 1 <= i <= |s.steps| && ScenarioJudgeable(s) => Turn(cfg, s, i, slots)
  }

  function Run(cfg: Config, s: Scenario, n: nat): (p: Progress)
    requires n <= |s.steps| && ScenarioJudgeable(s)
    ensures |p.transcript| == n
  {
    Unroll(TurnOf(cfg, s), n)
  }

  /** `sum(1 for step in steps if step.bot_expect)`. */
  function CountExpected(steps: seq<Step>): (r: nat)
    ensures r <= |steps|
  {
    if |steps| == 0 then 0
    else (if HasExpectation(steps[0]) then 1 else 0) + CountExpected(steps[1..])
  }

  /** `sum(1 for entry in transcript if entry["pass"] and entry["expectation"])`. */
  function CountPassed(transcript: seq<TurnRecord>): (r: nat)
    ensures r <= |transcript|
  {
    if |transcript| == 0 then 0
    else
      (if Truthy(transcript[0].pass) && |transcript[0].expectation| > 0 then 1 else 0)
      + CountPassed(transcript[1..])
  }

  /** The result run_scenario returns. */
  function ScenarioSpec(cfg: Config, s: Scenario): (r: ScenarioResult)
    requires ScenarioJudgeable(s)
    ensures r.scenarioId == s.id && r.goal == s.goal && |r.transcript| == |s.steps|
    ensures r.scenarioPass <==> r.stepsPassed == r.stepsExpected
    ensures r.stepsExpected <= |s.steps| && r.stepsPassed <= |s.steps|
  {
    var transcript := Run(cfg, s, |s.steps|).transcript;
    var expected := CountExpected(s.steps);
    var passed := CountPassed(transcript);
    ScenarioResult(s.id, s.goal, passed == expected, expected, passed, transcript)
  }

  /** One pass of the loop body of run_scenario, calling the tools through
      the client and handling failed calls as the loop does; the turn it
      records is Turn's, so no call fails. */
  method RunTurn(client: Client, cfg: Config, s: Scenario, i: nat, slots: Slots) returns (rec: TurnRecord)
    requires client.tools == Registry()
    requires 1 <= i <= |s.steps| && ScenarioJudgeable(s)
    ensures rec == Turn(cfg, s, i, slots)
  {
    var step := s.steps[i - 1];
    var userText := UserText(step);
    var userWav := AudioPath(cfg, s.id, "user", i);
    var userTranscript := cfg.speech(userText, userWav, cfg.modelSize);

    DispatchExtract(userTranscript, slots);
    var slotsResult := client.CallTool(ExtractSlotsName, ExtractArgs(userTranscript, slots));
    var current := slots;
    if slotsResult.success {
      current := slotsResult.data.slots;
    }

    DispatchPolicy(s.goal, userTranscript, current);
    var policyResult := client.CallTool(PolicyDecisionName, PolicyArgs(s.goal, userTranscript, current));
    var action := AskClarify;
    if policyResult.success {
      action := policyResult.data.action;
    }

    DispatchResponse(action, current);
    var responseResult := client.CallTool(GenerateResponseName, ResponseArgs(action, current));
    var botAction, botText := AskClarify, Apology;
    if responseResult.success {
      botAction, botText := responseResult.data.action, responseResult.data.utterance;
    }

    var e := Expect(step);
    var ok := JBool(true);
    if |e| > 0 {
      if cfg.judge == LlmJudge {
        ok := CheckBotExpectLlm(botText, e, cfg.ask, cfg.loads);
      } else {
        var b := CheckBotExpectEnhanced(botText, e);
        ok := JBool(b);
      }
    }
    rec := TurnRecord(i, userText, userTranscript, botText, botAction, current,
                      ok, e, userWav, AudioPath(cfg, s.id, "bot", i));
  }

  /** run_scenario: the turns in order, then the metrics. */
  method RunScenario(s: Scenario, cfg: Config) returns (r: ScenarioResult)
    requires ScenarioJudgeable(s)
    ensures r == ScenarioSpec(cfg, s)
  {
    var client := new Client();
    var transcript: seq<TurnRecord> := [];
    var slots: Slots := map[];
    for i := 1 to |s.steps| + 1
      invariant client.tools == Registry()
      invariant Progress(transcript, slots) == Run(cfg, s, i - 1)
    {
      var rec := RunTurn(client, cfg, s, i, slots);
      transcript := transcript + [rec];
      slots := rec.slots;
    }
    var stepsExpected := CountExpected(s.steps);
    var stepsPassed := CountPassed(transcript);
    r := ScenarioResult(s.id, s.goal, stepsPassed == stepsExpected, stepsExpected, stepsPassed, transcript);
  }

  predicate AllJudgeable(scenarios: seq<Scenario>) {
    forall k :: 0 <= k < |scenarios| ==> ScenarioJudgeable(scenarios[k])
  }

  /** The results of a directory run: the scenarios' results in order. */
  function DirectorySpec(cfg: Config, scenarios: seq<Scenario>): (r: seq<ScenarioResult>)
    requires AllJudgeable(scenarios)
    ensures |r| == |scenarios|
  {
    if |scenarios| == 0 then []
    else DirectorySpec(cfg, scenarios[..|scenarios| - 1]) + [ScenarioSpec(cfg, scenarios[|scenarios| - 1])]
  }

  /** run_directory: each scenario run in turn, results collected in order. */
  method RunDirectory(scenarios: seq<Scenario>, cfg: Config) returns (results: seq<ScenarioResult>)
    requires AllJudgeable(scenarios)
    ensures results == DirectorySpec(cfg, scenarios)
  {
    results := [];
    for k := 0 to |scenarios|
      invariant results == DirectorySpec(cfg, scenarios[..k])
    {
      var result := RunScenario(scenarios[k], cfg);
      assert scenarios[..k + 1][..k] == scenarios[..k];
      results := results + [result];
    }
    assert scenarios[..|scenarios|] == scenarios;
  }

  /** Result k of a directory run is the result of scenario k. */
  lemma {:induction false} DirectoryResults(cfg: Config, scenarios: seq<Scenario>)
    requires AllJudgeable(scenarios)
    ensures forall k :: 0 <= k < |scenarios| ==> DirectorySpec(cfg, scenarios)[k] == ScenarioSpec(cfg, scenarios[k])
  {
    if |scenarios| > 0 {
      var init := scenarios[..|scenarios| - 1];
      DirectoryResults(cfg, init);
      assert forall k :: 0 <= k < |init| ==> init[k] == scenarios[k];
    }
  }

  // ---------------------------------------------------------------------------
  // Properties of a turn

  /** Every recorded action is one of the known actions, and the slots a
      turn records extend the slots it started from by at most the order
      number and the card. */
  lemma TurnActionAndSlots(cfg: Config, s: Scenario, i: nat, slots: Slots)
    requires 1 <= i <= |s.steps| && ScenarioJudgeable(s)
    ensures var rec := Turn(cfg, s, i, slots);
            && rec.action in Actions
            && slots.Keys <= rec.slots.Keys <= slots.Keys + {OrderKey, CardKey}
  {
  }

  /** A confirmation names the order number the turn holds, and a refund
      the card: the placeholders of the templates never reach the user. */
  lemma TurnReplyNamesSlot(cfg: Config, s: Scenario, i: nat, slots: Slots)
    requires 1 <= i <= |s.steps| && ScenarioJudgeable(s)
    ensures var rec := Turn(cfg, s, i, slots);
            && (rec.action == ConfirmAddressChange || rec.action == ConfirmReturn ==>
                  OrderKey in rec.slots && Contains(rec.botText, rec.slots[OrderKey]))
            && (rec.action == ProcessRefund ==> CardKey in rec.slots && Contains(rec.botText, rec.slots[CardKey]))
  {
    var asr := Heard(cfg, s, i);
    PolicyReplyUsesStoredSlot(s.goal, asr, ExtractSlots(asr, slots));
  }

  /** What a turn records about its step: the number, the user's line, the
      expectation (empty when there is none), the audio paths, and the
      configured judge's verdict on the reply. */
  predicate Records(cfg: Config, s: Scenario, i: nat, rec: TurnRecord)
    requires 1 <= i <= |s.steps| && ScenarioJudgeable(s)
  {
    && rec.turn == i
    && rec.userText == UserText(s.steps[i - 1])
    && rec.expectation == Expect(s.steps[i - 1])
    && rec.userWav == AudioPath(cfg, s.id, "user", i)
    && rec.botWav == AudioPath(cfg, s.id, "bot", i)
    && rec.pass == Judge(cfg, rec.botText, Expect(s.steps[i - 1]))
  }

  // ---------------------------------------------------------------------------
  // Properties of the transcript

  /** Entry k of the transcript is turn k + 1, and records that step. */
  lemma TranscriptShape(cfg: Config, s: Scenario)
    requires ScenarioJudgeable(s)
    ensures var t := Run(cfg, s, |s.steps|).transcript;
            forall k :: 0 <= k < |s.steps| ==> Records(cfg, s, k + 1, t[k])
  {
    var t := Run(cfg, s, |s.steps|).transcript;
    UnrollEntries(TurnOf(cfg, s), |s.steps|);
    forall k | 0 <= k < |s.steps|
      ensures Records(cfg, s, k + 1, t[k])
    {
      assert t[k] == Turn(cfg, s, k + 1, Run(cfg, s, k).slots);
    }
  }

  /** No two audio files of a run share a path. */
  lemma TranscriptAudioDistinct(cfg: Config, s: Scenario)
    requires ScenarioJudgeable(s)
    ensures var t := Run(cfg, s, |s.steps|).transcript;
            forall k, l :: 0 <= k < |s.steps| && 0 <= l < |s.steps| ==>
              && t[k].userWav != t[l].botWav
              && (k != l ==> t[k].userWav != t[l].userWav && t[k].botWav != t[l].botWav)
  {
    var t := Run(cfg, s, |s.steps|).transcript;
    TranscriptShape(cfg, s);
    forall k, l | 0 <= k < |s.steps| && 0 <= l < |s.steps|
      ensures && t[k].userWav != t[l].botWav
              && (k != l ==> t[k].userWav != t[l].userWav && t[k].botWav != t[l].botWav)
    {
      RecordsAudioDistinct(cfg, s, k + 1, l + 1, t[k], t[l]);
    }
  }

  lemma RecordsAudioDistinct(cfg: Config, s: Scenario, i: nat, j: nat, a: TurnRecord, b: TurnRecord)
    requires 1 <= i <= |s.steps| && 1 <= j <= |s.steps| && ScenarioJudgeable(s)
    requires Records(cfg, s, i, a) && Records(cfg, s, j, b)
    ensures a.userWav != b.botWav
    ensures i != j ==> a.userWav != b.userWav && a.botWav != b.botWav
  {
    AudioPathsDistinct(cfg, s.id, i, j);
  }

  /** Every recorded action is one of the known actions. */
  lemma TranscriptActionsKnown(cfg: Config, s: Scenario)
    requires ScenarioJudgeable(s)
    ensures var t := Run(cfg, s, |s.steps|).transcript;
            forall k :: 0 <= k < |s.steps| ==> t[k].action in Actions
  {
    var t := Run(cfg, s, |s.steps|).transcript;
    UnrollEntries(TurnOf(cfg, s), |s.steps|);
    forall k | 0 <= k < |s.steps|
      ensures t[k].action in Actions
    {
      TurnActionAndSlots(cfg, s, k + 1, Run(cfg, s, k).slots);
    }
  }

  /** Slots are never forgotten: a later entry holds every slot of an
      earlier one, and no entry holds anything but the order number and
      the card. */
  lemma TranscriptSlotsGrow(cfg: Config, s: Scenario)
    requires ScenarioJudgeable(s)
    ensures var t := Run(cfg, s, |s.steps|).transcript;
            forall k, l :: 0 <= k <= l < |s.steps| ==> t[k].slots.Keys <= t[l].slots.Keys <= {OrderKey, CardKey}
  {
    var turn := TurnOf(cfg, s);
    forall i: nat, slots: Slots | 1 <= i <= |s.steps|
      ensures slots.Keys <= turn(i, slots).slots.Keys <= slots.Keys + {OrderKey, CardKey}
    {
      TurnActionAndSlots(cfg, s, i, slots);
    }
    UnrollSlotsGrow(turn, |s.steps|);
    assert Run(cfg, s, |s.steps|) == Unroll(turn, |s.steps|);
  }

  /** Entry k of the transcript is turn k + 1 run on the slots the first k
      turns left. */
  lemma TranscriptEntry(cfg: Config, s: Scenario, k: nat)
    requires ScenarioJudgeable(s) && k < |s.steps|
    ensures Run(cfg, s, |s.steps|).transcript[k] == Turn(cfg, s, k + 1, Run(cfg, s, k).slots)
  {
    UnrollEntries(TurnOf(cfg, s), |s.steps|);
  }

  /** In an address-change scenario a turn that ends with an order number
      confirms the change. */
  lemma TurnConfirmsWithOrder(cfg: Config, s: Scenario, i: nat, slots: Slots)
    requires 1 <= i <= |s.steps| && ScenarioJudgeable(s) && s.goal == ChangeShippingAddress
    requires OrderKey in Turn(cfg, s, i, slots).slots
    ensures Turn(cfg, s, i, slots).action == ConfirmAddressChange
  {
  }

  /** In an address-change scenario, once an order number has been heard,
      every later turn confirms the change. */
  lemma ConfirmsOnceOrderKnown(cfg: Config, s: Scenario, k: nat, l: nat)
    requires ScenarioJudgeable(s) && s.goal == ChangeShippingAddress
    requires k <= l < |s.steps|
    requires OrderKey in Run(cfg, s, |s.steps|).transcript[k].slots
    ensures Run(cfg, s, |s.steps|).transcript[l].action == ConfirmAddressChange
  {
    TranscriptSlotsGrow(cfg, s);
    TranscriptEntry(cfg, s, l);
    TurnConfirmsWithOrder(cfg, s, l + 1, Run(cfg, s, l).slots);
  }

  // ---------------------------------------------------------------------------
  // Metrics

  /** Counting over a transcript that records the steps' expectations: no
      more steps pass than carry an expectation, and all of them pass
      exactly when every step with an expectation got a truthy verdict. */
  lemma {:induction false} CountPassedBounds(t: seq<TurnRecord>, steps: seq<Step>)
    requires |t| == |steps|
    requires forall k :: 0 <= k < |t| ==> t[k].expectation == Expect(steps[k])
    ensures CountPassed(t) <= CountExpected(steps)
    ensures CountPassed(t) == CountExpected(steps)
            <==> forall k :: 0 <= k < |t| && HasExpectation(steps[k]) ==> Truthy(t[k].pass)
  {
    if |t| > 0 {
      CountPassedBounds(t[1..], steps[1..]);
      assert forall k :: 1 <= k < |t| ==> t[1..][k - 1] == t[k] && steps[1..][k - 1] == steps[k];
    }
  }

  /** A scenario passes exactly when every step with an expectation passed;
      the passed count never exceeds the expected count. */
  lemma ScenarioPassMeansAllExpectedPassed(cfg: Config, s: Scenario)
    requires ScenarioJudgeable(s)
    ensures var r := ScenarioSpec(cfg, s);
            && r.stepsPassed <= r.stepsExpected
            && (r.scenarioPass
                <==> forall k :: 0 <= k < |s.steps| && HasExpectation(s.steps[k]) ==> Truthy(r.transcript[k].pass))
  {
    var t := Run(cfg, s, |s.steps|).transcript;
    TranscriptShape(cfg, s);
    assert forall k :: 0 <= k < |t| ==> t[k].expectation == Expect(s.steps[k]) by {
      forall k | 0 <= k < |t| ensures t[k].expectation == Expect(s.steps[k]) {
        assert Records(cfg, s, k + 1, t[k]);
      }
    }
    CountPassedBounds(t, s.steps);
  }

  /** A scenario without expectations passes with nothing counted. */
  lemma {:induction false} NoExpectationsNothingCounted(steps: seq<Step>)
    requires forall k :: 0 <= k < |steps| ==> !HasExpectation(steps[k])
    ensures CountExpected(steps) == 0
  {
    if |steps| > 0 {
      NoExpectationsNothingCounted(steps[1..]);
    }
  }

  lemma ScenarioWithoutExpectationsPasses(cfg: Config, s: Scenario)
    requires ScenarioJudgeable(s)
    requires forall k :: 0 <= k < |s.steps| ==> !HasExpectation(s.steps[k])
    ensures ScenarioSpec(cfg, s).scenarioPass && ScenarioSpec(cfg, s).stepsExpected == 0
  {
    NoExpectationsNothingCounted(s.steps);
    ScenarioPassMeansAllExpectedPassed(cfg, s);
  }

  /** With the rules judge every verdict is a boolean, and it is the rules'
      verdict on the reply. */
  lemma RulesJudgeVerdict(cfg: Config, botText: string, e: Expectation)
    requires Judgeable(e) && cfg.judge != LlmJudge
    ensures Judge(cfg, botText, e) == JBool(Verdict(botText, e))
  {
  }
}
