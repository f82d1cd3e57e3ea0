/** The staged analysis both front ends run: intent, then emotion, then risk
    with the first two results as context, then, behind the risk-score gate,
    rewrite with everything so far as context. Each agent is a function from
    (message, context) to its result record; what it does inside (a prompt,
    one completion call, `_parse_json_response`) is not part of this module. */
module Pipeline {

  import opened JsonValues

  /** One agent's result: the JSON object its reply decoded to. */
  type StageResult = map<string, Json>

  /** Results keyed by stage name, as the orchestrator accumulates them. */
  type Context = map<string, StageResult>

  /** An agent's `analyze(message, context)`. */
  type Agent = (string, Option<Context>) -> StageResult

  datatype Stage = Intent | Emotion | Risk | Rewrite

  /** One agent invocation, as it happened. */
  datatype Call = Call(stage: Stage, message: string, context: Option<Context>)

  /** The four agents a front end holds. */
  datatype Agents = Agents(intent: Agent, emotion: Agent, risk: Agent, rewrite: Agent)

  /** How a run ends: with its results, or with the `TypeError` Python raises
      when the risk score cannot be compared with 4. */
  datatype Outcome = Completed(results: Context) | ScoreTypeError

  /** A run: how it ended and the agents it called, in order. */
  datatype Run = Run(outcome: Outcome, calls: seq<Call>)

  /** Risk scores at or above this get rewrite suggestions. */
  const RewriteThreshold := 4

  /** `risk.get("overall_risk_score", 0)` as a number `>= 4` can compare: an
      absent score is 0, a bool is 0 or 1, and anything else but an integer
      makes the comparison raise. */
  function ScoreOf(risk: StageResult): (s: Option<int>)
    ensures "overall_risk_score" !in risk ==> s == Some(0)
    ensures "overall_risk_score" in risk && risk["overall_risk_score"].JInt? ==> s == Some(risk["overall_risk_score"].n)
    ensures "overall_risk_score" in risk && risk["overall_risk_score"].JBool? ==>
      s == Some(if risk["overall_risk_score"].b then 1 else 0)
    ensures s.None? <==> "overall_risk_score" in risk && !risk["overall_risk_score"].JInt? && !risk["overall_risk_score"].JBool?
  {
    match Get(risk, "overall_risk_score", JInt(0))
    case JInt(n) => Some(n)
    case JBool(b) => Some(if b then 1 else 0)
    case _ => None
  }

  /** The rewrite stage runs: the score compares and reaches the threshold. */
  predicate GateOpen(risk: StageResult) {
    ScoreOf(risk).Some? && ScoreOf(risk).value >= RewriteThreshold
  }

  /** The gate on the raw score: closed when the score is absent, a bool or
      not a number, and open for an integer exactly from 4 up. */
  lemma GateOnRawScore(risk: StageResult)
    ensures "overall_risk_score" !in risk ==> !GateOpen(risk)
    ensures "overall_risk_score" in risk && risk["overall_risk_score"].JInt? ==>
      (GateOpen(risk) <==> risk["overall_risk_score"].n >= 4)
    ensures "overall_risk_score" in risk && !risk["overall_risk_score"].JInt? ==> !GateOpen(risk)
  {
  }

  /** The context the risk agent gets. */
  function RiskContext(intent: StageResult, emotion: StageResult): Context {
    map["intent" := intent, "emotion" := emotion]
  }

  /** The staged run, with `includeRewrite` the command line's opt-out.
      Intent, emotion and risk always run, in that order, on the unchanged
      message; the risk agent sees exactly the intent and emotion results;
      rewrite runs at most once, last, exactly when the opt-out is off and the
      gate is open, and sees the three earlier results. */
  function Staged(agents: Agents, message: string, includeRewrite: bool): (run: Run)
    ensures 3 <= |run.calls| <= 4
    ensures run.calls[0] == Call(Intent, message, None)
    ensures run.calls[1] == Call(Emotion, message, None)
    ensures run.calls[2].stage == Risk && run.calls[2].message == message
    ensures run.calls[2].context == Some(RiskContext(agents.intent(message, None), agents.emotion(message, None)))
    ensures var risk := agents.risk(message, run.calls[2].context);
      && (run.outcome.ScoreTypeError? <==> includeRewrite && ScoreOf(risk).None?)
      && (|run.calls| == 4 <==> includeRewrite && GateOpen(risk))
      && (run.outcome.Completed? ==>
            && run.outcome.results.Keys == {"intent", "emotion", "risk"} + (if |run.calls| == 4 then {"rewrite"} else {})
            && run.outcome.results["intent"] == agents.intent(message, None)
            && run.outcome.results["emotion"] == agents.emotion(message, None)
            && run.outcome.results["risk"] == risk)
    ensures |run.calls| == 4 ==>
      && run.outcome.Completed? && "rewrite" in run.outcome.results
      && run.calls[3].stage == Rewrite && run.calls[3].message == message
      && run.calls[3].context.Some?
      && run.calls[3].context.value.Keys == {"intent", "emotion", "risk"}
      && run.outcome.results["rewrite"] == agents.rewrite(message, run.calls[3].context)
      && run.outcome.results - {"rewrite"} == run.calls[3].context.value
  {
    var intent := agents.intent(message, None);
    var emotion := agents.emotion(message, None);
    var riskContext := RiskContext(intent, emotion);
    var risk := agents.risk(message, Some(riskContext));
    var results := map["intent" := intent, "emotion" := emotion, "risk" := risk];
    var calls := [Call(Intent, message, None), Call(Emotion, message, None), Call(Risk, message, Some(riskContext))];
    if !includeRewrite then Run(Completed(results), calls)
    else match ScoreOf(risk)
      case None => Run(ScoreTypeError, calls)
      case Some(score) =>
        if score >= RewriteThreshold then
          assert results["rewrite" := agents.rewrite(message, Some(results))] - {"rewrite"} == results;
          Run(Completed(results["rewrite" := agents.rewrite(message, Some(results))]),
              calls + [Call(Rewrite, message, Some(results))])
        else Run(Completed(results), calls)
  }

  /** The stages a run called, in order. */
  function Stages(calls: seq<Call>): (stages: seq<Stage>)
    ensures |stages| == |calls|
    ensures forall i :: 0 <= i < |calls| ==> stages[i] == calls[i].stage
  {
    seq(|calls|, i requires 0 <= i < |calls| => calls[i].stage)
  }

  /** The call order is intent, emotion, risk and, only behind the gate,
      rewrite; no agent is called twice and every call gets the message. */
  lemma CallOrder(agents: Agents, message: string, includeRewrite: bool)
    ensures var run := Staged(agents, message, includeRewrite);
      && Stages(run.calls) == (if |run.calls| == 4 then [Intent, Emotion, Risk, Rewrite] else [Intent, Emotion, Risk])
      && (forall i, j :: 0 <= i < j < |run.calls| ==> run.calls[i].stage != run.calls[j].stage)
      && (forall i :: 0 <= i < |run.calls| ==> run.calls[i].message == message)
  {
    var run := Staged(agents, message, includeRewrite);
    if |run.calls| == 4 {
      assert Stages(run.calls) == [Intent, Emotion, Risk, Rewrite];
    } else {
      assert Stages(run.calls) == [Intent, Emotion, Risk];
    }
  }

  /** With the opt-out set the rewrite agent is never called, the run cannot
      fail, and the result has exactly the three keys. */
  lemma OptOutSkipsRewrite(agents: Agents, message: string)
    ensures var run := Staged(agents, message, false);
      && run.outcome.Completed?
      && run.outcome.results.Keys == {"intent", "emotion", "risk"}
      && |run.outcome.results| == 3
      && forall i :: 0 <= i < |run.calls| ==> run.calls[i].stage != Rewrite
  {
    var run := Staged(agents, message, false);
    CallOrder(agents, message, false);
    assert |run.outcome.results.Keys| == 3;
  }

  /** A completed run's results always hold the intent, emotion and risk
      stages, and hold rewrite exactly when the opt-out is off and the score
      is at least 4 (an absent score counting as 0). */
  lemma RewriteKeyIffGate(agents: Agents, message: string, includeRewrite: bool)
    requires Staged(agents, message, includeRewrite).outcome.Completed?
    ensures var results := Staged(agents, message, includeRewrite).outcome.results;
      var risk := results["risk"];
      && {"intent", "emotion", "risk"} <= results.Keys
      && ("rewrite" in results <==> includeRewrite && ScoreOf(risk).Some? && ScoreOf(risk).value >= 4)
  {
  }

  /** The threshold by example: a score of 3 gives three stages, a score of
      4 gives four, and a risk result with no score gives three. */
  lemma ThresholdExamples(agents: Agents, message: string)
    ensures var risk := agents.risk(message, Some(RiskContext(agents.intent(message, None), agents.emotion(message, None))));
      var run := Staged(agents, message, true);
      && (risk == map["overall_risk_score" := JInt(3)] ==> run.outcome.Completed? && |run.outcome.results| == 3)
      && (risk == map["overall_risk_score" := JInt(4)] ==> run.outcome.Completed? && |run.outcome.results| == 4)
      && ("overall_risk_score" !in risk ==> run.outcome.Completed? && |run.outcome.results| == 3)
  {
    var run := Staged(agents, message, true);
    if run.outcome.Completed? {
      var keys := run.outcome.results.Keys;
      assert |{"intent", "emotion", "risk"}| == 3;
      assert |{"intent", "emotion", "risk", "rewrite"}| == 4;
      assert |run.outcome.results| == |keys|;
    }
  }
}
