/** The browser front end: its own copy of the staged analysis (no opt-out
    flag), its risk-band naming, and the header it shows above the results. */
module StreamlitApp {

  import opened JsonValues
  import opened Pipeline
  import App

  /** `get_risk_color` of the browser page: "low" up to 3, "medium" from 4
      to 6, "high" from 7. */
  function GetRiskColor(score: int): (band: string)
    ensures band == "low" <==> score <= 3
    ensures band == "medium" <==> 4 <= score <= 6
    ensures band == "high" <==> score >= 7
  {
    if score <= 3 then "low"
    else if score <= 6 then "medium"
    else "high"
  }

  /** The terminal colour of each band name. */
  function BandColor(band: string): string {
    if band == "low" then "green"
    else if band == "medium" then "yellow"
    else "red"
  }

  /** Both front ends band every score the same way. */
  lemma RiskColorsAgree(score: int)
    ensures App.GetRiskColor(score) == BandColor(GetRiskColor(score))
  {
  }

  /** `run_analysis`: the staged run with the rewrite stage always allowed,
      so rewrite runs exactly when the gate is open. */
  method RunAnalysis(message: string, agents: Agents) returns (outcome: Outcome, calls: seq<Call>)
    ensures Run(outcome, calls) == Staged(agents, message, true)
    ensures outcome.Completed? ==>
      {"intent", "emotion", "risk"} <= outcome.results.Keys
      && ("rewrite" in outcome.results <==> GateOpen(outcome.results["risk"]))
  {
    var results: Context := map[];
    calls := [];

    results := results["intent" := agents.intent(message, None)];
    calls := calls + [Call(Intent, message, None)];

    results := results["emotion" := agents.emotion(message, None)];
    calls := calls + [Call(Emotion, message, None)];

    var riskContext := map["intent" := results["intent"], "emotion" := results["emotion"]];
    results := results["risk" := agents.risk(message, Some(riskContext))];
    calls := calls + [Call(Risk, message, Some(riskContext))];

    var riskScore := ScoreOf(results["risk"]);
    if riskScore.None? {
      return ScoreTypeError, calls;
    }
    if riskScore.value >= RewriteThreshold {
      var context := results;
      results := results["rewrite" := agents.rewrite(message, Some(context))];
      calls := calls + [Call(Rewrite, message, Some(context))];
    }
    outcome := Completed(results);
  }

  /** The three headers the page can show above the results. */
  datatype Header = SuccessLow | WarningMedium | ErrorHigh

  /** The header for a score: it falls in the same band `GetRiskColor` names. */
  function RiskHeader(score: int): (h: Header)
    ensures h == SuccessLow <==> GetRiskColor(score) == "low"
    ensures h == WarningMedium <==> GetRiskColor(score) == "medium"
    ensures h == ErrorHigh <==> GetRiskColor(score) == "high"
  {
    if score <= 3 then SuccessLow
    else if score <= 6 then WarningMedium
    else ErrorHigh
  }

  /** The header for a run's results, banded on the risk score with an
      absent risk stage or score counting as 0; `None` when the score cannot
      be compared and the page raises. */
  function HeaderFor(results: Context): (h: Option<Header>)
    ensures h.Some? <==> ScoreOf(StageOrEmpty(results, "risk")).Some?
    ensures "risk" !in results ==> h == Some(SuccessLow)
    ensures h.Some? ==>
      var score := ScoreOf(StageOrEmpty(results, "risk")).value;
      && (h.value == SuccessLow <==> score <= 3)
      && (h.value == ErrorHigh <==> score >= 7)
  {
    match ScoreOf(StageOrEmpty(results, "risk"))
    case None => None
    case Some(score) => Some(RiskHeader(score))
  }

  /** `results.get(stage, {})`. */
  function StageOrEmpty(results: Context, stage: string): StageResult {
    if stage in results then results[stage] else map[]
  }

  /** On the page, rewrite suggestions exist exactly when the header is a
      warning or an error: the rewrite gate and the header bands share the
      threshold 4. */
  lemma {:induction false} RewriteIffNotLowHeader(agents: Agents, message: string)
    requires Staged(agents, message, true).outcome.Completed?
    ensures var results := Staged(agents, message, true).outcome.results;
      && HeaderFor(results).Some?
      && ("rewrite" in results <==> HeaderFor(results).value != SuccessLow)
  {
    var results := Staged(agents, message, true).outcome.results;
    assert StageOrEmpty(results, "risk") == results["risk"];
  }
}
