/** The command-line front end: the `CommunicationGuard` orchestrator, the
    colour rules its terminal renderer uses, and the rule that splits a
    message file into separate messages. */
module App {

  import opened JsonValues
  import opened Text
  import opened Pipeline

  /** Holds one agent per stage and runs the staged analysis on a message. */
  class CommunicationGuard {
    const intentAgent: Agent
    const emotionAgent: Agent
    const riskAgent: Agent
    const rewriteAgent: Agent

    /** The agents are handed in rather than built here (see README). */
    constructor (intent: Agent, emotion: Agent, risk: Agent, rewrite: Agent)
      ensures intentAgent == intent && emotionAgent == emotion
      ensures riskAgent == risk && rewriteAgent == rewrite
    {
      intentAgent := intent;
      emotionAgent := emotion;
      riskAgent := risk;
      rewriteAgent := rewrite;
    }

    function AgentSet(): Agents {
      Agents(intentAgent, emotionAgent, riskAgent, rewriteAgent)
    }

    /** `analyze`: fills the results stage by stage and records each agent
        call; the run is the staged run of `Pipeline.Staged`, so the call
        order, the contexts and the rewrite gate are the ones proved there. */
    method Analyze(message: string, includeRewrite: bool) returns (outcome: Outcome, calls: seq<Call>)
      ensures Run(outcome, calls) == Staged(AgentSet(), message, includeRewrite)
      ensures outcome.Completed? ==> {"intent", "emotion", "risk"} <= outcome.results.Keys
      ensures !includeRewrite ==> outcome.Completed? && outcome.results.Keys == {"intent", "emotion", "risk"}
    {
      var results: Context := map[];
      calls := [];

      results := results["intent" := intentAgent(message, None)];
      calls := calls + [Call(Intent, message, None)];

      results := results["emotion" := emotionAgent(message, None)];
      calls := calls + [Call(Emotion, message, None)];

      var riskContext := map["intent" := results["intent"], "emotion" := results["emotion"]];
      results := results["risk" := riskAgent(message, Some(riskContext))];
      calls := calls + [Call(Risk, message, Some(riskContext))];

      if includeRewrite {
        var riskScore := ScoreOf(results["risk"]);
        if riskScore.None? {
          return ScoreTypeError, calls;
        }
        if riskScore.value >= RewriteThreshold {
          var context := results;
          results := results["rewrite" := rewriteAgent(message, Some(context))];
          calls := calls + [Call(Rewrite, message, Some(context))];
        }
      }
      outcome := Completed(results);
    }
  }

  /** `get_risk_color` of the terminal renderer: every score falls in exactly
      one band, green up to 3, yellow from 4 to 6, red from 7. */
  function GetRiskColor(score: int): (color: string)
    ensures color == "green" <==> score <= 3
    ensures color == "yellow" <==> 4 <= score <= 6
    ensures color == "red" <==> score >= 7
  {
    if score <= 3 then "green"
    else if score <= 6 then "yellow"
    else "red"
  }

  /** `get_severity_style`: low, medium and high in any letter case map to
      green, yellow and red, and every other string to white. */
  function GetSeverityStyle(severity: string): (style: string)
    ensures style == "green" <==> SameIgnoringCase(severity, "low")
    ensures style == "yellow" <==> SameIgnoringCase(severity, "medium")
    ensures style == "red" <==> SameIgnoringCase(severity, "high")
    ensures style == "white" <==>
      !SameIgnoringCase(severity, "low") && !SameIgnoringCase(severity, "medium") && !SameIgnoringCase(severity, "high")
  {
    LowerMatchesLiteral(severity, "low");
    LowerMatchesLiteral(severity, "medium");
    LowerMatchesLiteral(severity, "high");
    var styles := map["low" := "green", "medium" := "yellow", "high" := "red"];
    var key := Lower(severity);
    if key in styles then styles[key] else "white"
  }

  /** `[m.strip() for m in pieces]`: every piece stripped, in order. */
  function StripEach(pieces: seq<string>): (stripped: seq<string>)
    ensures |stripped| == |pieces|
    ensures forall k :: 0 <= k < |pieces| ==> stripped[k] == Strip(pieces[k])
  {
    seq(|pieces|, k requires 0 <= k < |pieces| => Strip(pieces[k]))
  }

  /** How many strings of `ss` are non-empty. */
  function CountNonEmpty(ss: seq<string>): nat
    decreases |ss|
  {
    if ss == [] then 0 else (if ss[0] != "" then 1 else 0) + CountNonEmpty(ss[1..])
  }

  /** The `if m.strip()` filter: the non-empty strings, in their order. */
  function DropEmpty(ss: seq<string>): (kept: seq<string>)
    ensures |kept| == CountNonEmpty(ss) <= |ss|
    ensures forall k :: 0 <= k < |kept| ==> kept[k] != "" && kept[k] in ss
    decreases |ss|
  {
    if ss == [] then []
    else (if ss[0] != "" then [ss[0]] else []) + DropEmpty(ss[1..])
  }

  /** Filter order: a non-empty string at index `i` is kept at index
      `|DropEmpty(ss[..i])|`, the number of non-empty strings before it. */
  lemma {:induction false} DropEmptyKeepsOrder(ss: seq<string>, i: nat)
    requires i < |ss| && ss[i] != ""
    ensures KeptFrom(ss, |DropEmpty(ss[..i])|, i)
    decreases |ss|
  {
    if i == 0 {
      DropEmptyStep(ss, 0);
      assert ss[..0] == [];
    } else {
      DropEmptyKeepsOrder(ss[1..], i - 1);
      DropEmptyStep(ss, i - 1);
      var head := if ss[0] != "" then [ss[0]] else [];
      var k := |DropEmpty(ss[1..][..i - 1])|;
      assert |DropEmpty(ss[..i])| == |head| + k;
      assert DropEmpty(ss)[|head| + k] == DropEmpty(ss[1..])[k] == ss[i];
    }
  }

  /** The converse: every kept string is the non-empty string at some index
      `i`, kept at the index given by the number of non-empty strings before it. */
  lemma {:induction false} DropEmptyFrom(ss: seq<string>, k: nat)
    requires k < |DropEmpty(ss)|
    ensures exists i :: KeptFrom(ss, k, i)
    decreases |ss|
  {
    DropEmptyStep(ss, 0);
    if ss[0] != "" && k == 0 {
      assert ss[..0] == [];
      assert KeptFrom(ss, k, 0);
    } else {
      var head := if ss[0] != "" then 1 else 0;
      DropEmptyFrom(ss[1..], k - head);
      var j :| KeptFrom(ss[1..], k - head, j);
      DropEmptyStep(ss, j);
      assert KeptFrom(ss, k, j + 1);
    }
  }

  /** The non-empty string at index `i` of `ss` is kept at index `k`, and
      `k` non-empty strings come before it. */
  predicate KeptFrom(ss: seq<string>, k: nat, i: int) {
    && 0 <= i < |ss| && ss[i] != ""
    && |DropEmpty(ss[..i])| == k < |DropEmpty(ss)|
    && DropEmpty(ss)[k] == ss[i]
  }

  /** One step of `DropEmpty`, on the whole of `ss` and on a prefix of it. */
  lemma DropEmptyStep(ss: seq<string>, j: nat)
    requires j < |ss|
    ensures var head := if ss[0] != "" then [ss[0]] else [];
      && DropEmpty(ss) == head + DropEmpty(ss[1..])
      && DropEmpty(ss[..j + 1]) == head + DropEmpty(ss[1..][..j])
      && (forall k :: 0 <= k < |DropEmpty(ss[1..])| ==> DropEmpty(ss)[|head| + k] == DropEmpty(ss[1..])[k])
  {
    var before := ss[..j + 1];
    assert before[0] == ss[0] && before[1..] == ss[1..][..j];
  }

  /** A message: non-empty, no whitespace at either end. */
  predicate IsMessage(m: string) {
    m != "" && IsStripped(m)
  }

  /** No string of `ss` holds `pat`. */
  predicate NoneContains(ss: seq<string>, pat: string) {
    forall k :: 0 <= k < |ss| ==> !Contains(ss[k], pat)
  }

  /** The non-blank stripped pieces are messages, and hold no `pat` when no
      piece did. */
  lemma KeptPiecesAreMessages(pieces: seq<string>, pat: string)
    requires NoneContains(pieces, pat)
    ensures forall k :: 0 <= k < |DropEmpty(StripEach(pieces))| ==> IsMessage(DropEmpty(StripEach(pieces))[k])
    ensures NoneContains(DropEmpty(StripEach(pieces)), pat)
  {
    var messages := DropEmpty(StripEach(pieces));
    forall k | 0 <= k < |messages| ensures IsMessage(messages[k]) && !Contains(messages[k], pat) {
      StrippedPieceIsMessage(pieces, pat, messages[k]);
    }
  }

  lemma StrippedPieceIsMessage(pieces: seq<string>, pat: string, m: string)
    requires NoneContains(pieces, pat) && m in StripEach(pieces) && m != ""
    ensures IsMessage(m) && !Contains(m, pat)
  {
    var stripped := StripEach(pieces);
    var j :| 0 <= j < |stripped| && stripped[j] == m;
    assert m == Strip(pieces[j]) && !Contains(pieces[j], pat);
    NoPatternInStrip(pieces[j], pat);
  }

  /** The file-input rule: the file's text is stripped, split on `---`, and
      each non-blank piece, stripped, becomes one message. Every message is
      non-empty, has no whitespace at either end and holds no `---`. */
  function SplitMessages(fileText: string): (messages: seq<string>)
    ensures forall k :: 0 <= k < |messages| ==> IsMessage(messages[k])
    ensures NoneContains(messages, "---")
  {
    var pieces := FilePieces(fileText);
    KeptPiecesAreMessages(pieces, "---");
    DropEmpty(StripEach(pieces))
  }

  /** `content.split("---")` on the stripped file text. */
  function FilePieces(fileText: string): seq<string> {
    Split(Strip(fileText), "---")
  }

  /** A file of whitespace only holds no message. */
  lemma BlankFileHasNoMessages(fileText: string)
    requires AllSpace(fileText)
    ensures SplitMessages(fileText) == []
  {
    assert Strip(fileText) == "";
    assert !Contains("", "---");
    assert Split("", "---") == [""];
    assert StripEach([""]) == [""];
  }

  /** File order: the piece at index `i` of the file, when not blank,
      becomes message number `k`, where `k` is the count of non-blank pieces
      before it, so messages keep the order of the file and none is lost. */
  lemma MessagesInFileOrder(fileText: string, i: nat)
    requires i < |FilePieces(fileText)| && Strip(FilePieces(fileText)[i]) != ""
    ensures var pieces := FilePieces(fileText);
      var k := CountNonEmpty(StripEach(pieces[..i]));
      && k < |SplitMessages(fileText)|
      && SplitMessages(fileText)[k] == Strip(pieces[i])
  {
    PiecesInOrder(FilePieces(fileText), i);
  }

  /** No other messages: message number `k` of the file is the stripped
      piece at some index `i`, non-blank, with `k` non-blank pieces before
      it. With `MessagesInFileOrder` this pairs the messages one to one with
      the non-blank pieces of the file, in order. */
  lemma MessageFromPiece(fileText: string, k: nat)
    requires k < |SplitMessages(fileText)|
    ensures var pieces := FilePieces(fileText);
      exists i ::
        && 0 <= i < |pieces| && Strip(pieces[i]) != ""
        && CountNonEmpty(StripEach(pieces[..i])) == k && SplitMessages(fileText)[k] == Strip(pieces[i])
  {
    PieceOfMessage(FilePieces(fileText), k);
  }

  /** `MessagesInFileOrder` for any list of pieces. */
  lemma PiecesInOrder(pieces: seq<string>, i: nat)
    requires i < |pieces| && Strip(pieces[i]) != ""
    ensures var k := |DropEmpty(StripEach(pieces[..i]))|;
      && k < |DropEmpty(StripEach(pieces))|
      && DropEmpty(StripEach(pieces))[k] == Strip(pieces[i])
  {
    assert StripEach(pieces)[..i] == StripEach(pieces[..i]);
    DropEmptyKeepsOrder(StripEach(pieces), i);
  }

  /** `MessageFromPiece` for any list of pieces. */
  lemma PieceOfMessage(pieces: seq<string>, k: nat)
    requires k < |DropEmpty(StripEach(pieces))|
    ensures exists i ::
      && 0 <= i < |pieces| && Strip(pieces[i]) != ""
      && |DropEmpty(StripEach(pieces[..i]))| == k && DropEmpty(StripEach(pieces))[k] == Strip(pieces[i])
  {
    var stripped := StripEach(pieces);
    DropEmptyFrom(stripped, k);
    var i :| KeptFrom(stripped, k, i);
    assert stripped[..i] == StripEach(pieces[..i]);
    assert Strip(pieces[i]) != "" && |DropEmpty(StripEach(pieces[..i]))| == k && DropEmpty(stripped)[k] == Strip(pieces[i]);
  }
}
