/** The context string the rewrite agent puts into its prompt: one line per
    earlier stage it was given, in the order intent, emotion, risk, with
    placeholders for missing fields, an extra line for detected emotional
    leakage and one listing the red-flag phrases. */
module RewriteAgent {

  import opened JsonValues
  import opened Text
  import opened Pipeline

  /** The lines the context string can hold, each with the values it shows. */
  datatype Line =
    | IntentLine(intent: Json)
    | ToneLine(emotion: Json, intensity: Json)
    | LeakageLine(explanation: Json)
    | ScoreLine(score: Json)
    | FlagsLine(phrases: seq<string>)

  /** The position of each kind of line in the fixed section order. */
  function Rank(line: Line): nat {
    match line
    case IntentLine(_) => 0
    case ToneLine(_, _) => 1
    case LeakageLine(_) => 2
    case ScoreLine(_) => 3
    case FlagsLine(_) => 4
  }

  /** A line's text; every line starts on a new line. */
  function LineText(line: Line, repr: Json -> string): (text: string)
    ensures |text| > 0 && text[0] == '\n'
  {
    match line
    case IntentLine(intent) => "\nDetected Intent: " + PyStr(intent, repr)
    case ToneLine(emotion, intensity) =>
      "\nEmotional Tone: " + PyStr(emotion, repr) + " (intensity: " + PyStr(intensity, repr) + ")"
    case LeakageLine(explanation) => "\nEmotional Leakage: " + PyStr(explanation, repr)
    case ScoreLine(score) => "\nRisk Score: " + PyStr(score, repr) + "/10"
    case FlagsLine(phrases) => "\nRed Flags: " + Join(phrases, ", ")
  }

  /** The lines, one after the other. */
  function Render(lines: seq<Line>, repr: Json -> string): (text: string)
    ensures text == "" <==> lines == []
    ensures lines != [] ==> text[0] == '\n'
    decreases |lines|
  {
    if lines == [] then "" else LineText(lines[0], repr) + Render(lines[1..], repr)
  }

  /** Rendering one more line appends its text. */
  lemma {:induction false} RenderSnoc(lines: seq<Line>, line: Line, repr: Json -> string)
    ensures Render(lines + [line], repr) == Render(lines, repr) + LineText(line, repr)
    decreases |lines|
  {
    if lines == [] {
      assert [] + [line] == [line];
    } else {
      assert (lines + [line])[1..] == lines[1..] + [line];
      RenderSnoc(lines[1..], line, repr);
    }
  }

  /** `context and key in context`. */
  predicate HasStage(context: Option<Context>, stage: string) {
    context.Some? && stage in context.value
  }

  /** A red flag the comprehension and `join` accept: an object whose
      `phrase`, if present, is a string. */
  predicate FlagShaped(flag: Json) {
    flag.JObj? && ("phrase" !in flag.fields || flag.fields["phrase"].JStr?)
  }

  /** The `red_flags` value is falsy, or a list of well-shaped flags (a
      non-empty string, object or number cannot be iterated into phrases). */
  predicate FlagsShaped(redFlags: Json) {
    !Truthy(redFlags) || (redFlags.JArr? && forall i :: 0 <= i < |redFlags.items| ==> FlagShaped(redFlags.items[i]))
  }

  /** The shapes Python needs to build the string without raising: the
      emotion stage's `emotional_leakage`, if present, is an object, and the
      risk stage's `red_flags` is falsy or a list of objects whose phrases
      are strings. */
  predicate Shaped(context: Option<Context>) {
    context.Some? ==> EmotionShaped(context.value) && RiskShaped(context.value)
  }

  /** `emotional_leakage`, if present, is an object. */
  predicate EmotionShaped(ctx: Context) {
    "emotion" in ctx ==> LeakageOf(ctx["emotion"]).JObj?
  }

  /** `red_flags` is falsy or a list of well-shaped flags. */
  predicate RiskShaped(ctx: Context) {
    "risk" in ctx ==> FlagsShaped(Get(ctx["risk"], "red_flags", JArr([])))
  }

  /** `f.get("phrase", "")` of one red flag. */
  function PhraseOf(flag: Json): string
    requires FlagShaped(flag)
  {
    if "phrase" in flag.fields then flag.fields["phrase"].s else ""
  }

  /** `[f.get("phrase", "") for f in red_flags]`: one phrase per flag, in the
      flags' order. */
  function Phrases(flags: seq<Json>): (phrases: seq<string>)
    requires forall i :: 0 <= i < |flags| ==> FlagShaped(flags[i])
    ensures |phrases| == |flags|
    ensures forall i :: 0 <= i < |flags| ==> phrases[i] == PhraseOf(flags[i])
  {
    seq(|flags|, i requires 0 <= i < |flags| => PhraseOf(flags[i]))
  }

  /** The leakage record of an emotion result, `{}` when absent. */
  function LeakageOf(emo: StageResult): Json {
    Get(emo, "emotional_leakage", JObj(map[]))
  }

  /** `emo.get("emotional_leakage", {}).get("detected")` is truthy. */
  predicate LeakageDetected(emo: StageResult)
    requires LeakageOf(emo).JObj?
  {
    Truthy(Get(LeakageOf(emo).fields, "detected", JNull))
  }

  /** The risk result's `red_flags` are there and non-empty. */
  predicate HasRedFlags(risk: StageResult) {
    Truthy(Get(risk, "red_flags", JArr([])))
  }

  /** The ranks of the lines strictly increase. */
  predicate InOrder(lines: seq<Line>) {
    forall i, j :: 0 <= i < j < |lines| ==> Rank(lines[i]) < Rank(lines[j])
  }

  /** The lines of a given kind, in their order. */
  function OfRank(lines: seq<Line>, rank: nat): (picked: seq<Line>)
    ensures |picked| <= |lines|
    decreases |lines|
  {
    if lines == [] then []
    else (if Rank(lines[0]) == rank then [lines[0]] else []) + OfRank(lines[1..], rank)
  }

  lemma {:induction false} OfRankConcat(a: seq<Line>, b: seq<Line>, rank: nat)
    ensures OfRank(a + b, rank) == OfRank(a, rank) + OfRank(b, rank)
    decreases |a|
  {
    if a == [] {
      assert a + b == b;
    } else {
      assert (a + b)[0] == a[0];
      assert (a + b)[1..] == a[1..] + b;
      OfRankConcat(a[1..], b, rank);
      var head := if Rank(a[0]) == rank then [a[0]] else [];
      assert OfRank(a + b, rank) == head + (OfRank(a[1..], rank) + OfRank(b, rank));
      assert OfRank(a, rank) == head + OfRank(a[1..], rank);
    }
  }

  lemma OfRankShort(part: seq<Line>, rank: nat)
    requires |part| <= 1
    ensures OfRank(part, rank) == if part != [] && Rank(part[0]) == rank then part else []
  {
    if part != [] {
      assert part[1..] == [];
    }
  }

  /** The intent section: `Detected Intent`, when the intent stage is there. */
  function IntentPart(ctx: Context): (part: seq<Line>)
    ensures OfKind(part, 0) {
    if "intent" in ctx then [IntentLine(Get(ctx["intent"], "primary_intent", JStr("unknown")))] else []
  }

  /** The tone line of the emotion section. */
  function TonePart(ctx: Context): (part: seq<Line>)
    ensures OfKind(part, 1) {
    if "emotion" in ctx then
      [ToneLine(Get(ctx["emotion"], "primary_emotion", JStr("unknown")), Get(ctx["emotion"], "intensity", JStr("unknown")))]
    else []
  }

  /** The leakage line of the emotion section. */
  function LeakagePart(ctx: Context): (part: seq<Line>)
    ensures OfKind(part, 2)
    requires EmotionShaped(ctx)
  {
    if "emotion" in ctx && LeakageDetected(ctx["emotion"]) then
      [LeakageLine(Get(LeakageOf(ctx["emotion"]).fields, "explanation", JStr("")))]
    else []
  }

  /** The score line of the risk section. */
  function ScorePart(ctx: Context): (part: seq<Line>)
    ensures OfKind(part, 3) {
    if "risk" in ctx then [ScoreLine(Get(ctx["risk"], "overall_risk_score", JStr("?")))] else []
  }

  /** The red-flags line of the risk section. */
  function FlagsPart(ctx: Context): (part: seq<Line>)
    ensures OfKind(part, 4)
    requires RiskShaped(ctx)
  {
    if "risk" in ctx && HasRedFlags(ctx["risk"]) then
      [FlagsLine(Phrases(Get(ctx["risk"], "red_flags", JArr([])).items))]
    else []
  }

  /** The lines of the context string, section by section. */
  function Lines(context: Option<Context>): (lines: seq<Line>)
    requires Shaped(context)
  {
    if context.None? then []
    else
      var ctx := context.value;
      IntentPart(ctx) + TonePart(ctx) + LeakagePart(ctx) + ScorePart(ctx) + FlagsPart(ctx)
  }

  /** Appending a line whose rank exceeds every rank so far keeps the order. */
  lemma OrderedSnoc(lines: seq<Line>, part: seq<Line>, rank: nat)
    requires InOrder(lines) && |part| <= 1
    requires forall i :: 0 <= i < |lines| ==> Rank(lines[i]) < rank
    requires forall i :: 0 <= i < |part| ==> Rank(part[i]) == rank
    ensures InOrder(lines + part)
    ensures forall i :: 0 <= i < |lines + part| ==> Rank((lines + part)[i]) <= rank
  {
  }

  /** The context string's lines, kind by kind: an intent line iff the
      intent stage is there, a tone line iff the emotion stage is there, a
      leakage line iff that stage reports leakage, a score line iff the risk
      stage is there and a red-flags line iff it has red flags; each kind at
      most once, showing its field or the placeholder ("unknown", "" or
      "?"), and the kinds in that order. */
  lemma {:induction false} LinesSpec(context: Option<Context>)
    requires Shaped(context)
    ensures InOrder(Lines(context))
    ensures OfRank(Lines(context), 0) ==
      if HasStage(context, "intent")
      then [IntentLine(Get(context.value["intent"], "primary_intent", JStr("unknown")))]
      else []
    ensures OfRank(Lines(context), 1) ==
      if HasStage(context, "emotion")
      then [ToneLine(Get(context.value["emotion"], "primary_emotion", JStr("unknown")),
                     Get(context.value["emotion"], "intensity", JStr("unknown")))]
      else []
    ensures OfRank(Lines(context), 2) ==
      if HasStage(context, "emotion") && LeakageDetected(context.value["emotion"])
      then [LeakageLine(Get(LeakageOf(context.value["emotion"]).fields, "explanation", JStr("")))]
      else []
    ensures OfRank(Lines(context), 3) ==
      if HasStage(context, "risk")
      then [ScoreLine(Get(context.value["risk"], "overall_risk_score", JStr("?")))]
      else []
    ensures OfRank(Lines(context), 4) ==
      if HasStage(context, "risk") && HasRedFlags(context.value["risk"])
      then [FlagsLine(Phrases(Get(context.value["risk"], "red_flags", JArr([])).items))]
      else []
    ensures forall rank :: rank > 4 ==> OfRank(Lines(context), rank) == []
  {
    if context.Some? {
      var ctx := context.value;
      SectionsInOrder(IntentPart(ctx), TonePart(ctx), LeakagePart(ctx), ScorePart(ctx), FlagsPart(ctx));
      KindInLines(ctx, 0);
      KindInLines(ctx, 1);
      KindInLines(ctx, 2);
      KindInLines(ctx, 3);
      KindInLines(ctx, 4);
      forall rank: nat | rank > 4 {
        KindInLines(ctx, rank);
      }
    }
  }

  /** Only the section of that kind contributes to the lines of a kind. */
  lemma KindInLines(ctx: Context, rank: nat)
    requires Shaped(Some(ctx))
    ensures rank == 0 ==> OfRank(Lines(Some(ctx)), rank) == IntentPart(ctx)
    ensures rank == 1 ==> OfRank(Lines(Some(ctx)), rank) == TonePart(ctx)
    ensures rank == 2 ==> OfRank(Lines(Some(ctx)), rank) == LeakagePart(ctx)
    ensures rank == 3 ==> OfRank(Lines(Some(ctx)), rank) == ScorePart(ctx)
    ensures rank == 4 ==> OfRank(Lines(Some(ctx)), rank) == FlagsPart(ctx)
    ensures rank > 4 ==> OfRank(Lines(Some(ctx)), rank) == []
  {
    SectionsOfRank(IntentPart(ctx), TonePart(ctx), LeakagePart(ctx), ScorePart(ctx), FlagsPart(ctx), rank);
  }

  /** At most one line, of the given kind. */
  predicate OfKind(part: seq<Line>, rank: nat) {
    |part| <= 1 && forall i :: 0 <= i < |part| ==> Rank(part[i]) == rank
  }

  /** Five sections of kinds 0 to 4, one after the other, are in order. */
  lemma SectionsInOrder(p0: seq<Line>, p1: seq<Line>, p2: seq<Line>, p3: seq<Line>, p4: seq<Line>)
    requires OfKind(p0, 0) && OfKind(p1, 1) && OfKind(p2, 2) && OfKind(p3, 3) && OfKind(p4, 4)
    ensures InOrder(p0 + p1 + p2 + p3 + p4)
  {
    OrderedSnoc([], p0, 0);
    assert [] + p0 == p0;
    OrderedSnoc(p0, p1, 1);
    OrderedSnoc(p0 + p1, p2, 2);
    OrderedSnoc(p0 + p1 + p2, p3, 3);
    OrderedSnoc(p0 + p1 + p2 + p3, p4, 4);
  }

  lemma OfRankConcat5(p0: seq<Line>, p1: seq<Line>, p2: seq<Line>, p3: seq<Line>, p4: seq<Line>, rank: nat)
    ensures OfRank(p0 + p1 + p2 + p3 + p4, rank) ==
      OfRank(p0, rank) + OfRank(p1, rank) + OfRank(p2, rank) + OfRank(p3, rank) + OfRank(p4, rank)
  {
    OfRankConcat(p0, p1, rank);
    OfRankConcat(p0 + p1, p2, rank);
    OfRankConcat(p0 + p1 + p2, p3, rank);
    OfRankConcat(p0 + p1 + p2 + p3, p4, rank);
  }

  /** Picking one kind from five sections of kinds 0 to 4 gives that section. */
  lemma SectionsOfRank(p0: seq<Line>, p1: seq<Line>, p2: seq<Line>, p3: seq<Line>, p4: seq<Line>, rank: nat)
    requires OfKind(p0, 0) && OfKind(p1, 1) && OfKind(p2, 2) && OfKind(p3, 3) && OfKind(p4, 4)
    ensures rank == 0 ==> OfRank(p0 + p1 + p2 + p3 + p4, rank) == p0
    ensures rank == 1 ==> OfRank(p0 + p1 + p2 + p3 + p4, rank) == p1
    ensures rank == 2 ==> OfRank(p0 + p1 + p2 + p3 + p4, rank) == p2
    ensures rank == 3 ==> OfRank(p0 + p1 + p2 + p3 + p4, rank) == p3
    ensures rank == 4 ==> OfRank(p0 + p1 + p2 + p3 + p4, rank) == p4
    ensures rank > 4 ==> OfRank(p0 + p1 + p2 + p3 + p4, rank) == []
  {
    OfRankConcat5(p0, p1, p2, p3, p4, rank);
    OfRankOfKind(p0, 0, rank);
    OfRankOfKind(p1, 1, rank);
    OfRankOfKind(p2, 2, rank);
    OfRankOfKind(p3, 3, rank);
    OfRankOfKind(p4, 4, rank);
  }

  /** A section of one kind yields itself when that kind is picked, and
      nothing otherwise. */
  lemma OfRankOfKind(part: seq<Line>, kind: nat, rank: nat)
    requires OfKind(part, kind)
    ensures OfRank(part, rank) == if rank == kind then part else []
  {
    OfRankShort(part, rank);
  }

  /** Rendering two runs of lines one after the other concatenates their texts. */
  lemma {:induction false} RenderAppend(a: seq<Line>, b: seq<Line>, repr: Json -> string)
    ensures Render(a + b, repr) == Render(a, repr) + Render(b, repr)
    decreases |a|
  {
    if a == [] {
      assert a + b == b;
    } else {
      assert (a + b)[0] == a[0];
      assert (a + b)[1..] == a[1..] + b;
      RenderAppend(a[1..], b, repr);
    }
  }

  /** Regrouping a concatenation; stated once here so that the builder's
      proof does not carry the sequence axioms for it. */
  lemma Regroup(a: seq<Line>, b: seq<Line>, c: seq<Line>)
    ensures a + (b + c) == a + b + c
  {
  }

  /** The context-string part of `RewriteAgent.analyze`: an empty context
      gives "", otherwise the intent, emotion and risk sections are appended
      in turn; `None` when Python would raise on a malformed
      `emotional_leakage` or `red_flags`. The string is the rendering of
      `Lines(context)`. */
  method BuildContextString(context: Option<Context>, repr: Json -> string) returns (contextStr: Option<string>)
    ensures contextStr.Some? <==> Shaped(context)
    ensures contextStr.Some? ==> contextStr.value == Render(Lines(context), repr)
  {
    var text := "";
    if context.Some? && context.value != map[] {
      var ctx := context.value;
      var intent := IntentSection(ctx, repr);
      assert "" + intent == intent;
      text := text + intent;
      var emotion := EmotionSection(ctx, repr);
      if emotion.None? {
        return None;
      }
      text := text + emotion.value;
      ghost var i, t, l := IntentPart(ctx), TonePart(ctx), LeakagePart(ctx);
      RenderAppend(i, t + l, repr);
      Regroup(i, t, l);
      var risk := RiskSection(ctx, repr);
      if risk.None? {
        return None;
      }
      text := text + risk.value;
      ghost var s, f := ScorePart(ctx), FlagsPart(ctx);
      RenderAppend(i + t + l, s + f, repr);
      Regroup(i + t + l, s, f);
    }
    return Some(text);
  }

  /** The intent section: `Detected Intent` with the intent stage's
      `primary_intent`, when that stage is there. */
  method IntentSection(ctx: Context, repr: Json -> string) returns (section: string)
    ensures section == Render(IntentPart(ctx), repr)
  {
    section := "";
    if "intent" in ctx {
      var intent := Get(ctx["intent"], "primary_intent", JStr("unknown"));
      section := section + ("\nDetected Intent: " + PyStr(intent, repr));
      assert section == Render([IntentLine(intent)], repr);
    }
  }

  /** The emotion section: the tone line, then the leakage line when the
      leakage record says it was detected; `None` when that record is not
      an object. */
  method EmotionSection(ctx: Context, repr: Json -> string) returns (section: Option<string>)
    ensures section.Some? <==> EmotionShaped(ctx)
    ensures section.Some? ==> section.value == Render(TonePart(ctx) + LeakagePart(ctx), repr)
  {
    var text := "";
    if "emotion" in ctx {
      var emo := ctx["emotion"];
      var emotion := Get(emo, "primary_emotion", JStr("unknown"));
      var intensity := Get(emo, "intensity", JStr("unknown"));
      text := text + ("\nEmotional Tone: " + PyStr(emotion, repr) + " (intensity: " + PyStr(intensity, repr) + ")");
      ghost var tone := ToneLine(emotion, intensity);
      assert text == Render([tone], repr);
      var leakage := Get(emo, "emotional_leakage", JObj(map[]));
      if !leakage.JObj? {
        return None;
      }
      if Truthy(Get(leakage.fields, "detected", JNull)) {
        var explanation := Get(leakage.fields, "explanation", JStr(""));
        text := text + ("\nEmotional Leakage: " + PyStr(explanation, repr));
        RenderSnoc([tone], LeakageLine(explanation), repr);
        assert [tone] + [LeakageLine(explanation)] == TonePart(ctx) + LeakagePart(ctx);
      } else {
        assert [tone] == TonePart(ctx) + LeakagePart(ctx);
      }
    }
    return Some(text);
  }

  /** The risk section: the score line, then the red-flags line when there
      are red flags; `None` when they cannot be turned into phrases. */
  method RiskSection(ctx: Context, repr: Json -> string) returns (section: Option<string>)
    ensures section.Some? <==> RiskShaped(ctx)
    ensures section.Some? ==> section.value == Render(ScorePart(ctx) + FlagsPart(ctx), repr)
  {
    var text := "";
    if "risk" in ctx {
      var risk := ctx["risk"];
      var score := Get(risk, "overall_risk_score", JStr("?"));
      text := text + ("\nRisk Score: " + PyStr(score, repr) + "/10");
      ghost var scoreLine := ScoreLine(score);
      assert text == Render([scoreLine], repr);
      var redFlags := Get(risk, "red_flags", JArr([]));
      if Truthy(redFlags) {
        if !FlagsShaped(redFlags) {
          return None;
        }
        var flags := Phrases(redFlags.items);
        text := text + ("\nRed Flags: " + Join(flags, ", "));
        RenderSnoc([scoreLine], FlagsLine(flags), repr);
        assert [scoreLine] + [FlagsLine(flags)] == ScorePart(ctx) + FlagsPart(ctx);
      } else {
        assert [scoreLine] == ScorePart(ctx) + FlagsPart(ctx);
      }
    }
    return Some(text);
  }

  /** No context, or an empty one, gives the empty string. */
  lemma EmptyContextGivesEmptyString(context: Option<Context>, repr: Json -> string)
    requires context.None? || context.value == map[]
    ensures Shaped(context) && Render(Lines(context), repr) == ""
  {
  }
}
