# communication-risk-guard, modelled in Dafny

communication-risk-guard checks a message before it is sent. Four LLM-backed
agents run in stages:

1. The **intent** agent works out what the sender wants.
2. The **emotion** agent reads the tone and any emotional leakage.
3. The **risk** agent scores how likely the message is to be misread, from 1 to 10. A missing score counts as 0. It sees the intent and emotion results.
4. The **rewrite** agent suggests better wordings. It runs only when the risk score is at least 4, and it sees all three earlier results.

There are two front ends. The terminal front end is `app.py`, with the
`CommunicationGuard` orchestrator. The browser front end is `streamlit_app.py`,
with `run_analysis`. Both band the score for display: low up to 3, medium from
4 to 6, high from 7.

This project models the deterministic core around the agents:

- **How an agent turns the model's reply into JSON** (module `BaseAgent`).
  It picks the text of a fenced block, strips it and parses it. A parse failure becomes an `{"error", "raw"}` record.
- **The staged run** (module `Pipeline`), with its call order, the contexts each agent gets and the rewrite gate.
  The two front ends implement it as imperative methods:
  - `App.CommunicationGuard.Analyze`, which has an opt-out for the rewrite stage;
  - `StreamlitApp.RunAnalysis`.
- **The colour and severity rules and the header band of the browser page** (modules `App` and `StreamlitApp`).
- **The rule that splits a message file into messages on `---`** (module `App`).
- **The context string the rewrite agent builds** from the earlier results (module `RewriteAgent`).

Supporting modules:

- `JsonValues` holds the decoded JSON values, with Python's `dict.get`, truthiness and `str()`.
- `Text` holds the Python string methods the code relies on: `strip`, `in`, `split`, `join` and `lower`. `Text.Find` is the first-occurrence search that `in` and `split` perform. `Split` is proved to round-trip with `Join`.

Agents, the JSON parser and Python's `repr` of lists and dicts are parameters
(function values). The model states what the orchestration does with them.

A few error paths are modelled as explicit outcomes rather than excluded by
preconditions:

- A risk score that Python cannot compare with 4 is the outcome `ScoreTypeError`. A string, `null`, a list or an object makes `>= 4` raise `TypeError`.
- A malformed `emotional_leakage` or `red_flags` value makes the rewrite agent's context builder return `None`. This stands for the `AttributeError` or `TypeError` Python raises there.

## Model

| member | source | states |
|---|---|---|
| JsonValues.Get | app.py:57 | `d.get(key, default)`: the stored value when the key is present, the default otherwise |
| JsonValues.FalsyValues | agents/rewrite_agent.py:49-55 | Python truthiness (`if red_flags:`, `if ….get("detected")`): exactly null, false, 0, "", [] and {} are false |
| JsonValues.Decimal | agents/rewrite_agent.py:53 | `str(n)` for an int: a minus sign exactly for a negative number, then decimal digits with no leading zero ("0" for zero), and `int(str(n)) == n` |
| JsonValues.PyStr | agents/rewrite_agent.py:45-53 | the `{}` of an f-string: a string is inserted as itself, an integer as its canonical decimal `Decimal(n)`, None/True/False by name, and lists and dicts through `repr` |
| Text.Strip | agents/base_agent.py:28 | `str.strip()`: the result has no whitespace at either end, and it occurs in the input at a position with only whitespace before and after it, so exactly the leading and trailing whitespace is removed. It is empty iff the input is all whitespace, and an already stripped string is returned unchanged |
| Text.Find | agents/base_agent.py:30-33 | the first-occurrence search behind `in` and `split`: returns an index iff the pattern occurs. The index is an occurrence and no earlier occurrence exists |
| Text.Split | app.py:278 | `str.split(sep)`: at least one piece, and more than one iff `sep` occurs. No piece holds `sep`, and joining the pieces with `sep` gives back the input. The scan is from the left: no piece but the last, followed by all but the last character of `sep`, holds `sep` (so `"----".split("---")` is `["", "-"]`) |
| Text.JoinShape | agents/rewrite_agent.py:57 | `sep.join(parts)` starts with the first part and ends with the last, with `sep` right after the first part when there are several |
| Text.Lower | app.py:77 | `s.lower()`: same length, no upper-case letter left, and the same string up to letter case |
| Text.SplitFirst | agents/base_agent.py:31 | the first piece of a split is everything before the first separator, or the whole string |
| Text.SplitSecond | agents/base_agent.py:31 | the second piece of a split is what follows the first separator, up to the next one |
| Text.LowerMatchesLiteral | app.py:77 | comparing `s.lower()` with a lower-case literal is a case-insensitive comparison |
| BaseAgent.Candidate | agents/base_agent.py:28-33 | the text handed to `json.loads` never holds a ``` fence and has no whitespace at either end |
| BaseAgent.ErrorRecord | agents/base_agent.py:38 | the fallback record has exactly the keys `error` and `raw`. `raw` is the reply and `error` is "Failed to parse response: " followed by the parser's reason |
| BaseAgent.ParseJsonResponse | agents/base_agent.py:26-38 | a parsed candidate is returned as is. A rejected one gives an object with exactly the keys `error` and `raw`: `raw` is the reply exactly as received, and `error` is "Failed to parse response: " followed by the parser's reason |
| BaseAgent.UnfencedCandidate | agents/base_agent.py:28-36 | a reply with no fence is parsed whole, after stripping |
| BaseAgent.PlainFenceCandidate | agents/base_agent.py:32-33 | with only plain ``` fences, the candidate is the stripped text between the first fence and the next one |
| BaseAgent.JsonFenceCandidate | agents/base_agent.py:30-31 | with a ```json fence, the candidate is the stripped text between the first ```json and the next ```. This holds unless a run of backticks directly before another "json" intervenes |
| BaseAgent.BacktickRunCandidate | agents/base_agent.py:30-31 | in that exceptional case the candidate runs up to the next ```json instead, and is strictly longer than the text up to the next ``` |
| BaseAgent.FencedPayloadParses | agents/base_agent.py:26-38 | a reply whose stripped text is one ```json block, with no backtick in its payload, is parsed as its stripped payload. Whitespace around the block is allowed, and so is any text after the closing fence that does not start with a backtick |
| Pipeline.ScoreOf | app.py:57-58 | `get("overall_risk_score", 0)` as `>= 4` sees it: an absent score is 0, an integer is itself, and a bool is 1 or 0. It is none iff the score is neither an integer nor a bool, in which case the comparison raises |
| Pipeline.GateOnRawScore | app.py:57-58 | the rewrite gate on the stored score: closed when the score is absent, a bool or not a number, and open for an integer iff it is at least 4 |
| Pipeline.Staged | app.py:28-62 | intent and emotion run first without context, and risk runs third with exactly those two results. Rewrite runs fourth iff the opt-out is off and the score is at least 4. It then sees exactly the three earlier results, and the result keys are the stages that ran. The run fails iff the opt-out is off and the score cannot be compared |
| Pipeline.CallOrder | app.py:40-60 | the stages run in the order intent, emotion, risk and then, only behind the gate, rewrite. No agent is called twice and each gets the unchanged message |
| Pipeline.OptOutSkipsRewrite | app.py:56 | with the rewrite stage switched off, the run always completes with exactly three results and no rewrite call |
| Pipeline.RewriteKeyIffGate | app.py:56-60 | a completed run holds intent, emotion and risk, and holds rewrite iff the opt-out is off and the score is at least 4 |
| Pipeline.ThresholdExamples | app.py:57-58 | a score of 3 gives three results, a score of 4 gives four, and a missing score gives three |
| App.CommunicationGuard.Analyze | app.py:28-62 | the imperative orchestrator produces the run `Pipeline.Staged` specifies: the same outcome and the same agent calls in the same order |
| App.GetRiskColor | app.py:65-72 | green iff the score is at most 3, yellow iff it is 4 to 6, red iff it is at least 7 |
| App.GetSeverityStyle | app.py:75-77 | green, yellow and red iff the severity is "low", "medium" or "high" in any letter case, and white iff it is none of them |
| App.StripEach | app.py:278 | `[m.strip() for m in pieces]`: same length, with each piece stripped in place |
| App.DropEmpty | app.py:278 | the `if m.strip()` filter keeps only non-empty strings taken from the input, exactly as many as the input holds (`CountNonEmpty`) |
| App.DropEmptyKeepsOrder | app.py:278 | a non-empty string at index `i` is kept, at the index given by the number of non-empty strings before it |
| App.DropEmptyFrom | app.py:278 | conversely, every kept string is the non-empty string at some index `i`, kept at the index given by the number of non-empty strings before it |
| App.KeptPiecesAreMessages | app.py:278 | every kept piece is non-empty and stripped, and holds no `---` when no piece did |
| App.SplitMessages | app.py:275-278 | every message read from a file is non-empty, has no whitespace at either end and holds no `---` |
| App.BlankFileHasNoMessages | app.py:275-278 | a file of whitespace only yields no message |
| App.MessagesInFileOrder | app.py:275-278 | for a file's text, each non-blank `---` piece becomes message number `k` of `SplitMessages`, where `k` counts the non-blank pieces before it, so no piece is lost and the file's order is kept |
| App.MessageFromPiece | app.py:275-278 | every message of `SplitMessages` is the stripped text of a non-blank `---` piece of the file, with as many non-blank pieces before it as its index. With `MessagesInFileOrder`, messages and non-blank pieces correspond one to one, in order |
| StreamlitApp.GetRiskColor | streamlit_app.py:39-45 | "low" iff the score is at most 3, "medium" iff it is 4 to 6, "high" iff it is at least 7 |
| StreamlitApp.RiskColorsAgree | streamlit_app.py:39-45 | the page's bands and the terminal's colours (app.py:65-72) put every score in the same band |
| StreamlitApp.RunAnalysis | streamlit_app.py:48-69 | the page's imperative run is the staged run with the rewrite stage always allowed. On completion rewrite is present iff the gate is open |
| StreamlitApp.RiskHeader | streamlit_app.py:291-296 | the success, warning and error headers are shown exactly for the low, medium and high bands |
| StreamlitApp.HeaderFor | streamlit_app.py:288-296 | the header is banded on `results.get("risk", {}).get("overall_risk_score", 0)`. There is a header iff that score compares, and a success header when the risk stage is absent. Success means a score of at most 3 and error a score of at least 7 |
| StreamlitApp.RewriteIffNotLowHeader | streamlit_app.py:48-69 | after a page run, rewrite suggestions exist iff the header is a warning or an error, not a success |
| RewriteAgent.LineText | agents/rewrite_agent.py:45-57 | every line the context builder appends starts on a new line |
| RewriteAgent.Render | agents/rewrite_agent.py:42-57 | the context string is empty iff no line was appended |
| RewriteAgent.Phrases | agents/rewrite_agent.py:56 | `[f.get("phrase", "") for f in red_flags]`: one phrase per flag, in the flags' order |
| RewriteAgent.LinesSpec | agents/rewrite_agent.py:42-57 | the contract of `Lines`: the context lines, kind by kind. There is an intent line iff the intent stage is present and a tone line iff the emotion stage is. A leakage line appears iff leakage is reported as detected, a score line iff the risk stage is present, and a red-flags line iff its `red_flags` is truthy. Each kind appears at most once, in that order, showing its field or the placeholder ("unknown", "" or "?") |
| RewriteAgent.BuildContextString | agents/rewrite_agent.py:42-57 | the imperative builder succeeds iff `emotional_leakage`, when the emotion stage has one, is an object, and `red_flags` is falsy or a list of objects whose `phrase`, when present, is a string. On success it returns exactly the rendering of the lines `LinesSpec` describes |
| RewriteAgent.IntentSection | agents/rewrite_agent.py:44-45 | the `Detected Intent` part of the string is the rendering of the intent line, or empty |
| RewriteAgent.EmotionSection | agents/rewrite_agent.py:46-50 | the tone line and then the optional leakage line. It fails iff `emotional_leakage` is not an object |
| RewriteAgent.RiskSection | agents/rewrite_agent.py:51-56 | the score line and then the optional red-flags line. It fails iff truthy red flags cannot be turned into phrases |
| RewriteAgent.EmptyContextGivesEmptyString | agents/rewrite_agent.py:42-43 | no context, or an empty one, gives the empty string |

## Left out

- The agents' completion calls (`_call_api`), the network and the API client: each agent is a function value from (message, context) to its result record.
- `_load_prompt`, the prompt files, the prompt's `.format` (agents/rewrite_agent.py:59) and the rest of each agent's `analyze`: of the rewrite agent's `analyze`, only the context string is modelled.
- The risk agent's own context string: it is not part of this model.
- Agents are typed to return a JSON object (`StageResult`). A reply that decodes to a list, string, number or null would make the front ends' `.get` calls raise `AttributeError` (app.py:57, streamlit_app.py:65 and 288, agents/rewrite_agent.py:45-53). That failure is not modelled.
- `json.loads` itself: it is a parameter that either yields a value or rejects the text with a reason (`JSONDecodeError`). Exceptions other than `JSONDecodeError` are not modelled.
- JSON numbers are integers only: floats, and a fractional risk score, are not modelled.
- Python's `repr` of lists and dicts (used when such a value is put into an f-string) is a parameter.
- Dict key order is not modelled. Results and contexts are maps.
- Text.Lower: maps only the ASCII letters, because the severities it is compared with are ASCII. Python's `str.lower` also maps non-ASCII letters.
- The exceptions the rewrite context builder can raise are collapsed into one `None` result. The same goes for the `TypeError` of an incomparable risk score (`ScoreTypeError`).
- App.CommunicationGuard.constructor: takes the four agents as parameters instead of constructing them.
- `st.cache_resource` and the agent dictionary of the page: the page's agents are a record of four function values.
- Console and page output: progress lines, `display_*` renderers, tables, panels, tabs and the header texts. Only which header is shown is modelled.
- The `click` command, the interactive loop and file reading: the file rule is modelled from the file's text. Only the message loop's input (line 278) is modelled, not its per-message output.
- Concurrency and Streamlit's re-run model do not arise in the modelled code.

## Fence handling

`_parse_json_response` cuts a ```json block at the first ``` fence after
it (agents/base_agent.py:31). If that fence is part of a run of four or
five backticks directly followed by `json`, the cut happens later, at the
next ```json. The candidate then keeps the stray backticks.
`BaseAgent.BacktickRunCandidate` states this exactly, and
`BaseAgent.JsonFenceCandidate` gives the usual case.
