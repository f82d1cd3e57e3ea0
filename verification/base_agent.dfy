/** How an agent turns the model's free-text reply into a JSON value:
    pick the text of a fenced block (a block marked `json` first, then any
    block, then the whole reply), strip it, hand it to the JSON parser, and
    turn a parse failure into an `{"error", "raw"}` record. The parser
    itself is a parameter. */
module BaseAgent {

  import opened JsonValues
  import opened Text

  const Fence := "```"
  const JsonFence := "```json"

  /** What the JSON parser makes of a text: a value, or the reason it was rejected. */
  datatype ParseResult = Parsed(value: Json) | Rejected(reason: string)

  /** The text the reply's first `pat` is followed by. */
  function AfterFirst(s: string, pat: string): (r: string)
    requires Contains(s, pat)
    ensures OccursAt(s, pat, |s| - |r| - |pat|)
  {
    s[Find(s, pat).value + |pat|..]
  }

  /** `s` up to its first `pat`, or all of `s` when there is none. */
  function UpTo(s: string, pat: string): (r: string)
    ensures |r| <= |s| && r == s[..|r|]
    ensures Contains(s, pat) ==> OccursAt(s, pat, |r|)
  {
    match Find(s, pat)
    case None => s
    case Some(i) => s[..i]
  }

  /** The text `_parse_json_response` hands to the JSON parser: never holds a
      fence and has no whitespace at either end. */
  function Candidate(reply: string): (c: string)
    ensures IsStripped(c)
    ensures !Contains(c, Fence)
  {
    var text := Strip(reply);
    var chosen :=
      if Contains(text, JsonFence) then Split(Split(text, JsonFence)[1], Fence)[0]
      else if Contains(text, Fence) then Split(Split(text, Fence)[1], Fence)[0]
      else text;
    NoPatternInPiece(chosen, Strip(chosen), Fence);
    Strip(chosen)
  }

  /** The record `_parse_json_response` returns when the parser rejects the candidate. */
  function ErrorRecord(reason: string, reply: string): (r: Json)
    ensures r.JObj? && "error" in r.fields && "raw" in r.fields && r.fields.Keys == {"error", "raw"}
    ensures r.fields["raw"] == JStr(reply)
    ensures r.fields["error"].JStr? && var message := r.fields["error"].s;
      |message| >= 26 && message[..26] == "Failed to parse response: " && message[26..] == reason
  {
    JObj(map["error" := JStr("Failed to parse response: " + reason), "raw" := JStr(reply)])
  }

  /** `_parse_json_response`: the parsed candidate, or an error record that
      keeps the reply exactly as it arrived. */
  function ParseJsonResponse(reply: string, loads: string -> ParseResult): (r: Json)
    ensures loads(Candidate(reply)).Parsed? ==> r == loads(Candidate(reply)).value
    ensures loads(Candidate(reply)).Rejected? ==>
      && r.JObj? && "error" in r.fields && "raw" in r.fields && r.fields.Keys == {"error", "raw"}
      && r.fields["raw"] == JStr(reply)
      && r.fields["error"] == JStr("Failed to parse response: " + loads(Candidate(reply)).reason)
  {
    var candidate := Candidate(reply);
    match loads(candidate)
    case Parsed(value) => value
    case Rejected(reason) => ErrorRecord(reason, reply)
  }

  /** A ```json fence is also a ``` fence. */
  lemma JsonFenceIsFence(s: string)
    requires Contains(s, JsonFence)
    ensures Contains(s, Fence)
  {
    var i :| 0 <= i <= |s| && OccursAt(s, JsonFence, i);
    assert s[i..i + 3] == s[i..i + 7][..3];
    assert OccursAt(s, Fence, i);
  }

  /** The first occurrence is the one that has no occurrence before it. */
  lemma FindIsFirst(s: string, pat: string, j: nat)
    requires OccursAt(s, pat, j)
    requires forall q :: 0 <= q < j ==> !OccursAt(s, pat, q)
    ensures Find(s, pat) == Some(j)
  {
    assert Contains(s, pat);
  }

  /** `Split(s, sep)[0]` is `UpTo(s, sep)`, and `Split(s, sep)[1]` is what
      follows the first separator, up to the next one. */
  lemma SplitPieces(s: string, sep: string)
    requires |sep| > 0
    ensures Split(s, sep)[0] == UpTo(s, sep)
    ensures Contains(s, sep) ==> |Split(s, sep)| >= 2 && Split(s, sep)[1] == UpTo(AfterFirst(s, sep), sep)
  {
    SplitFirst(s, sep);
    if Contains(s, sep) {
      SplitSecond(s, sep);
      SplitFirst(AfterFirst(s, sep), sep);
    }
  }

  /** With neither kind of fence in the stripped reply, the candidate is the stripped reply. */
  lemma {:induction false} UnfencedCandidate(reply: string)
    requires !Contains(Strip(reply), Fence)
    ensures Candidate(reply) == Strip(reply)
  {
    if Contains(Strip(reply), JsonFence) {
      JsonFenceIsFence(Strip(reply));
    }
  }

  /** With a ``` fence but no ```json fence, the candidate is what lies between
      the first fence and the next one (or the end), stripped. */
  lemma {:induction false} PlainFenceCandidate(reply: string)
    requires !Contains(Strip(reply), JsonFence) && Contains(Strip(reply), Fence)
    ensures Candidate(reply) == Strip(UpTo(AfterFirst(Strip(reply), Fence), Fence))
  {
    var text := Strip(reply);
    SplitPieces(text, Fence);
    var p := Split(text, Fence)[1];
    SplitPieces(p, Fence);
    assert !Contains(p, Fence);
  }

  /** Inside the text after the first ```json: no ```json begins one or two
      characters after its first ``` (a run of four or five backticks before
      `json`). */
  predicate NoBacktickRun(rest: string) {
    match Find(rest, Fence)
    case None => true
    case Some(j) => !OccursAt(rest, JsonFence, j + 1) && !OccursAt(rest, JsonFence, j + 2)
  }

  /** Each character of an occurrence. */
  lemma CharAt(s: string, pat: string, i: int, t: int)
    requires OccursAt(s, pat, i) && 0 <= t < |pat|
    ensures s[i + t] == pat[t]
  {
    assert s[i..i + |pat|][t] == s[i + t];
  }

  /** Every ```json occurrence starts with a ``` occurrence. */
  lemma JsonFenceStartsFence(s: string, q: int)
    ensures OccursAt(s, JsonFence, q) ==> OccursAt(s, Fence, q)
  {
    if OccursAt(s, JsonFence, q) {
      assert s[q..q + 3] == s[q..q + 7][..3];
    }
  }

  /** The first ```json of `r` begins at the first ``` of `r` or at least three characters later. */
  lemma FirstJsonFenceAfterFirstFence(r: string, k: nat) returns (j: nat)
    requires NoBacktickRun(r)
    requires Find(r, JsonFence) == Some(k)
    ensures Find(r, Fence) == Some(j)
    ensures j == k || j + 3 <= k
  {
    JsonFenceStartsFence(r, k);
    j := Find(r, Fence).value;
  }

  /** `UpTo(UpTo(r, "```json"), "```")`, the two cuts the ```json branch makes,
      is `UpTo(r, "```")` unless a backtick run follows the first fence. */
  lemma {:induction false} DoubleCut(r: string)
    requires NoBacktickRun(r)
    ensures UpTo(UpTo(r, JsonFence), Fence) == UpTo(r, Fence)
  {
    match Find(r, JsonFence)
    case None =>
    case Some(k) =>
      var j := FirstJsonFenceAfterFirstFence(r, k);
      assert UpTo(r, JsonFence) == r[..k];
      assert UpTo(r, Fence) == r[..j];
      if j == k {
        PrefixBeforeFirst(r, Fence, k);
      } else {
        FirstFenceOfPrefix(r, j, k);
      }
  }

  /** Cutting `r` after its first ``` keeps that fence as the first one. */
  lemma FirstFenceOfPrefix(r: string, j: nat, k: nat)
    requires Find(r, Fence) == Some(j) && j + 3 <= k <= |r|
    ensures Find(r[..k], Fence) == Some(j)
  {
    var p := r[..k];
    assert p[j..j + 3] == r[j..j + 3];
    forall q | 0 <= q < j ensures !OccursAt(p, Fence, q) {
      assert !OccursAt(r, Fence, q);
      assert p[q..q + 3] == r[q..q + 3];
    }
    FindIsFirst(p, Fence, j);
  }

  /** With a ```json fence in the stripped reply the candidate is what follows
      the first ```json up to the next ``` (or the end), stripped; this holds
      whether or not a plain fence comes earlier, so the ```json fence takes
      priority. The one exception is `BacktickRunCandidate`. */
  lemma {:induction false} JsonFenceCandidate(reply: string)
    requires Contains(Strip(reply), JsonFence)
    requires NoBacktickRun(AfterFirst(Strip(reply), JsonFence))
    ensures Candidate(reply) == Strip(UpTo(AfterFirst(Strip(reply), JsonFence), Fence))
  {
    var text := Strip(reply);
    var rest := AfterFirst(text, JsonFence);
    SplitPieces(text, JsonFence);
    SplitPieces(UpTo(rest, JsonFence), Fence);
    DoubleCut(rest);
  }

  /** Where the inner ```json of a backtick run begins. */
  lemma BacktickRunStart(r: string) returns (j: nat, k: nat)
    requires !NoBacktickRun(r)
    ensures Find(r, Fence) == Some(j)
    ensures Find(r, JsonFence) == Some(k) && j < k < j + 3
  {
    j := Find(r, Fence).value;
    k := if OccursAt(r, JsonFence, j + 1) then j + 1 else j + 2;
    CharAt(r, JsonFence, k, j + 3 - k);
    forall q | 0 <= q < k ensures !OccursAt(r, JsonFence, q) {
      JsonFenceStartsFence(r, q);
      if q == j {
        assert r[j + 3] != JsonFence[3];
      }
    }
    FindIsFirst(r, JsonFence, k);
  }

  /** Cut just before the inner ```json of a backtick run, `r` holds no fence:
      the first one is cut in half. */
  lemma NoFenceBeforeRun(r: string, j: nat, k: nat)
    requires Find(r, Fence) == Some(j) && j < k < j + 3 && k <= |r|
    ensures !Contains(r[..k], Fence)
  {
    forall q | 0 <= q <= k ensures !OccursAt(r[..k], Fence, q) {
      if q + 3 <= k {
        assert !OccursAt(r, Fence, q);
        assert r[..k][q..q + 3] == r[q..q + 3];
      }
    }
  }

  /** When ```` ```json ```` or ````` ```json ````` follows the first ```json, the
      candidate stops at that inner ```json rather than at the first ```: it
      keeps one or two stray backticks. */
  lemma {:induction false} BacktickRunCandidate(reply: string)
    requires Contains(Strip(reply), JsonFence)
    requires !NoBacktickRun(AfterFirst(Strip(reply), JsonFence))
    ensures Candidate(reply) == Strip(UpTo(AfterFirst(Strip(reply), JsonFence), JsonFence))
    ensures |UpTo(AfterFirst(Strip(reply), JsonFence), JsonFence)|
         > |UpTo(AfterFirst(Strip(reply), JsonFence), Fence)|
  {
    var text := Strip(reply);
    var r := AfterFirst(text, JsonFence);
    var j, k := BacktickRunStart(r);
    NoFenceBeforeRun(r, j, k);
    SplitPieces(text, JsonFence);
    SplitPieces(r[..k], Fence);
  }

  /** A reply that, once stripped, is one ```json block whose payload holds
      no backtick parses as its payload, whatever follows the closing fence
      as long as it does not start with a backtick. */
  lemma {:induction false} FencedPayloadParses(reply: string, payload: string, tail: string, loads: string -> ParseResult)
    requires Strip(reply) == JsonFence + payload + Fence + tail
    requires forall q :: 0 <= q < |payload| ==> payload[q] != '`'
    requires tail == [] || tail[0] != '`'
    ensures Candidate(reply) == Strip(payload)
    ensures loads(Strip(payload)).Parsed? ==> ParseJsonResponse(reply, loads) == loads(Strip(payload)).value
  {
    FencedText(Strip(reply), payload, tail);
    JsonFenceCandidate(reply);
  }

  /** In a text that is one ```json block followed by `tail`, the text after
      the first ```json is the payload up to its closing fence. */
  lemma FencedText(text: string, payload: string, tail: string)
    requires text == JsonFence + payload + Fence + tail
    requires forall q :: 0 <= q < |payload| ==> payload[q] != '`'
    requires tail == [] || tail[0] != '`'
    ensures Contains(text, JsonFence)
    ensures NoBacktickRun(AfterFirst(text, JsonFence))
    ensures UpTo(AfterFirst(text, JsonFence), Fence) == payload
  {
    assert text[..7] == JsonFence;
    FindIsFirst(text, JsonFence, 0);
    var rest := AfterFirst(text, JsonFence);
    assert rest == payload + Fence + tail;
    ClosingFence(rest, payload, tail);
  }

  /** In `payload + "```" + tail` with no backtick in `payload`, the first fence
      closes the payload and no backtick run follows it. */
  lemma ClosingFence(rest: string, payload: string, tail: string)
    requires rest == payload + Fence + tail
    requires forall q :: 0 <= q < |payload| ==> payload[q] != '`'
    requires tail == [] || tail[0] != '`'
    ensures UpTo(rest, Fence) == payload
    ensures NoBacktickRun(rest)
  {
    var n := |payload|;
    forall q | 0 <= q < n ensures !OccursAt(rest, Fence, q) {
      assert rest[q] == payload[q];
      if OccursAt(rest, Fence, q) {
        CharAt(rest, Fence, q, 0);
      }
    }
    assert rest[n..n + 3] == Fence;
    FindIsFirst(rest, Fence, n);
    assert rest[..n] == payload;
    if tail != [] {
      assert rest[n + 3] == tail[0];
      if n + 8 <= |rest| {
        assert rest[n + 1..n + 8][2] == rest[n + 3];
      }
      if n + 9 <= |rest| {
        assert rest[n + 2..n + 9][1] == rest[n + 3];
      }
    }
  }
}
