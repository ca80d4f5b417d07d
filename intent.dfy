/**
 * `classify_intent`: the model's reply is stripped, cleaned of a leading fence
 * (three backticks, optionally tagged `json` in any case, plus the whitespace after it) and
 * of a closing fence (three backticks at the very end, plus the whitespace before them),
 * then parsed. A parse failure or a failed call yields a fixed "unknown" record.
 */
module IntentClassifier {
  import opened Wrappers
  import opened Text
  import opened Json

  /** End of the whitespace run starting at `k`. */
  function SpaceRunEnd(t: string, k: nat): (e: nat)
    requires k <= |t|
    decreases |t| - k
    ensures k <= e <= |t|
    ensures forall m :: k <= m < e ==> IsSpace(t[m])
    ensures e == |t| || !IsSpace(t[e])
  {
    if k < |t| && IsSpace(t[k]) then SpaceRunEnd(t, k + 1) else k
  }

  /** Start of the whitespace run ending at `k`. */
  function SpaceRunStart(t: string, k: nat): (s: nat)
    requires k <= |t|
    ensures s <= k
    ensures forall m :: s <= m < k ==> IsSpace(t[m])
    ensures s == 0 || !IsSpace(t[s - 1])
  {
    if k > 0 && IsSpace(t[k - 1]) then SpaceRunStart(t, k - 1) else k
  }

  /** The optional `json` group after an opening fence, matched case-insensitively. */
  predicate HasJsonTag(t: string) {
    |t| >= 7 && Lower(t[3..7]) == "json"
  }

  /** Where the first alternative `^```(?:json)?\s*` stops matching, or 0 if it does not match. */
  function LeadingFenceEnd(t: string): (a: nat)
    ensures a <= |t|
    ensures !StartsWith(t, Fence) ==> a == 0
    ensures StartsWith(t, Fence) ==> 3 <= a
  {
    if StartsWith(t, Fence) then SpaceRunEnd(t, if HasJsonTag(t) then 7 else 3) else 0
  }

  /** Where the second alternative `\s*```$` starts matching at or after `a`, or `|t|` if it
      does not: the whitespace before a closing fence, but never inside the opening match. */
  function TrailingFenceStart(t: string, a: nat): (b: nat)
    requires a <= |t|
    ensures a <= b <= |t|
  {
    if |t| >= a + 3 && EndsWith(t, Fence) then
      var s := SpaceRunStart(t, |t| - 3);
      if s < a then a else s
    else |t|
  }

  /** `re.sub(r"^```(?:json)?\s*|\s*```$", "", t, flags=re.IGNORECASE)` on stripped text: what
      lies between the two matches. On text ending in a newline Python's `$` also matches just
      before that newline, which this function does not model. */
  function CleanFence(t: string): (r: string)
    ensures |r| <= |t|
    ensures exists a, b :: 0 <= a <= b <= |t| && r == t[a..b]
  {
    var a := LeadingFenceEnd(t);
    t[a..TrailingFenceStart(t, a)]
  }

  /** Text that neither starts nor ends with a fence is left unchanged. */
  lemma CleanUnfenced(t: string)
    requires !StartsWith(t, Fence) && !EndsWith(t, Fence)
    ensures CleanFence(t) == t
  {
  }

  /** Cleaning only cuts away a fence and whitespace: the cut-off head is an opening fence,
      its optional tag and whitespace, and the cut-off tail is whitespace and a closing fence. */
  lemma CleanCutsFencesOnly(t: string)
    ensures var a := LeadingFenceEnd(t);
      var b := TrailingFenceStart(t, a);
      && CleanFence(t) == t[a..b]
      && (a == 0 || (StartsWith(t, Fence) && forall m :: (if HasJsonTag(t) then 7 else 3) <= m < a ==> IsSpace(t[m])))
      && (b == |t| || (EndsWith(t, Fence) && forall m :: b <= m < |t| - 3 ==> IsSpace(t[m])))
  {
  }

  /** Round trip: a fenced reply, optionally tagged `json`, around a body with no whitespace
      at its ends, cleans back to that body. */
  lemma {:induction false} CleanFencedBody(tag: string, body: string)
    requires tag == [] || (|tag| == 4 && Lower(tag) == "json")
    requires body == [] || (!IsSpace(body[0]) && !IsSpace(body[|body| - 1]))
    ensures CleanFence(Fence + tag + "\n" + body + "\n" + Fence) == body
  {
    var t := Fence + tag + "\n" + body + "\n" + Fence;
    var h := 3 + |tag|;
    assert t[..3] == Fence;
    assert t[h] == '\n';
    assert t[h + 1..h + 1 + |body|] == body;
    assert t[|t| - 3..] == Fence;
    assert t[|t| - 4] == '\n';
    assert HasJsonTag(t) <==> tag != [] by {
      if tag != [] {
        assert t[3..7] == tag;
      } else {
        assert t[3] == '\n';
        assert Lower(t[3..7])[0] == '\n';
      }
    }
    var a := LeadingFenceEnd(t);
    assert t[h] == '\n' && IsSpace(t[h]);
    if body != [] {
      assert t[h + 1] == body[0];
      assert a == h + 1;
      var s := SpaceRunStart(t, |t| - 3);
      assert t[h + |body|] == body[|body| - 1];
      assert s == h + 1 + |body|;
    } else {
      assert t[h + 1] == '\n' && t[h + 2] == '`';
      assert a == h + 2 == |t| - 3;
    }
  }

  /** The record returned when parsing or the call fails. */
  function IntentFallback(notes: string): (j: Json)
    ensures j.JObject? && j.fields.Keys == {"intent", "intent_confidence", "business_value", "notes"}
  {
    JObject(map[
      "intent" := JStr("unknown"),
      "intent_confidence" := JFloat(0.0),
      "business_value" := JObject(map[
        "relevant" := JBool(false),
        "category" := JStr("unknown"),
        "confidence" := JFloat(0.0)]),
      "notes" := JStr(notes)])
  }

  /** `classify_intent(email_body, …)`, with the model's reply for this body (or the text of
      the exception the call raised) and `json.loads` as parameters. */
  function ClassifyIntent(reply: Result<string, string>, parse: string -> Result<Json, string>): (j: Json)
    ensures reply.Failure? ==> j == IntentFallback("Exception occurred: " + reply.error)
  {
    match reply
    case Failure(e) => IntentFallback("Exception occurred: " + e)
    case Success(content) =>
      var result := Strip(content);
      match parse(CleanFence(Strip(result)))
      case Success(parsed) => parsed
      case Failure(e) => IntentFallback("Failed to parse JSON: " + e)
  }

  /** A successful parse is returned as it is, unvalidated; a failed one yields the fallback
      with the decoder's message. */
  lemma ClassifyParsed(content: string, parse: string -> Result<Json, string>)
    ensures var cleaned := CleanFence(Strip(content));
      && (parse(cleaned).Success? ==> ClassifyIntent(Success(content), parse) == parse(cleaned).value)
      && (parse(cleaned).Failure? ==> ClassifyIntent(Success(content), parse) == IntentFallback("Failed to parse JSON: " + parse(cleaned).error))
  {
    StripIdempotent(content);
  }

  /** Only the cleaned reply reaches the parser: two replies that clean alike classify alike. */
  lemma ClassifyDependsOnCleaned(c1: string, c2: string, parse: string -> Result<Json, string>)
    requires CleanFence(Strip(c1)) == CleanFence(Strip(c2))
    ensures ClassifyIntent(Success(c1), parse) == ClassifyIntent(Success(c2), parse)
  {
    StripIdempotent(c1);
    StripIdempotent(c2);
  }
}
