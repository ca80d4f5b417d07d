/**
 * The post-processing of `calculate_relevancy_score`: the short-circuit for a blank business
 * context, the removal of code fences from the model's reply, the clamping and defaults of
 * the parsed fields, and the records returned on failure.
 */
module RelevancyScorer {
  import opened Wrappers
  import opened Text
  import opened Json

  /** The returned dictionary; each field is the Python value it holds. */
  datatype Relevancy = Relevancy(score: Json, explanation: Json, confidence: Json)

  /** A number, in the sense of `isinstance(x, (int, float))`, lying in [lo, hi]. */
  predicate NumberIn(j: Json, lo: real, hi: real) {
    AsNumber(j).Some? && lo <= AsNumber(j).value <= hi
  }

  /** `max(lo, min(hi, x))` in Python: `min` keeps its first argument unless the second is
      smaller and `max` unless the second is larger, so a bound is returned as the integer
      bound itself and only a value strictly inside stays the float it was. */
  function Clamp(lo: int, hi: int, x: real): (r: Json)
    requires lo < hi
    ensures NumberIn(r, lo as real, hi as real)
    ensures lo as real <= x <= hi as real ==> AsNumber(r) == Some(x)
    ensures x >= hi as real ==> r == JInt(hi)
    ensures x <= lo as real ==> r == JInt(lo)
    ensures lo as real < x < hi as real ==> r == JFloat(x)
  {
    var m := if x < hi as real then JFloat(x) else JInt(hi);
    if AsNumber(m).value > lo as real then m else JInt(lo)
  }

  /** `float(x)` if `isinstance(x, (int, float))`, and `float(default)` otherwise. */
  function NumberOr(j: Json, default: real): real {
    AsNumber(j).GetOr(default)
  }

  /** The `TypeError` that `x[:100]` raises in the f-string of the success log line, if any
      (CPython 3.11 wording). */
  function SliceError(j: Json): (r: Option<string>)
    ensures r.None? <==> j.JStr? || j.JArray?
    ensures j.JObject? ==> r == Some("unhashable type: 'slice'")
    ensures r.Some? && !j.JObject? ==> r.value == "'" + TypeName(j) + "' object is not subscriptable"
  {
    match j
    case JStr(_) => None
    case JArray(_) => None
    case JObject(_) => Some("unhashable type: 'slice'")
    case _ => Some("'" + TypeName(j) + "' object is not subscriptable")
  }

  /** The fence removal applied to the stripped reply. */
  function StripFences(result: string): (r: string)
    ensures |r| <= |result|
    ensures !StartsWith(result, Fence) ==> r == result
  {
    JsonFenceIsFence(result);
    if StartsWith(result, "```json") then Strip(RemoveAll(RemoveAll(result, "```json"), Fence))
    else if StartsWith(result, Fence) then Strip(RemoveAll(result, Fence))
    else result
  }

  /** A reply that does not start with a fence is parsed as it is. */
  lemma UnfencedKept(result: string)
    requires !StartsWith(result, Fence)
    ensures StripFences(result) == result
  {
    JsonFenceIsFence(result);
  }

  /** A reply opening with a json fence opens with a fence. */
  lemma JsonFenceIsFence(s: string)
    ensures StartsWith(s, "```json") ==> StartsWith(s, Fence)
  {
    if StartsWith(s, "```json") {
      assert s[..3] == s[..7][..3];
    }
  }

  /** Stripping cannot bring back what it removed. */
  lemma StripLacks(s: string, p: string)
    requires !Contains(s, p)
    ensures !Contains(Strip(s), p)
  {
    var a := StripIsSlice(s);
    if Contains(Strip(s), p) {
      ContainsSlice(s, a, a + |Strip(s)|, p);
    }
  }

  /** A fenced reply has no fence left at all once cleaned, wherever the fences were. */
  lemma FencedLeavesNoFence(result: string)
    requires StartsWith(result, Fence)
    ensures !Contains(StripFences(result), Fence)
  {
    if StartsWith(result, "```json") {
      RemovalLeavesNoFence(RemoveAll(result, "```json"));
      StripLacks(RemoveAll(RemoveAll(result, "```json"), Fence), Fence);
    } else {
      RemovalLeavesNoFence(result);
      StripLacks(RemoveAll(result, Fence), Fence);
    }
  }

  /** Text without backticks holds no occurrence of a pattern that starts with one. */
  lemma NoTickNoMatch(s: string, p: string)
    requires '`' !in s && p != [] && p[0] == '`'
    ensures forall i :: 0 <= i < |s| ==> !StartsWith(s[i..], p)
  {
    forall i | 0 <= i < |s| ensures !StartsWith(s[i..], p) {
      assert s[i..][0] == s[i];
    }
  }

  /** Round trip: a body without backticks, fenced as ```` ```json ```` … ```` ``` ```` on lines
      of their own, comes back stripped. */
  lemma {:induction false} FencedJsonBody(body: string)
    requires '`' !in body
    ensures StripFences("```json" + "\n" + body + "\n" + Fence) == Strip("\n" + body + "\n")
  {
    var inner := "\n" + body + "\n";
    var t := "```json" + inner + Fence;
    assert "```json" + "\n" + body + "\n" + Fence == t;
    assert t[..7] == "```json";
    assert t[7..] == inner + Fence;
    assert '`' !in inner;
    NoTickNoMatch(inner, "```json");
    NoTickNoMatch(inner, Fence);
    calc {
      RemoveAll(t, "```json");
      RemoveAll(inner + Fence, "```json");
      { RemoveAllKeepsPrefix(inner, Fence, "```json"); }
      inner + RemoveAll(Fence, "```json");
      inner + Fence;
    }
    calc {
      RemoveAll(inner + Fence, Fence);
      { RemoveAllKeepsPrefix(inner, Fence, Fence); }
      inner + RemoveAll(Fence, Fence);
      { assert RemoveAll(Fence, Fence) == []; }
      inner + [];
      inner;
    }
  }

  /** The record returned on a decode error. */
  function ParseFailure(message: string): Relevancy {
    Relevancy(JFloat(50.0), JStr("Failed to parse relevancy analysis: " + message), JFloat(0.0))
  }

  /** The record returned on any other exception. */
  function CallFailure(message: string): Relevancy {
    Relevancy(JFloat(50.0), JStr("Error calculating relevancy: " + message), JFloat(0.0))
  }

  /** The record returned without a business context. */
  const NoContext: Relevancy := Relevancy(JFloat(50.0), JStr("No domain context provided"), JFloat(0.0))

  /** `calculate_relevancy_score(…, domain_context, …)`, with the model's reply (or the text of
      the exception the call raised) and `json.loads` as parameters. Score and confidence are
      always numbers within their ranges. */
  function CalculateRelevancyScore(context: string, reply: Result<string, string>, parse: string -> Result<Json, string>)
    : (r: Relevancy)
    ensures NumberIn(r.score, 0.0, 100.0)
    ensures NumberIn(r.confidence, 0.0, 1.0)
  {
    if IsBlank(context) then NoContext
    else match reply
      case Failure(e) => CallFailure(e)
      case Success(content) =>
        var result := StripFences(Strip(content));
        match parse(result)
        case Failure(e) => ParseFailure(e)
        case Success(parsed) =>
          if !parsed.JObject? then CallFailure("'" + TypeName(parsed) + "' object has no attribute 'get'")
          else
            var m := parsed.fields;
            var score := Clamp(0, 100, NumberOr(GetOr(m, "relevancy_score", JInt(50)), 50.0));
            var explanation := GetOr(m, "relevancy_explanation", JStr("No explanation provided"));
            var confidence := Clamp(0, 1, NumberOr(GetOr(m, "relevancy_confidence", JFloat(0.5)), 0.5));
            match SliceError(explanation)
            case Some(e) => CallFailure(e)
            case None => Relevancy(score, explanation, confidence)
  }

  /** A blank context short-circuits: the reply is never looked at. */
  lemma BlankContextIgnoresReply(context: string, reply: Result<string, string>, parse: string -> Result<Json, string>)
    requires forall k :: 0 <= k < |context| ==> IsSpace(context[k])
    ensures CalculateRelevancyScore(context, reply, parse) == NoContext
  {
    BlankIffAllSpace(context);
  }

  /** The dictionary the model returned, once its reply is cleaned and parsed. */
  predicate RepliedWith(reply: Result<string, string>, parse: string -> Result<Json, string>, m: map<string, Json>) {
    reply.Success? && parse(StripFences(Strip(reply.value))) == Success(JObject(m))
  }

  /** With an explanation that slices (text or a list), numeric fields inside their ranges
      pass through with their value; missing or non-numeric ones become 50 and 0.5; the
      explanation is returned as given, and a missing one gets its default text. */
  lemma ParsedFields(context: string, reply: Result<string, string>, parse: string -> Result<Json, string>, m: map<string, Json>)
    requires !IsBlank(context) && RepliedWith(reply, parse, m)
    requires "relevancy_explanation" in m ==> SliceError(m["relevancy_explanation"]).None?
    ensures var r := CalculateRelevancyScore(context, reply, parse);
      && r.explanation == GetOr(m, "relevancy_explanation", JStr("No explanation provided"))
      && ("relevancy_score" in m && NumberIn(m["relevancy_score"], 0.0, 100.0) ==> AsNumber(r.score) == AsNumber(m["relevancy_score"]))
      && ("relevancy_score" !in m || AsNumber(m["relevancy_score"]).None? ==> r.score == JFloat(50.0))
      && ("relevancy_confidence" in m && NumberIn(m["relevancy_confidence"], 0.0, 1.0) ==> AsNumber(r.confidence) == AsNumber(m["relevancy_confidence"]))
      && ("relevancy_confidence" !in m || AsNumber(m["relevancy_confidence"]).None? ==> r.confidence == JFloat(0.5))
  {
  }

  /** An explanation that is not text or a list makes the log line raise, and the whole
      result becomes a failure record. */
  lemma UnsliceableExplanation(context: string, reply: Result<string, string>, parse: string -> Result<Json, string>, m: map<string, Json>)
    requires !IsBlank(context) && RepliedWith(reply, parse, m)
    requires "relevancy_explanation" in m && SliceError(m["relevancy_explanation"]).Some?
    ensures CalculateRelevancyScore(context, reply, parse) == CallFailure(SliceError(m["relevancy_explanation"]).value)
  {
  }

  /** A reply that does not decode gives score 50.0, confidence 0.0 and the decoder's message. */
  lemma DecodeFailure(context: string, content: string, parse: string -> Result<Json, string>)
    requires !IsBlank(context) && parse(StripFences(Strip(content))).Failure?
    ensures CalculateRelevancyScore(context, Success(content), parse) == ParseFailure(parse(StripFences(Strip(content))).error)
  {
  }

  /** A call that raised gives score 50.0, confidence 0.0 and "Error calculating relevancy: "
      followed by the exception's text. */
  lemma CallFailed(context: string, e: string, parse: string -> Result<Json, string>)
    requires !IsBlank(context)
    ensures CalculateRelevancyScore(context, Failure(e), parse) == CallFailure(e)
  {
  }

  /** A reply that decodes to something other than a dictionary makes `parsed.get` raise: the
      failure record carries the `AttributeError`'s text. */
  lemma NonObjectReply(context: string, content: string, parse: string -> Result<Json, string>)
    requires !IsBlank(context)
    requires parse(StripFences(Strip(content))).Success? && !parse(StripFences(Strip(content))).value.JObject?
    ensures var v := parse(StripFences(Strip(content))).value;
      CalculateRelevancyScore(context, Success(content), parse) == CallFailure("'" + TypeName(v) + "' object has no attribute 'get'")
  {
  }

  /** Every failure record is score 50.0 and confidence 0.0; a decode error is explained by
      "Failed to parse relevancy analysis: ", every other failure by "Error calculating
      relevancy: ". */
  lemma FailuresArePrefixed(context: string, reply: Result<string, string>, parse: string -> Result<Json, string>)
    requires !IsBlank(context)
    ensures var r := CalculateRelevancyScore(context, reply, parse);
      var decodeFailed := reply.Success? && parse(StripFences(Strip(reply.value))).Failure?;
      var ok := reply.Success? && parse(StripFences(Strip(reply.value))).Success?
        && parse(StripFences(Strip(reply.value))).value.JObject?
        && SliceError(GetOr(parse(StripFences(Strip(reply.value))).value.fields, "relevancy_explanation", JStr("No explanation provided"))).None?;
      && (!ok ==> r.score == JFloat(50.0) && r.confidence == JFloat(0.0) && r.explanation.JStr?)
      && (decodeFailed ==> StartsWith(r.explanation.s, "Failed to parse relevancy analysis: "))
      && (!ok && !decodeFailed ==> StartsWith(r.explanation.s, "Error calculating relevancy: "))
  {
    PrefixStarts("Failed to parse relevancy analysis: ");
    PrefixStarts("Error calculating relevancy: ");
  }

  lemma PrefixStarts(p: string)
    ensures forall e :: StartsWith(p + e, p)
  {
    forall e ensures StartsWith(p + e, p) {
      assert (p + e)[..|p|] == p;
    }
  }
}
