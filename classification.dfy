/**
 * How both endpoints turn the value `classify_intent` returns into an `EmailClassification`:
 * accepted only when it is a dictionary holding "intent" and the schema validates it,
 * otherwise replaced by an "unknown" classification whose notes differ per endpoint.
 */
module Classification {
  import opened Wrappers
  import opened Json
  import opened Schemas
  import opened IntentClassifier

  /** One entry of a pydantic `ValidationError`: a required field that is absent, or a field
      whose value the model refuses. */
  datatype FieldError = Missing(field: string) | Refused(field: string, value: Json)

  /** Why a classification was rejected. */
  datatype ClassifyError =
    | InvalidFormat                       // the `ValueError` raised for a non-dict or "intent"-less value
    | MissingKey(key: string)             // the `KeyError` of `classification[key]`
    | NotMapping(value: Json)             // the `TypeError` of `BusinessValue(**value)`
    | Rejected(model: string, errors: seq<FieldError>)  // a pydantic `ValidationError`: every failing field, in declaration order

  /** The entries a field contributes to a `ValidationError`: none when it validates. */
  function ErrorsOf<T>(r: Result<T, FieldError>): (e: seq<FieldError>)
    ensures e == [] <==> r.Success?
    ensures r.Failure? ==> e == [r.error]
  {
    if r.Success? then [] else [r.error]
  }

  /** The entry for a field that is refused: `Missing` when absent, `Refused` otherwise. */
  function Refusal(field: string, fields: map<string, Json>): FieldError {
    if field in fields then Refused(field, fields[field]) else Missing(field)
  }

  /** A float field: a JSON number (or a `bool`, which Python counts as an `int`). */
  function FloatField(field: string, j: Json): (r: Result<real, FieldError>)
    ensures r.Success? <==> AsNumber(j).Some?
    ensures r.Success? ==> r.value == AsNumber(j).value
    ensures r.Failure? ==> r.error == Refused(field, j)
  {
    match AsNumber(j)
    case Some(x) => Success(x)
    case None => Failure(Refused(field, j))
  }

  /** A required float field with `ge=0.0, le=1.0`. */
  function ConfidenceField(field: string, fields: map<string, Json>): (r: Result<real, FieldError>)
    ensures r.Success? <==> field in fields && AsNumber(fields[field]).Some? && 0.0 <= AsNumber(fields[field]).value <= 1.0
    ensures r.Success? ==> r.value == AsNumber(fields[field]).value
    ensures r.Failure? ==> r.error == Refusal(field, fields)
  {
    if field !in fields then Failure(Missing(field))
    else
      var x :- FloatField(field, fields[field]);
      if 0.0 <= x <= 1.0 then Success(x) else Failure(Refused(field, fields[field]))
  }

  /** A required `bool` field. */
  function BoolField(field: string, fields: map<string, Json>): (r: Result<bool, FieldError>)
    ensures r.Success? <==> field in fields && fields[field].JBool?
    ensures r.Success? ==> r.value == fields[field].b
    ensures r.Failure? ==> r.error == Refusal(field, fields)
  {
    if field in fields && fields[field].JBool? then Success(fields[field].b) else Failure(Refusal(field, fields))
  }

  /** A required `str` field. */
  function TextField(field: string, fields: map<string, Json>): (r: Result<string, FieldError>)
    ensures r.Success? <==> field in fields && fields[field].JStr?
    ensures r.Success? ==> r.value == fields[field].s
    ensures r.Failure? ==> r.error == Refusal(field, fields)
  {
    if field in fields && fields[field].JStr? then Success(fields[field].s) else Failure(Refusal(field, fields))
  }

  /** An `Optional[str]` field read with `.get`: missing or `null` is `None`. */
  function OptionalText(field: string, j: Json): (r: Result<Option<string>, FieldError>)
    ensures r.Success? <==> (j.JNull? || j.JStr?)
    ensures r.Success? ==> r.value == (if j.JStr? then Some(j.s) else None)
    ensures r.Failure? ==> r.error == Refused(field, j)
  {
    match j
    case JNull => Success(None)
    case JStr(s) => Success(Some(s))
    case _ => Failure(Refused(field, j))
  }

  /** What `BusinessValue(**fields)` reports: the failing fields among "relevant", "category"
      and "confidence", in that order. */
  function BusinessValueErrors(fields: map<string, Json>): seq<FieldError> {
    ErrorsOf(BoolField("relevant", fields))
      + ErrorsOf(OptionalText("category", GetOr(fields, "category", JNull)))
      + ErrorsOf(ConfidenceField("confidence", fields))
  }

  /** What `EmailClassification(…)` reports once its business value is built: the failing
      fields among "intent", "intent_confidence" and "notes", in declaration order. */
  function ClassificationErrors(m: map<string, Json>): seq<FieldError> {
    ErrorsOf(TextField("intent", m))
      + ErrorsOf(ConfidenceField("intent_confidence", m))
      + ErrorsOf(OptionalText("notes", GetOr(m, "notes", JNull)))
  }

  /** A field is listed in a `BusinessValue` rejection exactly when it fails on its own, so one
      failing field never hides another. */
  lemma BusinessValueErrorsExact(fields: map<string, Json>)
    ensures Refusal("relevant", fields) in BusinessValueErrors(fields) <==> BoolField("relevant", fields).Failure?
    ensures Refused("category", GetOr(fields, "category", JNull)) in BusinessValueErrors(fields)
      <==> OptionalText("category", GetOr(fields, "category", JNull)).Failure?
    ensures Refusal("confidence", fields) in BusinessValueErrors(fields) <==> ConfidenceField("confidence", fields).Failure?
    ensures |BusinessValueErrors(fields)| <= 3
  {
  }

  /** Likewise for the fields of an `EmailClassification` rejection. */
  lemma ClassificationErrorsExact(m: map<string, Json>)
    ensures Refusal("intent", m) in ClassificationErrors(m) <==> TextField("intent", m).Failure?
    ensures Refusal("intent_confidence", m) in ClassificationErrors(m) <==> ConfidenceField("intent_confidence", m).Failure?
    ensures Refused("notes", GetOr(m, "notes", JNull)) in ClassificationErrors(m)
      <==> OptionalText("notes", GetOr(m, "notes", JNull)).Failure?
    ensures |ClassificationErrors(m)| <= 3
  {
  }

  /** Two refused fields are both reported; with one of them repaired only the other is. */
  lemma BothRefusalsReported()
    ensures ToBusinessValue(map["relevant" := JStr("x"), "confidence" := JInt(5)])
      == Failure(Rejected("BusinessValue", [Refused("relevant", JStr("x")), Refused("confidence", JInt(5))]))
    ensures ToBusinessValue(map["relevant" := JStr("x"), "confidence" := JFloat(0.5)])
      == Failure(Rejected("BusinessValue", [Refused("relevant", JStr("x"))]))
  {
    var a := map["relevant" := JStr("x"), "confidence" := JInt(5)];
    assert "category" !in a && GetOr(a, "category", JNull) == JNull;
    assert BoolField("relevant", a) == Failure(Refused("relevant", JStr("x")));
    assert ConfidenceField("confidence", a) == Failure(Refused("confidence", JInt(5)));
    assert BusinessValueErrors(a) == [Refused("relevant", JStr("x")), Refused("confidence", JInt(5))];
    var b := map["relevant" := JStr("x"), "confidence" := JFloat(0.5)];
    assert "category" !in b && GetOr(b, "category", JNull) == JNull;
    assert BoolField("relevant", b) == Failure(Refused("relevant", JStr("x")));
    assert ConfidenceField("confidence", b).Success?;
    assert BusinessValueErrors(b) == [Refused("relevant", JStr("x"))];
  }

  /** `BusinessValue(**fields)`: "relevant" a `bool`, "category" optional text, "confidence" a
      number in [0, 1]; other keys are ignored. A rejection lists every failing field. */
  function ToBusinessValue(fields: map<string, Json>): (r: Result<BusinessValue, ClassifyError>)
    ensures r.Failure? <==> BusinessValueErrors(fields) != []
    ensures r.Failure? ==> r.error == Rejected("BusinessValue", BusinessValueErrors(fields))
    ensures r.Success? ==> "relevant" in fields && fields["relevant"] == JBool(r.value.relevant)
    ensures r.Success? ==> "confidence" in fields && AsNumber(fields["confidence"]) == Some(r.value.confidence as real)
    ensures r.Success? ==> OptionalText("category", GetOr(fields, "category", JNull)) == Success(r.value.category)
  {
    var errors := BusinessValueErrors(fields);
    if errors != [] then Failure(Rejected("BusinessValue", errors))
    else
      var relevant := BoolField("relevant", fields);
      var category := OptionalText("category", GetOr(fields, "category", JNull));
      var confidence := ConfidenceField("confidence", fields);
      assert relevant.Success? && category.Success? && confidence.Success?;
      Success(MakeBusinessValue(relevant.value, category.value, confidence.value).value)
  }

  /** The validation both endpoints apply, failing where the first exception would be raised:
      the format check, then `classification["intent_confidence"]`, then
      `classification["business_value"]` and its `**`, then the two models' validation, each
      rejecting with all of its failing fields. */
  function ToClassification(c: Json): (r: Result<EmailClassification, ClassifyError>)
    ensures !c.JObject? || "intent" !in c.fields ==> r == Failure(InvalidFormat)
    ensures r.Failure? && r.error.Rejected? && r.error.model == "EmailClassification" ==>
      c.JObject? && r.error.errors == ClassificationErrors(c.fields) && r.error.errors != []
    ensures r.Failure? && r.error.Rejected? && r.error.model != "EmailClassification" ==>
      c.JObject? && "business_value" in c.fields && c.fields["business_value"].JObject?
      && ToBusinessValue(c.fields["business_value"].fields) == Failure(r.error)
    ensures r.Success? ==> c.JObject? && c.fields.Keys >= {"intent", "intent_confidence", "business_value"}
    ensures r.Success? ==> c.fields["intent"] == JStr(r.value.intent)
    ensures r.Success? ==> AsNumber(c.fields["intent_confidence"]) == Some(r.value.intentConfidence as real)
    ensures r.Success? ==>
      (c.fields["business_value"].JObject? && ToBusinessValue(c.fields["business_value"].fields) == Success(r.value.businessValue))
    ensures r.Success? ==> OptionalText("notes", GetOr(c.fields, "notes", JNull)) == Success(r.value.notes)
  {
    if !c.JObject? || "intent" !in c.fields then Failure(InvalidFormat)
    else
      var m := c.fields;
      if "intent_confidence" !in m then Failure(MissingKey("intent_confidence"))
      else if "business_value" !in m then Failure(MissingKey("business_value"))
      else if !m["business_value"].JObject? then Failure(NotMapping(m["business_value"]))
      else
        var business :- ToBusinessValue(m["business_value"].fields);
        var errors := ClassificationErrors(m);
        if errors != [] then Failure(Rejected("EmailClassification", errors))
        else
          var intent := TextField("intent", m);
          var confidence := ConfidenceField("intent_confidence", m);
          var notes := OptionalText("notes", GetOr(m, "notes", JNull));
          assert intent.Success? && confidence.Success? && notes.Success?;
          Success(MakeEmailClassification(intent.value, confidence.value, business, notes.value).value)
  }

  /** A classification that reproduces its fields exactly is accepted: the converse of
      `ToClassification`'s postconditions. */
  lemma AcceptsWellFormed(c: EmailClassification, extra: map<string, Json>)
    requires extra.Keys !! {"intent", "intent_confidence", "business_value", "notes"}
    ensures var bv := JObject(map[
        "relevant" := JBool(c.businessValue.relevant),
        "category" := (if c.businessValue.category.Some? then JStr(c.businessValue.category.value) else JNull),
        "confidence" := JFloat(c.businessValue.confidence)]);
      var j := JObject(extra + map[
        "intent" := JStr(c.intent),
        "intent_confidence" := JFloat(c.intentConfidence),
        "business_value" := bv,
        "notes" := (if c.notes.Some? then JStr(c.notes.value) else JNull)]);
      ToClassification(j) == Success(c)
  {
  }

  /** The classification both endpoints substitute on failure. */
  function UnknownClassification(notes: string): (r: EmailClassification)
    ensures r.intent == "unknown" && r.intentConfidence == 0.0 && r.notes == Some(notes)
    ensures r.businessValue == BusinessValue(false, Some("unknown"), 0.0)
  {
    EmailClassification("unknown", 0.0, BusinessValue(false, Some("unknown"), 0.0), Some(notes))
  }

  /** Both fallback records of `classify_intent` satisfy the schema, confidences included. */
  lemma IntentFallbackValidates(notes: string)
    ensures ToClassification(IntentFallback(notes)) == Success(UnknownClassification(notes))
  {
    var bv := map["relevant" := JBool(false), "category" := JStr("unknown"), "confidence" := JFloat(0.0)];
    assert ToBusinessValue(bv) == Success(BusinessValue(false, Some("unknown"), 0.0));
  }

  /** The classification produced in `trigger_auto_processing`. */
  function FetchClassification(c: Json): (r: EmailClassification)
    ensures ToClassification(c).Success? ==> r == ToClassification(c).value
    ensures ToClassification(c).Failure? ==> r.intent == "unknown" && r.notes == Some("Classification failed.")
    ensures r.intent == "unknown" || (c.JObject? && "intent" in c.fields && c.fields["intent"] == JStr(r.intent))
  {
    match ToClassification(c)
    case Success(v) => v
    case Failure(_) => UnknownClassification("Classification failed.")
  }

  /** `str(error)` for the errors whose text the code fixes; the texts of the `TypeError` and
      of pydantic's errors are the parameter `describe`. */
  function ErrorText(e: ClassifyError, describe: ClassifyError -> string): string {
    match e
    case InvalidFormat => "Invalid classification format"
    case MissingKey(k) => "'" + k + "'"
    case _ => describe(e)
  }

  /** The classification produced in `orchestrate`. */
  function OrchestrateClassification(c: Json, describe: ClassifyError -> string): (r: EmailClassification)
    ensures ToClassification(c).Success? ==> r == ToClassification(c).value
    ensures ToClassification(c).Failure? ==>
      r.intent == "unknown" && r.notes == Some("Classification failed: " + ErrorText(ToClassification(c).error, describe))
    ensures r.intent == "unknown" || (c.JObject? && "intent" in c.fields && c.fields["intent"] == JStr(r.intent))
  {
    match ToClassification(c)
    case Success(v) => v
    case Failure(e) => UnknownClassification("Classification failed: " + ErrorText(e, describe))
  }

  /** An accepted classification is kept as validated by both endpoints. */
  lemma AcceptedIsKept(c: Json, describe: ClassifyError -> string)
    requires ToClassification(c).Success?
    ensures FetchClassification(c) == ToClassification(c).value
    ensures OrchestrateClassification(c, describe) == ToClassification(c).value
  {
  }

  /** Any rejection gives the fixed fallback in `trigger_auto_processing`, and the fallback
      carrying the error's text in `orchestrate`; for a validation error that text is
      `describe` of the whole rejection, every failing field included. */
  lemma RejectedFallbacks(c: Json, describe: ClassifyError -> string)
    requires ToClassification(c).Failure?
    ensures FetchClassification(c) == UnknownClassification("Classification failed.")
    ensures OrchestrateClassification(c, describe)
      == UnknownClassification("Classification failed: " + ErrorText(ToClassification(c).error, describe))
    ensures ToClassification(c).error.Rejected? ==>
      && ToClassification(c).error.errors != []
      && OrchestrateClassification(c, describe).notes == Some("Classification failed: " + describe(ToClassification(c).error))
  {
  }

  /** A non-dict or "intent"-less value becomes the "unknown" classification in both endpoints. */
  lemma InvalidFormatFallbacks(c: Json, describe: ClassifyError -> string)
    requires !c.JObject? || "intent" !in c.fields
    ensures FetchClassification(c) == UnknownClassification("Classification failed.")
    ensures OrchestrateClassification(c, describe) == UnknownClassification("Classification failed: " + "Invalid classification format")
  {
  }

  /** A reply that does not parse is not turned into "Classification failed": the intent
      classifier's own fallback validates, so its notes and "unknown" intent come through. */
  lemma ParseFailureKeepsClassifierNotes(content: string, parse: string -> Result<Json, string>, describe: ClassifyError -> string)
    requires parse(CleanFence(Text.Strip(content))).Failure?
    ensures var notes := "Failed to parse JSON: " + parse(CleanFence(Text.Strip(content))).error;
      && FetchClassification(ClassifyIntent(Success(content), parse)) == UnknownClassification(notes)
      && OrchestrateClassification(ClassifyIntent(Success(content), parse), describe) == UnknownClassification(notes)
  {
    ClassifyParsed(content, parse);
    IntentFallbackValidates("Failed to parse JSON: " + parse(CleanFence(Text.Strip(content))).error);
  }

  /** Likewise for a call that raised. */
  lemma CallFailureKeepsClassifierNotes(e: string, parse: string -> Result<Json, string>, describe: ClassifyError -> string)
    ensures FetchClassification(ClassifyIntent(Failure(e), parse)) == UnknownClassification("Exception occurred: " + e)
    ensures OrchestrateClassification(ClassifyIntent(Failure(e), parse), describe) == UnknownClassification("Exception occurred: " + e)
  {
    IntentFallbackValidates("Exception occurred: " + e);
  }
}
