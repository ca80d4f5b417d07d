/**
 * `trigger_auto_processing` and `fetch_and_process_emails`: every message is enriched with
 * the company details, the research report, the intent classification and a recomputed
 * credibility score; a message whose processing raises is skipped. The batch is empty for
 * a blank token, and the endpoint maps exception texts to HTTP status codes.
 */
module Fetch {
  import opened Wrappers
  import opened Text
  import opened Json
  import opened RawMail
  import opened Schemas
  import opened Extract
  import opened IntentClassifier
  import opened CompanyDetails
  import opened Classification
  import opened External
  import opened Batch

  /** The year the code takes as the current one. */
  const CurrentYear: int := 2024

  /** One element of the `credibility_analysis` list: the merged dictionary of lines 128-173,
      one field per key. Values read from the company details stay JSON. */
  datatype EnrichedRecord = EnrichedRecord(
    companyName: Json,
    industry: Json,
    companySize: Json,
    founded: Json,
    marketCap: Json,
    revenue: Json,
    fundingStatus: Json,
    investors: Json,
    domainAge: Json,
    sslCertificate: Json,
    businessVerified: Json,
    employeeCount: Json,
    emailIntent: string,
    contactQuality: string,
    senderDomain: string,
    sender: string,
    credibilityScore: Json,
    businessRelevant: bool,
    intentConfidence: Confidence,
    businessValueConfidence: Confidence,
    sentimentScore: Json,
    certified: Json,
    fundedByTopInvestors: Json,
    headquarters: Json,
    website: Json,
    keyProducts: Json,
    competitors: Json,
    businessModel: Json,
    reputationScore: Json,
    companyGist: Json,
    scoreBreakdown: map<string, real>,
    companyAgeYears: Json,
    notes: string)

  /** `2024 - x`: defined for numbers (a `bool` counts as an `int`), a `TypeError` otherwise. */
  function YearMinus(x: Json): (r: Option<Json>)
    ensures r.Some? <==> AsNumber(x).Some?
    ensures r.Some? ==> AsNumber(r.value) == Some(CurrentYear as real - AsNumber(x).value)
    ensures r.Some? ==> (IsInt(x) <==> r.value.JInt?)
  {
    match x
    case JInt(i) => Some(JInt(CurrentYear - i))
    case JBool(b) => Some(JInt(CurrentYear - (if b then 1 else 0)))
    case JFloat(f) => Some(JFloat(CurrentYear as real - f))
    case _ => None
  }

  /** `age_years` (lines 99-101): the age since a truthy integer founding year, otherwise the
      raw metric, 5 when that is missing too. */
  function AgeYears(foundedYear: Json, raw: map<string, Json>): (r: Json)
    ensures Truthy(foundedYear) && IsInt(foundedYear) ==> r == JInt(CurrentYear - IntValue(foundedYear))
    ensures !(Truthy(foundedYear) && IsInt(foundedYear)) ==> r == GetOr(raw, "age_years", JInt(5))
  {
    if Truthy(foundedYear) && IsInt(foundedYear) then JInt(CurrentYear - IntValue(foundedYear))
    else GetOr(raw, "age_years", JInt(5))
  }

  /** A founding year that is missing, zero, or not an integer (a year given as text, say)
      never yields an age computed from it. */
  lemma AgeIgnoresNonYears(raw: map<string, Json>, y: Json)
    requires (!y.JInt? && !y.JBool?) || y == JInt(0) || y == JBool(false)
    ensures AgeYears(y, raw) == GetOr(raw, "age_years", JInt(5))
  {
  }

  /** `len(details.get("investors", [])) > 0 or raw_metrics.get("funded_by_top_investors", False)`:
      `None` where `len` raises. Python's `or` yields `True` or the raw flag itself. */
  function Funded(d: map<string, Json>, raw: map<string, Json>): (r: Option<Json>)
    ensures r.Some? <==> Len(GetOr(d, "investors", JArray([]))).Some?
    ensures r.Some? ==>
      (Truthy(r.value) <==> Len(GetOr(d, "investors", JArray([]))).value > 0 || Truthy(GetOr(raw, "funded_by_top_investors", JBool(false))))
  {
    var n :- Len(GetOr(d, "investors", JArray([])));
    if n > 0 then Some(JBool(true)) else Some(GetOr(raw, "funded_by_top_investors", JBool(false)))
  }

  /** `enhanced_credibility_params` (lines 104-112): each value from the details, falling back
      to the raw metric and then to a constant. */
  function CredibilityParamsFor(d: map<string, Json>, raw: map<string, Json>): (r: Option<CredibilityParams>)
    ensures r.Some? <==> Funded(d, raw).Some?
    ensures r.Some? ==> r.value.fundedByTopInvestors == Funded(d, raw).value
    ensures r.Some? ==> r.value.ageYears == AgeYears(GetOr(d, "founded", GetOr(raw, "founded_year", JNull)), raw)
    ensures r.Some? ==> r.value.employees == GetOr(d, "employee_count", GetOr(raw, "employee_count", JInt(100)))
  {
    var funded :- Funded(d, raw);
    Some(CredibilityParams(
      AgeYears(GetOr(d, "founded", GetOr(raw, "founded_year", JNull)), raw),
      GetOr(d, "market_cap", GetOr(raw, "market_cap", JInt(0))),
      GetOr(d, "employee_count", GetOr(raw, "employee_count", JInt(100))),
      GetOr(d, "domain_age", GetOr(raw, "domain_age", JInt(5))),
      GetOr(d, "sentiment_score", GetOr(raw, "sentiment_score", JFloat(0.5))),
      GetOr(d, "business_verified", GetOr(raw, "certified", JBool(false))),
      funded))
  }

  /** Lines 95-113: with non-empty details the score and breakdown are recomputed, and the
      report's values are kept otherwise. `None` where the recomputation raises. */
  function Rescore(d: map<string, Json>, raw: map<string, Json>, score: real, breakdown: map<string, real>,
                   credibility: CredibilityParams -> Result<(real, map<string, real>), string>)
    : (r: Option<(real, map<string, real>)>)
    ensures d == map[] ==> r == Some((score, breakdown))
    ensures d != map[] ==> r == (match CredibilityParamsFor(d, raw)
                                 case None => None
                                 case Some(p) => credibility(p).ToOption())
  {
    if d == map[] then Some((score, breakdown))
    else
      var params :- CredibilityParamsFor(d, raw);
      credibility(params).ToOption()
  }

  /** `contact_quality` (line 120). */
  function ContactQuality(score: real): (q: string)
    ensures q == "High" <==> score > 70.0
    ensures q == "Medium" <==> 40.0 < score <= 70.0
    ensures q == "Low" <==> score <= 40.0
  {
    if score > 70.0 then "High" else if score > 40.0 then "Medium" else "Low"
  }

  function QualityRank(q: string): int {
    if q == "High" then 2 else if q == "Medium" then 1 else 0
  }

  /** A higher score never gives a lower contact quality. */
  lemma QualityMonotone(a: real, b: real)
    requires a <= b
    ensures QualityRank(ContactQuality(a)) <= QualityRank(ContactQuality(b))
  {
  }

  /** `sender_domain` (line 123): the text after the last `@` up to the first `>` after it,
      or "Unknown" when there is no `@`. */
  function SenderDomain(sender: string): (r: string)
    ensures '@' !in sender ==> r == "Unknown"
    ensures '@' in sender ==>
      var rest := AfterLast(sender, '@');
      && EndsWith(sender, rest) && '@' !in rest && sender[|sender| - |rest| - 1] == '@'
      && StartsWith(rest, r) && '>' !in r && (r == rest || rest[|r|] == '>')
  {
    if '@' in sender then BeforeFirst(AfterLast(sender, '@'), '>') else "Unknown"
  }

  /** For a display-name sender the domain is the text between the `@` and the `>`. */
  lemma SenderDomainOfAddress(name: string, local: string, domain: string)
    requires '@' !in domain && '>' !in domain
    ensures SenderDomain(name + " <" + (local + "@" + domain) + ">") == domain
  {
    var s := name + " <" + (local + "@" + domain) + ">";
    var tail := domain + ">";
    assert s == (name + " <" + local + "@") + tail;
    assert s[|s| - |tail| - 1] == '@';
    assert '@' in s;
    var rest := AfterLast(s, '@');
    assert rest == tail;
    assert rest[|domain|] == '>';
  }

  /** `classification_model.notes or "No additional notes"`. */
  function NotesOrDefault(notes: Option<string>): (r: string)
    ensures r != []
    ensures notes.Some? && notes.value != [] ==> r == notes.value
  {
    if notes.Some? && notes.value != [] then notes.value else "No additional notes"
  }

  /** The company details of one message, as returned by `get_comprehensive_details`. */
  function DetailsFor(e: RawEmail, svc: Services): (j: Json)
    ensures svc.detailsModel(CompanyName(Sender(e))).Failure? ==> j == JObject(FallbackData(CompanyName(Sender(e))))
  {
    var name := CompanyName(Sender(e));
    GetComprehensiveDetails(name, svc.detailsModel(name), svc.parse)
  }

  /** The classification of one message (lines 59-87). */
  function ClassificationFor(e: RawEmail, svc: Services): (c: EmailClassification)
    ensures svc.intentModel(ClassificationText(e)).Failure? ==>
      c == UnknownClassification("Exception occurred: " + svc.intentModel(ClassificationText(e)).error)
  {
    var reply := svc.intentModel(ClassificationText(e));
    if reply.Failure? then
      CallFailureKeepsClassifierNotes(reply.error, svc.parse, svc.describe);
      FetchClassification(ClassifyIntent(reply, svc.parse))
    else FetchClassification(ClassifyIntent(reply, svc.parse))
  }

  /** What lines 89-117 and the eager defaults of lines 169-171 compute before the record is
      assembled: the details dictionary, the report's raw metrics, the (recomputed) score and
      breakdown, the founding year of line 117 and `2024 - details.get("founded", 2020)`. */
  datatype Derived = Derived(
    d: map<string, Json>,
    raw: map<string, Json>,
    score: real,
    breakdown: map<string, real>,
    foundedYear: Json,
    ageFromFounded: Json)

  /** The report's raw metrics, `{}` without a credibility. */
  function RawMetrics(report: ResearchReport): map<string, Json> {
    if report.credibility.Some? then report.credibility.value.rawMetrics else map[]
  }

  /** Lines 89-117 for one message: `None` where they raise. The details must be a dictionary
      (`.get` is called on them), the recomputation must not raise, and the eagerly evaluated
      defaults `2024 - raw_metrics.get("age_years", 0)` (line 117) and
      `2024 - details.get("founded", 2020)` (line 171) must be numbers. */
  function Derive(details: Json, report: ResearchReport,
                  credibility: CredibilityParams -> Result<(real, map<string, real>), string>)
    : (r: Option<Derived>)
    ensures r.Some? ==> details.JObject? && r.value.d == details.fields && r.value.raw == RawMetrics(report)
    ensures r.Some? ==> AsNumber(GetOr(details.fields, "founded", JInt(2020))).Some?
    ensures r.Some? ==> AsNumber(GetOr(RawMetrics(report), "age_years", JInt(0))).Some?
    ensures r.Some? && details.fields == map[] && report.credibility.Some? ==>
      r.value.score == report.credibility.value.score && r.value.breakdown == report.credibility.value.scoreBreakdown
    ensures r.Some? && details.fields == map[] && report.credibility.None? ==> r.value.score == 0.0 && r.value.breakdown == map[]
  {
    if !details.JObject? then None
    else
      var d := details.fields;
      var cred := report.credibility;
      var raw := RawMetrics(report);
      var score := if cred.Some? then cred.value.score else 0.0;
      var breakdown := if cred.Some? then cred.value.scoreBreakdown else map[];
      var scored :- Rescore(d, raw, score, breakdown, credibility);
      var yearFromAge :- YearMinus(GetOr(raw, "age_years", JInt(0)));
      var ageFromFounded :- YearMinus(GetOr(d, "founded", JInt(2020)));
      Some(Derived(d, raw, scored.0, scored.1, GetOr(d, "founded", GetOr(raw, "founded_year", yearFromAge)), ageFromFounded))
  }

  /** The value written under "credibility_score" (line 152): the report's or the recomputed
      score, a float, except that the `0` of line 90 stays an `int` when the report has no
      credibility and the details are empty, so nothing is recomputed. */
  function ScoreJson(report: ResearchReport, x: Derived): (j: Json)
    ensures j.JInt? <==> report.credibility.None? && x.d == map[]
    ensures j.JInt? ==> j.i == 0
    ensures j.JFloat? ==> j.f == x.score
  {
    if report.credibility.None? && x.d == map[] then JInt(0) else JFloat(x.score)
  }

  /** Read back as a number, the value written is the score contact quality is graded on. */
  lemma ScoreReadsBack(details: Json, report: ResearchReport,
                       credibility: CredibilityParams -> Result<(real, map<string, real>), string>, x: Derived)
    requires Derive(details, report, credibility) == Some(x)
    ensures AsNumber(ScoreJson(report, x)) == Some(x.score)
  {
  }

  /** The dictionary appended at lines 128-173. */
  function Assemble(sender: string, name: string, report: ResearchReport, x: Derived, c: EmailClassification)
    : (r: EnrichedRecord)
    ensures r.sender == sender && r.senderDomain == SenderDomain(sender)
    ensures r.credibilityScore == ScoreJson(report, x) && r.contactQuality == ContactQuality(x.score)
    ensures r.emailIntent == c.intent && r.intentConfidence == c.intentConfidence
    ensures r.businessRelevant == c.businessValue.relevant && r.businessValueConfidence == c.businessValue.confidence
    ensures r.notes == NotesOrDefault(c.notes)
  {
    var d := x.d;
    var raw := x.raw;
    var profileDescription := report.companyProfile.description;
    EnrichedRecord(
      GetOr(d, "company_name", JStr(name)),
      GetOr(d, "industry", JStr("Unknown")),
      GetOr(d, "company_size", JStr("Unknown")),
      GetOr(d, "founded", x.foundedYear),
      GetOr(d, "market_cap", GetOr(raw, "market_cap", JInt(0))),
      GetOr(d, "revenue", GetOr(raw, "revenue", JInt(0))),
      GetOr(d, "funding_status", JStr("Unknown")),
      GetOr(d, "investors", JArray([JStr("Unknown")])),
      GetOr(d, "domain_age", GetOr(raw, "domain_age", JInt(0))),
      GetOr(d, "ssl_certificate", JBool(true)),
      GetOr(d, "business_verified", JBool(true)),
      GetOr(d, "employee_count", GetOr(raw, "employee_count", JInt(0))),
      c.intent,
      ContactQuality(x.score),
      SenderDomain(sender),
      sender,
      ScoreJson(report, x),
      c.businessValue.relevant,
      c.intentConfidence,
      c.businessValue.confidence,
      GetOr(raw, "sentiment_score", JFloat(0.5)),
      GetOr(raw, "certified", JBool(false)),
      GetOr(raw, "funded_by_top_investors", JBool(false)),
      GetOr(d, "headquarters", JStr("Unknown")),
      GetOr(d, "website", JStr("https://" + Lower(name) + ".com")),
      GetOr(d, "key_products", JArray([JStr("Unknown")])),
      GetOr(d, "competitors", JArray([JStr("Unknown")])),
      GetOr(d, "business_model", JStr("Unknown")),
      GetOr(d, "reputation_score", JFloat(0.5)),
      GetOr(d, "description", if profileDescription.Some? then JStr(profileDescription.value) else JNull),
      x.breakdown,
      GetOr(raw, "age_years", x.ageFromFounded),
      NotesOrDefault(c.notes))
  }

  /** The body of the `try` of lines 43-173 for one message: `None` where it raises. The
      research must succeed and lines 89-117 must not raise; the classification never
      raises, so it decides only the classification fields. */
  function ProcessEmail(e: RawEmail, svc: Services): (r: Option<EnrichedRecord>)
    ensures var name := CompanyName(Sender(e));
      r.Some? <==> svc.research(name).Success? && Derive(DetailsFor(e, svc), svc.research(name).value, svc.credibility).Some?
    ensures r.Some? ==> r.value.sender == Sender(e) && r.value.senderDomain == SenderDomain(Sender(e))
    ensures r.Some? ==>
      AsNumber(r.value.credibilityScore).Some? && r.value.contactQuality == ContactQuality(AsNumber(r.value.credibilityScore).value)
    ensures r.Some? ==>
      var c := ClassificationFor(e, svc);
      && r.value.emailIntent == c.intent && r.value.intentConfidence == c.intentConfidence
      && r.value.businessRelevant == c.businessValue.relevant
      && r.value.businessValueConfidence == c.businessValue.confidence
      && r.value.notes == NotesOrDefault(c.notes)
  {
    var sender := Sender(e);
    var name := CompanyName(sender);
    var report :- svc.research(name).ToOption();
    var x :- Derive(DetailsFor(e, svc), report, svc.credibility);
    ScoreReadsBack(DetailsFor(e, svc), report, svc.credibility, x);
    Some(Assemble(sender, name, report, x, ClassificationFor(e, svc)))
  }

  /** `ProcessEmail` as the step of the batch loop. */
  function ProcessStep(svc: Services): (f: RawEmail -> Option<EnrichedRecord>)
    ensures forall e :: svc.research(CompanyName(Sender(e))).Failure? ==> f(e).None?
    ensures forall e :: f(e).Some? ==> f(e).value.sender == Sender(e)
  {
    e => ProcessEmail(e, svc)
  }

  /** A failing classification never drops a message: whatever the intent model answers,
      the same messages survive. */
  lemma ClassificationNeverDrops(e: RawEmail, svc: Services, intentModel: string -> Result<string, string>)
    ensures ProcessEmail(e, svc.(intentModel := intentModel)).Some? <==> ProcessEmail(e, svc).Some?
  {
    assert DetailsFor(e, svc.(intentModel := intentModel)) == DetailsFor(e, svc);
  }

  /** A failed research call drops the message. */
  lemma ResearchFailureDrops(e: RawEmail, svc: Services)
    requires svc.research(CompanyName(Sender(e))).Failure?
    ensures ProcessEmail(e, svc) == None
  {
  }

  /** Details whose "founded" is not a number (a year given as text, or `null`) always drop
      the message: `2024 - details.get("founded", 2020)` is evaluated as the default of
      line 171 even when the raw metrics hold "age_years". */
  lemma NonNumericFoundedDrops(e: RawEmail, svc: Services)
    requires DetailsFor(e, svc).JObject? && "founded" in DetailsFor(e, svc).fields
    requires AsNumber(DetailsFor(e, svc).fields["founded"]).None?
    ensures ProcessEmail(e, svc) == None
  {
  }

  /** Empty details on an unscored report recompute nothing: the message survives with the
      `int` score `0` of line 90, an empty breakdown and "Low" contact quality. */
  lemma EmptyDetailsKeepIntZero(e: RawEmail, svc: Services)
    requires DetailsFor(e, svc) == JObject(map[])
    requires svc.research(CompanyName(Sender(e))).Success?
    requires svc.research(CompanyName(Sender(e))).value.credibility.None?
    ensures ProcessEmail(e, svc).Some?
    ensures var r := ProcessEmail(e, svc).value;
      r.credibilityScore == JInt(0) && r.scoreBreakdown == map[] && r.contactQuality == "Low"
  {
    var name := CompanyName(Sender(e));
    var report := svc.research(name).value;
    EmptyDetailsDerive(report, svc.credibility);
    var x := Derive(JObject(map[]), report, svc.credibility).value;
    assert ProcessEmail(e, svc) == Some(Assemble(Sender(e), name, report, x, ClassificationFor(e, svc)));
    assert ContactQuality(0.0) == "Low";
  }

  /** On an unscored report, empty details pass lines 89-117. */
  lemma EmptyDetailsDerive(report: ResearchReport,
                           credibility: CredibilityParams -> Result<(real, map<string, real>), string>)
    requires report.credibility.None?
    ensures Derive(JObject(map[]), report, credibility).Some?
  {
    assert RawMetrics(report) == map[];
    assert Rescore(map[], map[], 0.0, map[], credibility) == Some((0.0, map[]));
    assert YearMinus(JInt(0)).Some? && YearMinus(JInt(2020)).Some?;
  }

  /** The credibility parameters built from the fallback details of an unscored report. */
  const FallbackParams: CredibilityParams :=
    CredibilityParams(JInt(4), JInt(0), JInt(0), JInt(5), JFloat(0.5), JBool(true), JBool(true))

  /** The fallback details and no raw metrics give `FallbackParams`. */
  lemma FallbackParamsFor(name: string)
    ensures CredibilityParamsFor(FallbackData(name), map[]) == Some(FallbackParams)
  {
    var d := FallbackData(name);
    FallbackFigures(name);
    FallbackFlags(name);
    assert Funded(d, map[]) == Some(JBool(true));
    assert AgeYears(GetOr(d, "founded", JNull), map[]) == JInt(4);
  }

  /** Lines 89-117 on the fallback details of an unscored report: they raise exactly when
      the recomputation does, and the founding year is 2020 and the age 4. */
  lemma FallbackDerived(name: string, report: ResearchReport,
                        credibility: CredibilityParams -> Result<(real, map<string, real>), string>)
    requires report.credibility.None?
    ensures Derive(JObject(FallbackData(name)), report, credibility).Some? <==> credibility(FallbackParams).Success?
    ensures credibility(FallbackParams).Success? ==>
      Derive(JObject(FallbackData(name)), report, credibility)
        == Some(Derived(FallbackData(name), map[], credibility(FallbackParams).value.0, credibility(FallbackParams).value.1, JInt(2020), JInt(4)))
  {
    var d := FallbackData(name);
    FallbackFigures(name);
    FallbackParamsFor(name);
    assert d != map[];
    assert RawMetrics(report) == map[];
  }

  /** The record assembled from the fallback details. */
  lemma FallbackRecord(sender: string, name: string, report: ResearchReport, score: real,
                       breakdown: map<string, real>, c: EmailClassification)
    ensures var r := Assemble(sender, name, report, Derived(FallbackData(name), map[], score, breakdown, JInt(2020), JInt(4)), c);
      && r.companyName == JStr(name) && r.website == JStr("https://" + Lower(name) + ".com")
      && r.founded == JInt(2020) && r.companyAgeYears == JInt(4)
      && r.credibilityScore == JFloat(score) && r.scoreBreakdown == breakdown
      && r.fundedByTopInvestors == JBool(false) && r.certified == JBool(false)
  {
    FallbackEchoesName(name);
    FallbackFigures(name);
  }

  /** When the details call fails and the report carries no credibility, the fallback
      details are used: the message survives exactly when the recomputed score does, with
      age 4 (2024 - 2020), the name and website derived from the company name, and the
      flags of the raw metrics at their defaults. */
  lemma FallbackDetailsKept(e: RawEmail, svc: Services)
    requires svc.detailsModel(CompanyName(Sender(e))).Failure?
    requires svc.research(CompanyName(Sender(e))).Success?
    requires svc.research(CompanyName(Sender(e))).value.credibility.None?
    ensures ProcessEmail(e, svc).Some? <==> svc.credibility(FallbackParams).Success?
    ensures ProcessEmail(e, svc).Some? ==>
      var r := ProcessEmail(e, svc).value;
      var name := CompanyName(Sender(e));
      && r.companyName == JStr(name) && r.website == JStr("https://" + Lower(name) + ".com")
      && r.founded == JInt(2020) && r.companyAgeYears == JInt(4)
      && r.credibilityScore == JFloat(svc.credibility(FallbackParams).value.0)
      && r.scoreBreakdown == svc.credibility(FallbackParams).value.1
      && r.fundedByTopInvestors == JBool(false) && r.certified == JBool(false)
  {
    var name := CompanyName(Sender(e));
    var report := svc.research(name).value;
    assert DetailsFor(e, svc) == JObject(FallbackData(name));
    FallbackDerived(name, report, svc.credibility);
    if svc.credibility(FallbackParams).Success? {
      var scored := svc.credibility(FallbackParams).value;
      FallbackRecord(Sender(e), name, report, scored.0, scored.1, ClassificationFor(e, svc));
    }
  }

  /** `trigger_auto_processing(raw_emails, oauth_token)`: `[]` for an empty or blank token,
      otherwise one record per message that processes without raising, in input order. The
      `try` body of the loop is `ProcessEmail`, `None` standing for an exception. */
  method TriggerAutoProcessing(emails: seq<RawEmail>, token: string, svc: Services) returns (results: seq<EnrichedRecord>)
    ensures results == if IsBlank(token) then [] else Survivors(emails, ProcessStep(svc))
  {
    if token == [] || Strip(token) == [] {
      return [];
    }
    results := [];
    for i := 0 to |emails|
      invariant results == Survivors(emails[..i], ProcessStep(svc))
    {
      var record := ProcessStep(svc)(emails[i]);
      SurvivorsStep(results, emails, i, ProcessStep(svc), record);
      if record.Some? {
        results := results + [record.value];
      }
    }
    assert emails[..|emails|] == emails;
  }

  /** The status `fetch_and_process_emails` answers for an exception other than a
      `ValueError` (lines 259-264), by the text of the exception. */
  function ErrorStatus(message: string): (status: int)
    ensures status in {401, 403, 500}
    ensures status == 401 <==> Contains(message, "OAuth token expired") || Contains(message, "401")
    ensures status == 403 <==> !(Contains(message, "OAuth token expired") || Contains(message, "401"))
                               && (Contains(message, "403") || Contains(message, "Insufficient permissions"))
  {
    if Contains(message, "OAuth token expired") || Contains(message, "401") then 401
    else if Contains(message, "403") || Contains(message, "Insufficient permissions") then 403
    else 500
  }

  /** Any text around "401" gives 401. */
  lemma Status401(before: string, after: string)
    ensures ErrorStatus(before + "401" + after) == 401
  {
    var m := before + "401" + after;
    assert m[|before|..|before| + 3] == "401";
    assert OccursAt(m, "401", |before|);
    ContainsIff(m, "401");
  }

  /** "403" gives 403 unless the text also matches the 401 rule. */
  lemma Status403(before: string, after: string)
    requires !Contains(before + "403" + after, "401") && !Contains(before + "403" + after, "OAuth token expired")
    ensures ErrorStatus(before + "403" + after) == 403
  {
    var m := before + "403" + after;
    assert m[|before|..|before| + 3] == "403";
    assert OccursAt(m, "403", |before|);
    ContainsIff(m, "403");
  }

  /** The `HTTPException` the handlers of lines 254-264 raise. */
  function ErrorResponse<T>(raised: Raised): (r: Response<T>)
    ensures raised.ValueError? ==> r == HttpFail(401, raised.message)
    ensures raised.OtherError? ==> r.HttpFail? && r.status == ErrorStatus(raised.message)
    ensures raised.OtherError? && r.status == 500 ==> r.detail == "Failed to process emails: " + raised.message
  {
    match raised
    case ValueError(m) => HttpFail(401, m)
    case OtherError(m) =>
      var s := ErrorStatus(m);
      if s == 401 then HttpFail(401, "OAuth token expired. Please reconnect your Google account.")
      else if s == 403 then HttpFail(403, "Insufficient permissions. Please re-authorize the application.")
      else HttpFail(500, "Failed to process emails: " + m)
  }

  /** The body of `fetch_and_process_emails`: the parsed messages and their analysis. */
  datatype Processed = Processed(emails: seq<Email>, analysis: seq<EnrichedRecord>)

  /** `fetch_and_process_emails(oauth_token)`, with what the Gmail fetch returns (or raises)
      and `EmailParser.parse_emails` as parameters. */
  method FetchAndProcessEmails(token: string, fetched: Result<seq<RawEmail>, Raised>,
                               parseEmails: seq<RawEmail> -> Result<seq<Email>, Raised>, svc: Services)
    returns (response: Response<Processed>)
    ensures token == [] ==> response == HttpFail(401, "OAuth token required")
    ensures token != [] && fetched.Failure? ==> response == ErrorResponse(fetched.error)
    ensures token != [] && fetched.Success? && parseEmails(fetched.value).Failure? ==>
      response == ErrorResponse(parseEmails(fetched.value).error)
    ensures token != [] && fetched.Success? && parseEmails(fetched.value).Success? && fetched.value == [] ==>
      response == Ok(Processed([], []))
    ensures token != [] && fetched.Success? && parseEmails(fetched.value).Success? && fetched.value != [] ==>
      response == Ok(Processed(parseEmails(fetched.value).value,
                               if IsBlank(token) then [] else Survivors(fetched.value, ProcessStep(svc))))
  {
    if token == [] {
      return HttpFail(401, "OAuth token required");
    }
    if fetched.Failure? {
      return ErrorResponse(fetched.error);
    }
    var raw := fetched.value;
    var parsed := parseEmails(raw);
    if parsed.Failure? {
      return ErrorResponse(parsed.error);
    }
    if raw == [] {
      return Ok(Processed([], []));
    }
    var results := TriggerAutoProcessing(raw, token, svc);
    response := Ok(Processed(parsed.value, results));
  }

  /** `fetch_unread_emails(oauth_token)`: the parsed messages, 401 without a token and 500
      whatever the fetch or the parser raises. */
  function FetchUnreadEmails(token: string, fetched: Result<seq<RawEmail>, Raised>,
                             parseEmails: seq<RawEmail> -> Result<seq<Email>, Raised>)
    : (r: Response<seq<Email>>)
    ensures r.Ok? <==> token != [] && fetched.Success? && parseEmails(fetched.value).Success?
    ensures r.Ok? ==> r.body == parseEmails(fetched.value).value
    ensures token == [] ==> r == HttpFail(401, "OAuth token required")
    ensures token != [] && !r.Ok? ==> r == HttpFail(500, "Failed to fetch emails")
  {
    if token == [] then HttpFail(401, "OAuth token required")
    else match fetched
      case Failure(_) => HttpFail(500, "Failed to fetch emails")
      case Success(raw) =>
        match parseEmails(raw)
        case Failure(_) => HttpFail(500, "Failed to fetch emails")
        case Success(emails) => Ok(emails)
  }
}
