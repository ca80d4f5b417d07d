/**
 * The pydantic record types of the API: each model is a datatype, a range-constrained
 * float is the subset type `Confidence`, and a constructor call that pydantic validates
 * is a function returning `Result`.
 */
module Schemas {
  import opened Wrappers
  import opened Json

  /** `Field(..., ge=0.0, le=1.0)`. */
  type Confidence = r: real | 0.0 <= r <= 1.0

  /** A message as the fetch endpoint returns it. `date` is kept as its text. */
  datatype Email = Email(id: string, subject: string, sender: string, date: string, snippet: Option<string>)

  /** `Email(id=…, subject=…, sender=…, date=…)` with the snippet left to its default. */
  function NewEmail(id: string, subject: string, sender: string, date: string): (e: Email)
    ensures e.snippet == None
    ensures e.id == id && e.subject == subject && e.sender == sender && e.date == date
  {
    Email(id, subject, sender, date, None)
  }

  datatype CompanyProfile = CompanyProfile(
    name: string,
    description: Option<string>,
    website: Option<string>,
    isPersonalEmail: Option<bool>)

  /** `CompanyProfile(name=…)`: no description, no website, not a personal address. */
  function NewCompanyProfile(name: string): (p: CompanyProfile)
    ensures p.name == name && p.description == None && p.website == None
    ensures p.isPersonalEmail == Some(false)
  {
    CompanyProfile(name, None, None, Some(false))
  }

  /** A credibility score with the metrics it came from and the per-factor breakdown. */
  datatype CredibilityScore = CredibilityScore(
    score: real,
    rawMetrics: map<string, Json>,
    scoreBreakdown: map<string, real>)

  datatype BusinessValue = BusinessValue(relevant: bool, category: Option<string>, confidence: Confidence)

  datatype EmailClassification = EmailClassification(
    intent: string,
    intentConfidence: Confidence,
    businessValue: BusinessValue,
    notes: Option<string>)

  /** The report the research engine returns; the last three fields are filled in by the endpoints. */
  datatype ResearchReport = ResearchReport(
    reportId: string,
    companyName: string,
    researchDate: string,
    overallStatus: string,
    completionPercentage: real,
    companyProfile: CompanyProfile,
    productsServices: Option<seq<Json>>,
    marketAnalysis: Option<Json>,
    financialMetrics: Option<seq<Json>>,
    keyInsights: Option<seq<string>>,
    recommendations: Option<seq<string>>,
    credibility: Option<CredibilityScore>,
    emailClassification: Option<EmailClassification>,
    emailSender: Option<string>,
    emailSnippet: Option<string>)

  /** Pydantic's rejection of a field value; the payload names the field. */
  datatype Invalid = OutOfRange(field: string)

  /** `BusinessValue(relevant=…, category=…, confidence=…)`: accepted exactly when the
      confidence lies in [0, 1], and then every field is kept as given. */
  function MakeBusinessValue(relevant: bool, category: Option<string>, confidence: real): (r: Result<BusinessValue, Invalid>)
    ensures r.Success? <==> 0.0 <= confidence <= 1.0
    ensures r.Success? ==> r.value.relevant == relevant && r.value.category == category && r.value.confidence == confidence
    ensures r.Failure? ==> r.error == OutOfRange("confidence")
  {
    if 0.0 <= confidence <= 1.0 then Success(BusinessValue(relevant, category, confidence))
    else Failure(OutOfRange("confidence"))
  }

  /** `EmailClassification(intent=…, intent_confidence=…, business_value=…, notes=…)`:
      accepted exactly when the intent confidence lies in [0, 1]. */
  function MakeEmailClassification(intent: string, intentConfidence: real, businessValue: BusinessValue, notes: Option<string>)
    : (r: Result<EmailClassification, Invalid>)
    ensures r.Success? <==> 0.0 <= intentConfidence <= 1.0
    ensures r.Success? ==> r.value.intent == intent && r.value.intentConfidence == intentConfidence
    ensures r.Success? ==> r.value.businessValue == businessValue && r.value.notes == notes
    ensures r.Failure? ==> r.error == OutOfRange("intent_confidence")
  {
    if 0.0 <= intentConfidence <= 1.0 then Success(EmailClassification(intent, intentConfidence, businessValue, notes))
    else Failure(OutOfRange("intent_confidence"))
  }
}
