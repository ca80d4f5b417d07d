/**
 * `orchestrate`: every message's company is researched and the report is extended with
 * the message's classification, sender and snippet preview; a message whose research
 * fails is skipped, while a failing classification is replaced by the "unknown" one.
 */
module Orchestrate {
  import opened Wrappers
  import opened Text
  import opened Json
  import opened RawMail
  import opened Schemas
  import opened Extract
  import opened IntentClassifier
  import opened Classification
  import opened External
  import opened Batch

  /** The classification of one message (lines 52-82). */
  function OrchestrateClassificationFor(e: RawEmail, svc: Services): (c: EmailClassification)
    ensures svc.intentModel(ClassificationText(e)).Failure? ==>
      c == UnknownClassification("Exception occurred: " + svc.intentModel(ClassificationText(e)).error)
  {
    var reply := svc.intentModel(ClassificationText(e));
    if reply.Failure? then
      CallFailureKeepsClassifierNotes(reply.error, svc.parse, svc.describe);
      OrchestrateClassification(ClassifyIntent(reply, svc.parse), svc.describe)
    else OrchestrateClassification(ClassifyIntent(reply, svc.parse), svc.describe)
  }

  /** The report `svc.research` gives, with the three keys of lines 85-88 filled in. */
  function Annotated(report: ResearchReport, c: EmailClassification, sender: string, snippet: string): (r: ResearchReport)
    ensures r.emailClassification == Some(c) && r.emailSender == Some(sender) && r.emailSnippet == Some(snippet)
    ensures r.(emailClassification := report.emailClassification, emailSender := report.emailSender,
               emailSnippet := report.emailSnippet) == report
  {
    report.(emailClassification := Some(c), emailSender := Some(sender), emailSnippet := Some(snippet))
  }

  /** The body of the `try` of lines 39-90 for one message: `None` exactly when the research
      raises. The record is the report with the accepted or "unknown" classification, the
      sender as given and the first 300 characters of the snippet; nothing else changes. */
  function OrchestrateItem(e: RawEmail, svc: Services): (r: Option<ResearchReport>)
    ensures r.Some? <==> svc.research(CompanyName(Sender(e))).Success?
    ensures r.Some? ==> r.value == Annotated(svc.research(CompanyName(Sender(e))).value,
                                             OrchestrateClassificationFor(e, svc), Sender(e), SnippetPreview(e))
  {
    var sender := Sender(e);
    var report :- svc.research(CompanyName(sender)).ToOption();
    Some(Annotated(report, OrchestrateClassificationFor(e, svc), sender, SnippetPreview(e)))
  }

  function OrchestrateStep(svc: Services): (f: RawEmail -> Option<ResearchReport>)
    ensures forall e :: f(e).Some? <==> svc.research(CompanyName(Sender(e))).Success?
    ensures forall e :: f(e).Some? ==> f(e).value.emailSender == Some(Sender(e))
  {
    e => OrchestrateItem(e, svc)
  }

  /** A message survives exactly when its research does: the classification, whatever it
      is, never drops it, and its record names the sender and carries a preview of at most
      300 characters that starts the snippet. */
  lemma SurvivesIffResearched(e: RawEmail, svc: Services, intentModel: string -> Result<string, string>)
    ensures OrchestrateItem(e, svc.(intentModel := intentModel)).Some? <==> OrchestrateItem(e, svc).Some?
    ensures OrchestrateItem(e, svc).Some? ==>
      var r := OrchestrateItem(e, svc).value;
      && r.emailSender == Some(Sender(e))
      && r.emailSnippet.Some? && |r.emailSnippet.value| <= PreviewLength
      && StartsWith(e.snippet.GetOr(""), r.emailSnippet.value)
  {
  }

  /** An accepted classification is kept as validated; a value that is not a dictionary with
      "intent" becomes the "unknown" classification noting the format error. */
  lemma ClassificationOfRecord(e: RawEmail, svc: Services)
    requires OrchestrateItem(e, svc).Some?
    ensures var c := ClassifyIntent(svc.intentModel(ClassificationText(e)), svc.parse);
      && (ToClassification(c).Success? ==> OrchestrateItem(e, svc).value.emailClassification == Some(ToClassification(c).value))
      && ((!c.JObject? || "intent" !in c.fields) ==>
          OrchestrateItem(e, svc).value.emailClassification
            == Some(UnknownClassification("Classification failed: " + "Invalid classification format")))
  {
    var c := ClassifyIntent(svc.intentModel(ClassificationText(e)), svc.parse);
    if ToClassification(c).Success? {
      AcceptedIsKept(c, svc.describe);
    }
    if !c.JObject? || "intent" !in c.fields {
      InvalidFormatFallbacks(c, svc.describe);
    }
  }

  /** The `try` body of lines 39-90 for one message, `None` where it raises: the research
      report, then the classification, then the three keys assigned one after the other. */
  method OrchestrateEmail(email: RawEmail, svc: Services) returns (record: Option<ResearchReport>)
    ensures record == OrchestrateStep(svc)(email)
  {
    var sender := Sender(email);
    var report := svc.research(CompanyName(sender));
    if report.Failure? {
      return None;
    }
    var snippet := SnippetPreview(email);
    var classification := OrchestrateClassificationFor(email, svc);
    var reportDict := report.value;
    reportDict := reportDict.(emailClassification := Some(classification));
    reportDict := reportDict.(emailSender := Some(sender));
    reportDict := reportDict.(emailSnippet := Some(snippet));
    return Some(reportDict);
  }

  /** `orchestrate(oauth_token, settings)`, with what the Gmail fetch returns (or the text of
      the exception it raises, which the endpoint does not catch) as a parameter. Only an
      empty token is refused: a whitespace token reaches the fetch. */
  method Orchestrate(token: string, fetched: Result<seq<RawEmail>, string>, svc: Services)
    returns (response: Response<seq<ResearchReport>>)
    ensures token == [] ==> response == HttpFail(401, "OAuth token required")
    ensures token != [] && fetched.Failure? ==> response == Unhandled(fetched.error)
    ensures token != [] && fetched.Success? ==> response == Ok(Survivors(fetched.value, OrchestrateStep(svc)))
  {
    if token == [] {
      return HttpFail(401, "OAuth token required");
    }
    if fetched.Failure? {
      return Unhandled(fetched.error);
    }
    var emails := fetched.value;
    var results: seq<ResearchReport> := [];
    for i := 0 to |emails|
      invariant results == Survivors(emails[..i], OrchestrateStep(svc))
    {
      var record := OrchestrateEmail(emails[i], svc);
      SurvivorsStep(results, emails, i, OrchestrateStep(svc), record);
      if record.None? {
        continue;
      }
      results := results + [record.value];
    }
    assert emails[..|emails|] == emails;
    response := Ok(results);
  }
}
