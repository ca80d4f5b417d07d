# Narrisia e-mail enrichment core, in Dafny

This project models the core of the Narrisia backend. The backend reads a user's unread Gmail
messages and enriches each one:

- the company behind the sender is derived from the `From` header;
- the company is researched and described by a language model;
- the message's intent is classified;
- the company's credibility is scored.

The model covers these pieces:

- `extract_domain_as_company_name` and its batch form (`extract.py`);
- the reply handling of `classify_intent` (`intent_classifier.py`);
- `calculate_relevancy_score` (`relevancy_scorer.py`);
- `CompanyDetailsService.get_comprehensive_details` and its fallback record (`company_details_service.py`);
- the pydantic record types (`schemas.py`);
- the two enrichment loops: `trigger_auto_processing` in `fetch.py` and `orchestrate` in `orchestrate.py`;
- the endpoints `fetch_unread_emails` and `fetch_and_process_emails`, with their error mapping.

Modules:

| file | module | what it holds |
|---|---|---|
| `wrappers.dfy` | `Wrappers` | `Option` and `Result` |
| `text.dfy` | `Text` | the Python `str` operations the core uses: `strip`, `lower`, `capitalize`, `split`, `replace(p, "")`, `startswith`, `in` |
| `json.dfy` | `Json` | parsed JSON values, `dict.get`, truthiness, `len`, `isinstance(x, (int, float))` |
| `raw_mail.dfy` | `RawMail` | the message dictionaries the Gmail service returns |
| `schemas.dfy` | `Schemas` | the pydantic models, with `Field(ge=0.0, le=1.0)` as a subset type |
| `extract.dfy` | `Extract` | company-name extraction: the two regular expressions as leftmost-match functions, and the rule chain |
| `intent.dfy` | `IntentClassifier` | fence cleaning by `re.sub`, and the fallback records |
| `classification.dfy` | `Classification` | the validation both endpoints apply to a classifier result, and their two different fallbacks |
| `relevancy.dfy` | `RelevancyScorer` | the relevancy post-processing |
| `company_details.dfy` | `CompanyDetails` | JSON extraction from the model's reply, and the fallback data |
| `external.dfy` | `External` | the collaborators whose code is not modelled, and the HTTP responses |
| `batch.dfy` | `Batch` | the loop shape both endpoints share: process each item in turn, skip the ones that raise, keep the order |
| `fetch.dfy` | `Fetch` | `trigger_auto_processing` and the two fetch endpoints |
| `orchestrate.dfy` | `Orchestrate` | the `orchestrate` endpoint |

The collaborators are fields of a `Services` value, each a function of what it receives:

- the chat models;
- `ResearchEngine.research_company`;
- `json.loads`;
- `compute_credibility_score`;
- the text of pydantic's exceptions.

A call that raises yields the text of its exception. A Python `try` around a step yields `None`
for an item whose processing raised.

The two loops are methods. Each method's loop keeps the invariant that the records collected so
far are `Batch.Survivors` of the items seen so far. `Batch.Survivors` is the specification of
such a loop. The lemmas in `Batch` prove three things about it:

- a failing item never affects the others;
- the output follows the input order;
- every successful item is kept.

The specification and the code differ in a few places. This model follows the code:

- The code derives the company only from the sender address. It has no display-name or content
  fallback chain.
- The code has no concurrency.
- A domain such as `.` gives an empty company name, not "Unknown".
- The intent step of `trigger_auto_processing` can never drop a message. Its fallback replaces
  any classification failure.
- Eagerly evaluated `dict.get` defaults can raise, which drops the message. Two examples, both
  modelled here:
  - `2024 - details.get("founded", 2020)` raises for a non-numeric `founded`;
  - `2024 - raw_metrics.get("age_years", 0)` raises for a non-numeric `age_years`.

## Model

| member | source | states |
|---|---|---|
| `Text.StripIsSlice` | Backend-Narrisia/app/services/relevancy_scorer.py:71 | `strip()` returns a contiguous slice of its input, with no whitespace at either end |
| `Text.StripIdempotent` | Backend-Narrisia/app/services/intent_classifier.py:40-45 | stripping twice is stripping once, so the repeated `.strip()` calls change nothing |
| `Text.BlankIffAllSpace` | Backend-Narrisia/app/services/relevancy_scorer.py:11 | `not s.strip()` holds exactly when every character is whitespace |
| `Text.Capitalize` | Backend-Narrisia/app/utils/extract.py:49 | the first character is upper-cased and the rest lower-cased; the length is kept |
| `Text.ContainsIff` | Backend-Narrisia/app/api/endpoints/fetch.py:260-262 | the substring test `p in s` holds exactly when `p` occurs at some position |
| `Text.Split` | Backend-Narrisia/app/utils/extract.py:23 | `split(".")` gives at least one part, no part holds the separator, and joining the parts gives back the input |
| `Text.SplitAround` | Backend-Narrisia/app/utils/extract.py:23 | splitting `a + "." + b` gives the parts of `a` followed by the parts of `b` |
| `Text.BeforeFirst` | Backend-Narrisia/app/api/endpoints/fetch.py:123 | `split('>')[0]` is the longest prefix without `>`, ending where the first `>` is |
| `Text.AfterLast` | Backend-Narrisia/app/api/endpoints/fetch.py:123 | `split('@')[-1]` is the longest suffix without `@`, starting just after the last `@` |
| `Text.RemoveAll` | Backend-Narrisia/app/services/relevancy_scorer.py:76-78 | `replace(p, "")` never lengthens its input |
| `Text.RemoveAllKeepsPrefix` | Backend-Narrisia/app/services/relevancy_scorer.py:76-78 | a prefix in which `p` never starts passes through the removal untouched |
| `Text.RemovalLeavesNoFence` | Backend-Narrisia/app/services/relevancy_scorer.py:76-78 | after `replace("```", "")` no fence is left anywhere, including one formed across a removed fence |
| `Extract.FindBracket` | Backend-Narrisia/app/utils/extract.py:10 | `re.search(r'<([^>]+)>')` finds the leftmost match, and no match exists when it finds none |
| `Extract.AddressOf` | Backend-Narrisia/app/utils/extract.py:10-11 | without a `<…>` pair the address is the stripped sender; with one it is non-empty and holds no `>` (the exact slice: `AddressInFirstBracket`) |
| `Extract.AddressInFirstBracket` | Backend-Narrisia/app/utils/extract.py:10-11 | with a `<…>` pair the address is the non-empty text inside the first pair, with no `>` |
| `Extract.AddressWithoutBracket` | Backend-Narrisia/app/utils/extract.py:11 | with no `<…>` pair the address is the stripped sender |
| `Extract.DomainOf` | Backend-Narrisia/app/utils/extract.py:13-14 | the domain is empty exactly when `@([\w.-]+)` does not match; it has only domain characters and no capitals |
| `Extract.DomainIsMaximalRun` | Backend-Narrisia/app/utils/extract.py:13-14 | the domain is the lower-cased greedy run after the leftmost matching `@` |
| `Extract.KnownIndex` | Backend-Narrisia/app/utils/extract.py:40-43 | the table is scanned in declaration order for the first key that ends the domain |
| `Extract.CompanyFromDomain` | Backend-Narrisia/app/utils/extract.py:16-57 | an empty domain gives "Unknown", a generic one "Generic", and every answer is "Unknown", "Generic", a canonical table name or a capitalised label of the domain (each rule exactly: the `…Rule` lemmas below) |
| `Extract.CompanyName` | Backend-Narrisia/app/utils/extract.py:4-57 | no domain gives "Unknown", a generic domain "Generic", and every answer is one of the rule chain's four kinds for the sender's domain (worked through in `DisplayNameRule`, `GoogleExample`) |
| `Extract.NoDomainIsUnknown` | Backend-Narrisia/app/utils/extract.py:16-57 | no domain gives "Unknown" |
| `Extract.GenericRule` | Backend-Narrisia/app/utils/extract.py:17-20 | a domain exactly in the generic set gives "Generic" |
| `Extract.KnownSuffixRule` | Backend-Narrisia/app/utils/extract.py:26-43 | a non-generic domain that ends with a table key gives the name of the first such key |
| `Extract.SubdomainRule` | Backend-Narrisia/app/utils/extract.py:46-51 | a domain of three or more labels that matches no earlier rule gives its second-to-last label, capitalised |
| `Extract.FirstLabelRule` | Backend-Narrisia/app/utils/extract.py:52-54 | a two-label domain that matches no earlier rule gives its first label, capitalised |
| `Extract.SingleLabelRule` | Backend-Narrisia/app/utils/extract.py:52-54 | a one-label domain that matches no earlier rule gives that label, capitalised |
| `Extract.BracketedAddress` | Backend-Narrisia/app/utils/extract.py:10-11 | `Name <address>` yields `address` |
| `Extract.AtDomain` | Backend-Narrisia/app/utils/extract.py:13-14 | `local@domain` yields `domain`, lower-cased |
| `Extract.DisplayNameRule` | Backend-Narrisia/app/utils/extract.py:10-14 | the domain of `Name <local@domain>` is `domain`, lower-cased |
| `Extract.UnknownTail` | Backend-Narrisia/app/utils/extract.py:26-43 | a domain whose ending cannot close any key matches no table entry |
| `Extract.NotGeneric` | Backend-Narrisia/app/utils/extract.py:17 | a domain that cannot end like a generic provider is not generic |
| `Extract.TwoDotsNotGeneric` | Backend-Narrisia/app/utils/extract.py:17 | a domain with a dot before its last label is not generic |
| `Extract.GoogleExample` | Backend-Narrisia/app/utils/extract.py:8 | `Name <local@sub.google.com>` gives "Google", for any name, local part and lower-case subdomain |
| `Extract.GoogleSuffix` | Backend-Narrisia/app/utils/extract.py:40-43 | the table is matched by suffix, so any domain ending in `google.com` gives "Google" |
| `Extract.GenericSubdomain` | Backend-Narrisia/app/utils/extract.py:17-51 | a generic provider only matches exactly: `x.gmail.com` gives "Gmail" |
| `Extract.DotOnlyDomain` | Backend-Narrisia/app/utils/extract.py:52-54 | the domain `.` gives an empty company name |
| `Extract.ExtractCompanyNames` | Backend-Narrisia/app/utils/extract.py:60-68 | one name per message, in order, each from the sender that defaults to "" |
| `RawMail.ClassificationText` | Backend-Narrisia/app/api/endpoints/fetch.py:56 | the body when it is non-empty, otherwise the snippet, defaulting to "" |
| `RawMail.SnippetPreview` | Backend-Narrisia/app/api/endpoints/orchestrate.py:49 | the preview is the snippet when it has at most 300 characters, and otherwise its first 300 characters |
| `Schemas.NewEmail` | Backend-Narrisia/app/models/schemas.py:17-22 | an `Email` keeps its fields, and the snippet defaults to `None` |
| `Schemas.NewCompanyProfile` | Backend-Narrisia/app/models/schemas.py:30-34 | a profile from a name has no description or website and is not a personal address |
| `Schemas.MakeBusinessValue` | Backend-Narrisia/app/models/schemas.py:41-44 | accepted exactly when the confidence is in [0, 1], keeping every field; otherwise "confidence" is the rejected field |
| `Schemas.MakeEmailClassification` | Backend-Narrisia/app/models/schemas.py:46-50 | accepted exactly when the intent confidence is in [0, 1], keeping every field |
| `IntentClassifier.LeadingFenceEnd` | Backend-Narrisia/app/services/intent_classifier.py:45 | the first alternative `^```(?:json)?\s*` matches only at a leading fence |
| `IntentClassifier.CleanFence` | Backend-Narrisia/app/services/intent_classifier.py:45 | the cleaned text is a slice of the reply, never longer (what is cut: `CleanCutsFencesOnly`; unfenced text is kept: `CleanUnfenced`) |
| `IntentClassifier.CleanUnfenced` | Backend-Narrisia/app/services/intent_classifier.py:45 | a reply that neither starts nor ends with a fence is left unchanged |
| `IntentClassifier.CleanCutsFencesOnly` | Backend-Narrisia/app/services/intent_classifier.py:45 | the cleaned reply is a slice; only an opening fence with its optional tag and whitespace, and whitespace with a closing fence, are cut |
| `IntentClassifier.CleanFencedBody` | Backend-Narrisia/app/services/intent_classifier.py:45 | round trip: a body fenced with or without a `json` tag, in any case, cleans back to the body |
| `IntentClassifier.IntentFallback` | Backend-Narrisia/app/services/intent_classifier.py:53-75 | the fallback record has exactly the keys intent, intent_confidence, business_value and notes |
| `IntentClassifier.ClassifyIntent` | Backend-Narrisia/app/services/intent_classifier.py:64-75 | a call that raises gives the fallback with "Exception occurred: " and the error text |
| `IntentClassifier.ClassifyParsed` | Backend-Narrisia/app/services/intent_classifier.py:40-62 | a parsed reply is returned as it is, unvalidated; a decode error gives the fallback with "Failed to parse JSON: " and the message |
| `IntentClassifier.ClassifyDependsOnCleaned` | Backend-Narrisia/app/services/intent_classifier.py:45-48 | two replies that clean alike classify alike |
| `Classification.FloatField` | Backend-Narrisia/app/models/schemas.py:43-44 | a float field is accepted exactly when it is a number, and keeps its value; otherwise it is refused with its value |
| `Classification.OptionalText` | Backend-Narrisia/app/models/schemas.py:41-50 | an optional text field is accepted exactly when it is text or `null`; otherwise it is refused with its value |
| `Classification.ErrorsOf` | Backend-Narrisia/app/models/schemas.py:41-50 | a field contributes no entry to a validation error exactly when it validates, and otherwise its one refusal |
| `Classification.ConfidenceField` | Backend-Narrisia/app/models/schemas.py:44 | a `ge=0.0, le=1.0` float is accepted exactly when present, numeric and in [0, 1]; otherwise missing or refused with its value |
| `Classification.BoolField` | Backend-Narrisia/app/models/schemas.py:42 | a required `bool` is accepted exactly when present and boolean; otherwise missing or refused with its value |
| `Classification.TextField` | Backend-Narrisia/app/models/schemas.py:47 | a required `str` is accepted exactly when present and text; otherwise missing or refused with its value |
| `Classification.BusinessValueErrorsExact` | Backend-Narrisia/app/models/schemas.py:41-44 | a `BusinessValue` rejection lists a field exactly when that field fails on its own, so one failing field never hides another |
| `Classification.ClassificationErrorsExact` | Backend-Narrisia/app/models/schemas.py:46-50 | an `EmailClassification` rejection lists a field exactly when that field fails on its own |
| `Classification.BothRefusalsReported` | Backend-Narrisia/app/models/schemas.py:41-44 | two refused fields are both reported, in declaration order; with one repaired only the other is |
| `Classification.ToBusinessValue` | Backend-Narrisia/app/api/endpoints/fetch.py:70 | rejected exactly when some field fails, with every failing field in declaration order; an accepted value has a boolean `relevant`, a numeric `confidence` and an optional-text `category`, all kept |
| `Classification.ToClassification` | Backend-Narrisia/app/api/endpoints/fetch.py:66-74 | a non-dict or "intent"-less value is an invalid format; a validation rejection carries every failing field of its model; an accepted value has the three required keys, and its fields are kept |
| `Classification.AcceptsWellFormed` | Backend-Narrisia/app/api/endpoints/fetch.py:66-72 | a dictionary that writes out a valid classification, with any extra keys, is accepted as that classification |
| `Classification.UnknownClassification` | Backend-Narrisia/app/api/endpoints/fetch.py:78-87 | the substitute is intent "unknown", confidence 0.0, business value not relevant in category "unknown" |
| `Classification.IntentFallbackValidates` | Backend-Narrisia/app/services/intent_classifier.py:53-75 | both fallback records of the classifier pass validation as the "unknown" classification |
| `Classification.FetchClassification` | Backend-Narrisia/app/api/endpoints/fetch.py:64-87 | an accepted classification is kept; any rejection gives intent "unknown" noting "Classification failed."; the intent is "unknown" or the one the classifier wrote |
| `Classification.OrchestrateClassification` | Backend-Narrisia/app/api/endpoints/orchestrate.py:56-82 | an accepted classification is kept; a rejection gives intent "unknown" noting "Classification failed: " and the error's text, which for a validation error is `describe` of the model and all its failing fields; the intent is "unknown" or the one the classifier wrote |
| `Classification.AcceptedIsKept` | Backend-Narrisia/app/api/endpoints/orchestrate.py:52-69 | both endpoints keep an accepted classification as validated |
| `Classification.RejectedFallbacks` | Backend-Narrisia/app/api/endpoints/orchestrate.py:71-82 | a rejection gives "Classification failed." in `fetch.py` and "Classification failed: " with the error text in `orchestrate.py`, a validation error's text being `describe` of every failing field |
| `Classification.InvalidFormatFallbacks` | Backend-Narrisia/app/api/endpoints/orchestrate.py:61-82 | a non-dict or "intent"-less value gives the "unknown" classification, noting "Invalid classification format" in `orchestrate.py` |
| `Classification.ParseFailureKeepsClassifierNotes` | Backend-Narrisia/app/services/intent_classifier.py:51-62 | an unparsable reply keeps the classifier's "Failed to parse JSON" notes through both endpoints |
| `Classification.CallFailureKeepsClassifierNotes` | Backend-Narrisia/app/services/intent_classifier.py:64-75 | a failed call keeps the classifier's "Exception occurred" notes through both endpoints |
| `RelevancyScorer.Clamp` | Backend-Narrisia/app/services/relevancy_scorer.py:87-93 | `max(lo, min(hi, x))` lies in [lo, hi]; it is the integer bound at or past a bound, and `x` strictly inside |
| `RelevancyScorer.StripFences` | Backend-Narrisia/app/services/relevancy_scorer.py:75-78 | the cleaned reply is never longer, and a reply that does not start with a fence is kept as it is (no fence is left after a fenced one: `FencedLeavesNoFence`) |
| `RelevancyScorer.SliceError` | Backend-Narrisia/app/services/relevancy_scorer.py:97 | `x[:100]` raises for every value but text and lists: "unhashable type: 'slice'" for a dict, "'T' object is not subscriptable" for the others |
| `RelevancyScorer.UnfencedKept` | Backend-Narrisia/app/services/relevancy_scorer.py:75-78 | a reply that does not start with a fence is parsed as it is |
| `RelevancyScorer.FencedLeavesNoFence` | Backend-Narrisia/app/services/relevancy_scorer.py:75-78 | a reply that starts with a fence has no fence left anywhere once cleaned |
| `RelevancyScorer.FencedJsonBody` | Backend-Narrisia/app/services/relevancy_scorer.py:75-76 | round trip: a body without backticks, fenced as `json`, cleans back to the stripped body |
| `RelevancyScorer.CalculateRelevancyScore` | Backend-Narrisia/app/services/relevancy_scorer.py:8-121 | whatever the reply, the score is a number in [0, 100] and the confidence a number in [0, 1] |
| `RelevancyScorer.BlankContextIgnoresReply` | Backend-Narrisia/app/services/relevancy_scorer.py:11-17 | a blank business context gives 50.0, "No domain context provided" and 0.0, whatever the reply |
| `RelevancyScorer.ParsedFields` | Backend-Narrisia/app/services/relevancy_scorer.py:84-104 | with an explanation that slices (text or a list) or none, in-range numbers pass through; missing or non-numeric ones become 50 and 0.5; the explanation is kept as given, and a missing one gets its default |
| `RelevancyScorer.UnsliceableExplanation` | Backend-Narrisia/app/services/relevancy_scorer.py:97-121 | an explanation that cannot be sliced raises in the log line, and the result is the error record |
| `RelevancyScorer.DecodeFailure` | Backend-Narrisia/app/services/relevancy_scorer.py:106-113 | a reply that does not decode gives 50.0, 0.0 and the decoder's message after its prefix |
| `RelevancyScorer.CallFailed` | Backend-Narrisia/app/services/relevancy_scorer.py:115-121 | a call that raised gives exactly 50.0, "Error calculating relevancy: " with the exception's text, and 0.0 |
| `RelevancyScorer.NonObjectReply` | Backend-Narrisia/app/services/relevancy_scorer.py:81-121 | a reply that decodes to a non-dictionary gives exactly the "Error calculating relevancy: " record with the `AttributeError` text of `.get` |
| `RelevancyScorer.FailuresArePrefixed` | Backend-Narrisia/app/services/relevancy_scorer.py:106-121 | every failure record has score 50.0 and confidence 0.0; a decode error is explained with "Failed to parse relevancy analysis: ", every other failure with "Error calculating relevancy: " |
| `CompanyDetails.JsonCandidate` | Backend-Narrisia/app/services/company_details_service.py:58 | `re.search(r'\{[\s\S]*\}')` matches exactly when some `{` comes before some `}` |
| `CompanyDetails.CandidateSpan` | Backend-Narrisia/app/services/company_details_service.py:58-60 | the match runs from the first `{` to the last `}`, both included |
| `CompanyDetails.FallbackData` | Backend-Narrisia/app/services/company_details_service.py:71-93 | the fallback names the company it was built for (its other fields: `FallbackEchoesName`, `FallbackFigures`, `FallbackFlags`, `FallbackDeterminedByName`) |
| `CompanyDetails.FallbackEchoesName` | Backend-Narrisia/app/services/company_details_service.py:73-87 | the fallback echoes the name and builds the website from the name, lower-cased |
| `CompanyDetails.FallbackFigures` | Backend-Narrisia/app/services/company_details_service.py:77-92 | founded 2020; market cap, revenue and employees 0; domain age 5; reputation 0.5 |
| `CompanyDetails.FallbackFlags` | Backend-Narrisia/app/services/company_details_service.py:73-93 | one "Unknown" investor, a certificate and a verified business, and no "sentiment_score" key |
| `CompanyDetails.FallbackDeterminedByName` | Backend-Narrisia/app/services/company_details_service.py:71-93 | two fallbacks are equal exactly when their names are, and they agree on every key but company_name and website |
| `CompanyDetails.GetComprehensiveDetails` | Backend-Narrisia/app/services/company_details_service.py:12-69 | it never fails: a raised call, no braced span or an undecodable span give the fallback, and a decoded span is returned whatever its shape |
| `CompanyDetails.CandidateOfWrapped` | Backend-Narrisia/app/services/company_details_service.py:58 | text around a braced span, with no `{` before it and no `}` after it, leaves exactly that span |
| `CompanyDetails.SurroundingTextIgnored` | Backend-Narrisia/app/services/company_details_service.py:54-62 | a reply with text around its braced object gives the same details as the object alone |
| `Batch.Survivors` | Backend-Narrisia/app/api/endpoints/fetch.py:41-177 | a loop that skips failing items appends at most one record per item |
| `Batch.SurvivorsSnoc` | Backend-Narrisia/app/api/endpoints/fetch.py:42-176 | one more item adds its own record, if any, after the earlier ones |
| `Batch.SurvivorsAppend` | Backend-Narrisia/app/api/endpoints/orchestrate.py:38-95 | the records of a batch are those of its two halves, one after the other |
| `Batch.SkipFailing` | Backend-Narrisia/app/api/endpoints/orchestrate.py:92-95 | an item that raises is skipped, and the items after it are still processed |
| `Batch.SurvivorsAllKept` | Backend-Narrisia/app/api/endpoints/fetch.py:41-177 | when no item raises there is exactly one record per item, the i-th for the i-th |
| `Batch.SurvivorsOrigin` | Backend-Narrisia/app/api/endpoints/orchestrate.py:38-95 | the records come from successful items at strictly increasing positions, and every successful item has its record |
| `Batch.SurvivorsStep` | Backend-Narrisia/app/api/endpoints/orchestrate.py:90-95 | one loop iteration extends the records of the prefix to those of the longer prefix |
| `Fetch.YearMinus` | Backend-Narrisia/app/api/endpoints/fetch.py:171 | `2024 - x` is defined exactly for numbers, is `2024 - x` in value, and is an integer exactly when `x` is |
| `Fetch.AgeYears` | Backend-Narrisia/app/api/endpoints/fetch.py:99-101 | a truthy integer founding year gives `2024 - year`; anything else gives raw `age_years`, defaulting to 5 |
| `Fetch.AgeIgnoresNonYears` | Backend-Narrisia/app/api/endpoints/fetch.py:101 | a missing, zero or non-integer founding year falls back to the raw age |
| `Fetch.Funded` | Backend-Narrisia/app/api/endpoints/fetch.py:111 | `len(investors)` raises exactly when investors has no length; the result is truthy exactly when there are investors or the raw flag is truthy |
| `Fetch.CredibilityParamsFor` | Backend-Narrisia/app/api/endpoints/fetch.py:104-112 | the parameters exist exactly when `Funded` does; age, employees and the funding flag are taken from the details, then the raw metrics, then the constant |
| `Fetch.Rescore` | Backend-Narrisia/app/api/endpoints/fetch.py:90-113 | empty details keep the report's score and breakdown; otherwise the recomputed ones, or nothing where it raises |
| `Fetch.ContactQuality` | Backend-Narrisia/app/api/endpoints/fetch.py:120 | "High" exactly above 70, "Medium" exactly in (40, 70], "Low" exactly at or below 40 |
| `Fetch.QualityMonotone` | Backend-Narrisia/app/api/endpoints/fetch.py:120 | a higher score never gives a lower contact quality |
| `Fetch.SenderDomain` | Backend-Narrisia/app/api/endpoints/fetch.py:123 | "Unknown" without `@`; otherwise the part after the last `@`, cut at its first `>` |
| `Fetch.SenderDomainOfAddress` | Backend-Narrisia/app/api/endpoints/fetch.py:123 | for `Name <local@domain>` the sender domain is `domain` |
| `Fetch.NotesOrDefault` | Backend-Narrisia/app/api/endpoints/fetch.py:172 | the notes when present and non-empty, otherwise "No additional notes"; never empty |
| `Fetch.DetailsFor` | Backend-Narrisia/app/api/endpoints/fetch.py:49 | a failed details call gives the fallback record of the message's company |
| `Fetch.ClassificationFor` | Backend-Narrisia/app/api/endpoints/fetch.py:59-87 | a failed intent call gives the "unknown" classification noting "Exception occurred: " and the error |
| `Fetch.Derive` | Backend-Narrisia/app/api/endpoints/fetch.py:89-171 | success needs dictionary details, numeric eager defaults and a recomputation that does not raise; empty details keep the report's score |
| `Fetch.ScoreJson` | Backend-Narrisia/app/api/endpoints/fetch.py:90-152 | the `int` 0 of line 90 is written exactly when the report has no credibility and the details are empty; otherwise the score as a float |
| `Fetch.ScoreReadsBack` | Backend-Narrisia/app/api/endpoints/fetch.py:90-152 | read back as a number, the written score is the one contact quality is graded on |
| `Fetch.Assemble` | Backend-Narrisia/app/api/endpoints/fetch.py:128-173 | the record carries the sender, its domain, the score as written by `ScoreJson` with its quality, and the classification's fields |
| `Fetch.ProcessEmail` | Backend-Narrisia/app/api/endpoints/fetch.py:43-176 | a message survives exactly when research succeeds and the credibility steps do not raise; the written score is a number whose grade is the contact quality; sender, domain and classification fields are as derived |
| `Fetch.ProcessStep` | Backend-Narrisia/app/api/endpoints/fetch.py:43-176 | the loop body drops every message whose research fails, and every record names its message's sender |
| `Fetch.ClassificationNeverDrops` | Backend-Narrisia/app/api/endpoints/fetch.py:59-87 | whatever the intent model answers, it cannot decide whether a message survives |
| `Fetch.ResearchFailureDrops` | Backend-Narrisia/app/api/endpoints/fetch.py:53-176 | a failed research call drops the message |
| `Fetch.NonNumericFoundedDrops` | Backend-Narrisia/app/api/endpoints/fetch.py:171 | a "founded" that is not a number always drops the message, through the eager default of line 171 |
| `Fetch.EmptyDetailsKeepIntZero` | Backend-Narrisia/app/api/endpoints/fetch.py:90-152 | empty details on an unscored report keep the message, with `credibility_score` the `int` 0, an empty breakdown and "Low" quality |
| `Fetch.FallbackParamsFor` | Backend-Narrisia/app/api/endpoints/fetch.py:99-112 | the fallback details without raw metrics give age 4, market cap 0, employees 0, domain age 5, sentiment 0.5, certified and funded |
| `Fetch.FallbackDerived` | Backend-Narrisia/app/api/endpoints/fetch.py:89-117 | for the fallback details and an unscored report, the credibility steps raise exactly when the recomputation does; the founding year is 2020 and the age 4 |
| `Fetch.FallbackRecord` | Backend-Narrisia/app/api/endpoints/fetch.py:128-173 | the record built from the fallback details has the company's name and website, founded 2020, age 4, the raw flags at False, and the recomputed score as a float |
| `Fetch.FallbackDetailsKept` | Backend-Narrisia/app/api/endpoints/fetch.py:50-173 | when the details call fails and the report is unscored, the message survives exactly when the recomputation does, with the fallback's values and the recomputed score as a float |
| `Fetch.TriggerAutoProcessing` | Backend-Narrisia/app/api/endpoints/fetch.py:19-183 | an empty or blank token gives `[]`; otherwise one record per message that processes without raising, in input order |
| `Fetch.ErrorStatus` | Backend-Narrisia/app/api/endpoints/fetch.py:259-264 | 401 exactly when the message names an expired token or "401"; 403 exactly when it does not but names "403" or insufficient permissions; 500 otherwise |
| `Fetch.Status401` | Backend-Narrisia/app/api/endpoints/fetch.py:260-261 | any message containing "401" gives 401 |
| `Fetch.Status403` | Backend-Narrisia/app/api/endpoints/fetch.py:262-263 | a message containing "403" gives 403 unless it also matches the 401 rule |
| `Fetch.ErrorResponse` | Backend-Narrisia/app/api/endpoints/fetch.py:254-264 | a `ValueError` gives 401 with its text; any other exception gets the mapped status, and 500 carries "Failed to process emails: " and the message |
| `Fetch.FetchAndProcessEmails` | Backend-Narrisia/app/api/endpoints/fetch.py:216-264 | 401 without a token; mapped errors for a failing fetch or parse; empty lists for no messages; otherwise the parsed messages and the loop's records |
| `Fetch.FetchUnreadEmails` | Backend-Narrisia/app/api/endpoints/fetch.py:186-215 | the parsed messages exactly when there is a token and fetching and parsing succeed; 401 without a token; 500 for any other failure |
| `Orchestrate.Annotated` | Backend-Narrisia/app/api/endpoints/orchestrate.py:85-88 | the three keys are set to the classification, the sender and the snippet, and nothing else in the report changes |
| `Orchestrate.OrchestrateItem` | Backend-Narrisia/app/api/endpoints/orchestrate.py:39-90 | a message survives exactly when its research succeeds, and its record is the report with the three keys filled in |
| `Orchestrate.OrchestrateClassificationFor` | Backend-Narrisia/app/api/endpoints/orchestrate.py:56-82 | a failed intent call gives the "unknown" classification noting "Exception occurred: " and the error |
| `Orchestrate.OrchestrateStep` | Backend-Narrisia/app/api/endpoints/orchestrate.py:39-90 | the loop body keeps a message exactly when its research succeeds, and every record names its message's sender |
| `Orchestrate.SurvivesIffResearched` | Backend-Narrisia/app/api/endpoints/orchestrate.py:45-82 | the intent model cannot drop a message; the record names the sender and holds a preview of at most 300 characters that starts the snippet |
| `Orchestrate.ClassificationOfRecord` | Backend-Narrisia/app/api/endpoints/orchestrate.py:52-86 | the record holds the accepted classification, or the "unknown" one noting the format error for a non-dict or "intent"-less value |
| `Orchestrate.OrchestrateEmail` | Backend-Narrisia/app/api/endpoints/orchestrate.py:39-90 | the three assignments, in order, give `OrchestrateItem`'s record, or none where the research raises |
| `Orchestrate.Orchestrate` | Backend-Narrisia/app/api/endpoints/orchestrate.py:19-97 | 401 for an empty token; a fetch failure escapes; otherwise the records of the messages that do not raise, in input order |

## Left out

- Collaborators: the chat models, `ResearchEngine`, `json.loads`, `compute_credibility_score`, `EmailParser.parse_emails` and the Gmail fetch are function parameters. Their code is not part of this model. A model that answers differently to two calls with the same input is not modelled: each call is a function of its input.
- Prompts: the prompt texts, the model names and the temperatures only affect what the models answer, which is a parameter here. `calculate_relevancy_score` is modelled without its `email_content` and `company_info` arguments, which only reach the prompt; so the `TypeError` that `body[:1000]` (`relevancy_scorer.py:35`) raises for a non-sliceable body, such as `None`, is not modelled.
- Configuration: building the OpenAI, httpx, `ResearchEngine` and `CompanyDetailsService` clients is not modelled, and neither is a failure while building them or loading the settings. The model treats these steps as never raising.
- Logging: `print` and `logging` calls are left out. That includes `display_token` in `fetch_unread_emails`, which only formats a log line. The exception is the f-string slice on `relevancy_scorer.py:97`, which can raise and is modelled. The slice `body[:1000]` in the prompt of `relevancy_scorer.py:35` can also raise, for a message whose "body" is not sliceable; it is left out with the message itself (see "Prompts").
- Web framework: FastAPI routing, header aliases, `Depends(get_settings)` and the serialisation of the response models are left out. `report.dict()` and `classification_model.dict()` are modelled as the datatype values themselves.
- Concurrency: `async` and `await` are modelled as plain sequential calls, because nothing runs concurrently.
- Text:
  - `\w` and `\s` classes are modelled within ASCII, plus the whitespace characters Python's `str.isspace` lists, and `lower()`, `upper()` and `capitalize()` are ASCII-only. Unicode case mapping and non-ASCII word characters are not modelled, nor is the Unicode case folding of `re.IGNORECASE`, under which `ſ` matches `s` (so a fence tagged "jſon" counts as tagged in Python).
  - Python's `split` is modelled only as far as the core uses it: `split(".")`, and the `split('@')[-1].split('>')[0]` of line 123, which `AfterLast` and `BeforeFirst` model.
- Numbers: floats are modelled as exact reals, so rounding, `inf`, `nan` and overflow are not modelled. The `int` `0` of `fetch.py:90` is kept apart from a float where it is written out: `credibility_score` holds `0` when the report has no credibility and the details are empty (`Fetch.ScoreJson`). A recomputed score is written as a float, because the credibility scorer is not modelled and is taken to return a float.
- Pydantic:
  - Validation is modelled as strict types: text for `str`, a boolean for `bool`, a number (or a boolean) for `float`. Lax coercions pydantic also accepts, such as numeric strings for floats or `"true"` for booleans, are not modelled.
  - The texts of pydantic's and Python's type errors are the parameter `describe`. For a validation error it receives the model's name and every failing field, missing or refused with its value, in declaration order; the wording pydantic gives them is not modelled.
- Message fields: a message key is either missing or holds a string. A key present with value `None` is not modelled, because the Gmail service always writes strings.
- Dates: the pydantic `datetime` fields `Email.date` and `ResearchReport.research_date` (`schemas.py:21` and `schemas.py:55`) are kept as their text in `Schemas.Email.date` and `Schemas.ResearchReport.researchDate`; date parsing and validation are not modelled.
- Dictionary updates: the in-place key assignments of `orchestrate.py:85-88` are modelled as datatype updates in `Orchestrate.OrchestrateEmail`, because `report.dict()` is a fresh dictionary no one else holds.
- `Extract.GoogleExample` covers the Google example of the doc comment in general. The Pictory example of the doc comment is covered by the general lemmas `DisplayNameRule`, `UnknownTail` and `FirstLabelRule`, not by a separate lemma.
- `RelevancyScorer.UnsliceableExplanation`: the message of the `TypeError` follows CPython 3.11's wording, which other Python versions may phrase differently.
- `gmail_oauth_service.py`, `email_reader.py`, `main.py` and `config.py` are context only, not part of this model.
