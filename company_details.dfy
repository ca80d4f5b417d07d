/**
 * `CompanyDetailsService.get_comprehensive_details`: the JSON object is cut out of the
 * model's reply from the first `{` to the last `}` and parsed; without such a span, on a
 * parse error or when the call fails, a fallback record derived from the name is returned.
 */
module CompanyDetails {
  import opened Wrappers
  import opened Text
  import opened Json

  /** `re.search(r'\{[\s\S]*\}', raw)`: from the first `{` to the last `}`, if one follows it. */
  function JsonCandidate(raw: string): (r: Option<string>)
    ensures r.Some? <==> exists i, j :: 0 <= i < j < |raw| && raw[i] == '{' && raw[j] == '}'
  {
    match FirstIndexFrom(raw, '{', 0)
    case None => None
    case Some(i) =>
      match LastIndexOf(raw, '}')
      case Some(j) => if i < j then Some(raw[i..j + 1]) else None
      case None => None
  }

  /** The candidate is exactly the span between the first `{` and the last `}`, both included. */
  lemma CandidateSpan(raw: string, i: nat, j: nat)
    requires i < j < |raw| && raw[i] == '{' && raw[j] == '}'
    requires forall k :: 0 <= k < i ==> raw[k] != '{'
    requires forall k :: j < k < |raw| ==> raw[k] != '}'
    ensures JsonCandidate(raw) == Some(raw[i..j + 1])
    ensures raw[i..j + 1][0] == '{' && raw[i..j + 1][j - i] == '}'
  {
    var first := FirstIndexFrom(raw, '{', 0);
    var last := LastIndexOf(raw, '}');
    assert first == Some(i);
    assert last == Some(j);
  }

  /** `_get_fallback_data(company_name)`. */
  function FallbackData(name: string): (d: map<string, Json>)
    ensures "company_name" in d && d["company_name"] == JStr(name)
  {
    map[
      "company_name" := JStr(name),
      "industry" := JStr("Unknown"),
      "company_size" := JStr("Unknown"),
      "founded" := JInt(2020),
      "market_cap" := JInt(0),
      "revenue" := JInt(0),
      "funding_status" := JStr("Unknown"),
      "investors" := JArray([JStr("Unknown")]),
      "domain_age" := JInt(5),
      "ssl_certificate" := JBool(true),
      "business_verified" := JBool(true),
      "employee_count" := JInt(0),
      "headquarters" := JStr("Unknown"),
      "website" := JStr("https://" + Lower(name) + ".com"),
      "description" := JStr("Company details not available"),
      "key_products" := JArray([JStr("Unknown")]),
      "competitors" := JArray([JStr("Unknown")]),
      "business_model" := JStr("Unknown"),
      "reputation_score" := JFloat(0.5)]
  }

  /** The fallback echoes the name and derives the website from it. */
  lemma FallbackEchoesName(name: string)
    ensures FallbackData(name)["company_name"] == JStr(name)
    ensures FallbackData(name)["website"] == JStr("https://" + Lower(name) + ".com")
  {
  }

  /** The fallback's figures are fixed: founded 2020, no market cap, revenue or employees,
      a five-year-old domain and a neutral reputation. */
  lemma FallbackFigures(name: string)
    ensures var d := FallbackData(name);
      && d["founded"] == JInt(2020) && d["market_cap"] == JInt(0) && d["revenue"] == JInt(0)
      && d["domain_age"] == JInt(5) && d["employee_count"] == JInt(0) && d["reputation_score"] == JFloat(0.5)
  {
  }

  /** The fallback lists one "Unknown" investor, claims a certificate and a verified business,
      and has no "sentiment_score", which the credibility recomputation then takes from the
      raw metrics. */
  lemma FallbackFlags(name: string)
    ensures var d := FallbackData(name);
      && d["investors"] == JArray([JStr("Unknown")])
      && d["ssl_certificate"] == JBool(true) && d["business_verified"] == JBool(true)
      && "sentiment_score" !in d
  {
  }

  /** Different names give different fallbacks, and only the name and website depend on it. */
  lemma FallbackDeterminedByName(a: string, b: string)
    ensures FallbackData(a) == FallbackData(b) <==> a == b
    ensures forall k :: k in FallbackData(a) && k != "company_name" && k != "website" ==> FallbackData(a)[k] == FallbackData(b)[k]
  {
    if FallbackData(a) == FallbackData(b) {
      assert FallbackData(a)["company_name"] == FallbackData(b)["company_name"];
    }
  }

  /** `get_comprehensive_details(company_name)`, with the model's reply (or the text of the
      exception the call raised) and `json.loads` as parameters. It never fails: every
      failure yields the fallback, and a parsed candidate is returned whatever its shape. */
  function GetComprehensiveDetails(name: string, reply: Result<string, string>, parse: string -> Result<Json, string>)
    : (j: Json)
    ensures reply.Failure? ==> j == JObject(FallbackData(name))
    ensures reply.Success? && JsonCandidate(Strip(reply.value)).None? ==> j == JObject(FallbackData(name))
    ensures reply.Success? && JsonCandidate(Strip(reply.value)).Some? ==>
      var parsed := parse(JsonCandidate(Strip(reply.value)).value);
      j == (if parsed.Success? then parsed.value else JObject(FallbackData(name)))
  {
    match reply
    case Failure(_) => JObject(FallbackData(name))
    case Success(content) =>
      var raw := Strip(content);
      match JsonCandidate(raw)
      case None => JObject(FallbackData(name))
      case Some(candidate) =>
        match parse(candidate)
        case Success(data) => data
        case Failure(_) => JObject(FallbackData(name))
  }

  /** Text around a braced span, without braces of the wrong kind, leaves that span as the
      candidate, and the span alone is its own candidate. */
  lemma CandidateOfWrapped(before: string, obj: string, after: string)
    requires '{' !in before && '}' !in after
    requires |obj| >= 2 && obj[0] == '{' && obj[|obj| - 1] == '}'
    ensures JsonCandidate(before + obj + after) == Some(obj)
    ensures JsonCandidate(obj) == Some(obj)
  {
    var raw := before + obj + after;
    var i, j := |before|, |before| + |obj| - 1;
    assert raw[i] == '{' && raw[j] == '}';
    forall k | 0 <= k < i ensures raw[k] != '{' {
      assert raw[k] == before[k];
    }
    forall k | j < k < |raw| ensures raw[k] != '}' {
      assert raw[k] == after[k - |before| - |obj|];
    }
    CandidateSpan(raw, i, j);
    assert raw[i..j + 1] == obj;
    CandidateSpan(obj, 0, |obj| - 1);
    assert obj[0..|obj|] == obj;
  }

  /** Only the span between the braces reaches the parser: the text around it is ignored. */
  lemma SurroundingTextIgnored(name: string, before: string, obj: string, after: string, parse: string -> Result<Json, string>)
    requires '{' !in before && '}' !in after
    requires |obj| >= 2 && obj[0] == '{' && obj[|obj| - 1] == '}'
    requires var raw := before + obj + after; Strip(raw) == raw
    ensures GetComprehensiveDetails(name, Success(before + obj + after), parse)
      == GetComprehensiveDetails(name, Success(obj), parse)
  {
    StripKeepsTrimmed(obj);
    CandidateOfWrapped(before, obj, after);
  }
}
