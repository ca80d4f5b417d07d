/**
 * The collaborators the endpoints call but whose code is not part of this model: the two
 * chat models, the research engine, `json.loads`, `compute_credibility_score` and the text
 * of the exceptions pydantic raises. Each is a function of what it is given; a failing call
 * yields the text of the exception it raised. Also the HTTP responses the endpoints produce.
 */
module External {
  import opened Wrappers
  import opened Json
  import opened Schemas
  import opened Classification

  /** The keyword arguments of `compute_credibility_score(**enhanced_credibility_params)`. */
  datatype CredibilityParams = CredibilityParams(
    ageYears: Json,
    marketCap: Json,
    employees: Json,
    domainAge: Json,
    sentimentScore: Json,
    certified: Json,
    fundedByTopInvestors: Json)

  datatype Services = Services(
    research: string -> Result<ResearchReport, string>,       // `ResearchEngine.research_company`
    detailsModel: string -> Result<string, string>,           // the company-details chat call, by company name
    intentModel: string -> Result<string, string>,            // the intent chat call, by email text
    parse: string -> Result<Json, string>,                    // `json.loads`
    credibility: CredibilityParams -> Result<(real, map<string, real>), string>,
    describe: ClassifyError -> string)                        // `str(e)` of a rejected classification

  /** An exception reaching an endpoint's handler. */
  datatype Raised = ValueError(message: string) | OtherError(message: string)

  /** What an endpoint answers: a body, an `HTTPException`, or an exception it lets escape. */
  datatype Response<T> = Ok(body: T) | HttpFail(status: int, detail: string) | Unhandled(message: string)
}
