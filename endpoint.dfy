/**
 * The `/analyze` endpoint: answers a CORS preflight, checks the request,
 * runs the analysis on the trimmed query and turns the outcome into an
 * HTTP status and a JSON body.
 */
module Endpoint {
  import opened Outcomes
  import opened PyText
  import opened JsonValue
  import opened ConceptualLink
  import opened Insight

  datatype Method = Options | Post

  /** The JSON body of a reply; every `Failure` carries `"status": "error"`. */
  datatype ReplyBody =
    | Preflight
    | Analysis(result: AnalysisResult)
    | Failure(message: string, details: Option<string>)

  datatype Reply = Reply(code: nat, body: ReplyBody)

  // The messages are written as short pieces joined by `+`, which keeps the
  // verifier's work on the literals small.
  const NotJson: string := "Content-Type must be " + "application/json"
  const MissingQuery: string := "Missing 'query' in " + "request body"
  const EmptyQuery: string := "Query cannot be empty"
  const InternalError: string := "An internal server " + "error occurred."
  const AnalysisError: string := "Aether encountered an " + "internal conceptual " + "processing error."
  const AnalysisDetailsPrefix: string := "Error in Aether's " + "core analysis: "

  /** The message `str(e)` of the `AttributeError` raised by `.strip()` on a non-string. */
  function NoStripMessage(v: Json): string {
    "'" + TypeName(v) + "' object has no attribute 'strip'"
  }

  /**
   * Lines 262-285: the checks before the analysis, in their order. The
   * request must be JSON, its object must hold `query`, the query must be a
   * string (`.strip()` on anything else raises, and the outer handler makes
   * that a 500), and what is left after trimming must be non-empty. On
   * success the result is the trimmed query.
   */
  function CheckRequest(isJson: bool, data: JsonObject): (r: Result<string, Reply>)
    ensures r.Ok? <==> isJson && "query" in data && data["query"].JString? && Strip(data["query"].s) != []
    ensures r.Ok? ==> r.value == Strip(data["query"].s) && r.value != [] && IsTrimmed(r.value)
    ensures !isJson ==> r == Err(Reply(400, Failure(NotJson, None)))
    ensures isJson && "query" !in data ==> r == Err(Reply(400, Failure(MissingQuery, None)))
    ensures isJson && "query" in data && !data["query"].JString? ==>
              r == Err(Reply(500, Failure(InternalError, Some(NoStripMessage(data["query"])))))
    ensures isJson && "query" in data && data["query"].JString? && Strip(data["query"].s) == [] ==>
              r == Err(Reply(400, Failure(EmptyQuery, None)))
  {
    if !isJson then Err(Reply(400, Failure(NotJson, None)))
    else if "query" !in data then Err(Reply(400, Failure(MissingQuery, None)))
    else match data["query"]
      case JString(q) =>
        var query := Strip(q);
        if query == [] then Err(Reply(400, Failure(EmptyQuery, None))) else Ok(query)
      case other => Err(Reply(500, Failure(InternalError, Some(NoStripMessage(other)))))
  }

  /**
   * `analyze_concept`: a preflight is answered with 200; a request that
   * passes the checks is analysed and answered with 200 and the analysis,
   * or with 500 when the analysis raised.
   */
  function AnalyzeConcept(lib: Collaborators, httpMethod: Method, isJson: bool, data: JsonObject, reply: ModelReply): (r: Reply)
    ensures httpMethod.Options? ==> r == Reply(200, Preflight)
    ensures httpMethod.Post? && CheckRequest(isJson, data).Err? ==> r == CheckRequest(isJson, data).error
    ensures httpMethod.Post? && CheckRequest(isJson, data).Ok? && ApplyAnalysis(lib, CheckRequest(isJson, data).value, reply).Ok? ==>
              r == Reply(200, Analysis(ApplyAnalysis(lib, CheckRequest(isJson, data).value, reply).value))
    ensures httpMethod.Post? && CheckRequest(isJson, data).Ok? && ApplyAnalysis(lib, CheckRequest(isJson, data).value, reply).Err? ==>
              r == Reply(500, Failure(AnalysisError, Some(AnalysisDetailsPrefix + ApplyAnalysis(lib, CheckRequest(isJson, data).value, reply).error)))
    ensures r.code == 200 || r.code == 400 || r.code == 500
    ensures r.code == 200 <==> httpMethod.Options? || (CheckRequest(isJson, data).Ok? && r.body.Analysis?)
    ensures r.body.Analysis? ==>
              && CheckRequest(isJson, data).Ok?
              && r.body.result.status == "success"
              && r.body.result.inputQuery == Strip(data["query"].s)
              && Contains(r.body.result.report, "\"" + Strip(data["query"].s) + "\"")
  {
    match httpMethod
    case Options => Reply(200, Preflight)
    case Post =>
      match CheckRequest(isJson, data)
      case Err(failure) => failure
      case Ok(query) =>
        match ApplyAnalysis(lib, query, reply)
        case Ok(result) => Reply(200, Analysis(result))
        case Err(e) => Reply(500, Failure(AnalysisError, Some(AnalysisDetailsPrefix + e)))
  }

  /** A query of nothing but whitespace is refused as empty. */
  lemma BlankQueryRejected(lib: Collaborators, data: JsonObject, reply: ModelReply)
    requires "query" in data && data["query"].JString? && AllSpace(data["query"].s)
    ensures AnalyzeConcept(lib, Post, true, data, reply) == Reply(400, Failure(EmptyQuery, None))
  {
    StripAllSpace(data["query"].s);
  }

  /** Whitespace around the query changes nothing in the reply, the echoed query included. */
  lemma PaddingIsIgnored(lib: Collaborators, data: JsonObject, pre: string, q: string, post: string, reply: ModelReply)
    requires "query" in data && data["query"] == JString(pre + q + post)
    requires AllSpace(pre) && AllSpace(post)
    ensures AnalyzeConcept(lib, Post, true, data, reply) == AnalyzeConcept(lib, Post, true, data["query" := JString(q)], reply)
  {
    StripPadded(pre, q, post);
    var padded := data["query" := JString(q)];
    assert CheckRequest(true, data) == CheckRequest(true, padded);
    SameCheckSameReply(lib, Post, true, data, padded, reply);
  }

  /** The reply depends on the request only through the outcome of its checks. */
  lemma SameCheckSameReply(lib: Collaborators, httpMethod: Method, isJson: bool, d1: JsonObject, d2: JsonObject, reply: ModelReply)
    requires CheckRequest(isJson, d1) == CheckRequest(isJson, d2)
    ensures AnalyzeConcept(lib, httpMethod, isJson, d1, reply) == AnalyzeConcept(lib, httpMethod, isJson, d2, reply)
  {
  }

  /**
   * A failing model call never fails the request: a string query with a
   * non-whitespace character at position `k` is answered with 200 and an
   * analysis of the trimmed query.
   */
  lemma FailedModelStillAnswers(lib: Collaborators, data: JsonObject, q: string, k: nat)
    requires "query" in data && data["query"] == JString(q)
    requires k < |q| && !IsSpace(q[k])
    ensures var r := AnalyzeConcept(lib, Post, true, data, CallFailed);
            r.code == 200 && r.body.Analysis? && r.body.result.inputQuery == Strip(q)
  {
    NonBlankStripsNonEmpty(q, k);
    var query := Strip(q);
    FailedCallUsesFallback(lib.show, lib.loads, query, Select(lib.sha256, query));
  }

  /** The 500 reply of a failed analysis names the error it came from, and it happens only when the model replied. */
  lemma AnalysisFailureDetails(lib: Collaborators, data: JsonObject, reply: ModelReply)
    ensures CheckRequest(true, data).Ok? && ApplyAnalysis(lib, CheckRequest(true, data).value, reply).Err? ==>
              && AnalyzeConcept(lib, Post, true, data, reply)
                 == Reply(500, Failure(AnalysisError, Some(AnalysisDetailsPrefix + ApplyAnalysis(lib, CheckRequest(true, data).value, reply).error)))
              && reply.Replied?
  {
    if CheckRequest(true, data).Ok? {
      var q := CheckRequest(true, data).value;
      OnlyTheModelPlanFails(lib.show, lib.loads, q, Select(lib.sha256, q), reply);
    }
  }
}
