/** The HTTP entry point of src/handlers/lambda.ts: request validation, the pipeline
    fetch → filter → render, and the translation of errors into responses.

    Everything the handler reaches outside this code is a parameter, bundled in `Host`:
    the network, the XML parser, the HTML entity decoder, the regular-expression engine
    (compilation and matching), the per-item matching times, and the texts of the error
    messages. */
module Lambda {
  import opened Wrappers
  import opened Strings
  import opened Sequences
  import opened FeedModel
  import opened FilterModel
  import opened Errors
  import opened XmlTree
  import opened FeedFilter
  import opened FeedFetcher
  import opened RssXml

  /* ---------------- request validation ---------------- */

  /** The validated request: where to fetch from and how to filter. */
  datatype Query = Query(feedUrl: string, criteria: FilterCriteria)

  /** `params.feedUrl` is present and not blank. */
  predicate HasFeedUrl(p: map<string, string>) {
    "feedUrl" in p && !IsBlank(p["feedUrl"])
  }

  /** The URL uses one of the two accepted schemes. */
  predicate HasHttpScheme(url: string) {
    StartsWith(url, "http://") || StartsWith(url, "https://")
  }

  /** `params.type` is one of the two filter kinds. */
  predicate HasFilterType(p: map<string, string>) {
    "type" in p && (p["type"] == "keyword" || p["type"] == "regex")
  }

  /** `params.pattern` is present and not blank. */
  predicate HasPattern(p: map<string, string>) {
    "pattern" in p && !IsBlank(p["pattern"])
  }

  /** A regular-expression request carries a pattern the engine accepts. */
  predicate CompilesIfRegex(p: map<string, string>, compiles: string -> bool)
    requires HasFilterType(p) && HasPattern(p)
  {
    p["type"] == "regex" ==> compiles(p["pattern"])
  }

  /** The request is rejected for `reason`. */
  predicate Rejected(r: Result<Query, AppError>, reason: ValidationReason) {
    r.Err? && r.error.FilterValidationError? && r.error.check == reason
  }

  /** `validateQueryParams(params)`: six checks in a fixed order; the first that fails decides
      the error. `compiles(p)` stands for `new RegExp(p)` not throwing. */
  function ValidateQueryParams(params: Option<map<string, string>>, compiles: string -> bool)
    : (r: Result<Query, AppError>)
    ensures r.Err? ==> r.error.FilterValidationError?
    ensures Rejected(r, MissingParams) <==> params.None?
    ensures Rejected(r, MissingFeedUrl) <==> params.Some? && !HasFeedUrl(params.value)
    ensures Rejected(r, InvalidFeedUrl) <==>
              params.Some? && HasFeedUrl(params.value) && !HasHttpScheme(params.value["feedUrl"])
    ensures Rejected(r, InvalidType) <==>
              params.Some? && HasFeedUrl(params.value) && HasHttpScheme(params.value["feedUrl"]) &&
              !HasFilterType(params.value)
    ensures Rejected(r, MissingPattern) <==>
              params.Some? && HasFeedUrl(params.value) && HasHttpScheme(params.value["feedUrl"]) &&
              HasFilterType(params.value) && !HasPattern(params.value)
    ensures Rejected(r, InvalidRegex) <==>
              params.Some? && HasFeedUrl(params.value) && HasHttpScheme(params.value["feedUrl"]) &&
              HasFilterType(params.value) && HasPattern(params.value) && !CompilesIfRegex(params.value, compiles)
    ensures r.Ok? <==>
              params.Some? && HasFeedUrl(params.value) && HasHttpScheme(params.value["feedUrl"]) &&
              HasFilterType(params.value) && HasPattern(params.value) && CompilesIfRegex(params.value, compiles)
    ensures r.Ok? ==>
              r.value.feedUrl == params.value["feedUrl"] &&
              r.value.criteria.pattern == params.value["pattern"] &&
              (r.value.criteria.Regex? <==> params.value["type"] == "regex")
    ensures Rejected(r, InvalidFeedUrl) ==> r.error.pattern == params.value["feedUrl"]
    ensures Rejected(r, InvalidType) ==> r.error.pattern == if "type" in params.value then params.value["type"] else ""
    ensures Rejected(r, InvalidRegex) ==> r.error.pattern == params.value["pattern"]
    ensures Rejected(r, MissingParams) || Rejected(r, MissingFeedUrl) || Rejected(r, MissingPattern) ==>
              r.error.pattern == ""
  {
    if params.None? then Err(FilterValidationError("", MissingParams))
    else
      var p := params.value;
      if !HasFeedUrl(p) then Err(FilterValidationError("", MissingFeedUrl))
      else if !HasHttpScheme(p["feedUrl"]) then Err(FilterValidationError(p["feedUrl"], InvalidFeedUrl))
      else if !HasFilterType(p) then
        Err(FilterValidationError(if "type" in p then p["type"] else "", InvalidType))
      else if !HasPattern(p) then Err(FilterValidationError("", MissingPattern))
      else if p["type"] == "regex" && !compiles(p["pattern"]) then
        Err(FilterValidationError(p["pattern"], InvalidRegex))
      else
        var criteria := if p["type"] == "regex" then Regex(p["pattern"]) else Keyword(p["pattern"]);
        Ok(Query(p["feedUrl"], criteria))
  }

  /* ---------------- responses ---------------- */

  /** An API Gateway proxy response; the only header set is `Content-Type`. */
  datatype Response = Response(statusCode: int, contentType: string, body: string)

  const XmlContentType: string := "application/xml; charset=utf-8"
  const TextContentType: string := "text/plain; charset=utf-8"
  const InternalErrorBody: string := "Internal Server Error"

  /** `handleError(error)`: a validation error is the client's fault (400); every other
      known error is the server's (500) and shows its message (`describe`); anything else
      is a 500 with a fixed body. */
  function HandleError(e: AppError, describe: AppError -> string): (resp: Response)
    ensures resp.statusCode == 400 <==> e.FilterValidationError?
    ensures resp.statusCode == 400 || resp.statusCode == 500
    ensures resp.contentType == TextContentType
    ensures !e.Unexpected? ==> resp.body == describe(e)
    ensures e.Unexpected? ==> resp.body == InternalErrorBody
  {
    match e
    case FilterValidationError(_, _) => Response(400, TextContentType, describe(e))
    case FeedFetchError(_, _) => Response(500, TextContentType, describe(e))
    case ParseError(_, _) => Response(500, TextContentType, describe(e))
    case RegexTimeoutError(_) => Response(500, TextContentType, describe(e))
    case Unexpected => Response(500, TextContentType, InternalErrorBody)
  }

  /* ---------------- the handler ---------------- */

  /** What the handler can observe of the outside world. `elapsedMs(i)` is the time the
      regular-expression test on the i-th fetched item takes. */
  datatype Host = Host(
    fetch: string -> FetchOutcome,
    parseXml: string -> Option<map<string, Node>>,
    decode: string -> string,
    compiles: string -> bool,
    matches: (string, string) -> bool,
    elapsedMs: nat -> int,
    describe: AppError -> string)

  /** The matching times of `n` items. */
  function Timings(host: Host, n: nat): (t: seq<int>)
    ensures |t| == n
    ensures forall i | 0 <= i < n :: t[i] == host.elapsedMs(i)
  {
    seq(n, i requires 0 <= i < n => host.elapsedMs(i))
  }

  /** One invocation: the response, and the URL the handler fetched, if it fetched at all. */
  datatype Invocation = Invocation(response: Response, fetched: Option<string>)

  /** `handler(event)`: validate, fetch, filter, render; any error goes through `handleError`. */
  function Handler(params: Option<map<string, string>>, host: Host): (inv: Invocation)
    ensures inv.fetched.None? <==> ValidateQueryParams(params, host.compiles).Err?
    ensures inv.fetched.Some? ==>
              inv.fetched.value == params.value["feedUrl"] && HasHttpScheme(inv.fetched.value)
    ensures inv.response.statusCode == 400 <==> inv.fetched.None?
    ensures inv.response.statusCode in {200, 400, 500}
    ensures inv.response.statusCode == 200 <==> inv.response.contentType == XmlContentType
  {
    match ValidateQueryParams(params, host.compiles)
    case Err(e) => Invocation(HandleError(e, host.describe), None)
    case Ok(q) =>
      var served := Serve(q, host);
      Invocation(served, Some(q.feedUrl))
  }

  /** The part of the handler after validation. */
  function Serve(q: Query, host: Host): (resp: Response)
    ensures resp.statusCode == 200 || resp.statusCode == 500
    ensures resp.statusCode == 200 <==> resp.contentType == XmlContentType
  {
    match FetchFeed(q.feedUrl, host.fetch(q.feedUrl), host.parseXml, host.decode)
    case Err(e) => HandleError(e, host.describe)
    case Ok(feed) =>
      match ApplyFilter(feed.items, q.criteria, host.matches, Timings(host, |feed.items|))
      case Err(e) => HandleError(e, host.describe)
      case Ok(kept) =>
        Response(200, XmlContentType, RssDocument(feed.title, feed.description, feed.link, kept))
  }

  /* ---------------- properties of the handler ---------------- */

  /** A rejected request is answered with 400 and its message, and the feed is never fetched. */
  lemma HandlerRejects(params: Option<map<string, string>>, host: Host)
    requires ValidateQueryParams(params, host.compiles).Err?
    ensures var e := ValidateQueryParams(params, host.compiles).error;
      Handler(params, host) == Invocation(Response(400, TextContentType, host.describe(e)), None)
  {
  }

  /** A network failure or a non-2xx status becomes a 500 carrying the fetch error's message. */
  lemma HandlerReportsFetchFailure(params: Option<map<string, string>>, host: Host, q: Query)
    requires ValidateQueryParams(params, host.compiles) == Ok(q)
    ensures host.fetch(q.feedUrl).NetworkFailure? ==>
      Handler(params, host).response == Response(500, TextContentType, host.describe(FeedFetchError(q.feedUrl, None)))
    ensures host.fetch(q.feedUrl).HttpResponse? && !IsOkStatus(host.fetch(q.feedUrl).status) ==>
      Handler(params, host).response ==
        Response(500, TextContentType, host.describe(FeedFetchError(q.feedUrl, Some(host.fetch(q.feedUrl).status))))
  {
  }

  /** A regular-expression filter that runs over budget on any fetched item turns the whole
      request into a 500 carrying the timeout's message: no partial feed is served. */
  lemma HandlerReportsTimeout(params: Option<map<string, string>>, host: Host, q: Query, feed: RssFeed, i: nat)
    requires ValidateQueryParams(params, host.compiles) == Ok(q) && q.criteria.Regex?
    requires FetchFeed(q.feedUrl, host.fetch(q.feedUrl), host.parseXml, host.decode) == Ok(feed)
    requires i < |feed.items| && host.elapsedMs(i) > RegexTimeoutMs
    ensures Handler(params, host).response ==
              Response(500, TextContentType, host.describe(RegexTimeoutError(q.criteria.pattern)))
  {
    var t := Timings(host, |feed.items|);
    assert t[i] > RegexTimeoutMs;
  }

  /** A keyword request whose feed was fetched and parsed is always served: the feed's own
      title, description and link, followed by exactly the items that mention the keyword,
      in their original order. */
  lemma HandlerServesKeyword(params: Option<map<string, string>>, host: Host, q: Query, feed: RssFeed)
    requires ValidateQueryParams(params, host.compiles) == Ok(q) && q.criteria.Keyword?
    requires FetchFeed(q.feedUrl, host.fetch(q.feedUrl), host.parseXml, host.decode) == Ok(feed)
    ensures var kept := ApplyKeywordFilter(feed.items, q.criteria.pattern);
      && Handler(params, host) ==
           Invocation(Response(200, XmlContentType, RssDocument(feed.title, feed.description, feed.link, kept)),
                      Some(params.value["feedUrl"]))
      && IsSubsequence(kept, feed.items)
      && (forall k | 0 <= k < |kept| :: MentionsKeyword(kept[k], q.criteria.pattern))
      && Count(Handler(params, host).response.body, OpenTag("item")) == |kept|
  {
    var kept := ApplyKeywordFilter(feed.items, q.criteria.pattern);
    DocumentItemCount(feed.title, feed.description, feed.link, kept);
  }

  /** A regular-expression request is served exactly when its feed was fetched and every
      match stayed within budget; the body then lists exactly the items whose title and
      description the expression matches, in order. */
  lemma HandlerServesRegex(params: Option<map<string, string>>, host: Host, q: Query)
    requires ValidateQueryParams(params, host.compiles) == Ok(q) && q.criteria.Regex?
    ensures var r := FetchFeed(q.feedUrl, host.fetch(q.feedUrl), host.parseXml, host.decode);
      Handler(params, host).response.statusCode == 200 <==>
        r.Ok? && forall i | 0 <= i < |r.value.items| :: host.elapsedMs(i) <= RegexTimeoutMs
    ensures var r := FetchFeed(q.feedUrl, host.fetch(q.feedUrl), host.parseXml, host.decode);
      Handler(params, host).response.statusCode == 200 ==>
        var kept := Filter(r.value.items, RegexHit(q.criteria.pattern, host.matches));
        && Handler(params, host).response.body == RssDocument(r.value.title, r.value.description, r.value.link, kept)
        && Count(Handler(params, host).response.body, OpenTag("item")) == |kept|
  {
    var r := FetchFeed(q.feedUrl, host.fetch(q.feedUrl), host.parseXml, host.decode);
    assert Handler(params, host).response == Serve(q, host);
    if r.Ok? {
      var feed := r.value;
      var t := Timings(host, |feed.items|);
      assert ApplyFilter(feed.items, q.criteria, host.matches, t)
          == ApplyRegexFilter(feed.items, q.criteria.pattern, host.matches, t);
      assert (forall i | 0 <= i < |feed.items| :: host.elapsedMs(i) <= RegexTimeoutMs)
         <==> (forall i | 0 <= i < |feed.items| :: t[i] <= RegexTimeoutMs);
      var kept := Filter(feed.items, RegexHit(q.criteria.pattern, host.matches));
      DocumentItemCount(feed.title, feed.description, feed.link, kept);
    }
  }
}
