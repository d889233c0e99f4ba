/** The normalised feed shape shared by every stage (src/models/feed.ts). */
module FeedModel {
  import opened Wrappers

  /** One entry of the feed; `?` fields of the source are `Option`s. */
  datatype FeedItem = FeedItem(
    title: string,
    description: string,
    link: string,
    pubDate: Option<string>,
    author: Option<string>,
    categories: Option<seq<string>>,
    guid: Option<string>)

  /** A whole feed after normalisation, whichever dialect it came from. */
  datatype RssFeed = RssFeed(
    title: string,
    description: string,
    sourceUrl: string,
    link: Option<string>,
    lastBuildDate: Option<string>,
    items: seq<FeedItem>)
}

/** The user's filter request (src/models/filter.ts). */
module FilterModel {

  /** `type: 'keyword' | 'regex'` together with its pattern. */
  datatype FilterCriteria = Keyword(pattern: string) | Regex(pattern: string)
}

/** The error classes of src/lib/errors.ts, with their payloads.
    The human-readable messages are replaced by the reason that selects them. */
module Errors {
  import opened Wrappers

  /** Which check of the request validation rejected the request. */
  datatype ValidationReason =
    | MissingParams
    | MissingFeedUrl
    | InvalidFeedUrl
    | InvalidType
    | MissingPattern
    | InvalidRegex

  /** Why a fetched body could not be turned into a feed. */
  datatype ParseReason =
    | MalformedXml
    | NoFeedRoot
    | NoChannel

  datatype AppError =
    /** `FeedFetchError(url, statusCode?)`: transport failure (no status) or a non-ok response. */
    | FeedFetchError(url: string, statusCode: Option<int>)
    /** `ParseError(content)`: `content` is the diagnostic excerpt of the body. */
    | ParseError(content: string, cause: ParseReason)
    /** `FilterValidationError(pattern)`: `pattern` is the offending parameter value, or "". */
    | FilterValidationError(pattern: string, check: ValidationReason)
    /** `RegexTimeoutError(pattern)`. */
    | RegexTimeoutError(pattern: string)
    /** Any other exception reaching the handler. */
    | Unexpected
}
