# rss-filter, modelled in Dafny

rss-filter is an HTTP function that fetches an RSS or Atom feed and serves it back filtered. It keeps the items whose title or description matches a keyword or a regular expression, and re-serialises them as RSS 2.0. This project models its three-stage pipeline and proves properties of it:

1. **Normalise.** Fetch the feed and turn the RSS or Atom tree into one item shape (`FeedFetcher`, over `XmlTree`).
2. **Filter.** Keyword or regular expression, with a 2000 ms budget per item (`FeedFilter`).
3. **Serialise.** Write the RSS 2.0 document with XML escaping (`XmlEscape`, `RssXml`).

The request validator and the error-to-response table of the handler are modelled as well (`Lambda`). `Scenarios` pins down concrete cases taken from the repository's tests.

Modules:

| file | module | models |
|---|---|---|
| wrappers.dfy | `Wrappers` | `Option` and `Result` |
| sequences.dfy | `Sequences` | `Array.prototype.filter` and subsequences |
| strings.dfy | `Strings` | `toLowerCase`, `startsWith`, `endsWith`, `includes`, `trim` emptiness, `join`, and occurrence counting |
| models.dfy | `FeedModel`, `FilterModel`, `Errors` | src/models/feed.ts, src/models/filter.ts, src/lib/errors.ts |
| xml_tree.dfy | `XmlTree` | the parser's output tree, plus JavaScript truthiness, `String()` and property reads on it |
| feed_filter.dfy | `FeedFilter` | src/services/feed-filter.ts |
| feed_fetcher.dfy | `FeedFetcher` | src/services/feed-fetcher.ts |
| xml_escape.dfy | `XmlEscape` | `escapeXml` inside `generateRSSXML` |
| rss_xml.dfy | `RssXml` | `generateRSSXML` |
| lambda.dfy | `Lambda` | `handler`, `validateQueryParams`, `handleError` |
| scenarios.dfy | `Scenarios` | concrete cases |

Everything the code reaches outside itself is a function-valued parameter. That covers the network (a `FetchOutcome`), the XML parser, `decodeHtmlEntities`, the regular-expression engine (`compiles` and `matches`), the clock (the matching time of each item) and the texts of the error messages. The error messages are replaced by the reason that selects them.

Some behaviours of the code are easy to misread; the model keeps them as the code has them:
- **Tags after decoding.** Item titles and descriptions are tag-stripped *before* entity decoding. Decoding can therefore reintroduce `<…>`, and the channel title is not stripped at all.
- **Categories.** Categories are not entity-decoded.
- **Optional elements.** An optional element is omitted not only when its value is absent but also when it is the empty string (JavaScript truthiness).
- **Parse-error content.** A `ParseError` raised while normalising is re-wrapped by `fetchFeed`. Its content is therefore the body's first min(200, body length) characters, in place of the `''` that `parseFeedData` and `parseRSS` give it.
- **Array channel.** An RSS `channel` that is an array passes the "is an object" check, because `typeof [] === 'object'`.

## Model

| member | source | states |
|---|---|---|
| Sequences.Filter | src/services/feed-filter.ts:8-13 | `items.filter(p)` keeps an order-preserving subsequence, every kept element satisfies `p`, and each element keeps exactly its multiplicity if it satisfies `p` and vanishes otherwise |
| FeedFilter.ApplyKeywordFilter | src/services/feed-filter.ts:5-14 | the result is an order-preserving subsequence of the items; each item occurrence is kept iff the lower-cased pattern occurs in the lower-cased title or the lower-cased description; the pattern is literal text |
| FeedFilter.KeywordCaseInsensitive | src/services/feed-filter.ts:6-12 | patterns that differ only in letter case (`news`, `NEWS`, `NeWs`) select the same items |
| FeedFilter.RunRegexFilter | src/services/feed-filter.ts:16-44 | items are tested in order on `title + " " + description`; the run stops right after the first item whose match took more than 2000 ms, with `RegexTimeoutError(pattern)`; it succeeds iff no item took more than 2000 ms (exactly 2000 passes), and then returns the matching items in order |
| FeedFilter.ApplyRegexFilter | src/services/feed-filter.ts:16-44 | all-or-nothing: success iff every match stayed within the budget; on success, a subsequence of the items each of which the expression matches, with each matching item kept exactly; on failure, the timeout error carrying the pattern |
| FeedFilter.ApplyFilter | src/services/feed-filter.ts:46-56 | a keyword criteria runs the keyword filter and never fails; a regex criteria runs the regex filter; the only error is the regex timeout |
| XmlTree.IfTruthyOrEmpty | src/services/feed-fetcher.ts:71-74 | the two ways a field is read agree: `v ? String(v) : undefined`, with "" for `undefined`, is the read with an empty-string fallback used for titles and links |
| XmlTree.SingleAsList | src/services/feed-fetcher.ts:77-79 | a truthy element that occurs once is read exactly like a one-element list holding it |
| FeedFetcher.StripHtmlTags | src/services/feed-fetcher.ts:202-204 | the result is a subsequence of the input with no `<` followed later by `>`; text with no `<` (or no `>`) is unchanged |
| FeedFetcher.StripTagFree | src/services/feed-fetcher.ts:202-204 | text without a complete tag is a fixed point |
| FeedFetcher.StripErasesTagSpan | src/services/feed-fetcher.ts:202-204 | only tag spans are erased: before the first `<` every character is kept, and a `<` through the next `>` is removed as a whole, so `a<t>b` strips to `a` followed by the stripped `b` |
| FeedFetcher.StripKeepsPlainPrefix | src/services/feed-fetcher.ts:202-204 | text with no `<` in front of the rest is kept unchanged |
| FeedFetcher.StripIdempotent | src/services/feed-fetcher.ts:202-204 | stripping twice equals stripping once |
| FeedFetcher.ParseRssItem | src/services/feed-fetcher.ts:92-115 | title and description are `String(v)` of their element, stripped of tags, then decoded, and the decoding of "" when the element is absent or empty; the link is `String(v)` or ""; `pubDate`, `author` and `guid` are absent exactly when their element is absent or empty, and otherwise `String(v)`; categories are absent likewise, and otherwise one `String(cat)` per `category` element, in order |
| FeedFetcher.ParseRss | src/services/feed-fetcher.ts:64-90 | fails with the channel reason exactly when `channel` is missing or not an object; otherwise the channel's title and description are the decoded `String(v)`, or the decoding of "" when absent or empty; link and build date are absent exactly when absent or empty, and otherwise `String(v)`; the items are the parsed `item` elements, in order, zero or more |
| FeedFetcher.FindAlternate | src/services/feed-fetcher.ts:125-131 | returns the index of the first link whose `@_rel` is exactly `alternate`, or none if no link has it |
| FeedFetcher.AlternateHref | src/services/feed-fetcher.ts:122-135 | a link is read iff some link is the first one whose `@_rel` is `alternate` and that link has an `@_href`; the link read is then `String` of that `@_href` |
| FeedFetcher.ParseAtomEntry | src/services/feed-fetcher.ts:153-200 | title and summary are `String(v)` stripped of tags then decoded, or the decoding of "" when absent or empty; the link is the first alternate `@_href` or ""; `pubDate` is `String(updated)` and `guid` is `String(id)`, each absent exactly when its element is absent or empty; the author is `String(name)` of an author object, present iff that `name` is truthy; categories are one entry per `category` element, in order, the `@_term` of a structured one and `String(cat)` otherwise |
| FeedFetcher.ParseAtom | src/services/feed-fetcher.ts:117-151 | never fails; title and subtitle are the decoded `String(v)`, or the decoding of "" when absent or empty; `updated` becomes the build date, absent exactly when absent or empty; the feed link is the first alternate `@_href`; the items are the parsed entries, in order |
| FeedFetcher.ParseFeedData | src/services/feed-fetcher.ts:52-62 | an object `rss` root is parsed as RSS even when `feed` is also present; otherwise an object `feed` root is parsed as Atom; otherwise it fails with "no feed root" |
| FeedFetcher.ParseFeedDataFails | src/services/feed-fetcher.ts:52-69 | normalisation fails exactly when there is no feed root, or when an RSS root lacks an object channel |
| FeedFetcher.ParseRssSingleItem | src/services/feed-fetcher.ts:77-80 | a channel with one `item` parses exactly like one whose `item` is a one-element list |
| FeedFetcher.ParseAtomSingleEntry | src/services/feed-fetcher.ts:138-141 | a feed with one `entry` parses exactly like one whose `entry` is a one-element list |
| FeedFetcher.ParseRssItemSingleCategory | src/services/feed-fetcher.ts:101-104 | an RSS item with one `category` parses exactly like one whose `category` is a one-element list |
| FeedFetcher.ParseAtomEntrySingleCategory | src/services/feed-fetcher.ts:180-187 | an Atom entry with one `category` parses exactly like one whose `category` is a one-element list |
| FeedFetcher.ParseRssItemTagFree | src/services/feed-fetcher.ts:106-108 | an RSS item's title and description are each the decoding of a text with no complete tag |
| FeedFetcher.ParseAtomEntryTagFree | src/services/feed-fetcher.ts:191-193 | an Atom entry's title and description are each the decoding of a text with no complete tag |
| FeedFetcher.ParseFeedDataTagFree | src/services/feed-fetcher.ts:52-62 | in either dialect, every normalised item's title and description is the decoding of a text with no complete tag |
| FeedFetcher.Excerpt | src/services/feed-fetcher.ts:46 | the excerpt is a prefix of the body of length min(200, body length) |
| FeedFetcher.FetchFeed | src/services/feed-fetcher.ts:14-50 | a transport failure is a `FeedFetchError` without status; a non-2xx status is a `FeedFetchError` with that status; a 2xx response that fails is always a `ParseError` holding the body's excerpt, whether the parser or the normaliser rejected it; success iff the status is 2xx, the body parses and normalisation succeeds |
| XmlEscape.ReplaceAll | src/handlers/lambda.ts:146-150 | a global one-character replacement leaves no occurrence of that character when the replacement does not contain it |
| XmlEscape.EscapeXml | src/handlers/lambda.ts:144-151 | the escaped text contains no `<`, `>`, `"` or `'`; every `&` in it starts one of the five entities; it is never shorter than the input |
| XmlEscape.ChainedEscapeIsPerChar | src/handlers/lambda.ts:144-151 | the five chained global replacements, `&` first, equal the per-character escape: no character is escaped twice |
| XmlEscape.UnescapeEscape | src/handlers/lambda.ts:144-151 | decoding the five entities recovers the original text from its escape |
| RssXml.GenerateRssXml | src/handlers/lambda.ts:136-183 | the line-by-line builder produces the whole document: declaration, `rss` and `channel` opening first, channel and `rss` closing last, exactly one `<channel>` and one `<item>` per item |
| RssXml.ItemsXmlAppend | src/handlers/lambda.ts:162-177 | items are written in input order: the lines of `a + b` are the lines of `a` followed by those of `b` |
| RssXml.DocumentFrame | src/handlers/lambda.ts:153-180 | every document starts with the declaration and the `rss` and `channel` opening lines and ends with their closing lines |
| RssXml.DocumentTagCount | src/handlers/lambda.ts:153-180 | for every element name, the number of opening tags `<name>` equals the channel's profile (one `channel`, `title`, `description`, plus `link` when non-empty) plus each item's profile (one `item`, `title`, `description`, `link`, plus `pubDate`, `author`, `guid` when non-empty) |
| RssXml.DocumentChannelCount | src/handlers/lambda.ts:155 | the document has exactly one `<channel>`, even with zero items |
| RssXml.DocumentItemCount | src/handlers/lambda.ts:162-163 | the document has exactly one `<item>` per input item |
| RssXml.DocumentTitleCount | src/handlers/lambda.ts:156-164 | one `<title>` for the channel plus one per item |
| RssXml.DocumentLinkCount | src/handlers/lambda.ts:158-166 | the channel's `<link>` is written only when its link is non-empty, and each item always gets a `<link>`, even an empty one |
| RssXml.DocumentPubDateCount | src/handlers/lambda.ts:167-169 | the number of `<pubDate>` tags is the number of items with a non-empty publication date |
| RssXml.DocumentAuthorCount | src/handlers/lambda.ts:170-172 | the number of `<author>` tags is the number of items with a non-empty author |
| RssXml.DocumentGuidCount | src/handlers/lambda.ts:173-175 | the number of `<guid>` tags is the number of items with a non-empty guid |
| RssXml.DocumentOmitsOthers | src/handlers/lambda.ts:153-180 | no element other than those eight is ever written |
| RssXml.DocumentOmitsBuildDateAndCategories | src/handlers/lambda.ts:153-180 | no `<lastBuildDate>`, `<category>` or `<categories>` element is ever opened |
| RssXml.ItemXmlIgnoresCategories | src/handlers/lambda.ts:162-177 | an item's lines are the same whatever its categories |
| RssXml.ItemsXmlIgnoresCategories | src/handlers/lambda.ts:162-177 | item lists that differ only in their categories give the same lines |
| RssXml.DocumentIgnoresCategories | src/handlers/lambda.ts:136-180 | the document is the same for items that differ only in their categories; the feed's build date is not an input of the writer at all |
| Lambda.ValidateQueryParams | src/handlers/lambda.ts:51-92 | six checks in order: parameters present; `feedUrl` non-blank; `http://` or `https://`; `type` is `keyword` or `regex`; `pattern` non-blank; a regex pattern compiles. Each error reason is returned iff all earlier checks pass and its own fails, with the offending value as payload; success iff all pass, carrying the URL, type and pattern unchanged |
| Lambda.HandleError | src/handlers/lambda.ts:94-134 | status 400 iff the error is a validation error and 500 otherwise; always `text/plain; charset=utf-8`; a known error shows its message, anything else a fixed `Internal Server Error` |
| Lambda.Handler | src/handlers/lambda.ts:7-49 | the feed is fetched iff validation succeeds, and only from the validated `http(s)` URL; status is 400 iff nothing was fetched; status is 200, 400 or 500; the XML content type goes exactly with 200 |
| Lambda.Serve | src/handlers/lambda.ts:18-45 | after validation the answer is 200 with the XML content type, or a 500 |
| Lambda.HandlerRejects | src/handlers/lambda.ts:15-16 | a rejected request is answered 400 with its message and triggers no fetch |
| Lambda.HandlerReportsFetchFailure | src/handlers/lambda.ts:18 | a network failure or a non-2xx status is a 500 carrying the fetch error's message |
| Lambda.HandlerReportsTimeout | src/handlers/lambda.ts:26 | any item over the matching budget turns a regex request into a 500 carrying the timeout message: no partial feed |
| Lambda.HandlerServesKeyword | src/handlers/lambda.ts:18-45 | a fetched keyword request is always served 200: the feed's title, description and link, then exactly the items mentioning the keyword, in order, one `<item>` each |
| Lambda.HandlerServesRegex | src/handlers/lambda.ts:18-45 | a regex request is served (200) iff its feed was fetched and parsed and every match stayed within budget; the body then lists exactly the items whose `title + " " + description` the expression matches, in order, one `<item>` each |
| Scenarios.KeywordSelectsAi | tests/unit/feed-filter.test.ts:25-29 | among the test's three items, `AI` selects only the first |
| Scenarios.AiFeedRendersOneItem | tests/unit/feed-filter.test.ts:25-29 | the filtered feed renders with exactly one `<item>` |
| Scenarios.StripParagraph | tests/unit/feed-fetcher.test.ts:52-68 | `<p>Content</p>` strips to `Content`, and so does any paragraph text without `<` |
| Scenarios.KeywordIsLiteral | tests/integration/lambda.test.ts:175-205 | the keyword `test.*data` selects nothing from the item titled `test.data.file` with description `Data file content`, because the pattern is literal text |
| Scenarios.RegexBudgetBoundary | src/services/feed-filter.ts:28 | a match of exactly 2000 ms passes; 2001 ms fails the filter |
| Scenarios.RegexStopsAtFirstTimeout | src/services/feed-filter.ts:20-43 | after the first item over budget no further item is tested |
| Scenarios.AtomLinkNeedsRel | src/services/feed-fetcher.ts:161-170 | a link without `rel` is not taken |
| Scenarios.AtomAlternateChosen | src/services/feed-fetcher.ts:122-135 | the `alternate` link wins over an earlier `self` link |
| Scenarios.EmptyChannel | src/services/feed-fetcher.ts:76-80 | a channel without items parses to no items and renders with no `<item>` |
| Scenarios.FtpUrlRejected | src/handlers/lambda.ts:65-67 | an `ftp:` URL is refused with the URL as payload |
| Scenarios.UnknownTypeRejected | src/handlers/lambda.ts:69-72 | an unknown filter type is refused and echoed back |
| Scenarios.MissingFeedUrlAnswered | src/handlers/lambda.ts:60-63 | a request without `feedUrl` gets 400 and no fetch |
| Scenarios.BadRegexAnswered | src/handlers/lambda.ts:79-85 | a pattern the engine refuses gets 400 before any fetch |

## Left out

- Network I/O: the response of `fetch` (transport failure, or status and body) is a parameter; the request header and reading the body are not modelled.
- The XML parser (fast-xml-parser): its output tree is a parameter. Its configuration shows only in the tree's shape: `@_` attributes, unparsed text values, trimmed text.
- `decodeHtmlEntities`: src/services/html-decoder.ts is not part of this model; it is an uninterpreted `decode` function.
- The regular-expression engine: `matches(pattern, text)` stands for `new RegExp(pattern, 'i').test(text)` and `compiles(pattern)` for `new RegExp(pattern)` not throwing.
- FeedFilter.RunRegexFilter: a matcher that throws a non-timeout error is not modelled (`matches` is total). In the source such an error propagates, unless it also exceeded the budget, and the handler answers it with the generic 500.
- The clock: `Date.now` becomes one matching time per item; the handler's total elapsed time is only logged, and logging is left out.
- FeedFilter.ApplyKeywordFilter: lower-cases ASCII letters only, whereas `toLowerCase` is Unicode-aware.
- Strings.Lower: lowers ASCII letters only and keeps the length; JavaScript's `toLowerCase` is Unicode-aware and can change the length (U+0130 becomes two code units).
- FeedFetcher.Excerpt: counts characters, whereas `substring(0, 200)` counts UTF-16 code units.
- XmlTree.Get: a property read on a text node yields nothing. In JavaScript, `item.link` on a string item is the `String.prototype.link` function, so an RSS item that is bare text would get that function's source text as its link.
- The error messages, including the parser's and the engine's messages folded into them: `describe` is a parameter, and errors carry a reason instead of text.
- `applyFilter`'s final `return items` is unreachable with two filter kinds and is not modelled.
- The `FilterResult` interface (src/models/filter.ts) is declared but never used by the code.
- The event's path, the handler's logging, the build configuration, the scripts and the tests as programs.
