/** Concrete scenarios of the filter, the parser and the validator, on the shapes of
    input the repository's own tests use. */
module Scenarios {
  import opened Wrappers
  import opened Strings
  import opened Sequences
  import opened FeedModel
  import opened FilterModel
  import opened Errors
  import opened XmlTree
  import opened FeedFilter
  import opened FeedFetcher
  import opened RssXml
  import opened Lambda

  function Plain(title: string, description: string, link: string): FeedItem {
    FeedItem(title, description, link, None, None, None, None)
  }

  /** Three items on AI, technology and sports. */
  function Mock(): seq<FeedItem> {
    [ Plain("Breaking News: AI Breakthrough", "Scientists announce major AI advancement", "https://example.com/1"),
      Plain("Technology Update", "Latest tech news and updates", "https://example.com/2"),
      Plain("Sports Highlights", "Weekend sports results", "https://example.com/3") ]
  }

  /** A lower-case letter absent from a text in both cases is absent from its lower-cased form. */
  lemma LowerLacksLetter(s: string, c: char)
    requires 'a' <= c <= 'z' && c !in s && (c as int - 32) as char !in s
    ensures c !in Lower(s)
  {
    forall i | 0 <= i < |s| ensures Lower(s)[i] != c {
      assert s[i] != c && s[i] != (c as int - 32) as char;
    }
  }

  /** A text lacking, in both cases, a letter of a lower-case keyword does not contain it. */
  lemma TextLacksKeyword(s: string, p: string, k: nat)
    requires k < |p| && 'a' <= p[k] <= 'z' && p[k] !in s && (p[k] as int - 32) as char !in s
    ensures !Contains(Lower(s), p)
  {
    LowerLacksLetter(s, p[k]);
    AbsentCharBlocksContains(Lower(s), p, k);
  }

  /** `ai` occurs in the first item's lower-cased title. */
  lemma FirstMentionsAi()
    ensures KeywordHit(Mock()[0], "ai")
  {
    assert OccursAt(Lower(Mock()[0].title), "ai", 15);
  }

  /** The second item's title has no `i`. */
  lemma SecondTitleLacksAi()
    ensures !Contains(Lower("Technology Update"), "ai")
  {
    TextLacksKeyword("Technology Update", "ai", 1);
  }

  /** The second item's description has no `i`. */
  lemma SecondDescriptionLacksAi()
    ensures !Contains(Lower("Latest tech news and updates"), "ai")
  {
    TextLacksKeyword("Latest tech news and updates", "ai", 1);
  }

  /** Neither the second item's title nor its description holds an `i`. */
  lemma SecondLacksAi()
    ensures !KeywordHit(Mock()[1], "ai")
  {
    SecondTitleLacksAi();
    SecondDescriptionLacksAi();
  }

  /** The third item's title has no `a`. */
  lemma ThirdTitleLacksAi()
    ensures !Contains(Lower("Sports Highlights"), "ai")
  {
    TextLacksKeyword("Sports Highlights", "ai", 0);
  }

  /** The third item's description has no `i`. */
  lemma ThirdDescriptionLacksAi()
    ensures !Contains(Lower("Weekend sports results"), "ai")
  {
    TextLacksKeyword("Weekend sports results", "ai", 1);
  }

  /** The third item's title has no `a` and its description no `i`. */
  lemma ThirdLacksAi()
    ensures !KeywordHit(Mock()[2], "ai")
  {
    ThirdTitleLacksAi();
    ThirdDescriptionLacksAi();
  }

  /** The keyword `AI` selects only the first item. */
  lemma KeywordSelectsAi()
    ensures ApplyKeywordFilter(Mock(), "AI") == [Mock()[0]]
  {
    var items := Mock();
    var keep := KeywordTest(Lower("AI"));
    assert Lower("AI") == "ai";
    FirstMentionsAi();
    SecondLacksAi();
    ThirdLacksAi();
    assert items[1..][1..] == [items[2]];
    assert items[1..][1..][1..] == [];
    assert Filter(items[1..][1..], keep) == [];
    assert Filter(items[1..], keep) == [];
  }

  /** A paragraph's markup is erased and its text kept: `<p>Content</p>` becomes `Content`. */
  lemma StripParagraph(text: string)
    requires '<' !in text
    ensures StripHtmlTags("<p>" + text + "</p>") == text
  {
    var open, close := "p", "/p";
    var tail := text + ("<" + close + ">");
    assert "<p>" + text + "</p>" == "" + ("<" + open + ">") + tail;
    StripErasesTagSpan("", open, tail);
    assert tail == text + ("<" + close + ">") + "";
    StripErasesTagSpan(text, close, "");
  }

  /** A keyword is literal text: `test.*data` selects nothing from the item `test.data.file`,
      since no `*` occurs in its title or its description. */
  lemma KeywordIsLiteral()
    ensures ApplyKeywordFilter([Plain("test.data.file", "Data file content", "https://example.com/1")],
                               "test.*data") == []
  {
    var p := Lower("test.*data");
    assert p[5] == '*';
    LowerKeepsAbsent("test.data.file", '*');
    LowerKeepsAbsent("Data file content", '*');
    AbsentCharBlocksContains(Lower("test.data.file"), p, 5);
    AbsentCharBlocksContains(Lower("Data file content"), p, 5);
  }

  /** A match that takes exactly the budget passes; one millisecond more fails the filter. */
  lemma RegexBudgetBoundary(item: FeedItem, pattern: string, matches: (string, string) -> bool)
    ensures ApplyRegexFilter([item], pattern, matches, [2000]).Ok?
    ensures ApplyRegexFilter([item], pattern, matches, [2001]) == Err(RegexTimeoutError(pattern))
  {
  }

  /** The filter stops at the first item over budget: the items after it are never tested. */
  lemma RegexStopsAtFirstTimeout(items: seq<FeedItem>, pattern: string, matches: (string, string) -> bool)
    requires |items| == 3
    ensures RunRegexFilter(items, pattern, matches, [5, 2500, 10]).probes
         == [CombinedText(items[0]), CombinedText(items[1])]
  {
    assert [5, 2500, 10][1..] == [2500, 10];
    assert RunRegexFilter(items[1..], pattern, matches, [2500, 10]).probes == [CombinedText(items[1])];
  }

  /** An Atom link without `rel` is not taken as the entry's link. */
  lemma AtomLinkNeedsRel()
    ensures AlternateHref(Some(Obj(map["@_href" := Text("https://example.com/a")]))) == None
  {
    var l := Obj(map["@_href" := Text("https://example.com/a")]);
    assert !IsAlternateLink(l);
    assert FindAlternate([l]) == None;
  }

  /** Among several links, the first `rel="alternate"` one wins. */
  lemma AtomAlternateChosen()
    ensures AlternateHref(Some(Arr([
              Obj(map["@_rel" := Text("self"), "@_href" := Text("https://example.com/feed")]),
              Obj(map["@_rel" := Text("alternate"), "@_href" := Text("https://example.com/post")])])))
         == Some("https://example.com/post")
  {
    var self := Obj(map["@_rel" := Text("self"), "@_href" := Text("https://example.com/feed")]);
    var alt := Obj(map["@_rel" := Text("alternate"), "@_href" := Text("https://example.com/post")]);
    assert self.fields["@_rel"] == Text("self");
    assert !IsAlternateLink(self);
    assert IsAlternateLink(alt);
    assert [self, alt][1..] == [alt];
    assert FindAlternate([self, alt]) == Some(1);
  }

  /** A channel with no items parses to an empty feed, which renders with no `<item>`. */
  lemma EmptyChannel(decode: string -> string)
    ensures var r := ParseRss(Obj(map["channel" := Obj(map[])]), "https://example.com/rss", decode);
      && r.Ok? && r.value.items == [] && r.value.link.None?
      && Count(RssDocument(r.value.title, r.value.description, r.value.link, r.value.items), OpenTag("item")) == 0
  {
    var r := ParseRss(Obj(map["channel" := Obj(map[])]), "https://example.com/rss", decode);
    DocumentItemCount(r.value.title, r.value.description, r.value.link, r.value.items);
  }

  /** An `ftp:` URL is refused before anything else is looked at. */
  lemma FtpUrlRejected(compiles: string -> bool)
    ensures ValidateQueryParams(Some(map["feedUrl" := "ftp://example.com/rss"]), compiles)
         == Err(FilterValidationError("ftp://example.com/rss", InvalidFeedUrl))
  {
    var u := "ftp://example.com/rss";
    assert !IsBlank(u) by { assert !IsJsWhitespace(u[0]); }
    DiffersAt(u, "http://", 0);
    DiffersAt(u, "https://", 0);
  }

  /** An unknown filter type is refused and echoed back. */
  lemma UnknownTypeRejected(compiles: string -> bool)
    ensures ValidateQueryParams(Some(map["feedUrl" := "https://example.com/rss", "type" := "glob",
                                         "pattern" := "news"]), compiles)
         == Err(FilterValidationError("glob", InvalidType))
  {
    var u := "https://example.com/rss";
    assert !IsBlank(u) by { assert !IsJsWhitespace(u[0]); }
    assert u[..8] == "https://";
    assert StartsWith(u, "https://");
  }

  /** Filtering the three items for `AI` and rendering the result yields exactly one `<item>`. */
  lemma AiFeedRendersOneItem(title: string, description: string, link: Option<string>)
    ensures Count(RssDocument(title, description, link, ApplyKeywordFilter(Mock(), "AI")), OpenTag("item")) == 1
  {
    KeywordSelectsAi();
    DocumentItemCount(title, description, link, [Mock()[0]]);
  }

  /** A request without `feedUrl` is answered 400 without fetching anything. */
  lemma MissingFeedUrlAnswered(host: Host)
    ensures Handler(Some(map["type" := "keyword", "pattern" := "AI"]), host)
         == Invocation(Response(400, TextContentType, host.describe(FilterValidationError("", MissingFeedUrl))), None)
  {
    var params := Some(map["type" := "keyword", "pattern" := "AI"]);
    assert ValidateQueryParams(params, host.compiles) == Err(FilterValidationError("", MissingFeedUrl));
  }

  /** A regular expression the engine refuses is a client error, reported before any fetch. */
  lemma BadRegexAnswered(host: Host)
    requires !host.compiles("[invalid((")
    ensures Handler(Some(map["feedUrl" := "https://example.com/rss", "type" := "regex",
                             "pattern" := "[invalid(("]), host).fetched == None
    ensures Handler(Some(map["feedUrl" := "https://example.com/rss", "type" := "regex",
                             "pattern" := "[invalid(("]), host).response.statusCode == 400
  {
    var u := "https://example.com/rss";
    var params := Some(map["feedUrl" := u, "type" := "regex", "pattern" := "[invalid(("]);
    assert !IsBlank(u) by { assert !IsJsWhitespace(u[0]); }
    assert u[..8] == "https://";
    assert HasHttpScheme(u);
    assert !IsBlank("[invalid((") by { assert !IsJsWhitespace("[invalid(("[0]); }
    assert ValidateQueryParams(params, host.compiles).Err?;
  }
}
