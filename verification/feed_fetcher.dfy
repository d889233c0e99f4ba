/** Feed retrieval and normalisation (src/services/feed-fetcher.ts).

    The network, the XML parser and the HTML entity decoder are not modelled: the response
    is a `FetchOutcome` value, `parseXml(body)` stands for the parser (`None` when it
    rejects the body), and `decode` stands for `decodeHtmlEntities`. */
module FeedFetcher {
  import opened Wrappers
  import opened Sequences
  import opened Strings
  import opened XmlTree
  import opened FeedModel
  import opened Errors

  /* ---------------- stripHtmlTags ---------------- */

  /** The first index of `c` in `s`. */
  function IndexOf(s: string, c: char): (k: nat)
    requires c in s
    ensures k < |s| && s[k] == c
    ensures forall j | 0 <= j < k :: s[j] != c
  {
    if s[0] == c then 0 else 1 + IndexOf(s[1..], c)
  }

  /** No `>` occurs anywhere after a `<`: the text holds no complete tag. */
  predicate TagFree(s: string) {
    forall i, j | 0 <= i < j < |s| :: s[i] == '<' ==> s[j] != '>'
  }

  lemma SubsequenceOfSuffix(a: string, s: string, k: nat)
    requires k <= |s| && IsSubsequence(a, s[k..])
    ensures IsSubsequence(a, s)
    decreases k
  {
    if k > 0 {
      assert s[1..][k - 1..] == s[k..];
      SubsequenceOfSuffix(a, s[1..], k - 1);
    }
  }

  /** `html.replace(/<[^>]*>/g, '')`: scanning left to right, a `<` together with everything
      up to the first `>` after it is erased; a `<` with no `>` after it stays. */
  function StripHtmlTags(s: string): (r: string)
    ensures IsSubsequence(r, s)
    ensures TagFree(r)
    ensures '<' !in s ==> r == s
    ensures '>' !in s ==> r == s
    decreases |s|
  {
    if |s| == 0 then ""
    else if s[0] == '<' && '>' in s then
      var k := IndexOf(s, '>');
      var r := StripHtmlTags(s[k + 1..]);
      SubsequenceOfSuffix(r, s, k + 1);
      r
    else
      var rest := StripHtmlTags(s[1..]);
      assert s == [s[0]] + s[1..];
      assert IsSubsequence([s[0]] + rest, s) by {
        assert ([s[0]] + rest)[1..] == rest;
      }
      assert TagFree([s[0]] + rest) by {
        if s[0] == '<' {
          assert '>' !in s[1..];
          assert rest == s[1..];
        }
        forall i, j | 0 <= i < j < |rest| + 1 && ([s[0]] + rest)[i] == '<'
          ensures ([s[0]] + rest)[j] != '>'
        {
          if i > 0 {
            assert ([s[0]] + rest)[i] == rest[i - 1];
            assert ([s[0]] + rest)[j] == rest[j - 1];
          }
        }
      }
      [s[0]] + rest
  }

  /** Text with no complete tag is left alone. */
  lemma {:induction false} StripTagFree(s: string)
    requires TagFree(s)
    ensures StripHtmlTags(s) == s
    decreases |s|
  {
    if |s| > 0 {
      if s[0] == '<' {
        assert '>' !in s;
      } else {
        assert TagFree(s[1..]) by {
          forall i, j | 0 <= i < j < |s| - 1 && s[1..][i] == '<' ensures s[1..][j] != '>' {
            assert s[1..][i] == s[i + 1] && s[1..][j] == s[j + 1];
          }
        }
        StripTagFree(s[1..]);
      }
    }
  }

  /** A leading tag `<t>` is erased as a whole. */
  lemma StripLeadingTag(t: string, b: string)
    requires '>' !in t
    ensures StripHtmlTags("<" + t + ">" + b) == StripHtmlTags(b)
  {
    var s := "<" + t + ">" + b;
    assert s[0] == '<' && s[|t| + 1] == '>';
    assert forall j | 1 <= j < |t| + 1 :: s[j] == t[j - 1];
    assert IndexOf(s, '>') == |t| + 1;
    assert s[|t| + 2..] == b;
  }

  /** A leading character other than `<` is kept. */
  lemma StripKeepsLead(c: char, rest: string)
    requires c != '<'
    ensures StripHtmlTags([c] + rest) == [c] + StripHtmlTags(rest)
  {
    assert ([c] + rest)[0] == c && ([c] + rest)[1..] == rest;
  }

  /** Text without `<` in front of anything is kept as it is. */
  lemma {:induction false} StripKeepsPlainPrefix(a: string, u: string)
    requires '<' !in a
    ensures StripHtmlTags(a + u) == a + StripHtmlTags(u)
    decreases |a|
  {
    if |a| == 0 {
      assert a + u == u;
    } else {
      var c, rest := a[0], a[1..];
      var r := StripHtmlTags(u);
      assert a == [c] + rest;
      assert a + u == [c] + (rest + u);
      assert a + r == [c] + (rest + r);
      assert '<' !in rest;
      StripKeepsLead(c, rest + u);
      StripKeepsPlainPrefix(rest, u);
    }
  }

  /** Only the tag spans go: text up to the first `<` is kept, and a `<` together with
      everything through the next `>` is erased. */
  lemma StripErasesTagSpan(a: string, t: string, b: string)
    requires '<' !in a && '>' !in t
    ensures StripHtmlTags(a + ("<" + t + ">") + b) == a + StripHtmlTags(b)
  {
    var u := "<" + t + ">" + b;
    assert a + ("<" + t + ">") + b == a + u;
    StripKeepsPlainPrefix(a, u);
    StripLeadingTag(t, b);
  }

  /** Stripping twice is stripping once. */
  lemma StripIdempotent(s: string)
    ensures StripHtmlTags(StripHtmlTags(s)) == StripHtmlTags(s)
  {
    StripTagFree(StripHtmlTags(s));
  }

  /* ---------------- RSS ---------------- */

  /** `category` normalisation: `undefined` when absent or falsy, otherwise the element(s)
      converted by `str`, in order. */
  function Categories(v: Option<Node>, str: Node -> string): (cs: Option<seq<string>>)
    ensures cs.None? <==> !Present(v)
    ensures cs.Some? ==> |cs.value| == |Elements(v)|
    ensures cs.Some? ==> forall i | 0 <= i < |cs.value| :: cs.value[i] == str(Elements(v)[i])
  {
    if Present(v) then
      var es := Elements(v);
      Some(seq(|es|, i requires 0 <= i < |es| => str(es[i])))
    else None
  }

  /** `parseRSSItem`. Every field reads its element with `String(..)`; title and description
      are stripped of tags and then decoded, with the empty text as fallback. */
  function ParseRssItem(item: Node, decode: string -> string): (r: FeedItem)
    ensures Present(Get(item, "title")) ==>
              r.title == decode(StripHtmlTags(Stringify(item.fields["title"])))
    ensures !Present(Get(item, "title")) ==> r.title == decode("")
    ensures Present(Get(item, "description")) ==>
              r.description == decode(StripHtmlTags(Stringify(item.fields["description"])))
    ensures !Present(Get(item, "description")) ==> r.description == decode("")
    ensures Present(Get(item, "link")) ==> r.link == Stringify(item.fields["link"])
    ensures !Present(Get(item, "link")) ==> r.link == ""
    ensures r.pubDate.None? <==> !Present(Get(item, "pubDate"))
    ensures r.pubDate.Some? ==> r.pubDate.value == Stringify(item.fields["pubDate"])
    ensures r.author.None? <==> !Present(Get(item, "author"))
    ensures r.author.Some? ==> r.author.value == Stringify(item.fields["author"])
    ensures r.guid.None? <==> !Present(Get(item, "guid"))
    ensures r.guid.Some? ==> r.guid.value == Stringify(item.fields["guid"])
    ensures r.categories.None? <==> !Present(Get(item, "category"))
    ensures r.categories.Some? ==> |r.categories.value| == |Elements(Get(item, "category"))|
    ensures r.categories.Some? ==> forall i | 0 <= i < |r.categories.value| ::
              r.categories.value[i] == Stringify(Elements(Get(item, "category"))[i])
  {
    FeedItem(
      title := decode(StripHtmlTags(OrEmpty(Get(item, "title")))),
      description := decode(StripHtmlTags(OrEmpty(Get(item, "description")))),
      link := OrEmpty(Get(item, "link")),
      pubDate := IfTruthy(Get(item, "pubDate")),
      author := IfTruthy(Get(item, "author")),
      categories := Categories(Get(item, "category"), Stringify),
      guid := IfTruthy(Get(item, "guid")))
  }

  /** `parseRSS`: the root must hold an object-valued `channel`. */
  function ParseRss(rss: Node, sourceUrl: string, decode: string -> string): (r: Result<RssFeed, ParseReason>)
    ensures r.Err? <==> !(Get(rss, "channel").Some? && IsObject(Get(rss, "channel").value))
    ensures r.Err? ==> r.error == NoChannel
    ensures r.Ok? ==> r.value.sourceUrl == sourceUrl
    ensures r.Ok? ==> var channel := Get(rss, "channel").value;
      && (Present(Get(channel, "title")) ==> r.value.title == decode(Stringify(channel.fields["title"])))
      && (!Present(Get(channel, "title")) ==> r.value.title == decode(""))
      && (Present(Get(channel, "description")) ==>
            r.value.description == decode(Stringify(channel.fields["description"])))
      && (!Present(Get(channel, "description")) ==> r.value.description == decode(""))
    ensures r.Ok? ==> var channel := Get(rss, "channel").value;
      && (r.value.link.None? <==> !Present(Get(channel, "link")))
      && (r.value.link.Some? ==> r.value.link.value == Stringify(channel.fields["link"]))
      && (r.value.lastBuildDate.None? <==> !Present(Get(channel, "lastBuildDate")))
      && (r.value.lastBuildDate.Some? ==>
            r.value.lastBuildDate.value == Stringify(channel.fields["lastBuildDate"]))
    ensures r.Ok? ==> var channel := Get(rss, "channel").value;
      && |r.value.items| == |Elements(Get(channel, "item"))|
      && forall i | 0 <= i < |r.value.items| ::
           r.value.items[i] == ParseRssItem(Elements(Get(channel, "item"))[i], decode)
  {
    match Get(rss, "channel")
    case Some(channel) =>
      if !IsObject(channel) then Err(NoChannel)
      else
        var nodes := Elements(Get(channel, "item"));
        Ok(RssFeed(
          title := decode(OrEmpty(Get(channel, "title"))),
          description := decode(OrEmpty(Get(channel, "description"))),
          sourceUrl := sourceUrl,
          link := IfTruthy(Get(channel, "link")),
          lastBuildDate := IfTruthy(Get(channel, "lastBuildDate")),
          items := seq(|nodes|, i requires 0 <= i < |nodes| => ParseRssItem(nodes[i], decode))))
    case None => Err(NoChannel)
  }

  /* ---------------- Atom ---------------- */

  /** The `find` predicate for links: an object whose `@_rel` is exactly `alternate`. */
  predicate IsAlternateLink(l: Node) {
    Has(l, "@_rel") && l.fields["@_rel"] == Text("alternate")
  }

  /** `linkArray.find(isAlternate)`, as an index. */
  function FindAlternate(links: seq<Node>): (k: Option<nat>)
    ensures k.Some? ==> k.value < |links| && IsAlternateLink(links[k.value])
    ensures k.Some? ==> forall j | 0 <= j < k.value :: !IsAlternateLink(links[j])
    ensures k.None? ==> forall j | 0 <= j < |links| :: !IsAlternateLink(links[j])
  {
    if |links| == 0 then None
    else if IsAlternateLink(links[0]) then Some(0)
    else
      match FindAlternate(links[1..])
      case Some(k) => Some(k + 1)
      case None => None
  }

  /** Link `k` is the first alternate link of `links`. */
  predicate FirstAlternate(links: seq<Node>, k: nat) {
    k < |links| && IsAlternateLink(links[k]) && forall j | 0 <= j < k :: !IsAlternateLink(links[j])
  }

  /** There is at most one first alternate link. */
  lemma FirstAlternateUnique(links: seq<Node>, k: nat, k': nat)
    requires FirstAlternate(links, k) && FirstAlternate(links, k')
    ensures k == k'
  {
  }

  /** The link both Atom levels read: the `@_href` of the first `rel="alternate"` link,
      when that link has an `@_href`. */
  function AlternateHref(v: Option<Node>): (href: Option<string>)
    ensures href.Some? <==> exists k: nat :: FirstAlternate(Elements(v), k) && Has(Elements(v)[k], "@_href")
    ensures forall k: nat | FirstAlternate(Elements(v), k) && Has(Elements(v)[k], "@_href") ::
              href == Some(Stringify(Elements(v)[k].fields["@_href"]))
  {
    var links := Elements(v);
    match FindAlternate(links)
    case Some(k) =>
      assert FirstAlternate(links, k);
      assert forall k': nat | FirstAlternate(links, k') :: k' == k by {
        forall k': nat | FirstAlternate(links, k') ensures k' == k {
          FirstAlternateUnique(links, k, k');
        }
      }
      if Has(links[k], "@_href") then Some(Stringify(links[k].fields["@_href"])) else None
    case None =>
      assert forall k: nat :: !FirstAlternate(links, k);
      None
  }

  /** `parseAtomEntry`. `updated` becomes the publication date, `id` the guid, the author
      is the `name` of an author object, and a structured category yields its `@_term`. */
  function ParseAtomEntry(entry: Node, decode: string -> string): (r: FeedItem)
    ensures Present(Get(entry, "title")) ==>
              r.title == decode(StripHtmlTags(Stringify(entry.fields["title"])))
    ensures !Present(Get(entry, "title")) ==> r.title == decode("")
    ensures Present(Get(entry, "summary")) ==>
              r.description == decode(StripHtmlTags(Stringify(entry.fields["summary"])))
    ensures !Present(Get(entry, "summary")) ==> r.description == decode("")
    ensures AlternateHref(Get(entry, "link")).Some? ==> r.link == AlternateHref(Get(entry, "link")).value
    ensures AlternateHref(Get(entry, "link")).None? ==> r.link == ""
    ensures r.pubDate.None? <==> !Present(Get(entry, "updated"))
    ensures r.pubDate.Some? ==> r.pubDate.value == Stringify(entry.fields["updated"])
    ensures r.guid.None? <==> !Present(Get(entry, "id"))
    ensures r.guid.Some? ==> r.guid.value == Stringify(entry.fields["id"])
    ensures r.author.Some? <==> Has(entry, "author") && Present(Get(entry.fields["author"], "name"))
    ensures r.author.Some? ==> r.author.value == Stringify(entry.fields["author"].fields["name"])
    ensures r.categories.None? <==> !Present(Get(entry, "category"))
    ensures r.categories.Some? ==> |r.categories.value| == |Elements(Get(entry, "category"))|
    ensures r.categories.Some? ==> forall i | 0 <= i < |r.categories.value| ::
              var cat := Elements(Get(entry, "category"))[i];
              r.categories.value[i] == if Has(cat, "@_term") then Stringify(cat.fields["@_term"]) else Stringify(cat)
  {
    var author :=
      match Get(entry, "author")
      case Some(a) => if IsObject(a) then IfTruthy(Get(a, "name")) else None
      case None => None;
    FeedItem(
      title := decode(StripHtmlTags(OrEmpty(Get(entry, "title")))),
      description := decode(StripHtmlTags(OrEmpty(Get(entry, "summary")))),
      link := AlternateHref(Get(entry, "link")).GetOr(""),
      pubDate := IfTruthy(Get(entry, "updated")),
      author := author,
      categories := Categories(Get(entry, "category"), CategoryTerm),
      guid := IfTruthy(Get(entry, "id")))
  }

  /** An Atom category: the `@_term` attribute of a structured category, else `String(cat)`. */
  function CategoryTerm(cat: Node): (s: string)
    ensures Has(cat, "@_term") ==> s == Stringify(cat.fields["@_term"])
    ensures !Has(cat, "@_term") ==> s == Stringify(cat)
  {
    if Has(cat, "@_term") then Stringify(cat.fields["@_term"]) else Stringify(cat)
  }

  /** `parseAtom`: never fails. */
  function ParseAtom(feed: Node, sourceUrl: string, decode: string -> string): (r: RssFeed)
    ensures r.sourceUrl == sourceUrl
    ensures Present(Get(feed, "title")) ==> r.title == decode(Stringify(feed.fields["title"]))
    ensures !Present(Get(feed, "title")) ==> r.title == decode("")
    ensures Present(Get(feed, "subtitle")) ==> r.description == decode(Stringify(feed.fields["subtitle"]))
    ensures !Present(Get(feed, "subtitle")) ==> r.description == decode("")
    ensures r.link == AlternateHref(Get(feed, "link"))
    ensures r.lastBuildDate.None? <==> !Present(Get(feed, "updated"))
    ensures r.lastBuildDate.Some? ==> r.lastBuildDate.value == Stringify(feed.fields["updated"])
    ensures |r.items| == |Elements(Get(feed, "entry"))|
    ensures forall i | 0 <= i < |r.items| :: r.items[i] == ParseAtomEntry(Elements(Get(feed, "entry"))[i], decode)
  {
    var nodes := Elements(Get(feed, "entry"));
    RssFeed(
      title := decode(OrEmpty(Get(feed, "title"))),
      description := decode(OrEmpty(Get(feed, "subtitle"))),
      sourceUrl := sourceUrl,
      link := AlternateHref(Get(feed, "link")),
      lastBuildDate := IfTruthy(Get(feed, "updated")),
      items := seq(|nodes|, i requires 0 <= i < |nodes| => ParseAtomEntry(nodes[i], decode)))
  }

  /* ---------------- single element versus list ---------------- */

  /** An `item` element that occurs once reads exactly like a one-element list of it. */
  lemma ParseRssSingleItem(rss: map<string, Node>, channel: map<string, Node>, x: Node,
                           sourceUrl: string, decode: string -> string)
    requires Truthy(x) && !x.Arr?
    ensures ParseRss(Obj(rss["channel" := Obj(channel["item" := x])]), sourceUrl, decode)
         == ParseRss(Obj(rss["channel" := Obj(channel["item" := Arr([x])])]), sourceUrl, decode)
  {
    var c1, c2 := Obj(channel["item" := x]), Obj(channel["item" := Arr([x])]);
    assert Elements(Get(c1, "item")) == Elements(Get(c2, "item"));
    assert Get(c1, "title") == Get(c2, "title") && Get(c1, "description") == Get(c2, "description");
    assert Get(c1, "link") == Get(c2, "link") && Get(c1, "lastBuildDate") == Get(c2, "lastBuildDate");
  }

  /** An `entry` element that occurs once reads exactly like a one-element list of it. */
  lemma ParseAtomSingleEntry(feed: map<string, Node>, x: Node, sourceUrl: string, decode: string -> string)
    requires Truthy(x) && !x.Arr?
    ensures ParseAtom(Obj(feed["entry" := x]), sourceUrl, decode)
         == ParseAtom(Obj(feed["entry" := Arr([x])]), sourceUrl, decode)
  {
    var f1, f2 := Obj(feed["entry" := x]), Obj(feed["entry" := Arr([x])]);
    assert Elements(Get(f1, "entry")) == Elements(Get(f2, "entry"));
    assert Get(f1, "title") == Get(f2, "title") && Get(f1, "subtitle") == Get(f2, "subtitle");
    assert Get(f1, "link") == Get(f2, "link") && Get(f1, "updated") == Get(f2, "updated");
  }

  /** An RSS `category` that occurs once reads like a one-element list of it. */
  lemma ParseRssItemSingleCategory(item: map<string, Node>, x: Node, decode: string -> string)
    requires Truthy(x) && !x.Arr?
    ensures ParseRssItem(Obj(item["category" := x]), decode)
         == ParseRssItem(Obj(item["category" := Arr([x])]), decode)
  {
    var i1, i2 := Obj(item["category" := x]), Obj(item["category" := Arr([x])]);
    assert Elements(Get(i1, "category")) == Elements(Get(i2, "category"));
    assert Get(i1, "title") == Get(i2, "title") && Get(i1, "description") == Get(i2, "description");
    assert Get(i1, "link") == Get(i2, "link") && Get(i1, "pubDate") == Get(i2, "pubDate");
    assert Get(i1, "author") == Get(i2, "author") && Get(i1, "guid") == Get(i2, "guid");
  }

  /** An Atom `category` that occurs once reads like a one-element list of it. */
  lemma ParseAtomEntrySingleCategory(entry: map<string, Node>, x: Node, decode: string -> string)
    requires Truthy(x) && !x.Arr?
    ensures ParseAtomEntry(Obj(entry["category" := x]), decode)
         == ParseAtomEntry(Obj(entry["category" := Arr([x])]), decode)
  {
    var e1, e2 := Obj(entry["category" := x]), Obj(entry["category" := Arr([x])]);
    assert Elements(Get(e1, "category")) == Elements(Get(e2, "category"));
    assert Get(e1, "title") == Get(e2, "title") && Get(e1, "summary") == Get(e2, "summary");
    assert Get(e1, "link") == Get(e2, "link") && Get(e1, "updated") == Get(e2, "updated");
    assert Get(e1, "author") == Get(e2, "author") && Get(e1, "id") == Get(e2, "id");
  }

  /* ---------------- tag-free item texts ---------------- */

  /** `s` is the decoding of some text that holds no complete tag. */
  ghost predicate DecodedFromTagFree(s: string, decode: string -> string) {
    exists t :: TagFree(t) && s == decode(t)
  }

  /** An RSS item's title and description are decoded from tag-free text. */
  lemma ParseRssItemTagFree(item: Node, decode: string -> string)
    ensures DecodedFromTagFree(ParseRssItem(item, decode).title, decode)
    ensures DecodedFromTagFree(ParseRssItem(item, decode).description, decode)
  {
    var t := StripHtmlTags(OrEmpty(Get(item, "title")));
    var d := StripHtmlTags(OrEmpty(Get(item, "description")));
    assert TagFree(t) && ParseRssItem(item, decode).title == decode(t);
    assert TagFree(d) && ParseRssItem(item, decode).description == decode(d);
  }

  /** An Atom entry's title and description are decoded from tag-free text. */
  lemma ParseAtomEntryTagFree(entry: Node, decode: string -> string)
    ensures DecodedFromTagFree(ParseAtomEntry(entry, decode).title, decode)
    ensures DecodedFromTagFree(ParseAtomEntry(entry, decode).description, decode)
  {
    var t := StripHtmlTags(OrEmpty(Get(entry, "title")));
    var d := StripHtmlTags(OrEmpty(Get(entry, "summary")));
    assert TagFree(t) && ParseAtomEntry(entry, decode).title == decode(t);
    assert TagFree(d) && ParseAtomEntry(entry, decode).description == decode(d);
  }

  /* ---------------- dispatch and fetch ---------------- */

  /** The parsed document has an object-valued `rss` root. */
  predicate HasRssRoot(data: map<string, Node>) {
    "rss" in data && IsObject(data["rss"])
  }

  /** The parsed document has an object-valued `feed` root. */
  predicate HasAtomRoot(data: map<string, Node>) {
    "feed" in data && IsObject(data["feed"])
  }

  /** `parseFeedData`: RSS wins over Atom; neither is a parse failure. */
  function ParseFeedData(data: map<string, Node>, sourceUrl: string, decode: string -> string)
    : (r: Result<RssFeed, ParseReason>)
    ensures HasRssRoot(data) ==> r == ParseRss(data["rss"], sourceUrl, decode)
    ensures !HasRssRoot(data) && HasAtomRoot(data) ==> r == Ok(ParseAtom(data["feed"], sourceUrl, decode))
    ensures !HasRssRoot(data) && !HasAtomRoot(data) ==> r == Err(NoFeedRoot)
  {
    if HasRssRoot(data) then ParseRss(data["rss"], sourceUrl, decode)
    else if HasAtomRoot(data) then Ok(ParseAtom(data["feed"], sourceUrl, decode))
    else Err(NoFeedRoot)
  }

  /** A parse fails exactly when there is no feed root, or an RSS root without an object channel. */
  lemma ParseFeedDataFails(data: map<string, Node>, sourceUrl: string, decode: string -> string)
    ensures ParseFeedData(data, sourceUrl, decode).Err? <==>
      (!HasRssRoot(data) && !HasAtomRoot(data)) ||
      (HasRssRoot(data) && !(Get(data["rss"], "channel").Some? && IsObject(Get(data["rss"], "channel").value)))
  {
  }

  /** Whichever dialect the feed came in, every normalised item's title and description is
      the decoding of a text with no complete tag in it. */
  lemma ParseFeedDataTagFree(data: map<string, Node>, sourceUrl: string, decode: string -> string)
    ensures var r := ParseFeedData(data, sourceUrl, decode);
      r.Ok? ==> forall i | 0 <= i < |r.value.items| ::
        DecodedFromTagFree(r.value.items[i].title, decode) &&
        DecodedFromTagFree(r.value.items[i].description, decode)
  {
    var r := ParseFeedData(data, sourceUrl, decode);
    if r.Ok? {
      if HasRssRoot(data) {
        var nodes := Elements(Get(Get(data["rss"], "channel").value, "item"));
        forall i | 0 <= i < |r.value.items|
          ensures DecodedFromTagFree(r.value.items[i].title, decode)
          ensures DecodedFromTagFree(r.value.items[i].description, decode)
        {
          ParseRssItemTagFree(nodes[i], decode);
        }
      } else {
        var nodes := Elements(Get(data["feed"], "entry"));
        forall i | 0 <= i < |r.value.items|
          ensures DecodedFromTagFree(r.value.items[i].title, decode)
          ensures DecodedFromTagFree(r.value.items[i].description, decode)
        {
          ParseAtomEntryTagFree(nodes[i], decode);
        }
      }
    }
  }

  /** What `fetch` produced: a transport failure, or a response with its status and body. */
  datatype FetchOutcome = NetworkFailure | HttpResponse(status: int, body: string)

  /** `response.ok`: the status is in the 2xx range. */
  predicate IsOkStatus(status: int) {
    200 <= status <= 299
  }

  /** How much of an unparsable body a `ParseError` retains. */
  const ExcerptLength: nat := 200

  /** `xmlText.substring(0, 200)`. */
  function Excerpt(body: string): (e: string)
    ensures |e| == if |body| < ExcerptLength then |body| else ExcerptLength
    ensures StartsWith(body, e)
  {
    if |body| < ExcerptLength then body else body[..ExcerptLength]
  }

  /** `fetchFeed(url)` given what the network returned. */
  function FetchFeed(url: string, outcome: FetchOutcome, parseXml: string -> Option<map<string, Node>>,
                     decode: string -> string): (r: Result<RssFeed, AppError>)
    ensures outcome.NetworkFailure? ==> r == Err(FeedFetchError(url, None))
    ensures outcome.HttpResponse? && !IsOkStatus(outcome.status) ==>
              r == Err(FeedFetchError(url, Some(outcome.status)))
    ensures outcome.HttpResponse? && IsOkStatus(outcome.status) && r.Err? ==>
              r.error.ParseError? && r.error.content == Excerpt(outcome.body)
    ensures r.Err? && !r.error.FeedFetchError? ==>
              outcome.HttpResponse? && IsOkStatus(outcome.status) &&
              r.error.ParseError? && r.error.content == Excerpt(outcome.body)
    ensures r.Ok? <==>
              outcome.HttpResponse? && IsOkStatus(outcome.status) && parseXml(outcome.body).Some? &&
              ParseFeedData(parseXml(outcome.body).value, url, decode).Ok?
    ensures r.Ok? ==> r.value == ParseFeedData(parseXml(outcome.body).value, url, decode).value
    ensures r.Err? ==> r.error.FeedFetchError? || r.error.ParseError?
  {
    match outcome
    case NetworkFailure => Err(FeedFetchError(url, None))
    case HttpResponse(status, body) =>
      if !IsOkStatus(status) then Err(FeedFetchError(url, Some(status)))
      else
        match parseXml(body)
        case None => Err(ParseError(Excerpt(body), MalformedXml))
        case Some(data) =>
          ParseFeedData(data, url, decode).MapError((cause: ParseReason) => ParseError(Excerpt(body), cause))
  }
}
