/** The RSS 2.0 writer of src/handlers/lambda.ts (`generateRSSXML`).

    The writer emits a fixed skeleton (declaration, `rss`, one `channel`) and one `item` per
    filtered item. Which elements appear is decided by JavaScript truthiness on the optional
    values; every inserted text goes through `escapeXml`. The properties below count the
    opening tags `<name>` in the document: that count pins down which elements were written
    and which were left out. */
module RssXml {
  import opened Wrappers
  import opened Strings
  import opened Sequences
  import opened FeedModel
  import opened XmlEscape

  /* ---------------- the document ---------------- */

  function OpenTag(name: string): string {
    "<" + name + ">"
  }

  function CloseTag(name: string): string {
    "</" + name + ">"
  }

  /** The XML declaration and the opening `rss` tag with its version attribute. */
  const XmlDeclaration: string := "<" + "?xml version=\"1.0\" encoding=\"UTF-8\"?>\n"
  const RssOpen: string := "<" + ("rss" + " version=\"2.0\">\n")
  const ChannelOpen: string := "  " + (OpenTag("channel") + "\n")
  const ItemOpen: string := "    " + (OpenTag("item") + "\n")
  const ItemClose: string := "    " + (CloseTag("item") + "\n")
  const ChannelClose: string := "  " + (CloseTag("channel") + "\n")
  const RssClose: string := CloseTag("rss")

  /** Indentation of the channel's children and of the items' children. */
  const ChannelIndent: string := "    "
  const ItemIndent: string := "      "

  /** `if (v)` on a `string | undefined`: present and non-empty. */
  predicate Emitted(v: Option<string>) {
    v.Some? && v.value != ""
  }

  /** One line `<tag>escaped text</tag>`. */
  function Element(indent: string, tag: string, text: string): string {
    indent + (OpenTag(tag) + (EscapeXml(text) + (CloseTag(tag) + "\n")))
  }

  /** An element written only when its value is present and non-empty. */
  function OptionalElement(indent: string, tag: string, v: Option<string>): string {
    if Emitted(v) then Element(indent, tag, v.value) else ""
  }

  /** Everything written before the item loop. */
  function ChannelHead(title: string, description: string, link: Option<string>): string {
    XmlDeclaration + RssOpen + ChannelOpen
    + Element(ChannelIndent, "title", title)
    + Element(ChannelIndent, "description", description)
    + OptionalElement(ChannelIndent, "link", link)
  }

  /** The lines every item gets: its opening tag, title, description and link. */
  function ItemHead(item: FeedItem): string {
    ItemOpen
    + Element(ItemIndent, "title", item.title)
    + Element(ItemIndent, "description", item.description)
    + Element(ItemIndent, "link", item.link)
  }

  /** The lines the loop body appends for one item. Categories are not written. */
  function ItemXml(item: FeedItem): string {
    ItemHead(item)
    + OptionalElement(ItemIndent, "pubDate", item.pubDate)
    + OptionalElement(ItemIndent, "author", item.author)
    + OptionalElement(ItemIndent, "guid", item.guid)
    + ItemClose
  }

  /** The items' lines, appended in input order. */
  function ItemsXml(items: seq<FeedItem>): string
    decreases |items|
  {
    if |items| == 0 then "" else ItemsXml(items[..|items| - 1]) + ItemXml(items[|items| - 1])
  }

  /** The whole document. `lastBuildDate` is never written. */
  function RssDocument(title: string, description: string, link: Option<string>, items: seq<FeedItem>): string {
    ChannelHead(title, description, link) + ItemsXml(items) + ChannelClose + RssClose
  }

  /** `generateRSSXML`: the document is built line by line, items in input order. */
  method GenerateRssXml(title: string, description: string, link: Option<string>, items: seq<FeedItem>)
    returns (xml: string)
    ensures xml == RssDocument(title, description, link, items)
    ensures StartsWith(xml, XmlDeclaration + RssOpen + ChannelOpen)
    ensures EndsWith(xml, ChannelClose + RssClose)
    ensures Count(xml, OpenTag("channel")) == 1
    ensures Count(xml, OpenTag("item")) == |items|
  {
    xml := XmlDeclaration;
    xml := xml + RssOpen;
    xml := xml + ChannelOpen;
    xml := xml + Element(ChannelIndent, "title", title);
    xml := xml + Element(ChannelIndent, "description", description);
    if Emitted(link) {
      xml := xml + Element(ChannelIndent, "link", link.value);
    } else {
      assert xml + OptionalElement(ChannelIndent, "link", link) == xml;
    }
    ghost var head := xml;
    assert head == ChannelHead(title, description, link);
    assert xml == head + ItemsXml(items[..0]);
    for i := 0 to |items|
      invariant xml == head + ItemsXml(items[..i])
    {
      ItemsXmlSnoc(items, i);
      AppendAssociates(head, ItemsXml(items[..i]), ItemXml(items[i]));
      xml := xml + ItemXml(items[i]);
    }
    assert items[..|items|] == items;
    xml := xml + ChannelClose;
    xml := xml + RssClose;
    assert xml == RssDocument(title, description, link, items);
    DocumentFrame(title, description, link, items);
    DocumentChannelCount(title, description, link, items);
    DocumentItemCount(title, description, link, items);
  }

  lemma ItemsXmlSnoc(items: seq<FeedItem>, i: nat)
    requires i < |items|
    ensures ItemsXml(items[..i + 1]) == ItemsXml(items[..i]) + ItemXml(items[i])
  {
    assert items[..i + 1][..i] == items[..i];
  }

  /** The items are written in input order: the lines of a concatenation are the
      concatenation of the lines. */
  lemma {:induction false} ItemsXmlAppend(a: seq<FeedItem>, b: seq<FeedItem>)
    ensures ItemsXml(a + b) == ItemsXml(a) + ItemsXml(b)
    decreases |b|
  {
    if |b| == 0 {
      assert a + b == a;
    } else {
      var b' := b[..|b| - 1];
      assert (a + b)[..|a + b| - 1] == a + b';
      assert (a + b)[|a + b| - 1] == b[|b| - 1];
      ItemsXmlAppend(a, b');
      AppendAssociates(ItemsXml(a), ItemsXml(b'), ItemXml(b[|b| - 1]));
    }
  }

  /** The document starts with the fixed opening lines and ends with the closing ones. */
  lemma DocumentFrame(title: string, description: string, link: Option<string>, items: seq<FeedItem>)
    ensures StartsWith(RssDocument(title, description, link, items), XmlDeclaration + RssOpen + ChannelOpen)
    ensures EndsWith(RssDocument(title, description, link, items), ChannelClose + RssClose)
  {
    var opening := XmlDeclaration + RssOpen + ChannelOpen;
    var x1 := opening + Element(ChannelIndent, "title", title);
    var x2 := x1 + Element(ChannelIndent, "description", description);
    var head := ChannelHead(title, description, link);
    var body := head + ItemsXml(items);
    StartsWithAppend(opening, Element(ChannelIndent, "title", title));
    StartsWithExtend(x1, Element(ChannelIndent, "description", description), opening);
    StartsWithExtend(x2, OptionalElement(ChannelIndent, "link", link), opening);
    StartsWithExtend(head, ItemsXml(items), opening);
    StartsWithExtend(body, ChannelClose, opening);
    StartsWithExtend(body + ChannelClose, RssClose, opening);
    AppendAssociates(body, ChannelClose, RssClose);
    EndsWithAppend(body, ChannelClose + RssClose);
  }

  /* ---------------- counting opening tags ---------------- */

  predicate IsLetter(c: char) {
    'a' <= c <= 'z' || 'A' <= c <= 'Z'
  }

  /** The element names the writer uses are plain ASCII words. */
  predicate IsTagName(name: string) {
    |name| > 0 && forall i | 0 <= i < |name| :: IsLetter(name[i])
  }

  function Flag(b: bool): nat {
    if b then 1 else 0
  }

  /** `<` directly followed by a name, then a character that is not a letter, starts the opening
      tag `<name>` only when the names agree and that character closes the tag. */
  lemma TagPrefix(w: string, rest: string, name: string)
    requires IsTagName(w) && IsTagName(name) && |rest| > 0 && !IsLetter(rest[0])
    ensures StartsWith("<" + (w + rest), OpenTag(name)) <==> w == name && rest[0] == '>'
  {
    var s, p := "<" + (w + rest), OpenTag(name);
    assert forall k | 0 <= k < |w| :: s[1 + k] == w[k];
    assert forall k | 0 <= k < |name| :: p[1 + k] == name[k];
    assert s[1 + |w|] == rest[0] && p[1 + |name|] == '>';
    if |w| < |name| {
      DiffersAt(s, p, 1 + |w|);
    } else if |w| > |name| {
      DiffersAt(s, p, 1 + |name|);
    } else if w != name {
      var k :| 0 <= k < |w| && w[k] != name[k];
      DiffersAt(s, p, 1 + k);
    } else if rest[0] != '>' {
      DiffersAt(s, p, 1 + |w|);
    } else {
      assert s == p + rest[1..];
      StartsWithAppend(p, rest[1..]);
    }
  }

  /** Text without `<` in front of more text adds no opening tag. */
  lemma LeadFreeThen(a: string, b: string, name: string)
    requires '<' !in a
    ensures Count(a + b, OpenTag(name)) == Count(b, OpenTag(name))
  {
    CountSplitLeadFree(a, b, OpenTag(name));
  }

  /** An opening tag in front of more text adds one `<name>` exactly when it is `<name>`. */
  lemma OpenTagThen(tag: string, b: string, name: string)
    requires IsTagName(tag) && IsTagName(name)
    ensures Count(OpenTag(tag) + b, OpenTag(name)) == Flag(name == tag) + Count(b, OpenTag(name))
  {
    var s := "<" + (tag + (">" + b));
    assert OpenTag(tag) + b == s;
    TagPrefix(tag, ">" + b, name);
    CountStep(s, OpenTag(name));
    assert s[1..] == tag + (">" + b);
    LeadFreeThen(tag, ">" + b, name);
    LeadFreeThen(">", b, name);
  }

  /** A closing tag in front of more text adds no opening tag. */
  lemma CloseTagThen(tag: string, b: string, name: string)
    requires IsTagName(tag) && IsTagName(name)
    ensures Count(CloseTag(tag) + b, OpenTag(name)) == Count(b, OpenTag(name))
  {
    var s := "<" + ("/" + (tag + (">" + b)));
    assert CloseTag(tag) + b == s;
    assert OpenTag(name)[1] == name[0];
    DiffersAt(s, OpenTag(name), 1);
    CountStep(s, OpenTag(name));
    assert s[1..] == "/" + (tag + (">" + b));
    LeadFreeThen("/", tag + (">" + b), name);
    LeadFreeThen(tag, ">" + b, name);
    LeadFreeThen(">", b, name);
  }

  /** Text that is non-empty and ends with a line break. */
  predicate EndsLine(s: string) {
    |s| > 0 && s[|s| - 1] == '\n'
  }

  /** Counting splits after a finished line; appending a finished line or nothing keeps
      the text finished. */
  lemma LineThen(a: string, b: string, name: string)
    requires EndsLine(a) && IsTagName(name)
    ensures Count(a + b, OpenTag(name)) == Count(a, OpenTag(name)) + Count(b, OpenTag(name))
    ensures EndsLine(b) || b == "" ==> EndsLine(a + b)
  {
    var p := OpenTag(name);
    assert p[..|p| - 1] == "<" + name;
    assert '\n' !in p[..|p| - 1] by {
      assert forall i | 1 <= i < |p| - 1 :: p[i] == name[i - 1];
    }
    CountSplitAfter(a, b, p);
    if b == "" {
      assert a + b == a;
    }
  }

  lemma LineBreakCount(name: string)
    ensures Count("\n", OpenTag(name)) == 0
  {
    NoLeadChar("\n", OpenTag(name));
  }

  /** An element line holds one opening tag: its own. */
  lemma ElementCount(indent: string, tag: string, text: string, name: string)
    requires '<' !in indent && IsTagName(tag) && IsTagName(name)
    ensures Count(Element(indent, tag, text), OpenTag(name)) == Flag(name == tag)
    ensures EndsLine(Element(indent, tag, text))
  {
    var close := CloseTag(tag) + "\n";
    var esc := EscapeXml(text) + close;
    LineBreakCount(name);
    CloseTagThen(tag, "\n", name);
    LeadFreeThen(EscapeXml(text), close, name);
    OpenTagThen(tag, esc, name);
    LeadFreeThen(indent, OpenTag(tag) + esc, name);
  }

  lemma OptionalElementCount(indent: string, tag: string, v: Option<string>, name: string)
    requires '<' !in indent && IsTagName(tag) && IsTagName(name)
    ensures Count(OptionalElement(indent, tag, v), OpenTag(name)) == Flag(name == tag && Emitted(v))
    ensures EndsLine(OptionalElement(indent, tag, v)) || OptionalElement(indent, tag, v) == ""
  {
    if Emitted(v) {
      ElementCount(indent, tag, v.value, name);
    }
  }

  /** Appending an element line to finished text. */
  lemma ElementStep(x: string, indent: string, tag: string, text: string, name: string)
    requires EndsLine(x) && '<' !in indent && IsTagName(tag) && IsTagName(name)
    ensures Count(x + Element(indent, tag, text), OpenTag(name)) == Count(x, OpenTag(name)) + Flag(name == tag)
    ensures EndsLine(x + Element(indent, tag, text))
  {
    ElementCount(indent, tag, text, name);
    LineThen(x, Element(indent, tag, text), name);
  }

  /** Appending an optional element to finished text. */
  lemma OptionalElementStep(x: string, indent: string, tag: string, v: Option<string>, name: string)
    requires EndsLine(x) && '<' !in indent && IsTagName(tag) && IsTagName(name)
    ensures Count(x + OptionalElement(indent, tag, v), OpenTag(name))
         == Count(x, OpenTag(name)) + Flag(name == tag && Emitted(v))
    ensures EndsLine(x + OptionalElement(indent, tag, v))
  {
    OptionalElementCount(indent, tag, v, name);
    LineThen(x, OptionalElement(indent, tag, v), name);
  }

  /** A fixed line `indent + <tag> + line break`. */
  lemma OpenLineCount(indent: string, tag: string, name: string)
    requires '<' !in indent && IsTagName(tag) && IsTagName(name)
    ensures Count(indent + (OpenTag(tag) + "\n"), OpenTag(name)) == Flag(name == tag)
    ensures EndsLine(indent + (OpenTag(tag) + "\n"))
  {
    LineBreakCount(name);
    OpenTagThen(tag, "\n", name);
    LeadFreeThen(indent, OpenTag(tag) + "\n", name);
  }

  /** A fixed line `indent + </tag> + line break`. */
  lemma CloseLineCount(indent: string, tag: string, name: string)
    requires '<' !in indent && IsTagName(tag) && IsTagName(name)
    ensures Count(indent + (CloseTag(tag) + "\n"), OpenTag(name)) == 0
    ensures EndsLine(indent + (CloseTag(tag) + "\n"))
  {
    LineBreakCount(name);
    CloseTagThen(tag, "\n", name);
    LeadFreeThen(indent, CloseTag(tag) + "\n", name);
  }

  lemma SkeletonNames()
    ensures IsTagName("rss") && IsTagName("channel") && IsTagName("item")
  {
  }

  lemma ChannelNames()
    ensures IsTagName("title") && IsTagName("description") && IsTagName("link")
  {
  }

  lemma OptionalNames()
    ensures IsTagName("pubDate") && IsTagName("author") && IsTagName("guid")
  {
  }

  /** The declaration holds no opening tag: its `<` is followed by `?`. */
  lemma XmlDeclarationCount(name: string)
    requires IsTagName(name)
    ensures Count(XmlDeclaration, OpenTag(name)) == 0 && EndsLine(XmlDeclaration)
  {
    var tail := "?xml version=\"1.0\" encoding=\"UTF-8\"?>\n";
    assert OpenTag(name)[1] == name[0];
    assert XmlDeclaration[1] == '?';
    DiffersAt(XmlDeclaration, OpenTag(name), 1);
    CountStep(XmlDeclaration, OpenTag(name));
    assert XmlDeclaration[1..] == tail;
    assert '<' !in tail;
    NoLeadChar(tail, OpenTag(name));
  }

  /** `<rss version="2.0">` is not `<rss>`: the attribute keeps it from matching any `<name>`. */
  lemma RssOpenCount(name: string)
    requires IsTagName(name)
    ensures Count(RssOpen, OpenTag(name)) == 0 && EndsLine(RssOpen)
  {
    var attrs := " version=\"2.0\">\n";
    SkeletonNames();
    TagPrefix("rss", attrs, name);
    CountStep(RssOpen, OpenTag(name));
    assert RssOpen[1..] == "rss" + attrs;
    assert '<' !in attrs;
    NoLeadChar(attrs, OpenTag(name));
    LeadFreeThen("rss", attrs, name);
  }

  lemma OpeningCount(name: string)
    requires IsTagName(name)
    ensures Count(XmlDeclaration + RssOpen + ChannelOpen, OpenTag(name)) == Flag(name == "channel")
    ensures EndsLine(XmlDeclaration + RssOpen + ChannelOpen)
  {
    SkeletonNames();
    XmlDeclarationCount(name);
    RssOpenCount(name);
    OpenLineCount("  ", "channel", name);
    LineThen(XmlDeclaration, RssOpen, name);
    LineThen(XmlDeclaration + RssOpen, ChannelOpen, name);
  }

  /** How many `<name>` tags one item's lines hold: one each of `item`, `title`, `description`
      and `link`; one `pubDate`, `author` or `guid` exactly when that value is non-empty; and
      nothing else — in particular no `categories`. */
  function ItemTagCount(item: FeedItem, name: string): nat {
    Flag(name == "item") + Flag(name == "title") + Flag(name == "description") + Flag(name == "link")
    + Flag(name == "pubDate" && Emitted(item.pubDate))
    + Flag(name == "author" && Emitted(item.author))
    + Flag(name == "guid" && Emitted(item.guid))
  }

  /** How many `<name>` tags the lines before the items hold: one `channel`, `title` and
      `description`, and one `link` exactly when the feed link is non-empty. */
  function ChannelTagCount(link: Option<string>, name: string): nat {
    Flag(name == "channel") + Flag(name == "title") + Flag(name == "description")
    + Flag(name == "link" && Emitted(link))
  }

  function ItemsTagCount(items: seq<FeedItem>, name: string): nat
    decreases |items|
  {
    if |items| == 0 then 0 else ItemsTagCount(items[..|items| - 1], name) + ItemTagCount(items[|items| - 1], name)
  }

  lemma ChannelHeadCount(title: string, description: string, link: Option<string>, name: string)
    requires IsTagName(name)
    ensures Count(ChannelHead(title, description, link), OpenTag(name)) == ChannelTagCount(link, name)
    ensures EndsLine(ChannelHead(title, description, link))
  {
    var x0 := XmlDeclaration + RssOpen + ChannelOpen;
    var x1 := x0 + Element(ChannelIndent, "title", title);
    var x2 := x1 + Element(ChannelIndent, "description", description);
    ChannelNames();
    OpeningCount(name);
    ElementStep(x0, ChannelIndent, "title", title, name);
    ElementStep(x1, ChannelIndent, "description", description, name);
    OptionalElementStep(x2, ChannelIndent, "link", link, name);
  }

  lemma ItemHeadCount(item: FeedItem, name: string)
    requires IsTagName(name)
    ensures Count(ItemHead(item), OpenTag(name))
         == Flag(name == "item") + Flag(name == "title") + Flag(name == "description") + Flag(name == "link")
    ensures EndsLine(ItemHead(item))
  {
    var x1 := ItemOpen + Element(ItemIndent, "title", item.title);
    var x2 := x1 + Element(ItemIndent, "description", item.description);
    SkeletonNames();
    ChannelNames();
    OpenLineCount("    ", "item", name);
    ElementStep(ItemOpen, ItemIndent, "title", item.title, name);
    ElementStep(x1, ItemIndent, "description", item.description, name);
    ElementStep(x2, ItemIndent, "link", item.link, name);
  }

  /** The optional lines of an item, appended to finished text. */
  lemma ItemOptionalCount(x: string, item: FeedItem, name: string)
    requires EndsLine(x) && IsTagName(name)
    ensures Count(x + OptionalElement(ItemIndent, "pubDate", item.pubDate)
                   + OptionalElement(ItemIndent, "author", item.author)
                   + OptionalElement(ItemIndent, "guid", item.guid), OpenTag(name))
         == Count(x, OpenTag(name)) + Flag(name == "pubDate" && Emitted(item.pubDate))
            + Flag(name == "author" && Emitted(item.author)) + Flag(name == "guid" && Emitted(item.guid))
    ensures EndsLine(x + OptionalElement(ItemIndent, "pubDate", item.pubDate)
                       + OptionalElement(ItemIndent, "author", item.author)
                       + OptionalElement(ItemIndent, "guid", item.guid))
  {
    var x4 := x + OptionalElement(ItemIndent, "pubDate", item.pubDate);
    var x5 := x4 + OptionalElement(ItemIndent, "author", item.author);
    OptionalNames();
    OptionalElementStep(x, ItemIndent, "pubDate", item.pubDate, name);
    OptionalElementStep(x4, ItemIndent, "author", item.author, name);
    OptionalElementStep(x5, ItemIndent, "guid", item.guid, name);
  }

  lemma ItemXmlCount(item: FeedItem, name: string)
    requires IsTagName(name)
    ensures Count(ItemXml(item), OpenTag(name)) == ItemTagCount(item, name)
    ensures EndsLine(ItemXml(item))
  {
    var x6 := ItemHead(item)
      + OptionalElement(ItemIndent, "pubDate", item.pubDate)
      + OptionalElement(ItemIndent, "author", item.author)
      + OptionalElement(ItemIndent, "guid", item.guid);
    SkeletonNames();
    ItemHeadCount(item, name);
    ItemOptionalCount(ItemHead(item), item, name);
    CloseLineCount("    ", "item", name);
    LineThen(x6, ItemClose, name);
  }

  lemma {:induction false} ItemsXmlCount(items: seq<FeedItem>, name: string)
    requires IsTagName(name)
    ensures Count(ItemsXml(items), OpenTag(name)) == ItemsTagCount(items, name)
    ensures EndsLine(ItemsXml(items)) || ItemsXml(items) == ""
    decreases |items|
  {
    if |items| > 0 {
      var init, last := items[..|items| - 1], items[|items| - 1];
      ItemsXmlCount(init, name);
      ItemXmlCount(last, name);
      if ItemsXml(init) == "" {
        assert ItemsXml(items) == ItemXml(last);
      } else {
        LineThen(ItemsXml(init), ItemXml(last), name);
      }
    }
  }

  /** The tag profile of the whole document: the channel's tags plus each item's. */
  lemma DocumentTagCount(title: string, description: string, link: Option<string>, items: seq<FeedItem>, name: string)
    requires IsTagName(name)
    ensures Count(RssDocument(title, description, link, items), OpenTag(name))
         == ChannelTagCount(link, name) + ItemsTagCount(items, name)
  {
    var head := ChannelHead(title, description, link);
    var body := head + ItemsXml(items);
    var closed := body + ChannelClose;
    assert RssDocument(title, description, link, items) == closed + RssClose;
    SkeletonNames();
    ChannelHeadCount(title, description, link, name);
    ItemsXmlCount(items, name);
    LineThen(head, ItemsXml(items), name);
    CloseLineCount("  ", "channel", name);
    LineThen(body, ChannelClose, name);
    RssCloseCount(name);
    LineThen(closed, RssClose, name);
  }

  lemma RssCloseCount(name: string)
    requires IsTagName(name)
    ensures Count(RssClose, OpenTag(name)) == 0
  {
    assert IsTagName("rss");
    CloseTagThen("rss", "", name);
    assert RssClose + "" == RssClose;
  }

  /* ---------------- consequences ---------------- */

  /** When every item holds the same number of `<name>` tags, the items hold that many per item. */
  lemma {:induction false} ItemsTagCountUniform(items: seq<FeedItem>, name: string, k: nat)
    requires forall i | 0 <= i < |items| :: ItemTagCount(items[i], name) == k
    ensures ItemsTagCount(items, name) == k * |items|
    decreases |items|
  {
    if |items| > 0 {
      ItemsTagCountUniform(items[..|items| - 1], name, k);
    }
  }

  /** The items' count of an optional tag is the number of items whose value is written. */
  lemma {:induction false} ItemsTagCountOptional(items: seq<FeedItem>, name: string, written: FeedItem -> bool)
    requires forall item :: ItemTagCount(item, name) == Flag(written(item))
    ensures ItemsTagCount(items, name) == |Filter(items, written)|
    decreases |items|
  {
    if |items| > 0 {
      var init, last := items[..|items| - 1], items[|items| - 1];
      ItemsTagCountOptional(init, name, written);
      assert ItemsTagCount(items, name) == ItemsTagCount(init, name) + Flag(written(last));
      FilterSnoc(items, written);
    }
  }

  /** Exactly one `<channel>`. */
  lemma DocumentChannelCount(title: string, description: string, link: Option<string>, items: seq<FeedItem>)
    ensures Count(RssDocument(title, description, link, items), OpenTag("channel")) == 1
  {
    SkeletonNames();
    DocumentTagCount(title, description, link, items, "channel");
    ItemsTagCountUniform(items, "channel", 0);
  }

  /** One `<item>` per item. */
  lemma DocumentItemCount(title: string, description: string, link: Option<string>, items: seq<FeedItem>)
    ensures Count(RssDocument(title, description, link, items), OpenTag("item")) == |items|
  {
    SkeletonNames();
    DocumentTagCount(title, description, link, items, "item");
    ItemsTagCountUniform(items, "item", 1);
  }

  /** One `<title>` for the channel and one per item. */
  lemma DocumentTitleCount(title: string, description: string, link: Option<string>, items: seq<FeedItem>)
    ensures Count(RssDocument(title, description, link, items), OpenTag("title")) == 1 + |items|
  {
    ChannelNames();
    DocumentTagCount(title, description, link, items, "title");
    ItemsTagCountUniform(items, "title", 1);
  }

  /** One `<link>` per item (an item's link is written even when empty), and one for the
      channel only when its link is non-empty. */
  lemma DocumentLinkCount(title: string, description: string, link: Option<string>, items: seq<FeedItem>)
    ensures Count(RssDocument(title, description, link, items), OpenTag("link")) == Flag(Emitted(link)) + |items|
  {
    ChannelNames();
    DocumentTagCount(title, description, link, items, "link");
    ItemsTagCountUniform(items, "link", 1);
  }

  predicate HasPubDate(item: FeedItem) { Emitted(item.pubDate) }
  predicate HasAuthor(item: FeedItem) { Emitted(item.author) }
  predicate HasGuid(item: FeedItem) { Emitted(item.guid) }

  /** One item's `<pubDate>`, `<author>` and `<guid>` tags: one each exactly when the value is
      non-empty. */
  lemma ItemOptionalTags(item: FeedItem)
    ensures ItemTagCount(item, "pubDate") == Flag(HasPubDate(item))
    ensures ItemTagCount(item, "author") == Flag(HasAuthor(item))
    ensures ItemTagCount(item, "guid") == Flag(HasGuid(item))
  {
  }

  /** `pubDate` is written for exactly the items whose publication date is non-empty. */
  lemma DocumentPubDateCount(title: string, description: string, link: Option<string>, items: seq<FeedItem>)
    ensures Count(RssDocument(title, description, link, items), OpenTag("pubDate"))
         == |Filter(items, HasPubDate)|
  {
    OptionalNames();
    DocumentTagCount(title, description, link, items, "pubDate");
    forall item: FeedItem ensures ItemTagCount(item, "pubDate") == Flag(HasPubDate(item)) {
      ItemOptionalTags(item);
    }
    ItemsTagCountOptional(items, "pubDate", HasPubDate);
  }

  /** `author` is written for exactly the items whose author is non-empty. */
  lemma DocumentAuthorCount(title: string, description: string, link: Option<string>, items: seq<FeedItem>)
    ensures Count(RssDocument(title, description, link, items), OpenTag("author"))
         == |Filter(items, HasAuthor)|
  {
    OptionalNames();
    DocumentTagCount(title, description, link, items, "author");
    forall item: FeedItem ensures ItemTagCount(item, "author") == Flag(HasAuthor(item)) {
      ItemOptionalTags(item);
    }
    ItemsTagCountOptional(items, "author", HasAuthor);
  }

  /** `guid` is written for exactly the items whose identifier is non-empty. */
  lemma DocumentGuidCount(title: string, description: string, link: Option<string>, items: seq<FeedItem>)
    ensures Count(RssDocument(title, description, link, items), OpenTag("guid"))
         == |Filter(items, HasGuid)|
  {
    OptionalNames();
    DocumentTagCount(title, description, link, items, "guid");
    forall item: FeedItem ensures ItemTagCount(item, "guid") == Flag(HasGuid(item)) {
      ItemOptionalTags(item);
    }
    ItemsTagCountOptional(items, "guid", HasGuid);
  }

  /** Any other element — `lastBuildDate`, `categories`, or a name the writer never uses — is
      absent from the document. */
  lemma DocumentOmitsOthers(title: string, description: string, link: Option<string>, items: seq<FeedItem>, name: string)
    requires IsTagName(name)
    requires name != "channel" && name != "item" && name != "title" && name != "description" && name != "link"
    requires name != "pubDate" && name != "author" && name != "guid"
    ensures Count(RssDocument(title, description, link, items), OpenTag(name)) == 0
  {
    DocumentTagCount(title, description, link, items, name);
    ItemsTagCountUniform(items, name, 0);
  }

  /** Neither a build-date element nor a category element is ever opened. */
  lemma DocumentOmitsBuildDateAndCategories(title: string, description: string, link: Option<string>, items: seq<FeedItem>)
    ensures Count(RssDocument(title, description, link, items), OpenTag("lastBuildDate")) == 0
    ensures Count(RssDocument(title, description, link, items), OpenTag("category")) == 0
    ensures Count(RssDocument(title, description, link, items), OpenTag("categories")) == 0
  {
    assert IsTagName("lastBuildDate") && IsTagName("category") && IsTagName("categories");
    DocumentOmitsOthers(title, description, link, items, "lastBuildDate");
    DocumentOmitsOthers(title, description, link, items, "category");
    DocumentOmitsOthers(title, description, link, items, "categories");
  }

  /* ---------------- what the document does not depend on ---------------- */

  /** Two item lists that agree on everything but the categories. */
  predicate SameButCategories(a: seq<FeedItem>, b: seq<FeedItem>) {
    |a| == |b| && forall i | 0 <= i < |a| :: a[i].(categories := None) == b[i].(categories := None)
  }

  /** An item's lines do not depend on its categories. */
  lemma ItemXmlIgnoresCategories(x: FeedItem, y: FeedItem)
    requires x.(categories := None) == y.(categories := None)
    ensures ItemXml(x) == ItemXml(y)
  {
    assert x.title == x.(categories := None).title && y.title == y.(categories := None).title;
    assert x.description == x.(categories := None).description;
    assert y.description == y.(categories := None).description;
    assert x.link == x.(categories := None).link && y.link == y.(categories := None).link;
    assert x.pubDate == x.(categories := None).pubDate && y.pubDate == y.(categories := None).pubDate;
    assert x.author == x.(categories := None).author && y.author == y.(categories := None).author;
    assert x.guid == x.(categories := None).guid && y.guid == y.(categories := None).guid;
  }

  /** Item lists that differ only in their categories give the same lines. */
  lemma {:induction false} ItemsXmlIgnoresCategories(a: seq<FeedItem>, b: seq<FeedItem>)
    requires SameButCategories(a, b)
    ensures ItemsXml(a) == ItemsXml(b)
    decreases |a|
  {
    if |a| > 0 {
      var n := |a| - 1;
      assert SameButCategories(a[..n], b[..n]) by {
        forall i | 0 <= i < n ensures a[..n][i].(categories := None) == b[..n][i].(categories := None) {
          assert a[..n][i] == a[i] && b[..n][i] == b[i];
        }
      }
      ItemsXmlIgnoresCategories(a[..n], b[..n]);
      ItemXmlIgnoresCategories(a[n], b[n]);
    }
  }

  /** Items that differ only in their categories are written identically: the categories never
      reach the output, and neither does the feed's build date, which the writer is not given. */
  lemma DocumentIgnoresCategories(title: string, description: string, link: Option<string>,
                                  a: seq<FeedItem>, b: seq<FeedItem>)
    requires SameButCategories(a, b)
    ensures RssDocument(title, description, link, a) == RssDocument(title, description, link, b)
  {
    ItemsXmlIgnoresCategories(a, b);
  }
}
