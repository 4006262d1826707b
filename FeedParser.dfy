/**
 * The pure half of the feed manager (`RCP_Feed_Manager`): recognising RSS 2.0
 * and Atom (RFC 4287) documents, validating a feed URL, mapping RSS items and
 * Atom entries to feed items, and reading publication dates.
 *
 * SimpleXML is modelled on `Xml` trees: `$x->name` is the first unprefixed
 * child called `name`, `(string) $x` is an element's own text, `$x['a']` is an
 * attribute ("" when absent).
 */
module FeedParser {
  import opened Base
  import opened Php
  import opened Platform

  // ---------------------------------------------------------------- SimpleXML access

  /** The unprefixed elements called `name` among `cs`, in document order. */
  function Named(cs: seq<Xml>, name: string): (r: seq<Xml>)
    ensures forall k :: k in r ==> k in cs && k.name == name && k.prefix == ""
    ensures forall c :: c in cs && c.name == name && c.prefix == "" ==> c in r
    ensures |r| <= |cs|
  {
    if cs == [] then []
    else if cs[0].name == name && cs[0].prefix == "" then [cs[0]] + Named(cs[1..], name)
    else Named(cs[1..], name)
  }

  /** Selecting children keeps document order: the elements of a longer list come after those of its prefix. */
  lemma {:induction false} NamedAppend(a: seq<Xml>, b: seq<Xml>, name: string)
    ensures Named(a + b, name) == Named(a, name) + Named(b, name)
  {
    if a == [] {
      assert a + b == b;
    } else {
      assert (a + b)[1..] == a[1..] + b;
      NamedAppend(a[1..], b, name);
    }
  }

  /** `isset($x->name)`. */
  predicate HasChild(x: Xml, name: string) {
    Named(x.children, name) != []
  }

  /** `$x->name`, when there is one. */
  function Child(x: Xml, name: string): (r: Option<Xml>)
    ensures r.Some? <==> HasChild(x, name)
    ensures r.Some? ==> r.value in x.children && r.value.name == name
  {
    var kids := Named(x.children, name);
    if kids == [] then None else Some(kids[0])
  }

  /** `(string) $x->name`: the first such child's text, "" when there is none. */
  function ChildText(x: Xml, name: string): string {
    match Child(x, name)
    case Some(c) => c.text
    case None => ""
  }

  /** `(string) $x['a']`. */
  function Attr(x: Xml, a: string): string {
    if a in x.attrs then x.attrs[a] else ""
  }

  /** The element or one of its descendants carries the namespace prefix, so `getNamespaces(true)` lists it. */
  predicate UsesPrefix(x: Xml, p: string)
    decreases x
  {
    x.prefix == p || exists i :: 0 <= i < |x.children| && UsesPrefix(x.children[i], p)
  }

  // ---------------------------------------------------------------- dialect and title

  datatype FeedType = Atom | Rss | UnknownType

  /** `detect_feed_type`: a root called `feed` is Atom (checked first), a root with a `channel` is RSS. */
  function DetectFeedType(root: Xml): FeedType {
    if root.name == "feed" then Atom
    else if HasChild(root, "channel") then Rss
    else UnknownType
  }

  /** `extract_feed_title`: the title of the branch `detect_feed_type` takes. */
  function ExtractFeedTitle(root: Xml): string {
    if root.name == "feed" then ChildText(root, "title")
    else match Child(root, "channel")
      case Some(channel) => ChildText(channel, "title")
      case None => ""
  }

  /** The title is read from the element the type names: the root for Atom, the channel for RSS, nothing otherwise. */
  lemma TitleFollowsType(root: Xml)
    ensures DetectFeedType(root) == Atom ==> ExtractFeedTitle(root) == ChildText(root, "title")
    ensures DetectFeedType(root) == Rss ==>
              Child(root, "channel").Some? && ExtractFeedTitle(root) == ChildText(Child(root, "channel").value, "title")
    ensures DetectFeedType(root) == UnknownType ==> ExtractFeedTitle(root) == ""
  {
  }

  // ---------------------------------------------------------------- validation

  datatype FeedError =
    | MissingData
    | InvalidUrl
    | FetchError(message: string)
    | HttpError(code: nat)
    | EmptyContent
    | InvalidXml
    | InvalidFeed
    | FeedNotFound
    | ParseError

  /** What a successful validation reports. */
  datatype Validation = Validation(kind: FeedType, title: string, etag: string, lastModified: string)

  /** The GET `validate_feed` sends: no conditional headers, a 15-second timeout. */
  function ProbeRequest(url: string): FeedRequest {
    FeedRequest(url, None, None, 15)
  }

  /** The document is an RSS or Atom feed by `validate_feed`'s test: a `channel`, an `entry`, or a root called `feed`. */
  predicate LooksLikeFeed(root: Xml) {
    HasChild(root, "channel") || HasChild(root, "entry") || root.name == "feed"
  }

  /** `validate_feed`: URL syntax, then transport, status, body, XML, and the feed shape, the first failing check giving the error. */
  function ValidateFeed(env: Env, url: string): Result<Validation, FeedError> {
    if !env.isValidUrl(url) then Err(InvalidUrl)
    else
      var response := env.httpGet(ProbeRequest(url));
      match response
      case TransportError(message) => Err(FetchError(message))
      case Reply(code, body, _) =>
        if code < 200 || code >= 300 then Err(HttpError(code))
        else if Empty(body) then Err(EmptyContent)
        else match env.parseXml(body)
          case None => Err(InvalidXml)
          case Some(root) =>
            if !LooksLikeFeed(root) then Err(InvalidFeed)
            else Ok(Validation(DetectFeedType(root), ExtractFeedTitle(root), Header(response, "etag"), Header(response, "last-modified")))
  }

  /** A feed validates exactly when every check passes, and then the type and title are read from the document. */
  lemma ValidateFeedAccepts(env: Env, url: string)
    ensures ValidateFeed(env, url).Ok? <==>
              env.isValidUrl(url) &&
              var response := env.httpGet(ProbeRequest(url));
              response.Reply? && 200 <= response.code < 300 && !Empty(response.body) &&
              env.parseXml(response.body).Some? && LooksLikeFeed(env.parseXml(response.body).value)
    ensures ValidateFeed(env, url).Ok? ==>
              var root := env.parseXml(env.httpGet(ProbeRequest(url)).body).value;
              ValidateFeed(env, url).value.kind == DetectFeedType(root) &&
              ValidateFeed(env, url).value.title == ExtractFeedTitle(root)
  {
  }

  /** An invalid URL is refused before any request; a transport failure before any status check; a bad status before the body is looked at; an empty body before parsing; text that does not parse before the feed shape is checked. */
  lemma ValidateFeedOrder(env: Env, url: string)
    ensures !env.isValidUrl(url) ==> ValidateFeed(env, url) == Err(InvalidUrl)
    ensures env.isValidUrl(url) && env.httpGet(ProbeRequest(url)).TransportError? ==>
              ValidateFeed(env, url) == Err(FetchError(env.httpGet(ProbeRequest(url)).message))
    ensures env.isValidUrl(url) && env.httpGet(ProbeRequest(url)).Reply? && !(200 <= env.httpGet(ProbeRequest(url)).code < 300) ==>
              ValidateFeed(env, url) == Err(HttpError(env.httpGet(ProbeRequest(url)).code))
    ensures env.isValidUrl(url) && env.httpGet(ProbeRequest(url)).Reply? && 200 <= env.httpGet(ProbeRequest(url)).code < 300 &&
            Empty(env.httpGet(ProbeRequest(url)).body) ==>
              ValidateFeed(env, url) == Err(EmptyContent)
    ensures env.isValidUrl(url) && env.httpGet(ProbeRequest(url)).Reply? && 200 <= env.httpGet(ProbeRequest(url)).code < 300 &&
            !Empty(env.httpGet(ProbeRequest(url)).body) && env.parseXml(env.httpGet(ProbeRequest(url)).body).None? ==>
              ValidateFeed(env, url) == Err(InvalidXml)
    ensures env.isValidUrl(url) && env.httpGet(ProbeRequest(url)).Reply? && 200 <= env.httpGet(ProbeRequest(url)).code < 300 &&
            !Empty(env.httpGet(ProbeRequest(url)).body) && env.parseXml(env.httpGet(ProbeRequest(url)).body).Some? &&
            !LooksLikeFeed(env.parseXml(env.httpGet(ProbeRequest(url)).body).value) ==>
              ValidateFeed(env, url) == Err(InvalidFeed)
  {
  }

  /** A document with an `entry` child under a root not called `feed` passes validation yet its type is unknown. */
  lemma EntryRootValidatesAsUnknown(root: Xml)
    requires root.name != "feed" && !HasChild(root, "channel") && HasChild(root, "entry")
    ensures LooksLikeFeed(root) && DetectFeedType(root) == UnknownType
  {
  }

  // ---------------------------------------------------------------- items

  /** One parsed item, as `parse_rss_item` and `parse_atom_entry` return it. */
  datatype FeedItem = FeedItem(
    title: string,
    content: string,
    description: string,
    link: string,
    guid: string,
    author: string,
    pubDate: string,
    categories: seq<string>,
    feedId: nat,
    sourceSite: string)

  /** The text of each element, in order. */
  function Texts(cs: seq<Xml>): (r: seq<string>)
    ensures |r| == |cs|
  {
    seq(|cs|, i requires 0 <= i < |cs| => cs[i].text)
  }

  /** The `term` attribute of each element, in order ("" for one without). */
  function Terms(cs: seq<Xml>): (r: seq<string>)
    ensures |r| == |cs|
  {
    seq(|cs|, i requires 0 <= i < |cs| => Attr(cs[i], "term"))
  }

  /** `extract_categories`: the text of every `category`, in document order. */
  function RssCategories(item: Xml): seq<string> {
    Texts(Named(item.children, "category"))
  }

  /** `extract_atom_categories`: the `term` of every `category`, in document order. */
  function AtomCategories(entry: Xml): seq<string> {
    Terms(Named(entry.children, "category"))
  }

  /** A string is an RSS category exactly when some `category` child carries it as its text; there is one category per such child. */
  lemma RssCategoriesMembers(item: Xml)
    ensures |RssCategories(item)| == |Named(item.children, "category")|
    ensures forall s :: s in RssCategories(item) <==>
              exists c :: c in item.children && c.name == "category" && c.prefix == "" && c.text == s
  {
    var cats := Named(item.children, "category");
    forall s ensures s in RssCategories(item) <==>
                     exists c :: c in item.children && c.name == "category" && c.prefix == "" && c.text == s
    {
      if s in RssCategories(item) {
        var i :| 0 <= i < |cats| && RssCategories(item)[i] == s;
        assert cats[i] in cats;
      }
      if exists c :: c in item.children && c.name == "category" && c.prefix == "" && c.text == s {
        var c :| c in item.children && c.name == "category" && c.prefix == "" && c.text == s;
        var i :| 0 <= i < |cats| && cats[i] == c;
        assert RssCategories(item)[i] == s;
      }
    }
  }

  /** A string is an Atom category exactly when some `category` child carries it as its `term`. */
  lemma AtomCategoriesMembers(entry: Xml)
    ensures |AtomCategories(entry)| == |Named(entry.children, "category")|
    ensures forall s :: s in AtomCategories(entry) <==>
              exists c :: c in entry.children && c.name == "category" && c.prefix == "" && Attr(c, "term") == s
  {
    var cats := Named(entry.children, "category");
    forall s ensures s in AtomCategories(entry) <==>
                     exists c :: c in entry.children && c.name == "category" && c.prefix == "" && Attr(c, "term") == s
    {
      if s in AtomCategories(entry) {
        var i :| 0 <= i < |cats| && AtomCategories(entry)[i] == s;
        assert cats[i] in cats;
      }
      if exists c :: c in entry.children && c.name == "category" && c.prefix == "" && Attr(c, "term") == s {
        var c :| c in entry.children && c.name == "category" && c.prefix == "" && Attr(c, "term") == s;
        var i :| 0 <= i < |cats| && cats[i] == c;
        assert AtomCategories(entry)[i] == s;
      }
    }
  }

  /** Categories keep document order: the categories of children `a + b` are those of `a` followed by those of `b`. */
  lemma RssCategoriesAppend(item: Xml, a: seq<Xml>, b: seq<Xml>)
    requires item.children == a + b
    ensures RssCategories(item) == RssCategories(item.(children := a)) + RssCategories(item.(children := b))
  {
    NamedAppend(a, b, "category");
    var x, y := Named(a, "category"), Named(b, "category");
    assert Texts(x + y) == Texts(x) + Texts(y);
  }

  /** Atom categories keep document order in the same way. */
  lemma AtomCategoriesAppend(entry: Xml, a: seq<Xml>, b: seq<Xml>)
    requires entry.children == a + b
    ensures AtomCategories(entry) == AtomCategories(entry.(children := a)) + AtomCategories(entry.(children := b))
  {
    NamedAppend(a, b, "category");
    TermsAppend(Named(a, "category"), Named(b, "category"));
  }

  lemma TermsAppend(x: seq<Xml>, y: seq<Xml>)
    ensures Terms(x + y) == Terms(x) + Terms(y)
  {
    forall i | 0 <= i < |x + y| ensures Terms(x + y)[i] == (Terms(x) + Terms(y))[i] {
      if i < |x| {
        assert (x + y)[i] == x[i];
      } else {
        assert (x + y)[i] == y[i - |x|];
      }
    }
  }

  /** The `content:encoded` child of an item, if any. */
  function Encoded(item: Xml): Option<Xml> {
    FirstEncoded(item.children)
  }

  /** The first `content:encoded` element among `cs`. */
  function FirstEncoded(cs: seq<Xml>): (r: Option<Xml>)
    ensures r.Some? ==> r.value in cs && r.value.prefix == "content" && r.value.name == "encoded"
    ensures r.None? ==> forall c :: c in cs ==> !(c.prefix == "content" && c.name == "encoded")
  {
    if cs == [] then None
    else if cs[0].prefix == "content" && cs[0].name == "encoded" then Some(cs[0])
    else FirstEncoded(cs[1..])
  }

  /**
   * The RSS item body as written: `$namespaces['content'] ?? []` hands an
   * empty array to `children()` when the item uses no `content:` element,
   * which PHP 8 rejects with a TypeError (None here) before the `??` fallback
   * to `description` is reached.
   */
  function RssContentAsWritten(item: Xml): Option<string> {
    if !UsesPrefix(item, "content") then None
    else match Encoded(item)
      case Some(e) => Some(e.text)
      case None => Some(ChildText(item, "description"))
  }

  /** The RSS item body as intended: `content:encoded` when present, else `description`. */
  function RssContent(item: Xml): string {
    match Encoded(item)
    case Some(e) => e.text
    case None => ChildText(item, "description")
  }

  /** A plain RSS 2.0 item, one with no `content:` element, aborts parsing as written. */
  lemma PlainRssItemAborts(item: Xml)
    requires item.prefix == "" && forall i :: 0 <= i < |item.children| ==> item.children[i].prefix == "" && item.children[i].children == []
    ensures RssContentAsWritten(item).None?
  {
    assert !UsesPrefix(item, "content") by {
      forall i | 0 <= i < |item.children|
        ensures !UsesPrefix(item.children[i], "content")
      {
        assert item.children[i].children == [];
      }
    }
  }

  /** The intended body falls back to the description, and agrees with the code as written whenever that does not abort. */
  lemma RssContentFallsBack(item: Xml)
    ensures Encoded(item).None? ==> RssContent(item) == ChildText(item, "description")
    ensures Encoded(item).Some? ==> RssContent(item) == Encoded(item).value.text && Encoded(item).value in item.children
    ensures RssContentAsWritten(item).Some? ==> RssContentAsWritten(item).value == RssContent(item)
  {
  }

  /** `parse_rss_item`, with the intended body. */
  function ParseRssItem(item: Xml, feedId: nat, sourceSite: string): FeedItem {
    FeedItem(ChildText(item, "title"), RssContent(item), ChildText(item, "description"), ChildText(item, "link"),
             ChildText(item, "guid"), ChildText(item, "author"), ChildText(item, "pubDate"), RssCategories(item),
             feedId, sourceSite)
  }

  /** The `href` of the first link whose `rel` is `alternate` or absent (section 4.2.7.2 of RFC 4287), "" when none is. */
  function AlternateLink(links: seq<Xml>): string {
    if links == [] then ""
    else if Attr(links[0], "rel") == "alternate" || "rel" !in links[0].attrs then Attr(links[0], "href")
    else AlternateLink(links[1..])
  }

  predicate IsAlternate(link: Xml) {
    Attr(link, "rel") == "alternate" || "rel" !in link.attrs
  }

  /** The chosen link is that of the first alternate link, and every earlier link has some other `rel`. */
  lemma {:induction false} AlternateLinkIsFirst(links: seq<Xml>)
    ensures (forall i :: 0 <= i < |links| ==> !IsAlternate(links[i])) ==> AlternateLink(links) == ""
    ensures forall i :: 0 <= i < |links| && IsAlternate(links[i]) && (forall j :: 0 <= j < i ==> !IsAlternate(links[j])) ==>
              AlternateLink(links) == Attr(links[i], "href")
  {
    if links != [] {
      AlternateLinkIsFirst(links[1..]);
      forall i | 0 <= i < |links| && IsAlternate(links[i]) && (forall j :: 0 <= j < i ==> !IsAlternate(links[j]))
        ensures AlternateLink(links) == Attr(links[i], "href")
      {
        if i > 0 {
          assert !IsAlternate(links[0]);
          assert links[1..][i - 1] == links[i];
          forall j | 0 <= j < i - 1 ensures !IsAlternate(links[1..][j]) {
            assert links[1..][j] == links[j + 1];
          }
        }
      }
      if forall i :: 0 <= i < |links| ==> !IsAlternate(links[i]) {
        forall j | 0 <= j < |links[1..]| ensures !IsAlternate(links[1..][j]) {
          assert links[1..][j] == links[j + 1];
        }
      }
    }
  }

  /** `content`, else `summary`, else "". */
  function AtomContent(entry: Xml): string {
    if HasChild(entry, "content") then ChildText(entry, "content")
    else if HasChild(entry, "summary") then ChildText(entry, "summary")
    else ""
  }

  /** `(string) $entry->published ?: (string) $entry->updated`: a falsy published date ("" or "0") gives way to the updated one. */
  function AtomDate(entry: Xml): string {
    var published := ChildText(entry, "published");
    if !Empty(published) then published else ChildText(entry, "updated")
  }

  /** `(string) $entry->author->name`. */
  function AtomAuthor(entry: Xml): string {
    match Child(entry, "author")
    case Some(a) => ChildText(a, "name")
    case None => ""
  }

  /** `parse_atom_entry`. */
  function ParseAtomEntry(entry: Xml, feedId: nat, sourceSite: string): FeedItem {
    FeedItem(ChildText(entry, "title"), AtomContent(entry), ChildText(entry, "summary"),
             AlternateLink(Named(entry.children, "link")), ChildText(entry, "id"), AtomAuthor(entry),
             AtomDate(entry), AtomCategories(entry), feedId, sourceSite)
  }

  /** Atom field mapping: the body prefers `content` over `summary`, the GUID is the `id`, the date prefers `published` over `updated`. */
  lemma AtomEntryMeaning(entry: Xml, feedId: nat, sourceSite: string)
    ensures var it := ParseAtomEntry(entry, feedId, sourceSite);
            (HasChild(entry, "content") ==> it.content == ChildText(entry, "content")) &&
            (!HasChild(entry, "content") && HasChild(entry, "summary") ==> it.content == ChildText(entry, "summary")) &&
            (!HasChild(entry, "content") && !HasChild(entry, "summary") ==> it.content == "") &&
            it.guid == ChildText(entry, "id") &&
            (!Empty(ChildText(entry, "published")) ==> it.pubDate == ChildText(entry, "published")) &&
            (Empty(ChildText(entry, "published")) ==> it.pubDate == ChildText(entry, "updated")) &&
            it.feedId == feedId && it.sourceSite == sourceSite
  {
  }

  /** A published date of "0" is falsy, so the updated date is used instead. */
  lemma AtomZeroPublishedUsesUpdated(entry: Xml)
    requires ChildText(entry, "published") == "0"
    ensures AtomDate(entry) == ChildText(entry, "updated")
  {
  }

  // ---------------------------------------------------------------- whole documents

  /** `parse_feed_content` on a parsed document: the items of the first channel, else the entries of an Atom root, else none. */
  function FeedItems(root: Xml, feedId: nat, sourceSite: string): (items: seq<FeedItem>)
  {
    var channel := Child(root, "channel");
    if channel.Some? && HasChild(channel.value, "item") then
      var kids := Named(channel.value.children, "item");
      seq(|kids|, i requires 0 <= i < |kids| => ParseRssItem(kids[i], feedId, sourceSite))
    else if root.name == "feed" && HasChild(root, "entry") then
      var kids := Named(root.children, "entry");
      seq(|kids|, i requires 0 <= i < |kids| => ParseAtomEntry(kids[i], feedId, sourceSite))
    else []
  }

  /** `parse_feed_content`: text that does not parse is an error; a document that is neither RSS nor Atom yields no items. */
  function ParseFeedContent(env: Env, body: string, feedId: nat, sourceSite: string): Result<seq<FeedItem>, FeedError> {
    match env.parseXml(body)
    case None => Err(ParseError)
    case Some(root) => Ok(FeedItems(root, feedId, sourceSite))
  }

  /**
   * One item per RSS `item` of the first channel (RSS is tried first), else one
   * per Atom `entry` of a `feed` root, else none, each tagged with the feed.
   */
  lemma FeedItemsMeaning(root: Xml, feedId: nat, sourceSite: string)
    ensures Child(root, "channel").Some? && HasChild(Child(root, "channel").value, "item") ==>
              var kids := Named(Child(root, "channel").value.children, "item");
              |FeedItems(root, feedId, sourceSite)| == |kids| &&
              forall i :: 0 <= i < |kids| ==> FeedItems(root, feedId, sourceSite)[i] == ParseRssItem(kids[i], feedId, sourceSite)
    ensures !(Child(root, "channel").Some? && HasChild(Child(root, "channel").value, "item")) && root.name == "feed" ==>
              var entries := Named(root.children, "entry");
              |FeedItems(root, feedId, sourceSite)| == |entries| &&
              forall i :: 0 <= i < |entries| ==> FeedItems(root, feedId, sourceSite)[i] == ParseAtomEntry(entries[i], feedId, sourceSite)
    ensures !(Child(root, "channel").Some? && HasChild(Child(root, "channel").value, "item")) && root.name != "feed" ==>
              FeedItems(root, feedId, sourceSite) == []
    ensures forall it :: it in FeedItems(root, feedId, sourceSite) ==> it.feedId == feedId && it.sourceSite == sourceSite
  {
  }

  // ---------------------------------------------------------------- dates

  /** `parse_date`: the time `strtotime` reads from the text, or now when the text is empty or unreadable. */
  function ParseDate(env: Env, text: string, now: Time): Time {
    if Empty(text) then now
    else match env.strToTime(text)
      case None => now
      case Some(t) => t
  }

  /**
   * The date is never invented: it is the fetch time or what `strtotime` read
   * from the text. A readable date does not depend on when it is parsed, and
   * the fetch time is used exactly for falsy or unreadable text.
   */
  lemma ParseDateMeaning(env: Env, text: string, now: Time)
    ensures ParseDate(env, text, now) == now || env.strToTime(text) == Some(ParseDate(env, text, now))
    ensures !Empty(text) && env.strToTime(text).Some? ==>
              forall later: Time :: ParseDate(env, text, later) == ParseDate(env, text, now) == env.strToTime(text).value
    ensures Empty(text) || env.strToTime(text).None? ==> ParseDate(env, text, now) == now
  {
  }
}
