/**
 * The feed lifecycle and item pipeline of `RCP_Feed_Manager`: adding a feed,
 * the due-feed batch, the conditional GET with its error counting and
 * auto-disable, duplicate detection, and first-match rule dispatch to the
 * webhook manager.
 */
module FeedManager {
  import opened Base
  import opened Php
  import opened Platform
  import opened Content
  import opened Rules
  import opened Webhooks
  import opened FeedParser

  // ---------------------------------------------------------------- feed rows

  /** The `status` column: `active`, `inactive`, `error`. */
  datatype FeedStatus = StatusActive | StatusInactive | StatusError

  /** The columns of a feed row that only `add_feed` writes. */
  datatype FeedConfig = FeedConfig(
    name: string,
    url: string,
    description: string,
    sourceSite: string,
    language: string,
    pollingInterval: int,
    defaultCategory: int,
    defaultTags: string,
    defaultAuthor: int,
    attributionTemplate: string,
    licenseNote: string)

  /** The columns of a feed row that fetching writes. A NULL `etag` or `last_modified` reads as "". */
  datatype FetchState = FetchState(
    status: FeedStatus,
    lastFetch: Option<Time>,
    etag: string,
    lastModified: string,
    errorCount: nat,
    errorMessage: Option<string>)

  /** A row of the feeds table. */
  datatype Feed = Feed(config: FeedConfig, state: FetchState)

  /** The submitted feed data; numbers are already converted by `intval`. A missing name or URL reads as "". */
  datatype FeedInput = FeedInput(
    name: string,
    url: string,
    description: Option<string>,
    sourceSite: Option<string>,
    language: Option<string>,
    pollingInterval: Option<int>,
    defaultCategory: Option<int>,
    defaultTags: Option<string>,
    defaultAuthor: Option<int>,
    attributionTemplate: Option<string>,
    licenseNote: Option<string>)

  const DefaultPollingInterval := 3600
  /** Failures after which a feed is switched to `error`. */
  const MaxErrors := 5
  /** At most this many feeds are fetched per run. */
  const BatchLimit := 10
  const FetchTimeout := 30

  /** The row `add_feed` inserts: `active`, never fetched, with the documented defaults. */
  function NewFeed(env: Env, input: FeedInput): Feed {
    Feed(FeedConfig(input.name, input.url, input.description.GetOr(""), input.sourceSite.GetOr(""), input.language.GetOr("en"),
                    input.pollingInterval.GetOr(DefaultPollingInterval), input.defaultCategory.GetOr(0), input.defaultTags.GetOr(""),
                    input.defaultAuthor.GetOr(env.currentUserId as int), input.attributionTemplate.GetOr(""), input.licenseNote.GetOr("")),
         FetchState(StatusActive, None, "", "", 0, None))
  }

  /** A new feed is active, has never been fetched, has no errors and polls hourly unless told otherwise. */
  lemma NewFeedDefaults(env: Env, input: FeedInput)
    ensures var f := NewFeed(env, input);
            f.state.status == StatusActive && f.state.lastFetch.None? && f.state.errorCount == 0 &&
            f.config.name == input.name && f.config.url == input.url &&
            (input.pollingInterval.None? ==> f.config.pollingInterval == 3600) &&
            (input.language.None? ==> f.config.language == "en")
  {
  }

  // ---------------------------------------------------------------- errors

  /** `handle_feed_error` on one row: one more error with its message; at five or more the feed is switched to `error`. */
  function AfterError(s: FetchState, message: string): FetchState {
    var counted := s.(errorCount := s.errorCount + 1, errorMessage := Some(message));
    if counted.errorCount >= MaxErrors then counted.(status := StatusError) else counted
  }

  /** The state after `k` consecutive failures. */
  function Failures(s: FetchState, message: string, k: nat): FetchState {
    if k == 0 then s else AfterError(Failures(s, message, k - 1), message)
  }

  /** Each failure adds exactly one error; a feed is in `error` after a run of failures iff it already was or its count reached five. */
  lemma {:induction false} FailuresDisable(s: FetchState, message: string, k: nat)
    ensures Failures(s, message, k).errorCount == s.errorCount + k
    ensures Failures(s, message, k).status == StatusError <==>
              s.status == StatusError || (k > 0 && s.errorCount + k >= MaxErrors)
    ensures k > 0 ==> Failures(s, message, k).errorMessage == Some(message)
  {
    if k > 0 {
      FailuresDisable(s, message, k - 1);
    }
  }

  // ---------------------------------------------------------------- one fetch

  /** The conditional GET of sections 3.2 and 3.3 of RFC 7232: validators are sent only when truthy. */
  function ConditionalGet(f: Feed): FeedRequest {
    FeedRequest(f.config.url, if Empty(f.state.etag) then None else Some(f.state.etag),
                if Empty(f.state.lastModified) then None else Some(f.state.lastModified), FetchTimeout)
  }

  function HttpErrorText(code: nat): string {
    "HTTP error: " + NatToString(code)
  }

  const ParseErrorText := "Failed to parse feed XML"

  /** New validators replace both old ones together, and only when at least one of them is truthy. */
  function WithValidators(s: FetchState, r: HttpResponse): FetchState {
    var etag := Header(r, "etag");
    var lastModified := Header(r, "last-modified");
    if !Empty(etag) || !Empty(lastModified) then s.(etag := etag, lastModified := lastModified) else s
  }

  /** The fetch state after `fetch_feed` began at `now`. */
  function FetchedState(env: Env, f: Feed, now: Time): FetchState {
    var stamped := f.state.(lastFetch := Some(now));
    var response := env.httpGet(ConditionalGet(f));
    match response
    case TransportError(message) => AfterError(stamped, message)
    case Reply(code, _, _) =>
      if code == 304 then stamped
      else if code < 200 || code >= 300 then AfterError(stamped, HttpErrorText(code))
      else BodyState(env, stamped, response)
  }

  /** The state after a 2xx answer: new validators, then an error if the body does not parse and a reset otherwise. */
  function BodyState(env: Env, stamped: FetchState, response: HttpResponse): FetchState
    requires response.Reply?
  {
    ParsedState(env, WithValidators(stamped, response), response.body)
  }

  /** The state once the body is read: one more error if it does not parse, the error count and message cleared otherwise. */
  function ParsedState(env: Env, validated: FetchState, body: string): FetchState {
    if env.parseXml(body).None? then AfterError(validated, ParseErrorText)
    else validated.(errorCount := 0, errorMessage := None)
  }

  /** The row after a fetch: only the fetch state changes. */
  function FetchedRow(env: Env, f: Feed, now: Time): Feed {
    f.(state := FetchedState(env, f, now))
  }

  /** The items a fetch hands to the pipeline: those of a 2xx body that parses, none otherwise. */
  function FetchedItems(env: Env, f: Feed, feedId: nat): seq<FeedItem> {
    var response := env.httpGet(ConditionalGet(f));
    if response.Reply? && 200 <= response.code < 300 then BodyItems(env, response.body, feedId, f.config.sourceSite) else []
  }

  function BodyItems(env: Env, body: string, feedId: nat, sourceSite: string): seq<FeedItem> {
    match ParseFeedContent(env, body, feedId, sourceSite)
    case Ok(items) => items
    case Err(_) => []
  }

  datatype FetchStatus = NotModified | Fetched(itemsProcessed: nat)

  /** What `fetch_feed` returns for a known feed, given the GUIDs and URLs already stored. */
  function FetchOutcome(env: Env, f: Feed, feedId: nat, seen: SeenKeys): Result<FetchStatus, FeedError> {
    match env.httpGet(ConditionalGet(f))
    case TransportError(message) => Err(FetchError(message))
    case Reply(code, body, _) =>
      if code == 304 then Ok(NotModified)
      else if code < 200 || code >= 300 then Err(HttpError(code))
      else BodyOutcome(env, body, feedId, f.config.sourceSite, seen)
  }

  function BodyOutcome(env: Env, body: string, feedId: nat, sourceSite: string, seen: SeenKeys): Result<FetchStatus, FeedError> {
    match ParseFeedContent(env, body, feedId, sourceSite)
    case Err(e) => Err(e)
    case Ok(items) => Ok(Fetched(IngestCount(env, seen, items)))
  }

  /** Every fetch stamps `last_fetch` and leaves the configuration alone; a 304 changes nothing else, in particular neither the error count nor the validators. */
  lemma FetchStampsAndNotModified(env: Env, f: Feed, now: Time)
    ensures FetchedRow(env, f, now).state.lastFetch == Some(now)
    ensures FetchedRow(env, f, now).config == f.config
    ensures var response := env.httpGet(ConditionalGet(f));
            response.Reply? && response.code == 304 ==>
              FetchedRow(env, f, now).state == f.state.(lastFetch := Some(now)) && FetchedItems(env, f, 0) == []
  {
  }

  /** A transport failure, a non-2xx status other than 304, or a body that does not parse counts exactly one error. */
  lemma FetchFailureCountsOne(env: Env, f: Feed, feedId: nat, now: Time)
    ensures var response := env.httpGet(ConditionalGet(f));
            var failed := response.TransportError? ||
                           (response.code != 304 && (response.code < 200 || response.code >= 300)) ||
                           env.parseXml(response.body).None?;
            var g := FetchedRow(env, f, now).state;
            (failed && !(response.Reply? && response.code == 304)) ==>
              g.errorCount == f.state.errorCount + 1 &&
              (g.status == StatusError <==> f.state.status == StatusError || f.state.errorCount + 1 >= MaxErrors) &&
              FetchOutcome(env, f, feedId, SeenKeys({}, {})).Err?
  {
  }

  /** A 2xx body that parses resets the error count and message and keeps the status; the validators are replaced together or not at all. */
  lemma FetchSuccessResets(env: Env, f: Feed, now: Time)
    ensures var response := env.httpGet(ConditionalGet(f));
            var g := FetchedRow(env, f, now).state;
            response.Reply? && 200 <= response.code < 300 && env.parseXml(response.body).Some? ==>
              g.errorCount == 0 && g.errorMessage.None? && g.status == f.state.status
    ensures var g := FetchedRow(env, f, now).state;
            (g.etag == f.state.etag && g.lastModified == f.state.lastModified) ||
            (var response := env.httpGet(ConditionalGet(f));
             response.Reply? && 200 <= response.code < 300 &&
             (!Empty(Header(response, "etag")) || !Empty(Header(response, "last-modified"))) &&
             g.etag == Header(response, "etag") && g.lastModified == Header(response, "last-modified"))
  {
  }

  // ---------------------------------------------------------------- duplicates

  /** `is_duplicate_item` against the stored GUIDs and URLs: a truthy GUID already stored, or a truthy link already stored. */
  predicate Duplicate(seen: SeenKeys, item: FeedItem) {
    (!Empty(item.guid) && item.guid in seen.guids) || (!Empty(item.link) && item.link in seen.urls)
  }

  /** The GUID and link as the item's post records them: `sanitize_text_field` of the GUID, `esc_url` of the link. */
  function StoredKeys(env: Env, item: FeedItem): (r: SeenKeys) {
    SeenKeys({env.sanitizeText(item.guid)}, {env.escUrl(item.link)})
  }

  /** The keys stored once the item's post exists: the sanitised GUID and link, not the raw ones `Duplicate` looks up. */
  function Remember(env: Env, seen: SeenKeys, item: FeedItem): SeenKeys {
    SeenKeys(seen.guids + StoredKeys(env, item).guids, seen.urls + StoredKeys(env, item).urls)
  }

  function Step(env: Env, seen: SeenKeys, item: FeedItem): SeenKeys {
    if Duplicate(seen, item) then seen else Remember(env, seen, item)
  }

  /** The stored keys after the items are processed in order. */
  function IngestSeen(env: Env, seen: SeenKeys, items: seq<FeedItem>): SeenKeys
    decreases |items|
  {
    if items == [] then seen else Step(env, IngestSeen(env, seen, items[..|items| - 1]), items[|items| - 1])
  }

  /** How many of the items are inserted: each one not a duplicate of what is stored by then, earlier items of the same batch included. */
  function IngestCount(env: Env, seen: SeenKeys, items: seq<FeedItem>): nat
    decreases |items|
  {
    if items == [] then 0
    else
      var before := items[..|items| - 1];
      IngestCount(env, seen, before) + if Duplicate(IngestSeen(env, seen, before), items[|items| - 1]) then 0 else 1
  }

  /** One more item: the seen keys take one `Step` and the count grows by one exactly when the item is new. */
  lemma IngestStep(env: Env, seen: SeenKeys, items: seq<FeedItem>, i: nat)
    requires i < |items|
    ensures IngestSeen(env, seen, items[..i + 1]) == Step(env, IngestSeen(env, seen, items[..i]), items[i])
    ensures IngestCount(env, seen, items[..i + 1]) ==
            IngestCount(env, seen, items[..i]) + if Duplicate(IngestSeen(env, seen, items[..i]), items[i]) then 0 else 1
  {
    assert items[..i + 1][..i] == items[..i];
  }

  predicate Keyed(item: FeedItem) {
    !Empty(item.guid) || !Empty(item.link)
  }

  /** `sanitize_text_field` leaves the GUID as it is and `esc_url` leaves the link as it is, so the post stores what the lookup asks for. */
  predicate KeptBySanitizers(env: Env, item: FeedItem) {
    env.sanitizeText(item.guid) == item.guid && env.escUrl(item.link) == item.link
  }

  predicate Within(a: SeenKeys, b: SeenKeys) {
    a.guids <= b.guids && a.urls <= b.urls
  }

  /** An item with neither a GUID nor a link is never a duplicate, so it is inserted on every fetch. */
  lemma UnkeyedNeverDuplicate(seen: SeenKeys, item: FeedItem)
    requires !Keyed(item)
    ensures !Duplicate(seen, item)
  {
  }

  /**
   * Processing only adds keys, and afterwards every keyed item of the batch
   * whose GUID and link the sanitizers leave alone is a duplicate.
   */
  lemma {:induction false} IngestCovers(env: Env, seen: SeenKeys, items: seq<FeedItem>)
    ensures Within(seen, IngestSeen(env, seen, items))
    ensures forall it :: it in items && Keyed(it) && KeptBySanitizers(env, it) ==> Duplicate(IngestSeen(env, seen, items), it)
    decreases |items|
  {
    if items != [] {
      var before := items[..|items| - 1];
      var last := items[|items| - 1];
      IngestCovers(env, seen, before);
      forall it | it in items && Keyed(it) && KeptBySanitizers(env, it)
        ensures Duplicate(IngestSeen(env, seen, items), it)
      {
        if it != last {
          assert it in before;
        }
      }
    }
  }

  /** When every item is already a duplicate, processing stores nothing and inserts nothing. */
  lemma {:induction false} IngestAllDuplicates(env: Env, seen: SeenKeys, items: seq<FeedItem>)
    requires forall it :: it in items ==> Duplicate(seen, it)
    ensures IngestSeen(env, seen, items) == seen && IngestCount(env, seen, items) == 0
    decreases |items|
  {
    if items != [] {
      var before := items[..|items| - 1];
      assert forall it :: it in before ==> it in items;
      IngestAllDuplicates(env, seen, before);
    }
  }

  /**
   * Fetching the same items again inserts none of the keyed ones whose GUID
   * and link the sanitizers leave alone: for them duplicate detection makes
   * re-ingestion idempotent.
   */
  lemma RefetchInsertsNothing(env: Env, seen: SeenKeys, items: seq<FeedItem>)
    requires forall it :: it in items ==> Keyed(it) && KeptBySanitizers(env, it)
    ensures IngestCount(env, IngestSeen(env, seen, items), items) == 0
    ensures IngestSeen(env, IngestSeen(env, seen, items), items) == IngestSeen(env, seen, items)
  {
    IngestCovers(env, seen, items);
    IngestAllDuplicates(env, IngestSeen(env, seen, items), items);
  }

  /**
   * As written, an item without a GUID whose link `esc_url` changes (`&`
   * becomes `&#038;`) is stored under the escaped link, which the raw lookup
   * never finds: a second fetch of the same item inserts it again.
   */
  lemma RefetchReinsertsEscapedLink(env: Env, seen: SeenKeys, item: FeedItem)
    requires Empty(item.guid) && !Empty(item.link) && env.escUrl(item.link) != item.link
    requires item.link !in seen.urls
    ensures IngestCount(env, seen, [item]) == 1
    ensures IngestCount(env, IngestSeen(env, seen, [item]), [item]) == 1
  {
    assert [item][..0] == [];
  }

  /** The corrected lookup: the GUID and link as the post stores them, still only when the raw value is truthy. */
  predicate DuplicateStored(env: Env, seen: SeenKeys, item: FeedItem) {
    (!Empty(item.guid) && env.sanitizeText(item.guid) in seen.guids) ||
    (!Empty(item.link) && env.escUrl(item.link) in seen.urls)
  }

  /** The stored keys after the items are processed in order with the corrected lookup. */
  function IngestSeenStored(env: Env, seen: SeenKeys, items: seq<FeedItem>): SeenKeys
    decreases |items|
  {
    if items == [] then seen
    else
      var prev := IngestSeenStored(env, seen, items[..|items| - 1]);
      var item := items[|items| - 1];
      if DuplicateStored(env, prev, item) then prev else Remember(env, prev, item)
  }

  /** How many items the corrected lookup lets through. */
  function IngestCountStored(env: Env, seen: SeenKeys, items: seq<FeedItem>): nat
    decreases |items|
  {
    if items == [] then 0
    else
      var before := items[..|items| - 1];
      IngestCountStored(env, seen, before) + if DuplicateStored(env, IngestSeenStored(env, seen, before), items[|items| - 1]) then 0 else 1
  }

  /** With the corrected lookup every keyed item is found after processing, whatever the sanitizers do. */
  lemma {:induction false} IngestStoredCovers(env: Env, seen: SeenKeys, items: seq<FeedItem>)
    ensures Within(seen, IngestSeenStored(env, seen, items))
    ensures forall it :: it in items && Keyed(it) ==> DuplicateStored(env, IngestSeenStored(env, seen, items), it)
    decreases |items|
  {
    if items != [] {
      var before := items[..|items| - 1];
      var last := items[|items| - 1];
      IngestStoredCovers(env, seen, before);
      forall it | it in items && Keyed(it)
        ensures DuplicateStored(env, IngestSeenStored(env, seen, items), it)
      {
        if it != last {
          assert it in before;
        }
      }
    }
  }

  /** With the corrected lookup, items that are all found store and insert nothing. */
  lemma {:induction false} IngestStoredAllDuplicates(env: Env, seen: SeenKeys, items: seq<FeedItem>)
    requires forall it :: it in items ==> DuplicateStored(env, seen, it)
    ensures IngestSeenStored(env, seen, items) == seen && IngestCountStored(env, seen, items) == 0
    decreases |items|
  {
    if items != [] {
      var before := items[..|items| - 1];
      assert forall it :: it in before ==> it in items;
      IngestStoredAllDuplicates(env, seen, before);
    }
  }

  /** With the corrected lookup, re-fetching keyed items inserts nothing, with no condition on the sanitizers. */
  lemma RefetchStoredInsertsNothing(env: Env, seen: SeenKeys, items: seq<FeedItem>)
    requires forall it :: it in items ==> Keyed(it)
    ensures IngestCountStored(env, IngestSeenStored(env, seen, items), items) == 0
    ensures IngestSeenStored(env, IngestSeenStored(env, seen, items), items) == IngestSeenStored(env, seen, items)
  {
    IngestStoredCovers(env, seen, items);
    IngestStoredAllDuplicates(env, IngestSeenStored(env, seen, items), items);
  }

  /** Where the sanitizers leave every GUID and link alone, the corrected lookup agrees with the one as written. */
  lemma {:induction false} IngestStoredAgrees(env: Env, seen: SeenKeys, items: seq<FeedItem>)
    requires forall it :: it in items ==> KeptBySanitizers(env, it)
    ensures IngestSeenStored(env, seen, items) == IngestSeen(env, seen, items)
    ensures IngestCountStored(env, seen, items) == IngestCount(env, seen, items)
    decreases |items|
  {
    if items != [] {
      var before := items[..|items| - 1];
      assert forall it :: it in before ==> it in items;
      IngestStoredAgrees(env, seen, before);
      var last := items[|items| - 1];
      assert KeptBySanitizers(env, last);
      assert DuplicateStored(env, IngestSeen(env, seen, before), last) == Duplicate(IngestSeen(env, seen, before), last);
    }
  }

  // ---------------------------------------------------------------- item posts

  /** The private `rss_item` post `process_feed_item` inserts. */
  function ItemPost(env: Env, item: FeedItem, config: FeedConfig, feedId: nat, now: Time): Post {
    Post(env.trimWords(item.title, 20), item.content, env.trimWords(StripTags(item.description), 55),
         "private", "rss_item", ParseDate(env, item.pubDate, now),
         map[UrlKey := Text(env.escUrl(item.link)), GuidKey := Text(env.sanitizeText(item.guid)),
             "_rss_canonical" := Text(env.escUrl(item.link)),
             "_rss_source_license" := Text(env.sanitizeText(config.licenseNote)), "_rss_feed_id" := Number(feedId),
             "_rss_source_site" := Text(env.sanitizeText(item.sourceSite)), "_rss_author" := Text(env.sanitizeText(item.author)),
             "_rss_categories" := Strings(item.categories), "_processing_status" := Text("pending")])
  }

  /**
   * The post records the item's GUID through `sanitize_text_field` and its
   * link through `esc_url` under the keys duplicate detection reads, starts `pending`, and is dated by the item's own date when
   * `strtotime` reads one, by the fetch time otherwise.
   */
  lemma ItemPostKeys(env: Env, item: FeedItem, config: FeedConfig, feedId: nat, now: Time)
    ensures OwnValue(ItemPost(env, item, config, feedId, now), GuidKey) == {env.sanitizeText(item.guid)}
    ensures OwnValue(ItemPost(env, item, config, feedId, now), UrlKey) == {env.escUrl(item.link)}
    ensures ItemPost(env, item, config, feedId, now).status == "private"
    ensures ItemPost(env, item, config, feedId, now).meta["_processing_status"] == Text("pending")
    ensures var date := ItemPost(env, item, config, feedId, now).date;
            (date == now || env.strToTime(item.pubDate) == Some(date)) &&
            (!Empty(item.pubDate) && env.strToTime(item.pubDate).Some? ==> date == env.strToTime(item.pubDate).value)
  {
    ParseDateMeaning(env, item.pubDate, now);
  }

  /** Storing an item's post under a fresh id stores exactly its sanitised GUID and escaped link. */
  lemma InsertRemembers(posts: map<nat, Post>, id: nat, env: Env, item: FeedItem, config: FeedConfig, feedId: nat, now: Time)
    requires id !in posts
    ensures Seen(posts[id := ItemPost(env, item, config, feedId, now)]) == Remember(env, Seen(posts), item)
  {
    var p := ItemPost(env, item, config, feedId, now);
    MetaValuesInsert(posts, id, p, GuidKey);
    MetaValuesInsert(posts, id, p, UrlKey);
    ItemPostKeys(env, item, config, feedId, now);
  }

  // ---------------------------------------------------------------- rule selection

  /** The rule is active and is for this feed or for all feeds. */
  predicate Applies(r: RuleRow, feedId: nat) {
    (r.feedId == Some(feedId as int) || r.feedId.None?) && r.active == 1
  }

  function ApplicableRules(rows: seq<RuleRow>, feedId: nat): (r: seq<RuleRow>)
    ensures forall x :: x in r <==> x in rows && Applies(x, feedId)
  {
    if rows == [] then []
    else if Applies(rows[0], feedId) then [rows[0]] + ApplicableRules(rows[1..], feedId)
    else ApplicableRules(rows[1..], feedId)
  }

  predicate ByPriority(rows: seq<RuleRow>) {
    forall i, j :: 0 <= i < j < |rows| ==> rows[i].priority <= rows[j].priority
  }

  /** Places `x` before the first rule of strictly greater priority that is not preceded by one of lower priority. */
  function InsertByPriority(x: RuleRow, sorted: seq<RuleRow>): seq<RuleRow> {
    if sorted == [] || x.priority <= sorted[0].priority then [x] + sorted
    else [sorted[0]] + InsertByPriority(x, sorted[1..])
  }

  /** `ORDER BY priority ASC`, rows of equal priority kept in table order. */
  function SortByPriority(rows: seq<RuleRow>): seq<RuleRow> {
    if rows == [] then [] else InsertByPriority(rows[0], SortByPriority(rows[1..]))
  }

  lemma {:induction false} InsertByPriorityKeeps(x: RuleRow, sorted: seq<RuleRow>)
    ensures multiset(InsertByPriority(x, sorted)) == multiset(sorted) + multiset{x}
  {
    if sorted != [] && x.priority > sorted[0].priority {
      InsertByPriorityKeeps(x, sorted[1..]);
      assert sorted == [sorted[0]] + sorted[1..];
    }
  }

  lemma {:induction false} InsertByPrioritySpec(x: RuleRow, sorted: seq<RuleRow>)
    requires ByPriority(sorted)
    ensures ByPriority(InsertByPriority(x, sorted))
    ensures multiset(InsertByPriority(x, sorted)) == multiset(sorted) + multiset{x}
  {
    InsertByPriorityKeeps(x, sorted);
    if sorted != [] && x.priority > sorted[0].priority {
      InsertByPrioritySpec(x, sorted[1..]);
      var rest := InsertByPriority(x, sorted[1..]);
      InsertByPriorityKeeps(x, sorted[1..]);
      forall e | e in rest ensures sorted[0].priority <= e.priority {
        assert e in multiset(rest);
      }
    }
  }

  /** The sort orders by priority and keeps every rule exactly once. */
  lemma {:induction false} SortByPrioritySpec(rows: seq<RuleRow>)
    ensures ByPriority(SortByPriority(rows))
    ensures multiset(SortByPriority(rows)) == multiset(rows)
  {
    if rows != [] {
      SortByPrioritySpec(rows[1..]);
      InsertByPrioritySpec(rows[0], SortByPriority(rows[1..]));
      assert rows == [rows[0]] + rows[1..];
    }
  }

  /** The rules `trigger_content_processing` tries, in the order it tries them. */
  function RulesInOrder(rows: seq<RuleRow>, feedId: nat): seq<RuleRow> {
    SortByPriority(ApplicableRules(rows, feedId))
  }

  /** Exactly the applicable rules are tried, in ascending priority. */
  lemma RulesInOrderSpec(rows: seq<RuleRow>, feedId: nat)
    ensures ByPriority(RulesInOrder(rows, feedId))
    ensures forall r :: r in RulesInOrder(rows, feedId) <==> r in rows && Applies(r, feedId)
  {
    SortByPrioritySpec(ApplicableRules(rows, feedId));
    forall r ensures r in RulesInOrder(rows, feedId) <==> r in ApplicableRules(rows, feedId) {
      assert r in RulesInOrder(rows, feedId) <==> r in multiset(RulesInOrder(rows, feedId));
      assert r in ApplicableRules(rows, feedId) <==> r in multiset(ApplicableRules(rows, feedId));
    }
  }

  // ---------------------------------------------------------------- the live rule evaluator

  /** The condition types `evaluate_rule` knows; any other type is skipped. */
  const LiveConditionKinds: set<string> := {"title_contains", "content_contains", "source_domain"}

  /** `source_domain`: the link's host is identical to the value; a link without a host matches only a missing value. */
  predicate DomainMatches(host: UrlHost, value: Option<string>) {
    match host
    case Host(name) => value == Some(name)
    case NoHost => value.None?
    case Malformed => false
  }

  /** One condition in `evaluate_rule`: `stripos` for the two text tests (a missing value is ""), the host for `source_domain`, and true for every other type. */
  predicate LiveCondition(env: Env, c: Condition, item: FeedItem) {
    match c.kind
    case "title_contains" => ContainsCaseless(item.title, ValueOf(c))
    case "content_contains" => ContainsCaseless(item.content, ValueOf(c))
    case "source_domain" => DomainMatches(env.urlHost(item.link), c.value)
    case _ => true
  }

  predicate AllLive(env: Env, cs: seq<Condition>, item: FeedItem)
    decreases |cs|
  {
    cs == [] || (LiveCondition(env, cs[0], item) && AllLive(env, cs[1..], item))
  }

  /** `evaluate_rule`: a rule with no conditions, or conditions that do not decode, never matches; otherwise every condition must hold. */
  predicate EvaluateRule(env: Env, r: RuleRow, item: FeedItem) {
    r.conditions.Some? && r.conditions.value != [] && AllLive(env, r.conditions.value, item)
  }

  lemma {:induction false} AllLiveMeaning(env: Env, cs: seq<Condition>, item: FeedItem)
    ensures AllLive(env, cs, item) <==> forall i :: 0 <= i < |cs| ==> LiveCondition(env, cs[i], item)
    decreases |cs|
  {
    if cs != [] {
      AllLiveMeaning(env, cs[1..], item);
      assert forall i :: 1 <= i < |cs| ==> cs[1..][i - 1] == cs[i];
    }
  }

  /** A rule matches iff it has conditions and each holds; conditions of unknown type always hold. */
  lemma EvaluateRuleMeaning(env: Env, r: RuleRow, item: FeedItem)
    ensures EvaluateRule(env, r, item) <==>
              r.conditions.Some? && |r.conditions.value| > 0 &&
              forall i :: 0 <= i < |r.conditions.value| ==> LiveCondition(env, r.conditions.value[i], item)
    ensures forall c: Condition :: c.kind !in LiveConditionKinds ==> LiveCondition(env, c, item)
  {
    if r.conditions.Some? {
      AllLiveMeaning(env, r.conditions.value, item);
    }
  }

  /** The live evaluator and the dry run share no condition type: every type the dry run knows is skipped (holds) live, and an unknown type holds live but fails in the dry run. */
  lemma LiveAndDryRunDisagree(env: Env, c: Condition, item: FeedItem, content: TestContent)
    ensures c.kind in ConditionKinds ==> LiveCondition(env, c, item)
    ensures c.kind !in ConditionKinds && c.kind !in LiveConditionKinds ==>
              LiveCondition(env, c, item) && !EvaluateCondition(env, c, content)
  {
    EvaluateConditionKinds(env, c, content);
  }

  /** The first rule in the list that matches. */
  function FirstMatch(env: Env, rules: seq<RuleRow>, item: FeedItem): Option<RuleRow>
    decreases |rules|
  {
    if rules == [] then None
    else if EvaluateRule(env, rules[0], item) then Some(rules[0])
    else FirstMatch(env, rules[1..], item)
  }

  /** The chosen rule matches and no rule before it does; none is chosen iff none matches. */
  lemma {:induction false} FirstMatchIsFirst(env: Env, rules: seq<RuleRow>, item: FeedItem)
    ensures FirstMatch(env, rules, item).None? <==> forall j :: 0 <= j < |rules| ==> !EvaluateRule(env, rules[j], item)
    ensures FirstMatch(env, rules, item).Some? ==>
              exists i :: 0 <= i < |rules| && rules[i] == FirstMatch(env, rules, item).value &&
                EvaluateRule(env, rules[i], item) && forall j :: 0 <= j < i ==> !EvaluateRule(env, rules[j], item)
    decreases |rules|
  {
    if rules != [] && !EvaluateRule(env, rules[0], item) {
      FirstMatchIsFirst(env, rules[1..], item);
      assert forall j :: 1 <= j < |rules| ==> rules[1..][j - 1] == rules[j];
      if FirstMatch(env, rules[1..], item).Some? {
        var i :| 0 <= i < |rules[1..]| && rules[1..][i] == FirstMatch(env, rules[1..], item).value &&
                 EvaluateRule(env, rules[1..][i], item) && forall j :: 0 <= j < i ==> !EvaluateRule(env, rules[1..][j], item);
        assert rules[i + 1] == rules[1..][i];
      }
    } else if rules != [] {
      assert rules[0] == FirstMatch(env, rules, item).value;
    }
  }

  // ---------------------------------------------------------------- rule actions

  /** The actions of a rule; `null` or undecodable actions do nothing. */
  function ActionsOf(r: RuleRow): seq<Action> {
    r.actions.GetOr([])
  }

  /** The webhook a rule dispatches to: its `webhook_id` when truthy. */
  function Target(r: RuleRow): Option<int> {
    if r.webhookId.Some? && r.webhookId.value != 0 then r.webhookId else None
  }

  /** The meta an action writes on the item: the category or the tags to assign; other actions write nothing. */
  function ActionMeta(p: Post, a: Action): Post {
    match a.kind
    case "assign_category" => WithMeta(p, "_auto_assigned_category", Text(a.value))
    case "assign_tags" => WithMeta(p, "_auto_assigned_tags", Text(a.value))
    case _ => p
  }

  function AllActionMeta(p: Post, acts: seq<Action>): Post
    decreases |acts|
  {
    if acts == [] then p else ActionMeta(AllActionMeta(p, acts[..|acts| - 1]), acts[|acts| - 1])
  }

  /** The posts after the actions ran on the item `id`. */
  function ActionsApplied(posts: map<nat, Post>, id: nat, acts: seq<Action>): map<nat, Post> {
    if id in posts then posts[id := AllActionMeta(posts[id], acts)] else posts
  }

  lemma ActionsAppliedStep(posts: map<nat, Post>, id: nat, acts: seq<Action>, i: nat)
    requires i < |acts|
    ensures var before := ActionsApplied(posts, id, acts[..i]);
            ActionsApplied(posts, id, acts[..i + 1]) ==
              if id in before then before[id := ActionMeta(before[id], acts[i])] else before
    ensures CountSends(acts[..i + 1]) == CountSends(acts[..i]) + if acts[i].kind == "send_to_webhook" then 1 else 0
  {
    assert acts[..i + 1][..i] == acts[..i];
  }

  lemma NoActionsNoChange(posts: map<nat, Post>, id: nat)
    ensures ActionsApplied(posts, id, []) == posts
  {
    if id in posts {
      assert posts[id := posts[id]] == posts;
    }
  }

  /** How many `send_to_webhook` actions there are. */
  function CountSends(acts: seq<Action>): nat
    decreases |acts|
  {
    if acts == [] then 0
    else CountSends(acts[..|acts| - 1]) + if acts[|acts| - 1].kind == "send_to_webhook" then 1 else 0
  }

  /** Actions change only the two assignment keys of the item: its title, body, status and every other meta value stay. */
  lemma {:induction false} ActionMetaKeeps(p: Post, acts: seq<Action>, key: string)
    requires key != "_auto_assigned_category" && key != "_auto_assigned_tags"
    ensures AllActionMeta(p, acts).title == p.title && AllActionMeta(p, acts).content == p.content
    ensures AllActionMeta(p, acts).status == p.status
    ensures (key in AllActionMeta(p, acts).meta <==> key in p.meta)
    ensures key in p.meta ==> AllActionMeta(p, acts).meta[key] == p.meta[key]
    decreases |acts|
  {
    if acts != [] {
      ActionMetaKeeps(p, acts[..|acts| - 1], key);
    }
  }

  /** Of several assignments of the same kind, the last one wins. */
  lemma {:induction false} LastAssignmentWins(p: Post, acts: seq<Action>, i: nat)
    requires i < |acts| && acts[i].kind == "assign_category"
    requires forall j :: i < j < |acts| ==> acts[j].kind != "assign_category"
    ensures "_auto_assigned_category" in AllActionMeta(p, acts).meta
    ensures AllActionMeta(p, acts).meta["_auto_assigned_category"] == Text(acts[i].value)
    decreases |acts|
  {
    if i < |acts| - 1 {
      LastAssignmentWins(p, acts[..|acts| - 1], i);
    }
  }

  /** Only the item's post changes, so the stored GUIDs and URLs stay as they are. */
  lemma ActionsKeepSeen(posts: map<nat, Post>, id: nat, acts: seq<Action>)
    ensures Seen(ActionsApplied(posts, id, acts)) == Seen(posts)
    ensures ActionsApplied(posts, id, acts).Keys == posts.Keys
  {
    if id in posts {
      var after := ActionsApplied(posts, id, acts);
      ActionMetaKeeps(posts[id], acts, GuidKey);
      ActionMetaKeeps(posts[id], acts, UrlKey);
      assert MetaValues(after, GuidKey) == MetaValues(posts, GuidKey) by {
        SameKeyValues(posts, after, GuidKey);
      }
      assert MetaValues(after, UrlKey) == MetaValues(posts, UrlKey) by {
        SameKeyValues(posts, after, UrlKey);
      }
    }
  }

  /** Two tables with the same posts' values under `key` store the same values for it. */
  lemma SameKeyValues(a: map<nat, Post>, b: map<nat, Post>, key: string)
    requires a.Keys == b.Keys
    requires forall id :: id in a ==> (key in a[id].meta <==> key in b[id].meta)
    requires forall id :: id in a && key in a[id].meta ==> a[id].meta[key] == b[id].meta[key]
    ensures MetaValues(a, key) == MetaValues(b, key)
  {
    forall v | v in MetaValues(a, key) ensures v in MetaValues(b, key) {
      var id :| id in a && key in a[id].meta && a[id].meta[key].Text? && a[id].meta[key].s == v;
      assert b[id].meta[key] == a[id].meta[key];
    }
    forall v | v in MetaValues(b, key) ensures v in MetaValues(a, key) {
      var id :| id in b && key in b[id].meta && b[id].meta[key].Text? && b[id].meta[key].s == v;
      assert a[id].meta[key] == b[id].meta[key];
    }
  }

  // ---------------------------------------------------------------- dispatch bookkeeping

  /** The webhooks are the same rows, with the same URLs, tokens and activity; only counters may differ. */
  ghost predicate SameWebhooks(ws0: map<nat, Webhook>, ws1: map<nat, Webhook>) {
    ws1.Keys == ws0.Keys &&
    forall id :: id in ws0 ==>
      ws1[id].active == ws0[id].active && ws1[id].authToken == ws0[id].authToken && ws1[id].url == ws0[id].url
  }

  /** A dispatch to the target creates an execution. */
  predicate Dispatchable(ws: map<nat, Webhook>, target: Option<int>) {
    target.Some? && target.value >= 0 && target.value as nat in ws && ws[target.value as nat].active
  }

  /** The content `send_to_webhook` is given for a stored item: its text, title, link as source URL, and author, categories and date as metadata. */
  function ItemData(itemId: nat, item: FeedItem): (d: ContentData)
    ensures d.itemId == itemId && d.content == item.content && d.title == item.title && d.sourceUrl == item.link
    ensures d.metadata.author == item.author && d.metadata.categories == item.categories && d.metadata.pubDate == item.pubDate
  {
    ContentData(itemId, item.content, item.title, item.link, ItemMetadata(item.author, item.categories, item.pubDate))
  }

  /** Webhook `wh` after `n` dispatches of `data` numbered from `serial0`, each answer crediting its counters. */
  function CreditedN(h: WebhookManager, id: nat, wh: Webhook, data: ContentData, serial0: nat, now: Time, n: nat): Webhook
    decreases n
  {
    if n == 0 then wh
    else Credit(CreditedN(h, id, wh, data, serial0, now, n - 1), h.AnswerFor(id, wh, data, serial0 + n - 1, now), now)
  }

  /** The fields a dispatch reads from the webhook. */
  predicate SameEndpoint(w0: Webhook, w1: Webhook) {
    w1.url == w0.url && w1.authToken == w0.authToken && w1.processingType == w0.processingType &&
    w1.timeoutSeconds == w0.timeoutSeconds && w1.active == w0.active
  }

  /** Crediting only touches the counters, so a credited webhook is dispatched to exactly as before. */
  lemma {:induction false} CreditedKeepsEndpoint(h: WebhookManager, id: nat, wh: Webhook, data: ContentData, serial0: nat, now: Time, n: nat)
    ensures SameEndpoint(wh, CreditedN(h, id, wh, data, serial0, now, n))
    ensures forall s: nat :: h.SentExecution(id, CreditedN(h, id, wh, data, serial0, now, n), data, s, now) == h.SentExecution(id, wh, data, s, now)
    ensures forall s: nat :: h.AnswerFor(id, CreditedN(h, id, wh, data, serial0, now, n), data, s, now) == h.AnswerFor(id, wh, data, s, now)
    decreases n
  {
    if n > 0 {
      CreditedKeepsEndpoint(h, id, wh, data, serial0, now, n - 1);
    }
  }

  /**
   * `sends` calls of `send_to_webhook` for `data` to `target` have been made
   * since (`execs0`, `ws0`, `serial0`): when the target is active, the
   * executions are extended by one settled row per call, each with its own
   * execution id and the webhook's answer to it, and the webhook's counters
   * are credited with those answers; otherwise nothing changed.
   */
  ghost predicate SentSoFar(h: WebhookManager, execs0: seq<Execution>, execs: seq<Execution>,
                            ws0: map<nat, Webhook>, ws: map<nat, Webhook>, serial0: nat, serial: nat,
                            target: Option<int>, data: ContentData, now: Time, sends: nat)
  {
    if Dispatchable(ws0, target) then
      var id := target.value as nat;
      serial == serial0 + sends && execs0 <= execs && |execs| == |execs0| + sends &&
      (forall k :: |execs0| <= k < |execs| ==> execs[k] == h.SentExecution(id, ws0[id], data, serial0 + (k - |execs0|), now)) &&
      ws == ws0[id := CreditedN(h, id, ws0[id], data, serial0, now, sends)]
    else
      execs == execs0 && ws == ws0 && serial == serial0
  }

  /** One call of `send_to_webhook` for `data` to `target`, as `SendItem` states it. */
  ghost predicate SentOnce(h: WebhookManager, execs: seq<Execution>, execs1: seq<Execution>,
                           ws: map<nat, Webhook>, ws1: map<nat, Webhook>, serial: nat, serial1: nat,
                           target: Option<int>, data: ContentData, now: Time)
  {
    if Dispatchable(ws, target) then
      var id := target.value as nat;
      serial1 == serial + 1 && execs1 == execs + [h.SentExecution(id, ws[id], data, serial, now)] &&
      ws1 == ws[id := Credit(ws[id], h.AnswerFor(id, ws[id], data, serial, now), now)]
    else
      execs1 == execs && ws1 == ws && serial1 == serial
  }

  /** One more `send_to_webhook`, as `SendItem` states it, extends `SentSoFar` by one send. */
  lemma {:induction false} SentStep(h: WebhookManager, execs0: seq<Execution>, execs: seq<Execution>, execs1: seq<Execution>,
                 ws0: map<nat, Webhook>, ws: map<nat, Webhook>, ws1: map<nat, Webhook>,
                 serial0: nat, serial: nat, serial1: nat, target: Option<int>, data: ContentData, now: Time, sends: nat)
    requires SentSoFar(h, execs0, execs, ws0, ws, serial0, serial, target, data, now, sends)
    requires SentOnce(h, execs, execs1, ws, ws1, serial, serial1, target, data, now)
    ensures SentSoFar(h, execs0, execs1, ws0, ws1, serial0, serial1, target, data, now, sends + 1)
  {
    if Dispatchable(ws0, target) {
      var id := target.value as nat;
      CreditedKeepsEndpoint(h, id, ws0[id], data, serial0, now, sends);
      assert ws[id] == CreditedN(h, id, ws0[id], data, serial0, now, sends);
      assert Dispatchable(ws, target);
      forall k | |execs0| <= k < |execs1|
        ensures execs1[k] == h.SentExecution(id, ws0[id], data, serial0 + (k - |execs0|), now)
      {
        if k == |execs| {
          assert execs1[k] == h.SentExecution(id, ws[id], data, serial, now);
        } else {
          assert execs1[k] == execs[k];
        }
      }
    } else {
      assert !Dispatchable(ws, target);
    }
  }

  /** The executions `SentSoFar` allows only grow, and the webhooks keep their rows. */
  lemma {:induction false} SentKeepsWebhooks(h: WebhookManager, execs0: seq<Execution>, execs: seq<Execution>,
                          ws0: map<nat, Webhook>, ws: map<nat, Webhook>, serial0: nat, serial: nat,
                          target: Option<int>, data: ContentData, now: Time, sends: nat)
    requires SentSoFar(h, execs0, execs, ws0, ws, serial0, serial, target, data, now, sends)
    ensures execs0 <= execs && serial0 <= serial && SameWebhooks(ws0, ws)
  {
    if Dispatchable(ws0, target) {
      CreditedKeepsEndpoint(h, target.value as nat, ws0[target.value as nat], data, serial0, now, sends);
    }
  }

  /** Every execution a rule's dispatches add is for the item and the rule's webhook, carries the item's content, title, link and metadata under its own execution id, and has been settled. */
  lemma {:induction false} SentExecutionsCarryItem(h: WebhookManager, execs0: seq<Execution>, execs: seq<Execution>,
                                ws0: map<nat, Webhook>, ws: map<nat, Webhook>, serial0: nat, serial: nat,
                                target: Option<int>, itemId: nat, item: FeedItem, now: Time, sends: nat)
    requires SentSoFar(h, execs0, execs, ws0, ws, serial0, serial, target, ItemData(itemId, item), now, sends)
    ensures forall k :: |execs0| <= k < |execs| ==>
              execs[k].itemId == itemId && target == Some(execs[k].webhookId as int) &&
              execs[k].executionId == ExecId(serial0 + (k - |execs0|)) && execs[k].status != "pending" &&
              execs[k].request.content == item.content && execs[k].request.title == item.title &&
              execs[k].request.sourceUrl == item.link &&
              execs[k].request.metadata == ItemMetadata(item.author, item.categories, item.pubDate) &&
              execs[k].request.authToken == ws0[execs[k].webhookId].authToken
  {
    if Dispatchable(ws0, target) {
      var id := target.value as nat;
      var data := ItemData(itemId, item);
      forall k | |execs0| <= k < |execs|
        ensures execs[k].itemId == itemId && target == Some(execs[k].webhookId as int) &&
                execs[k].executionId == ExecId(serial0 + (k - |execs0|)) && execs[k].status != "pending" &&
                execs[k].request.content == item.content && execs[k].request.title == item.title &&
                execs[k].request.sourceUrl == item.link &&
                execs[k].request.metadata == ItemMetadata(item.author, item.categories, item.pubDate) &&
                execs[k].request.authToken == ws0[execs[k].webhookId].authToken
      {
        var n := serial0 + (k - |execs0|);
        var pending := h.PendingFor(id, ws0[id], data, ExecId(n), now);
        SettleStatus(pending, h.AnswerFor(id, ws0[id], data, n, now), now);
        assert execs[k] == Settle(pending, h.AnswerFor(id, ws0[id], data, n, now), now);
      }
    }
  }

  /**
   * What running the chosen rule's actions (or none, when no rule is chosen)
   * does: the item's post gets the assignment meta, and each
   * `send_to_webhook` action dispatches the item's content to the rule's
   * webhook as `SentSoFar` states; with no rule, the webhooks, executions and
   * execution serial are untouched.
   */
  ghost predicate RuleEffects(
    h: WebhookManager,
    posts0: map<nat, Post>, posts1: map<nat, Post>,
    execs0: seq<Execution>, execs1: seq<Execution>,
    ws0: map<nat, Webhook>, ws1: map<nat, Webhook>,
    serial0: nat, serial1: nat,
    rule: Option<RuleRow>, itemId: nat, item: FeedItem, now: Time)
  {
    var acts := if rule.Some? then ActionsOf(rule.value) else [];
    posts1 == ActionsApplied(posts0, itemId, acts) &&
    SameWebhooks(ws0, ws1) &&
    if rule.Some? then SentSoFar(h, execs0, execs1, ws0, ws1, serial0, serial1, Target(rule.value), ItemData(itemId, item), now, CountSends(acts))
    else execs1 == execs0 && ws1 == ws0 && serial1 == serial0
  }

  // ---------------------------------------------------------------- the posts the pipeline stores

  /** The rule whose actions run for a new item: the first match in priority order, and none unless the webhook manager is set. */
  function ChooseRule(env: Env, wired: bool, rules: seq<RuleRow>, feedId: nat, item: FeedItem): Option<RuleRow> {
    if wired then FirstMatch(env, RulesInOrder(rules, feedId), item) else None
  }

  /** What `process_feed_item` works with besides the item: the foreign calls, the feed, the clock, and the rules it may run. */
  datatype Pipeline = Pipeline(env: Env, config: FeedConfig, feedId: nat, now: Time, wired: bool, rules: seq<RuleRow>)

  /** The posts table together with the id the next insert receives. */
  datatype PostTable = PostTable(posts: map<nat, Post>, nextId: nat)

  /** Every stored id is below the next one, so an insert never reuses an id. */
  predicate Fresh(t: PostTable) {
    forall id :: id in t.posts ==> id < t.nextId
  }

  /** `process_feed_item` on the table: a duplicate leaves it as it is; a new item's post is stored under the next id and gets the chosen rule's assignments. */
  function IngestPost(t: PostTable, p: Pipeline, item: FeedItem): PostTable {
    if Duplicate(Seen(t.posts), item) then t
    else
      var rule := ChooseRule(p.env, p.wired, p.rules, p.feedId, item);
      var acts := if rule.Some? then ActionsOf(rule.value) else [];
      PostTable(ActionsApplied(t.posts[t.nextId := ItemPost(p.env, item, p.config, p.feedId, p.now)], t.nextId, acts), t.nextId + 1)
  }

  /** The table after the items went through `process_feed_item` in order. */
  function Ingested(t: PostTable, p: Pipeline, items: seq<FeedItem>): PostTable
    decreases |items|
  {
    if items == [] then t else IngestPost(Ingested(t, p, items[..|items| - 1]), p, items[|items| - 1])
  }

  /** One item: the stored keys take one `Step`, an inserted item takes the next id, and every stored post stays. */
  lemma IngestPostStep(t: PostTable, p: Pipeline, item: FeedItem)
    requires Fresh(t)
    ensures var u := IngestPost(t, p, item);
            Fresh(u) && Seen(u.posts) == Step(p.env, Seen(t.posts), item) &&
            u.nextId == t.nextId + (if Duplicate(Seen(t.posts), item) then 0 else 1) &&
            u.posts.Keys == t.posts.Keys + (if Duplicate(Seen(t.posts), item) then {} else {t.nextId}) &&
            forall id :: id in t.posts ==> u.posts[id] == t.posts[id]
  {
    if !Duplicate(Seen(t.posts), item) {
      var rule := ChooseRule(p.env, p.wired, p.rules, p.feedId, item);
      var acts := if rule.Some? then ActionsOf(rule.value) else [];
      var inserted := t.posts[t.nextId := ItemPost(p.env, item, p.config, p.feedId, p.now)];
      InsertRemembers(t.posts, t.nextId, p.env, item, p.config, p.feedId, p.now);
      ActionsKeepSeen(inserted, t.nextId, acts);
    }
  }

  /**
   * The items add one post per inserted item, under consecutive new ids, and
   * touch no post stored before; the stored keys and the count are those of
   * `IngestSeen` and `IngestCount`.
   */
  lemma {:induction false} IngestedGrows(t: PostTable, p: Pipeline, items: seq<FeedItem>)
    requires Fresh(t)
    ensures var u := Ingested(t, p, items);
            Fresh(u) &&
            Seen(u.posts) == IngestSeen(p.env, Seen(t.posts), items) &&
            u.nextId == t.nextId + IngestCount(p.env, Seen(t.posts), items) &&
            (forall id :: id in u.posts <==> id in t.posts || t.nextId <= id < u.nextId) &&
            forall id :: id in t.posts ==> u.posts[id] == t.posts[id]
    decreases |items|
  {
    if items != [] {
      var before := items[..|items| - 1];
      IngestedGrows(t, p, before);
      IngestPostStep(Ingested(t, p, before), p, items[|items| - 1]);
    }
  }

  /**
   * A second pass over the same keyed items, whose GUIDs and links the
   * sanitizers leave alone, stores nothing: re-fetching a feed leaves the
   * posts table as it is.
   */
  lemma RefetchKeepsPosts(t: PostTable, p: Pipeline, q: Pipeline, items: seq<FeedItem>)
    requires Fresh(t)
    requires forall it :: it in items ==> Keyed(it) && KeptBySanitizers(p.env, it)
    ensures Ingested(Ingested(t, p, items), q, items) == Ingested(t, p, items)
  {
    IngestedGrows(t, p, items);
    var u := Ingested(t, p, items);
    IngestCovers(p.env, Seen(t.posts), items);
    IngestedAllDuplicates(u, q, items);
  }

  /** Items that are all duplicates of what is stored leave the table alone. */
  lemma {:induction false} IngestedAllDuplicates(t: PostTable, p: Pipeline, items: seq<FeedItem>)
    requires forall it :: it in items ==> Duplicate(Seen(t.posts), it)
    ensures Ingested(t, p, items) == t
    decreases |items|
  {
    if items != [] {
      var before := items[..|items| - 1];
      assert forall it :: it in before ==> it in items;
      IngestedAllDuplicates(t, p, before);
    }
  }

  /** The posts table after each feed of the batch is fetched once, in order, every feed from its row before the run. */
  function BatchPosts(t: PostTable, env: Env, wired: bool, rules: seq<RuleRow>, feeds: map<nat, Feed>, batch: seq<nat>, now: Time): PostTable
    requires forall id :: id in batch ==> id in feeds
    decreases |batch|
  {
    if batch == [] then t
    else
      var id := batch[|batch| - 1];
      Ingested(BatchPosts(t, env, wired, rules, feeds, batch[..|batch| - 1], now),
               Pipeline(env, feeds[id].config, id, now, wired, rules), FetchedItems(env, feeds[id], id))
  }

  /** One more feed of the batch: its fetched items go through its own pipeline after those of the feeds before it. */
  lemma BatchPostsStep(t: PostTable, env: Env, wired: bool, rules: seq<RuleRow>, feeds: map<nat, Feed>, batch: seq<nat>, i: nat, now: Time)
    requires forall id :: id in batch ==> id in feeds
    requires i < |batch|
    ensures BatchPosts(t, env, wired, rules, feeds, batch[..i + 1], now) ==
            Ingested(BatchPosts(t, env, wired, rules, feeds, batch[..i], now),
                     Pipeline(env, feeds[batch[i]].config, batch[i], now, wired, rules), FetchedItems(env, feeds[batch[i]], batch[i]))
  {
    assert batch[..i + 1][..i] == batch[..i];
  }

  /** The rows once the feeds `ids` are fetched: those are `FetchedRow` of their row before the run, the others as they were. */
  ghost predicate BatchRows(env: Env, feeds0: map<nat, Feed>, feeds: map<nat, Feed>, ids: seq<nat>, now: Time)
    requires forall id :: id in ids ==> id in feeds0
  {
    feeds.Keys == feeds0.Keys &&
    (forall id :: id in ids ==> feeds[id] == FetchedRow(env, feeds0[id], now)) &&
    (forall id :: id in feeds0 && id !in ids ==> feeds[id] == feeds0[id])
  }

  /** In a batch without repeats, the `i`-th id is not among the ones before it. */
  lemma DistinctPrefix(batch: seq<nat>, i: nat)
    requires forall i, j :: 0 <= i < j < |batch| ==> batch[i] != batch[j]
    requires i < |batch|
    ensures batch[i] !in batch[..i] && batch[..i + 1] == batch[..i] + [batch[i]]
  {
    assert batch[..i + 1] == batch[..i] + [batch[i]];
  }

  /** Fetching one more feed, not fetched yet, from the row it had before the run. */
  lemma BatchRowsStep(env: Env, feeds0: map<nat, Feed>, feeds: map<nat, Feed>, ids: seq<nat>, id: nat, now: Time)
    requires forall k :: k in ids ==> k in feeds0
    requires id in feeds0 && id !in ids
    requires BatchRows(env, feeds0, feeds, ids, now)
    ensures feeds[id] == feeds0[id]
    ensures BatchRows(env, feeds0, feeds[id := FetchedRow(env, feeds[id], now)], ids + [id], now)
  {
  }

  /** A run only adds posts: every post stored before it is kept as it was. */
  lemma {:induction false} BatchPostsGrows(t: PostTable, env: Env, wired: bool, rules: seq<RuleRow>, feeds: map<nat, Feed>, batch: seq<nat>, now: Time)
    requires forall id :: id in batch ==> id in feeds
    requires Fresh(t)
    ensures var u := BatchPosts(t, env, wired, rules, feeds, batch, now);
            Fresh(u) && t.nextId <= u.nextId && forall id :: id in t.posts ==> id in u.posts && u.posts[id] == t.posts[id]
    decreases |batch|
  {
    if batch != [] {
      var id := batch[|batch| - 1];
      var before := batch[..|batch| - 1];
      BatchPostsGrows(t, env, wired, rules, feeds, before, now);
      IngestedGrows(BatchPosts(t, env, wired, rules, feeds, before, now),
                    Pipeline(env, feeds[id].config, id, now, wired, rules), FetchedItems(env, feeds[id], id));
    }
  }

  // ---------------------------------------------------------------- the due batch

  /** Active, and never fetched or last fetched longer than its polling interval ago. */
  predicate Due(f: Feed, now: Time) {
    f.state.status == StatusActive && (f.state.lastFetch.None? || f.state.lastFetch.value < now - f.config.pollingInterval)
  }

  /** The due feeds in the order the database returns them (each once). */
  function DueInOrder(feeds: map<nat, Feed>, now: Time, order: seq<nat>): (r: seq<nat>)
    ensures forall x :: x in r ==> x in feeds && Due(feeds[x], now) && x in order
    ensures forall x :: x in order && x in feeds && Due(feeds[x], now) ==> x in r
    ensures forall i, j :: 0 <= i < j < |r| ==> r[i] != r[j]
    decreases |order|
  {
    if order == [] then []
    else
      var prev := DueInOrder(feeds, now, order[..|order| - 1]);
      var x := order[|order| - 1];
      if x in feeds && Due(feeds[x], now) && x !in prev then prev + [x] else prev
  }

  /** The feeds `fetch_all_feeds` fetches: the first ten due feeds of the database's random order. */
  function Batch(feeds: map<nat, Feed>, now: Time, order: seq<nat>): seq<nat> {
    var due := DueInOrder(feeds, now, order);
    if |due| <= BatchLimit then due else due[..BatchLimit]
  }

  /** The batch holds at most ten distinct due feeds, and it is short only when it holds every due feed of the order. */
  lemma BatchSpec(feeds: map<nat, Feed>, now: Time, order: seq<nat>)
    ensures |Batch(feeds, now, order)| <= BatchLimit
    ensures forall x :: x in Batch(feeds, now, order) ==> x in feeds && Due(feeds[x], now)
    ensures forall i, j :: 0 <= i < j < |Batch(feeds, now, order)| ==> Batch(feeds, now, order)[i] != Batch(feeds, now, order)[j]
    ensures |Batch(feeds, now, order)| < BatchLimit ==>
              forall x :: x in order && x in feeds && Due(feeds[x], now) ==> x in Batch(feeds, now, order)
  {
    var due := DueInOrder(feeds, now, order);
    if |due| > BatchLimit {
      forall x | x in due[..BatchLimit] ensures x in due { }
    }
  }

  /** `ORDER BY RAND()` returns every row, so with an order that lists every feed a short batch holds every due feed, and a feed left out means the batch is full. */
  lemma BatchComplete(feeds: map<nat, Feed>, now: Time, order: seq<nat>)
    requires forall id :: id in feeds ==> id in order
    ensures forall x :: x in feeds && Due(feeds[x], now) && x !in Batch(feeds, now, order) ==>
              |Batch(feeds, now, order)| == BatchLimit
  {
    BatchSpec(feeds, now, order);
  }

  // ---------------------------------------------------------------- the feed manager

  class FeedManager {
    const env: Env
    /** The posts table. */
    const store: ContentStore
    /** The rules table. */
    const rules: RulesEngine
    /** The webhook tables and their manager. */
    const hooks: WebhookManager
    var feeds: map<nat, Feed>
    var nextFeedId: nat
    /** `set_webhook_manager` was called, so new items go through the rules. */
    var wired: bool

    ghost predicate Valid()
      reads this, store, hooks
    {
      hooks.store == store && store.Valid() && hooks.Valid() &&
      nextFeedId > 0 && forall id :: id in feeds ==> 0 < id < nextFeedId
    }

    constructor (env: Env, store: ContentStore, rules: RulesEngine, hooks: WebhookManager)
      requires hooks.store == store && store.Valid() && hooks.Valid()
      ensures Valid() && this.env == env && this.store == store && this.rules == rules && this.hooks == hooks
      ensures feeds == map[] && !wired
    {
      this.env := env;
      this.store := store;
      this.rules := rules;
      this.hooks := hooks;
      feeds := map[];
      nextFeedId := 1;
      wired := false;
    }

    /** `set_webhook_manager`. */
    method SetWebhookManager()
      modifies this
      ensures wired && feeds == old(feeds) && nextFeedId == old(nextFeedId)
    {
      wired := true;
    }

    /** The rule whose actions run for a new item of the feed. */
    function Chosen(item: FeedItem, feedId: nat): Option<RuleRow>
      reads this, rules
    {
      ChooseRule(env, wired, rules.rows, feedId, item)
    }

    /** What `process_feed_item` works with for the feed: this manager's calls and rules. */
    function PipelineOf(config: FeedConfig, feedId: nat, now: Time): Pipeline
      reads this, rules
    {
      Pipeline(env, config, feedId, now, wired, rules.rows)
    }

    /** The posts table as the pipeline sees it. */
    function Table(): PostTable
      reads this, store
    {
      PostTable(store.posts, store.nextId)
    }

    /** `add_feed`: a falsy name or URL is `missing_data` and a failed validation is that error, neither writing anything; otherwise an `active` row is inserted and fetched once. */
    method AddFeed(input: FeedInput, now: Time) returns (r: Result<nat, FeedError>)
      requires Valid()
      modifies this, store, hooks
      ensures Valid() && wired == old(wired)
      ensures Empty(input.name) || Empty(input.url) ==>
                r == Err(MissingData) && feeds == old(feeds) && nextFeedId == old(nextFeedId) &&
                store.posts == old(store.posts) && hooks.executions == old(hooks.executions)
      ensures !(Empty(input.name) || Empty(input.url)) && ValidateFeed(env, input.url).Err? ==>
                r == Err(ValidateFeed(env, input.url).error) && feeds == old(feeds) && nextFeedId == old(nextFeedId) &&
                store.posts == old(store.posts) && hooks.executions == old(hooks.executions)
      ensures !(Empty(input.name) || Empty(input.url)) && ValidateFeed(env, input.url).Ok? ==>
                r == Ok(old(nextFeedId)) && old(nextFeedId) !in old(feeds) && nextFeedId == old(nextFeedId) + 1 &&
                feeds == old(feeds)[old(nextFeedId) := FetchedRow(env, NewFeed(env, input), now)] &&
                Table() == Ingested(old(Table()), PipelineOf(NewFeed(env, input).config, old(nextFeedId), now),
                                    FetchedItems(env, NewFeed(env, input), old(nextFeedId)))
    {
      if Empty(input.name) || Empty(input.url) {
        return Err(MissingData);
      }
      var validation := ValidateFeed(env, input.url);
      if validation.Err? {
        return Err(validation.error);
      }
      var id := InsertFeed(input, now);
      r := Ok(id);
    }

    /** The insert half of `add_feed`: the new row goes under the next id and is fetched once. */
    method InsertFeed(input: FeedInput, now: Time) returns (id: nat)
      requires Valid()
      modifies this, store, hooks
      ensures Valid() && wired == old(wired)
      ensures id == old(nextFeedId) && id !in old(feeds) && nextFeedId == id + 1
      ensures feeds == old(feeds)[id := FetchedRow(env, NewFeed(env, input), now)]
      ensures Table() == Ingested(old(Table()), old(PipelineOf(NewFeed(env, input).config, id, now)),
                                  FetchedItems(env, NewFeed(env, input), id))
    {
      id := StoreNewFeed(input);
      // the new row is stored, so `fetch_feed` takes its known-feed path
      var _ := FetchKnownFeed(id, now);
    }

    /** The row insert of `add_feed`: the new `active` row goes under the next id. */
    method StoreNewFeed(input: FeedInput) returns (id: nat)
      requires Valid()
      modifies this
      ensures Valid() && wired == old(wired)
      ensures id == old(nextFeedId) && id !in old(feeds) && nextFeedId == id + 1
      ensures feeds == old(feeds)[id := NewFeed(env, input)]
    {
      id := nextFeedId;
      feeds := feeds[id := NewFeed(env, input)];
      nextFeedId := nextFeedId + 1;
    }

    /** `fetch_all_feeds`: fetches each feed of the batch once; every batch feed ends with the row one fetch gives it, every other feed is untouched. */
    method FetchAllFeeds(now: Time, order: seq<nat>)
      requires Valid()
      modifies this, store, hooks
      ensures Valid() && wired == old(wired) && nextFeedId == old(nextFeedId)
      ensures feeds.Keys == old(feeds).Keys
      ensures forall id :: id in Batch(old(feeds), now, order) ==> feeds[id] == FetchedRow(env, old(feeds)[id], now)
      ensures forall id :: id in old(feeds) && id !in Batch(old(feeds), now, order) ==> feeds[id] == old(feeds)[id]
      ensures Table() == BatchPosts(old(Table()), env, wired, rules.rows, old(feeds), Batch(old(feeds), now, order), now)
      ensures old(hooks.executions) <= hooks.executions
    {
      var batch := Batch(feeds, now, order);
      BatchSpec(feeds, now, order);
      FetchBatch(batch, now);
    }

    /** Fetches the given distinct feeds one after the other. */
    method FetchBatch(batch: seq<nat>, now: Time)
      requires Valid()
      requires forall id :: id in batch ==> id in feeds
      requires forall i, j :: 0 <= i < j < |batch| ==> batch[i] != batch[j]
      modifies this, store, hooks
      ensures Valid() && wired == old(wired) && nextFeedId == old(nextFeedId)
      ensures feeds.Keys == old(feeds).Keys
      ensures forall id :: id in batch ==> feeds[id] == FetchedRow(env, old(feeds)[id], now)
      ensures forall id :: id in old(feeds) && id !in batch ==> feeds[id] == old(feeds)[id]
      ensures Table() == BatchPosts(old(Table()), env, wired, rules.rows, old(feeds), batch, now)
      ensures old(hooks.executions) <= hooks.executions
    {
      for i := 0 to |batch|
        invariant Valid() && wired == old(wired) && nextFeedId == old(nextFeedId)
        invariant BatchDone(old(feeds), old(Table()), batch, i, now)
        invariant old(hooks.executions) <= hooks.executions
      {
        FetchBatchNext(batch, i, now, old(feeds), old(Table()));
      }
      assert batch[..|batch|] == batch;
    }

    /** The rows and posts once the first `i` feeds of the batch are fetched, each from its row before the run. */
    ghost predicate BatchDone(feeds0: map<nat, Feed>, t0: PostTable, batch: seq<nat>, i: nat, now: Time)
      requires i <= |batch| && forall id :: id in batch ==> id in feeds0
      reads this, store, rules
    {
      BatchRows(env, feeds0, feeds, batch[..i], now) &&
      Table() == BatchPosts(t0, env, wired, rules.rows, feeds0, batch[..i], now)
    }

    /** One turn of the batch loop: the `i`-th feed, not fetched yet, is fetched from its row before the run. */
    method FetchBatchNext(batch: seq<nat>, i: nat, now: Time, ghost feeds0: map<nat, Feed>, ghost t0: PostTable)
      requires Valid()
      requires forall id :: id in batch ==> id in feeds0
      requires forall i, j :: 0 <= i < j < |batch| ==> batch[i] != batch[j]
      requires i < |batch| && BatchDone(feeds0, t0, batch, i, now)
      modifies this, store, hooks
      ensures Valid() && wired == old(wired) && nextFeedId == old(nextFeedId)
      ensures BatchDone(feeds0, t0, batch, i + 1, now)
      ensures old(hooks.executions) <= hooks.executions
    {
      var id := batch[i];
      DistinctPrefix(batch, i);
      ghost var before := feeds;
      BatchPostsStep(t0, env, wired, rules.rows, feeds0, batch, i, now);
      // every id of the batch is a stored feed, so `fetch_feed` takes its known-feed path
      var _ := FetchKnownFeed(id, now);
      BatchRowsStep(env, feeds0, before, batch[..i], id, now);
    }

    /** `fetch_feed`: an unknown feed is `feed_not_found` with nothing written; otherwise the row becomes `FetchedRow`, the new items go through the pipeline in order, and the result reports how many were inserted. */
    method FetchFeed(id: nat, now: Time) returns (r: Result<FetchStatus, FeedError>)
      requires Valid()
      modifies this, store, hooks
      ensures Valid() && wired == old(wired) && nextFeedId == old(nextFeedId)
      ensures id !in old(feeds) ==>
                r == Err(FeedNotFound) && feeds == old(feeds) && store.posts == old(store.posts) &&
                hooks.executions == old(hooks.executions) && hooks.webhooks == old(hooks.webhooks)
      ensures id in old(feeds) ==> feeds == old(feeds)[id := FetchedRow(env, old(feeds)[id], now)]
      ensures id in old(feeds) ==> r == FetchOutcome(env, old(feeds)[id], id, Seen(old(store.posts)))
      ensures id in old(feeds) ==>
                Table() == Ingested(old(Table()), old(PipelineOf(feeds[id].config, id, now)), FetchedItems(env, old(feeds)[id], id))
      ensures old(hooks.executions) <= hooks.executions
      ensures SameWebhooks(old(hooks.webhooks), hooks.webhooks)
    {
      if id !in feeds {
        return Err(FeedNotFound);
      }
      r := FetchKnownFeed(id, now);
    }

    /** `fetch_feed` once the row is found: stamp `last_fetch`, send the conditional GET and act on the answer. */
    method FetchKnownFeed(id: nat, now: Time) returns (r: Result<FetchStatus, FeedError>)
      requires Valid() && id in feeds
      modifies this, store, hooks
      ensures Valid() && wired == old(wired) && nextFeedId == old(nextFeedId)
      ensures feeds == old(feeds)[id := FetchedRow(env, old(feeds)[id], now)]
      ensures r == FetchOutcome(env, old(feeds)[id], id, Seen(old(store.posts)))
      ensures Table() == Ingested(old(Table()), old(PipelineOf(feeds[id].config, id, now)), FetchedItems(env, old(feeds)[id], id))
      ensures old(hooks.executions) <= hooks.executions
      ensures SameWebhooks(old(hooks.webhooks), hooks.webhooks)
    {
      var f := feeds[id];
      var stamped := f.(state := f.state.(lastFetch := Some(now)));
      feeds := feeds[id := stamped];
      var response := env.httpGet(ConditionalGet(f));
      if response.Reply? && 200 <= response.code < 300 {
        r := TakeBody(id, f.config.sourceSite, response, now);
      } else {
        r := FetchNotTaken(id, f, now);
      }
    }

    /** A transport failure, a 304 or another non-2xx answer: only the row changes, and no items reach the pipeline. */
    method FetchNotTaken(id: nat, f: Feed, now: Time) returns (r: Result<FetchStatus, FeedError>)
      requires id in feeds && feeds[id] == f.(state := f.state.(lastFetch := Some(now)))
      requires var response := env.httpGet(ConditionalGet(f)); !(response.Reply? && 200 <= response.code < 300)
      modifies this
      ensures wired == old(wired) && nextFeedId == old(nextFeedId)
      ensures feeds == old(feeds)[id := FetchedRow(env, f, now)]
      ensures r == FetchOutcome(env, f, id, Seen(store.posts))
      ensures FetchedItems(env, f, id) == []
    {
      var response := env.httpGet(ConditionalGet(f));
      if response.TransportError? {
        HandleFeedError(id, response.message);
        return Err(FetchError(response.message));
      }
      var code := response.code;
      if code == 304 {
        return Ok(NotModified);
      }
      HandleFeedError(id, HttpErrorText(code));
      return Err(HttpError(code));
    }

    /** The 2xx half of `fetch_feed`: store the validators, parse the body (a failure counts an error), run the items through the pipeline and reset the error count. */
    method TakeBody(id: nat, sourceSite: string, response: HttpResponse, now: Time) returns (r: Result<FetchStatus, FeedError>)
      requires Valid() && id in feeds && response.Reply?
      modifies this, store, hooks
      ensures Valid() && wired == old(wired) && nextFeedId == old(nextFeedId)
      ensures feeds == old(feeds)[id := old(feeds)[id].(state := BodyState(env, old(feeds)[id].state, response))]
      ensures r == BodyOutcome(env, response.body, id, sourceSite, Seen(old(store.posts)))
      ensures Table() == Ingested(old(Table()), old(PipelineOf(feeds[id].config, id, now)), BodyItems(env, response.body, id, sourceSite))
      ensures old(hooks.executions) <= hooks.executions
      ensures SameWebhooks(old(hooks.webhooks), hooks.webhooks)
    {
      StoreValidators(id, response);
      r := ReadBody(id, sourceSite, response.body, now);
    }

    /** Parses the body: a failure counts an error; otherwise the items go through the pipeline and the error count is reset. */
    method ReadBody(id: nat, sourceSite: string, body: string, now: Time) returns (r: Result<FetchStatus, FeedError>)
      requires Valid() && id in feeds
      modifies this, store, hooks
      ensures Valid() && wired == old(wired) && nextFeedId == old(nextFeedId)
      ensures feeds == old(feeds)[id := old(feeds)[id].(state := ParsedState(env, old(feeds)[id].state, body))]
      ensures r == BodyOutcome(env, body, id, sourceSite, Seen(old(store.posts)))
      ensures Table() == Ingested(old(Table()), old(PipelineOf(feeds[id].config, id, now)), BodyItems(env, body, id, sourceSite))
      ensures old(hooks.executions) <= hooks.executions
      ensures SameWebhooks(old(hooks.webhooks), hooks.webhooks)
    {
      var parsed := ParseFeedContent(env, body, id, sourceSite);
      if parsed.Err? {
        HandleFeedError(id, ParseErrorText);
        assert BodyItems(env, body, id, sourceSite) == [];
        return Err(parsed.error);
      }
      var count := IngestAndReset(id, parsed.value, now);
      r := Ok(Fetched(count));
    }

    /** The success path of `fetch_feed`: the items go through the pipeline, then the row's error count and message are cleared. */
    method IngestAndReset(id: nat, items: seq<FeedItem>, now: Time) returns (count: nat)
      requires Valid() && id in feeds
      modifies this, store, hooks
      ensures Valid() && wired == old(wired) && nextFeedId == old(nextFeedId)
      ensures feeds == old(feeds)[id := old(feeds)[id].(state := old(feeds)[id].state.(errorCount := 0, errorMessage := None))]
      ensures Table() == Ingested(old(Table()), old(PipelineOf(feeds[id].config, id, now)), items)
      ensures count == IngestCount(env, Seen(old(store.posts)), items)
      ensures old(hooks.executions) <= hooks.executions
      ensures SameWebhooks(old(hooks.webhooks), hooks.webhooks)
    {
      count := IngestItems(items, feeds[id].config, id, now);
      feeds := feeds[id := feeds[id].(state := feeds[id].state.(errorCount := 0, errorMessage := None))];
    }

    /** Writes the answer's `ETag` and `Last-Modified` to the row when at least one of them is truthy. */
    method StoreValidators(id: nat, response: HttpResponse)
      requires Valid() && id in feeds
      modifies this
      ensures Valid() && wired == old(wired) && nextFeedId == old(nextFeedId)
      ensures feeds == old(feeds)[id := old(feeds)[id].(state := WithValidators(old(feeds)[id].state, response))]
    {
      var etag := Header(response, "etag");
      var lastModified := Header(response, "last-modified");
      if !Empty(etag) || !Empty(lastModified) {
        feeds := feeds[id := feeds[id].(state := feeds[id].state.(etag := etag, lastModified := lastModified))];
      }
    }

    /** The item loop of `fetch_feed`: each item goes through `process_feed_item` in document order. */
    method IngestItems(items: seq<FeedItem>, config: FeedConfig, feedId: nat, now: Time) returns (count: nat)
      requires Valid()
      modifies store, hooks
      ensures Valid()
      ensures Table() == Ingested(old(Table()), PipelineOf(config, feedId, now), items)
      ensures count == IngestCount(env, Seen(old(store.posts)), items)
      ensures old(hooks.executions) <= hooks.executions
      ensures SameWebhooks(old(hooks.webhooks), hooks.webhooks)
    {
      var seen0 := Seen(store.posts);
      ghost var t0 := Table();
      ghost var p := PipelineOf(config, feedId, now);
      count := 0;
      for i := 0 to |items|
        invariant Valid()
        invariant Table() == Ingested(t0, p, items[..i])
        invariant Seen(store.posts) == IngestSeen(env, seen0, items[..i])
        invariant count == IngestCount(env, seen0, items[..i])
        invariant old(hooks.executions) <= hooks.executions
        invariant SameWebhooks(old(hooks.webhooks), hooks.webhooks)
      {
        IngestStep(env, seen0, items, i);
        assert items[..i + 1][..i] == items[..i];
        var inserted := ProcessFeedItem(items[i], config, feedId, now);
        if inserted {
          count := count + 1;
        }
      }
      assert items[..|items|] == items;
    }

    /** `is_duplicate_item`: the GUID is looked up first, then the link; a falsy one is not looked up. */
    predicate IsDuplicateItem(item: FeedItem)
      reads this, store
    {
      (!Empty(item.guid) && store.HasMetaValue(GuidKey, item.guid)) ||
      (!Empty(item.link) && store.HasMetaValue(UrlKey, item.link))
    }

    /** The lookups find exactly the GUIDs and URLs the stored posts carry. */
    lemma IsDuplicateItemSeen(item: FeedItem)
      ensures IsDuplicateItem(item) <==> Duplicate(Seen(store.posts), item)
    {
      store.HasMetaValueIsMember(GuidKey, item.guid);
      store.HasMetaValueIsMember(UrlKey, item.link);
    }

    /** `process_feed_item`: a duplicate is skipped with nothing written; otherwise the item's post is inserted and, when the webhook manager is set, the chosen rule's actions run on it. */
    method ProcessFeedItem(item: FeedItem, config: FeedConfig, feedId: nat, now: Time) returns (inserted: bool)
      requires Valid()
      modifies store, hooks
      ensures Valid()
      ensures inserted <==> !Duplicate(Seen(old(store.posts)), item)
      ensures !inserted ==>
                store.posts == old(store.posts) && hooks.executions == old(hooks.executions) && hooks.webhooks == old(hooks.webhooks)
      ensures inserted ==>
                old(store.nextId) !in old(store.posts) &&
                RuleEffects(hooks, old(store.posts)[old(store.nextId) := ItemPost(env, item, config, feedId, now)], store.posts,
                            old(hooks.executions), hooks.executions, old(hooks.webhooks), hooks.webhooks,
                            old(hooks.serial), hooks.serial, Chosen(item, feedId), old(store.nextId), item, now)
      ensures Table() == IngestPost(old(Table()), PipelineOf(config, feedId, now), item)
      ensures Seen(store.posts) == Step(env, Seen(old(store.posts)), item)
      ensures old(hooks.executions) <= hooks.executions
      ensures SameWebhooks(old(hooks.webhooks), hooks.webhooks)
    {
      IsDuplicateItemSeen(item);
      if IsDuplicateItem(item) {
        return false;
      }
      var itemId := InsertItem(item, config, feedId, now);
      inserted := true;
    }

    /** The insert half of `process_feed_item`: the item's post is added under the next id and, when the webhook manager is set, the chosen rule's actions run on it. */
    method InsertItem(item: FeedItem, config: FeedConfig, feedId: nat, now: Time) returns (itemId: nat)
      requires Valid()
      modifies store, hooks
      ensures Valid()
      ensures itemId == old(store.nextId) && itemId !in old(store.posts) && store.nextId == itemId + 1
      ensures RuleEffects(hooks, old(store.posts)[itemId := ItemPost(env, item, config, feedId, now)], store.posts,
                          old(hooks.executions), hooks.executions, old(hooks.webhooks), hooks.webhooks,
                          old(hooks.serial), hooks.serial, Chosen(item, feedId), itemId, item, now)
      ensures Seen(store.posts) == Remember(env, Seen(old(store.posts)), item)
      ensures old(store.posts).Keys <= store.posts.Keys && old(hooks.executions) <= hooks.executions
    {
      var posts0 := store.posts;
      var post := ItemPost(env, item, config, feedId, now);
      itemId := store.Insert(post);
      InsertRemembers(posts0, itemId, env, item, config, feedId, now);
      if wired {
        TriggerContentProcessing(itemId, item, feedId, now);
      }
      ActionsKeepSeen(posts0[itemId := post], itemId, if Chosen(item, feedId).Some? then ActionsOf(Chosen(item, feedId).value) else []);
    }

    /** `trigger_content_processing`: the applicable rules are tried in priority order and only the first that matches has its actions run. */
    method TriggerContentProcessing(itemId: nat, item: FeedItem, feedId: nat, now: Time)
      requires Valid()
      modifies store, hooks
      ensures Valid()
      ensures RuleEffects(hooks, old(store.posts), store.posts, old(hooks.executions), hooks.executions,
                          old(hooks.webhooks), hooks.webhooks, old(hooks.serial), hooks.serial,
                          FirstMatch(env, RulesInOrder(rules.rows, feedId), item), itemId, item, now)
      ensures store.nextId == old(store.nextId)
    {
      var candidates := RulesInOrder(rules.rows, feedId);
      var i := 0;
      while i < |candidates|
        invariant 0 <= i <= |candidates|
        invariant FirstMatch(env, candidates, item) == FirstMatch(env, candidates[i..], item)
      {
        assert candidates[i..][1..] == candidates[i + 1..];
        if EvaluateRule(env, candidates[i], item) {
          ExecuteRuleActions(candidates[i], itemId, item, now);
          return;
        }
        i := i + 1;
      }
      NoActionsNoChange(store.posts, itemId);
    }

    /** `execute_rule_actions`: each action in order; assignments write the item's meta, each `send_to_webhook` dispatches the item's content to the rule's webhook. */
    method ExecuteRuleActions(rule: RuleRow, itemId: nat, item: FeedItem, now: Time)
      requires Valid()
      modifies store, hooks
      ensures Valid()
      ensures RuleEffects(hooks, old(store.posts), store.posts, old(hooks.executions), hooks.executions,
                          old(hooks.webhooks), hooks.webhooks, old(hooks.serial), hooks.serial, Some(rule), itemId, item, now)
      ensures store.nextId == old(store.nextId)
    {
      var acts := ActionsOf(rule);
      var target := Target(rule);
      var data := ItemData(itemId, item);
      for i := 0 to |acts|
        invariant Valid()
        invariant store.posts == ActionsApplied(old(store.posts), itemId, acts[..i]) && store.nextId == old(store.nextId)
        invariant SentSoFar(hooks, old(hooks.executions), hooks.executions, old(hooks.webhooks), hooks.webhooks,
                            old(hooks.serial), hooks.serial, target, data, now, CountSends(acts[..i]))
      {
        ActionStep(acts, i, target, itemId, data, now, old(store.posts), old(hooks.executions), old(hooks.webhooks), old(hooks.serial));
      }
      assert acts[..|acts|] == acts;
      SentKeepsWebhooks(hooks, old(hooks.executions), hooks.executions, old(hooks.webhooks), hooks.webhooks,
                        old(hooks.serial), hooks.serial, target, data, now, CountSends(acts));
    }

    /** The `i`-th pass of `execute_rule_actions`' loop keeps its invariant. */
    method ActionStep(acts: seq<Action>, i: nat, target: Option<int>, itemId: nat, data: ContentData, now: Time,
                      ghost posts0: map<nat, Post>, ghost execs0: seq<Execution>, ghost ws0: map<nat, Webhook>, ghost serial0: nat)
      requires Valid() && i < |acts|
      requires store.posts == ActionsApplied(posts0, itemId, acts[..i])
      requires SentSoFar(hooks, execs0, hooks.executions, ws0, hooks.webhooks, serial0, hooks.serial, target, data, now, CountSends(acts[..i]))
      modifies store, hooks
      ensures Valid() && store.nextId == old(store.nextId)
      ensures store.posts == ActionsApplied(posts0, itemId, acts[..i + 1])
      ensures SentSoFar(hooks, execs0, hooks.executions, ws0, hooks.webhooks, serial0, hooks.serial, target, data, now, CountSends(acts[..i + 1]))
    {
      ActionsAppliedStep(posts0, itemId, acts, i);
      ghost var execs, ws, serial := hooks.executions, hooks.webhooks, hooks.serial;
      RunAction(acts[i], target, itemId, data, now);
      if acts[i].kind == "send_to_webhook" {
        SentStep(hooks, execs0, execs, hooks.executions, ws0, ws, hooks.webhooks, serial0, serial, hooks.serial, target, data, now, CountSends(acts[..i]));
      }
    }

    /** One action of `execute_rule_actions`: an assignment writes the item's meta, a `send_to_webhook` dispatches `data`, any other kind does nothing. */
    method RunAction(a: Action, target: Option<int>, itemId: nat, data: ContentData, now: Time)
      requires Valid()
      modifies store, hooks
      ensures Valid() && store.nextId == old(store.nextId)
      ensures store.posts == if itemId in old(store.posts) then old(store.posts)[itemId := ActionMeta(old(store.posts)[itemId], a)] else old(store.posts)
      ensures a.kind == "send_to_webhook" ==>
                SentOnce(hooks, old(hooks.executions), hooks.executions, old(hooks.webhooks), hooks.webhooks,
                         old(hooks.serial), hooks.serial, target, data, now)
      ensures a.kind != "send_to_webhook" ==>
                hooks.executions == old(hooks.executions) && hooks.webhooks == old(hooks.webhooks) && hooks.serial == old(hooks.serial)
    {
      if a.kind == "send_to_webhook" {
        SendItem(target, data, now);
        if itemId in store.posts {
          assert store.posts[itemId := ActionMeta(store.posts[itemId], a)] == store.posts;
        }
      } else if a.kind == "assign_category" {
        store.UpdateMeta(itemId, "_auto_assigned_category", Text(a.value));
      } else if a.kind == "assign_tags" {
        store.UpdateMeta(itemId, "_auto_assigned_tags", Text(a.value));
      } else if itemId in store.posts {
        assert store.posts[itemId := ActionMeta(store.posts[itemId], a)] == store.posts;
      }
    }

    /**
     * One `send_to_webhook`, called when the rule names a webhook: an active
     * webhook gets one execution carrying the item's content under the next
     * execution id, settled by the webhook's answer, and its counters are
     * credited with that answer; a missing or inactive one changes nothing.
     */
    method SendItem(target: Option<int>, data: ContentData, now: Time)
      requires Valid()
      modifies hooks
      ensures Valid()
      ensures Dispatchable(old(hooks.webhooks), target) ==>
                var id := target.value as nat;
                var w := old(hooks.webhooks)[id];
                hooks.serial == old(hooks.serial) + 1 &&
                hooks.executions == old(hooks.executions) + [hooks.SentExecution(id, w, data, old(hooks.serial), now)] &&
                hooks.webhooks == old(hooks.webhooks)[id := Credit(w, hooks.AnswerFor(id, w, data, old(hooks.serial), now), now)]
      ensures !Dispatchable(old(hooks.webhooks), target) ==>
                hooks.executions == old(hooks.executions) && hooks.webhooks == old(hooks.webhooks) && hooks.serial == old(hooks.serial)
    {
      if target.Some? && target.value >= 0 {
        var w: nat := target.value;
        var _ := hooks.SendToWebhook(w, data, now);
      }
    }

    /** `handle_feed_error`: the row's error count goes up by one with the message, and the feed is disabled at five. */
    method HandleFeedError(id: nat, message: string)
      modifies this
      ensures feeds == if id in old(feeds) then old(feeds)[id := old(feeds)[id].(state := AfterError(old(feeds)[id].state, message))] else old(feeds)
      ensures nextFeedId == old(nextFeedId) && wired == old(wired)
    {
      if id !in feeds {
        return;
      }
      var counted := feeds[id].state.(errorCount := feeds[id].state.errorCount + 1, errorMessage := Some(message));
      feeds := feeds[id := feeds[id].(state := counted)];
      if counted.errorCount >= MaxErrors {
        feeds := feeds[id := feeds[id].(state := counted.(status := StatusError))];
      }
    }
  }
}
