/**
 * The n8n webhook integration (`RCP_Webhook_Manager`): registering
 * webhooks, dispatching an item to one (an Execution row that starts
 * `pending` and is settled by the HTTP outcome), the inbound callback that
 * sets the final status, the draft post built from returned content, and
 * token authentication of callbacks.
 */
module Webhooks {
  import opened Base
  import opened Php
  import opened Platform
  import opened Content

  // ---------------------------------------------------------------- rows

  /** A row of the webhooks table. */
  datatype Webhook = Webhook(
    name: string,
    url: string,
    authToken: string,
    workflowName: string,
    workflowDescription: string,
    processingType: string,
    active: bool,
    timeoutSeconds: nat,
    successCount: nat,
    errorCount: nat,
    lastUsed: Option<Time>)

  /** What `response_payload` holds: a webhook's reply body, or the callback parameters echoed back. */
  datatype Payload = Body(text: string) | Echo(params: CallbackParams)

  /** A row of the executions table. `status` is the text the plugin wrote. */
  datatype Execution = Execution(
    itemId: nat,
    webhookId: nat,
    executionId: string,
    status: string,
    request: DispatchPayload,
    responsePayload: Option<Payload>,
    errorMessage: Option<string>,
    completedAt: Option<Time>,
    processingTimeMs: Option<int>)

  /** The optional workflow description given when a webhook is created. */
  datatype WorkflowData = WorkflowData(name: Option<string>, description: Option<string>, processingType: Option<string>)

  /** The item handed to `send_to_webhook`. */
  datatype ContentData = ContentData(itemId: nat, content: string, title: string, sourceUrl: string, metadata: ItemMetadata)

  /** SEO fields a workflow may return. */
  datatype Seo = Seo(metaDescription: Option<string>, focusKeywords: Option<string>)

  /** The `processed_content` of a callback. */
  datatype ProcessedContent = ProcessedContent(title: Option<string>, content: Option<string>, excerpt: Option<string>, seo: Option<Seo>)

  /** The JSON parameters of a callback. */
  datatype CallbackParams = CallbackParams(
    executionId: Option<string>,
    status: Option<string>,
    error: Option<string>,
    processingTimeMs: Option<int>,
    processedContent: Option<ProcessedContent>)

  datatype Created = Created(webhookId: nat, authToken: string, callbackUrl: string)
  datatype Dispatched = Dispatched(executionId: string, response: string)

  datatype WebhookError =
    | DbError
    | WebhookNotFound
    | TransportFailed(message: string)
    | WebhookHttpError(code: nat)

  /** The REST answer to a callback: 400, 404, or success. */
  datatype CallbackResult = InvalidPayload | ExecutionNotFound | Accepted

  // ---------------------------------------------------------------- execution ids

  /** `uniqid('rcp_', true)`, modelled as the `n`-th id the plugin hands out. */
  function ExecId(n: nat): string {
    "rcp_" + NatToString(n)
  }

  /** The serial number an execution id was issued with (-1 for text that is not one). */
  function SerialOf(x: string): int {
    if |x| >= 4 then IntVal(x[4..]) else -1
  }

  lemma SerialOfExecId(n: nat)
    ensures SerialOf(ExecId(n)) == n
  {
    assert ExecId(n)[4..] == NatToString(n);
    IntValNatToString(n);
  }

  // ---------------------------------------------------------------- dispatch outcome

  /** The HTTP code printed in an error message. */
  function CodeText(code: nat): string {
    NatToString(code)
  }

  predicate Is2xx(r: HttpResponse) {
    r.Reply? && 200 <= r.code < 300
  }

  /** The execution row after the webhook's answer: `error` with a message and completion time on a transport failure or a non-2xx code, `running` with the reply on a 2xx. */
  function Settle(e: Execution, r: HttpResponse, now: Time): Execution {
    match r
    case TransportError(message) => e.(status := "error", errorMessage := Some(message), completedAt := Some(now))
    case Reply(code, body, _) =>
      if 200 <= code < 300 then e.(status := "running", responsePayload := Some(Body(body)))
      else e.(status := "error", errorMessage := Some("HTTP " + CodeText(code) + ": " + body), completedAt := Some(now))
  }

  /** The webhook's counters after the answer: an error on a transport failure, a success and `last_used` on a 2xx, nothing on another code. */
  function Credit(w: Webhook, r: HttpResponse, now: Time): Webhook {
    if r.TransportError? then w.(errorCount := w.errorCount + 1)
    else if Is2xx(r) then w.(successCount := w.successCount + 1, lastUsed := Some(now))
    else w
  }

  /** What `send_to_webhook` returns. */
  function Outcome(r: HttpResponse, executionId: string): Result<Dispatched, WebhookError> {
    match r
    case TransportError(message) => Err(TransportFailed(message))
    case Reply(code, body, _) =>
      if 200 <= code < 300 then Ok(Dispatched(executionId, body)) else Err(WebhookHttpError(code))
  }

  /** A settled execution is never `pending`; it is `running` exactly on a 2xx and then keeps no completion time; otherwise it is `error`, completed, with a message. */
  lemma SettleStatus(e: Execution, r: HttpResponse, now: Time)
    ensures Settle(e, r, now).status != "pending"
    ensures Settle(e, r, now).status == "running" <==> Is2xx(r)
    ensures Is2xx(r) ==> Settle(e, r, now).completedAt == e.completedAt && Settle(e, r, now).responsePayload == Some(Body(r.body))
    ensures !Is2xx(r) ==> Settle(e, r, now).status == "error" && Settle(e, r, now).completedAt == Some(now) && Settle(e, r, now).errorMessage.Some?
    ensures Settle(e, r, now).executionId == e.executionId && Settle(e, r, now).request == e.request
    ensures Settle(e, r, now).itemId == e.itemId && Settle(e, r, now).webhookId == e.webhookId
  {
  }

  /** The counters agree with the execution: a success is counted iff the execution is `running`, an error iff the transport failed; a non-2xx answer counts as neither. */
  lemma CreditMatchesSettle(w: Webhook, e: Execution, r: HttpResponse, now: Time)
    ensures Credit(w, r, now).successCount == w.successCount + (if Settle(e, r, now).status == "running" then 1 else 0)
    ensures Credit(w, r, now).errorCount == w.errorCount + (if r.TransportError? then 1 else 0)
    ensures Credit(w, r, now).authToken == w.authToken && Credit(w, r, now).active == w.active
    ensures Outcome(r, e.executionId).Ok? <==> Settle(e, r, now).status == "running"
  {
  }

  /** Every execution id was issued before `serial`, and no two executions share one. */
  ghost predicate IssuedIds(rows: seq<Execution>, serial: nat) {
    (forall i :: 0 <= i < |rows| ==> 0 <= SerialOf(rows[i].executionId) < serial) &&
    (forall i, j :: 0 <= i < j < |rows| ==> rows[i].executionId != rows[j].executionId)
  }

  /** The id issued next is new, so appending its execution keeps the ids unique. */
  lemma IssueNextId(rows: seq<Execution>, serial: nat, e: Execution)
    requires IssuedIds(rows, serial) && e.executionId == ExecId(serial)
    ensures IssuedIds(rows + [e], serial + 1)
  {
    SerialOfExecId(serial);
    var after := rows + [e];
    forall i, j | 0 <= i < j < |after|
      ensures after[i].executionId != after[j].executionId
    {
      if j == |rows| {
        assert SerialOf(after[i].executionId) < serial == SerialOf(after[j].executionId);
      }
    }
  }

  /** Rewriting rows without touching their ids keeps the ids issued and unique. */
  lemma IssuedIdsKeptBySameIds(rows: seq<Execution>, after: seq<Execution>, serial: nat)
    requires IssuedIds(rows, serial) && |after| == |rows|
    requires forall i :: 0 <= i < |rows| ==> after[i].executionId == rows[i].executionId
    ensures IssuedIds(after, serial)
  {
  }

  // ---------------------------------------------------------------- callbacks

  /** The status a callback writes: `error` when an error is reported, else the given status, `success` by default. */
  function CallbackStatus(p: CallbackParams): string {
    if p.error.Some? then "error" else p.status.GetOr("success")
  }

  /** The execution row after a callback. */
  function AfterCallback(e: Execution, p: CallbackParams, now: Time): Execution {
    var e1 := e.(status := CallbackStatus(p), responsePayload := Some(Echo(p)), completedAt := Some(now));
    var e2 := if p.error.Some? then e1.(errorMessage := p.error) else e1;
    if p.processingTimeMs.Some? then e2.(processingTimeMs := p.processingTimeMs) else e2
  }

  /** A callback completes the execution, echoes its parameters, and reports `error` exactly when an error is given or the given status is `error`. */
  lemma AfterCallbackMeaning(e: Execution, p: CallbackParams, now: Time)
    ensures AfterCallback(e, p, now).completedAt == Some(now)
    ensures AfterCallback(e, p, now).responsePayload == Some(Echo(p))
    ensures p.error.Some? ==> AfterCallback(e, p, now).status == "error" && AfterCallback(e, p, now).errorMessage == p.error
    ensures p.error.None? && p.status.None? ==> AfterCallback(e, p, now).status == "success"
    ensures p.error.None? ==> AfterCallback(e, p, now).errorMessage == e.errorMessage
    ensures AfterCallback(e, p, now).executionId == e.executionId && AfterCallback(e, p, now).itemId == e.itemId
  {
  }

  /** The index of the first execution with the id, if any. */
  function FindExecution(rows: seq<Execution>, id: string): (r: Option<nat>)
    ensures r.Some? ==> r.value < |rows|
    decreases |rows|
  {
    if rows == [] then None
    else if rows[0].executionId == id then Some(0)
    else match FindExecution(rows[1..], id)
         case Some(i) => Some(i + 1)
         case None => None
  }

  lemma {:induction false} FindExecutionSpec(rows: seq<Execution>, id: string)
    ensures FindExecution(rows, id).None? <==> forall i :: 0 <= i < |rows| ==> rows[i].executionId != id
    ensures FindExecution(rows, id).Some? ==>
              rows[FindExecution(rows, id).value].executionId == id &&
              forall j :: 0 <= j < FindExecution(rows, id).value ==> rows[j].executionId != id
    decreases |rows|
  {
    if rows != [] && rows[0].executionId != id {
      FindExecutionSpec(rows[1..], id);
      forall j | 1 <= j < |rows| ensures rows[j].executionId == rows[1..][j - 1].executionId { }
    }
  }

  // ---------------------------------------------------------------- returned content

  /** `get_post_meta($item, $key, true)` of the source keys the new post copies. */
  const CopiedKeys: seq<string> := [UrlKey, GuidKey, "_rss_canonical", "_rss_source_license"]

  /** The draft built from returned content: payload fields falling back to the item, provenance and SEO meta. */
  function ReturnedPost(item: Post, e: Execution, pc: ProcessedContent, now: Time): Post {
    var meta := map[
      UrlKey := MetaOr(item, UrlKey),
      GuidKey := MetaOr(item, GuidKey),
      "_rss_canonical" := MetaOr(item, "_rss_canonical"),
      "_rss_source_license" := MetaOr(item, "_rss_source_license"),
      "_ai_provenance" := Provenance("n8n_webhook", e.executionId, now, e.webhookId)];
    var withDesc :=
      if pc.seo.Some? && pc.seo.value.metaDescription.Some? then meta["_yoast_wpseo_metadesc" := Text(pc.seo.value.metaDescription.value)] else meta;
    var withKeywords :=
      if pc.seo.Some? && pc.seo.value.focusKeywords.Some? then withDesc["_yoast_wpseo_focuskw" := Text(pc.seo.value.focusKeywords.value)] else withDesc;
    Post(pc.title.GetOr(item.title), pc.content.GetOr(item.content), pc.excerpt.GetOr(""), "draft", "post", now, withKeywords)
  }

  /** The source item once its processed post exists. */
  function Completed(item: Post, postId: nat): Post {
    WithMeta(WithMeta(item, "_processed_post_id", Number(postId)), "_processing_status", Text("completed"))
  }

  /** The returned post is always a draft, falls back to the item's title and content, has an empty excerpt by default, records its provenance and carries the item's source URL and GUID. */
  lemma ReturnedPostMeaning(item: Post, e: Execution, pc: ProcessedContent, now: Time)
    ensures var p := ReturnedPost(item, e, pc, now);
            p.status == "draft" && p.postType == "post" &&
            p.title == (if pc.title.Some? then pc.title.value else item.title) &&
            p.content == (if pc.content.Some? then pc.content.value else item.content) &&
            (pc.excerpt.None? ==> p.excerpt == "") &&
            p.meta["_ai_provenance"] == Provenance("n8n_webhook", e.executionId, now, e.webhookId) &&
            p.meta[UrlKey] == MetaOr(item, UrlKey) && p.meta[GuidKey] == MetaOr(item, GuidKey)
  {
  }

  // ---------------------------------------------------------------- authentication

  /** Every webhook has its own token. */
  ghost predicate UniqueTokens(ws: map<nat, Webhook>) {
    forall a, b :: a in ws && b in ws && a != b ==> ws[a].authToken != ws[b].authToken
  }

  /** `verify_webhook_auth`: a non-empty header that is the token of an active webhook. */
  predicate TokenActive(ws: map<nat, Webhook>, header: string) {
    !Empty(header) && exists id :: id in ws && ws[id].authToken == header && ws[id].active
  }

  /** With unique tokens, an accepted header identifies exactly one webhook. */
  lemma TokenIdentifiesWebhook(ws: map<nat, Webhook>, header: string)
    requires UniqueTokens(ws) && TokenActive(ws, header)
    ensures exists id :: id in ws && ws[id].authToken == header && ws[id].active &&
              forall other :: other in ws && ws[other].authToken == header ==> other == id
  {
    var id :| id in ws && ws[id].authToken == header && ws[id].active;
    assert forall other :: other in ws && ws[other].authToken == header ==> other == id;
  }

  /** Once a webhook is deleted its token no longer authenticates. */
  lemma DeleteRevokesToken(ws: map<nat, Webhook>, id: nat)
    requires UniqueTokens(ws) && id in ws
    ensures !TokenActive(ws - {id}, ws[id].authToken)
  {
  }

  // ---------------------------------------------------------------- the manager

  class WebhookManager {
    const env: Env
    /** The posts table, shared with the feed manager. */
    const store: ContentStore
    var webhooks: map<nat, Webhook>
    var nextWebhookId: nat
    /** The executions table in insertion order; a row's record id is its index plus one. */
    var executions: seq<Execution>
    /** How many execution ids have been handed out. */
    var serial: nat

    ghost predicate Valid()
      reads this, store
    {
      store.Valid() &&
      nextWebhookId > 0 && (forall id :: id in webhooks ==> 0 < id < nextWebhookId) &&
      UniqueTokens(webhooks) && IssuedIds(executions, serial)
    }

    constructor (env: Env, store: ContentStore)
      requires store.Valid()
      ensures Valid() && this.env == env && this.store == store
      ensures webhooks == map[] && executions == []
    {
      this.env := env;
      this.store := store;
      webhooks := map[];
      nextWebhookId := 1;
      executions := [];
      serial := 0;
    }

    /** `create_webhook`: registers an active webhook under a new id with the generated token; a token already in use violates the table's unique key and nothing is stored. */
    method CreateWebhook(name: string, url: string, workflow: WorkflowData, token: string) returns (r: Result<Created, WebhookError>)
      requires Valid()
      modifies this
      ensures Valid()
      ensures executions == old(executions) && serial == old(serial)
      ensures (exists id :: id in old(webhooks) && old(webhooks)[id].authToken == token) ==>
                r == Err(DbError) && webhooks == old(webhooks) && nextWebhookId == old(nextWebhookId)
      ensures (forall id :: id in old(webhooks) ==> old(webhooks)[id].authToken != token) ==>
                r == Ok(Created(old(nextWebhookId), token, env.restUrl(CallbackRoute))) &&
                webhooks == old(webhooks)[old(nextWebhookId) := NewWebhook(name, url, workflow, token)] &&
                nextWebhookId == old(nextWebhookId) + 1
    {
      if exists id :: id in webhooks && webhooks[id].authToken == token {
        return Err(DbError);
      }
      var id := nextWebhookId;
      webhooks := webhooks[id := NewWebhook(name, url, workflow, token)];
      nextWebhookId := nextWebhookId + 1;
      r := Ok(Created(id, token, env.restUrl(CallbackRoute)));
    }

    /** The execution row inserted before the request. */
    function PendingFor(webhookId: nat, w: Webhook, data: ContentData, executionId: string, now: Time): Execution {
      Execution(data.itemId, webhookId, executionId, "pending", PayloadFor(webhookId, w, data, executionId, now), None, None, None, None)
    }

    /** The webhook's answer to the `serial`-th dispatch of `data` to `w`. */
    function AnswerFor(webhookId: nat, w: Webhook, data: ContentData, serial: nat, now: Time): HttpResponse {
      var pending := PendingFor(webhookId, w, data, ExecId(serial), now);
      env.httpPost(DispatchRequest(w.url, w.authToken, pending.request, if w.timeoutSeconds == 0 then 30 else w.timeoutSeconds))
    }

    /** The execution row the `serial`-th dispatch of `data` to `w` leaves once the answer has settled it. */
    function SentExecution(webhookId: nat, w: Webhook, data: ContentData, serial: nat, now: Time): Execution {
      Settle(PendingFor(webhookId, w, data, ExecId(serial), now), AnswerFor(webhookId, w, data, serial, now), now)
    }

    /** The body POSTed to the webhook. */
    function PayloadFor(webhookId: nat, w: Webhook, data: ContentData, executionId: string, now: Time): DispatchPayload {
      DispatchPayload(executionId, webhookId, env.restUrl(CallbackRoute), w.authToken, data.content, data.title, data.sourceUrl, data.metadata, w.processingType, now)
    }

    /** `send_to_webhook`: a missing or inactive webhook is refused with nothing written; otherwise one execution is inserted `pending`, the item is POSTed, and the execution and the webhook's counters are settled by the answer. */
    method SendToWebhook(webhookId: nat, data: ContentData, now: Time) returns (r: Result<Dispatched, WebhookError>)
      requires Valid()
      modifies this
      ensures Valid()
      ensures !(webhookId in old(webhooks) && old(webhooks)[webhookId].active) ==>
                r == Err(WebhookNotFound) && executions == old(executions) && webhooks == old(webhooks) && serial == old(serial)
      ensures webhookId in old(webhooks) && old(webhooks)[webhookId].active ==>
                var w := old(webhooks)[webhookId];
                var pending := PendingFor(webhookId, w, data, ExecId(old(serial)), now);
                var answer := env.httpPost(DispatchRequest(w.url, w.authToken, pending.request, if w.timeoutSeconds == 0 then 30 else w.timeoutSeconds));
                serial == old(serial) + 1 &&
                executions == old(executions) + [Settle(pending, answer, now)] &&
                webhooks == old(webhooks)[webhookId := Credit(w, answer, now)] &&
                r == Outcome(answer, ExecId(old(serial)))
      ensures nextWebhookId == old(nextWebhookId)
    {
      if !(webhookId in webhooks && webhooks[webhookId].active) {
        return Err(WebhookNotFound);
      }
      var w := webhooks[webhookId];
      var executionId := ExecId(serial);
      var pending := PendingFor(webhookId, w, data, executionId, now);
      var answer := env.httpPost(DispatchRequest(w.url, w.authToken, pending.request, if w.timeoutSeconds == 0 then 30 else w.timeoutSeconds));
      var settled := Settle(pending, answer, now);
      IssueNextId(executions, serial, settled);
      executions := executions + [settled];
      serial := serial + 1;
      webhooks := webhooks[webhookId := Credit(w, answer, now)];
      r := Outcome(answer, executionId);
    }

    /** `handle_webhook_callback`: 400 without an execution id, 404 for an unknown one (neither writes anything); otherwise the first execution with that id gets the callback's status, and a `success` with processed content creates the draft. */
    method HandleCallback(params: Option<CallbackParams>, now: Time) returns (res: CallbackResult)
      requires Valid()
      modifies this, store
      ensures Valid()
      ensures webhooks == old(webhooks) && serial == old(serial) && nextWebhookId == old(nextWebhookId)
      ensures params.None? || params.value.executionId.None? ==>
                res == InvalidPayload && executions == old(executions) && store.posts == old(store.posts)
      ensures params.Some? && params.value.executionId.Some? ==>
                match FindExecution(old(executions), params.value.executionId.value)
                case None => res == ExecutionNotFound && executions == old(executions) && store.posts == old(store.posts)
                case Some(i) =>
                  res == Accepted &&
                  executions == old(executions)[i := AfterCallback(old(executions)[i], params.value, now)] &&
                  store.posts == (if CallbackStatus(params.value) == "success" && params.value.processedContent.Some?
                                  then AfterReturn(old(store.posts), old(store.nextId), old(executions)[i], params.value.processedContent.value, now)
                                  else old(store.posts))
    {
      if params.None? || params.value.executionId.None? {
        return InvalidPayload;
      }
      var p := params.value;
      var found := FindExecution(executions, p.executionId.value);
      if found.None? {
        return ExecutionNotFound;
      }
      var i := found.value;
      var execution := executions[i];
      IssuedIdsKeptBySameIds(executions, executions[i := AfterCallback(execution, p, now)], serial);
      executions := executions[i := AfterCallback(execution, p, now)];
      if CallbackStatus(p) == "success" && p.processedContent.Some? {
        ProcessReturnedContent(execution, p.processedContent.value, now);
      }
      res := Accepted;
    }

    /** `process_returned_content`: nothing when the source item is gone; otherwise a draft is inserted and the item records it and is marked `completed`. */
    method ProcessReturnedContent(e: Execution, pc: ProcessedContent, now: Time)
      requires store.Valid()
      modifies store
      ensures store.Valid()
      ensures store.posts == AfterReturn(old(store.posts), old(store.nextId), e, pc, now)
    {
      if e.itemId !in store.posts {
        return;
      }
      var item := store.posts[e.itemId];
      var postId := store.Insert(ReturnedPost(item, e, pc, now));
      store.UpdateMeta(e.itemId, "_processed_post_id", Number(postId));
      store.UpdateMeta(e.itemId, "_processing_status", Text("completed"));
    }

    /** `verify_webhook_auth`. */
    predicate VerifyWebhookAuth(header: string)
      reads this
    {
      TokenActive(webhooks, header)
    }

    /** `delete_webhook`: removes the row and reports how many rows went; executions keep their webhook id. */
    method DeleteWebhook(webhookId: nat) returns (deleted: nat)
      requires Valid()
      modifies this
      ensures Valid()
      ensures webhooks == old(webhooks) - {webhookId}
      ensures deleted == if webhookId in old(webhooks) then 1 else 0
      ensures executions == old(executions) && serial == old(serial) && nextWebhookId == old(nextWebhookId)
    {
      deleted := if webhookId in webhooks then 1 else 0;
      webhooks := webhooks - {webhookId};
    }
  }

  /** The webhook row `create_webhook` stores: active, default processing type `content_rewrite`, the table's defaults for timeout and counters. */
  function NewWebhook(name: string, url: string, workflow: WorkflowData, token: string): Webhook {
    Webhook(name, url, token, workflow.name.GetOr(""), workflow.description.GetOr(""),
            workflow.processingType.GetOr("content_rewrite"), true, 30, 0, 0, None)
  }

  /** The posts table after `process_returned_content`, when the next post id is `nextId`. */
  function AfterReturn(posts: map<nat, Post>, nextId: nat, e: Execution, pc: ProcessedContent, now: Time): map<nat, Post>
    requires forall id :: id in posts ==> id < nextId
  {
    if e.itemId !in posts then posts
    else posts[nextId := ReturnedPost(posts[e.itemId], e, pc, now)][e.itemId := Completed(posts[e.itemId], nextId)]
  }

  /** Returned content adds exactly one post, a draft, and marks the item completed with a pointer to it. */
  lemma AfterReturnMeaning(posts: map<nat, Post>, nextId: nat, e: Execution, pc: ProcessedContent, now: Time)
    requires forall id :: id in posts ==> id < nextId
    ensures e.itemId !in posts ==> AfterReturn(posts, nextId, e, pc, now) == posts
    ensures e.itemId in posts ==>
              var after := AfterReturn(posts, nextId, e, pc, now);
              after.Keys == posts.Keys + {nextId} && nextId !in posts &&
              after[nextId].status == "draft" &&
              after[e.itemId].meta["_processing_status"] == Text("completed") &&
              after[e.itemId].meta["_processed_post_id"] == Number(nextId) &&
              forall id :: id in posts && id != e.itemId ==> after[id] == posts[id]
  {
    if e.itemId in posts {
      assert e.itemId != nextId;
    }
  }
}
