/** bitbucket/webhook.rs: reading a repository's webhooks, the payload of
    a new one, and what is saved from the provider's answer. */
module BitbucketWebhook {
  import opened Wrappers
  import opened Entities
  import opened Json
  import opened Http
  import opened Store
  import opened WebhookDb

  const CALLBACK_PATH: string := "/api/bitbucket/callbacks/webhook"
  const DESCRIPTION: string := "Webhook for PRs when raised and when something is pushed to the open PRs"
  const PR_CREATED: string := "pullrequest:created"
  const PR_UPDATED: string := "pullrequest:updated"

  /** The callback url, built from SERVER_URL the same way here and in the
      reconciliation of core/bitbucket/setup.rs. */
  function CallbackUrl(serverUrl: string): (u: string)
    ensures |u| == |serverUrl| + |CALLBACK_PATH|
    ensures u[..|serverUrl|] == serverUrl && u[|serverUrl|..] == CALLBACK_PATH
  {
    serverUrl + CALLBACK_PATH
  }

  // ------------------------------------------------------- reading webhooks

  /** `matches!(v.to_string().trim_matches('"'), "true" | "false")` */
  function ActiveFlag(v: Value): bool
  {
    var t := TrimMatches(Render(v), '\"');
    t == "true" || t == "false"
  }

  /** The flag says whether `active` is a boolean (or the string "true" or
      "false"), not which boolean it is: an inactive hook reads as active. */
  lemma ActiveFlagCases(v: Value)
    ensures v.Bool? ==> ActiveFlag(v)
    ensures v.Null? || v.Number? || v.Array? || v.Object? ==> !ActiveFlag(v)
    ensures v.Str? ==> (ActiveFlag(v) <==> v.s == "true" || v.s == "false")
  {
    RenderHead(v);
    match v
    case Null =>
      assert TrimMatches("null", '\"') == "null";
    case Bool(b) =>
      assert TrimMatches("true", '\"') == "true";
      assert TrimMatches("false", '\"') == "false";
    case Str(s) =>
      if Plain(s) {
        StripRenderedPlain(s);
      } else {
        ActiveFlagEscaped(s);
      }
    case _ =>
      TrimKeepsHead(Render(v), '\"');
  }

  /** A string that needs an escape keeps the escape's backslash through
      `trim_matches`, so it never reads as "true" or "false". */
  lemma ActiveFlagEscaped(s: string)
    requires !Plain(s)
    ensures !ActiveFlag(Str(s)) && s != "true" && s != "false"
  {
    TrimRenderedEscaped(s);
    var t := TrimMatches(Render(Str(s)), '\"');
    assert '\\' !in "true" && '\\' !in "false";
    assert t != "true" && t != "false";
    assert Plain("true") && Plain("false");
  }

  /** The url of a listed webhook, as the code reads it. */
  function ListedUrl(v: Value): string
  {
    RemoveChar(Render(Get(v, "url")), '\"')
  }

  /** One webhook of the listing: `uuid` keeps its raw rendering, the
      timestamps and links lose every '"', and `events` must be an array of
      strings (anything else is a panic). */
  function WebhookFromJson(v: Value): (r: Outcome<Webhook>)
    ensures r.Panicked? <==>
              !Get(v, "events").Array? ||
              exists i :: 0 <= i < |Get(v, "events").items| && !Get(v, "events").items[i].Str?
    ensures r.Returned? ==>
              var events := Get(v, "events").items;
              && r.value.uuid == Render(Get(v, "uuid"))
              && r.value.active == ActiveFlag(Get(v, "active"))
              && r.value.createdAt == RemoveChar(Render(Get(v, "created_at")), '\"')
              && r.value.selfHref == RemoveChar(Render(Get(Get(Get(v, "links"), "self"), "href")), '\"')
              && r.value.url == ListedUrl(v)
              && |r.value.events| == |events|
              && forall i :: 0 <= i < |events| ==> Str(r.value.events[i]) == events[i]
  {
    var events := Get(v, "events");
    if !events.Array? || exists i :: 0 <= i < |events.items| && !events.items[i].Str? then Panicked
    else
      Returned(Webhook(
        Render(Get(v, "uuid")),
        ActiveFlag(Get(v, "active")),
        RemoveChar(Render(Get(v, "created_at")), '\"'),
        seq(|events.items|, i requires 0 <= i < |events.items| => events.items[i].s),
        RemoveChar(Render(Get(Get(Get(v, "links"), "self"), "href")), '\"'),
        ListedUrl(v)))
  }

  /** No '"' survives in the stripped fields, and a plain url comes back
      exactly as the provider holds it. */
  lemma WebhookFieldsStripped(v: Value)
    requires WebhookFromJson(v).Returned?
    ensures '\"' !in WebhookFromJson(v).value.createdAt
    ensures '\"' !in WebhookFromJson(v).value.selfHref
    ensures '\"' !in WebhookFromJson(v).value.url
    ensures Get(v, "url").Str? && Plain(Get(v, "url").s) ==> WebhookFromJson(v).value.url == Get(v, "url").s
  {
    RemoveCharRemovesAll(Render(Get(v, "created_at")), '\"');
    RemoveCharRemovesAll(Render(Get(Get(Get(v, "links"), "self"), "href")), '\"');
    RemoveCharRemovesAll(Render(Get(v, "url")), '\"');
    if Get(v, "url").Str? && Plain(Get(v, "url").s) {
      StripRenderedPlain(Get(v, "url").s);
    }
  }

  /** The whole listing: one webhook per entry, or a panic if any entry
      panics. */
  function WebhooksFromJson(values: seq<Value>): Outcome<seq<Webhook>>
  {
    if |values| == 0 then Returned([])
    else
      match (WebhooksFromJson(values[..|values| - 1]), WebhookFromJson(values[|values| - 1]))
      case (Returned(hooks), Returned(hook)) => Returned(hooks + [hook])
      case _ => Panicked
  }

  /** The listing panics exactly when one of its entries does. */
  lemma {:induction false} WebhooksPanicIff(values: seq<Value>)
    ensures WebhooksFromJson(values).Panicked? <==>
              exists i :: 0 <= i < |values| && WebhookFromJson(values[i]).Panicked?
  {
    if |values| > 0 {
      var init := values[..|values| - 1];
      WebhooksPanicIff(init);
      if WebhooksFromJson(init).Panicked? {
        var i :| 0 <= i < |init| && WebhookFromJson(init[i]).Panicked?;
        assert values[i] == init[i];
      }
      if exists i :: 0 <= i < |values| && WebhookFromJson(values[i]).Panicked? {
        var i :| 0 <= i < |values| && WebhookFromJson(values[i]).Panicked?;
        if i < |values| - 1 {
          assert init[i] == values[i];
        }
      }
    }
  }

  /** Otherwise there is one webhook per entry, in order. */
  lemma {:induction false} WebhooksInOrder(values: seq<Value>)
    requires WebhooksFromJson(values).Returned?
    ensures |WebhooksFromJson(values).value| == |values|
    ensures forall i :: 0 <= i < |values| ==>
              WebhookFromJson(values[i]) == Returned(WebhooksFromJson(values).value[i])
  {
    if |values| > 0 {
      var init := values[..|values| - 1];
      WebhooksInOrder(init);
      var hooks := WebhooksFromJson(values).value;
      assert hooks == WebhooksFromJson(init).value + [WebhookFromJson(values[|values| - 1]).value];
      forall i | 0 <= i < |values|
        ensures WebhookFromJson(values[i]) == Returned(hooks[i])
      {
        if i < |values| - 1 {
          assert init[i] == values[i];
        }
      }
    }
  }

  /** `get_webhooks_in_repo` on the entries the paginated listing returned:
      the loop pushes one webhook per entry, in order. */
  method GetWebhooksInRepo(values: seq<Value>) returns (r: Outcome<seq<Webhook>>)
    ensures r == WebhooksFromJson(values)
  {
    var hooks: seq<Webhook> := [];
    var i := 0;
    while i < |values|
      invariant 0 <= i <= |values|
      invariant WebhooksFromJson(values[..i]) == Returned(hooks)
    {
      assert values[..i + 1][..i] == values[..i];
      var hook := WebhookFromJson(values[i]);
      if hook.Panicked? {
        WebhooksPanicIff(values);
        return Panicked;
      }
      hooks := hooks + [hook.value];
      i := i + 1;
    }
    assert values[..i] == values;
    r := Returned(hooks);
  }

  // -------------------------------------------------------- adding a webhook

  /** The JSON body of the create request (serde_json's map lists its keys
      in sorted order). */
  function AddWebhookPayload(serverUrl: string): Value
  {
    Object([
      Member("active", Bool(true)),
      Member("description", Str(DESCRIPTION)),
      Member("events", Array([Str(PR_CREATED), Str(PR_UPDATED)])),
      Member("url", Str(CallbackUrl(serverUrl)))])
  }

  /** The payload asks for an active hook on the two pull-request events,
      calling back at the url the reconciliation looks for. */
  lemma AddWebhookPayloadFields(serverUrl: string)
    ensures Get(AddWebhookPayload(serverUrl), "url") == Str(CallbackUrl(serverUrl))
    ensures Get(AddWebhookPayload(serverUrl), "active") == Bool(true)
    ensures Get(AddWebhookPayload(serverUrl), "events") == Array([Str(PR_CREATED), Str(PR_UPDATED)])
    ensures Get(AddWebhookPayload(serverUrl), "description") == Str(DESCRIPTION)
  {
    var m := AddWebhookPayload(serverUrl).members;
    assert m[0].key == "active" && m[1..][0].key == "description";
    assert m[1..][1..][0].key == "events" && m[1..][1..][1..][0].key == "url";
    assert "active"[0] != "url"[0] && "active"[0] != "events"[0] && "active"[0] != "description"[0];
    assert "description"[0] != "url"[0] && "description"[0] != "events"[0];
    assert "events"[0] != "url"[0];
    assert Lookup(m, "description") == Lookup(m[1..], "description");
    assert Lookup(m, "events") == Lookup(m[1..], "events") == Lookup(m[1..][1..], "events");
    assert Lookup(m, "url") == Lookup(m[1..], "url") == Lookup(m[1..][1..], "url") == Lookup(m[1..][1..][1..], "url");
  }

  /** The provider's answer to the create request, as it deserialises. */
  datatype WebhookResponse = WebhookResponse(
    uuid: string,
    active: bool,
    createdAt: string,
    events: seq<string>,
    links: map<string, map<string, string>>,
    url: string)

  datatype AddReply =
    | AddSendFailed
    | AddReceived(status: int, parsed: Option<WebhookResponse>)

  /** What `process_add_webhook_response` hands to the store: nothing
      unless the request was sent, succeeded and parsed; then the fields of
      the answer (a missing `links.self.href` is a panic). */
  function AddResponseRecord(reply: AddReply): (r: Outcome<Option<Webhook>>)
    ensures reply.AddSendFailed? || !IsSuccess(reply.status) || reply.parsed.None? ==> r == Returned(None)
    ensures reply.AddReceived? && IsSuccess(reply.status) && reply.parsed.Some? ==>
              var resp := reply.parsed.value;
              if "self" in resp.links && "href" in resp.links["self"] then
                r == Returned(Some(Webhook(resp.uuid, resp.active, resp.createdAt, resp.events,
                                           resp.links["self"]["href"], resp.url)))
              else r == Panicked
  {
    if reply.AddSendFailed? || !IsSuccess(reply.status) || reply.parsed.None? then Returned(None)
    else
      var resp := reply.parsed.value;
      if "self" in resp.links && "href" in resp.links["self"] then
        Returned(Some(Webhook(resp.uuid, resp.active, resp.createdAt, resp.events, resp.links["self"]["href"], resp.url)))
      else Panicked
  }

  /** `process_add_webhook_response`: saves the record above, if any. */
  method ProcessAddWebhookResponse(db: KvStore, reply: AddReply, fault: WriteFault) returns (r: Outcome<()>)
    modifies db
    ensures r.Panicked? <==> AddResponseRecord(reply).Panicked?
    ensures AddResponseRecord(reply).Returned? && AddResponseRecord(reply).value.Some? ==>
              SavedOnce(old(db.entries), db.entries, AddResponseRecord(reply).value.value, fault)
    ensures !(AddResponseRecord(reply).Returned? && AddResponseRecord(reply).value.Some?) ==>
              db.entries == old(db.entries)
  {
    var record := AddResponseRecord(reply);
    match record
    case Panicked => r := Panicked;
    case Returned(None) => r := Returned(());
    case Returned(Some(hook)) =>
      SaveWebhook(db, hook, fault);
      r := Returned(());
  }

  /** `add_webhook`: nothing is sent when the auth headers cannot be
      built; then a missing SERVER_URL panics; otherwise the payload above
      is sent and the answer processed. */
  method AddWebhook(db: KvStore, serverUrl: Option<string>, headersOk: bool, reply: AddReply, fault: WriteFault)
    returns (sent: Option<Value>, r: Outcome<()>)
    modifies db
    ensures !headersOk ==> sent.None? && r == Returned(()) && db.entries == old(db.entries)
    ensures headersOk && serverUrl.None? ==> sent.None? && r == Panicked && db.entries == old(db.entries)
    ensures headersOk && serverUrl.Some? ==>
              sent == Some(AddWebhookPayload(serverUrl.value)) &&
              (r.Panicked? <==> AddResponseRecord(reply).Panicked?)
    ensures headersOk && serverUrl.Some? && AddResponseRecord(reply).Returned? && AddResponseRecord(reply).value.Some? ==>
              SavedOnce(old(db.entries), db.entries, AddResponseRecord(reply).value.value, fault)
    ensures !(headersOk && serverUrl.Some? && AddResponseRecord(reply).Returned? && AddResponseRecord(reply).value.Some?) ==>
              db.entries == old(db.entries)
  {
    if !headersOk {
      return None, Returned(());
    }
    if serverUrl.None? {
      return None, Panicked;
    }
    var payload := AddWebhookPayload(serverUrl.value);
    sent := Some(payload);
    r := ProcessAddWebhookResponse(db, reply, fault);
  }
}
