/**
 * The webhook service (backend/services/webhook_service.py): validation of
 * created and updated webhooks, toggling, and delivery with its outcome
 * accounting. The webhook table is a store class; JSON, HMAC-SHA256, the
 * clock's ISO text and the HTTP client are parameters.
 */
module WebhookService {
  import opened Wrappers
  import opened Values
  import opened Text
  import opened Webhooks

  /** json.dumps. */
  type Encoder = Value -> string

  /** `EVENTS`: the supported event types and their display names. */
  function EventName(event: string): Option<string> {
    if event == "task_completed" then Some("任务执行完成")
    else if event == "task_failed" then Some("任务执行失败")
    else if event == "data_generated" then Some("数据生成完成")
    else if event == "datasource_connected" then Some("数据源连接成功")
    else if event == "datasource_failed" then Some("数据源连接失败")
    else if event == "template_created" then Some("模板创建")
    else if event == "api_key_created" then Some("API密钥创建")
    else if event == "api_key_used" then Some("API密钥使用")
    else None
  }

  /** The first event that is not supported. */
  function FirstUnsupported(events: seq<string>): (r: Option<string>)
    ensures r.Some? ==> r.value in events && EventName(r.value).None?
    ensures r.None? <==> forall e :: e in events ==> EventName(e).Some?
  {
    if events == [] then None
    else if EventName(events[0]).None? then Some(events[0])
    else FirstUnsupported(events[1..])
  }

  const UrlError := "URL 必须以 http:// 或 https:// 开头"
  const NotFound := "Webhook 不存在"

  function UnsupportedError(event: string): string {
    "不支持的事件类型: " + event
  }

  predicate HttpUrl(url: string) {
    StartsWith(url, "http://") || StartsWith(url, "https://")
  }

  /** The events as the JSON list `set_events` stores. */
  function EventList(events: seq<string>): Value {
    List(seq(|events|, i requires 0 <= i < |events| => Str(events[i])))
  }

  /** The guards of `create_webhook`: the events first, then the URL. */
  function CreateError(events: seq<string>, url: string): (err: Option<string>)
    ensures err.None? <==> (forall e :: e in events ==> EventName(e).Some?) && HttpUrl(url)
    ensures FirstUnsupported(events).Some? ==> err == Some(UnsupportedError(FirstUnsupported(events).value))
    ensures FirstUnsupported(events).None? && !HttpUrl(url) ==> err == Some(UrlError)
  {
    match FirstUnsupported(events)
    case Some(e) => Some(UnsupportedError(e))
    case None => if HttpUrl(url) then None else Some(UrlError)
  }

  /** The arguments of `create_webhook`. */
  datatype NewWebhook = NewWebhook(
    userId: int,
    name: string,
    url: string,
    events: seq<string>,
    description: Option<string>,
    httpMethod: string,
    headers: Value,
    secret: Option<string>)

  /** The row `create_webhook` saves: active, no deliveries yet, the method upper-cased, headers kept only when given. */
  function Created(u: string, w: NewWebhook, encode: Encoder): Hook {
    Hook(u, w.userId, w.name, w.url, w.description, encode(EventList(w.events)), Upper(w.httpMethod),
         if Truthy(w.headers) then encode(w.headers) else "{}", w.secret, true, None, None, None, 0, 0, 0)
  }

  /** The keys `update_webhook` may be given; None is an absent key. */
  datatype HookChanges = HookChanges(
    name: Option<string>,
    url: Option<string>,
    description: Option<Option<string>>,
    events: Option<seq<string>>,
    httpMethod: Option<string>,
    headers: Option<Value>,
    secret: Option<Option<string>>,
    isActive: Option<bool>)

  /** The guards of `update_webhook` after the lookup: the URL first, then the events. */
  function UpdateError(c: HookChanges): (err: Option<string>)
    ensures err.None? <==> (c.url.Some? ==> HttpUrl(c.url.value))
                           && (c.events.Some? ==> forall e :: e in c.events.value ==> EventName(e).Some?)
  {
    if c.url.Some? && !HttpUrl(c.url.value) then Some(UrlError)
    else if c.events.Some? && FirstUnsupported(c.events.value).Some? then Some(UnsupportedError(FirstUnsupported(c.events.value).value))
    else None
  }

  function Pick<T>(o: Option<T>, old_: T): T {
    if o.Some? then o.value else old_
  }

  /** The row after `update_webhook` assigns the keys it was given. */
  function Changed(h: Hook, c: HookChanges, encode: Encoder): Hook {
    h.(name := Pick(c.name, h.name),
       url := Pick(c.url, h.url),
       description := Pick(c.description, h.description),
       events := if c.events.Some? then encode(EventList(c.events.value)) else h.events,
       httpMethod := if c.httpMethod.Some? then Upper(c.httpMethod.value) else h.httpMethod,
       headers := if c.headers.Some? then encode(c.headers.value) else h.headers,
       secret := Pick(c.secret, h.secret),
       isActive := Pick(c.isActive, h.isActive))
  }

  /** An update never touches identity, ownership or the delivery accounting, and applying it twice is applying it once. */
  lemma ChangedKeepsAccounting(h: Hook, c: HookChanges, encode: Encoder)
    ensures var r := Changed(h, c, encode);
            r.uuid == h.uuid && r.userId == h.userId
            && r.triggerCount == h.triggerCount && r.successCount == h.successCount && r.failCount == h.failCount
            && r.lastTriggeredAt == h.lastTriggeredAt && r.lastStatus == h.lastStatus && r.lastError == h.lastError
    ensures Changed(Changed(h, c, encode), c, encode) == Changed(h, c, encode)
  {
  }

  /** A key that is absent leaves its column alone; a present one sets it. */
  lemma ChangedOnlyPresent(h: Hook, c: HookChanges, encode: Encoder)
    ensures var r := Changed(h, c, encode);
            (c.name.None? ==> r.name == h.name) && (c.url.None? ==> r.url == h.url)
            && (c.description.None? ==> r.description == h.description) && (c.events.None? ==> r.events == h.events)
            && (c.httpMethod.None? ==> r.httpMethod == h.httpMethod) && (c.headers.None? ==> r.headers == h.headers)
            && (c.secret.None? ==> r.secret == h.secret) && (c.isActive.None? ==> r.isActive == h.isActive)
    ensures c == HookChanges(None, None, None, None, None, None, None, None) ==> Changed(h, c, encode) == h
  {
  }

  /** `toggle_webhook`'s change of the row. */
  function Toggled(h: Hook): (r: Hook)
    ensures r.isActive == !h.isActive && r == h.(isActive := r.isActive)
  {
    h.(isActive := !h.isActive)
  }

  /** Two toggles restore the row. */
  lemma ToggleTwice(h: Hook)
    ensures Toggled(Toggled(h)) == h
  {
  }

  // ---------------------------------------------------------------- delivery

  /** The HTTP client's answer: a status code, a timeout, or another request error with its text. */
  datatype Delivery = Responded(statusCode: int) | TimedOut | Failed(message: string)

  /** The request `trigger_webhook` sends: GET with the payload as parameters, otherwise POST with the JSON text as body. */
  datatype Request = Request(verb: string, url: string, headers: Record, params: Option<Value>, body: Option<string>)

  /** What the service takes from its environment. */
  datatype Net = Net(decode: Decoder, encode: Encoder, hmac: (string, string) -> string, send: Request -> Delivery)

  /** The delivery's outcome: success exactly for a 2xx status (section 15.3 of RFC 9110), and the message reported. */
  function Outcome(d: Delivery): (r: (bool, string))
    ensures r.0 <==> d.Responded? && 200 <= d.statusCode < 300
    ensures d.Responded? ==> r.1 == "HTTP " + IntToDecimal(d.statusCode)
    ensures d.TimedOut? ==> r.1 == "请求超时"
  {
    match d
    case Responded(code) => (200 <= code < 300, "HTTP " + IntToDecimal(code))
    case TimedOut => (false, "请求超时")
    case Failed(m) => (false, m)
  }

  /** The TypeError of `headers['k'] = v` on a decoded column that is not a dict. */
  function NotAssignable(v: Value): string {
    if v.List? then "list indices must be integers or slices, not str"
    else "'" + TypeName(v) + "' object does not support item assignment"
  }

  /** The request headers: the stored ones, then Content-Type, the signature when a secret is set, and the timestamp. */
  function OutgoingHeaders(stored: Value, signature: Option<string>, stamp: string): Result<Record> {
    if !stored.Dict? then Err(NotAssignable(stored))
    else
      var typed := Put(stored.entries, "Content-Type", Str("application/json"));
      var signed := if signature.Some? then Put(typed, "X-Webhook-Signature", Str(signature.value)) else typed;
      Ok(Put(signed, "X-Webhook-Timestamp", Str(stamp)))
  }

  /** A stored dict always gets Content-Type and the timestamp, the signature exactly when one is given, and keeps its other headers. */
  lemma OutgoingHeadersShape(stored: Value, signature: Option<string>, stamp: string, k: string)
    requires stored.Dict?
    ensures OutgoingHeaders(stored, signature, stamp).Ok?
    ensures var hs := OutgoingHeaders(stored, signature, stamp).value;
            Get(hs, "Content-Type") == Some(Str("application/json"))
            && Get(hs, "X-Webhook-Timestamp") == Some(Str(stamp))
            && (signature.Some? ==> Get(hs, "X-Webhook-Signature") == Some(Str(signature.value)))
            && (signature.None? ==> Get(hs, "X-Webhook-Signature") == Get(stored.entries, "X-Webhook-Signature"))
            && (k !in ["Content-Type", "X-Webhook-Signature", "X-Webhook-Timestamp"] ==> Get(hs, k) == Get(stored.entries, k))
  {
    var typed := Put(stored.entries, "Content-Type", Str("application/json"));
    var signed := if signature.Some? then Put(typed, "X-Webhook-Signature", Str(signature.value)) else typed;
    GetPut(stored.entries, "Content-Type", Str("application/json"), k);
    GetPut(stored.entries, "Content-Type", Str("application/json"), "Content-Type");
    GetPut(stored.entries, "Content-Type", Str("application/json"), "X-Webhook-Signature");
    if signature.Some? {
      GetPut(typed, "X-Webhook-Signature", Str(signature.value), k);
      GetPut(typed, "X-Webhook-Signature", Str(signature.value), "Content-Type");
      GetPut(typed, "X-Webhook-Signature", Str(signature.value), "X-Webhook-Signature");
    }
    GetPut(signed, "X-Webhook-Timestamp", Str(stamp), k);
    GetPut(signed, "X-Webhook-Timestamp", Str(stamp), "Content-Type");
    GetPut(signed, "X-Webhook-Timestamp", Str(stamp), "X-Webhook-Signature");
    GetPut(signed, "X-Webhook-Timestamp", Str(stamp), "X-Webhook-Timestamp");
  }

  /** The request built for one webhook; the signature is the HMAC of the JSON text under the secret, when the secret is not empty. */
  function BuildRequest(h: Hook, payload: Value, net: Net, stamp: string): Result<Request> {
    var text := net.encode(payload);
    var signature := if h.secret.Some? && h.secret.value != "" then Some(net.hmac(h.secret.value, text)) else None;
    var headers :- OutgoingHeaders(Headers(h, net.decode), signature, stamp);
    if h.httpMethod == "GET" then Ok(Request("GET", h.url, headers, Some(payload), None))
    else Ok(Request("POST", h.url, headers, None, Some(text)))
  }

  /** What `trigger_webhook` returns for a row: the outcome of sending its request. */
  function Delivered(h: Hook, payload: Value, net: Net, stamp: string): Result<(bool, string)> {
    var request :- BuildRequest(h, payload, net, stamp);
    Ok(Outcome(net.send(request)))
  }

  /** The row after `record_trigger` books a delivery's outcome (the message is the error of a failure); a delivery that raised books nothing. */
  function Booked(h: Hook, outcome: Result<(bool, string)>, now: int): Hook {
    if outcome.Err? then h
    else RecordTrigger(h, outcome.value.0, if outcome.value.0 then None else Some(outcome.value.1), now)
  }

  /** The delivery of one payload, as a value. */
  type Deliver = Hook -> Result<(bool, string)>

  function Deliverer(payload: Value, net: Net, stamp: string): Deliver {
    h => Delivered(h, payload, net, stamp)
  }

  /** One entry of `trigger_event`'s result list. */
  datatype EventResult = EventResult(webhookId: string, webhookName: string, success: bool, message: string)

  /** The payload `trigger_event` sends: the event, its display name (the event itself when unknown), the time and the data. */
  function EventPayload(event: string, data: Value, stamp: string): Value {
    Dict([("event", Str(event)), ("event_name", Str(EventName(event).GetOr(event))), ("timestamp", Str(stamp)), ("data", data)])
  }

  /** The results for the webhooks at the given positions, in order; the first delivery that raises ends the list. */
  function EventResults(hooks: seq<Hook>, ps: seq<nat>, deliver: Deliver): Result<seq<EventResult>>
    requires forall k :: 0 <= k < |ps| ==> ps[k] < |hooks|
  {
    if ps == [] then Ok([])
    else
      var done :- EventResults(hooks, ps[..|ps| - 1], deliver);
      var h := hooks[ps[|ps| - 1]];
      var o :- deliver(h);
      Ok(done + [EventResult(h.uuid, h.name, o.0, o.1)])
  }

  lemma {:induction false} EventResultsErrStays(hooks: seq<Hook>, ps: seq<nat>, deliver: Deliver, i: nat)
    requires forall k :: 0 <= k < |ps| ==> ps[k] < |hooks|
    requires i <= |ps| && EventResults(hooks, ps[..i], deliver).Err?
    ensures EventResults(hooks, ps, deliver) == EventResults(hooks, ps[..i], deliver)
    decreases |ps| - i
  {
    if i < |ps| {
      assert ps[..i + 1][..i] == ps[..i];
      EventResultsErrStays(hooks, ps, deliver, i + 1);
    } else {
      assert ps[..i] == ps;
    }
  }

  lemma EventResultsStep(hooks: seq<Hook>, ps: seq<nat>, deliver: Deliver, k: nat, rs: seq<EventResult>)
    requires forall k :: 0 <= k < |ps| ==> ps[k] < |hooks|
    requires k < |ps| && EventResults(hooks, ps[..k], deliver) == Ok(rs) && deliver(hooks[ps[k]]).Ok?
    ensures var h := hooks[ps[k]];
            EventResults(hooks, ps[..k + 1], deliver) == Ok(rs + [EventResult(h.uuid, h.name, deliver(h).value.0, deliver(h).value.1)])
  {
    assert ps[..k + 1][..k] == ps[..k];
  }

  /** Exactly one result per listed webhook, in order, naming it and carrying its delivery's outcome. */
  lemma {:induction false} EventResultsOnePerWebhook(hooks: seq<Hook>, ps: seq<nat>, deliver: Deliver)
    requires forall k :: 0 <= k < |ps| ==> ps[k] < |hooks|
    requires EventResults(hooks, ps, deliver).Ok?
    ensures var rs := EventResults(hooks, ps, deliver).value;
            |rs| == |ps|
            && forall k :: 0 <= k < |ps| ==>
                 deliver(hooks[ps[k]]).Ok?
                 && rs[k] == EventResult(hooks[ps[k]].uuid, hooks[ps[k]].name, deliver(hooks[ps[k]]).value.0, deliver(hooks[ps[k]]).value.1)
  {
    if ps != [] {
      var init := ps[..|ps| - 1];
      EventResultsOnePerWebhook(hooks, init, deliver);
      assert forall k :: 0 <= k < |init| ==> init[k] == ps[k];
    }
  }

  /** The webhook table. */
  class WebhookStore {
    var hooks: seq<Hook>

    constructor(hooks: seq<Hook>)
      ensures this.hooks == hooks
    {
      this.hooks := hooks;
    }

    /** `get_webhook`: the row with this uuid (the first, as `.first()` takes it), if it is the user's. */
    function Find(id: string, userId: int): (r: Option<nat>)
      reads this
      ensures r.Some? ==> r.value < |hooks| && hooks[r.value].uuid == id && hooks[r.value].userId == userId
                          && forall j :: 0 <= j < r.value ==> hooks[j].uuid != id
      ensures r.None? ==> forall j :: 0 <= j < |hooks| && hooks[j].uuid == id ==>
                            exists i :: 0 <= i <= j && hooks[i].uuid == id && hooks[i].userId != userId
    {
      FindIn(hooks, id, userId, 0)
    }

    /** `create_webhook`: the guards, then one new row at the end. */
    method CreateWebhook(w: NewWebhook, newUuid: string, encode: Encoder) returns (r: Result<Hook>)
      modifies this
      ensures r.Err? <==> CreateError(w.events, w.url).Some?
      ensures r.Err? ==> r.error == CreateError(w.events, w.url).value && hooks == old(hooks)
      ensures r.Ok? ==> r.value == Created(newUuid, w, encode) && hooks == old(hooks) + [r.value]
    {
      var i := 0;
      while i < |w.events|
        invariant 0 <= i <= |w.events|
        invariant FirstUnsupported(w.events) == FirstUnsupported(w.events[i..])
      {
        assert w.events[i..][1..] == w.events[i + 1..];
        if EventName(w.events[i]).None? {
          return Err(UnsupportedError(w.events[i]));
        }
        i := i + 1;
      }
      if !HttpUrl(w.url) {
        return Err(UrlError);
      }
      var h := Created(newUuid, w, encode);
      hooks := hooks + [h];
      r := Ok(h);
    }

    /** `update_webhook`: the lookup and the guards, then the given keys assigned to that row alone. */
    method UpdateWebhook(id: string, userId: int, c: HookChanges, encode: Encoder) returns (r: Result<Hook>)
      modifies this
      ensures old(Find(id, userId)).None? ==> r == Err(NotFound) && hooks == old(hooks)
      ensures old(Find(id, userId)).Some? && UpdateError(c).Some? ==> r == Err(UpdateError(c).value) && hooks == old(hooks)
      ensures old(Find(id, userId)).Some? && UpdateError(c).None? ==>
                var i := old(Find(id, userId)).value;
                r == Ok(Changed(old(hooks[i]), c, encode)) && hooks == old(hooks)[i := r.value]
    {
      var found := Find(id, userId);
      if found.None? {
        return Err(NotFound);
      }
      var err := UpdateError(c);
      if err.Some? {
        return Err(err.value);
      }
      var i := found.value;
      var h := Changed(hooks[i], c, encode);
      hooks := hooks[i := h];
      r := Ok(h);
    }

    /** `delete_webhook`: the row is removed. */
    method DeleteWebhook(id: string, userId: int) returns (ok: bool, message: string)
      modifies this
      ensures old(Find(id, userId)).None? ==> !ok && message == NotFound && hooks == old(hooks)
      ensures old(Find(id, userId)).Some? ==>
                var i := old(Find(id, userId)).value;
                ok && message == "Webhook 已删除" && hooks == old(hooks[..i] + hooks[i + 1..])
    {
      var found := Find(id, userId);
      if found.None? {
        return false, NotFound;
      }
      var i := found.value;
      hooks := hooks[..i] + hooks[i + 1..];
      return true, "Webhook 已删除";
    }

    /** `toggle_webhook`: the row's `is_active` is flipped. */
    method ToggleWebhook(id: string, userId: int) returns (r: Result<Hook>)
      modifies this
      ensures old(Find(id, userId)).None? ==> r == Err(NotFound) && hooks == old(hooks)
      ensures old(Find(id, userId)).Some? ==>
                var i := old(Find(id, userId)).value;
                r == Ok(Toggled(old(hooks[i]))) && hooks == old(hooks)[i := r.value]
    {
      var found := Find(id, userId);
      if found.None? {
        return Err(NotFound);
      }
      var i := found.value;
      var h := hooks[i].(isActive := !hooks[i].isActive);
      hooks := hooks[i := h];
      r := Ok(h);
    }

    /** `trigger_webhook` on row i: the outcome is returned and booked on the row; a delivery that raises books nothing. */
    method TriggerWebhook(i: nat, payload: Value, net: Net, stamp: string, now: int) returns (r: Result<(bool, string)>)
      requires i < |hooks|
      modifies this
      ensures r == Delivered(old(hooks[i]), payload, net, stamp)
      ensures hooks == old(hooks)[i := Booked(old(hooks[i]), r, now)]
    {
      var request := BuildRequest(hooks[i], payload, net, stamp);
      if request.Err? {
        return Err(request.error);
      }
      var outcome := Outcome(net.send(request.value));
      hooks := hooks[i := RecordTrigger(hooks[i], outcome.0, if outcome.0 then None else Some(outcome.1), now)];
      r := Ok(outcome);
    }

    /**
     * `trigger_event`: every active webhook of the user that listens to the
     * event is triggered in table order, one result each; each listed row
     * books its outcome and no other row changes.
     */
    method TriggerEvent(userId: int, event: string, data: Value, net: Net, stamp: string, now: int)
      returns (r: Result<seq<EventResult>>)
      modifies this
      ensures var listed := ActiveFor(old(hooks), Listener(userId, event, net.decode));
              (listed.Err? ==> r == Err(listed.error) && hooks == old(hooks))
              && (listed.Ok? ==>
                    (forall k :: 0 <= k < |listed.value| ==> listed.value[k] < |old(hooks)|)
                    && r == EventResults(old(hooks), listed.value, Deliverer(EventPayload(event, data, stamp), net, stamp)))
      ensures r.Ok? ==>
                var ps := ActiveFor(old(hooks), Listener(userId, event, net.decode)).value;
                var deliver := Deliverer(EventPayload(event, data, stamp), net, stamp);
                |hooks| == |old(hooks)|
                && forall j :: 0 <= j < |hooks| ==> hooks[j] == if j in ps then Booked(old(hooks[j]), deliver(old(hooks[j])), now) else old(hooks[j])
    {
      var listed := ActiveFor(hooks, Listener(userId, event, net.decode));
      if listed.Err? {
        return Err(listed.error);
      }
      ActiveForExactly(hooks, Listener(userId, event, net.decode));
      r := TriggerAll(listed.value, Deliverer(EventPayload(event, data, stamp), net, stamp), now);
    }

    /** The loop of `trigger_event`: `trigger_webhook` on each listed row in turn, collecting one result per row. */
    method TriggerAll(ps: seq<nat>, deliver: Deliver, now: int) returns (r: Result<seq<EventResult>>)
      requires forall k :: 0 <= k < |ps| ==> ps[k] < |hooks|
      requires forall a, b :: 0 <= a < b < |ps| ==> ps[a] < ps[b]
      modifies this
      ensures r == EventResults(old(hooks), ps, deliver)
      ensures r.Ok? ==>
                |hooks| == |old(hooks)|
                && forall j :: 0 <= j < |hooks| ==> hooks[j] == if j in ps then Booked(old(hooks[j]), deliver(old(hooks[j])), now) else old(hooks[j])
    {
      ghost var before := hooks;
      var results: seq<EventResult> := [];
      var k := 0;
      while k < |ps|
        invariant 0 <= k <= |ps| && |hooks| == |before|
        invariant EventResults(before, ps[..k], deliver) == Ok(results)
        invariant forall j :: 0 <= j < |hooks| ==> hooks[j] == if j in ps[..k] then Booked(before[j], deliver(before[j]), now) else before[j]
      {
        var p := ps[k];
        assert p !in ps[..k];
        var outcome := deliver(hooks[p]);
        if outcome.Err? {
          assert ps[..k + 1][..k] == ps[..k];
          EventResultsErrStays(before, ps, deliver, k + 1);
          return Err(outcome.error);
        }
        EventResultsStep(before, ps, deliver, k, results);
        results := results + [EventResult(hooks[p].uuid, hooks[p].name, outcome.value.0, outcome.value.1)];
        hooks := hooks[p := Booked(hooks[p], outcome, now)];
        assert forall j :: j in ps[..k + 1] <==> j in ps[..k] || j == p;
        k := k + 1;
      }
      assert ps[..|ps|] == ps;
      r := Ok(results);
    }
  }

  /** The first position from i on with this uuid, if it is the user's. */
  function FindIn(hooks: seq<Hook>, id: string, userId: int, i: nat): (r: Option<nat>)
    requires i <= |hooks|
    requires forall j :: 0 <= j < i ==> hooks[j].uuid != id
    ensures r.Some? ==> i <= r.value < |hooks| && hooks[r.value].uuid == id && hooks[r.value].userId == userId
                        && forall j :: 0 <= j < r.value ==> hooks[j].uuid != id
    ensures r.None? ==> forall j :: 0 <= j < |hooks| && hooks[j].uuid == id ==>
                          exists i' :: 0 <= i' <= j && hooks[i'].uuid == id && hooks[i'].userId != userId
    decreases |hooks| - i
  {
    if i == |hooks| then None
    else if hooks[i].uuid == id then (if hooks[i].userId == userId then Some(i) else None)
    else FindIn(hooks, id, userId, i + 1)
  }
}
