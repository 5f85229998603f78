/**
 * The webhook row (backend/models/webhook.py): its trigger accounting, the
 * fallbacks of its JSON-typed columns and the per-event filter. Times are
 * integers on one clock; the JSON decoder is a parameter.
 */
module Webhooks {
  import opened Wrappers
  import opened Values

  /** The JSON text decoder (json.loads); None stands for a decoding error. */
  type Decoder = string -> Option<Value>

  datatype Hook = Hook(
    uuid: string,
    userId: int,
    name: string,
    url: string,
    description: Option<string>,
    events: string,
    httpMethod: string,
    headers: string,
    secret: Option<string>,
    isActive: bool,
    lastTriggeredAt: Option<int>,
    lastStatus: Option<string>,
    lastError: Option<string>,
    triggerCount: int,
    successCount: int,
    failCount: int)

  /** `get_events`: the decoded list, or [] when the column is empty or does not decode. */
  function Events(h: Hook, decode: Decoder): (v: Value)
    ensures h.events == "" || decode(h.events).None? ==> v == List([])
    ensures h.events != "" && decode(h.events).Some? ==> v == decode(h.events).value
  {
    if h.events == "" then List([]) else decode(h.events).GetOr(List([]))
  }

  /** `get_headers`: the decoded dict, or {} when the column is empty or does not decode. */
  function Headers(h: Hook, decode: Decoder): (v: Value)
    ensures h.headers == "" || decode(h.headers).None? ==> v == Dict([])
    ensures h.headers != "" && decode(h.headers).Some? ==> v == decode(h.headers).value
  {
    if h.headers == "" then Dict([]) else decode(h.headers).GetOr(Dict([]))
  }

  /** `record_trigger`: one more delivery at time `now`, counted as a success or a failure. */
  function RecordTrigger(h: Hook, success: bool, error: Option<string>, now: int): (r: Hook)
    ensures r.triggerCount == h.triggerCount + 1 && r.lastTriggeredAt == Some(now)
    ensures success ==> r.successCount == h.successCount + 1 && r.failCount == h.failCount
                        && r.lastStatus == Some("success") && r.lastError == None
    ensures !success ==> r.failCount == h.failCount + 1 && r.successCount == h.successCount
                         && r.lastStatus == Some("failed") && r.lastError == error
    ensures r == h.(triggerCount := r.triggerCount, successCount := r.successCount, failCount := r.failCount,
                    lastTriggeredAt := r.lastTriggeredAt, lastStatus := r.lastStatus, lastError := r.lastError)
  {
    var counted := h.(lastTriggeredAt := Some(now), triggerCount := h.triggerCount + 1);
    if success then counted.(lastStatus := Some("success"), successCount := h.successCount + 1, lastError := None)
    else counted.(lastStatus := Some("failed"), failCount := h.failCount + 1, lastError := error)
  }

  /** Deliveries neither counted as successes nor as failures. */
  function Uncounted(h: Hook): int {
    h.triggerCount - h.successCount - h.failCount
  }

  /** Every delivery is counted once, as a success or as a failure: the uncounted difference never moves. */
  lemma RecordTriggerKeepsBalance(h: Hook, success: bool, error: Option<string>, now: int)
    ensures Uncounted(RecordTrigger(h, success, error, now)) == Uncounted(h)
    ensures Uncounted(h) == 0 ==>
              (RecordTrigger(h, success, error, now).triggerCount
               == RecordTrigger(h, success, error, now).successCount + RecordTrigger(h, success, error, now).failCount)
  {
  }

  /** Whether the webhook is the user's, active, and listens to the event (`event in w.get_events()`). */
  function Listens(h: Hook, userId: int, event: string, decode: Decoder): Result<bool> {
    if h.userId != userId || !h.isActive then Ok(false) else PyIn(Str(event), Events(h, decode))
  }

  /** The filter of `get_active_webhooks_for_event`, as a value. */
  function Listener(userId: int, event: string, decode: Decoder): Hook -> Result<bool> {
    h => Listens(h, userId, event, decode)
  }

  /**
   * `get_active_webhooks_for_event`: the positions, in table order, of the
   * webhooks the filter keeps; the TypeError of the first one it cannot test.
   */
  function ActiveFor(hooks: seq<Hook>, listens: Hook -> Result<bool>): Result<seq<nat>> {
    if hooks == [] then Ok([])
    else
      var earlier :- ActiveFor(hooks[..|hooks| - 1], listens);
      var keep :- listens(hooks[|hooks| - 1]);
      Ok(if keep then earlier + [|hooks| - 1] else earlier)
  }

  /** The positions are increasing, and a position is listed exactly when its webhook listens. */
  lemma {:induction false} ActiveForExactly(hooks: seq<Hook>, listens: Hook -> Result<bool>)
    ensures ActiveFor(hooks, listens).Ok? <==> forall j :: 0 <= j < |hooks| ==> listens(hooks[j]).Ok?
    ensures ActiveFor(hooks, listens).Ok? ==>
              var ps := ActiveFor(hooks, listens).value;
              (forall a, b :: 0 <= a < b < |ps| ==> ps[a] < ps[b])
              && (forall k :: 0 <= k < |ps| ==> ps[k] < |hooks|)
              && (forall j :: 0 <= j < |hooks| ==> (j in ps <==> listens(hooks[j]) == Ok(true)))
  {
    if hooks != [] {
      var init := hooks[..|hooks| - 1];
      ActiveForExactly(init, listens);
      assert forall j :: 0 <= j < |init| ==> init[j] == hooks[j];
    }
  }

  /** A webhook that is inactive, or another user's, is never listed, whatever its events. */
  lemma InactiveNeverListens(h: Hook, userId: int, event: string, decode: Decoder)
    requires !h.isActive || h.userId != userId
    ensures Listens(h, userId, event, decode) == Ok(false)
  {
  }

  /** A webhook whose event column is a list of names listens exactly to those names. */
  lemma ListedEventListens(h: Hook, event: string, decode: Decoder, names: seq<string>)
    requires h.isActive && h.events != "" && decode(h.events) == Some(List(seq(|names|, i requires 0 <= i < |names| => Str(names[i]))))
    ensures Listens(h, h.userId, event, decode) == Ok(event in names)
  {
    var items := seq(|names|, i requires 0 <= i < |names| => Str(names[i]));
    if event in names {
      var i :| 0 <= i < |names| && names[i] == event;
      assert PyEq(Str(event), items[i]);
    }
  }
}
