/**
  webhook_service.py: the per-webhook failure counter kept by
  `_send_webhook` and the subscriber filter of `trigger_webhook_event`.

  The HTTP POST is not performed: its outcome (a status code, or an
  exception) is an input. The HMAC signature and the JSON payload do not
  influence any stored field and are left out. The thread that runs each
  delivery appears only through its effect (`SendWebhookAsWritten`).
 */
module WebhookService {
  import opened Basics
  import opened Models

  /** Consecutive failures after which a webhook is switched off. */
  const DisableThreshold := 5

  /** What one POST attempt produced. */
  datatype Delivery = Response(statusCode: int) | Raised

  /** The guard at the top of `_send_webhook`: active and subscribed to the event. */
  predicate Deliverable(w: Webhook, event: string)
  {
    w.isActive && event in w.events
  }

  /** One more failure; the webhook is switched off once the count reaches the threshold. */
  function CountFailure(w: Webhook): (r: Webhook)
    ensures r.failureCount == w.failureCount + 1
    ensures r.isActive == (w.isActive && r.failureCount < DisableThreshold)
    ensures r.(failureCount := 0, isActive := false) == w.(failureCount := 0, isActive := false)
  {
    var failed := w.(failureCount := w.failureCount + 1);
    if failed.failureCount >= DisableThreshold then failed.(isActive := false) else failed
  }

  /** The bookkeeping `_send_webhook` does after an attempt on a webhook that passed its guard. */
  function RecordDelivery(w: Webhook, outcome: Delivery, now: DateTime): (r: Webhook)
    ensures outcome.Response? ==> r.lastTriggered == Some(now)
    ensures outcome.Raised? ==> r.lastTriggered == w.lastTriggered
    ensures outcome.Response? && outcome.statusCode < 400 ==> r.failureCount == 0 && r.isActive == w.isActive
    ensures (outcome.Raised? || outcome.statusCode >= 400) ==>
              && r.failureCount == w.failureCount + 1
              && r.isActive == (w.isActive && r.failureCount < DisableThreshold)
    ensures r.userId == w.userId && r.url == w.url && r.secret == w.secret && r.events == w.events
  {
    match outcome
    case Response(code) =>
      var stamped := w.(lastTriggered := Some(now));
      if code >= 400 then CountFailure(stamped) else stamped.(failureCount := 0)
    case Raised =>
      CountFailure(w)
  }

  /**
    `_send_webhook(webhook_id, event_type, data)`: a missing, inactive or
    unsubscribed webhook is left alone; otherwise the attempt is recorded.
   */
  function SendWebhook(hooks: seq<Webhook>, id: nat, event: string, outcome: Delivery, now: DateTime): (r: seq<Webhook>)
    ensures |r| == |hooks|
    ensures !(id < |hooks| && Deliverable(hooks[id], event)) ==> r == hooks
    ensures id < |hooks| && Deliverable(hooks[id], event) ==> r == hooks[id := RecordDelivery(hooks[id], outcome, now)]
    ensures forall j :: 0 <= j < |hooks| && j != id ==> r[j] == hooks[j]
  {
    if id < |hooks| && Deliverable(hooks[id], event) then hooks[id := RecordDelivery(hooks[id], outcome, now)]
    else hooks
  }

  /**
    `send_webhook` as webhook_service.py:19-25 stands. The delivery runs in a
    new thread whose first statement, `current_app.app_context()`, needs the
    application context that a new thread does not have; the RuntimeError is
    raised outside the `try`, so the thread ends before the lookup: no POST,
    no timestamp, no counter. `SendWebhook` is the delivery as intended, with
    the application handed to the thread.
   */
  function SendWebhookAsWritten(hooks: seq<Webhook>, id: nat, event: string, outcome: Delivery, now: DateTime): (r: seq<Webhook>)
    ensures r == hooks
  {
    hooks
  }

  /**
    A failed response from a deliverable webhook is counted by the intended
    delivery and never by the delivery as written, so no webhook is ever
    switched off.
   */
  lemma ThreadedSendNeverCounts(hooks: seq<Webhook>, id: nat, event: string, code: int, now: DateTime)
    requires id < |hooks| && Deliverable(hooks[id], event) && code >= 400
    ensures SendWebhook(hooks, id, event, Response(code), now)[id].failureCount == hooks[id].failureCount + 1
    ensures SendWebhook(hooks, id, event, Response(code), now)[id].lastTriggered == Some(now)
    ensures SendWebhookAsWritten(hooks, id, event, Response(code), now)[id] == hooks[id]
  {
  }

  /**
    The counter stays within 0..5 and an active webhook has fewer than 5
    failures. A new webhook (count 0, active) satisfies it.
   */
  ghost predicate CounterBounded(w: Webhook)
  {
    0 <= w.failureCount <= DisableThreshold && (w.isActive ==> w.failureCount < DisableThreshold)
  }

  ghost predicate AllCountersBounded(hooks: seq<Webhook>)
  {
    forall j :: 0 <= j < |hooks| ==> CounterBounded(hooks[j])
  }

  /** One delivery keeps every counter within bounds: inactive webhooks are never touched, so no count passes 5. */
  lemma SendKeepsCountersBounded(hooks: seq<Webhook>, id: nat, event: string, outcome: Delivery, now: DateTime)
    requires AllCountersBounded(hooks)
    ensures AllCountersBounded(SendWebhook(hooks, id, event, outcome, now))
  {
  }

  /** One recorded delivery attempt: which webhook, for which event, with what outcome, at what time. */
  datatype DeliveryAttempt = DeliveryAttempt(id: nat, event: string, outcome: Delivery, now: DateTime)

  /** The store after a whole history of delivery attempts, oldest first. */
  function SendAll(hooks: seq<Webhook>, attempts: seq<DeliveryAttempt>): (r: seq<Webhook>)
    ensures |r| == |hooks|
    decreases |attempts|
  {
    if |attempts| == 0 then hooks
    else
      var a := attempts[0];
      SendAll(SendWebhook(hooks, a.id, a.event, a.outcome, a.now), attempts[1..])
  }

  /** Starting from bounded counters (for example all 0), no history of attempts ever pushes a count above 5. */
  lemma {:induction false} CountersNeverExceedThreshold(hooks: seq<Webhook>, attempts: seq<DeliveryAttempt>)
    requires AllCountersBounded(hooks)
    ensures AllCountersBounded(SendAll(hooks, attempts))
    ensures forall j :: 0 <= j < |hooks| ==> SendAll(hooks, attempts)[j].failureCount <= DisableThreshold
    decreases |attempts|
  {
    if |attempts| > 0 {
      var a := attempts[0];
      SendKeepsCountersBounded(hooks, a.id, a.event, a.outcome, a.now);
      CountersNeverExceedThreshold(SendWebhook(hooks, a.id, a.event, a.outcome, a.now), attempts[1..]);
    }
  }

  /** Five failed attempts in a row switch an active, subscribed webhook with a clean counter off. */
  lemma FiveFailuresDisable(w: Webhook, event: string, now: DateTime)
    requires Deliverable(w, event) && w.failureCount == 0
    ensures var h := SendAll([w], seq(5, _ => DeliveryAttempt(0, event, Response(500), now)));
            h[0].failureCount == 5 && !h[0].isActive
  {
    var fail := DeliveryAttempt(0, event, Response(500), now);
    var attempts := seq(5, _ => fail);
    var h1 := SendWebhook([w], 0, event, fail.outcome, now);
    var h2 := SendWebhook(h1, 0, event, fail.outcome, now);
    var h3 := SendWebhook(h2, 0, event, fail.outcome, now);
    var h4 := SendWebhook(h3, 0, event, fail.outcome, now);
    var h5 := SendWebhook(h4, 0, event, fail.outcome, now);
    assert h4[0].failureCount == 4 && h4[0].isActive;
    assert attempts[1..][1..][1..][1..][1..] == [];
    assert SendAll([w], attempts) == SendAll(h1, attempts[1..]);
    assert SendAll(h1, attempts[1..]) == SendAll(h2, attempts[1..][1..]);
    assert SendAll(h2, attempts[1..][1..]) == SendAll(h3, attempts[1..][1..][1..]);
    assert SendAll(h3, attempts[1..][1..][1..]) == SendAll(h4, attempts[1..][1..][1..][1..]);
    assert SendAll(h4, attempts[1..][1..][1..][1..]) == h5;
  }

  // ---------------------------------------------------------------------
  // trigger_webhook_event
  // ---------------------------------------------------------------------

  /**
    The query filter of `trigger_webhook_event` plus its loop test: active,
    owned by the given user when one is given, and subscribed to the event.
   */
  predicate Selected(w: Webhook, event: string, userFilter: Option<nat>)
  {
    w.isActive && (userFilter.None? || w.userId == userFilter.value) && event in w.events
  }

  function DispatchFrom(hooks: seq<Webhook>, event: string, userFilter: Option<nat>, start: nat): (ids: seq<nat>)
    requires start <= |hooks|
    ensures forall k :: 0 <= k < |ids| ==> start <= ids[k] < |hooks| && Selected(hooks[ids[k]], event, userFilter)
    ensures forall id: nat :: start <= id < |hooks| && Selected(hooks[id], event, userFilter) ==> id in ids
    ensures forall k, l :: 0 <= k < l < |ids| ==> ids[k] < ids[l]
    decreases |hooks| - start
  {
    if start == |hooks| then []
    else
      var rest := DispatchFrom(hooks, event, userFilter, start + 1);
      if Selected(hooks[start], event, userFilter) then [start] + rest else rest
  }

  /**
    `trigger_webhook_event(event_type, data, user_id)`: the ids of the
    webhooks a delivery is started for, in table order, each exactly once.
   */
  function TriggerWebhookEvent(hooks: seq<Webhook>, event: string, userFilter: Option<nat>): (ids: seq<nat>)
    ensures forall id: nat :: id in ids <==> id < |hooks| && Selected(hooks[id], event, userFilter)
    ensures forall k, l :: 0 <= k < l < |ids| ==> ids[k] < ids[l]
  {
    DispatchFrom(hooks, event, userFilter, 0)
  }

  /**
    Every webhook the trigger picks passes the delivery guard of
    `_send_webhook`; its counter moves only once the delivery runs inside an
    application context (`SendWebhookAsWritten`).
   */
  lemma DispatchedAreDeliverable(hooks: seq<Webhook>, event: string, userFilter: Option<nat>, id: nat)
    requires id in TriggerWebhookEvent(hooks, event, userFilter)
    ensures id < |hooks| && Deliverable(hooks[id], event)
  {
  }
}
