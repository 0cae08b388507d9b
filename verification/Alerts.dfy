/** Alert keys and signals, and the alert service the reconciler drives. */
module Alerts {
  import opened Wrappers

  datatype Severity = Info | Warning | Critical

  // What an alert shows beside its identity.
  datatype Wording = Wording(objectType: string, reason: string, message: string, targetPage: string, recovery: string)

  datatype Signal = Signal(key: string, kind: string, severity: Severity, objectId: string, objectName: string, wording: Wording)

  // The active alerts, by state key.
  type Ledger = map<string, Signal>

  function Lookup(alerts: Ledger, key: string): Option<Signal> {
    if key in alerts then Some(alerts[key]) else None
  }

  function Put(alerts: Ledger, key: string, signal: Option<Signal>): Ledger {
    match signal
    case Some(s) => alerts[key := s]
    case None => alerts - {key}
  }

  // ----- State keys

  /** A key such as `task:42:run`: what kind of object, which one, and what about it. */
  datatype Key = Key(subject: string, id: string, aspect: string) {
    ghost predicate Valid() {
      ':' !in subject && ':' !in aspect
    }

    function Text(): string {
      subject + ":" + id + ":" + aspect
    }
  }

  function FirstColon(text: string): nat {
    if text == "" || text[0] == ':' then 0 else 1 + FirstColon(text[1..])
  }

  function LastColon(text: string): int {
    if text == "" then -1 else if text[|text| - 1] == ':' then |text| - 1 else LastColon(text[..|text| - 1])
  }

  lemma {:induction false} FirstColonAfter(head: string, tail: string)
    requires ':' !in head
    ensures FirstColon(head + ":" + tail) == |head|
  {
    var text := head + ":" + tail;
    if head == "" {
      assert text[0] == ':';
    } else {
      assert text[0] == head[0];
      assert text[1..] == head[1..] + ":" + tail;
      FirstColonAfter(head[1..], tail);
    }
  }

  lemma {:induction false} LastColonBefore(head: string, tail: string)
    requires ':' !in tail
    ensures LastColon(head + ":" + tail) == |head|
  {
    var text := head + ":" + tail;
    if tail == "" {
      assert text[|text| - 1] == ':';
    } else {
      assert text[|text| - 1] == tail[|tail| - 1];
      assert text[..|text| - 1] == head + ":" + tail[..|tail| - 1];
      LastColonBefore(head, tail[..|tail| - 1]);
    }
  }

  /** Two different objects or aspects never share a key, whatever colons their identifiers hold. */
  lemma TextIsInjective(a: Key, b: Key)
    requires a.Valid() && b.Valid()
    requires a.Text() == b.Text()
    ensures a == b
  {
    SplitsAtColons(a);
    SplitsAtColons(b);
  }

  /** The first and the last colon of a key's text give its three parts back. */
  lemma SplitsAtColons(key: Key)
    requires key.Valid()
    ensures var text := key.Text();
            && 0 <= FirstColon(text) < LastColon(text) < |text|
            && key == Key(text[..FirstColon(text)], text[FirstColon(text) + 1..LastColon(text)], text[LastColon(text) + 1..])
  {
    var text := key.Text();
    assert text == key.subject + ":" + (key.id + ":" + key.aspect) == (key.subject + ":" + key.id) + ":" + key.aspect;
    FirstColonAfter(key.subject, key.id + ":" + key.aspect);
    LastColonBefore(key.subject + ":" + key.id, key.aspect);
    hide FirstColon, LastColon;
    assert key.subject == text[..|key.subject|];
    assert key.id == text[|key.subject| + 1..|key.subject| + 1 + |key.id|];
    assert key.aspect == text[|key.subject| + 2 + |key.id|..];
  }

  // ----- The service

  const CHANNEL := Key("notification", "channels", "delivery")
  const CHANNEL_KIND := "notification_channel"

  // What the notifier answers: no notifier or nothing to report, a delivery that settles the channel's
  // own alert, or a final failure.
  datatype Delivery = Silent | Settled | Undelivered(channels: string, wording: Wording)

  // What the store and the notifier answer to the call about one key.
  datatype Reply = Reply(storeFails: bool, delivery: Delivery, channelWriteFails: bool)

  function ChannelSignal(channels: string, wording: Wording): Signal {
    Signal(CHANNEL.Text(), CHANNEL_KIND, Critical, "channels", channels, wording)
  }

  /** The alerts after a notification: only the channel's own alert may have changed. */
  function AfterNotice(alerts: Ledger, reply: Reply): Ledger {
    if reply.channelWriteFails then alerts
    else
      match reply.delivery
      case Silent => alerts
      case Settled => Put(alerts, CHANNEL.Text(), None)
      case Undelivered(channels, wording) => Put(alerts, CHANNEL.Text(), Some(ChannelSignal(channels, wording)))
  }

  predicate NoticeFails(reply: Reply) {
    !reply.delivery.Silent? && reply.channelWriteFails
  }

  /** A change is announced when a new alert is raised or one is resolved, unless it is informational. */
  predicate Announced(key: string, before: Option<Signal>, after: Option<Signal>) {
    && key != CHANNEL.Text()
    && match (before, after) {
      case (None, Some(s)) => s.severity != Info
      case (Some(s), None) => s.severity != Info
      case _ => false
    }
  }

  /** The alerts after a call that sets `key` to `after`. */
  function AfterCall(alerts: Ledger, key: string, after: Option<Signal>, reply: Reply): Ledger {
    if reply.storeFails then alerts
    else if Announced(key, Lookup(alerts, key), after) then AfterNotice(Put(alerts, key, after), reply)
    else Put(alerts, key, after)
  }

  /** Whether a call that takes a key from `before` to `after` reports no error. */
  predicate Succeeds(key: string, before: Option<Signal>, after: Option<Signal>, reply: Reply) {
    !reply.storeFails && (Announced(key, before, after) ==> !NoticeFails(reply))
  }

  /** A call touches its own key and, through the notifier, the channel's. */
  lemma CallTouchesOneKey(alerts: Ledger, key: string, after: Option<Signal>, reply: Reply, other: string)
    ensures other != key && other != CHANNEL.Text() ==> Lookup(AfterCall(alerts, key, after, reply), other) == Lookup(alerts, other)
    ensures key != CHANNEL.Text() ==>
      Lookup(AfterCall(alerts, key, after, reply), key) == if reply.storeFails then Lookup(alerts, key) else after
  {}

  /** After an announcement: the channel's own alert is set by a final failure and cleared by a delivery, if it can be written. */
  ghost predicate Told(before: Ledger, after: Ledger, reply: Reply, ok: bool) {
    match reply.delivery
    case Silent => ok && after == before
    case Settled => ok == !reply.channelWriteFails && after == if ok then before - {CHANNEL.Text()} else before
    case Undelivered(channels, wording) =>
      && ok == !reply.channelWriteFails
      && after == if ok then before[CHANNEL.Text() := Signal(CHANNEL.Text(), "notification_channel", Critical, "channels", channels, wording)]
                  else before
  }

  class Service {
    var stored: Ledger
    var calls: seq<string>   // the keys of the store calls made so far

    constructor ()
      ensures stored == map[] && calls == []
    {
      stored := map[];
      calls := [];
    }

    method Deliver(reply: Reply) returns (ok: bool)
      modifies this`stored
      ensures stored == AfterNotice(old(stored), reply)
      ensures ok <==> !NoticeFails(reply)
      ensures Told(old(stored), stored, reply, ok)
    {
      match reply.delivery
      case Silent => ok := true;
      case Settled =>
        ok := !reply.channelWriteFails;
        if ok { stored := stored - {CHANNEL.Text()}; }
      case Undelivered(channels, wording) =>
        ok := !reply.channelWriteFails;
        if ok { stored := stored[CHANNEL.Text() := ChannelSignal(channels, wording)]; }
    }

    method Raise(signal: Signal, reply: Reply) returns (ok: bool)
      modifies this
      ensures calls == old(calls) + [signal.key]
      ensures stored == AfterCall(old(stored), signal.key, Some(signal), reply)
      ensures ok <==> Succeeds(signal.key, Lookup(old(stored), signal.key), Some(signal), reply)
      // a new alert that is more than information is announced, but never the channel's own
      ensures reply.storeFails ==> !ok && stored == old(stored)
      ensures !reply.storeFails && (signal.key in old(stored) || signal.key == CHANNEL.Text() || signal.severity == Info) ==>
        ok && stored == old(stored)[signal.key := signal]
      ensures !reply.storeFails && signal.key !in old(stored) && signal.key != CHANNEL.Text() && signal.severity != Info ==>
        Told(old(stored)[signal.key := signal], stored, reply, ok)
    {
      calls := calls + [signal.key];
      if reply.storeFails { return false; }
      var raised := signal.key !in stored;
      stored := stored[signal.key := signal];
      if !raised || signal.key == CHANNEL.Text() || signal.severity == Info { return true; }
      ok := Deliver(reply);
    }

    method Resolve(key: string, reply: Reply) returns (ok: bool)
      modifies this
      ensures calls == old(calls) + [key]
      ensures stored == AfterCall(old(stored), key, None, reply)
      ensures ok <==> Succeeds(key, Lookup(old(stored), key), None, reply)
      // so is the end of such an alert
      ensures reply.storeFails ==> !ok && stored == old(stored)
      ensures !reply.storeFails && (key !in old(stored) || key == CHANNEL.Text() || old(stored)[key].severity == Info) ==>
        ok && stored == old(stored) - {key}
      ensures !reply.storeFails && key in old(stored) && key != CHANNEL.Text() && old(stored)[key].severity != Info ==>
        Told(old(stored) - {key}, stored, reply, ok)
    {
      calls := calls + [key];
      if reply.storeFails { return false; }
      if key !in stored {
        assert stored - {key} == stored;
        return true;
      }
      var severity := stored[key].severity;
      stored := stored - {key};
      if key == CHANNEL.Text() || severity == Info { return true; }
      ok := Deliver(reply);
    }
  }
}
