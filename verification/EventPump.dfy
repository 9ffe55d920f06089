/**
 pkg/systemd/watcher.go: unit events go through a channel of 100 places that is never waited on, so an event that
 finds it full is dropped. One producer publishes and closes; one consumer receives, at any moments.
 */
module EventPump {
  import opened Basics

  const CAPACITY := 100

  datatype UnitStatus = UnitStatus(loadState: string, activeState: string, subState: string)

  datatype UnitEvent = UnitEvent(name: string, status: UnitStatus, eventType: string)

  function DetermineEventType(activeState: string, subState: string): string {
    if activeState == "active" then (if subState == "running" then "started" else "active")
    else if activeState == "inactive" then "stopped"
    else if activeState == "failed" then "failed"
    else if activeState == "activating" then "starting"
    else if activeState == "deactivating" then "stopping"
    else if activeState == "reloading" then "reloading"
    else "unknown"
  }

  function CreateUnitEvent(name: string, status: UnitStatus): UnitEvent {
    UnitEvent(name, status, DetermineEventType(status.activeState, status.subState))
  }

  /** An event carries its unit's name and status, and its type tells the states apart. */
  lemma EventSays(name: string, status: UnitStatus)
    ensures
      var e, s := CreateUnitEvent(name, status), status.activeState;
      && e.name == name && e.status == status
      && (e.eventType == "started" <==> s == "active" && status.subState == "running")
      && (e.eventType == "active" <==> s == "active" && status.subState != "running")
      && (e.eventType == "stopped" <==> s == "inactive")
      && (e.eventType == "failed" <==> s == "failed")
      && (e.eventType == "starting" <==> s == "activating")
      && (e.eventType == "stopping" <==> s == "deactivating")
      && (e.eventType == "reloading" <==> s == "reloading")
      && (e.eventType == "unknown" <==>
            s !in ["active", "inactive", "failed", "activating", "deactivating", "reloading"])
  {
    TypesDiffer();
    StatesDiffer();
  }

  lemma TypesDiffer()
    ensures |"started"| == |"stopped"| == |"unknown"| == 7 && |"active"| == |"failed"| == 6
    ensures |"starting"| == |"stopping"| == 8 && |"reloading"| == 9
    ensures "started"[2] == 'a' && "stopped"[2] == 'o' && "unknown"[2] == 'k'
    ensures "active"[0] == 'a' && "failed"[0] == 'f' && "starting"[2] == 'a' && "stopping"[2] == 'o'
  {
  }

  lemma StatesDiffer()
    ensures |"active"| == |"failed"| == 6 && |"inactive"| == 8 && |"activating"| == 10 && |"deactivating"| == 12 && |"reloading"| == 9
    ensures "active"[0] == 'a' && "failed"[0] == 'f'
  {
  }

  // ---------------------------------------------------------------- the pump as a step system

  /** `log` records every published event and whether it found a place. */
  datatype Pump = Pump(log: seq<(UnitEvent, bool)>, queue: seq<UnitEvent>, received: seq<UnitEvent>, closed: bool)

  datatype Action = Publish(event: UnitEvent) | Receive | Close

  const EMPTY := Pump([], [], [], false)

  /** A closed channel takes nothing more; an empty one gives nothing. `capacity` bounds the queue when present. */
  function Next(capacity: Option<nat>, p: Pump, a: Action): Pump {
    match a
    case Publish(e) =>
      if p.closed then p
      else if capacity.Some? && |p.queue| >= capacity.value then p.(log := p.log + [(e, false)])
      else p.(log := p.log + [(e, true)], queue := p.queue + [e])
    case Receive =>
      if p.queue == [] then p else p.(queue := p.queue[1..], received := p.received + [p.queue[0]])
    case Close => p.(closed := true)
  }

  function After(capacity: Option<nat>, actions: seq<Action>): Pump {
    if actions == [] then EMPTY else Next(capacity, After(capacity, actions[..|actions| - 1]), actions[|actions| - 1])
  }

  function Published(log: seq<(UnitEvent, bool)>): seq<UnitEvent> {
    seq(|log|, i requires 0 <= i < |log| => log[i].0)
  }

  /** The published events with the given verdict, in order. */
  function Verdict(log: seq<(UnitEvent, bool)>, kept: bool): seq<UnitEvent> {
    if log == [] then []
    else
      var last := log[|log| - 1];
      Verdict(log[..|log| - 1], kept) + (if last.1 == kept then [last.0] else [])
  }

  lemma LogGrows(log: seq<(UnitEvent, bool)>, e: UnitEvent, kept: bool, verdict: bool)
    ensures Verdict(log + [(e, kept)], verdict) == Verdict(log, verdict) + (if kept == verdict then [e] else [])
    ensures Published(log + [(e, kept)]) == Published(log) + [e]
  {
    assert (log + [(e, kept)])[..|log|] == log;
  }

  lemma MultisetSnoc(a: seq<UnitEvent>, e: UnitEvent)
    ensures multiset(a + [e]) == multiset(a) + multiset{e}
  {
  }

  lemma MultisetOfNothing(a: seq<UnitEvent>)
    ensures multiset(a + []) == multiset(a)
  {
    assert a + [] == a;
  }

  lemma {:induction false} VerdictsCount(log: seq<(UnitEvent, bool)>)
    ensures multiset(Published(log)) == multiset(Verdict(log, true)) + multiset(Verdict(log, false))
  {
    if log != [] {
      var front, e, kept := log[..|log| - 1], log[|log| - 1].0, log[|log| - 1].1;
      VerdictsCount(front);
      assert Published(log) == Published(front) + [e];
      MultisetSnoc(Published(front), e);
      MultisetSnoc(Verdict(front, kept), e);
      MultisetOfNothing(Verdict(front, !kept));
      if kept {
        assert Verdict(log, true) == Verdict(front, true) + [e];
        assert Verdict(log, false) == Verdict(front, false) + [];
      } else {
        assert Verdict(log, true) == Verdict(front, true) + [];
        assert Verdict(log, false) == Verdict(front, false) + [e];
      }
    }
  }

  lemma {:induction false} KeptInOrder(log: seq<(UnitEvent, bool)>)
    ensures Subsequence(Verdict(log, true), Published(log))
  {
    if log == [] {
      SubsequenceEmpty<UnitEvent>([]);
    } else {
      var front, last := log[..|log| - 1], log[|log| - 1];
      KeptInOrder(front);
      assert Published(log) == Published(front) + [last.0];
      if last.1 {
        SubsequenceKeep(Verdict(front, true), Published(front), last.0);
      } else {
        SubsequenceSkip(Verdict(front, true), Published(front), last.0);
        assert Verdict(front, true) + [] == Verdict(front, true);
      }
    }
  }

  /** Nothing accepted is lost, duplicated or reordered: what was accepted is what was received, then what is queued. */
  ghost predicate Conserved(p: Pump) {
    Verdict(p.log, true) == p.received + p.queue
  }

  lemma ReceiveKeepsOrder(received: seq<UnitEvent>, queue: seq<UnitEvent>)
    requires queue != []
    ensures (received + [queue[0]]) + queue[1..] == received + queue
  {
  }

  lemma PublishKeepsOrder(log: seq<(UnitEvent, bool)>, e: UnitEvent, received: seq<UnitEvent>, queue: seq<UnitEvent>)
    requires Verdict(log, true) == received + queue
    ensures Verdict(log + [(e, true)], true) == received + (queue + [e])
    ensures Verdict(log + [(e, false)], true) == received + queue
  {
    LogGrows(log, e, true, true);
    LogGrows(log, e, false, true);
    assert (received + queue) + [e] == received + (queue + [e]);
    assert (received + queue) + [] == received + queue;
  }

  lemma NextConserves(capacity: Option<nat>, p: Pump, a: Action)
    requires Conserved(p)
    ensures Conserved(Next(capacity, p, a))
    ensures capacity.Some? && |p.queue| <= capacity.value ==> |Next(capacity, p, a).queue| <= capacity.value
  {
    if a.Publish? {
      PublishKeepsOrder(p.log, a.event, p.received, p.queue);
    } else if a.Receive? && p.queue != [] {
      ReceiveKeepsOrder(p.received, p.queue);
    }
  }

  lemma {:induction false} AlwaysConserved(capacity: Option<nat>, actions: seq<Action>)
    ensures Conserved(After(capacity, actions))
    ensures capacity.Some? ==> |After(capacity, actions).queue| <= capacity.value
  {
    if actions != [] {
      var front := actions[..|actions| - 1];
      AlwaysConserved(capacity, front);
      NextConserves(capacity, After(capacity, front), actions[|actions| - 1]);
    }
  }

  /**
   Conservation and order of the watcher's channel after any actions: every published event is received, queued
   or dropped, at most 100 are queued, and what has been received or is queued keeps the order of publication.
   */
  lemma PumpConserves(actions: seq<Action>)
    ensures
      var p := After(Some(CAPACITY), actions);
      && |p.log| == |p.received| + |p.queue| + |Verdict(p.log, false)|
      && multiset(Published(p.log)) == multiset(p.received) + multiset(p.queue) + multiset(Verdict(p.log, false))
      && Subsequence(p.received + p.queue, Published(p.log))
      && |p.queue| <= CAPACITY
  {
    var p := After(Some(CAPACITY), actions);
    AlwaysConserved(Some(CAPACITY), actions);
    VerdictsCount(p.log);
    KeptInOrder(p.log);
    assert multiset(p.received + p.queue) == multiset(p.received) + multiset(p.queue);
    assert |multiset(Published(p.log))| == |p.log|;
  }

  /** An action drops an event exactly when it publishes on an open channel whose 100 places are taken. */
  lemma DropsIffFull(actions: seq<Action>, a: Action)
    ensures
      var p := After(Some(CAPACITY), actions);
      var q := After(Some(CAPACITY), actions + [a]);
      |Verdict(q.log, false)| > |Verdict(p.log, false)| <==> a.Publish? && !p.closed && |p.queue| == CAPACITY
  {
    var p := After(Some(CAPACITY), actions);
    assert (actions + [a])[..|actions|] == actions;
    AlwaysConserved(Some(CAPACITY), actions);
    if a.Publish? {
      LogGrows(p.log, a.event, |p.queue| < CAPACITY, false);
    }
  }

  // ---------------------------------------------------------------- when the bound does not show

  /** How many events a channel without a bound would hold after the first `i` actions. */
  function Backlog(actions: seq<Action>, i: nat): nat
    requires i <= |actions|
  {
    |After(None, actions[..i]).queue|
  }

  /** The consumer keeps up: a channel without a bound would never hold more than 100. */
  ghost predicate KeepsUp(actions: seq<Action>) {
    forall i :: 0 <= i <= |actions| ==> Backlog(actions, i) <= CAPACITY
  }

  lemma BacklogOfFront(actions: seq<Action>, i: nat)
    requires i < |actions|
    ensures Backlog(actions[..|actions| - 1], i) == Backlog(actions, i)
  {
    assert actions[..|actions| - 1][..i] == actions[..i];
  }

  lemma KeepsUpFront(actions: seq<Action>)
    requires actions != []
    ensures KeepsUp(actions) <==> KeepsUp(actions[..|actions| - 1]) && Backlog(actions, |actions|) <= CAPACITY
  {
    var front := actions[..|actions| - 1];
    forall i: nat | i <= |front|
      ensures Backlog(front, i) == Backlog(actions, i)
    {
      BacklogOfFront(actions, i);
    }
  }

  /**
   The bounded channel drops nothing exactly when the consumer keeps up, and then it behaves in every respect as
   an unbounded one.
   */
  lemma {:induction false} LosslessIffKeepsUp(actions: seq<Action>)
    ensures Verdict(After(Some(CAPACITY), actions).log, false) == [] <==> KeepsUp(actions)
    ensures KeepsUp(actions) ==> After(Some(CAPACITY), actions) == After(None, actions)
  {
    if actions != [] {
      var front, a := actions[..|actions| - 1], actions[|actions| - 1];
      LosslessIffKeepsUp(front);
      KeepsUpFront(actions);
      assert actions[..|actions|] == actions;
      var p := After(Some(CAPACITY), front);
      AlwaysConserved(Some(CAPACITY), front);
      if a.Publish? && !p.closed {
        LogGrows(p.log, a.event, |p.queue| < CAPACITY, false);
      }
    } else {
      assert Backlog(actions, 0) == 0;
    }
  }

  // ---------------------------------------------------------------- the code

  /** What a receive finds; it would wait at NothingYet. */
  datatype Receipt = Got(event: UnitEvent) | NothingYet | Ended

  class EventChannel {
    var queue: seq<UnitEvent>
    var closed: bool
    ghost var log: seq<(UnitEvent, bool)>
    ghost var received: seq<UnitEvent>

    ghost function State(): Pump
      reads this
    {
      Pump(log, queue, received, closed)
    }

    constructor ()
      ensures State() == EMPTY
    {
      queue, closed, log, received := [], false, [], [];
    }

    /** `select { case c <- e: default: }`. Sending on a closed channel would panic, hence the precondition. */
    method TrySend(e: UnitEvent) returns (sent: bool)
      requires !closed
      modifies this
      ensures State() == Next(Some(CAPACITY), old(State()), Publish(e))
      ensures sent <==> |old(queue)| < CAPACITY
    {
      sent := |queue| < CAPACITY;
      if sent {
        queue := queue + [e];
      }
      log := log + [(e, sent)];
    }

    /** One receive of handleSystemdEvents; a closed channel still gives what is queued before it reports its end. */
    method TryReceive() returns (r: Receipt)
      modifies this
      ensures State() == Next(Some(CAPACITY), old(State()), Receive)
      ensures r == if |old(queue)| > 0 then Got(old(queue)[0]) else if old(closed) then Ended else NothingYet
    {
      if queue == [] {
        return if closed then Ended else NothingYet;
      }
      r := Got(queue[0]);
      received := received + [queue[0]];
      queue := queue[1..];
    }

    method CloseChannel()
      modifies this
      ensures State() == Next(Some(CAPACITY), old(State()), Close)
    {
      closed := true;
    }

    /**
     handleSystemdEvents, which runs beside the producer: it takes up to `turns` events, in queue order, and leaves
     when the channel has ended. On a closed channel enough turns take everything.
     */
    method HandleSystemdEvents(turns: nat) returns (ended: bool)
      modifies this
      ensures log == old(log) && closed == old(closed)
      ensures
        var taken := if turns < |old(queue)| then turns else |old(queue)|;
        received == old(received) + old(queue)[..taken] && queue == old(queue)[taken..]
      ensures ended <==> closed && turns > |old(queue)|
    {
      for t := 0 to turns
        invariant log == old(log) && closed == old(closed)
        invariant t > |old(queue)| ==> !closed
        invariant
          var taken := if t < |old(queue)| then t else |old(queue)|;
          received == old(received) + old(queue)[..taken] && queue == old(queue)[taken..]
      {
        var r := TryReceive();
        match r {
          case Got(_) => ExtendPrefix(old(received), old(queue), t);
          case NothingYet =>
          case Ended => return true;
        }
      }
      return false;
    }

    /** The consumer runs for a while between two steps of the producer. */
    method Interfere(turns: nat)
      requires Conserved(State()) && |queue| <= CAPACITY
      modifies this
      ensures Conserved(State()) && |queue| <= CAPACITY
      ensures log == old(log) && closed == old(closed)
    {
      var _ := HandleSystemdEvents(turns);
      ghost var taken := if turns < |old(queue)| then turns else |old(queue)|;
      assert old(queue)[..taken] + old(queue)[taken..] == old(queue);
      assert received + queue == old(received) + (old(queue)[..taken] + old(queue)[taken..]);
    }
  }

  lemma ExtendPrefix(received: seq<UnitEvent>, queue: seq<UnitEvent>, t: nat)
    requires t < |queue|
    ensures received + queue[..t] + [queue[t..][0]] == received + queue[..t + 1]
    ensures queue[t..][1..] == queue[t + 1..]
  {
  }

  /** The events a batch of changes gives rise to: one for each unit with a status, in some order. */
  ghost predicate EventsOfChanges(changes: map<string, Option<UnitStatus>>, events: seq<UnitEvent>) {
    && (forall i, j :: 0 <= i < j < |events| ==> events[i].name != events[j].name)
    && (forall e :: e in events ==>
          e.name in changes && changes[e.name].Some? && e == CreateUnitEvent(e.name, changes[e.name].value))
    && (forall n :: n in changes && changes[n].Some? ==> CreateUnitEvent(n, changes[n].value) in events)
  }

  /** Visiting one more unit. */
  lemma EventsGrow(changes: map<string, Option<UnitStatus>>, todo: set<string>, name: string, events: seq<UnitEvent>)
    requires name in todo && todo <= changes.Keys && EventsOfChanges(changes - todo, events)
    ensures
      EventsOfChanges(changes - (todo - {name}),
                      if changes[name].Some? then events + [CreateUnitEvent(name, changes[name].value)] else events)
  {
    var before, after := changes - todo, changes - (todo - {name});
    assert after == before[name := changes[name]];
    assert forall e :: e in events ==> e.name != name;
    if changes[name].Some? {
      var event := CreateUnitEvent(name, changes[name].value);
      assert forall e :: e in events + [event] <==> e in events || e == event;
      assert forall i :: 0 <= i < |events| ==> events[i] in events;
    }
  }

  datatype Signal = Cancelled | Changes(changes: map<string, Option<UnitStatus>>) | SubscriptionError

  /** One batch of events for each signal; a subscription error gives none. */
  ghost predicate EventsOfSignals(signals: seq<Signal>, batches: seq<seq<UnitEvent>>) {
    && |batches| == |signals|
    && forall i :: 0 <= i < |signals| ==>
      if signals[i].Changes? then EventsOfChanges(signals[i].changes, batches[i]) else batches[i] == []
  }

  function Concat(batches: seq<seq<UnitEvent>>): seq<UnitEvent> {
    if batches == [] then [] else Concat(batches[..|batches| - 1]) + batches[|batches| - 1]
  }

  /** The position of the first cancellation, or the number of signals. */
  function FirstCancelled(signals: seq<Signal>): (i: nat)
    ensures i <= |signals|
  {
    if signals == [] || signals[0] == Cancelled then 0 else 1 + FirstCancelled(signals[1..])
  }

  lemma {:induction false} FirstCancelledIs(signals: seq<Signal>, i: nat)
    requires i <= |signals| && Cancelled !in signals[..i] && (i < |signals| ==> signals[i] == Cancelled)
    ensures FirstCancelled(signals) == i
  {
    if i > 0 {
      assert signals[..i][0] == signals[0];
      assert forall s :: s in signals[1..][..i - 1] ==> s in signals[..i];
      FirstCancelledIs(signals[1..], i - 1);
    }
  }

  lemma BatchAdds(signals: seq<Signal>, i: nat, batches: seq<seq<UnitEvent>>, events: seq<UnitEvent>, base: seq<UnitEvent>)
    requires i < |signals| && EventsOfSignals(signals[..i], batches)
    requires if signals[i].Changes? then EventsOfChanges(signals[i].changes, events) else events == []
    ensures EventsOfSignals(signals[..i + 1], batches + [events])
    ensures base + Concat(batches + [events]) == (base + Concat(batches)) + events
  {
    assert (batches + [events])[..|batches|] == batches;
    assert forall j :: 0 <= j < i ==> signals[..i + 1][j] == signals[..i][j];
  }

  class Watcher {
    var watchUnits: map<string, bool>

    constructor (units: seq<string>)
      ensures forall n :: n in watchUnits <==> n in units
      ensures forall n :: n in watchUnits ==> watchUnits[n]
    {
      var watchMap: map<string, bool> := map[];
      for i := 0 to |units|
        invariant forall n :: n in watchMap <==> n in units[..i]
        invariant forall n :: n in watchMap ==> watchMap[n]
      {
        watchMap := watchMap[units[i] := true];
      }
      watchUnits := watchMap;
    }

    /** No list of units means all units; a missing map entry reads as false. */
    method IsUnitWatched(name: string) returns (watched: bool)
      ensures watched <==> watchUnits == map[] || (name in watchUnits && watchUnits[name])
    {
      if |watchUnits| == 0 {
        return true;
      }
      watched := if name in watchUnits then watchUnits[name] else false;
    }

    method PublishEvent(event: UnitEvent, channel: EventChannel)
      requires !channel.closed && Conserved(channel.State()) && |channel.queue| <= CAPACITY
      modifies channel
      ensures !channel.closed && Conserved(channel.State()) && |channel.queue| <= CAPACITY
      ensures Published(channel.log) == Published(old(channel.log)) + [event]
      ensures channel.log == old(channel.log) + [(event, |old(channel.queue)| < CAPACITY)]
    {
      NextConserves(Some(CAPACITY), channel.State(), Publish(event));
      LogGrows(channel.log, event, |channel.queue| < CAPACITY, true);
      var _ := channel.TrySend(event);
    }

    /** One unit with a status; the consumer may run before the send. */
    method HandleUnit(name: string, status: UnitStatus, channel: EventChannel, turns: nat) returns (ghost event: UnitEvent)
      requires !channel.closed && Conserved(channel.State()) && |channel.queue| <= CAPACITY
      modifies channel
      ensures !channel.closed && Conserved(channel.State()) && |channel.queue| <= CAPACITY
      ensures event == CreateUnitEvent(name, status)
      ensures Published(channel.log) == Published(old(channel.log)) + [event]
    {
      channel.Interfere(turns);
      event := CreateUnitEvent(name, status);
      PublishEvent(CreateUnitEvent(name, status), channel);
    }

    /**
     handleChanges: visits the batch in whatever order the map yields, skipping units without a status. The
     consumer may receive before any send; `turns` says how often, by the number of units still to visit.
     */
    method HandleChanges(changes: map<string, Option<UnitStatus>>, channel: EventChannel, turns: nat -> nat)
      requires !channel.closed && Conserved(channel.State()) && |channel.queue| <= CAPACITY
      modifies channel
      ensures !channel.closed && Conserved(channel.State()) && |channel.queue| <= CAPACITY
      ensures exists events ::
        EventsOfChanges(changes, events) && Published(channel.log) == Published(old(channel.log)) + events
    {
      var todo := changes.Keys;
      ghost var events: seq<UnitEvent> := [];
      while todo != {}
        invariant todo <= changes.Keys
        invariant !channel.closed && Conserved(channel.State()) && |channel.queue| <= CAPACITY
        invariant EventsOfChanges(changes - todo, events)
        invariant Published(channel.log) == Published(old(channel.log)) + events
        decreases |todo|
      {
        var name :| name in todo;
        EventsGrow(changes, todo, name, events);
        if changes[name].Some? {
          ghost var before := Published(channel.log);
          ghost var event := HandleUnit(name, changes[name].value, channel, turns(|todo|));
          assert before + [event] == Published(old(channel.log)) + (events + [event]);
          events := events + [event];
        }
        todo := todo - {name};
      }
      assert changes - {} == changes;
    }

    /**
     processEvents over the signals that its select picks. It publishes the batches that come before the first
     cancellation, in their order, and closes the channel exactly when it is cancelled; nothing is sent after
     that, TrySend having its precondition met everywhere. `turns(i, left)` says how often the consumer receives
     before signal `i` is served (`left` is 0) and before the unit that is visited with `left` units to go.
     */
    method ProcessEvents(signals: seq<Signal>, channel: EventChannel, turns: (nat, nat) -> nat)
      requires !channel.closed && Conserved(channel.State()) && |channel.queue| <= CAPACITY
      modifies channel
      ensures Conserved(channel.State()) && |channel.queue| <= CAPACITY
      ensures channel.closed <==> Cancelled in signals
      ensures exists batches ::
        && EventsOfSignals(signals[..FirstCancelled(signals)], batches)
        && Published(channel.log) == Published(old(channel.log)) + Concat(batches)
    {
      ghost var batches: seq<seq<UnitEvent>> := [];
      for i := 0 to |signals|
        invariant !channel.closed && Conserved(channel.State()) && |channel.queue| <= CAPACITY
        invariant Cancelled !in signals[..i]
        invariant EventsOfSignals(signals[..i], batches)
        invariant Published(channel.log) == Published(old(channel.log)) + Concat(batches)
      {
        ghost var before := Published(channel.log);
        ghost var events: seq<UnitEvent> := [];
        channel.Interfere(turns(i, 0));
        match signals[i] {
          case Cancelled =>
            FirstCancelledIs(signals, i);
            channel.CloseChannel();
            return;
          case Changes(changes) =>
            HandleChanges(changes, channel, left => turns(i, left));
            events :| EventsOfChanges(changes, events) && Published(channel.log) == before + events;
          case SubscriptionError =>
        }
        BatchAdds(signals, i, batches, events, Published(old(channel.log)));
        batches := batches + [events];
      }
      assert signals[..|signals|] == signals;
      FirstCancelledIs(signals, |signals|);
    }
  }
}
