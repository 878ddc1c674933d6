/**
 The bridge from voice events to the display (apps/expression-ui/hermes_expression_bridge.py):
 it delivers every accepted event, and retries until the display socket works.
 */
module ExpressionBridge {
  import opened Common
  import opened ExpressionEvents

  /** `shown` is the state of the last delivery the display socket took. */
  datatype Bridge = Bridge(
    consumer: Consumer,
    deliveryOk: bool,
    deliveryFailed: bool,
    attempts: nat,
    recoveries: nat,
    shown: Option<string>)

  function NewBridge(maxAge: int): Bridge {
    Bridge(NewConsumer(maxAge), false, false, 0, 0, None)
  }

  /** `send_display`; `ok` is what the socket says. */
  function Send(b: Bridge, state: string, ok: bool): Bridge {
    b.(deliveryOk := ok, deliveryFailed := !ok, shown := if ok then Some(state) else b.shown)
  }

  function Deliver(b: Bridge, state: string, ok: bool): Bridge {
    Send(b, state, ok).(attempts := b.attempts + 1, recoveries := b.recoveries + if ok && b.deliveryFailed then 1 else 0)
  }

  /** What the display ought to show. */
  function Target(c: Consumer): string {
    if c.lastEvent.Some? && c.lastEvent.value.Event? then c.lastEvent.value.state else "idle"
  }

  function Process(b: Bridge, e: Event, now: int, fromSnapshot: bool, ok: bool): Bridge {
    var (c, d) := Validate(b.consumer, e, now, fromSnapshot);
    var b1 := b.(consumer := c);
    if d != Accepted then (if fromSnapshot then Send(b1, "idle", ok) else b1)
    else Deliver(b1, if e.Event? then e.state else "idle", ok)
  }

  /** `reconcile_snapshot`: None is a snapshot that is missing or not JSON. */
  function Reconcile(b: Bridge, snapshot: Option<Event>, now: int, ok: bool): Bridge {
    if snapshot.None? then Send(b, "idle", ok) else Process(b, snapshot.value, now, true, ok)
  }

  function Retry(b: Bridge, ok: bool): Bridge {
    if b.deliveryOk then b
    else if b.consumer.lastEvent.None? then Send(b, "idle", ok).(attempts := b.attempts + 1)
    else Deliver(b, Target(b.consumer), ok)
  }

  /** After the snapshot, the loop of `main` handles one datagram or one timeout at a time. */
  datatype Turn = Datagram(event: Event, now: int, ok: bool) | NotJson | Timeout(ok: bool)

  function Handle(b: Bridge, t: Turn): Bridge {
    match t
    case Datagram(e, now, ok) => Process(b, e, now, false, ok)
    case NotJson => b.(consumer := Reject(b.consumer))
    case Timeout(ok) => Retry(b, ok)
  }

  function Run(b: Bridge, turns: seq<Turn>): Bridge
    decreases |turns|
  {
    if turns == [] then b else Run(Handle(b, turns[0]), turns[1..])
  }

  // ----- the display is up to date whenever the last delivery succeeded

  ghost predicate UpToDate(b: Bridge) {
    b.deliveryOk ==> b.shown == Some(Target(b.consumer))
  }

  lemma TurnKeepsUpToDate(b: Bridge, t: Turn)
    requires UpToDate(b)
    ensures UpToDate(Handle(b, t))
  {
    if t.Datagram? {
      ValidateOrdered(b.consumer, t.event, t.now, false);
      ScreenDecides(b.consumer, t.event, t.now, false);
      AcceptedIsEvent(b.consumer, t.event, t.now, false);
      hide Validate;
    }
  }

  lemma AcceptedIsEvent(c: Consumer, e: Event, now: int, allowStaleIdle: bool)
    ensures Validate(c, e, now, allowStaleIdle).1 == Accepted ==> e.Event?
  {
    ScreenDecides(c, e, now, allowStaleIdle);
    hide Screen;
  }

  lemma {:induction false} RunKeepsUpToDate(b: Bridge, turns: seq<Turn>)
    requires UpToDate(b)
    ensures UpToDate(Run(b, turns))
    decreases |turns|
  {
    if turns != [] {
      TurnKeepsUpToDate(b, turns[0]);
      hide Handle, UpToDate;
      RunKeepsUpToDate(Handle(b, turns[0]), turns[1..]);
    }
  }

  lemma ReconcileUpToDate(maxAge: int, snapshot: Option<Event>, now: int, ok: bool)
    ensures UpToDate(Reconcile(NewBridge(maxAge), snapshot, now, ok))
    ensures Reconcile(NewBridge(maxAge), snapshot, now, ok).deliveryOk == ok
  {
    if snapshot.Some? {
      var c := NewConsumer(maxAge);
      ValidateOrdered(c, snapshot.value, now, true);
      ScreenDecides(c, snapshot.value, now, true);
      AcceptedIsEvent(c, snapshot.value, now, true);
      hide Validate;
    }
  }

  /**
   From startup on, after any datagrams, garbage, timeouts and failed deliveries:
   whenever the last delivery succeeded the display shows the last accepted event, or
   idle if there is none, and one retry with a working socket brings that about.
   */
  lemma DisplayUpToDate(maxAge: int, snapshot: Option<Event>, now: int, ok: bool, turns: seq<Turn>)
    ensures var b := Run(Reconcile(NewBridge(maxAge), snapshot, now, ok), turns);
            && UpToDate(b)
            && Retry(b, true).deliveryOk && Retry(b, true).shown == Some(Target(b.consumer))
            && Retry(b, true).consumer == b.consumer
  {
    ReconcileUpToDate(maxAge, snapshot, now, ok);
    hide Reconcile, Run;
    RunKeepsUpToDate(Reconcile(NewBridge(maxAge), snapshot, now, ok), turns);
  }

  // ----- what each turn delivers

  /** A datagram is delivered exactly if it is accepted, once and with its own state; a timeout delivers only what is due. */
  lemma TurnDelivers(b: Bridge, t: Turn)
    ensures var n := Handle(b, t);
            && (t.Datagram? ==>
                  var accepted := Validate(b.consumer, t.event, t.now, false).1 == Accepted;
                  && n.attempts == b.attempts + (if accepted then 1 else 0)
                  && (accepted ==> t.event.Event? && n.deliveryOk == t.ok && n.deliveryFailed == !t.ok
                                   && n.shown == (if t.ok then Some(t.event.state) else b.shown))
                  && (!accepted ==> n.deliveryOk == b.deliveryOk && n.deliveryFailed == b.deliveryFailed && n.shown == b.shown))
            && (t.NotJson? ==> n == b.(consumer := Reject(b.consumer)))
            && (t.Timeout? && b.deliveryOk ==> n == b)
            && (t.Timeout? && !b.deliveryOk ==>
                  && n.consumer == b.consumer && n.attempts == b.attempts + 1 && n.deliveryOk == t.ok
                  && n.shown == if t.ok then Some(Target(b.consumer)) else b.shown)
            && n.recoveries == b.recoveries
               + if n.attempts > b.attempts && n.deliveryOk && b.deliveryFailed && n.consumer.lastEvent.Some? then 1 else 0
  {
    if t.Datagram? {
      AcceptedIsEvent(b.consumer, t.event, t.now, false);
      ValidateOrdered(b.consumer, t.event, t.now, false);
      ScreenDecides(b.consumer, t.event, t.now, false);
    }
    hide Validate, Screen;
  }

  /** At startup a snapshot that is refused, or none, shows idle; one that is accepted shows its state. */
  lemma StartShows(maxAge: int, snapshot: Option<Event>, now: int, ok: bool)
    ensures var b := Reconcile(NewBridge(maxAge), snapshot, now, ok);
            var accepted := snapshot.Some? && Timely(NewConsumer(maxAge).maxAge, snapshot.value, now, true);
            && b.deliveryOk == ok
            && b.shown == (if !ok then None else if accepted then Some(snapshot.value.state) else Some("idle"))
  {
    if snapshot.Some? {
      AcceptedIff(NewConsumer(maxAge), snapshot.value, now, true);
    }
    hide Validate, ListedState;
  }

  // ----- the newest event is shown

  /** An event of the honest publishers, or garbage. */
  ghost predicate Arrives(w: World, e: Event) {
    e.NotAnObject? || Published(w, e)
  }

  ghost predicate TurnsFrom(w: World, turns: seq<Turn>) {
    forall i | 0 <= i < |turns| && turns[i].Datagram? :: Arrives(w, turns[i].event)
  }

  lemma ValidateTracks(w: World, c: Consumer, e: Event, now: int, allowStaleIdle: bool)
    requires HonestWorld(w) && Tracks(w, c) && Arrives(w, e)
    ensures Tracks(w, Validate(c, e, now, allowStaleIdle).0)
  {
    if e.Event? {
      hide Validate;
      HonestAcceptance(w, c, Delivery(e, now, allowStaleIdle));
    }
  }

  lemma TurnTracks(w: World, b: Bridge, t: Turn)
    requires HonestWorld(w) && Tracks(w, b.consumer) && (t.Datagram? ==> Arrives(w, t.event))
    ensures Tracks(w, Handle(b, t).consumer)
  {
    hide Validate;
    if t.Datagram? {
      ValidateTracks(w, b.consumer, t.event, t.now, false);
    }
  }

  lemma {:induction false} RunTracks(w: World, b: Bridge, turns: seq<Turn>)
    requires HonestWorld(w) && Tracks(w, b.consumer) && TurnsFrom(w, turns)
    ensures Tracks(w, Run(b, turns).consumer)
    decreases |turns|
  {
    if turns != [] {
      TurnTracks(w, b, turns[0]);
      hide Handle, Tracks, HonestWorld, Arrives;
      assert forall i | 0 <= i < |turns[1..]| :: turns[1..][i] == turns[i + 1];
      RunTracks(w, Handle(b, turns[0]), turns[1..]);
    }
  }

  /** Later than everything accepted: a later number of the same publisher, or a publisher that started later. */
  ghost predicate NewerThan(c: Consumer, e: Event) {
    && e.Event? && e.ordering.Some?
    && (c.publisher == Some(e.publisher) ==> e.ordering.value.sequence > c.lastSequence)
    && (c.publisher.Some? && c.publisher != Some(e.publisher) ==> e.ordering.value.startedAt > c.startedAt)
  }

  /**
   From startup on, whatever the channel lost, repeated, reordered or garbled: an event of an honest
   publisher that arrives in time is delivered to a working display if and only if it is newer than
   everything accepted before, and then the display shows it.
   */
  lemma NewestEventShown(w: World, maxAge: int, snapshot: Option<Event>, at: int, ok: bool, turns: seq<Turn>, e: Event, now: int)
    requires HonestWorld(w) && TurnsFrom(w, turns) && (snapshot.Some? ==> Arrives(w, snapshot.value))
    requires Published(w, e)
    requires Fresh(Run(Reconcile(NewBridge(maxAge), snapshot, at, ok), turns).consumer, Delivery(e, now, false))
    ensures var b := Run(Reconcile(NewBridge(maxAge), snapshot, at, ok), turns);
            var b' := Handle(b, Datagram(e, now, true));
            && (b'.consumer.accepted > b.consumer.accepted <==> NewerThan(b.consumer, e))
            && (NewerThan(b.consumer, e) ==> b'.deliveryOk && b'.shown == Some(e.state))
  {
    hide Validate, Run, Tracks, HonestWorld, Published, Fresh, Arrives;
    ReconcileTracks(w, maxAge, snapshot, at, ok);
    RunTracks(w, Reconcile(NewBridge(maxAge), snapshot, at, ok), turns);
    NewestShownNext(w, Run(Reconcile(NewBridge(maxAge), snapshot, at, ok), turns), e, now);
  }

  lemma ReconcileTracks(w: World, maxAge: int, snapshot: Option<Event>, now: int, ok: bool)
    requires HonestWorld(w) && (snapshot.Some? ==> Arrives(w, snapshot.value))
    ensures Tracks(w, Reconcile(NewBridge(maxAge), snapshot, now, ok).consumer)
  {
    hide Validate;
    if snapshot.Some? {
      ValidateTracks(w, NewConsumer(maxAge), snapshot.value, now, true);
    }
  }

  lemma NewestShownNext(w: World, b: Bridge, e: Event, now: int)
    requires HonestWorld(w) && Tracks(w, b.consumer) && Published(w, e) && Fresh(b.consumer, Delivery(e, now, false))
    ensures var b' := Handle(b, Datagram(e, now, true));
            && (b'.consumer.accepted > b.consumer.accepted <==> NewerThan(b.consumer, e))
            && (NewerThan(b.consumer, e) ==> b'.deliveryOk && b'.shown == Some(e.state))
  {
    HonestAcceptance(w, b.consumer, Delivery(e, now, false));
    ValidateOrdered(b.consumer, e, now, false);
    hide Validate, Tracks, HonestWorld, Fresh;
  }

  // ----- the bridge object

  class VoiceExpressionBridge {
    const consumer: ExpressionEventConsumer
    var deliveryOk: bool
    var deliveryFailed: bool
    var attempts: nat
    var recoveries: nat
    var shown: Option<string>

    function Current(): Bridge
      reads this, consumer
    {
      Bridge(consumer.Current(), deliveryOk, deliveryFailed, attempts, recoveries, shown)
    }

    constructor ()
      ensures Current() == NewBridge(30_000) && fresh(consumer)
    {
      consumer := new ExpressionEventConsumer(30_000);
      deliveryOk, deliveryFailed, attempts, recoveries, shown := false, false, 0, 0, None;
    }

    method SendDisplay(state: string, ok: bool)
      modifies this`deliveryOk, this`deliveryFailed, this`shown
      ensures Current() == Send(old(Current()), state, ok)
    {
      deliveryOk, deliveryFailed := ok, !ok;
      if ok {
        shown := Some(state);
      }
    }

    method DeliverState(state: string, ok: bool)
      modifies this
      ensures Current() == Deliver(old(Current()), state, ok)
    {
      var previouslyFailed := deliveryFailed;
      attempts := attempts + 1;
      SendDisplay(state, ok);
      if ok && previouslyFailed {
        recoveries := recoveries + 1;
      }
    }

    method RetryPending(ok: bool) returns (delivered: bool)
      modifies this
      ensures Current() == Retry(old(Current()), ok) && delivered == deliveryOk
    {
      if deliveryOk {
        return true;
      }
      if consumer.lastEvent.None? {
        SendDisplay("idle", ok);
        attempts := attempts + 1;
      } else {
        DeliverState(Target(consumer.Current()), ok);
      }
      return deliveryOk;
    }

    method ProcessEvent(e: Event, now: int, fromSnapshot: bool, ok: bool) returns (decision: Decision)
      modifies this, consumer
      ensures Current() == Process(old(Current()), e, now, fromSnapshot, ok)
      ensures decision == Validate(old(consumer.Current()), e, now, fromSnapshot).1
    {
      hide Validate;
      decision := consumer.ValidateEvent(e, now, fromSnapshot);
      if decision != Accepted {
        if fromSnapshot {
          SendDisplay("idle", ok);
        }
        return;
      }
      DeliverState(if e.Event? then e.state else "idle", ok);
    }

    method ReconcileSnapshot(snapshot: Option<Event>, now: int, ok: bool)
      modifies this, consumer
      ensures Current() == Reconcile(old(Current()), snapshot, now, ok)
    {
      if snapshot.None? {
        SendDisplay("idle", ok);
        return;
      }
      var _ := ProcessEvent(snapshot.value, now, true, ok);
    }
  }
}
