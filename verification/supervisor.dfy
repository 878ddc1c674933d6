/**
 The single owner of the vision accelerator (apps/face-tracker/face_tracker_supervisor.py):
 two lease tables, one worker process, and the commands and maintenance ticks that run
 under one lock.
 */
module Supervisor {
  import opened Common
  import opened VisionLeases

  const RESTART_BACKOFF := 2000

  datatype State = State(face: Table, external: Table, worker: Option<int>, requested: bool, nextRestart: int)

  /**
   What one block under the lock reads from outside: the successive clock readings, the
   results of polling the worker process, and what launching a worker comes to (None is
   a missing runtime or an operating-system error).
   */
  datatype World = World(clock: nat -> int, alive: nat -> bool, launch: Option<int>)

  const FACE := MakeLimits(500, 300_000)
  const EXTERNAL := MakeLimits(1000, 30_000)

  datatype Command =
    | Status
    | AcquireFace(id: string, source: string, ttl: Option<int>)
    | RenewFace(id: string, ttl: Option<int>)
    | ReleaseFace(id: string)
    | Reserve(id: string, source: string, ttl: Option<int>)
    | RenewReservation(id: string, ttl: Option<int>)
    | ReleaseReservation(id: string)
    | Unsupported

  datatype Reply = Done | Refused | Missing | Failed

  /** `snapshot()`: looking at the tables purges them. */
  function Observe(s: State, w: World, i: nat): State {
    s.(face := Purge(s.face, w.clock(i)), external := Purge(s.external, w.clock(i + 1)))
  }

  predicate WorkerRunning(s: State, w: World, i: nat) {
    s.worker.Some? && w.alive(i)
  }

  /** `reconcile()`: the new state, and whether `start_worker` raised. */
  function Reconcile(s: State, w: World, i: nat): (State, bool) {
    var face := s.(face := Purge(s.face, w.clock(i)));
    var s1 := if face.face == map[] then face else face.(external := Purge(s.external, w.clock(i + 1)));
    var desired := s1.face != map[] && s1.external == map[];
    var s2 := s1.(requested := desired);
    if desired then
      if !WorkerRunning(s2, w, i) && w.clock(i + 2) >= s2.nextRestart then
        if w.launch.Some? then (s2.(worker := w.launch), false) else (s2, true)
      else (s2, false)
    else (s2.(worker := None), false)
  }

  /** After a change: reconcile, write the state file (a snapshot) and reply with another snapshot. */
  function Settle(s: State, w: World, i: nat, reply: Reply): (State, Reply) {
    var (s1, raised) := Reconcile(s, w, i);
    if raised then (Observe(s1, w, i + 3), Failed)
    else (Observe(Observe(s1, w, i + 3), w, i + 5), reply)
  }

  function Handle(s: State, command: Command, w: World): (State, Reply) {
    match command
    case Status => (Observe(s, w, 0), Done)
    case AcquireFace(id, source, ttl) =>
      var s1 := s.(external := Purge(s.external, w.clock(0)));
      if s1.external != map[] then (Observe(s1, w, 1), Refused)
      else
        var (face, a) := Lazy(FACE, s1.face, Acquire(id, source, ttl), w.clock(1));
        if a.Invalid? then (Observe(s1, w, 1), Failed)
        else Settle(s1.(face := face), w, 2, Done)
    case RenewFace(id, ttl) =>
      if id == "" then (Observe(s, w, 0), Failed)
      else
        var (face, a) := Lazy(FACE, s.face, Renew(id, ttl), w.clock(0));
        if a.Invalid? then (Observe(s, w, 0), Failed)
        else if a.NotFound? then (s.(face := face), Missing)
        else Settle(s.(face := face), w, 1, Done)
    case ReleaseFace(id) =>
      if id == "" then (Observe(s, w, 0), Failed)
      else Settle(s.(face := s.face - {id}), w, 0, if id in s.face then Done else Missing)
    case Reserve(id, source, ttl) =>
      var s1 := s.(face := Purge(s.face, w.clock(0)));
      if s1.face != map[] then (Observe(s1, w, 1), Refused)
      else
        var (external, a) := Lazy(EXTERNAL, s1.external, Acquire(id, source, ttl), w.clock(1));
        if a.Invalid? then (Observe(s1, w, 1), Failed)
        else Settle(s1.(external := external), w, 2, Done)
    case RenewReservation(id, ttl) =>
      if id == "" then (Observe(s, w, 0), Failed)
      else
        var (external, a) := Lazy(EXTERNAL, s.external, Renew(id, ttl), w.clock(0));
        if a.Invalid? then (Observe(s, w, 0), Failed)
        else if a.NotFound? then (s.(external := external), Missing)
        else Settle(s.(external := external), w, 1, Done)
    case ReleaseReservation(id) =>
      if id == "" then (Observe(s, w, 0), Failed)
      else Settle(s.(external := s.external - {id}), w, 0, if id in s.external then Done else Missing)
    case Unsupported => (s, Failed)
  }

  /** One turn of `maintain` under the lock. */
  function Tick(s: State, w: World): State {
    var s1 := Observe(s, w, 0);
    var exited := s1.worker.Some? && !w.alive(0);
    var s2 := if exited then s1.(worker := None, nextRestart := w.clock(2) + RESTART_BACKOFF) else s1;
    var (s3, raised) := Reconcile(s2, w, 3);
    var s4 := if raised then s3.(nextRestart := w.clock(6) + RESTART_BACKOFF) else s3;
    Observe(s4, w, 7)
  }

  // ----- exclusion

  /** Holds whenever the lock is free. */
  ghost predicate Exclusive(s: State) {
    && (s.face == map[] || s.external == map[])
    && (s.external != map[] ==> s.worker.None?)
  }

  lemma ObserveKeepsExclusive(s: State, w: World, i: nat)
    requires Exclusive(s)
    ensures Exclusive(Observe(s, w, i))
  {
    PurgeEmpty(s.face, w.clock(i));
    PurgeEmpty(s.external, w.clock(i + 1));
  }

  lemma PurgeEmpty(t: Table, now: int)
    ensures t == map[] ==> Purge(t, now) == map[]
  {}

  /** Reconciling restores the link between reservations and the worker. */
  lemma ReconcileExcludes(s: State, w: World, i: nat)
    requires s.face == map[] || s.external == map[]
    ensures Exclusive(Reconcile(s, w, i).0)
  {
    PurgeEmpty(s.face, w.clock(i));
    PurgeEmpty(s.external, w.clock(i + 1));
  }

  lemma SettleExcludes(s: State, w: World, i: nat, reply: Reply)
    requires s.face == map[] || s.external == map[]
    ensures Exclusive(Settle(s, w, i, reply).0)
  {
    ReconcileExcludes(s, w, i);
    var s1 := Reconcile(s, w, i).0;
    hide Reconcile, Observe, Exclusive;
    ObserveKeepsExclusive(s1, w, i + 3);
    ObserveKeepsExclusive(Observe(s1, w, i + 3), w, i + 5);
  }

  /** Neither a command that succeeds nor one that is refused or fails breaks the exclusion. */
  lemma HandleKeepsExclusive(s: State, command: Command, w: World)
    requires Exclusive(s)
    ensures Exclusive(Handle(s, command, w).0)
  {
    hide SourceName;
    hide Settle;
    PurgeEmpty(s.face, w.clock(0));
    PurgeEmpty(s.external, w.clock(0));
    ObserveKeepsExclusive(s, w, 0);
    match command
    case Status =>
    case AcquireFace(id, source, ttl) =>
      var s1 := s.(external := Purge(s.external, w.clock(0)));
      ObserveKeepsExclusive(s1, w, 1);
      if s1.external == map[] {
        SettleExcludes(s1.(face := Lazy(FACE, s1.face, AcquireCall(command), w.clock(1)).0), w, 2, Done);
      }
    case RenewFace(id, ttl) =>
      RenewKeepsEmpty(FACE, s.face, id, ttl, w.clock(0));
      SettleExcludes(s.(face := Lazy(FACE, s.face, Renew(id, ttl), w.clock(0)).0), w, 1, Done);
    case ReleaseFace(id) =>
      assert s.face == map[] ==> s.face - {id} == map[];
      SettleExcludes(s.(face := s.face - {id}), w, 0, if id in s.face then Done else Missing);
    case Reserve(id, source, ttl) =>
      var s1 := s.(face := Purge(s.face, w.clock(0)));
      ObserveKeepsExclusive(s1, w, 1);
      if s1.face == map[] {
        SettleExcludes(s1.(external := Lazy(EXTERNAL, s1.external, AcquireCall(command), w.clock(1)).0), w, 2, Done);
      }
    case RenewReservation(id, ttl) =>
      RenewKeepsEmpty(EXTERNAL, s.external, id, ttl, w.clock(0));
      SettleExcludes(s.(external := Lazy(EXTERNAL, s.external, Renew(id, ttl), w.clock(0)).0), w, 1, Done);
    case ReleaseReservation(id) =>
      assert s.external == map[] ==> s.external - {id} == map[];
      SettleExcludes(s.(external := s.external - {id}), w, 0, if id in s.external then Done else Missing);
    case Unsupported =>
  }

  /** The acquisition that a command asks its table for. */
  function AcquireCall(c: Command): Call
    requires c.AcquireFace? || c.Reserve?
  {
    Acquire(c.id, c.source, c.ttl)
  }

  lemma RenewKeepsEmpty(l: Limits, t: Table, id: string, ttl: Option<int>, now: int)
    ensures t == map[] ==> Lazy(l, t, Renew(id, ttl), now).0 == map[]
  {
    PurgeEmpty(t, now);
  }

  lemma TickKeepsExclusive(s: State, w: World)
    requires Exclusive(s)
    ensures Exclusive(Tick(s, w))
  {
    ObserveKeepsExclusive(s, w, 0);
    var s1 := Observe(s, w, 0);
    var exited := s1.worker.Some? && !w.alive(0);
    var s2 := if exited then s1.(worker := None, nextRestart := w.clock(2) + RESTART_BACKOFF) else s1;
    ReconcileExcludes(s2, w, 3);
    var (s3, raised) := Reconcile(s2, w, 3);
    hide Reconcile;
    ObserveKeepsExclusive(s3, w, 7);
    ObserveKeepsExclusive(s3.(nextRestart := w.clock(6) + RESTART_BACKOFF), w, 7);
  }

  datatype Event = Command(command: Command, world: World) | Maintain(world: World)

  function Run(s: State, events: seq<Event>): State
    decreases |events|
  {
    if events == [] then s
    else
      match events[0]
      case Command(command, w) => Run(Handle(s, command, w).0, events[1..])
      case Maintain(w) => Run(Tick(s, w), events[1..])
  }

  const START := State(map[], map[], None, false, 0)

  /** In every run, with any clocks, polls and launch failures, the device has one kind of user at a time. */
  lemma {:induction false} RunKeepsExclusive(s: State, events: seq<Event>)
    requires Exclusive(s)
    ensures Exclusive(Run(s, events))
    decreases |events|
  {
    if events != [] {
      hide Handle, Tick, Exclusive;
      match events[0]
      case Command(command, w) =>
        HandleKeepsExclusive(s, command, w);
        RunKeepsExclusive(Handle(s, command, w).0, events[1..]);
      case Maintain(w) =>
        TickKeepsExclusive(s, w);
        RunKeepsExclusive(Tick(s, w), events[1..]);
    }
  }

  // ----- what the replies mean

  /** A face lease is refused exactly when a reservation is still running at that moment. */
  lemma AcquireRefusedIff(s: State, id: string, source: string, ttl: Option<int>, w: World)
    ensures Handle(s, AcquireFace(id, source, ttl), w).1 == Refused
            <==> exists r :: r in s.external && s.external[r].expires > w.clock(0)
  {
    hide SourceName;
    hide Settle, Observe;
    SettleReply(s.(external := Purge(s.external, w.clock(0)),
                   face := Lazy(FACE, s.face, Acquire(id, source, ttl), w.clock(1)).0), w, 2, Done);
    PurgedEmptyIff(s.external, w.clock(0));
  }

  /** A later table holds the leases of an earlier one apart from some that are over at one of the readings. */
  ghost predicate Sheds(t: Table, t': Table, w: World) {
    && (forall id | id in t' :: id in t && t'[id] == t[id])
    && (forall id | id in t && id !in t' :: exists k: nat :: t[id].expires <= w.clock(k))
  }

  /** Nothing but leases that are over goes. */
  ghost predicate Untouched(s: State, t: State, w: World) {
    t.worker == s.worker && t.requested == s.requested && t.nextRestart == s.nextRestart
    && Sheds(s.face, t.face, w) && Sheds(s.external, t.external, w)
  }

  lemma PurgeSheds(t: Table, w: World, k: nat)
    ensures Sheds(t, Purge(t, w.clock(k)), w)
  {}

  lemma ShedsTwice(a: Table, b: Table, c: Table, w: World)
    requires Sheds(a, b, w) && Sheds(b, c, w)
    ensures Sheds(a, c, w)
  {}

  lemma ObserveUntouched(s: State, t: State, w: World, i: nat)
    requires Untouched(s, t, w)
    ensures Untouched(s, Observe(t, w, i), w)
  {
    hide Sheds, Purge;
    PurgeSheds(t.face, w, i);
    PurgeSheds(t.external, w, i + 1);
    ShedsTwice(s.face, t.face, Purge(t.face, w.clock(i)), w);
    ShedsTwice(s.external, t.external, Purge(t.external, w.clock(i + 1)), w);
  }

  lemma SelfUntouched(s: State, w: World)
    ensures Untouched(s, s, w)
  {}

  /** A status command, a refusal, and a renewal that finds nothing leave the worker and the running leases alone. */
  lemma RefusalsTouchNothing(s: State, command: Command, w: World)
    requires command.Status? || Handle(s, command, w).1 == Refused || (Handle(s, command, w).1 == Missing && (command.RenewFace? || command.RenewReservation?))
    ensures Untouched(s, Handle(s, command, w).0, w)
  {
    hide SourceName, Observe, Untouched, Settle, Purge;
    SelfUntouched(s, w);
    ObserveUntouched(s, s, w, 0);
    ShedOne(s, w);
    ObserveUntouched(s, s.(external := Purge(s.external, w.clock(0))), w, 1);
    ObserveUntouched(s, s.(face := Purge(s.face, w.clock(0))), w, 1);
    forall t, i: nat, reply ensures Settle(t, w, i, reply).1 in {reply, Failed} {
      SettleReply(t, w, i, reply);
    }
  }

  lemma ShedOne(s: State, w: World)
    ensures Untouched(s, s.(external := Purge(s.external, w.clock(0))), w)
    ensures Untouched(s, s.(face := Purge(s.face, w.clock(0))), w)
  {
    hide Sheds, Purge;
    PurgeSheds(s.face, w, 0);
    PurgeSheds(s.external, w, 0);
    SelfUntouched(s, w);
  }

  lemma SettleReply(s: State, w: World, i: nat, reply: Reply)
    ensures Settle(s, w, i, reply).1 in {reply, Failed}
  {
    hide Reconcile, Observe;
  }

  lemma PurgedEmptyIff(t: Table, now: int)
    ensures Purge(t, now) == map[] <==> !exists id :: id in t && t[id].expires > now
  {
    if id :| id in t && t[id].expires > now {
      assert id in Purge(t, now);
    } else {
      assert Purge(t, now) == map[];
    }
  }

  /**
   A reservation is refused exactly when a face lease is still running; once granted, no
   face lease and no worker handle is left, and the reservation stands until it expires.
   */
  lemma ReserveOutcome(s: State, id: string, source: string, ttl: Option<int>, w: World)
    ensures var (t, reply) := Handle(s, Reserve(id, source, ttl), w);
            && (reply == Refused <==> exists f :: f in s.face && s.face[f].expires > w.clock(0))
            && (reply == Done ==> ttl.Some? && t.face == map[] && t.worker.None?)
            && (reply == Done && (forall i: nat :: i <= 8 ==> w.clock(i) < w.clock(1) + Ttl(EXTERNAL, ttl.value)) ==> id in t.external)
  {
    hide SourceName;
    PurgedEmptyIff(s.face, w.clock(0));
    var s1 := s.(face := Purge(s.face, w.clock(0)));
    var external := Lazy(EXTERNAL, s1.external, Acquire(id, source, ttl), w.clock(1)).0;
    if s1.face == map[] && ttl.Some? {
      SettleReserved(s1.(external := external), w, id);
    }
    hide Settle, Observe;
  }

  lemma SettleReserved(s: State, w: World, id: string)
    requires s.face == map[] && id in s.external
    ensures var (t, reply) := Settle(s, w, 2, Done);
            && t.face == map[] && t.worker.None? && reply == Done
            && (w.clock(6) < s.external[id].expires && w.clock(8) < s.external[id].expires ==> id in t.external)
  {
    hide SourceName;
    PurgeEmpty(s.face, w.clock(2));
    PurgeEmpty(s.face, w.clock(5));
    PurgeEmpty(s.face, w.clock(7));
  }

  /** With a clock that does not go back, a tick that finds every face lease expired leaves no worker behind. */
  lemma TickStopsIdleWorker(s: State, w: World)
    requires forall id | id in s.face :: s.face[id].expires <= w.clock(0)
    ensures Tick(s, w).face == map[] && Tick(s, w).worker.None? && !Tick(s, w).requested
  {
    PurgedEmptyIff(s.face, w.clock(0));
    PurgeEmpty(map[], w.clock(3));
    PurgeEmpty(map[], w.clock(7));
  }

  /** No worker is launched before the back-off after an exit or a failed start has passed. */
  lemma BackoffRespected(s: State, w: World, i: nat)
    requires s.worker.None? && w.clock(i + 2) < s.nextRestart
    ensures Reconcile(s, w, i).0.worker.None? && !Reconcile(s, w, i).1
  {}

  lemma TickSetsBackoff(s: State, w: World)
    requires s.worker.Some? && !w.alive(0) && w.clock(5) < w.clock(2) + 2000
    ensures Tick(s, w).worker.None? && Tick(s, w).nextRestart == w.clock(2) + 2000
  {
    var s2 := Observe(s, w, 0).(worker := None, nextRestart := w.clock(2) + RESTART_BACKOFF);
    BackoffRespected(s2, w, 3);
  }

  /** Every reading of the clock comes before `time`. */
  ghost predicate Before(events: seq<Event>, time: int) {
    forall i, n: nat | 0 <= i < |events| :: events[i].world.clock(n) < time
  }

  lemma HandleRespectsBackoff(s: State, command: Command, w: World)
    requires s.worker.None? && forall n: nat :: w.clock(n) < s.nextRestart
    ensures Handle(s, command, w).0.worker.None? && Handle(s, command, w).0.nextRestart == s.nextRestart
  {
    hide Lazy, Purge;
  }

  lemma TickRespectsBackoff(s: State, w: World)
    requires s.worker.None? && forall n: nat :: w.clock(n) < s.nextRestart
    ensures Tick(s, w).worker.None? && Tick(s, w).nextRestart == s.nextRestart
  {
    hide Purge;
  }

  /** After an exit or a failed start, no run of commands and ticks before the restart time launches a worker. */
  lemma {:induction false} RunRespectsBackoff(s: State, events: seq<Event>)
    requires s.worker.None? && Before(events, s.nextRestart)
    ensures Run(s, events).worker.None? && Run(s, events).nextRestart == s.nextRestart
    decreases |events|
  {
    if events != [] {
      hide Handle, Tick;
      assert forall n: nat :: events[0].world.clock(n) < s.nextRestart;
      assert forall i | 0 <= i < |events[1..]| :: events[1..][i] == events[i + 1];
      match events[0]
      case Command(command, w) =>
        HandleRespectsBackoff(s, command, w);
        RunRespectsBackoff(Handle(s, command, w).0, events[1..]);
      case Maintain(w) =>
        TickRespectsBackoff(s, w);
        RunRespectsBackoff(Tick(s, w), events[1..]);
    }
  }

  // ----- when a worker must be there

  predicate LiveLease(t: Table, now: int) {
    exists id | id in t :: t[id].expires > now
  }

  lemma LiveIffPurged(t: Table, now: int)
    ensures LiveLease(t, now) <==> Purge(t, now) != map[]
  {
    PurgedEmptyIff(t, now);
  }

  /** The device is wanted by a face lease and not reserved. */
  predicate Wanted(s: State, w: World, i: nat) {
    LiveLease(s.face, w.clock(i)) && !LiveLease(s.external, w.clock(i + 1))
  }

  /** The worker after reconciling: none if it is not wanted, the running one if there is one, else a new one once the back-off is over. */
  ghost predicate WorkerSettled(s: State, w: World, i: nat, worker: Option<int>, raised: bool) {
    if !Wanted(s, w, i) then worker.None? && !raised
    else if (s.worker.Some? && w.alive(i)) || w.clock(i + 2) < s.nextRestart then worker == s.worker && !raised
    else if w.launch.Some? then worker == w.launch && !raised
    else worker == s.worker && raised
  }

  lemma ReconcileSettles(s: State, w: World, i: nat)
    ensures var (t, raised) := Reconcile(s, w, i);
            && WorkerSettled(s, w, i, t.worker, raised) && t.requested == Wanted(s, w, i) && t.nextRestart == s.nextRestart
  {
    LiveIffPurged(s.face, w.clock(i));
    LiveIffPurged(s.external, w.clock(i + 1));
    hide Purge, LiveLease;
  }

  lemma SettleSettles(s: State, w: World, i: nat, reply: Reply)
    ensures var (t, answer) := Settle(s, w, i, reply);
            exists raised :: WorkerSettled(s, w, i, t.worker, raised) && answer == (if raised then Failed else reply)
    ensures Settle(s, w, i, reply).0.requested == Wanted(s, w, i)
  {
    ReconcileSettles(s, w, i);
    var (t, raised) := Reconcile(s, w, i);
    hide Reconcile, Purge, Wanted;
    assert WorkerSettled(s, w, i, Settle(s, w, i, reply).0.worker, raised);
  }

  /**
   A face lease that is granted, at a moment without reservation, brings the worker up: the one that
   runs goes on, otherwise a new one is launched if the back-off is over, and a launch that fails is reported.
   */
  lemma AcquireStarts(s: State, id: string, source: string, ttl: int, w: World)
    requires !LiveLease(s.external, w.clock(0)) && w.clock(2) < w.clock(1) + Ttl(FACE, ttl)
    ensures var (t, reply) := Handle(s, AcquireFace(id, source, Some(ttl)), w);
            if s.worker.Some? && w.alive(2) then t.worker == s.worker && reply == Done
            else if w.clock(4) < s.nextRestart then t.worker == s.worker && reply == Done
            else if w.launch.Some? then t.worker == w.launch && reply == Done
            else t.worker == s.worker && reply == Failed
  {
    hide SourceName;
    LiveIffPurged(s.external, w.clock(0));
    var s1 := s.(external := Purge(s.external, w.clock(0)), face := Lazy(FACE, s.face, Acquire(id, source, Some(ttl)), w.clock(1)).0);
    assert s1.external == map[] && id in s1.face && s1.face[id].expires > w.clock(2);
    assert LiveLease(s1.face, w.clock(2)) && !LiveLease(s1.external, w.clock(3));
    SettleSettles(s1, w, 2, Done);
    hide Settle, Lazy, Purge, LiveLease;
  }

  /** Renewing is answered by whether the lease is still running, and keeps the worker of a running lease. */
  lemma RenewOutcome(s: State, id: string, ttl: int, w: World)
    requires id != ""
    ensures var (t, reply) := Handle(s, RenewFace(id, Some(ttl)), w);
            var running := id in s.face && s.face[id].expires > w.clock(0);
            && (!running ==> reply == Missing && t.worker == s.worker)
            && (running && s.worker.Some? && w.alive(1) && w.clock(1) < w.clock(0) + Ttl(FACE, ttl) && !LiveLease(s.external, w.clock(2)) ==>
                  reply == Done && t.worker == s.worker)
  {
    hide SourceName;
    if id in s.face && s.face[id].expires > w.clock(0) {
      var s1 := s.(face := Lazy(FACE, s.face, Renew(id, Some(ttl)), w.clock(0)).0);
      assert id in s1.face && s1.face[id].expires == w.clock(0) + Ttl(FACE, ttl);
      SettleSettles(s1, w, 1, Done);
      if w.clock(1) < w.clock(0) + Ttl(FACE, ttl) {
        assert LiveLease(s1.face, w.clock(1));
      }
      hide Settle, Lazy, Purge, LiveLease;
    }
  }

  lemma ObserveDrops(s: State, w: World, i: nat, id: string)
    ensures id !in s.face ==> id !in Observe(s, w, i).face
    ensures id !in s.external ==> id !in Observe(s, w, i).external
    ensures Observe(s, w, i).worker == s.worker
  {}

  lemma SettleDrops(s: State, w: World, i: nat, reply: Reply, id: string)
    ensures id !in s.face ==> id !in Settle(s, w, i, reply).0.face
    ensures id !in s.external ==> id !in Settle(s, w, i, reply).0.external
  {
    var s1 := Reconcile(s, w, i).0;
    hide Observe;
    ObserveDrops(s1, w, i + 3, id);
    ObserveDrops(Observe(s1, w, i + 3), w, i + 5, id);
  }

  /** Without this reservation a face lease can have its worker at once. */
  predicate Freed(s: State, id: string, w: World) {
    && LiveLease(s.face, w.clock(0)) && !LiveLease(s.external - {id}, w.clock(1))
    && s.worker.None? && w.clock(2) >= s.nextRestart && w.launch.Some?
  }

  /** Giving a lease back removes it, is answered by whether the table held it, and stops the worker of the last one. */
  lemma ReleaseOutcome(s: State, id: string, w: World)
    requires id != ""
    ensures var (t, reply) := Handle(s, ReleaseFace(id), w);
            && id !in t.face && reply in {if id in s.face then Done else Missing, Failed}
            && (!LiveLease(s.face - {id}, w.clock(0)) ==> t.worker.None? && reply != Failed)
    ensures var (t, reply) := Handle(s, ReleaseReservation(id), w);
            && id !in t.external && reply in {if id in s.external then Done else Missing, Failed}
            && (Freed(s, id, w) ==> t.worker == w.launch)
  {
    var a, b := s.(face := s.face - {id}), s.(external := s.external - {id});
    var ra, rb := if id in s.face then Done else Missing, if id in s.external then Done else Missing;
    SettleSettles(a, w, 0, ra);
    SettleDrops(a, w, 0, ra, id);
    SettleSettles(b, w, 0, rb);
    SettleDrops(b, w, 0, rb, id);
    hide Settle, LiveLease;
  }

  /** A reservation can be renewed exactly while it runs. */
  lemma RenewReservationOutcome(s: State, id: string, ttl: int, w: World)
    requires id != ""
    ensures Handle(s, RenewReservation(id, Some(ttl)), w).1 == Missing
            <==> !(id in s.external && s.external[id].expires > w.clock(0))
  {
    hide SourceName;
    SettleReply(s.(external := Lazy(EXTERNAL, s.external, Renew(id, Some(ttl)), w.clock(0)).0), w, 1, Done);
    hide Settle;
  }

  /**
   A maintenance tick while the device is wanted: a live worker is kept; a missing one is launched as
   soon as the restart time is reached, and a launch that fails puts it off by two seconds more.
   */
  lemma TickRestarts(s: State, w: World)
    requires LiveLease(s.face, w.clock(0)) && LiveLease(s.face, w.clock(3)) && !LiveLease(s.external, w.clock(1))
    requires w.clock(0) <= w.clock(3)
    ensures s.worker.Some? && w.alive(0) && w.alive(3) ==> Tick(s, w).worker == s.worker && Tick(s, w).nextRestart == s.nextRestart
    ensures s.worker.None? && w.clock(5) >= s.nextRestart ==>
              Tick(s, w).worker == w.launch
              && Tick(s, w).nextRestart == if w.launch.Some? then s.nextRestart else w.clock(6) + 2000
  {
    var s1 := Observe(s, w, 0);
    LiveIffPurged(s.external, w.clock(1));
    var f :| f in s.face && s.face[f].expires > w.clock(3);
    assert f in s1.face && s1.external == map[];
    assert LiveLease(s1.face, w.clock(3)) && !LiveLease(s1.external, w.clock(4));
    ReconcileSettles(s1, w, 3);
    hide Reconcile, Purge, LiveLease;
  }

  /** Face leases last half a second to five minutes, reservations one to thirty seconds. */
  lemma DeviceLimits()
    ensures FACE == Limits(500, 300_000) && EXTERNAL == Limits(1000, 30_000)
  {}

  // ----- the supervisor object

  class FaceTrackerSupervisor {
    const leases: VisionLeaseManager
    const external: VisionLeaseManager
    var worker: Option<int>
    var requested: bool
    var nextRestart: int

    ghost predicate Valid()
      reads this
    {
      leases != external && leases.limits == FACE && external.limits == EXTERNAL
    }

    function Current(): State
      reads this, leases, external
    {
      State(leases.leases, external.leases, worker, requested, nextRestart)
    }

    constructor ()
      ensures Valid() && fresh(leases) && fresh(external) && Current() == START
    {
      leases := new VisionLeaseManager(500, 300_000);
      external := new VisionLeaseManager(1000, 30_000);
      worker, requested, nextRestart := None, false, 0;
    }

    method TakeSnapshot(w: World, i: nat)
      requires Valid()
      modifies leases, external
      ensures Current() == Observe(old(Current()), w, i)
    {
      var _ := leases.ExpireLocked(w.clock(i));
      var _ := external.ExpireLocked(w.clock(i + 1));
    }

    method StartWorker(w: World, i: nat) returns (raised: bool)
      requires Valid()
      modifies this
      ensures Valid()
      ensures worker == if old(WorkerRunning(Current(), w, i)) || w.launch.None? then old(worker) else w.launch
      ensures raised == (!old(WorkerRunning(Current(), w, i)) && w.launch.None?)
      ensures requested == old(requested) && nextRestart == old(nextRestart)
    {
      if WorkerRunning(Current(), w, i) {
        return false;
      }
      if w.launch.None? {
        return true;
      }
      worker, raised := w.launch, false;
    }

    method ReconcileNow(w: World, i: nat) returns (raised: bool)
      requires Valid()
      modifies this, leases, external
      ensures Valid() && (Current(), raised) == Reconcile(old(Current()), w, i)
    {
      raised := false;
      var desired := leases.IsActiveNow(w.clock(i));
      if desired {
        var reserved := external.IsActiveNow(w.clock(i + 1));
        desired := !reserved;
      }
      requested := desired;
      if desired {
        if !WorkerRunning(Current(), w, i) && w.clock(i + 2) >= nextRestart {
          raised := StartWorker(w, i);
        }
      } else if worker.Some? {
        worker := None;
      }
    }

    /** One request, from taking the lock to releasing it. */
    method HandleRequest(command: Command, w: World) returns (reply: Reply)
      requires Valid()
      modifies this, leases, external
      ensures Valid() && (Current(), reply) == Handle(old(Current()), command, w)
    {
      hide Settle, Reconcile, Observe;
      match command {
        case Status =>
          TakeSnapshot(w, 0);
          reply := Done;
        case AcquireFace(id, source, ttl) =>
          var reserved := external.IsActiveNow(w.clock(0));
          if reserved {
            TakeSnapshot(w, 1);
            return Refused;
          }
          var a := leases.AcquireLease(id, source, ttl, w.clock(1));
          if a.Invalid? {
            TakeSnapshot(w, 1);
            return Failed;
          }
          reply := SettleNow(w, 2, Done);
        case RenewFace(id, ttl) =>
          if id == "" {
            TakeSnapshot(w, 0);
            return Failed;
          }
          var a := leases.RenewLease(id, ttl, w.clock(0));
          if a.Invalid? {
            TakeSnapshot(w, 0);
            return Failed;
          }
          if a.NotFound? {
            return Missing;
          }
          reply := SettleNow(w, 1, Done);
        case ReleaseFace(id) =>
          if id == "" {
            TakeSnapshot(w, 0);
            return Failed;
          }
          var found := leases.ReleaseLease(id);
          reply := SettleNow(w, 0, if found then Done else Missing);
        case Reserve(id, source, ttl) =>
          var active := leases.IsActiveNow(w.clock(0));
          if active {
            TakeSnapshot(w, 1);
            return Refused;
          }
          var a := external.AcquireLease(id, source, ttl, w.clock(1));
          if a.Invalid? {
            TakeSnapshot(w, 1);
            return Failed;
          }
          reply := SettleNow(w, 2, Done);
        case RenewReservation(id, ttl) =>
          if id == "" {
            TakeSnapshot(w, 0);
            return Failed;
          }
          var a := external.RenewLease(id, ttl, w.clock(0));
          if a.Invalid? {
            TakeSnapshot(w, 0);
            return Failed;
          }
          if a.NotFound? {
            return Missing;
          }
          reply := SettleNow(w, 1, Done);
        case ReleaseReservation(id) =>
          if id == "" {
            TakeSnapshot(w, 0);
            return Failed;
          }
          var found := external.ReleaseLease(id);
          reply := SettleNow(w, 0, if found then Done else Missing);
        case Unsupported =>
          reply := Failed;
      }
    }

    method SettleNow(w: World, i: nat, success: Reply) returns (reply: Reply)
      requires Valid()
      modifies this, leases, external
      ensures Valid() && (Current(), reply) == Settle(old(Current()), w, i, success)
    {
      hide Reconcile, Observe;
      var raised := ReconcileNow(w, i);
      TakeSnapshot(w, i + 3);
      if raised {
        return Failed;
      }
      TakeSnapshot(w, i + 5);
      return success;
    }

    /** One turn of the maintenance thread. */
    method MaintainOnce(w: World)
      requires Valid()
      modifies this, leases, external
      ensures Valid() && Current() == Tick(old(Current()), w)
    {
      hide Reconcile;
      var _ := leases.ExpireAll(w.clock(0));
      var _ := external.ExpireAll(w.clock(1));
      if worker.Some? && !w.alive(0) {
        worker := None;
        nextRestart := w.clock(2) + RESTART_BACKOFF;
      }
      var raised := ReconcileNow(w, 3);
      if raised {
        nextRestart := w.clock(6) + RESTART_BACKOFF;
      }
      TakeSnapshot(w, 7);
    }
  }
}
