/**
 The agent runtime broker (apps/agent-runtime/agent_runtime_service.py): connection
 handlers that interleave at their await points over one registry of active requests and
 one semaphore. Code between two awaits is one step.
 */
module AgentBroker {
  import opened Common

  /**
   Where a handler waits: for its request line, for the "accepted" message to be sent,
   for the semaphore, for the adapter, for the last message to be sent; or it is gone.
   */
  datatype Place = Reading | Announcing | Waiting | Working | Replying | Gone

  /** `cancelled` is the handler's own asyncio event; `ran` says that it called the adapter. */
  datatype Handler = Handler(request: string, registered: bool, place: Place, cancelled: bool, ran: bool)

  /** `active` maps a request id to the handler whose cancellation event is stored there. */
  datatype Server = Server(active: map<string, int>, handlers: map<int, Handler>, permits: int)

  function NewServer(maxConcurrency: int): Server {
    Server(map[], map[], Clamp(1, maxConcurrency, 8))
  }

  datatype Step =
    | Connect(h: int)
    | Refuse(h: int)
    | Register(h: int, request: string)
    | Announced(h: int)
    | Enter(h: int)
    | Return(h: int)
    | Abandon(h: int)
    | CleanUp(h: int)
    | Cancel(request: string)
    | Close

  predicate At(s: Server, h: int, p: Place) {
    h in s.handlers && s.handlers[h].place == p
  }

  predicate Enabled(s: Server, step: Step) {
    match step
    case Connect(h) => h !in s.handlers
    case Refuse(h) => At(s, h, Reading)
    case Register(h, _) => At(s, h, Reading)
    case Announced(h) => At(s, h, Announcing)
    case Enter(h) => At(s, h, Waiting) && s.permits > 0
    case Return(h) => At(s, h, Working)
    case Abandon(h) => At(s, h, Announcing) || At(s, h, Waiting)
    case CleanUp(h) => At(s, h, Replying)
    case Cancel(_) => true
    case Close => true
  }

  function Move(s: Server, h: int, p: Place): Server
    requires h in s.handlers
  {
    s.(handlers := s.handlers[h := s.handlers[h].(place := p)])
  }

  /** Sets the events of the given handlers. */
  function Flag(handlers: map<int, Handler>, hs: set<int>): map<int, Handler> {
    map h | h in handlers :: if h in hs then handlers[h].(cancelled := true) else handlers[h]
  }

  function Next(s: Server, step: Step): Server
    requires Enabled(s, step)
  {
    match step
    case Connect(h) => s.(handlers := s.handlers[h := Handler("", false, Reading, false, false)])
    // a denied peer, a malformed request, a health or cancel request, or an invalid run request
    case Refuse(h) => Move(s, h, Replying)
    // under active_lock: a duplicate id is an error, otherwise the event is stored
    case Register(h, request) =>
      if request in s.active then s.(handlers := s.handlers[h := s.handlers[h].(request := request, place := Replying)])
      else s.(active := s.active[request := h],
              handlers := s.handlers[h := s.handlers[h].(request := request, registered := true, place := Announcing)])
    case Announced(h) => Move(s, h, Waiting)
    // the semaphore is acquired and the event is looked at before anything else can run
    case Enter(h) =>
      if s.handlers[h].cancelled then Move(s, h, Replying)
      else s.(handlers := s.handlers[h := s.handlers[h].(place := Working, ran := true)], permits := s.permits - 1)
    case Return(h) => Move(s, h, Replying).(permits := s.permits + 1)
    case Abandon(h) => Move(s, h, Replying)
    case CleanUp(h) =>
      var t := Move(s, h, Gone);
      if s.handlers[h].registered then t.(active := s.active - {s.handlers[h].request}) else t
    case Cancel(request) =>
      if request in s.active then s.(handlers := Flag(s.handlers, {s.active[request]})) else s
    case Close => s.(handlers := Flag(s.handlers, set r | r in s.active :: s.active[r]))
  }

  predicate Possible(s: Server, steps: seq<Step>)
    decreases |steps|
  {
    steps == [] || (Enabled(s, steps[0]) && Possible(Next(s, steps[0]), steps[1..]))
  }

  function Run(s: Server, steps: seq<Step>): Server
    requires Possible(s, steps)
    decreases |steps|
  {
    if steps == [] then s else Run(Next(s, steps[0]), steps[1..])
  }

  // ----- the registry and the semaphore

  /** Registered and not yet cleaned up. */
  predicate Live(s: Server, h: int) {
    h in s.handlers && s.handlers[h].registered && s.handlers[h].place != Gone
  }

  function Workers(s: Server): set<int> {
    set h | h in s.handlers && s.handlers[h].place == Working
  }

  /** The registry and the live handlers point at each other. */
  ghost predicate RegistryInv(s: Server) {
    && (forall r | r in s.active :: Live(s, s.active[r]) && s.handlers[s.active[r]].request == r)
    && (forall h | Live(s, h) :: s.handlers[h].request in s.active && s.active[s.handlers[h].request] == h)
    && (forall h | h in s.handlers && !s.handlers[h].registered ::
          s.handlers[h].place in {Reading, Replying, Gone} && !s.handlers[h].cancelled)
    && (forall h | h in s.handlers && s.handlers[h].registered :: s.handlers[h].place != Reading)
  }

  /** A handler that moves along without being registered or forgotten. */
  predicate Onward(a: Handler, b: Handler) {
    && b.request == a.request && b.registered == a.registered && (a.place == Gone <==> b.place == Gone)
    && (b.cancelled ==> a.cancelled || a.registered)
    && (b.place == a.place || b.place == Replying || (a.registered && b.place in {Waiting, Working}))
  }

  ghost predicate SameRegistry(s: Server, t: Server) {
    && t.active == s.active && t.handlers.Keys == s.handlers.Keys
    && forall h | h in s.handlers :: Onward(s.handlers[h], t.handlers[h])
  }

  lemma StepSameRegistry(s: Server, step: Step)
    requires RegistryInv(s) && Enabled(s, step) && !step.Connect? && !step.Register? && !step.CleanUp?
    ensures SameRegistry(s, Next(s, step))
  {
    if !step.Cancel? && !step.Close? {
      assert Onward(s.handlers[step.h], Next(s, step).handlers[step.h]);
      OnwardSelf(s);
      hide Onward, RegistryInv;
    }
  }

  lemma OnwardSelf(s: Server)
    ensures forall h | h in s.handlers :: Onward(s.handlers[h], s.handlers[h])
  {}

  lemma SameRegistryKeeps(s: Server, t: Server)
    requires RegistryInv(s) && SameRegistry(s, t)
    ensures RegistryInv(t)
  {
    assert forall h :: Live(t, h) <==> Live(s, h);
  }

  lemma StepKeepsRegistry(s: Server, step: Step)
    requires RegistryInv(s) && Enabled(s, step)
    ensures RegistryInv(Next(s, step))
  {
    if step.Connect? {
      assert forall h :: Live(Next(s, step), h) <==> Live(s, h);
    } else if step.Register? {
      RegisterKeepsRegistry(s, step.h, step.request);
    } else if step.CleanUp? {
      CleanUpKeepsRegistry(s, step.h);
    } else {
      StepSameRegistry(s, step);
      hide Next, Enabled;
      SameRegistryKeeps(s, Next(s, step));
    }
  }

  lemma RegisterKeepsRegistry(s: Server, h: int, request: string)
    requires RegistryInv(s) && Enabled(s, Register(h, request))
    ensures RegistryInv(Next(s, Register(h, request)))
  {
    var t := Next(s, Register(h, request));
    assert forall g :: Live(t, g) <==> Live(s, g) || (g == h && request !in s.active);
  }

  lemma CleanUpKeepsRegistry(s: Server, h: int)
    requires RegistryInv(s) && Enabled(s, CleanUp(h))
    ensures RegistryInv(Next(s, CleanUp(h)))
  {
    var t := Next(s, CleanUp(h));
    assert s.handlers[h].registered ==> Live(s, h);
    assert forall g :: Live(t, g) <==> Live(s, g) && g != h;
  }

  /** One set has one element more. */
  lemma OneMore(a: set<int>, b: set<int>, h: int)
    requires h !in a && forall g: int :: g in b <==> g in a || g == h
    ensures |b| == |a| + 1
  {
    SameKeys(b, a + {h});
  }

  lemma EnterAddsWorker(s: Server, h: int)
    requires Enabled(s, Enter(h)) && !s.handlers[h].cancelled
    ensures |Workers(Next(s, Enter(h)))| == |Workers(s)| + 1
  {
    var t := Next(s, Enter(h));
    forall g: int ensures g in Workers(t) <==> g in Workers(s) || g == h {
    }
    hide Next, Enabled;
    assert h !in Workers(s);
    hide Workers;
    OneMore(Workers(s), Workers(t), h);
  }

  lemma ReturnDropsWorker(s: Server, h: int)
    requires Enabled(s, Return(h))
    ensures |Workers(s)| == |Workers(Next(s, Return(h)))| + 1
  {
    var t := Next(s, Return(h));
    forall g: int ensures g in Workers(s) <==> g in Workers(t) || g == h {
    }
    assert h !in Workers(t);
    hide Next, Enabled, Workers;
    OneMore(Workers(t), Workers(s), h);
  }

  lemma StepKeepsPermits(s: Server, step: Step)
    requires s.permits >= 0 && Enabled(s, step)
    ensures Next(s, step).permits >= 0
    ensures Next(s, step).permits + |Workers(Next(s, step))| == s.permits + |Workers(s)|
  {
    if step.Enter? && !s.handlers[step.h].cancelled {
      EnterAddsWorker(s, step.h);
    } else if step.Return? {
      ReturnDropsWorker(s, step.h);
    } else {
      SameWorkers(s, step);
    }
    hide Workers, Flag;
  }

  lemma SameWorkers(s: Server, step: Step)
    requires Enabled(s, step) && !step.Return? && !(step.Enter? && !s.handlers[step.h].cancelled)
    ensures Workers(Next(s, step)) == Workers(s) && Next(s, step).permits == s.permits
  {
    var t := Next(s, step);
    forall h: int ensures h in Workers(t) <==> h in Workers(s) {
    }
    hide Next, Workers;
    SameKeys(Workers(t), Workers(s));
  }

  lemma {:induction false} RunKeepsInv(s: Server, steps: seq<Step>)
    requires RegistryInv(s) && s.permits >= 0 && Possible(s, steps)
    ensures var t := Run(s, steps);
            RegistryInv(t) && t.permits >= 0 && t.permits + |Workers(t)| == s.permits + |Workers(s)|
    decreases |steps|
  {
    if steps != [] {
      StepKeepsRegistry(s, steps[0]);
      StepKeepsPermits(s, steps[0]);
      hide Next, Enabled, RegistryInv, Workers;
      RunKeepsInv(Next(s, steps[0]), steps[1..]);
    }
  }

  /**
   In every interleaving: the keys of `active` are exactly the request ids of the
   registered handlers that have not cleaned up, no two of those share an id, and at
   most clamp(max, 1, 8) handlers are inside the semaphore.
   */
  lemma BrokerSafe(maxConcurrency: int, steps: seq<Step>)
    requires Possible(NewServer(maxConcurrency), steps)
    ensures var s := Run(NewServer(maxConcurrency), steps);
            && (forall r :: r in s.active <==> exists h :: Live(s, h) && s.handlers[h].request == r)
            && (forall g, h | Live(s, g) && Live(s, h) && s.handlers[g].request == s.handlers[h].request :: g == h)
            && |Workers(s)| + s.permits == Clamp(1, maxConcurrency, 8) && s.permits >= 0
  {
    var s0 := NewServer(maxConcurrency);
    assert Workers(s0) == {};
    RunKeepsInv(s0, steps);
    var s := Run(s0, steps);
    hide Run, Possible;
    forall r ensures r in s.active <==> exists h :: Live(s, h) && s.handlers[h].request == r {
      if r in s.active {
        assert Live(s, s.active[r]);
      }
    }
  }

  /** Only the handler that registered an id removes it; a rejected duplicate leaves the registry alone. */
  lemma OnlyOwnerRemoves(s: Server, step: Step, r: string)
    requires RegistryInv(s) && Enabled(s, step) && r in s.active && r !in Next(s, step).active
    ensures step == CleanUp(s.active[r])
  {
    assert Live(s, s.active[r]);
    if step.CleanUp? && s.handlers[step.h].registered {
      assert Live(s, step.h);
    }
  }

  lemma DuplicateRejected(s: Server, h: int, r: string)
    requires RegistryInv(s) && Enabled(s, Register(h, r)) && r in s.active
    ensures var t := Next(s, Register(h, r));
            t.active == s.active && Enabled(t, CleanUp(h)) && Next(t, CleanUp(h)).active == s.active
  {
    assert !s.handlers[h].registered;
  }

  // ----- cancellation

  /** Cancelled before it entered the semaphore. */
  predicate Doomed(s: Server, h: int) {
    h in s.handlers && s.handlers[h].cancelled && !s.handlers[h].ran
  }

  lemma StepKeepsDoomed(s: Server, step: Step, h: int)
    requires Doomed(s, h) && Enabled(s, step)
    ensures Doomed(Next(s, step), h)
  {}

  /** A handler cancelled before entering never runs the adapter, however the run goes on. */
  lemma {:induction false} DoomedNeverRuns(s: Server, steps: seq<Step>, h: int)
    requires Doomed(s, h) && Possible(s, steps)
    ensures Doomed(Run(s, steps), h)
    decreases |steps|
  {
    if steps != [] {
      StepKeepsDoomed(s, steps[0], h);
      hide Next, Enabled, Doomed;
      DoomedNeverRuns(Next(s, steps[0]), steps[1..], h);
    }
  }

  /** A cancel request dooms exactly the registered handler of that id, if it has not entered yet; `close` dooms them all. */
  lemma CancelDooms(s: Server, r: string, h: int)
    requires RegistryInv(s) && Live(s, h) && !s.handlers[h].ran && !s.handlers[h].cancelled
    ensures Doomed(Next(s, Cancel(r)), h) <==> s.handlers[h].request == r
    ensures Doomed(Next(s, Close), h)
  {
    assert s.active[s.handlers[h].request] == h;
    assert h in set q | q in s.active :: s.active[q];
    if r in s.active && s.active[r] == h {
      assert s.handlers[s.active[r]].request == r;
    }
  }

  // ----- a request that is not cancelled is served

  /** A new id is registered, whatever ids are in use otherwise. */
  lemma FreshRegisters(s: Server, h: int, r: string)
    requires RegistryInv(s) && Enabled(s, Register(h, r)) && r !in s.active
    ensures var t := Next(s, Register(h, r));
            && t.active == s.active[r := h] && At(t, h, Announcing) && !t.handlers[h].cancelled && t.handlers[h].request == r
            && (forall g | g in s.handlers && g != h :: g in t.handlers && t.handlers[g] == s.handlers[g])
            && Enabled(t, Announced(h)) && At(Next(t, Announced(h)), h, Waiting)
  {
    assert !s.handlers[h].registered;
  }

  /** A waiting handler enters as soon as a permit is free, calls the adapter unless it was cancelled, and gives the permit back. */
  lemma EntersAndLeaves(s: Server, h: int)
    requires At(s, h, Waiting) && s.permits > 0
    ensures Enabled(s, Enter(h))
    ensures var t := Next(s, Enter(h));
            if s.handlers[h].cancelled then
              At(t, h, Replying) && t.permits == s.permits && t.handlers[h].ran == s.handlers[h].ran
            else
              && At(t, h, Working) && t.handlers[h].ran && t.permits == s.permits - 1
              && Enabled(t, Return(h)) && At(Next(t, Return(h)), h, Replying) && Next(t, Return(h)).permits == s.permits
    ensures Next(s, Enter(h)).active == s.active
  {}

  /** A handler that is refused or abandoned goes on to its reply, and one that has replied can clean up; nobody else is touched. */
  lemma RefusedReplies(s: Server, step: Step)
    requires (step.Refuse? || step.Abandon?) && Enabled(s, step)
    ensures var t := Next(s, step);
            && t.active == s.active && t.permits == s.permits && Enabled(t, CleanUp(step.h))
            && t.handlers == s.handlers[step.h := s.handlers[step.h].(place := Replying)]
  {}

  /** Cleaning up frees exactly the handler's own id, and it can be used again. */
  lemma CleanUpFrees(s: Server, h: int)
    requires RegistryInv(s) && Enabled(s, CleanUp(h))
    ensures var t := Next(s, CleanUp(h));
            && At(t, h, Gone) && t.permits == s.permits
            && (forall r :: r in t.active <==> r in s.active && !(s.handlers[h].registered && s.handlers[h].request == r))
            && (forall r | r in t.active :: t.active[r] == s.active[r])
  {}

  // ----- the server object: the sections without an await, over its own state

  class AgentRuntimeServer {
    var active: map<string, int>
    var handlers: map<int, Handler>
    var permits: int

    function Current(): Server
      reads this
    {
      Server(active, handlers, permits)
    }

    constructor (maxConcurrency: int)
      ensures Current() == NewServer(maxConcurrency)
    {
      active, handlers, permits := map[], map[], Clamp(1, maxConcurrency, 8);
    }

    method RegisterRequest(h: int, request: string) returns (duplicate: bool)
      requires Enabled(Current(), Register(h, request))
      modifies this
      ensures Current() == Next(old(Current()), Register(h, request)) && duplicate == (request in old(active))
    {
      if request in active {
        handlers := handlers[h := handlers[h].(request := request, place := Replying)];
        return true;
      }
      active := active[request := h];
      handlers := handlers[h := handlers[h].(request := request, registered := true, place := Announcing)];
      return false;
    }

    method EnterSemaphore(h: int) returns (runs: bool)
      requires Enabled(Current(), Enter(h))
      modifies this
      ensures Current() == Next(old(Current()), Enter(h)) && runs == !old(handlers[h].cancelled)
    {
      permits := permits - 1;
      if handlers[h].cancelled {
        permits := permits + 1;
        handlers := handlers[h := handlers[h].(place := Replying)];
        return false;
      }
      handlers := handlers[h := handlers[h].(place := Working, ran := true)];
      return true;
    }

    method LeaveSemaphore(h: int)
      requires Enabled(Current(), Return(h))
      modifies this
      ensures Current() == Next(old(Current()), Return(h))
    {
      permits := permits + 1;
      handlers := handlers[h := handlers[h].(place := Replying)];
    }

    method CleanUpRequest(h: int)
      requires Enabled(Current(), CleanUp(h))
      modifies this
      ensures Current() == Next(old(Current()), CleanUp(h))
    {
      if handlers[h].registered {
        active := active - {handlers[h].request};
      }
      handlers := handlers[h := handlers[h].(place := Gone)];
    }

    method CancelRequest(request: string) returns (found: bool)
      modifies this
      ensures Current() == Next(old(Current()), Cancel(request)) && found == (request in active)
    {
      found := request in active;
      if found {
        handlers := Flag(handlers, {active[request]});
      }
    }

    method CloseServer()
      modifies this
      ensures Current() == Next(old(Current()), Close)
    {
      handlers := Flag(handlers, set r | r in active :: active[r]);
    }
  }
}
