/**
 Ordered expression events (apps/expression-ui/expression_events.py): a publisher that
 numbers its events, a channel that may lose, repeat and reorder them, and a consumer
 that survives restarts of the publisher. Times are whole milliseconds.
 */
module ExpressionEvents {
  import opened Common
  import opened Text

  const SCHEMA := "riverbank.expression.event/v1"
  const SOURCE := "hermes-voice"
  const MAX_FUTURE_SKEW := 5_000

  predicate AllowedState(s: string) {
    s in {"idle", "listening", "thinking", "happy", "love", "proud", "cool", "sad", "cry", "afraid", "angry", "error"}
  }

  /** The numeric fields; an event where one is missing or not a number has none of them. */
  datatype Ordering = Ordering(startedAt: int, sequence: int, interaction: int, sentAt: int)

  /** A decoded datagram: anything at all, or an object; an absent text field is empty. */
  datatype Event =
    | NotAnObject
    | Event(schema: string, source: string, state: string, ordering: Option<Ordering>,
            publisher: string, eventId: string, interactionId: string)

  datatype Decision =
    | Accepted
    | NotObject | SchemaMismatch | SourceMismatch | UnsupportedState | InvalidOrderingFields
    | MissingIdentity | InvalidOrderingValues | FutureEvent | StaleEvent
    | RetiredPublisher | OutOfOrder | RetiredInteraction

  datatype Consumer = Consumer(
    maxAge: int,
    publisher: Option<string>,
    startedAt: int,
    lastSequence: int,
    latestInteraction: int,
    accepted: nat,
    rejected: nat,
    lastEvent: Option<Event>)

  function NewConsumer(maxAge: int): Consumer {
    Consumer(Max(1000, maxAge), None, 0, 0, 0, 0, 0, None)
  }

  /** The checks that look at the event alone: None if it may be ordered. */
  function Screen(maxAge: int, e: Event, now: int, allowStaleIdle: bool): Option<Decision> {
    if e.NotAnObject? then Some(NotObject)
    else if e.schema != SCHEMA then Some(SchemaMismatch)
    else if e.source != SOURCE then Some(SourceMismatch)
    else if !AllowedState(e.state) then Some(UnsupportedState)
    else if e.ordering.None? then Some(InvalidOrderingFields)
    else if e.publisher == "" || e.eventId == "" || e.interactionId == "" then Some(MissingIdentity)
    else if e.ordering.value.sequence <= 0 || e.ordering.value.interaction < 0 then Some(InvalidOrderingValues)
    else
      var age := now - e.ordering.value.sentAt;
      if age < -MAX_FUTURE_SKEW then Some(FutureEvent)
      else if age > maxAge && !(allowStaleIdle && e.state == "idle") then Some(StaleEvent)
      else None
  }

  function Reject(c: Consumer): Consumer {
    c.(rejected := c.rejected + 1)
  }

  function Validate(c: Consumer, e: Event, now: int, allowStaleIdle: bool): (Consumer, Decision) {
    var problem := Screen(c.maxAge, e, now, allowStaleIdle);
    if problem.Some? then (Reject(c), problem.value)
    else if e.NotAnObject? || e.ordering.None? then (Reject(c), NotObject)
    else
      var o := e.ordering.value;
      var same := c.publisher == Some(e.publisher);
      if !same && c.publisher.Some? && o.startedAt <= c.startedAt then (Reject(c), RetiredPublisher)
      else
        var a := if same then c
                 else c.(publisher := Some(e.publisher), startedAt := o.startedAt, lastSequence := 0, latestInteraction := 0);
        if o.sequence <= a.lastSequence then (Reject(a), OutOfOrder)
        else if o.interaction < a.latestInteraction then (Reject(a), RetiredInteraction)
        else (a.(lastSequence := o.sequence, latestInteraction := Max(a.latestInteraction, o.interaction),
                 accepted := a.accepted + 1, lastEvent := Some(e)), Accepted)
  }

  // ----- any stream of events: acceptance is strictly ordered

  lemma ScreenPassed(maxAge: int, e: Event, now: int, allowStaleIdle: bool)
    requires Screen(maxAge, e, now, allowStaleIdle).None?
    ensures e.Event? && e.ordering.Some? && e.ordering.value.sequence > 0 && e.ordering.value.interaction >= 0
    ensures AllowedState(e.state) && e.publisher != ""
  {
    hide AllowedState;
  }

  /** A screened event never takes the branch for unscreened ones. */
  lemma ScreenDecides(c: Consumer, e: Event, now: int, allowStaleIdle: bool)
    ensures var (c', d) := Validate(c, e, now, allowStaleIdle);
            d == Accepted ==> Screen(c.maxAge, e, now, allowStaleIdle).None? && c'.lastEvent == Some(e)
    ensures Screen(c.maxAge, e, now, allowStaleIdle) != Some(Accepted)
  {
    hide AllowedState;
  }

  ghost predicate KeyBelow(c: Consumer, c': Consumer) {
    c.publisher.None? || c.startedAt < c'.startedAt
    || (c.startedAt == c'.startedAt && c.lastSequence < c'.lastSequence)
  }

  ghost predicate KeyEqual(c: Consumer, c': Consumer) {
    c'.publisher == c.publisher && c'.startedAt == c.startedAt && c'.lastSequence == c.lastSequence
    && c'.latestInteraction == c.latestInteraction && c'.lastEvent == c.lastEvent
  }

  /** An accepted event moves the key up; a rejected one leaves everything but a counter, so a publisher is activated only by an accepted event. */
  lemma ValidateOrdered(c: Consumer, e: Event, now: int, allowStaleIdle: bool)
    ensures var (c', d) := Validate(c, e, now, allowStaleIdle);
            if d == Accepted then KeyBelow(c, c') && c'.publisher.Some? && c'.accepted == c.accepted + 1
            else KeyEqual(c, c') && c'.accepted == c.accepted && c'.rejected == c.rejected + 1
  {
    var p := Screen(c.maxAge, e, now, allowStaleIdle);
    ScreenDecides(c, e, now, allowStaleIdle);
    if p.None? {
      ScreenPassed(c.maxAge, e, now, allowStaleIdle);
    }
    hide Screen;
  }

  // ----- what passes the checks on the event alone

  /** The twelve states. */
  predicate ListedState(s: string) {
    || s == "idle" || s == "listening" || s == "thinking" || s == "happy" || s == "love" || s == "proud"
    || s == "cool" || s == "sad" || s == "cry" || s == "afraid" || s == "angry" || s == "error"
  }

  /** A complete event of the voice service, sent at most five seconds ahead and not too long ago. */
  predicate Timely(maxAge: int, e: Event, now: int, allowStaleIdle: bool) {
    && e.Event? && e.schema == "riverbank.expression.event/v1" && e.source == "hermes-voice" && ListedState(e.state)
    && e.ordering.Some? && e.publisher != "" && e.eventId != "" && e.interactionId != ""
    && e.ordering.value.sequence > 0 && e.ordering.value.interaction >= 0
    && e.ordering.value.sentAt <= now + 5000
    && (now <= e.ordering.value.sentAt + maxAge || (allowStaleIdle && e.state == "idle"))
  }

  lemma AllowedIsListed(s: string)
    ensures AllowedState(s) <==> ListedState(s)
  {}

  lemma ScreenIff(maxAge: int, e: Event, now: int, allowStaleIdle: bool)
    ensures Screen(maxAge, e, now, allowStaleIdle).None? <==> Timely(maxAge, e, now, allowStaleIdle)
  {
    hide AllowedState, ListedState;
    if e.Event? {
      AllowedIsListed(e.state);
    }
  }

  /** Whatever is accepted is complete and timely, and is newer than what was accepted before; and nothing else is refused. */
  lemma AcceptedIff(c: Consumer, e: Event, now: int, allowStaleIdle: bool)
    ensures Validate(c, e, now, allowStaleIdle).1 == Accepted <==>
              && Timely(c.maxAge, e, now, allowStaleIdle)
              && var o := e.ordering.value;
              if c.publisher == Some(e.publisher) then o.sequence > c.lastSequence && o.interaction >= c.latestInteraction
              else if c.publisher.Some? then o.startedAt > c.startedAt
              else true
    ensures NewConsumer(c.maxAge).maxAge == if c.maxAge < 1000 then 1000 else c.maxAge
  {
    ScreenIff(c.maxAge, e, now, allowStaleIdle);
    ScreenNeverOrders(c.maxAge, e, now, allowStaleIdle);
    hide Screen, ListedState, AllowedState;
  }

  // ----- what each refusal means

  datatype Check = Check(passed: bool, refusal: Decision)

  /** The checks on the event alone, in order. */
  function Checks(maxAge: int, e: Event, now: int, allowStaleIdle: bool): seq<Check> {
    if e.NotAnObject? then [Check(false, NotObject)]
    else
      [Check(e.schema == "riverbank.expression.event/v1", SchemaMismatch),
       Check(e.source == "hermes-voice", SourceMismatch),
       Check(ListedState(e.state), UnsupportedState),
       Check(e.ordering.Some?, InvalidOrderingFields),
       Check(e.publisher != "" && e.eventId != "" && e.interactionId != "", MissingIdentity)]
      + if e.ordering.None? then []
        else [Check(e.ordering.value.sequence > 0 && e.ordering.value.interaction >= 0, InvalidOrderingValues),
              Check(e.ordering.value.sentAt <= now + 5000, FutureEvent),
              Check(now <= e.ordering.value.sentAt + maxAge || (allowStaleIdle && e.state == "idle"), StaleEvent)]
  }

  ghost predicate FirstFailing(checks: seq<Check>, d: Decision) {
    exists i :: 0 <= i < |checks| && !checks[i].passed && checks[i].refusal == d && forall j | 0 <= j < i :: checks[j].passed
  }

  /** A refusal by these checks names the first that fails. */
  lemma ScreenNames(maxAge: int, e: Event, now: int, allowStaleIdle: bool)
    ensures var s := Screen(maxAge, e, now, allowStaleIdle);
            s.Some? ==> FirstFailing(Checks(maxAge, e, now, allowStaleIdle), s.value)
  {
    hide AllowedState, ListedState;
    if e.Event? {
      AllowedIsListed(e.state);
    }
    var s := Screen(maxAge, e, now, allowStaleIdle);
    if s.Some? {
      var checks := Checks(maxAge, e, now, allowStaleIdle);
      var i :=
        if s.value.NotObject? || s.value.SchemaMismatch? then 0 else if s.value.SourceMismatch? then 1
        else if s.value.UnsupportedState? then 2 else if s.value.InvalidOrderingFields? then 3
        else if s.value.MissingIdentity? then 4 else if s.value.InvalidOrderingValues? then 5
        else if s.value.FutureEvent? then 6 else 7;
      assert !checks[i].passed && checks[i].refusal == s.value;
    }
  }

  /** A timely event that is refused is from a retired publisher, or not newer, or of a retired interaction. */
  lemma OrderRefusals(c: Consumer, e: Event, now: int, allowStaleIdle: bool)
    requires Timely(c.maxAge, e, now, allowStaleIdle)
    ensures var d := Validate(c, e, now, allowStaleIdle).1;
            var o := e.ordering.value;
            var own := c.publisher == Some(e.publisher);
            && (d == RetiredPublisher <==> !own && c.publisher.Some? && o.startedAt <= c.startedAt)
            && (d == OutOfOrder <==> own && o.sequence <= c.lastSequence)
            && (d == RetiredInteraction <==> own && o.sequence > c.lastSequence && o.interaction < c.latestInteraction)
  {
    ScreenIff(c.maxAge, e, now, allowStaleIdle);
    hide Screen;
  }

  datatype Delivery = Delivery(event: Event, now: int, allowStaleIdle: bool)

  /** The consumer after each accepted delivery, in order. */
  function Accepts(c: Consumer, ds: seq<Delivery>): seq<Consumer>
    decreases |ds|
  {
    if ds == [] then []
    else
      var (c', d) := Validate(c, ds[0].event, ds[0].now, ds[0].allowStaleIdle);
      (if d == Accepted then [c'] else []) + Accepts(c', ds[1..])
  }

  /** The key moves up from `c` through all of `s`. */
  ghost predicate Ascending(c: Consumer, s: seq<Consumer>) {
    && (forall i | 0 <= i < |s| :: KeyBelow(c, s[i]) && s[i].publisher.Some?)
    && (forall i, j | 0 <= i < j < |s| :: KeyBelow(s[i], s[j]))
  }

  lemma AscendingCons(c: Consumer, c': Consumer, s: seq<Consumer>)
    requires KeyBelow(c, c') && c'.publisher.Some? && Ascending(c', s)
    ensures Ascending(c, [c'] + s)
  {
    var all := [c'] + s;
    forall i | 0 <= i < |all| ensures KeyBelow(c, all[i]) && all[i].publisher.Some? {
      assert i > 0 ==> KeyBelow(c', s[i - 1]);
    }
  }

  /** Under any loss, repetition and reordering, the (publisher start, sequence) key strictly increases. */
  lemma {:induction false} KeysIncrease(c: Consumer, ds: seq<Delivery>)
    ensures Ascending(c, Accepts(c, ds))
    decreases |ds|
  {
    if ds != [] {
      ValidateOrdered(c, ds[0].event, ds[0].now, ds[0].allowStaleIdle);
      var (c', d) := Validate(c, ds[0].event, ds[0].now, ds[0].allowStaleIdle);
      KeysIncrease(c', ds[1..]);
      hide Validate, Ascending, KeyBelow, KeyEqual;
      if d == Accepted {
        AscendingCons(c, c', Accepts(c', ds[1..]));
      } else {
        AscendingSame(c, c', Accepts(c', ds[1..]));
        assert [] + Accepts(c', ds[1..]) == Accepts(c', ds[1..]);
      }
    }
  }

  lemma AscendingSame(c: Consumer, c': Consumer, s: seq<Consumer>)
    requires KeyEqual(c, c') && Ascending(c', s)
    ensures Ascending(c, s)
  {
    assert forall i | 0 <= i < |s| :: KeyBelow(c', s[i]) ==> KeyBelow(c, s[i]);
  }

  // ----- honest publishers

  /** What an `ExpressionEventPublisher` has published so far. */
  datatype Publisher = Publisher(id: string, startedAt: int, interaction: nat, interactionId: string, log: seq<Event>)

  function NewPublisher(id: string, startedAt: int): Publisher {
    Publisher(id, startedAt, 0, "system", [])
  }

  function BeginInteraction(p: Publisher, newId: string): Publisher {
    p.(interaction := p.interaction + 1, interactionId := newId)
  }

  /** `publish`: an unsupported state raises ValueError and publishes nothing. */
  function Publish(p: Publisher, state: string, eventId: string, now: int): Publisher {
    if !AllowedState(Strip(state)) then p
    else p.(log := p.log + [Event(SCHEMA, SOURCE, Strip(state), Some(Ordering(p.startedAt, |p.log| + 1, p.interaction, now)),
                                  p.id, eventId, p.interactionId)])
  }

  predicate NumberedBy(p: Publisher, k: int)
    requires 0 <= k < |p.log|
  {
    var e := p.log[k];
    && e.Event? && e.schema == SCHEMA && e.source == SOURCE && AllowedState(e.state)
    && e.publisher == p.id && e.eventId != "" && e.interactionId != ""
    && e.ordering.Some? && e.ordering.value.startedAt == p.startedAt
    && e.ordering.value.sequence == k + 1 && 0 <= e.ordering.value.interaction <= p.interaction
  }

  ghost predicate Honest(p: Publisher) {
    && p.id != "" && p.interactionId != ""
    && (forall k | 0 <= k < |p.log| :: NumberedBy(p, k))
    && (forall i, k | 0 <= i < k < |p.log| && p.log[i].Event? && p.log[k].Event?
                      && p.log[i].ordering.Some? && p.log[k].ordering.Some? ::
          p.log[i].ordering.value.interaction <= p.log[k].ordering.value.interaction)
  }

  lemma PublisherStaysHonest(p: Publisher, state: string, newId: string, now: int)
    requires Honest(p) && newId != ""
    ensures Honest(BeginInteraction(p, newId)) && Honest(Publish(p, state, newId, now))
  {
    hide AllowedState, Strip;
    var q := BeginInteraction(p, newId);
    forall k | 0 <= k < |q.log| ensures NumberedBy(q, k) {
      assert NumberedBy(p, k);
    }
    var r := Publish(p, state, newId, now);
    forall k | 0 <= k < |r.log| ensures NumberedBy(r, k) {
      if k < |p.log| {
        assert NumberedBy(p, k);
      }
    }
    forall i, k | 0 <= i < k < |r.log| && r.log[i].Event? && r.log[k].Event?
                  && r.log[i].ordering.Some? && r.log[k].ordering.Some?
      ensures r.log[i].ordering.value.interaction <= r.log[k].ordering.value.interaction
    {
      if k == |p.log| {
        assert NumberedBy(p, i);
      }
    }
  }

  /** A published event carries the trimmed state, the next number, the current interaction and the time it is sent. */
  lemma PublishAppends(p: Publisher, state: string, eventId: string, newId: string, now: int)
    ensures BeginInteraction(p, newId) == p.(interaction := p.interaction + 1, interactionId := newId)
    ensures var q := Publish(p, state, eventId, now);
            if !ListedState(Strip(state)) then q == p
            else
              && q == p.(log := q.log) && |q.log| == |p.log| + 1 && q.log[..|p.log|] == p.log
              && var e := q.log[|p.log|];
              && e.Event? && e.state == Strip(state) && e.publisher == p.id && e.eventId == eventId && e.interactionId == p.interactionId
              && e.ordering == Some(Ordering(p.startedAt, |p.log| + 1, p.interaction, now))
              && forall age | 1000 <= age :: Timely(age, e, now, false) <==> p.id != "" && eventId != "" && p.interactionId != ""
  {
    hide AllowedState, ListedState, Strip;
    AllowedIsListed(Strip(state));
  }

  /** Every restart of the voice service is a new publisher under a new id. */
  type World = map<string, Publisher>

  ghost predicate HonestWorld(w: World) {
    forall id | id in w :: Honest(w[id]) && w[id].id == id
  }

  /** The event is the one numbered `k + 1` of some publisher. */
  predicate Published(w: World, e: Event) {
    e.Event? && e.publisher in w && e.ordering.Some?
    && var k := e.ordering.value.sequence - 1; 0 <= k < |w[e.publisher].log| && w[e.publisher].log[k] == e
  }

  /** The consumer stands at an event of its publisher. */
  ghost predicate Tracks(w: World, c: Consumer) {
    c.publisher.Some? ==>
      && c.publisher.value in w
      && var p := w[c.publisher.value];
      && c.startedAt == p.startedAt
      && 1 <= c.lastSequence <= |p.log|
      && c.lastEvent == Some(p.log[c.lastSequence - 1])
      && NumberedBy(p, c.lastSequence - 1)
      && c.latestInteraction == p.log[c.lastSequence - 1].ordering.value.interaction
  }

  predicate Fresh(c: Consumer, d: Delivery) {
    Screen(c.maxAge, d.event, d.now, d.allowStaleIdle).None?
  }

  /**
   For honest publishers a fresh event is accepted exactly when it is newer: a later
   number of the current publisher, or a publisher that started later. Its interaction
   is then never retired.
   */
  lemma HonestAcceptance(w: World, c: Consumer, d: Delivery)
    requires HonestWorld(w) && Tracks(w, c) && Published(w, d.event)
    ensures var (c', r) := Validate(c, d.event, d.now, d.allowStaleIdle);
            && Tracks(w, c') && r != RetiredInteraction
            && (Fresh(c, d) ==>
                  (r == Accepted <==>
                     c.publisher.None?
                     || (d.event.publisher == c.publisher.value && d.event.ordering.value.sequence > c.lastSequence)
                     || (d.event.publisher != c.publisher.value && d.event.ordering.value.startedAt > c.startedAt)))
  {
    var e := d.event;
    var p, k := w[e.publisher], e.ordering.value.sequence - 1;
    assert NumberedBy(p, k);
    if c.publisher == Some(e.publisher) && c.lastSequence - 1 < k {
      assert p.log[c.lastSequence - 1].ordering.value.interaction <= p.log[k].ordering.value.interaction;
    }
    ScreenNeverOrders(c.maxAge, e, d.now, d.allowStaleIdle);
    hide Screen, AllowedState;
  }

  lemma ScreenNeverOrders(maxAge: int, e: Event, now: int, allowStaleIdle: bool)
    ensures Screen(maxAge, e, now, allowStaleIdle) !in {Some(Accepted), Some(RetiredInteraction), Some(RetiredPublisher), Some(OutOfOrder)}
  {
    hide AllowedState;
  }

  /** The consumer after a whole stream of deliveries. */
  function After(c: Consumer, ds: seq<Delivery>): Consumer
    decreases |ds|
  {
    if ds == [] then c else After(Validate(c, ds[0].event, ds[0].now, ds[0].allowStaleIdle).0, ds[1..])
  }

  ghost predicate FromWorld(w: World, ds: seq<Delivery>) {
    forall i | 0 <= i < |ds| :: Published(w, ds[i].event)
  }

  lemma {:induction false} HonestRun(w: World, c: Consumer, ds: seq<Delivery>)
    requires HonestWorld(w) && Tracks(w, c) && FromWorld(w, ds)
    ensures Tracks(w, After(c, ds)) && After(c, ds).maxAge == c.maxAge
    decreases |ds|
  {
    if ds != [] {
      HonestAcceptance(w, c, ds[0]);
      MaxAgeKept(c, ds[0]);
      hide Validate, Tracks, Published;
      assert forall i | 0 <= i < |ds[1..]| :: ds[1..][i] == ds[i + 1];
      HonestRun(w, Validate(c, ds[0].event, ds[0].now, ds[0].allowStaleIdle).0, ds[1..]);
    }
  }

  lemma MaxAgeKept(c: Consumer, d: Delivery)
    ensures Validate(c, d.event, d.now, d.allowStaleIdle).0.maxAge == c.maxAge
  {
    hide Screen;
  }

  /** "retired-interaction" is never the answer, whatever the channel does. */
  lemma NoRetiredInteraction(w: World, maxAge: int, ds: seq<Delivery>, d: Delivery)
    requires HonestWorld(w) && FromWorld(w, ds) && Published(w, d.event)
    ensures Validate(After(NewConsumer(maxAge), ds), d.event, d.now, d.allowStaleIdle).1 != RetiredInteraction
  {
    HonestRun(w, NewConsumer(maxAge), ds);
    HonestAcceptance(w, After(NewConsumer(maxAge), ds), d);
  }

  // ----- one publisher

  /** The largest sequence number accepted along the way. */
  function HighestAccepted(c: Consumer, ds: seq<Delivery>): int
    decreases |ds|
  {
    if ds == [] then 0
    else
      var (c', d) := Validate(c, ds[0].event, ds[0].now, ds[0].allowStaleIdle);
      var later := HighestAccepted(c', ds[1..]);
      if d == Accepted && ds[0].event.Event? && ds[0].event.ordering.Some?
      then Max(ds[0].event.ordering.value.sequence, later) else later
  }

  lemma {:induction false} StandsAtHighest(w: World, c: Consumer, ds: seq<Delivery>, id: string)
    requires HonestWorld(w) && Tracks(w, c) && FromWorld(w, ds) && c.lastSequence >= 0
    requires (forall i | 0 <= i < |ds| :: ds[i].event.Event? && ds[i].event.publisher == id)
    requires c.publisher.None? ==> c.lastSequence == 0
    requires c.publisher.Some? ==> c.publisher.value == id
    ensures After(c, ds).lastSequence == Max(c.lastSequence, HighestAccepted(c, ds))
    ensures After(c, ds).publisher in {None, Some(id)}
    decreases |ds|
  {
    if ds != [] {
      var d := ds[0];
      HonestAcceptance(w, c, d);
      ValidateOrdered(c, d.event, d.now, d.allowStaleIdle);
      ScreenDecides(c, d.event, d.now, d.allowStaleIdle);
      var (c', r) := Validate(c, d.event, d.now, d.allowStaleIdle);
      assert r == Accepted ==> c'.lastSequence == d.event.ordering.value.sequence && c'.publisher == Some(id);
      hide Validate, Published, HonestWorld;
      assert forall i | 0 <= i < |ds[1..]| :: ds[1..][i] == ds[i + 1];
      StandsAtHighest(w, c', ds[1..], id);
    }
  }

  /** With one publisher, a fresh event is accepted if and only if its number exceeds every accepted one. */
  lemma {:induction false} OnePublisherAcceptsIff(w: World, maxAge: int, ds: seq<Delivery>, d: Delivery)
    requires HonestWorld(w) && FromWorld(w, ds) && Published(w, d.event)
    requires forall i | 0 <= i < |ds| :: ds[i].event.Event? && ds[i].event.publisher == d.event.publisher
    requires Fresh(After(NewConsumer(maxAge), ds), d)
    ensures Validate(After(NewConsumer(maxAge), ds), d.event, d.now, d.allowStaleIdle).1 == Accepted
            <==> d.event.ordering.value.sequence > HighestAccepted(NewConsumer(maxAge), ds)
  {
    var c := NewConsumer(maxAge);
    HonestRun(w, c, ds);
    StandsAtHighest(w, c, ds, d.event.publisher);
    HighestNonNegative(c, ds);
    ScreenPassed(After(c, ds).maxAge, d.event, d.now, d.allowStaleIdle);
    HonestAcceptance(w, After(c, ds), d);
    hide Validate, Screen, HonestWorld;
    NoneStandsAtZero(c, ds);
  }

  lemma {:induction false} HighestNonNegative(c: Consumer, ds: seq<Delivery>)
    ensures HighestAccepted(c, ds) >= 0
    decreases |ds|
  {
    if ds != [] {
      hide Validate;
      HighestNonNegative(Validate(c, ds[0].event, ds[0].now, ds[0].allowStaleIdle).0, ds[1..]);
    }
  }

  /** A consumer without a publisher has accepted nothing. */
  lemma {:induction false} NoneStandsAtZero(c: Consumer, ds: seq<Delivery>)
    requires c.publisher.None? ==> c.lastSequence == 0
    ensures After(c, ds).publisher.None? ==> After(c, ds).lastSequence == 0
    decreases |ds|
  {
    if ds != [] {
      ValidateOrdered(c, ds[0].event, ds[0].now, ds[0].allowStaleIdle);
      hide Validate;
      NoneStandsAtZero(Validate(c, ds[0].event, ds[0].now, ds[0].allowStaleIdle).0, ds[1..]);
    }
  }

  // ----- the objects

  class ExpressionEventPublisher {
    const id: string
    const startedAt: int
    var sequence: int
    var interactionIndex: nat
    var interactionId: string
    /** Every event handed to the snapshot file and the socket, in order. */
    var published: seq<Event>

    ghost predicate Valid()
      reads this
    {
      sequence == |published| && Honest(Current())
    }

    ghost function Current(): Publisher
      reads this
    {
      Publisher(id, startedAt, interactionIndex, interactionId, published)
    }

    constructor (id: string, startedAt: int)
      requires id != ""
      ensures Valid() && Current() == NewPublisher(id, startedAt)
    {
      this.id, this.startedAt := id, startedAt;
      sequence, interactionIndex, interactionId, published := 0, 0, "system", [];
    }

    method StartInteraction(newId: string)
      requires Valid() && newId != ""
      modifies this
      ensures Valid() && Current() == BeginInteraction(old(Current()), newId)
    {
      hide Strip;
      PublisherStaysHonest(Current(), "idle", newId, 0);
      interactionIndex := interactionIndex + 1;
      interactionId := newId;
    }

    /** False stands for the ValueError. */
    method PublishState(state: string, eventId: string, now: int) returns (ok: bool)
      requires Valid() && eventId != ""
      modifies this
      ensures Valid() && Current() == Publish(old(Current()), state, eventId, now) && ok == AllowedState(Strip(state))
    {
      hide AllowedState, Strip;
      PublisherStaysHonest(Current(), state, eventId, now);
      var stateValue := Strip(state);
      if !AllowedState(stateValue) {
        return false;
      }
      sequence := sequence + 1;
      var ordering := Ordering(startedAt, sequence, interactionIndex, now);
      published := published + [Event(SCHEMA, SOURCE, stateValue, Some(ordering), id, eventId, interactionId)];
      return true;
    }
  }

  class ExpressionEventConsumer {
    const maxAge: int
    var publisher: Option<string>
    var startedAt: int
    var lastSequence: int
    var latestInteraction: int
    var accepted: nat
    var rejected: nat
    var lastDecision: Option<Decision>
    var lastEvent: Option<Event>

    function Current(): Consumer
      reads this
    {
      Consumer(maxAge, publisher, startedAt, lastSequence, latestInteraction, accepted, rejected, lastEvent)
    }

    constructor (maxAge: int)
      ensures Current() == NewConsumer(maxAge) && lastDecision == None
    {
      this.maxAge := Max(1000, maxAge);
      publisher, startedAt, lastSequence, latestInteraction := None, 0, 0, 0;
      accepted, rejected, lastDecision, lastEvent := 0, 0, None, None;
    }

    method RejectEvent(reason: Decision)
      modifies this`rejected, this`lastDecision
      ensures Current() == Reject(old(Current())) && lastDecision == Some(reason)
    {
      rejected := rejected + 1;
      lastDecision := Some(reason);
    }

    method ActivatePublisher(id: string, started: int)
      modifies this`publisher, this`startedAt, this`lastSequence, this`latestInteraction
      ensures publisher == Some(id) && startedAt == started && lastSequence == 0 && latestInteraction == 0
    {
      publisher, startedAt, lastSequence, latestInteraction := Some(id), started, 0, 0;
    }

    method ValidateEvent(e: Event, now: int, allowStaleIdle: bool) returns (decision: Decision)
      modifies this
      ensures (Current(), decision) == Validate(old(Current()), e, now, allowStaleIdle) && lastDecision == Some(decision)
    {
      ScreenNone(maxAge, e, now, allowStaleIdle);
      hide Screen;
      var problem := Screen(maxAge, e, now, allowStaleIdle);
      if problem.Some? {
        RejectEvent(problem.value);
        return problem.value;
      }
      var o := e.ordering.value;
      if publisher.None? {
        ActivatePublisher(e.publisher, o.startedAt);
      } else if e.publisher != publisher.value {
        if o.startedAt <= startedAt {
          RejectEvent(RetiredPublisher);
          return RetiredPublisher;
        }
        ActivatePublisher(e.publisher, o.startedAt);
      }
      if o.sequence <= lastSequence {
        RejectEvent(OutOfOrder);
        return OutOfOrder;
      }
      if o.interaction < latestInteraction {
        RejectEvent(RetiredInteraction);
        return RetiredInteraction;
      }
      lastSequence, latestInteraction := o.sequence, Max(latestInteraction, o.interaction);
      accepted, lastDecision, lastEvent := accepted + 1, Some(Accepted), Some(e);
      return Accepted;
    }
  }

  lemma ScreenNone(maxAge: int, e: Event, now: int, allowStaleIdle: bool)
    ensures Screen(maxAge, e, now, allowStaleIdle).None? ==> e.Event? && e.ordering.Some?
  {
    hide AllowedState;
  }
}
