/**
 Expiring leases for on-demand vision inference (apps/face-tracker/vision_leases.py):
 a table that is purged only when it is looked at. Times are whole milliseconds.
 */
module VisionLeases {
  import opened Common
  import opened Text

  datatype Lease = Lease(id: string, source: string, created: int, renewed: int, expires: int, ttl: int)
  type Table = map<string, Lease>

  /** What callers see of a lease. */
  datatype LeaseView = LeaseView(id: string, source: string, ttl: int, remaining: int)

  datatype Limits = Limits(low: int, high: int)

  /** The constructor's clamps: 0.1 s <= minimum <= maximum. */
  function MakeLimits(minimum: int, maximum: int): Limits {
    Limits(Max(100, minimum), Max(Max(100, minimum), maximum))
  }

  predicate Sane(l: Limits) {
    100 <= l.low <= l.high
  }

  function Ttl(l: Limits, requested: int): int {
    Clamp(l.low, requested, l.high)
  }

  function Public(l: Lease, now: int): LeaseView {
    LeaseView(l.id, l.source, l.ttl, Max(0, l.expires - now))
  }

  function Purge(t: Table, now: int): Table {
    map id | id in t && t[id].expires > now :: t[id]
  }

  /** A requested time to live that is not a number is None and raises ValueError. */
  datatype Call =
    | Acquire(id: string, source: string, ttl: Option<int>)
    | Renew(id: string, ttl: Option<int>)
    | Release(id: string)
    | Expire
    | Active
    | Snapshot

  datatype Answer =
    | Invalid
    | Granted(view: LeaseView)
    | NotFound
    | Released(found: bool)
    | Expired(views: map<string, LeaseView>)
    | IsActive(active: bool)
    | Listing(views: map<string, LeaseView>)

  function Views(t: Table, now: int): map<string, LeaseView> {
    map id | id in t :: Public(t[id], now)
  }

  /** `str(source or "unknown").strip()[:80] or "unknown"` */
  function SourceName(source: string): string {
    var t := Strip(if source == "" then "unknown" else source);
    var kept := if |t| <= 80 then t else t[..80];
    if kept == "" then "unknown" else kept
  }

  function NewLease(l: Limits, id: string, source: string, ttl: int, now: int): Lease {
    Lease(id, SourceName(source), now, now, now + Ttl(l, ttl), Ttl(l, ttl))
  }

  function Renewed(l: Limits, lease: Lease, ttl: int, now: int): Lease {
    lease.(renewed := now, expires := now + Ttl(l, ttl), ttl := Ttl(l, ttl))
  }

  /** One call as the manager runs it: some calls purge first, `release` does not. */
  function Lazy(l: Limits, t: Table, call: Call, now: int): (Table, Answer) {
    var p := Purge(t, now);
    match call
    case Acquire(id, source, ttl) =>
      if ttl.None? then (t, Invalid)
      else (p[id := NewLease(l, id, source, ttl.value, now)], Granted(Public(NewLease(l, id, source, ttl.value, now), now)))
    case Renew(id, ttl) =>
      if ttl.None? then (t, Invalid)
      else if id !in p then (p, NotFound)
      else (p[id := Renewed(l, p[id], ttl.value, now)], Granted(Public(Renewed(l, p[id], ttl.value, now), now)))
    case Release(id) => (t - {id}, Released(id in t))
    case Expire => (p, Expired(Views(t - p.Keys, now)))
    case Active => (p, IsActive(p != map[]))
    case Snapshot => (p, Listing(Views(p, now)))
  }

  /** The reference: a timed map that drops every lease the moment it expires, so no call needs to purge. */
  function Eager(l: Limits, e: Table, call: Call, now: int): (Table, Answer) {
    match call
    case Acquire(id, source, ttl) =>
      if ttl.None? then (e, Invalid)
      else (e[id := NewLease(l, id, source, ttl.value, now)], Granted(Public(NewLease(l, id, source, ttl.value, now), now)))
    case Renew(id, ttl) =>
      if ttl.None? then (e, Invalid)
      else if id !in e then (e, NotFound)
      else (e[id := Renewed(l, e[id], ttl.value, now)], Granted(Public(Renewed(l, e[id], ttl.value, now), now)))
    case Release(id) => (e - {id}, Released(id in e))
    case Expire => (e, Expired(map[]))
    case Active => (e, IsActive(e != map[]))
    case Snapshot => (e, Listing(Views(e, now)))
  }

  datatype Timed = Timed(call: Call, at: int)

  function LazyRun(l: Limits, t: Table, calls: seq<Timed>): (Table, seq<Answer>)
    decreases |calls|
  {
    if calls == [] then (t, [])
    else
      var (t1, a) := Lazy(l, t, calls[0].call, calls[0].at);
      var (t2, more) := LazyRun(l, t1, calls[1..]);
      (t2, [a] + more)
  }

  /** Time passes between calls: whatever expired meanwhile has already been dropped. */
  function EagerRun(l: Limits, e: Table, calls: seq<Timed>): (Table, seq<Answer>)
    decreases |calls|
  {
    if calls == [] then (e, [])
    else
      var (e1, a) := Eager(l, Purge(e, calls[0].at), calls[0].call, calls[0].at);
      var (e2, more) := EagerRun(l, e1, calls[1..]);
      (e2, [a] + more)
  }

  predicate InOrder(last: int, calls: seq<Timed>)
    decreases |calls|
  {
    calls == [] || (last <= calls[0].at && InOrder(calls[0].at, calls[1..]))
  }

  // ----- the lazy table answers like the eager one

  lemma PurgePurge(t: Table, a: int, b: int)
    requires a <= b
    ensures Purge(Purge(t, a), b) == Purge(t, b)
  {}

  /** One call, on tables that agree once purged: they agree again, and so do the answers. */
  lemma CallAgrees(l: Limits, t: Table, e: Table, call: Call, now: int)
    requires Purge(t, now) == Purge(e, now)
    ensures var (t', a) := Lazy(l, t, call, now);
            var (e', b) := Eager(l, Purge(e, now), call, now);
            && Purge(t', now) == Purge(e', now)
            && (call.Acquire? || call.Renew? || call.Active? || call.Snapshot? ==> a == b)
            && (call.Release? ==> (a == b <==> !(call.id in t && t[call.id].expires <= now)))
  {
    hide SourceName;
    var p := Purge(t, now);
    PurgePurge(t, now, now);
    assert Purge(p, now) == p;
    if call.Release? {
      assert call.id in p <==> call.id in t && t[call.id].expires > now;
      assert Purge(t - {call.id}, now) == Purge(p - {call.id}, now);
    }
  }

  /** A lease released at its very expiry, before anything purged it, is still found; one dropped at expiry is not. */
  lemma ExpiredStillReleased(l: Limits)
    requires Sane(l)
    ensures var t := Lazy(l, map[], Acquire("a", "camera", Some(0)), 0).0;
            var now := Ttl(l, 0);
            Lazy(l, t, Release("a"), now).1 == Released(true) && Eager(l, Purge(t, now), Release("a"), now).1 == Released(false)
  {
    hide SourceName;
    var t := Lazy(l, map[], Acquire("a", "camera", Some(0)), 0).0;
    assert Purge(map[], 0) == map[];
    assert "a" in t && t["a"].expires == Ttl(l, 0);
  }

  predicate Answered(call: Call) {
    call.Acquire? || call.Renew? || call.Active? || call.Snapshot?
  }

  /**
   Over any run with a clock that does not go back, every acquisition, renewal, activity
   check and snapshot is answered as if each lease had been dropped at its expiry.
   */
  lemma {:induction false} RunAgrees(l: Limits, t: Table, e: Table, last: int, calls: seq<Timed>)
    requires InOrder(last, calls) && Purge(t, last) == Purge(e, last)
    ensures var a, b := LazyRun(l, t, calls).1, EagerRun(l, e, calls).1;
            |a| == |b| == |calls| && forall i | 0 <= i < |calls| && Answered(calls[i].call) :: a[i] == b[i]
    decreases |calls|
  {
    if calls != [] {
      var now := calls[0].at;
      PurgePurge(t, last, now);
      PurgePurge(e, last, now);
      CallAgrees(l, t, e, calls[0].call, now);
      var (t1, a) := Lazy(l, t, calls[0].call, now);
      var (e1, b) := Eager(l, Purge(e, now), calls[0].call, now);
      hide Lazy, Eager, Purge;
      RunAgrees(l, t1, e1, now, calls[1..]);
      var later, more := LazyRun(l, t1, calls[1..]).1, EagerRun(l, e1, calls[1..]).1;
      forall i | 0 <= i < |calls| && Answered(calls[i].call) ensures ([a] + later)[i] == ([b] + more)[i] {
        if i > 0 {
          assert calls[i] == calls[1..][i - 1];
        }
      }
    }
  }

  // ----- no lease outlives the maximum time to live

  ghost predicate Dated(l: Limits, t: Table, last: int) {
    forall id | id in t ::
      && t[id].id == id
      && t[id].renewed <= last
      && l.low <= t[id].ttl <= l.high
      && t[id].expires == t[id].renewed + t[id].ttl
  }

  lemma CallKeepsDated(l: Limits, t: Table, last: int, call: Call, now: int)
    requires Sane(l) && Dated(l, t, last) && last <= now
    ensures Dated(l, Lazy(l, t, call, now).0, now)
  {
    hide SourceName;
  }

  lemma {:induction false} RunKeepsDated(l: Limits, t: Table, last: int, calls: seq<Timed>) returns (end: int)
    requires Sane(l) && Dated(l, t, last) && InOrder(last, calls)
    ensures last <= end && Dated(l, LazyRun(l, t, calls).0, end)
    ensures end == if calls == [] then last else calls[|calls| - 1].at
    decreases |calls|
  {
    hide SourceName;
    end := last;
    if calls != [] {
      CallKeepsDated(l, t, last, calls[0].call, calls[0].at);
      var t1 := Lazy(l, t, calls[0].call, calls[0].at).0;
      end := RunKeepsDated(l, t1, calls[0].at, calls[1..]);
      if |calls| > 1 {
        assert calls[|calls| - 1] == calls[1..][|calls| - 2];
      }
    }
  }

  /** Whatever the run, once the maximum time to live has passed since it nothing is active. */
  lemma SilenceExpires(l: Limits, calls: seq<Timed>, last: int, now: int)
    requires Sane(l) && InOrder(last, calls)
    requires now >= l.high + if calls == [] then last else calls[|calls| - 1].at
    ensures Lazy(l, LazyRun(l, map[], calls).0, Active, now).1 == IsActive(false)
  {
    hide SourceName;
    var end := RunKeepsDated(l, map[], last, calls);
    var t := LazyRun(l, map[], calls).0;
    hide LazyRun;
    assert forall id | id in t :: t[id].expires <= now;
    assert Purge(t, now) == map[];
    assert Lazy(l, t, Active, now).1 == IsActive(Purge(t, now) != map[]);
  }

  /** Calls that neither grant, renew nor release this lease. */
  predicate LeavesAlone(calls: seq<Timed>, id: string) {
    forall i | 0 <= i < |calls| ::
      match calls[i].call
      case Acquire(other, _, _) => other != id
      case Renew(other, _) => other != id
      case Release(other) => other != id
      case _ => true
  }

  /** The lease is unchanged for as long as it is there, and it is there until it expires. */
  ghost predicate Holds(t: Table, lease: Lease, last: int) {
    (lease.id in t ==> t[lease.id] == lease) && (last < lease.expires ==> lease.id in t)
  }

  lemma CallKeepsLease(l: Limits, t: Table, lease: Lease, last: int, calls: seq<Timed>)
    requires calls != [] && LeavesAlone(calls, lease.id) && Holds(t, lease, last) && last <= calls[0].at
    ensures Holds(Lazy(l, t, calls[0].call, calls[0].at).0, lease, calls[0].at)
  {
    hide SourceName;
  }

  lemma {:induction false} RunKeepsLease(l: Limits, t: Table, lease: Lease, last: int, calls: seq<Timed>, now: int)
    requires LeavesAlone(calls, lease.id) && Holds(t, lease, last) && InOrder(last, calls) && last <= now
    requires calls != [] ==> calls[|calls| - 1].at <= now
    ensures Holds(LazyRun(l, t, calls).0, lease, now)
    decreases |calls|
  {
    if calls != [] {
      var t1 := Lazy(l, t, calls[0].call, calls[0].at).0;
      CallKeepsLease(l, t, lease, last, calls);
      OrderBounds(calls[0].at, calls[1..]);
      hide Lazy, Holds;
      assert forall i | 0 <= i < |calls[1..]| :: calls[1..][i] == calls[i + 1];
      assert LeavesAlone(calls[1..], lease.id);
      RunKeepsLease(l, t1, lease, calls[0].at, calls[1..], now);
    }
  }

  lemma {:induction false} OrderBounds(last: int, calls: seq<Timed>)
    requires InOrder(last, calls)
    ensures calls != [] ==> last <= calls[|calls| - 1].at
    decreases |calls|
  {
    if |calls| > 1 {
      OrderBounds(calls[0].at, calls[1..]);
    }
  }

  /** A grant or a renewal of this lease with this time to live, and the source it is held for. */
  predicate Grants(t: Table, call: Call, id: string, ttl: int, at: int, source: string) {
    match call
    case Acquire(i, s, n) => i == id && n == Some(ttl) && source == SourceName(s)
    case Renew(i, n) => i == id && n == Some(ttl) && id in t && t[id].id == id && t[id].expires > at && source == t[id].source
    case _ => false
  }

  /**
   A lease that is granted or renewed for some time can be renewed at a later moment if and only if
   that time has not passed, whatever other calls come in between; until then the device is active,
   and the snapshot shows the lease with the time it has left.
   */
  lemma LeaseLastsExactly(l: Limits, t: Table, call: Call, id: string, source: string, ttl: int, at: int,
                          calls: seq<Timed>, now: int, more: int)
    requires Grants(t, call, id, ttl, at, source) && LeavesAlone(calls, id) && InOrder(at, calls) && at <= now
    requires calls != [] ==> calls[|calls| - 1].at <= now
    ensures Lazy(l, t, call, at).1 == Granted(LeaseView(id, source, Ttl(l, ttl), Max(0, Ttl(l, ttl))))
    ensures var view := LeaseView(id, source, Ttl(l, ttl), at + Ttl(l, ttl) - now);
            AliveAs(l, LazyRun(l, Lazy(l, t, call, at).0, calls).0, view, now, more)
  {
    hide SourceName, LazyRun, AliveAs;
    var t0 := Lazy(l, t, call, at).0;
    var lease := t0[id];
    RunKeepsLease(l, t0, lease, at, calls, now);
    AliveWhileHeld(l, LazyRun(l, t0, calls).0, lease, now, more);
  }

  /** What a lease with this view answers: it is there as long as it has time left. */
  ghost predicate AliveAs(l: Limits, t: Table, view: LeaseView, now: int, more: int) {
    && (Lazy(l, t, Renew(view.id, Some(more)), now).1.Granted? <==> view.remaining > 0)
    && (view.remaining > 0 ==>
          && Lazy(l, t, Active, now).1 == IsActive(true)
          && var a := Lazy(l, t, Snapshot, now).1; a.Listing? && view.id in a.views && a.views[view.id] == view)
  }

  lemma AliveWhileHeld(l: Limits, t: Table, lease: Lease, now: int, more: int)
    requires Holds(t, lease, now)
    ensures AliveAs(l, t, LeaseView(lease.id, lease.source, lease.ttl, lease.expires - now), now, more)
  {
    hide SourceName, Ttl;
    assert lease.id in Purge(t, now) <==> now < lease.expires;
  }

  /** The time granted is the time asked for, or the nearest limit; the limits are at least a tenth of a second. */
  lemma TtlNearest(minimum: int, maximum: int, requested: int)
    ensures var l := MakeLimits(minimum, maximum);
            && Sane(l) && l.low == (if minimum < 100 then 100 else minimum) && (maximum >= l.low ==> l.high == maximum)
            && (maximum < l.low ==> l.high == l.low)
            && Ttl(l, requested) == (if requested < l.low then l.low else if requested > l.high then l.high else requested)
  {}

  /** The name of a source is its trimmed text, at most 80 characters of it, and "unknown" if there is none. */
  lemma SourceIs(source: string, t: string)
    requires Stripped(source, t)
    ensures SourceName(source) == if t == "" then "unknown" else if |t| <= 80 then t else t[..80]
  {
    hide Strip, Stripped;
    StripIff(source, t);
    StripTrims("unknown");
    if source == "" {
      StripTrims("");
    }
  }

  /** An expiry pass reports exactly the leases that are over, and they are gone. */
  lemma ExpireReports(l: Limits, t: Table, now: int, id: string)
    ensures var (p, a) := Lazy(l, t, Expire, now);
            && a.Expired? && (id in a.views <==> id in t && t[id].expires <= now)
            && (id in p <==> id in t && t[id].expires > now)
  {
    hide SourceName;
  }

  // ----- the manager object

  class VisionLeaseManager {
    const limits: Limits
    var leases: Table

    constructor (minimum: int, maximum: int)
      ensures leases == map[] && limits == MakeLimits(minimum, maximum) && Sane(limits)
    {
      limits, leases := MakeLimits(minimum, maximum), map[];
    }

    /** `_expire_locked` */
    method ExpireLocked(now: int) returns (expired: map<string, LeaseView>)
      modifies this
      ensures leases == Purge(old(leases), now)
      ensures expired == Views(old(leases) - leases.Keys, now)
    {
      hide SourceName;
      var expiredIds := set id | id in leases && leases[id].expires <= now;
      expired := map id | id in expiredIds :: Public(leases[id], now);
      leases := leases - expiredIds;
      assert leases == Purge(old(leases), now);
    }

    /** `id` is the fresh uuid; None is a time to live that is not numeric. */
    method AcquireLease(id: string, source: string, ttl: Option<int>, now: int) returns (a: Answer)
      modifies this
      ensures (leases, a) == Lazy(limits, old(leases), Acquire(id, source, ttl), now)
    {
      hide SourceName;
      if ttl.None? {
        return Invalid;
      }
      var lease := NewLease(limits, id, source, ttl.value, now);
      var _ := ExpireLocked(now);
      leases := leases[id := lease];
      a := Granted(Public(lease, now));
    }

    method RenewLease(id: string, ttl: Option<int>, now: int) returns (a: Answer)
      modifies this
      ensures (leases, a) == Lazy(limits, old(leases), Renew(id, ttl), now)
    {
      hide SourceName;
      if ttl.None? {
        return Invalid;
      }
      var _ := ExpireLocked(now);
      if id !in leases {
        return NotFound;
      }
      var lease := leases[id].(renewed := now, expires := now + Ttl(limits, ttl.value), ttl := Ttl(limits, ttl.value));
      leases := leases[id := lease];
      a := Granted(Public(lease, now));
    }

    method ReleaseLease(id: string) returns (found: bool)
      modifies this
      ensures leases == old(leases) - {id} && found == (id in old(leases))
      ensures forall now :: Lazy(limits, old(leases), Release(id), now) == (leases, Released(found))
    {
      hide SourceName;
      found := id in leases;
      leases := leases - {id};
    }

    method ExpireAll(now: int) returns (expired: map<string, LeaseView>)
      modifies this
      ensures (leases, Expired(expired)) == Lazy(limits, old(leases), Expire, now)
    {
      hide SourceName;
      expired := ExpireLocked(now);
    }

    method IsActiveNow(now: int) returns (active: bool)
      modifies this
      ensures (leases, IsActive(active)) == Lazy(limits, old(leases), Active, now)
    {
      hide SourceName;
      var _ := ExpireLocked(now);
      active := leases != map[];
    }

    /** The snapshot's list, soonest expiry first, and the time to the next expiry. */
    method SnapshotNow(now: int) returns (ids: seq<string>, views: seq<LeaseView>, next: Option<int>)
      modifies this
      ensures leases == Purge(old(leases), now) && Listed(leases, ids)
      ensures |views| == |leases| && forall i | 0 <= i < |ids| :: views[i] == Public(leases[ids[i]], now)
      ensures next == if leases == map[] then None else Some(views[0].remaining)
      ensures forall i | 0 <= i < |views| :: next.Some? && next.value <= views[i].remaining
    {
      var _ := ExpireLocked(now);
      ids := SortedByExpiry(leases);
      views := seq(|ids|, i requires 0 <= i < |ids| && ids[i] in leases reads this => Public(leases[ids[i]], now));
      next := if views == [] then None else Some(views[0].remaining);
    }
  }

  /** Every lease of the table once, in the order of expiry. */
  ghost predicate Listed(t: Table, ids: seq<string>) {
    && |ids| == |t|
    && (forall i | 0 <= i < |ids| :: ids[i] in t)
    && (forall id | id in t :: id in ids)
    && (forall i, j | 0 <= i < j < |ids| :: ids[i] != ids[j] && t[ids[i]].expires <= t[ids[j]].expires)
  }

  /** The ids listed so far come in order of expiry, none twice. */
  ghost predicate InOrderOfExpiry(t: Table, ids: seq<string>) {
    && (forall i | 0 <= i < |ids| :: ids[i] in t)
    && (forall i, j | 0 <= i < j < |ids| :: ids[i] != ids[j] && t[ids[i]].expires <= t[ids[j]].expires)
  }

  ghost predicate AllBefore(t: Table, ids: seq<string>, left: set<string>)
    requires left <= t.Keys
  {
    forall i, id | 0 <= i < |ids| && id in left && ids[i] in t :: ids[i] !in left && t[ids[i]].expires <= t[id].expires
  }

  lemma NextInOrder(t: Table, ids: seq<string>, left: set<string>, id: string)
    requires left <= t.Keys && InOrderOfExpiry(t, ids) && AllBefore(t, ids, left) && Soonest(t, left, id)
    ensures InOrderOfExpiry(t, ids + [id]) && AllBefore(t, ids + [id], left - {id})
  {}

  method SortedByExpiry(t: Table) returns (ids: seq<string>)
    ensures Listed(t, ids)
  {
    hide InOrderOfExpiry, AllBefore;
    ids := [];
    var left := t.Keys;
    NothingListed(t);
    while left != {}
      invariant left <= t.Keys && |ids| + |left| == |t|
      invariant InOrderOfExpiry(t, ids) && AllBefore(t, ids, left)
      invariant forall id | id in t :: id in left || id in ids
      decreases |left|
    {
      SoonestExists(t, left);
      var id :| id in left && Soonest(t, left, id);
      NextInOrder(t, ids, left, id);
      ids := ids + [id];
      left := left - {id};
    }
    AllListed(t, ids);
  }

  lemma NothingListed(t: Table)
    ensures InOrderOfExpiry(t, []) && AllBefore(t, [], t.Keys)
  {}

  lemma AllListed(t: Table, ids: seq<string>)
    requires InOrderOfExpiry(t, ids) && |ids| == |t| && forall id | id in t :: id in ids
    ensures Listed(t, ids)
  {}

  predicate Soonest(t: Table, left: set<string>, id: string)
    requires left <= t.Keys
  {
    id in left && forall other | other in left :: t[id].expires <= t[other].expires
  }

  lemma {:induction false} SoonestExists(t: Table, left: set<string>)
    requires left <= t.Keys && left != {}
    ensures exists id :: Soonest(t, left, id)
    decreases |left|
  {
    SomeString(left);
    var id :| id in left;
    var others := left - {id};
    if others == {} {
      assert left == {id};
      assert Soonest(t, left, id);
    } else {
      SoonestExists(t, others);
      var best :| Soonest(t, others, best);
      assert forall other | other in left :: other == id || other in others;
      assert Soonest(t, left, if t[id].expires <= t[best].expires then id else best);
    }
  }

  lemma SomeString(s: set<string>)
    ensures s == {} || exists x :: x in s
  {
    if forall x :: x !in s {
      assert s == {};
    }
  }
}
