/** What the timer's accounting adds up to: its history as a function of the time that ran. */
module PomodoroAccounting {
  import opened Common
  import opened Calendars
  import opened Pomodoro

  /**
   The loop over midnights credits every day with exactly its share of the interval,
   and creates entries for exactly the days it meets.
   */
  lemma {:induction false} SpreadDay(cal: Calendar, h: History, focus: bool, a: int, b: int, d: int)
    requires Lawful(cal)
    ensures d in Spread(cal, h, focus, a, b) <==> d in h || Overlap(cal, d, a, b) > 0
    ensures Bucket(Spread(cal, h, focus, a, b), d) == AddTime(Bucket(h, d), focus, Overlap(cal, d, a, b))
    decreases b - a
  {
    if a < b {
      var cut, e := Min(b, cal.midnight(a)), cal.day(a);
      OverlapSplit(cal, d, a, cut, b);
      OverlapInOneDay(cal, d, a, cut);
      SpreadDay(cal, h[e := AddTime(Bucket(h, e), focus, cut - a)], focus, cut, b, d);
      hide Overlap, Lawful;
    }
  }

  lemma SameHistory(g: History, h: History)
    requires forall d :: (d in g <==> d in h) && Bucket(g, d) == Bucket(h, d)
    ensures g == h
  {
    SameKeys(g.Keys, h.Keys);
    forall d | d in g ensures g[d] == h[d] {
      assert Bucket(g, d) == Bucket(h, d);
    }
  }

  /** Accounting in two goes is accounting in one. */
  lemma SpreadTwice(cal: Calendar, h: History, focus: bool, a: int, b: int, c: int)
    requires Lawful(cal) && a <= b <= c
    ensures Spread(cal, Spread(cal, h, focus, a, b), focus, b, c) == Spread(cal, h, focus, a, c)
  {
    var once, twice := Spread(cal, h, focus, a, c), Spread(cal, Spread(cal, h, focus, a, b), focus, b, c);
    forall d ensures (d in twice <==> d in once) && Bucket(twice, d) == Bucket(once, d) {
      SpreadDay(cal, h, focus, a, b, d);
      SpreadDay(cal, Spread(cal, h, focus, a, b), focus, b, c, d);
      SpreadDay(cal, h, focus, a, c, d);
      OverlapSplit(cal, d, a, b, c);
    }
    SameHistory(twice, once);
  }

  // ----- pruning

  /** `kept` holds the latest days of `h`, unchanged. */
  ghost predicate LatestOf(kept: History, h: History) {
    && kept.Keys <= h.Keys
    && (forall d | d in kept :: kept[d] == h[d])
    && (forall d, e | d in kept && e in h && e !in kept :: e < d)
  }

  lemma {:induction false} KeepLatestSpec(h: History, n: nat)
    ensures LatestOf(KeepLatest(h, n), h) && |KeepLatest(h, n)| == Min(|h|, n)
    decreases |h|
  {
    if |h| > n {
      assert h.Keys != {};
      LeastExists(h.Keys);
      var d :| IsLeast(h.Keys, d) && KeepLatest(h, n) == KeepLatest(h - {d}, n);
      KeysMinus(h, d);
      KeepLatestSpec(h - {d}, n);
      hide KeepLatest;
      LatestAlso(KeepLatest(h - {d}, n), h, d);
    }
  }

  lemma LatestAlso(kept: History, h: History, d: int)
    requires IsLeast(h.Keys, d) && LatestOf(kept, h - {d})
    ensures LatestOf(kept, h)
  {
    forall x, e | x in kept && e in h && e !in kept ensures e < x {
      assert x in h - {d};
      assert e == d || e in h - {d};
    }
  }

  lemma PruneSpec(h: History)
    ensures LatestOf(Prune(h), h)
    ensures |Prune(h)| == if |h| <= 190 then |h| else 180
  {
    KeepLatestSpec(h, HISTORY_KEPT);
  }

  /** The latest days of a history are determined by how many there are. */
  lemma LatestUnique(a: History, b: History, g: History, h: History)
    requires LatestOf(a, g) && LatestOf(b, h) && g.Keys == h.Keys && |a| == |b|
    ensures a.Keys == b.Keys
  {
    forall x: int ensures x in a.Keys <==> x in b.Keys {
      if x in a.Keys && x !in b.Keys {
        LatestNested(a, b, g, h, x);
      } else if x in b.Keys && x !in a.Keys {
        LatestNested(b, a, h, g, x);
      }
    }
    SameKeys(a.Keys, b.Keys);
  }

  lemma LatestNested(a: History, b: History, g: History, h: History, x: int)
    requires LatestOf(a, g) && LatestOf(b, h) && g.Keys == h.Keys && x in a && x !in b
    ensures |b| < |a|
  {
    forall y | y in b ensures y in a.Keys - {x} {
      assert x < y;
    }
    assert b.Keys <= a.Keys - {x};
    Fits(b.Keys, a.Keys - {x});
    assert |a.Keys - {x}| == |a.Keys| - 1;
  }

  // ----- the invariant of every run

  ghost predicate Inv(c: Config, s: Timer, now: int) {
    && ValidConfig(c)
    && (s.status == Running <==> s.deadline.Some?)
    && (s.status == Running <==> s.accounted.Some?)
    && (s.status == Running ==>
          s.accounted.value == Min(now, s.deadline.value) && s.deadline.value - s.accounted.value <= Duration(c, s))
    && 0 <= s.remaining <= Duration(c, s)
    && (s.override.Some? ==> 1 <= s.override.value <= MAX_OVERRIDE)
    && s.completed >= 0 && s.serial >= 0
    && (s.phase == LongBreak ==> s.completed > 0 && s.completed % c.every == 0)
    && GoodHistory(c.cal, s.history, now)
    && |s.history| <= HISTORY_LIMIT + 1
  }

  ghost predicate GoodHistory(cal: Calendar, h: History, now: int) {
    forall d | d in h :: d <= cal.day(now) && h[d] == NonNegative(h[d])
  }

  lemma SpreadGood(cal: Calendar, h: History, focus: bool, a: int, b: int, now: int)
    requires Lawful(cal) && GoodHistory(cal, h, a) && a <= b <= now
    ensures GoodHistory(cal, Spread(cal, h, focus, a, b), now)
  {
    var g := Spread(cal, h, focus, a, b);
    forall d | d in g ensures d <= cal.day(now) && g[d] == NonNegative(g[d]) {
      SpreadDay(cal, h, focus, a, b, d);
      if Overlap(cal, d, a, b) > 0 {
        OverlapDays(cal, d, a, b);
      }
    }
  }

  lemma GoodLater(cal: Calendar, h: History, last: int, now: int)
    requires Lawful(cal) && GoodHistory(cal, h, last) && last <= now
    ensures GoodHistory(cal, h, now)
  {
    assert cal.day(last) <= cal.day(now);
  }

  lemma AccountKeepsInv(c: Config, s: Timer, last: int, now: int)
    requires Inv(c, s, last) && last <= now
    ensures var a := Account(c, s, now);
            Inv(c, a, now) && (s.status == Running ==> |a.history| <= HISTORY_LIMIT)
            && a == s.(history := a.history, accounted := a.accounted)
  {
    GoodLater(c.cal, s.history, last, now);
    if s.status == Running {
      UnprunedGood(c, s, last, now);
      PruneSpec(Unpruned(c, s, now));
      hide Prune, Unpruned, Lawful;
    }
  }

  lemma UnprunedGood(c: Config, s: Timer, last: int, now: int)
    requires Inv(c, s, last) && last <= now && s.status == Running
    ensures GoodHistory(c.cal, Unpruned(c, s, now), now)
  {
    if s.deadline.value <= last {
      GoodLater(c.cal, s.history, last, now);
    } else {
      hide Lawful;
      SpreadGood(c.cal, s.history, s.phase == Focus, s.accounted.value, Min(now, s.deadline.value), now);
    }
  }

  lemma AdvanceKeepsInv(c: Config, s: Timer, at: Option<int>, now: int)
    requires Inv(c, s.(remaining := 0), now)
    requires at.Some? ==> at.value <= now && |s.history| <= HISTORY_LIMIT
    ensures Inv(c, Advance(c, s, at), now)
  {
    if s.phase == Focus && at.Some? {
      assert c.cal.day(at.value) <= c.cal.day(now);
      var h := RecordCompleted(c.cal, s.history, at.value);
      assert h.Keys == s.history.Keys + {c.cal.day(at.value)};
    }
  }

  lemma UpdateKeepsInv(c: Config, s: Timer, last: int, now: int)
    requires Inv(c, s, last) && last <= now
    ensures Inv(c, Update(c, s, now), now)
  {
    AccountKeepsInv(c, s, last, now);
    var a := Account(c, s, now);
    if Due(a, now) {
      AdvanceKeepsInv(c, a.(remaining := 0), a.deadline, now);
    }
  }

  lemma StepKeepsInv(c: Config, s: Timer, last: int, op: Op, now: int)
    requires Inv(c, s, last) && last <= now
    ensures Inv(c, Step(c, s, op, now), now)
  {
    AccountKeepsInv(c, s, last, now);
    match op
    case Start => StartKeepsInv(c, s, last, now);
    case Skip => AdvanceKeepsInv(c, Account(c, s, now), None, now);
    case Tick => UpdateKeepsInv(c, s, last, now);
    case _ => hide Account;
  }

  lemma StartKeepsInv(c: Config, s: Timer, last: int, now: int)
    requires Inv(c, s, last) && last <= now
    ensures Inv(c, Step(c, s, Start, now), now)
  {
    UpdateKeepsInv(c, s, last, now);
    hide Update;
  }
}
