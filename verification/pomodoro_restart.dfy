/** When a restart of the timer service can be noticed, and when it cannot. */
module PomodoroRestart {
  import opened Common
  import opened Calendars
  import opened Pomodoro
  import opened PomodoroAccounting

  // ----- accounting in two goes, with pruning in between

  lemma PruneThenSpread(cal: Calendar, h: History, focus: bool, m: int, b: int, d: int)
    requires Lawful(cal) && GoodHistory(cal, h, m) && |h| > HISTORY_LIMIT
    ensures d in Spread(cal, Prune(h), focus, m, b)
            <==> d in Prune(h) || (d in Spread(cal, h, focus, m, b) && d !in h)
    ensures d in Spread(cal, Prune(h), focus, m, b) ==>
              Bucket(Spread(cal, Prune(h), focus, m, b), d) == Bucket(Spread(cal, h, focus, m, b), d)
  {
    var kept := Prune(h);
    PruneSpec(h);
    SpreadDay(cal, h, focus, m, b, d);
    SpreadDay(cal, kept, focus, m, b, d);
    if Overlap(cal, d, m, b) > 0 && d in h {
      OverlapDays(cal, d, m, b);
      NewestKept(h, d);
    }
  }

  lemma NewestKept(h: History, d: int)
    requires |h| > HISTORY_LIMIT && d in h && forall e | e in h :: e <= d
    ensures d in Prune(h)
  {
    PruneSpec(h);
    var kept := Prune(h);
    assert kept.Keys != {};
    HasElement(kept.Keys);
    var x :| x in kept.Keys;
    assert x in kept;
  }

  /** Up to one day over the limit, pruning early makes no difference. */
  lemma PruneEarly(cal: Calendar, h: History, focus: bool, m: int, b: int)
    requires Lawful(cal) && GoodHistory(cal, h, m)
    requires |Spread(cal, h, focus, m, b)| <= HISTORY_LIMIT + 1
    ensures Prune(Spread(cal, Prune(h), focus, m, b)) == Prune(Spread(cal, h, focus, m, b))
    ensures |Spread(cal, Prune(h), focus, m, b)| <= |Spread(cal, h, focus, m, b)|
  {
    var kept, all, part := Prune(h), Spread(cal, h, focus, m, b), Spread(cal, Prune(h), focus, m, b);
    forall d: int ensures d in h.Keys ==> d in all.Keys {
      SpreadDay(cal, h, focus, m, b, d);
    }
    assert forall d | d in h.Keys :: d in all.Keys;
    Fits(h.Keys, all.Keys);
    if |h| > HISTORY_LIMIT {
      assert h.Keys == all.Keys;
      PruneSpec(h);
      PruneSpec(all);
      forall d: int ensures (d in part.Keys <==> d in kept.Keys) && (d in part ==> Bucket(part, d) == Bucket(all, d)) {
        PruneThenSpread(cal, h, focus, m, b, d);
      }
      SameKeys(part.Keys, kept.Keys);
      assert |part| == |part.Keys| == |kept.Keys| == HISTORY_KEPT;
      LatestUnique(kept, Prune(all), h, all);
      forall d: int ensures (d in part <==> d in Prune(all)) && Bucket(part, d) == Bucket(Prune(all), d) {
        assert d in part <==> d in part.Keys;
        assert d in Prune(all) <==> d in Prune(all).Keys;
        if d in Prune(all) {
          assert Prune(all)[d] == all[d];
        }
      }
      SameHistory(part, Prune(all));
    }
  }

  lemma AccountTwice(c: Config, s: Timer, last: int, t1: int, t2: int)
    requires Inv(c, s, last) && last <= t1 <= t2 && |Unpruned(c, s, t2)| <= HISTORY_LIMIT + 1
    ensures Account(c, Account(c, s, t1), t2) == Account(c, s, t2)
    ensures |Unpruned(c, Account(c, s, t1), t2)| <= HISTORY_LIMIT + 1
  {
    if s.status == Running {
      PruneSpec(s.history);
      PruneSpec(Prune(s.history));
      var focus, a, m, b := s.phase == Focus, s.accounted.value, Min(t1, s.deadline.value), Min(t2, s.deadline.value);
      if s.deadline.value > last {
        hide Prune;
        SpreadTwice(c.cal, s.history, focus, a, m, b);
        SpreadGood(c.cal, s.history, focus, a, m, m);
        PruneEarly(c.cal, Spread(c.cal, s.history, focus, a, m), focus, m, b);
      }
    }
  }

  // ----- updates the live timer makes without saving

  datatype Timed = Timed(op: Op, at: int)

  function Run(c: Config, s: Timer, ops: seq<Timed>): Timer
    requires ValidConfig(c)
    decreases |ops|
  {
    if ops == [] then s else Run(c, Step(c, s, ops[0].op, ops[0].at), ops[1..])
  }

  predicate InOrder(from: int, ops: seq<Timed>, to: int)
    decreases |ops|
  {
    if ops == [] then from <= to else from <= ops[0].at && InOrder(ops[0].at, ops[1..], to)
  }

  lemma {:induction false} InOrderBounds(from: int, ops: seq<Timed>, to: int)
    requires InOrder(from, ops, to)
    ensures from <= to
    decreases |ops|
  {
    if ops != [] {
      InOrderBounds(ops[0].at, ops[1..], to);
    }
  }

  /** `update` and `statistics_snapshot` are the operations that change the timer and do not save it. */
  predicate Unsaved(ops: seq<Timed>) {
    forall i | 0 <= i < |ops| :: ops[i].op == Tick || ops[i].op == Statistics
  }

  lemma UpdateAfterStep(c: Config, s: Timer, last: int, op: Op, t1: int, t2: int)
    requires Inv(c, s, last) && last <= t1 <= t2 && (op == Tick || op == Statistics)
    requires |Unpruned(c, s, t2)| <= HISTORY_LIMIT + 1
    ensures Update(c, Step(c, s, op, t1), t2) == Update(c, s, t2)
    ensures |Unpruned(c, Step(c, s, op, t1), t2)| <= HISTORY_LIMIT + 1
  {
    AccountTwice(c, s, last, t1, t2);
    StepKeepsInv(c, s, last, op, t1);
    hide Prune, Spread;
    if op == Tick && Due(Account(c, s, t1), t1) {
      assert Account(c, s, t1) == Account(c, s, t2);
    }
  }

  lemma {:induction false} QuietThenUpdate(c: Config, s: Timer, last: int, ops: seq<Timed>, t: int)
    requires Inv(c, s, last) && Unsaved(ops) && InOrder(last, ops, t)
    requires |Unpruned(c, s, t)| <= HISTORY_LIMIT + 1
    ensures Update(c, Run(c, s, ops), t) == Update(c, s, t)
    decreases |ops|
  {
    if ops != [] {
      InOrderBounds(ops[0].at, ops[1..], t);
      UpdateAfterStep(c, s, last, ops[0].op, ops[0].at, t);
      StepKeepsInv(c, s, last, ops[0].op, ops[0].at);
      hide Step, Update, Unpruned;
      QuietThenUpdate(c, Step(c, s, ops[0].op, ops[0].at), ops[0].at, ops[1..], t);
    }
  }

  // ----- the restart

  /** Everything that can be observed; `remaining` is recomputed from the deadline while running. */
  function View(s: Timer): Timer {
    if s.status == Running then s.(remaining := 0) else s
  }

  lemma RestoreSaved(c: Config, s: Timer, t0: int, t: int)
    requires Inv(c, s, t0)
    ensures View(Restore(c, Some(Document(s, t0)), t)) == View(s)
  {
    var h := s.history;
    SameHistory(map d | d in h :: NonNegative(h[d]), h);
  }

  lemma UpdateView(c: Config, a: Timer, b: Timer, now: int)
    requires ValidConfig(c) && View(a) == View(b)
    ensures View(Update(c, a, now)) == View(Update(c, b, now))
  {
    assert a == b.(remaining := a.remaining);
    hide Prune, Spread;
  }

  lemma LoadIsUpdate(c: Config, s: Timer, t0: int, t: int)
    requires Inv(c, s, t0)
    ensures View(Load(c, Some(Document(s, t0)), t)) == View(Update(c, s, t))
  {
    RestoreSaved(c, s, t0, t);
    UpdateView(c, Restore(c, Some(Document(s, t0)), t), s, t);
  }

  /** The live timer, after any unsaved updates and one more, and the one reloaded at that moment look the same. */
  ghost predicate Unnoticed(c: Config, s: Timer, t0: int, ops: seq<Timed>, t: int)
    requires ValidConfig(c)
  {
    View(Update(c, Run(c, s, ops), t)) == View(Load(c, Some(Document(s, t0)), t))
  }

  ghost predicate NeverNoticed(c: Config, s: Timer, t0: int, t: int)
    requires ValidConfig(c)
  {
    forall ops | Unsaved(ops) && InOrder(t0, ops, t) :: Unnoticed(c, s, t0, ops, t)
  }

  lemma RestartUnnoticed(c: Config, s: Timer, t0: int, ops: seq<Timed>, t: int)
    requires Inv(c, s, t0) && Unsaved(ops) && InOrder(t0, ops, t)
    requires |Unpruned(c, s, t)| <= HISTORY_LIMIT + 1
    ensures Unnoticed(c, s, t0, ops, t)
  {
    QuietThenUpdate(c, s, t0, ops, t);
    LoadIsUpdate(c, s, t0, t);
  }

  // ----- beyond the limit a restart can be noticed

  /** Accounting millisecond by millisecond meets every number of days on the way. */
  lemma {:induction false} DayCountReached(cal: Calendar, h: History, focus: bool, a: int, b: int, n: nat) returns (m: int)
    requires Lawful(cal) && a <= b && |h| <= n < |Spread(cal, h, focus, a, b)|
    ensures a <= m < b && |Spread(cal, h, focus, a, m)| == n && |Spread(cal, h, focus, a, m + 1)| == n + 1
    decreases b - a
  {
    var g := Spread(cal, h, focus, a, b - 1);
    SpreadTwice(cal, h, focus, a, b - 1, b);
    OneMillisecond(cal, g, focus, b - 1);
    if |g| <= n {
      m := b - 1;
    } else {
      m := DayCountReached(cal, h, focus, a, b - 1, n);
    }
  }

  lemma OneMillisecond(cal: Calendar, h: History, focus: bool, t: int)
    requires Lawful(cal)
    ensures |h| <= |Spread(cal, h, focus, t, t + 1)| <= |h| + 1
  {
    var d := cal.day(t);
    var g := h[d := AddTime(Bucket(h, d), focus, 1)];
    assert Spread(cal, h, focus, t, t + 1) == g;
    assert g.Keys == h.Keys + {d};
  }

  /** One more day after an early pruning leaves a day that pruning once, at the end, deletes. */
  lemma PruneEarlyNoticed(cal: Calendar, h: History, focus: bool, m: int, b: int) returns (extra: int)
    requires Lawful(cal) && GoodHistory(cal, h, m) && |h| > HISTORY_LIMIT && m <= b
    requires |Spread(cal, h, focus, m, b)| == |h| + 1
    ensures extra in Prune(Spread(cal, Prune(h), focus, m, b)) && extra !in Prune(Spread(cal, h, focus, m, b))
    ensures extra < cal.day(b)
  {
    var kept, all, part := Prune(h), Spread(cal, h, focus, m, b), Spread(cal, Prune(h), focus, m, b);
    PruneSpec(h);
    PruneSpec(all);
    PruneSpec(part);
    var k := NewDay(cal, h, focus, m, b);
    forall d: int ensures d in part.Keys <==> d in kept.Keys + {k} {
      PruneThenSpread(cal, h, focus, m, b, d);
    }
    SameKeys(part.Keys, kept.Keys + {k});
    assert |part.Keys| == HISTORY_KEPT + 1;
    extra := MissingOne(part.Keys, Prune(all).Keys);
    SpreadGood(cal, h, focus, m, b, b);
    assert Prune(all).Keys != {};
    HasElement(Prune(all).Keys);
    var x :| x in Prune(all).Keys;
    assert x in Prune(all) && x in all && extra in all;
  }

  lemma MissingOne(a: set<int>, b: set<int>) returns (x: int)
    requires |a| > |b|
    ensures x in a && x !in b
  {
    if forall y | y in a :: y in b {
      Fits(a, b);
    }
    x :| x in a && x !in b;
  }

  lemma NewDay(cal: Calendar, h: History, focus: bool, m: int, b: int) returns (k: int)
    requires Lawful(cal) && |Spread(cal, h, focus, m, b)| == |h| + 1
    ensures Spread(cal, h, focus, m, b).Keys == h.Keys + {k} && k !in h
  {
    var all := Spread(cal, h, focus, m, b);
    k := MissingOne(all.Keys, h.Keys);
    forall d: int ensures d in h.Keys + {k} ==> d in all.Keys {
      SpreadDay(cal, h, focus, m, b, d);
    }
    assert forall d | d in h.Keys + {k} :: d in all.Keys;
    assert |h.Keys + {k}| == |h| + 1;
    Fits(h.Keys + {k}, all.Keys);
  }

  lemma TimeOfDayCount(c: Config, s: Timer, t0: int, t: int) returns (m: int)
    requires Inv(c, s, t0) && t0 <= t && |Unpruned(c, s, t)| > HISTORY_LIMIT + 1
    ensures s.status == Running && t0 <= m < Min(t, s.deadline.value) && s.accounted.value == t0
    ensures |Unpruned(c, s, m)| == |Unpruned(c, s, t)| - 1
  {
    var b := Min(t, s.deadline.value);
    m := DayCountReached(c.cal, s.history, s.phase == Focus, s.accounted.value, b, |Unpruned(c, s, t)| - 1);
  }

  lemma AccountNoticed(c: Config, s: Timer, t0: int, t: int) returns (t1: int, extra: int)
    requires Inv(c, s, t0) && t0 <= t && |Unpruned(c, s, t)| > HISTORY_LIMIT + 1
    ensures t0 <= t1 <= t && s.status == Running && extra < c.cal.day(Min(t, s.deadline.value))
    ensures extra in Account(c, Account(c, s, t1), t).history && extra !in Account(c, s, t).history
  {
    t1 := TimeOfDayCount(c, s, t0, t);
    var focus, b := s.phase == Focus, Min(t, s.deadline.value);
    SpreadTwice(c.cal, s.history, focus, t0, t1, b);
    SpreadGood(c.cal, s.history, focus, t0, t1, t1);
    extra := PruneEarlyNoticed(c.cal, Unpruned(c, s, t1), focus, t1, b);
  }

  lemma UpdateHistory(c: Config, s: Timer, now: int, d: int)
    requires ValidConfig(c)
    requires s.status == Running && s.deadline.Some? && s.accounted.Some? && d < c.cal.day(Min(now, s.deadline.value))
    ensures d in Update(c, s, now).history <==> d in Account(c, s, now).history
  {
    hide Spread, Prune;
  }

  lemma RestartNoticed(c: Config, s: Timer, t0: int, t: int)
    requires Inv(c, s, t0) && t0 <= t && |Unpruned(c, s, t)| > HISTORY_LIMIT + 1
    ensures !NeverNoticed(c, s, t0, t)
  {
    var t1, extra := AccountNoticed(c, s, t0, t);
    var ops := [Timed(Statistics, t1)];
    var live := Account(c, s, t1);
    assert Run(c, s, ops) == live by {
      assert ops[1..] == [];
    }
    assert InOrder(t0, ops, t) by {
      assert ops[1..] == [];
    }
    assert Unsaved(ops);
    AccountKeepsInv(c, s, t0, t1);
    UpdateHistory(c, s, t, extra);
    UpdateHistory(c, live, t, extra);
    LoadIsUpdate(c, s, t0, t);
    hide Update, Load;
    assert extra in View(Update(c, live, t)).history && extra !in View(Update(c, s, t)).history;
    assert !Unnoticed(c, s, t0, ops, t);
  }

  /**
   A restart at `t` from the state saved at `t0` goes unnoticed, whatever the live timer
   did in between without saving, exactly when the running time up to `t` does not take
   the history more than one day past its limit.
   */
  lemma RestartUnnoticedIff(c: Config, s: Timer, t0: int, t: int)
    requires Inv(c, s, t0) && t0 <= t
    ensures NeverNoticed(c, s, t0, t) <==> |Unpruned(c, s, t)| <= HISTORY_LIMIT + 1
  {
    if |Unpruned(c, s, t)| <= HISTORY_LIMIT + 1 {
      forall ops | Unsaved(ops) && InOrder(t0, ops, t) ensures Unnoticed(c, s, t0, ops, t) {
        RestartUnnoticed(c, s, t0, ops, t);
      }
    } else {
      RestartNoticed(c, s, t0, t);
    }
  }
}
