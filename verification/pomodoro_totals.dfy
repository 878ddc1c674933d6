/** Over whole runs: every millisecond that ran is in the history once, and no day is overfull. */
module PomodoroTotals {
  import opened Common
  import opened Calendars
  import opened Pomodoro
  import opened PomodoroAccounting
  import opened PomodoroRestart

  function Time(day: Day, focus: bool): int {
    if focus then day.focus else day.rest
  }

  /** Wall time spent running in a phase between two operations, capped at the deadline. */
  predicate Counts(s: Timer, focus: bool) {
    s.status == Running && s.deadline.Some? && (s.phase == Focus) == focus
  }

  function Worked(s: Timer, last: int, now: int, focus: bool): int {
    if Counts(s, focus) then Min(now, s.deadline.value) - Min(last, s.deadline.value) else 0
  }

  /** The part of that time that falls on day `d`. */
  function WorkedOn(c: Config, s: Timer, last: int, now: int, focus: bool, d: int): int {
    if Counts(s, focus) then Overlap(c.cal, d, Min(last, s.deadline.value), Min(now, s.deadline.value)) else 0
  }

  /** What pruning takes away at one operation. */
  function Pruned(c: Config, s: Timer, now: int): History
    requires ValidConfig(c)
  {
    Unpruned(c, s, now) - Account(c, s, now).history.Keys
  }

  function RunWorkedOn(c: Config, s: Timer, last: int, ops: seq<Timed>, focus: bool, d: int): int
    requires ValidConfig(c)
    decreases |ops|
  {
    if ops == [] then 0
    else WorkedOn(c, s, last, ops[0].at, focus, d)
         + RunWorkedOn(c, Step(c, s, ops[0].op, ops[0].at), ops[0].at, ops[1..], focus, d)
  }

  function RunPrunedOn(c: Config, s: Timer, ops: seq<Timed>, focus: bool, d: int): int
    requires ValidConfig(c)
    decreases |ops|
  {
    if ops == [] then 0
    else Time(Bucket(Pruned(c, s, ops[0].at), d), focus)
         + RunPrunedOn(c, Step(c, s, ops[0].op, ops[0].at), ops[1..], focus, d)
  }

  lemma AccountHistory(c: Config, s: Timer, last: int, now: int)
    requires Inv(c, s, last) && last <= now
    ensures LatestOf(Account(c, s, now).history, Unpruned(c, s, now)) || Account(c, s, now).history == Unpruned(c, s, now)
    ensures var u := Unpruned(c, s, now);
            if s.status == Running
            then u == Spread(c.cal, s.history, s.phase == Focus, Min(last, s.deadline.value), Min(now, s.deadline.value))
            else u == s.history
  {
    PruneSpec(Unpruned(c, s, now));
    hide Prune, Spread;
  }

  /** An operation changes times only by accounting; completing a session adds to its count alone. */
  lemma StepTimes(c: Config, s: Timer, op: Op, now: int, focus: bool, d: int)
    requires ValidConfig(c)
    ensures Time(Bucket(Step(c, s, op, now).history, d), focus) == Time(Bucket(Account(c, s, now).history, d), focus)
  {
    hide Account;
  }

  lemma StepConservesDay(c: Config, s: Timer, last: int, op: Op, now: int, focus: bool, d: int)
    requires Inv(c, s, last) && last <= now
    ensures Time(Bucket(Step(c, s, op, now).history, d), focus) + Time(Bucket(Pruned(c, s, now), d), focus)
         == Time(Bucket(s.history, d), focus) + WorkedOn(c, s, last, now, focus, d)
  {
    StepTimes(c, s, op, now, focus, d);
    AccountHistory(c, s, last, now);
    if s.status == Running {
      SpreadDay(c.cal, s.history, s.phase == Focus, Min(last, s.deadline.value), Min(now, s.deadline.value), d);
    }
    hide Account, Unpruned, Step, Overlap;
    var u, kept := Unpruned(c, s, now), Account(c, s, now).history;
    assert d in u ==> (d in kept <==> d !in u - kept.Keys);
  }

  /**
   In every run with a clock that does not go back, and for every day: the time kept
   for the day plus the time pruned from it is the wall time spent running on that day,
   each stretch capped at its deadline.
   */
  lemma {:induction false} RunConservesDay(c: Config, s: Timer, last: int, ops: seq<Timed>, to: int, focus: bool, d: int)
    requires Inv(c, s, last) && InOrder(last, ops, to)
    ensures Time(Bucket(Run(c, s, ops).history, d), focus) + RunPrunedOn(c, s, ops, focus, d)
         == Time(Bucket(s.history, d), focus) + RunWorkedOn(c, s, last, ops, focus, d)
    decreases |ops|
  {
    if ops != [] {
      var next := Step(c, s, ops[0].op, ops[0].at);
      StepConservesDay(c, s, last, ops[0].op, ops[0].at, focus, d);
      StepKeepsInv(c, s, last, ops[0].op, ops[0].at);
      hide Step, Pruned, WorkedOn;
      RunConservesDay(c, next, ops[0].at, ops[1..], to, focus, d);
    }
  }

  // ----- totals over all days

  /** The sum of the times of the given days. */
  function Sum(h: History, days: set<int>, focus: bool): int
    decreases |days|
  {
    if days == {} then 0
    else
      LeastExists(days);
      var d :| IsLeast(days, d);
      Time(Bucket(h, d), focus) + Sum(h, days - {d}, focus)
  }

  function Total(h: History, focus: bool): int {
    Sum(h, h.Keys, focus)
  }

  lemma {:induction false} SumPick(h: History, days: set<int>, focus: bool, d: int)
    requires d in days
    ensures Sum(h, days, focus) == Time(Bucket(h, d), focus) + Sum(h, days - {d}, focus)
    decreases |days|
  {
    LeastExists(days);
    var e :| IsLeast(days, e) && Sum(h, days, focus) == Time(Bucket(h, e), focus) + Sum(h, days - {e}, focus);
    if e != d {
      SumPick(h, days - {e}, focus, d);
      SumPick(h, days - {d}, focus, e);
      hide Sum;
      assert days - {e} - {d} == days - {d} - {e};
    }
  }

  lemma {:induction false} SumAgree(g: History, h: History, days: set<int>, focus: bool)
    requires forall d | d in days :: Time(Bucket(g, d), focus) == Time(Bucket(h, d), focus)
    ensures Sum(g, days, focus) == Sum(h, days, focus)
    decreases |days|
  {
    if days != {} {
      HasElement(days);
      var d :| d in days;
      SumPick(g, days, focus, d);
      SumPick(h, days, focus, d);
      SumAgree(g, h, days - {d}, focus);
    }
  }

  lemma {:induction false} SumUnion(h: History, a: set<int>, b: set<int>, focus: bool)
    requires a !! b
    ensures Sum(h, a + b, focus) == Sum(h, a, focus) + Sum(h, b, focus)
    decreases |a|
  {
    if a == {} {
      assert a + b == b;
    } else {
      HasElement(a);
      var d :| d in a;
      SumPick(h, a, focus, d);
      SumPick(h, a + b, focus, d);
      assert (a + b) - {d} == (a - {d}) + b;
      SumUnion(h, a - {d}, b, focus);
    }
  }

  lemma TotalPut(h: History, focus: bool, d: int, day: Day)
    ensures Total(h[d := day], focus) == Total(h, focus) - Time(Bucket(h, d), focus) + Time(day, focus)
  {
    hide Sum;
    var g, others := h[d := day], h.Keys - {d};
    SumPick(g, g.Keys, focus, d);
    assert g.Keys - {d} == others;
    SumAgree(g, h, others, focus);
    if d in h {
      SumPick(h, h.Keys, focus, d);
    } else {
      assert h.Keys == others;
    }
  }

  lemma {:induction false} TotalSpread(cal: Calendar, h: History, focus: bool, a: int, b: int, which: bool)
    requires Lawful(cal)
    ensures Total(Spread(cal, h, focus, a, b), which) == Total(h, which) + if which == focus then Max(0, b - a) else 0
    decreases b - a
  {
    hide Total;
    if a < b {
      var cut, d := Min(b, cal.midnight(a)), cal.day(a);
      var day := AddTime(Bucket(h, d), focus, cut - a);
      TotalPut(h, which, d, day);
      TotalSpread(cal, h[d := day], focus, cut, b, which);
    }
  }

  /** A history is what is kept of it and what is taken away. */
  lemma TotalSplit(h: History, kept: History, focus: bool)
    requires kept.Keys <= h.Keys && forall d | d in kept :: kept[d] == h[d]
    ensures Total(h, focus) == Total(kept, focus) + Total(h - kept.Keys, focus)
  {
    hide Sum;
    var gone := h - kept.Keys;
    assert gone.Keys == h.Keys - kept.Keys;
    SumUnion(h, kept.Keys, gone.Keys, focus);
    assert h.Keys == kept.Keys + gone.Keys;
    forall d | d in kept.Keys ensures Time(Bucket(h, d), focus) == Time(Bucket(kept, d), focus) {
      assert d in kept;
    }
    forall d | d in gone.Keys ensures Time(Bucket(h, d), focus) == Time(Bucket(gone, d), focus) {
      assert d in gone;
    }
    SumAgree(h, kept, kept.Keys, focus);
    SumAgree(h, gone, gone.Keys, focus);
  }

  function RunWorked(c: Config, s: Timer, last: int, ops: seq<Timed>, focus: bool): int
    requires ValidConfig(c)
    decreases |ops|
  {
    if ops == [] then 0
    else Worked(s, last, ops[0].at, focus)
         + RunWorked(c, Step(c, s, ops[0].op, ops[0].at), ops[0].at, ops[1..], focus)
  }

  function RunPruned(c: Config, s: Timer, ops: seq<Timed>, focus: bool): int
    requires ValidConfig(c)
    decreases |ops|
  {
    if ops == [] then 0
    else Total(Pruned(c, s, ops[0].at), focus) + RunPruned(c, Step(c, s, ops[0].op, ops[0].at), ops[1..], focus)
  }

  lemma TotalAdvance(c: Config, s: Timer, at: Option<int>, focus: bool)
    requires c.every >= 1
    ensures Total(Advance(c, s, at).history, focus) == Total(s.history, focus)
  {
    if s.phase == Focus && at.Some? {
      var d := c.cal.day(at.value);
      TotalPut(s.history, focus, d, Bucket(s.history, d).(completed := Bucket(s.history, d).completed + 1));
    }
  }

  lemma StepTotal(c: Config, s: Timer, op: Op, now: int, focus: bool)
    requires ValidConfig(c)
    ensures Total(Step(c, s, op, now).history, focus) == Total(Account(c, s, now).history, focus)
  {
    hide Account, Total, Advance;
    var a := Account(c, s, now);
    TotalAdvance(c, a, None, focus);
    TotalAdvance(c, a.(remaining := 0), a.deadline, focus);
  }

  lemma StepConservesTotal(c: Config, s: Timer, last: int, op: Op, now: int, focus: bool)
    requires Inv(c, s, last) && last <= now
    ensures Total(Step(c, s, op, now).history, focus) + Total(Pruned(c, s, now), focus)
         == Total(s.history, focus) + Worked(s, last, now, focus)
  {
    StepTotal(c, s, op, now, focus);
    AccountTotal(c, s, last, now, focus);
    hide Step, Account, Unpruned, Total, Pruned;
  }

  lemma AccountTotal(c: Config, s: Timer, last: int, now: int, focus: bool)
    requires Inv(c, s, last) && last <= now
    ensures Total(Account(c, s, now).history, focus) + Total(Pruned(c, s, now), focus)
         == Total(s.history, focus) + Worked(s, last, now, focus)
  {
    AccountHistory(c, s, last, now);
    hide Account, Unpruned, Total, Spread;
    TotalSplit(Unpruned(c, s, now), Account(c, s, now).history, focus);
    if s.status == Running {
      TotalSpread(c.cal, s.history, s.phase == Focus, Min(last, s.deadline.value), Min(now, s.deadline.value), focus);
    }
  }

  /** In every run, the totals kept plus the totals pruned are the wall time that ran in those phases. */
  lemma {:induction false} RunConservesTotal(c: Config, s: Timer, last: int, ops: seq<Timed>, to: int, focus: bool)
    requires Inv(c, s, last) && InOrder(last, ops, to)
    ensures Total(Run(c, s, ops).history, focus) + RunPruned(c, s, ops, focus)
         == Total(s.history, focus) + RunWorked(c, s, last, ops, focus)
    decreases |ops|
  {
    if ops != [] {
      var next := Step(c, s, ops[0].op, ops[0].at);
      StepConservesTotal(c, s, last, ops[0].op, ops[0].at, focus);
      StepKeepsInv(c, s, last, ops[0].op, ops[0].at);
      hide Step, Pruned, Worked, Total;
      RunConservesTotal(c, next, ops[0].at, ops[1..], to, focus);
    }
  }

  // ----- no day holds more than the day

  ghost predicate NoDayOverfull(c: Config, h: History, birth: int, now: int) {
    forall d | d in h :: h[d].focus + h[d].rest <= Overlap(c.cal, d, birth, now)
  }

  lemma StepKeepsDays(c: Config, s: Timer, birth: int, last: int, op: Op, now: int)
    requires Inv(c, s, last) && birth <= last <= now && NoDayOverfull(c, s.history, birth, last)
    ensures NoDayOverfull(c, Step(c, s, op, now).history, birth, now)
  {
    var h := Step(c, s, op, now).history;
    AccountKeepsInv(c, s, last, now);
    forall d | d in h ensures h[d].focus + h[d].rest <= Overlap(c.cal, d, birth, now) {
      StepConservesDay(c, s, last, op, now, true, d);
      StepConservesDay(c, s, last, op, now, false, d);
      OverlapSplit(c.cal, d, birth, last, now);
      PrunedNonNegative(c, s, last, now, d);
      WorkedOnLimited(c, s, last, now, d);
      hide Step, Pruned, WorkedOn, Overlap;
      assert d !in s.history ==> Bucket(s.history, d) == Day(0, 0, 0);
    }
  }

  lemma WorkedOnLimited(c: Config, s: Timer, last: int, now: int, d: int)
    requires last <= now
    ensures WorkedOn(c, s, last, now, true, d) + WorkedOn(c, s, last, now, false, d) <= Overlap(c.cal, d, last, now)
  {
    if s.status == Running && s.deadline.Some? && last < s.deadline.value {
      OverlapSplit(c.cal, d, last, Min(now, s.deadline.value), now);
    }
  }

  lemma PrunedNonNegative(c: Config, s: Timer, last: int, now: int, d: int)
    requires Inv(c, s, last) && last <= now
    ensures Bucket(Pruned(c, s, now), d).focus >= 0 && Bucket(Pruned(c, s, now), d).rest >= 0
  {
    AccountHistory(c, s, last, now);
    if s.status == Running {
      SpreadDay(c.cal, s.history, s.phase == Focus, Min(last, s.deadline.value), Min(now, s.deadline.value), d);
    }
    hide Account, Unpruned, Spread;
    var u := Unpruned(c, s, now);
    assert d in s.history ==> s.history[d] == NonNegative(s.history[d]);
    assert d in Pruned(c, s, now) ==> Pruned(c, s, now)[d] == u[d];
  }

  lemma {:induction false} RunKeepsDays(c: Config, s: Timer, birth: int, last: int, ops: seq<Timed>, to: int) returns (end: int)
    requires Inv(c, s, last) && birth <= last && InOrder(last, ops, to) && NoDayOverfull(c, s.history, birth, last)
    ensures last <= end <= to && NoDayOverfull(c, Run(c, s, ops).history, birth, end) && Inv(c, Run(c, s, ops), end)
    decreases |ops|
  {
    if ops == [] {
      end := last;
    } else {
      StepKeepsDays(c, s, birth, last, ops[0].op, ops[0].at);
      StepKeepsInv(c, s, last, ops[0].op, ops[0].at);
      hide Step, NoDayOverfull, Inv;
      InvConfig(c, s, last);
      end := RunKeepsDays(c, Step(c, s, ops[0].op, ops[0].at), birth, ops[0].at, ops[1..], to);
    }
  }

  lemma InvConfig(c: Config, s: Timer, last: int)
    requires Inv(c, s, last)
    ensures ValidConfig(c)
  {}

  /** A timer that starts with an empty history never credits a day with more time than the day has. */
  lemma DayWithinItsLength(c: Config, birth: int, ops: seq<Timed>, to: int, d: int, low: int, high: int)
    requires ValidConfig(c) && InOrder(birth, ops, to)
    requires low <= high && forall u :: c.cal.day(u) == d ==> low <= u < high
    ensures var day := Bucket(Run(c, Fresh(c), ops).history, d);
            0 <= day.focus && 0 <= day.rest && day.focus + day.rest <= high - low
  {
    var end := RunKeepsDays(c, Fresh(c), birth, birth, ops, to);
    var h := Run(c, Fresh(c), ops).history;
    hide Run;
    OverlapWithinDay(c.cal, d, low, high, birth, end);
    hide Overlap, Lawful;
    assert d in h ==> h[d] == NonNegative(h[d]);
  }

  /** A long break is entered only after a whole number of full cycles of completed sessions. */
  lemma LongBreakEarned(c: Config, birth: int, ops: seq<Timed>, to: int)
    requires ValidConfig(c) && InOrder(birth, ops, to)
    ensures var s := Run(c, Fresh(c), ops);
            s.phase == LongBreak ==> s.completed > 0 && s.completed % c.every == 0
  {
    var end := RunKeepsDays(c, Fresh(c), birth, birth, ops, to);
    hide Run;
  }
}
