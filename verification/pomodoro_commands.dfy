/** What a user of the timer sees: how phases follow one another, how the countdown runs, and what each button does. */
module PomodoroCommands {
  import opened Common
  import opened Calendars
  import opened Pomodoro
  import opened PomodoroAccounting
  import opened PomodoroRestart

  /** A phase that waits to be started with its configured length. */
  predicate WaitsFor(c: Config, s: Timer, phase: Phase) {
    && s.phase == phase && s.status == Ready && s.deadline == None && s.override == None && s.accounted == None
    && s.remaining == 1000 * (if phase == Focus then c.focus else if phase == ShortBreak then c.short else c.long)
  }

  /** The same sessions are counted on every day that is kept. */
  ghost predicate SameCounts(g: History, h: History) {
    forall d | d in g :: g[d].completed == Bucket(h, d).completed
  }

  /** Accounting leaves the counts of sessions alone. */
  lemma AccountCounts(c: Config, s: Timer, last: int, now: int)
    requires Inv(c, s, last) && last <= now
    ensures SameCounts(Account(c, s, now).history, s.history)
  {
    if s.status == Running {
      UnprunedCounts(c, s, last, now);
      PruneSpec(Unpruned(c, s, now));
      hide Unpruned, Prune;
    }
  }

  lemma UnprunedCounts(c: Config, s: Timer, last: int, now: int)
    requires Inv(c, s, last) && last <= now && s.status == Running
    ensures forall d :: Bucket(Unpruned(c, s, now), d).completed == Bucket(s.history, d).completed
  {
    var end := Min(now, s.deadline.value);
    forall d ensures Bucket(Unpruned(c, s, now), d).completed == Bucket(s.history, d).completed {
      SpreadDay(c.cal, s.history, s.phase == Focus, Min(s.accounted.value, end), end, d);
    }
  }

  // ----- one phase after another

  /**
   Once its deadline is reached, and not before, a running phase ends: a focus session is counted,
   in the cycle and on the day of the deadline, and every `every`-th one is followed by a long
   break, the others by a short one; a break is followed by focus.
   */
  lemma PhaseEnds(c: Config, s: Timer, last: int, now: int)
    requires Inv(c, s, last) && last <= now
    ensures var u, h := Update(c, s, now), Account(c, s, now).history;
            if s.status == Running && now >= s.deadline.value then
              var day := c.cal.day(s.deadline.value);
              && u.serial == s.serial + 1
              && (s.phase != Focus ==> WaitsFor(c, u, Focus) && u.completed == s.completed && u.history == h)
              && (s.phase == Focus ==>
                    && WaitsFor(c, u, if (s.completed + 1) % c.every == 0 then LongBreak else ShortBreak)
                    && u.completed == s.completed + 1
                    && u.history == h[day := Bucket(h, day).(completed := Bucket(h, day).completed + 1)])
            else u == s.(history := h, accounted := u.accounted)
    ensures SameCounts(Account(c, s, now).history, s.history)
  {
    AccountKeepsInv(c, s, last, now);
    AccountCounts(c, s, last, now);
    hide Account;
  }

  /** A skip counts nothing: focus is followed by a short break, a break by focus. */
  lemma SkipEnds(c: Config, s: Timer, last: int, now: int)
    requires Inv(c, s, last) && last <= now
    ensures var t := Step(c, s, Skip, now);
            && WaitsFor(c, t, if s.phase == Focus then ShortBreak else Focus)
            && t.completed == s.completed && t.serial == s.serial + 1
            && t.history == Account(c, s, now).history && SameCounts(t.history, s.history)
  {
    AccountKeepsInv(c, s, last, now);
    AccountCounts(c, s, last, now);
    hide Account;
  }

  /** Whether an operation at this time completes a focus session: it brings the timer up to date and finds the deadline reached. */
  predicate Completes(s: Timer, op: Op, now: int) {
    (op == Tick || op == Start) && s.phase == Focus && s.status == Running && s.deadline.Some? && now >= s.deadline.value
  }

  /** The sessions completed since the cycle was last reset. */
  function CycleCount(c: Config, s: Timer, ops: seq<Timed>, count: int): int
    requires ValidConfig(c)
    decreases |ops|
  {
    if ops == [] then count
    else
      var next := if ops[0].op == ResetCycle then 0 else if Completes(s, ops[0].op, ops[0].at) then count + 1 else count;
      CycleCount(c, Step(c, s, ops[0].op, ops[0].at), ops[1..], next)
  }

  lemma StepCounts(c: Config, s: Timer, last: int, op: Op, now: int)
    requires Inv(c, s, last) && last <= now
    ensures Step(c, s, op, now).completed
         == if op == ResetCycle then 0 else if Completes(s, op, now) then s.completed + 1 else s.completed
  {
    AccountKeepsInv(c, s, last, now);
    PhaseEnds(c, s, last, now);
    hide Account, Update;
    UpdateOrAccount(c, s, op, now);
  }

  lemma UpdateOrAccount(c: Config, s: Timer, op: Op, now: int)
    requires ValidConfig(c)
    ensures var t := Step(c, s, op, now);
            t.completed == if op == ResetCycle then 0
                           else if op == Tick || op == Start then Update(c, s, now).completed
                           else Account(c, s, now).completed
  {
    hide Account, Update;
  }

  /**
   In every run the cycle counter is the number of focus sessions that reached their deadline since
   the last reset; so the long break comes with every `every`-th of them (`PhaseEnds`).
   */
  lemma {:induction false} RunCounts(c: Config, s: Timer, last: int, ops: seq<Timed>, to: int)
    requires Inv(c, s, last) && InOrder(last, ops, to)
    ensures Run(c, s, ops).completed == CycleCount(c, s, ops, s.completed)
    decreases |ops|
  {
    if ops != [] {
      StepCounts(c, s, last, ops[0].op, ops[0].at);
      StepKeepsInv(c, s, last, ops[0].op, ops[0].at);
      hide Step, Completes;
      RunCounts(c, Step(c, s, ops[0].op, ops[0].at), ops[0].at, ops[1..], to);
    }
  }

  // ----- the countdown

  predicate Counting(op: Op) {
    op == Start || op == Pause || op == Tick || op == Statistics
  }

  /** An operation before the time is up leaves the time left as it is; only then does it run on or stand still. */
  lemma LeftUntouched(c: Config, s: Timer, last: int, op: Op, now: int)
    requires Inv(c, s, last) && last <= now && Counting(op) && RemainingAt(s, now) > 0
    ensures var t := Step(c, s, op, now);
            && RemainingAt(t, now) == RemainingAt(s, now)
            && t.phase == s.phase && t.serial == s.serial && t.override == s.override && t.completed == s.completed
            && t.status == if op == Start then Running else if op == Pause then Paused else s.status
  {
    AccountKeepsInv(c, s, last, now);
    hide Account;
  }

  /** How long the timer has run in a run of such operations, up to some time after the last. */
  function Lasted(c: Config, s: Timer, last: int, ops: seq<Timed>, to: int): int
    requires ValidConfig(c)
    decreases |ops|
  {
    if ops == [] then (if s.status == Running then to - last else 0)
    else
      (if s.status == Running then ops[0].at - last else 0)
      + Lasted(c, Step(c, s, ops[0].op, ops[0].at), ops[0].at, ops[1..], to)
  }

  lemma {:induction false} LastedGrows(c: Config, s: Timer, last: int, ops: seq<Timed>, to: int)
    requires ValidConfig(c) && InOrder(last, ops, to)
    ensures Lasted(c, s, last, ops, to) >= 0
    decreases |ops|
  {
    if ops != [] {
      hide Step;
      LastedGrows(c, Step(c, s, ops[0].op, ops[0].at), ops[0].at, ops[1..], to);
    }
  }

  /** Until the time is up, it goes down by what passes while the timer runs. */
  lemma LeftLater(c: Config, s: Timer, last: int, now: int)
    requires Inv(c, s, last) && last <= now
    ensures RemainingAt(s, now) == Max(0, RemainingAt(s, last) - if s.status == Running then now - last else 0)
  {}

  /**
   However often it is paused and resumed, a phase keeps counting down by the time it runs, and is
   over exactly when that has used up what was left.
   */
  lemma {:induction false} CountdownRuns(c: Config, s: Timer, last: int, ops: seq<Timed>, to: int)
    requires Inv(c, s, last) && InOrder(last, ops, to) && (forall i | 0 <= i < |ops| :: Counting(ops[i].op))
    requires Lasted(c, s, last, ops, if ops == [] then last else ops[|ops| - 1].at) < RemainingAt(s, last)
    ensures var t := Run(c, s, ops);
            && t.phase == s.phase && t.serial == s.serial && t.completed == s.completed
            && RemainingAt(t, to) == Max(0, RemainingAt(s, last) - Lasted(c, s, last, ops, to))
            && (Due(t, to) <==> t.status == Running && Lasted(c, s, last, ops, to) >= RemainingAt(s, last))
    decreases |ops|
  {
    if ops == [] {
      LeftLater(c, s, last, to);
    } else {
      var op, now := ops[0].op, ops[0].at;
      var t := Step(c, s, op, now);
      var end := ops[|ops| - 1].at;
      OrderUpTo(last, ops, to);
      StepKeepsInv(c, s, last, op, now);
      LeftLater(c, s, last, now);
      LastedGrows(c, t, now, ops[1..], end);
      assert RemainingAt(s, now) > 0;
      LeftUntouched(c, s, last, op, now);
      assert forall i | 0 <= i < |ops[1..]| :: ops[1..][i] == ops[i + 1];
      hide Step, Inv, RemainingAt, Due, Counting;
      CountdownRuns(c, t, now, ops[1..], to);
    }
  }

  lemma {:induction false} OrderUpTo(last: int, ops: seq<Timed>, to: int)
    requires InOrder(last, ops, to) && ops != []
    ensures InOrder(last, ops, ops[|ops| - 1].at) && InOrder(ops[0].at, ops[1..], ops[|ops| - 1].at)
    decreases |ops|
  {
    if |ops| > 1 {
      OrderUpTo(ops[0].at, ops[1..], to);
      assert ops[1..][|ops| - 2] == ops[|ops| - 1];
    }
  }

  // ----- starting afresh, and the other buttons

  /** A start with nothing left starts the whole phase again, or the one that follows it. */
  lemma StartAgain(c: Config, s: Timer, last: int, now: int, later: int)
    requires Inv(c, s, last) && last <= now <= later && RemainingAt(s, now) == 0
    ensures var u, t := Update(c, s, now), Step(c, s, Start, now);
            && t.status == Running && t.phase == u.phase && t.completed == u.completed
            && RemainingAt(t, later) == Max(0, Duration(c, u) - (later - now))
  {
    PhaseEnds(c, s, last, now);
    UpdateKeepsInv(c, s, last, now);
    hide Account, Update;
  }

  lemma ResetPhaseRestores(c: Config, s: Timer, last: int, now: int)
    requires Inv(c, s, last) && last <= now
    ensures var t := Step(c, s, ResetPhase, now);
            && t.status == Ready && t.phase == s.phase && t.override == s.override
            && t.completed == s.completed && t.serial == s.serial
            && RemainingAt(t, now) == 1000 * if s.override.Some? then s.override.value else PhaseSeconds(c, s.phase)
  {
    AccountKeepsInv(c, s, last, now);
    hide Account;
  }

  lemma ResetCycleRestores(c: Config, s: Timer, last: int, now: int)
    requires Inv(c, s, last) && last <= now
    ensures var t := Step(c, s, ResetCycle, now);
            WaitsFor(c, t, Focus) && t.completed == 0 && t.serial == s.serial + 1
  {
    AccountKeepsInv(c, s, last, now);
    hide Account;
  }

  /** A chosen length is kept between one second and twelve hours, for this one phase. */
  lemma ChosenLength(c: Config, s: Timer, last: int, seconds: int, now: int)
    requires Inv(c, s, last) && last <= now
    ensures var f, p := Step(c, s, SetFocusDuration(seconds), now), Step(c, s, SetPhaseDuration(seconds), now);
            var length := if seconds < 1 then 1 else if seconds > 43_200 then 43_200 else seconds;
            && f.phase == Focus && p.phase == s.phase
            && (forall t | t in {f, p} ::
                  && t.status == Ready && t.deadline == None && t.completed == s.completed && t.serial == s.serial + 1
                  && t.override == Some(length) && RemainingAt(t, now) == Duration(c, t) == 1000 * length)
  {
    AccountKeepsInv(c, s, last, now);
    hide Account;
  }

  // ----- whatever the file says

  /** Loading any file at all gives a timer whose numbers are in range. */
  lemma AnyFileLoads(c: Config, file: Option<Payload>, now: int)
    requires ValidConfig(c)
    ensures var t := Load(c, file, now);
            && 0 <= t.remaining <= Duration(c, t) && t.completed >= 0 && t.serial >= 0
            && (t.override.Some? ==> 1 <= t.override.value <= 43_200)
            && (t.status == Running ==> t.deadline.Some? && t.deadline.value > now && t.accounted.Some?)
    ensures file.None? || file.value.phase.None? || file.value.status.None? ==>
              WaitsFor(c, Load(c, file, now), Focus) && Load(c, file, now).completed == 0 && Load(c, file, now).history == map[]
  {
    hide Spread, Prune;
  }

  function NotNegative(n: int): int {
    if n < 0 then 0 else n
  }

  /** Every day of a file is kept with its negative entries at zero. */
  ghost predicate DaysRead(h: History, file: History) {
    && h.Keys == file.Keys
    && forall d | d in file :: h[d] == Day(NotNegative(file[d].focus), NotNegative(file[d].rest), NotNegative(file[d].completed))
  }

  /**
   A readable file is restored field by field: a running phase without a deadline is paused, and one
   that was never accounted counts from the time the file was written.
   */
  lemma FileRestored(c: Config, p: Payload, now: int)
    requires p.phase.Some? && p.status.Some?
    ensures var t := Restore(c, Some(p), now);
            && t.phase == p.phase.value && t.deadline == p.deadline && DaysRead(t.history, p.history)
            && t.completed == NotNegative(p.completed) && t.serial == NotNegative(p.serial)
            && (t.status == p.status.value || (t.status == Paused && p.status.value == Running && p.deadline.None?))
            && (t.status == Running ==> t.deadline.Some?)
            && (p.remaining.Some? && 0 <= p.remaining.value <= Duration(c, t) ==> t.remaining == p.remaining.value)
            && (p.remaining.None? ==> t.remaining == NotNegative(Duration(c, t)))
            && (t.accounted == p.accounted || (t.status == Running && p.accounted.None?))
            && (t.status == Running && p.accounted.None? ==> t.accounted == if p.updatedAt.Some? then p.updatedAt else Some(now))
  {}
}
