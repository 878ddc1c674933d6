/**
 The persistent Pomodoro timer (apps/expression-ui/pomodoro.py): a phase and status
 machine with deadlines, accounting of running time by calendar day, and a saved state
 that survives restarts. Durations are in seconds, instants and balances in milliseconds.
 */
module Pomodoro {
  import opened Common
  import opened Calendars

  datatype Phase = Focus | ShortBreak | LongBreak
  datatype Status = Ready | Running | Paused
  datatype Day = Day(focus: int, rest: int, completed: int)
  type History = map<int, Day>

  datatype Config = Config(focus: int, short: int, long: int, every: int, cal: Calendar)

  const MAX_OVERRIDE := 12 * 60 * 60
  const HISTORY_LIMIT := 190
  const HISTORY_KEPT := 180

  datatype Timer = Timer(
    phase: Phase,
    status: Status,
    remaining: int,
    deadline: Option<int>,
    override: Option<int>,
    completed: int,
    serial: int,
    history: History,
    accounted: Option<int>)

  ghost predicate ValidConfig(c: Config) {
    c.focus >= 1 && c.short >= 1 && c.long >= 1 && c.every >= 1 && Lawful(c.cal)
  }

  function PhaseSeconds(c: Config, p: Phase): int {
    match p case Focus => c.focus case ShortBreak => c.short case LongBreak => c.long
  }

  /** `duration_for()`, in milliseconds. */
  function Duration(c: Config, s: Timer): int {
    1000 * if s.override.Some? then s.override.value else PhaseSeconds(c, s.phase)
  }

  function RemainingAt(s: Timer, now: int): int {
    Max(0, if s.status == Running && s.deadline.Some? then s.deadline.value - now else s.remaining)
  }

  // ----- accounting

  function Bucket(h: History, d: int): Day {
    if d in h then h[d] else Day(0, 0, 0)
  }

  function AddTime(day: Day, focus: bool, ms: int): Day {
    if focus then day.(focus := day.focus + ms) else day.(rest := day.rest + ms)
  }

  /** Running time from `start` up to `end`, split at every midnight. */
  function Spread(cal: Calendar, h: History, focus: bool, start: int, end: int): History
    requires Lawful(cal)
    decreases end - start
  {
    if end <= start then h
    else
      var cut := Min(end, cal.midnight(start));
      var d := cal.day(start);
      Spread(cal, h[d := AddTime(Bucket(h, d), focus, cut - start)], focus, cut, end)
  }

  /** Deleting the oldest days until `n` are left. */
  function KeepLatest(h: History, n: nat): History
    decreases |h|
  {
    if |h| <= n then h
    else
      assert h.Keys != {};
      LeastExists(h.Keys);
      var d :| IsLeast(h.Keys, d);
      KeysMinus(h, d);
      KeepLatest(h - {d}, n)
  }

  lemma KeysMinus(h: History, d: int)
    requires d in h
    ensures |h - {d}| == |h| - 1
  {
    assert (h - {d}).Keys == h.Keys - {d};
    assert |(h - {d}).Keys| == |h.Keys| - 1;
  }

  function Prune(h: History): History {
    if |h| <= HISTORY_LIMIT then h else KeepLatest(h, HISTORY_KEPT)
  }

  /** The history with the running time up to `now` added and nothing pruned. */
  function Unpruned(c: Config, s: Timer, now: int): History
    requires ValidConfig(c)
  {
    if s.status == Running && s.deadline.Some? && s.accounted.Some? then
      var end := Min(now, s.deadline.value);
      Spread(c.cal, s.history, s.phase == Focus, Min(s.accounted.value, end), end)
    else s.history
  }

  /** `_account_elapsed` */
  function Account(c: Config, s: Timer, now: int): Timer
    requires ValidConfig(c)
  {
    if s.status != Running || s.deadline.None? then s
    else
      var end := Min(now, s.deadline.value);
      if s.accounted.None? then s.(accounted := Some(end))
      else s.(history := Prune(Unpruned(c, s, now)), accounted := Some(end))
  }

  function RecordCompleted(cal: Calendar, h: History, at: int): History {
    var d := cal.day(at);
    h[d := Bucket(h, d).(completed := Bucket(h, d).completed + 1)]
  }

  // ----- operations

  /** `_advance(completed=True, completed_at=at)`, or `_advance(completed=False)` for None. */
  function Advance(c: Config, s: Timer, at: Option<int>): Timer
    requires c.every >= 1
  {
    var completed := if s.phase == Focus && at.Some? then s.completed + 1 else s.completed;
    var history := if s.phase == Focus && at.Some? then RecordCompleted(c.cal, s.history, at.value) else s.history;
    var phase :=
      if s.phase != Focus then Focus
      else if at.Some? && completed > 0 && completed % c.every == 0 then LongBreak
      else ShortBreak;
    Timer(phase, Ready, 1000 * PhaseSeconds(c, phase), None, None, completed, s.serial + 1, history, None)
  }

  /** `update`: the new state, and whether the deadline was reached. */
  function Update(c: Config, s: Timer, now: int): Timer
    requires ValidConfig(c)
  {
    var a := Account(c, s, now);
    if Due(a, now) then Advance(c, a.(remaining := 0), a.deadline) else a
  }

  predicate Due(s: Timer, now: int) {
    s.status == Running && s.deadline.Some? && now >= s.deadline.value
  }

  datatype Op =
    | Start | Pause | ResetPhase | ResetCycle | Skip
    | SetFocusDuration(seconds: int) | SetPhaseDuration(seconds: int)
    | Tick | Statistics

  function Prepared(c: Config, s: Timer, phase: Phase, seconds: int): Timer {
    var duration := Clamp(1, seconds, MAX_OVERRIDE);
    s.(phase := phase, status := Ready, deadline := None, override := Some(duration),
       remaining := 1000 * duration, accounted := None, serial := s.serial + 1)
  }

  /** What each operation does before it saves; `Tick` is `update` and `Statistics` only accounts. */
  function Step(c: Config, s: Timer, op: Op, now: int): Timer
    requires ValidConfig(c)
  {
    match op
    case Start =>
      var u := Update(c, s, now);
      var left := RemainingAt(u, now);
      var remaining := if left <= 0 then Duration(c, u) else left;
      u.(remaining := remaining, deadline := Some(now + remaining), status := Running, accounted := Some(now))
    case Pause =>
      var a := Account(c, s, now);
      a.(remaining := RemainingAt(a, now), deadline := None, status := Paused, accounted := None)
    case ResetPhase =>
      var a := Account(c, s, now);
      a.(status := Ready, deadline := None, accounted := None, remaining := Duration(c, a))
    case ResetCycle =>
      var a := Account(c, s, now);
      a.(phase := Focus, status := Ready, deadline := None, accounted := None, override := None,
         remaining := 1000 * c.focus, completed := 0, serial := a.serial + 1)
    case Skip => Advance(c, Account(c, s, now), None)
    case SetFocusDuration(seconds) => Prepared(c, Account(c, s, now), Focus, seconds)
    case SetPhaseDuration(seconds) => Prepared(c, Account(c, s, now), s.phase, seconds)
    case Tick => Update(c, s, now)
    case Statistics => Account(c, s, now)
  }

  /**
   A command as a whole: `start` reads the clock a second time when its update has reached the
   deadline, and so is that update followed by a start at the later reading.
   */
  function Performed(c: Config, s: Timer, op: Op, now: int, again: int): Timer
    requires ValidConfig(c)
  {
    if op == Start && Due(Account(c, s, now), now) then Step(c, Step(c, s, Tick, now), Start, again) else Step(c, s, op, now)
  }

  // ----- the saved file

  /** The JSON document; a field that is unreadable or unknown is None. */
  datatype Payload = Payload(
    phase: Option<Phase>,
    status: Option<Status>,
    remaining: Option<int>,
    deadline: Option<int>,
    override: Option<int>,
    completed: int,
    serial: int,
    history: History,
    accounted: Option<int>,
    updatedAt: Option<int>)

  function Document(s: Timer, now: int): Payload {
    Payload(Some(s.phase), Some(s.status), Some(RemainingAt(s, now)), s.deadline, s.override,
            s.completed, s.serial, s.history, s.accounted, Some(now))
  }

  function Fresh(c: Config): Timer {
    Timer(Focus, Ready, 1000 * c.focus, None, None, 0, 0, map[], None)
  }

  function NonNegative(d: Day): Day {
    Day(Max(0, d.focus), Max(0, d.rest), Max(0, d.completed))
  }

  /** `load` up to its final `update`: None is a missing or unreadable file. */
  function Restore(c: Config, file: Option<Payload>, now: int): Timer {
    if file.None? || file.value.phase.None? || file.value.status.None? then Fresh(c)
    else
      var p := file.value;
      var override := if p.override.Some? then Some(Clamp(1, p.override.value, MAX_OVERRIDE)) else None;
      var history := map d | d in p.history :: NonNegative(p.history[d]);
      var s := Timer(p.phase.value, p.status.value, 0, p.deadline, override,
                     Max(0, p.completed), Max(0, p.serial), history, p.accounted);
      var duration := Duration(c, s);
      var remaining := Max(0, Min(if p.remaining.Some? then p.remaining.value else duration, duration));
      var status := if s.status == Running && s.deadline.None? then Paused else s.status;
      var accounted :=
        if status == Running && s.accounted.None? then Some(if p.updatedAt.Some? then p.updatedAt.value else now)
        else s.accounted;
      s.(remaining := remaining, status := status, accounted := accounted)
  }

  function Load(c: Config, file: Option<Payload>, now: int): Timer
    requires ValidConfig(c)
  {
    if file.None? || file.value.phase.None? || file.value.status.None? then Fresh(c)
    else Update(c, Restore(c, file, now), now)
  }

  /** The deadline passed while the service was down: `load` then saves what it has loaded. */
  predicate LoadReaches(c: Config, file: Option<Payload>, now: int)
    requires ValidConfig(c)
  {
    file.Some? && file.value.phase.Some? && file.value.status.Some? && Due(Account(c, Restore(c, file, now), now), now)
  }
}
