/** The timer object: its fields, updated in place, follow the state machine of `Pomodoro`. */
module PomodoroTimers {
  import opened Common
  import opened Calendars
  import opened Pomodoro

  class PomodoroTimer {
    const config: Config
    var phase: Phase
    var status: Status
    var remaining: int
    var deadline: Option<int>
    var override: Option<int>
    var completed: int
    var serial: int
    var history: History
    var accounted: Option<int>
    /** The saved document; None until the first save. */
    var file: Option<Payload>

    function State(): Timer
      reads this
    {
      Timer(phase, status, remaining, deadline, override, completed, serial, history, accounted)
    }

    /** The constructor clamps the settings, then loads the saved file; `now` is the clock's reading. */
    constructor (focus: int, short: int, long: int, every: int, cal: Calendar, saved: Option<Payload>, now: int)
      requires Lawful(cal)
      ensures config == Config(Max(1, focus), Max(1, short), Max(1, long), Max(1, every), cal)
      ensures ValidConfig(config) && State() == Load(config, saved, now)
      ensures file == if LoadReaches(config, saved, now) then Some(Document(State(), now)) else saved
    {
      config := Config(Max(1, focus), Max(1, short), Max(1, long), Max(1, every), cal);
      phase, status, remaining, deadline, override := Focus, Ready, 1000 * Max(1, focus), None, None;
      completed, serial, history, accounted, file := 0, 0, map[], None, saved;
      new;
      LoadFile(now);
    }

    method LoadFile(now: int)
      requires ValidConfig(config) && State() == Fresh(config)
      modifies this
      ensures State() == Load(config, old(file), now)
      ensures file == if LoadReaches(config, old(file), now) then Some(Document(State(), now)) else old(file)
    {
      hide Account, Update, Restore;
      if file.None? || file.value.phase.None? || file.value.status.None? {
        return;
      }
      RestoreFields(file.value, now);
      ghost var loaded := State();
      var reached := UpdateAt(now);
      if reached {
        ReachedIsSettled(config, loaded, now);
        Save(now);
      }
    }

    /** The body of `load` for a readable file, up to its final `update`. */
    method RestoreFields(payload: Payload, now: int)
      requires payload.phase.Some? && payload.status.Some?
      modifies this
      ensures State() == Restore(config, Some(payload), now) && file == old(file)
    {
      phase, status := payload.phase.value, payload.status.value;
      override := if payload.override.Some? then Some(Clamp(1, payload.override.value, MAX_OVERRIDE)) else None;
      completed, serial := Max(0, payload.completed), Max(0, payload.serial);
      history := map d | d in payload.history :: NonNegative(payload.history[d]);
      accounted := payload.accounted;
      var duration := Duration(config, State());
      remaining := Max(0, Min(if payload.remaining.Some? then payload.remaining.value else duration, duration));
      deadline := payload.deadline;
      if status == Running && deadline.None? {
        status := Paused;
      }
      if status == Running && accounted.None? {
        accounted := if payload.updatedAt.Some? then payload.updatedAt else Some(now);
      }
    }

    method AccountElapsed(now: int)
      requires ValidConfig(config)
      modifies this`history, this`accounted
      ensures State() == Account(config, old(State()), now)
    {
      if status != Running || deadline.None? {
        return;
      }
      var end := Min(now, deadline.value);
      if accounted.None? {
        accounted := Some(end);
        return;
      }
      var start := Min(accounted.value, end);
      CreditSegments(start, end);
      accounted := Some(end);
      PruneHistory();
    }

    /** The loop over midnights. */
    method CreditSegments(from: int, end: int)
      requires Lawful(config.cal) && from <= end
      modifies this`history
      ensures history == Spread(config.cal, old(history), phase == Focus, from, end)
    {
      var start := from;
      while end - start > 0
        invariant start <= end
        invariant Spread(config.cal, history, phase == Focus, start, end)
               == Spread(config.cal, old(history), phase == Focus, from, end)
        decreases end - start
      {
        var segmentEnd := Min(end, config.cal.midnight(start));
        var day := config.cal.day(start);
        history := history[day := AddTime(Bucket(history, day), phase == Focus, segmentEnd - start)];
        start := segmentEnd;
      }
    }

    method PruneHistory()
      modifies this`history
      ensures history == Prune(old(history))
    {
      if |history| <= HISTORY_LIMIT {
        return;
      }
      while |history| > HISTORY_KEPT
        invariant KeepLatest(history, HISTORY_KEPT) == KeepLatest(old(history), HISTORY_KEPT)
        decreases |history|
      {
        ghost var days := history.Keys;
        assert days != {};
        LeastExists(history.Keys);
        var day :| day in history && IsLeast(history.Keys, day);
        KeysMinus(history, day);
        history := history - {day};
      }
    }

    method Save(now: int)
      requires ValidConfig(config)
      modifies this`history, this`accounted, this`file
      ensures State() == Account(config, old(State()), now)
      ensures file == Some(Document(State(), now))
    {
      AccountElapsed(now);
      file := Some(Document(State(), now));
    }

    method AdvancePhase(at: Option<int>)
      requires ValidConfig(config)
      modifies this
      ensures State() == Advance(config, old(State()), at) && file == old(file)
    {
      var previous := phase;
      override := None;
      if previous == Focus {
        if at.Some? {
          completed := completed + 1;
          var day := config.cal.day(at.value);
          history := history[day := Bucket(history, day).(completed := Bucket(history, day).completed + 1)];
        }
        if at.Some? && completed > 0 && completed % config.every == 0 {
          phase := LongBreak;
        } else {
          phase := ShortBreak;
        }
      } else {
        phase := Focus;
      }
      status, deadline, accounted := Ready, None, None;
      remaining := Duration(config, State());
      serial := serial + 1;
    }

    method UpdateAt(now: int) returns (reached: bool)
      requires ValidConfig(config)
      modifies this
      ensures State() == Update(config, old(State()), now) && file == old(file)
      ensures reached == Due(Account(config, old(State()), now), now)
    {
      AccountElapsed(now);
      if status != Running || deadline.None? || now < deadline.value {
        return false;
      }
      var at := deadline;
      remaining := 0;
      AdvancePhase(at);
      return true;
    }

    /** `start` up to its `save`. */
    method Begin(now: int, again: int)
      requires ValidConfig(config)
      modifies this
      ensures State() == Performed(config, old(State()), Start, now, again)
    {
      hide Account;
      ghost var first := State();
      var current := now;
      var reached := UpdateAt(current);
      if reached {
        current := again;
      }
      UpdatedOnce(config, first, now, again);
      var left := RemainingAt(State(), current);
      if left <= 0 {
        left := Duration(config, State());
      }
      remaining, deadline, status, accounted := left, Some(current + left), Running, Some(current);
    }

    /**
     The button and voice commands; each ends by saving, at a later reading of the clock, and
     `again` is the reading of `start` after a deadline was reached.
     */
    method Perform(op: Op, now: int, again: int, savedAt: int)
      requires ValidConfig(config) && op != Tick && op != Statistics
      modifies this
      ensures State() == Account(config, Performed(config, old(State()), op, now, again), savedAt)
      ensures file == Some(Document(State(), savedAt))
    {
      match op {
        case Start =>
          Begin(now, again);
        case Pause =>
          AccountElapsed(now);
          remaining := RemainingAt(State(), now);
          deadline, status, accounted := None, Paused, None;
        case ResetPhase =>
          AccountElapsed(now);
          status, deadline, accounted := Ready, None, None;
          remaining := Duration(config, State());
        case ResetCycle =>
          AccountElapsed(now);
          phase, status, deadline, accounted, override := Focus, Ready, None, None, None;
          remaining, completed, serial := 1000 * config.focus, 0, serial + 1;
        case Skip =>
          AccountElapsed(now);
          AdvancePhase(None);
        case SetFocusDuration(seconds) =>
          var duration := Clamp(1, seconds, MAX_OVERRIDE);
          AccountElapsed(now);
          phase, status, deadline, override := Focus, Ready, None, Some(duration);
          remaining, accounted, serial := 1000 * duration, None, serial + 1;
        case SetPhaseDuration(seconds) =>
          var duration := Clamp(1, seconds, MAX_OVERRIDE);
          AccountElapsed(now);
          status, deadline, override := Ready, None, Some(duration);
          remaining, accounted, serial := 1000 * duration, None, serial + 1;
      }
      assert State() == Performed(config, old(State()), op, now, again);
      Save(savedAt);
    }
  }

  /** After the deadline was reached, another update has nothing to do. */
  lemma UpdatedOnce(c: Config, s: Timer, now: int, again: int)
    requires ValidConfig(c)
    ensures Due(Account(c, s, now), now) ==> Update(c, Update(c, s, now), again) == Update(c, s, now)
  {
    var a := Account(c, s, now);
    hide Prune, Unpruned;
    if Due(a, now) {
      assert Update(c, s, now) == Advance(c, a.(remaining := 0), a.deadline);
    }
  }

  /** After the deadline was reached, saving has nothing more to account for. */
  lemma ReachedIsSettled(c: Config, s: Timer, now: int)
    requires ValidConfig(c) && Due(Account(c, s, now), now)
    ensures Account(c, Update(c, s, now), now) == Update(c, s, now)
  {
    var a := Account(c, s, now);
    hide Prune, Unpruned;
    assert Update(c, s, now) == Advance(c, a.(remaining := 0), a.deadline);
  }
}
