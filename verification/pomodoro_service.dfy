/**
 The timer service over whole runs, restarts included: commands save the timer, updates and
 statistics do not, and a restart throws the live timer away and loads the file.
 */
module PomodoroService {
  import opened Common
  import opened Calendars
  import opened Pomodoro
  import opened PomodoroAccounting
  import opened PomodoroRestart
  import opened PomodoroTotals

  /** The live timer, and the one last saved and when; nothing is on disk before the first save. */
  datatype Service = Service(live: Timer, saved: Timer, savedAt: int, written: bool)

  /** A start that finds its deadline reached is a quiet update followed by a command. */
  datatype Event =
    | Quiet(statistics: bool, at: int)
    | Command(op: Op, at: int, savedAt: int)
    | Save(at: int)
    | Restart(at: int)

  function QuietOp(e: Event): Op
    requires e.Quiet?
  {
    if e.statistics then Statistics else Tick
  }

  function File(s: Service): Option<Payload> {
    if s.written then Some(Document(s.saved, s.savedAt)) else None
  }

  /** What loading starts from, before it brings the timer up to date. */
  function Reopened(c: Config, s: Service, now: int): Timer {
    if s.written then Restore(c, File(s), now) else Fresh(c)
  }

  function SaveNow(c: Config, s: Timer, now: int): Service
    requires ValidConfig(c)
  {
    Service(Account(c, s, now), Account(c, s, now), now, true)
  }

  function Next(c: Config, s: Service, e: Event): Service
    requires ValidConfig(c)
  {
    match e
    case Quiet(_, at) => s.(live := Step(c, s.live, QuietOp(e), at))
    case Command(op, at, savedAt) => SaveNow(c, Step(c, s.live, op, at), savedAt)
    case Save(at) => SaveNow(c, s.live, at)
    case Restart(at) =>
      var t := Load(c, File(s), at);
      if LoadReaches(c, File(s), at) then SaveNow(c, t, at) else s.(live := t)
  }

  function End(e: Event): int {
    if e.Command? then e.savedAt else e.at
  }

  predicate OnTime(last: int, e: Event) {
    last <= e.at <= End(e)
  }

  predicate InTime(last: int, events: seq<Event>)
    decreases |events|
  {
    events == [] || (OnTime(last, events[0]) && InTime(End(events[0]), events[1..]))
  }

  function Serve(c: Config, s: Service, events: seq<Event>): Service
    requires ValidConfig(c)
    decreases |events|
  {
    if events == [] then s else Serve(c, Next(c, s, events[0]), events[1..])
  }

  function Born(c: Config, birth: int): Service {
    Service(Fresh(c), Fresh(c), birth, false)
  }

  // ----- what is measured: the time of one day, or of all

  function Measure(h: History, focus: bool, d: Option<int>): int {
    if d.Some? then Time(Bucket(h, d.value), focus) else Total(h, focus)
  }

  /** Wall time that the timer ran between two instants, on that day or at all. */
  function Ran(c: Config, s: Timer, last: int, now: int, focus: bool, d: Option<int>): int {
    if d.Some? then WorkedOn(c, s, last, now, focus, d.value) else Worked(s, last, now, focus)
  }

  lemma StepConserves(c: Config, s: Timer, last: int, op: Op, now: int, focus: bool, d: Option<int>)
    requires Inv(c, s, last) && last <= now
    ensures Measure(Step(c, s, op, now).history, focus, d) + Measure(Pruned(c, s, now), focus, d)
         == Measure(s.history, focus, d) + Ran(c, s, last, now, focus, d)
    ensures Inv(c, Step(c, s, op, now), now)
  {
    hide Step, Pruned, Total, WorkedOn, Worked;
    StepKeepsInv(c, s, last, op, now);
    if d.Some? {
      StepConservesDay(c, s, last, op, now, focus, d.value);
    } else {
      StepConservesTotal(c, s, last, op, now, focus);
    }
  }

  lemma AccountIsStep(c: Config, s: Timer, now: int)
    requires ValidConfig(c)
    ensures Step(c, s, Statistics, now) == Account(c, s, now) && Step(c, s, Tick, now) == Update(c, s, now)
  {}

  /** The pruned time that the live history and the saved one lack. */
  datatype Books = Books(live: int, saved: int)

  function Settle(x: int): Books {
    Books(x, x)
  }

  function NextBooks(c: Config, s: Service, b: Books, e: Event, focus: bool, d: Option<int>): Books
    requires ValidConfig(c)
  {
    match e
    case Quiet(_, at) => b.(live := b.live + Measure(Pruned(c, s.live, at), focus, d))
    case Command(op, at, savedAt) =>
      Settle(b.live + Measure(Pruned(c, s.live, at), focus, d) + Measure(Pruned(c, Step(c, s.live, op, at), savedAt), focus, d))
    case Save(at) => Settle(b.live + Measure(Pruned(c, s.live, at), focus, d))
    case Restart(at) =>
      var r := Reopened(c, s, at);
      var x := b.saved + Measure(Pruned(c, r, at), focus, d);
      if LoadReaches(c, File(s), at) then Settle(x) else Books(x, b.saved)
  }

  /** Wall time that the live timer ran during one event, and since the event before it. */
  function EventRan(c: Config, s: Service, last: int, e: Event, focus: bool, d: Option<int>): int
    requires ValidConfig(c)
  {
    Ran(c, s.live, last, e.at, focus, d)
    + if e.Command? then Ran(c, Step(c, s.live, e.op, e.at), e.at, e.savedAt, focus, d) else 0
  }

  function ServedBooks(c: Config, s: Service, b: Books, events: seq<Event>, focus: bool, d: Option<int>): Books
    requires ValidConfig(c)
    decreases |events|
  {
    if events == [] then b else ServedBooks(c, Next(c, s, events[0]), NextBooks(c, s, b, events[0], focus, d), events[1..], focus, d)
  }

  function ServedRan(c: Config, s: Service, last: int, events: seq<Event>, focus: bool, d: Option<int>): int
    requires ValidConfig(c)
    decreases |events|
  {
    if events == [] then 0
    else EventRan(c, s, last, events[0], focus, d) + ServedRan(c, Next(c, s, events[0]), End(events[0]), events[1..], focus, d)
  }

  // ----- the saved timer, brought up to date, runs as the live one does

  predicate StillRuns(s: Timer, last: int) {
    s.status == Running && s.deadline.Some? && s.deadline.value > last
  }

  predicate SameFuture(a: Timer, b: Timer, last: int) {
    && (StillRuns(a, last) <==> StillRuns(b, last))
    && (StillRuns(a, last) ==> a.deadline == b.deadline && a.phase == b.phase)
  }

  lemma FutureRan(c: Config, a: Timer, b: Timer, last: int, now: int, focus: bool, d: Option<int>)
    requires SameFuture(a, b, last) && last <= now
    ensures Ran(c, a, last, now, focus, d) == Ran(c, b, last, now, focus, d)
  {}

  lemma RanSplit(c: Config, s: Timer, a: int, b: int, now: int, focus: bool, d: Option<int>)
    requires a <= b <= now
    ensures Ran(c, s, a, b, focus, d) + Ran(c, s, b, now, focus, d) == Ran(c, s, a, now, focus, d)
  {
    if Counts(s, focus) && d.Some? {
      hide Overlap;
      OverlapSplit(c.cal, d.value, Min(a, s.deadline.value), Min(b, s.deadline.value), Min(now, s.deadline.value));
    }
  }

  lemma QuietKeepsFuture(c: Config, s: Timer, other: Timer, last: int, statistics: bool, now: int)
    requires ValidConfig(c) && SameFuture(s, other, last) && last <= now
    ensures SameFuture(Step(c, s, QuietOp(Quiet(statistics, now)), now), other, now)
  {
    hide Prune, Unpruned;
  }

  // ----- the service's invariant

  ghost predicate ServiceInv(c: Config, s: Service, last: int) {
    && Inv(c, s.live, last) && Inv(c, s.saved, s.savedAt) && s.savedAt <= last
    && SameFuture(s.live, s.saved, last) && (!s.written ==> s.saved == Fresh(c))
  }

  /** What was saved comes back, but for the seconds left of a running phase. */
  lemma ReopenedSaved(c: Config, s: Service, last: int, now: int)
    requires ServiceInv(c, s, last)
    ensures var r := Reopened(c, s, now); Inv(c, r, s.savedAt) && r == s.saved.(remaining := r.remaining)
    ensures Load(c, File(s), now) == Update(c, Reopened(c, s, now), now)
    ensures LoadReaches(c, File(s), now) <==> Due(Account(c, Reopened(c, s, now), now), now)
  {
    if s.written {
      RestoreSaved(c, s.saved, s.savedAt, now);
      var r := Reopened(c, s, now);
      hide Update;
      assert Duration(c, r) == Duration(c, s.saved);
    }
  }

  lemma SaveKeepsInv(c: Config, s: Timer, last: int, now: int)
    requires Inv(c, s, last) && last <= now
    ensures ServiceInv(c, SaveNow(c, s, now), now)
  {
    hide Account;
    AccountKeepsInv(c, s, last, now);
  }

  lemma EventKeepsInv(c: Config, s: Service, last: int, e: Event)
    requires ServiceInv(c, s, last) && OnTime(last, e)
    ensures ServiceInv(c, Next(c, s, e), End(e))
  {
    hide Step, Account, Update, SameFuture, Reopened, Load, Inv;
    InvConfig(c, s.live, last);
    match e
    case Quiet(statistics, at) =>
      StepKeepsInv(c, s.live, last, QuietOp(e), at);
      QuietKeepsFuture(c, s.live, s.saved, last, statistics, at);
    case Command(op, at, savedAt) =>
      StepKeepsInv(c, s.live, last, op, at);
      SaveKeepsInv(c, Step(c, s.live, op, at), at, savedAt);
    case Save(at) =>
      SaveKeepsInv(c, s.live, last, at);
    case Restart(at) =>
      RestartKeepsInv(c, s, last, at);
  }

  lemma RestartKeepsInv(c: Config, s: Service, last: int, at: int)
    requires ServiceInv(c, s, last) && last <= at
    ensures ServiceInv(c, Next(c, s, Restart(at)), at)
  {
    hide Step, Account, Update, Reopened, Load, Inv;
    var r := Reopened(c, s, at);
    InvConfig(c, s.live, last);
    ReopenedSaved(c, s, last, at);
    UpdateKeepsInv(c, r, s.savedAt, at);
    AccountIsStep(c, r, at);
    assert SameFuture(r, s.saved, s.savedAt);
    QuietKeepsFuture(c, r, s.saved, s.savedAt, false, at);
    SaveKeepsInv(c, Update(c, r, at), at, at);
  }

  // ----- conservation through restarts

  /** Live and saved history both account for everything that ran, up to now and up to the save. */
  ghost predicate Balanced(c: Config, s: Service, last: int, b: Books, ran: int, focus: bool, d: Option<int>) {
    && Measure(s.live.history, focus, d) + b.live == ran
    && Measure(s.saved.history, focus, d) + b.saved + Ran(c, s.saved, s.savedAt, last, focus, d) == ran
  }

  lemma SaveBalances(c: Config, s: Timer, last: int, now: int, lacking: int, ran: int, focus: bool, d: Option<int>)
    requires Inv(c, s, last) && last <= now && Measure(s.history, focus, d) + lacking == ran
    ensures Balanced(c, SaveNow(c, s, now), now, Settle(lacking + Measure(Pruned(c, s, now), focus, d)),
                     ran + Ran(c, s, last, now, focus, d), focus, d)
  {
    hide Step, Account, Pruned, Measure, Ran;
    InvConfig(c, s, last);
    AccountIsStep(c, s, now);
    StepConserves(c, s, last, Statistics, now, focus, d);
    NothingRan(c, Account(c, s, now), now, focus, d);
  }

  lemma NothingRan(c: Config, s: Timer, now: int, focus: bool, d: Option<int>)
    ensures Ran(c, s, now, now, focus, d) == 0
  {}

  lemma SettledAgain(c: Config, s: Timer, now: int)
    requires Inv(c, s, now) && s.status != Running
    ensures Account(c, s, now) == s
  {}

  lemma RestartBalances(c: Config, s: Service, last: int, at: int, b: Books, ran: int, focus: bool, d: Option<int>)
    requires ServiceInv(c, s, last) && last <= at && Balanced(c, s, last, b, ran, focus, d)
    ensures Balanced(c, Next(c, s, Restart(at)), at, NextBooks(c, s, b, Restart(at), focus, d),
                     ran + Ran(c, s.live, last, at, focus, d), focus, d)
  {
    hide Step, Account, Update, Reopened, Load, Inv, Pruned, Measure, Ran;
    var r := Reopened(c, s, at);
    InvConfig(c, s.live, last);
    ReopenedSaved(c, s, last, at);
    AccountIsStep(c, r, at);
    StepConserves(c, r, s.savedAt, Tick, at, focus, d);
    SameRan(c, r, s.saved, s.savedAt, at, focus, d);
    FutureRan(c, s.live, s.saved, last, at, focus, d);
    RanSplit(c, s.saved, s.savedAt, last, at, focus, d);
    var t := Update(c, r, at);
    if Due(Account(c, r, at), at) {
      DueIsReady(c, r, at);
      SettledAgain(c, t, at);
      NothingRan(c, t, at, focus, d);
    }
  }

  lemma DueIsReady(c: Config, s: Timer, now: int)
    requires ValidConfig(c) && Due(Account(c, s, now), now)
    ensures Update(c, s, now).status == Ready
  {
    hide Account;
  }

  lemma SameRan(c: Config, a: Timer, b: Timer, last: int, now: int, focus: bool, d: Option<int>)
    requires a == b.(remaining := a.remaining)
    ensures Ran(c, a, last, now, focus, d) == Ran(c, b, last, now, focus, d)
  {}

  lemma EventBalances(c: Config, s: Service, last: int, e: Event, b: Books, ran: int, focus: bool, d: Option<int>)
    requires ServiceInv(c, s, last) && OnTime(last, e) && Balanced(c, s, last, b, ran, focus, d)
    ensures Balanced(c, Next(c, s, e), End(e), NextBooks(c, s, b, e, focus, d),
                     ran + EventRan(c, s, last, e, focus, d), focus, d)
  {
    hide Step, Account, Reopened, Load, Inv, Pruned, Measure, Ran;
    InvConfig(c, s.live, last);
    match e
    case Quiet(_, at) =>
      StepConserves(c, s.live, last, QuietOp(e), at, focus, d);
      FutureRan(c, s.live, s.saved, last, at, focus, d);
      RanSplit(c, s.saved, s.savedAt, last, at, focus, d);
    case Command(op, at, savedAt) =>
      StepConserves(c, s.live, last, op, at, focus, d);
      SaveBalances(c, Step(c, s.live, op, at), at, savedAt, b.live + Measure(Pruned(c, s.live, at), focus, d),
                   ran + Ran(c, s.live, last, at, focus, d), focus, d);
    case Save(at) =>
      SaveBalances(c, s.live, last, at, b.live, ran, focus, d);
    case Restart(at) =>
      RestartBalances(c, s, last, at, b, ran, focus, d);
  }

  lemma ServeEmpty(c: Config, s: Service, last: int, b: Books, focus: bool, d: Option<int>)
    requires ValidConfig(c)
    ensures Serve(c, s, []) == s && ServedBooks(c, s, b, [], focus, d) == b && ServedRan(c, s, last, [], focus, d) == 0
  {}

  lemma ServeFirst(c: Config, s: Service, last: int, events: seq<Event>, b: Books, focus: bool, d: Option<int>)
    requires ValidConfig(c) && events != []
    ensures var e, t := events[0], Next(c, s, events[0]);
            && Serve(c, s, events) == Serve(c, t, events[1..])
            && ServedBooks(c, s, b, events, focus, d) == ServedBooks(c, t, NextBooks(c, s, b, e, focus, d), events[1..], focus, d)
            && ServedRan(c, s, last, events, focus, d)
               == EventRan(c, s, last, e, focus, d) + ServedRan(c, t, End(e), events[1..], focus, d)
  {
    hide Next, NextBooks, EventRan;
  }

  lemma {:induction false} ServeBalances(c: Config, s: Service, last: int, events: seq<Event>, b: Books, ran: int,
                                         focus: bool, d: Option<int>)
    requires ValidConfig(c) && ServiceInv(c, s, last) && InTime(last, events) && Balanced(c, s, last, b, ran, focus, d)
    ensures Measure(Serve(c, s, events).live.history, focus, d) + ServedBooks(c, s, b, events, focus, d).live
         == ran + ServedRan(c, s, last, events, focus, d)
    decreases |events|
  {
    hide Measure, Next, NextBooks, EventRan, ServiceInv, ValidConfig, Serve, ServedBooks, ServedRan, Ran;
    if events == [] {
      ServeEmpty(c, s, last, b, focus, d);
    } else {
      EventKeepsInv(c, s, last, events[0]);
      EventBalances(c, s, last, events[0], b, ran, focus, d);
      ServeFirst(c, s, last, events, b, focus, d);
      hide Balanced;
      ServeBalances(c, Next(c, s, events[0]), End(events[0]), events[1..], NextBooks(c, s, b, events[0], focus, d),
                    ran + EventRan(c, s, last, events[0], focus, d), focus, d);
    }
  }

  /**
   In every run of the service, with any commands, unsaved updates, saves and restarts: the time
   kept plus the time pruned is the wall time spent running in those phases, each stretch capped
   at its deadline; for every day (`Some`), and for all days together (`None`).
   */
  lemma ServiceConserves(c: Config, birth: int, events: seq<Event>, focus: bool, d: Option<int>)
    requires ValidConfig(c) && InTime(birth, events)
    ensures Measure(Serve(c, Born(c, birth), events).live.history, focus, d)
            + ServedBooks(c, Born(c, birth), Books(0, 0), events, focus, d).live
         == ServedRan(c, Born(c, birth), birth, events, focus, d)
  {
    BornInv(c, birth);
    BornBalanced(c, birth, focus, d);
    hide ServiceInv, Balanced, Born, Measure;
    ServeBalances(c, Born(c, birth), birth, events, Books(0, 0), 0, focus, d);
  }

  lemma BornInv(c: Config, birth: int)
    requires ValidConfig(c)
    ensures ServiceInv(c, Born(c, birth), birth)
  {}

  lemma BornBalanced(c: Config, birth: int, focus: bool, d: Option<int>)
    ensures Balanced(c, Born(c, birth), birth, Books(0, 0), 0, focus, d)
  {}

  // ----- days and long breaks through restarts

  ghost predicate NothingOverfull(c: Config, s: Service, birth: int, last: int) {
    birth <= s.savedAt && NoDayOverfull(c, s.live.history, birth, last) && NoDayOverfull(c, s.saved.history, birth, s.savedAt)
  }

  lemma EventKeepsDays(c: Config, s: Service, birth: int, last: int, e: Event)
    requires ServiceInv(c, s, last) && OnTime(last, e) && NothingOverfull(c, s, birth, last)
    ensures NothingOverfull(c, Next(c, s, e), birth, End(e))
  {
    hide Step, Account, Update, Reopened, Load, Inv, NoDayOverfull, SameFuture;
    InvConfig(c, s.live, last);
    match e
    case Quiet(_, at) =>
      StepKeepsDays(c, s.live, birth, last, QuietOp(e), at);
    case Command(op, at, savedAt) =>
      StepKeepsDays(c, s.live, birth, last, op, at);
      StepKeepsInv(c, s.live, last, op, at);
      SaveKeepsDays(c, Step(c, s.live, op, at), birth, at, savedAt);
    case Save(at) =>
      SaveKeepsDays(c, s.live, birth, last, at);
    case Restart(at) =>
      var r := Reopened(c, s, at);
      ReopenedSaved(c, s, last, at);
      AccountIsStep(c, r, at);
      StepKeepsDays(c, r, birth, s.savedAt, Tick, at);
      UpdateKeepsInv(c, r, s.savedAt, at);
      SaveKeepsDays(c, Update(c, r, at), birth, at, at);
  }

  lemma SaveKeepsDays(c: Config, s: Timer, birth: int, last: int, now: int)
    requires Inv(c, s, last) && birth <= last <= now && NoDayOverfull(c, s.history, birth, last)
    ensures NothingOverfull(c, SaveNow(c, s, now), birth, now)
  {
    hide Step, Account, Inv, NoDayOverfull;
    InvConfig(c, s, last);
    AccountIsStep(c, s, now);
    StepKeepsDays(c, s, birth, last, Statistics, now);
  }

  lemma {:induction false} ServeKeepsDays(c: Config, s: Service, birth: int, last: int, events: seq<Event>) returns (end: int)
    requires ServiceInv(c, s, last) && InTime(last, events) && NothingOverfull(c, s, birth, last)
    ensures ValidConfig(c) && ServiceInv(c, Serve(c, s, events), end) && NothingOverfull(c, Serve(c, s, events), birth, end)
    decreases |events|
  {
    InvConfig(c, s.live, last);
    end := last;
    hide Inv, Next, SameFuture, NothingOverfull;
    if events != [] {
      EventKeepsInv(c, s, last, events[0]);
      EventKeepsDays(c, s, birth, last, events[0]);
      hide ServiceInv;
      end := ServeKeepsDays(c, Next(c, s, events[0]), birth, End(events[0]), events[1..]);
    }
  }

  /** However often the service is restarted, no day shows more time than it has, and every long break has been earned. */
  lemma ServiceSound(c: Config, birth: int, events: seq<Event>, d: int, low: int, high: int)
    requires ValidConfig(c) && InTime(birth, events)
    requires low <= high && forall u :: c.cal.day(u) == d ==> low <= u < high
    ensures var s := Serve(c, Born(c, birth), events).live;
            && 0 <= Bucket(s.history, d).focus && 0 <= Bucket(s.history, d).rest
            && Bucket(s.history, d).focus + Bucket(s.history, d).rest <= high - low
            && (s.phase == LongBreak ==> s.completed > 0 && s.completed % c.every == 0)
  {
    BornInv(c, birth);
    var end := ServeKeepsDays(c, Born(c, birth), birth, birth, events);
    var s := Serve(c, Born(c, birth), events).live;
    hide Serve;
    OverlapWithinDay(c.cal, d, low, high, birth, end);
    hide Overlap, Lawful;
    assert d in s.history ==> s.history[d] == NonNegative(s.history[d]);
  }
}
