/** A run in which a restart of the timer service is noticed: a focus phase set to 200 days, restarted on day 195. */
module PomodoroExample {
  import opened Common
  import opened Calendars
  import opened Pomodoro
  import opened PomodoroAccounting
  import opened PomodoroRestart

  const DAY_LENGTH := 86_400_000
  const PLAIN := Calendar(t => t / DAY_LENGTH, t => (t / DAY_LENGTH + 1) * DAY_LENGTH)
  const SETTINGS := Config(200 * 86_400, 300, 900, 4, PLAIN)

  lemma PlainLawful()
    ensures Lawful(PLAIN)
  {
    assert forall t :: PLAIN.day(t) == t / DAY_LENGTH && PLAIN.midnight(t) == (t / DAY_LENGTH + 1) * DAY_LENGTH;
  }

  lemma EveryDayMet(d: int, n: int)
    requires 0 <= d < n
    ensures Overlap(PLAIN, d, 0, n * DAY_LENGTH) > 0
  {
    hide Overlap;
    PlainLawful();
    var a, b := d * DAY_LENGTH, (d + 1) * DAY_LENGTH;
    OverlapSplit(PLAIN, d, 0, a, n * DAY_LENGTH);
    OverlapSplit(PLAIN, d, a, b, n * DAY_LENGTH);
    OverlapInOneDay(PLAIN, d, a, b);
  }

  function FirstDays(n: nat): (days: set<int>)
    ensures |days| == n && forall d :: d in days <==> 0 <= d < n
  {
    if n == 0 then {} else FirstDays(n - 1) + {n - 1}
  }

  lemma DaysMet(n: nat)
    requires n <= 200
    ensures ValidConfig(SETTINGS) && |Unpruned(SETTINGS, Step(SETTINGS, Fresh(SETTINGS), Start, 0), n * DAY_LENGTH)| >= n
  {
    PlainLawful();
    var s := Step(SETTINGS, Fresh(SETTINGS), Start, 0);
    var all := Unpruned(SETTINGS, s, n * DAY_LENGTH);
    assert all == Spread(PLAIN, map[], true, 0, n * DAY_LENGTH);
    hide Spread, Unpruned, Lawful, Step;
    forall d: int | 0 <= d < n ensures d in all.Keys {
      EveryDayMet(d, n);
      SpreadDay(PLAIN, map[], true, 0, n * DAY_LENGTH, d);
    }
    assert forall d | d in FirstDays(n) :: d in all.Keys;
    Fits(FirstDays(n), all.Keys);
  }

  /** The condition of `RestartUnnoticedIff` fails for a state that one press of the start button reaches and saves. */
  lemma RestartCanBeNoticed()
    ensures ValidConfig(SETTINGS)
    ensures var s := Step(SETTINGS, Fresh(SETTINGS), Start, 0);
            && Inv(SETTINGS, s, 0)
            && !NeverNoticed(SETTINGS, s, 0, 195 * DAY_LENGTH) && NeverNoticed(SETTINGS, s, 0, 0)
  {
    PlainLawful();
    var s := Step(SETTINGS, Fresh(SETTINGS), Start, 0);
    assert Inv(SETTINGS, Fresh(SETTINGS), 0);
    StepKeepsInv(SETTINGS, Fresh(SETTINGS), 0, Start, 0);
    DaysMet(195);
    assert |Unpruned(SETTINGS, s, 0)| == 0;
    hide Step, Unpruned, Inv, NeverNoticed, Lawful;
    RestartUnnoticedIff(SETTINGS, s, 0, 195 * DAY_LENGTH);
    RestartUnnoticedIff(SETTINGS, s, 0, 0);
  }
}
