/**
 The worker side of the task queue (apps/video-call/task_worker.py) and the API callers,
 interleaved one store operation at a time. The worker claims a task, runs it and writes
 the outcome; it can crash anywhere and is started again.
 */
module TaskProtocol {
  import opened Common
  import opened TaskQueue

  /** Where `process` stands: running the agent, past the cancel check, or about to write an outcome. */
  datatype Stage = Executing | Checked | Cancelling | Failing

  datatype Worker = Down | Idle | Holding(id: string, stage: Stage)

  /** `issued` holds every uuid handed out: uuid4 never repeats one. */
  datatype State = State(rows: Rows, worker: Worker, issued: set<string>)

  datatype Step =
    // API callers
    | Create(id: string, key: Option<string>, owner: string, now: int)
    | AnswerStep(id: string, answer: string, caller: Option<string>)
    | CancelStep(id: string, caller: Option<string>, now: int)
    | AssignStep(owner: string)
    | DeleteStep(owner: string)
    // the worker
    | Launch(now: int)
    | ClaimStep(id: string, now: int)
    | AgentReturns
    | AgentInterrupted
    | Raises
    | Wait(question: string)
    | Finish(result: string, now: int)
    | Abort(error: string, now: int)
    | Acknowledge(now: int)
    | Crash

  predicate Enabled(s: State, step: Step) {
    match step
    case Create(id, key, owner, now) =>
      id !in s.issued && (key.None? || forall k | k in s.rows :: !HasKey(s.rows, k, key.value))
    case AnswerStep(_, _, _) => true
    case CancelStep(_, _, _) => true
    case AssignStep(_) => true
    case DeleteStep(owner) => OwnerIdle(s.rows, owner)
    case Launch(_) => s.worker.Down?
    case ClaimStep(id, _) => s.worker.Idle? && OldestClaimable(s.rows, id)
    case AgentReturns => s.worker.Holding? && s.worker.stage == Executing
    case AgentInterrupted => s.worker.Holding? && (s.worker.stage == Executing || s.worker.stage == Checked)
    case Raises => s.worker.Holding? && s.worker.stage != Failing
    case Wait(_) => s.worker.Holding? && s.worker.stage == Checked
    case Finish(_, _) => s.worker.Holding? && s.worker.stage == Checked
    case Abort(_, _) => s.worker.Holding? && s.worker.stage == Failing
    case Acknowledge(_) => s.worker.Holding? && s.worker.stage == Cancelling
    case Crash => !s.worker.Down?
  }

  function Next(s: State, step: Step): State
    requires Enabled(s, step)
  {
    match step
    case Create(id, key, owner, now) => s.(rows := s.rows[id := NewRow(key, owner, now)], issued := s.issued + {id})
    case AnswerStep(id, answer, caller) => s.(rows := Answer(s.rows, id, answer, caller).0)
    case CancelStep(id, caller, now) => s.(rows := RequestCancel(s.rows, id, caller, now).0)
    case AssignStep(owner) => s.(rows := AssignOwner(s.rows, owner))
    case DeleteStep(owner) => s.(rows := DeleteOwner(s.rows, owner))
    case Launch(now) => s.(rows := Recover(s.rows, now), worker := Idle)
    case ClaimStep(id, now) => s.(rows := Claim(s.rows, id, now), worker := Holding(id, Executing))
    case AgentReturns =>
      var flagged := s.worker.id in s.rows && s.rows[s.worker.id].cancelRequested;
      s.(worker := s.worker.(stage := if flagged then Cancelling else Checked))
    case AgentInterrupted => s.(worker := s.worker.(stage := Cancelling))
    case Raises => s.(worker := s.worker.(stage := Failing))
    case Wait(question) => s.(rows := WaitForInput(s.rows, s.worker.id, question), worker := Idle)
    case Finish(result, now) => s.(rows := Complete(s.rows, s.worker.id, result, now), worker := Idle)
    case Abort(error, now) => s.(rows := Fail(s.rows, s.worker.id, error, now), worker := Idle)
    case Acknowledge(now) => s.(rows := MarkCancelled(s.rows, s.worker.id, now), worker := Idle)
    case Crash => s.(worker := Down)
  }

  predicate Possible(s: State, steps: seq<Step>)
    decreases |steps|
  {
    steps == [] || (Enabled(s, steps[0]) && Possible(Next(s, steps[0]), steps[1..]))
  }

  function Run(s: State, steps: seq<Step>): State
    requires Possible(s, steps)
    decreases |steps|
  {
    if steps == [] then s else Run(Next(s, steps[0]), steps[1..])
  }

  const EMPTY := State(map[], Down, {})

  // ----- ownership: the unguarded writes only ever hit the worker's own running row

  predicate IsRunning(rows: Rows, id: string) {
    id in rows && rows[id].status == TaskQueue.Running
  }

  ghost predicate Owned(s: State) {
    && (s.worker.Idle? ==> forall id :: !IsRunning(s.rows, id))
    && (s.worker.Holding? ==> forall id :: IsRunning(s.rows, id) <==> id == s.worker.id)
    && (forall i, j | IsRunning(s.rows, i) && IsRunning(s.rows, j) :: i == j)
    && s.rows.Keys <= s.issued
    && UniqueKeys(s.rows)
  }

  lemma StepKeepsOwned(s: State, step: Step)
    requires Owned(s) && Enabled(s, step)
    ensures Owned(Next(s, step))
  {
    var t := Next(s, step);
    RunningOnlyByClaim(s, step);
    StepKeepsKeys(s, step);
    match step
    case DeleteStep(owner) =>
      if s.worker.Holding? {
        assert IsRunning(s.rows, s.worker.id);
      }
    case Wait(_) => assert IsRunning(s.rows, s.worker.id);
    case _ =>
  }

  /** Only a claim makes a row running, and only the worker or recovery takes that away. */
  lemma RunningOnlyByClaim(s: State, step: Step)
    requires Owned(s) && Enabled(s, step)
    ensures forall id :: IsRunning(Next(s, step).rows, id) ==>
              (IsRunning(s.rows, id) && !step.Launch?) || (step.ClaimStep? && step.id == id)
    ensures !(step.Launch? || step.Wait? || step.Finish? || step.Abort? || step.Acknowledge?) ==>
              forall id :: IsRunning(s.rows, id) ==> IsRunning(Next(s, step).rows, id)
  {
    hide UniqueKeys;
  }

  lemma StepKeepsKeys(s: State, step: Step)
    requires Owned(s) && Enabled(s, step)
    ensures Next(s, step).rows.Keys <= Next(s, step).issued && UniqueKeys(Next(s, step).rows)
  {
    var rows, next := s.rows, Next(s, step).rows;
    if step.Create? {
      AddKeepsUnique(rows, step.id, NewRow(step.key, step.owner, step.now));
    } else {
      assert forall id, key :: HasKey(next, id, key) ==> HasKey(rows, id, key);
    }
  }

  // ----- what any step may do to a row

  /** Finished rows are final, and a row whose cancellation was requested is never claimed again. */
  ghost predicate Evolves(r: Row, r': Row) {
    && r'.key == r.key && r'.created == r.created
    && r.attempt <= r'.attempt
    && (Terminal(r.status) ==> r' == r.(owner := r'.owner))
    && (r.cancelRequested ==> r'.cancelRequested && r'.attempt == r.attempt)
    && (r.owner != "" ==> r'.owner == r.owner)
    && r.answers <= r'.answers
  }

  lemma EvolvesTransitive(a: Row, b: Row, c: Row)
    requires Evolves(a, b) && Evolves(b, c)
    ensures Evolves(a, c)
  {}

  lemma StepEvolves(s: State, step: Step, id: string)
    requires Owned(s) && Enabled(s, step) && id in s.rows
    ensures id in Next(s, step).rows ==> Evolves(s.rows[id], Next(s, step).rows[id])
    ensures id !in Next(s, step).rows ==> Terminal(s.rows[id].status)
  {
    hide UniqueKeys;
    if s.worker.Holding? {
      assert IsRunning(s.rows, s.worker.id);
    }
  }

  predicate EndsRow(step: Step) {
    step.Wait? || step.Finish? || step.Abort? || step.Acknowledge?
  }

  /**
   What the worker writes with no guard but the id touches the one row it holds, which is
   running: that row stops running, in a final state unless it waits, and nothing else changes.
   */
  lemma WorkerWritesOwnRow(s: State, step: Step)
    requires Owned(s) && Enabled(s, step) && EndsRow(step)
    ensures var rows, next, id := s.rows, Next(s, step).rows, s.worker.id;
            && IsRunning(rows, id) && next.Keys == rows.Keys
            && (forall other | other in rows && other != id :: next[other] == rows[other])
            && (forall other :: !IsRunning(next, other))
            && next[id].status == (if step.Wait? then WaitingInput else if step.Finish? then Completed
                                   else if step.Abort? then Failed else Cancelled)
            && (Terminal(next[id].status) <==> !step.Wait?) && (!step.Wait? ==> next[id].finished.Some?)
            && next[id].attempt == rows[id].attempt && next[id].cancelRequested == rows[id].cancelRequested
  {
    hide UniqueKeys;
    assert IsRunning(s.rows, s.worker.id);
    assert forall other :: IsRunning(Next(s, step).rows, other) ==> IsRunning(s.rows, other);
  }

  /** Recovery leaves no running row, loses none, and sends each interrupted one back or ends it by its flag. */
  lemma LaunchSettles(s: State, now: int)
    requires Enabled(s, Launch(now))
    ensures var rows, next := s.rows, Next(s, Launch(now)).rows;
            && next.Keys == rows.Keys && (forall id :: !IsRunning(next, id))
            && (forall id | id in rows && !IsRunning(rows, id) :: next[id] == rows[id])
            && (forall id | IsRunning(rows, id) ::
                  && next[id].attempt == rows[id].attempt
                  && (if rows[id].cancelRequested then next[id].status == Cancelled else Claimable(next, id)))
  {}

  /** Deleting an owner's rows never takes one that is queued, waiting or running, whoever asks and whenever. */
  lemma DeleteSparesActive(s: State, owner: string, id: string)
    requires Enabled(s, DeleteStep(owner)) && id in s.rows
    ensures id !in Next(s, DeleteStep(owner)).rows <==> s.rows[id].owner == owner
    ensures id !in Next(s, DeleteStep(owner)).rows ==> Terminal(s.rows[id].status)
  {}

  lemma StepNeverReissues(s: State, step: Step, id: string)
    requires Enabled(s, step) && id in s.issued && id !in s.rows
    ensures id in Next(s, step).issued && id !in Next(s, step).rows
  {}

  /**
   In every run with one worker, any interleaving of API calls, and crashes followed by
   recovery: ownership holds, finished tasks never change, a task whose cancellation was
   requested is never attempted again, and only finished tasks disappear.
   */
  lemma {:induction false} RunSafe(s: State, steps: seq<Step>, id: string)
    requires Owned(s) && Possible(s, steps)
    ensures Owned(Run(s, steps)) && s.issued <= Run(s, steps).issued
    ensures id in s.rows && id in Run(s, steps).rows ==> Evolves(s.rows[id], Run(s, steps).rows[id])
    ensures id in s.issued && id !in s.rows ==> id !in Run(s, steps).rows
    decreases |steps|
  {
    if steps != [] {
      var t := Next(s, steps[0]);
      StepKeepsOwned(s, steps[0]);
      NextIssued(s, steps[0]);
      if id in s.rows {
        StepEvolves(s, steps[0], id);
      } else if id in s.issued {
        StepNeverReissues(s, steps[0], id);
      }
      hide Next, Enabled, Evolves;
      RunSafe(t, steps[1..], id);
      var end := Run(t, steps[1..]);
      if id in s.rows && id in t.rows && id in end.rows {
        EvolvesTransitive(s.rows[id], t.rows[id], end.rows[id]);
      }
    } else if id in s.rows {
      assert Evolves(s.rows[id], s.rows[id]);
    }
  }

  lemma NextIssued(s: State, step: Step)
    requires Enabled(s, step)
    ensures s.issued <= Next(s, step).issued
  {}

  /** From an empty database, at most one task is running at any time, however the worker crashes. */
  lemma AtMostOneRunning(steps: seq<Step>, i: string, j: string)
    requires Possible(EMPTY, steps)
    requires IsRunning(Run(EMPTY, steps).rows, i) && IsRunning(Run(EMPTY, steps).rows, j)
    ensures i == j
  {
    RunSafe(EMPTY, steps, i);
  }

  // ----- a queued task that is never claimed

  /** A cancel between the worker's check and `wait_for_input`, followed by an answer, leaves such a row. */
  ghost predicate Stranded(rows: Rows, id: string) {
    id in rows && rows[id].status == Queued && rows[id].cancelRequested
  }

  lemma {:induction false} StrandedNeverClaimed(s: State, steps: seq<Step>, id: string)
    requires Owned(s) && Possible(s, steps) && Stranded(s.rows, id)
    ensures var rows := Run(s, steps).rows;
            id in rows ==> (Stranded(rows, id) || rows[id].status == Cancelled) && rows[id].attempt == s.rows[id].attempt
    decreases |steps|
  {
    if steps != [] {
      var t := Next(s, steps[0]);
      StepKeepsOwned(s, steps[0]);
      StrandedStep(s, steps[0], id);
      if Stranded(t.rows, id) {
        StrandedNeverClaimed(t, steps[1..], id);
      } else {
        RunSafe(t, steps[1..], id);
      }
    }
  }

  lemma StrandedStep(s: State, step: Step, id: string)
    requires Owned(s) && Enabled(s, step) && Stranded(s.rows, id)
    ensures var rows := Next(s, step).rows;
            id in rows && rows[id].attempt == s.rows[id].attempt && (Stranded(rows, id) || rows[id].status == Cancelled)
  {
    hide UniqueKeys;
    if s.worker.Holding? {
      assert IsRunning(s.rows, s.worker.id);
    }
  }

  // ----- what each call does to its row

  /** A created task is at once claimable, by no worker yet attempted. */
  lemma CreatedRow(s: State, step: Step)
    requires step.Create? && Enabled(s, step)
    ensures var rows, next := s.rows, Next(s, step).rows;
            && next.Keys == rows.Keys + {step.id} && (forall other | other in rows && other != step.id :: next[other] == rows[other])
            && Claimable(next, step.id) && next[step.id].attempt == 0 && next[step.id].created == step.now
            && next[step.id].owner == step.owner && next[step.id].key == step.key
            && next[step.id].started.None? && next[step.id].finished.None? && next[step.id].answers == []
  {}

  /** A claim takes an oldest claimable task, runs it, counts one more attempt, and touches no other row. */
  lemma ClaimAttempts(s: State, id: string, now: int)
    requires Enabled(s, ClaimStep(id, now))
    ensures var rows, t := s.rows, Next(s, ClaimStep(id, now));
            && id in rows && rows[id].status == Queued && !rows[id].cancelRequested
            && (forall other | other in rows && rows[other].status == Queued && !rows[other].cancelRequested ::
                  rows[id].created <= rows[other].created)
            && t.rows.Keys == rows.Keys && (forall other | other in rows && other != id :: t.rows[other] == rows[other])
            && t.rows[id].attempt == rows[id].attempt + 1 && IsRunning(t.rows, id) && t.worker == Holding(id, Executing)
            && t.rows[id].started == (if rows[id].started.Some? then rows[id].started else Some(now))
  {}

  /** How many claims of a task a run makes. */
  function Claims(steps: seq<Step>, id: string): nat {
    if steps == [] then 0
    else Claims(steps[1..], id) + if steps[0].ClaimStep? && steps[0].id == id then 1 else 0
  }

  lemma StepAttempts(s: State, step: Step, id: string)
    requires Enabled(s, step) && id in s.rows && id in s.issued && id in Next(s, step).rows
    ensures Next(s, step).rows[id].attempt == s.rows[id].attempt + if step.ClaimStep? && step.id == id then 1 else 0
  {}

  /** In every run the attempt count of a task grows by exactly the number of its claims. */
  lemma {:induction false} AttemptsAreClaims(s: State, steps: seq<Step>, id: string)
    requires Owned(s) && Possible(s, steps) && id in s.rows && id in Run(s, steps).rows
    ensures Run(s, steps).rows[id].attempt == s.rows[id].attempt + Claims(steps, id)
    decreases |steps|
  {
    if steps != [] {
      StepKeepsOwned(s, steps[0]);
      NextIssued(s, steps[0]);
      if id !in Next(s, steps[0]).rows {
        RunSafe(Next(s, steps[0]), steps[1..], id);
        assert false;
      }
      StepAttempts(s, steps[0], id);
      hide Next, Enabled, Owned;
      AttemptsAreClaims(Next(s, steps[0]), steps[1..], id);
    }
  }

  /** Once the cancellation of a task is requested, no later step of any run claims it. */
  lemma {:induction false} FlaggedNeverClaimed(s: State, steps: seq<Step>, id: string)
    requires Owned(s) && Possible(s, steps) && id in s.issued && (id in s.rows ==> s.rows[id].cancelRequested)
    ensures Claims(steps, id) == 0
    decreases |steps|
  {
    if steps != [] {
      var t := Next(s, steps[0]);
      StepKeepsOwned(s, steps[0]);
      NextIssued(s, steps[0]);
      if id in s.rows {
        StepEvolves(s, steps[0], id);
      } else {
        StepNeverReissues(s, steps[0], id);
      }
      hide Next, Owned;
      FlaggedNeverClaimed(t, steps[1..], id);
    }
  }

  /**
   A cancellation by someone who may see the task ends it at once while it waits, flags it while it
   runs, and leaves it alone when it is over; anyone else changes nothing.
   */
  lemma CancelOutcome(s: State, id: string, caller: Option<string>, now: int)
    ensures var rows, (next, reply) := s.rows, RequestCancel(s.rows, id, caller, now);
            && Next(s, CancelStep(id, caller, now)).rows == next && next.Keys == rows.Keys
            && (forall other | other in rows && other != id :: next[other] == rows[other])
            && (if !(id in rows && (caller.None? || caller.value == rows[id].owner)) then next == rows && reply == NoRow
                else
                  && reply == Found(next[id])
                  && (Terminal(rows[id].status) ==> next[id] == rows[id])
                  && (rows[id].status in {Queued, WaitingInput} ==>
                        next[id] == rows[id].(status := Cancelled, cancelRequested := true, finished := Some(now)))
                  && (rows[id].status == TaskQueue.Running ==> next[id] == rows[id].(cancelRequested := true)))
  {}

  /** An answer reaches only a waiting task of the caller: question and answer are kept together and the task is queued again. */
  lemma AnswerOutcome(s: State, id: string, answer: string, caller: Option<string>)
    ensures var rows, (next, reply) := s.rows, Answer(s.rows, id, answer, caller);
            && Next(s, AnswerStep(id, answer, caller)).rows == next && next.Keys == rows.Keys
            && (forall other | other in rows && other != id :: next[other] == rows[other])
            && (if !(id in rows && (caller.None? || caller.value == rows[id].owner)) then next == rows && reply == NoRow
                else if rows[id].status != WaitingInput then next == rows && reply == Rejected
                else
                  && reply == Found(next[id]) && next[id].status == Queued && next[id].question == ""
                  && next[id].answers == rows[id].answers + [(rows[id].question, answer)]
                  && next[id].attempt == rows[id].attempt && next[id].cancelRequested == rows[id].cancelRequested)
  {}

  /** What the worker writes is what the agent said: the result, the error, or the question. */
  lemma WorkerWords(s: State, step: Step)
    requires Owned(s) && Enabled(s, step) && EndsRow(step)
    ensures s.worker.id in Next(s, step).rows
    ensures var r := Next(s, step).rows[s.worker.id];
            && (step.Finish? ==> r.result == step.result && r.finished == Some(step.now))
            && (step.Abort? ==> r.result == step.error && r.finished == Some(step.now))
            && (step.Wait? ==> r.question == step.question)
            && (step.Acknowledge? ==> r.finished == Some(step.now))
            && Next(s, step).worker == Idle
  {
    hide UniqueKeys;
    assert IsRunning(s.rows, s.worker.id);
  }

  /** A cancellation that arrives while the agent works is seen when it returns: the task can end as cancelled, but not complete or wait. */
  lemma FlagSeenOnReturn(s: State, now: int)
    requires Owned(s) && s.worker.Holding? && s.worker.stage == Executing
    requires s.worker.id in s.rows && s.rows[s.worker.id].cancelRequested
    ensures Enabled(s, AgentReturns) && var t := Next(s, AgentReturns);
            && t.rows == s.rows && Enabled(t, Acknowledge(now)) && !Enabled(t, Finish("", now)) && !Enabled(t, Wait(""))
            && Next(t, Acknowledge(now)).rows[s.worker.id].status == Cancelled
  {
    assert IsRunning(s.rows, s.worker.id);
  }

  /** Rows without an owner go to the one who is given them, and no others. */
  lemma AssignOutcome(s: State, owner: string, id: string)
    requires id in s.rows
    ensures var next := Next(s, AssignStep(owner)).rows;
            && next.Keys == s.rows.Keys
            && next[id] == s.rows[id].(owner := if s.rows[id].owner == "" then owner else s.rows[id].owner)
  {}

  // ----- exactly when a task is stranded

  /** No task waits, in the queue or for an answer, with its cancellation already requested. */
  ghost predicate Clean(s: State) {
    forall id | id in s.rows && (s.rows[id].status == Queued || s.rows[id].status == WaitingInput) :: !s.rows[id].cancelRequested
  }

  /** The worker hands its task over to wait although the task is flagged: `wait_for_input` does not look at the flag. */
  predicate FlaggedWait(s: State, step: Step) {
    step.Wait? && s.worker.Holding? && s.worker.id in s.rows && s.rows[s.worker.id].cancelRequested
  }

  /** Such a wait is the only step that leaves a waiting task flagged. */
  lemma OnlyFlaggedWaits(s: State, step: Step)
    requires Owned(s) && Enabled(s, step) && Clean(s)
    ensures Clean(Next(s, step)) <==> !FlaggedWait(s, step)
  {
    hide UniqueKeys;
    var next := Next(s, step).rows;
    if s.worker.Holding? {
      assert IsRunning(s.rows, s.worker.id);
    }
    if FlaggedWait(s, step) {
      assert next[s.worker.id].status == WaitingInput && next[s.worker.id].cancelRequested;
    } else {
      forall id | id in next && (next[id].status == Queued || next[id].status == WaitingInput)
        ensures !next[id].cancelRequested
      {
      }
    }
  }

  /** No step of the run is a flagged wait. */
  predicate NoFlaggedWait(s: State, steps: seq<Step>)
    requires Possible(s, steps)
    decreases |steps|
  {
    steps == [] || (!FlaggedWait(s, steps[0]) && NoFlaggedWait(Next(s, steps[0]), steps[1..]))
  }

  /** Every state of the run, the last one included, is clean. */
  ghost predicate AlwaysClean(s: State, steps: seq<Step>)
    requires Possible(s, steps)
    decreases |steps|
  {
    Clean(s) && (steps == [] || AlwaysClean(Next(s, steps[0]), steps[1..]))
  }

  /** A run leaves a waiting task flagged at some point if and only if one of its steps is a flagged wait. */
  lemma {:induction false} CleanIff(s: State, steps: seq<Step>)
    requires Owned(s) && Clean(s) && Possible(s, steps)
    ensures AlwaysClean(s, steps) <==> NoFlaggedWait(s, steps)
    ensures NoFlaggedWait(s, steps) ==> Clean(Run(s, steps))
    decreases |steps|
  {
    if steps != [] {
      OnlyFlaggedWaits(s, steps[0]);
      StepKeepsOwned(s, steps[0]);
      hide Next, Enabled, Owned, Clean, FlaggedWait;
      if !FlaggedWait(s, steps[0]) {
        CleanIff(Next(s, steps[0]), steps[1..]);
      } else {
        NotCleanThen(Next(s, steps[0]), steps[1..]);
      }
    }
  }

  lemma NotCleanThen(s: State, steps: seq<Step>)
    requires Possible(s, steps) && !Clean(s)
    ensures !AlwaysClean(s, steps)
  {}

  /** Without a flagged wait no task is ever stranded. */
  lemma NeverStranded(steps: seq<Step>, id: string)
    requires Possible(EMPTY, steps) && NoFlaggedWait(EMPTY, steps)
    ensures !Stranded(Run(EMPTY, steps).rows, id)
  {
    CleanIff(EMPTY, steps);
    hide Run, NoFlaggedWait;
  }

  /** After any flagged wait the next answer of the owner strands that task. */
  lemma FlaggedWaitStrands(s: State, question: string, answer: string)
    requires Owned(s) && Enabled(s, Wait(question)) && FlaggedWait(s, Wait(question))
    ensures var t := Next(s, Wait(question));
            var step := AnswerStep(s.worker.id, answer, None);
            Enabled(t, step) && Stranded(Next(t, step).rows, s.worker.id)
  {
    assert IsRunning(s.rows, s.worker.id);
  }

  /** The run that strands a task. */
  lemma StrandedReachable()
    ensures exists steps :: Possible(EMPTY, steps) && Stranded(Run(EMPTY, steps).rows, "t")
  {
    var s1 := Next(EMPTY, Create("t", None, "", 0));
    var s2 := Next(s1, Launch(1));
    assert s2.rows == s1.rows && OldestClaimable(s2.rows, "t");
    var s3 := Next(s2, ClaimStep("t", 2));
    var s4 := Next(s3, AgentReturns);
    var s5 := Next(s4, CancelStep("t", None, 3));
    var s6 := Next(s5, Wait("which?"));
    var s7 := Next(s6, AnswerStep("t", "this", None));
    assert Stranded(s7.rows, "t");
    hide Next, Enabled;
    var l := Prepend(s6, AnswerStep("t", "this", None), []);
    l := Prepend(s5, Wait("which?"), l);
    l := Prepend(s4, CancelStep("t", None, 3), l);
    l := Prepend(s3, AgentReturns, l);
    l := Prepend(s2, ClaimStep("t", 2), l);
    l := Prepend(s1, Launch(1), l);
    l := Prepend(EMPTY, Create("t", None, "", 0), l);
  }

  lemma Prepend(s: State, step: Step, steps: seq<Step>) returns (all: seq<Step>)
    requires Enabled(s, step) && Possible(Next(s, step), steps)
    ensures all == [step] + steps && Possible(s, all) && Run(s, all) == Run(Next(s, step), steps)
  {
    all := [step] + steps;
    assert all[1..] == steps;
  }
}
