/**
 The background-task queue (apps/video-call/task_store.py): rows that API callers and the
 worker change, one atomic statement or transaction at a time.
 */
module TaskQueue {
  import opened Common

  datatype Status = Queued | Running | WaitingInput | Completed | Failed | Cancelled

  datatype Row = Row(
    key: Option<string>,
    owner: string,
    status: Status,
    cancelRequested: bool,
    attempt: nat,
    created: int,
    started: Option<int>,
    finished: Option<int>,
    question: string,
    answers: seq<(string, string)>,
    result: string)

  type Rows = map<string, Row>

  predicate Terminal(s: Status) {
    s == Completed || s == Failed || s == Cancelled
  }

  predicate Active(s: Status) {
    !Terminal(s)
  }

  function NewRow(key: Option<string>, owner: string, now: int): Row {
    Row(key, owner, Queued, false, 0, now, None, None, "", [], "")
  }

  predicate HasKey(rows: Rows, id: string, key: string) {
    id in rows && rows[id].key == Some(key)
  }

  predicate Claimable(rows: Rows, id: string) {
    id in rows && rows[id].status == Queued && !rows[id].cancelRequested
  }

  /** `WHERE status = 'queued' AND cancel_requested = 0 ORDER BY created_at LIMIT 1` may pick this row. */
  predicate OldestClaimable(rows: Rows, id: string) {
    Claimable(rows, id) && forall other | other in rows && Claimable(rows, other) :: rows[id].created <= rows[other].created
  }

  // ----- the updates, as SQL states them

  function Claim(rows: Rows, id: string, now: int): Rows
    requires id in rows
  {
    var r := rows[id];
    rows[id := r.(status := Running, attempt := r.attempt + 1, started := if r.started.Some? then r.started else Some(now))]
  }

  /** `WHERE id = ?` and nothing else. */
  function Complete(rows: Rows, id: string, result: string, now: int): Rows {
    if id in rows then rows[id := rows[id].(status := Completed, result := result, finished := Some(now))] else rows
  }

  function Fail(rows: Rows, id: string, error: string, now: int): Rows {
    if id in rows then rows[id := rows[id].(status := Failed, result := error, finished := Some(now))] else rows
  }

  function MarkCancelled(rows: Rows, id: string, now: int): Rows {
    if id in rows then rows[id := rows[id].(status := Cancelled, finished := Some(now))] else rows
  }

  function WaitForInput(rows: Rows, id: string, question: string): Rows {
    if id in rows && rows[id].status == Running
    then rows[id := rows[id].(status := WaitingInput, question := question)] else rows
  }

  predicate Visible(rows: Rows, id: string, caller: Option<string>) {
    id in rows && (caller.None? || rows[id].owner == caller.value)
  }

  /** What a caller gets: the row, None for no such row, or an error. */
  datatype Reply = Found(row: Row) | NoRow | Rejected

  function Answer(rows: Rows, id: string, answer: string, caller: Option<string>): (Rows, Reply) {
    if !Visible(rows, id, caller) then (rows, NoRow)
    else if rows[id].status != WaitingInput then (rows, Rejected)
    else
      var r := rows[id];
      var r' := r.(status := Queued, question := "", answers := r.answers + [(r.question, answer)]);
      (rows[id := r'], Found(r'))
  }

  function RequestCancel(rows: Rows, id: string, caller: Option<string>, now: int): (Rows, Reply) {
    if !Visible(rows, id, caller) then (rows, NoRow)
    else
      var r := rows[id];
      var r' :=
        if r.status == Queued || r.status == WaitingInput
        then r.(status := Cancelled, cancelRequested := true, finished := Some(now))
        else if r.status == Running then r.(cancelRequested := true)
        else r;
      (rows[id := r'], Found(r'))
  }

  function Recovered(r: Row, now: int): Row {
    if r.status != Running then r
    else if r.cancelRequested then r.(status := Cancelled, finished := Some(now))
    else r.(status := Queued, finished := None)
  }

  function Recover(rows: Rows, now: int): Rows {
    map id | id in rows :: Recovered(rows[id], now)
  }

  function AssignOwner(rows: Rows, owner: string): Rows {
    map id | id in rows :: if rows[id].owner == "" then rows[id].(owner := owner) else rows[id]
  }

  predicate OwnerIdle(rows: Rows, owner: string) {
    forall id | id in rows && rows[id].owner == owner :: Terminal(rows[id].status)
  }

  function DeleteOwner(rows: Rows, owner: string): Rows {
    map id | id in rows && rows[id].owner != owner :: rows[id]
  }

  // ----- the store object

  class TaskStore {
    var rows: Rows

    constructor ()
      ensures rows == map[]
    {
      rows := map[];
    }

    /** `freshId` is the new uuid; an idempotency key that is taken gives back its row. */
    method CreateTask(freshId: string, key: Option<string>, owner: string, now: int) returns (id: string, created: bool)
      requires freshId !in rows
      modifies this
      ensures created <==> key.None? || forall k | k in old(rows) :: !HasKey(old(rows), k, key.value)
      ensures created ==> id == freshId && rows == old(rows)[id := NewRow(key, owner, now)]
      ensures !created ==> rows == old(rows) && HasKey(rows, id, key.value)
    {
      if key.Some? && exists k | k in rows :: HasKey(rows, k, key.value) {
        id :| id in rows && HasKey(rows, id, key.value);
        return id, false;
      }
      rows := rows[freshId := NewRow(key, owner, now)];
      return freshId, true;
    }

    method ClaimNext(now: int) returns (id: Option<string>)
      modifies this
      ensures id.None? <==> forall k | k in old(rows) :: !Claimable(old(rows), k)
      ensures id.Some? ==> OldestClaimable(old(rows), id.value) && rows == Claim(old(rows), id.value, now)
      ensures id.None? ==> rows == old(rows)
    {
      var claimable := set k | k in rows && Claimable(rows, k);
      if claimable == {} {
        assert forall k | k in rows && Claimable(rows, k) :: k in claimable;
        return None;
      }
      OldestExists(rows, claimable);
      var k :| k in claimable && OldestIn(rows, claimable, k);
      id := Some(k);
      rows := Claim(rows, k, now);
    }

    method CompleteTask(id: string, result: string, now: int)
      modifies this
      ensures rows == Complete(old(rows), id, result, now)
    {
      if id in rows {
        rows := rows[id := rows[id].(status := Completed, result := result, finished := Some(now))];
      }
    }

    method FailTask(id: string, error: string, now: int)
      modifies this
      ensures rows == Fail(old(rows), id, error, now)
    {
      if id in rows {
        rows := rows[id := rows[id].(status := Failed, result := error, finished := Some(now))];
      }
    }

    method MarkTaskCancelled(id: string, now: int)
      modifies this
      ensures rows == MarkCancelled(old(rows), id, now)
    {
      if id in rows {
        rows := rows[id := rows[id].(status := Cancelled, finished := Some(now))];
      }
    }

    method WaitTask(id: string, question: string)
      modifies this
      ensures rows == WaitForInput(old(rows), id, question)
    {
      if id in rows && rows[id].status == Running {
        rows := rows[id := rows[id].(status := WaitingInput, question := question)];
      }
    }

    method AnswerTask(id: string, answer: string, caller: Option<string>) returns (reply: Reply)
      modifies this
      ensures (rows, reply) == Answer(old(rows), id, answer, caller)
    {
      if id !in rows || (caller.Some? && rows[id].owner != caller.value) {
        return NoRow;
      }
      var row := rows[id];
      if row.status != WaitingInput {
        return Rejected;
      }
      row := row.(status := Queued, question := "", answers := row.answers + [(row.question, answer)]);
      rows := rows[id := row];
      return Found(row);
    }

    method CancelTask(id: string, caller: Option<string>, now: int) returns (reply: Reply)
      modifies this
      ensures (rows, reply) == RequestCancel(old(rows), id, caller, now)
    {
      if id !in rows || (caller.Some? && rows[id].owner != caller.value) {
        return NoRow;
      }
      var row := rows[id];
      if row.status == Queued || row.status == WaitingInput {
        row := row.(status := Cancelled, cancelRequested := true, finished := Some(now));
      } else if row.status == Running {
        row := row.(cancelRequested := true);
      }
      rows := rows[id := row];
      return Found(row);
    }

    method RecoverInterrupted(now: int) returns (count: nat)
      modifies this
      ensures rows == Recover(old(rows), now)
      ensures count == |set id | id in old(rows) && old(rows)[id].status == Running|
    {
      count := |set id | id in rows && rows[id].status == Running|;
      rows := Recover(rows, now);
    }

    method DeleteOwnerTasks(owner: string) returns (ok: bool)
      modifies this
      ensures ok <==> OwnerIdle(old(rows), owner)
      ensures rows == if ok then DeleteOwner(old(rows), owner) else old(rows)
    {
      ok := OwnerIdle(rows, owner);
      if ok {
        rows := DeleteOwner(rows, owner);
      }
    }
  }

  predicate OldestIn(rows: Rows, ids: set<string>, id: string)
    requires ids <= rows.Keys
  {
    id in ids && forall other | other in ids :: rows[id].created <= rows[other].created
  }

  lemma {:induction false} OldestExists(rows: Rows, ids: set<string>)
    requires ids <= rows.Keys && ids != {}
    ensures exists id :: OldestIn(rows, ids, id)
    decreases |ids|
  {
    SomeId(ids);
    var id :| id in ids;
    var others := ids - {id};
    if others == {} {
      assert ids == {id};
      assert OldestIn(rows, ids, id);
    } else {
      OldestExists(rows, others);
      var best :| OldestIn(rows, others, best);
      assert forall other | other in ids :: other == id || other in others;
      assert OldestIn(rows, ids, if rows[id].created <= rows[best].created then id else best);
    }
  }

  lemma SomeId(ids: set<string>)
    ensures ids == {} || exists id :: id in ids
  {
    if forall id :: id !in ids {
      assert ids == {};
    }
  }

  /** Asking for a key twice creates one task and gives back the same one. */
  lemma SameKeySameTask(rows: Rows, id: string, key: string, owner: string, now: int, found: string)
    requires id !in rows && UniqueKeys(rows) && (forall k | k in rows :: !HasKey(rows, k, key))
    requires HasKey(rows[id := NewRow(Some(key), owner, now)], found, key)
    ensures found == id && UniqueKeys(rows[id := NewRow(Some(key), owner, now)])
  {
    assert found in rows ==> !HasKey(rows, found, key);
    AddKeepsUnique(rows, id, NewRow(Some(key), owner, now));
  }

  lemma AddKeepsUnique(rows: Rows, id: string, row: Row)
    requires id !in rows && UniqueKeys(rows)
    requires row.key.Some? ==> forall k | k in rows :: !HasKey(rows, k, row.key.value)
    ensures UniqueKeys(rows[id := row])
  {
    var next := rows[id := row];
    forall i, j, key | HasKey(next, i, key) && HasKey(next, j, key) ensures i == j {
      assert i != id ==> HasKey(rows, i, key);
      assert j != id ==> HasKey(rows, j, key);
    }
  }

  ghost predicate UniqueKeys(rows: Rows) {
    forall i, j, key | HasKey(rows, i, key) && HasKey(rows, j, key) :: i == j
  }
}
