/**
 The chat queue (apps/video-call/chat_store.py): every turn stores a user message and a
 queued assistant message, stamped 0.0001 s later than it. Times count tenths of a
 microsecond. Rows are keyed by rowid.
 */
module Chats {
  import opened Common

  /** How much later than its user message an assistant message is stamped: 0.0001 s. */
  const GAP := 1000

  datatype Role = User | Assistant
  datatype MessageState = Queued | Running | Completed | Failed | Cancelled

  datatype Message = Message(
    id: string,
    conversation: string,
    role: Role,
    content: string,
    state: MessageState,
    cancelRequested: bool,
    error: string,
    created: int)

  type Messages = map<int, Message>

  /** `turns` records, for each assistant message, the user message of the same `create_turn`. */
  datatype State = State(owners: map<string, string>, messages: Messages, turns: map<string, string>, issued: set<string>)

  predicate ActiveAssistant(ms: Messages, j: int) {
    j in ms && ms[j].role == Assistant && (ms[j].state == Queued || ms[j].state == Running)
  }

  predicate Busy(ms: Messages, conversation: string) {
    exists j | j in ms :: ActiveAssistant(ms, j) && ms[j].conversation == conversation
  }

  /** `ORDER BY created_at LIMIT 1` over the queued assistant messages may pick this row. */
  predicate OldestQueued(ms: Messages, j: int) {
    && j in ms && ms[j].role == Assistant && ms[j].state == Queued
    && forall k | k in ms && ms[k].role == Assistant && ms[k].state == Queued :: ms[j].created <= ms[k].created
  }

  /** The next rowid is larger than every rowid in the table. */
  predicate NextRow(ms: Messages, r: int) {
    forall k | k in ms :: k < r
  }

  function AddTurn(ms: Messages, r: int, conversation: string, userId: string, assistantId: string, content: string, now: int): Messages {
    ms[r := Message(userId, conversation, User, content, Completed, false, "", now)]
      [r + 1 := Message(assistantId, conversation, Assistant, "", Queued, false, "", now + GAP)]
  }

  function FinishMessage(ms: Messages, id: string, content: string, state: MessageState, error: string): Messages {
    map j | j in ms ::
      if ms[j].id == id then ms[j].(content := content, state := state, error := error, cancelRequested := false) else ms[j]
  }

  function ReplaceContent(ms: Messages, id: string, content: string): Messages {
    map j | j in ms :: if ms[j].id == id then ms[j].(content := content) else ms[j]
  }

  function FlagCancel(ms: Messages, id: string): Messages {
    map j | j in ms :: if ms[j].id == id && ActiveAssistant(ms, j) then ms[j].(cancelRequested := true) else ms[j]
  }

  function Recover(ms: Messages): Messages {
    map j | j in ms ::
      if ms[j].role == Assistant && ms[j].state == Running
      then ms[j].(state := Queued, content := "", error := "", cancelRequested := false) else ms[j]
  }

  function Without(ms: Messages, gone: set<string>): Messages {
    map j | j in ms && ms[j].conversation !in gone :: ms[j]
  }

  predicate OwnerBusy(s: State, owner: string) {
    exists c | c in s.owners :: s.owners[c] == owner && Busy(s.messages, c)
  }

  datatype Step =
    | CreateConversation(id: string, owner: string)
    | CreateTurn(conversation: string, caller: Option<string>, row: int, userId: string, assistantId: string, content: string)
    | Claim(row: int)
    | Finish(id: string, content: string, outcome: MessageState, error: string)
    | Replace(id: string, content: string)
    | RequestCancel(id: string)
    | RecoverInterrupted
    | DeleteConversation(conversation: string)
    | DeleteOwner(owner: string)
    | AssignOwner(owner: string)

  /** `create_turn` is taken as one step: its check, its two inserts and its attachments commit together. */
  predicate Enabled(s: State, step: Step) {
    match step
    case CreateConversation(id, _) => id !in s.issued
    case CreateTurn(c, caller, r, u, a, _) =>
      && c in s.owners && (caller.None? || s.owners[c] == caller.value)
      && !Busy(s.messages, c)
      && NextRow(s.messages, r) && u !in s.issued && a !in s.issued && u != a
    case Claim(j) => OldestQueued(s.messages, j)
    case Finish(_, _, outcome, _) => outcome == Completed || outcome == Failed || outcome == Cancelled
    case DeleteOwner(owner) => !OwnerBusy(s, owner)
    case _ => true
  }

  function Next(s: State, step: Step, now: int): State
    requires Enabled(s, step)
  {
    match step
    case CreateConversation(id, owner) => s.(owners := s.owners[id := owner], issued := s.issued + {id})
    case CreateTurn(c, _, r, u, a, content) =>
      s.(messages := AddTurn(s.messages, r, c, u, a, content, now), turns := s.turns[a := u], issued := s.issued + {u, a})
    case Claim(j) => s.(messages := s.messages[j := s.messages[j].(state := Running)])
    case Finish(id, content, outcome, error) => s.(messages := FinishMessage(s.messages, id, content, outcome, error))
    case Replace(id, content) => s.(messages := ReplaceContent(s.messages, id, content))
    case RequestCancel(id) => s.(messages := FlagCancel(s.messages, id))
    case RecoverInterrupted => s.(messages := Recover(s.messages))
    case DeleteConversation(c) => s.(owners := s.owners - {c}, messages := Without(s.messages, {c}))
    case DeleteOwner(owner) =>
      var gone := set c | c in s.owners && s.owners[c] == owner;
      s.(owners := s.owners - gone, messages := Without(s.messages, gone))
    case AssignOwner(owner) =>
      s.(owners := map c | c in s.owners :: if s.owners[c] == "" then owner else s.owners[c])
  }

  // ----- the invariant

  /** The user message of its own turn comes right before an assistant message, and no user message is out of order around it. */
  ghost predicate AfterOwnUser(s: State, j: int)
    requires j in s.messages
  {
    var ms := s.messages;
    var a := ms[j];
    && j - 1 in ms && ms[j - 1].role == User && ms[j - 1].conversation == a.conversation
    && a.id in s.turns && s.turns[a.id] == ms[j - 1].id
    && a.created == ms[j - 1].created + GAP
    && (forall k | k in ms && ms[k].conversation == a.conversation && ms[k].role == User ::
          if k < j then ms[k].created <= ms[j - 1].created else ms[j - 1].created <= ms[k].created)
  }

  /** The last message of its conversation. */
  ghost predicate LastOfAll(ms: Messages, j: int)
    requires j in ms
  {
    forall k | k in ms && ms[k].conversation == ms[j].conversation :: k <= j
  }

  ghost predicate UniqueIds(ms: Messages) {
    forall i, j | i in ms && j in ms && ms[i].id == ms[j].id :: i == j
  }

  ghost predicate Inv(s: State, last: int) {
    && (forall j | j in s.messages ::
          s.messages[j].id in s.issued && s.messages[j].created <= last + if s.messages[j].role == User then 0 else GAP)
    && (forall a | a in s.turns :: a in s.issued)
    && UniqueIds(s.messages)
    && (forall j | j in s.messages && s.messages[j].role == Assistant :: AfterOwnUser(s, j))
    && (forall j | ActiveAssistant(s.messages, j) :: LastOfAll(s.messages, j))
  }

  lemma TurnKeepsUserOrder(s: State, last: int, step: Step, now: int, j: int)
    requires Inv(s, last) && last <= now && step.CreateTurn? && Enabled(s, step)
    requires j in Next(s, step, now).messages && Next(s, step, now).messages[j].role == Assistant
    ensures AfterOwnUser(Next(s, step, now), j)
  {
    hide UniqueIds;
    if j != step.row + 1 {
      assert AfterOwnUser(s, j);
    }
  }

  lemma TurnKeepsLast(s: State, last: int, step: Step, now: int, j: int)
    requires Inv(s, last) && step.CreateTurn? && Enabled(s, step) && ActiveAssistant(Next(s, step, now).messages, j)
    ensures LastOfAll(Next(s, step, now).messages, j)
  {
    hide UniqueIds, AfterOwnUser;
    if j != step.row + 1 {
      assert ActiveAssistant(s.messages, j) && LastOfAll(s.messages, j);
      assert s.messages[j].conversation != step.conversation;
    }
  }

  lemma TurnKeepsIds(s: State, last: int, step: Step, now: int)
    requires Inv(s, last) && step.CreateTurn? && Enabled(s, step)
    ensures UniqueIds(Next(s, step, now).messages)
  {
    hide AfterOwnUser, LastOfAll;
  }

  lemma TurnKeepsInv(s: State, last: int, step: Step, now: int)
    requires Inv(s, last) && last <= now && step.CreateTurn? && Enabled(s, step)
    ensures Inv(Next(s, step, now), now)
  {
    hide AfterOwnUser, LastOfAll, UniqueIds;
    var t := Next(s, step, now);
    TurnKeepsIds(s, last, step, now);
    forall j | j in t.messages && t.messages[j].role == Assistant ensures AfterOwnUser(t, j) {
      TurnKeepsUserOrder(s, last, step, now, j);
    }
    forall j | ActiveAssistant(t.messages, j) ensures LastOfAll(t.messages, j) {
      TurnKeepsLast(s, last, step, now, j);
    }
  }

  lemma StepKeepsInv(s: State, last: int, step: Step, now: int)
    requires Inv(s, last) && last <= now && Enabled(s, step)
    ensures Inv(Next(s, step, now), now)
  {
    if step.CreateTurn? {
      TurnKeepsInv(s, last, step, now);
    } else {
      var t := Next(s, step, now);
      ShapeKept(s, step, now);
      forall j | j in t.messages && t.messages[j].role == Assistant ensures AfterOwnUser(t, j) {
        assert AfterOwnUser(s, j);
      }
      forall j | ActiveAssistant(t.messages, j) ensures LastOfAll(t.messages, j) {
        assert ActiveAssistant(s.messages, j) && LastOfAll(s.messages, j);
      }
    }
  }

  /** Apart from a new turn, steps change no identity, place or date, revive nothing, and delete whole conversations. */
  lemma ShapeKept(s: State, step: Step, now: int)
    requires Enabled(s, step) && !step.CreateTurn?
    ensures var ms, ns := s.messages, Next(s, step, now).messages;
            && (forall j | j in ns :: j in ms && ns[j].id == ms[j].id && ns[j].conversation == ms[j].conversation
                                      && ns[j].role == ms[j].role && ns[j].created == ms[j].created)
            && (forall j :: ActiveAssistant(ns, j) ==> ActiveAssistant(ms, j))
            && (forall i, j | i in ms && j in ns && ms[i].conversation == ms[j].conversation :: i in ns)
    ensures Next(s, step, now).turns == s.turns && s.issued <= Next(s, step, now).issued
  {}

  // ----- what the unguarded updates do

  /** Finishing an active message ends that message, changes no other, and frees its conversation for the next turn. */
  lemma FinishFreesConversation(s: State, last: int, j: int, step: Step, now: int)
    requires Inv(s, last) && step.Finish? && Enabled(s, step) && ActiveAssistant(s.messages, j) && s.messages[j].id == step.id
    ensures var ms, ns := s.messages, Next(s, step, now).messages;
            && ns == ms[j := ms[j].(content := step.content, state := step.outcome, error := step.error, cancelRequested := false)]
            && !Busy(ns, ms[j].conversation)
  {
    var ms, ns := s.messages, Next(s, step, now).messages;
    forall k | k in ns ensures k != j ==> ns[k] == ms[k] {
      assert UniqueIds(ms);
    }
    assert LastOfAll(ms, j);
    forall k | ActiveAssistant(ns, k) ensures ns[k].conversation != ms[j].conversation {
      assert ActiveAssistant(ms, k) && LastOfAll(ms, k);
    }
  }

  /** A cancellation sets one flag at most, that of the message it names, and only while that message is active. */
  lemma CancelFlagsOne(s: State, last: int, step: Step, now: int, k: int)
    requires Inv(s, last) && step.RequestCancel? && k in s.messages
    ensures var ms, ns := s.messages, Next(s, step, now).messages;
            && ns.Keys == ms.Keys && ns[k] == ms[k].(cancelRequested := ns[k].cancelRequested)
            && (ns[k].cancelRequested <==> ms[k].cancelRequested || (ms[k].id == step.id && ActiveAssistant(ms, k)))
            && (ns[k] != ms[k] ==> forall i | i in ms && i != k :: ns[i] == ms[i])
  {}

  /** After recovery nothing is running, every conversation is as busy as before, and what was interrupted starts afresh. */
  lemma RecoveryRequeues(s: State, now: int)
    ensures var ms, ns := s.messages, Next(s, RecoverInterrupted, now).messages;
            && ns.Keys == ms.Keys
            && (forall j :: ActiveAssistant(ns, j) <==> ActiveAssistant(ms, j))
            && (forall j | ActiveAssistant(ns, j) :: ns[j].state == Queued)
            && (forall j | j in ms && ns[j] != ms[j] ::
                  ActiveAssistant(ms, j) && ms[j].state == Running
                  && ns[j].content == "" && ns[j].error == "" && !ns[j].cancelRequested)
            && (forall c :: Busy(ns, c) <==> Busy(ms, c))
  {
    var ms, ns := s.messages, Next(s, RecoverInterrupted, now).messages;
    forall c ensures Busy(ns, c) <==> Busy(ms, c) {
      if Busy(ms, c) {
        var j :| j in ms && ActiveAssistant(ms, j) && ms[j].conversation == c;
        assert ActiveAssistant(ns, j) && ns[j].conversation == c;
      }
    }
  }

  // ----- what each operation does to the tables

  /** A turn adds a completed user message and, one row and 0.0001 s later, an empty queued answer; the conversation is then busy. */
  lemma TurnAdds(s: State, step: Step, now: int)
    requires step.CreateTurn? && Enabled(s, step)
    ensures var ms, t, r := s.messages, Next(s, step, now), step.row;
            && t.messages.Keys == ms.Keys + {r, r + 1} && (forall k | k in ms :: k < r && t.messages[k] == ms[k])
            && t.messages[r] == Message(step.userId, step.conversation, User, step.content, Completed, false, "", now)
            && t.messages[r + 1] == Message(step.assistantId, step.conversation, Assistant, "", Queued, false, "", now + 1000)
            && t.turns == s.turns[step.assistantId := step.userId] && t.owners == s.owners
            && Busy(t.messages, step.conversation) && !Busy(ms, step.conversation)
            && step.conversation in s.owners && (step.caller.None? || step.caller.value == s.owners[step.conversation])
  {
    assert ActiveAssistant(Next(s, step, now).messages, step.row + 1);
  }

  /** A claim takes an oldest queued answer and sets it running; nothing else changes. */
  lemma ClaimRuns(s: State, j: int, now: int)
    requires Enabled(s, Claim(j))
    ensures var ms, ns := s.messages, Next(s, Claim(j), now).messages;
            && j in ms && ms[j].role == Assistant && ms[j].state == Queued
            && (forall k | k in ms && ms[k].role == Assistant && ms[k].state == Queued :: ms[j].created <= ms[k].created)
            && ns == ms[j := ms[j].(state := Running)]
            && (forall c :: Busy(ns, c) ==> Busy(ms, c)) && Busy(ns, ms[j].conversation)
  {
    var ms, ns := s.messages, Next(s, Claim(j), now).messages;
    assert ActiveAssistant(ns, j);
    forall c | Busy(ns, c) ensures Busy(ms, c) {
      var k :| k in ns && ActiveAssistant(ns, k) && ns[k].conversation == c;
      assert ActiveAssistant(ms, k);
    }
  }

  /** Writing a partial answer changes the text of the messages it names and nothing else. */
  lemma ReplaceWrites(s: State, id: string, content: string, now: int, k: int)
    requires k in s.messages
    ensures var ms, ns := s.messages, Next(s, Replace(id, content), now).messages;
            ns.Keys == ms.Keys && ns[k] == if ms[k].id == id then ms[k].(content := content) else ms[k]
  {}

  /** Deleting a conversation takes it and exactly its messages. */
  lemma DeleteTakes(s: State, c: string, now: int)
    ensures var t := Next(s, DeleteConversation(c), now);
            && t.owners.Keys == s.owners.Keys - {c} && (forall o | o in t.owners :: t.owners[o] == s.owners[o])
            && (forall k :: k in t.messages <==> k in s.messages && s.messages[k].conversation != c)
            && (forall k | k in t.messages :: t.messages[k] == s.messages[k])
  {}

  /** Deleting an owner's conversations is refused while one is busy, and takes exactly theirs. */
  lemma DeleteOwnerTakes(s: State, owner: string, now: int)
    ensures Enabled(s, DeleteOwner(owner)) <==> forall c | c in s.owners && s.owners[c] == owner :: !Busy(s.messages, c)
    ensures Enabled(s, DeleteOwner(owner)) ==>
              var t := Next(s, DeleteOwner(owner), now);
              && (forall c :: c in t.owners <==> c in s.owners && s.owners[c] != owner)
              && (forall c | c in t.owners :: t.owners[c] == s.owners[c])
              && (forall k :: k in t.messages <==>
                    k in s.messages && !(s.messages[k].conversation in s.owners && s.owners[s.messages[k].conversation] == owner))
              && (forall k | k in t.messages :: t.messages[k] == s.messages[k])
  {}

  /** Conversations without an owner go to the one who is given them. */
  lemma AssignTakes(s: State, owner: string, now: int)
    ensures var t := Next(s, AssignOwner(owner), now);
            && t.messages == s.messages && t.owners.Keys == s.owners.Keys
            && (forall c | c in s.owners :: t.owners[c] == if s.owners[c] == "" then owner else s.owners[c])
  {}

  datatype Timed = Timed(step: Step, at: int)

  predicate Possible(s: State, last: int, steps: seq<Timed>)
    decreases |steps|
  {
    steps == [] ||
    (last <= steps[0].at && Enabled(s, steps[0].step) && Possible(Next(s, steps[0].step, steps[0].at), steps[0].at, steps[1..]))
  }

  function Run(s: State, last: int, steps: seq<Timed>): State
    requires Possible(s, last, steps)
    decreases |steps|
  {
    if steps == [] then s else Run(Next(s, steps[0].step, steps[0].at), steps[0].at, steps[1..])
  }

  const EMPTY := State(map[], map[], map[], {})

  lemma {:induction false} RunKeepsInv(s: State, last: int, steps: seq<Timed>) returns (end: int)
    requires Inv(s, last) && Possible(s, last, steps)
    ensures Inv(Run(s, last, steps), end)
    decreases |steps|
  {
    end := last;
    if steps != [] {
      StepKeepsInv(s, last, steps[0].step, steps[0].at);
      hide Inv, Next, Enabled;
      end := RunKeepsInv(Next(s, steps[0].step, steps[0].at), steps[0].at, steps[1..]);
    }
  }

  // ----- what the invariant buys

  /** In every run a conversation has at most one queued or running assistant message. */
  lemma OneActivePerConversation(steps: seq<Timed>, last: int, i: int, j: int)
    requires Possible(EMPTY, last, steps)
    requires var ms := Run(EMPTY, last, steps).messages;
             ActiveAssistant(ms, i) && ActiveAssistant(ms, j) && ms[i].conversation == ms[j].conversation
    ensures i == j
  {
    var end := RunKeepsInv(EMPTY, last, steps);
    var s := Run(EMPTY, last, steps);
    hide Run;
    assert LastOfAll(s.messages, i) && LastOfAll(s.messages, j);
  }

  predicate EarlierUser(ms: Messages, j: int, i: int)
    requires j in ms
  {
    i in ms && ms[i].conversation == ms[j].conversation && ms[i].role == User && ms[i].created < ms[j].created
  }

  /** `WHERE role = 'user' AND created_at < ? ORDER BY created_at DESC, rowid DESC LIMIT 1` */
  predicate Preceding(ms: Messages, j: int, i: int)
    requires j in ms
  {
    && EarlierUser(ms, j, i)
    && forall k | k in ms && EarlierUser(ms, j, k) ::
         ms[k].created < ms[i].created || (ms[k].created == ms[i].created && k <= i)
  }

  /**
   In every run, crashes and recovery included, the message found before a queued or
   running assistant message is the user message of the same turn, and no other.
   */
  lemma PrecedingIsOwnTurn(steps: seq<Timed>, last: int, j: int, i: int)
    requires Possible(EMPTY, last, steps) && ActiveAssistant(Run(EMPTY, last, steps).messages, j)
    ensures var s := Run(EMPTY, last, steps);
            Preceding(s.messages, j, i) <==>
            i == j - 1 && i in s.messages && s.messages[j].id in s.turns && s.turns[s.messages[j].id] == s.messages[i].id
    ensures Preceding(Run(EMPTY, last, steps).messages, j, j - 1)
  {
    var end := RunKeepsInv(EMPTY, last, steps);
    var s := Run(EMPTY, last, steps);
    hide Run;
    assert AfterOwnUser(s, j) && LastOfAll(s.messages, j);
    assert EarlierUser(s.messages, j, j - 1);
  }

  /** No later user message of its conversation is stamped before the message `j` itself. */
  predicate NoLaterBefore(ms: Messages, j: int)
    requires j in ms
  {
    forall k | k in ms && k > j && ms[k].conversation == ms[j].conversation && ms[k].role == User ::
      ms[j].created <= ms[k].created
  }

  /**
   For any assistant message of any run, finished or not, the query finds the user message of its
   own turn if and only if every later user message of the conversation came at least 0.0001 s after it.
   */
  lemma PrecedingIff(steps: seq<Timed>, last: int, j: int)
    requires Possible(EMPTY, last, steps)
    requires j in Run(EMPTY, last, steps).messages && Run(EMPTY, last, steps).messages[j].role == Assistant
    ensures var s := Run(EMPTY, last, steps);
            && j - 1 in s.messages && s.messages[j].id in s.turns && s.turns[s.messages[j].id] == s.messages[j - 1].id
            && (Preceding(s.messages, j, j - 1) <==> NoLaterBefore(s.messages, j))
            && s.messages[j].created == s.messages[j - 1].created + GAP
  {
    var end := RunKeepsInv(EMPTY, last, steps);
    var s := Run(EMPTY, last, steps);
    hide Run;
    assert AfterOwnUser(s, j);
    assert EarlierUser(s.messages, j, j - 1);
    if !NoLaterBefore(s.messages, j) {
      var k :| k in s.messages && k > j && s.messages[k].conversation == s.messages[j].conversation
               && s.messages[k].role == User && s.messages[k].created < s.messages[j].created;
      assert EarlierUser(s.messages, j, k);
    }
  }

  /** The condition can fail: here the next turn comes 0.00003 s later. */
  lemma FinishedMayFindNextTurn()
    ensures exists steps :: Possible(EMPTY, 0, steps) &&
              var s := Run(EMPTY, 0, steps);
              && 0 in s.messages && 1 in s.messages && 2 in s.messages && s.messages[1].state == Completed
              && s.messages[0].created == 0 && s.messages[2].created == 300
              && Preceding(s.messages, 1, 2) && !Preceding(s.messages, 1, 0) && !NoLaterBefore(s.messages, 1)
  {
    var s1 := Next(EMPTY, CreateConversation("c", ""), 0);
    var s2 := Next(s1, CreateTurn("c", None, 0, "u", "a", "hello"), 0);
    var s3 := Next(s2, Finish("a", "hi", Completed, ""), 0);
    var s4 := Next(s3, CreateTurn("c", None, 2, "v", "b", "again"), 300);
    assert Preceding(s4.messages, 1, 2) && EarlierUser(s4.messages, 1, 2);
    hide Next, Enabled;
    var l := Prepend(s3, 0, Timed(CreateTurn("c", None, 2, "v", "b", "again"), 300), []);
    l := Prepend(s2, 0, Timed(Finish("a", "hi", Completed, ""), 0), l);
    l := Prepend(s1, 0, Timed(CreateTurn("c", None, 0, "u", "a", "hello"), 0), l);
    l := Prepend(EMPTY, 0, Timed(CreateConversation("c", ""), 0), l);
  }

  lemma Prepend(s: State, last: int, step: Timed, steps: seq<Timed>) returns (all: seq<Timed>)
    requires last <= step.at && Enabled(s, step.step) && Possible(Next(s, step.step, step.at), step.at, steps)
    ensures all == [step] + steps && Possible(s, last, all)
    ensures Run(s, last, all) == Run(Next(s, step.step, step.at), step.at, steps)
  {
    all := [step] + steps;
    assert all[1..] == steps;
  }

  // ----- the store object

  class ChatStore {
    var owners: map<string, string>
    var messages: Messages

    constructor ()
      ensures owners == map[] && messages == map[]
    {
      owners, messages := map[], map[];
    }

    /** `row` is the next rowid and the ids are new uuids; the check and both inserts commit together. */
    method CreateTurn(conversation: string, caller: Option<string>, row: int, userId: string, assistantId: string,
                      content: string, now: int) returns (outcome: TurnOutcome)
      requires NextRow(messages, row)
      modifies this`messages
      ensures outcome == NotFound <==> conversation !in owners || (caller.Some? && owners[conversation] != caller.value)
      ensures outcome == AlreadyActive <==> outcome != NotFound && Busy(old(messages), conversation)
      ensures messages == if outcome == Created
                          then AddTurn(old(messages), row, conversation, userId, assistantId, content, now)
                          else old(messages)
    {
      if conversation !in owners || (caller.Some? && owners[conversation] != caller.value) {
        return NotFound;
      }
      if Busy(messages, conversation) {
        return AlreadyActive;
      }
      messages := messages[row := Message(userId, conversation, User, content, Completed, false, "", now)];
      messages := messages[row + 1 := Message(assistantId, conversation, Assistant, "", Queued, false, "", now + GAP)];
      return Created;
    }

    method ClaimNext() returns (row: Option<int>)
      modifies this`messages
      ensures row.None? ==> messages == old(messages)
      ensures row.None? ==> forall j | j in messages :: !(messages[j].role == Assistant && messages[j].state == Queued)
      ensures row.Some? ==> OldestQueued(old(messages), row.value)
      ensures row.Some? ==> messages == old(messages)[row.value := old(messages)[row.value].(state := Running)]
    {
      var queued := set j | j in messages && messages[j].role == Assistant && messages[j].state == Queued;
      if queued == {} {
        assert forall j | j in messages && messages[j].role == Assistant && messages[j].state == Queued :: j in queued;
        return None;
      }
      FirstExists(messages, queued);
      var j :| j in queued && First(messages, queued, j);
      messages := messages[j := messages[j].(state := Running)];
      return Some(j);
    }

    method PrecedingUserMessage(row: int) returns (found: Option<int>)
      requires row in messages
      ensures found.None? <==> forall i | i in messages :: !EarlierUser(messages, row, i)
      ensures found.Some? ==> Preceding(messages, row, found.value)
    {
      var earlier := set i | i in messages && EarlierUser(messages, row, i);
      if earlier == {} {
        assert forall i | i in messages && EarlierUser(messages, row, i) :: i in earlier;
        return None;
      }
      LatestExists(messages, earlier);
      var i :| i in earlier && Latest(messages, earlier, i);
      return Some(i);
    }

    method FinishTurn(id: string, content: string, outcome: MessageState, error: string)
      modifies this`messages
      ensures messages == FinishMessage(old(messages), id, content, outcome, error)
    {
      messages := FinishMessage(messages, id, content, outcome, error);
    }

    method CancelTurn(id: string)
      modifies this`messages
      ensures messages == FlagCancel(old(messages), id)
    {
      messages := FlagCancel(messages, id);
    }

    method RecoverTurns() returns (count: nat)
      modifies this`messages
      ensures messages == Recover(old(messages))
      ensures count == |set j | j in old(messages) && old(messages)[j].role == Assistant && old(messages)[j].state == Running|
    {
      count := |set j | j in messages && messages[j].role == Assistant && messages[j].state == Running|;
      messages := Recover(messages);
    }
  }

  datatype TurnOutcome = Created | NotFound | AlreadyActive

  predicate First(ms: Messages, rows: set<int>, j: int)
    requires rows <= ms.Keys
  {
    j in rows && forall k | k in rows :: ms[j].created <= ms[k].created
  }

  predicate Latest(ms: Messages, rows: set<int>, i: int)
    requires rows <= ms.Keys
  {
    i in rows && forall k | k in rows :: ms[k].created < ms[i].created || (ms[k].created == ms[i].created && k <= i)
  }

  lemma {:induction false} FirstExists(ms: Messages, rows: set<int>)
    requires rows <= ms.Keys && rows != {}
    ensures exists j :: First(ms, rows, j)
    decreases |rows|
  {
    HasElement(rows);
    var j :| j in rows;
    var others := rows - {j};
    if others == {} {
      assert rows == {j};
      assert First(ms, rows, j);
    } else {
      FirstExists(ms, others);
      var best :| First(ms, others, best);
      assert forall k | k in rows :: k == j || k in others;
      assert First(ms, rows, if ms[j].created <= ms[best].created then j else best);
    }
  }

  lemma {:induction false} LatestExists(ms: Messages, rows: set<int>)
    requires rows <= ms.Keys && rows != {}
    ensures exists i :: Latest(ms, rows, i)
    decreases |rows|
  {
    HasElement(rows);
    var i :| i in rows;
    var others := rows - {i};
    if others == {} {
      assert rows == {i};
      assert Latest(ms, rows, i);
    } else {
      LatestExists(ms, others);
      var best :| Latest(ms, others, best);
      assert forall k | k in rows :: k == i || k in others;
      var later := ms[i].created > ms[best].created || (ms[i].created == ms[best].created && i > best);
      assert Latest(ms, rows, if later then i else best);
    }
  }
}
