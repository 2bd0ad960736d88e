// Realtime chat and task events written into the cache: streamed task messages,
// the pending task of a chat session, and finished answers.

module Realtime {
  import opened Options
  import opened Seqs
  import opened Sorting

  datatype TaskMessage = TaskMessage(taskId: string, number: int, kind: string, content: string)

  datatype ChatMessage = ChatMessage(id: string, taskId: string, content: string, createdAt: string)

  datatype Status = Queued | Running | WaitingLocalDirectory

  /** `{}` when nothing is pending. */
  datatype Pending = Pending(taskId: Option<string>, status: Option<Status>, createdAt: Option<string>)

  const PROGRESS := "progress"
  const ROW_QUEUED := "Task queued"
  const ROW_DISPATCHED := "Task dispatched to runtime"
  const ROW_STARTED := "Runtime started task"
  const ROW_WAITING := "Waiting for local directory"

  const NOTHING_PENDING := Pending(None, None, None)

  datatype State = State(
    taskMessages: map<string, seq<TaskMessage>>,
    pending: map<string, Pending>,
    messages: map<string, seq<ChatMessage>>)

  datatype Event =
    | TaskMessageArrived(m: TaskMessage)
    | TaskQueued(taskId: string, session: string)
    | TaskDispatch(taskId: string, session: string)
    | TaskRunning(taskId: string, session: string)
    | TaskWaiting(taskId: string, session: string)
    | TaskCancelled(taskId: string, session: string)
    | TaskFailed(taskId: string, session: string)
    | TaskCompleted(taskId: string, session: string)
    | ChatDone(session: string, taskId: string, messageId: string, content: Option<string>, createdAt: string)

  predicate BySeq(a: TaskMessage, b: TaskMessage) {
    a.number < b.number
  }

  const NUMBER_OF: TaskMessage -> int := (x: TaskMessage) => x.number

  function MessagesOf(s: State, taskId: string): seq<TaskMessage> {
    if taskId in s.taskMessages then s.taskMessages[taskId] else []
  }

  /** A streamed row is new unless its sequence number is taken. */
  function Streamed(s: State, m: TaskMessage): State {
    s.(taskMessages := s.taskMessages[m.taskId := AddOnce(NUMBER_OF, BySeq, MessagesOf(s, m.taskId), m)])
  }

  /** The row stands for this stage of the task. */
  predicate IsStage(m: TaskMessage, number: int, content: string) {
    m.number == number && m.kind == PROGRESS && m.content == content
  }

  function StageOf(number: int, content: string): TaskMessage -> bool {
    (m: TaskMessage) => IsStage(m, number, content)
  }

  /** A lifecycle row is new unless the very same row is there. */
  function LifecycleRows(rows: seq<TaskMessage>, taskId: string, number: int, content: string): seq<TaskMessage> {
    if Any(StageOf(number, content), rows) then rows
    else SortBy(BySeq, rows + [TaskMessage(taskId, number, PROGRESS, content)])
  }

  function WithRows(s: State, taskId: string, rows: seq<TaskMessage>): State {
    s.(taskMessages := s.taskMessages[taskId := rows])
  }

  function WithLifecycle(s: State, taskId: string, number: int, content: string): State {
    WithRows(s, taskId, LifecycleRows(MessagesOf(s, taskId), taskId, number, content))
  }

  function WithQueued(s: State, taskId: string, session: string): State {
    if session == "" then s
    else
      var prev := if session in s.pending then s.pending[session] else NOTHING_PENDING;
      s.(pending := s.pending[session := prev.(taskId := Some(taskId), status := Some(Queued))])
  }

  /** Only the held task may move on. */
  function WithStatus(s: State, taskId: string, session: string, status: Status): State {
    if session != "" && session in s.pending && s.pending[session].taskId == Some(taskId)
    then s.(pending := s.pending[session := s.pending[session].(status := Some(status))])
    else s
  }

  function WithCleared(s: State, session: string): State {
    s.(pending := s.pending[session := NOTHING_PENDING])
  }

  /** The finished answer is added once, to a list that is already loaded. */
  function WithAnswer(s: State, session: string, taskId: string, messageId: string, content: Option<string>,
                      createdAt: string): State {
    if messageId != "" && content.Some? && session in s.messages
       && !Any((m: ChatMessage) => m.id == messageId, s.messages[session])
    then
      var answer := ChatMessage(messageId, taskId, content.value, createdAt);
      s.(messages := s.messages[session := s.messages[session] + [answer]])
    else s
  }

  function Step(s: State, e: Event): State {
    match e
    case TaskMessageArrived(m) => Streamed(s, m)
    case TaskQueued(t, c) => WithQueued(WithLifecycle(s, t, 0, ROW_QUEUED), t, c)
    case TaskDispatch(t, c) => WithStatus(WithLifecycle(s, t, 1, ROW_DISPATCHED), t, c, Running)
    case TaskRunning(t, c) => WithStatus(WithLifecycle(s, t, 2, ROW_STARTED), t, c, Running)
    case TaskWaiting(t, c) => WithStatus(WithLifecycle(s, t, 2, ROW_WAITING), t, c, WaitingLocalDirectory)
    case TaskCancelled(_, c) => if c == "" then s else WithCleared(s, c)
    case TaskFailed(_, c) => if c == "" then s else WithCleared(s, c)
    case TaskCompleted(_, _) => s
    case ChatDone(c, t, id, content, at) => WithCleared(WithAnswer(s, c, t, id, content, at), c)
  }

  lemma LifecycleKeepsRest(s: State, taskId: string, number: int, content: string)
    ensures WithLifecycle(s, taskId, number, content).pending == s.pending
    ensures WithLifecycle(s, taskId, number, content).messages == s.messages
  {
    RowsKeepRest(s, taskId, LifecycleRows(MessagesOf(s, taskId), taskId, number, content));
  }

  lemma RowsKeepRest(s: State, taskId: string, rows: seq<TaskMessage>)
    ensures WithRows(s, taskId, rows).pending == s.pending && WithRows(s, taskId, rows).messages == s.messages
  {
  }

  /** Lifecycle rows aside, an event acts on the pending entries and the answers only. */
  function PendingStep(s: State, e: Event): map<string, Pending> {
    match e
    case TaskQueued(t, c) => WithQueued(s, t, c).pending
    case TaskDispatch(t, c) => WithStatus(s, t, c, Running).pending
    case TaskRunning(t, c) => WithStatus(s, t, c, Running).pending
    case TaskWaiting(t, c) => WithStatus(s, t, c, WaitingLocalDirectory).pending
    case TaskCancelled(_, c) => if c == "" then s.pending else s.pending[c := NOTHING_PENDING]
    case TaskFailed(_, c) => if c == "" then s.pending else s.pending[c := NOTHING_PENDING]
    case ChatDone(c, _, _, _, _) => s.pending[c := NOTHING_PENDING]
    case _ => s.pending
  }

  lemma QueuedRest(s: State, taskId: string, session: string, row: string)
    ensures var after := WithQueued(WithLifecycle(s, taskId, 0, row), taskId, session);
      after.pending == WithQueued(s, taskId, session).pending && after.messages == s.messages
  {
    LifecycleKeepsRest(s, taskId, 0, row);
  }

  lemma AdvancedRest(s: State, taskId: string, session: string, number: int, row: string, status: Status)
    ensures var after := WithStatus(WithLifecycle(s, taskId, number, row), taskId, session, status);
      after.pending == WithStatus(s, taskId, session, status).pending && after.messages == s.messages
  {
    LifecycleKeepsRest(s, taskId, number, row);
  }

  lemma StepRest(s: State, e: Event)
    ensures !e.ChatDone? ==> Step(s, e).messages == s.messages
    ensures Step(s, e).pending == PendingStep(s, e)
  {
    match e
    case TaskQueued(t, c) => QueuedRest(s, t, c, ROW_QUEUED);
    case TaskDispatch(t, c) => AdvancedRest(s, t, c, 1, ROW_DISPATCHED, Running);
    case TaskRunning(t, c) => AdvancedRest(s, t, c, 2, ROW_STARTED, Running);
    case TaskWaiting(t, c) => AdvancedRest(s, t, c, 2, ROW_WAITING, WaitingLocalDirectory);
    case _ =>
  }

  /** Events newest last. */
  function Run(s: State, events: seq<Event>): State {
    if events == [] then s else Step(Run(s, events[..|events| - 1]), events[|events| - 1])
  }

  class Sync {
    var taskMessages: map<string, seq<TaskMessage>>
    var pending: map<string, Pending>
    var messages: map<string, seq<ChatMessage>>

    function View(): State
      reads this
    {
      State(taskMessages, pending, messages)
    }

    constructor (messages: map<string, seq<ChatMessage>>)
      ensures View() == State(map[], map[], messages)
    {
      taskMessages, pending, this.messages := map[], map[], messages;
    }

    method OnTaskMessage(m: TaskMessage)
      modifies this
      ensures View() == Step(old(View()), TaskMessageArrived(m))
    {
      var rows := MessagesOf(View(), m.taskId);
      if !Any((x: TaskMessage) => x.number == m.number, rows) {
        rows := SortBy(BySeq, rows + [m]);
      }
      taskMessages := taskMessages[m.taskId := rows];
    }

    method AppendTaskLifecycleMessage(taskId: string, number: int, content: string)
      modifies this`taskMessages
      ensures View() == WithLifecycle(old(View()), taskId, number, content)
    {
      var rows := MessagesOf(View(), taskId);
      if !Any(StageOf(number, content), rows) {
        rows := SortBy(BySeq, rows + [TaskMessage(taskId, number, PROGRESS, content)]);
      }
      taskMessages := taskMessages[taskId := rows];
    }

    method OnTaskQueued(taskId: string, session: string)
      modifies this
      ensures View() == Step(old(View()), TaskQueued(taskId, session))
    {
      AppendTaskLifecycleMessage(taskId, 0, ROW_QUEUED);
      if session == "" { return; }
      var prev := if session in pending then pending[session] else NOTHING_PENDING;
      pending := pending[session := prev.(taskId := Some(taskId), status := Some(Queued))];
    }

    method MoveHeldTask(taskId: string, session: string, status: Status)
      modifies this`pending
      ensures View() == WithStatus(old(View()), taskId, session, status)
    {
      if session == "" { return; }
      if session !in pending || pending[session].taskId != Some(taskId) { return; }
      pending := pending[session := pending[session].(status := Some(status))];
    }

    method OnTaskDispatch(taskId: string, session: string)
      modifies this
      ensures View() == Step(old(View()), TaskDispatch(taskId, session))
    {
      AppendTaskLifecycleMessage(taskId, 1, ROW_DISPATCHED);
      MoveHeldTask(taskId, session, Running);
    }

    method OnTaskRunning(taskId: string, session: string)
      modifies this
      ensures View() == Step(old(View()), TaskRunning(taskId, session))
    {
      AppendTaskLifecycleMessage(taskId, 2, ROW_STARTED);
      MoveHeldTask(taskId, session, Running);
    }

    method OnTaskWaitingLocalDirectory(taskId: string, session: string)
      modifies this
      ensures View() == Step(old(View()), TaskWaiting(taskId, session))
    {
      AppendTaskLifecycleMessage(taskId, 2, ROW_WAITING);
      MoveHeldTask(taskId, session, WaitingLocalDirectory);
    }

    method OnTaskCancelled(taskId: string, session: string)
      modifies this
      ensures View() == Step(old(View()), TaskCancelled(taskId, session))
    {
      if session == "" { return; }
      pending := pending[session := NOTHING_PENDING];
    }

    method OnTaskFailed(taskId: string, session: string)
      modifies this
      ensures View() == Step(old(View()), TaskFailed(taskId, session))
    {
      if session == "" { return; }
      pending := pending[session := NOTHING_PENDING];
    }

    method ApplyChatDone(session: string, taskId: string, messageId: string, content: Option<string>, createdAt: string)
      modifies this
      ensures View() == Step(old(View()), ChatDone(session, taskId, messageId, content, createdAt))
    {
      if messageId != "" && content.Some? {
        var assistant := ChatMessage(messageId, taskId, content.value, createdAt);
        if session in messages && !Any((m: ChatMessage) => m.id == messageId, messages[session]) {
          messages := messages[session := messages[session] + [assistant]];
        }
      }
      pending := pending[session := NOTHING_PENDING];
    }
  }

  // ----- What an event leaves alone -----

  /** The number and text of the row that a lifecycle event reports. */
  function StageReported(e: Event): Option<(int, string)> {
    match e
    case TaskQueued(_, _) => Some((0, "Task queued"))
    case TaskDispatch(_, _) => Some((1, "Task dispatched to runtime"))
    case TaskRunning(_, _) => Some((2, "Runtime started task"))
    case TaskWaiting(_, _) => Some((2, "Waiting for local directory"))
    case _ => None
  }

  predicate Reports(m: TaskMessage, number: int, content: string) {
    m.number == number && m.kind == "progress" && m.content == content
  }

  /** A lifecycle event leaves the row of its stage with its task, where no such row was before, and keeps all rows
      there; the rows of other tasks change only by streamed messages of theirs. */
  lemma StageIsReported(s: State, e: Event, taskId: string)
    ensures var before, after := MessagesOf(s, taskId), MessagesOf(Step(s, e), taskId);
      if StageReported(e).Some? && e.taskId == taskId then
        var (number, content) := StageReported(e).value;
        if exists m :: m in before && Reports(m, number, content) then after == before
        else multiset(after) == multiset(before + [TaskMessage(taskId, number, "progress", content)])
      else if e.TaskMessageArrived? && e.m.taskId == taskId then
        if exists m :: m in before && m.number == e.m.number then after == before
        else multiset(after) == multiset(before + [e.m])
      else after == before
  {
    var before := MessagesOf(s, taskId);
    if StageReported(e).Some? && e.taskId == taskId {
      var (number, content) := StageReported(e).value;
      RowsAfterStage(s, e, number, content);
      LifecycleAdds(before, taskId, number, content);
    } else if e.TaskMessageArrived? {
      StreamedAdds(before, e.m);
    } else {
      OtherRowsStay(s, e, taskId);
    }
  }

  lemma RowsAfterStage(s: State, e: Event, number: int, content: string)
    requires StageReported(e) == Some((number, content))
    ensures MessagesOf(Step(s, e), e.taskId) == LifecycleRows(MessagesOf(s, e.taskId), e.taskId, number, content)
  {
  }

  lemma OtherRowsStay(s: State, e: Event, taskId: string)
    requires !e.TaskMessageArrived? && (StageReported(e).Some? ==> e.taskId != taskId)
    ensures MessagesOf(Step(s, e), taskId) == MessagesOf(s, taskId)
  {
  }

  lemma LifecycleAdds(rows: seq<TaskMessage>, taskId: string, number: int, content: string)
    ensures var after := LifecycleRows(rows, taskId, number, content);
      if exists m :: m in rows && Reports(m, number, content) then after == rows
      else multiset(after) == multiset(rows + [TaskMessage(taskId, number, "progress", content)])
  {
    if m :| m in rows && Reports(m, number, content) {
      var i :| 0 <= i < |rows| && rows[i] == m;
      assert StageOf(number, content)(rows[i]);
    } else {
      assert forall i :: 0 <= i < |rows| ==> rows[i] in rows;
    }
    SortPermutes(BySeq, rows + [TaskMessage(taskId, number, PROGRESS, content)]);
  }

  lemma StreamedAdds(rows: seq<TaskMessage>, m: TaskMessage)
    ensures var after := AddOnce(NUMBER_OF, BySeq, rows, m);
      if exists x :: x in rows && x.number == m.number then after == rows
      else multiset(after) == multiset(rows + [m])
  {
    if x :| x in rows && x.number == m.number {
      var i :| 0 <= i < |rows| && rows[i] == x;
    } else {
      assert forall i :: 0 <= i < |rows| ==> rows[i] in rows;
    }
    SortPermutes(BySeq, rows + [m]);
  }

  /** The pending entries and answers of other sessions stay as they are; a clear empties the entry, and every other
      event keeps the time at which the session's task was created. */
  lemma OtherSessionsStay(s: State, e: Event, session: string)
    ensures !e.TaskMessageArrived? && e.session == session ==>
      && Step(s, e).pending - {session} == s.pending - {session}
      && Step(s, e).messages - {session} == s.messages - {session}
    ensures e.TaskMessageArrived? ==> Step(s, e).pending == s.pending && Step(s, e).messages == s.messages
    ensures CreatedAt(Step(s, e), session) == if Clears(e, session) then None else CreatedAt(s, session)
    ensures Clears(e, session) ==>
      session in Step(s, e).pending && Step(s, e).pending[session] == Pending(None, None, None)
  {
    StepRest(s, e);
    PendingElsewhere(s, e, session);
  }

  function CreatedAt(s: State, session: string): Option<string> {
    if session in s.pending then s.pending[session].createdAt else None
  }

  lemma PendingElsewhere(s: State, e: Event, session: string)
    ensures !e.TaskMessageArrived? && e.session == session ==> PendingStep(s, e) - {session} == s.pending - {session}
    ensures (if session in PendingStep(s, e) then PendingStep(s, e)[session].createdAt else None)
      == if Clears(e, session) then None else CreatedAt(s, session)
  {
  }

  /** A finished answer goes to the end of its session's list exactly when it has an id and content, the list is
      loaded and holds no message of that id; otherwise no list changes. */
  lemma AnswerIsAdded(s: State, c: string, t: string, id: string, content: string, at: string)
    ensures var after := Step(s, ChatDone(c, t, id, Some(content), at)).messages;
      if id != "" && c in s.messages && forall m :: m in s.messages[c] ==> m.id != id
      then after == s.messages[c := s.messages[c] + [ChatMessage(id, t, content, at)]]
      else after == s.messages
    ensures Step(s, ChatDone(c, t, id, None, at)).messages == s.messages
  {
    if c in s.messages { assert forall i :: 0 <= i < |s.messages[c]| ==> s.messages[c][i] in s.messages[c]; }
  }

  // ----- Streamed messages converge -----

  function ArrivedFor(events: seq<Event>, taskId: string): seq<TaskMessage> {
    if events == [] then []
    else
      var n := |events| - 1;
      ArrivedFor(events[..n], taskId)
      + if events[n].TaskMessageArrived? && events[n].m.taskId == taskId then [events[n].m] else []
  }

  /** After streamed messages only, each task's list is its old list with each of its messages admitted once. */
  lemma {:induction false} StreamedListIs(s: State, events: seq<Event>, taskId: string)
    requires forall e :: e in events ==> e.TaskMessageArrived?
    ensures MessagesOf(Run(s, events), taskId)
      == AddAll(NUMBER_OF, BySeq, MessagesOf(s, taskId), ArrivedFor(events, taskId))
  {
    if events != [] {
      var n := |events| - 1;
      StreamedListIs(s, events[..n], taskId);
      if events[n].m.taskId == taskId {
        AddAllSnoc(NUMBER_OF, BySeq, MessagesOf(s, taskId), ArrivedFor(events[..n], taskId), events[n].m);
      } else {
        assert ArrivedFor(events, taskId) == ArrivedFor(events[..n], taskId);
      }
    }
  }

  lemma {:induction false} ArrivedAre(events: seq<Event>, taskId: string, m: TaskMessage)
    ensures m in ArrivedFor(events, taskId) <==> TaskMessageArrived(m) in events && m.taskId == taskId
  {
    if events != [] {
      var n := |events| - 1;
      ArrivedAre(events[..n], taskId, m);
      assert events == events[..n] + [events[n]];
    }
  }

  /** No row of the list has the number. */
  predicate NumberFree(rows: seq<TaskMessage>, number: int) {
    !Any((m: TaskMessage) => m.number == number, rows)
  }

  predicate Increasing(rows: seq<TaskMessage>) {
    forall i, j :: 0 <= i < j < |rows| ==> rows[i].number < rows[j].number
  }

  /** The same streamed messages in any order and any number of times give the same list for every task, on top
      of whatever rows are there: the list is in sequence order, the old rows keep theirs, and exactly the
      messages whose number no old row has are added, once each. */
  lemma StreamsConverge(s: State, xs: seq<Event>, ys: seq<Event>, taskId: string)
    requires forall e :: e in xs ==> e.TaskMessageArrived?
    requires forall e :: e in xs <==> e in ys
    requires Sorted(BySeq, MessagesOf(s, taskId)) && OnePerKey(NUMBER_OF, ArrivedFor(xs, taskId))
    ensures MessagesOf(Run(s, xs), taskId) == MessagesOf(Run(s, ys), taskId)
    ensures var rows, r := MessagesOf(s, taskId), MessagesOf(Run(s, xs), taskId);
      && Sorted(BySeq, r)
      && Filter((m: TaskMessage) => !NumberFree(rows, m.number), r) == rows
      && Increasing(Filter((m: TaskMessage) => NumberFree(rows, m.number), r))
      && forall m :: m in r <==>
           m in rows || (TaskMessageArrived(m) in xs && m.taskId == taskId && NumberFree(rows, m.number))
  {
    var rows := MessagesOf(s, taskId);
    StreamedListIs(s, xs, taskId);
    StreamedListIs(s, ys, taskId);
    forall m ensures m in ArrivedFor(xs, taskId) <==> m in ArrivedFor(ys, taskId)
      ensures m in ArrivedFor(xs, taskId) <==> TaskMessageArrived(m) in xs && m.taskId == taskId
    {
      ArrivedAre(xs, taskId, m);
      ArrivedAre(ys, taskId, m);
    }
    BySeqOrders();
    ConvergenceOver(NUMBER_OF, BySeq, rows, ArrivedFor(xs, taskId), ArrivedFor(ys, taskId));
    var r := MessagesOf(Run(s, xs), taskId);
    FreeIsFresh(rows, r);
    FreshIncrease(rows, r);
  }

  lemma FreeIsFresh(rows: seq<TaskMessage>, r: seq<TaskMessage>)
    ensures Filter((m: TaskMessage) => !NumberFree(rows, m.number), r) == Filter(TakenIn(NUMBER_OF, rows), r)
    ensures Filter((m: TaskMessage) => NumberFree(rows, m.number), r) == Filter(FreshTo(NUMBER_OF, rows), r)
    ensures forall m: TaskMessage :: NumberFree(rows, m.number) == FreshTo(NUMBER_OF, rows)(m)
  {
    FilterAgree((m: TaskMessage) => !NumberFree(rows, m.number), TakenIn(NUMBER_OF, rows), r);
    FilterAgree((m: TaskMessage) => NumberFree(rows, m.number), FreshTo(NUMBER_OF, rows), r);
  }

  lemma FreshIncrease(rows: seq<TaskMessage>, r: seq<TaskMessage>)
    requires Sorted(BySeq, r) && DistinctKeys(NUMBER_OF, Filter(FreshTo(NUMBER_OF, rows), r))
    ensures Increasing(Filter(FreshTo(NUMBER_OF, rows), r))
  {
    var f := Filter(FreshTo(NUMBER_OF, rows), r);
    BySeqOrders();
    SortOfSorted(BySeq, r);
    SortFilter(BySeq, FreshTo(NUMBER_OF, rows), r);
    SortSorts(BySeq, f);
    forall i, j | 0 <= i < j < |f| ensures f[i].number < f[j].number {
      assert NUMBER_OF(f[i]) != NUMBER_OF(f[j]) && !BySeq(f[j], f[i]);
    }
  }

  /** When the old rows have distinct numbers, so has the list: it increases strictly. */
  lemma StreamsIncrease(s: State, xs: seq<Event>, taskId: string)
    requires forall e :: e in xs ==> e.TaskMessageArrived?
    requires Increasing(MessagesOf(s, taskId)) && OnePerKey(NUMBER_OF, ArrivedFor(xs, taskId))
    ensures Increasing(MessagesOf(Run(s, xs), taskId))
  {
    var rows, r := MessagesOf(s, taskId), MessagesOf(Run(s, xs), taskId);
    StreamsConverge(s, xs, xs, taskId);
    MergedIncreases(rows, r);
  }

  lemma MergedIncreases(rows: seq<TaskMessage>, r: seq<TaskMessage>)
    requires Sorted(BySeq, r) && Increasing(rows)
    requires Filter((m: TaskMessage) => !NumberFree(rows, m.number), r) == rows
    requires Increasing(Filter((m: TaskMessage) => NumberFree(rows, m.number), r))
    ensures Increasing(r)
  {
    forall i, j | 0 <= i < j < |r| ensures r[i].number < r[j].number {
      var p := (m: TaskMessage) => NumberFree(rows, m.number) == NumberFree(rows, r[i].number);
      assert !BySeq(r[j], r[i]);
      if r[i].number == r[j].number {
        if NumberFree(rows, r[i].number) {
          FilterAgree(p, (m: TaskMessage) => NumberFree(rows, m.number), r);
        } else {
          FilterAgree(p, (m: TaskMessage) => !NumberFree(rows, m.number), r);
        }
        TwoOfFiltered(p, r, i, j);
      }
    }
  }

  lemma TwoOfFiltered(p: TaskMessage -> bool, r: seq<TaskMessage>, i: nat, j: nat)
    requires i < j < |r| && p(r[i]) && p(r[j]) && Increasing(Filter(p, r))
    ensures r[i].number < r[j].number
  {
    assert r == r[..j] + r[j..];
    FilterConcat(p, r[..j], r[j..]);
    assert r[..j][i] == r[i] && r[j..][0] == r[j];
    assert r[i] in Filter(p, r[..j]) && r[j] in Filter(p, r[j..]);
    IncreasingAcross(Filter(p, r[..j]), Filter(p, r[j..]), r[i], r[j]);
  }

  lemma IncreasingAcross(a: seq<TaskMessage>, b: seq<TaskMessage>, x: TaskMessage, y: TaskMessage)
    requires Increasing(a + b) && x in a && y in b
    ensures x.number < y.number
  {
    var k :| 0 <= k < |a| && a[k] == x;
    var l :| 0 <= l < |b| && b[l] == y;
    assert (a + b)[k] == x && (a + b)[|a| + l] == y;
  }

  // ----- Lifecycle rows -----

  lemma BySeqOrders()
    ensures StrictWeak(BySeq) && KeysDecide(NUMBER_OF, BySeq)
  {
  }

  /** A lifecycle event leaves its row behind once, however often it is replayed, and all other rows in their order. */
  lemma LifecycleRowsOnce(rows: seq<TaskMessage>, taskId: string, number: int, content: string)
    requires Sorted(BySeq, rows)
    ensures var after := LifecycleRows(rows, taskId, number, content);
      && Sorted(BySeq, after)
      && (exists m :: m in after && IsStage(m, number, content))
      && LifecycleRows(after, taskId, number, content) == after
      && Filter(OtherThan(number, content), after) == Filter(OtherThan(number, content), rows)
  {
    if !Any(StageOf(number, content), rows) {
      var row := TaskMessage(taskId, number, PROGRESS, content);
      var after := SortBy(BySeq, rows + [row]);
      BySeqOrders();
      SortSorts(BySeq, rows + [row]);
      OthersKeepOrder(rows, row, OtherThan(number, content));
      assert row in rows + [row];
      StageIsFound(after, taskId, number, content, row);
    } else {
      var i :| 0 <= i < |rows| && IsStage(rows[i], number, content);
      StageIsFound(rows, taskId, number, content, rows[i]);
    }
  }

  function OtherThan(number: int, content: string): TaskMessage -> bool {
    (m: TaskMessage) => !IsStage(m, number, content)
  }

  lemma StageIsFound(rows: seq<TaskMessage>, taskId: string, number: int, content: string, m: TaskMessage)
    requires m in rows && IsStage(m, number, content)
    ensures exists x :: x in rows && IsStage(x, number, content)
    ensures LifecycleRows(rows, taskId, number, content) == rows
  {
    var i :| 0 <= i < |rows| && rows[i] == m;
  }

  lemma OthersKeepOrder(rows: seq<TaskMessage>, row: TaskMessage, other: TaskMessage -> bool)
    requires Sorted(BySeq, rows) && !other(row)
    ensures Filter(other, SortBy(BySeq, rows + [row])) == Filter(other, rows)
  {
    BySeqOrders();
    SortFilter(BySeq, other, rows + [row]);
    OthersOnly(rows, row, other);
    SortFilter(BySeq, other, rows);
    SortOfSorted(BySeq, rows);
  }

  lemma OthersOnly(rows: seq<TaskMessage>, row: TaskMessage, other: TaskMessage -> bool)
    requires !other(row)
    ensures Filter(other, rows + [row]) == Filter(other, rows)
  {
    FilterConcat(other, rows, [row]);
    assert Filter(other, [row]) == [];
    assert Filter(other, rows) + [] == Filter(other, rows);
  }

  /** A streamed and a lifecycle event may come in either order exactly when one of them has nothing to add, or
      they claim different numbers, or they bring the very same row: otherwise a lifecycle row that comes first
      hides the streamed row of its number. */
  lemma LifecycleCommutesIff(rows: seq<TaskMessage>, taskId: string, number: int, content: string, m: TaskMessage)
    requires Sorted(BySeq, rows)
    ensures LifecycleRows(AddOnce(NUMBER_OF, BySeq, rows, m), taskId, number, content)
        == AddOnce(NUMBER_OF, BySeq, LifecycleRows(rows, taskId, number, content), m)
      <==> || Any(StageOf(number, content), rows) || !NumberFree(rows, m.number)
           || m.number != number || m == TaskMessage(taskId, number, PROGRESS, content)
  {
    var row := TaskMessage(taskId, number, PROGRESS, content);
    if Any(StageOf(number, content), rows) {
      var i :| 0 <= i < |rows| && StageOf(number, content)(rows[i]);
      AddOnceHolds(rows, m, rows[i]);
      StageIsFound(AddOnce(NUMBER_OF, BySeq, rows, m), taskId, number, content, rows[i]);
    } else if !NumberFree(rows, m.number) {
      var i :| 0 <= i < |rows| && rows[i].number == m.number;
      KeyTaken(rows, rows[i], m);
      assert rows[i] in rows + [row];
      KeyTaken(SortBy(BySeq, rows + [row]), rows[i], m);
    } else if m.number == number {
      SameNumberClash(rows, taskId, number, content, m);
    } else {
      DifferentNumbersSwap(rows, taskId, number, content, m);
    }
  }

  lemma SameNumberClash(rows: seq<TaskMessage>, taskId: string, number: int, content: string, m: TaskMessage)
    requires NumberFree(rows, number) && m.number == number
    ensures LifecycleRows(AddOnce(NUMBER_OF, BySeq, rows, m), taskId, number, content)
        == AddOnce(NUMBER_OF, BySeq, LifecycleRows(rows, taskId, number, content), m)
      <==> m == TaskMessage(taskId, number, PROGRESS, content)
  {
    var row := TaskMessage(taskId, number, PROGRESS, content);
    var added := SortBy(BySeq, rows + [row]);
    HeldNumberIsTaken(rows, m);
    assert row in rows + [row] && row in added;
    KeyTaken(added, row, m);
    assert m in rows + [m];
    AddOnceHolds(rows, m, m);
    LifecycleKeepsRow(AddOnce(NUMBER_OF, BySeq, rows, m), taskId, number, content, m);
  }

  lemma DifferentNumbersSwap(rows: seq<TaskMessage>, taskId: string, number: int, content: string, m: TaskMessage)
    requires Sorted(BySeq, rows) && !Any(StageOf(number, content), rows) && NumberFree(rows, m.number)
    requires m.number != number
    ensures LifecycleRows(AddOnce(NUMBER_OF, BySeq, rows, m), taskId, number, content)
      == AddOnce(NUMBER_OF, BySeq, LifecycleRows(rows, taskId, number, content), m)
  {
    var row := TaskMessage(taskId, number, PROGRESS, content);
    var withM, withRow := SortBy(BySeq, rows + [m]), SortBy(BySeq, rows + [row]);
    StillMissing(rows, withM, m, StageOf(number, content));
    StillMissing(rows, withRow, row, (x: TaskMessage) => x.number == m.number);
    FreeIsAdded(rows, m);
    FreeIsAdded(withRow, m);
    SortedSwap(rows, m, row);
  }

  lemma FreeIsAdded(rows: seq<TaskMessage>, m: TaskMessage)
    requires NumberFree(rows, m.number)
    ensures AddOnce(NUMBER_OF, BySeq, rows, m) == SortBy(BySeq, rows + [m])
  {
  }

  lemma SortedSwap(rows: seq<TaskMessage>, x: TaskMessage, y: TaskMessage)
    requires Sorted(BySeq, rows) && x.number != y.number
    ensures SortBy(BySeq, SortBy(BySeq, rows + [x]) + [y]) == SortBy(BySeq, SortBy(BySeq, rows + [y]) + [x])
  {
    BySeqOrders();
    AppendSorted(BySeq, rows, x);
    AppendSorted(BySeq, rows, y);
    AppendSorted(BySeq, Insert(BySeq, x, rows), y);
    AppendSorted(BySeq, Insert(BySeq, y, rows), x);
    if x.number < y.number { InsertSwap(BySeq, x, y, rows); } else { InsertSwap(BySeq, y, x, rows); }
  }

  lemma HeldNumberIsTaken(rows: seq<TaskMessage>, m: TaskMessage)
    ensures m in rows ==> !NumberFree(rows, m.number)
  {
    if m in rows {
      var i :| 0 <= i < |rows| && rows[i] == m;
    }
  }

  lemma StillMissing(rows: seq<TaskMessage>, more: seq<TaskMessage>, x: TaskMessage, p: TaskMessage -> bool)
    requires !Any(p, rows) && !p(x) && forall y :: y in more ==> y == x || y in rows
    ensures !Any(p, more)
  {
    forall i | 0 <= i < |more| ensures !p(more[i]) {
      assert more[i] in more;
    }
  }

  lemma AddOnceHolds(rows: seq<TaskMessage>, m: TaskMessage, x: TaskMessage)
    requires x in rows || (x == m && NumberFree(rows, m.number))
    ensures x in AddOnce(NUMBER_OF, BySeq, rows, m)
  {
    assert x in rows + [m] by { assert m in rows + [m]; }
  }

  lemma LifecycleKeepsRow(rows: seq<TaskMessage>, taskId: string, number: int, content: string, m: TaskMessage)
    requires m in rows
    ensures m in LifecycleRows(rows, taskId, number, content)
    ensures m == TaskMessage(taskId, number, PROGRESS, content) ==> LifecycleRows(rows, taskId, number, content) == rows
  {
    var i :| 0 <= i < |rows| && rows[i] == m;
    assert m in rows + [TaskMessage(taskId, number, PROGRESS, content)];
  }

  lemma KeyTaken(rows: seq<TaskMessage>, row: TaskMessage, m: TaskMessage)
    requires row in rows && row.number == m.number
    ensures AddOnce(NUMBER_OF, BySeq, rows, m) == rows
  {
    var i :| 0 <= i < |rows| && rows[i] == row;
  }

  // ----- The pending task -----

  predicate Clears(e: Event, session: string) {
    (e.TaskCancelled? || e.TaskFailed? || e.ChatDone?) && e.session == session && (session != "" || e.ChatDone?)
  }

  /** The task of the latest task:queued since the last clear, or what was held before the run. */
  function Held(events: seq<Event>, session: string, before: Option<string>): Option<string> {
    if events == [] then before
    else
      var last := events[|events| - 1];
      if last.TaskQueued? && last.session == session && session != "" then Some(last.taskId)
      else if Clears(last, session) then None
      else Held(events[..|events| - 1], session, before)
  }

  function PendingTask(s: State, session: string): Option<string> {
    if session in s.pending then s.pending[session].taskId else None
  }

  lemma HeldStep(s: State, e: Event, session: string)
    ensures PendingTask(Step(s, e), session) ==
      if e.TaskQueued? && e.session == session && session != "" then Some(e.taskId)
      else if Clears(e, session) then None
      else PendingTask(s, session)
  {
    StepRest(s, e);
    HeldAfter(s, e, session);
  }

  lemma HeldAfter(s: State, e: Event, session: string)
    ensures (if session in PendingStep(s, e) then PendingStep(s, e)[session].taskId else None) ==
      if e.TaskQueued? && e.session == session && session != "" then Some(e.taskId)
      else if Clears(e, session) then None
      else PendingTask(s, session)
  {
  }

  /** In every run the entry holds exactly the task queued last since the last clear. */
  lemma {:induction false} PendingIsHeld(s: State, events: seq<Event>, session: string)
    ensures PendingTask(Run(s, events), session) == Held(events, session, PendingTask(s, session))
  {
    if events != [] {
      var n := |events| - 1;
      PendingIsHeld(s, events[..n], session);
      HeldStep(Run(s, events[..n]), events[n], session);
    }
  }

  predicate Advances(e: Event) {
    e.TaskDispatch? || e.TaskRunning? || e.TaskWaiting?
  }

  /** The stage last reported for the held task, or the one before the run. */
  function HeldStatus(events: seq<Event>, session: string, task: Option<string>, before: Option<Status>)
    : Option<Status>
  {
    if events == [] then before
    else
      var n := |events| - 1;
      var last := events[n];
      if last.TaskQueued? && last.session == session && session != "" then Some(Queued)
      else if Clears(last, session) then None
      else if Advances(last) && last.session == session && session != ""
        && Held(events[..n], session, task) == Some(last.taskId)
      then Some(if last.TaskWaiting? then WaitingLocalDirectory else Running)
      else HeldStatus(events[..n], session, task, before)
  }

  function PendingStatus(s: State, session: string): Option<Status> {
    if session in s.pending then s.pending[session].status else None
  }

  lemma StatusStep(s: State, e: Event, session: string)
    ensures PendingStatus(Step(s, e), session) ==
      if e.TaskQueued? && e.session == session && session != "" then Some(Queued)
      else if Clears(e, session) then None
      else if Advances(e) && e.session == session && session != "" && PendingTask(s, session) == Some(e.taskId)
      then Some(if e.TaskWaiting? then WaitingLocalDirectory else Running)
      else PendingStatus(s, session)
  {
    StepRest(s, e);
    StatusAfter(s, e, session);
  }

  lemma StatusAfter(s: State, e: Event, session: string)
    ensures (if session in PendingStep(s, e) then PendingStep(s, e)[session].status else None) ==
      if e.TaskQueued? && e.session == session && session != "" then Some(Queued)
      else if Clears(e, session) then None
      else if Advances(e) && e.session == session && session != "" && PendingTask(s, session) == Some(e.taskId)
      then Some(if e.TaskWaiting? then WaitingLocalDirectory else Running)
      else PendingStatus(s, session)
  {
  }

  /** In every run the entry shows the stage last reported for the task it holds. */
  lemma {:induction false} PendingShowsHeldStatus(s: State, events: seq<Event>, session: string)
    ensures PendingStatus(Run(s, events), session)
      == HeldStatus(events, session, PendingTask(s, session), PendingStatus(s, session))
  {
    if events != [] {
      var n := |events| - 1;
      PendingShowsHeldStatus(s, events[..n], session);
      PendingIsHeld(s, events[..n], session);
      StatusStep(Run(s, events[..n]), events[n], session);
    }
  }

  /** In every run, late events of a superseded or cleared task leave the entry alone. */
  lemma LateEventsChangeNothing(s: State, events: seq<Event>, e: Event)
    requires Advances(e) && Held(events, e.session, PendingTask(s, e.session)) != Some(e.taskId)
    ensures Run(s, events + [e]).pending == Run(s, events).pending
  {
    assert (events + [e])[..|events|] == events;
    PendingIsHeld(s, events, e.session);
    StepRest(Run(s, events), e);
  }

  /** After a clear only a later task:queued makes the entry non-empty again. */
  lemma {:induction false} ClearedStaysEmpty(s: State, events: seq<Event>, later: seq<Event>, session: string)
    requires events != [] && Clears(events[|events| - 1], session)
    requires forall e :: e in later ==> !(e.TaskQueued? && e.session == session)
    ensures PendingTask(Run(s, events + later), session) == None
  {
    PendingIsHeld(s, events + later, session);
    HeldAfterClear(events, later, session, PendingTask(s, session));
  }

  lemma {:induction false} HeldAfterClear(events: seq<Event>, later: seq<Event>, session: string,
                                          before: Option<string>)
    requires events != [] && Clears(events[|events| - 1], session)
    requires forall e :: e in later ==> !(e.TaskQueued? && e.session == session)
    ensures Held(events + later, session, before) == None
    decreases |later|
  {
    if later == [] {
      assert events + later == events;
    } else {
      var n := |later| - 1;
      assert (events + later)[..|events + later| - 1] == events + later[..n];
      HeldAfterClear(events, later[..n], session, before);
    }
  }

  // ----- Finished answers -----

  predicate DistinctMessages(ms: seq<ChatMessage>) {
    forall i, j :: 0 <= i < j < |ms| ==> ms[i].id != ms[j].id
  }

  ghost predicate AllDistinct(s: State) {
    forall c :: c in s.messages ==> DistinctMessages(s.messages[c])
  }

  lemma StepMessages(s: State, e: Event, c: string)
    ensures c in Step(s, e).messages <==> c in s.messages
    ensures c in s.messages ==> s.messages[c] <= Step(s, e).messages[c]
    ensures c in s.messages && DistinctMessages(s.messages[c]) ==> DistinctMessages(Step(s, e).messages[c])
  {
    StepRest(s, e);
    if e.ChatDone? {
      AnswerMessages(s, e.session, e.taskId, e.messageId, e.content, e.createdAt, c);
    }
  }

  lemma AnswerMessages(s: State, session: string, taskId: string, messageId: string, content: Option<string>,
                       createdAt: string, c: string)
    ensures var after := WithAnswer(s, session, taskId, messageId, content, createdAt);
      && (c in after.messages <==> c in s.messages)
      && (c in s.messages ==> s.messages[c] <= after.messages[c])
      && (c in s.messages && DistinctMessages(s.messages[c]) ==> DistinctMessages(after.messages[c]))
  {
  }

  lemma {:induction false} RunMessages(s: State, events: seq<Event>, c: string)
    ensures c in Run(s, events).messages <==> c in s.messages
    ensures c in s.messages ==> s.messages[c] <= Run(s, events).messages[c]
    ensures c in s.messages && DistinctMessages(s.messages[c]) ==> DistinctMessages(Run(s, events).messages[c])
  {
    if events != [] {
      var n := |events| - 1;
      RunMessages(s, events[..n], c);
      StepMessages(Run(s, events[..n]), events[n], c);
    }
  }

  /** Message ids stay unique in every run, and a replayed chat:done adds nothing however late it comes. */
  lemma ReplayedDoneAddsNothing(s: State, done: Event, events: seq<Event>)
    requires done.ChatDone? && AllDistinct(s)
    ensures AllDistinct(Run(Step(s, done), events))
    ensures Step(Run(Step(s, done), events), done).messages == Run(Step(s, done), events).messages
  {
    var after := Run(Step(s, done), events);
    forall c | c in after.messages ensures DistinctMessages(after.messages[c]) {
      StepMessages(s, done, c);
      RunMessages(Step(s, done), events, c);
    }
    var c := done.session;
    StepMessages(s, done, c);
    RunMessages(Step(s, done), events, c);
    if c in s.messages && done.messageId != "" && done.content.Some? {
      var first := Step(s, done).messages[c];
      assert exists i :: 0 <= i < |first| && first[i].id == done.messageId by {
        if Any((m: ChatMessage) => m.id == done.messageId, s.messages[c]) {
        } else {
          assert first[|first| - 1].id == done.messageId;
        }
      }
      var i :| 0 <= i < |first| && first[i].id == done.messageId;
      assert after.messages[c][i] == first[i];
    }
  }

  function WithMessageId(id: string): ChatMessage -> bool {
    (m: ChatMessage) => m.id == id
  }

  /** Once chat:done has come for a loaded list, exactly one message has its id in every later state, and it is
      the answer unless a message of that id was there before. */
  lemma AnswerStaysOnce(s: State, done: Event, events: seq<Event>)
    requires done.ChatDone? && done.messageId != "" && done.content.Some?
    requires done.session in s.messages && DistinctMessages(s.messages[done.session])
    ensures var after := Run(Step(s, done), events).messages;
      && done.session in after && |Filter(WithMessageId(done.messageId), after[done.session])| == 1
      && (!Any(WithMessageId(done.messageId), s.messages[done.session]) ==>
            ChatMessage(done.messageId, done.taskId, done.content.value, done.createdAt) in after[done.session])
  {
    var c, id := done.session, done.messageId;
    var before, first := s.messages[c], Step(s, done).messages[c];
    StepMessages(s, done, c);
    RunMessages(Step(s, done), events, c);
    var later := Run(Step(s, done), events).messages[c];
    AnswerIsIn(s, done);
    var i :| 0 <= i < |first| && first[i].id == id && (!Any(WithMessageId(id), before) ==> first[i] == Answer(done));
    assert later[i] == first[i] && later[i] in later;
    OneWithId(later, id, i);
  }

  function Answer(done: Event): ChatMessage
    requires done.ChatDone? && done.content.Some?
  {
    ChatMessage(done.messageId, done.taskId, done.content.value, done.createdAt)
  }

  lemma AnswerIsIn(s: State, done: Event)
    requires done.ChatDone? && done.messageId != "" && done.content.Some? && done.session in s.messages
    ensures var first := Step(s, done).messages[done.session];
      exists i :: 0 <= i < |first| && first[i].id == done.messageId
                  && (!Any(WithMessageId(done.messageId), s.messages[done.session]) ==> first[i] == Answer(done))
  {
    var before, first := s.messages[done.session], Step(s, done).messages[done.session];
    if Any(WithMessageId(done.messageId), before) {
      assert first == before;
      var i :| 0 <= i < |before| && before[i].id == done.messageId;
    } else {
      assert first == before + [Answer(done)];
      assert first[|before|] == Answer(done);
    }
  }

  lemma OneWithId(ms: seq<ChatMessage>, id: string, i: nat)
    requires DistinctMessages(ms) && i < |ms| && ms[i].id == id
    ensures |Filter(WithMessageId(id), ms)| == 1
  {
    var p := WithMessageId(id);
    OthersHaveOtherIds(ms, i);
    FilterNone(p, ms[..i]);
    FilterNone(p, ms[i + 1..]);
    assert ms == ms[..i] + ([ms[i]] + ms[i + 1..]);
    FilterConcat(p, ms[..i], [ms[i]] + ms[i + 1..]);
    FilterCons(p, ms[i], ms[i + 1..]);
  }

  lemma OthersHaveOtherIds(ms: seq<ChatMessage>, i: nat)
    requires DistinctMessages(ms) && i < |ms|
    ensures forall m :: m in ms[..i] ==> m.id != ms[i].id
    ensures forall m :: m in ms[i + 1..] ==> m.id != ms[i].id
  {
    forall m | m in ms[i + 1..] ensures m.id != ms[i].id {
      var k :| i < k < |ms| && ms[k] == m;
    }
  }
}
