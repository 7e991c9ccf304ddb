/**
 The outbox of audit events: rows of audit_tasks and the worker that sends them to Kafka, one
 step at a time (internal/audit/outbox_worker.go,
 internal/storage/postgres/auditlogstorage/storage.go). One worker runs.
 */
module Outbox {
  import opened Wrappers
  import opened Orders

  datatype TaskStatus = Created | Processing | Failed | NoAttemptsLeft | Finished

  datatype Task = Task(
    log: string, status: TaskStatus, attempts: nat, createdAt: Time, updatedAt: Time,
    finishedAt: Option<Time>, nextRetry: Option<Time>)

  const MAX_ATTEMPTS: nat := 3
  const BATCH_SIZE: nat := 100
  const RETRY_DELAY: Time := 2_000_000

  /** SaveLog: a fresh row, its optional columns NULL. */
  function NewTask(log: string, createdAt: Time): Task {
    Task(log, Created, 0, createdAt, createdAt, None, None)
  }

  /** The WHERE clause of FetchPendingTasksTx. */
  predicate Eligible(t: Task, now: Time) {
    && (t.status == Created || t.status == Failed)
    && (t.nextRetry.None? || t.nextRetry.value < now)
    && t.attempts < MAX_ATTEMPTS
  }

  /** The row as scanned: NULL times become the zero time. */
  function Scan(t: Task): Task {
    t.(finishedAt := Some(Coalesce(t.finishedAt)), nextRetry := Some(Coalesce(t.nextRetry)))
  }

  /** UpdateTask: four columns of the row, never finished_at. */
  function Written(row: Task, copy: Task, at: Time): Task {
    row.(status := copy.status, attempts := copy.attempts, updatedAt := at, nextRetry := copy.nextRetry)
  }

  /** A fetched task: the position of its row, which is its id, and the copy worked on. */
  datatype Fetched = Fetched(id: nat, copy: Task)

  ghost predicate DistinctIds(ids: seq<nat>) {
    forall i, j :: 0 <= i < j < |ids| ==> ids[i] != ids[j]
  }

  /** ORDER BY created_at LIMIT limit, ties in any order: the limit is filled unless nothing eligible is left out. */
  ghost predicate IsFetch(tasks: seq<Task>, now: Time, limit: nat, ids: seq<nat>) {
    && |ids| <= limit && DistinctIds(ids)
    && (forall i :: 0 <= i < |ids| ==> ids[i] < |tasks| && Eligible(tasks[ids[i]], now))
    && (forall i, j :: 0 <= i < j < |ids| ==> tasks[ids[i]].createdAt <= tasks[ids[j]].createdAt)
    && (forall k :: 0 <= k < |tasks| && Eligible(tasks[k], now) && k !in ids ==>
          |ids| == limit && forall i :: 0 <= i < |ids| ==> tasks[ids[i]].createdAt <= tasks[k].createdAt)
  }

  /** Where the worker stands: tasks still to do, a task marked PROCESSING, or a task sent but not saved. */
  datatype Phase =
    | Ready(rest: seq<Fetched>)
    | Marked(task: Fetched, startedAt: Time, rest: seq<Fetched>)
    | Sent(task: Fetched, rest: seq<Fetched>)

  /** The rows, the worker, and for each row how often it was sent and how often with success. */
  datatype State = State(tasks: seq<Task>, phase: Phase, sends: seq<nat>, successes: seq<nat>)

  const EMPTY_OUTBOX := State([], Ready([]), [], [])

  /** An update takes effect and says so, has no effect and fails, or takes effect and still reports an error. */
  datatype UpdateOutcome = Done | Refused | DoneButReported

  datatype Event =
    | Insert(log: string, createdAt: Time)
    | Fetch(now: Time, ids: seq<nat>)
    | Mark(outcome: UpdateOutcome, startedAt: Time, at: Time)
    | Send(ok: bool)
    | Save(outcome: UpdateOutcome, at: Time)
    | Stop                                        // cancellation or crash, wherever the worker stands

  function WriteRow(tasks: seq<Task>, f: Fetched, outcome: UpdateOutcome, at: Time): seq<Task> {
    if outcome == Refused || f.id >= |tasks| then tasks
    else tasks[f.id := Written(tasks[f.id], f.copy, at)]
  }

  /** The copy after a send: finished, or one more attempt used and a retry time set. */
  function AfterSend(copy: Task, startedAt: Time, ok: bool): Task {
    if ok then copy.(status := Finished, updatedAt := startedAt, finishedAt := Some(startedAt))
    else
      copy.(attempts := copy.attempts + 1,
            status := if copy.attempts + 1 >= MAX_ATTEMPTS then NoAttemptsLeft else Failed,
            nextRetry := Some(startedAt + RETRY_DELAY), updatedAt := startedAt)
  }

  function FetchedTasks(tasks: seq<Task>, ids: seq<nat>): (fs: seq<Fetched>)
    requires forall i :: 0 <= i < |ids| ==> ids[i] < |tasks|
    ensures |fs| == |ids|
  {
    seq(|ids|, i requires 0 <= i < |ids| => Fetched(ids[i], Scan(tasks[ids[i]])))
  }

  /** An event that the worker's phase does not allow changes nothing. */
  ghost function Step(s: State, e: Event): State {
    match e
    case Insert(log, createdAt) =>
      s.(tasks := s.tasks + [NewTask(log, createdAt)], sends := s.sends + [0], successes := s.successes + [0])
    case Fetch(now, ids) =>
      if s.phase == Ready([]) && IsFetch(s.tasks, now, BATCH_SIZE, ids)
      then s.(phase := Ready(FetchedTasks(s.tasks, ids)))
      else s
    case Mark(outcome, startedAt, at) =>
      if s.phase.Ready? && s.phase.rest != [] then
        var f := Fetched(s.phase.rest[0].id, s.phase.rest[0].copy.(status := Processing, updatedAt := startedAt));
        s.(tasks := WriteRow(s.tasks, f, outcome, at),
           phase := if outcome == Done then Marked(f, startedAt, s.phase.rest[1..]) else Ready(s.phase.rest[1..]))
      else s
    case Send(ok) =>
      if s.phase.Marked? && s.phase.task.id < |s.sends| && s.phase.task.id < |s.successes| then
        var f := s.phase.task;
        s.(phase := Sent(Fetched(f.id, AfterSend(f.copy, s.phase.startedAt, ok)), s.phase.rest),
           sends := s.sends[f.id := s.sends[f.id] + 1],
           successes := s.successes[f.id := s.successes[f.id] + if ok then 1 else 0])
      else s
    case Save(outcome, at) =>
      if s.phase.Sent?
      then s.(tasks := WriteRow(s.tasks, s.phase.task, outcome, at), phase := Ready(s.phase.rest))
      else s
    case Stop => s.(phase := Ready([]))
  }

  ghost function Run(s: State, es: seq<Event>): State
    decreases es
  {
    if es == [] then s else Run(Step(s, es[0]), es[1..])
  }

  lemma {:induction false} RunAppend(s: State, a: seq<Event>, b: seq<Event>)
    ensures Run(s, a + b) == Run(Run(s, a), b)
    decreases a
  {
    if a == [] {
      assert a + b == b;
    } else {
      assert (a + b)[1..] == a[1..] + b;
      RunAppend(Step(s, a[0]), a[1..], b);
    }
  }
}
