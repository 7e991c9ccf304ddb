/**
 What the outbox gets done when nothing fails, and what it sends
 (internal/audit/outbox_worker.go, internal/storage/postgres/auditlogstorage/storage.go).
 */
module OutboxProgress {
  import opened Wrappers
  import opened Orders
  import opened Outbox
  import opened OutboxInvariant
  import opened OutboxWorker

  // ---- a round in which nothing fails ----

  /** Both updates commit and say so, and the send succeeds. */
  predicate Good(a: Attempt) {
    a.mark == Done && a.sendOk && a.save == Done
  }

  /** One pass of the worker: when it fetches, what it fetches, and how each task goes. */
  datatype Round = Round(now: Time, ids: seq<nat>, attempts: seq<Attempt>)

  ghost predicate GoodRound(s: State, r: Round) {
    && IsFetch(s.tasks, r.now, 100, r.ids)
    && |r.attempts| == |r.ids| && (forall i :: 0 <= i < |r.attempts| ==> Good(r.attempts[i]))
  }

  function RoundEvents(r: Round): seq<Event> {
    [Fetch(r.now, r.ids)] + BatchEvents(|r.ids|, r.attempts)
  }

  ghost predicate Idle(s: State) {
    Inv(s) && s.phase == Ready([])
  }

  /** The rows of the fetched tasks finish, every other row stays as it is. */
  ghost predicate Finishes(before: seq<Task>, after: seq<Task>, ids: set<nat>) {
    && |after| == |before|
    && forall i :: 0 <= i < |before| ==> if i in ids then after[i].status == Finished else after[i] == before[i]
  }

  function Members(ids: seq<nat>): set<nat> {
    set k | k in ids
  }

  function Ids(rest: seq<Fetched>): set<nat> {
    set i | 0 <= i < |rest| :: rest[i].id
  }

  /** Mark, send and save one task. */
  lemma GoodAttempt(s: State, a: Attempt)
    requires Inv(s) && s.phase.Ready? && s.phase.rest != [] && Good(a)
    ensures var s' := Run(s, AttemptEvents(a));
      && Inv(s') && s'.phase == Ready(s.phase.rest[1..])
      && Finishes(s.tasks, s'.tasks, {s.phase.rest[0].id})
  {
    var es := AttemptEvents(a);
    assert Fresh(s.tasks, s.phase.rest[0]);
    var s1 := Step(s, es[0]);
    StepInv(s, es[0]);
    var s2 := Step(s1, es[1]);
    StepInv(s1, es[1]);
    var s3 := Step(s2, es[2]);
    StepInv(s2, es[2]);
    assert es[1..][1..] == [es[2]] && [es[2]][1..] == [];
    assert Run(s2, [es[2]]) == s3;
    assert Run(s1, es[1..]) == Run(s2, [es[2]]);
  }

  lemma {:induction false} GoodBatch(s: State, attempts: seq<Attempt>)
    requires Inv(s) && s.phase.Ready? && |attempts| == |s.phase.rest|
    requires forall i :: 0 <= i < |attempts| ==> Good(attempts[i])
    ensures var s' := Run(s, BatchEvents(|attempts|, attempts));
      Idle(s') && Finishes(s.tasks, s'.tasks, Ids(s.phase.rest))
    decreases attempts
  {
    if attempts != [] {
      var s1 := Run(s, AttemptEvents(attempts[0]));
      GoodAttempt(s, attempts[0]);
      GoodBatch(s1, attempts[1..]);
      RunAppend(s, AttemptEvents(attempts[0]), BatchEvents(|attempts| - 1, attempts[1..]));
      IdsCons(s.phase.rest);
    }
  }

  lemma IdsCons(rest: seq<Fetched>)
    requires rest != []
    ensures Ids(rest) == {rest[0].id} + Ids(rest[1..])
  {
    forall i | 0 <= i < |rest| ensures rest[i].id in {rest[0].id} + Ids(rest[1..]) {
      if i > 0 {
        assert rest[1..][i - 1] == rest[i];
      }
    }
  }

  /** A round in which nothing fails finishes exactly what it fetched. */
  lemma RoundFinishes(s: State, r: Round)
    requires Idle(s) && GoodRound(s, r)
    ensures var s' := Run(s, RoundEvents(r));
      Idle(s') && Finishes(s.tasks, s'.tasks, Members(r.ids))
  {
    var fetched := Step(s, Fetch(r.now, r.ids));
    StepInv(s, Fetch(r.now, r.ids));
    assert RoundEvents(r)[1..] == BatchEvents(|r.ids|, r.attempts);
    GoodBatch(fetched, r.attempts);
    assert Ids(fetched.phase.rest) == Members(r.ids) by {
      forall i | 0 <= i < |r.ids| ensures fetched.phase.rest[i].id == r.ids[i] {
      }
    }
  }

  // ---- progress ----

  /** A new task is fetched whenever the worker looks, unless the batch is full of no younger ones. */
  lemma NewTaskIsFetched(s: State, k: nat, now: Time, ids: seq<nat>)
    requires Inv(s) && k < |s.tasks| && s.tasks[k].status == Created
    requires IsFetch(s.tasks, now, 100, ids)
    ensures k in ids || (|ids| == 100 && forall i :: 0 <= i < |ids| ==>
      ids[i] < |s.tasks| && s.tasks[ids[i]].createdAt <= s.tasks[k].createdAt)
  {
    assert RowOk(s.tasks[k], s.sends[k], s.successes[k]);
  }

  function FinishedIds(tasks: seq<Task>): set<nat> {
    set i | 0 <= i < |tasks| && tasks[i].status == Finished
  }

  /** Tasks that have not been given up, sent or lost. */
  function Waiting(tasks: seq<Task>): set<nat> {
    set i | 0 <= i < |tasks| && (tasks[i].status == Created || tasks[i].status == Failed)
  }

  ghost predicate SomeCreated(tasks: seq<Task>) {
    exists i :: 0 <= i < |tasks| && tasks[i].status == Created
  }

  lemma FetchedWait(tasks: seq<Task>, now: Time, ids: seq<nat>)
    requires IsFetch(tasks, now, 100, ids)
    ensures Members(ids) <= Waiting(tasks) && |Members(ids)| == |ids|
  {
    DistinctCount(ids);
  }

  lemma {:induction false} DistinctCount(ids: seq<nat>)
    requires DistinctIds(ids)
    ensures |Members(ids)| == |ids|
  {
    if ids != [] {
      var front, last := ids[..|ids| - 1], ids[|ids| - 1];
      DistinctCount(front);
      assert ids == front + [last];
      assert last !in front;
      assert Members(ids) == Members(front) + {last};
    }
  }

  lemma FinishedMove(before: seq<Task>, after: seq<Task>, done: set<nat>)
    requires Finishes(before, after, done) && done <= Waiting(before)
    ensures Waiting(after) == Waiting(before) - done
    ensures FinishedIds(after) == FinishedIds(before) + done && FinishedIds(before) !! done
  {
  }

  /** How one round moves tasks from waiting to finished. */
  lemma RoundMoves(s: State, r: Round)
    requires Idle(s) && GoodRound(s, r)
    ensures var s' := Run(s, RoundEvents(r));
      && Idle(s')
      && Members(r.ids) <= Waiting(s.tasks) && |Members(r.ids)| == |r.ids|
      && Waiting(s'.tasks) == Waiting(s.tasks) - Members(r.ids)
      && FinishedIds(s'.tasks) == FinishedIds(s.tasks) + Members(r.ids) && FinishedIds(s.tasks) !! Members(r.ids)
  {
    RoundFinishes(s, r);
    FetchedWait(s.tasks, r.now, r.ids);
    FinishedMove(s.tasks, Run(s, RoundEvents(r)).tasks, Members(r.ids));
  }

  /**
   Progress: in every idle state with a new task, whatever fails before it, each round in which
   nothing fails fetches and finishes at least one more task.
   */
  lemma RoundMakesProgress(s: State, r: Round)
    requires Idle(s) && GoodRound(s, r) && SomeCreated(s.tasks)
    ensures |FinishedIds(Run(s, RoundEvents(r)).tasks)| == |FinishedIds(s.tasks)| + |r.ids| && |r.ids| >= 1
  {
    var k :| 0 <= k < |s.tasks| && s.tasks[k].status == Created;
    NewTaskIsFetched(s, k, r.now, r.ids);
    RoundMoves(s, r);
  }

  /** Rounds one after the other, none failing, no task inserted in between. */
  ghost predicate GoodRounds(s: State, rounds: seq<Round>)
    decreases rounds
  {
    rounds == [] || (GoodRound(s, rounds[0]) && GoodRounds(Run(s, RoundEvents(rounds[0])), rounds[1..]))
  }

  ghost function RunRounds(s: State, rounds: seq<Round>): State
    decreases rounds
  {
    if rounds == [] then s else RunRounds(Run(s, RoundEvents(rounds[0])), rounds[1..])
  }

  lemma {:induction false} FinishedStay(s: State, rounds: seq<Round>)
    requires Idle(s) && GoodRounds(s, rounds)
    ensures FinishedIds(s.tasks) <= FinishedIds(RunRounds(s, rounds).tasks)
    decreases rounds
  {
    if rounds != [] {
      RoundMoves(s, rounds[0]);
      FinishedStay(Run(s, RoundEvents(rounds[0])), rounds[1..]);
    }
  }

  /**
   The backlog clears: with at most 100 waiting tasks - new ones and failed ones - for each round,
   every task that was new at the start is finished at the end.
   */
  lemma {:induction false} BacklogClears(s: State, rounds: seq<Round>, k: nat)
    requires Idle(s) && GoodRounds(s, rounds) && |Waiting(s.tasks)| <= 100 * |rounds|
    requires k < |s.tasks| && s.tasks[k].status == Created
    ensures var after := RunRounds(s, rounds).tasks; k < |after| && after[k].status == Finished
    decreases rounds
  {
    assert k in Waiting(s.tasks);
    var r := rounds[0];
    var s' := Run(s, RoundEvents(r));
    RoundMoves(s, r);
    NewTaskIsFetched(s, k, r.now, r.ids);
    if k in r.ids {
      assert k in Members(r.ids);
      FinishedStay(s', rounds[1..]);
      assert k in FinishedIds(RunRounds(s, rounds).tasks);
    } else {
      assert |Waiting(s'.tasks)| == |Waiting(s.tasks)| - 100;
      RoundFinishes(s, r);
      BacklogClears(s', rounds[1..], k);
    }
  }

  /** The query never offers a row that is done, lost, not due yet or out of attempts, reachable or not. */
  lemma NeverFetched(tasks: seq<Task>, now: Time, limit: nat, ids: seq<nat>, k: nat)
    requires IsFetch(tasks, now, limit, ids) && k < |tasks|
    requires || tasks[k].status == Processing || tasks[k].status == Finished || tasks[k].status == NoAttemptsLeft
             || tasks[k].attempts >= 3
             || (tasks[k].nextRetry.Some? && now <= tasks[k].nextRetry.value)
    ensures k !in ids
  {
  }

  // ---- what is sent ----

  /** What an insert writes for good. */
  datatype Entry = Entry(log: string, createdAt: Time)

  /** The entries of the inserts of a run, in order. */
  function Inserted(es: seq<Event>): seq<Entry> {
    if es == [] then []
    else
      var e := es[|es| - 1];
      Inserted(es[..|es| - 1]) + if e.Insert? then [Entry(e.log, e.createdAt)] else []
  }

  ghost predicate EntriesAre(tasks: seq<Task>, entries: seq<Entry>) {
    |tasks| == |entries| && forall i :: 0 <= i < |tasks| ==> Entry(tasks[i].log, tasks[i].createdAt) == entries[i]
  }

  lemma StepEntries(s: State, e: Event, entries: seq<Entry>)
    requires EntriesAre(s.tasks, entries)
    ensures EntriesAre(Step(s, e).tasks, entries + if e.Insert? then [Entry(e.log, e.createdAt)] else [])
  {
  }

  lemma RunSnoc(s: State, es: seq<Event>)
    requires es != []
    ensures Run(s, es) == Step(Run(s, es[..|es| - 1]), es[|es| - 1])
  {
    var front, last := es[..|es| - 1], es[|es| - 1];
    assert es == front + [last];
    RunAppend(s, front, [last]);
    assert [last][1..] == [];
  }

  /** In every run the rows are the inserts, each with its log and creation time. */
  lemma {:induction false} RowsAreInserts(es: seq<Event>)
    ensures EntriesAre(Run(EMPTY_OUTBOX, es).tasks, Inserted(es))
  {
    if es != [] {
      RowsAreInserts(es[..|es| - 1]);
      RunSnoc(EMPTY_OUTBOX, es);
      StepEntries(Run(EMPTY_OUTBOX, es[..|es| - 1]), es[|es| - 1], Inserted(es[..|es| - 1]));
    }
  }

  /** In every run the task about to be sent carries the log its row was inserted with. */
  lemma SendsCarryTheirLogs(es: seq<Event>)
    requires Run(EMPTY_OUTBOX, es).phase.Marked?
    ensures var f := Run(EMPTY_OUTBOX, es).phase.task;
      f.id < |Inserted(es)| && f.copy.log == Inserted(es)[f.id].log
  {
    RunInv(EMPTY_OUTBOX, es);
    RowsAreInserts(es);
  }

  /** A row changes only when a mark or a save of its task commits, and then carries the time of that update. */
  lemma RowsChangeByUpdates(s: State, e: Event, i: nat)
    requires Inv(s) && i < |s.tasks|
    ensures var s' := Step(s, e);
      && i < |s'.tasks|
      && (s'.tasks[i] != s.tasks[i] ==>
            && (e.Mark? || e.Save?) && e.outcome != Refused && s'.tasks[i].updatedAt == e.at
            && (e.Mark? ==> s'.tasks[i].status == Processing)
            && (e.Save? ==> s.tasks[i].status == Processing && s'.tasks[i].status != Processing))
  {
  }

  /** After any run that leaves the worker idle, rounds in which nothing fails clear the backlog. */
  lemma NewTasksAreSent(es: seq<Event>, rounds: seq<Round>, k: nat)
    requires var s := Run(EMPTY_OUTBOX, es);
      && s.phase == Ready([]) && GoodRounds(s, rounds) && |Waiting(s.tasks)| <= 100 * |rounds|
      && k < |s.tasks| && s.tasks[k].status == Created
    ensures var after := RunRounds(Run(EMPTY_OUTBOX, es), rounds).tasks;
      k < |after| && after[k].status == Finished
  {
    RunInv(EMPTY_OUTBOX, es);
    BacklogClears(Run(EMPTY_OUTBOX, es), rounds, k);
  }
}
