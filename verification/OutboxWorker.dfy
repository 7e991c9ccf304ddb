/** The worker's code as it runs, each batch a run of the step machine. */
module OutboxWorker {
  import opened Wrappers
  import opened Orders
  import opened Outbox

  /** What happens to one task: how its two updates and its send end, and the clock readings on the way. */
  datatype Attempt = Attempt(
    mark: UpdateOutcome, startedAt: Time, markedAt: Time, sendOk: bool, save: UpdateOutcome, savedAt: Time)

  function AttemptEvents(a: Attempt): seq<Event> {
    if a.mark == Done
    then [Mark(a.mark, a.startedAt, a.markedAt), Send(a.sendOk), Save(a.save, a.savedAt)]
    else [Mark(a.mark, a.startedAt, a.markedAt)]
  }

  /** A batch of n tasks; when the attempts run out the context is cancelled. */
  function BatchEvents(n: nat, attempts: seq<Attempt>): seq<Event> {
    if n == 0 then []
    else if attempts == [] then [Stop]
    else AttemptEvents(attempts[0]) + BatchEvents(n - 1, attempts[1..])
  }

  /** The state once the rest of a batch, from task i on, has been worked through. */
  ghost function AtEnd(s: State, n: nat, attempts: seq<Attempt>, i: nat): State
    requires i <= n && i <= |attempts|
  {
    Run(s, BatchEvents(n - i, attempts[i..]))
  }

  /** One task done: the rest of the batch leads where it led before. */
  lemma NextAttempt(s: State, s': State, n: nat, attempts: seq<Attempt>, i: nat)
    requires i < n && i < |attempts| && s' == Run(s, AttemptEvents(attempts[i]))
    ensures AtEnd(s', n, attempts, i + 1) == AtEnd(s, n, attempts, i)
  {
    assert attempts[i..][1..] == attempts[i + 1..];
    RunAppend(s, AttemptEvents(attempts[i]), BatchEvents(n - i - 1, attempts[i + 1..]));
  }

  /** Nothing left to do, or cancelled: the worker is idle. */
  lemma BatchEnds(s: State, n: nat, attempts: seq<Attempt>, i: nat)
    requires i <= n && i <= |attempts| && (i == n || i == |attempts|)
    requires s.phase.Ready? && |s.phase.rest| == n - i
    ensures AtEnd(s, n, attempts, i) == s.(phase := Ready([]))
  {
    if i < n {
      assert attempts[i..] == [];
      assert [Stop][1..] == [];
      assert Run(s, [Stop]) == Step(s, Stop);
    }
  }

  /** The earliest created eligible row not taken yet. */
  method Earliest(tasks: seq<Task>, now: Time, taken: seq<nat>) returns (best: Option<nat>)
    ensures best.None? ==> forall k :: 0 <= k < |tasks| && Eligible(tasks[k], now) ==> k in taken
    ensures best.Some? ==> best.value < |tasks| && Eligible(tasks[best.value], now) && best.value !in taken
    ensures best.Some? ==> forall k :: 0 <= k < |tasks| && Eligible(tasks[k], now) && k !in taken ==>
                                     tasks[best.value].createdAt <= tasks[k].createdAt
  {
    best := None;
    for i := 0 to |tasks|
      invariant best.None? ==> forall k :: 0 <= k < i && Eligible(tasks[k], now) ==> k in taken
      invariant best.Some? ==> best.value < i && Eligible(tasks[best.value], now) && best.value !in taken
      invariant best.Some? ==> forall k :: 0 <= k < i && Eligible(tasks[k], now) && k !in taken ==>
                                         tasks[best.value].createdAt <= tasks[k].createdAt
    {
      if Eligible(tasks[i], now) && i !in taken && (best.None? || tasks[i].createdAt < tasks[best.value].createdAt) {
        best := Some(i);
      }
    }
  }

  /** One way to answer the eligibility query. */
  method FetchPendingTasks(tasks: seq<Task>, now: Time, limit: nat) returns (ids: seq<nat>)
    ensures IsFetch(tasks, now, limit, ids)
  {
    ids := [];
    var more := true;
    while more && |ids| < limit
      invariant |ids| <= limit && DistinctIds(ids)
      invariant forall i :: 0 <= i < |ids| ==> ids[i] < |tasks| && Eligible(tasks[ids[i]], now)
      invariant forall i, j :: 0 <= i < j < |ids| ==> tasks[ids[i]].createdAt <= tasks[ids[j]].createdAt
      invariant forall k, i :: 0 <= k < |tasks| && Eligible(tasks[k], now) && k !in ids && 0 <= i < |ids| ==>
                                 tasks[ids[i]].createdAt <= tasks[k].createdAt
      invariant !more ==> forall k :: 0 <= k < |tasks| && Eligible(tasks[k], now) ==> k in ids
      decreases more, limit - |ids|
    {
      var next := Earliest(tasks, now, ids);
      if next.None? {
        more := false;
      } else {
        ids := ids + [next.value];
      }
    }
  }

  class Worker {
    var tasks: seq<Task>
    ghost var sends: seq<nat>
    ghost var successes: seq<nat>

    constructor ()
      ensures Outbox(Ready([])) == EMPTY_OUTBOX
    {
      tasks, sends, successes := [], [], [];
    }

    ghost function Outbox(phase: Phase): State
      reads this
    {
      State(tasks, phase, sends, successes)
    }

    ghost predicate Valid()
      reads this
    {
      |sends| == |successes| == |tasks|
    }

    method SaveLog(log: string, createdAt: Time)
      requires Valid()
      modifies this
      ensures Valid()
      ensures forall phase :: Outbox(phase) == Step(old(Outbox(phase)), Insert(log, createdAt))
    {
      tasks := tasks + [NewTask(log, createdAt)];
      sends, successes := sends + [0], successes + [0];
    }

    /** UpdateTask writes four columns, or fails before or after the commit. */
    method UpdateTask(f: Fetched, outcome: UpdateOutcome, at: Time) returns (ok: bool)
      requires f.id < |tasks|
      modifies this`tasks
      ensures tasks == WriteRow(old(tasks), f, outcome, at) && |tasks| == old(|tasks|)
      ensures ok <==> outcome == Done
    {
      if outcome != Refused {
        tasks := tasks[f.id := Written(tasks[f.id], f.copy, at)];
      }
      return outcome == Done;
    }

    /** processTask: mark, send, save, on a copy whose fields are assigned along the way. */
    method ProcessTask(f: Fetched, a: Attempt, ghost rest: seq<Fetched>)
      requires Valid() && f.id < |tasks|
      modifies this
      ensures Valid() && |tasks| == old(|tasks|)
      ensures Outbox(Ready(rest)) == Run(old(Outbox(Ready([f] + rest))), AttemptEvents(a))
    {
      ghost var start := Outbox(Ready([f] + rest));
      assert ([f] + rest)[1..] == rest;
      var task := f.copy;
      task := task.(status := Processing, updatedAt := a.startedAt);
      var ok := UpdateTask(Fetched(f.id, task), a.mark, a.markedAt);
      ghost var es := AttemptEvents(a);
      ghost var marked := Step(start, es[0]);
      if !ok {
        assert es[1..] == [];
        assert Run(marked, es[1..]) == marked;
        return;
      }
      sends := sends[f.id := sends[f.id] + 1];
      if a.sendOk {
        successes := successes[f.id := successes[f.id] + 1];
        task := task.(status := Finished, updatedAt := a.startedAt, finishedAt := Some(a.startedAt));
      } else {
        task := task.(attempts := task.attempts + 1, status := Failed,
                      nextRetry := Some(a.startedAt + RETRY_DELAY), updatedAt := a.startedAt);
        if task.attempts >= MAX_ATTEMPTS {
          task := task.(status := NoAttemptsLeft);
        }
      }
      ghost var sent := Step(marked, es[1]);
      assert sent == Outbox(Sent(Fetched(f.id, task), rest));
      ok := UpdateTask(Fetched(f.id, task), a.save, a.savedAt);
      assert Outbox(Ready(rest)) == Step(sent, es[2]);
      assert es[1..][1..] == [es[2]] && es[1..][1..][1..] == [];
      assert Run(sent, [es[2]]) == Step(sent, es[2]);
      assert Run(marked, es[1..]) == Run(sent, [es[2]]);
    }

    /** The loop of processBatch over the fetched copies, until done or cancelled. */
    method ProcessTasks(batch: seq<Fetched>, attempts: seq<Attempt>)
      requires Valid() && forall i :: 0 <= i < |batch| ==> batch[i].id < |tasks|
      modifies this
      ensures Valid()
      ensures Outbox(Ready([])) == Run(old(Outbox(Ready(batch))), BatchEvents(|batch|, attempts))
    {
      ghost var end := AtEnd(Outbox(Ready(batch)), |batch|, attempts, 0);
      var i := 0;
      assert batch[0..] == batch && attempts[0..] == attempts;
      while i < |batch| && i < |attempts|
        invariant 0 <= i <= |batch| && i <= |attempts| && Valid() && |tasks| == old(|tasks|)
        invariant AtEnd(Outbox(Ready(batch[i..])), |batch|, attempts, i) == end
      {
        ghost var before := Outbox(Ready(batch[i..]));
        assert batch[i..] == [batch[i]] + batch[i + 1..];
        ProcessTask(batch[i], attempts[i], batch[i + 1..]);
        NextAttempt(before, Outbox(Ready(batch[i + 1..])), |batch|, attempts, i);
        i := i + 1;
      }
      BatchEnds(Outbox(Ready(batch[i..])), |batch|, attempts, i);
    }

    /** processBatch: fetch and commit, then work through the copies. */
    method ProcessBatch(now: Time, attempts: seq<Attempt>) returns (ghost ids: seq<nat>)
      requires Valid()
      modifies this
      ensures Valid()
      ensures IsFetch(old(tasks), now, BATCH_SIZE, ids)
      ensures Outbox(Ready([])) == Run(old(Outbox(Ready([]))), [Fetch(now, ids)] + BatchEvents(|ids|, attempts))
    {
      var pending := FetchPendingTasks(tasks, now, BATCH_SIZE);
      ids := pending;
      var batch := FetchedTasks(tasks, pending);
      ghost var all := [Fetch(now, ids)] + BatchEvents(|ids|, attempts);
      assert all[1..] == BatchEvents(|ids|, attempts);
      assert Step(Outbox(Ready([])), Fetch(now, ids)) == Outbox(Ready(batch));
      ProcessTasks(batch, attempts);
    }
  }
}
