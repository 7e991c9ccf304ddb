/** How long an outbox task can be kept waiting, and how many marks a set of tasks allows. */
module OutboxFairness {
  import opened Orders
  import opened Outbox
  import opened OutboxInvariant

  /** Marks a row can still take. A PROCESSING row has already used the one it is in. */
  function Budget(t: Task): nat {
    match t.status
    case Created => if t.attempts <= 3 then 3 - t.attempts else 0
    case Failed => if t.attempts <= 3 then 3 - t.attempts else 0
    case Processing => if t.attempts <= 2 then 2 - t.attempts else 0
    case NoAttemptsLeft => 0
    case Finished => 0
  }

  /** Which rows are counted: all, or the rows other than `target` created no later than it. */
  datatype Scope = All | Rivals(target: nat, createdAt: Time)

  predicate Counts(scope: Scope, id: nat, t: Task) {
    scope.All? || (id != scope.target && t.createdAt <= scope.createdAt)
  }

  function Share(scope: Scope, id: nat, t: Task): nat {
    if Counts(scope, id, t) then Budget(t) else 0
  }

  function Total(scope: Scope, tasks: seq<Task>): nat {
    if tasks == [] then 0
    else var n := |tasks| - 1; Total(scope, tasks[..n]) + Share(scope, n, tasks[n])
  }

  function Population(scope: Scope, tasks: seq<Task>): nat {
    if tasks == [] then 0
    else var n := |tasks| - 1; Population(scope, tasks[..n]) + if Counts(scope, n, tasks[n]) then 1 else 0
  }

  function Waiting(scope: Scope, rest: seq<Fetched>): nat {
    if rest == [] then 0
    else (if Counts(scope, rest[0].id, rest[0].copy) then 1 else 0) + Waiting(scope, rest[1..])
  }

  lemma {:induction false} TotalUpdate(scope: Scope, tasks: seq<Task>, id: nat, t: Task)
    requires id < |tasks| && t.createdAt == tasks[id].createdAt
    ensures Total(scope, tasks[id := t]) == Total(scope, tasks) - Share(scope, id, tasks[id]) + Share(scope, id, t)
    ensures Population(scope, tasks[id := t]) == Population(scope, tasks)
    decreases |tasks|
  {
    var n := |tasks| - 1;
    var after := tasks[id := t];
    if id < n {
      TotalUpdate(scope, tasks[..n], id, t);
      assert after[..n] == tasks[..n][id := t];
    } else {
      assert after[..n] == tasks[..n];
    }
  }

  lemma TotalSnoc(scope: Scope, tasks: seq<Task>, t: Task)
    ensures Total(scope, tasks + [t]) == Total(scope, tasks) + Share(scope, |tasks|, t)
    ensures Population(scope, tasks + [t]) == Population(scope, tasks) + if Counts(scope, |tasks|, t) then 1 else 0
  {
  }

  lemma {:induction false} TotalAtMost(scope: Scope, tasks: seq<Task>)
    ensures Total(scope, tasks) <= 3 * Population(scope, tasks)
    ensures Population(scope, tasks) <= |tasks|
    decreases |tasks|
  {
    if tasks != [] {
      TotalAtMost(scope, tasks[..|tasks| - 1]);
    }
  }

  /** The waiting tasks of a batch each hold at least one mark of the total. */
  lemma {:induction false} WaitingCovered(scope: Scope, tasks: seq<Task>, rest: seq<Fetched>)
    requires RestOk(tasks, rest)
    requires forall i :: 0 <= i < |tasks| && (tasks[i].status == Created || tasks[i].status == Failed) ==>
      tasks[i].attempts <= 2
    ensures Waiting(scope, rest) <= Total(scope, tasks)
    decreases rest
  {
    if rest != [] {
      var f := rest[0];
      assert Fresh(tasks, f);
      var done := tasks[f.id].(status := Finished);
      TotalUpdate(scope, tasks, f.id, done);
      var after := tasks[f.id := done];
      forall i | 0 <= i < |rest[1..]| ensures Fresh(after, rest[1..][i]) {
        assert Fresh(tasks, rest[i + 1]);
      }
      WaitingCovered(scope, after, rest[1..]);
    }
  }

  lemma InvBudgets(s: State)
    requires Inv(s)
    ensures forall i :: 0 <= i < |s.tasks| && (s.tasks[i].status == Created || s.tasks[i].status == Failed) ==>
      s.tasks[i].attempts <= 2
  {
  }

  /** Marks that took effect. */
  ghost predicate IsMark(s: State, e: Event) {
    e.Mark? && e.outcome != Refused && s.phase.Ready? && s.phase.rest != []
  }

  ghost function Marks(s: State, es: seq<Event>): nat
    decreases es
  {
    if es == [] then 0 else (if IsMark(s, es[0]) then 1 else 0) + Marks(Step(s, es[0]), es[1..])
  }

  lemma MarkTotal(scope: Scope, s: State, e: Event)
    requires Inv(s) && IsMark(s, e)
    ensures var s' := Step(s, e);
      && Population(scope, s'.tasks) == Population(scope, s.tasks)
      && Total(scope, s'.tasks) + (if Counts(scope, s.phase.rest[0].id, s.phase.rest[0].copy) then 1 else 0)
         <= Total(scope, s.tasks)
  {
    var f := s.phase.rest[0];
    assert Fresh(s.tasks, f);
    assert RowOk(s.tasks[f.id], s.sends[f.id], s.successes[f.id]);
    TotalUpdate(scope, s.tasks, f.id,
                Written(s.tasks[f.id], f.copy.(status := Processing, updatedAt := e.startedAt), e.at));
  }

  lemma SaveTotal(scope: Scope, s: State, outcome: UpdateOutcome, at: Time)
    requires Inv(s)
    ensures var s' := Step(s, Save(outcome, at));
      Population(scope, s'.tasks) == Population(scope, s.tasks) && Total(scope, s'.tasks) <= Total(scope, s.tasks)
  {
    if s.phase.Sent? && outcome != Refused {
      var f := s.phase.task;
      assert RowOk(s.tasks[f.id], s.sends[f.id], s.successes[f.id]);
      TotalUpdate(scope, s.tasks, f.id, Written(s.tasks[f.id], f.copy, at));
    }
  }

  /** What one event does to the total: a mark that takes effect uses one up, an insert brings three. */
  lemma StepTotal(scope: Scope, s: State, e: Event)
    requires Inv(s)
    ensures var s' := Step(s, e);
      && Population(scope, s'.tasks) >= Population(scope, s.tasks)
      && Total(scope, s'.tasks)
         + (if IsMark(s, e) && Counts(scope, s.phase.rest[0].id, s.phase.rest[0].copy) then 1 else 0)
         <= Total(scope, s.tasks) + 3 * (Population(scope, s'.tasks) - Population(scope, s.tasks))
  {
    match e
    case Insert(log, createdAt) => TotalSnoc(scope, s.tasks, NewTask(log, createdAt));
    case Mark(_, _, _) =>
      if IsMark(s, e) {
        MarkTotal(scope, s, e);
      }
    case Save(outcome, at) => SaveTotal(scope, s, outcome, at);
    case _ =>
  }

  lemma {:induction false} MarksBounded(s: State, es: seq<Event>)
    requires Inv(s)
    ensures var s' := Run(s, es);
      && Population(All, s'.tasks) >= Population(All, s.tasks)
      && Marks(s, es) + Total(All, s'.tasks)
         <= Total(All, s.tasks) + 3 * (Population(All, s'.tasks) - Population(All, s.tasks))
    decreases es
  {
    if es != [] {
      StepTotal(All, s, es[0]);
      StepInv(s, es[0]);
      MarksBounded(Step(s, es[0]), es[1..]);
    }
  }

  /** Termination: whatever fails on the way, n tasks are marked at most 3n times in all. */
  lemma AtMostThreeMarksPerTask(es: seq<Event>)
    ensures Marks(EMPTY_OUTBOX, es) <= 3 * |Run(EMPTY_OUTBOX, es).tasks|
  {
    MarksBounded(EMPTY_OUTBOX, es);
    TotalAtMost(All, Run(EMPTY_OUTBOX, es).tasks);
  }

  // ---- bounded waiting ----

  /** A fetch takes a batch without the target although the target could be fetched. */
  ghost predicate PassesOver(s: State, e: Event, target: nat) {
    && e.Fetch? && s.phase == Ready([]) && IsFetch(s.tasks, e.now, BATCH_SIZE, e.ids)
    && target < |s.tasks| && Eligible(s.tasks[target], e.now) && target !in e.ids
  }

  ghost function Passes(s: State, es: seq<Event>, target: nat): nat
    decreases es
  {
    if es == [] then 0
    else (if PassesOver(s, es[0], target) then 1 else 0) + Passes(Step(s, es[0]), es[1..], target)
  }

  /** Every mark takes effect and the worker is not stopped. Sends and saves may fail. */
  predicate MarksSucceed(es: seq<Event>) {
    forall i :: 0 <= i < |es| ==> es[i] != Stop && (es[i].Mark? ==> es[i].outcome != Refused)
  }

  /** Every task of a batch that passes the target over is a rival of it. */
  lemma {:induction false} BatchAllRivals(tasks: seq<Task>, ids: seq<nat>, target: nat, k: nat)
    requires forall i :: 0 <= i < |ids| ==> ids[i] < |tasks|
    requires target < |tasks| && k <= |ids|
    requires forall i :: 0 <= i < |ids| ==> ids[i] != target && tasks[ids[i]].createdAt <= tasks[target].createdAt
    ensures Waiting(Rivals(target, tasks[target].createdAt), FetchedTasks(tasks, ids)[k..]) == |ids| - k
    decreases |ids| - k
  {
    var fs := FetchedTasks(tasks, ids);
    if k < |ids| {
      BatchAllRivals(tasks, ids, target, k + 1);
      assert fs[k..][1..] == fs[k + 1..];
    }
  }

  lemma PassCosts(s: State, e: Event, target: nat)
    requires PassesOver(s, e, target)
    ensures Waiting(Rivals(target, s.tasks[target].createdAt), Step(s, e).phase.rest) == BATCH_SIZE
  {
    BatchAllRivals(s.tasks, e.ids, target, 0);
    assert FetchedTasks(s.tasks, e.ids)[0..] == FetchedTasks(s.tasks, e.ids);
  }

  /** Marks left to the rivals beyond the ones the current batch will use. */
  ghost function Slack(scope: Scope, s: State): int {
    Total(scope, s.tasks) - Waiting(scope, s.phase.rest)
  }

  lemma StepSlack(s: State, e: Event, target: nat)
    requires Inv(s) && target < |s.tasks|
    requires e != Stop && (e.Mark? ==> e.outcome != Refused)
    ensures var scope := Rivals(target, s.tasks[target].createdAt);
      var s' := Step(s, e);
      && target < |s'.tasks| && s'.tasks[target].createdAt == s.tasks[target].createdAt
      && Population(scope, s'.tasks) >= Population(scope, s.tasks)
      && (if PassesOver(s, e, target) then BATCH_SIZE else 0) + Slack(scope, s')
         <= Slack(scope, s) + 3 * (Population(scope, s'.tasks) - Population(scope, s.tasks))
  {
    StepTotal(Rivals(target, s.tasks[target].createdAt), s, e);
    if PassesOver(s, e, target) {
      PassCosts(s, e, target);
    }
  }

  lemma {:induction false} PassesBounded(s: State, es: seq<Event>, target: nat)
    requires Inv(s) && target < |s.tasks| && MarksSucceed(es)
    ensures var scope := Rivals(target, s.tasks[target].createdAt);
      var s' := Run(s, es);
      && target < |s'.tasks| && s'.tasks[target].createdAt == s.tasks[target].createdAt
      && BATCH_SIZE * Passes(s, es, target) + Slack(scope, s')
         <= Slack(scope, s) + 3 * (Population(scope, s'.tasks) - Population(scope, s.tasks))
    decreases es
  {
    if es != [] {
      StepSlack(s, es[0], target);
      StepInv(s, es[0]);
      assert MarksSucceed(es[1..]) by {
        forall i | 0 <= i < |es[1..]|
          ensures es[1..][i] != Stop && (es[1..][i].Mark? ==> es[1..][i].outcome != Refused)
        {
          assert es[1..][i] == es[i + 1];
        }
      }
      PassesBounded(Step(s, es[0]), es[1..], target);
    }
  }

  /**
   Bounded waiting: with r the rows other than the target ever inserted with a creation time no
   later than its own, the target is passed over by at most 3r/100 fetches, since each of them
   spends a mark of 100 rivals. Sends and saves may fail throughout.
   */
  lemma BoundedWaiting(s: State, es: seq<Event>, target: nat)
    requires Inv(s) && target < |s.tasks| && MarksSucceed(es)
    ensures var rivals := Rivals(target, s.tasks[target].createdAt);
      BATCH_SIZE * Passes(s, es, target) <= 3 * Population(rivals, Run(s, es).tasks)
  {
    var rivals := Rivals(target, s.tasks[target].createdAt);
    var s' := Run(s, es);
    PassesBounded(s, es, target);
    RunInv(s, es);
    InvBudgets(s');
    WaitingCovered(rivals, s'.tasks, s'.phase.rest);
    TotalAtMost(rivals, s.tasks);
  }
}
