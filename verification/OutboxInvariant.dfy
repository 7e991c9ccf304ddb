/** What every run of the outbox keeps, with a failure possible at every step. */
module OutboxInvariant {
  import opened Wrappers
  import opened Orders
  import opened Outbox

  /** Status, attempts, sends and successes of one row go together. */
  predicate RowOk(t: Task, sends: nat, successes: nat) {
    && t.finishedAt.None?
    && match t.status
       case Created => t.attempts == 0 && sends == 0 && successes == 0 && t.nextRetry.None?
       case Failed => 1 <= t.attempts <= 2 && sends == t.attempts && successes == 0
       case NoAttemptsLeft => t.attempts == 3 && sends == 3 && successes == 0
       case Finished => t.attempts <= 2 && sends == t.attempts + 1 && successes == 1
       case Processing => t.attempts <= 2 && t.attempts <= sends <= t.attempts + 1 && successes <= sends - t.attempts
  }

  /** A task not yet reached still equals its row, and its row still waits. */
  predicate Fresh(tasks: seq<Task>, f: Fetched) {
    && f.id < |tasks| && f.copy == Scan(tasks[f.id])
    && (tasks[f.id].status == Created || tasks[f.id].status == Failed)
  }

  ghost predicate RestOk(tasks: seq<Task>, rest: seq<Fetched>) {
    && (forall i :: 0 <= i < |rest| ==> Fresh(tasks, rest[i]))
    && (forall i, j :: 0 <= i < j < |rest| ==> rest[i].id != rest[j].id)
  }

  /** The task in hand is marked in its row, and no task of the rest has that row. */
  ghost predicate InHand(s: State, f: Fetched, rest: seq<Fetched>) {
    && f.id < |s.tasks| == |s.sends| == |s.successes|
    && s.tasks[f.id].status == Processing && s.tasks[f.id].log == f.copy.log
    && (forall i :: 0 <= i < |rest| ==> rest[i].id != f.id)
  }

  ghost predicate PhaseOk(s: State)
    requires |s.sends| == |s.successes| == |s.tasks|
  {
    match s.phase
    case Ready(rest) => RestOk(s.tasks, rest)
    case Marked(f, _, rest) =>
      && RestOk(s.tasks, rest) && InHand(s, f, rest)
      && f.copy.attempts == s.tasks[f.id].attempts == s.sends[f.id] && s.successes[f.id] == 0
    case Sent(f, rest) =>
      && RestOk(s.tasks, rest) && InHand(s, f, rest)
      && s.sends[f.id] == s.tasks[f.id].attempts + 1
      && f.copy.status != Created && f.copy.status != Processing
      && (f.copy.status == Finished ==> f.copy.attempts == s.tasks[f.id].attempts)
      && (f.copy.status != Finished ==> f.copy.attempts == s.tasks[f.id].attempts + 1)
      && RowOk(f.copy.(finishedAt := None), s.sends[f.id], s.successes[f.id])
  }

  ghost predicate Inv(s: State) {
    && |s.sends| == |s.successes| == |s.tasks|
    && (forall i :: 0 <= i < |s.tasks| ==> RowOk(s.tasks[i], s.sends[i], s.successes[i]))
    && PhaseOk(s)
  }

  lemma MarkInv(s: State, outcome: UpdateOutcome, startedAt: Time, at: Time)
    requires Inv(s)
    ensures Inv(Step(s, Mark(outcome, startedAt, at)))
  {
  }

  lemma SaveInv(s: State, outcome: UpdateOutcome, at: Time)
    requires Inv(s)
    ensures Inv(Step(s, Save(outcome, at)))
  {
  }

  lemma InsertInv(s: State, log: string, createdAt: Time)
    requires Inv(s)
    ensures Inv(Step(s, Insert(log, createdAt)))
  {
  }

  lemma SendInv(s: State, ok: bool)
    requires Inv(s)
    ensures Inv(Step(s, Send(ok)))
  {
  }

  lemma StepInv(s: State, e: Event)
    requires Inv(s)
    ensures Inv(Step(s, e))
  {
    match e
    case Insert(log, createdAt) => InsertInv(s, log, createdAt);
    case Fetch(_, _) =>
    case Mark(outcome, startedAt, at) => MarkInv(s, outcome, startedAt, at);
    case Send(ok) => SendInv(s, ok);
    case Save(outcome, at) => SaveInv(s, outcome, at);
    case Stop =>
  }

  lemma {:induction false} RunInv(s: State, es: seq<Event>)
    requires Inv(s)
    ensures Inv(Run(s, es))
    decreases es
  {
    if es != [] {
      StepInv(s, es[0]);
      RunInv(Step(s, es[0]), es[1..]);
    }
  }

  /**
   Outbox run invariant: in every run, with any updates, sends and the worker itself failing,
   CREATED has attempt 0, FAILED 1 or 2, NO_ATTEMPTS_LEFT exactly 3, PROCESSING and FINISHED at
   most 2; a task is sent at most 3 times and at most once with success, a FINISHED one exactly
   once; finished_at is never written; and a batch works on copies that still equal their rows.
   */
  lemma OutboxSafety(es: seq<Event>, i: nat)
    requires i < |Run(EMPTY_OUTBOX, es).tasks|
    ensures var s := Run(EMPTY_OUTBOX, es);
      && |s.sends| == |s.successes| == |s.tasks|
      && RowOk(s.tasks[i], s.sends[i], s.successes[i])
      && s.sends[i] <= 3 && s.successes[i] <= 1
      && (s.tasks[i].status == Finished ==> s.successes[i] == 1)
      && forall k :: 0 <= k < |s.phase.rest| ==> Fresh(s.tasks, s.phase.rest[k])
  {
    RunInv(EMPTY_OUTBOX, es);
  }

  predicate Settled(t: Task) { t.status == Finished || t.status == NoAttemptsLeft }

  /** Both final states are absorbing: no step writes such a row or sends it again. */
  lemma SettledStep(s: State, e: Event, i: nat)
    requires Inv(s) && i < |s.tasks| && Settled(s.tasks[i])
    ensures var s' := Step(s, e);
      i < |s'.tasks| && s'.tasks[i] == s.tasks[i] && i < |s'.sends| && s'.sends[i] == s.sends[i]
  {
  }

  lemma {:induction false} SettledForever(s: State, es: seq<Event>, i: nat)
    requires Inv(s) && i < |s.tasks| && Settled(s.tasks[i])
    ensures var s' := Run(s, es);
      i < |s'.tasks| && s'.tasks[i] == s.tasks[i] && i < |s'.sends| && s'.sends[i] == s.sends[i]
    decreases es
  {
    if es != [] {
      SettledStep(s, es[0], i);
      StepInv(s, es[0]);
      SettledForever(Step(s, es[0]), es[1..], i);
    }
  }

  /** A task whose send failed is offered again strictly after two seconds, and not at all after the third failure. */
  lemma RetryAfterDelay(s: State, startedAt: Time, markedAt: Time, savedAt: Time, now: Time)
    requires Inv(s) && s.phase.Ready? && s.phase.rest != []
    ensures var id := s.phase.rest[0].id;
      var s' := Step(Step(Step(s, Mark(Done, startedAt, markedAt)), Send(false)), Save(Done, savedAt));
      && id < |s.tasks| && id < |s'.tasks|
      && (Eligible(s'.tasks[id], now) <==> s.tasks[id].attempts < 2 && startedAt + 2 * 1_000_000 < now)
  {
  }

  // ---- tasks that are lost ----

  predicate HasInHand(s: State, i: nat) {
    !s.phase.Ready? && s.phase.task.id == i
  }

  /** Marked PROCESSING, and the worker is not working on it. */
  predicate Stuck(s: State, i: nat) {
    i < |s.tasks| && s.tasks[i].status == Processing && !HasInHand(s, i)
  }

  lemma StuckStep(s: State, e: Event, i: nat)
    requires Inv(s) && Stuck(s, i)
    ensures var s' := Step(s, e);
      Stuck(s', i) && s'.tasks[i] == s.tasks[i] && i < |s'.sends| && s'.sends[i] == s.sends[i]
  {
  }

  /**
   A stuck task stays stuck in every run: it is never eligible, written or sent again. So not
   every task ends finished or out of attempts.
   */
  lemma {:induction false} StuckForever(s: State, es: seq<Event>, i: nat, now: Time)
    requires Inv(s) && Stuck(s, i)
    ensures var s' := Run(s, es);
      && Stuck(s', i) && s'.tasks[i] == s.tasks[i] && !Eligible(s'.tasks[i], now)
      && i < |s'.sends| && s'.sends[i] == s.sends[i]
    decreases es
  {
    if es != [] {
      StuckStep(s, es[0], i);
      StepInv(s, es[0]);
      StuckForever(Step(s, es[0]), es[1..], i, now);
    }
  }

  /**
   How a task gets stuck, and the only ways: the worker stops with it in hand, its mark commits
   but is reported as failed, or its final update is refused.
   */
  lemma GetsStuckIff(s: State, e: Event, i: nat)
    requires Inv(s) && i < |s.tasks| && !Stuck(s, i)
    ensures Stuck(Step(s, e), i) <==>
      || (e.Stop? && HasInHand(s, i))
      || (e.Mark? && e.outcome == DoneButReported && s.phase.Ready? && s.phase.rest != [] && s.phase.rest[0].id == i)
      || (e.Save? && e.outcome == Refused && s.phase.Sent? && HasInHand(s, i))
  {
  }
}
