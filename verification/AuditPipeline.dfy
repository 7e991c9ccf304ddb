/**
 The audit pipeline: events fan out to one channel of every pool, and one batching worker drains
 each channel (internal/audit/pipeline.go, internal/audit/worker.go, internal/audit/worker_pool.go).
 */
module AuditPipeline {
  datatype EventType = StatusChange | ApiRequest | ApiResponse | OtherType

  datatype Event = Event(kind: EventType, data: string, time: int)

  datatype Channel = Api | Status

  const FLUSH_SIZE: nat := 5
  const CHANNEL_CAPACITY: nat := 1000

  /** The switch of SendEvent. */
  predicate Routes(kind: EventType, c: Channel) {
    match c
    case Api => kind == ApiRequest || kind == ApiResponse
    case Status => kind == StatusChange
  }

  // ---- one worker ----

  /** What a select of the worker loop can deliver. */
  datatype Signal = Arrives(event: Event) | Tick | Done

  datatype WorkerState = WorkerState(batch: seq<Event>, handled: seq<Event>, stopped: bool)

  function Flushed(w: WorkerState): WorkerState {
    w.(batch := [], handled := w.handled + w.batch)
  }

  function OnSignal(w: WorkerState, s: Signal): WorkerState {
    if w.stopped then w
    else match s
      case Arrives(e) =>
        var fuller := w.(batch := w.batch + [e]);
        if |fuller.batch| >= FLUSH_SIZE then Flushed(fuller) else fuller
      case Tick => Flushed(w)
      case Done => Flushed(w).(stopped := true)
  }

  function OnSignals(w: WorkerState, ss: seq<Signal>): WorkerState
    decreases ss
  {
    if ss == [] then w else OnSignals(OnSignal(w, ss[0]), ss[1..])
  }

  /** The event loop of Worker.Run with its reused buffer. */
  class Worker {
    const buffer: array<Event>
    var count: nat
    var handled: seq<Event>
    var stopped: bool

    ghost predicate Valid()
      reads this
    {
      buffer.Length == FLUSH_SIZE && count < FLUSH_SIZE
    }

    ghost function State(): WorkerState
      requires Valid()
      reads this, buffer
    {
      WorkerState(buffer[..count], handled, stopped)
    }

    constructor (placeholder: Event)
      ensures Valid() && fresh(buffer) && State() == WorkerState([], [], false)
    {
      buffer := new Event[FLUSH_SIZE](_ => placeholder);
      count, handled, stopped := 0, [], false;
    }

    /** processBatch: hand over the buffered events one by one. */
    method ProcessBatch()
      requires buffer.Length == FLUSH_SIZE && count <= FLUSH_SIZE
      modifies this`count, this`handled
      ensures count == 0 && handled == old(handled) + buffer[..old(count)]
    {
      for i := 0 to count
        invariant count == old(count) && handled == old(handled) + buffer[..i]
      {
        handled := handled + [buffer[i]];
        assert buffer[..i + 1] == buffer[..i] + [buffer[i]];
      }
      count := 0;
    }

    method Run(signals: seq<Signal>)
      requires Valid()
      modifies this, buffer
      ensures Valid() && State() == OnSignals(old(State()), signals)
    {
      ghost var start := State();
      assert signals[0..] == signals;
      for i := 0 to |signals|
        invariant Valid()
        invariant OnSignals(State(), signals[i..]) == OnSignals(start, signals)
      {
        Select(signals[i]);
        assert signals[i..][1..] == signals[i + 1..];
      }
    }

    method Select(s: Signal)
      requires Valid()
      modifies this, buffer
      ensures Valid() && State() == OnSignal(old(State()), s)
    {
      if stopped {
        return;
      }
      match s
      case Arrives(e) =>
        buffer[count] := e;
        count := count + 1;
        assert buffer[..count] == old(buffer[..count]) + [e];
        if count >= FLUSH_SIZE {
          ProcessBatch();
        }
      case Tick =>
        if count > 0 {
          ProcessBatch();
        }
      case Done =>
        if count > 0 {
          ProcessBatch();
        }
        stopped := true;
    }
  }

  // ---- the whole pipeline ----

  /**
   One channel of one pool: goroutines waiting to enqueue, the queue, its worker, and everything
   that ever entered the queue, in order.
   */
  datatype Lane = Lane(waiting: multiset<Event>, queue: seq<Event>, worker: WorkerState, entered: seq<Event>)

  datatype Pool = Pool(api: Lane, status: Lane) {
    function Get(c: Channel): Lane {
      match c case Api => api case Status => status
    }

    function Set(c: Channel, l: Lane): Pool {
      match c case Api => this.(api := l) case Status => this.(status := l)
    }
  }

  datatype State = State(sent: seq<Event>, pools: seq<Pool>)

  const IDLE := Lane(multiset{}, [], WorkerState([], [], false), [])

  function Start(pools: nat): State {
    State([], seq(pools, _ => Pool(IDLE, IDLE)))
  }

  datatype Action =
    | Send(event: Event)
    | Enqueue(pool: nat, channel: Channel, event: Event)
    | Receive(pool: nat, channel: Channel)
    | Flush(pool: nat, channel: Channel)
    | Cancel(pool: nat, channel: Channel)

  function Offer(l: Lane, e: Event, c: Channel): Lane {
    if Routes(e.kind, c) then l.(waiting := l.waiting + multiset{e}) else l
  }

  function OnLane(l: Lane, a: Action): Lane {
    match a
    case Send(_) => l
    case Enqueue(_, _, e) =>
      if e in l.waiting && |l.queue| < CHANNEL_CAPACITY
      then l.(waiting := l.waiting - multiset{e}, queue := l.queue + [e], entered := l.entered + [e])
      else l
    case Receive(_, _) =>
      if l.queue != [] && !l.worker.stopped
      then l.(queue := l.queue[1..], worker := OnSignal(l.worker, Arrives(l.queue[0])))
      else l
    case Flush(_, _) => l.(worker := OnSignal(l.worker, Tick))
    case Cancel(_, _) => l.(worker := OnSignal(l.worker, Done))
  }

  function Step(s: State, a: Action): State {
    match a
    case Send(e) =>
      State(s.sent + [e], seq(|s.pools|, i requires 0 <= i < |s.pools| =>
        Pool(Offer(s.pools[i].api, e, Api), Offer(s.pools[i].status, e, Status))))
    case _ =>
      if a.pool < |s.pools|
      then s.(pools := s.pools[a.pool := s.pools[a.pool].Set(a.channel, OnLane(s.pools[a.pool].Get(a.channel), a))])
      else s
  }

  function Run(s: State, actions: seq<Action>): State
    decreases actions
  {
    if actions == [] then s else Run(Step(s, actions[0]), actions[1..])
  }

  /** The sent events that belong to a channel. */
  function Routed(sent: seq<Event>, c: Channel): multiset<Event> {
    if sent == [] then multiset{}
    else
      var n := |sent| - 1;
      Routed(sent[..n], c) + if Routes(sent[n].kind, c) then multiset{sent[n]} else multiset{}
  }

  /** All sent events but those of an unknown type. */
  function Audited(sent: seq<Event>): multiset<Event> {
    if sent == [] then multiset{}
    else
      var n := |sent| - 1;
      Audited(sent[..n]) + if sent[n].kind != OtherType then multiset{sent[n]} else multiset{}
  }

  /** The two channels share the audited events between them: none twice, none left out. */
  lemma {:induction false} ChannelsPartition(sent: seq<Event>)
    ensures Routed(sent, Api) + Routed(sent, Status) == Audited(sent)
  {
    if sent != [] {
      ChannelsPartition(sent[..|sent| - 1]);
    }
  }

  /** Nothing lost, nothing doubled, first in first out, short batches, and nothing held after cancellation. */
  ghost predicate LaneOk(l: Lane, sent: seq<Event>, c: Channel) {
    && l.worker.handled + l.worker.batch + l.queue == l.entered
    && multiset(l.entered) + l.waiting == Routed(sent, c)
    && |l.queue| <= CHANNEL_CAPACITY
    && |l.worker.batch| < FLUSH_SIZE
    && (l.worker.stopped ==> l.worker.batch == [])
  }

  ghost predicate Inv(s: State) {
    forall i, c :: 0 <= i < |s.pools| ==> LaneOk(s.pools[i].Get(c), s.sent, c)
  }

  lemma OfferOk(l: Lane, sent: seq<Event>, c: Channel, e: Event)
    requires LaneOk(l, sent, c)
    ensures LaneOk(Offer(l, e, c), sent + [e], c)
  {
  }

  lemma SignalKeeps(w: WorkerState, s: Signal)
    requires |w.batch| < FLUSH_SIZE && (w.stopped ==> w.batch == [])
    ensures var w' := OnSignal(w, s);
      && w'.handled + w'.batch == w.handled + w.batch + (if s.Arrives? && !w.stopped then [s.event] else [])
      && |w'.batch| < FLUSH_SIZE && (w'.stopped ==> w'.batch == [])
  {
  }

  lemma EnqueueOk(l: Lane, sent: seq<Event>, c: Channel, a: Action)
    requires LaneOk(l, sent, c) && a.Enqueue?
    ensures LaneOk(OnLane(l, a), sent, c)
  {
  }

  lemma ReceiveOk(l: Lane, sent: seq<Event>, c: Channel, a: Action)
    requires LaneOk(l, sent, c) && a.Receive?
    ensures LaneOk(OnLane(l, a), sent, c)
  {
    if l.queue != [] && !l.worker.stopped {
      SignalKeeps(l.worker, Arrives(l.queue[0]));
      var done := l.worker.handled + l.worker.batch;
      assert done + [l.queue[0]] + l.queue[1..] == done + l.queue;
    }
  }

  lemma LaneStepOk(l: Lane, sent: seq<Event>, c: Channel, a: Action)
    requires LaneOk(l, sent, c) && !a.Send?
    ensures LaneOk(OnLane(l, a), sent, c)
  {
    match a
    case Enqueue(_, _, e) => EnqueueOk(l, sent, c, a);
    case Receive(_, _) => ReceiveOk(l, sent, c, a);
    case Flush(_, _) => HandOverOk(l, sent, c, Tick);
    case Cancel(_, _) => HandOverOk(l, sent, c, Done);
  }

  lemma HandOverOk(l: Lane, sent: seq<Event>, c: Channel, signal: Signal)
    requires LaneOk(l, sent, c) && !signal.Arrives?
    ensures LaneOk(l.(worker := OnSignal(l.worker, signal)), sent, c)
  {
    SignalKeeps(l.worker, signal);
    var w, w' := l.worker, OnSignal(l.worker, signal);
    assert w'.handled + w'.batch == w.handled + w.batch;
  }

  lemma SendOk(s: State, e: Event)
    requires Inv(s)
    ensures Inv(Step(s, Send(e)))
  {
    var s' := Step(s, Send(e));
    forall i, c | 0 <= i < |s'.pools| ensures LaneOk(s'.pools[i].Get(c), s'.sent, c) {
      assert LaneOk(s.pools[i].Get(c), s.sent, c);
      OfferOk(s.pools[i].Get(c), s.sent, c, e);
    }
  }

  lemma StepOk(s: State, a: Action)
    requires Inv(s)
    ensures Inv(Step(s, a))
  {
    if a.Send? {
      SendOk(s, a.event);
    } else if a.pool < |s.pools| {
      LaneStepOk(s.pools[a.pool].Get(a.channel), s.sent, a.channel, a);
      ReplaceLaneOk(s, a.pool, a.channel, OnLane(s.pools[a.pool].Get(a.channel), a));
    }
  }

  lemma ReplaceLaneOk(s: State, pool: nat, channel: Channel, l: Lane)
    requires Inv(s) && pool < |s.pools| && LaneOk(l, s.sent, channel)
    ensures Inv(s.(pools := s.pools[pool := s.pools[pool].Set(channel, l)]))
  {
    var s' := s.(pools := s.pools[pool := s.pools[pool].Set(channel, l)]);
    forall i, c | 0 <= i < |s'.pools| ensures LaneOk(s'.pools[i].Get(c), s'.sent, c) {
      assert LaneOk(s.pools[i].Get(c), s.sent, c);
      GetAfterSet(s.pools[pool], channel, l, c);
      assert i != pool ==> s'.pools[i] == s.pools[i];
      assert i == pool && c != channel ==> s'.pools[i].Get(c) == s.pools[i].Get(c);
    }
  }

  lemma GetAfterSet(p: Pool, c: Channel, l: Lane, other: Channel)
    ensures p.Set(c, l).Get(other) == if other == c then l else p.Get(other)
  {
  }

  lemma {:induction false} RunOk(s: State, actions: seq<Action>)
    requires Inv(s)
    ensures Inv(Run(s, actions))
    decreases actions
  {
    if actions != [] {
      StepOk(s, actions[0]);
      RunOk(Step(s, actions[0]), actions[1..]);
    }
  }

  /**
   Event conservation: at every moment and in every pool and channel, the events sent are exactly
   those waiting to enqueue, queued, batched and handled; a worker handles what it received once
   and in order, holds fewer than five events between selects, and none once cancelled.
   */
  lemma EventConservation(pools: nat, actions: seq<Action>, i: nat, c: Channel)
    requires i < pools
    ensures var s := Run(Start(pools), actions);
      && i < |s.pools|
      && var l := s.pools[i].Get(c);
         && Routed(s.sent, c) == l.waiting + multiset(l.queue) + multiset(l.worker.batch) + multiset(l.worker.handled)
         && l.worker.handled + l.worker.batch <= l.entered
         && |l.queue| <= 1000 && |l.worker.batch| < 5
         && (l.worker.stopped ==> l.worker.batch == [])
  {
    RunOk(Start(pools), actions);
    PoolCount(Start(pools), actions);
    var s := Run(Start(pools), actions);
    var l := s.pools[i].Get(c);
    assert LaneOk(l, s.sent, c);
    assert l.entered == l.worker.handled + l.worker.batch + l.queue;
  }

  lemma {:induction false} PoolCount(s: State, actions: seq<Action>)
    ensures |Run(s, actions).pools| == |s.pools|
    decreases actions
  {
    if actions != [] {
      PoolCount(Step(s, actions[0]), actions[1..]);
    }
  }

  // ---- batches of five, and nothing left behind ----

  function Arrivals(es: seq<Event>): seq<Signal> {
    seq(|es|, i requires 0 <= i < |es| => Arrives(es[i]))
  }

  lemma {:induction false} SignalsSnoc(w: WorkerState, ss: seq<Signal>, last: Signal)
    ensures OnSignals(w, ss + [last]) == OnSignal(OnSignals(w, ss), last)
    decreases ss
  {
    if ss == [] {
      assert [last][1..] == [];
    } else {
      assert (ss + [last])[1..] == ss[1..] + [last];
      SignalsSnoc(OnSignal(w, ss[0]), ss[1..], last);
    }
  }

  lemma ArrivalStep(held: seq<Event>, handled: seq<Event>, e: Event)
    requires |held| < 5
    ensures OnSignal(WorkerState(held, handled, false), Arrives(e)) ==
      if |held| == 4 then WorkerState([], handled + (held + [e]), false) else WorkerState(held + [e], handled, false)
  {
  }

  lemma SliceSnoc(es: seq<Event>, from: nat, n: nat)
    requires from <= n < |es|
    ensures es[from..n] + [es[n]] == es[from..n + 1]
  {
  }

  lemma SlicesJoin(es: seq<Event>, from: nat, n: nat)
    requires from <= n <= |es|
    ensures es[..from] + es[from..n] == es[..n] && es[n..n] == []
  {
  }

  /** How the parts before and after the last full five grow by one event. */
  lemma NextFive(es: seq<Event>, n: nat)
    requires n < |es|
    ensures var full, next := n - n % 5, n + 1 - (n + 1) % 5;
      && es[full..n] + [es[n]] == es[full..n + 1]
      && next == (if n % 5 == 4 then n + 1 else full) && |es[full..n]| == n % 5
      && (n % 5 == 4 ==> es[..full] + es[full..n + 1] == es[..next] && es[next..n + 1] == [])
  {
    SliceSnoc(es, n - n % 5, n);
    SlicesJoin(es, n - n % 5, n + 1);
  }

  /** Between ticks a worker hands over its events five at a time. */
  lemma {:induction false} FiveAtATime(es: seq<Event>, n: nat)
    requires n <= |es|
    ensures var full := n - n % 5;
      OnSignals(WorkerState([], [], false), Arrivals(es[..n])) == WorkerState(es[full..n], es[..full], false)
    decreases n
  {
    if n > 0 {
      var full := n - 1 - (n - 1) % 5;
      FiveAtATime(es, n - 1);
      assert Arrivals(es[..n]) == Arrivals(es[..n - 1]) + [Arrives(es[n - 1])];
      SignalsSnoc(WorkerState([], [], false), Arrivals(es[..n - 1]), Arrives(es[n - 1]));
      NextFive(es, n - 1);
      ArrivalStep(es[full..n - 1], es[..full], es[n - 1]);
    }
  }

  /** A tick hands over whatever is held. */
  lemma TickHandsOver(w: WorkerState)
    requires !w.stopped
    ensures OnSignal(w, Tick) == WorkerState([], w.handled + w.batch, false)
  {
  }

  function ReceiveTimes(l: Lane, n: nat): Lane
    decreases n
  {
    if n == 0 then l else ReceiveTimes(OnLane(l, Receive(0, Status)), n - 1)
  }

  lemma ReceiveOne(l: Lane, sent: seq<Event>, c: Channel)
    requires LaneOk(l, sent, c) && !l.worker.stopped && l.queue != []
    ensures var after := OnLane(l, Receive(0, Status));
      && LaneOk(after, sent, c) && after.queue == l.queue[1..] && !after.worker.stopped
      && after.entered == l.entered && after.waiting == l.waiting
  {
    ReceiveOk(l, sent, c, Receive(0, Status));
  }

  lemma {:induction false} QueueEmpties(l: Lane, sent: seq<Event>, c: Channel)
    requires LaneOk(l, sent, c) && !l.worker.stopped
    ensures var after := ReceiveTimes(l, |l.queue|);
      && LaneOk(after, sent, c) && after.queue == [] && !after.worker.stopped
      && after.entered == l.entered && after.waiting == l.waiting
    decreases |l.queue|
  {
    if l.queue != [] {
      ReceiveOne(l, sent, c);
      var next := OnLane(l, Receive(0, Status));
      QueueEmpties(next, sent, c);
      assert ReceiveTimes(l, |l.queue|) == ReceiveTimes(next, |next.queue|);
    }
  }

  /** From every state of a lane whose worker runs, receiving the queue and one tick hand over all that entered. */
  lemma LaneDrains(l: Lane, sent: seq<Event>, c: Channel)
    requires LaneOk(l, sent, c) && !l.worker.stopped
    ensures var after := OnLane(ReceiveTimes(l, |l.queue|), Flush(0, Status));
      && after.worker.handled == l.entered && after.queue == [] && after.worker.batch == []
      && after.waiting == l.waiting
  {
    QueueEmpties(l, sent, c);
    var empty := ReceiveTimes(l, |l.queue|);
    TickHandsOver(empty.worker);
    assert empty.worker.handled + empty.worker.batch + [] == empty.worker.handled + empty.worker.batch;
  }

  /** A waiting event enters as soon as the queue holds fewer than a thousand. */
  lemma WaitingEnters(l: Lane, pool: nat, c: Channel, e: Event)
    requires e in l.waiting && |l.queue| < 1000
    ensures var after := OnLane(l, Enqueue(pool, c, e));
      && after.queue == l.queue + [e] && after.entered == l.entered + [e]
      && after.waiting == l.waiting - multiset{e} && after.worker == l.worker
  {
  }

  /** Cancelling hands over what the worker holds and stops it. */
  lemma CancelStops(l: Lane, pool: nat, c: Channel)
    requires !l.worker.stopped
    ensures OnLane(l, Cancel(pool, c)).worker == WorkerState([], l.worker.handled + l.worker.batch, true)
  {
  }

  lemma StoppedStep(s: State, a: Action, i: nat, c: Channel)
    requires i < |s.pools| && s.pools[i].Get(c).worker.stopped
    ensures i < |Step(s, a).pools| && Step(s, a).pools[i].Get(c).worker == s.pools[i].Get(c).worker
  {
    if !a.Send? && a.pool < |s.pools| {
      GetAfterSet(s.pools[a.pool], a.channel, OnLane(s.pools[a.pool].Get(a.channel), a), c);
    }
  }

  /** A stopped worker hands over nothing more, whatever is still sent, enqueued or waiting. */
  lemma {:induction false} StoppedForever(s: State, actions: seq<Action>, i: nat, c: Channel)
    requires i < |s.pools| && s.pools[i].Get(c).worker.stopped
    ensures i < |Run(s, actions).pools| && Run(s, actions).pools[i].Get(c).worker == s.pools[i].Get(c).worker
    decreases actions
  {
    if actions != [] {
      StoppedStep(s, actions[0], i, c);
      StoppedForever(Step(s, actions[0]), actions[1..], i, c);
    }
  }
}
