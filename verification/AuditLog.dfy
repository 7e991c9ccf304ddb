/**
 From the events the handlers send, through the pipeline, to the log of one pool. Each event waits
 in a goroutine of its own to enter its channel (internal/audit/pipeline.go), so events may enter
 in another order than they were sent.
 */
module AuditLog {
  import opened Sequences
  import opened Orders
  import opened OrderDb
  import opened CommitOrder
  import opened AuditReplay
  import opened AuditPipeline

  /** Everything sent has been handed over. */
  predicate Drained(l: Lane) {
    l.waiting == multiset{} && l.queue == [] && l.worker.batch == []
  }

  /** The events of one order, in their order. */
  function Own(events: seq<StatusEvent>, id: OrderId): seq<StatusEvent> {
    if events == [] then []
    else
      var n := |events| - 1;
      Own(events[..n], id) + if events[n].order == id then [events[n]] else []
  }

  lemma {:induction false} LastIsOwn(events: seq<StatusEvent>, id: OrderId)
    ensures LastStage(events, id) == LastStage(Own(events, id), id)
  {
    if events != [] {
      var n := |events| - 1;
      if events[n].order == id {
        assert Own(events, id)[|Own(events, id)| - 1] == events[n];
      } else {
        LastIsOwn(events[..n], id);
        assert Own(events, id) == Own(events[..n], id);
      }
    }
  }

  /** A drained lane has logged what was sent, in the order it entered. */
  lemma DrainedLog(pools: nat, actions: seq<Action>, i: nat)
    requires i < pools
    ensures var s := AuditPipeline.Run(Start(pools), actions);
      && i < |s.pools|
      && (Drained(s.pools[i].status) ==>
            && s.pools[i].status.worker.handled == s.pools[i].status.entered
            && multiset(s.pools[i].status.entered) == Routed(s.sent, Status))
  {
    RunOk(Start(pools), actions);
    PoolCount(Start(pools), actions);
    var s := AuditPipeline.Run(Start(pools), actions);
    assert LaneOk(s.pools[i].Get(Status), s.sent, Status);
    if Drained(s.pools[i].status) {
      var l := s.pools[i].status;
      assert l.worker.handled + l.worker.batch + l.queue == l.worker.handled;
    }
  }

  /**
   Once the status lane of a pool is drained, replaying its log - `read` is what a reader makes of
   an event's data - gives the live orders of a run without stale batches and their stages, exactly
   when for every order the last event to enter says what the last event emitted for it says.
   */
  lemma LogReplayIff(pools: nat, actions: seq<Action>, i: nat, read: Event -> StatusEvent, ws: seq<Write>)
    requires i < pools && Positive(ws) && FreshRun(EMPTY_DB, ws)
    requires var s := AuditPipeline.Run(Start(pools), actions); i < |s.pools| && Drained(s.pools[i].status)
    ensures var l := AuditPipeline.Run(Start(pools), actions).pools[i].status;
      Replay(map[], Map(read, l.worker.handled)) == Stages(ApplyAll(EMPTY_DB, ws)) <==>
      forall id :: LastStage(Map(read, l.entered), id) == LastStage(EventsOfRun(EMPTY_DB, ws), id)
  {
    var l := AuditPipeline.Run(Start(pools), actions).pools[i].status;
    DrainedLog(pools, actions, i);
    AuditReplayIsFaithful(ws);
    SameReplayIff(Map(read, l.entered), EventsOfRun(EMPTY_DB, ws));
  }

  /** It is enough that the events of each order enter in the order they were emitted. */
  lemma LogFaithfulInOrder(pools: nat, actions: seq<Action>, i: nat, read: Event -> StatusEvent, ws: seq<Write>)
    requires i < pools && Positive(ws) && FreshRun(EMPTY_DB, ws)
    requires var s := AuditPipeline.Run(Start(pools), actions); i < |s.pools| && Drained(s.pools[i].status)
    requires var l := AuditPipeline.Run(Start(pools), actions).pools[i].status;
      forall id :: Own(Map(read, l.entered), id) == Own(EventsOfRun(EMPTY_DB, ws), id)
    ensures var l := AuditPipeline.Run(Start(pools), actions).pools[i].status;
      Replay(map[], Map(read, l.worker.handled)) == Stages(ApplyAll(EMPTY_DB, ws))
  {
    var l := AuditPipeline.Run(Start(pools), actions).pools[i].status;
    forall id ensures LastStage(Map(read, l.entered), id) == LastStage(EventsOfRun(EMPTY_DB, ws), id) {
      LastIsOwn(Map(read, l.entered), id);
      LastIsOwn(EventsOfRun(EMPTY_DB, ws), id);
    }
    LogReplayIff(pools, actions, i, read, ws);
  }

  // ---- and when they do not ----

  /** What happens to two events after both are sent: they enter the other way round. */
  function EnterSwapped(a: Event, b: Event): seq<Action> {
    [Enqueue(0, Status, b)] + ([Enqueue(0, Status, a)] +
    ([Receive(0, Status)] + ([Receive(0, Status)] + ([Flush(0, Status)] + []))))
  }

  function Swap(a: Event, b: Event): seq<Action> {
    [Send(a)] + ([Send(b)] + EnterSwapped(a, b))
  }

  lemma RunFirst(s: AuditPipeline.State, a: Action, rest: seq<Action>)
    ensures AuditPipeline.Run(s, [a] + rest) == AuditPipeline.Run(AuditPipeline.Step(s, a), rest)
  {
    assert ([a] + rest)[1..] == rest;
  }

  /** One pool with this status lane, its other lane idle. */
  function With(sent: seq<Event>, l: Lane): AuditPipeline.State {
    AuditPipeline.State(sent, [Pool(IDLE, l)])
  }

  lemma LaneFirst(sent: seq<Event>, l: Lane, a: Action, rest: seq<Action>)
    requires !a.Send? && a.pool == 0 && a.channel == Status
    ensures AuditPipeline.Run(With(sent, l), [a] + rest) == AuditPipeline.Run(With(sent, OnLane(l, a)), rest)
  {
    RunFirst(With(sent, l), a, rest);
    assert AuditPipeline.Step(With(sent, l), a) == With(sent, OnLane(l, a));
  }

  lemma SendFirst(sent: seq<Event>, l: Lane, e: Event, rest: seq<Action>)
    requires e.kind == StatusChange
    ensures AuditPipeline.Run(With(sent, l), [Send(e)] + rest) ==
            AuditPipeline.Run(With(sent + [e], l.(waiting := l.waiting + multiset{e})), rest)
  {
    RunFirst(With(sent, l), Send(e), rest);
    assert AuditPipeline.Step(With(sent, l), Send(e)) == With(sent + [e], l.(waiting := l.waiting + multiset{e}));
  }

  lemma BothEnter(sent: seq<Event>, a: Event, b: Event, rest: seq<Action>)
    ensures AuditPipeline.Run(With(sent, IDLE.(waiting := multiset{a, b})),
                              [Enqueue(0, Status, b)] + ([Enqueue(0, Status, a)] + rest)) ==
            AuditPipeline.Run(With(sent, Lane(multiset{}, [b, a], IDLE.worker, [b, a])), rest)
  {
    var start := IDLE.(waiting := multiset{a, b});
    LaneFirst(sent, start, Enqueue(0, Status, b), [Enqueue(0, Status, a)] + rest);
    var one := OnLane(start, Enqueue(0, Status, b));
    assert one == Lane(multiset{a}, [b], IDLE.worker, [b]);
    LaneFirst(sent, one, Enqueue(0, Status, a), rest);
    assert OnLane(one, Enqueue(0, Status, a)) == Lane(multiset{}, [b, a], IDLE.worker, [b, a]);
  }

  lemma BothLogged(sent: seq<Event>, a: Event, b: Event)
    ensures AuditPipeline.Run(With(sent, Lane(multiset{}, [b, a], IDLE.worker, [b, a])),
                              [Receive(0, Status)] + ([Receive(0, Status)] + ([Flush(0, Status)] + []))) ==
            With(sent, Lane(multiset{}, [], WorkerState([], [b, a], false), [b, a]))
  {
    var start := Lane(multiset{}, [b, a], IDLE.worker, [b, a]);
    LaneFirst(sent, start, Receive(0, Status), [Receive(0, Status)] + ([Flush(0, Status)] + []));
    var one := OnLane(start, Receive(0, Status));
    assert one == Lane(multiset{}, [a], WorkerState([b], [], false), [b, a]);
    LaneFirst(sent, one, Receive(0, Status), [Flush(0, Status)] + []);
    var two := OnLane(one, Receive(0, Status));
    assert two == Lane(multiset{}, [], WorkerState([b, a], [], false), [b, a]);
    LaneFirst(sent, two, Flush(0, Status), []);
    assert OnLane(two, Flush(0, Status)) == Lane(multiset{}, [], WorkerState([], [b, a], false), [b, a]);
  }

  lemma BothSent(a: Event, b: Event, rest: seq<Action>)
    requires a.kind == b.kind == StatusChange
    ensures AuditPipeline.Run(Start(1), [Send(a)] + ([Send(b)] + rest)) ==
            AuditPipeline.Run(With([a, b], IDLE.(waiting := multiset{a, b})), rest)
  {
    assert Start(1) == With([], IDLE);
    SendFirst([], IDLE, a, [Send(b)] + rest);
    assert [] + [a] == [a] && multiset{} + multiset{a} == multiset{a};
    SendFirst([a], IDLE.(waiting := multiset{a}), b, rest);
    assert [a] + [b] == [a, b] && multiset{a} + multiset{b} == multiset{a, b};
  }

  lemma SwapRuns(a: Event, b: Event)
    requires a.kind == b.kind == StatusChange
    ensures AuditPipeline.Run(Start(1), Swap(a, b)) ==
            With([a, b], Lane(multiset{}, [], WorkerState([], [b, a], false), [b, a]))
  {
    BothSent(a, b, EnterSwapped(a, b));
    BothEnter([a, b], a, b, [Receive(0, Status)] + ([Receive(0, Status)] + ([Flush(0, Status)] + [])));
    BothLogged([a, b], a, b);
  }

  /**
   Two events of one order can be logged the wrong way round: sent as stored and then issued, the
   drained log says that the order is stored.
   */
  lemma SwappedLogMisleads(a: Event, b: Event, read: Event -> StatusEvent, id: OrderId)
    requires a.kind == b.kind == StatusChange
    requires read(a) == StatusEvent(id, Reached(Stored)) && read(b) == StatusEvent(id, Reached(Issued))
    ensures var s := AuditPipeline.Run(Start(1), Swap(a, b));
      && |s.pools| == 1 && Drained(s.pools[0].status)
      && Replay(map[], Map(read, s.sent)) == map[id := Issued]
      && Replay(map[], Map(read, s.pools[0].status.worker.handled)) == map[id := Stored]
  {
    SwapRuns(a, b);
    assert Map(read, [a, b]) == [read(a)] + [read(b)] && Map(read, [b, a]) == [read(b)] + [read(a)];
    ReplayAppend(map[], [read(a)], [read(b)]);
    ReplayAppend(map[], [read(b)], [read(a)]);
    ReplayOne(map[], read(a));
    ReplayOne(map[], read(b));
    ReplayOne(Replay(map[], [read(a)]), read(b));
    ReplayOne(Replay(map[], [read(b)]), read(a));
  }
}
