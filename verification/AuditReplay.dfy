/** The status-change events the write handlers emit (internal/api/api_handler.go), and what they record. */
module AuditReplay {
  import opened Wrappers
  import opened Orders
  import opened OrderDb
  import opened Lifecycle
  import opened CommitOrder

  datatype Change = Reached(stage: Stage) | Deleted

  datatype StatusEvent = StatusEvent(order: OrderId, change: Change)

  function TargetStage(kind: Kind): Stage {
    match kind case Issue => Issued case Refund => Refunded
  }

  function BatchEvents(ids: seq<OrderId>, stage: Stage): seq<StatusEvent> {
    if ids == [] then [] else [StatusEvent(ids[0], Reached(stage))] + BatchEvents(ids[1..], stage)
  }

  /** The events of one handler call, in the order they are sent. */
  function EventsOf(db: Db, w: Write): seq<StatusEvent> {
    match w
    case Accept(req, _, checkedAt, _) =>
      if JudgeAccept(db, req, checkedAt).Accepted? then [StatusEvent(req.id, Reached(Stored))] else []
    case Return(id, at) =>
      if JudgeReturn(db, id, at).Returned? then [StatusEvent(id, Deleted)] else []
    case Batch(kind, user, ids, at) =>
      match JudgeBatch(kind, db.rows, user, ids, at)
      case Aborted => []
      case Committed(processed, _, _) => BatchEvents(processed, TargetStage(kind))
  }

  function EventsOfRun(db: Db, ws: seq<Write>): seq<StatusEvent>
    decreases ws
  {
    if ws == [] then [] else EventsOf(db, ws[0]) + EventsOfRun(Apply(db, ws[0]), ws[1..])
  }

  /** IssueRefundOrders sends one event per processed id. */
  method EmitBatch(processed: seq<OrderId>, stage: Stage) returns (sent: seq<StatusEvent>)
    ensures sent == BatchEvents(processed, stage)
  {
    sent := [];
    for i := 0 to |processed|
      invariant sent + BatchEvents(processed[i..], stage) == BatchEvents(processed, stage)
    {
      sent := sent + [StatusEvent(processed[i], Reached(stage))];
    }
  }

  /** A reader of the audit log keeps the last known stage of each order. */
  function Replay(known: map<OrderId, Stage>, events: seq<StatusEvent>): map<OrderId, Stage>
    decreases events
  {
    if events == [] then known
    else
      var e := events[0];
      Replay(match e.change
             case Reached(stage) => known[e.order := stage]
             case Deleted => known - {e.order},
             events[1..])
  }

  /** The truth in the table: every live order with its derived status. */
  function Stages(db: Db): map<OrderId, Stage> {
    map id | id in db.rows :: StageOf(db.rows[id].order)
  }

  lemma {:induction false} ReplayAppend(known: map<OrderId, Stage>, a: seq<StatusEvent>, b: seq<StatusEvent>)
    ensures Replay(known, a + b) == Replay(Replay(known, a), b)
    decreases a
  {
    if a == [] {
      assert a + b == b;
    } else {
      assert (a + b)[1..] == a[1..] + b;
      ReplayAppend(match a[0].change
                   case Reached(stage) => known[a[0].order := stage]
                   case Deleted => known - {a[0].order}, a[1..], b);
    }
  }

  lemma {:induction false} ReplayBatch(known: map<OrderId, Stage>, ids: seq<OrderId>, stage: Stage)
    requires forall id :: id in ids ==> id in known
    ensures Replay(known, BatchEvents(ids, stage)) == map id | id in known :: if id in ids then stage else known[id]
    decreases ids
  {
    if ids != [] {
      var events := BatchEvents(ids, stage);
      assert events[1..] == BatchEvents(ids[1..], stage);
      ReplayBatch(known[ids[0] := stage], ids[1..], stage);
      assert ids == [ids[0]] + ids[1..];
    }
  }

  lemma StagesAfterStamps(kind: Kind, db: Db, processed: seq<OrderId>, at: Time, id: OrderId)
    requires id in db.rows
    ensures var after := Stages(db.(rows := StampRows(kind, db.rows, processed, at)));
      && after.Keys == db.rows.Keys
      && after[id] == StageOf(if id in processed then Stamp(kind, db.rows[id].order, at) else db.rows[id].order)
  {
  }

  lemma ReplayAfterBatch(db: Db, processed: seq<OrderId>, stage: Stage, id: OrderId)
    requires id in db.rows && forall id :: id in processed ==> id in db.rows
    ensures var replayed := Replay(Stages(db), BatchEvents(processed, stage));
      && replayed.Keys == db.rows.Keys
      && replayed[id] == if id in processed then stage else StageOf(db.rows[id].order)
  {
    ReplayBatch(Stages(db), processed, stage);
  }

  /** The events of a batch and the table say the same of one order, unless it missed the stage they name. */
  lemma OrderReplayIff(
    kind: Kind, db: Db, processed: seq<OrderId>, at: Time, replayed: map<OrderId, Stage>, after: Db, id: OrderId)
    requires id in db.rows && forall id :: id in processed ==> id in db.rows
    requires replayed == Replay(Stages(db), BatchEvents(processed, TargetStage(kind)))
    requires after == db.(rows := StampRows(kind, db.rows, processed, at))
    ensures replayed.Keys == Stages(after).Keys == db.rows.Keys
    ensures replayed[id] == Stages(after)[id] <==>
            (id in processed ==> StageOf(Stamp(kind, db.rows[id].order, at)) == TargetStage(kind))
  {
    StagesAfterStamps(kind, db, processed, at, id);
    ReplayAfterBatch(db, processed, TargetStage(kind), id);
  }

  ghost predicate AllReach(kind: Kind, db: Db, processed: seq<OrderId>, at: Time)
    requires forall id :: id in processed ==> id in db.rows
  {
    forall id :: id in processed ==> StageOf(Stamp(kind, db.rows[id].order, at)) == TargetStage(kind)
  }

  lemma SameMap(m: map<OrderId, Stage>, n: map<OrderId, Stage>)
    requires m.Keys == n.Keys && forall id :: id in m ==> m[id] == n[id]
    ensures m == n
  {
  }

  /** The events of a batch tell the truth exactly when every processed order reaches the stage they name. */
  lemma BatchReplayIff(kind: Kind, db: Db, processed: seq<OrderId>, at: Time, replayed: map<OrderId, Stage>, after: Db)
    requires forall id :: id in processed ==> id in db.rows
    requires replayed == Replay(Stages(db), BatchEvents(processed, TargetStage(kind)))
    requires after == db.(rows := StampRows(kind, db.rows, processed, at))
    ensures replayed == Stages(after) <==> AllReach(kind, db, processed, at)
  {
    if replayed == Stages(after) {
      forall id | id in processed ensures StageOf(Stamp(kind, db.rows[id].order, at)) == TargetStage(kind) {
        OrderReplayIff(kind, db, processed, at, replayed, after, id);
      }
    }
    if AllReach(kind, db, processed, at) {
      ReplayBatch(Stages(db), processed, TargetStage(kind));
      forall id | id in replayed ensures replayed[id] == Stages(after)[id] {
        OrderReplayIff(kind, db, processed, at, replayed, after, id);
      }
      SameMap(replayed, Stages(after));
    }
  }

  lemma ReplayBatchWriteIff(db: Db, clock: Time, w: Write)
    requires DbOk(db, clock) && w.Batch? && ZERO_TIME < w.at
    ensures Replay(Stages(db), EventsOf(db, w)) == Stages(Apply(db, w)) <==> FreshWrite(db, w)
  {
    var processed := Processed(db, w);
    forall id | id in processed
      ensures id in db.rows
      ensures StageOf(Stamp(w.kind, db.rows[id].order, w.at)) == TargetStage(w.kind) <==>
              Preceding(w.kind, db.rows[id].order) <= w.at
    {
      ProcessedValid(db.rows, w.kind, w.user, w.ids, w.at, id);
      assert RowOk(db, id, clock);
      ReadingMustNotBeStale(w.kind, db.rows[id].order, clock, w.user, w.at);
    }
    if JudgeBatch(w.kind, db.rows, w.user, w.ids, w.at).Committed? {
      BatchReplayIff(w.kind, db, processed, w.at, Replay(Stages(db), EventsOf(db, w)), Apply(db, w));
    }
  }

  lemma ReplayOne(known: map<OrderId, Stage>, e: StatusEvent)
    ensures Replay(known, [e]) == match e.change
      case Reached(stage) => known[e.order := stage]
      case Deleted => known - {e.order}
  {
  }

  lemma StagesAfterSave(db: Db, req: Request, storedAt: Time)
    requires ZERO_TIME < storedAt
    ensures Stages(Save(db, NewOrder(req, storedAt), PackagePrice(req.packaging))) == Stages(db)[req.id := Stored]
  {
  }

  lemma StagesAfterDelete(db: Db, id: OrderId)
    ensures Stages(db.(rows := db.rows - {id})) == Stages(db) - {id}
  {
  }

  /** The events of one handler call turn the known stages into the new ones iff the write is not stale. */
  lemma ReplayWriteIff(db: Db, clock: Time, w: Write)
    requires DbOk(db, clock) && ZERO_TIME < EndOf(w)
    ensures Replay(Stages(db), EventsOf(db, w)) == Stages(Apply(db, w)) <==> FreshWrite(db, w)
  {
    match w
    case Accept(req, _, checkedAt, storedAt) =>
      if JudgeAccept(db, req, checkedAt).Accepted? {
        ReplayOne(Stages(db), StatusEvent(req.id, Reached(Stored)));
        StagesAfterSave(db, req, storedAt);
      }
    case Return(id, at) =>
      if JudgeReturn(db, id, at).Returned? {
        ReplayOne(Stages(db), StatusEvent(id, Deleted));
        StagesAfterDelete(db, id);
      }
    case Batch(_, _, _, _) => ReplayBatchWriteIff(db, clock, w);
  }

  /** After each write the reader of all events so far knows exactly the live orders and their stages. */
  ghost predicate TrueThroughout(known: map<OrderId, Stage>, db: Db, ws: seq<Write>)
    decreases ws
  {
    && known == Stages(db)
    && (ws == [] || TrueThroughout(Replay(known, EventsOf(db, ws[0])), Apply(db, ws[0]), ws[1..]))
  }

  /**
   Audit replay in any commit order: folding the emitted events gives the map from live order id to
   current stage at every moment of a run exactly when no batch of it is stale.
   */
  lemma {:induction false} ReplayIffFresh(db: Db, clock: Time, ws: seq<Write>)
    requires DbOk(db, clock) && Positive(ws)
    ensures TrueThroughout(Stages(db), db, ws) <==> FreshRun(db, ws)
    decreases ws
  {
    if ws != [] {
      ReplayWriteIff(db, clock, ws[0]);
      if FreshWrite(db, ws[0]) {
        FreshOk(db, clock, ws[0]);
        ReplayIffFresh(Apply(db, ws[0]), Max(clock, EndOf(ws[0])), ws[1..]);
      }
    }
  }

  lemma {:induction false} TrueAtTheEnd(known: map<OrderId, Stage>, db: Db, ws: seq<Write>)
    requires TrueThroughout(known, db, ws)
    ensures Replay(known, EventsOfRun(db, ws)) == Stages(ApplyAll(db, ws))
    decreases ws
  {
    if ws != [] {
      TrueAtTheEnd(Replay(known, EventsOf(db, ws[0])), Apply(db, ws[0]), ws[1..]);
      ReplayAppend(known, EventsOf(db, ws[0]), EventsOfRun(Apply(db, ws[0]), ws[1..]));
    }
  }

  /**
   Folding the emitted events of any run from the empty table without a stale batch - so of any
   serial run - gives exactly the map from live order id to current stage, through deletes and
   re-accepts.
   */
  lemma AuditReplayIsFaithful(ws: seq<Write>)
    requires Positive(ws) && FreshRun(EMPTY_DB, ws)
    ensures Replay(map[], EventsOfRun(EMPTY_DB, ws)) == Stages(ApplyAll(EMPTY_DB, ws))
  {
    ReplayIffFresh(EMPTY_DB, ZERO_TIME, ws);
    assert Stages(EMPTY_DB) == map[];
    TrueAtTheEnd(map[], EMPTY_DB, ws);
  }

  lemma SerialReplayIsFaithful(ws: seq<Write>)
    requires Serial(ZERO_TIME, ws)
    ensures Replay(map[], EventsOfRun(EMPTY_DB, ws)) == Stages(ApplyAll(EMPTY_DB, ws))
  {
    SerialIsFresh(EMPTY_DB, ZERO_TIME, ws);
    AuditReplayIsFaithful(ws);
  }

  // ---- the order in which events reach the log ----

  /** The stage the last event of an order names, if it has one and it is not a delete. */
  function LastStage(events: seq<StatusEvent>, id: OrderId): Option<Stage> {
    if events == [] then None
    else
      var e := events[|events| - 1];
      if e.order != id then LastStage(events[..|events| - 1], id)
      else match e.change
        case Reached(stage) => Some(stage)
        case Deleted => None
  }

  /** A reader that starts with nothing knows of each order what its last event says. */
  lemma {:induction false} ReplayIsLast(events: seq<StatusEvent>, id: OrderId)
    ensures var known := Replay(map[], events);
      LastStage(events, id) == if id in known then Some(known[id]) else None
  {
    if events != [] {
      var front, e := events[..|events| - 1], events[|events| - 1];
      assert events == front + [e];
      ReplayIsLast(front, id);
      ReplayAppend(map[], front, [e]);
      ReplayOne(Replay(map[], front), e);
    }
  }

  /** Two logs tell the same exactly when for every order their last events do. */
  lemma SameReplayIff(a: seq<StatusEvent>, b: seq<StatusEvent>)
    ensures Replay(map[], a) == Replay(map[], b) <==> forall id :: LastStage(a, id) == LastStage(b, id)
  {
    forall id
      ensures LastStage(a, id) == if id in Replay(map[], a) then Some(Replay(map[], a)[id]) else None
      ensures LastStage(b, id) == if id in Replay(map[], b) then Some(Replay(map[], b)[id]) else None
    {
      ReplayIsLast(a, id);
      ReplayIsLast(b, id);
    }
    var known, other := Replay(map[], a), Replay(map[], b);
    if forall id :: LastStage(a, id) == LastStage(b, id) {
      forall id ensures id in known <==> id in other
        ensures id in known ==> known[id] == other[id]
      {
        assert LastStage(a, id) == LastStage(b, id);
      }
      SameMap(known, other);
    } else {
      var id :| LastStage(a, id) != LastStage(b, id);
      assert LastStage(a, id) == if id in known then Some(known[id]) else None;
    }
  }
}
