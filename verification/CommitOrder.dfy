/**
 Writes that commit in any order. IssueOrders and RefundOrders read the clock before they lock
 the rows (internal/storage/postgres/userorderstorage/storage.go), so a batch can commit after a
 write whose reading is later than its own.
 */
module CommitOrder {
  import opened Wrappers
  import opened Orders
  import opened OrderDb
  import opened Lifecycle
  import opened Batches
  import Packaging

  predicate Positive(ws: seq<Write>) {
    forall i :: 0 <= i < |ws| ==> ZERO_TIME < EndOf(ws[i])
  }

  /** No processed batch reading precedes the stamp it follows. */
  ghost predicate FreshRun(db: Db, ws: seq<Write>)
    decreases ws
  {
    ws == [] || (FreshWrite(db, ws[0]) && FreshRun(Apply(db, ws[0]), ws[1..]))
  }

  /** The latest reading so far. */
  function HighWater(clock: Time, ws: seq<Write>): Time
    decreases ws
  {
    if ws == [] then clock else HighWater(Max(clock, EndOf(ws[0])), ws[1..])
  }

  /** At every moment of the run each row has its stamps in order. */
  ghost predicate ChronologicalThroughout(db: Db, clock: Time, ws: seq<Write>)
    decreases ws
  {
    && AllChronological(db.rows, clock)
    && (ws == [] || ChronologicalThroughout(Apply(db, ws[0]), Max(clock, EndOf(ws[0])), ws[1..]))
  }

  /** A processed order reaches the stage it was processed for exactly when the reading is not stale. */
  lemma ReadingMustNotBeStale(kind: Kind, o: Order, clock: Time, user: UserId, now: Time)
    requires Chronological(o, clock) && ZERO_TIME < now && Validate(kind, o, user, now).None?
    ensures StageOf(Stamp(kind, o, now)) == (if kind == Issue then Issued else Refunded) <==> Preceding(kind, o) <= now
  {
  }

  /** A stale batch leaves a row out of order. */
  lemma StaleWriteBreaksOrder(db: Db, clock: Time, w: Write, later: Time)
    requires DbOk(db, clock) && !FreshWrite(db, w)
    ensures !AllChronological(Apply(db, w).rows, later)
  {
    var id :| id in Processed(db, w) && id in db.rows && Preceding(w.kind, db.rows[id].order) > w.at;
    assert RowOk(db, id, clock);
    ProcessedStamped(db, w, id);
  }

  /**
   Chronology in any commit order: from a table in order, every row keeps its stamps in order
   throughout a run exactly when no processed batch reading precedes the stamp it follows.
   */
  lemma {:induction false} ChronologyIffFresh(db: Db, clock: Time, ws: seq<Write>)
    requires DbOk(db, clock) && Positive(ws)
    ensures ChronologicalThroughout(db, clock, ws) <==> FreshRun(db, ws)
    decreases ws
  {
    assert AllChronological(db.rows, clock) by {
      forall id | id in db.rows ensures Chronological(db.rows[id].order, clock) {
        assert RowOk(db, id, clock);
      }
    }
    if ws != [] {
      var clock' := Max(clock, EndOf(ws[0]));
      if FreshWrite(db, ws[0]) {
        FreshOk(db, clock, ws[0]);
        ChronologyIffFresh(Apply(db, ws[0]), clock', ws[1..]);
      } else {
        StaleWriteBreaksOrder(db, clock, ws[0], clock');
      }
    }
  }

  /** Serial runs are fresh. */
  lemma {:induction false} SerialIsFresh(db: Db, clock: Time, ws: seq<Write>)
    requires DbOk(db, clock) && Serial(clock, ws)
    ensures FreshRun(db, ws) && Positive(ws)
    decreases ws
  {
    if ws != [] {
      TimelyIsFresh(db, clock, ws[0]);
      ApplyOk(db, clock, ws[0]);
      SerialIsFresh(Apply(db, ws[0]), EndOf(ws[0]), ws[1..]);
    }
  }

  lemma {:induction false} FreshRunKeeps(db: Db, clock: Time, ws: seq<Write>)
    requires DbOk(db, clock) && Positive(ws) && FreshRun(db, ws)
    ensures DbOk(ApplyAll(db, ws), HighWater(clock, ws)) && Successor(db, ApplyAll(db, ws))
    decreases ws
  {
    if ws != [] {
      var next, clock' := Apply(db, ws[0]), Max(clock, EndOf(ws[0]));
      FreshOk(db, clock, ws[0]);
      ApplySuccessor(db, clock, ws[0]);
      FreshRunKeeps(next, clock', ws[1..]);
      SuccessorTransitive(db, next, ApplyAll(db, ws), clock, clock');
    }
  }

  /** In every commit order without stale batches an issued row stays, and a refunded one never changes. */
  lemma IssuedRowsStayIfFresh(db: Db, clock: Time, ws: seq<Write>, id: OrderId)
    requires DbOk(db, clock) && Positive(ws) && FreshRun(db, ws)
    requires id in db.rows && StageOf(db.rows[id].order) != Stored
    ensures var after := ApplyAll(db, ws);
      && id in after.rows && after.rows[id].serial == db.rows[id].serial
      && after.rows[id].order.issued == db.rows[id].order.issued
      && StageOf(after.rows[id].order) != Stored
      && (StageOf(db.rows[id].order) == Refunded ==> after.rows[id] == db.rows[id])
  {
    assert RowOk(db, id, clock);
    StageIsFurthest(db.rows[id].order, clock);
    FreshRunKeeps(db, clock, ws);
    var after := ApplyAll(db, ws);
    assert RowOk(after, id, HighWater(clock, ws));
    StageIsFurthest(after.rows[id].order, HighWater(clock, ws));
  }

  // ---- what a stale issue does ----

  function IssueOne(req: Request, at: Time): Write { Batch(Issue, req.recipient, [req.id], at) }

  /** The order was handed out and its row says so, yet it still counts as stored. */
  ghost predicate IssuedButStored(db: Db, id: OrderId) {
    id in db.rows && db.rows[id].order.issued.Some? && StageOf(db.rows[id].order) == Stored
  }

  /**
   A stale issue is reported as processed and leaves the order stored: it can be issued again,
   and once expired it is returned, which deletes a row that was issued.
   */
  lemma StaleIssueIsLost(db: Db, accept: Write, at: Time, later: Time)
    requires accept.Accept? && JudgeAccept(db, accept.req, accept.checkedAt).Accepted?
    requires ZERO_TIME < at < accept.storedAt && at <= accept.req.expiry <= later
    ensures var id := accept.req.id;
      var stored := Apply(db, accept);
      var issued := Apply(stored, IssueOne(accept.req, at));
      && JudgeBatch(Issue, stored.rows, accept.req.recipient, [id], at) == Committed([id], [], None)
      && IssuedButStored(issued, id)
      && Validate(Issue, issued.rows[id].order, accept.req.recipient, at).None?
      && JudgeReturn(issued, id, later).Returned? && id !in Apply(issued, Return(id, later)).rows
  {
    OneOrderBatch(Issue, Apply(db, accept), accept.req.id, accept.req.recipient, at);
  }

  /** One order in film, taken in at 10; its issue read the clock at 5. */
  const LATE := Request("a", "u", 20, 1.0, 1.0, Packaging.FILM_NAME)

  function StaleRun(): seq<Write> { [Accept(LATE, 10, 10, 10), IssueOne(LATE, 5), Return("a", 20)] }

  lemma LateIsAccepted()
    ensures JudgeAccept(EMPTY_DB, LATE, 10).Accepted?
  {
    Packaging.FilmIsAcceptable();
  }

  /** The empty table reaches it: an issued row that still counts as stored, and then its loss. */
  lemma StaleIssueIsReachable()
    ensures Positive(StaleRun()) && !FreshRun(EMPTY_DB, StaleRun())
    ensures IssuedButStored(ApplyAll(EMPTY_DB, StaleRun()[..2]), "a")
    ensures "a" !in ApplyAll(EMPTY_DB, StaleRun()).rows
  {
    LateIsAccepted();
    var accept, issue := Accept(LATE, 10, 10, 10), IssueOne(LATE, 5);
    StaleIssueIsLost(EMPTY_DB, accept, 5, 20);
    assert StaleRun()[..2] == [accept, issue] && StaleRun() == [accept, issue, Return("a", 20)];
    TwoWrites(EMPTY_DB, ZERO_TIME, accept, issue);
    ThreeWrites(EMPTY_DB, accept, issue, Return("a", 20));
    var stored := Apply(EMPTY_DB, accept);
    assert Processed(stored, issue) == ["a"] && ["a"][0] == "a";
    assert Preceding(Issue, stored.rows["a"].order) == 10;
    assert !FreshWrite(stored, issue);
    assert StaleRun()[1..][0] == issue;
    assert !FreshRun(stored, StaleRun()[1..]);
  }

  // ---- what holds in every commit order ----

  lemma StampKeepsWindows(kind: Kind, o: Order, user: UserId, now: Time)
    requires WindowsKept(o) && Validate(kind, o, user, now).None?
    ensures WindowsKept(Stamp(kind, o, now))
  {
  }

  lemma BatchKeepsTable(kind: Kind, db: Db, db': Db, user: UserId, now: Time)
    requires TableOk(db) && Stamped(kind, db, db', user, now)
    ensures TableOk(db')
  {
    forall id | id in db'.rows ensures RowSound(db', id) && db'.rows[id].serial == db.rows[id].serial {
      assert RowSound(db, id);
      if db'.rows[id] != db.rows[id] {
        StampKeepsWindows(kind, db.rows[id].order, user, now);
      }
    }
  }

  lemma SaveKeepsTable(db: Db, req: Request, now: Time)
    requires TableOk(db) && ZERO_TIME < now && req.id !in db.rows
    ensures TableOk(Save(db, NewOrder(req, now), PackagePrice(req.packaging)))
  {
  }

  lemma ApplyKeepsTable(db: Db, w: Write)
    requires TableOk(db) && ZERO_TIME < EndOf(w)
    ensures TableOk(Apply(db, w))
  {
    match w
    case Accept(req, _, checkedAt, storedAt) =>
      if JudgeAccept(db, req, checkedAt).Accepted? {
        SaveKeepsTable(db, req, storedAt);
      }
    case Return(_, _) =>
    case Batch(kind, user, ids, at) =>
      BatchStamps(kind, db, user, ids, at);
      BatchKeepsTable(kind, db, Apply(db, w), user, at);
  }

  lemma {:induction false} RunKeepsTable(db: Db, ws: seq<Write>)
    requires TableOk(db) && Positive(ws)
    ensures TableOk(ApplyAll(db, ws))
    decreases ws
  {
    if ws != [] {
      ApplyKeepsTable(db, ws[0]);
      RunKeepsTable(Apply(db, ws[0]), ws[1..]);
    }
  }

  /**
   Stale or not, in every commit order from the empty tables orders are issued no later than their
   expiry, and refunded after an issue that counted and no later than 48 hours after it.
   */
  lemma WindowsInAnyOrder(ws: seq<Write>, id: OrderId)
    requires Positive(ws) && id in ApplyAll(EMPTY_DB, ws).rows
    ensures var o := ApplyAll(EMPTY_DB, ws).rows[id].order;
      && o.stored.Some?
      && (o.issued.Some? ==> o.issued.value <= o.expiry)
      && (o.refunded.Some? ==>
            && o.issued.Some? && o.stored.value <= o.issued.value
            && o.refunded.value <= o.issued.value + 48 * 3_600_000_000)
  {
    RunKeepsTable(EMPTY_DB, ws);
    assert RowSound(ApplyAll(EMPTY_DB, ws), id);
  }

  /** The row of an order with a refund stamp stays, in every commit order. */
  lemma {:induction false} RefundedRowsStay(db: Db, ws: seq<Write>, id: OrderId)
    requires TableOk(db) && Positive(ws) && id in db.rows && db.rows[id].order.refunded.Some?
    ensures var after := ApplyAll(db, ws);
      && id in after.rows && after.rows[id].serial == db.rows[id].serial
      && after.rows[id].order.refunded.Some?
    decreases ws
  {
    if ws != [] {
      assert RowSound(db, id);
      if ws[0].Batch? {
        BatchStamps(ws[0].kind, db, ws[0].user, ws[0].ids, ws[0].at);
      }
      ApplyKeepsTable(db, ws[0]);
      RefundedRowsStay(Apply(db, ws[0]), ws[1..], id);
    }
  }

  // ---- sort keys in every commit order ----

  /** A stamp that passes validation never lowers the time of last update, however old its reading. */
  lemma StampRaisesTime(kind: Kind, o: Order, user: UserId, now: Time)
    requires Validate(kind, o, user, now).None?
    ensures HistoryTime(o) <= HistoryTime(Stamp(kind, o, now))
  {
  }

  /** Each row is new, or the same order no less recently updated. */
  ghost predicate TimesGrow(db: Db, db': Db) {
    && db.nextSerial <= db'.nextSerial
    && forall id :: id in db'.rows ==>
         || db'.rows[id].serial >= db.nextSerial
         || (id in db.rows && db.rows[id].serial == db'.rows[id].serial &&
             HistoryTime(db.rows[id].order) <= HistoryTime(db'.rows[id].order))
  }

  lemma ApplyGrowsTimes(db: Db, w: Write)
    ensures TimesGrow(db, Apply(db, w))
  {
    if w.Batch? {
      var after := Apply(db, w);
      BatchStamps(w.kind, db, w.user, w.ids, w.at);
      forall id | id in after.rows
        ensures after.rows[id].serial == db.rows[id].serial
        ensures HistoryTime(db.rows[id].order) <= HistoryTime(after.rows[id].order)
      {
        if after.rows[id] != db.rows[id] {
          StampRaisesTime(w.kind, db.rows[id].order, w.user, w.at);
        }
      }
    }
  }

  lemma {:induction false} RunGrowsTimes(db: Db, ws: seq<Write>)
    ensures TimesGrow(db, ApplyAll(db, ws))
    decreases ws
  {
    if ws != [] {
      ApplyGrowsTimes(db, ws[0]);
      RunGrowsTimes(Apply(db, ws[0]), ws[1..]);
    }
  }
}
