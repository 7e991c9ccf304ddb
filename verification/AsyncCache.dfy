/**
 The cache with every cache access a step of its own, and the return of an order as the two
 table operations it is. The cache writes of accept, return, issue, refund and of reads may run
 late, interleave with anything, or be lost (internal/service/storage_service.go); the delete of
 a return follows its check at any later moment (internal/repository/orderrepo/repository.go).
 */
module AsyncCache {
  import opened Wrappers
  import opened Orders
  import opened OrderDb
  import opened Lifecycle

  /** A cache access not yet made. RefreshIssue is the read of IssueOrders that precedes its write. */
  datatype CacheOp = SetCopy(copy: Order) | DeleteKey(id: OrderId) | RefreshIssue(id: OrderId)

  /** A return that passed its check. The delete uses the id alone; the rest says what was checked. */
  datatype RowDelete = RowDelete(id: OrderId, serial: int, checkedAt: Time)

  /** The tables and latest reading, the deletes still to come, the order keys, the accesses still to come. */
  datatype State = State(
    db: Db, clock: Time, doomed: multiset<RowDelete>, cache: map<OrderId, Order>, pending: multiset<CacheOp>)

  const START := State(EMPTY_DB, ZERO_TIME, multiset{}, map[], multiset{})

  datatype Event =
    | Commit(write: Write)                       // an accept or a batch; its cache accesses become pending
    | CheckReturn(id: OrderId, at: Time)         // a return finds and checks the row
    | DeleteRow(delete: RowDelete)               // and deletes by id, whatever is there by then
    | DropDelete(delete: RowDelete)              // or fails to
    | ReadRow(id: OrderId)                       // a read found the row and is about to cache it
    | Perform(op: CacheOp, tick: Time)           // a pending access is made
    | Lose(op: CacheOp)                          // a pending access fails
    | Expire(id: OrderId)                        // a key is dropped

  function Deletes(ids: seq<OrderId>): multiset<CacheOp> {
    if ids == [] then multiset{} else multiset{DeleteKey(ids[0])} + Deletes(ids[1..])
  }

  function Refreshes(ids: seq<OrderId>): multiset<CacheOp> {
    if ids == [] then multiset{} else multiset{RefreshIssue(ids[0])} + Refreshes(ids[1..])
  }

  function OpsOf(db: Db, w: Write): multiset<CacheOp> {
    match w
    case Accept(req, handlerAt, checkedAt, _) =>
      if JudgeAccept(db, req, checkedAt).Accepted? then multiset{SetCopy(NewOrder(req, handlerAt))} else multiset{}
    case Return(_, _) => multiset{}
    case Batch(kind, _, _, _) =>
      if kind == Issue then Refreshes(Processed(db, w)) else Deletes(Processed(db, w))
  }

  /** A return is not one commit but the events CheckReturn and DeleteRow. */
  function Step(s: State, e: Event): State {
    match e
    case Commit(w) =>
      if w.Return? then s
      else State(Apply(s.db, w), Max(s.clock, EndOf(w)), s.doomed, s.cache, s.pending + OpsOf(s.db, w))
    case CheckReturn(id, at) =>
      var checked := s.(clock := Max(s.clock, at));
      if JudgeReturn(s.db, id, at).Returned?
      then checked.(doomed := s.doomed + multiset{RowDelete(id, s.db.rows[id].serial, at)})
      else checked
    case DeleteRow(d) =>
      if d !in s.doomed then s
      else s.(db := s.db.(rows := s.db.rows - {d.id}), doomed := s.doomed - multiset{d},
              pending := s.pending + multiset{DeleteKey(d.id)})
    case DropDelete(d) => s.(doomed := s.doomed - multiset{d})
    case ReadRow(id) =>
      if id in s.db.rows then s.(pending := s.pending + multiset{SetCopy(s.db.rows[id].order)}) else s
    case Perform(op, tick) =>
      if op !in s.pending then s
      else
        var rest := s.pending - multiset{op};
        (match op
         case SetCopy(o) => s.(cache := s.cache[o.id := o], pending := rest)
         case DeleteKey(id) => s.(cache := s.cache - {id}, pending := rest)
         case RefreshIssue(id) =>
           if id in s.cache
           then s.(pending := rest + multiset{SetCopy(s.cache[id].(issued := Some(tick)))})
           else s.(pending := rest))
    case Lose(op) => s.(pending := s.pending - multiset{op})
    case Expire(id) => s.(cache := s.cache - {id})
  }

  function Run(s: State, es: seq<Event>): State
    decreases es
  {
    if es == [] then s else Run(Step(s, es[0]), es[1..])
  }

  lemma RunFirst(s: State, e: Event, rest: seq<Event>)
    ensures Run(s, [e] + rest) == Run(Step(s, e), rest)
  {
    assert ([e] + rest)[1..] == rest;
  }

  lemma {:induction false} RunAppend(s: State, a: seq<Event>, b: seq<Event>)
    ensures Run(s, a + b) == Run(Run(s, a), b)
    decreases a
  {
    if a == [] {
      assert a + b == b;
    } else {
      assert (a + b)[1..] == a[1..] + b;
      RunAppend(Step(s, a[0]), a[1..], b);
    }
  }

  // ---- which runs ----

  function ClockAfter(clock: Time, e: Event): Time {
    match e
    case Commit(w) => EndOf(w)
    case CheckReturn(_, at) => at
    case _ => clock
  }

  predicate OrderlyEvent(clock: Time, e: Event) {
    match e
    case Commit(w) => !w.Return? && Timely(clock, w)
    case CheckReturn(_, at) => ZERO_TIME < at && clock <= at
    case _ => true
  }

  /** Table operations read the clock in order; deletes and cache accesses come at any time. */
  predicate Orderly(clock: Time, es: seq<Event>)
    decreases es
  {
    es == [] || (OrderlyEvent(clock, es[0]) && Orderly(ClockAfter(clock, es[0]), es[1..]))
  }

  /** The delete finds the row it checked, if any, and the check was strictly after the expiry. */
  predicate CleanDelete(db: Db, d: RowDelete) {
    d.id in db.rows ==> db.rows[d.id].serial == d.serial && db.rows[d.id].order.expiry < d.checkedAt
  }

  ghost predicate CleanDeletes(s: State, es: seq<Event>)
    decreases es
  {
    es == [] ||
    ((es[0].DeleteRow? && es[0].delete in s.doomed ==> CleanDelete(s.db, es[0].delete)) &&
     CleanDeletes(Step(s, es[0]), es[1..]))
  }

  /** An issue of a row waiting for its delete does not carry a reading from before the check. */
  ghost predicate AfterChecks(s: State, w: Write) {
    w.Batch? && w.kind == Issue ==> forall d :: d in s.doomed && d.id in Processed(s.db, w) ==> d.checkedAt <= w.at
  }

  /** What each step has to meet when writes commit in any order. */
  ghost predicate Sound(s: State, e: Event) {
    match e
    case Commit(w) => ZERO_TIME < EndOf(w) && FreshWrite(s.db, w) && AfterChecks(s, w)
    case DeleteRow(d) => d in s.doomed ==> CleanDelete(s.db, d)
    case _ => true
  }

  ghost predicate SoundRun(s: State, es: seq<Event>)
    decreases es
  {
    es == [] || (Sound(s, es[0]) && SoundRun(Step(s, es[0]), es[1..]))
  }

  // ---- the invariant ----

  /** Every stamp of the copy is one the live row of its id has too. */
  predicate NoInventedStamps(rows: map<OrderId, Row>, c: Order) {
    && (c.issued.Some? ==> c.id in rows && rows[c.id].order.issued.Some?)
    && (c.refunded.Some? ==> c.id in rows && rows[c.id].order.refunded.Some?)
  }

  /** No cached and no in-flight copy shows an issue or refund that its live row does not have. */
  ghost predicate CopiesTrue(s: State) {
    && (forall id :: id in s.cache ==> NoInventedStamps(s.db.rows, s.cache[id]))
    && (forall c :: SetCopy(c) in s.pending ==> NoInventedStamps(s.db.rows, c))
  }

  predicate OpSafe(rows: map<OrderId, Row>, op: CacheOp) {
    match op
    case SetCopy(c) => NoInventedStamps(rows, c)
    case DeleteKey(_) => true
    case RefreshIssue(id) => id in rows && rows[id].order.issued.Some?
  }

  /** The checked row, while it is there and was strictly past its expiry, has not been issued. */
  predicate DeleteSafe(db: Db, clock: Time, d: RowDelete) {
    && d.checkedAt <= clock && d.serial < db.nextSerial
    && (d.id in db.rows && db.rows[d.id].serial == d.serial && db.rows[d.id].order.expiry < d.checkedAt ==>
          StageOf(db.rows[d.id].order) == Stored)
  }

  ghost predicate Safe(s: State) {
    && DbOk(s.db, s.clock)
    && (forall id :: id in s.cache ==> s.cache[id].id == id && NoInventedStamps(s.db.rows, s.cache[id]))
    && (forall op :: op in s.pending ==> OpSafe(s.db.rows, op))
    && (forall d :: d in s.doomed ==> DeleteSafe(s.db, s.clock, d))
  }

  lemma StampsSurvive(db: Db, db': Db, clock: Time, c: Order)
    requires DbOk(db, clock) && Successor(db, db') && NoInventedStamps(db.rows, c)
    ensures NoInventedStamps(db'.rows, c)
  {
  }

  lemma {:induction false} RefreshesAre(ids: seq<OrderId>, op: CacheOp)
    requires op in Refreshes(ids)
    ensures op.RefreshIssue? && op.id in ids
  {
    if op != RefreshIssue(ids[0]) {
      RefreshesAre(ids[1..], op);
    }
  }

  lemma {:induction false} DeletesAre(ids: seq<OrderId>, op: CacheOp)
    requires op in Deletes(ids)
    ensures op.DeleteKey?
  {
    if op != DeleteKey(ids[0]) {
      DeletesAre(ids[1..], op);
    }
  }

  /** No commit removes a row or changes its serial and expiry. */
  lemma RowStaysAtCommit(db: Db, w: Write, id: OrderId)
    requires !w.Return? && id in db.rows
    ensures var after := Apply(db, w);
      && id in after.rows && after.rows[id].serial == db.rows[id].serial
      && after.rows[id].order.id == db.rows[id].order.id && after.rows[id].order.expiry == db.rows[id].order.expiry
  {
    if w.Batch? {
      BatchStamps(w.kind, db, w.user, w.ids, w.at);
    }
  }

  /** The accesses a table operation leaves behind are safe in the table it leaves behind. */
  lemma NewOpsSafe(db: Db, w: Write, op: CacheOp)
    requires op in OpsOf(db, w)
    ensures OpSafe(Apply(db, w).rows, op)
  {
    if w.Batch? {
      if w.kind == Issue {
        RefreshesAre(Processed(db, w), op);
        ProcessedValid(db.rows, Issue, w.user, w.ids, w.at, op.id);
      } else {
        DeletesAre(Processed(db, w), op);
      }
    }
  }

  /** A row waiting for its delete is not issued by a write whose reading is after the check. */
  lemma DeleteStaysSafeAt(s: State, w: Write, d: RowDelete)
    requires Safe(s) && !w.Return? && AfterChecks(s, w) && d in s.doomed
    ensures DeleteSafe(Apply(s.db, w), Max(s.clock, EndOf(w)), d)
  {
    var db' := Apply(s.db, w);
    assert s.db.nextSerial <= db'.nextSerial && SameOrNewRow(s.db, db', d.id) by {
      ApplySuccessor(s.db, s.clock, w);
    }
    if w.Batch? {
      UnissuedUntilDeleted(s.db, w, d);
    }
  }

  predicate SameOrNewRow(db: Db, db': Db, id: OrderId) {
    id in db'.rows ==>
      || db'.rows[id].serial >= db.nextSerial
      || (id in db.rows && db.rows[id].serial == db'.rows[id].serial && Grew(db.rows[id].order, db'.rows[id].order))
  }

  /** A batch does not change a stored row that was past its expiry when it was checked, if it reads the clock later. */
  lemma UnissuedUntilDeleted(db: Db, w: Write, d: RowDelete)
    requires w.Batch? && (w.kind == Issue && d.id in Processed(db, w) ==> d.checkedAt <= w.at)
    ensures d.id in Apply(db, w).rows <==> d.id in db.rows
    ensures d.id in db.rows && StageOf(db.rows[d.id].order) == Stored && db.rows[d.id].order.expiry < d.checkedAt ==>
      Apply(db, w).rows[d.id] == db.rows[d.id]
    ensures d.id in db.rows ==>
      && Apply(db, w).rows[d.id].order.expiry == db.rows[d.id].order.expiry
      && Apply(db, w).rows[d.id].serial == db.rows[d.id].serial
  {
    BatchStamps(w.kind, db, w.user, w.ids, w.at);
    if d.id in db.rows && Apply(db, w).rows[d.id] != db.rows[d.id] {
      assert d.id in Processed(db, w);
    }
  }

  lemma CommitSafe(s: State, w: Write)
    requires Safe(s) && Sound(s, Commit(w)) && !w.Return?
    ensures Safe(Step(s, Commit(w)))
  {
    var db' := Apply(s.db, w);
    FreshOk(s.db, s.clock, w);
    ApplySuccessor(s.db, s.clock, w);
    forall id | id in s.cache ensures NoInventedStamps(db'.rows, s.cache[id]) {
      StampsSurvive(s.db, db', s.clock, s.cache[id]);
    }
    forall op | op in s.pending + OpsOf(s.db, w) ensures OpSafe(db'.rows, op) {
      if op in OpsOf(s.db, w) {
        NewOpsSafe(s.db, w, op);
      } else {
        assert op in s.pending;
        if op.SetCopy? {
          StampsSurvive(s.db, db', s.clock, op.copy);
        }
      }
    }
    forall d | d in s.doomed ensures DeleteSafe(db', Max(s.clock, EndOf(w)), d) {
      DeleteStaysSafeAt(s, w, d);
    }
  }

  lemma CheckSafe(s: State, id: OrderId, at: Time)
    requires Safe(s)
    ensures Safe(Step(s, CheckReturn(id, at)))
  {
    LaterOk(s.db, s.clock, Max(s.clock, at));
    if id in s.db.rows {
      assert RowOk(s.db, id, s.clock);
    }
  }

  /** A clean delete finds no row, or one that was never issued. */
  lemma CleanDeleteFindsStored(s: State, d: RowDelete)
    requires Safe(s) && d in s.doomed && CleanDelete(s.db, d) && d.id in s.db.rows
    ensures s.db.rows[d.id].order.issued.None? && s.db.rows[d.id].order.refunded.None?
  {
    assert RowOk(s.db, d.id, s.clock);
    StageIsFurthest(s.db.rows[d.id].order, s.clock);
  }

  lemma UnissuedRowGoes(rows: map<OrderId, Row>, id: OrderId, op: CacheOp)
    requires id in rows ==> rows[id].order.issued.None? && rows[id].order.refunded.None?
    requires OpSafe(rows, op)
    ensures OpSafe(rows - {id}, op)
  {
  }

  lemma DeleteRowSafe(s: State, d: RowDelete)
    requires Safe(s) && Sound(s, DeleteRow(d))
    ensures Safe(Step(s, DeleteRow(d)))
  {
    if d in s.doomed {
      if d.id in s.db.rows {
        CleanDeleteFindsStored(s, d);
      }
      var s' := Step(s, DeleteRow(d));
      DeleteOk(s.db, s.clock, d.id, s.clock);
      forall id | id in s.cache ensures NoInventedStamps(s'.db.rows, s.cache[id]) {
        UnissuedRowGoes(s.db.rows, d.id, SetCopy(s.cache[id]));
      }
      forall op | op in s'.pending ensures OpSafe(s'.db.rows, op) {
        if op in s.pending {
          UnissuedRowGoes(s.db.rows, d.id, op);
        } else {
          assert op == DeleteKey(d.id);
        }
      }
    }
  }

  lemma ReadSafe(s: State, id: OrderId)
    requires Safe(s)
    ensures Safe(Step(s, ReadRow(id)))
  {
  }

  lemma PerformSafe(s: State, op: CacheOp, tick: Time)
    requires Safe(s)
    ensures Safe(Step(s, Perform(op, tick)))
  {
  }

  lemma StepSafe(s: State, e: Event)
    requires Safe(s) && Sound(s, e)
    ensures Safe(Step(s, e))
  {
    match e
    case Commit(w) => if !w.Return? { CommitSafe(s, w); }
    case CheckReturn(id, at) => CheckSafe(s, id, at);
    case DeleteRow(d) => DeleteRowSafe(s, d);
    case DropDelete(_) =>
    case ReadRow(id) => ReadSafe(s, id);
    case Perform(op, tick) => PerformSafe(s, op, tick);
    case Lose(_) =>
    case Expire(_) =>
  }

  /**
   Asynchronous safety: in every interleaving and every commit order, with cache accesses late or
   lost and deletes late or dropped, no copy shows an issue or refund that its live row does not
   have - provided no batch reading is stale, no issue reading is older than a pending check of its
   row, and each delete finds the row it checked strictly after the expiry.
   */
  lemma {:induction false} AsyncSafety(s: State, es: seq<Event>)
    requires Safe(s) && SoundRun(s, es)
    ensures Safe(Run(s, es)) && CopiesTrue(Run(s, es))
    decreases es
  {
    if es != [] {
      StepSafe(s, es[0]);
      AsyncSafety(Step(s, es[0]), es[1..]);
    }
  }

  /** When table operations read the clock in order, only the deletes can go wrong. */
  lemma {:induction false} OrderlyIsSound(s: State, es: seq<Event>)
    requires Safe(s) && Orderly(s.clock, es) && CleanDeletes(s, es)
    ensures SoundRun(s, es)
    decreases es
  {
    if es != [] {
      if es[0].Commit? {
        TimelyIsFresh(s.db, s.clock, es[0].write);
      }
      StepSafe(s, es[0]);
      OrderlyIsSound(Step(s, es[0]), es[1..]);
    }
  }

  lemma AsyncSafetyFromEmpty(es: seq<Event>, id: OrderId)
    requires Orderly(ZERO_TIME, es) && CleanDeletes(START, es)
    ensures var s := Run(START, es);
      id in s.cache ==>
        && s.cache[id].id == id
        && (s.cache[id].issued.Some? ==> id in s.db.rows && s.db.rows[id].order.issued.Some?)
        && (s.cache[id].refunded.Some? ==> id in s.db.rows && s.db.rows[id].order.refunded.Some?)
  {
    OrderlyIsSound(START, es);
    AsyncSafety(START, es);
  }
}
