/** What every run of accepts, returns, issues and refunds keeps. */
module Lifecycle {
  import opened Wrappers
  import opened Orders
  import opened OrderDb

  /** Inside the windows, and refunded only where the issue counted. */
  predicate WindowsKept(o: Order) {
    && o.stored.Some? && ZERO_TIME < o.stored.value
    && WithinWindows(o)
    && (o.refunded.Some? ==> o.issued.Some? && o.stored.value <= o.issued.value)
  }

  /** A row filed under its own id, with a serial already given out. */
  ghost predicate RowSound(db: Db, id: OrderId)
    requires id in db.rows
  {
    && db.rows[id].order.id == id
    && 1 <= db.rows[id].serial < db.nextSerial
    && WindowsKept(db.rows[id].order)
  }

  ghost predicate SerialsUnique(rows: map<OrderId, Row>) {
    forall a, b :: a in rows && b in rows && rows[a].serial == rows[b].serial ==> a == b
  }

  /** What the table keeps in whatever order writes commit. */
  ghost predicate TableOk(db: Db) {
    && db.nextSerial >= 1
    && (forall id :: id in db.rows ==> RowSound(db, id))
    && SerialsUnique(db.rows)
  }

  /** The row also has its stamps in order. */
  ghost predicate RowOk(db: Db, id: OrderId, clock: Time)
    requires id in db.rows
  {
    RowSound(db, id) && Chronological(db.rows[id].order, clock)
  }

  ghost predicate DbOk(db: Db, clock: Time) {
    && db.nextSerial >= 1
    && (forall id :: id in db.rows ==> RowOk(db, id, clock))
    && SerialsUnique(db.rows)
  }

  /** A batch keeps the ids and serials; a changed row was valid and now carries the batch's stamp. */
  ghost predicate Stamped(kind: Kind, db: Db, db': Db, user: UserId, now: Time) {
    && db' == db.(rows := db'.rows)
    && db'.rows.Keys == db.rows.Keys
    && forall id :: id in db.rows ==>
         || db'.rows[id] == db.rows[id]
         || (db'.rows[id] == StampRow(kind, db.rows[id], now) && Validate(kind, db.rows[id].order, user, now).None?)
  }

  lemma BatchStamps(kind: Kind, db: Db, user: UserId, ids: seq<OrderId>, now: Time)
    ensures Stamped(kind, db, Apply(db, Batch(kind, user, ids, now)), user, now)
  {
    var after := Apply(db, Batch(kind, user, ids, now));
    forall id | id in db.rows && after.rows[id] != db.rows[id]
      ensures Validate(kind, db.rows[id].order, user, now).None?
    {
      ProcessedValid(db.rows, kind, user, ids, now, id);
    }
  }

  /** The stamp a batch's stamp follows: stored before issued, issued before refunded. */
  function Preceding(kind: Kind, o: Order): Time {
    match kind
    case Issue => Coalesce(o.stored)
    case Refund => Coalesce(o.issued)
  }

  /** No changed row had a stamp later than the batch's reading. */
  ghost predicate FollowsStamps(kind: Kind, db: Db, db': Db, now: Time) {
    forall id :: id in db.rows && id in db'.rows && db'.rows[id] != db.rows[id] ==>
      Preceding(kind, db.rows[id].order) <= now
  }

  lemma StampedRowOk(kind: Kind, db: Db, db': Db, clock: Time, user: UserId, now: Time, id: OrderId)
    requires DbOk(db, clock) && Stamped(kind, db, db', user, now) && FollowsStamps(kind, db, db', now) && id in db'.rows
    ensures RowOk(db', id, Max(clock, now)) && db'.rows[id].serial == db.rows[id].serial
  {
    assert RowOk(db, id, clock);
  }

  lemma StampedOk(kind: Kind, db: Db, db': Db, clock: Time, user: UserId, now: Time)
    requires DbOk(db, clock) && Stamped(kind, db, db', user, now) && FollowsStamps(kind, db, db', now)
    ensures DbOk(db', Max(clock, now))
  {
    forall id | id in db'.rows ensures RowOk(db', id, Max(clock, now)) && db'.rows[id].serial == db.rows[id].serial {
      StampedRowOk(kind, db, db', clock, user, now, id);
    }
  }

  lemma SaveOk(db: Db, clock: Time, req: Request, now: Time)
    requires DbOk(db, clock) && ZERO_TIME < now && req.id !in db.rows
    ensures DbOk(Save(db, NewOrder(req, now), PackagePrice(req.packaging)), Max(clock, now))
  {
  }

  lemma DeleteOk(db: Db, clock: Time, id: OrderId, now: Time)
    requires DbOk(db, clock) && clock <= now
    ensures DbOk(db.(rows := db.rows - {id}), now)
  {
  }

  lemma LaterOk(db: Db, clock: Time, now: Time)
    requires DbOk(db, clock) && clock <= now
    ensures DbOk(db, now)
  {
  }

  /** A processed id was valid in the table before the batch. */
  lemma {:induction false} ProcessedValid(
    rows: map<OrderId, Row>, kind: Kind, user: UserId, ids: seq<OrderId>, now: Time, id: OrderId)
    requires id in ids[..Cut(kind, rows, user, ids, now)]
    ensures id in rows && Validate(kind, rows[id].order, user, now).None?
  {
    var i :| 0 <= i < Cut(kind, rows, user, ids, now) && ids[i] == id;
    FirstOccurrence(ids, i);
    var j :| 0 <= j <= i && ids[j] == id && id !in ids[..j];
    assert StepOk(kind, rows, user, ids, now, j);
  }

  lemma {:induction false} FirstOccurrence(ids: seq<OrderId>, i: nat)
    requires i < |ids|
    ensures exists j :: 0 <= j <= i && ids[j] == ids[i] && ids[i] !in ids[..j]
  {
    if ids[i] in ids[..i] {
      var k :| 0 <= k < i && ids[k] == ids[i];
      FirstOccurrence(ids, k);
    } else {
      assert ids[i] !in ids[..i];
    }
  }

  /** A batch changes only rows of the user who asked for it. */
  lemma OnlyOwnOrdersChange(kind: Kind, db: Db, user: UserId, ids: seq<OrderId>, now: Time, id: OrderId)
    ensures var after := Apply(db, Batch(kind, user, ids, now));
      id in db.rows && (id !in after.rows || after.rows[id] != db.rows[id]) ==> db.rows[id].order.recipient == user
  {
    BatchStamps(kind, db, user, ids, now);
  }

  /** The orders a write stamps. */
  function Processed(db: Db, w: Write): seq<OrderId> {
    if w.Batch? && JudgeBatch(w.kind, db.rows, w.user, w.ids, w.at).Committed?
    then JudgeBatch(w.kind, db.rows, w.user, w.ids, w.at).processed
    else []
  }

  /** A processed order was valid before the batch and carries its stamp after it. */
  lemma ProcessedStamped(db: Db, w: Write, id: OrderId)
    requires w.Batch? && id in Processed(db, w)
    ensures id in db.rows && Validate(w.kind, db.rows[id].order, w.user, w.at).None?
    ensures id in Apply(db, w).rows && Apply(db, w).rows[id] == StampRow(w.kind, db.rows[id], w.at)
  {
    ProcessedValid(db.rows, w.kind, w.user, w.ids, w.at, id);
  }

  /** The batch reading does not precede the stamp it follows, for any processed order. */
  ghost predicate FreshWrite(db: Db, w: Write) {
    w.Batch? ==> forall id :: id in Processed(db, w) && id in db.rows ==> Preceding(w.kind, db.rows[id].order) <= w.at
  }

  /** Every write keeps the invariant, in whatever order writes commit, unless its reading is stale. */
  lemma FreshOk(db: Db, clock: Time, w: Write)
    requires DbOk(db, clock) && ZERO_TIME < EndOf(w) && FreshWrite(db, w)
    ensures DbOk(Apply(db, w), Max(clock, EndOf(w)))
  {
    LaterOk(db, clock, Max(clock, EndOf(w)));
    match w
    case Accept(req, _, checkedAt, storedAt) =>
      if JudgeAccept(db, req, checkedAt).Accepted? {
        SaveOk(db, clock, req, storedAt);
      }
    case Return(id, at) => DeleteOk(db, clock, id, Max(clock, at));
    case Batch(kind, user, ids, at) =>
      BatchStamps(kind, db, user, ids, at);
      assert forall id :: id in db.rows && Apply(db, w).rows[id] != db.rows[id] ==> id in Processed(db, w);
      StampedOk(kind, db, Apply(db, w), clock, user, at);
  }

  /** A reading that is not before any stamp of the table is not stale. */
  lemma TimelyIsFresh(db: Db, clock: Time, w: Write)
    requires DbOk(db, clock) && Timely(clock, w)
    ensures FreshWrite(db, w)
  {
    forall id | id in Processed(db, w) && id in db.rows ensures Preceding(w.kind, db.rows[id].order) <= w.at {
      assert RowOk(db, id, clock);
    }
  }

  /** Every write of a serial run keeps the invariant. */
  lemma ApplyOk(db: Db, clock: Time, w: Write)
    requires DbOk(db, clock) && Timely(clock, w)
    ensures DbOk(Apply(db, w), EndOf(w))
  {
    TimelyIsFresh(db, clock, w);
    FreshOk(db, clock, w);
  }

  lemma {:induction false} RunOk(db: Db, clock: Time, ws: seq<Write>)
    requires DbOk(db, clock) && Serial(clock, ws)
    ensures DbOk(ApplyAll(db, ws), EndOfAll(clock, ws))
    decreases ws
  {
    if ws != [] {
      ApplyOk(db, clock, ws[0]);
      RunOk(Apply(db, ws[0]), EndOf(ws[0]), ws[1..]);
    }
  }

  /**
   The lifecycle invariant over every serial run from the empty tables: stored <= issued <=
   refunded where set, issued <= expiry, refunded <= issued + 48h, and the derived status is the
   furthest stamp set.
   */
  lemma LifecycleInvariant(ws: seq<Write>, id: OrderId)
    requires Serial(ZERO_TIME, ws)
    requires id in ApplyAll(EMPTY_DB, ws).rows
    ensures var db := ApplyAll(EMPTY_DB, ws);
      var o := db.rows[id].order;
      && o.id == id
      && Chronological(o, EndOfAll(ZERO_TIME, ws)) && WithinWindows(o)
      && StageOf(o) == Furthest(o)
  {
    RunOk(EMPTY_DB, ZERO_TIME, ws);
    var db := ApplyAll(EMPTY_DB, ws);
    assert RowOk(db, id, EndOfAll(ZERO_TIME, ws));
    StageIsFurthest(db.rows[id].order, EndOfAll(ZERO_TIME, ws));
  }

  // ---- how one row may differ between two moments of a run ----

  /** The same order with stamps only added, and nothing at all after a refund. */
  predicate Grew(o: Order, o': Order) {
    && o' == o.(issued := o'.issued, refunded := o'.refunded)
    && (o.issued.Some? ==> o'.issued == o.issued)
    && (o.refunded.Some? ==> o' == o)
  }

  /** Rows survive with grown orders or are new; issued rows always survive. */
  ghost predicate Successor(db: Db, db': Db) {
    && db.nextSerial <= db'.nextSerial
    && (forall id :: id in db'.rows ==>
          || db'.rows[id].serial >= db.nextSerial
          || (id in db.rows && db.rows[id].serial == db'.rows[id].serial &&
              Grew(db.rows[id].order, db'.rows[id].order)))
    && (forall id :: id in db.rows && db.rows[id].order.issued.Some? ==>
          id in db'.rows && db'.rows[id].serial == db.rows[id].serial)
  }

  lemma StampedGrew(kind: Kind, o: Order, clock: Time, user: UserId, now: Time)
    requires Chronological(o, clock) && Validate(kind, o, user, now).None?
    ensures Grew(o, Stamp(kind, o, now))
  {
  }

  lemma StampedSuccessor(kind: Kind, db: Db, db': Db, clock: Time, user: UserId, now: Time)
    requires DbOk(db, clock) && Stamped(kind, db, db', user, now)
    ensures Successor(db, db')
  {
    forall id | id in db'.rows
      ensures db'.rows[id].serial == db.rows[id].serial && Grew(db.rows[id].order, db'.rows[id].order)
    {
      assert RowOk(db, id, clock);
      if db'.rows[id] != db.rows[id] {
        StampedGrew(kind, db.rows[id].order, clock, user, now);
      }
    }
  }

  lemma DeleteSuccessor(db: Db, clock: Time, id: OrderId, now: Time)
    requires DbOk(db, clock) && JudgeReturn(db, id, now).Returned?
    ensures Successor(db, db.(rows := db.rows - {id}))
  {
  }

  lemma ApplySuccessor(db: Db, clock: Time, w: Write)
    requires DbOk(db, clock)
    ensures Successor(db, Apply(db, w))
  {
    match w
    case Accept(_, _, _, _) =>
    case Return(id, at) =>
      if JudgeReturn(db, id, at).Returned? {
        DeleteSuccessor(db, clock, id, at);
      }
    case Batch(kind, user, ids, at) =>
      BatchStamps(kind, db, user, ids, at);
      StampedSuccessor(kind, db, Apply(db, w), clock, user, at);
  }

  lemma SuccessorTransitive(a: Db, b: Db, c: Db, clockA: Time, clockB: Time)
    requires DbOk(a, clockA) && DbOk(b, clockB) && Successor(a, b) && Successor(b, c)
    ensures Successor(a, c)
  {
  }

  lemma {:induction false} RunSuccessor(db: Db, clock: Time, ws: seq<Write>)
    requires DbOk(db, clock) && Serial(clock, ws)
    ensures Successor(db, ApplyAll(db, ws))
    decreases ws
  {
    if ws != [] {
      var next := Apply(db, ws[0]);
      ApplyOk(db, clock, ws[0]);
      ApplySuccessor(db, clock, ws[0]);
      RunSuccessor(next, EndOf(ws[0]), ws[1..]);
      RunOk(next, EndOf(ws[0]), ws[1..]);
      SuccessorTransitive(db, next, ApplyAll(db, ws), clock, EndOf(ws[0]));
    }
  }

  /**
   In every serial run an issued row is never deleted or re-stamped as issued, and a refunded
   row never changes again.
   */
  lemma IssuedRowsStay(db: Db, clock: Time, ws: seq<Write>, id: OrderId)
    requires DbOk(db, clock) && Serial(clock, ws)
    requires id in db.rows && StageOf(db.rows[id].order) != Stored
    ensures var after := ApplyAll(db, ws);
      && id in after.rows && after.rows[id].serial == db.rows[id].serial
      && after.rows[id].order.issued == db.rows[id].order.issued
      && (StageOf(db.rows[id].order) == Refunded ==> after.rows[id] == db.rows[id])
  {
    assert RowOk(db, id, clock);
    StageIsFurthest(db.rows[id].order, clock);
    RunSuccessor(db, clock, ws);
  }
}
