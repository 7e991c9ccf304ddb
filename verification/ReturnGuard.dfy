/**
 Returning an order checks the row and deletes it later, by order id and without rechecking
 (internal/repository/orderrepo/repository.go). Which other writes can come between?
 */
module ReturnGuard {
  import opened Wrappers
  import opened Orders
  import opened OrderDb
  import opened Lifecycle
  import opened Batches
  import opened Windows
  import opened PackagingTable

  /** The checked row, if it is still there, is as it was. */
  predicate SameRowUnchanged(db: Db, db': Db, id: OrderId)
    requires id in db.rows
  {
    id in db'.rows && db'.rows[id].serial == db.rows[id].serial ==> db'.rows[id] == db.rows[id]
  }

  lemma PastExpiryIsFrozen(db: Db, clock: Time, w: Write, id: OrderId)
    requires DbOk(db, clock) && Timely(clock, w)
    requires id in db.rows && StageOf(db.rows[id].order) == Stored && db.rows[id].order.expiry < clock
    ensures SameRowUnchanged(db, Apply(db, w), id)
  {
    if w.Batch? {
      BatchStamps(w.kind, db, w.user, w.ids, w.at);
      assert Validate(w.kind, db.rows[id].order, w.user, w.at).Some?;
    }
  }

  /**
   Return guard stability: once a row is stored and strictly past its expiry, no write with a
   later clock reading changes it while it exists.
   */
  lemma {:induction false} ReturnGuardStable(db: Db, clock: Time, ws: seq<Write>, id: OrderId)
    requires DbOk(db, clock) && Serial(clock, ws)
    requires id in db.rows && StageOf(db.rows[id].order) == Stored && db.rows[id].order.expiry < clock
    ensures SameRowUnchanged(db, ApplyAll(db, ws), id)
    decreases ws
  {
    if ws != [] {
      var next := Apply(db, ws[0]);
      PastExpiryIsFrozen(db, clock, ws[0], id);
      ApplyOk(db, clock, ws[0]);
      ApplySuccessor(db, clock, ws[0]);
      assert RowOk(db, id, clock);
      if id in next.rows && next.rows[id].serial == db.rows[id].serial {
        ReturnGuardStable(next, EndOf(ws[0]), ws[1..], id);
      } else {
        RunSuccessor(next, EndOf(ws[0]), ws[1..]);
      }
    }
  }

  /** No run from here on turns the checked row into an issued or refunded one. */
  ghost predicate DeleteStaysSafe(db: Db, clock: Time, id: OrderId)
    requires id in db.rows
  {
    forall ws :: Serial(clock, ws) ==> SameRowUnchanged(db, ApplyAll(db, ws), id)
  }

  lemma IssueNow(db: Db, clock: Time, id: OrderId, user: UserId)
    requires DbOk(db, clock) && id in db.rows && Validate(Issue, db.rows[id].order, user, clock).None?
    ensures JudgeBatch(Issue, db.rows, user, [id], clock) == Committed([id], [], None)
    ensures Apply(db, Batch(Issue, user, [id], clock)).rows == db.rows[id := StampRow(Issue, db.rows[id], clock)]
    ensures StageOf(Stamp(Issue, db.rows[id].order, clock)) == Issued
  {
    assert RowOk(db, id, clock);
    OneOrderBatch(Issue, db, id, user, clock);
    StageIsFurthest(db.rows[id].order, clock);
    StageIsFurthest(Stamp(Issue, db.rows[id].order, clock), clock);
  }

  /**
   The guard lets an order return at the very instant of its expiry, and that instant still
   allows an issue: deleting the checked row later is safe exactly when the check was strictly
   after the expiry.
   */
  lemma DeleteSafeIffStrictlyPast(db: Db, clock: Time, id: OrderId)
    requires DbOk(db, clock) && ZERO_TIME < clock
    requires JudgeReturn(db, id, clock).Returned?
    ensures DeleteStaysSafe(db, clock, id) <==> db.rows[id].order.expiry < clock
  {
    var o := db.rows[id].order;
    if o.expiry < clock {
      forall ws | Serial(clock, ws) ensures SameRowUnchanged(db, ApplyAll(db, ws), id) {
        ReturnGuardStable(db, clock, ws, id);
      }
    } else {
      var w := Batch(Issue, o.recipient, [id], clock);
      IssueNow(db, clock, id, o.recipient);
      assert RowOk(db, id, clock);
      StageIsFurthest(o, clock);
      assert ApplyAll(db, [w]) == Apply(db, w);
      assert Serial(clock, [w]);
    }
  }

  /** Under the id there is now a different row, and it is issued. */
  predicate OtherRowIssued(db: Db, db': Db, id: OrderId)
    requires id in db.rows
  {
    id in db'.rows && db'.rows[id].serial != db.rows[id].serial && StageOf(db'.rows[id].order) == Issued
  }

  /** Another return and a re-accept between check and delete. */
  function Interloper(o: Order, clock: Time): seq<Write> {
    [Return(o.id, clock),
     Accept(Request(o.id, o.recipient, clock, o.basePrice, o.weight, o.packaging), clock, clock, clock),
     Batch(Issue, o.recipient, [o.id], clock)]
  }

  lemma InterloperIsSerial(o: Order, clock: Time)
    requires ZERO_TIME < clock
    ensures Serial(clock, Interloper(o, clock))
  {
    var ws := Interloper(o, clock);
    assert ws[2..][1..] == [];
    assert Serial(clock, ws[2..]);
    assert ws[1..][1..] == ws[2..];
    assert Serial(clock, ws[1..]);
  }

  /**
   The delete goes by order id, not by row: after every successful check there is a run - another
   return, a re-accept of the id and its issue - that puts an issued row under the id the pending
   delete will remove.
   */
  lemma DeleteCanHitANewRow(db: Db, clock: Time, id: OrderId)
    requires DbOk(db, clock) && ZERO_TIME < clock
    requires PackagingOk(db) && JudgeReturn(db, id, clock).Returned?
    ensures exists ws :: Serial(clock, ws) && OtherRowIssued(db, ApplyAll(db, ws), id)
  {
    assert RowOk(db, id, clock);
    var o := db.rows[id].order;
    var ws := Interloper(o, clock);
    var db1 := Apply(db, ws[0]);
    ApplyOk(db, clock, ws[0]);
    var db2 := Reaccepted(db, db1, clock, o);
    ApplyOk(db1, clock, ws[1]);
    IssueNow(db2, clock, id, o.recipient);
    ThreeWrites(db, ws[0], ws[1], ws[2]);
    InterloperIsSerial(o, clock);
    assert OtherRowIssued(db, ApplyAll(db, ws), id);
  }

  /** With the expired row gone, the same order is accepted again as a new row. */
  lemma Reaccepted(db: Db, db1: Db, clock: Time, o: Order) returns (db2: Db)
    requires ZERO_TIME < clock && PackedOk(db, o)
    requires db1 == db.(rows := db.rows - {o.id})
    ensures db2 == Apply(db1, Interloper(o, clock)[1])
    ensures o.id in db2.rows && db2.rows[o.id].serial == db.nextSerial
    ensures Validate(Issue, db2.rows[o.id].order, o.recipient, clock).None?
    ensures db2.rows[o.id].order.recipient == o.recipient
  {
    var w := Interloper(o, clock)[1];
    assert JudgeAccept(db1, w.req, clock).Accepted?;
    AcceptedWhileIssuable(db1, w.req, clock);
    db2 := Save(db1, NewOrder(w.req, clock), PackagePrice(w.req.packaging));
  }
}
