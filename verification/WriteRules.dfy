/**
 What accepts and returns do, told by the request, the stamps and the clock alone, for one write
 and for whole runs (internal/repository/orderrepo/repository.go).
 */
module WriteRules {
  import opened Wrappers
  import opened Orders
  import opened OrderDb
  import opened Lifecycle
  import opened CommitOrder
  import Packaging

  // ---- return ----

  /** A return removes exactly the row of its id, and only if that is in storage and not before its expiry. */
  lemma ReturnRemovesIff(db: Db, id: OrderId, at: Time)
    ensures var after := Apply(db, Return(id, at));
      && (id in db.rows && id !in after.rows <==>
            id in db.rows && StageOf(db.rows[id].order) == Stored && db.rows[id].order.expiry <= at)
      && (forall other :: other != id && other in db.rows ==>
            other in after.rows && after.rows[other] == db.rows[other])
      && (id in after.rows ==> after == db)
      && after.rows.Keys <= db.rows.Keys && after.nextSerial == db.nextSerial && after.prices == db.prices
  {
  }

  /** Which answer a return gives. */
  lemma ReturnAnswers(db: Db, id: OrderId, at: Time)
    ensures JudgeReturn(db, id, at) == NotFound <==> id !in db.rows
    ensures JudgeReturn(db, id, at) == NotStored <==> id in db.rows && StageOf(db.rows[id].order) != Stored
    ensures JudgeReturn(db, id, at) == NotExpired <==>
      id in db.rows && StageOf(db.rows[id].order) == Stored && at < db.rows[id].order.expiry
    ensures JudgeReturn(db, id, at) == Returned <==> id in db.rows && id !in Apply(db, Return(id, at)).rows
  {
  }

  /** The row is there still: the same serial, and what the accept wrote. */
  predicate SameRow(r: Row, r': Row) {
    && r'.serial == r.serial
    && r'.order == r.order.(issued := r'.order.issued, refunded := r'.order.refunded)
  }

  /** A row stays through every write but a return of its id that finds it in storage past its expiry. */
  lemma RowStaysOrReturned(db: Db, w: Write, id: OrderId)
    requires id in db.rows
    ensures (id in Apply(db, w).rows && SameRow(db.rows[id], Apply(db, w).rows[id]))
      || (w.Return? && w.id == id && StageOf(db.rows[id].order) == Stored && db.rows[id].order.expiry <= w.at)
  {
    if w.Batch? {
      BatchStamps(w.kind, db, w.user, w.ids, w.at);
    }
  }

  /** The k-th write returns the row: it is in storage then, and the reading is not before its expiry. */
  ghost predicate ReturnedAt(db: Db, ws: seq<Write>, k: nat, id: OrderId)
    requires id in db.rows
  {
    && k < |ws| && ws[k].Return? && ws[k].id == id && db.rows[id].order.expiry <= ws[k].at
    && var during := ApplyAll(db, ws[..k]);
       id in during.rows && SameRow(db.rows[id], during.rows[id]) && StageOf(during.rows[id].order) == Stored
  }

  /**
   Between two moments of any run, in any commit order, a row that is gone - or whose id another row
   has - was returned: some return of its id found it in storage and read a time not before its expiry.
   */
  lemma {:induction false} GoneWasReturned(db: Db, ws: seq<Write>, id: OrderId)
    requires id in db.rows
    requires id !in ApplyAll(db, ws).rows || ApplyAll(db, ws).rows[id].serial != db.rows[id].serial
    ensures exists k: nat :: ReturnedAt(db, ws, k, id)
    decreases ws
  {
    var next := Apply(db, ws[0]);
    RowStaysOrReturned(db, ws[0], id);
    if id in next.rows && SameRow(db.rows[id], next.rows[id]) {
      GoneWasReturned(next, ws[1..], id);
      var k: nat :| ReturnedAt(next, ws[1..], k, id);
      assert ws[..k + 1][1..] == ws[1..][..k];
      assert ReturnedAt(db, ws, k + 1, id);
    } else {
      assert ws[..0] == [];
      assert ReturnedAt(db, ws, 0, id);
    }
  }

  // ---- accept ----

  /** Which answer an accept gives: the first of its guards that fails. */
  lemma AcceptAnswers(db: Db, req: Request, now: Time)
    ensures var kinds := Packaging.KindsOf(req.packaging);
      var unpackable := None in kinds || Packaging.MainCount(kinds) > 1;
      var tooHeavy := (Some(Packaging.Package) in kinds && req.weight >= 10.0) ||
                      (Some(Packaging.Box) in kinds && req.weight >= 30.0);
      && (JudgeAccept(db, req, now) == PastExpiry <==> req.expiry < now)
      && (JudgeAccept(db, req, now) == Duplicate <==> now <= req.expiry && req.id in db.rows)
      && (JudgeAccept(db, req, now) == BadPackaging <==> now <= req.expiry && req.id !in db.rows && unpackable)
      && (JudgeAccept(db, req, now) == TooHeavy <==>
            now <= req.expiry && req.id !in db.rows && !unpackable && tooHeavy)
      && (JudgeAccept(db, req, now) == Accepted <==>
            now <= req.expiry && req.id !in db.rows && !unpackable && !tooHeavy)
  {
  }

  /** The order has the fields of the request. */
  predicate Carries(o: Order, req: Request) {
    && o.id == req.id && o.recipient == req.recipient && o.expiry == req.expiry
    && o.basePrice == req.basePrice && o.weight == req.weight && o.packaging == req.packaging
  }

  /**
   An accepted accept adds one row, with the fields of its request, stored at its last reading, not
   issued and not refunded, under a serial above all others; every other row stays as it is. A
   refused one changes nothing.
   */
  lemma AcceptAddsRow(db: Db, w: Write)
    requires TableOk(db) && w.Accept?
    ensures var after := Apply(db, w);
      if JudgeAccept(db, w.req, w.checkedAt) == Accepted then
        && w.req.id !in db.rows && after.rows.Keys == db.rows.Keys + {w.req.id}
        && (forall id :: id in db.rows ==> after.rows[id] == db.rows[id])
        && var row := after.rows[w.req.id];
           && Carries(row.order, w.req)
           && row.order.stored == Some(w.storedAt) && row.order.issued == None && row.order.refunded == None
           && (forall id :: id in db.rows ==> db.rows[id].serial < row.serial)
      else after == db
  {
    forall id | id in db.rows ensures db.rows[id].serial < db.nextSerial {
      assert RowSound(db, id);
    }
  }

  /** The k-th write is the accept that made the row. */
  ghost predicate MadeBy(db: Db, ws: seq<Write>, k: nat, row: Row) {
    && k < |ws| && ws[k].Accept? && Carries(row.order, ws[k].req) && row.order.stored == Some(ws[k].storedAt)
    && var during := ApplyAll(db, ws[..k]);
       JudgeAccept(during, ws[k].req, ws[k].checkedAt) == Accepted && row.serial == during.nextSerial
  }

  lemma RowAfterWrite(db: Db, w: Write, id: OrderId)
    requires id in Apply(db, w).rows
    ensures var row := Apply(db, w).rows[id];
      || (id in db.rows && SameRow(db.rows[id], row))
      || (w.Accept? && JudgeAccept(db, w.req, w.checkedAt) == Accepted && Carries(row.order, w.req)
          && row.order.stored == Some(w.storedAt) && row.serial == db.nextSerial && w.req.id == id)
  {
    if w.Batch? {
      BatchStamps(w.kind, db, w.user, w.ids, w.at);
    }
  }

  lemma {:induction false} RowsComeFromAccepts(db: Db, ws: seq<Write>, id: OrderId)
    requires id in ApplyAll(db, ws).rows
    ensures var row := ApplyAll(db, ws).rows[id];
      (id in db.rows && SameRow(db.rows[id], row)) || exists k: nat :: MadeBy(db, ws, k, row)
    decreases ws
  {
    if ws != [] {
      var next, row := Apply(db, ws[0]), ApplyAll(db, ws).rows[id];
      RowsComeFromAccepts(next, ws[1..], id);
      if k: nat :| MadeBy(next, ws[1..], k, row) {
        assert ws[..k + 1][1..] == ws[1..][..k];
        assert MadeBy(db, ws, k + 1, row);
      } else {
        RowAfterWrite(db, ws[0], id);
        if !(id in db.rows && SameRow(db.rows[id], next.rows[id])) {
          assert ws[..0] == [];
          assert MadeBy(db, ws, 0, row);
        }
      }
    }
  }

  /**
   In every run from the empty tables, in any commit order, each live row still has the recipient,
   expiry, base price, weight, packaging and stored stamp of an accepted accept of its id.
   */
  lemma EveryRowWasAccepted(ws: seq<Write>, id: OrderId)
    requires Positive(ws) && id in ApplyAll(EMPTY_DB, ws).rows
    ensures exists k: nat :: MadeBy(EMPTY_DB, ws, k, ApplyAll(EMPTY_DB, ws).rows[id]) && ws[k].req.id == id
  {
    RowsComeFromAccepts(EMPTY_DB, ws, id);
    RunKeepsTable(EMPTY_DB, ws);
    assert RowSound(ApplyAll(EMPTY_DB, ws), id);
    var k: nat :| MadeBy(EMPTY_DB, ws, k, ApplyAll(EMPTY_DB, ws).rows[id]);
  }
}
