/**
 What a committed or aborted issue/refund batch means, told from the table before it
 (internal/storage/postgres/userorderstorage/storage.go).
 */
module Batches {
  import opened Wrappers
  import opened Orders
  import opened OrderDb

  /** A row that carries this batch's own stamp does not validate again. */
  lemma RepeatFails(kind: Kind, o: Order, user: UserId, now: Time)
    requires Chronological(o, now)
    ensures Validate(kind, Stamp(kind, o, now), user, now).Some?
  {
  }

  /** Position i is present, did not occur before, and its row validates in the table before the batch. */
  predicate Good(kind: Kind, rows: map<OrderId, Row>, user: UserId, ids: seq<OrderId>, now: Time, i: nat)
    requires i < |ids|
  {
    ids[i] in rows && ids[i] !in ids[..i] && Validate(kind, rows[ids[i]].order, user, now).None?
  }

  ghost predicate AllChronological(rows: map<OrderId, Row>, clock: Time) {
    forall id :: id in rows ==> Chronological(rows[id].order, clock)
  }

  lemma GoodIsStepOk(kind: Kind, rows: map<OrderId, Row>, user: UserId, ids: seq<OrderId>, now: Time, i: nat)
    requires AllChronological(rows, now) && i < |ids|
    ensures Good(kind, rows, user, ids, now, i) <==> StepOk(kind, rows, user, ids, now, i)
  {
    if ids[i] in rows && ids[i] in ids[..i] {
      RepeatFails(kind, rows[ids[i]].order, user, now);
    }
  }

  /** A batch of one valid order processes it. */
  lemma OneOrderBatch(kind: Kind, db: Db, id: OrderId, user: UserId, now: Time)
    requires id in db.rows && Validate(kind, db.rows[id].order, user, now).None?
    ensures JudgeBatch(kind, db.rows, user, [id], now) == Committed([id], [], None)
    ensures Apply(db, Batch(kind, user, [id], now)).rows == db.rows[id := StampRow(kind, db.rows[id], now)]
  {
    assert StepOk(kind, db.rows, user, [id], now, 0);
    assert Cut(kind, db.rows, user, [id], now) == 1;
    assert [id][..1] == [id];
    assert FailedOrders([id], [id]) == FailedOrders([id][1..], [id]) == [];
    assert StampRows(kind, db.rows, [id], now) == db.rows[id := StampRow(kind, db.rows[id], now)];
  }

  /**
   The loop over the changing table against the initial table alone: with n the first position
   that is missing, repeated or invalid there, a missing id at n leaves everything untouched;
   otherwise exactly the ids before n are processed and stamped with `now`.
   */
  lemma BatchRefinement(kind: Kind, db: Db, user: UserId, ids: seq<OrderId>, now: Time, n: nat)
    requires AllChronological(db.rows, now)
    requires n <= |ids|
    requires forall j :: 0 <= j < n ==> Good(kind, db.rows, user, ids, now, j)
    requires n < |ids| ==> !Good(kind, db.rows, user, ids, now, n)
    ensures var after := Apply(db, Batch(kind, user, ids, now));
      var outcome := JudgeBatch(kind, db.rows, user, ids, now);
      if n < |ids| && ids[n] !in db.rows then outcome.Aborted? && after == db
      else
        && outcome.Committed? && outcome.processed == ids[..n]
        && (outcome.error.None? <==> n == |ids|)
        && after.rows.Keys == db.rows.Keys && after.nextSerial == db.nextSerial && after.prices == db.prices
        && forall id :: id in db.rows ==>
             after.rows[id] == if id in ids[..n] then StampRow(kind, db.rows[id], now) else db.rows[id]
  {
    var cut := Cut(kind, db.rows, user, ids, now);
    if cut < n {
      GoodIsStepOk(kind, db.rows, user, ids, now, cut);
      assert false;
    } else if n < cut {
      GoodIsStepOk(kind, db.rows, user, ids, now, n);
      assert false;
    }
  }

  lemma {:induction false} FailedMembers(ids: seq<OrderId>, processed: seq<OrderId>, id: OrderId)
    ensures id in FailedOrders(ids, processed) <==> id in ids && id !in processed
  {
    if ids != [] {
      FailedMembers(ids[1..], processed, id);
      assert ids == [ids[0]] + ids[1..];
    }
  }

  predicate Distinct(ids: seq<OrderId>) {
    forall i, j :: 0 <= i < j < |ids| ==> ids[i] != ids[j]
  }

  lemma {:induction false} FailedSuffix(ids: seq<OrderId>, n: nat, k: nat)
    requires Distinct(ids) && k <= n <= |ids|
    ensures FailedOrders(ids[k..], ids[..n]) == ids[n..]
    decreases n - k
  {
    if k < n {
      assert ids[k] in ids[..n];
      FailedSuffix(ids, n, k + 1);
    } else {
      FailedTail(ids, n, n);
    }
  }

  lemma {:induction false} FailedTail(ids: seq<OrderId>, n: nat, k: nat)
    requires Distinct(ids) && n <= k <= |ids|
    ensures FailedOrders(ids[k..], ids[..n]) == ids[k..]
    decreases |ids| - k
  {
    if k < |ids| {
      assert ids[k] !in ids[..n];
      FailedTail(ids, n, k + 1);
      assert ids[k..] == [ids[k]] + ids[k + 1..];
    }
  }

  /**
   The report of every committed batch: processed and failed ids are disjoint and together are
   the requested ids, the error is nil exactly when every position was processed, and for
   distinct ids the two lists laid end to end are the request.
   */
  lemma BatchReport(kind: Kind, rows: map<OrderId, Row>, user: UserId, ids: seq<OrderId>, now: Time)
    requires JudgeBatch(kind, rows, user, ids, now).Committed?
    ensures var out := JudgeBatch(kind, rows, user, ids, now);
      && (forall id :: !(id in out.processed && id in out.failed))
      && (forall id :: id in ids <==> id in out.processed || id in out.failed)
      && (out.error.None? <==> |out.processed| == |ids|)
      && (Distinct(ids) ==> out.processed + out.failed == ids)
  {
    var n := Cut(kind, rows, user, ids, now);
    var out := JudgeBatch(kind, rows, user, ids, now);
    forall id ensures id in out.failed <==> id in ids && id !in out.processed {
      FailedMembers(ids, ids[..n], id);
    }
    if Distinct(ids) {
      FailedSuffix(ids, n, 0);
      assert ids[0..] == ids;
    }
  }

  /** Why position n of a batch over the initial table fails, the same id before it counted as done. */
  predicate Blames(
    kind: Kind, rows: map<OrderId, Row>, user: UserId, ids: seq<OrderId>, now: Time, n: nat, e: OrderError)
    requires n < |ids| && ids[n] in rows
  {
    var o := rows[ids[n]].order;
    match e
    case DoesntOwn => o.recipient != user
    case NotInStorage => kind == Issue && o.recipient == user && (ids[n] in ids[..n] || StageOf(o) != Stored)
    case StorageExpired =>
      kind == Issue && o.recipient == user && ids[n] !in ids[..n] && StageOf(o) == Stored && o.expiry < now
    case NotIssued => kind == Refund && o.recipient == user && (ids[n] in ids[..n] || StageOf(o) != Issued)
    case RefundPeriodExpired =>
      && kind == Refund && o.recipient == user && ids[n] !in ids[..n] && StageOf(o) == Issued
      && o.issued.value + 48 * 3_600_000_000 < now
  }

  /** The error a batch reports: that of the first position that is repeated or invalid in the initial table. */
  lemma BatchErrorIff(
    kind: Kind, rows: map<OrderId, Row>, user: UserId, ids: seq<OrderId>, now: Time, n: nat, e: OrderError)
    requires AllChronological(rows, now) && n < |ids| && ids[n] in rows
    requires forall j :: 0 <= j < n ==> Good(kind, rows, user, ids, now, j)
    requires !Good(kind, rows, user, ids, now, n)
    ensures var out := JudgeBatch(kind, rows, user, ids, now);
      out.Committed? && (out.error == Some(e) <==> Blames(kind, rows, user, ids, now, n, e))
  {
    var cut := Cut(kind, rows, user, ids, now);
    GoodIsStepOk(kind, rows, user, ids, now, n);
    assert cut == n by {
      if cut < n {
        GoodIsStepOk(kind, rows, user, ids, now, cut);
      }
    }
    assert Chronological(rows[ids[n]].order, now);
    if ids[n] in ids[..n] {
      var j :| 0 <= j < n && ids[j] == ids[n];
      assert Good(kind, rows, user, ids, now, j);
    }
    StepErrorIs(kind, rows, user, ids, now, n, e);
  }

  lemma StepErrorIs(
    kind: Kind, rows: map<OrderId, Row>, user: UserId, ids: seq<OrderId>, now: Time, n: nat, e: OrderError)
    requires n < |ids| && ids[n] in rows && Chronological(rows[ids[n]].order, now)
    requires ids[n] in ids[..n] ==> Validate(kind, rows[ids[n]].order, user, now).None?
    ensures StepError(kind, rows, user, ids, now, n) == Some(e) <==> Blames(kind, rows, user, ids, now, n, e)
  {
  }

  /** A requested id that was not processed is reported failed as often as it was requested. */
  lemma {:induction false} FailedCounts(ids: seq<OrderId>, processed: seq<OrderId>, id: OrderId)
    ensures multiset(FailedOrders(ids, processed))[id] == if id in processed then 0 else multiset(ids)[id]
  {
    if ids != [] {
      FailedCounts(ids[1..], processed, id);
      assert ids == [ids[0]] + ids[1..];
      assert multiset(ids) == multiset{ids[0]} + multiset(ids[1..]);
    }
  }
}
