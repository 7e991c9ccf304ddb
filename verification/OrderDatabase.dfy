/** The storage code as it runs: loops over the tables inside a transaction. */
module OrderDatabase {
  import opened Wrappers
  import opened Orders
  import opened OrderDb
  import Packaging

  class Database {
    var rows: map<OrderId, Row>
    var nextSerial: int
    var prices: map<string, nat>

    constructor ()
      ensures State() == EMPTY_DB
    {
      rows, nextSerial, prices := map[], 1, map[];
    }

    function State(): Db
      reads this
    {
      Db(rows, nextSerial, prices)
    }

    /** Repository AcceptOrder: guards in source order, then SaveOrder. */
    method AcceptOrder(req: Request, ghost handlerAt: Time, checkedAt: Time, storedAt: Time) returns (v: AcceptVerdict)
      modifies this
      ensures v == JudgeAccept(old(State()), req, checkedAt)
      ensures State() == Apply(old(State()), Accept(req, handlerAt, checkedAt, storedAt))
    {
      if req.expiry < checkedAt {
        return PastExpiry;
      }
      if req.id in rows {
        return Duplicate;
      }
      var parsed := Packaging.ParsePackaging(req.packaging);
      if parsed.Rejected? {
        return BadPackaging;
      }
      ghost var kinds := Packaging.KindsOf(req.packaging);
      var light := Packaging.CheckWeight(parsed.packing, req.weight, kinds);
      if !light {
        return TooHeavy;
      }
      var price := Packaging.CalculatePrice(parsed.packing, kinds);
      SaveOrder(NewOrder(req, storedAt), price);
      return Accepted;
    }

    method SaveOrder(order: Order, price: nat)
      modifies this
      ensures State() == Save(old(State()), order, price)
    {
      if order.packaging !in prices {
        prices := prices[order.packaging := price];
      }
      rows := rows[order.id := Row(nextSerial, order)];
      nextSerial := nextSerial + 1;
    }

    /** Lookup and guards of a return; the row stays. */
    method CheckReturn(id: OrderId, now: Time) returns (v: ReturnVerdict)
      ensures v == JudgeReturn(State(), id, now)
    {
      if id !in rows {
        return NotFound;
      }
      var stage := Status(rows[id].order);
      if stage != Stored {
        return NotStored;
      }
      if rows[id].order.expiry > now {
        return NotExpired;
      }
      return Returned;
    }

    /** DELETE by order id, whatever row has it. */
    method DeleteOrder(id: OrderId) returns (found: bool)
      modifies this`rows
      ensures found <==> id in old(rows)
      ensures State() == old(State()).(rows := old(rows) - {id})
    {
      found := id in rows;
      rows := rows - {id};
    }

    /** Repository ReturnOrder: check, then delete; with no other write in between. */
    method ReturnOrder(id: OrderId, now: Time) returns (v: ReturnVerdict)
      modifies this`rows
      ensures v == JudgeReturn(old(State()), id, now)
      ensures State() == Apply(old(State()), Return(id, now))
    {
      v := CheckReturn(id, now);
      if v == Returned {
        var _ := DeleteOrder(id);
      }
    }

    /** The loop of IssueOrders and RefundOrders over the changing table; it stops at position n. */
    method StampInTurn(kind: Kind, user: UserId, ids: seq<OrderId>, now: Time)
      returns (tx: map<OrderId, Row>, n: nat, error: Option<OrderError>)
      ensures n == Cut(kind, rows, user, ids, now)
      ensures tx == StampRows(kind, rows, ids[..n], now)
      ensures n < |ids| && ids[n] in rows ==> error == StepError(kind, rows, user, ids, now, n)
      ensures n == |ids| ==> error.None?
    {
      tx, n, error := rows, 0, None;
      while n < |ids|
        invariant n <= |ids| && Cut(kind, rows, user, ids, now) == Cut(kind, rows, user, ids, now, n)
        invariant tx == StampRows(kind, rows, ids[..n], now)
        invariant error.None?
      {
        var id := ids[n];
        CutNext(kind, rows, user, ids, now, n);
        if id !in tx {
          return;
        }
        StampNext(kind, rows, user, ids, now, n);
        error := Validate(kind, tx[id].order, user, now);
        if error.Some? {
          return;
        }
        tx := tx[id := StampRow(kind, tx[id], now)];
        n := n + 1;
      }
    }

    /** IssueOrders and RefundOrders: the loop, then commit, or roll back at an id without a row. */
    method ProcessBatch(kind: Kind, user: UserId, ids: seq<OrderId>, now: Time) returns (outcome: BatchOutcome)
      modifies this`rows
      ensures outcome == JudgeBatch(kind, old(rows), user, ids, now)
      ensures State() == Apply(old(State()), Batch(kind, user, ids, now))
    {
      var tx, n, error := StampInTurn(kind, user, ids, now);
      BatchCut(kind, State(), user, ids, now, n);
      if n < |ids| && ids[n] !in rows {
        return Aborted;
      }
      rows := tx;
      var processed := ids[..n];
      var failed := GetFailedOrders(ids, processed);
      return Committed(processed, failed, error);
    }
  }

  /** getFailedOrders: index the processed ids, then filter the request. */
  method GetFailedOrders(ids: seq<OrderId>, processed: seq<OrderId>) returns (failed: seq<OrderId>)
    ensures failed == FailedOrders(ids, processed)
  {
    var index: set<OrderId> := {};
    for i := 0 to |processed|
      invariant index == set id | id in processed[..i]
    {
      index := index + {processed[i]};
      assert processed[..i + 1] == processed[..i] + [processed[i]];
    }
    assert processed[..|processed|] == processed;
    failed := [];
    for i := 0 to |ids|
      invariant failed + FailedOrders(ids[i..], processed) == FailedOrders(ids, processed)
    {
      if ids[i] !in index {
        failed := failed + [ids[i]];
      }
    }
  }
}
