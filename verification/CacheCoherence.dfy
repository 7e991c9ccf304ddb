/** What every serial run keeps between the cache and the table. */
module CacheCoherence {
  import opened Wrappers
  import opened Orders
  import opened OrderDb
  import opened Lifecycle
  import opened Windows
  import opened CachedOrders

  /** A copy with the same identity, prices and stage; its stamps may be other readings of the clock. */
  predicate Mirrors(c: Order, o: Order, clock: Time) {
    && c == o.(stored := c.stored, issued := c.issued, refunded := c.refunded)
    && Chronological(c, clock)
    && Furthest(c) == Furthest(o)
  }

  ghost predicate OrdersMirrored(orders: map<OrderId, Order>, rows: map<OrderId, Row>, clock: Time) {
    forall id :: id in orders ==> id in rows && Mirrors(orders[id], rows[id].order, clock)
  }

  ghost predicate IndexOwned(c: Cache, rows: map<OrderId, Row>) {
    forall u, id :: u in c.userIndex && id in c.userIndex[u] ==> id in rows && rows[id].order.recipient == u
  }

  ghost predicate Coherent(w: World, clock: Time) {
    && DbOk(w.db, clock)
    && OrdersMirrored(w.cache.orders, w.db.rows, clock)
    && IndexOwned(w.cache, w.db.rows)
  }

  lemma CoherentLater(w: World, clock: Time, later: Time)
    requires Coherent(w, clock) && clock <= later
    ensures Coherent(w, later)
  {
  }

  // ---- accept ----

  lemma AcceptMirrored(
    orders: map<OrderId, Order>, db: Db, clock: Time, req: Request, handlerAt: Time, storedAt: Time)
    requires OrdersMirrored(orders, db.rows, clock) && req.id !in db.rows
    requires ZERO_TIME < handlerAt && clock <= handlerAt <= storedAt
    ensures OrdersMirrored(orders[req.id := NewOrder(req, handlerAt)],
                           Save(db, NewOrder(req, storedAt), PackagePrice(req.packaging)).rows, storedAt)
  {
  }

  lemma AcceptIndexOwned(c: Cache, db: Db, copy: Order, o: Order, price: nat)
    requires IndexOwned(c, db.rows) && o.id !in db.rows && copy.id == o.id && copy.recipient == o.recipient
    ensures IndexOwned(AfterAccept(c, copy), Save(db, o, price).rows)
  {
  }

  lemma AcceptCoherent(w: World, clock: Time, req: Request, handlerAt: Time, storedAt: Time)
    requires Coherent(w, clock) && ZERO_TIME < handlerAt && clock <= handlerAt <= storedAt && req.id !in w.db.rows
    ensures Coherent(World(Save(w.db, NewOrder(req, storedAt), PackagePrice(req.packaging)),
                           AfterAccept(w.cache, NewOrder(req, handlerAt))), storedAt)
  {
    SaveOk(w.db, clock, req, storedAt);
    AcceptMirrored(w.cache.orders, w.db, clock, req, handlerAt, storedAt);
    AcceptIndexOwned(w.cache, w.db, NewOrder(req, handlerAt), NewOrder(req, storedAt), PackagePrice(req.packaging));
  }

  // ---- return ----

  lemma ReturnCoherent(w: World, clock: Time, id: OrderId, now: Time)
    requires Coherent(w, clock) && clock <= now && id in w.db.rows
    ensures Coherent(World(w.db.(rows := w.db.rows - {id}),
                           AfterReturn(w.cache, id, w.db.rows[id].order.recipient)), now)
  {
  }

  // ---- issue ----

  /** Exactly the cached ones among the listed orders are re-stamped, with some of the readings. */
  lemma {:induction false} RefreshedOrders(orders: map<OrderId, Order>, ids: seq<OrderId>, ticks: seq<Time>)
    requires |ids| <= |ticks| && forall id :: id in orders ==> orders[id].id == id
    ensures var after := RefreshIssued(orders, ids, ticks);
      && after.Keys == orders.Keys
      && forall id :: id in orders ==>
           if id in ids then exists k :: 0 <= k < |ids| && after[id] == orders[id].(issued := Some(ticks[k]))
           else after[id] == orders[id]
    decreases ids
  {
    if ids != [] {
      var next := if ids[0] in orders then orders[ids[0] := orders[ids[0]].(issued := Some(ticks[0]))] else orders;
      RefreshedOrders(next, ids[1..], ticks[1..]);
      var after := RefreshIssued(orders, ids, ticks);
      assert ids == [ids[0]] + ids[1..];
      forall id | id in orders && id in ids
        ensures exists k :: 0 <= k < |ids| && after[id] == orders[id].(issued := Some(ticks[k]))
      {
        if id in ids[1..] {
          var k :| 0 <= k < |ids[1..]| && after[id] == next[id].(issued := Some(ticks[1..][k]));
          assert after[id] == orders[id].(issued := Some(ticks[k + 1]));
        } else {
          assert after[id] == orders[id].(issued := Some(ticks[0]));
        }
      }
    }
  }

  lemma IssuedCopyMirrors(c: Order, o: Order, clock: Time, user: UserId, now: Time, read: Time, later: Time)
    requires Mirrors(c, o, clock) && Chronological(o, clock)
    requires Validate(Issue, o, user, now).None?
    requires clock <= now <= read <= later
    ensures Mirrors(c.(issued := Some(read)), Stamp(Issue, o, now), later)
  {
  }

  lemma IssueMirrored(w: World, clock: Time, user: UserId, done: seq<OrderId>, at: Time, ticks: seq<Time>, end: Time)
    requires Coherent(w, clock) && clock <= at <= end && |done| <= |ticks|
    requires forall i :: 0 <= i < |ticks| ==> at <= ticks[i] <= end
    requires forall id :: id in done ==> id in w.db.rows && Validate(Issue, w.db.rows[id].order, user, at).None?
    ensures OrdersMirrored(RefreshIssued(w.cache.orders, done, ticks), StampRows(Issue, w.db.rows, done, at), end)
  {
    var orders, rows := RefreshIssued(w.cache.orders, done, ticks), StampRows(Issue, w.db.rows, done, at);
    RefreshedOrders(w.cache.orders, done, ticks);
    forall id | id in orders ensures id in rows && Mirrors(orders[id], rows[id].order, end) {
      assert RowOk(w.db, id, clock);
      if id in done {
        var k :| 0 <= k < |done| && orders[id] == w.cache.orders[id].(issued := Some(ticks[k]));
        IssuedCopyMirrors(w.cache.orders[id], w.db.rows[id].order, clock, user, at, ticks[k], end);
      }
    }
  }

  lemma StampedIndexOwned(c: Cache, rows: map<OrderId, Row>, kind: Kind, done: seq<OrderId>, at: Time)
    requires IndexOwned(c, rows)
    ensures IndexOwned(c, StampRows(kind, rows, done, at))
  {
  }

  lemma RefundMirrored(
    orders: map<OrderId, Order>, rows: map<OrderId, Row>, clock: Time, done: seq<OrderId>, at: Time, end: Time)
    requires OrdersMirrored(orders, rows, clock) && clock <= end
    ensures OrdersMirrored(orders - Elements(done), StampRows(Refund, rows, done, at), end)
  {
  }

  /** A committed batch as one table and one cache update over the processed ids. */
  function AfterBatch(w: World, kind: Kind, done: seq<OrderId>, at: Time, ticks: seq<Time>): World
    requires |done| <= |ticks|
  {
    World(w.db.(rows := StampRows(kind, w.db.rows, done, at)),
          if kind == Issue then w.cache.(orders := RefreshIssued(w.cache.orders, done, ticks))
          else AfterRefund(w.cache, done))
  }

  lemma CommittedCoherent(
    w: World, clock: Time, kind: Kind, user: UserId, done: seq<OrderId>, at: Time, ticks: seq<Time>, end: Time)
    requires Coherent(w, clock) && clock <= at <= end && |done| <= |ticks|
    requires forall i :: 0 <= i < |ticks| ==> at <= ticks[i] <= end
    requires forall id :: id in done ==> id in w.db.rows && Validate(kind, w.db.rows[id].order, user, at).None?
    requires DbOk(w.db.(rows := StampRows(kind, w.db.rows, done, at)), at)
    ensures Coherent(AfterBatch(w, kind, done, at, ticks), end)
  {
    LaterOk(w.db.(rows := StampRows(kind, w.db.rows, done, at)), at, end);
    StampedIndexOwned(w.cache, w.db.rows, kind, done, at);
    if kind == Issue {
      IssueMirrored(w, clock, user, done, at, ticks, end);
    } else {
      RefundMirrored(w.cache.orders, w.db.rows, clock, done, at, end);
    }
  }

  lemma BatchCoherent(w: World, clock: Time, kind: Kind, user: UserId, ids: seq<OrderId>, at: Time, ticks: seq<Time>)
    requires Coherent(w, clock) && EventTimely(clock, Call(Batch(kind, user, ids, at), ticks))
    ensures var e := Call(Batch(kind, user, ids, at), ticks); Coherent(Step(w, e), EventEnd(clock, e))
  {
    var write := Batch(kind, user, ids, at);
    var end := EventEnd(clock, Call(write, ticks));
    if JudgeBatch(kind, w.db.rows, user, ids, at).Aborted? {
      CoherentLater(w, clock, end);
    } else {
      var done := ids[..Cut(kind, w.db.rows, user, ids, at)];
      assert Step(w, Call(write, ticks)) == AfterBatch(w, kind, done, at, ticks);
      forall id | id in done ensures id in w.db.rows && Validate(kind, w.db.rows[id].order, user, at).None? {
        ProcessedValid(w.db.rows, kind, user, ids, at, id);
      }
      ApplyOk(w.db, clock, write);
      CommittedCoherent(w, clock, kind, user, done, at, ticks, end);
    }
  }

  // ---- reads ----

  lemma FillMirrored(orders: map<OrderId, Order>, db: Db, clock: Time, ids: set<OrderId>)
    requires DbOk(db, clock) && OrdersMirrored(orders, db.rows, clock)
    ensures OrdersMirrored(Fill(orders, db.rows, ids), db.rows, clock)
  {
  }

  lemma InitCoherent(w: World, clock: Time, now: Time)
    requires Coherent(w, clock)
    ensures Coherent(AfterInit(w, now), clock)
  {
  }

  // ---- runs ----

  lemma CallCoherent(w: World, clock: Time, write: Write, ticks: seq<Time>)
    requires Coherent(w, clock) && EventTimely(clock, Call(write, ticks))
    ensures Coherent(Step(w, Call(write, ticks)), EventEnd(clock, Call(write, ticks)))
  {
    var e := Call(write, ticks);
    var w' := Step(w, e);
    match write
    case Accept(req, handlerAt, checkedAt, storedAt) =>
      if JudgeAccept(w.db, req, checkedAt).Accepted? {
        AcceptCoherent(w, clock, req, handlerAt, storedAt);
        CoherentLater(w', storedAt, EventEnd(clock, e));
      } else {
        CoherentLater(w, clock, EventEnd(clock, e));
      }
    case Return(id, at) =>
      if JudgeReturn(w.db, id, at).Returned? {
        ReturnCoherent(w, clock, id, at);
        CoherentLater(w', at, EventEnd(clock, e));
      } else {
        CoherentLater(w, clock, EventEnd(clock, e));
      }
    case Batch(kind, user, ids, at) =>
      BatchCoherent(w, clock, kind, user, ids, at, ticks);
  }

  lemma SetIndexOwned(c: Cache, rows: map<OrderId, Row>, user: UserId, ids: set<OrderId>)
    requires IndexOwned(c, rows) && forall id :: id in ids ==> id in rows && rows[id].order.recipient == user
    ensures IndexOwned(SetIndex(c, user, ids), rows)
  {
  }

  /** The filled cache with its order keys and its index told apart. */
  lemma FilledCoherent(w: World, clock: Time, c: Cache, ids: set<OrderId>)
    requires Coherent(w, clock) && c.orders == w.cache.orders && IndexOwned(c, w.db.rows)
    ensures Coherent(w.(cache := c.(orders := Fill(c.orders, w.db.rows, ids))), clock)
  {
    FillMirrored(w.cache.orders, w.db, clock, ids);
  }

  lemma UserReadCoherent(w: World, clock: Time, user: UserId, now: Time)
    requires Coherent(w, clock) && clock <= now
    ensures Coherent(AfterUserRead(w, user, now), now)
  {
    CoherentLater(w, clock, now);
    var ids := UserReadIds(w, user, now);
    if Index(w.cache, user) == {} {
      SetIndexOwned(w.cache, w.db.rows, user, ids);
      FilledCoherent(w, now, SetIndex(w.cache, user, ids), ids);
    } else {
      FilledCoherent(w, now, w.cache, ids);
    }
  }

  lemma AllReadCoherent(w: World, clock: Time, now: Time)
    requires Coherent(w, clock) && clock <= now
    ensures Coherent(AfterAllRead(w, now), now)
  {
    CoherentLater(w, clock, now);
    FilledCoherent(w, now, w.cache.(allActive := AllReadIds(w, now)), AllReadIds(w, now));
  }

  lemma DropCoherent(w: World, clock: Time, e: Event)
    requires Coherent(w, clock) && (e.DropOrder? || e.DropIndex? || e.DropAllActive? || e.RefreshHistory?)
    ensures Coherent(Step(w, e), clock)
  {
  }

  lemma StepCoherent(w: World, clock: Time, e: Event)
    requires Coherent(w, clock) && EventTimely(clock, e)
    ensures Coherent(Step(w, e), EventEnd(clock, e))
  {
    match e
    case Call(write, ticks) => CallCoherent(w, clock, write, ticks);
    case ReadUser(user, now) => UserReadCoherent(w, clock, user, now);
    case ReadAll(now) => AllReadCoherent(w, clock, now);
    case Init(now) =>
      CoherentLater(w, clock, now);
      InitCoherent(w, now, now);
    case RefreshActive(now) => CoherentLater(w, clock, now);
    case _ => DropCoherent(w, clock, e);
  }

  /**
   Sequential cache coherence: in every serial run each cached order is a live row with the same
   id, recipient, expiry, price, weight, packaging and stage, and each id in a user's index is a
   live row of that user.
   */
  lemma {:induction false} RunCoherent(w: World, clock: Time, es: seq<Event>)
    requires Coherent(w, clock) && SerialEvents(clock, es)
    ensures Coherent(Run(w, clock, es), RunEnd(clock, es))
    decreases es
  {
    if es != [] {
      StepCoherent(w, clock, es[0]);
      RunCoherent(Step(w, es[0]), EventEnd(clock, es[0]), es[1..]);
    }
  }

  /**
   The same from the empty service, spelled out: every cached order agrees with a live row in
   every field a client sees but the clock readings, and no index lists another user's order.
   */
  lemma SequentialCoherence(es: seq<Event>, id: OrderId, user: UserId)
    requires SerialEvents(ZERO_TIME, es)
    ensures var w := Run(World(EMPTY_DB, EMPTY_CACHE), ZERO_TIME, es);
      && (id in w.cache.orders ==>
            && id in w.db.rows
            && var c, o := w.cache.orders[id], w.db.rows[id].order;
               && c.id == o.id == id && c.recipient == o.recipient && c.expiry == o.expiry
               && c.basePrice == o.basePrice && c.weight == o.weight && c.packaging == o.packaging
               && StageOf(c) == StageOf(o))
      && (id in Index(w.cache, user) ==> id in w.db.rows && w.db.rows[id].order.recipient == user)
  {
    RunCoherent(World(EMPTY_DB, EMPTY_CACHE), ZERO_TIME, es);
    var w := Run(World(EMPTY_DB, EMPTY_CACHE), ZERO_TIME, es);
    if id in w.cache.orders {
      assert RowOk(w.db, id, RunEnd(ZERO_TIME, es));
      StageIsFurthest(w.cache.orders[id], RunEnd(ZERO_TIME, es));
      StageIsFurthest(w.db.rows[id].order, RunEnd(ZERO_TIME, es));
    }
  }

  /**
   After an accept the recipient's reads work through the old index and the new order, nothing
   else. So the new order is listed, and an earlier one is listed exactly when the index already
   had it: an accept on a cold index hides every other active order of that user.
   */
  lemma ReadAfterAccept(w: World, write: Write, ticks: seq<Time>, now: Time, other: OrderId)
    requires write.Accept? && JudgeAccept(w.db, write.req, write.checkedAt).Accepted?
    ensures var after := Step(w, Call(write, ticks));
      && write.req.id in UserReadIds(after, write.req.recipient, now)
      && (other != write.req.id ==>
            (other in UserReadIds(after, write.req.recipient, now) <==> other in Index(w.cache, write.req.recipient)))
  {
  }

  // ---- what stays listed ----

  /** The read answers an index that is not empty as it is; these of its orders are no longer active. */
  lemma WarmIndexInactive(w: World, clock: Time, user: UserId, now: Time, id: OrderId)
    requires Coherent(w, clock) && clock <= now && id in Index(w.cache, user)
    ensures id in UserReadIds(w, user, now) && id in w.db.rows
    ensures var o := w.db.rows[id].order;
      !Active(o, now) <==>
        || StageOf(o) == Refunded
        || (StageOf(o) == Stored && o.expiry <= now)
        || (StageOf(o) == Issued && now > o.issued.value + REFUND_WINDOW)
  {
    assert RowOk(w.db, id, clock);
    StageIsFurthest(w.db.rows[id].order, clock);
  }

  /** The order is in the user's index, and refunded. */
  ghost predicate RefundedInIndex(w: World, user: UserId, id: OrderId) {
    id in Index(w.cache, user) && id in w.db.rows && StageOf(w.db.rows[id].order) == Refunded
  }

  lemma RefundedStaysAtCall(w: World, clock: Time, write: Write, ticks: seq<Time>, user: UserId, id: OrderId)
    requires Coherent(w, clock) && EventTimely(clock, Call(write, ticks)) && RefundedInIndex(w, user, id)
    ensures RefundedInIndex(Step(w, Call(write, ticks)), user, id)
  {
    assert RowOk(w.db, id, clock);
    match write
    case Accept(_, _, _, _) =>
    case Return(_, _) =>
    case Batch(kind, asker, ids, at) =>
      assert Apply(w.db, write).rows[id] == w.db.rows[id] by {
        BatchStamps(kind, w.db, asker, ids, at);
      }
      BatchKeepsIndex(w, kind, asker, ids, at, ticks);
  }

  /** No batch touches a user index. */
  lemma BatchKeepsIndex(w: World, kind: Kind, user: UserId, ids: seq<OrderId>, at: Time, ticks: seq<Time>)
    requires |ids| <= |ticks|
    ensures Step(w, Call(Batch(kind, user, ids, at), ticks)).cache.userIndex == w.cache.userIndex
  {
  }

  /**
   A refund drops the order key and leaves the user index. So every serial run that does not lose
   the index keeps listing the refunded order to its user, as refunded, although it is never
   active again.
   */
  lemma {:induction false} RefundedStaysListed(
    w: World, clock: Time, es: seq<Event>, user: UserId, id: OrderId, now: Time)
    requires Coherent(w, clock) && SerialEvents(clock, es) && DropIndex(user) !in es
    requires RefundedInIndex(w, user, id)
    ensures var after := Run(w, clock, es);
      && id in UserReadIds(after, user, now)
      && id in after.db.rows && StageOf(after.db.rows[id].order) == Refunded && !Active(after.db.rows[id].order, now)
    decreases es
  {
    assert RowOk(w.db, id, clock);
    if es != [] {
      if es[0].Call? {
        RefundedStaysAtCall(w, clock, es[0].write, es[0].ticks, user, id);
      }
      StepCoherent(w, clock, es[0]);
      RefundedStaysListed(Step(w, es[0]), EventEnd(clock, es[0]), es[1..], user, id, now);
    }
  }

  /** After a refund every processed order that the index of its user held is such an order. */
  lemma ReadAfterRefund(w: World, clock: Time, user: UserId, ids: seq<OrderId>, at: Time, ticks: seq<Time>, id: OrderId)
    requires Coherent(w, clock) && EventTimely(clock, Call(Batch(Refund, user, ids, at), ticks))
    requires id in Processed(w.db, Batch(Refund, user, ids, at))
    ensures var after := Step(w, Call(Batch(Refund, user, ids, at), ticks));
      && Index(after.cache, user) == Index(w.cache, user) && id !in after.cache.orders
      && (RefundedInIndex(after, user, id) <==> id in Index(w.cache, user))
  {
    assert RowOk(w.db, id, clock) && StageOf(Stamp(Refund, w.db.rows[id].order, at)) == Refunded by {
      ProcessedStamped(w.db, Batch(Refund, user, ids, at), id);
    }
    ProcessedStamped(w.db, Batch(Refund, user, ids, at), id);
    BatchKeepsIndex(w, Refund, user, ids, at, ticks);
    RefundForgets(w, user, ids, at, ticks, id);
  }

  lemma RefundForgets(w: World, user: UserId, ids: seq<OrderId>, at: Time, ticks: seq<Time>, id: OrderId)
    requires |ids| <= |ticks| && id in Processed(w.db, Batch(Refund, user, ids, at))
    ensures id !in Step(w, Call(Batch(Refund, user, ids, at), ticks)).cache.orders
  {
  }
}
