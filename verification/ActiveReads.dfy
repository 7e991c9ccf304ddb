/**
 Which orders the active-order reads answer and what each service call leaves in the cache, told by
 the rows, the validators and the request (internal/service/storage_service.go).
 */
module ActiveReads {
  import opened Wrappers
  import opened Orders
  import opened OrderDb
  import opened Windows
  import opened Lifecycle
  import opened WriteRules
  import opened CachedOrders
  import opened CacheCoherence
  import opened OrderService

  // ---- reads that find no index ----

  /** The recipient could have the order refunded, or issued with time to spare. */
  predicate Open(o: Order, now: Time) {
    || Validate(Refund, o, o.recipient, now) == None
    || (Validate(Issue, o, o.recipient, now) == None && now != o.expiry)
  }

  lemma ActiveIffOpen(o: Order, clock: Time, now: Time)
    requires Chronological(o, clock) && clock <= now
    ensures Active(o, now) <==> Open(o, now)
  {
    WindowAgreement(o, clock, now);
  }

  function OpenIds(db: Db, now: Time): set<OrderId> {
    set id | id in db.rows && Open(db.rows[id].order, now)
  }

  function OpenIdsOf(db: Db, user: UserId, now: Time): set<OrderId> {
    set id | id in db.rows && db.rows[id].order.recipient == user && Open(db.rows[id].order, now)
  }

  lemma ActiveIdsAreOpen(db: Db, clock: Time, user: UserId, now: Time)
    requires DbOk(db, clock) && clock <= now
    ensures ActiveIds(db, now) == OpenIds(db, now) && UserActiveIds(db, user, now) == OpenIdsOf(db, user, now)
  {
    forall id | id in db.rows ensures Active(db.rows[id].order, now) <==> Open(db.rows[id].order, now) {
      assert RowOk(db, id, clock);
      ActiveIffOpen(db.rows[id].order, clock, now);
    }
  }

  /**
   A read that finds no index works through exactly the orders of the user that could be refunded,
   or issued before their expiry; they become the index, and all of them are cached.
   */
  lemma ColdUserRead(w: World, clock: Time, user: UserId, now: Time)
    requires Coherent(w, clock) && clock <= now && Index(w.cache, user) == {}
    ensures UserReadIds(w, user, now) == OpenIdsOf(w.db, user, now)
    ensures var after := Step(w, ReadUser(user, now));
      && Index(after.cache, user) == OpenIdsOf(w.db, user, now)
      && OpenIdsOf(w.db, user, now) <= after.cache.orders.Keys
  {
    ActiveIdsAreOpen(w.db, clock, user, now);
  }

  /** The client gets one answer for each of these orders, in its current stage, and no other. */
  ghost predicate AnswersExactly(w: World, clock: Time, user: UserId, ids: set<OrderId>, found: seq<Order>) {
    && (forall i :: 0 <= i < |found| ==> found[i].id in ids && SoundFor(w, clock, user, found[i].id, found[i]))
    && (forall id :: id in ids ==> Answers(found, id))
    && (forall i, j :: 0 <= i < j < |found| ==> found[i].id != found[j].id)
  }

  lemma ColdUserAnswer(w: World, clock: Time, user: UserId, now: Time, list: seq<OrderId>)
    requires Coherent(w, clock) && clock <= now && Index(w.cache, user) == {}
    requires Enumerates(list, UserReadIds(w, user, now))
    ensures AnswersExactly(w, clock, user, OpenIdsOf(w.db, user, now), Collected(w.cache.orders, w.db.rows, list))
  {
    ColdUserRead(w, clock, user, now);
    CollectedSound(w, clock, user, list);
    SoundIsExact(w, clock, user, OpenIdsOf(w.db, user, now), list, Collected(w.cache.orders, w.db.rows, list));
  }

  lemma SoundIsExact(w: World, clock: Time, user: UserId, ids: set<OrderId>, list: seq<OrderId>, found: seq<Order>)
    requires Enumerates(list, ids) && SoundAnswer(w, clock, user, list, found)
    ensures AnswersExactly(w, clock, user, ids, found)
  {
    forall i | 0 <= i < |found| ensures found[i].id == list[i] && SoundFor(w, clock, user, found[i].id, found[i]) {
      assert SoundFor(w, clock, user, list[i], found[i]);
    }
    forall id | id in ids ensures Answers(found, id) {
      var i :| 0 <= i < |list| && list[i] == id;
      assert found[i].id == id;
    }
  }

  /** So it is after every serial run from the empty service once the index of the user is lost. */
  lemma ReadAfterLostIndex(es: seq<Event>, user: UserId, now: Time, list: seq<OrderId>)
    requires SerialEvents(ZERO_TIME, es) && RunEnd(ZERO_TIME, es) <= now
    requires var w := Step(Run(World(EMPTY_DB, EMPTY_CACHE), ZERO_TIME, es), DropIndex(user));
      Enumerates(list, UserReadIds(w, user, now))
    ensures var w := Step(Run(World(EMPTY_DB, EMPTY_CACHE), ZERO_TIME, es), DropIndex(user));
      AnswersExactly(w, RunEnd(ZERO_TIME, es), user, OpenIdsOf(w.db, user, now),
                     Collected(w.cache.orders, w.db.rows, list))
  {
    var before := Run(World(EMPTY_DB, EMPTY_CACHE), ZERO_TIME, es);
    RunCoherent(World(EMPTY_DB, EMPTY_CACHE), ZERO_TIME, es);
    StepCoherent(before, RunEnd(ZERO_TIME, es), DropIndex(user));
    ColdUserAnswer(Step(before, DropIndex(user)), RunEnd(ZERO_TIME, es), user, now, list);
  }

  /** A read of all orders that finds no set, a refresh and the start-up all take the open orders. */
  lemma GlobalSetIsOpen(w: World, clock: Time, now: Time)
    requires Coherent(w, clock) && clock <= now
    ensures w.cache.allActive == {} ==>
      && AllReadIds(w, now) == OpenIds(w.db, now)
      && Step(w, ReadAll(now)).cache.allActive == OpenIds(w.db, now)
      && OpenIds(w.db, now) <= Step(w, ReadAll(now)).cache.orders.Keys
    ensures w.cache.allActive != {} ==> AllReadIds(w, now) == w.cache.allActive
    ensures Step(w, RefreshActive(now)).cache == w.cache.(allActive := OpenIds(w.db, now))
    ensures var c := Step(w, Init(now)).cache;
      && c.allActive == OpenIds(w.db, now) && c.history == w.db.rows.Keys && c.userIndex == w.cache.userIndex
      && c.orders.Keys == w.db.rows.Keys
      && forall id :: id in w.db.rows ==> c.orders[id] == w.db.rows[id].order
  {
    ActiveIdsAreOpen(w.db, clock, "", now);
  }

  /** For a cached id the answer is the cached copy, otherwise the row. */
  lemma {:induction false} CacheAnswersFirst(
    orders: map<OrderId, Order>, rows: map<OrderId, Row>, list: seq<OrderId>, id: OrderId)
    requires id in list
    ensures id in orders ==> orders[id] in Collected(orders, rows, list)
    ensures id !in orders && id in rows ==> rows[id].order in Collected(orders, rows, list)
  {
    if id != list[0] {
      CacheAnswersFirst(orders, rows, list[1..], id);
    }
  }

  // ---- what a call leaves in the cache ----

  /** The orders a call accepts, returns, issues or refunds. */
  function Concerned(db: Db, w: Write): set<OrderId> {
    match w
    case Accept(req, _, checkedAt, _) => if JudgeAccept(db, req, checkedAt) == Accepted then {req.id} else {}
    case Return(id, at) => if JudgeReturn(db, id, at) == Returned then {id} else {}
    case Batch(_, _, _, _) => Elements(Processed(db, w))
  }

  /** An order keeps its copy, its place in every index and in the history set. */
  ghost predicate Undisturbed(c: Cache, c': Cache, id: OrderId) {
    && (id in c'.orders <==> id in c.orders) && (id in c.orders ==> c'.orders[id] == c.orders[id])
    && (forall user :: id in Index(c', user) <==> id in Index(c, user))
    && (id in c'.history <==> id in c.history) && (id in c'.allActive <==> id in c.allActive)
  }

  lemma BatchDisturbsOnlyProcessed(w: World, clock: Time, write: Write, ticks: seq<Time>, id: OrderId)
    requires Coherent(w, clock) && write.Batch? && |write.ids| <= |ticks| && id !in Processed(w.db, write)
    ensures Undisturbed(w.cache, Step(w, Call(write, ticks)).cache, id)
  {
    var processed := Processed(w.db, write);
    if write.kind == Issue && JudgeBatch(write.kind, w.db.rows, write.user, write.ids, write.at).Committed? {
      KeyedOrders(w, clock);
      RefreshedOrders(w.cache.orders, processed, ticks);
    }
  }

  lemma KeyedOrders(w: World, clock: Time)
    requires Coherent(w, clock)
    ensures forall id :: id in w.cache.orders ==> w.cache.orders[id].id == id
  {
    forall id | id in w.cache.orders ensures w.cache.orders[id].id == id {
      assert RowOk(w.db, id, clock);
    }
  }

  /** A call changes the row, the copy and the places of no order it does not concern. */
  lemma CallConcernsOnly(w: World, clock: Time, write: Write, ticks: seq<Time>, id: OrderId)
    requires Coherent(w, clock) && EventTimely(clock, Call(write, ticks)) && id !in Concerned(w.db, write)
    ensures var after := Step(w, Call(write, ticks));
      && Undisturbed(w.cache, after.cache, id)
      && (id in after.db.rows <==> id in w.db.rows) && (id in w.db.rows ==> after.db.rows[id] == w.db.rows[id])
  {
    match write
    case Accept(req, handlerAt, checkedAt, storedAt) =>
      AcceptConcernsOnly(w, req, handlerAt, checkedAt, storedAt, ticks, id);
    case Return(returned, at) => ReturnConcernsOnly(w, returned, at, ticks, id);
    case Batch(_, _, _, _) => BatchDisturbsOnlyProcessed(w, clock, write, ticks, id);
  }

  lemma AcceptConcernsOnly(
    w: World, req: Request, handlerAt: Time, checkedAt: Time, storedAt: Time, ticks: seq<Time>, id: OrderId)
    requires JudgeAccept(w.db, req, checkedAt) == Accepted ==> id != req.id
    ensures var after := Step(w, Call(Accept(req, handlerAt, checkedAt, storedAt), ticks));
      && Undisturbed(w.cache, after.cache, id)
      && (id in after.db.rows <==> id in w.db.rows) && (id in w.db.rows ==> after.db.rows[id] == w.db.rows[id])
  {
  }

  lemma ReturnConcernsOnly(w: World, returned: OrderId, at: Time, ticks: seq<Time>, id: OrderId)
    requires JudgeReturn(w.db, returned, at) == Returned ==> id != returned
    ensures var after := Step(w, Call(Return(returned, at), ticks));
      && Undisturbed(w.cache, after.cache, id)
      && (id in after.db.rows <==> id in w.db.rows) && (id in w.db.rows ==> after.db.rows[id] == w.db.rows[id])
  {
  }

  /** An accepted order is cached with the fields of the request, stored at the handler's reading, and indexed. */
  lemma AcceptCaches(w: World, write: Write, ticks: seq<Time>)
    requires write.Accept? && JudgeAccept(w.db, write.req, write.checkedAt) == Accepted
    ensures var c := Step(w, Call(write, ticks)).cache;
      var id := write.req.id;
      && id in c.orders && Carries(c.orders[id], write.req)
      && c.orders[id].stored == Some(write.handlerAt) && c.orders[id].issued == None && c.orders[id].refunded == None
      && id in Index(c, write.req.recipient) && id in c.history
  {
  }

  /** A returned order is neither cached nor in any index; the history and global sets keep its id. */
  lemma ReturnForgets(w: World, clock: Time, id: OrderId, at: Time)
    requires Coherent(w, clock) && JudgeReturn(w.db, id, at) == Returned
    ensures var c := Step(w, Call(Return(id, at), [])).cache;
      && id !in c.orders && (forall user :: id !in Index(c, user))
      && (id in c.history <==> id in w.cache.history) && (id in c.allActive <==> id in w.cache.allActive)
  {
  }

  /** A refunded order loses its copy and its place in the history set and keeps its place in the index. */
  lemma RefundCaches(w: World, write: Write, ticks: seq<Time>, id: OrderId)
    requires write.Batch? && write.kind == Refund && |write.ids| <= |ticks| && id in Processed(w.db, write)
    ensures var c := Step(w, Call(write, ticks)).cache;
      && id !in c.orders && id !in c.history
      && forall user :: id in Index(c, user) <==> id in Index(w.cache, user)
  {
    BatchKeepsIndex(w, Refund, write.user, write.ids, write.at, ticks);
  }

  /** An issued order that is cached gets one of the later readings, and keeps its places. */
  lemma IssueCaches(w: World, clock: Time, write: Write, ticks: seq<Time>, id: OrderId)
    requires Coherent(w, clock) && write.Batch? && write.kind == Issue && |write.ids| <= |ticks|
    requires id in Processed(w.db, write)
    ensures var c := Step(w, Call(write, ticks)).cache;
      && (id in c.orders <==> id in w.cache.orders)
      && (id in w.cache.orders ==>
            exists k :: 0 <= k < |write.ids| && c.orders[id] == w.cache.orders[id].(issued := Some(ticks[k])))
      && c.history == w.cache.history && c.userIndex == w.cache.userIndex
  {
    KeyedOrders(w, clock);
    RefreshedOrders(w.cache.orders, Processed(w.db, write), ticks);
  }

  // ---- the history set ----

  /** Every live order that is not refunded is in the history set. */
  ghost predicate HistoryHolds(w: World) {
    forall id :: id in w.db.rows && StageOf(w.db.rows[id].order) != Refunded ==> id in w.cache.history
  }

  lemma CallKeepsHistory(w: World, clock: Time, write: Write, ticks: seq<Time>)
    requires Coherent(w, clock) && EventTimely(clock, Call(write, ticks)) && HistoryHolds(w)
    ensures HistoryHolds(Step(w, Call(write, ticks)))
  {
    var after := Step(w, Call(write, ticks));
    forall id | id in after.db.rows && StageOf(after.db.rows[id].order) != Refunded ensures id in after.cache.history {
      if id !in Concerned(w.db, write) {
        CallConcernsOnly(w, clock, write, ticks, id);
      } else {
        ConcernedInHistory(w, clock, write, ticks, id);
      }
    }
  }

  lemma ConcernedInHistory(w: World, clock: Time, write: Write, ticks: seq<Time>, id: OrderId)
    requires Coherent(w, clock) && EventTimely(clock, Call(write, ticks)) && HistoryHolds(w)
    requires id in Concerned(w.db, write)
    ensures var after := Step(w, Call(write, ticks));
      id in after.db.rows && StageOf(after.db.rows[id].order) != Refunded ==> id in after.cache.history
  {
    match write
    case Accept(_, _, _, _) => AcceptCaches(w, write, ticks);
    case Return(_, _) =>
    case Batch(_, _, _, _) => ProcessedInHistory(w, clock, write, ticks, id);
  }

  lemma ProcessedInHistory(w: World, clock: Time, write: Write, ticks: seq<Time>, id: OrderId)
    requires Coherent(w, clock) && EventTimely(clock, Call(write, ticks)) && HistoryHolds(w)
    requires write.Batch? && id in Processed(w.db, write)
    ensures var after := Step(w, Call(write, ticks));
      id in after.db.rows && StageOf(after.db.rows[id].order) != Refunded ==> id in after.cache.history
  {
    ProcessedStamped(w.db, write, id);
    assert StageOf(w.db.rows[id].order) != Refunded && id in w.cache.history;
    if write.kind == Issue {
      IssueCaches(w, clock, write, ticks, id);
    } else {
      assert Chronological(w.db.rows[id].order, clock) by {
        assert RowOk(w.db, id, clock);
      }
      assert StageOf(Stamp(Refund, w.db.rows[id].order, write.at)) == Refunded;
    }
  }

  lemma {:induction false} RunKeepsHistory(w: World, clock: Time, es: seq<Event>)
    requires Coherent(w, clock) && SerialEvents(clock, es) && HistoryHolds(w)
    ensures HistoryHolds(Run(w, clock, es))
    decreases es
  {
    if es != [] {
      if es[0].Call? {
        CallKeepsHistory(w, clock, es[0].write, es[0].ticks);
      }
      StepCoherent(w, clock, es[0]);
      RunKeepsHistory(Step(w, es[0]), EventEnd(clock, es[0]), es[1..]);
    }
  }

  /** In every serial run from the empty service the history set holds every live order that is not refunded. */
  lemma HistorySetIsComplete(es: seq<Event>, id: OrderId)
    requires SerialEvents(ZERO_TIME, es)
    ensures var w := Run(World(EMPTY_DB, EMPTY_CACHE), ZERO_TIME, es);
      id in w.db.rows && StageOf(w.db.rows[id].order) != Refunded ==> id in w.cache.history
  {
    RunKeepsHistory(World(EMPTY_DB, EMPTY_CACHE), ZERO_TIME, es);
  }
}
