/** The service methods as they run: table calls followed by step-by-step cache updates. */
module OrderService {
  import opened Wrappers
  import opened Orders
  import opened OrderDb
  import opened OrderDatabase
  import opened Batches
  import opened Windows
  import opened CachedOrders
  import opened CacheCoherence

  /** SMEMBERS: the elements of a set in some order. */
  ghost predicate Enumerates(list: seq<OrderId>, s: set<OrderId>) {
    Distinct(list) && forall id :: id in list <==> id in s
  }

  method Members(s: set<OrderId>) returns (list: seq<OrderId>)
    ensures Enumerates(list, s)
  {
    list := [];
    var rest := s;
    while rest != {}
      invariant rest <= s && Enumerates(list, s - rest)
      decreases rest
    {
      var id :| id in rest;
      list := list + [id];
      rest := rest - {id};
    }
  }

  /** What a read answers for a list of ids: the cached copy, else the row, else nothing. */
  function Collected(orders: map<OrderId, Order>, rows: map<OrderId, Row>, list: seq<OrderId>): seq<Order> {
    if list == [] then []
    else
      (if list[0] in orders then [orders[list[0]]] else if list[0] in rows then [rows[list[0]].order] else [])
      + Collected(orders, rows, list[1..])
  }

  lemma {:induction false} CollectedAppend(
    orders: map<OrderId, Order>, rows: map<OrderId, Row>, a: seq<OrderId>, b: seq<OrderId>)
    ensures Collected(orders, rows, a + b) == Collected(orders, rows, a) + Collected(orders, rows, b)
  {
    if a == [] {
      assert a + b == b;
    } else {
      assert (a + b)[1..] == a[1..] + b;
      CollectedAppend(orders, rows, a[1..], b);
    }
  }

  /** The map of rows is keyed by their order_id column. */
  ghost predicate KeyedById(rows: map<OrderId, Row>) {
    forall id :: id in rows ==> rows[id].order.id == id
  }

  lemma ElementsSnoc(list: seq<OrderId>, i: nat)
    requires i < |list|
    ensures Elements(list[..i + 1]) == Elements(list[..i]) + {list[i]}
  {
  }

  lemma FillOneMore(orders: map<OrderId, Order>, rows: map<OrderId, Row>, ids: set<OrderId>, id: OrderId)
    requires id !in ids
    ensures var before := Fill(orders, rows, ids);
      && (id in before <==> id in orders) && (id in orders ==> before[id] == orders[id])
      && Fill(orders, rows, ids + {id}) ==
           if id !in before && id in rows then before[id := rows[id].order] else before
  {
  }

  lemma CollectedOneMore(orders: map<OrderId, Order>, rows: map<OrderId, Row>, list: seq<OrderId>, i: nat)
    requires i < |list|
    ensures Collected(orders, rows, list[..i + 1]) ==
            Collected(orders, rows, list[..i]) + Collected(orders, rows, [list[i]])
  {
    assert list[..i + 1] == list[..i] + [list[i]];
    CollectedAppend(orders, rows, list[..i], [list[i]]);
  }

  lemma RowOrdersOneMore(orders: map<OrderId, Order>, rows: map<OrderId, Row>, ids: set<OrderId>, id: OrderId)
    ensures orders + RowOrders(rows, ids + {id}) ==
            if id in rows then (orders + RowOrders(rows, ids))[id := rows[id].order] else orders + RowOrders(rows, ids)
  {
  }

  /** One more id: how the filled cache and the answer grow. */
  lemma CollectNext(orders: map<OrderId, Order>, rows: map<OrderId, Row>, list: seq<OrderId>, i: nat)
    requires Distinct(list) && i < |list|
    ensures var before, id := Fill(orders, rows, Elements(list[..i])), list[i];
      && Fill(orders, rows, Elements(list[..i + 1])) ==
           (if id !in before && id in rows then before[id := rows[id].order] else before)
      && Collected(orders, rows, list[..i + 1]) == Collected(orders, rows, list[..i]) +
           (if id in before then [before[id]] else if id in rows then [rows[id].order] else [])
  {
    ElementsSnoc(list, i);
    FillOneMore(orders, rows, Elements(list[..i]), list[i]);
    CollectedOneMore(orders, rows, list, i);
    assert Collected(orders, rows, [list[i]][1..]) == [];
  }

  lemma RowOrdersTwice(orders: map<OrderId, Order>, rows: map<OrderId, Row>, some: set<OrderId>)
    requires some <= rows.Keys
    ensures orders + RowOrders(rows, some) + RowOrders(rows, rows.Keys) == orders + RowOrders(rows, rows.Keys)
  {
  }

  class Service {
    const db: Database
    var orders: map<OrderId, Order>
    var userIndex: map<UserId, set<OrderId>>
    var allActive: set<OrderId>
    var history: set<OrderId>

    constructor (db: Database)
      ensures this.db == db && State() == World(db.State(), EMPTY_CACHE)
    {
      this.db := db;
      orders, userIndex, allActive, history := map[], map[], {}, {};
    }

    function CacheState(): Cache
      reads this
    {
      Cache(orders, userIndex, allActive, history)
    }

    function State(): World
      reads this, db
    {
      World(db.State(), CacheState())
    }

    method UpdateUserActiveOrders(user: UserId, ids: set<OrderId>)
      modifies this`userIndex
      ensures CacheState() == SetIndex(old(CacheState()), user, ids)
    {
      userIndex := userIndex - {user};
      if ids != {} {
        userIndex := userIndex[user := ids];
      }
    }

    method AcceptOrder(req: Request, handlerAt: Time, checkedAt: Time, storedAt: Time) returns (v: AcceptVerdict)
      modifies this, db
      ensures v == JudgeAccept(old(db.State()), req, checkedAt)
      ensures State() == Step(old(State()), Call(Accept(req, handlerAt, checkedAt, storedAt), []))
    {
      v := db.AcceptOrder(req, handlerAt, checkedAt, storedAt);
      if v != Accepted {
        return;
      }
      var order := NewOrder(req, handlerAt);
      orders := orders[order.id := order];
      history := history + {order.id};
      var active := Index(CacheState(), order.recipient) + {order.id};
      UpdateUserActiveOrders(order.recipient, active);
    }

    method ReturnOrder(id: OrderId, now: Time) returns (v: ReturnVerdict)
      modifies this, db
      ensures v == JudgeReturn(old(db.State()), id, now)
      ensures State() == Step(old(State()), Call(Return(id, now), []))
    {
      if id !in db.rows {
        return NotFound;
      }
      var order := db.rows[id].order;
      v := db.ReturnOrder(id, now);
      if v != Returned {
        return;
      }
      orders := orders - {id};
      var active := Members(Index(CacheState(), order.recipient));
      var kept: set<OrderId> := {};
      for i := 0 to |active|
        invariant kept == (set x | x in active[..i]) - {id}
      {
        if active[i] != id {
          kept := kept + {active[i]};
        }
        assert active[..i + 1] == active[..i] + [active[i]];
      }
      assert active[..|active|] == active;
      assert kept == Index(CacheState(), order.recipient) - {id};
      UpdateUserActiveOrders(order.recipient, kept);
    }

    method IssueOrders(user: UserId, ids: seq<OrderId>, now: Time, ticks: seq<Time>) returns (outcome: BatchOutcome)
      requires |ids| <= |ticks|
      modifies this, db
      ensures outcome == JudgeBatch(Issue, old(db.rows), user, ids, now)
      ensures State() == Step(old(State()), Call(Batch(Issue, user, ids, now), ticks))
    {
      outcome := db.ProcessBatch(Issue, user, ids, now);
      if outcome.Aborted? {
        return;
      }
      var processed := outcome.processed;
      for i := 0 to |processed|
        invariant db.State() == Apply(old(db.State()), Batch(Issue, user, ids, now))
        invariant userIndex == old(userIndex) && allActive == old(allActive) && history == old(history)
        invariant RefreshIssued(orders, processed[i..], ticks[i..]) == RefreshIssued(old(orders), processed, ticks)
      {
        if processed[i] in orders {
          var order := orders[processed[i]];
          order := order.(issued := Some(ticks[i]));
          orders := orders[order.id := order];
        }
      }
    }

    method RefundOrders(user: UserId, ids: seq<OrderId>, now: Time, ghost ticks: seq<Time>)
      returns (outcome: BatchOutcome)
      requires |ids| <= |ticks|
      modifies this, db
      ensures outcome == JudgeBatch(Refund, old(db.rows), user, ids, now)
      ensures State() == Step(old(State()), Call(Batch(Refund, user, ids, now), ticks))
    {
      outcome := db.ProcessBatch(Refund, user, ids, now);
      if outcome.Aborted? {
        return;
      }
      ForgetOrders(outcome.processed);
    }

    /** The loop of RefundOrders over the processed ids. */
    method ForgetOrders(processed: seq<OrderId>)
      modifies this`orders, this`history
      ensures CacheState() == AfterRefund(old(CacheState()), processed)
    {
      for i := 0 to |processed|
        invariant CacheState() == AfterRefund(old(CacheState()), processed[..i])
      {
        orders := orders - {processed[i]};
        history := history - {processed[i]};
        ElementsSnoc(processed, i);
      }
      assert processed[..|processed|] == processed;
    }

    /** The loop shared by the two active-order reads. */
    method Collect(list: seq<OrderId>, ghost ids: set<OrderId>) returns (found: seq<Order>)
      requires Enumerates(list, ids)
      requires KeyedById(db.rows)
      modifies this`orders
      ensures orders == Fill(old(orders), db.rows, ids)
      ensures found == Collected(old(orders), db.rows, list)
    {
      found := [];
      for i := 0 to |list|
        invariant orders == Fill(old(orders), db.rows, Elements(list[..i]))
        invariant found == Collected(old(orders), db.rows, list[..i])
      {
        CollectNext(old(orders), db.rows, list, i);
        var id := list[i];
        if id in orders {
          found := found + [orders[id]];
        } else if id in db.rows {
          var order := db.rows[id].order;
          orders := orders[order.id := order];
          found := found + [order];
        }
      }
      assert list[..|list|] == list;
      assert Elements(list) == ids;
    }

    method GetUserActiveOrders(user: UserId, now: Time) returns (found: seq<Order>)
      requires KeyedById(db.rows)
      modifies this
      ensures State() == Step(old(State()), ReadUser(user, now))
      ensures exists list :: Enumerates(list, UserReadIds(old(State()), user, now))
                && found == Collected(old(orders), db.rows, list)
    {
      var ids := Index(CacheState(), user);
      if ids == {} {
        ids := set id | id in db.rows && db.rows[id].order.recipient == user && Active(db.rows[id].order, now);
        UpdateUserActiveOrders(user, ids);
      }
      var list := Members(ids);
      found := Collect(list, ids);
    }

    method GetAllActiveOrders(now: Time) returns (found: seq<Order>)
      requires KeyedById(db.rows)
      modifies this
      ensures State() == Step(old(State()), ReadAll(now))
      ensures exists list :: Enumerates(list, AllReadIds(old(State()), now))
                && found == Collected(old(orders), db.rows, list)
    {
      if allActive == {} {
        allActive := set id | id in db.rows && Active(db.rows[id].order, now);
      }
      var list := Members(allActive);
      found := Collect(list, allActive);
    }

    /** FindOrdersByIDs and one SetOrder per row found. */
    method CacheRows(ids: set<OrderId>)
      requires KeyedById(db.rows)
      modifies this`orders
      ensures orders == old(orders) + RowOrders(db.rows, ids)
    {
      var list := Members(ids);
      for i := 0 to |list|
        invariant orders == old(orders) + RowOrders(db.rows, Elements(list[..i]))
      {
        ElementsSnoc(list, i);
        RowOrdersOneMore(old(orders), db.rows, Elements(list[..i]), list[i]);
        if list[i] in db.rows {
          var order := db.rows[list[i]].order;
          orders := orders[order.id := order];
        }
      }
      assert list[..|list|] == list && Elements(list) == ids;
    }

    method InitCache(now: Time)
      requires KeyedById(db.rows)
      modifies this
      ensures State() == Step(old(State()), Init(now))
    {
      var active := set id | id in db.rows && Active(db.rows[id].order, now);
      allActive := active;
      if active != {} {
        CacheRows(active);
      }
      history := db.rows.Keys;
      if history != {} {
        CacheRows(db.rows.Keys);
      }
      RowOrdersTwice(old(orders), db.rows, active);
    }
  }

  // ---- what a read answers in a coherent state ----

  /** Every answer is a live order of the user in its current stage, and every listed id gets one. */
  ghost predicate SoundAnswer(w: World, clock: Time, user: UserId, list: seq<OrderId>, found: seq<Order>) {
    |found| == |list| && forall i :: 0 <= i < |list| ==> SoundFor(w, clock, user, list[i], found[i])
  }

  /** The answer for one live id of the user. */
  ghost predicate SoundFor(w: World, clock: Time, user: UserId, id: OrderId, o: Order) {
    && o.id == id && id in w.db.rows
    && w.db.rows[id].order.recipient == o.recipient == user
    && Mirrors(o, w.db.rows[id].order, clock)
    && StageOf(o) == StageOf(w.db.rows[id].order)
  }

  lemma AnswerSound(w: World, clock: Time, user: UserId, id: OrderId)
    requires Coherent(w, clock) && id in w.db.rows && w.db.rows[id].order.recipient == user
    ensures SoundFor(w, clock, user, id, if id in w.cache.orders then w.cache.orders[id] else w.db.rows[id].order)
  {
  }

  lemma {:induction false} CollectedSound(w: World, clock: Time, user: UserId, list: seq<OrderId>)
    requires Coherent(w, clock)
    requires forall id :: id in list ==> id in w.db.rows && w.db.rows[id].order.recipient == user
    ensures SoundAnswer(w, clock, user, list, Collected(w.cache.orders, w.db.rows, list))
  {
    if list != [] {
      AnswerSound(w, clock, user, list[0]);
      CollectedSound(w, clock, user, list[1..]);
    }
  }

  /**
   After every serial run, GetUserActiveOrders returns only live orders of that user in their
   current stage, one for each id it works through.
   */
  lemma UserReadIsSound(es: seq<Event>, user: UserId, now: Time, list: seq<OrderId>)
    requires SerialEvents(ZERO_TIME, es)
    requires Enumerates(list, UserReadIds(Run(World(EMPTY_DB, EMPTY_CACHE), ZERO_TIME, es), user, now))
    ensures var w := Run(World(EMPTY_DB, EMPTY_CACHE), ZERO_TIME, es);
      SoundAnswer(w, RunEnd(ZERO_TIME, es), user, list, Collected(w.cache.orders, w.db.rows, list))
  {
    RunCoherent(World(EMPTY_DB, EMPTY_CACHE), ZERO_TIME, es);
    CollectedSound(Run(World(EMPTY_DB, EMPTY_CACHE), ZERO_TIME, es), RunEnd(ZERO_TIME, es), user, list);
  }

  /** The live order of the answer's id, in its current stage. */
  ghost predicate IsLive(w: World, clock: Time, o: Order) {
    o.id in w.db.rows && SoundFor(w, clock, w.db.rows[o.id].order.recipient, o.id, o)
  }

  predicate Answers(found: seq<Order>, id: OrderId) {
    exists i :: 0 <= i < |found| && found[i].id == id
  }

  /** One answer for each listed id that is live, and no other. */
  ghost predicate OneEach(list: seq<OrderId>, live: set<OrderId>, found: seq<Order>) {
    && (forall id :: Answers(found, id) <==> id in list && id in live)
    && (forall i, j :: 0 <= i < j < |found| ==> found[i].id != found[j].id)
  }

  lemma NoAnswerFirst(list: seq<OrderId>, live: set<OrderId>, rest: seq<Order>)
    requires list != [] && list[0] !in live && OneEach(list[1..], live, rest)
    ensures OneEach(list, live, rest)
  {
    assert forall id :: id in list <==> id == list[0] || id in list[1..];
  }

  lemma AnswerFirst(list: seq<OrderId>, live: set<OrderId>, o: Order, rest: seq<Order>)
    requires Distinct(list) && list != [] && o.id == list[0] && o.id in live && OneEach(list[1..], live, rest)
    ensures OneEach(list, live, [o] + rest)
  {
    var found := [o] + rest;
    forall id ensures Answers(found, id) <==> id == o.id || Answers(rest, id) {
      if i :| 0 <= i < |rest| && rest[i].id == id {
        assert found[i + 1].id == id;
      }
      assert found[0].id == o.id;
    }
    assert list[0] !in list[1..];
    assert !Answers(rest, o.id);
    assert forall id :: id in list <==> id == list[0] || id in list[1..];
  }

  /**
   Answers for a list that may hold ids without a row: each listed id that is live has one, which
   is its order in the current stage, and nothing else is answered.
   */
  ghost predicate SoundLiveAnswers(w: World, clock: Time, list: seq<OrderId>, found: seq<Order>) {
    && OneEach(list, w.db.rows.Keys, found)
    && forall o :: o in found ==> IsLive(w, clock, o)
  }

  lemma {:induction false} LiveAnswersSound(w: World, clock: Time, list: seq<OrderId>)
    requires Coherent(w, clock) && Distinct(list)
    ensures SoundLiveAnswers(w, clock, list, Collected(w.cache.orders, w.db.rows, list))
  {
    if list != [] {
      var id, rest := list[0], Collected(w.cache.orders, w.db.rows, list[1..]);
      LiveAnswersSound(w, clock, list[1..]);
      if id in w.db.rows {
        AnswerSound(w, clock, w.db.rows[id].order.recipient, id);
        var o := if id in w.cache.orders then w.cache.orders[id] else w.db.rows[id].order;
        AnswerFirst(list, w.db.rows.Keys, o, rest);
      } else {
        NoAnswerFirst(list, w.db.rows.Keys, rest);
        assert [] + rest == rest;
      }
    }
  }

  /**
   After every serial run, GetAllActiveOrders answers exactly the live ones among the ids of the
   global set - which keeps ids of returned orders - once each and in their current stage.
   */
  lemma AllReadIsSound(es: seq<Event>, now: Time, list: seq<OrderId>)
    requires SerialEvents(ZERO_TIME, es)
    requires Enumerates(list, AllReadIds(Run(World(EMPTY_DB, EMPTY_CACHE), ZERO_TIME, es), now))
    ensures var w := Run(World(EMPTY_DB, EMPTY_CACHE), ZERO_TIME, es);
      SoundLiveAnswers(w, RunEnd(ZERO_TIME, es), list, Collected(w.cache.orders, w.db.rows, list))
  {
    RunCoherent(World(EMPTY_DB, EMPTY_CACHE), ZERO_TIME, es);
    LiveAnswersSound(Run(World(EMPTY_DB, EMPTY_CACHE), ZERO_TIME, es), RunEnd(ZERO_TIME, es), list);
  }
}
