/**
 The Redis cache beside the order table, with every service call run to completion before the
 next one (internal/service/storage_service.go, internal/cache/cache.go).
 */
module CachedOrders {
  import opened Wrappers
  import opened Orders
  import opened OrderDb
  import opened Windows

  /** The order keys, the per-user index sets, and the two global index sets. An absent set is empty. */
  datatype Cache = Cache(
    orders: map<OrderId, Order>, userIndex: map<UserId, set<OrderId>>,
    allActive: set<OrderId>, history: set<OrderId>)

  const EMPTY_CACHE := Cache(map[], map[], {}, {})

  datatype World = World(db: Db, cache: Cache)

  function Index(c: Cache, user: UserId): set<OrderId> {
    if user in c.userIndex then c.userIndex[user] else {}
  }

  /** UpdateUserActiveOrders and DeleteUserIndex: delete the key, then add the ids if there are any. */
  function SetIndex(c: Cache, user: UserId, ids: set<OrderId>): Cache {
    c.(userIndex := if ids == {} then c.userIndex - {user} else c.userIndex[user := ids])
  }

  // ---- cache updates after a write ----

  function AfterAccept(c: Cache, o: Order): Cache {
    SetIndex(c.(orders := c.orders[o.id := o], history := c.history + {o.id}),
             o.recipient, Index(c, o.recipient) + {o.id})
  }

  function AfterReturn(c: Cache, id: OrderId, recipient: UserId): Cache {
    SetIndex(c.(orders := c.orders - {id}), recipient, Index(c, recipient) - {id})
  }

  /** IssueOrders re-reads each processed order from the cache and stamps it with its own clock reading. */
  function RefreshIssued(orders: map<OrderId, Order>, ids: seq<OrderId>, ticks: seq<Time>): map<OrderId, Order>
    requires |ids| <= |ticks|
    decreases ids
  {
    if ids == [] then orders
    else
      RefreshIssued(if ids[0] in orders
                    then var o := orders[ids[0]]; orders[o.id := o.(issued := Some(ticks[0]))]
                    else orders, ids[1..], ticks[1..])
  }

  function Elements(ids: seq<OrderId>): set<OrderId> { set id | id in ids }

  function AfterRefund(c: Cache, ids: seq<OrderId>): Cache {
    c.(orders := c.orders - Elements(ids), history := c.history - Elements(ids))
  }

  function AfterWrite(w: World, write: Write, ticks: seq<Time>): Cache
    requires write.Batch? ==> |write.ids| <= |ticks|
  {
    match write
    case Accept(req, handlerAt, checkedAt, _) =>
      if JudgeAccept(w.db, req, checkedAt).Accepted? then AfterAccept(w.cache, NewOrder(req, handlerAt)) else w.cache
    case Return(id, at) =>
      if JudgeReturn(w.db, id, at).Returned?
      then AfterReturn(w.cache, id, w.db.rows[id].order.recipient)
      else w.cache
    case Batch(kind, user, ids, at) =>
      match JudgeBatch(kind, w.db.rows, user, ids, at)
      case Aborted => w.cache
      case Committed(processed, _, _) =>
        if kind == Issue then w.cache.(orders := RefreshIssued(w.cache.orders, processed, ticks))
        else AfterRefund(w.cache, processed)
  }

  // ---- reads that fill the cache ----

  function ActiveIds(db: Db, now: Time): set<OrderId> {
    set id | id in db.rows && Active(db.rows[id].order, now)
  }

  function UserActiveIds(db: Db, user: UserId, now: Time): set<OrderId> {
    set id | id in db.rows && db.rows[id].order.recipient == user && Active(db.rows[id].order, now)
  }

  /** Every listed id missing from the cache is looked up in the table and cached if it is there. */
  function Fill(orders: map<OrderId, Order>, rows: map<OrderId, Row>, ids: set<OrderId>): map<OrderId, Order> {
    orders + map id | id in ids && id !in orders && id in rows :: rows[id].order
  }

  /** The ids GetUserActiveOrders works through: the index, or the table when the index is empty. */
  function UserReadIds(w: World, user: UserId, now: Time): set<OrderId> {
    if Index(w.cache, user) != {} then Index(w.cache, user) else UserActiveIds(w.db, user, now)
  }

  function AfterUserRead(w: World, user: UserId, now: Time): World {
    var ids := UserReadIds(w, user, now);
    var c := if Index(w.cache, user) != {} then w.cache else SetIndex(w.cache, user, ids);
    w.(cache := c.(orders := Fill(c.orders, w.db.rows, ids)))
  }

  function AllReadIds(w: World, now: Time): set<OrderId> {
    if w.cache.allActive != {} then w.cache.allActive else ActiveIds(w.db, now)
  }

  function AfterAllRead(w: World, now: Time): World {
    var ids := AllReadIds(w, now);
    w.(cache := w.cache.(allActive := ids, orders := Fill(w.cache.orders, w.db.rows, ids)))
  }

  /** FindOrdersByIDs. */
  function RowOrders(rows: map<OrderId, Row>, ids: set<OrderId>): map<OrderId, Order> {
    map id | id in ids && id in rows :: rows[id].order
  }

  /** InitCache: the active set, the history set, and every row under its order key. */
  function AfterInit(w: World, now: Time): World {
    w.(cache := w.cache.(
      allActive := ActiveIds(w.db, now),
      history := w.db.rows.Keys,
      orders := w.cache.orders + RowOrders(w.db.rows, w.db.rows.Keys)))
  }

  // ---- serial runs ----

  /** Service calls, the refresh ticks, and the loss of a key, by its deadline or otherwise. */
  datatype Event =
    | Call(write: Write, ticks: seq<Time>)
    | ReadUser(user: UserId, now: Time)
    | ReadAll(now: Time)
    | Init(now: Time)
    | RefreshActive(now: Time)
    | RefreshHistory
    | DropOrder(id: OrderId)
    | DropIndex(user: UserId)
    | DropAllActive

  function Step(w: World, e: Event): World
    requires e.Call? && e.write.Batch? ==> |e.write.ids| <= |e.ticks|
  {
    match e
    case Call(write, ticks) => World(Apply(w.db, write), AfterWrite(w, write, ticks))
    case ReadUser(user, now) => AfterUserRead(w, user, now)
    case ReadAll(now) => AfterAllRead(w, now)
    case Init(now) => AfterInit(w, now)
    case RefreshActive(now) => w.(cache := w.cache.(allActive := ActiveIds(w.db, now)))
    case RefreshHistory => w.(cache := w.cache.(history := w.db.rows.Keys))
    case DropOrder(id) => w.(cache := w.cache.(orders := w.cache.orders - {id}))
    case DropIndex(user) => w.(cache := SetIndex(w.cache, user, {}))
    case DropAllActive => w.(cache := w.cache.(allActive := {}))
  }

  /** The clock after an event: the last reading it made. */
  function EventEnd(clock: Time, e: Event): Time {
    match e
    case Call(write, ticks) => if ticks == [] then EndOf(write) else ticks[|ticks| - 1]
    case ReadUser(_, now) => now
    case ReadAll(now) => now
    case Init(now) => now
    case RefreshActive(now) => now
    case _ => clock
  }

  /** A batch has one later reading for each order it may refresh in the cache. */
  predicate EventTimely(clock: Time, e: Event) {
    match e
    case Call(write, ticks) =>
      && Timely(clock, write)
      && (write.Batch? ==> |ticks| == |write.ids|)
      && (forall i :: 0 <= i < |ticks| ==> EndOf(write) <= ticks[i] <= ticks[|ticks| - 1])
    case ReadUser(_, now) => clock <= now
    case ReadAll(now) => clock <= now
    case Init(now) => clock <= now
    case RefreshActive(now) => clock <= now
    case _ => true
  }

  predicate SerialEvents(clock: Time, es: seq<Event>)
    decreases es
  {
    es == [] || (EventTimely(clock, es[0]) && SerialEvents(EventEnd(clock, es[0]), es[1..]))
  }

  function Run(w: World, clock: Time, es: seq<Event>): World
    requires SerialEvents(clock, es)
    decreases es
  {
    if es == [] then w else Run(Step(w, es[0]), EventEnd(clock, es[0]), es[1..])
  }

  function RunEnd(clock: Time, es: seq<Event>): Time
    decreases es
  {
    if es == [] then clock else RunEnd(EventEnd(clock, es[0]), es[1..])
  }
}
