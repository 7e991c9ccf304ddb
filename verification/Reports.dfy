/** The three cursor reports over the order table (internal/storage/postgres/reportorderstorage/storage.go). */
module Reports {
  import opened Wrappers
  import opened Orders
  import opened OrderDb
  import opened Lifecycle
  import opened Keyset

  /** GetOrderHistory, GetUserOrders with its status filter, and GetRefundedOrders. */
  datatype Report = History | OfUser(user: UserId, status: string) | Refunds

  /** The history cursor of a request without a cursor: Go's zero time and id 0. */
  const FIRST_PAGE := Key(ZERO_TIME, 0)

  /** The empty filter passes all orders of the user, "stored" those in storage, any other none. */
  predicate FilterMatches(o: Order, status: string) {
    status == "" || (status == "stored" && o.stored.Some? && o.issued.None? && o.refunded.None?)
  }

  /** The WHERE clause, the cursor left aside. */
  predicate Listed(report: Report, o: Order) {
    match report
    case History => true
    case OfUser(user, status) => o.recipient == user && FilterMatches(o, status)
    case Refunds => o.refunded.Some?
  }

  /** The history is sorted by (last updated, id), the other reports by id alone. */
  function SortTime(report: Report, o: Order): Time {
    if report.History? then HistoryTime(o) else ZERO_TIME
  }

  function ItemOf(report: Report, r: Row): Item { Item(Key(SortTime(report, r.order), r.serial), r.order) }

  function Items(db: Db, report: Report): set<Item> {
    set id | id in db.rows && Listed(report, db.rows[id].order) :: ItemOf(report, db.rows[id])
  }

  /** On rows with their stamps in order the SQL filters on stamps are filters on the derived status. */
  lemma FiltersAreStages(db: Db, clock: Time, id: OrderId)
    requires DbOk(db, clock) && id in db.rows
    ensures var o := db.rows[id].order;
      && (Listed(OfUser(o.recipient, "stored"), o) <==> StageOf(o) == Stored)
      && (Listed(Refunds, o) <==> StageOf(o) == Refunded)
  {
    assert RowOk(db, id, clock);
  }

  /** The first-page test of the history query. */
  function DecodeCursor(cursor: Key): Option<Key> {
    if cursor == FIRST_PAGE then None else Some(cursor)
  }

  lemma ReportKeysUnique(db: Db, report: Report)
    requires TableOk(db)
    ensures UniqueKeys(Items(db, report))
  {
  }

  /**
   The cursor written after a history page - LastUpdated of the last order and its id - is that
   row's sort key and is never taken for a request of the first page.
   */
  lemma HistoryCursorIsKey(db: Db, x: Item, lastUpdated: Time)
    requires TableOk(db) && x in Items(db, History)
    requires IsLastUpdated(x.order, lastUpdated)
    ensures Key(lastUpdated, x.key.serial) == x.key
    ensures DecodeCursor(x.key) == Some(x.key)
  {
    var id :| id in db.rows && ItemOf(History, db.rows[id]) == x;
    assert RowSound(db, id);
    assert x.order.stored.value in Stamps(x.order);
    KeyAgreement(x.order, lastUpdated);
  }

  /** From the first page on, the cursor walk returns every row of s once, in descending key order. */
  ghost predicate CompleteWalk(s: set<Item>, limit: nat)
    requires UniqueKeys(s) && limit >= 1
  {
    && Lists(SortDescending(s), s)
    && Complete(Follow(s, None, limit), SortDescending(s), limit)
  }

  /** On a fixed table every report, followed by cursor, lists its rows once and in order. */
  lemma ReportsComplete(db: Db, report: Report, limit: nat)
    requires TableOk(db) && limit >= 1
    ensures UniqueKeys(Items(db, report)) && CompleteWalk(Items(db, report), limit)
  {
    ReportKeysUnique(db, report);
    SortLists(Items(db, report));
    FollowCompletes(Items(db, report), None, limit);
    assert Below(Items(db, report), None) == Items(db, report);
  }
}
