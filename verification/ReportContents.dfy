/**
 Which orders the three reports return, told by the rows alone
 (internal/storage/postgres/reportorderstorage/storage.go).
 */
module ReportContents {
  import opened Wrappers
  import opened Orders
  import opened OrderDb
  import opened Lifecycle
  import opened Keyset
  import opened Reports
  import opened ReportWalk

  /** The item shows the row of its order, under the serial of the row. */
  predicate Shows(db: Db, x: Item) {
    x.order.id in db.rows && db.rows[x.order.id] == Row(x.key.serial, x.order)
  }

  /** Most recently updated first and on ties by descending serial; or by descending serial alone. */
  predicate Before(byTime: bool, x: Item, y: Item) {
    if byTime && HistoryTime(x.order) != HistoryTime(y.order) then HistoryTime(x.order) > HistoryTime(y.order)
    else x.key.serial > y.key.serial
  }

  /**
   Followed by cursor from the first page, the report returns the rows of exactly these ids, once
   each: the history by time of last update, the others by serial.
   */
  ghost predicate Returns(db: Db, report: Report, limit: nat, ids: set<OrderId>)
    requires UniqueKeys(Items(db, report)) && limit >= 1
  {
    var all := Flatten(Follow(Items(db, report), None, limit));
    && (forall i :: 0 <= i < |all| ==> Shows(db, all[i]) && all[i].order.id in ids)
    && (forall id :: id in ids ==> exists i :: 0 <= i < |all| && all[i].order.id == id)
    && (forall i, j :: 0 <= i < j < |all| ==>
          all[i].order.id != all[j].order.id && Before(report == History, all[i], all[j]))
  }

  /** A report returns the rows its filter lets through. */
  lemma ReturnsListed(db: Db, report: Report, limit: nat, ids: set<OrderId>)
    requires TableOk(db) && limit >= 1
    requires forall id :: id in ids <==> id in db.rows && Listed(report, db.rows[id].order)
    ensures UniqueKeys(Items(db, report)) && Returns(db, report, limit, ids)
  {
    ReportsComplete(db, report, limit);
    var all := Flatten(Follow(Items(db, report), None, limit));
    assert Lists(all, Items(db, report));
    forall i | 0 <= i < |all| ensures Shows(db, all[i]) && all[i].order.id in ids {
      ItemShows(db, report, all[i]);
    }
    forall id | id in ids ensures exists i :: 0 <= i < |all| && all[i].order.id == id {
      assert RowSound(db, id);
      assert ItemOf(report, db.rows[id]) in all;
    }
    forall i, j | 0 <= i < j < |all|
      ensures all[i].order.id != all[j].order.id && Before(report == History, all[i], all[j])
    {
      ItemShows(db, report, all[i]);
      ItemShows(db, report, all[j]);
      assert Less(all[j].key, all[i].key);
    }
  }

  lemma ItemShows(db: Db, report: Report, x: Item)
    requires TableOk(db) && x in Items(db, report)
    ensures Shows(db, x) && Listed(report, x.order) && x == ItemOf(report, db.rows[x.order.id])
  {
    var id :| id in db.rows && Listed(report, db.rows[id].order) && ItemOf(report, db.rows[id]) == x;
    assert RowSound(db, id);
  }

  /** The history returns every row. */
  lemma HistoryReturnsAll(db: Db, limit: nat)
    requires TableOk(db) && limit >= 1
    ensures UniqueKeys(Items(db, History)) && Returns(db, History, limit, db.rows.Keys)
  {
    ReturnsListed(db, History, limit, db.rows.Keys);
  }

  /** The orders of a user without a filter are exactly the rows with that recipient. */
  lemma UserOrdersAreOwn(db: Db, user: UserId, limit: nat)
    requires TableOk(db) && limit >= 1
    ensures UniqueKeys(Items(db, OfUser(user, "")))
    ensures Returns(db, OfUser(user, ""), limit, set id | id in db.rows && db.rows[id].order.recipient == user)
  {
    ReturnsListed(db, OfUser(user, ""), limit, set id | id in db.rows && db.rows[id].order.recipient == user);
  }

  /** With the filter "stored" they are those of them in storage. */
  lemma StoredUserOrders(db: Db, clock: Time, user: UserId, limit: nat)
    requires DbOk(db, clock) && limit >= 1
    ensures UniqueKeys(Items(db, OfUser(user, "stored")))
    ensures Returns(db, OfUser(user, "stored"), limit,
      set id | id in db.rows && db.rows[id].order.recipient == user && StageOf(db.rows[id].order) == Stored)
  {
    forall id | id in db.rows
      ensures Listed(OfUser(user, "stored"), db.rows[id].order) <==>
              db.rows[id].order.recipient == user && StageOf(db.rows[id].order) == Stored
    {
      FiltersAreStages(db, clock, id);
    }
    ReturnsListed(db, OfUser(user, "stored"), limit,
      set id | id in db.rows && db.rows[id].order.recipient == user && StageOf(db.rows[id].order) == Stored);
  }

  /** Any other filter gives nothing. */
  lemma OtherFilterIsEmpty(db: Db, user: UserId, status: string, cursor: Option<Key>, limit: nat)
    requires TableOk(db) && limit >= 1 && status != "" && status != "stored"
    ensures ReportPage(db, OfUser(user, status), cursor, limit) == []
  {
    if ReportPage(db, OfUser(user, status), cursor, limit) != [] {
      PageItem(db, OfUser(user, status), cursor, limit, ReportPage(db, OfUser(user, status), cursor, limit)[0]);
    }
  }

  /** The refund report returns exactly the rows with a refund stamp. */
  lemma RefundsAreRefunded(db: Db, limit: nat)
    requires TableOk(db) && limit >= 1
    ensures UniqueKeys(Items(db, Refunds))
    ensures Returns(db, Refunds, limit, set id | id in db.rows && db.rows[id].order.refunded.Some?)
  {
    ReturnsListed(db, Refunds, limit, set id | id in db.rows && db.rows[id].order.refunded.Some?);
  }

  /** No page of a user's orders, from whatever cursor, shows an order of another user. */
  lemma UserPageIsOwn(db: Db, user: UserId, status: string, cursor: Option<Key>, limit: nat, x: Item)
    requires TableOk(db) && limit >= 1 && x in ReportPage(db, OfUser(user, status), cursor, limit)
    ensures x.order.recipient == user && Shows(db, x)
  {
    PageItem(db, OfUser(user, status), cursor, limit, x);
  }

  /** Nor does a whole walk, whatever is written between its pages. */
  lemma {:induction false} UserWalkIsOwn(
    db: Db, user: UserId, status: string, cursor: Option<Key>, visits: seq<Visit>, x: Item)
    requires TableOk(db) && ValidVisits(visits)
    requires x in Flatten(Walk(db, OfUser(user, status), cursor, visits))
    ensures x.order.recipient == user
    decreases visits
  {
    if visits != [] {
      var page := ReportPage(db, OfUser(user, status), cursor, visits[0].limit);
      var db' := ApplyAll(db, visits[0].writes);
      WalkNext(db, OfUser(user, status), cursor, visits, page, db');
      if x in page {
        UserPageIsOwn(db, user, status, cursor, visits[0].limit, x);
      } else {
        UserWalkIsOwn(db', user, status, Some(page[|page| - 1].key), visits[1..], x);
      }
    }
  }
}
