/**
 Following a report by cursor while orders are accepted, issued, refunded and deleted between the
 pages, in any commit order. The sort key of a row may move, but only upwards.
 */
module ReportWalk {
  import opened Wrappers
  import opened Orders
  import opened OrderDb
  import opened Lifecycle
  import opened CommitOrder
  import opened Keyset
  import opened Reports

  /** One page request and the writes that happen before the next request. */
  datatype Visit = Visit(limit: nat, writes: seq<Write>)

  predicate ValidVisits(visits: seq<Visit>) {
    forall i :: 0 <= i < |visits| ==> visits[i].limit >= 1 && Positive(visits[i].writes)
  }

  ghost function ReportPage(db: Db, report: Report, cursor: Option<Key>, limit: nat): seq<Item>
    requires TableOk(db)
  {
    ReportKeysUnique(db, report);
    Page(Items(db, report), cursor, limit)
  }

  /** The pages a client receives; it stops at the first empty page, which has no next cursor. */
  ghost function Walk(db: Db, report: Report, cursor: Option<Key>, visits: seq<Visit>): seq<seq<Item>>
    requires TableOk(db) && ValidVisits(visits)
    decreases visits
  {
    if visits == [] then []
    else
      RunKeepsTable(db, visits[0].writes);
      var page := ReportPage(db, report, cursor, visits[0].limit);
      if page == [] then [page]
      else [page] + Walk(ApplyAll(db, visits[0].writes), report, Some(page[|page| - 1].key), visits[1..])
  }

  /** What a page holds, with the row behind each item. */
  lemma PageItem(db: Db, report: Report, cursor: Option<Key>, limit: nat, x: Item)
    requires TableOk(db) && limit >= 1 && x in ReportPage(db, report, cursor, limit)
    ensures x.order.id in db.rows && Listed(report, x.order) && x == ItemOf(report, db.rows[x.order.id])
    ensures db.rows[x.order.id].order == x.order && 1 <= x.key.serial < db.nextSerial
    ensures cursor.Some? ==> Less(x.key, cursor.value)
    ensures var page := ReportPage(db, report, cursor, limit); !Less(x.key, page[|page| - 1].key)
  {
    ReportKeysUnique(db, report);
    PageContents(Items(db, report), cursor, limit, x);
    var id :| id in db.rows && ItemOf(report, db.rows[id]) == x;
    assert RowSound(db, id);
  }

  /** No row with this serial can appear below the cursor any more. */
  ghost predicate Passed(db: Db, report: Report, cursor: Key, serial: int) {
    && serial < db.nextSerial
    && forall id :: id in db.rows && db.rows[id].serial == serial ==> !Less(ItemOf(report, db.rows[id]).key, cursor)
  }

  lemma PassedStays(db: Db, db': Db, report: Report, cursor: Key, next: Key, serial: int)
    requires TimesGrow(db, db') && Passed(db, report, cursor, serial) && (next == cursor || Less(next, cursor))
    ensures Passed(db', report, next, serial)
  {
  }

  /** A row on the page is passed once the page's last key is the cursor. */
  lemma PageRowPassed(db: Db, report: Report, cursor: Option<Key>, limit: nat, x: Item)
    requires TableOk(db) && limit >= 1 && x in ReportPage(db, report, cursor, limit)
    ensures var page := ReportPage(db, report, cursor, limit);
      Passed(db, report, page[|page| - 1].key, x.key.serial)
  {
    PageItem(db, report, cursor, limit, x);
  }

  /** One page of the walk, and then the walk from its last key on. */
  lemma WalkNext(db: Db, report: Report, cursor: Option<Key>, visits: seq<Visit>, page: seq<Item>, db': Db)
    requires TableOk(db) && ValidVisits(visits) && visits != []
    requires page == ReportPage(db, report, cursor, visits[0].limit) && db' == ApplyAll(db, visits[0].writes)
    ensures TableOk(db')
    ensures page == [] ==> Flatten(Walk(db, report, cursor, visits)) == []
    ensures page != [] ==>
      && Walk(db, report, cursor, visits) == [page] + Walk(db', report, Some(page[|page| - 1].key), visits[1..])
      && Flatten(Walk(db, report, cursor, visits)) ==
           page + Flatten(Walk(db', report, Some(page[|page| - 1].key), visits[1..]))
  {
    RunKeepsTable(db, visits[0].writes);
    var pages := Walk(db, report, cursor, visits);
    assert Flatten(pages) == page + Flatten(pages[1..]);
    if page != [] {
      assert pages[1..] == Walk(db', report, Some(page[|page| - 1].key), visits[1..]);
    }
  }

  /** A passed serial is on no later page. */
  lemma {:induction false} PassedNeverReturns(db: Db, report: Report, cursor: Key, visits: seq<Visit>, serial: int)
    requires TableOk(db) && ValidVisits(visits) && Passed(db, report, cursor, serial)
    ensures forall x :: x in Flatten(Walk(db, report, Some(cursor), visits)) ==> x.key.serial != serial
    decreases visits
  {
    if visits != [] {
      var page := ReportPage(db, report, Some(cursor), visits[0].limit);
      var db' := ApplyAll(db, visits[0].writes);
      WalkNext(db, report, Some(cursor), visits, page, db');
      forall x | x in page ensures x.key.serial != serial && Less(x.key, cursor) {
        PageItem(db, report, Some(cursor), visits[0].limit, x);
      }
      if page != [] {
        var next := page[|page| - 1].key;
        RunGrowsTimes(db, visits[0].writes);
        PassedStays(db, db', report, cursor, next, serial);
        PassedNeverReturns(db', report, next, visits[1..], serial);
      }
    }
  }

  predicate NoSerialTwice(q: seq<Item>) {
    forall i, j :: 0 <= i < j < |q| ==> q[i].key.serial != q[j].key.serial
  }

  lemma PageSerialsDistinct(db: Db, report: Report, cursor: Option<Key>, limit: nat)
    requires TableOk(db) && limit >= 1
    ensures NoSerialTwice(ReportPage(db, report, cursor, limit))
  {
    var page := ReportPage(db, report, cursor, limit);
    ReportKeysUnique(db, report);
    forall i, j | 0 <= i < j < |page| ensures page[i].key.serial != page[j].key.serial {
      PageContents(Items(db, report), cursor, limit, page[i]);
      PageItem(db, report, cursor, limit, page[i]);
      PageItem(db, report, cursor, limit, page[j]);
      assert Less(page[j].key, page[i].key);
    }
  }

  predicate Apart(a: seq<Item>, b: seq<Item>) {
    forall x, y :: x in a && y in b ==> x.key.serial != y.key.serial
  }

  lemma Joined(a: seq<Item>, b: seq<Item>)
    requires NoSerialTwice(a) && NoSerialTwice(b) && Apart(a, b)
    ensures NoSerialTwice(a + b)
  {
  }

  lemma PageRowStaysPassed(
    db: Db, report: Report, cursor: Option<Key>, limit: nat, writes: seq<Write>, page: seq<Item>, x: Item)
    requires TableOk(db) && limit >= 1 && page == ReportPage(db, report, cursor, limit) && x in page
    ensures Passed(ApplyAll(db, writes), report, page[|page| - 1].key, x.key.serial)
  {
    var last := page[|page| - 1].key;
    PageRowPassed(db, report, cursor, limit, x);
    RunGrowsTimes(db, writes);
    PassedStays(db, ApplyAll(db, writes), report, last, last, x.key.serial);
  }

  /** A row of the first page is on no later one. */
  lemma PageApart(db: Db, report: Report, cursor: Option<Key>, visits: seq<Visit>, page: seq<Item>, db': Db)
    requires TableOk(db) && ValidVisits(visits) && visits != [] && TableOk(db') && db' == ApplyAll(db, visits[0].writes)
    requires page == ReportPage(db, report, cursor, visits[0].limit) && page != []
    ensures Apart(page, Flatten(Walk(db', report, Some(page[|page| - 1].key), visits[1..])))
  {
    var last := page[|page| - 1].key;
    var later := Flatten(Walk(db', report, Some(last), visits[1..]));
    forall x, y | x in page && y in later ensures x.key.serial != y.key.serial {
      PageRowStaysPassed(db, report, cursor, visits[0].limit, visits[0].writes, page, x);
      PassedNeverReturns(db', report, last, visits[1..], x.key.serial);
    }
  }

  /** No walk returns a row twice, whatever is written between its pages and in whatever order it commits. */
  lemma {:induction false} WalkNeverRepeats(db: Db, report: Report, cursor: Option<Key>, visits: seq<Visit>)
    requires TableOk(db) && ValidVisits(visits)
    ensures NoSerialTwice(Flatten(Walk(db, report, cursor, visits)))
    decreases visits
  {
    if visits != [] {
      var page := ReportPage(db, report, cursor, visits[0].limit);
      var db' := ApplyAll(db, visits[0].writes);
      WalkNext(db, report, cursor, visits, page, db');
      if page != [] {
        var last := page[|page| - 1].key;
        PageSerialsDistinct(db, report, cursor, visits[0].limit);
        WalkNeverRepeats(db', report, Some(last), visits[1..]);
        PageApart(db, report, cursor, visits, page, db');
        Joined(page, Flatten(Walk(db', report, Some(last), visits[1..])));
      }
    }
  }

  /** At every page request of the walk the row is there and as it was. */
  ghost predicate Untouched(db: Db, visits: seq<Visit>, id: OrderId, row: Row)
    decreases visits
  {
    visits == [] ||
    (id in db.rows && db.rows[id] == row && Untouched(ApplyAll(db, visits[0].writes), visits[1..], id, row))
  }

  /** A finished walk has returned every listed row that stayed untouched and below its first cursor. */
  lemma {:induction false} WalkFindsUntouched(
    db: Db, report: Report, cursor: Option<Key>, visits: seq<Visit>, id: OrderId, row: Row)
    requires TableOk(db) && ValidVisits(visits)
    requires Untouched(db, visits, id, row) && Listed(report, row.order)
    requires cursor.None? || Less(ItemOf(report, row).key, cursor.value)
    requires var pages := Walk(db, report, cursor, visits); pages != [] && pages[|pages| - 1] == []
    ensures ItemOf(report, row) in Flatten(Walk(db, report, cursor, visits))
    decreases visits
  {
    var x := ItemOf(report, row);
    var page := ReportPage(db, report, cursor, visits[0].limit);
    var db' := ApplyAll(db, visits[0].writes);
    WalkNext(db, report, cursor, visits, page, db');
    ReportKeysUnique(db, report);
    assert x in Items(db, report);
    PageContents(Items(db, report), cursor, visits[0].limit, x);
    if x !in page {
      WalkFindsUntouched(db', report, Some(page[|page| - 1].key), visits[1..], id, row);
    }
  }

  /** The answer holds the row once. */
  ghost predicate ExactlyOnce(rows: seq<Item>, x: Item) {
    exists i :: 0 <= i < |rows| && rows[i] == x &&
      forall j :: 0 <= j < |rows| && j != i ==> rows[j].key.serial != x.key.serial
  }

  /**
   A walk under concurrent change: over every commit order of writes between its pages, a walk of
   any report from the first page to the empty page never returns a row twice, and returns exactly
   once each listed row that is present and unmodified throughout.
   */
  lemma WalkExactlyOnce(db: Db, report: Report, visits: seq<Visit>, id: OrderId, row: Row)
    requires TableOk(db) && ValidVisits(visits)
    requires Untouched(db, visits, id, row) && Listed(report, row.order)
    requires var pages := Walk(db, report, None, visits); pages != [] && pages[|pages| - 1] == []
    ensures var rows := Flatten(Walk(db, report, None, visits));
      NoSerialTwice(rows) && ExactlyOnce(rows, ItemOf(report, row))
  {
    WalkNeverRepeats(db, report, None, visits);
    WalkFindsUntouched(db, report, None, visits, id, row);
    var rows := Flatten(Walk(db, report, None, visits));
    var i :| 0 <= i < |rows| && rows[i] == ItemOf(report, row);
  }
}
