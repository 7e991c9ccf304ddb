/**
 A page of a report is two queries: the page, and then the serial id of the page's last order,
 looked up by order id (internal/storage/postgres/reportorderstorage/storage.go). Orders may be
 written between them.
 */
module ReportSplit {
  import opened Wrappers
  import opened Orders
  import opened OrderDb
  import opened Lifecycle
  import opened CommitOrder
  import opened Keyset
  import opened Reports
  import opened ReportWalk
  import Packaging

  /** One page request: the writes between its two queries, and those before the next request. */
  datatype Turn = Turn(limit: nat, between: seq<Write>, after: seq<Write>)

  function TableAfter(db: Db, turn: Turn): Db {
    ApplyAll(ApplyAll(db, turn.between), turn.after)
  }

  predicate ValidTurn(turn: Turn) {
    turn.limit >= 1 && Positive(turn.between) && Positive(turn.after)
  }

  predicate ValidTurns(turns: seq<Turn>) {
    forall i :: 0 <= i < |turns| ==> ValidTurn(turns[i])
  }

  lemma TurnOk(db: Db, turn: Turn)
    requires TableOk(db) && ValidTurn(turn)
    ensures TableOk(ApplyAll(db, turn.between)) && TableOk(TableAfter(db, turn))
  {
    RunKeepsTable(db, turn.between);
    RunKeepsTable(ApplyAll(db, turn.between), turn.after);
  }

  function Greatest(q: seq<Time>): (t: Time)
    requires q != []
    ensures t in q && forall s :: s in q ==> s <= t
  {
    if |q| == 1 then q[0]
    else
      assert q == [q[0]] + q[1..];
      Max(q[0], Greatest(q[1..]))
  }

  function LatestStamp(o: Order): (t: Time)
    ensures IsLastUpdated(o, t)
  {
    if Stamps(o) == [] then ZERO_TIME else Greatest(Stamps(o))
  }

  /**
   What the cursor is written from: the serial the last order's id has by now, and in the history
   the time the order was last updated.
   */
  function EmittedKey(report: Report, last: Item, now: Db): Key
    requires last.order.id in now.rows
  {
    Key(if report.History? then LatestStamp(last.order) else ZERO_TIME, now.rows[last.order.id].serial)
  }

  lemma EmittedTime(db: Db, report: Report, cursor: Option<Key>, limit: nat, last: Item, now: Db)
    requires TableOk(db) && limit >= 1 && last in ReportPage(db, report, cursor, limit) && last.order.id in now.rows
    ensures EmittedKey(report, last, now).time == last.key.time
  {
    PageItem(db, report, cursor, limit, last);
    if report.History? {
      assert last in Items(db, report);
      HistoryCursorIsKey(db, last, LatestStamp(last.order));
    }
  }

  /**
   The pages a client receives. It stops at the first empty page, and with an error when the last
   order is gone before its serial is read.
   */
  ghost function SplitWalk(db: Db, report: Report, cursor: Option<Key>, turns: seq<Turn>): seq<seq<Item>>
    requires TableOk(db) && ValidTurns(turns)
    decreases turns
  {
    if turns == [] then []
    else
      var page, now := ReportPage(db, report, cursor, turns[0].limit), ApplyAll(db, turns[0].between);
      if page == [] then [page]
      else if page[|page| - 1].order.id !in now.rows then []
      else
        TurnOk(db, turns[0]);
        [page] +
        SplitWalk(TableAfter(db, turns[0]), report, Some(EmittedKey(report, page[|page| - 1], now)), turns[1..])
  }

  /** One page of the walk, and then the walk from the emitted key on. */
  lemma SplitCons(
    db: Db, report: Report, cursor: Option<Key>, turns: seq<Turn>, page: seq<Item>, now: Db, db': Db)
    requires TableOk(db) && ValidTurns(turns) && turns != []
    requires now == ApplyAll(db, turns[0].between) && db' == TableAfter(db, turns[0]) && TableOk(db')
    requires page == ReportPage(db, report, cursor, turns[0].limit) && page != []
    requires page[|page| - 1].order.id in now.rows
    ensures SplitWalk(db, report, cursor, turns) ==
            [page] + SplitWalk(db', report, Some(EmittedKey(report, page[|page| - 1], now)), turns[1..])
  {
    var key := EmittedKey(report, page[|page| - 1], now);
    var rest := SplitWalk(db', report, Some(key), turns[1..]);
    assert SplitWalk(db, report, cursor, turns) == [page] + rest;
  }

  // ---- when it is the walk with one query for each page ----

  function Visits(turns: seq<Turn>): (visits: seq<Visit>)
    ensures ValidTurns(turns) ==> ValidVisits(visits)
  {
    seq(|turns|, i requires 0 <= i < |turns| => Visit(turns[i].limit, turns[i].between + turns[i].after))
  }

  lemma {:induction false} WritesAppend(db: Db, a: seq<Write>, b: seq<Write>)
    ensures ApplyAll(db, a + b) == ApplyAll(ApplyAll(db, a), b)
    decreases a
  {
    if a == [] {
      assert a + b == b;
    } else {
      assert (a + b)[1..] == a[1..] + b;
      WritesAppend(Apply(db, a[0]), a[1..], b);
    }
  }

  /** The row of the item is still in the table, its order perhaps stamped since. */
  predicate Survives(now: Db, x: Item) {
    x.order.id in now.rows && now.rows[x.order.id].serial == x.key.serial
  }

  /** Whenever the client gets a page, its last order keeps its row until the second query. */
  ghost predicate LastKept(db: Db, report: Report, cursor: Option<Key>, turns: seq<Turn>)
    requires TableOk(db) && ValidTurns(turns)
    decreases turns
  {
    turns == [] ||
    (TurnOk(db, turns[0]);
     var page := ReportPage(db, report, cursor, turns[0].limit);
     page != [] ==>
       && Survives(ApplyAll(db, turns[0].between), page[|page| - 1])
       && LastKept(TableAfter(db, turns[0]), report, Some(page[|page| - 1].key), turns[1..]))
  }

  lemma KeptKey(db: Db, report: Report, cursor: Option<Key>, limit: nat, now: Db, last: Item)
    requires TableOk(db) && limit >= 1 && last in ReportPage(db, report, cursor, limit) && Survives(now, last)
    ensures EmittedKey(report, last, now) == last.key
  {
    EmittedTime(db, report, cursor, limit, last, now);
  }

  lemma KeptNext(db: Db, report: Report, cursor: Option<Key>, turns: seq<Turn>, page: seq<Item>, db': Db)
    requires TableOk(db) && ValidTurns(turns) && turns != [] && LastKept(db, report, cursor, turns)
    requires page == ReportPage(db, report, cursor, turns[0].limit) && page != []
    requires TableOk(db') && db' == TableAfter(db, turns[0])
    ensures Survives(ApplyAll(db, turns[0].between), page[|page| - 1])
    ensures LastKept(db', report, Some(page[|page| - 1].key), turns[1..])
  {
  }

  lemma SplitNext(db: Db, report: Report, cursor: Option<Key>, turns: seq<Turn>, page: seq<Item>, db': Db)
    requires TableOk(db) && ValidTurns(turns) && turns != []
    requires page == ReportPage(db, report, cursor, turns[0].limit) && page != []
    requires Survives(ApplyAll(db, turns[0].between), page[|page| - 1])
    requires TableOk(db') && db' == TableAfter(db, turns[0])
    ensures SplitWalk(db, report, cursor, turns) ==
            [page] + SplitWalk(db', report, Some(page[|page| - 1].key), turns[1..])
  {
    KeptKey(db, report, cursor, turns[0].limit, ApplyAll(db, turns[0].between), page[|page| - 1]);
    SplitCons(db, report, cursor, turns, page, ApplyAll(db, turns[0].between), db');
  }

  lemma SingleNext(db: Db, report: Report, cursor: Option<Key>, turns: seq<Turn>, page: seq<Item>, db': Db)
    requires TableOk(db) && ValidTurns(turns) && turns != []
    requires page == ReportPage(db, report, cursor, turns[0].limit)
    requires TableOk(db') && db' == TableAfter(db, turns[0])
    ensures page == [] ==> Walk(db, report, cursor, Visits(turns)) == [page]
    ensures page != [] ==>
      Walk(db, report, cursor, Visits(turns)) ==
      [page] + Walk(db', report, Some(page[|page| - 1].key), Visits(turns[1..]))
  {
    assert Visits(turns)[1..] == Visits(turns[1..]);
    WritesAppend(db, turns[0].between, turns[0].after);
  }

  /**
   The walk is the one with a single query for each page, and the writes of a request taken
   together, wherever the last order of each page keeps its row until its serial is read.
   */
  lemma {:induction false} SplitWalkIsWalk(db: Db, report: Report, cursor: Option<Key>, turns: seq<Turn>)
    requires TableOk(db) && ValidTurns(turns) && LastKept(db, report, cursor, turns)
    ensures SplitWalk(db, report, cursor, turns) == Walk(db, report, cursor, Visits(turns))
    decreases turns
  {
    if turns != [] {
      TurnOk(db, turns[0]);
      var page, db' := ReportPage(db, report, cursor, turns[0].limit), TableAfter(db, turns[0]);
      SingleNext(db, report, cursor, turns, page, db');
      if page != [] {
        KeptNext(db, report, cursor, turns, page, db');
        SplitNext(db, report, cursor, turns, page, db');
        SplitWalkIsWalk(db', report, Some(page[|page| - 1].key), turns[1..]);
      }
    }
  }

  /** The refund report always keeps its last orders: a row with a refund stamp is never returned. */
  lemma {:induction false} RefundsKeepLast(db: Db, cursor: Option<Key>, turns: seq<Turn>)
    requires TableOk(db) && ValidTurns(turns)
    ensures LastKept(db, Refunds, cursor, turns)
    decreases turns
  {
    if turns != [] {
      TurnOk(db, turns[0]);
      var page := ReportPage(db, Refunds, cursor, turns[0].limit);
      if page != [] {
        PageItem(db, Refunds, cursor, turns[0].limit, page[|page| - 1]);
        RefundedRowsStay(db, turns[0].between, page[|page| - 1].order.id);
        RefundsKeepLast(TableAfter(db, turns[0]), Some(page[|page| - 1].key), turns[1..]);
      }
    }
  }

  /** So a walk through the refunds never repeats a row, with its queries apart and in any commit order. */
  lemma RefundWalkNeverRepeats(db: Db, cursor: Option<Key>, turns: seq<Turn>)
    requires TableOk(db) && ValidTurns(turns)
    ensures NoSerialTwice(Flatten(SplitWalk(db, Refunds, cursor, turns)))
  {
    RefundsKeepLast(db, cursor, turns);
    SplitWalkIsWalk(db, Refunds, cursor, turns);
    WalkNeverRepeats(db, Refunds, cursor, Visits(turns));
  }

  // ---- when it is not ----

  function Current(report: Report, now: Db, x: Item): Item
    requires Survives(now, x)
  {
    ItemOf(report, now.rows[x.order.id])
  }

  /** A row of a page then and now, the page's last row, and the emitted key. */
  predicate KeysFit(x: Key, current: Key, last: Key, emitted: Key, nextSerial: int) {
    && current.serial == x.serial < nextSerial && x.time <= current.time && !Less(x, last)
    && emitted.time == last.time && (emitted.serial == last.serial || emitted.serial >= nextSerial)
  }

  lemma BelowIffReplaced(x: Key, current: Key, last: Key, emitted: Key, nextSerial: int)
    requires KeysFit(x, current, last, emitted, nextSerial)
    ensures Less(current, emitted) <==> emitted.serial != last.serial && current.time == last.time
  {
  }

  lemma LaterRow(db: Db, report: Report, between: seq<Write>, id: OrderId)
    requires id in db.rows && id in ApplyAll(db, between).rows
    ensures var row, row' := db.rows[id], ApplyAll(db, between).rows[id];
      || row'.serial >= db.nextSerial
      || (row'.serial == row.serial && SortTime(report, row.order) <= SortTime(report, row'.order))
  {
    RunGrowsTimes(db, between);
  }

  /** `last` ends the page, and its id is still in the table when its serial is read. */
  ghost predicate EndsPage(db: Db, report: Report, cursor: Option<Key>, limit: nat, last: Item, now: Db)
    requires TableOk(db)
  {
    var page := ReportPage(db, report, cursor, limit);
    limit >= 1 && page != [] && page[|page| - 1] == last && last.order.id in now.rows
  }

  lemma PageKeysFit(
    db: Db, report: Report, cursor: Option<Key>, limit: nat, between: seq<Write>, now: Db, x: Item, last: Item)
    requires TableOk(db) && now == ApplyAll(db, between) && EndsPage(db, report, cursor, limit, last, now)
    requires x in ReportPage(db, report, cursor, limit) && Survives(now, x)
    ensures KeysFit(x.key, Current(report, now, x).key, last.key, EmittedKey(report, last, now), db.nextSerial)
    ensures last.key.time == SortTime(report, last.order)
  {
    PageItem(db, report, cursor, limit, x);
    PageItem(db, report, cursor, limit, last);
    EmittedTime(db, report, cursor, limit, last, now);
    LaterRow(db, report, between, x.order.id);
    LaterRow(db, report, between, last.order.id);
  }

  lemma BelowKey(report: Report, now: Db, x: Item, cursor: Key)
    requires Survives(now, x) && Listed(report, now.rows[x.order.id].order)
    ensures Current(report, now, x) in Below(Items(now, report), Some(cursor)) <==>
            Less(Current(report, now, x).key, cursor)
  {
    assert Current(report, now, x) in Items(now, report);
  }

  /**
   A surviving row of the page that is still listed is below the emitted cursor, and so offered
   again, exactly when the last order's id has got another row and, in the history, the row's time
   is still that of the last order. Reports sorted by id alone need no equal times.
   */
  lemma OfferedAgainIff(
    db: Db, report: Report, cursor: Option<Key>, limit: nat, between: seq<Write>, now: Db, x: Item, last: Item)
    requires TableOk(db) && now == ApplyAll(db, between) && EndsPage(db, report, cursor, limit, last, now)
    requires x in ReportPage(db, report, cursor, limit)
    requires Survives(now, x) && Listed(report, now.rows[x.order.id].order)
    ensures Current(report, now, x) in Below(Items(now, report), Some(EmittedKey(report, last, now))) <==>
      !Survives(now, last) &&
      (report.History? ==> HistoryTime(now.rows[x.order.id].order) == HistoryTime(last.order))
  {
    var current, emitted := Current(report, now, x).key, EmittedKey(report, last, now);
    PageKeysFit(db, report, cursor, limit, between, now, x, last);
    BelowIffReplaced(x.key, current, last.key, emitted, db.nextSerial);
    BelowKey(report, now, x, emitted);
  }

  /**
   A report sorted by id alone then starts again from the top: every listed row that was in the
   table when the page was read is below the new cursor, on this page or an earlier one.
   */
  lemma RestartsFromTop(
    db: Db, report: Report, cursor: Option<Key>, limit: nat, between: seq<Write>, now: Db, last: Item, id: OrderId)
    requires TableOk(db) && now == ApplyAll(db, between) && EndsPage(db, report, cursor, limit, last, now)
    requires !report.History? && !Survives(now, last)
    requires id in now.rows && now.rows[id].serial < db.nextSerial && Listed(report, now.rows[id].order)
    ensures ItemOf(report, now.rows[id]) in Below(Items(now, report), Some(EmittedKey(report, last, now)))
  {
    PageItem(db, report, cursor, limit, last);
    LaterRow(db, report, between, last.order.id);
    assert ItemOf(report, now.rows[id]) in Items(now, report);
  }

  /** The last order of the page got another row, and the row of x survives, listed at the same time. */
  ghost predicate Replaced(db: Db, report: Report, cursor: Option<Key>, limit: nat, now: Db, x: Item)
    requires TableOk(db)
  {
    var page := ReportPage(db, report, cursor, limit);
    && x in page && Survives(now, x) && Listed(report, now.rows[x.order.id].order)
    && page[|page| - 1].order.id in now.rows && !Survives(now, page[|page| - 1])
    && (report.History? ==> HistoryTime(now.rows[x.order.id].order) == HistoryTime(page[|page| - 1].order))
  }

  function TwoRequests(limit: nat, between: seq<Write>, many: nat): (turns: seq<Turn>)
    ensures limit >= 1 && many >= 1 && Positive(between) ==> ValidTurns(turns)
    ensures |turns| == 2 && turns[1..] == [Turn(many, [], [])]
  {
    [Turn(limit, between, [])] + [Turn(many, [], [])]
  }

  lemma InBothPages(page: seq<Item>, next: seq<Item>, x: Item, y: Item)
    requires x in page && y in next && x.key.serial == y.key.serial
    ensures !NoSerialTwice(Flatten([page] + [next]))
  {
    var i :| 0 <= i < |page| && page[i] == x;
    var j :| 0 <= j < |next| && next[j] == y;
    var pages := [page] + [next];
    assert pages[1..] == [next] && [next][1..] == [];
    assert Flatten([next]) == next + Flatten([]);
    assert Flatten(pages) == page + next;
    assert Flatten(pages)[i] == x && Flatten(pages)[|page| + j] == y;
  }

  /** A page large enough holds every row below its cursor. */
  lemma WholePage(db: Db, report: Report, cursor: Option<Key>, limit: nat, x: Item)
    requires TableOk(db) && limit >= |Below(Items(db, report), cursor)| && x in Below(Items(db, report), cursor)
    ensures x in ReportPage(db, report, cursor, limit)
  {
    ReportKeysUnique(db, report);
    SortLists(Below(Items(db, report), cursor));
  }

  lemma SecondPage(db: Db, report: Report, cursor: Option<Key>, many: nat, page: seq<Item>)
    requires TableOk(db) && many >= 1 && page == ReportPage(db, report, cursor, many) && page != []
    ensures SplitWalk(db, report, cursor, [Turn(many, [], [])]) == [page]
  {
    PageItem(db, report, cursor, many, page[|page| - 1]);
    assert [Turn(many, [], [])][1..] == [];
  }

  lemma FirstPage(
    db: Db, report: Report, cursor: Option<Key>, limit: nat, between: seq<Write>, many: nat, page: seq<Item>, now: Db)
    requires TableOk(db) && Positive(between) && limit >= 1 && many >= 1
    requires TableOk(now) && now == ApplyAll(db, between)
    requires page == ReportPage(db, report, cursor, limit) && page != [] && page[|page| - 1].order.id in now.rows
    ensures SplitWalk(db, report, cursor, TwoRequests(limit, between, many)) ==
            [page] + SplitWalk(now, report, Some(EmittedKey(report, page[|page| - 1], now)), [Turn(many, [], [])])
  {
    var turns := TwoRequests(limit, between, many);
    assert turns[0] == Turn(limit, between, []);
    SplitCons(db, report, cursor, turns, page, now, now);
  }

  /** The two pages of such a client. */
  lemma TwoPages(
    db: Db, report: Report, cursor: Option<Key>, limit: nat, between: seq<Write>, many: nat, page: seq<Item>,
    now: Db, next: seq<Item>)
    requires TableOk(db) && Positive(between) && limit >= 1 && many >= 1
    requires TableOk(now) && now == ApplyAll(db, between)
    requires page == ReportPage(db, report, cursor, limit) && page != [] && page[|page| - 1].order.id in now.rows
    requires next == ReportPage(now, report, Some(EmittedKey(report, page[|page| - 1], now)), many) && next != []
    ensures SplitWalk(db, report, cursor, TwoRequests(limit, between, many)) == [page] + [next]
  {
    FirstPage(db, report, cursor, limit, between, many, page, now);
    SecondPage(now, report, Some(EmittedKey(report, page[|page| - 1], now)), many, next);
  }

  /** Then a client that goes on and asks for enough rows gets that row twice. */
  lemma SplitRepeats(db: Db, report: Report, cursor: Option<Key>, between: seq<Write>, limit: nat, x: Item)
    returns (many: nat)
    requires TableOk(db) && Positive(between) && limit >= 1
    requires Replaced(db, report, cursor, limit, ApplyAll(db, between), x)
    ensures many >= 1
    ensures !NoSerialTwice(Flatten(SplitWalk(db, report, cursor, TwoRequests(limit, between, many))))
  {
    var page, now := ReportPage(db, report, cursor, limit), ApplyAll(db, between);
    RunKeepsTable(db, between);
    var cursor' := Some(EmittedKey(report, page[|page| - 1], now));
    many := |Below(Items(now, report), cursor')| + 1;
    var next := ReportPage(now, report, cursor', many);
    var y := Current(report, now, x);
    assert y in next by {
      OfferedAgainIff(db, report, cursor, limit, between, now, x, page[|page| - 1]);
      WholePage(now, report, cursor', many, y);
    }
    TwoPages(db, report, cursor, limit, between, many, page, now, next);
    InBothPages(page, next, x, y);
  }

  // ---- and that it happens ----

  /** An order in film that is taken in at 10 and may be stored until 10. */
  function InFilm(id: OrderId): Request { Request(id, "u", 10, 1.0, 1.0, Packaging.FILM_NAME) }

  function TakeIn(id: OrderId): Write { Accept(InFilm(id), 10, 10, 10) }

  lemma TakenIn(db: Db, id: OrderId)
    requires id !in db.rows
    ensures Apply(db, TakeIn(id)).rows == db.rows[id := Row(db.nextSerial, NewOrder(InFilm(id), 10))]
    ensures Apply(db, TakeIn(id)).nextSerial == db.nextSerial + 1
    ensures Timely(10, TakeIn(id)) && Timely(0, TakeIn(id)) && EndOf(TakeIn(id)) == 10
  {
    Packaging.FilmIsAcceptable();
  }

  predicate TwoInFilm(db: Db, a: OrderId, b: OrderId) {
    && a != b && db.nextSerial == 3
    && db.rows == map[a := Row(1, NewOrder(InFilm(a), 10)), b := Row(2, NewOrder(InFilm(b), 10))]
  }

  /** A page of both rows ends with the one of the smaller serial. */
  lemma PageOfTwo(db: Db, report: Report, a: OrderId, b: OrderId)
    requires TableOk(db) && TwoInFilm(db, a, b)
    requires Listed(report, NewOrder(InFilm(a), 10)) && Listed(report, NewOrder(InFilm(b), 10))
    ensures var page := ReportPage(db, report, None, 2);
      ItemOf(report, db.rows[b]) in page && page[|page| - 1] == ItemOf(report, db.rows[a])
  {
    var x, y := ItemOf(report, db.rows[a]), ItemOf(report, db.rows[b]);
    assert Items(db, report) == {x, y};
    assert Below(Items(db, report), None) == {x, y};
    WholePage(db, report, None, 2, x);
    WholePage(db, report, None, 2, y);
    PageItem(db, report, None, 2, x);
    var page := ReportPage(db, report, None, 2);
    PageItem(db, report, None, 2, page[|page| - 1]);
  }

  lemma TwoTakenIn(a: OrderId, b: OrderId) returns (db: Db)
    requires a != b
    ensures db == ApplyAll(EMPTY_DB, [TakeIn(a), TakeIn(b)]) && Serial(ZERO_TIME, [TakeIn(a), TakeIn(b)])
    ensures TableOk(db) && TwoInFilm(db, a, b)
  {
    TakenIn(EMPTY_DB, a);
    TakenIn(Apply(EMPTY_DB, TakeIn(a)), b);
    TwoWrites(EMPTY_DB, ZERO_TIME, TakeIn(a), TakeIn(b));
    db := ApplyAll(EMPTY_DB, [TakeIn(a), TakeIn(b)]);
    RunKeepsTable(EMPTY_DB, [TakeIn(a), TakeIn(b)]);
  }

  /** The first order returned and taken in again, all at 10. */
  lemma Retaken(db: Db, a: OrderId, b: OrderId)
    requires TwoInFilm(db, a, b)
    ensures Serial(10, [Return(a, 10), TakeIn(a)]) && Positive([Return(a, 10), TakeIn(a)])
    ensures ApplyAll(db, [Return(a, 10), TakeIn(a)]).rows == db.rows[a := Row(3, NewOrder(InFilm(a), 10))]
  {
    var gone := Apply(db, Return(a, 10));
    assert gone == db.(rows := db.rows - {a}) by {
      assert JudgeReturn(db, a, 10).Returned?;
    }
    TakenIn(gone, a);
    TwoWrites(db, 10, Return(a, 10), TakeIn(a));
  }

  /**
   The empty table reaches such a walk, of the history and of the recipient's orders: two orders
   taken in at the same time, and the first one returned and taken in again between the two queries
   of the page that ends with it.
   */
  lemma SplitRepeatIsReachable(report: Report, a: OrderId, b: OrderId) returns (many: nat)
    requires a != b && (report == History || report == OfUser("u", "") || report == OfUser("u", "stored"))
    ensures var db := ApplyAll(EMPTY_DB, [TakeIn(a), TakeIn(b)]);
      var turns := TwoRequests(2, [Return(a, 10), TakeIn(a)], many);
      && Serial(ZERO_TIME, [TakeIn(a), TakeIn(b)]) && Serial(10, [Return(a, 10), TakeIn(a)])
      && TableOk(db) && ValidTurns(turns) && !NoSerialTwice(Flatten(SplitWalk(db, report, None, turns)))
  {
    var db := TwoTakenIn(a, b);
    Retaken(db, a, b);
    PageOfTwo(db, report, a, b);
    many := SplitRepeats(db, report, None, [Return(a, 10), TakeIn(a)], 2, ItemOf(report, db.rows[b]));
  }
}
