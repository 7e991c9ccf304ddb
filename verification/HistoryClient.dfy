/**
 A client that follows the history by the cursor texts it is given: each answer carries the next
 cursor as "<time>,<id>", and the handler reads it back (internal/api/api_handler.go).
 */
module HistoryClient {
  import opened Wrappers
  import opened Orders
  import opened OrderDb
  import opened Lifecycle
  import opened CommitOrder
  import opened Keyset
  import opened Reports
  import opened ReportWalk
  import opened ReportSplit
  import opened Calendar
  import opened CursorText

  // ---- walks through texts of any kind ----

  /** How cursors are written, and read: None is a refused text, Some(None) the first page. */
  datatype Codec = Codec(write: Key -> string, read: string -> Option<Option<Key>>)

  /** The pages a client receives for a cursor text: none if it is refused. */
  ghost function TextWalk(db: Db, codec: Codec, text: string, turns: seq<Turn>): seq<seq<Item>>
    requires TableOk(db) && ValidTurns(turns)
    decreases turns, 1
  {
    if codec.read(text).None? then [] else PagesFrom(db, codec, codec.read(text).value, turns)
  }

  /** And for a cursor that was read, up to the first empty page or error. */
  ghost function PagesFrom(db: Db, codec: Codec, cursor: Option<Key>, turns: seq<Turn>): seq<seq<Item>>
    requires TableOk(db) && ValidTurns(turns)
    decreases turns, 0
  {
    if turns == [] then []
    else
      var page, now := ReportPage(db, History, cursor, turns[0].limit), ApplyAll(db, turns[0].between);
      if page == [] then [page]
      else if page[|page| - 1].order.id !in now.rows then []
      else
        TurnOk(db, turns[0]);
        [page] +
        TextWalk(TableAfter(db, turns[0]), codec, codec.write(EmittedKey(History, page[|page| - 1], now)), turns[1..])
  }

  /** Keys up to this time are read back as they were written. */
  ghost predicate RoundTrips(codec: Codec, latest: Time) {
    forall k: Key :: ZERO_TIME < k.time <= latest && k.serial >= 1 ==> codec.read(codec.write(k)) == Some(Some(k))
  }

  // ---- times ----

  /** No stamp in the table is later than t. */
  ghost predicate StampedBy(db: Db, t: Time) {
    forall id :: id in db.rows ==> HistoryTime(db.rows[id].order) <= t
  }

  predicate ReadBy(ws: seq<Write>, t: Time) {
    forall i :: 0 <= i < |ws| ==> EndOf(ws[i]) <= t
  }

  predicate TurnsReadBy(turns: seq<Turn>, t: Time) {
    forall i :: 0 <= i < |turns| ==> ReadBy(turns[i].between, t) && ReadBy(turns[i].after, t)
  }

  lemma StampBy(kind: Kind, o: Order, now: Time, t: Time)
    requires HistoryTime(o) <= t && ZERO_TIME < now <= t
    ensures HistoryTime(Stamp(kind, o, now)) <= t
  {
  }

  lemma ApplyStampedBy(db: Db, w: Write, t: Time)
    requires StampedBy(db, t) && ZERO_TIME < EndOf(w) <= t
    ensures StampedBy(Apply(db, w), t)
  {
    if w.Batch? {
      var after := Apply(db, w);
      BatchStamps(w.kind, db, w.user, w.ids, w.at);
      forall id | id in after.rows ensures HistoryTime(after.rows[id].order) <= t {
        StampBy(w.kind, db.rows[id].order, w.at, t);
      }
    }
  }

  lemma {:induction false} RunStampedBy(db: Db, ws: seq<Write>, t: Time)
    requires StampedBy(db, t) && Positive(ws) && ReadBy(ws, t)
    ensures StampedBy(ApplyAll(db, ws), t)
    decreases ws
  {
    if ws != [] {
      ApplyStampedBy(db, ws[0], t);
      RunStampedBy(Apply(db, ws[0]), ws[1..], t);
    }
  }

  lemma TurnStampedBy(db: Db, turn: Turn, t: Time)
    requires StampedBy(db, t) && ValidTurn(turn) && ReadBy(turn.between, t) && ReadBy(turn.after, t)
    ensures StampedBy(TableAfter(db, turn), t)
  {
    RunStampedBy(db, turn.between, t);
    RunStampedBy(ApplyAll(db, turn.between), turn.after, t);
  }

  // ---- the walk through texts is the walk by keys ----

  lemma EmittedInRange(db: Db, cursor: Option<Key>, turn: Turn, last: Item, latest: Time)
    requires TableOk(db) && ValidTurn(turn) && last in ReportPage(db, History, cursor, turn.limit)
    requires last.order.id in ApplyAll(db, turn.between).rows && StampedBy(db, latest)
    ensures var key := EmittedKey(History, last, ApplyAll(db, turn.between));
      ZERO_TIME < key.time <= latest && key.serial >= 1
  {
    PageItem(db, History, cursor, turn.limit, last);
    EmittedTime(db, History, cursor, turn.limit, last, ApplyAll(db, turn.between));
    TurnOk(db, turn);
    assert RowSound(db, last.order.id) && RowSound(ApplyAll(db, turn.between), last.order.id);
  }

  /** One page of the client's walk, and then the walk from the key it was given. */
  lemma TextCons(db: Db, codec: Codec, cursor: Option<Key>, turns: seq<Turn>, page: seq<Item>, key: Key, db': Db)
    requires TableOk(db) && turns != [] && ValidTurns(turns) && TableOk(db') && db' == TableAfter(db, turns[0])
    requires page == ReportPage(db, History, cursor, turns[0].limit)
    requires page != [] && page[|page| - 1].order.id in ApplyAll(db, turns[0].between).rows
    requires key == EmittedKey(History, page[|page| - 1], ApplyAll(db, turns[0].between))
    requires codec.read(codec.write(key)) == Some(Some(key))
    ensures PagesFrom(db, codec, cursor, turns) == [page] + PagesFrom(db', codec, Some(key), turns[1..])
  {
    var text := codec.write(key);
    var rest := TextWalk(db', codec, text, turns[1..]);
    assert rest == PagesFrom(db', codec, Some(key), turns[1..]);
    assert PagesFrom(db, codec, cursor, turns) == [page] + rest;
  }

  /** Where the walk ends, it ends the same way. */
  lemma TextEnds(db: Db, codec: Codec, cursor: Option<Key>, turns: seq<Turn>, page: seq<Item>)
    requires TableOk(db) && turns != [] && ValidTurns(turns)
    requires page == ReportPage(db, History, cursor, turns[0].limit)
    requires page == [] || page[|page| - 1].order.id !in ApplyAll(db, turns[0].between).rows
    ensures PagesFrom(db, codec, cursor, turns) == SplitWalk(db, History, cursor, turns)
  {
    if page == [] {
      assert PagesFrom(db, codec, cursor, turns) == [page];
    } else {
      assert PagesFrom(db, codec, cursor, turns) == [];
    }
  }

  lemma {:induction false} PagesAreSplitWalk(
    db: Db, codec: Codec, cursor: Option<Key>, turns: seq<Turn>, latest: Time)
    requires TableOk(db) && ValidTurns(turns)
    requires StampedBy(db, latest) && TurnsReadBy(turns, latest) && RoundTrips(codec, latest)
    ensures PagesFrom(db, codec, cursor, turns) == SplitWalk(db, History, cursor, turns)
    decreases turns
  {
    if turns != [] {
      var page := ReportPage(db, History, cursor, turns[0].limit);
      if page != [] && page[|page| - 1].order.id in ApplyAll(db, turns[0].between).rows {
        var db', key := TableAfter(db, turns[0]), EmittedKey(History, page[|page| - 1], ApplyAll(db, turns[0].between));
        TurnOk(db, turns[0]);
        TurnStampedBy(db, turns[0], latest);
        EmittedInRange(db, cursor, turns[0], page[|page| - 1], latest);
        TextCons(db, codec, cursor, turns, page, key, db');
        PagesAreSplitWalk(db', codec, Some(key), turns[1..], latest);
        SplitCons(db, History, cursor, turns, page, ApplyAll(db, turns[0].between), db');
      } else {
        TextEnds(db, codec, cursor, turns, page);
      }
    }
  }

  // ---- the texts of this service ----

  /** The handler: no cursor asks for the first page, a text that does not parse is refused. */
  function ReadCursor(text: string): Option<Option<Key>> {
    if text == "" then Some(None)
    else
      var key := ParseCursor(text);
      if key.None? then None else Some(DecodeCursor(key.value))
  }

  /** The storage writes only keys of rows, whose times and serials are positive. */
  function WriteCursor(k: Key): string {
    if k.time >= ZERO_TIME && k.serial >= 0 then FormatCursor(k) else ""
  }

  ghost const CURSORS := Codec(k => WriteCursor(k), text => ReadCursor(text))

  /** The layout prints four digits of the year. */
  predicate Printable(t: Time) {
    t >= ZERO_TIME ==> CivilOf(t).date.year <= 9999
  }

  lemma CursorReadsBack(k: Key, latest: Time)
    requires ZERO_TIME < k.time <= latest && Printable(latest) && k.serial >= 1
    ensures ReadCursor(WriteCursor(k)) == Some(Some(k))
  {
    LaterYear(k.time, latest);
    CursorRoundTrip(k);
    FormatLayout(CivilOf(k.time));
  }

  lemma CursorsRoundTrip(latest: Time)
    requires Printable(latest)
    ensures RoundTrips(CURSORS, latest)
  {
    forall k: Key | ZERO_TIME < k.time <= latest && k.serial >= 1
      ensures CURSORS.read(CURSORS.write(k)) == Some(Some(k))
    {
      CursorReadsBack(k, latest);
    }
  }

  /** Through the text of its cursors the client sees exactly the walk by keys, while all readings lie before 10000. */
  lemma TextWalkIsSplitWalk(db: Db, text: string, cursor: Option<Key>, turns: seq<Turn>, latest: Time)
    requires TableOk(db) && ValidTurns(turns) && ReadCursor(text) == Some(cursor)
    requires StampedBy(db, latest) && TurnsReadBy(turns, latest) && Printable(latest)
    ensures TextWalk(db, CURSORS, text, turns) == SplitWalk(db, History, cursor, turns)
  {
    CursorsRoundTrip(latest);
    PagesAreSplitWalk(db, CURSORS, cursor, turns, latest);
  }

  /** A text that is refused gives no page at all. */
  lemma RefusedText(db: Db, text: string, turns: seq<Turn>)
    requires TableOk(db) && ValidTurns(turns) && text != "" && ParseCursor(text).None?
    ensures TextWalk(db, CURSORS, text, turns) == []
  {
  }

  /** A cursor at or before the zero time, other than the one that stands for the first page, gives an empty page. */
  lemma EarlyCursorIsEmpty(db: Db, cursor: Key, limit: nat)
    requires TableOk(db) && limit >= 1 && cursor.time <= ZERO_TIME && !(cursor.time == ZERO_TIME && cursor.serial == 0)
    ensures ReportPage(db, History, DecodeCursor(cursor), limit) == []
  {
    var page := ReportPage(db, History, DecodeCursor(cursor), limit);
    if page != [] {
      PageTimesPositive(db, DecodeCursor(cursor), limit, page[0]);
    }
  }

  lemma PageTimesPositive(db: Db, cursor: Option<Key>, limit: nat, x: Item)
    requires TableOk(db) && limit >= 1 && x in ReportPage(db, History, cursor, limit)
    ensures ZERO_TIME < x.key.time && (cursor.Some? ==> Less(x.key, cursor.value))
  {
    PageItem(db, History, cursor, limit, x);
    assert RowSound(db, x.order.id);
  }

  /**
   What the client gets from the first page to the empty page, when the last order of each page
   keeps its row until its serial is read: no row twice, and each row that stays exactly once.
   */
  lemma ClientGetsEachRowOnce(db: Db, turns: seq<Turn>, latest: Time, id: OrderId, row: Row)
    requires TableOk(db) && ValidTurns(turns) && LastKept(db, History, None, turns)
    requires StampedBy(db, latest) && TurnsReadBy(turns, latest) && Printable(latest)
    requires Untouched(db, Visits(turns), id, row)
    requires var pages := TextWalk(db, CURSORS, "", turns); pages != [] && pages[|pages| - 1] == []
    ensures var rows := Flatten(TextWalk(db, CURSORS, "", turns));
      NoSerialTwice(rows) && ExactlyOnce(rows, ItemOf(History, row))
  {
    TextWalkIsSplitWalk(db, "", None, turns, latest);
    SplitWalkIsWalk(db, History, None, turns);
    WalkExactlyOnce(db, History, Visits(turns), id, row);
  }
}
