/**
 The orders and packaging_types tables as a value, and what each write of the service does to
 them: accept and return (internal/repository/orderrepo/repository.go,
 internal/storage/postgres/orderstorage/storage.go), and the issue and refund transactions
 (internal/storage/postgres/userorderstorage/storage.go).
 */
module OrderDb {
  import opened Wrappers
  import opened Orders
  import Packaging

  /** A row of orders: the SERIAL primary key and the order scanned from the other columns. */
  datatype Row = Row(serial: int, order: Order)

  /** Rows by their unique order_id, the next SERIAL value, and the price of each packaging. */
  datatype Db = Db(rows: map<OrderId, Row>, nextSerial: int, prices: map<string, nat>)

  const EMPTY_DB := Db(map[], 1, map[])

  /** The body of an accept request, the expiry date already parsed. */
  datatype Request = Request(
    id: OrderId, recipient: UserId, expiry: Time, basePrice: real, weight: real, packaging: string)

  function NewOrder(req: Request, storedAt: Time): Order {
    Order(req.id, req.recipient, req.expiry, Some(storedAt), None, None, req.basePrice, req.weight, req.packaging)
  }

  function PackagePrice(packaging: string): nat {
    Packaging.PriceOf(Packaging.KindsOf(packaging))
  }

  // ---- accept ----

  datatype AcceptVerdict = Accepted | PastExpiry | Duplicate | BadPackaging | TooHeavy

  function JudgeAccept(db: Db, req: Request, checkedAt: Time): AcceptVerdict {
    if req.expiry < checkedAt then PastExpiry
    else if req.id in db.rows then Duplicate
    else if !Packaging.Acceptable(Packaging.KindsOf(req.packaging)) then BadPackaging
    else if !Packaging.WeightOk(Packaging.KindsOf(req.packaging), req.weight) then TooHeavy
    else Accepted
  }

  /** SaveOrder: the packaging row unless its key exists, then the order row. */
  function Save(db: Db, o: Order, price: nat): Db {
    Db(db.rows[o.id := Row(db.nextSerial, o)],
       db.nextSerial + 1,
       if o.packaging in db.prices then db.prices else db.prices[o.packaging := price])
  }

  // ---- return to the courier ----

  datatype ReturnVerdict = Returned | NotFound | NotStored | NotExpired

  function JudgeReturn(db: Db, id: OrderId, now: Time): ReturnVerdict {
    if id !in db.rows then NotFound
    else if StageOf(db.rows[id].order) != Stored then NotStored
    else if db.rows[id].order.expiry > now then NotExpired
    else Returned
  }

  // ---- issue and refund batches ----

  datatype Kind = Issue | Refund

  datatype OrderError = DoesntOwn | NotInStorage | StorageExpired | NotIssued | RefundPeriodExpired

  /** validateOrderForIssue and validateOrderForRefund; None is the nil error. */
  function Validate(kind: Kind, o: Order, user: UserId, now: Time): Option<OrderError> {
    if o.recipient != user then Some(DoesntOwn)
    else match kind
      case Issue =>
        if StageOf(o) != Stored then Some(NotInStorage)
        else if o.expiry < now then Some(StorageExpired)
        else None
      case Refund =>
        if StageOf(o) != Issued then Some(NotIssued)
        else if o.issued.Some? && now - o.issued.value > REFUND_WINDOW then Some(RefundPeriodExpired)
        else None
  }

  function Stamp(kind: Kind, o: Order, now: Time): Order {
    match kind
    case Issue => o.(issued := Some(now))
    case Refund => o.(refunded := Some(now))
  }

  function StampRow(kind: Kind, r: Row, now: Time): Row {
    Row(r.serial, Stamp(kind, r.order, now))
  }

  /** The table with exactly the rows of `ids` stamped. */
  function StampRows(kind: Kind, rows: map<OrderId, Row>, ids: seq<OrderId>, now: Time): map<OrderId, Row> {
    map id | id in rows :: if id in ids then StampRow(kind, rows[id], now) else rows[id]
  }

  /** Position i of a batch succeeds, told from the table before the batch: a repeated id meets its own stamp. */
  predicate StepOk(kind: Kind, rows: map<OrderId, Row>, user: UserId, ids: seq<OrderId>, now: Time, i: nat)
    requires i < |ids|
  {
    && ids[i] in rows
    && StepError(kind, rows, user, ids, now, i).None?
  }

  function StepError(
    kind: Kind, rows: map<OrderId, Row>, user: UserId, ids: seq<OrderId>, now: Time, i: nat): Option<OrderError>
    requires i < |ids| && ids[i] in rows
  {
    var o := rows[ids[i]].order;
    Validate(kind, if ids[i] in ids[..i] then Stamp(kind, o, now) else o, user, now)
  }

  /** The first position from i on that does not succeed, or the length of the batch. */
  function Cut(kind: Kind, rows: map<OrderId, Row>, user: UserId, ids: seq<OrderId>, now: Time, i: nat := 0): (n: nat)
    requires i <= |ids|
    ensures i <= n <= |ids|
    ensures forall j :: i <= j < n ==> StepOk(kind, rows, user, ids, now, j)
    ensures n < |ids| ==> !StepOk(kind, rows, user, ids, now, n)
    decreases |ids| - i
  {
    if i == |ids| || !StepOk(kind, rows, user, ids, now, i) then i
    else Cut(kind, rows, user, ids, now, i + 1)
  }

  /** The search goes on after a position that succeeds, and ends at one that does not. */
  lemma CutNext(kind: Kind, rows: map<OrderId, Row>, user: UserId, ids: seq<OrderId>, now: Time, i: nat)
    requires i < |ids|
    ensures Cut(kind, rows, user, ids, now, i) ==
            if StepOk(kind, rows, user, ids, now, i) then Cut(kind, rows, user, ids, now, i + 1) else i
  {
  }

  /** What position i of the running batch sees, and how its update extends the stamped table. */
  lemma StampNext(kind: Kind, rows: map<OrderId, Row>, user: UserId, ids: seq<OrderId>, now: Time, i: nat)
    requires i < |ids| && ids[i] in rows
    ensures var tx := StampRows(kind, rows, ids[..i], now);
      && ids[i] in tx
      && Validate(kind, tx[ids[i]].order, user, now) == StepError(kind, rows, user, ids, now, i)
      && StampRows(kind, rows, ids[..i + 1], now) == tx[ids[i] := StampRow(kind, tx[ids[i]], now)]
  {
  }

  /** Aborted is the rolled back transaction that reports a database error. */
  datatype BatchOutcome =
    | Aborted
    | Committed(processed: seq<OrderId>, failed: seq<OrderId>, error: Option<OrderError>)

  /** getFailedOrders: the requested ids that were not processed, in request order, with repeats. */
  function FailedOrders(ids: seq<OrderId>, processed: seq<OrderId>): seq<OrderId> {
    if ids == [] then []
    else (if ids[0] in processed then [] else [ids[0]]) + FailedOrders(ids[1..], processed)
  }

  function JudgeBatch(kind: Kind, rows: map<OrderId, Row>, user: UserId, ids: seq<OrderId>, now: Time): BatchOutcome {
    var n := Cut(kind, rows, user, ids, now);
    if n < |ids| && ids[n] !in rows then Aborted
    else
      Committed(ids[..n], FailedOrders(ids, ids[..n]),
                if n < |ids| then StepError(kind, rows, user, ids, now, n) else None)
  }

  // ---- writes ----

  /**
   A write call of the API with the clock readings it makes: an accept reads the clock in the
   handler, for the expiry guard, and for the stored stamp.
   */
  datatype Write =
    | Accept(req: Request, handlerAt: Time, checkedAt: Time, storedAt: Time)
    | Return(id: OrderId, at: Time)
    | Batch(kind: Kind, user: UserId, ids: seq<OrderId>, at: Time)

  function Apply(db: Db, w: Write): Db {
    match w
    case Accept(req, _, checkedAt, storedAt) =>
      if JudgeAccept(db, req, checkedAt).Accepted?
      then Save(db, NewOrder(req, storedAt), PackagePrice(req.packaging))
      else db
    case Return(id, at) =>
      if JudgeReturn(db, id, at).Returned? then db.(rows := db.rows - {id}) else db
    case Batch(kind, user, ids, at) =>
      match JudgeBatch(kind, db.rows, user, ids, at)
      case Aborted => db
      case Committed(processed, _, _) => db.(rows := StampRows(kind, db.rows, processed, at))
  }

  /** A batch told by the first position n that does not succeed. */
  lemma BatchCut(kind: Kind, db: Db, user: UserId, ids: seq<OrderId>, now: Time, n: nat)
    requires n == Cut(kind, db.rows, user, ids, now)
    ensures var missing := n < |ids| && ids[n] !in db.rows;
      && JudgeBatch(kind, db.rows, user, ids, now) ==
         (if missing then Aborted
          else Committed(ids[..n], FailedOrders(ids, ids[..n]),
                         if n < |ids| then StepError(kind, db.rows, user, ids, now, n) else None))
      && Apply(db, Batch(kind, user, ids, now)) ==
         if missing then db else db.(rows := StampRows(kind, db.rows, ids[..n], now))
  {
  }

  function ApplyAll(db: Db, ws: seq<Write>): Db
    decreases ws
  {
    if ws == [] then db else ApplyAll(Apply(db, ws[0]), ws[1..])
  }

  /** The last clock reading of a write. */
  function EndOf(w: Write): Time {
    match w
    case Accept(_, _, _, storedAt) => storedAt
    case Return(_, at) => at
    case Batch(_, _, _, at) => at
  }

  /** The readings of a write are after the zero time, in order, and not before `clock`. */
  predicate Timely(clock: Time, w: Write) {
    && ZERO_TIME <= clock
    && match w
       case Accept(_, handlerAt, checkedAt, storedAt) =>
         ZERO_TIME < handlerAt && clock <= handlerAt <= checkedAt <= storedAt
       case Return(_, at) => ZERO_TIME < at && clock <= at
       case Batch(_, _, _, at) => ZERO_TIME < at && clock <= at
  }

  /** A serial run: each write reads the clock after the one before it. */
  predicate Serial(clock: Time, ws: seq<Write>)
    decreases ws
  {
    ws == [] || (Timely(clock, ws[0]) && Serial(EndOf(ws[0]), ws[1..]))
  }

  function EndOfAll(clock: Time, ws: seq<Write>): Time
    decreases ws
  {
    if ws == [] then clock else EndOfAll(EndOf(ws[0]), ws[1..])
  }

  lemma TwoWrites(db: Db, clock: Time, v: Write, w: Write)
    ensures ApplyAll(db, [v, w]) == Apply(Apply(db, v), w)
    ensures Serial(clock, [v, w]) <==> Timely(clock, v) && Timely(EndOf(v), w)
    ensures EndOfAll(clock, [v, w]) == EndOf(w)
  {
    assert [v, w][1..] == [w] && [w][1..] == [];
    assert ApplyAll(Apply(db, v), [w]) == Apply(Apply(db, v), w);
    assert Serial(EndOf(v), [w]) == Timely(EndOf(v), w);
    assert EndOfAll(EndOf(v), [w]) == EndOf(w);
  }

  lemma ThreeWrites(db: Db, a: Write, b: Write, c: Write)
    ensures ApplyAll(db, [a, b, c]) == Apply(Apply(Apply(db, a), b), c)
  {
    assert [a, b, c][1..] == [b, c] && [b, c][1..] == [c] && [c][1..] == [];
    assert ApplyAll(Apply(Apply(db, a), b), [c]) == Apply(Apply(Apply(db, a), b), c);
    assert ApplyAll(Apply(db, a), [b, c]) == ApplyAll(Apply(Apply(db, a), b), [c]);
  }
}
