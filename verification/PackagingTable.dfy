/** The packaging_types table beside the orders it prices (internal/storage/postgres/orderstorage/storage.go). */
module PackagingTable {
  import opened Orders
  import opened OrderDb
  import opened Lifecycle
  import Packaging

  /** The order's packaging parses and allows its weight, and its row exists in packaging_types. */
  predicate PackedOk(db: Db, o: Order) {
    && Packaging.Acceptable(Packaging.KindsOf(o.packaging))
    && Packaging.WeightOk(Packaging.KindsOf(o.packaging), o.weight)
    && o.packaging in db.prices
  }

  ghost predicate PackagingOk(db: Db) {
    && (forall id :: id in db.rows ==> PackedOk(db, db.rows[id].order))
    && (forall p :: p in db.prices ==> db.prices[p] == PackagePrice(p))
  }

  lemma SavePackaging(db: Db, o: Order)
    requires PackagingOk(db)
    requires Packaging.Acceptable(Packaging.KindsOf(o.packaging))
    requires Packaging.WeightOk(Packaging.KindsOf(o.packaging), o.weight)
    ensures PackagingOk(Save(db, o, PackagePrice(o.packaging)))
  {
  }

  /** Rows that keep packaging and weight, over the same price table, stay priced. */
  lemma SamePackaging(db: Db, db': Db)
    requires PackagingOk(db) && db'.prices == db.prices && db'.rows.Keys <= db.rows.Keys
    requires forall id :: id in db'.rows ==>
      && db'.rows[id].order.packaging == db.rows[id].order.packaging
      && db'.rows[id].order.weight == db.rows[id].order.weight
    ensures PackagingOk(db')
  {
  }

  lemma StampedPackaging(kind: Kind, db: Db, db': Db, user: UserId, now: Time)
    requires PackagingOk(db) && Stamped(kind, db, db', user, now)
    ensures PackagingOk(db')
  {
  }

  lemma ApplyPackaging(db: Db, w: Write)
    requires PackagingOk(db)
    ensures PackagingOk(Apply(db, w))
  {
    match w
    case Accept(req, _, checkedAt, storedAt) =>
      if JudgeAccept(db, req, checkedAt).Accepted? {
        SavePackaging(db, NewOrder(req, storedAt));
      }
    case Return(id, at) => SamePackaging(db, db.(rows := db.rows - {id}));
    case Batch(kind, user, ids, at) =>
      BatchStamps(kind, db, user, ids, at);
      StampedPackaging(kind, db, Apply(db, w), user, at);
  }

  lemma {:induction false} RunPackaging(db: Db, ws: seq<Write>)
    requires PackagingOk(db)
    ensures PackagingOk(ApplyAll(db, ws))
    decreases ws
  {
    if ws != [] {
      ApplyPackaging(db, ws[0]);
      RunPackaging(Apply(db, ws[0]), ws[1..]);
    }
  }

  /**
   In every run each order has an acceptable packaging whose row holds the price of its tokens,
   so inserting with DO NOTHING on conflict keeps the table right.
   */
  lemma PackagingTableIsRight(ws: seq<Write>, id: OrderId)
    requires id in ApplyAll(EMPTY_DB, ws).rows
    ensures var db := ApplyAll(EMPTY_DB, ws);
      var o := db.rows[id].order;
      && Packaging.Acceptable(Packaging.KindsOf(o.packaging))
      && Packaging.WeightOk(Packaging.KindsOf(o.packaging), o.weight)
      && o.packaging in db.prices && db.prices[o.packaging] == PackagePrice(o.packaging)
  {
    RunPackaging(EMPTY_DB, ws);
    assert PackedOk(ApplyAll(EMPTY_DB, ws), ApplyAll(EMPTY_DB, ws).rows[id].order);
  }

  /** A packaging row, once there, keeps its price: a conflicting insert does nothing, whatever it brings. */
  lemma ConflictDoesNothing(db: Db, o: Order, price: nat, packaging: string)
    requires packaging in db.prices
    ensures packaging in Save(db, o, price).prices && Save(db, o, price).prices[packaging] == db.prices[packaging]
  {
  }
}
