/**
 Orders of a pick-up point. The stage of an order is not stored: it is derived from three
 nullable stamps (internal/domain/order.go).

 Times are integers counted from Go's zero time 0001-01-01, in the microseconds a
 Postgres TIMESTAMP keeps.
 */
module Orders {
  import opened Wrappers

  type OrderId = string
  type UserId = string
  type Time = int

  const ZERO_TIME: Time := 0
  const HOUR: Time := 3_600_000_000
  const REFUND_WINDOW: Time := 48 * HOUR

  /** NoStage is the empty status string of an order without stamps. */
  datatype Stage = NoStage | Stored | Issued | Refunded

  datatype Order = Order(
    id: OrderId, recipient: UserId, expiry: Time,
    stored: Option<Time>, issued: Option<Time>, refunded: Option<Time>,
    basePrice: real, weight: real, packaging: string)

  function Coalesce(stamp: Option<Time>): Time {
    if stamp.Some? then stamp.value else ZERO_TIME
  }

  /** The stage whose stamp is the latest one after the zero time; on ties the later stage. */
  function StageOf(o: Order): (s: Stage)
    ensures s == NoStage <==> Coalesce(o.stored) <= 0 && Coalesce(o.issued) <= 0 && Coalesce(o.refunded) <= 0
    ensures s == Refunded ==> o.refunded.Some? && o.refunded.value == HistoryTime(o)
    ensures s == Issued ==> o.issued.Some? && o.issued.value == HistoryTime(o) && o.refunded != o.issued
    ensures s == Stored ==>
      o.stored.Some? && o.stored.value == HistoryTime(o) && o.refunded != o.stored && o.issued != o.stored
  {
    var latest := HistoryTime(o);
    if latest <= ZERO_TIME then NoStage
    else if o.refunded == Some(latest) then Refunded
    else if o.issued == Some(latest) then Issued
    else Stored
  }

  function Max(a: Time, b: Time): Time { if a < b then b else a }

  /** The sort key of the history query: GREATEST over the stamps, a missing one counted as 0001-01-01. */
  function HistoryTime(o: Order): Time {
    Max(Coalesce(o.stored), Max(Coalesce(o.issued), Coalesce(o.refunded)))
  }

  /** Order.Status: three guarded updates of a running maximum. */
  method Status(o: Order) returns (status: Stage)
    ensures status == StageOf(o)
  {
    var latest := ZERO_TIME;
    status := NoStage;
    if o.refunded.Some? && o.refunded.value > latest {
      latest := o.refunded.value;
      status := Refunded;
    }
    if o.issued.Some? && o.issued.value > latest {
      latest := o.issued.value;
      status := Issued;
    }
    if o.stored.Some? && o.stored.value > latest {
      status := Stored;
    }
  }

  function Stamps(o: Order): seq<Time> {
    (if o.stored.Some? then [o.stored.value] else []) +
    (if o.issued.Some? then [o.issued.value] else []) +
    (if o.refunded.Some? then [o.refunded.value] else [])
  }

  /** The greatest stamp that is present, or the zero time. */
  ghost predicate IsLastUpdated(o: Order, t: Time) {
    if Stamps(o) == [] then t == ZERO_TIME
    else t in Stamps(o) && forall s :: s in Stamps(o) ==> s <= t
  }

  /** Order.LastUpdated: collect the stamps, then a maximum loop. */
  method LastUpdated(o: Order) returns (latest: Time)
    ensures IsLastUpdated(o, latest)
  {
    var times: seq<Time> := [];
    if o.stored.Some? { times := times + [o.stored.value]; }
    if o.issued.Some? { times := times + [o.issued.value]; }
    if o.refunded.Some? { times := times + [o.refunded.value]; }
    assert times == Stamps(o);
    if |times| == 0 {
      return ZERO_TIME;
    }
    latest := times[0];
    for i := 1 to |times|
      invariant latest in times
      invariant forall j :: 0 <= j < i ==> times[j] <= latest
    {
      if times[i] > latest {
        latest := times[i];
      }
    }
  }

  /**
   The Go maximum and the SQL key agree for every pattern of missing stamps, except when a
   stamp is missing and all present ones lie before the zero time.
   */
  lemma KeyAgreement(o: Order, t: Time)
    requires IsLastUpdated(o, t)
    ensures t == HistoryTime(o) <==>
            Stamps(o) == [] || |Stamps(o)| == 3 || exists s :: s in Stamps(o) && s >= ZERO_TIME
  {
    assert forall s :: s in Stamps(o) <==> o.stored == Some(s) || o.issued == Some(s) || o.refunded == Some(s);
    if Stamps(o) != [] && t == HistoryTime(o) && t < ZERO_TIME {
      assert o.stored.Some? && o.issued.Some? && o.refunded.Some?;
    }
  }

  /** Stamps are present in the order of the stages, after the zero time and not in the future. */
  predicate Chronological(o: Order, clock: Time) {
    && o.stored.Some? && ZERO_TIME < o.stored.value <= clock
    && (o.issued.Some? ==> o.stored.value <= o.issued.value <= clock)
    && (o.refunded.Some? ==> o.issued.Some? && o.issued.value <= o.refunded.value <= clock)
  }

  /** Issued before the storage deadline, refunded inside the 48 hour window. */
  predicate WithinWindows(o: Order) {
    && (o.issued.Some? ==> o.issued.value <= o.expiry)
    && (o.refunded.Some? && o.issued.Some? ==> o.refunded.value <= o.issued.value + REFUND_WINDOW)
  }

  function Furthest(o: Order): Stage {
    if o.refunded.Some? then Refunded
    else if o.issued.Some? then Issued
    else if o.stored.Some? then Stored
    else NoStage
  }

  /** In chronological orders the derived status is the furthest stamp set, also on ties. */
  lemma StageIsFurthest(o: Order, clock: Time)
    requires Chronological(o, clock)
    ensures StageOf(o) == Furthest(o)
  {
  }
}
