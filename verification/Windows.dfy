/**
 Three descriptions of the same windows: the SQL predicate of active orders
 (internal/storage/postgres/reportorderstorage/storage.go), the validators of issue and refund,
 and the expiration of cache entries (internal/cache/cache.go).
 */
module Windows {
  import opened Wrappers
  import opened Orders
  import opened OrderDb
  import Packaging

  /** The WHERE clause of the active-order queries. */
  predicate Active(o: Order, now: Time) {
    || (o.stored.Some? && o.issued.None? && o.refunded.None? && o.expiry > now)
    || (o.issued.Some? && o.refunded.None? && o.issued.value >= now - REFUND_WINDOW)
  }

  /** The recipient could have the order issued or refunded at this instant. */
  predicate Actionable(o: Order, now: Time) {
    Validate(Issue, o, o.recipient, now).None? || Validate(Refund, o, o.recipient, now).None?
  }

  /** The SQL predicate is exactly what the validators allow, but for the instant of expiry. */
  lemma WindowAgreement(o: Order, clock: Time, now: Time)
    requires Chronological(o, clock) && clock <= now
    ensures Actionable(o, now) <==> Active(o, now) || (StageOf(o) == Stored && now == o.expiry)
  {
  }

  /** The guard of accept is the guard of issue: a new order is taken in exactly while it could be handed out. */
  lemma AcceptedWhileIssuable(db: Db, req: Request, now: Time)
    requires ZERO_TIME < now && req.id !in db.rows
    requires Packaging.Acceptable(Packaging.KindsOf(req.packaging))
    requires Packaging.WeightOk(Packaging.KindsOf(req.packaging), req.weight)
    ensures JudgeAccept(db, req, now).Accepted? <==> Validate(Issue, NewOrder(req, now), req.recipient, now).None?
  {
  }

  /** calculateOrderTTL. */
  function OrderTtl(o: Order, now: Time): int {
    if o.refunded.Some? then 0
    else if o.issued.Some? then o.issued.value + REFUND_WINDOW - now
    else if o.stored.Some? then o.expiry - now
    else 24 * HOUR
  }

  /** When Redis drops an entry set at `now`; a duration that is not positive sets no expiration. */
  function DropsAt(o: Order, now: Time): Option<Time> {
    if OrderTtl(o, now) > 0 then Some(now + OrderTtl(o, now)) else None
  }

  /**
   An order cached while active is dropped at the instant around which the SQL predicate turns
   false. Only one cached at the last instant of its refund window gets no deadline at all.
   */
  lemma DeadlineIsEndOfWindow(o: Order, clock: Time, cachedAt: Time, later: Time)
    requires Chronological(o, clock) && clock <= cachedAt && Active(o, cachedAt)
    ensures DropsAt(o, cachedAt).None? <==> StageOf(o) == Issued && cachedAt == o.issued.value + REFUND_WINDOW
    ensures DropsAt(o, cachedAt).Some? ==>
      && (later < DropsAt(o, cachedAt).value ==> Active(o, later))
      && (later > DropsAt(o, cachedAt).value ==> !Active(o, later))
  {
  }

  /** An order cached when no longer active is never dropped by its deadline. */
  lemma InactiveHasNoDeadline(o: Order, clock: Time, cachedAt: Time)
    requires Chronological(o, clock) && clock <= cachedAt && !Active(o, cachedAt)
    ensures DropsAt(o, cachedAt).None?
  {
  }

  /** An order without any stamp is kept for a day. */
  lemma UnstampedKeptADay(o: Order, cachedAt: Time)
    requires o.stored.None? && o.issued.None? && o.refunded.None?
    ensures DropsAt(o, cachedAt) == Some(cachedAt + 24 * 3_600_000_000)
  {
  }
}
