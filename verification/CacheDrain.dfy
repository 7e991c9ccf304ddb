/**
 Which cached copies have a row once all cache accesses still pending have been made, in whatever
 order they are made.
 */
module CacheDrain {
  import opened Wrappers
  import opened Sequences
  import opened Orders
  import opened OrderDb
  import opened Lifecycle
  import opened AsyncCache

  /** Rows and copies are filed under the id of their order. */
  ghost predicate Keyed(s: State) {
    && (forall id :: id in s.cache ==> s.cache[id].id == id)
    && (forall id :: id in s.db.rows ==> s.db.rows[id].order.id == id)
  }

  // ---- drains ----

  /** A run that only makes pending accesses. */
  ghost predicate Performs(s: State, es: seq<Event>)
    decreases es
  {
    es == [] || (es[0].Perform? && es[0].op in s.pending && Performs(Step(s, es[0]), es[1..]))
  }

  /** Such a run that leaves none. */
  ghost predicate Drains(s: State, es: seq<Event>) {
    Performs(s, es) && Run(s, es).pending == multiset{}
  }

  /** Some access still to be made puts the id into the cache. */
  ghost predicate Coming(s: State, id: OrderId) {
    || (exists c :: SetCopy(c) in s.pending && c.id == id)
    || (RefreshIssue(id) in s.pending && id in s.cache)
  }

  /** The pending accesses take the id out of the cache and do not put it back. */
  ghost predicate Leaves(s: State, id: OrderId) {
    !Coming(s, id) && (id in s.cache ==> DeleteKey(id) in s.pending)
  }

  lemma PerformKeyed(s: State, op: CacheOp, tick: Time)
    requires op in s.pending && forall id :: id in s.cache ==> s.cache[id].id == id
    ensures var s' := Step(s, Perform(op, tick));
      s'.db == s.db && forall id :: id in s'.cache ==> s'.cache[id].id == id
  {
  }

  lemma PerformLeaves(s: State, op: CacheOp, tick: Time, id: OrderId)
    requires Keyed(s) && op in s.pending && Leaves(s, id)
    ensures Leaves(Step(s, Perform(op, tick)), id)
  {
  }

  lemma {:induction false} LeavesInEveryDrain(s: State, es: seq<Event>, id: OrderId)
    requires Keyed(s) && Leaves(s, id) && Drains(s, es)
    ensures id !in Run(s, es).cache
    decreases es
  {
    if es != [] {
      PerformKeyed(s, es[0].op, es[0].tick);
      PerformLeaves(s, es[0].op, es[0].tick, id);
      LeavesInEveryDrain(Step(s, es[0]), es[1..], id);
    }
  }

  lemma {:induction false} StaysWithoutDelete(s: State, es: seq<Event>, id: OrderId)
    requires Performs(s, es) && id in s.cache && DeleteKey(id) !in s.pending
    ensures id in Run(s, es).cache
    decreases es
  {
    if es != [] {
      StaysWithoutDelete(Step(s, es[0]), es[1..], id);
    }
  }

  lemma {:induction false} DrainKeepsTable(s: State, es: seq<Event>)
    requires Performs(s, es)
    ensures Run(s, es).db == s.db
    decreases es
  {
    if es != [] {
      DrainKeepsTable(Step(s, es[0]), es[1..]);
    }
  }

  // ---- building drains ----

  /** A refresh may turn into one more access. */
  function Cost(ops: seq<CacheOp>): nat {
    if ops == [] then 0 else (if ops[0].RefreshIssue? then 2 else 1) + Cost(ops[1..])
  }

  /** The write that follows a refresh. */
  function Further(s: State, op: CacheOp): seq<CacheOp> {
    if op.RefreshIssue? && op.id in s.cache then [SetCopy(s.cache[op.id].(issued := Some(ZERO_TIME)))] else []
  }

  lemma PerformPending(s: State, op: CacheOp)
    requires op in s.pending
    ensures Step(s, Perform(op, ZERO_TIME)).pending == multiset(Further(s, op)) + (s.pending - multiset{op})
  {
  }

  lemma FirstReplaced(ops: seq<CacheOp>, further: seq<CacheOp>)
    requires ops != []
    ensures multiset(further + ops[1..]) == multiset(further) + (multiset(ops) - multiset{ops[0]})
  {
    WithoutCounts(ops, 0);
    assert Without(ops, 0) == ops[1..];
  }

  /** The first access of a list is made: what is left of the list. */
  lemma FirstMade(s: State, ops: seq<CacheOp>) returns (s': State, rest: seq<CacheOp>)
    requires ops != [] && multiset(ops) == s.pending
    ensures ops[0] in s.pending && s' == Step(s, Perform(ops[0], ZERO_TIME)) && s'.pending == multiset(rest)
    ensures Cost(rest) < Cost(ops)
    ensures |ops| > 1 ==> rest != [] && rest[|rest| - 1] == ops[|ops| - 1]
    ensures |ops| == 1 && ops[0].SetCopy? ==> rest == [] && ops[0].copy.id in s'.cache
  {
    assert ops[0] in ops;
    s' := Step(s, Perform(ops[0], ZERO_TIME));
    PerformPending(s, ops[0]);
    var further := Further(s, ops[0]);
    rest := further + ops[1..];
    FirstReplaced(ops, further);
    if further == [] {
      assert rest == ops[1..];
    } else {
      assert rest[1..] == ops[1..];
    }
  }

  lemma DrainFirst(s: State, op: CacheOp, rest: seq<Event>)
    requires op in s.pending && Drains(Step(s, Perform(op, ZERO_TIME)), rest)
    ensures var es := [Perform(op, ZERO_TIME)] + rest;
      Drains(s, es) && Run(s, es) == Run(Step(s, Perform(op, ZERO_TIME)), rest)
  {
    assert ([Perform(op, ZERO_TIME)] + rest)[1..] == rest;
  }

  /** Making the accesses of a list in turn, each refresh followed by its write, is a drain. */
  lemma {:induction false} DrainInOrder(s: State, ops: seq<CacheOp>) returns (es: seq<Event>)
    requires multiset(ops) == s.pending
    ensures Drains(s, es) && (ops == [] ==> es == [])
    ensures ops != [] && ops[|ops| - 1].SetCopy? ==> ops[|ops| - 1].copy.id in Run(s, es).cache
    decreases Cost(ops)
  {
    if ops == [] {
      es := [];
    } else {
      var s', left := FirstMade(s, ops);
      var rest := DrainInOrder(s', left);
      es := [Perform(ops[0], ZERO_TIME)] + rest;
      DrainFirst(s, ops[0], rest);
    }
  }

  lemma {:induction false} Listing(m: multiset<CacheOp>) returns (ops: seq<CacheOp>)
    ensures multiset(ops) == m
    decreases |m|
  {
    if m == multiset{} {
      ops := [];
    } else {
      var op :| op in m;
      var rest := Listing(m - multiset{op});
      ops := rest + [op];
    }
  }

  /** If a copy is pending, some drain writes it last. */
  lemma CopyComesLast(s: State, c: Order) returns (es: seq<Event>)
    requires SetCopy(c) in s.pending
    ensures Drains(s, es) && c.id in Run(s, es).cache
  {
    var ops := Listing(s.pending - multiset{SetCopy(c)});
    es := DrainInOrder(s, ops + [SetCopy(c)]);
  }

  /** If a copy is coming, some drain ends with it in the cache. */
  lemma ComingArrives(s: State, id: OrderId) returns (es: seq<Event>)
    requires Keyed(s) && Coming(s, id)
    ensures Drains(s, es) && id in Run(s, es).cache
  {
    if c :| SetCopy(c) in s.pending && c.id == id {
      es := CopyComesLast(s, c);
    } else {
      var refresh := Perform(RefreshIssue(id), ZERO_TIME);
      var rest := CopyComesLast(Step(s, refresh), s.cache[id].(issued := Some(ZERO_TIME)));
      es := [refresh] + rest;
      DrainFirst(s, RefreshIssue(id), rest);
    }
  }

  // ---- the exact condition ----

  /** However the pending accesses are made, the id is not cached in the end. */
  ghost predicate GoneInTheEnd(s: State, id: OrderId) {
    forall es :: Drains(s, es) ==> id !in Run(s, es).cache
  }

  lemma GoneIffLeaves(s: State, id: OrderId)
    requires Keyed(s)
    ensures GoneInTheEnd(s, id) <==> Leaves(s, id)
  {
    if Leaves(s, id) {
      forall es | Drains(s, es) ensures id !in Run(s, es).cache {
        LeavesInEveryDrain(s, es, id);
      }
    } else if Coming(s, id) {
      var es := ComingArrives(s, id);
    } else {
      var ops := Listing(s.pending);
      var es := DrainInOrder(s, ops);
      StaysWithoutDelete(s, es, id);
    }
  }

  /**
   After the delete of a return, every way of making the pending accesses ends without a copy of
   the deleted order exactly when no copy of it was coming at the delete.
   */
  lemma DeletedCopyGoesIff(s: State, d: RowDelete)
    requires Keyed(s) && d in s.doomed
    ensures d.id !in Step(s, DeleteRow(d)).db.rows
    ensures GoneInTheEnd(Step(s, DeleteRow(d)), d.id) <==> !Coming(s, d.id)
  {
    var s' := Step(s, DeleteRow(d));
    assert DeleteKey(d.id) in s'.pending;
    assert forall op: CacheOp :: !op.DeleteKey? ==> (op in s'.pending <==> op in s.pending);
    GoneIffLeaves(s', d.id);
  }

  /** However the pending accesses are made, every cached order has a row in the end. */
  ghost predicate RowsInTheEnd(s: State) {
    forall es, id :: Drains(s, es) && id in Run(s, es).cache ==> id in Run(s, es).db.rows
  }

  ghost predicate RowlessLeave(s: State) {
    forall id :: id !in s.db.rows ==> Leaves(s, id)
  }

  lemma RowsIffRowlessLeave(s: State)
    requires Keyed(s)
    ensures RowsInTheEnd(s) <==> RowlessLeave(s)
  {
    forall id ensures GoneInTheEnd(s, id) <==> Leaves(s, id) {
      GoneIffLeaves(s, id);
    }
    forall es | Drains(s, es) ensures Run(s, es).db == s.db {
      DrainKeepsTable(s, es);
    }
    if RowsInTheEnd(s) {
      forall id | id !in s.db.rows ensures Leaves(s, id) {
        assert GoneInTheEnd(s, id);
      }
    } else {
      var es, id :| Drains(s, es) && id in Run(s, es).cache && id !in Run(s, es).db.rows;
      assert !GoneInTheEnd(s, id);
    }
  }

  // ---- over whole runs ----

  /** A delete finds no copy of its order coming; the last pending delete of a rowless key is not lost. */
  ghost predicate Quiet(s: State, e: Event) {
    match e
    case DeleteRow(d) => d in s.doomed ==> !Coming(s, d.id)
    case Lose(op) => op.DeleteKey? && op.id in s.cache && op.id !in s.db.rows ==> s.pending[op] != 1
    case _ => true
  }

  lemma CommitKeyed(s: State, w: Write)
    requires Keyed(s)
    ensures Keyed(Step(s, Commit(w)))
  {
    if !w.Return? {
      forall id | id in s.db.rows ensures id in Apply(s.db, w).rows && Apply(s.db, w).rows[id].order.id == id {
        RowStaysAtCommit(s.db, w, id);
      }
      if w.Batch? {
        BatchStamps(w.kind, s.db, w.user, w.ids, w.at);
      }
    }
  }

  lemma StepKeyed(s: State, e: Event)
    requires Keyed(s)
    ensures Keyed(Step(s, e))
  {
    match e
    case Commit(w) => CommitKeyed(s, w);
    case Perform(op, tick) => if op in s.pending { PerformKeyed(s, op, tick); }
    case _ =>
  }

  function Target(op: CacheOp): OrderId {
    if op.SetCopy? then op.copy.id else op.id
  }

  /** The accesses a commit adds, but for deletes, are for orders that have a row. */
  lemma NewOpsHaveRows(db: Db, w: Write, op: CacheOp)
    requires op in OpsOf(db, w) && !op.DeleteKey?
    ensures Target(op) in Apply(db, w).rows
  {
    if w.Batch? && w.kind == Issue {
      RefreshesAre(Processed(db, w), op);
      ProcessedValid(db.rows, Issue, w.user, w.ids, w.at, op.id);
    } else if w.Batch? {
      DeletesAre(Processed(db, w), op);
    }
  }

  /** More rows and more accesses for orders that have one change nothing for the others. */
  lemma LeavesWithMore(s: State, s': State)
    requires RowlessLeave(s) && s'.cache == s.cache && s.db.rows.Keys <= s'.db.rows.Keys && s.pending <= s'.pending
    requires forall op :: op in s'.pending && op !in s.pending ==> op.DeleteKey? || Target(op) in s'.db.rows
    ensures RowlessLeave(s')
  {
    forall id | id !in s'.db.rows ensures Leaves(s', id) {
      assert Leaves(s, id);
      forall c | SetCopy(c) in s'.pending ensures c.id != id {
        assert Target(SetCopy(c)) == c.id;
      }
      assert Target(RefreshIssue(id)) == id;
    }
  }

  lemma CommitLeaves(s: State, w: Write)
    requires RowlessLeave(s)
    ensures RowlessLeave(Step(s, Commit(w)))
  {
    if !w.Return? {
      var s' := Step(s, Commit(w));
      forall id | id in s.db.rows ensures id in s'.db.rows {
        RowStaysAtCommit(s.db, w, id);
      }
      forall op | op in s'.pending && op !in s.pending ensures op.DeleteKey? || Target(op) in s'.db.rows {
        if !op.DeleteKey? {
          NewOpsHaveRows(s.db, w, op);
        }
      }
      LeavesWithMore(s, s');
    }
  }

  lemma PerformRowlessLeave(s: State, op: CacheOp, tick: Time)
    requires Keyed(s) && RowlessLeave(s) && op in s.pending
    ensures RowlessLeave(Step(s, Perform(op, tick)))
  {
    var s' := Step(s, Perform(op, tick));
    PerformKeyed(s, op, tick);
    forall id | id !in s'.db.rows ensures Leaves(s', id) {
      PerformLeaves(s, op, tick, id);
    }
  }

  lemma DeleteLeavesIff(s: State, d: RowDelete)
    requires RowlessLeave(s) && d in s.doomed
    ensures RowlessLeave(Step(s, DeleteRow(d))) <==> !Coming(s, d.id)
  {
    var s' := Step(s, DeleteRow(d));
    assert DeleteKey(d.id) in s'.pending;
    assert forall op: CacheOp :: !op.DeleteKey? ==> (op in s'.pending <==> op in s.pending);
    forall id ensures Coming(s', id) <==> Coming(s, id) {
    }
    if !Coming(s, d.id) {
      forall id | id !in s'.db.rows ensures Leaves(s', id) {
        assert id != d.id ==> Leaves(s, id);
      }
    } else {
      assert !Leaves(s', d.id);
    }
  }

  lemma LoseLeavesIff(s: State, op: CacheOp)
    requires RowlessLeave(s)
    ensures RowlessLeave(Step(s, Lose(op))) <==> Quiet(s, Lose(op))
  {
    var s' := Step(s, Lose(op));
    assert forall o :: o in s'.pending ==> o in s.pending;
    forall id | id !in s'.db.rows ensures !Coming(s', id) && (op != DeleteKey(id) ==> Leaves(s', id)) {
      assert Leaves(s, id);
      assert op != DeleteKey(id) && DeleteKey(id) in s.pending ==> DeleteKey(id) in s'.pending;
    }
    if op.DeleteKey? && op.id !in s.db.rows {
      assert Leaves(s, op.id);
      assert Leaves(s', op.id) <==> Quiet(s, Lose(op));
    }
  }

  /** Checks, dropped deletes and reads add at most an access for an order that has a row. */
  lemma OtherLeaves(s: State, e: Event)
    requires Keyed(s) && RowlessLeave(s) && (e.CheckReturn? || e.DropDelete? || e.ReadRow?)
    ensures RowlessLeave(Step(s, e))
  {
    LeavesWithMore(s, Step(s, e));
  }

  lemma StepLeavesIff(s: State, e: Event)
    requires Keyed(s) && RowlessLeave(s)
    ensures RowlessLeave(Step(s, e)) <==> Quiet(s, e)
  {
    match e
    case Commit(w) => CommitLeaves(s, w);
    case DeleteRow(d) =>
      if d in s.doomed {
        DeleteLeavesIff(s, d);
      }
    case Perform(op, tick) =>
      if op in s.pending {
        PerformRowlessLeave(s, op, tick);
      }
    case Lose(op) => LoseLeavesIff(s, op);
    case Expire(id) => ExpireLeaves(s, id);
    case _ => OtherLeaves(s, e);
  }

  lemma ExpireLeaves(s: State, id: OrderId)
    requires RowlessLeave(s)
    ensures RowlessLeave(Step(s, Expire(id)))
  {
    var s' := Step(s, Expire(id));
    forall k | k !in s'.db.rows ensures Leaves(s', k) {
      assert Leaves(s, k);
    }
  }

  ghost predicate QuietRun(s: State, es: seq<Event>)
    decreases es
  {
    es == [] || (Quiet(s, es[0]) && QuietRun(Step(s, es[0]), es[1..]))
  }

  /** At every moment of the run the pending accesses can only end with a row for every cached order. */
  ghost predicate RowsThroughout(s: State, es: seq<Event>)
    decreases es
  {
    RowsInTheEnd(s) && (es == [] || RowsThroughout(Step(s, es[0]), es[1..]))
  }

  /**
   Eventual coherence in the asynchronous machine: throughout a run, however the accesses pending at
   that moment are made, every order left in the cache has a row - exactly when every delete finds
   no copy of its order coming, and no delete of a cached key without a row is lost.
   */
  lemma {:induction false} RowsThroughoutIffQuiet(s: State, es: seq<Event>)
    requires Keyed(s) && RowlessLeave(s)
    ensures RowsThroughout(s, es) <==> QuietRun(s, es)
    decreases es
  {
    RowsIffRowlessLeave(s);
    if es != [] {
      var s' := Step(s, es[0]);
      StepKeyed(s, es[0]);
      StepLeavesIff(s, es[0]);
      if Quiet(s, es[0]) {
        RowsThroughoutIffQuiet(s', es[1..]);
      } else {
        RowsIffRowlessLeave(s');
      }
    }
  }

  lemma RowsThroughoutFromEmpty(es: seq<Event>)
    ensures RowsThroughout(START, es) <==> QuietRun(START, es)
  {
    RowsThroughoutIffQuiet(START, es);
  }
}
