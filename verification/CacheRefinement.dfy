/**
 The asynchronous machine allows what the serial service does: a call whose table operation and
 cache accesses follow one another at once ends in the same tables and the same order keys.
 */
module CacheRefinement {
  import opened Wrappers
  import opened Orders
  import opened OrderDb
  import opened Lifecycle
  import opened AsyncCache
  import CachedOrders

  /** The asynchronous state between two calls: nothing pending. */
  predicate Settled(s: State, w: CachedOrders.World) {
    s.db == w.db && s.cache == w.cache.orders && s.pending == multiset{} && s.doomed == multiset{}
  }

  /** The run leads from s to the tables and keys of w, with nothing pending. */
  ghost predicate Reaches(s: State, es: seq<Event>, w: CachedOrders.World) {
    Settled(Run(s, es), w)
  }

  // ---- the accesses of a batch, one after the other ----

  lemma RefreshFirst(ids: seq<OrderId>)
    requires ids != []
    ensures RefreshIssue(ids[0]) in Refreshes(ids)
    ensures Refreshes(ids) - multiset{RefreshIssue(ids[0])} == Refreshes(ids[1..])
  {
  }

  lemma DeleteFirst(ids: seq<OrderId>)
    requires ids != []
    ensures DeleteKey(ids[0]) in Deletes(ids)
    ensures Deletes(ids) - multiset{DeleteKey(ids[0])} == Deletes(ids[1..])
  {
  }

  /** One order re-read and, if it is cached, written back with its reading. */
  lemma RefreshOne(s: State, id: OrderId, rest: multiset<CacheOp>, tick: Time) returns (es: seq<Event>, s': State)
    requires s.pending == multiset{RefreshIssue(id)} + rest
    ensures s' == Run(s, es) && s' == s.(cache := s'.cache, pending := rest)
    ensures s'.cache == if id in s.cache
      then s.cache[s.cache[id].id := s.cache[id].(issued := Some(tick))] else s.cache
  {
    var read := Perform(RefreshIssue(id), tick);
    var s1 := Step(s, read);
    if id in s.cache {
      var copy := s.cache[id].(issued := Some(tick));
      var put := Perform(SetCopy(copy), tick);
      assert s1.pending == rest + multiset{SetCopy(copy)};
      es := [read] + ([put] + []);
      RunFirst(s, read, [put] + []);
      RunFirst(s1, put, []);
      s' := Step(s1, put);
    } else {
      es := [read] + [];
      RunFirst(s, read, []);
      s' := s1;
    }
  }

  lemma {:induction false} RefreshAll(s: State, ids: seq<OrderId>, ticks: seq<Time>) returns (es: seq<Event>)
    requires |ids| <= |ticks| && s.pending == Refreshes(ids)
    ensures Run(s, es) == s.(cache := CachedOrders.RefreshIssued(s.cache, ids, ticks), pending := multiset{})
    decreases ids
  {
    if ids == [] {
      es := [];
    } else {
      RefreshFirst(ids);
      var first, s1 := RefreshOne(s, ids[0], Refreshes(ids[1..]), ticks[0]);
      var rest := RefreshAll(s1, ids[1..], ticks[1..]);
      es := first + rest;
      RunAppend(s, first, rest);
    }
  }

  lemma DeleteOne(s: State, ids: seq<OrderId>, tick: Time)
    requires ids != [] && s.pending == Deletes(ids)
    ensures Step(s, Perform(DeleteKey(ids[0]), tick)) == s.(cache := s.cache - {ids[0]}, pending := Deletes(ids[1..]))
  {
    DeleteFirst(ids);
  }

  lemma WithoutElements(cache: map<OrderId, Order>, ids: seq<OrderId>)
    requires ids != []
    ensures cache - {ids[0]} - CachedOrders.Elements(ids[1..]) == cache - CachedOrders.Elements(ids)
  {
    assert CachedOrders.Elements(ids) == {ids[0]} + CachedOrders.Elements(ids[1..]);
  }

  lemma {:induction false} DeleteAll(s: State, ids: seq<OrderId>, tick: Time) returns (es: seq<Event>)
    requires s.pending == Deletes(ids)
    ensures Run(s, es) == s.(cache := s.cache - CachedOrders.Elements(ids), pending := multiset{})
    decreases ids
  {
    if ids == [] {
      es := [];
    } else {
      DeleteOne(s, ids, tick);
      var drop := Perform(DeleteKey(ids[0]), tick);
      var rest := DeleteAll(Step(s, drop), ids[1..], tick);
      es := [drop] + rest;
      RunFirst(s, drop, rest);
      WithoutElements(s.cache, ids);
    }
  }

  // ---- calls ----

  lemma AcceptRun(s: State, w: CachedOrders.World, write: Write) returns (es: seq<Event>)
    requires Settled(s, w) && write.Accept?
    ensures Reaches(s, es, CachedOrders.Step(w, CachedOrders.Call(write, [])))
  {
    var s1 := Step(s, Commit(write));
    if JudgeAccept(w.db, write.req, write.checkedAt).Accepted? {
      var put := Perform(SetCopy(NewOrder(write.req, write.handlerAt)), write.storedAt);
      assert s1.pending == multiset{SetCopy(NewOrder(write.req, write.handlerAt))};
      es := [Commit(write)] + ([put] + []);
      RunFirst(s, Commit(write), [put] + []);
      RunFirst(s1, put, []);
    } else {
      es := [Commit(write)] + [];
      RunFirst(s, Commit(write), []);
    }
  }

  lemma ReturnRun(s: State, w: CachedOrders.World, id: OrderId, at: Time) returns (es: seq<Event>)
    requires Settled(s, w)
    ensures Reaches(s, es, CachedOrders.Step(w, CachedOrders.Call(Return(id, at), [])))
  {
    var check := CheckReturn(id, at);
    var s1 := Step(s, check);
    if JudgeReturn(w.db, id, at).Returned? {
      var d := RowDelete(id, s.db.rows[id].serial, at);
      var drop := Perform(DeleteKey(id), at);
      assert s1.doomed == multiset{d};
      var s2 := Step(s1, DeleteRow(d));
      assert s2.pending == multiset{DeleteKey(id)};
      es := [check] + ([DeleteRow(d)] + ([drop] + []));
      RunFirst(s, check, [DeleteRow(d)] + ([drop] + []));
      RunFirst(s1, DeleteRow(d), [drop] + []);
      RunFirst(s2, drop, []);
    } else {
      es := [check] + [];
      RunFirst(s, check, []);
    }
  }

  lemma BatchRun(s: State, w: CachedOrders.World, write: Write, ticks: seq<Time>) returns (es: seq<Event>)
    requires Settled(s, w) && write.Batch? && |write.ids| <= |ticks|
    ensures Reaches(s, es, CachedOrders.Step(w, CachedOrders.Call(write, ticks)))
  {
    var s1 := Step(s, Commit(write));
    var processed := Processed(w.db, write);
    var rest;
    if write.kind == Issue {
      assert s1.pending == Refreshes(processed);
      rest := RefreshAll(s1, processed, ticks);
    } else {
      assert s1.pending == Deletes(processed);
      rest := DeleteAll(s1, processed, write.at);
    }
    es := [Commit(write)] + rest;
    RunFirst(s, Commit(write), rest);
  }

  /** Every serial call is a run of the asynchronous machine, to the same tables and order keys. */
  lemma CallIsAsyncRun(s: State, w: CachedOrders.World, write: Write, ticks: seq<Time>) returns (es: seq<Event>)
    requires Settled(s, w) && (if write.Batch? then |write.ids| <= |ticks| else ticks == [])
    ensures Reaches(s, es, CachedOrders.Step(w, CachedOrders.Call(write, ticks)))
  {
    match write
    case Accept(_, _, _, _) => es := AcceptRun(s, w, write);
    case Return(id, at) => es := ReturnRun(s, w, id, at);
    case Batch(_, _, _, _) => es := BatchRun(s, w, write, ticks);
  }
}
