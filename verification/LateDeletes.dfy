/** What a late delete of a return does to the cached copies, and what late copies do to coherence. */
module LateDeletes {
  import opened Wrappers
  import opened Orders
  import opened OrderDb
  import opened Lifecycle
  import opened Batches
  import opened PackagingTable
  import opened ReturnGuard
  import opened AsyncCache

  lemma RunCons(s: State, e: Event, rest: seq<Event>)
    ensures Run(s, [e] + rest) == Run(Step(s, e), rest)
    ensures forall clock ::
      Orderly(clock, [e] + rest) <==> OrderlyEvent(clock, e) && Orderly(ClockAfter(clock, e), rest)
    ensures CleanDeletes(s, [e] + rest) <==> (Sound(s, e) || !e.DeleteRow?) && CleanDeletes(Step(s, e), rest)
  {
    assert ([e] + rest)[1..] == rest;
  }

  predicate NoDeletes(es: seq<Event>) {
    forall i :: 0 <= i < |es| ==> !es[i].DeleteRow?
  }

  predicate Spares(es: seq<Event>, id: OrderId) {
    forall i :: 0 <= i < |es| && es[i].DeleteRow? ==> es[i].delete.id != id
  }

  /** Without a delete of its id a row stays, with its serial and expiry. */
  lemma {:induction false} RowStays(s: State, es: seq<Event>, id: OrderId)
    requires Spares(es, id) && id in s.db.rows
    ensures var db' := Run(s, es).db;
      && id in db'.rows && db'.rows[id].serial == s.db.rows[id].serial
      && db'.rows[id].order.expiry == s.db.rows[id].order.expiry
    decreases es
  {
    if es != [] {
      if es[0].Commit? && !es[0].write.Return? {
        RowStaysAtCommit(s.db, es[0].write, id);
      }
      RowStays(Step(s, es[0]), es[1..], id);
    }
  }

  lemma {:induction false} NoDeletesIsClean(s: State, es: seq<Event>)
    requires NoDeletes(es)
    ensures CleanDeletes(s, es)
    decreases es
  {
    if es != [] {
      NoDeletesIsClean(Step(s, es[0]), es[1..]);
    }
  }

  /** However late this delete comes, with clean deletes of other ids in between, the copies stay true. */
  ghost predicate LateDeleteSafe(s: State, d: RowDelete) {
    forall es :: Orderly(s.clock, es) && CleanDeletes(s, es) && Spares(es, d.id) ==>
      CopiesTrue(Step(Run(s, es), DeleteRow(d)))
  }

  /** The order is issued, then a read caches its row. */
  function IssueAndRead(o: Order, at: Time): seq<Event> {
    [Commit(Batch(Issue, o.recipient, [o.id], at))] +
    ([ReadRow(o.id)] + ([Perform(SetCopy(Stamp(Issue, o, at)), at)] + []))
  }

  lemma IssueCommits(s: State, id: OrderId, at: Time) returns (s': State)
    requires id in s.db.rows && s.db.rows[id].order.id == id
    requires Validate(Issue, s.db.rows[id].order, s.db.rows[id].order.recipient, at).None?
    ensures var w := Batch(Issue, s.db.rows[id].order.recipient, [id], at);
      && Processed(s.db, w) == [id] && s' == Step(s, Commit(w))
      && id in s'.db.rows && s'.db.rows[id].order == Stamp(Issue, s.db.rows[id].order, at) && s'.doomed == s.doomed
  {
    OneOrderBatch(Issue, s.db, id, s.db.rows[id].order.recipient, at);
    s' := Step(s, Commit(Batch(Issue, s.db.rows[id].order.recipient, [id], at)));
  }

  lemma ReadIsCached(s: State, id: OrderId, at: Time, clock: Time)
    requires id in s.db.rows && s.db.rows[id].order.id == id
    ensures var es := [ReadRow(id)] + ([Perform(SetCopy(s.db.rows[id].order), at)] + []);
      && Orderly(clock, es)
      && var s' := Run(s, es); s'.doomed == s.doomed && id in s'.cache && s'.cache[id] == s.db.rows[id].order
  {
    var put := Perform(SetCopy(s.db.rows[id].order), at);
    var s1 := Step(s, ReadRow(id));
    assert SetCopy(s.db.rows[id].order) in s1.pending;
    RunCons(s, ReadRow(id), [put] + []);
    RunCons(s1, put, []);
  }

  lemma IssueIsCached(s: State, id: OrderId, at: Time)
    requires Safe(s) && ZERO_TIME < at && ZERO_TIME <= s.clock && id in s.db.rows
    requires Validate(Issue, s.db.rows[id].order, s.db.rows[id].order.recipient, at).None?
    ensures var o := s.db.rows[id].order;
      var es := IssueAndRead(o, at);
      && (s.clock <= at ==> Orderly(s.clock, es)) && NoDeletes(es)
      && Processed(s.db, es[0].write) == [id]
      && var s' := Run(s, es);
         s'.doomed == s.doomed && id in s'.cache && s'.cache[id] == Stamp(Issue, o, at)
  {
    var o := s.db.rows[id].order;
    assert o.id == id by {
      assert RowOk(s.db, id, s.clock);
    }
    var s1 := IssueCommits(s, id, at);
    ReadIsCached(s1, id, at, at);
    RunCons(s, Commit(Batch(Issue, o.recipient, [id], at)),
            [ReadRow(id)] + ([Perform(SetCopy(Stamp(Issue, o, at)), at)] + []));
  }

  /** With an issued copy cached, removing the row makes the copy untrue. */
  lemma DeleteBreaksCopy(s: State, d: RowDelete)
    requires d in s.doomed && d.id in s.cache && s.cache[d.id].id == d.id && s.cache[d.id].issued.Some?
    ensures !CopiesTrue(Step(s, DeleteRow(d)))
  {
    assert !NoInventedStamps(Step(s, DeleteRow(d)).db.rows, Step(s, DeleteRow(d)).cache[d.id]);
  }

  lemma StrictlyPastStaysSafe(s: State, d: RowDelete, es: seq<Event>)
    requires Safe(s) && d in s.doomed && d.id in s.db.rows && CleanDelete(s.db, d)
    requires Orderly(s.clock, es) && CleanDeletes(s, es) && Spares(es, d.id)
    ensures CopiesTrue(Step(Run(s, es), DeleteRow(d)))
  {
    OrderlyIsSound(s, es);
    AsyncSafety(s, es);
    RowStays(s, es, d.id);
    assert CleanDelete(Run(s, es).db, d);
    SafeIsTrue(Step(Run(s, es), DeleteRow(d))) by {
      DeleteRowSafe(Run(s, es), d);
    }
  }

  lemma SafeIsTrue(s: State)
    requires Safe(s)
    ensures CopiesTrue(s)
  {
  }

  /** A passed check leaves its delete pending and changes nothing else. */
  lemma Checked(s: State, id: OrderId, at: Time)
    requires Safe(s) && s.clock <= at && JudgeReturn(s.db, id, at).Returned?
    ensures var d := RowDelete(id, s.db.rows[id].serial, at);
      var checked := Step(s, CheckReturn(id, at));
      && checked == s.(clock := at, doomed := s.doomed + multiset{d}) && d in checked.doomed
      && Safe(checked) && s.db.rows[id].order.id == id
  {
    CheckSafe(s, id, at);
    assert RowOk(s.db, id, s.clock);
  }

  lemma StillIssuable(db: Db, clock: Time, id: OrderId)
    requires DbOk(db, clock) && JudgeReturn(db, id, clock).Returned? && db.rows[id].order.expiry >= clock
    ensures Validate(Issue, db.rows[id].order, db.rows[id].order.recipient, clock).None?
  {
  }

  /**
   After a passed check, the delete may come at any later moment, clean deletes of other orders in
   between, without making a copy untrue exactly when the check was strictly after the expiry.
   */
  lemma LateDeleteSafeIffStrictlyPast(s: State, id: OrderId)
    requires Safe(s) && ZERO_TIME < s.clock && JudgeReturn(s.db, id, s.clock).Returned?
    ensures LateDeleteSafe(Step(s, CheckReturn(id, s.clock)), RowDelete(id, s.db.rows[id].serial, s.clock))
       <==> s.db.rows[id].order.expiry < s.clock
  {
    var d := RowDelete(id, s.db.rows[id].serial, s.clock);
    var checked := Step(s, CheckReturn(id, s.clock));
    Checked(s, id, s.clock);
    if s.db.rows[id].order.expiry < s.clock {
      forall es | Orderly(checked.clock, es) && CleanDeletes(checked, es) && Spares(es, id)
        ensures CopiesTrue(Step(Run(checked, es), DeleteRow(d)))
      {
        StrictlyPastStaysSafe(checked, d, es);
      }
    } else {
      StillIssuable(s.db, s.clock, id);
      var es := IssueAndRead(s.db.rows[id].order, s.clock);
      IssueIsCached(checked, id, s.clock);
      NoDeletesIsClean(checked, es);
      assert Spares(es, id);
      DeleteBreaksCopy(Run(checked, es), d);
    }
  }

  /**
   Nor may an issue carry a reading from before the check: the recipient's issue read the clock
   before the expiry and commits between a check past the expiry and its delete. The delete then
   finds the row it checked, and removes an issued order.
   */
  lemma EarlierReadingBreaksCopies(s: State, id: OrderId, at: Time, now: Time)
    requires Safe(s) && ZERO_TIME <= s.clock <= now && JudgeReturn(s.db, id, now).Returned?
    requires Coalesce(s.db.rows[id].order.stored) <= at <= s.db.rows[id].order.expiry < now
    ensures var o, d := s.db.rows[id].order, RowDelete(id, s.db.rows[id].serial, now);
      var checked := Step(s, CheckReturn(id, now));
      var issued := Run(checked, IssueAndRead(o, at));
      && FreshWrite(checked.db, IssueAndRead(o, at)[0].write) && !AfterChecks(checked, IssueAndRead(o, at)[0].write)
      && CleanDelete(issued.db, d) && d in issued.doomed
      && !CopiesTrue(Step(issued, DeleteRow(d)))
  {
    var o, d := s.db.rows[id].order, RowDelete(id, s.db.rows[id].serial, now);
    var checked := Step(s, CheckReturn(id, now));
    var es := IssueAndRead(o, at);
    Checked(s, id, now);
    assert RowOk(s.db, id, s.clock);
    IssueIsCached(checked, id, at);
    RowStays(checked, es, id);
    DeleteBreaksCopy(Run(checked, es), d);
    assert id in Processed(checked.db, es[0].write);
  }

  lemma {:induction false} CleanAppend(s: State, a: seq<Event>, b: seq<Event>)
    requires CleanDeletes(s, a) && CleanDeletes(Run(s, a), b)
    ensures CleanDeletes(s, a + b)
    decreases a
  {
    if a == [] {
      assert a + b == b;
    } else {
      assert (a + b)[1..] == a[1..] + b;
      CleanAppend(Step(s, a[0]), a[1..], b);
    }
  }

  lemma {:induction false} OrderlyAppend(s: State, a: seq<Event>, b: seq<Event>)
    requires Orderly(s.clock, a) && Orderly(Run(s, a).clock, b)
    ensures Orderly(s.clock, a + b)
    decreases a
  {
    if a == [] {
      assert a + b == b;
    } else {
      assert (a + b)[1..] == a[1..] + b;
      assert Step(s, a[0]).clock == ClockAfter(s.clock, a[0]);
      OrderlyAppend(Step(s, a[0]), a[1..], b);
    }
  }

  /** Two returns of the same row pass their check; the first deletes it and the id is accepted again. */
  function TwiceChecked(o: Order, d: RowDelete): seq<Event> {
    var c := CheckReturn(d.id, d.checkedAt);
    [c] + ([c] + ([DeleteRow(d)] + ([Commit(Interloper(o, d.checkedAt)[1])] + [])))
  }

  lemma ReacceptStep(s: State, db: Db, o: Order) returns (s': State)
    requires Safe(s) && ZERO_TIME < s.clock && PackedOk(db, o) && s.db == db.(rows := db.rows - {o.id})
    ensures var commit := Commit(Interloper(o, s.clock)[1]);
      && s' == Step(s, commit) && OrderlyEvent(s.clock, commit)
      && Safe(s') && s'.clock == s.clock && s'.doomed == s.doomed
      && o.id in s'.db.rows && s'.db.rows[o.id].order.recipient == o.recipient
      && Validate(Issue, s'.db.rows[o.id].order, o.recipient, s.clock).None?
  {
    var w := Interloper(o, s.clock)[1];
    var db2 := Reaccepted(db, s.db, s.clock, o);
    assert Timely(s.clock, w);
    TimelyIsFresh(s.db, s.clock, w);
    CommitSafe(s, w);
    s' := Step(s, Commit(w));
  }

  lemma RunFour(s: State, a: Event, b: Event, c: Event, d: Event)
    ensures Run(s, [a] + ([b] + ([c] + ([d] + [])))) == Step(Step(Step(Step(s, a), b), c), d)
  {
    RunCons(s, a, [b] + ([c] + ([d] + [])));
    RunCons(Step(s, a), b, [c] + ([d] + []));
    RunCons(Step(Step(s, a), b), c, [d] + []);
    RunCons(Step(Step(Step(s, a), b), c), d, []);
  }

  lemma TwiceCheckedOrderly(o: Order, d: RowDelete)
    requires ZERO_TIME < d.checkedAt && OrderlyEvent(d.checkedAt, Commit(Interloper(o, d.checkedAt)[1]))
    ensures Orderly(d.checkedAt, TwiceChecked(o, d))
  {
    var es := TwiceChecked(o, d);
    assert es[3..][1..] == [] && es[2..][1..] == es[3..] && es[1..][1..] == es[2..];
    assert Orderly(d.checkedAt, es[3..]);
    assert Orderly(d.checkedAt, es[2..]);
    assert Orderly(d.checkedAt, es[1..]);
  }

  lemma TwiceCheckedClean(s: State, o: Order, d: RowDelete)
    requires CleanDelete(s.db, d)
    ensures CleanDeletes(s, TwiceChecked(o, d))
  {
    var c, w := CheckReturn(d.id, d.checkedAt), Commit(Interloper(o, d.checkedAt)[1]);
    var s1 := Step(s, c);
    var s2 := Step(s1, c);
    assert s2.db == s.db;
    RunCons(Step(s2, DeleteRow(d)), w, []);
    RunCons(s2, DeleteRow(d), [w] + []);
    RunCons(s1, c, [DeleteRow(d)] + ([w] + []));
    RunCons(s, c, [c] + ([DeleteRow(d)] + ([w] + [])));
  }

  /** Two passed checks, one delete: the row is gone and the other delete still pending. */
  lemma DeletedOnce(s: State, d: RowDelete)
    requires Safe(s) && JudgeReturn(s.db, d.id, s.clock).Returned? && CleanDelete(s.db, d)
    requires d == RowDelete(d.id, s.db.rows[d.id].serial, s.clock)
    ensures var c := CheckReturn(d.id, s.clock);
      var s3 := Step(Step(Step(s, c), c), DeleteRow(d));
      Safe(s3) && s3.clock == s.clock && s3.db == s.db.(rows := s.db.rows - {d.id}) && d in s3.doomed
  {
    var s1 := Step(s, CheckReturn(d.id, s.clock));
    Checked(s, d.id, s.clock);
    var s2 := Step(s1, CheckReturn(d.id, s.clock));
    Checked(s1, d.id, s.clock);
    assert s2.doomed[d] >= 2;
    DeleteRowSafe(s2, d);
  }

  lemma ReacceptedWithDeletePending(s: State, id: OrderId) returns (s': State)
    requires Safe(s) && PackagingOk(s.db) && ZERO_TIME < s.clock && JudgeReturn(s.db, id, s.clock).Returned?
    requires s.db.rows[id].order.expiry < s.clock
    ensures var d := RowDelete(id, s.db.rows[id].serial, s.clock);
      && s' == Run(s, TwiceChecked(s.db.rows[id].order, d)) && Orderly(s.clock, TwiceChecked(s.db.rows[id].order, d))
      && CleanDeletes(s, TwiceChecked(s.db.rows[id].order, d))
      && Safe(s') && s'.clock == s.clock && d in s'.doomed && id in s'.db.rows
      && Validate(Issue, s'.db.rows[id].order, s'.db.rows[id].order.recipient, s.clock).None?
  {
    var o, d := s.db.rows[id].order, RowDelete(id, s.db.rows[id].serial, s.clock);
    Checked(s, id, s.clock);
    DeletedOnce(s, d);
    var c := CheckReturn(id, s.clock);
    s' := ReacceptStep(Step(Step(Step(s, c), c), DeleteRow(d)), s.db, o);
    RunFour(s, c, c, DeleteRow(d), Commit(Interloper(o, s.clock)[1]));
    TwiceCheckedOrderly(o, d);
    TwiceCheckedClean(s, o, d);
  }

  /**
   Strictly past the expiry is not enough when the id changes hands: from every state with a
   returnable order there is a run, all its deletes clean, after which the second of two returns,
   checked strictly after the expiry, deletes the issued row that took the id.
   */
  lemma OtherRowsDeleteBreaksCopies(s: State, id: OrderId)
    requires Safe(s) && PackagingOk(s.db) && ZERO_TIME < s.clock && JudgeReturn(s.db, id, s.clock).Returned?
    requires s.db.rows[id].order.expiry < s.clock
    ensures exists es :: Orderly(s.clock, es) && CleanDeletes(s, es)
              && !CopiesTrue(Step(Run(s, es), DeleteRow(RowDelete(id, s.db.rows[id].serial, s.clock))))
  {
    var d := RowDelete(id, s.db.rows[id].serial, s.clock);
    var s' := ReacceptedWithDeletePending(s, id);
    var a, b := TwiceChecked(s.db.rows[id].order, d), IssueAndRead(s'.db.rows[id].order, s.clock);
    IssueIsCached(s', id, s.clock);
    NoDeletesIsClean(s', b);
    RunAppend(s, a, b);
    CleanAppend(s, a, b);
    OrderlyAppend(s, a, b);
    assert s'.db.rows[id].order.id == id by {
      assert RowOk(s'.db, id, s'.clock);
    }
    DeleteBreaksCopy(Run(s, a + b), d);
  }

  // ---- late copies ----

  /** The interleaving that leaves a copy of a returned order in the cache. */
  function LateCopy(o: Order, d: RowDelete): seq<Event> {
    [ReadRow(o.id)] + ([CheckReturn(o.id, d.checkedAt)] + ([DeleteRow(d)] +
    ([Perform(DeleteKey(o.id), d.checkedAt)] + ([Perform(SetCopy(o), d.checkedAt)] + []))))
  }

  lemma LateCopySteps(s: State, d: RowDelete)
    requires d.id in s.db.rows && s.db.rows[d.id].order.id == d.id && s.db.rows[d.id].serial == d.serial
    requires JudgeReturn(s.db, d.id, d.checkedAt).Returned?
    ensures var after := Run(s, LateCopy(s.db.rows[d.id].order, d));
      d.id in after.cache && d.id !in after.db.rows
  {
    var o, at := s.db.rows[d.id].order, d.checkedAt;
    var drop, put := Perform(DeleteKey(d.id), at), Perform(SetCopy(o), at);
    var s1 := Step(s, ReadRow(d.id));
    assert SetCopy(o) in s1.pending;
    var s2 := Step(s1, CheckReturn(d.id, at));
    assert d in s2.doomed;
    var s3 := Step(s2, DeleteRow(d));
    assert SetCopy(o) in s3.pending && d.id !in s3.db.rows;
    var s4 := Step(s3, drop);
    assert SetCopy(o) in s4.pending && d.id !in s4.db.rows;
    RunCons(s, ReadRow(d.id), [CheckReturn(d.id, at)] + ([DeleteRow(d)] + ([drop] + ([put] + []))));
    RunCons(s1, CheckReturn(d.id, at), [DeleteRow(d)] + ([drop] + ([put] + [])));
    RunCons(s2, DeleteRow(d), [drop] + ([put] + []));
    RunCons(s3, drop, [put] + []);
    RunCons(s4, put, []);
  }

  lemma LateCopyIsOrderly(o: Order, d: RowDelete, clock: Time)
    requires ZERO_TIME < d.checkedAt && clock <= d.checkedAt
    ensures Orderly(clock, LateCopy(o, d))
  {
    var es := LateCopy(o, d);
    assert Orderly(d.checkedAt, es[5..]) && es[4..][1..] == es[5..] && es[3..][1..] == es[4..];
    assert es[2..][1..] == es[3..] && es[1..][1..] == es[2..];
    assert Orderly(d.checkedAt, es[3..]) && Orderly(d.checkedAt, es[2..]) && Orderly(clock, es[1..]);
  }

  /**
   Coherence with the table is not kept by late cache writes: wherever an order can be returned,
   a concurrent read can cache it after it is gone.
   */
  lemma LateCopyOutlivesRow(s: State, id: OrderId, now: Time)
    requires Safe(s) && s.clock <= now && ZERO_TIME < now && JudgeReturn(s.db, id, now).Returned?
    ensures var es := LateCopy(s.db.rows[id].order, RowDelete(id, s.db.rows[id].serial, now));
      && Orderly(s.clock, es)
      && id in Run(s, es).cache && id !in Run(s, es).db.rows
  {
    var d := RowDelete(id, s.db.rows[id].serial, now);
    Checked(s, id, now);
    LateCopySteps(s, d);
    LateCopyIsOrderly(s.db.rows[id].order, d, s.clock);
  }
}
