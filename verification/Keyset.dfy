/**
 Keyset pagination: a page is the beginning of the rows below a cursor in descending key order,
 and the last key of a page is the next cursor.
 */
module Keyset {
  import opened Wrappers
  import opened Orders

  /** Last-updated time, then serial id. Reports that sort by id alone use time zero. */
  datatype Key = Key(time: Time, serial: int)

  predicate Less(a: Key, b: Key) {
    a.time < b.time || (a.time == b.time && a.serial < b.serial)
  }

  datatype Item = Item(key: Key, order: Order)

  ghost predicate UniqueKeys(s: set<Item>) {
    forall a, b :: a in s && b in s && a.key == b.key ==> a == b
  }

  /** Strictly descending keys. */
  predicate Descending(q: seq<Item>) {
    forall i, j :: 0 <= i < j < |q| ==> Less(q[j].key, q[i].key)
  }

  ghost predicate Lists(q: seq<Item>, s: set<Item>) {
    Descending(q) && forall x :: x in q <==> x in s
  }

  ghost predicate IsTop(t: Item, s: set<Item>) {
    t in s && forall x :: x in s && x != t ==> Less(x.key, t.key)
  }

  lemma TopOfTwo(s: set<Item>, a: Item, t: Item)
    requires UniqueKeys(s) && a in s && IsTop(t, s - {a})
    ensures IsTop(if Less(a.key, t.key) then t else a, s)
  {
  }

  lemma {:induction false} TopExists(s: set<Item>)
    requires s != {} && UniqueKeys(s)
    ensures exists t :: IsTop(t, s)
  {
    var a :| a in s;
    if s == {a} {
      assert IsTop(a, s);
    } else {
      assert s - {a} != {};
      TopExists(s - {a});
      var t :| IsTop(t, s - {a});
      TopOfTwo(s, a, t);
    }
  }

  /** ORDER BY key DESC. */
  ghost function SortDescending(s: set<Item>): seq<Item>
    requires UniqueKeys(s)
  {
    if s == {} then []
    else
      TopExists(s);
      var t :| IsTop(t, s);
      [t] + SortDescending(s - {t})
  }

  lemma {:induction false} SortLists(s: set<Item>)
    requires UniqueKeys(s)
    ensures |SortDescending(s)| == |s| && Lists(SortDescending(s), s)
  {
    if s != {} {
      var q := SortDescending(s);
      var rest := s - {q[0]};
      SortLists(rest);
      assert q == [q[0]] + SortDescending(rest);
      assert forall x :: x in q <==> x in s;
    }
  }

  /** There is only one descending listing of a set. */
  lemma {:induction false} ListingUnique(p: seq<Item>, q: seq<Item>, s: set<Item>)
    requires Lists(p, s) && Lists(q, s)
    ensures p == q
    decreases |p|
  {
    assert q == [] || q[0] in p;
    if p != [] {
      assert p[0] in q && q[0] in p;
      assert p[0] == q[0];
      var rest := s - {p[0]};
      TailLists(p, s);
      TailLists(q, s);
      ListingUnique(p[1..], q[1..], rest);
    }
  }

  lemma TailLists(p: seq<Item>, s: set<Item>)
    requires p != [] && Lists(p, s)
    ensures Lists(p[1..], s - {p[0]})
  {
  }

  /** The rows a cursor lets through; None is the first page. */
  function Below(s: set<Item>, cursor: Option<Key>): set<Item> {
    set x | x in s && (cursor.None? || Less(x.key, cursor.value))
  }

  function Take<T>(q: seq<T>, limit: nat): seq<T> {
    if |q| <= limit then q else q[..limit]
  }

  /** WHERE below the cursor ORDER BY key DESC LIMIT limit. */
  ghost function Page(s: set<Item>, cursor: Option<Key>, limit: nat): (page: seq<Item>)
    requires UniqueKeys(s)
  {
    Take(SortDescending(Below(s, cursor)), limit)
  }

  /** In a listing, the first n rows are exactly those not below row n. */
  lemma PrefixByKey(q: seq<Item>, s: set<Item>, n: nat, x: Item)
    requires Lists(q, s) && 1 <= n <= |q| && x in s
    ensures x in q[..n] <==> !Less(x.key, q[n - 1].key)
    ensures x in q[n..] <==> Less(x.key, q[n - 1].key)
  {
  }

  /** The rows below row n of a listing are listed by the rest of it. */
  lemma SuffixLists(q: seq<Item>, s: set<Item>, n: nat)
    requires Lists(q, s) && 1 <= n <= |q|
    ensures Lists(q[n..], Below(s, Some(q[n - 1].key)))
  {
  }

  /** A page lists exactly the rows below its cursor that are not below its last key. */
  lemma PageContents(s: set<Item>, cursor: Option<Key>, limit: nat, x: Item)
    requires UniqueKeys(s) && limit >= 1
    ensures var page := Page(s, cursor, limit);
      && Descending(page)
      && (x in page ==> x in Below(s, cursor))
      && (x in Below(s, cursor) ==> page != [] && (x in page <==> !Less(x.key, page[|page| - 1].key)))
  {
    var q := SortDescending(Below(s, cursor));
    SortLists(Below(s, cursor));
    var n := |Page(s, cursor, limit)|;
    assert q[..n] == Page(s, cursor, limit);
    if x in q[..n] {
      assert x in q;
    }
    if x in Below(s, cursor) {
      assert x in q;
      PrefixByKey(q, Below(s, cursor), n, x);
    }
  }

  lemma SplitListing(s: set<Item>, n: nat)
    requires UniqueKeys(s) && 1 <= n <= |SortDescending(s)|
    ensures var q := SortDescending(s);
      var rest := Below(s, Some(q[n - 1].key));
      q[n - 1] in s && q == q[..n] + SortDescending(rest) && |rest| == |s| - n
  {
    var q := SortDescending(s);
    SortLists(s);
    var rest := Below(s, Some(q[n - 1].key));
    SuffixLists(q, s, n);
    SortLists(rest);
    ListingUnique(q[n..], SortDescending(rest), rest);
    assert q == q[..n] + q[n..];
  }

  lemma BelowBelow(s: set<Item>, cursor: Option<Key>, x: Item)
    requires x in Below(s, cursor)
    ensures Below(Below(s, cursor), Some(x.key)) == Below(s, Some(x.key))
  {
  }

  /** The next cursor leaves exactly the rest of the listing. */
  lemma PageThenRest(s: set<Item>, cursor: Option<Key>, limit: nat)
    requires UniqueKeys(s) && limit >= 1 && Page(s, cursor, limit) != []
    ensures var page := Page(s, cursor, limit);
      var next := Some(page[|page| - 1].key);
      && SortDescending(Below(s, cursor)) == page + SortDescending(Below(s, next))
      && |Below(s, next)| == |Below(s, cursor)| - |page|
  {
    var here := Below(s, cursor);
    var q := SortDescending(here);
    var n := |Page(s, cursor, limit)|;
    SplitListing(here, n);
    BelowBelow(s, cursor, q[n - 1]);
    assert q[..n] == Page(s, cursor, limit);
  }

  /** A client that follows cursors over a table that does not change, up to the first empty page. */
  ghost function Follow(s: set<Item>, cursor: Option<Key>, limit: nat): seq<seq<Item>>
    requires UniqueKeys(s) && limit >= 1
    decreases |Below(s, cursor)|
  {
    var page := Page(s, cursor, limit);
    if page == [] then [[]]
    else
      PageThenRest(s, cursor, limit);
      [page] + Follow(s, Some(page[|page| - 1].key), limit)
  }

  function Flatten<T>(pages: seq<seq<T>>): seq<T> {
    if pages == [] then [] else pages[0] + Flatten(pages[1..])
  }

  /** How many pages of `limit` rows hold n rows. */
  function PageCount(n: nat, limit: nat): nat
    requires limit >= 1
  {
    if n == 0 then 0 else 1 + PageCount(if n <= limit then 0 else n - limit, limit)
  }

  lemma {:induction false} PageCountIsCeiling(n: nat, limit: nat)
    requires limit >= 1 && n >= 1
    ensures (PageCount(n, limit) - 1) * limit < n <= PageCount(n, limit) * limit
  {
    if n > limit {
      PageCountIsCeiling(n - limit, limit);
      var m := PageCount(n - limit, limit);
      assert m * limit == (m - 1) * limit + limit;
      assert (m + 1) * limit == m * limit + limit;
    } else {
      assert PageCount(n, limit) == 1;
    }
  }

  /** The pages hold the listing once, in ceil(n / limit) non-empty pages and then one empty page. */
  ghost predicate Complete(pages: seq<seq<Item>>, listing: seq<Item>, limit: nat)
    requires limit >= 1
  {
    && Flatten(pages) == listing
    && |pages| == PageCount(|listing|, limit) + 1
    && pages[|pages| - 1] == []
    && forall i :: 0 <= i < |pages| - 1 ==> pages[i] != []
  }

  lemma ConsComplete(page: seq<Item>, later: seq<seq<Item>>, rest: seq<Item>, limit: nat)
    requires limit >= 1 && page != [] && |page| <= limit && (|page| == limit || rest == [])
    requires Complete(later, rest, limit)
    ensures Complete([page] + later, page + rest, limit)
  {
  }

  /** Static completeness: following cursors over a fixed table yields the whole sorted listing. */
  lemma {:induction false} FollowCompletes(s: set<Item>, cursor: Option<Key>, limit: nat)
    requires UniqueKeys(s) && limit >= 1
    ensures Complete(Follow(s, cursor, limit), SortDescending(Below(s, cursor)), limit)
    decreases |Below(s, cursor)|
  {
    var page := Page(s, cursor, limit);
    if page == [] {
      assert Flatten([page]) == page + Flatten([page][1..]);
    } else {
      PageThenRest(s, cursor, limit);
      var next := Some(page[|page| - 1].key);
      FollowCompletes(s, next, limit);
      ConsComplete(page, Follow(s, next, limit), SortDescending(Below(s, next)), limit);
    }
  }
}
