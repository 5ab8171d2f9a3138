/**
 Keyset pagination over an ordered map: pages are cut by key, never by count. The theory is
 independent of what the records and keys are; `key` recovers a record's key and `less` is
 the iteration order.
 */
module Keyset {
  import opened Wrappers
  import opened Orders

  ghost predicate Increasing<R, K>(key: R -> K, less: Order<K>, rs: seq<R>) {
    forall i, j :: 0 <= i < j < |rs| ==> less(key(rs[i]), key(rs[j]))
  }

  // ---- Iterating an ordered map ----

  ghost predicate IsFirst<K>(less: Order<K>, k: K, ks: set<K>) {
    k in ks && forall j :: j in ks && j != k ==> less(k, j)
  }

  lemma {:induction false} FirstExists<K(!new)>(less: Order<K>, ks: set<K>)
    requires StrictTotal(less) && ks != {}
    ensures exists k :: IsFirst(less, k, ks)
  {
    var x :| x in ks;
    if ks == {x} {
      assert IsFirst(less, x, ks);
    } else {
      FirstExists(less, ks - {x});
      var m :| IsFirst(less, m, ks - {x});
      assert IsFirst(less, if less(m, x) then m else x, ks);
    }
  }

  /** The keys of the map in iteration order. */
  ghost function OrderedKeys<K(!new)>(less: Order<K>, ks: set<K>): (r: seq<K>)
    requires StrictTotal(less)
    ensures forall i, j :: 0 <= i < j < |r| ==> less(r[i], r[j])
    ensures forall k :: k in r <==> k in ks
  {
    if ks == {} then []
    else
      FirstExists(less, ks);
      var k :| IsFirst(less, k, ks);
      [k] + OrderedKeys(less, ks - {k})
  }

  ghost function Select<R, K>(m: map<K, R>, matches: R -> bool, ks: seq<K>): seq<R>
    requires forall k :: k in ks ==> k in m
  {
    if ks == [] then []
    else (if matches(m[ks[0]]) then [m[ks[0]]] else []) + Select(m, matches, ks[1..])
  }

  /** The matching values of the map, in iteration order. */
  ghost function Matched<R, K(!new)>(less: Order<K>, m: map<K, R>, matches: R -> bool): seq<R>
    requires StrictTotal(less)
  {
    Select(m, matches, OrderedKeys(less, m.Keys))
  }

  ghost predicate KeyedBy<R, K>(key: R -> K, m: map<K, R>) {
    forall k :: k in m ==> key(m[k]) == k
  }

  ghost predicate Holds<R, K>(key: R -> K, m: map<K, R>, matches: R -> bool, r: R) {
    key(r) in m && m[key(r)] == r && matches(r)
  }

  lemma {:induction false} SelectElements<R(!new), K>(key: R -> K, m: map<K, R>, matches: R -> bool, ks: seq<K>)
    requires KeyedBy(key, m) && forall k :: k in ks ==> k in m
    ensures forall r :: r in Select(m, matches, ks) <==> Holds(key, m, matches, r) && key(r) in ks
  {
    if ks != [] {
      SelectElements(key, m, matches, ks[1..]);
      assert forall k :: k in ks <==> k == ks[0] || k in ks[1..];
    }
  }

  lemma {:induction false} SelectIncreasing<R(!new), K>(
    key: R -> K, less: Order<K>, m: map<K, R>, matches: R -> bool, ks: seq<K>)
    requires KeyedBy(key, m) && forall k :: k in ks ==> k in m
    requires forall i, j :: 0 <= i < j < |ks| ==> less(ks[i], ks[j])
    ensures Increasing(key, less, Select(m, matches, ks))
  {
    if ks != [] {
      SelectIncreasing(key, less, m, matches, ks[1..]);
      SelectElements(key, m, matches, ks[1..]);
      var rest := Select(m, matches, ks[1..]);
      forall i | 0 <= i < |rest| ensures less(ks[0], key(rest[i])) {
        assert rest[i] in rest;
      }
    }
  }

  /** Exactly the matching values, each once, in strict iteration order. */
  lemma MatchedIsTheFilter<R(!new), K(!new)>(key: R -> K, less: Order<K>, m: map<K, R>, matches: R -> bool)
    requires StrictTotal(less) && KeyedBy(key, m)
    ensures Increasing(key, less, Matched(less, m, matches))
    ensures forall r :: r in Matched(less, m, matches) <==> Holds(key, m, matches, r)
  {
    SelectElements(key, m, matches, OrderedKeys(less, m.Keys));
    SelectIncreasing(key, less, m, matches, OrderedKeys(less, m.Keys));
  }

  // ---- One page of an ordered list ----

  datatype KeyPage<R, K> = KeyPage(items: seq<R>, next: Option<K>)

  /** The index of the first record past the boundary, or the length when there is none. */
  function FirstPast<R, K>(key: R -> K, less: Order<K>, rs: seq<R>, boundary: K): (start: nat)
    ensures start <= |rs|
    ensures forall i :: 0 <= i < start ==> !less(boundary, key(rs[i]))
    ensures start < |rs| ==> less(boundary, key(rs[start]))
  {
    if rs == [] || less(boundary, key(rs[0])) then 0 else 1 + FirstPast(key, less, rs[1..], boundary)
  }

  function Start<R, K>(key: R -> K, less: Order<K>, rs: seq<R>, boundary: Option<K>): (start: nat)
    ensures start <= |rs|
  {
    if boundary.None? then 0 else FirstPast(key, less, rs, boundary.value)
  }

  function Min(a: nat, b: nat): nat {
    if a <= b then a else b
  }

  function End<R, K>(key: R -> K, less: Order<K>, rs: seq<R>, limit: nat, boundary: Option<K>): (end: nat)
    ensures Start(key, less, rs, boundary) <= end <= |rs|
  {
    Min(Start(key, less, rs, boundary) + limit, |rs|)
  }

  /** The slice past the boundary, and the key of its last record when more follow. */
  function PageAfter<R, K>(key: R -> K, less: Order<K>, rs: seq<R>, limit: nat, boundary: Option<K>): KeyPage<R, K> {
    var start, end := Start(key, less, rs, boundary), End(key, less, rs, limit, boundary);
    KeyPage(rs[start..end], if start < end < |rs| then Some(key(rs[end - 1])) else None)
  }

  ghost predicate Past<K>(less: Order<K>, boundary: Option<K>, k: K) {
    boundary.None? || less(boundary.value, k)
  }

  /** In an ordered list the records past a boundary are exactly those from its start index on. */
  lemma StartSplits<R, K(!new)>(key: R -> K, less: Order<K>, rs: seq<R>, boundary: Option<K>, i: nat)
    requires StrictTotal(less) && Increasing(key, less, rs) && i < |rs|
    ensures i >= Start(key, less, rs, boundary) <==> Past(less, boundary, key(rs[i]))
  {
  }

  /** Resuming at the last record served continues exactly where the page ended. */
  lemma Resume<R, K(!new)>(key: R -> K, less: Order<K>, rs: seq<R>, end: nat)
    requires StrictTotal(less) && Increasing(key, less, rs) && 0 < end < |rs|
    ensures Start(key, less, rs, Some(key(rs[end - 1]))) == end
  {
    StartSplits(key, less, rs, Some(key(rs[end - 1])), end - 1);
    StartSplits(key, less, rs, Some(key(rs[end - 1])), end);
  }

  /** A served item lies past the boundary and not past the continuation. */
  lemma ServedItem<R, K(!new)>(key: R -> K, less: Order<K>, rs: seq<R>, limit: nat, boundary: Option<K>, i: nat)
    requires StrictTotal(less) && Increasing(key, less, rs)
    requires Start(key, less, rs, boundary) <= i < End(key, less, rs, limit, boundary)
    ensures Past(less, boundary, key(rs[i]))
    ensures
      var next := PageAfter(key, less, rs, limit, boundary).next;
      next.Some? ==> !less(next.value, key(rs[i]))
  {
    StartSplits(key, less, rs, boundary, i);
  }

  lemma IndexInSlice<R>(rs: seq<R>, a: nat, b: nat, r: R) returns (i: nat)
    requires a <= b <= |rs| && r in rs[a..b]
    ensures a <= i < b && rs[i] == r
  {
    var j :| 0 <= j < b - a && rs[a..b][j] == r;
    i := a + j;
  }

  /** A record past the boundary is on the page or lies past its continuation. */
  lemma NoGap<R, K(!new)>(key: R -> K, less: Order<K>, rs: seq<R>, limit: nat, boundary: Option<K>, r: R)
    requires StrictTotal(less) && Increasing(key, less, rs) && limit > 0
    requires r in rs && Past(less, boundary, key(r))
    ensures
      var page := PageAfter(key, less, rs, limit, boundary);
      r in page.items || (page.next.Some? && Past(less, page.next, key(r)))
  {
    var page := PageAfter(key, less, rs, limit, boundary);
    var start, end := Start(key, less, rs, boundary), End(key, less, rs, limit, boundary);
    var i :| 0 <= i < |rs| && rs[i] == r;
    StartSplits(key, less, rs, boundary, i);
    if i < end {
      assert page.items[i - start] == r;
    } else {
      Resume(key, less, rs, end);
      StartSplits(key, less, rs, page.next, i);
    }
  }

  /** The items of one page: in order, past the boundary, up to the continuation, with no gaps. */
  lemma PageIsContiguous<R(!new), K(!new)>(key: R -> K, less: Order<K>, rs: seq<R>, limit: nat, boundary: Option<K>)
    requires StrictTotal(less) && Increasing(key, less, rs) && limit > 0
    ensures
      var page := PageAfter(key, less, rs, limit, boundary);
      && Increasing(key, less, page.items)
      && (forall r :: r in page.items ==> r in rs && Past(less, boundary, key(r)))
      && (page.next.Some? ==>
            && Past(less, boundary, page.next.value)
            && forall r :: r in page.items ==> !less(page.next.value, key(r)))
      && (forall r :: r in rs && Past(less, boundary, key(r)) ==>
            r in page.items || (page.next.Some? && Past(less, page.next, key(r))))
  {
    var page := PageAfter(key, less, rs, limit, boundary);
    forall r | r in page.items
      ensures r in rs && Past(less, boundary, key(r))
      ensures page.next.Some? ==> !less(page.next.value, key(r))
    {
      var i := IndexInSlice(rs, Start(key, less, rs, boundary), End(key, less, rs, limit, boundary), r);
      ServedItem(key, less, rs, limit, boundary, i);
    }
    if page.next.Some? {
      assert page.items[|page.items| - 1] in page.items;
    }
    forall r | r in rs && Past(less, boundary, key(r))
      ensures r in page.items || (page.next.Some? && Past(less, page.next, key(r)))
    {
      NoGap(key, less, rs, limit, boundary, r);
    }
  }

  // ---- Following continuations ----

  lemma ItemsThenTailIncreasing<R, K(!new)>(key: R -> K, less: Order<K>, items: seq<R>, tail: seq<R>, next: K)
    requires StrictTotal(less) && Increasing(key, less, items) && Increasing(key, less, tail)
    requires forall r :: r in items ==> !less(next, key(r))
    requires forall r :: r in tail ==> less(next, key(r))
    ensures Increasing(key, less, items + tail)
  {
    forall i, j | 0 <= i < |items| && 0 <= j < |tail| ensures less(key(items[i]), key(tail[j])) {
      assert items[i] in items && tail[j] in tail;
    }
  }

  // ---- Cursors ----

  /** How keys travel through callers as opaque text; `good` are the keys the encoding is for. */
  datatype Codec<!K> = Codec(good: K -> bool, encode: K -> string, decode: string -> Option<K>) {
    ghost predicate Good(boundary: Option<K>) {
      boundary.Some? ==> good(boundary.value)
    }

    function Cursor(boundary: Option<K>): Option<string> {
      if boundary.None? then None else Some(encode(boundary.value))
    }

    /** `None` for a malformed cursor. */
    function Boundary(cursor: Option<string>): Option<Option<K>> {
      if cursor.None? then Some(None)
      else if decode(cursor.value).None? then None
      else Some(decode(cursor.value))
    }
  }

  ghost predicate Lossless<K(!new)>(c: Codec<K>) {
    forall k :: c.good(k) ==> c.decode(c.encode(k)) == Some(k)
  }

  datatype Page<R> = Page(items: seq<R>, nextCursor: Option<string>)

  /** One page request; `None` when the cursor is malformed. */
  function Request<R, K>(
    c: Codec<K>, key: R -> K, less: Order<K>, rs: seq<R>, limit: nat, cursor: Option<string>): Option<Page<R>>
  {
    match c.Boundary(cursor)
    case None => None
    case Some(boundary) =>
      var page := PageAfter(key, less, rs, limit, boundary);
      Some(Page(page.items, c.Cursor(page.next)))
  }

  ghost predicate GoodKeys<R, K>(c: Codec<K>, key: R -> K, rs: seq<R>) {
    forall r :: r in rs ==> c.good(key(r))
  }

  lemma RequestAt<R, K(!new)>(c: Codec<K>, key: R -> K, less: Order<K>, rs: seq<R>, limit: nat, boundary: Option<K>)
    requires Lossless(c) && c.Good(boundary) && GoodKeys(c, key, rs)
    ensures
      var page := PageAfter(key, less, rs, limit, boundary);
      && Request(c, key, less, rs, limit, c.Cursor(boundary)) == Some(Page(page.items, c.Cursor(page.next)))
      && c.Good(page.next) && c.Boundary(c.Cursor(page.next)) == Some(page.next)
  {
    var page := PageAfter(key, less, rs, limit, boundary);
    if page.next.Some? {
      assert rs[End(key, less, rs, limit, boundary) - 1] in rs;
    }
  }

  /** One request of a session: the list at that moment and the page size asked for. */
  datatype Visit<R> = Visit(rows: seq<R>, limit: nat)

  /** The pages of a session that resumes at each page's cursor and ends at a page without one. */
  ghost predicate Session<R, K>(
    c: Codec<K>, key: R -> K, less: Order<K>, visits: seq<Visit<R>>, pages: seq<Page<R>>, cursor: Option<string>)
    decreases |visits|
  {
    && |visits| == |pages| > 0
    && Request(c, key, less, visits[0].rows, visits[0].limit, cursor) == Some(pages[0])
    && (pages[0].nextCursor.None? <==> |pages| == 1)
    && (|pages| > 1 ==> Session(c, key, less, visits[1..], pages[1..], pages[0].nextCursor))
  }

  ghost predicate OrderedVisits<R(!new), K>(c: Codec<K>, key: R -> K, less: Order<K>, visits: seq<Visit<R>>) {
    forall i :: 0 <= i < |visits| ==>
      Increasing(key, less, visits[i].rows) && GoodKeys(c, key, visits[i].rows) && visits[i].limit > 0
  }

  /** A row at every request. */
  ghost predicate AlwaysRow<R>(visits: seq<Visit<R>>, r: R) {
    forall i :: 0 <= i < |visits| ==> r in visits[i].rows
  }

  function Served<R>(pages: seq<Page<R>>): seq<R> {
    if pages == [] then [] else pages[0].items + Served(pages[1..])
  }

  lemma PageItemsAreRows<R(!new), K>(key: R -> K, less: Order<K>, rs: seq<R>, limit: nat, boundary: Option<K>)
    ensures forall r :: r in PageAfter(key, less, rs, limit, boundary).items ==> r in rs
  {
  }

  /** Each page holds rows of the list it was cut from. */
  lemma {:induction false} PagesAreRows<R(!new), K>(
    c: Codec<K>, key: R -> K, less: Order<K>, visits: seq<Visit<R>>, pages: seq<Page<R>>, cursor: Option<string>,
    i: nat, r: R)
    requires Session(c, key, less, visits, pages, cursor) && i < |pages| && r in pages[i].items
    ensures r in visits[i].rows
    decreases |visits|
  {
    hide PageAfter;
    PageItemsAreRows(key, less, visits[0].rows, visits[0].limit, c.Boundary(cursor).value);
    if i > 0 {
      PagesAreRows(c, key, less, visits[1..], pages[1..], pages[0].nextCursor, i - 1, r);
    }
  }

  lemma {:induction false} ServedOnSomePage<R(!new)>(pages: seq<Page<R>>, r: R) returns (i: nat)
    requires r in Served(pages)
    ensures i < |pages| && r in pages[i].items
  {
    if r in pages[0].items {
      i := 0;
    } else {
      var j := ServedOnSomePage(pages[1..], r);
      i := j + 1;
    }
  }

  /**
   Whatever happens to the list between requests, what is served rises strictly past the boundary, and a
   row that is there at every request is served.
   */
  lemma {:induction false} SessionServes<R(!new), K(!new)>(
    c: Codec<K>, key: R -> K, less: Order<K>, visits: seq<Visit<R>>, pages: seq<Page<R>>, boundary: Option<K>)
    requires StrictTotal(less) && Lossless(c) && c.Good(boundary)
    requires OrderedVisits(c, key, less, visits)
    requires Session(c, key, less, visits, pages, c.Cursor(boundary))
    ensures Increasing(key, less, Served(pages))
    ensures forall r :: r in Served(pages) ==> Past(less, boundary, key(r))
    ensures forall r :: AlwaysRow(visits, r) && Past(less, boundary, key(r)) ==> r in Served(pages)
    decreases |visits|
  {
    hide PageAfter, Increasing, Lossless, Request;
    var rows, limit := visits[0].rows, visits[0].limit;
    RequestAt(c, key, less, rows, limit, boundary);
    var page := PageAfter(key, less, rows, limit, boundary);
    PageIsContiguous(key, less, rows, limit, boundary);
    if |pages| == 1 {
      assert Served(pages) == page.items;
    } else {
      var tail := Served(pages[1..]);
      SessionServes(c, key, less, visits[1..], pages[1..], page.next);
      ItemsThenTailIncreasing(key, less, page.items, tail, page.next.value);
      PastStays(less, boundary, page.next, key, tail);
      forall r | AlwaysRow(visits, r) ensures AlwaysRow(visits[1..], r) {
      }
    }
  }

  lemma PastStays<R(!new), K(!new)>(less: Order<K>, boundary: Option<K>, next: Option<K>, key: R -> K, rs: seq<R>)
    requires StrictTotal(less) && next.Some? && Past(less, boundary, next.value)
    requires forall r :: r in rs ==> Past(less, next, key(r))
    ensures forall r :: r in rs ==> Past(less, boundary, key(r))
  {
  }

  /** The session a reader makes over one unchanging list: it exists, and it is finite. */
  lemma {:induction false} SessionExists<R, K(!new)>(
    c: Codec<K>, key: R -> K, less: Order<K>, rs: seq<R>, limit: nat, boundary: Option<K>)
    returns (visits: seq<Visit<R>>, pages: seq<Page<R>>)
    requires StrictTotal(less) && Lossless(c) && c.Good(boundary) && limit > 0
    requires Increasing(key, less, rs) && GoodKeys(c, key, rs)
    ensures |visits| <= |rs| - Start(key, less, rs, boundary) + 1
    ensures forall v :: v in visits ==> v == Visit(rs, limit)
    ensures Session(c, key, less, visits, pages, c.Cursor(boundary))
    ensures Served(pages) == rs[Start(key, less, rs, boundary)..]
    decreases |rs| - Start(key, less, rs, boundary)
  {
    RequestAt(c, key, less, rs, limit, boundary);
    var page := PageAfter(key, less, rs, limit, boundary);
    var start, end := Start(key, less, rs, boundary), End(key, less, rs, limit, boundary);
    SliceSplits(rs, start, end);
    var head := Page(page.items, c.Cursor(page.next));
    if page.next.None? {
      visits, pages := [Visit(rs, limit)], [head];
    } else {
      Resume(key, less, rs, end);
      var vs, ps := SessionExists(c, key, less, rs, limit, page.next);
      visits, pages := [Visit(rs, limit)] + vs, [head] + ps;
      assert visits[1..] == vs && pages[1..] == ps;
    }
  }

  lemma SliceSplits<R>(rs: seq<R>, i: nat, j: nat)
    requires i <= j <= |rs|
    ensures rs[i..] == rs[i..j] + rs[j..]
  {
  }
}
