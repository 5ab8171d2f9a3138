/** Sorting by key, and why the result does not depend on the order things came in. */
module Sorting {
  import opened Orders

  function Insert<R, K>(key: R -> K, less: Order<K>, r: R, rs: seq<R>): seq<R> {
    if rs == [] || less(key(r), key(rs[0])) then [r] + rs else [rs[0]] + Insert(key, less, r, rs[1..])
  }

  /** A stable sort by key. */
  function Sort<R, K>(key: R -> K, less: Order<K>, rs: seq<R>): seq<R> {
    if rs == [] then [] else Insert(key, less, rs[|rs| - 1], Sort(key, less, rs[..|rs| - 1]))
  }

  ghost predicate Sorted<R, K>(key: R -> K, less: Order<K>, rs: seq<R>) {
    forall i, j :: 0 <= i < j < |rs| ==> !less(key(rs[j]), key(rs[i]))
  }

  lemma {:induction false} InsertMultiset<R, K>(key: R -> K, less: Order<K>, r: R, rs: seq<R>)
    ensures multiset(Insert(key, less, r, rs)) == multiset(rs) + multiset{r}
  {
    if rs != [] && !less(key(r), key(rs[0])) {
      InsertMultiset(key, less, r, rs[1..]);
      assert rs == [rs[0]] + rs[1..];
    }
  }

  lemma InsertElements<R(!new), K>(key: R -> K, less: Order<K>, r: R, rs: seq<R>)
    ensures forall x :: x in Insert(key, less, r, rs) ==> x == r || x in rs
  {
    InsertMultiset(key, less, r, rs);
    forall x | x in Insert(key, less, r, rs) ensures x == r || x in rs {
      assert x in multiset(Insert(key, less, r, rs));
    }
  }

  lemma ConsSorted<R, K>(key: R -> K, less: Order<K>, r: R, rs: seq<R>)
    requires Sorted(key, less, rs) && forall x :: x in rs ==> !less(key(x), key(r))
    ensures Sorted(key, less, [r] + rs)
  {
    var all := [r] + rs;
    forall i, j | 0 <= i < j < |all| ensures !less(key(all[j]), key(all[i])) {
      assert all[j] == rs[j - 1];
    }
  }

  lemma {:induction false} InsertSorted<R(!new), K(!new)>(key: R -> K, less: Order<K>, r: R, rs: seq<R>)
    requires StrictTotal(less) && Sorted(key, less, rs)
    ensures Sorted(key, less, Insert(key, less, r, rs))
  {
    if rs != [] {
      forall x | x in rs ensures !less(key(x), key(rs[0])) {
        var i :| 0 <= i < |rs| && rs[i] == x;
        assert i > 0 || x == rs[0];
      }
    }
    if rs == [] || less(key(r), key(rs[0])) {
      ConsSorted(key, less, r, rs);
    } else {
      InsertSorted(key, less, r, rs[1..]);
      InsertElements(key, less, r, rs[1..]);
      ConsSorted(key, less, rs[0], Insert(key, less, r, rs[1..]));
    }
  }

  lemma {:induction false} SortSorts<R(!new), K(!new)>(key: R -> K, less: Order<K>, rs: seq<R>)
    requires StrictTotal(less)
    ensures Sorted(key, less, Sort(key, less, rs)) && multiset(Sort(key, less, rs)) == multiset(rs)
  {
    if rs != [] {
      var n := |rs| - 1;
      SortSorts(key, less, rs[..n]);
      InsertMultiset(key, less, rs[n], Sort(key, less, rs[..n]));
      InsertSorted(key, less, rs[n], Sort(key, less, rs[..n]));
      assert rs == rs[..n] + [rs[n]];
    }
  }

  ghost predicate DistinctKeys<R, K>(key: R -> K, rs: seq<R>) {
    forall i, j :: 0 <= i < j < |rs| ==> key(rs[i]) != key(rs[j])
  }

  lemma {:induction false} TwiceMeansTwo<R(!new)>(rs: seq<R>, x: R) returns (i: nat, j: nat)
    requires multiset(rs)[x] >= 2
    ensures i < j < |rs| && rs[i] == x && rs[j] == x
  {
    var n := |rs| - 1;
    assert rs == rs[..n] + [rs[n]];
    if rs[n] == x {
      assert x in multiset(rs[..n]);
      i :| 0 <= i < n && rs[..n][i] == x;
      j := n;
    } else {
      i, j := TwiceMeansTwo(rs[..n], x);
    }
  }

  lemma TwoMeansTwice<R>(rs: seq<R>, i: nat, j: nat)
    requires i < j < |rs| && rs[i] == rs[j]
    ensures multiset(rs)[rs[i]] >= 2
  {
    assert rs == rs[..j] + [rs[j]] + rs[j + 1..];
    assert rs[..j][i] == rs[i];
  }

  /** Rearranging keeps keys distinct. */
  lemma DistinctKeysPermute<R(!new), K>(key: R -> K, a: seq<R>, b: seq<R>)
    requires multiset(a) == multiset(b) && DistinctKeys(key, a)
    ensures DistinctKeys(key, b)
  {
    forall i, j | 0 <= i < j < |b| ensures key(b[i]) != key(b[j]) {
      if b[i] == b[j] {
        TwoMeansTwice(b, i, j);
        var m, n := TwiceMeansTwo(a, b[i]);
      } else {
        assert b[i] in multiset(a) && b[j] in multiset(a);
        var m :| 0 <= m < |a| && a[m] == b[i];
        var n :| 0 <= n < |a| && a[n] == b[j];
        assert m < n || n < m;
      }
    }
  }

  /** Keys tell the elements apart. */
  ghost predicate KeyDetermines<R(!new), K>(key: R -> K, rs: seq<R>) {
    forall a, b :: a in rs && b in rs && key(a) == key(b) ==> a == b
  }

  lemma TailMultiset<R>(rs: seq<R>)
    requires rs != []
    ensures multiset(rs[1..]) == multiset(rs) - multiset{rs[0]}
  {
    assert rs == [rs[0]] + rs[1..];
  }

  lemma HeadsAgree<R(!new), K(!new)>(key: R -> K, less: Order<K>, a: seq<R>, b: seq<R>)
    requires StrictTotal(less) && Sorted(key, less, a) && Sorted(key, less, b) && a != [] && b != []
    requires a[0] in b && b[0] in a && KeyDetermines(key, a)
    ensures a[0] == b[0]
  {
    var j :| 0 <= j < |b| && b[j] == a[0];
    var i :| 0 <= i < |a| && a[i] == b[0];
    assert key(a[0]) == key(b[0]);
  }

  lemma SortedTail<R, K>(key: R -> K, less: Order<K>, rs: seq<R>)
    requires Sorted(key, less, rs) && rs != []
    ensures Sorted(key, less, rs[1..])
  {
  }

  lemma TellingTail<R(!new), K>(key: R -> K, rs: seq<R>)
    requires KeyDetermines(key, rs) && rs != []
    ensures KeyDetermines(key, rs[1..])
  {
  }

  /** Two lists of one bag with the same head have tails of one bag. */
  lemma TailsAgree<R>(a: seq<R>, b: seq<R>)
    requires multiset(a) == multiset(b) && a != [] && b != [] && a[0] == b[0]
    ensures multiset(a[1..]) == multiset(b[1..])
  {
    TailMultiset(a);
    TailMultiset(b);
  }

  lemma SameBag<R>(a: seq<R>, b: seq<R>)
    requires multiset(a) == multiset(b)
    ensures |a| == |b| && (a != [] ==> a[0] in b && b[0] in a)
  {
    assert |a| == |multiset(a)| && |b| == |multiset(b)|;
    assert a != [] ==> a[0] in multiset(b) && b[0] in multiset(a);
  }

  /** With telling keys there is only one sorted arrangement. */
  lemma {:induction false} SortedUnique<R(!new), K(!new)>(key: R -> K, less: Order<K>, a: seq<R>, b: seq<R>)
    requires StrictTotal(less) && Sorted(key, less, a) && Sorted(key, less, b)
    requires multiset(a) == multiset(b) && KeyDetermines(key, a)
    ensures a == b
  {
    hide Sorted, StrictTotal, KeyDetermines;
    SameBag(a, b);
    if a != [] {
      HeadsAgree(key, less, a, b);
      TailsAgree(a, b);
      SortedTail(key, less, a);
      SortedTail(key, less, b);
      TellingTail(key, a);
      SortedUnique(key, less, a[1..], b[1..]);
      assert a == [a[0]] + a[1..] && b == [b[0]] + b[1..];
    }
  }

  /** Whatever order the elements arrive in, the sorted list is the same. */
  lemma SortForgetsOrder<R(!new), K(!new)>(key: R -> K, less: Order<K>, a: seq<R>, b: seq<R>)
    requires StrictTotal(less) && multiset(a) == multiset(b) && KeyDetermines(key, a)
    ensures Sort(key, less, a) == Sort(key, less, b)
  {
    SortSorts(key, less, a);
    SortSorts(key, less, b);
    var sorted := Sort(key, less, a);
    forall x | x in sorted ensures x in a {
      assert x in multiset(sorted);
    }
    SortedUnique(key, less, sorted, Sort(key, less, b));
  }
}
