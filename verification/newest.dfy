/** The order in which the store's list operations return rows.

    Dexie's `orderBy(index).reverse()` walks an IndexedDB index backwards.
    Index entries are kept sorted by (index value, primary key), so walking
    backwards yields rows by descending timestamp and, among rows with the
    same timestamp, by descending id. A row is an `(id, row)` pair and
    `stamp` extracts the timestamp the index is built on. */
module Newest {

  /** `a` comes strictly before `b` in a newest-first walk of the index. */
  predicate Newer<T>(a: (nat, T), b: (nat, T), stamp: T -> int) {
    stamp(a.1) > stamp(b.1) || (stamp(a.1) == stamp(b.1) && a.0 > b.0)
  }

  predicate NewestFirst<T>(s: seq<(nat, T)>, stamp: T -> int) {
    forall i, j :: 0 <= i < j < |s| ==> Newer(s[i], s[j], stamp)
  }

  predicate DistinctIds<T>(s: seq<(nat, T)>) {
    forall i, j :: 0 <= i < j < |s| ==> s[i].0 != s[j].0
  }

  predicate AscendingIds<T>(s: seq<(nat, T)>) {
    forall i, j :: 0 <= i < j < |s| ==> s[i].0 < s[j].0
  }

  /** Places `x` into a newest-first sequence that does not hold its id. */
  function Insert<T(==)>(x: (nat, T), s: seq<(nat, T)>, stamp: T -> int): (r: seq<(nat, T)>)
    requires NewestFirst(s, stamp)
    requires forall k :: 0 <= k < |s| ==> s[k].0 != x.0
    ensures NewestFirst(r, stamp)
    ensures multiset(r) == multiset(s) + multiset{x}
  {
    if |s| == 0 then [x]
    else if Newer(x, s[0], stamp) then
      Prepend(x, s, stamp);
      [x] + s
    else
      var tail := Insert(x, s[1..], stamp);
      assert s == [s[0]] + s[1..];
      AheadOfInserted(s[0], x, s[1..], tail, stamp);
      Prepend(s[0], tail, stamp);
      [s[0]] + tail
  }

  lemma Prepend<T>(h: (nat, T), t: seq<(nat, T)>, stamp: T -> int)
    requires NewestFirst(t, stamp)
    requires forall k :: 0 <= k < |t| ==> Newer(h, t[k], stamp)
    ensures NewestFirst([h] + t, stamp)
  {
    var r := [h] + t;
    forall i, j | 0 <= i < j < |r| ensures Newer(r[i], r[j], stamp) {
      if i == 0 { assert r[j] == t[j - 1]; }
      else { assert r[i] == t[i - 1] && r[j] == t[j - 1]; }
    }
  }

  lemma AheadOfInserted<T>(h: (nat, T), x: (nat, T), t: seq<(nat, T)>, tail: seq<(nat, T)>, stamp: T -> int)
    requires NewestFirst([h] + t, stamp)
    requires h.0 != x.0 && !Newer(x, h, stamp)
    requires multiset(tail) == multiset(t) + multiset{x}
    ensures forall k :: 0 <= k < |tail| ==> Newer(h, tail[k], stamp)
  {
    forall k | 0 <= k < |tail| ensures Newer(h, tail[k], stamp) {
      assert tail[k] in multiset(tail);
      if tail[k] == x {
        assert Newer(h, x, stamp);
      } else {
        assert tail[k] in multiset(t);
        assert tail[k] in t;
        var i :| 0 <= i < |t| && t[i] == tail[k];
        assert ([h] + t)[0] == h && ([h] + t)[i + 1] == t[i];
        assert Newer(([h] + t)[0], ([h] + t)[i + 1], stamp);
      }
    }
  }

  /** Insertion sort into newest-first order. */
  function SortNewest<T(==)>(s: seq<(nat, T)>, stamp: T -> int): (r: seq<(nat, T)>)
    requires DistinctIds(s)
    ensures NewestFirst(r, stamp)
    ensures multiset(r) == multiset(s)
  {
    if |s| == 0 then []
    else
      DistinctTail(s);
      var rest := SortNewest(s[1..], stamp);
      HeadIdAbsent(s, rest);
      assert s == [s[0]] + s[1..];
      Insert(s[0], rest, stamp)
  }

  lemma DistinctTail<T>(s: seq<(nat, T)>)
    requires |s| > 0 && DistinctIds(s)
    ensures DistinctIds(s[1..])
  {
    var t := s[1..];
    forall i, j | 0 <= i < j < |t| ensures t[i].0 != t[j].0 {
      assert t[i] == s[i + 1] && t[j] == s[j + 1];
    }
  }

  /** A permutation of the tail does not hold the head's id. */
  lemma HeadIdAbsent<T>(s: seq<(nat, T)>, rest: seq<(nat, T)>)
    requires |s| > 0 && DistinctIds(s)
    requires multiset(rest) == multiset(s[1..])
    ensures forall k :: 0 <= k < |rest| ==> rest[k].0 != s[0].0
  {
    forall k | 0 <= k < |rest| ensures rest[k].0 != s[0].0 {
      assert rest[k] in multiset(s[1..]);
      assert rest[k] in s[1..];
      var i :| 0 <= i < |s[1..]| && s[1..][i] == rest[k];
      assert s[i + 1] == rest[k];
    }
  }

  /** Two newest-first sequences holding the same rows are equal: the order
      the list operations promise leaves no freedom. */
  lemma {:induction false} NewestFirstIsDetermined<T>(a: seq<(nat, T)>, b: seq<(nat, T)>, stamp: T -> int)
    requires NewestFirst(a, stamp) && NewestFirst(b, stamp)
    requires forall e :: e in a <==> e in b
    ensures a == b
    decreases |a|
  {
    if |a| > 0 || |b| > 0 {
      assert |a| > 0 ==> a[0] in b;
      assert |b| > 0 ==> b[0] in a;
      forall e ensures e in a[1..] <==> e in b[1..] {
        if e in a[1..] {
          var i :| 1 <= i < |a| && a[i] == e;
          assert Newer(a[0], e, stamp);
          assert e in b;
        }
        if e in b[1..] {
          var i :| 1 <= i < |b| && b[i] == e;
          assert Newer(b[0], e, stamp);
          assert e in a;
        }
      }
      NewestFirstIsDetermined(a[1..], b[1..], stamp);
      assert a == [a[0]] + a[1..] && b == [b[0]] + b[1..];
    }
  }

  /** A row that no row of a newest-first sequence is newer than comes first. */
  lemma MaximalHeads<T>(s: seq<(nat, T)>, e: (nat, T), stamp: T -> int)
    requires NewestFirst(s, stamp) && e in s
    requires forall k :: 0 <= k < |s| ==> !Newer(s[k], e, stamp)
    ensures s[0] == e
  {
    var p :| 0 <= p < |s| && s[p] == e;
    assert !Newer(s[0], e, stamp);
    assert p == 0;
  }

  /** The first `n` rows of a newest-first sequence: every row left out is
      older than every row kept, and rows are left out only when `n` rows
      were kept. */
  function Take<T>(s: seq<(nat, T)>, n: nat, stamp: T -> int): (r: seq<(nat, T)>)
    requires NewestFirst(s, stamp)
    ensures |r| <= n && |r| <= |s| && r == s[..|r|]
    ensures NewestFirst(r, stamp)
    ensures forall k :: |r| <= k < |s| ==>
              |r| == n && forall i :: 0 <= i < |r| ==> Newer(r[i], s[k], stamp)
  {
    if n < |s| then s[..n] else s
  }

  /** The rows of a table with ids below `n`, in ascending id order. */
  function Entries<T>(m: map<nat, T>, n: nat): (r: seq<(nat, T)>)
    ensures AscendingIds(r)
    ensures forall k :: 0 <= k < |r| ==> r[k].0 < n && r[k].0 in m && m[r[k].0] == r[k].1
    ensures forall id :: id < n && id in m ==> (id, m[id]) in r
  {
    if n == 0 then []
    else
      var below := Entries(m, n - 1);
      if n - 1 in m then below + [(n - 1, m[n - 1])] else below
  }

  /** Rows of a table in newest-first order never repeat an id. */
  lemma RowsHaveDistinctIds<T>(r: seq<(nat, T)>, m: map<nat, T>, stamp: T -> int)
    requires NewestFirst(r, stamp)
    requires forall k :: 0 <= k < |r| ==> r[k].0 in m && m[r[k].0] == r[k].1
    ensures DistinctIds(r)
  {
    forall i, j | 0 <= i < j < |r| ensures r[i].0 != r[j].0 {
      assert Newer(r[i], r[j], stamp);
    }
  }

  /** A permutation of the rows `Entries` lists lists the same rows. */
  lemma PermutedEntries<T>(m: map<nat, T>, n: nat, r: seq<(nat, T)>)
    requires multiset(r) == multiset(Entries(m, n))
    ensures forall k :: 0 <= k < |r| ==> r[k].0 < n && r[k].0 in m && m[r[k].0] == r[k].1
    ensures forall id :: id < n && id in m ==> (id, m[id]) in r
  {
    var all := Entries(m, n);
    forall k | 0 <= k < |r| ensures r[k].0 < n && r[k].0 in m && m[r[k].0] == r[k].1 {
      assert r[k] in multiset(all);
      var i :| 0 <= i < |all| && all[i] == r[k];
    }
    forall id | id < n && id in m ensures (id, m[id]) in r {
      assert (id, m[id]) in multiset(all);
    }
  }

  lemma AscendingIsDistinct<T>(s: seq<(nat, T)>)
    requires AscendingIds(s)
    ensures DistinctIds(s)
  {
  }

  /** The rows of table `m` with ids below `n`, newest first: what
      `orderBy(index).reverse().toArray()` returns. */
  function SortedRows<T(==)>(m: map<nat, T>, n: nat, stamp: T -> int): (r: seq<(nat, T)>)
    ensures NewestFirst(r, stamp) && DistinctIds(r)
    ensures forall k :: 0 <= k < |r| ==> r[k].0 < n && r[k].0 in m && m[r[k].0] == r[k].1
    ensures forall id :: id < n && id in m ==> (id, m[id]) in r
  {
    var all := Entries(m, n);
    AscendingIsDistinct(all);
    var r := SortNewest(all, stamp);
    PermutedEntries(m, n, r);
    RowsHaveDistinctIds(r, m, stamp);
    r
  }

  /** A row of a newest-first sequence that its first `n` rows leave out is
      older than all of them, and then `n` rows were kept. */
  lemma TakeLeavesOutOlder<T>(s: seq<(nat, T)>, n: nat, stamp: T -> int, e: (nat, T))
    requires NewestFirst(s, stamp) && e in s && e !in Take(s, n, stamp)
    ensures var r := Take(s, n, stamp);
            |r| == n && forall i :: 0 <= i < |r| ==> Newer(r[i], e, stamp)
  {
    var r := Take(s, n, stamp);
    var p :| 0 <= p < |s| && s[p] == e;
    assert p >= |r|;
  }
}
