/**
 * Listing an id-keyed table: the rows in ascending id order, ordering by a
 * column, and keeping the rows that satisfy a condition. These stand for the
 * `findMany` queries of the ORM.
 */
module Tables {

  /** The smallest key of a non-empty set of keys. */
  function MinKey(s: set<int>): (k: int)
    requires s != {}
    ensures k in s
    ensures forall j :: j in s ==> k <= j
  {
    HasMinimum(s);
    var k :| k in s && forall j :: j in s ==> k <= j;
    k
  }

  lemma {:induction false} HasMinimum(s: set<int>)
    requires s != {}
    ensures exists k :: k in s && forall j :: j in s ==> k <= j
    decreases |s|
  {
    HasElement(s);
    var x :| x in s;
    var rest := s - {x};
    if rest == {} {
      SmallestOfSingleton(s, x);
    } else {
      HasMinimum(rest);
      var m :| m in rest && forall j :: j in rest ==> m <= j;
      SmallestOfSplit(s, x, m);
    }
  }

  lemma SmallestOfSingleton(s: set<int>, x: int)
    requires x in s && s - {x} == {}
    ensures forall j :: j in s ==> x <= j
  {
    assert s == {x};
  }

  /** The smaller of `x` and the least element of the rest is the least element of `s`. */
  lemma SmallestOfSplit(s: set<int>, x: int, m: int)
    requires x in s && m in s - {x}
    requires forall j :: j in s - {x} ==> m <= j
    ensures var k := if x < m then x else m; k in s && forall j :: j in s ==> k <= j
  {
    forall j | j in s ensures (if x < m then x else m) <= j {
      if j != x {
        assert j in s - {x};
      }
    }
  }

  lemma HasElement(s: set<int>)
    requires s != {}
    ensures exists k :: k in s
  {
    if forall k :: k !in s {
      assert false;
    }
  }

  /** The keys of `s`, each once, in strictly ascending order. */
  function SortedKeys(s: set<int>): (r: seq<int>)
    ensures |r| == |s|
    ensures forall k :: k in s <==> k in r
    ensures forall i, j :: 0 <= i < j < |r| ==> r[i] < r[j]
    decreases |s|
  {
    if s == {} then []
    else
      var k := MinKey(s);
      [k] + SortedKeys(s - {k})
  }

  /** The rows of table `m`, in ascending key order. */
  function Rows<T>(m: map<int, T>): (r: seq<T>)
    ensures |r| == |m|
    ensures forall i :: 0 <= i < |r| ==> SortedKeys(m.Keys)[i] in m && r[i] == m[SortedKeys(m.Keys)[i]]
  {
    var ks := SortedKeys(m.Keys);
    seq(|ks|, i requires 0 <= i < |ks| => m[ks[i]])
  }

  /** A row is listed if and only if it is stored. */
  lemma {:induction false} RowsMembers<T>(m: map<int, T>, x: T)
    ensures x in Rows(m) <==> x in m.Values
  {
    var ks := SortedKeys(m.Keys);
    var r := Rows(m);
    if x in m.Values {
      var k :| k in m && m[k] == x;
      assert k in ks;
      var i :| 0 <= i < |ks| && ks[i] == k;
      assert r[i] == x;
    }
    if x in r {
      var i :| 0 <= i < |r| && r[i] == x;
      assert ks[i] in m;
    }
  }

  /** Every key of `table` is the `id` of the record under it. */
  ghost predicate KeyedBy<T>(table: map<int, T>, id: T -> int)
  {
    forall k :: k in table ==> id(table[k]) == k
  }

  /** Every key of `table` is the `id` of the record under it and was issued below `next`. */
  ghost predicate Keyed<T>(table: map<int, T>, next: int, id: T -> int)
  {
    KeyedBy(table, id) && forall k :: k in table ==> 1 <= k < next
  }

  /** No element occurs twice in `s`. */
  ghost predicate Distinct<T>(s: seq<T>)
  {
    forall i, j :: 0 <= i < j < |s| ==> s[i] != s[j]
  }

  /** The rows of a table whose records carry their own key are pairwise distinct. */
  lemma RowsDistinct<T>(table: map<int, T>, id: T -> int)
    requires KeyedBy(table, id)
    ensures Distinct(Rows(table))
  {
    var ks := SortedKeys(table.Keys);
    var r := Rows(table);
    forall i, j | 0 <= i < j < |r| ensures r[i] != r[j] {
      assert id(r[i]) == ks[i] && id(r[j]) == ks[j];
    }
  }

  /** In a list without repeats every element occurs at most once. */
  lemma {:induction false} DistinctCount<T>(s: seq<T>, x: T)
    requires Distinct(s)
    ensures multiset(s)[x] <= 1
  {
    if s != [] {
      var t := s[1..];
      assert s == [s[0]] + t;
      assert Distinct(t) by {
        forall i, j | 0 <= i < j < |t| ensures t[i] != t[j] {
          assert t[i] == s[i + 1] && t[j] == s[j + 1];
        }
      }
      DistinctCount(t, x);
      if x == s[0] {
        assert x !in t by {
          forall k | 0 <= k < |t| ensures t[k] != x {
            assert t[k] == s[k + 1];
          }
        }
      }
    }
  }

  /** The element at `i` is counted once for itself and once more if it recurs at `j`. */
  lemma CountAtTwoPositions<T>(s: seq<T>, i: int, j: int)
    requires 0 <= i < j < |s|
    ensures multiset(s)[s[i]] >= if s[j] == s[i] then 2 else 1
  {
    assert s == s[..i] + [s[i]] + s[i + 1..j] + [s[j]] + s[j + 1..];
  }

  /** A reordering of a list without repeats has no repeats. */
  lemma DistinctPermutation<T>(a: seq<T>, b: seq<T>)
    requires multiset(a) == multiset(b) && Distinct(b)
    ensures Distinct(a)
  {
    forall i, j | 0 <= i < j < |a| ensures a[i] != a[j] {
      DistinctCount(b, a[i]);
      CountAtTwoPositions(a, i, j);
    }
  }

  /** `s` is in non-decreasing order of `key`. */
  ghost predicate SortedBy<T>(s: seq<T>, key: T -> int)
  {
    forall i, j :: 0 <= i < j < |s| ==> key(s[i]) <= key(s[j])
  }

  /** Inserts `x` into a list already ordered by `key`. */
  function InsertBy<T>(x: T, s: seq<T>, key: T -> int): (r: seq<T>)
    requires SortedBy(s, key)
    ensures SortedBy(r, key)
    ensures multiset(r) == multiset(s) + multiset{x}
  {
    if s == [] then [x]
    else if key(x) <= key(s[0]) then [x] + s
    else
      var rest := InsertBy(x, s[1..], key);
      assert s == [s[0]] + s[1..];
      LowerBoundKept(x, s[0], s[1..], rest, key);
      [s[0]] + rest
  }

  /** Putting `h` in front of the insertion result keeps the order. */
  lemma {:induction false} LowerBoundKept<T>(x: T, h: T, t: seq<T>, rest: seq<T>, key: T -> int)
    requires SortedBy([h] + t, key) && SortedBy(rest, key)
    requires key(h) < key(x)
    requires multiset(rest) == multiset(t) + multiset{x}
    ensures SortedBy([h] + rest, key)
  {
    forall j | 0 <= j < |rest| ensures key(h) <= key(rest[j]) {
      assert rest[j] in multiset(rest);
      if rest[j] != x {
        assert rest[j] in multiset(t);
        var k :| 0 <= k < |t| && t[k] == rest[j];
        assert ([h] + t)[0] == h && ([h] + t)[k + 1] == t[k];
      }
    }
    var r := [h] + rest;
    forall i, j | 0 <= i < j < |r| ensures key(r[i]) <= key(r[j]) {
      if i > 0 {
        assert r[i] == rest[i - 1] && r[j] == rest[j - 1];
      } else {
        assert r[j] == rest[j - 1];
      }
    }
  }

  /** `s` reordered by non-decreasing `key`; ties keep no promised order. */
  function SortBy<T>(s: seq<T>, key: T -> int): (r: seq<T>)
    ensures SortedBy(r, key)
    ensures multiset(r) == multiset(s)
  {
    if s == [] then []
    else
      assert s == [s[0]] + s[1..];
      InsertBy(s[0], SortBy(s[1..], key), key)
  }

  /** The elements of `s` that satisfy `p`, in their order in `s`. */
  function Filter<T>(s: seq<T>, p: T -> bool): (r: seq<T>)
    ensures |r| <= |s|
    ensures forall i :: 0 <= i < |r| ==> r[i] in s && p(r[i])
    ensures forall i :: 0 <= i < |s| && p(s[i]) ==> s[i] in r
  {
    if s == [] then []
    else
      assert s == [s[0]] + s[1..];
      (if p(s[0]) then [s[0]] else []) + Filter(s[1..], p)
  }

  /** Filtering a list without repeats gives a list without repeats. */
  lemma {:induction false} FilterDistinct<T>(s: seq<T>, p: T -> bool)
    requires Distinct(s)
    ensures Distinct(Filter(s, p))
  {
    if s != [] {
      var t := s[1..];
      assert s == [s[0]] + t;
      var head := if p(s[0]) then [s[0]] else [];
      var rest := Filter(t, p);
      assert Filter(s, p) == head + rest;
      assert Distinct(t) by {
        forall i, j | 0 <= i < j < |t| ensures t[i] != t[j] {
          assert t[i] == s[i + 1] && t[j] == s[j + 1];
        }
      }
      FilterDistinct(t, p);
      assert s[0] !in rest by {
        forall k | 0 <= k < |rest| ensures rest[k] != s[0] {
          assert rest[k] in t;
          var m :| 0 <= m < |t| && t[m] == rest[k];
          assert t[m] == s[m + 1];
        }
      }
      var r := head + rest;
      forall i, j | 0 <= i < j < |r| ensures r[i] != r[j] {
        if i < |head| {
          assert r[i] == s[0] && r[j] == rest[j - |head|];
        } else {
          assert r[i] == rest[i - |head|] && r[j] == rest[j - |head|];
        }
      }
    }
  }

  /** Sorting keeps exactly the elements it was given. */
  lemma SortByMembers<T>(s: seq<T>, key: T -> int, x: T)
    ensures x in SortBy(s, key) <==> x in s
  {
    assert multiset(SortBy(s, key)) == multiset(s);
    assert x in SortBy(s, key) <==> x in multiset(SortBy(s, key));
    assert x in s <==> x in multiset(s);
  }

  /** An element is kept by the filter if and only if it is in `s` and satisfies `p`. */
  lemma FilterMembers<T>(s: seq<T>, p: T -> bool, x: T)
    ensures x in Filter(s, p) <==> x in s && p(x)
  {
    var r := Filter(s, p);
    if x in r {
      var i :| 0 <= i < |r| && r[i] == x;
    }
    if x in s && p(x) {
      var i :| 0 <= i < |s| && s[i] == x;
    }
  }
}
