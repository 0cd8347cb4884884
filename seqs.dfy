/** The query-builder steps the controllers chain over a table: `where`,
    `distinct`, `orderBy ... desc` (as `latest()` uses it), `paginate` and
    `sum`, each as a function over a sequence of rows. */
module Seqs {

  import opened Base

  /** `where(...)`: the rows that satisfy `keep`, in table order. */
  function Filter<T>(s: seq<T>, keep: T -> bool): (r: seq<T>)
    ensures |r| <= |s|
    ensures forall x :: x in r ==> x in s && keep(x)
    ensures forall x :: x in s && keep(x) ==> x in r
    ensures forall k :: 0 <= k < |r| ==> keep(r[k])
  {
    if s == [] then []
    else (if keep(s[0]) then [s[0]] else []) + Filter(s[1..], keep)
  }

  /** Filtering twice, the second time by a stronger condition, is filtering
      once by the stronger condition. */
  lemma {:induction false} FilterTwice<T>(s: seq<T>, weak: T -> bool, strong: T -> bool)
    requires forall x :: x in s && strong(x) ==> weak(x)
    ensures Filter(Filter(s, weak), strong) == Filter(s, strong)
  {
    if s != [] {
      var w := Filter(s[1..], weak);
      FilterTwice(s[1..], weak, strong);
      if weak(s[0]) {
        assert Filter(s, weak) == [s[0]] + w;
        assert ([s[0]] + w)[1..] == w;
      } else {
        assert Filter(s, weak) == w;
      }
    }
  }

  /** Filtering by a condition every row meets keeps every row. */
  lemma {:induction false} FilterAll<T>(s: seq<T>, keep: T -> bool)
    requires forall x :: x in s ==> keep(x)
    ensures Filter(s, keep) == s
  {
    if s != [] {
      assert forall x :: x in s[1..] ==> x in s;
      FilterAll(s[1..], keep);
    }
  }

  /** No row meets the condition: nothing is left. */
  lemma {:induction false} FilterNone<T>(s: seq<T>, keep: T -> bool)
    requires forall x :: x in s ==> !keep(x)
    ensures Filter(s, keep) == []
  {
    if s != [] {
      assert forall x :: x in s[1..] ==> x in s;
      FilterNone(s[1..], keep);
    }
  }

  /** `pluck(...)`: one column of every row. */
  function Map<T, U>(s: seq<T>, f: T -> U): (r: seq<U>)
    ensures |r| == |s|
    ensures forall k :: 0 <= k < |s| ==> r[k] == f(s[k])
  {
    seq(|s|, k requires 0 <= k < |s| => f(s[k]))
  }

  predicate NoDuplicates<T(==)>(s: seq<T>) {
    forall i, j :: 0 <= i < j < |s| ==> s[i] != s[j]
  }

  /** Dropping rows keeps the remaining ones distinct. */
  lemma {:induction false} FilterNoDuplicates<T>(s: seq<T>, keep: T -> bool)
    requires NoDuplicates(s)
    ensures NoDuplicates(Filter(s, keep))
  {
    if s != [] {
      assert NoDuplicates(s[1..]) by {
        forall i, j | 0 <= i < j < |s[1..]| ensures s[1..][i] != s[1..][j] {
          assert s[1..][i] == s[i + 1] && s[1..][j] == s[j + 1];
        }
      }
      FilterNoDuplicates(s[1..], keep);
      var rest := Filter(s[1..], keep);
      if keep(s[0]) {
        assert s[0] !in s[1..] by {
          forall j | 0 <= j < |s[1..]| ensures s[1..][j] != s[0] {
            assert s[1..][j] == s[j + 1];
          }
        }
        forall i, j | 0 <= i < j < |[s[0]] + rest| ensures ([s[0]] + rest)[i] != ([s[0]] + rest)[j] {
          if i == 0 {
            assert ([s[0]] + rest)[j] == rest[j - 1];
            assert rest[j - 1] in rest;
          } else {
            assert ([s[0]] + rest)[i] == rest[i - 1] && ([s[0]] + rest)[j] == rest[j - 1];
          }
        }
      }
    }
  }

  /** Every two rows, in table order, are related by `rel`. */
  predicate Pairwise<T>(s: seq<T>, rel: (T, T) -> bool) {
    forall i, j :: 0 <= i < j < |s| ==> rel(s[i], s[j])
  }

  /** Dropping rows keeps every remaining pair related. */
  lemma {:induction false} FilterPairwise<T>(s: seq<T>, keep: T -> bool, rel: (T, T) -> bool)
    requires Pairwise(s, rel)
    ensures Pairwise(Filter(s, keep), rel)
  {
    if s != [] {
      assert Pairwise(s[1..], rel) by {
        forall i, j | 0 <= i < j < |s[1..]| ensures rel(s[1..][i], s[1..][j]) {
          assert s[1..][i] == s[i + 1] && s[1..][j] == s[j + 1];
        }
      }
      FilterPairwise(s[1..], keep, rel);
      var rest := Filter(s[1..], keep);
      if keep(s[0]) {
        forall i, j | 0 <= i < j < |[s[0]] + rest| ensures rel(([s[0]] + rest)[i], ([s[0]] + rest)[j]) {
          if i == 0 {
            assert ([s[0]] + rest)[j] == rest[j - 1];
            assert rest[j - 1] in s[1..];
            var m :| 0 <= m < |s[1..]| && s[1..][m] == rest[j - 1];
            assert s[m + 1] == rest[j - 1];
          } else {
            assert ([s[0]] + rest)[i] == rest[i - 1] && ([s[0]] + rest)[j] == rest[j - 1];
          }
        }
      }
    }
  }

  /** `distinct()`: each value once, at its first occurrence. */
  function Distinct<T(==)>(s: seq<T>): (r: seq<T>)
    ensures NoDuplicates(r)
    ensures forall x :: x in r ==> x in s
    ensures forall x :: x in s ==> x in r
    decreases |s|
  {
    if s == [] then []
    else
      var r := Distinct(s[..|s| - 1]);
      if s[|s| - 1] in r then r else r + [s[|s| - 1]]
  }

  /** Largest key first. */
  predicate SortedDesc<T>(s: seq<T>, key: T -> int) {
    forall i, j :: 0 <= i < j < |s| ==> key(s[i]) >= key(s[j])
  }

  /** Places `x` before the first row whose key is not larger than its own. */
  function Insert<T>(x: T, s: seq<T>, key: T -> int): (r: seq<T>)
    requires SortedDesc(s, key)
    ensures SortedDesc(r, key)
    ensures multiset(r) == multiset(s) + multiset{x}
  {
    if s == [] then [x]
    else if key(s[0]) > key(x) then
      var tail := Insert(x, s[1..], key);
      assert s == [s[0]] + s[1..];
      forall y | y in s[1..] ensures key(s[0]) >= key(y) {
        var j :| 0 <= j < |s[1..]| && s[1..][j] == y;
        assert s[j + 1] == y;
      }
      BoundedAfterAdding(key(s[0]), x, s[1..], tail, key);
      ConsSorted(s[0], tail, key);
      [s[0]] + tail
    else
      ConsSorted(x, s, key);
      [x] + s
  }

  /** A bound on every key of `s`, and on the key of `x`, bounds every key of
      a list holding the rows of `s` and `x`. */
  lemma BoundedAfterAdding<T>(b: int, x: T, s: seq<T>, r: seq<T>, key: T -> int)
    requires multiset(r) == multiset(s) + multiset{x}
    requires b >= key(x) && forall y :: y in s ==> b >= key(y)
    ensures forall y :: y in r ==> b >= key(y)
  {
    forall y | y in r ensures b >= key(y) {
      assert y in multiset(r);
    }
  }

  /** A row whose key bounds a sorted list's keys can go in front of it. */
  lemma ConsSorted<T>(h: T, s: seq<T>, key: T -> int)
    requires SortedDesc(s, key) && forall y :: y in s ==> key(h) >= key(y)
    ensures SortedDesc([h] + s, key)
  {
    var r := [h] + s;
    forall i, j | 0 <= i < j < |r| ensures key(r[i]) >= key(r[j]) {
      assert r[j] == s[j - 1] && r[j] in s;
      if i > 0 {
        assert r[i] == s[i - 1];
      }
    }
  }

  /** `orderBy(key, 'desc')`: a permutation of the rows, largest key first;
      rows with equal keys keep their table order. */
  function SortDesc<T>(s: seq<T>, key: T -> int): (r: seq<T>)
    ensures SortedDesc(r, key)
    ensures multiset(r) == multiset(s)
    ensures |r| == |s|
  {
    if s == [] then []
    else
      assert s == [s[0]] + s[1..];
      Insert(s[0], SortDesc(s[1..], key), key)
  }

  /** The rows whose key is `c`, in their order. */
  function RowsWithKey<T>(s: seq<T>, key: T -> int, c: int): seq<T> {
    if s == [] then [] else (if key(s[0]) == c then [s[0]] else []) + RowsWithKey(s[1..], key, c)
  }

  /** The rows with key `c` of a row in front of a list. */
  lemma RowsWithKeyCons<T>(h: T, t: seq<T>, key: T -> int, c: int)
    ensures RowsWithKey([h] + t, key, c) == (if key(h) == c then [h] else []) + RowsWithKey(t, key, c)
  {
    assert ([h] + t)[1..] == t;
  }

  /** Inserting places `x` after every earlier row with the same key. */
  lemma {:induction false} InsertAfterEqualKeys<T>(x: T, s: seq<T>, key: T -> int, c: int)
    requires SortedDesc(s, key)
    ensures RowsWithKey(Insert(x, s, key), key, c) == (if key(x) == c then [x] else []) + RowsWithKey(s, key, c)
  {
    if s == [] || key(s[0]) <= key(x) {
      assert Insert(x, s, key) == [x] + s;
      RowsWithKeyCons(x, s, key, c);
    } else {
      SortedTail(s, key);
      InsertAfterEqualKeys(x, s[1..], key, c);
      InsertBehindHead(x, s, key, c);
    }
  }

  /** The rest of a sorted list is sorted. */
  lemma SortedTail<T>(s: seq<T>, key: T -> int)
    requires s != [] && SortedDesc(s, key)
    ensures SortedDesc(s[1..], key)
  {
    forall i, j | 0 <= i < j < |s| - 1 ensures key(s[1..][i]) >= key(s[1..][j]) {
      assert s[1..][i] == s[i + 1] && s[1..][j] == s[j + 1];
    }
  }

  /** The step of `InsertAfterEqualKeys` where `x` goes behind the head. */
  lemma InsertBehindHead<T>(x: T, s: seq<T>, key: T -> int, c: int)
    requires SortedDesc(s, key) && s != [] && key(s[0]) > key(x)
    requires RowsWithKey(Insert(x, s[1..], key), key, c) == (if key(x) == c then [x] else []) + RowsWithKey(s[1..], key, c)
    ensures RowsWithKey(Insert(x, s, key), key, c) == (if key(x) == c then [x] else []) + RowsWithKey(s, key, c)
  {
    SortedTail(s, key);
    var tail := Insert(x, s[1..], key);
    assert Insert(x, s, key) == [s[0]] + tail;
    RowsWithKeyCons(s[0], tail, key, c);
    var r1 := RowsWithKey(s[1..], key, c);
    if key(x) == c {
      // The head's key is larger, so it is not among the rows with key c.
      assert RowsWithKey(s, key, c) == r1;
      assert RowsWithKey([s[0]] + tail, key, c) == RowsWithKey(tail, key, c);
    } else {
      assert RowsWithKey(tail, key, c) == r1;
    }
  }

  /** `SortDesc` is stable: the rows sharing a key come out in table
      order. */
  lemma {:induction false} SortDescStable<T>(s: seq<T>, key: T -> int, c: int)
    ensures RowsWithKey(SortDesc(s, key), key, c) == RowsWithKey(s, key, c)
  {
    if s != [] {
      SortDescStable(s[1..], key, c);
      InsertAfterEqualKeys(s[0], SortDesc(s[1..], key), key, c);
    }
  }

  /** The page number Laravel's paginator reads from the query string: a
      missing or non-positive one is page 1. */
  function CurrentPage(page: Option<int>): (p: nat)
    ensures p >= 1
    ensures page.Some? && page.value >= 1 ==> p == page.value
  {
    if page.Some? && page.value >= 1 then page.value else 1
  }

  /** The position of the first row of page `page`: the offset of the
      paginator's `LIMIT ... OFFSET ...` query. */
  function PageStart(page: nat, size: nat): nat
    requires page >= 1
  {
    (page - 1) * size
  }

  /** `paginate(size)`: the rows of page `page`, counting from 1. */
  function PageOf<T>(s: seq<T>, page: nat, size: nat): (r: seq<T>)
    requires page >= 1 && size >= 1
    ensures |r| <= size
    ensures forall k :: 0 <= k < |r| ==> PageStart(page, size) + k < |s| && r[k] == s[PageStart(page, size) + k]
    ensures var lo := PageStart(page, size); |r| == if lo >= |s| then 0 else if lo + size <= |s| then size else |s| - lo
  {
    var lo := PageStart(page, size);
    if lo >= |s| then []
    else s[lo .. if lo + size <= |s| then lo + size else |s|]
  }

  /** Every row of a page is a row of the list. */
  lemma PageWithin<T>(s: seq<T>, page: nat, size: nat)
    requires page >= 1 && size >= 1
    ensures forall y :: y in PageOf(s, page, size) ==> y in s
  {
    var r := PageOf(s, page, size);
    forall y | y in r ensures y in s {
      var k :| 0 <= k < |r| && r[k] == y;
      assert s[PageStart(page, size) + k] == y;
    }
  }

  /** A page of a list sorted newest first is itself sorted newest first. */
  lemma PageSorted<T>(s: seq<T>, page: nat, size: nat, key: T -> int)
    requires page >= 1 && size >= 1 && SortedDesc(s, key)
    ensures SortedDesc(PageOf(s, page, size), key)
  {
    var r := PageOf(s, page, size);
    forall i, j | 0 <= i < j < |r| ensures key(r[i]) >= key(r[j]) {
      assert r[i] == s[PageStart(page, size) + i] && r[j] == s[PageStart(page, size) + j];
    }
  }

  /** Every row lies on exactly the page its position says: row `k` is entry
      `k % size` of page `k / size + 1`. */
  lemma PageHolds<T>(s: seq<T>, size: nat, k: nat)
    requires size >= 1 && k < |s|
    ensures var r := PageOf(s, k / size + 1, size); k % size < |r| && r[k % size] == s[k]
  {
    var p := k / size + 1;
    assert PageStart(p, size) + k % size == k;
  }

  /** `sum(f)`. */
  function Sum<T>(s: seq<T>, f: T -> real): real {
    if s == [] then 0.0 else f(s[0]) + Sum(s[1..], f)
  }

  lemma {:induction false} SumAppend<T>(s: seq<T>, t: seq<T>, f: T -> real)
    ensures Sum(s + t, f) == Sum(s, f) + Sum(t, f)
  {
    if s == [] {
      assert s + t == t;
    } else {
      assert (s + t)[1..] == s[1..] + t;
      SumAppend(s[1..], t, f);
    }
  }

  lemma {:induction false} SumNonNegative<T>(s: seq<T>, f: T -> real)
    requires forall x :: x in s ==> f(x) >= 0.0
    ensures Sum(s, f) >= 0.0
  {
    if s != [] {
      SumNonNegative(s[1..], f);
    }
  }
}
