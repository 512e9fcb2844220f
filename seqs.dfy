/**
 * Query-set building blocks over tables held as sequences: `filter`, order-preserving
 * subsequences, slicing (`[:n]`), reversal (newest first), `order_by` on an integer key
 * and `distinct`.
 */
module Seqs {

  /** `a` is obtained from `b` by deleting elements, keeping the order of the rest. */
  ghost predicate Subseq<T(!new)>(a: seq<T>, b: seq<T>)
    decreases |b|
  {
    a == [] || (b != [] && ((a[0] == b[0] && Subseq(a[1..], b[1..])) || Subseq(a, b[1..])))
  }

  /** `queryset.filter(p)`: the elements satisfying `p`, in their original order. */
  function Filter<T(!new)>(s: seq<T>, p: T -> bool): (r: seq<T>)
    ensures |r| <= |s|
    ensures forall x :: x in r <==> x in s && p(x)
    ensures Subseq(r, s)
  {
    if s == [] then []
    else if p(s[0]) then [s[0]] + Filter(s[1..], p)
    else Filter(s[1..], p)
  }

  lemma {:induction false} SubseqRefl<T(!new)>(s: seq<T>)
    ensures Subseq(s, s)
  {
    if s != [] {
      SubseqRefl(s[1..]);
    }
  }

  lemma {:induction false} SubseqTrans<T(!new)>(a: seq<T>, b: seq<T>, c: seq<T>)
    requires Subseq(a, b) && Subseq(b, c)
    ensures Subseq(a, c)
    decreases |c|
  {
    if a != [] {
      assert b != [] && c != [];
      if b[0] == c[0] && Subseq(b[1..], c[1..]) {
        if a[0] == b[0] && Subseq(a[1..], b[1..]) {
          SubseqTrans(a[1..], b[1..], c[1..]);
        } else {
          SubseqTrans(a, b[1..], c[1..]);
        }
      } else {
        SubseqTrans(a, b, c[1..]);
      }
    }
  }

  /** A filter every element passes keeps the whole sequence. */
  lemma {:induction false} FilterAll<T(!new)>(s: seq<T>, p: T -> bool)
    requires forall x :: x in s ==> p(x)
    ensures Filter(s, p) == s
  {
    if s != [] {
      assert forall x :: x in s[1..] ==> x in s;
      FilterAll(s[1..], p);
      assert s == [s[0]] + s[1..];
    }
  }

  /** A filter no element passes leaves nothing. */
  lemma {:induction false} FilterNone<T(!new)>(s: seq<T>, p: T -> bool)
    requires forall x :: x in s ==> !p(x)
    ensures Filter(s, p) == []
  {
    if s != [] {
      assert forall x :: x in s[1..] ==> x in s;
      FilterNone(s[1..], p);
    }
  }

  /** Filters with the same predicate extensionally give the same sequence. */
  lemma {:induction false} FilterExt<T(!new)>(s: seq<T>, p: T -> bool, q: T -> bool)
    requires forall x :: x in s ==> p(x) == q(x)
    ensures Filter(s, p) == Filter(s, q)
  {
    if s != [] {
      FilterExt(s[1..], p, q);
    }
  }

  /** Chaining two filters is filtering by their conjunction: Django's chained `.filter()` calls. */
  lemma {:induction false} FilterFilter<T(!new)>(s: seq<T>, p: T -> bool, q: T -> bool, pq: T -> bool)
    requires forall x :: x in s ==> pq(x) == (p(x) && q(x))
    ensures Filter(Filter(s, p), q) == Filter(s, pq)
  {
    if s != [] {
      FilterFilter(s[1..], p, q, pq);
    }
  }

  /** Filtering commutes with concatenation. */
  lemma {:induction false} FilterAppend<T(!new)>(a: seq<T>, b: seq<T>, p: T -> bool)
    ensures Filter(a + b, p) == Filter(a, p) + Filter(b, p)
  {
    if a != [] {
      var ab := a + b;
      assert ab[0] == a[0] && ab[1..] == a[1..] + b;
      FilterAppend(a[1..], b, p);
      if p(a[0]) {
        assert Filter(ab, p) == [a[0]] + Filter(a[1..] + b, p);
        assert Filter(a, p) == [a[0]] + Filter(a[1..], p);
      } else {
        assert Filter(ab, p) == Filter(a[1..] + b, p);
        assert Filter(a, p) == Filter(a[1..], p);
      }
    } else {
      assert a + b == b;
    }
  }

  /** Strictly increasing along the sequence with respect to `key`. */
  ghost predicate StrictlyAscending<T(!new)>(s: seq<T>, key: T -> nat)
  {
    forall i, j :: 0 <= i < j < |s| ==> key(s[i]) < key(s[j])
  }

  /** A filter keeps a strictly ascending sequence strictly ascending. */
  lemma {:induction false} FilterKeepsAscending<T(!new)>(s: seq<T>, p: T -> bool, key: T -> nat)
    requires StrictlyAscending(s, key)
    ensures StrictlyAscending(Filter(s, p), key)
  {
    if s != [] {
      FilterKeepsAscending(s[1..], p, key);
      if p(s[0]) {
        var r := Filter(s, p);
        var tail := Filter(s[1..], p);
        assert r == [s[0]] + tail;
        forall j | 1 <= j < |r| ensures key(r[0]) < key(r[j]) {
          assert r[j] == tail[j - 1];
          assert tail[j - 1] in s[1..];
        }
      }
    }
  }

  /** Strictly decreasing along the sequence with respect to `key`. */
  ghost predicate StrictlyDescending<T(!new)>(s: seq<T>, key: T -> nat)
  {
    forall i, j :: 0 <= i < j < |s| ==> key(s[i]) > key(s[j])
  }

  /** A filter keeps a strictly descending sequence strictly descending. */
  lemma {:induction false} FilterKeepsDescending<T(!new)>(s: seq<T>, p: T -> bool, key: T -> nat)
    requires StrictlyDescending(s, key)
    ensures StrictlyDescending(Filter(s, p), key)
  {
    if s != [] {
      FilterKeepsDescending(s[1..], p, key);
      if p(s[0]) {
        var r := Filter(s, p);
        var tail := Filter(s[1..], p);
        assert r == [s[0]] + tail;
        forall j | 1 <= j < |r| ensures key(r[0]) > key(r[j]) {
          assert r[j] == tail[j - 1];
          assert tail[j - 1] in s[1..];
        }
      }
    }
  }

  /**
   * On a table whose keys ascend, the first `n` matching rows read newest first are the
   * newest ones: every matching row left out has a smaller key than every row kept.
   */
  lemma {:induction false} TakeNewestKeepsLargestKeys<T(!new)>(s: seq<T>, p: T -> bool, n: nat, key: T -> nat)
    ensures StrictlyAscending(s, key) ==>
      forall x, y :: x in s && p(x) && x !in Take(Filter(Reverse(s), p), n) && y in Take(Filter(Reverse(s), p), n) ==>
        key(x) < key(y)
  {
    if StrictlyAscending(s, key) {
      var rev := Reverse(s);
      assert StrictlyDescending(rev, key) by {
        forall i, j | 0 <= i < j < |rev| ensures key(rev[i]) > key(rev[j]) {
          assert rev[i] == s[|s| - 1 - i] && rev[j] == s[|s| - 1 - j];
        }
      }
      var all := Filter(rev, p);
      FilterKeepsDescending(rev, p, key);
      ReverseMembership(s);
      var r := Take(all, n);
      forall x, y | x in s && p(x) && x !in r && y in r ensures key(x) < key(y) {
        var i :| 0 <= i < |all| && all[i] == x;
        var j :| 0 <= j < |r| && r[j] == y;
        assert all[j] == y;
      }
    }
  }

  /** Every element of a subsequence occurs in the whole. */
  lemma {:induction false} SubseqMembership<T(!new)>(a: seq<T>, b: seq<T>)
    requires Subseq(a, b)
    ensures forall x :: x in a ==> x in b
    decreases |b|
  {
    if a != [] {
      if a[0] == b[0] && Subseq(a[1..], b[1..]) {
        SubseqMembership(a[1..], b[1..]);
        assert forall x :: x in a ==> x == a[0] || x in a[1..];
      } else {
        SubseqMembership(a, b[1..]);
      }
    }
  }

  /** Deleting rows keeps primary keys ascending. */
  lemma {:induction false} SubseqKeepsAscending<T(!new)>(a: seq<T>, b: seq<T>, key: T -> nat)
    requires Subseq(a, b) && StrictlyAscending(b, key)
    ensures StrictlyAscending(a, key)
    decreases |b|
  {
    if a != [] {
      assert StrictlyAscending(b[1..], key) by {
        forall i, j | 0 <= i < j < |b[1..]| ensures key(b[1..][i]) < key(b[1..][j]) {
          assert b[1..][i] == b[i + 1] && b[1..][j] == b[j + 1];
        }
      }
      if a[0] == b[0] && Subseq(a[1..], b[1..]) {
        SubseqKeepsAscending(a[1..], b[1..], key);
        SubseqMembership(a[1..], b[1..]);
        forall i, j | 0 <= i < j < |a| ensures key(a[i]) < key(a[j]) {
          assert a[j] == a[1..][j - 1];
          if i == 0 {
            assert a[j] in a[1..];
            assert a[j] in b[1..];
            var k :| 0 <= k < |b[1..]| && b[1..][k] == a[j];
            assert b[k + 1] == a[j];
          } else {
            assert a[i] == a[1..][i - 1];
          }
        }
      } else {
        SubseqKeepsAscending(a, b[1..], key);
      }
    }
  }

  /** Appending a row whose key exceeds every key present keeps keys ascending. */
  lemma AppendKeepsAscending<T(!new)>(s: seq<T>, x: T, key: T -> nat)
    requires StrictlyAscending(s, key)
    requires forall y :: y in s ==> key(y) < key(x)
    ensures StrictlyAscending(s + [x], key)
  {
    var r := s + [x];
    forall i, j | 0 <= i < j < |r| ensures key(r[i]) < key(r[j]) {
      assert r[i] in s;
      if j < |s| { assert r[j] == s[j]; }
    }
  }

  /** Ascending keys are unique keys: a key names at most one row. */
  lemma AscendingKeysUnique<T(!new)>(s: seq<T>, key: T -> nat, x: T, y: T)
    requires StrictlyAscending(s, key) && x in s && y in s && key(x) == key(y)
    ensures x == y
  {
    var i :| 0 <= i < |s| && s[i] == x;
    var j :| 0 <= j < |s| && s[j] == y;
    if i < j {
      assert key(s[i]) < key(s[j]);
    } else if j < i {
      assert key(s[j]) < key(s[i]);
    }
  }

  /** The primary key the database hands out next: one more than the largest key present. */
  function NextKey<T(!new)>(s: seq<T>, key: T -> nat): (k: nat)
    requires StrictlyAscending(s, key)
    ensures k >= 1
    ensures forall x :: x in s ==> key(x) < k
  {
    if s == [] then 1
    else
      forall x | x in s ensures key(x) <= key(s[|s| - 1]) {
        var i :| 0 <= i < |s| && s[i] == x;
      }
      key(s[|s| - 1]) + 1
  }

  /** After an insert, the next key follows the new row's. */
  lemma NextKeyAfterAppend<T(!new)>(s: seq<T>, x: T, key: T -> nat)
    requires StrictlyAscending(s + [x], key)
    ensures StrictlyAscending(s, key)
    ensures NextKey(s + [x], key) == key(x) + 1
  {
    assert forall i :: 0 <= i < |s| ==> s[i] == (s + [x])[i];
    assert (s + [x])[|s + [x]| - 1] == x;
  }

  /** Python's slice `s[:n]`. */
  function Take<T(!new)>(s: seq<T>, n: nat): (r: seq<T>)
    ensures |r| == if |s| < n then |s| else n
    ensures r == s[..|r|]
  {
    if |s| <= n then s else s[..n]
  }

  /** A slice is an order-preserving subsequence. */
  lemma {:induction false} PrefixIsSubseq<T(!new)>(s: seq<T>, k: nat)
    requires k <= |s|
    ensures Subseq(s[..k], s)
  {
    if k > 0 {
      assert s[..k][0] == s[0];
      assert s[..k][1..] == s[1..][..k - 1];
      PrefixIsSubseq(s[1..], k - 1);
    } else {
      assert s[..k] == [];
    }
  }

  /** The same sequence backwards: a table in creation order read newest first. */
  function Reverse<T(!new)>(s: seq<T>): (r: seq<T>)
    ensures |r| == |s|
    ensures forall i :: 0 <= i < |s| ==> r[i] == s[|s| - 1 - i]
  {
    if s == [] then [] else Reverse(s[1..]) + [s[0]]
  }

  lemma ReverseMembership<T(!new)>(s: seq<T>)
    ensures forall x :: x in Reverse(s) <==> x in s
  {
    var r := Reverse(s);
    forall x | x in s ensures x in r {
      var i :| 0 <= i < |s| && s[i] == x;
      assert r[|s| - 1 - i] == x;
    }
  }

  /** A row appended to the table comes first when the table is read newest first. */
  lemma ReverseAppend<T(!new)>(s: seq<T>, x: T)
    ensures Reverse(s + [x]) == [x] + Reverse(s)
  {
    var l := Reverse(s + [x]);
    var r := [x] + Reverse(s);
    forall i | 0 <= i < |l| ensures l[i] == r[i] {
      if i > 0 {
        assert l[i] == (s + [x])[|s| - i] == s[|s| - 1 - (i - 1)];
      }
    }
  }

  /** Ascending by `key`, ties allowed. */
  ghost predicate SortedBy<T(!new)>(s: seq<T>, key: T -> int)
  {
    forall i, j :: 0 <= i < j < |s| ==> key(s[i]) <= key(s[j])
  }

  /** Inserts `x` before the first element whose key is not smaller (so `x` goes first among equal keys). */
  function InsertBy<T(!new)>(x: T, s: seq<T>, key: T -> int): (r: seq<T>)
    requires SortedBy(s, key)
    ensures SortedBy(r, key)
    ensures multiset(r) == multiset(s) + multiset{x}
  {
    if s == [] then [x]
    else if key(x) <= key(s[0]) then
      InsertFront(x, s, key);
      [x] + s
    else
      var rest := InsertBy(x, s[1..], key);
      InsertAfterHead(x, s, rest, key);
      [s[0]] + rest
  }

  lemma InsertFront<T(!new)>(x: T, s: seq<T>, key: T -> int)
    requires SortedBy(s, key) && s != [] && key(x) <= key(s[0])
    ensures SortedBy([x] + s, key)
  {
    var r := [x] + s;
    forall i, j | 0 <= i < j < |r| ensures key(r[i]) <= key(r[j]) {
      if i == 0 {
        assert r[j] == s[j - 1];
      } else {
        assert r[i] == s[i - 1] && r[j] == s[j - 1];
      }
    }
  }

  lemma InsertAfterHead<T(!new)>(x: T, s: seq<T>, rest: seq<T>, key: T -> int)
    requires SortedBy(s, key) && s != [] && key(s[0]) < key(x)
    requires SortedBy(rest, key) && multiset(rest) == multiset(s[1..]) + multiset{x}
    ensures SortedBy([s[0]] + rest, key)
    ensures multiset([s[0]] + rest) == multiset(s) + multiset{x}
  {
    assert s == [s[0]] + s[1..];
    var r := [s[0]] + rest;
    forall i, j | 0 <= i < j < |r| ensures key(r[i]) <= key(r[j]) {
      if i == 0 {
        var y := rest[j - 1];
        assert y in multiset(rest);
        if y != x {
          assert y in multiset(s[1..]);
          var k :| 0 <= k < |s[1..]| && s[1..][k] == y;
          assert s[k + 1] == y;
        }
      } else {
        assert r[i] == rest[i - 1] && r[j] == rest[j - 1];
      }
    }
  }

  /** `order_by(key)` as a stable insertion sort: equal keys keep their table order. */
  function SortBy<T(!new)>(s: seq<T>, key: T -> int): (r: seq<T>)
    ensures SortedBy(r, key)
    ensures multiset(r) == multiset(s)
  {
    if s == [] then []
    else
      assert s == [s[0]] + s[1..];
      InsertBy(s[0], SortBy(s[1..], key), key)
  }

  lemma SortByMembership<T(!new)>(s: seq<T>, key: T -> int)
    ensures forall x :: x in SortBy(s, key) <==> x in s
  {
    var r := SortBy(s, key);
    forall x ensures x in r <==> x in s {
      assert x in r <==> x in multiset(r);
      assert x in s <==> x in multiset(s);
    }
  }

  /** The earliest element with the smallest key. */
  function FirstMin<T(!new)>(s: seq<T>, key: T -> int): (m: T)
    requires s != []
    ensures m in s
    ensures forall y :: y in s ==> key(m) <= key(y)
  {
    if |s| == 1 then s[0]
    else
      var m := FirstMin(s[1..], key);
      assert forall y :: y in s ==> y == s[0] || y in s[1..];
      if key(s[0]) <= key(m) then s[0] else m
  }

  /** The head of the sorted sequence is the earliest element with the smallest key. */
  lemma {:induction false} SortByHead<T(!new)>(s: seq<T>, key: T -> int)
    requires s != []
    ensures SortBy(s, key) != [] && SortBy(s, key)[0] == FirstMin(s, key)
  {
    assert s == [s[0]] + s[1..];
    assert |multiset(SortBy(s, key))| == |s|;
    if |s| > 1 {
      SortByHead(s[1..], key);
    } else {
      assert s[1..] == [];
    }
  }

  /** Sorting a sorted sequence leaves it as it is. */
  lemma {:induction false} SortByOfSorted<T(!new)>(s: seq<T>, key: T -> int)
    requires SortedBy(s, key)
    ensures SortBy(s, key) == s
  {
    if s != [] {
      assert SortedBy(s[1..], key) by {
        forall i, j | 0 <= i < j < |s[1..]| ensures key(s[1..][i]) <= key(s[1..][j]) {
          assert s[1..][i] == s[i + 1] && s[1..][j] == s[j + 1];
        }
      }
      SortByOfSorted(s[1..], key);
      assert s == [s[0]] + s[1..];
    }
  }

  /** `distinct()`: one occurrence of each value (its last), in order. */
  function Distinct<T(==,!new)>(s: seq<T>): (r: seq<T>)
    ensures forall x :: x in r <==> x in s
    ensures forall i, j :: 0 <= i < j < |r| ==> r[i] != r[j]
  {
    if s == [] then []
    else
      var rest := Distinct(s[1..]);
      if s[0] in rest then rest
      else
        assert forall j :: 0 <= j < |rest| ==> s[0] != rest[j];
        [s[0]] + rest
  }

  /** Each element mapped by `f`: `values_list(field, flat=True)`. */
  function Map<T(!new), U>(s: seq<T>, f: T -> U): (r: seq<U>)
    ensures |r| == |s|
    ensures forall i :: 0 <= i < |s| ==> r[i] == f(s[i])
  {
    if s == [] then [] else [f(s[0])] + Map(s[1..], f)
  }
}
