/**
 * Sequence queries the store answers: filtering, ordering and
 * offset/limit paging (SQL `WHERE`, `ORDER BY`, `OFFSET`, `LIMIT`).
 */
module Seqs {
  import opened Wrappers

  /** The elements of `s` that satisfy `p`, in their original order. */
  function Filter<T>(s: seq<T>, p: T -> bool): (r: seq<T>)
    ensures |r| <= |s|
    ensures forall i :: 0 <= i < |r| ==> r[i] in s && p(r[i])
    ensures forall x :: x in s && p(x) ==> x in r
  {
    if s == [] then []
    else (if p(s[0]) then [s[0]] else []) + Filter(s[1..], p)
  }

  lemma {:induction false} FilterAppend<T>(a: seq<T>, b: seq<T>, p: T -> bool)
    ensures Filter(a + b, p) == Filter(a, p) + Filter(b, p)
  {
    if a == [] {
      assert a + b == b;
    } else {
      assert (a + b)[1..] == a[1..] + b;
      FilterAppend(a[1..], b, p);
    }
  }

  /** Filtering keeps every element when all of them satisfy the condition. */
  lemma {:induction false} FilterAll<T>(s: seq<T>, p: T -> bool)
    requires forall x :: x in s ==> p(x)
    ensures Filter(s, p) == s
  {
    if s != [] {
      FilterAll(s[1..], p);
    }
  }

  /** Filtering keeps nothing when no element satisfies the condition. */
  lemma {:induction false} FilterNone<T>(s: seq<T>, p: T -> bool)
    requires forall i :: 0 <= i < |s| ==> !p(s[i])
    ensures Filter(s, p) == []
  {
    if s != [] {
      FilterNone(s[1..], p);
    }
  }

  /** Filtering twice is filtering once by the conjunction; a redundant second filter drops nothing. */
  lemma {:induction false} FilterFilter<T>(s: seq<T>, p: T -> bool, q: T -> bool)
    requires forall i :: 0 <= i < |s| && q(s[i]) ==> p(s[i])
    ensures Filter(Filter(s, p), q) == Filter(s, q)
  {
    if s != [] {
      FilterFilter(s[1..], p, q);
      if p(s[0]) {
        var f := Filter(s, p);
        assert f == [s[0]] + Filter(s[1..], p);
        assert f[0] == s[0] && f[1..] == Filter(s[1..], p);
        assert Filter(f, q) == (if q(s[0]) then [s[0]] else []) + Filter(f[1..], q);
      } else {
        assert !q(s[0]);
        assert Filter(s, p) == Filter(s[1..], p);
        assert Filter(s, q) == Filter(s[1..], q);
      }
    }
  }

  /** `s` with its first `offset` elements skipped and at most `limit` kept. */
  function Page<T>(s: seq<T>, offset: Option<nat>, limit: Option<nat>): (r: seq<T>)
    ensures var o := if offset.Some? && offset.value < |s| then offset.value
                     else if offset.Some? then |s| else 0;
            |r| == (if limit.Some? && limit.value < |s| - o then limit.value else |s| - o) &&
            forall i :: 0 <= i < |r| ==> r[i] == s[o + i]
  {
    var rest := if offset.None? then s
                else if offset.value < |s| then s[offset.value..] else [];
    if limit.Some? && limit.value < |rest| then rest[..limit.value] else rest
  }

  /** The start of a page: the offset, capped at the sequence's length. */
  function PageStart<T>(s: seq<T>, offset: Option<nat>): (o: nat)
    ensures o <= |s|
  {
    if offset.Some? && offset.value < |s| then offset.value else if offset.Some? then |s| else 0
  }

  /** Every element of a page is the element of `s` at the page start plus its position. */
  lemma {:induction false} PageIndex<T>(s: seq<T>, offset: Option<nat>, limit: Option<nat>, i: int)
    requires 0 <= i < |Page(s, offset, limit)|
    ensures PageStart(s, offset) + i < |s|
    ensures Page(s, offset, limit)[i] == s[PageStart(s, offset) + i]
  {
  }

  /** A page of a sorted sequence is sorted, and holds only elements of the sequence. */
  lemma {:induction false} PageSorted<T>(s: seq<T>, offset: Option<nat>, limit: Option<nat>, le: (T, T) -> bool)
    requires SortedBy(s, le)
    ensures SortedBy(Page(s, offset, limit), le)
    ensures forall x :: x in Page(s, offset, limit) ==> x in s
  {
    var r := Page(s, offset, limit);
    forall i, j | 0 <= i < j < |r| ensures le(r[i], r[j]) {
      PageIndex(s, offset, limit, i);
      PageIndex(s, offset, limit, j);
    }
    forall x | x in r ensures x in s {
      var i :| 0 <= i < |r| && r[i] == x;
      PageIndex(s, offset, limit, i);
    }
  }

  /** `le` is a total preorder: any two elements compare, and comparison chains. */
  ghost predicate TotalPreorder<T(!new)>(le: (T, T) -> bool) {
    (forall a, b :: le(a, b) || le(b, a)) &&
    (forall a, b, c :: le(a, b) && le(b, c) ==> le(a, c))
  }

  /** Every element of `s` is `le` every element after it. */
  predicate SortedBy<T>(s: seq<T>, le: (T, T) -> bool) {
    forall i, j :: 0 <= i < j < |s| ==> le(s[i], s[j])
  }

  /** Stable insertion of `x` into `s`: before the first element it is `le`. */
  function Insert<T>(x: T, s: seq<T>, le: (T, T) -> bool): (r: seq<T>)
    ensures multiset(r) == multiset(s) + multiset{x}
  {
    if s == [] then [x]
    else if le(x, s[0]) then [x] + s
    else
      assert s == [s[0]] + s[1..];
      [s[0]] + Insert(x, s[1..], le)
  }

  /** Insertion sort of `s` by `le`; equal elements keep their order. */
  function SortBy<T>(s: seq<T>, le: (T, T) -> bool): (r: seq<T>)
    ensures multiset(r) == multiset(s)
  {
    if s == [] then []
    else
      assert s == [s[0]] + s[1..];
      Insert(s[0], SortBy(s[1..], le), le)
  }

  lemma {:induction false} InsertSorted<T(!new)>(x: T, s: seq<T>, le: (T, T) -> bool)
    requires TotalPreorder(le) && SortedBy(s, le)
    ensures SortedBy(Insert(x, s, le), le)
  {
    if s != [] && !le(x, s[0]) {
      InsertSorted(x, s[1..], le);
      var r := Insert(x, s[1..], le);
      assert le(s[0], x);
      forall k | 0 <= k < |r| ensures le(s[0], r[k]) {
        assert r[k] in multiset(r);
        assert r[k] == x || r[k] in multiset(s[1..]);
      }
      assert SortedBy([s[0]] + r, le) by {
        forall i, j | 0 <= i < j < |[s[0]] + r| ensures le(([s[0]] + r)[i], ([s[0]] + r)[j]) {
          if i == 0 {
            assert ([s[0]] + r)[j] == r[j - 1];
          } else {
            assert ([s[0]] + r)[i] == r[i - 1] && ([s[0]] + r)[j] == r[j - 1];
          }
        }
      }
    } else if s != [] {
      assert SortedBy([x] + s, le) by {
        forall i, j | 0 <= i < j < |[x] + s| ensures le(([x] + s)[i], ([x] + s)[j]) {
          if i == 0 && j > 1 {
            assert le(s[0], s[j - 1]);
          }
        }
      }
    }
  }

  /** Under a total preorder, SortBy returns a sorted permutation of its input. */
  lemma {:induction false} SortBySorted<T(!new)>(s: seq<T>, le: (T, T) -> bool)
    requires TotalPreorder(le)
    ensures SortedBy(SortBy(s, le), le) && multiset(SortBy(s, le)) == multiset(s)
  {
    if s != [] {
      SortBySorted(s[1..], le);
      InsertSorted(s[0], SortBy(s[1..], le), le);
    }
  }

  /** Sorting what is already sorted changes nothing. */
  lemma {:induction false} SortByIdentidade<T>(s: seq<T>, le: (T, T) -> bool)
    requires SortedBy(s, le)
    ensures SortBy(s, le) == s
  {
    if s != [] {
      assert SortedBy(s[1..], le);
      SortByIdentidade(s[1..], le);
      if |s| > 1 {
        assert le(s[0], s[1]);
      }
      assert [s[0]] + s[1..] == s;
    }
  }

  /** Filtering keeps a sequence sorted. */
  lemma {:induction false} FilterSorted<T>(s: seq<T>, p: T -> bool, le: (T, T) -> bool)
    requires SortedBy(s, le)
    ensures SortedBy(Filter(s, p), le)
  {
    if s != [] {
      assert SortedBy(s[1..], le);
      FilterSorted(s[1..], p, le);
      var r := Filter(s[1..], p);
      if p(s[0]) {
        forall j | 0 <= j < |r| ensures le(s[0], r[j]) {
          assert r[j] in r;
          var m :| 0 <= m < |s[1..]| && s[1..][m] == r[j];
          assert s[m + 1] == r[j];
        }
        assert SortedBy([s[0]] + r, le) by {
          forall i, j | 0 <= i < j < |[s[0]] + r| ensures le(([s[0]] + r)[i], ([s[0]] + r)[j]) {
            if i == 0 {
              assert ([s[0]] + r)[j] == r[j - 1];
            } else {
              assert ([s[0]] + r)[i] == r[i - 1] && ([s[0]] + r)[j] == r[j - 1];
            }
          }
        }
      }
      assert Filter(s, p) == (if p(s[0]) then [s[0]] else []) + r;
    }
  }
}
