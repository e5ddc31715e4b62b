/**
 * The array operations the core applies to record lists: `filter`, `flatMap`,
 * `Array.from(new Set(...))` and a stable `sort` with a comparator.
 */
module Seqs {
  import opened Strings

  /** `s.filter(p)`: the elements satisfying `p`, in their original order. */
  function Keep<T(!new)>(s: seq<T>, p: T -> bool): (r: seq<T>)
    ensures |r| <= |s|
    ensures forall x :: x in r <==> x in s && p(x)
  {
    if s == [] then [] else (if p(s[0]) then [s[0]] else []) + Keep(s[1..], p)
  }

  /** `a` can be obtained from `b` by deleting elements: the relative order of `b` is kept. */
  predicate IsSubsequence<T(==,!new)>(a: seq<T>, b: seq<T>)
  {
    a == [] || (b != [] && ((a[0] == b[0] && IsSubsequence(a[1..], b[1..])) || IsSubsequence(a, b[1..])))
  }

  lemma {:induction false} KeepIsSubsequence<T(!new)>(s: seq<T>, p: T -> bool)
    ensures IsSubsequence(Keep(s, p), s)
  {
    if s != [] {
      KeepIsSubsequence(s[1..], p);
      var r := Keep(s, p);
      if p(s[0]) {
        assert r[0] == s[0] && r[1..] == Keep(s[1..], p);
      } else {
        assert r == Keep(s[1..], p);
      }
    }
  }

  /** Each value occurs in the result as often as in the input when it passes, else never. */
  lemma {:induction false} KeepCounts<T(!new)>(s: seq<T>, p: T -> bool, x: T)
    ensures multiset(Keep(s, p))[x] == if p(x) then multiset(s)[x] else 0
  {
    if s != [] {
      KeepCounts(s[1..], p, x);
      assert s == [s[0]] + s[1..];
    }
  }

  lemma {:induction false} KeepAll<T(!new)>(s: seq<T>, p: T -> bool)
    requires forall i :: 0 <= i < |s| ==> p(s[i])
    ensures Keep(s, p) == s
  {
    if s != [] {
      KeepAll(s[1..], p);
      assert s == [s[0]] + s[1..];
    }
  }

  /** Filtering twice with the same test is filtering once. */
  lemma KeepIdempotent<T(!new)>(s: seq<T>, p: T -> bool)
    ensures Keep(Keep(s, p), p) == Keep(s, p)
  {
    var r := Keep(s, p);
    forall i | 0 <= i < |r| ensures p(r[i]) {
      assert r[i] in r;
    }
    KeepAll(r, p);
  }

  /** Two tests that agree on every element filter alike. */
  lemma {:induction false} KeepAgree<T(!new)>(s: seq<T>, p: T -> bool, q: T -> bool)
    requires forall i :: 0 <= i < |s| ==> p(s[i]) == q(s[i])
    ensures Keep(s, p) == Keep(s, q)
  {
    if s != [] {
      KeepAgree(s[1..], p, q);
    }
  }

  /** Filtering by `p` then by `q` is filtering by their conjunction. */
  lemma {:induction false} KeepKeep<T(!new)>(s: seq<T>, p: T -> bool, q: T -> bool)
    ensures Keep(Keep(s, p), q) == Keep(s, x => p(x) && q(x))
  {
    if s != [] {
      KeepKeep(s[1..], p, q);
      KeepAppend(if p(s[0]) then [s[0]] else [], Keep(s[1..], p), q);
      if p(s[0]) {
        assert ([s[0]] + [])[1..] == [];
      }
    }
  }

  /** The same, for any test `r` that is the conjunction of `p` and `q`. */
  lemma KeepConjunction<T(!new)>(s: seq<T>, p: T -> bool, q: T -> bool, r: T -> bool)
    requires forall x :: r(x) == (p(x) && q(x))
    ensures Keep(Keep(s, p), q) == Keep(s, r)
  {
    KeepKeep(s, p, q);
    KeepAgree(s, x => p(x) && q(x), r);
  }

  lemma {:induction false} KeepAppend<T(!new)>(a: seq<T>, b: seq<T>, p: T -> bool)
    ensures Keep(a + b, p) == Keep(a, p) + Keep(b, p)
  {
    if a != [] {
      KeepAppend(a[1..], b, p);
      assert (a + b)[1..] == a[1..] + b;
    } else {
      assert a + b == b;
    }
  }

  /** `ss.flat()`: the sequences one after the other. */
  function Flatten<T(!new)>(ss: seq<seq<T>>): seq<T>
  {
    if ss == [] then [] else ss[0] + Flatten(ss[1..])
  }

  function SumLengths<T(!new)>(ss: seq<seq<T>>): nat
  {
    if ss == [] then 0 else |ss[0]| + SumLengths(ss[1..])
  }

  lemma {:induction false} FlattenLength<T(!new)>(ss: seq<seq<T>>)
    ensures |Flatten(ss)| == SumLengths(ss)
  {
    if ss != [] {
      FlattenLength(ss[1..]);
    }
  }

  lemma {:induction false} FlattenAppend<T(!new)>(a: seq<seq<T>>, b: seq<seq<T>>)
    ensures Flatten(a + b) == Flatten(a) + Flatten(b)
  {
    if a != [] {
      FlattenAppend(a[1..], b);
      assert (a + b)[1..] == a[1..] + b;
    } else {
      assert a + b == b;
    }
  }

  predicate Distinct<T(==,!new)>(s: seq<T>)
  {
    forall i, j :: 0 <= i < j < |s| ==> s[i] != s[j]
  }

  /** `Array.from(new Set(s))`: every value of `s` exactly once, in order of first occurrence. */
  function Dedup<T(==,!new)>(s: seq<T>): (r: seq<T>)
    ensures forall x :: x in r <==> x in s
    ensures Distinct(r)
  {
    if s == [] then []
    else
      var d := Dedup(s[..|s| - 1]);
      assert s == s[..|s| - 1] + [s[|s| - 1]];
      if s[|s| - 1] in d then d else d + [s[|s| - 1]]
  }

  /** Every element compares at most equal to every later one: what
      `Array.prototype.sort` promises for a consistent comparator. */
  ghost predicate SortedBy<T(!new)>(s: seq<T>, cmp: (T, T) -> int)
  {
    forall i, j :: 0 <= i < j < |s| ==> cmp(s[i], s[j]) <= 0
  }

  /** A consistent comparator: any two values are ordered one way or the other,
      and "not after" is transitive. */
  ghost predicate TotalPreorder<T(!new)>(cmp: (T, T) -> int)
  {
    && (forall a, b :: cmp(a, b) <= 0 || cmp(b, a) <= 0)
    && (forall a, b, c :: cmp(a, b) <= 0 && cmp(b, c) <= 0 ==> cmp(a, c) <= 0)
  }

  /** Inserts `x` before the first element it does not compare after. */
  function Insert<T(!new)>(x: T, s: seq<T>, cmp: (T, T) -> int): (r: seq<T>)
    ensures multiset(r) == multiset(s) + multiset{x}
  {
    if s == [] || cmp(x, s[0]) <= 0 then [x] + s
    else
      assert s == [s[0]] + s[1..];
      [s[0]] + Insert(x, s[1..], cmp)
  }

  /** `[...s].sort(cmp)`: a stable sort of a copy (insertion sort). */
  function Sort<T(!new)>(s: seq<T>, cmp: (T, T) -> int): (r: seq<T>)
    ensures multiset(r) == multiset(s)
  {
    if s == [] then []
    else
      assert s == [s[0]] + s[1..];
      Insert(s[0], Sort(s[1..], cmp), cmp)
  }

  lemma {:induction false} InsertSorted<T(!new)>(x: T, s: seq<T>, cmp: (T, T) -> int)
    requires TotalPreorder(cmp) && SortedBy(s, cmp)
    ensures SortedBy(Insert(x, s, cmp), cmp)
  {
    if s == [] || cmp(x, s[0]) <= 0 {
      SortedCons(x, s, cmp);
    } else {
      var t := Insert(x, s[1..], cmp);
      InsertSorted(x, s[1..], cmp);
      forall k | 0 <= k < |t| ensures cmp(s[0], t[k]) <= 0 {
        InsertMember(x, s[1..], cmp, t[k]);
        if t[k] != x {
          var j :| 0 <= j < |s[1..]| && s[1..][j] == t[k];
          assert s[j + 1] == t[k];
        }
      }
      SortedCons(s[0], t, cmp);
    }
  }

  /** An element of an insertion is the inserted value or an element of the list. */
  lemma InsertMember<T(!new)>(x: T, s: seq<T>, cmp: (T, T) -> int, y: T)
    requires y in Insert(x, s, cmp)
    ensures y == x || y in s
  {
    assert y in multiset(Insert(x, s, cmp));
  }

  /** A head that compares at most equal to every element of a sorted tail keeps it sorted. */
  lemma SortedCons<T(!new)>(h: T, t: seq<T>, cmp: (T, T) -> int)
    requires TotalPreorder(cmp) && SortedBy(t, cmp)
    requires t != [] ==> cmp(h, t[0]) <= 0
    ensures SortedBy([h] + t, cmp)
  {
    var r := [h] + t;
    forall i, j | 0 <= i < j < |r| ensures cmp(r[i], r[j]) <= 0 {
      if i == 0 && j > 1 {
        assert cmp(t[0], t[j - 1]) <= 0;
      }
    }
  }

  /** The sort's result is ordered by its comparator. */
  lemma {:induction false} SortSorted<T(!new)>(s: seq<T>, cmp: (T, T) -> int)
    requires TotalPreorder(cmp)
    ensures SortedBy(Sort(s, cmp), cmp)
  {
    if s != [] {
      SortSorted(s[1..], cmp);
      InsertSorted(s[0], Sort(s[1..], cmp), cmp);
    }
  }

  /** The code-point comparison of strings is a consistent comparator. */
  lemma StrCompareConsistent()
    ensures TotalPreorder(StrCompare)
  {
    forall a, b ensures StrCompare(a, b) <= 0 || StrCompare(b, a) <= 0 {
      StrLtTotal(a, b);
    }
    forall a, b, c | StrCompare(a, b) <= 0 && StrCompare(b, c) <= 0
      ensures StrCompare(a, c) <= 0
    {
      if StrLt(a, b) && StrLt(b, c) {
        StrLtTransitive(a, b, c);
      }
    }
  }

  /** Strictly ascending in code-point order. */
  predicate StrictlyAscending(s: seq<string>)
  {
    forall i, j :: 0 <= i < j < |s| ==> StrLt(s[i], s[j])
  }

  /** A strictly ascending list is determined by its members. */
  lemma {:induction false} StrictlyAscendingUnique(a: seq<string>, b: seq<string>)
    requires StrictlyAscending(a) && StrictlyAscending(b)
    requires forall x :: x in a <==> x in b
    ensures a == b
    decreases |a|
  {
    assert a == [] <==> b == [] by {
      if a != [] {
        assert a[0] in b;
      }
      if b != [] {
        assert b[0] in a;
      }
    }
    if a != [] {
      if a[0] != b[0] {
        assert a[0] in b && b[0] in a;
        var i :| 0 <= i < |b| && b[i] == a[0];
        var j :| 0 <= j < |a| && a[j] == b[0];
        assert StrLt(b[0], a[0]) && StrLt(a[0], b[0]);
        StrLtAsymmetric(a[0], b[0]);
      }
      forall x ensures x in a[1..] <==> x in b[1..] {
        if x in a[1..] {
          var i :| 1 <= i < |a| && a[i] == x;
          StrLtIrreflexive(x);
          assert x != a[0];
          assert x in b;
          var j :| 0 <= j < |b| && b[j] == x;
          assert j != 0;
        }
        if x in b[1..] {
          var j :| 1 <= j < |b| && b[j] == x;
          StrLtIrreflexive(x);
          assert x != b[0];
          assert x in a;
          var i :| 0 <= i < |a| && a[i] == x;
          assert i != 0;
        }
      }
      StrictlyAscendingUnique(a[1..], b[1..]);
      assert a == [a[0]] + a[1..] && b == [b[0]] + b[1..];
    }
  }

  /** The distinct values of a list of strings, sorted by the default order. */
  function SortedUnique(xs: seq<string>): (r: seq<string>)
    ensures forall x :: x in r <==> x in xs
    ensures StrictlyAscending(r)
  {
    var d := Dedup(xs);
    var r := Sort(d, StrCompare);
    StrCompareConsistent();
    SortSorted(d, StrCompare);
    assert forall x :: x in r <==> x in multiset(d);
    forall i, j | 0 <= i < j < |r| ensures StrLt(r[i], r[j]) {
      DistinctSorted(d, r, i, j);
    }
    r
  }

  lemma DistinctSorted(d: seq<string>, r: seq<string>, i: int, j: int)
    requires Distinct(d) && multiset(r) == multiset(d)
    requires SortedBy(r, StrCompare)
    requires 0 <= i < j < |r|
    ensures StrLt(r[i], r[j])
  {
    if r[i] == r[j] {
      RepeatCounts(r, i, j);
      DistinctCounts(d, r[i]);
    }
  }

  /** A value at two positions occurs at least twice. */
  lemma {:induction false} RepeatCounts<T(!new)>(s: seq<T>, i: int, j: int)
    requires 0 <= i < j < |s| && s[i] == s[j]
    ensures multiset(s)[s[i]] >= 2
  {
    assert s == s[..i] + [s[i]] + s[i + 1..j] + [s[j]] + s[j + 1..];
  }

  /** A value occurs at most once in a list without repeats. */
  lemma {:induction false} DistinctCounts<T(!new)>(s: seq<T>, x: T)
    requires Distinct(s)
    ensures multiset(s)[x] <= 1
  {
    if s != [] {
      DistinctCounts(s[1..], x);
      assert s == [s[0]] + s[1..];
      if s[0] == x {
        assert x !in s[1..];
      }
    }
  }
}
