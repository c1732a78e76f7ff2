/** Generic sequence facts behind pandas boolean indexing and `Series.unique()`. */
module Seqs {
  import opened Wrappers

  /** `a` is obtained from `b` by deleting elements, keeping the remaining ones in order. */
  predicate IsSubsequence<T(==)>(a: seq<T>, b: seq<T>)
    decreases |b|
  {
    && |a| <= |b|
    && (|| a == []
        || (a[0] == b[0] && IsSubsequence(a[1..], b[1..]))
        || IsSubsequence(a, b[1..]))
  }

  /** A subsequence never holds an element more often than the sequence it came from. */
  lemma {:induction false} SubsequenceMultiset<T>(a: seq<T>, b: seq<T>)
    requires IsSubsequence(a, b)
    ensures multiset(a) <= multiset(b)
    decreases |b|
  {
    if a == [] {
    } else if a[0] == b[0] && IsSubsequence(a[1..], b[1..]) {
      SubsequenceMultiset(a[1..], b[1..]);
      assert a == [a[0]] + a[1..];
      assert b == [b[0]] + b[1..];
    } else {
      SubsequenceMultiset(a, b[1..]);
      assert b == [b[0]] + b[1..];
    }
  }

  /** Boolean indexing `s[keep(s)]`: the elements satisfying `keep`, in their original order. */
  function Filter<T(==,!new)>(s: seq<T>, keep: T -> bool): (r: seq<T>)
    ensures IsSubsequence(r, s)
    ensures forall x :: multiset(r)[x] == (if keep(x) then multiset(s)[x] else 0)
    ensures forall x :: x in r <==> x in s && keep(x)
    decreases |s|
  {
    if s == [] then []
    else
      assert s == [s[0]] + s[1..];
      if keep(s[0]) then [s[0]] + Filter(s[1..], keep) else Filter(s[1..], keep)
  }

  /** The contract of `Filter` determines its result: any order-preserving selection
      that keeps every matching element, as often as it occurs, and nothing else, is it. */
  lemma {:induction false} FilterCharacterization<T(!new)>(s: seq<T>, keep: T -> bool, r: seq<T>)
    requires IsSubsequence(r, s)
    requires forall x :: multiset(r)[x] == (if keep(x) then multiset(s)[x] else 0)
    ensures r == Filter(s, keep)
    decreases |s|
  {
    if s == [] {
    } else {
      var x, t := s[0], s[1..];
      assert s == [x] + t;
      if keep(x) {
        assert multiset(r)[x] == multiset(t)[x] + 1;
        assert x in r;
        if IsSubsequence(r, t) {
          SubsequenceMultiset(r, t);
          assert false;
        }
        var rest := r[1..];
        assert r == [x] + rest;
        forall y
          ensures multiset(rest)[y] == (if keep(y) then multiset(t)[y] else 0)
        {
          assert multiset(r)[y] == (if keep(y) then multiset(s)[y] else 0);
        }
        FilterCharacterization(t, keep, rest);
      } else {
        assert multiset(r)[x] == 0;
        assert x !in r;
        assert r != [] ==> r[0] != x;
        assert IsSubsequence(r, t);
        forall y
          ensures multiset(r)[y] == (if keep(y) then multiset(t)[y] else 0)
        {
          assert multiset(r)[y] == (if keep(y) then multiset(s)[y] else 0);
        }
        FilterCharacterization(t, keep, r);
      }
    }
  }

  /** Filtering with predicates that agree everywhere gives the same result. */
  lemma {:induction false} FilterCongruent<T(!new)>(s: seq<T>, p: T -> bool, q: T -> bool)
    requires forall x :: p(x) == q(x)
    ensures Filter(s, p) == Filter(s, q)
    decreases |s|
  {
    if s != [] {
      FilterCongruent(s[1..], p, q);
    }
  }

  /** A predicate that holds everywhere removes nothing. */
  lemma {:induction false} FilterKeepsAll<T(!new)>(s: seq<T>, keep: T -> bool)
    requires forall x :: keep(x)
    ensures Filter(s, keep) == s
    decreases |s|
  {
    if s != [] {
      FilterKeepsAll(s[1..], keep);
    }
  }

  /** Filtering by `p` and then by `q` is one pass filtering by their conjunction. */
  lemma {:induction false} FilterFuse<T(!new)>(s: seq<T>, p: T -> bool, q: T -> bool, pq: T -> bool)
    requires forall x :: pq(x) == (p(x) && q(x))
    ensures Filter(Filter(s, p), q) == Filter(s, pq)
    decreases |s|
  {
    if s != [] {
      FilterFuse(s[1..], p, q, pq);
      if p(s[0]) {
        var inner := Filter(s[1..], p);
        assert ([s[0]] + inner)[0] == s[0];
        assert ([s[0]] + inner)[1..] == inner;
      }
    }
  }

  /** A weaker predicate keeps a superset of the elements, in the same order. */
  lemma {:induction false} FilterMonotone<T(!new)>(s: seq<T>, p: T -> bool, q: T -> bool)
    requires forall x :: p(x) ==> q(x)
    ensures IsSubsequence(Filter(s, p), Filter(s, q))
    decreases |s|
  {
    if s != [] {
      FilterMonotone(s[1..], p, q);
      var a, b := Filter(s[1..], p), Filter(s[1..], q);
      if p(s[0]) {
        assert ([s[0]] + a)[1..] == a;
        assert ([s[0]] + b)[1..] == b;
      } else if q(s[0]) {
        assert ([s[0]] + b)[1..] == b;
      }
    }
  }

  predicate NoDuplicates<T(==)>(s: seq<T>)
  {
    forall j, k :: 0 <= j < k < |s| ==> s[j] != s[k]
  }

  /** Position of the first occurrence of `x` in `s`. */
  function FirstIndex<T(==)>(s: seq<T>, x: T): (i: nat)
    requires x in s
    ensures i < |s| && s[i] == x && x !in s[..i]
    decreases |s|
  {
    if s[0] == x then 0 else 1 + FirstIndex(s[1..], x)
  }

  /** The elements of `s` not in `seen`, each once, kept where it first occurs. */
  function DistinctFrom<T(==,!new)>(s: seq<T>, seen: set<T>): (r: seq<T>)
    ensures forall x :: x in r <==> x in s && x !in seen
    ensures NoDuplicates(r)
    decreases |s|
  {
    if s == [] then []
    else if s[0] in seen then DistinctFrom(s[1..], seen)
    else [s[0]] + DistinctFrom(s[1..], seen + {s[0]})
  }

  /** pandas `Series.unique()`: each value once, in order of first appearance. */
  function Distinct<T(==,!new)>(s: seq<T>): (r: seq<T>)
    ensures forall x :: x in r <==> x in s
    ensures NoDuplicates(r)
  {
    DistinctFrom(s, {})
  }

  /** Every element of `r` occurs in `s`, and `r` lists them in the order of their first occurrence in `s`. */
  predicate InFirstAppearanceOrder<T(==)>(r: seq<T>, s: seq<T>)
  {
    && (forall x :: x in r ==> x in s)
    && (forall j, k :: 0 <= j < k < |r| ==> FirstIndex(s, r[j]) < FirstIndex(s, r[k]))
  }

  /** Past a head that differs from `y`, the first occurrence of `y` moves by one. */
  lemma FirstIndexTail<T>(s: seq<T>, y: T)
    requires y in s && s[0] != y
    ensures y in s[1..] && FirstIndex(s, y) == 1 + FirstIndex(s[1..], y)
  {
  }

  lemma {:induction false} DistinctFromFirstAppearance<T(!new)>(s: seq<T>, seen: set<T>)
    ensures InFirstAppearanceOrder(DistinctFrom(s, seen), s)
    decreases |s|
  {
    if s != [] {
      var x, t := s[0], s[1..];
      var r := DistinctFrom(s, seen);
      if x in seen {
        assert r == DistinctFrom(t, seen);
        DistinctFromFirstAppearance(t, seen);
        forall j, k | 0 <= j < k < |r|
          ensures FirstIndex(s, r[j]) < FirstIndex(s, r[k])
        {
          FirstIndexTail(s, r[j]);
          FirstIndexTail(s, r[k]);
        }
      } else {
        var rest := DistinctFrom(t, seen + {x});
        DistinctFromFirstAppearance(t, seen + {x});
        assert r == [x] + rest;
        forall j, k | 0 <= j < k < |r|
          ensures FirstIndex(s, r[j]) < FirstIndex(s, r[k])
        {
          assert r[k] == rest[k - 1] && r[k] in rest;
          FirstIndexTail(s, r[k]);
          if j > 0 {
            assert r[j] == rest[j - 1] && r[j] in rest;
            FirstIndexTail(s, r[j]);
            assert FirstIndex(t, rest[j - 1]) < FirstIndex(t, rest[k - 1]);
          } else {
            assert r[j] == s[0];
          }
        }
      }
    }
  }

  /** `Distinct` lists the values in the order in which they first appear. */
  lemma DistinctFirstAppearance<T(!new)>(s: seq<T>)
    ensures InFirstAppearanceOrder(Distinct(s), s)
  {
    assert Distinct(s) == DistinctFrom(s, {});
    DistinctFromFirstAppearance(s, {});
  }

  /** `xs.apply(f)` for an `f` that may raise (None): either every element maps, and the
      results come back in order, or the index of the first element that raises. */
  method TryMap<A, B>(xs: seq<A>, f: A -> Option<B>) returns (r: Result<seq<B>, nat>)
    ensures r.Success? <==> forall i :: 0 <= i < |xs| ==> f(xs[i]).Some?
    ensures r.Failure? ==> r.error < |xs| && f(xs[r.error]).None?
    ensures r.Failure? ==> forall j :: 0 <= j < r.error ==> f(xs[j]).Some?
    ensures r.Success? ==> |r.value| == |xs|
    ensures r.Success? ==> forall i :: 0 <= i < |xs| ==> f(xs[i]) == Some(r.value[i])
  {
    var ys: seq<B> := [];
    var i := 0;
    while i < |xs|
      invariant i <= |xs| && |ys| == i
      invariant forall j :: 0 <= j < i ==> f(xs[j]) == Some(ys[j])
    {
      var y := f(xs[i]);
      if y.None? {
        return Failure(i);
      }
      ys := ys + [y.value];
      i := i + 1;
    }
    return Success(ys);
  }
}
