/**
 * `Array.prototype.sort` with a consistent comparator. Since ECMAScript 2019 the
 * sort is stable, so its result is determined: the elements in comparator order,
 * with elements the comparator calls equal left in their input order. It is
 * modelled here as a stable insertion sort; `leq(a, b)` holds when the
 * comparator does not put `a` after `b` (`compare(a, b) <= 0`).
 */
module StableSort {
  import opened Seqs

  /** A consistent comparator: total and transitive. */
  ghost predicate TotalPreorder<T(!new)>(leq: (T, T) -> bool) {
    (forall a, b :: leq(a, b) || leq(b, a)) &&
    (forall a, b, c :: leq(a, b) && leq(b, c) ==> leq(a, c))
  }

  ghost predicate Sorted<T>(s: seq<T>, leq: (T, T) -> bool) {
    forall i, j :: 0 <= i < j < |s| ==> leq(s[i], s[j])
  }

  /** The elements the comparator calls equal to `k`. */
  function EquivTo<T>(leq: (T, T) -> bool, k: T): T -> bool {
    x => leq(x, k) && leq(k, x)
  }

  /** Inserts `x` after every element of `s` that it does not go before. */
  function Insert<T>(s: seq<T>, x: T, leq: (T, T) -> bool): (r: seq<T>)
    ensures multiset(r) == multiset(s) + multiset{x}
  {
    if s == [] || leq(s[|s| - 1], x) then s + [x]
    else
      assert s == s[..|s| - 1] + [s[|s| - 1]];
      Insert(s[..|s| - 1], x, leq) + [s[|s| - 1]]
  }

  /** The stable sort of `s`. */
  function Sort<T>(s: seq<T>, leq: (T, T) -> bool): (r: seq<T>)
    ensures multiset(r) == multiset(s)
    ensures |r| == |s|
  {
    if s == [] then []
    else
      assert s == s[..|s| - 1] + [s[|s| - 1]];
      var r := Insert(Sort(s[..|s| - 1], leq), s[|s| - 1], leq);
      assert |r| == |multiset(r)|;
      r
  }

  lemma {:induction false} InsertSorted<T(!new)>(s: seq<T>, x: T, leq: (T, T) -> bool)
    requires TotalPreorder(leq) && Sorted(s, leq)
    ensures Sorted(Insert(s, x, leq), leq)
  {
    if s == [] || leq(s[|s| - 1], x) {
    } else {
      var s', last := s[..|s| - 1], s[|s| - 1];
      InsertSorted(s', x, leq);
      var r' := Insert(s', x, leq);
      forall y | y in r' ensures leq(y, last) {
        assert y in multiset(r');
        if y != x {
          assert y in s';
        }
      }
    }
  }

  /** The result is sorted. */
  lemma {:induction false} SortSorted<T(!new)>(s: seq<T>, leq: (T, T) -> bool)
    requires TotalPreorder(leq)
    ensures Sorted(Sort(s, leq), leq)
  {
    if s != [] {
      SortSorted(s[..|s| - 1], leq);
      InsertSorted(Sort(s[..|s| - 1], leq), s[|s| - 1], leq);
    }
  }

  lemma {:induction false} InsertStable<T(!new)>(s: seq<T>, x: T, leq: (T, T) -> bool, k: T)
    requires TotalPreorder(leq)
    ensures Filter(Insert(s, x, leq), EquivTo(leq, k)) ==
            Filter(s, EquivTo(leq, k)) + Filter([x], EquivTo(leq, k))
  {
    var e := EquivTo(leq, k);
    if s == [] || leq(s[|s| - 1], x) {
      FilterConcat(s, [x], e);
    } else {
      var s', last := s[..|s| - 1], s[|s| - 1];
      assert s == s' + [last];
      InsertStable(s', x, leq, k);
      FilterConcat(Insert(s', x, leq), [last], e);
      FilterConcat(s', [last], e);
      NotBothEquiv(leq, k, x, last);
      FilterSingleton(x, e);
      FilterSingleton(last, e);
    }
  }

  /** An element that goes strictly after `x` is not equivalent to the same key as `x`. */
  lemma NotBothEquiv<T(!new)>(leq: (T, T) -> bool, k: T, x: T, y: T)
    requires TotalPreorder(leq) && !leq(y, x)
    ensures !(EquivTo(leq, k)(x) && EquivTo(leq, k)(y))
  {
  }

  lemma FilterSingleton<T(!new)>(x: T, p: T -> bool)
    ensures Filter([x], p) == if p(x) then [x] else []
  {
    FilterSnoc([], x, p);
    assert [] + [x] == [x];
  }

  /** Elements the comparator calls equal keep their input order. */
  lemma {:induction false} SortStable<T(!new)>(s: seq<T>, leq: (T, T) -> bool, k: T)
    requires TotalPreorder(leq)
    ensures Filter(Sort(s, leq), EquivTo(leq, k)) == Filter(s, EquivTo(leq, k))
  {
    if s != [] {
      var s', last := s[..|s| - 1], s[|s| - 1];
      assert s == s' + [last];
      SortStable(s', leq, k);
      InsertStable(Sort(s', leq), last, leq, k);
      FilterConcat(s', [last], EquivTo(leq, k));
    }
  }
}
