/** List comprehensions the scripts use over and over: the order-preserving
    filter `[x for x in xs if keep(x)]`, the count `sum(1 for x in xs if keep(x))`,
    the map `[f(x) for x in xs]` and the nested loop `[y for x in xs for y in f(x)]`. */
module Seqs {

  /** A flag as Python adds it up: True counts 1 and False 0. */
  function Indicator(b: bool): nat {
    if b then 1 else 0
  }

  /** `[x for x in s if keep(x)]`. */
  function Filter<T>(s: seq<T>, keep: T -> bool): (r: seq<T>)
    ensures |r| <= |s|
  {
    if s == [] then []
    else Filter(s[..|s| - 1], keep) + (if keep(s[|s| - 1]) then [s[|s| - 1]] else [])
  }

  /** The filter keeps every occurrence of a kept value and none of the others. */
  lemma {:induction false} FilterMultiset<T>(s: seq<T>, keep: T -> bool)
    ensures forall x {:trigger multiset(Filter(s, keep))[x]} ::
              multiset(Filter(s, keep))[x] == if keep(x) then multiset(s)[x] else 0
  {
    if s != [] {
      var init := s[..|s| - 1];
      FilterMultiset(init, keep);
      assert s == init + [s[|s| - 1]];
    }
  }

  lemma FilterMembership<T>(s: seq<T>, keep: T -> bool)
    ensures forall x {:trigger x in Filter(s, keep)} :: x in Filter(s, keep) <==> x in s && keep(x)
  {
    FilterMultiset(s, keep);
    forall x ensures x in Filter(s, keep) <==> x in s && keep(x) {
      assert x in Filter(s, keep) <==> multiset(Filter(s, keep))[x] > 0;
      assert x in s <==> multiset(s)[x] > 0;
    }
  }

  /** Filtering a concatenation filters each part, keeping their order. */
  lemma {:induction false} FilterAppend<T>(a: seq<T>, b: seq<T>, keep: T -> bool)
    ensures Filter(a + b, keep) == Filter(a, keep) + Filter(b, keep)
    decreases |b|
  {
    if b == [] {
      assert a + b == a;
    } else {
      var init := b[..|b| - 1];
      assert (a + b)[..|a + b| - 1] == a + init;
      FilterAppend(a, init, keep);
    }
  }

  /** The filter is empty exactly when nothing is kept. */
  lemma {:induction false} FilterEmptyIff<T>(s: seq<T>, keep: T -> bool)
    ensures Filter(s, keep) == [] <==> forall i :: 0 <= i < |s| ==> !keep(s[i])
  {
    if s != [] {
      var init := s[..|s| - 1];
      FilterEmptyIff(init, keep);
      assert forall i :: 0 <= i < |init| ==> init[i] == s[i];
    }
  }

  /** No value occurs twice. */
  predicate Distinct<T(==)>(s: seq<T>) {
    forall i, j :: 0 <= i < j < |s| ==> s[i] != s[j]
  }

  /** The filter of a list without repetitions has none either. */
  lemma {:induction false} FilterDistinct<T>(s: seq<T>, keep: T -> bool)
    requires Distinct(s)
    ensures Distinct(Filter(s, keep))
  {
    if s != [] {
      var init := s[..|s| - 1];
      var last := s[|s| - 1];
      assert forall i :: 0 <= i < |init| ==> init[i] == s[i];
      FilterDistinct(init, keep);
      FilterMembership(init, keep);
      assert last !in init by {
        forall i | 0 <= i < |init| ensures init[i] != last {
          assert s[i] != s[|s| - 1];
        }
      }
      var f := Filter(init, keep);
      if keep(last) {
        assert Filter(s, keep) == f + [last];
        forall i, j | 0 <= i < j < |f + [last]| ensures (f + [last])[i] != (f + [last])[j] {
          if j == |f| {
            assert (f + [last])[i] == f[i] && f[i] in f;
          }
        }
      }
    }
  }

  /** `sum(1 for x in s if keep(x))`. */
  function CountIf<T>(s: seq<T>, keep: T -> bool): nat {
    if s == [] then 0
    else CountIf(s[..|s| - 1], keep) + (if keep(s[|s| - 1]) then 1 else 0)
  }

  /** Counting the kept values is measuring the filter. */
  lemma {:induction false} CountIfFilter<T>(s: seq<T>, keep: T -> bool)
    ensures CountIf(s, keep) == |Filter(s, keep)|
  {
    if s != [] {
      CountIfFilter(s[..|s| - 1], keep);
    }
  }

  /** Something is counted exactly when some element passes the test. */
  lemma CountIfPositive<T>(s: seq<T>, keep: T -> bool)
    ensures CountIf(s, keep) > 0 <==> exists i :: 0 <= i < |s| && keep(s[i])
  {
    CountIfFilter(s, keep);
    FilterEmptyIff(s, keep);
  }

  /** `sum(f(x) for x in s)`. */
  function Sum<T>(s: seq<T>, f: T -> nat): nat {
    if s == [] then 0 else Sum(s[..|s| - 1], f) + f(s[|s| - 1])
  }

  /** A test that holds wherever another does counts at least as much. */
  lemma {:induction false} CountIfMono<T>(s: seq<T>, a: T -> bool, b: T -> bool)
    requires forall i :: 0 <= i < |s| && a(s[i]) ==> b(s[i])
    ensures CountIf(s, a) <= CountIf(s, b)
  {
    if s != [] {
      var init := s[..|s| - 1];
      assert forall i :: 0 <= i < |init| ==> init[i] == s[i];
      CountIfMono(init, a, b);
    }
  }

  /** `[f(x) for x in s]`. */
  function Map<T, U>(s: seq<T>, f: T -> U): (r: seq<U>)
    ensures |r| == |s|
  {
    if s == [] then [] else Map(s[..|s| - 1], f) + [f(s[|s| - 1])]
  }

  /** Element `i` of the map is `f` of element `i`. */
  lemma {:induction false} MapIndex<T, U>(s: seq<T>, f: T -> U)
    ensures forall i :: 0 <= i < |s| ==> Map(s, f)[i] == f(s[i])
  {
    if s != [] {
      var init := s[..|s| - 1];
      MapIndex(init, f);
      assert forall i :: 0 <= i < |init| ==> init[i] == s[i];
    }
  }

  /** `[y for x in s for y in f(x)]`: what a loop appending every element of
      `f(x)` for each `x` of `s` builds. */
  function FlatMap<T, U>(s: seq<T>, f: T -> seq<U>): seq<U> {
    if s == [] then [] else FlatMap(s[..|s| - 1], f) + f(s[|s| - 1])
  }

  lemma {:induction false} FlatMapAppend<T, U>(a: seq<T>, b: seq<T>, f: T -> seq<U>)
    ensures FlatMap(a + b, f) == FlatMap(a, f) + FlatMap(b, f)
    decreases |b|
  {
    if b == [] {
      assert a + b == a;
    } else {
      var init := b[..|b| - 1];
      assert (a + b)[..|a + b| - 1] == a + init;
      FlatMapAppend(a, init, f);
    }
  }

  /** The nested loop appends nothing exactly when every inner list is empty. */
  lemma {:induction false} FlatMapEmptyIff<T, U>(s: seq<T>, f: T -> seq<U>)
    ensures FlatMap(s, f) == [] <==> forall i :: 0 <= i < |s| ==> f(s[i]) == []
  {
    if s != [] {
      var init := s[..|s| - 1];
      FlatMapEmptyIff(init, f);
      assert forall i :: 0 <= i < |init| ==> init[i] == s[i];
    }
  }

  /** Every element of the nested loop's result comes from some inner list. */
  lemma {:induction false} FlatMapMembership<T, U>(s: seq<T>, f: T -> seq<U>, y: U)
    requires y in FlatMap(s, f)
    ensures exists i :: 0 <= i < |s| && y in f(s[i])
  {
    var init := s[..|s| - 1];
    if y in FlatMap(init, f) {
      FlatMapMembership(init, f, y);
      var i :| 0 <= i < |init| && y in f(init[i]);
      assert init[i] == s[i];
    } else {
      assert y in f(s[|s| - 1]);
    }
  }

  /** When each element contributes one entry if kept and none otherwise,
      the nested loop yields as many entries as there are kept elements. */
  lemma {:induction false} FlatMapCount<T, U>(s: seq<T>, f: T -> seq<U>, keep: T -> bool)
    requires forall i :: 0 <= i < |s| ==> |f(s[i])| == if keep(s[i]) then 1 else 0
    ensures |FlatMap(s, f)| == CountIf(s, keep)
  {
    if s != [] {
      var init := s[..|s| - 1];
      assert forall i :: 0 <= i < |init| ==> init[i] == s[i];
      FlatMapCount(init, f, keep);
    }
  }

  /** What holds of every entry of every inner list holds of every entry of
      the nested loop's result. */
  lemma {:induction false} FlatMapAll<T, U>(s: seq<T>, f: T -> seq<U>, P: U -> bool)
    requires forall i, j :: 0 <= i < |s| && 0 <= j < |f(s[i])| ==> P(f(s[i])[j])
    ensures forall j :: 0 <= j < |FlatMap(s, f)| ==> P(FlatMap(s, f)[j])
  {
    if s != [] {
      var init := s[..|s| - 1];
      assert forall i :: 0 <= i < |init| ==> init[i] == s[i];
      FlatMapAll(init, f, P);
      var a := FlatMap(init, f);
      var b := f(s[|s| - 1]);
      assert FlatMap(s, f) == a + b;
      assert forall j :: |a| <= j < |a| + |b| ==> (a + b)[j] == b[j - |a|];
    }
  }

  // ----- one more element: the step a loop appending to a list takes -----

  lemma FilterSnoc<T>(s: seq<T>, x: T, keep: T -> bool)
    ensures Filter(s + [x], keep) == Filter(s, keep) + (if keep(x) then [x] else [])
  {
    assert (s + [x])[..|s|] == s;
  }

  lemma MapSnoc<T, U>(s: seq<T>, x: T, f: T -> U)
    ensures Map(s + [x], f) == Map(s, f) + [f(x)]
  {
    assert (s + [x])[..|s|] == s;
  }

  lemma FlatMapSnoc<T, U>(s: seq<T>, x: T, f: T -> seq<U>)
    ensures FlatMap(s + [x], f) == FlatMap(s, f) + f(x)
  {
    assert (s + [x])[..|s|] == s;
  }

  lemma CountIfSnoc<T>(s: seq<T>, x: T, keep: T -> bool)
    ensures CountIf(s + [x], keep) == CountIf(s, keep) + (if keep(x) then 1 else 0)
  {
    assert (s + [x])[..|s|] == s;
  }

  lemma SumSnoc<T>(s: seq<T>, x: T, f: T -> nat)
    ensures Sum(s + [x], f) == Sum(s, f) + f(x)
  {
    assert (s + [x])[..|s|] == s;
  }
}
