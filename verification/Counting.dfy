/** Counting finite sets, how many points of a spaced sequence fit in a window of time, and what holds
    along a sequence of states. */
module Counting {

  /** The integers from `lo` up to, not including, `hi`. */
  function Range(lo: int, hi: int): (r: set<int>)
    ensures forall i :: i in r <==> lo <= i < hi
    ensures |r| == if lo <= hi then hi - lo else 0
    decreases hi - lo
  {
    if lo >= hi then {} else Range(lo, hi - 1) + {hi - 1}
  }

  lemma {:induction false} SubsetSize<T>(a: set<T>, b: set<T>)
    requires a <= b
    ensures |a| <= |b|
  {
    if a != {} {
      var x :| x in a;
      SubsetSize(a - {x}, b - {x});
    }
  }

  /** An injective map from one set into another. */
  lemma {:induction false} InjectionSize(a: set<int>, f: map<int, int>, b: set<int>)
    requires forall x :: x in a ==> x in f && f[x] in b
    requires forall x, y :: x in a && y in a && x != y ==> f[x] != f[y]
    ensures |a| <= |b|
  {
    if a != {} {
      var x := Member(a);
      InjectionSize(a - {x}, f, b - {f[x]});
    }
  }

  predicate Distinct<T(==)>(s: seq<T>) {
    forall i, j :: 0 <= i < j < |s| ==> s[i] != s[j]
  }

  function ToSet<T(==)>(s: seq<T>): set<T> {
    set x | x in s
  }

  lemma {:induction false} DistinctSize<T>(s: seq<T>)
    requires Distinct(s)
    ensures |ToSet(s)| == |s|
  {
    if s != [] {
      var n := |s| - 1;
      DistinctSize(s[..n]);
      assert s == s[..n] + [s[n]];
      assert ToSet(s) == ToSet(s[..n]) + {s[n]};
    }
  }

  lemma DifferenceSize<T>(a: set<T>, b: set<T>)
    requires b <= a
    ensures |a - b| == |a| - |b|
  {
    assert a == (a - b) + b;
  }

  lemma MultiplyMonotone(a: nat, b: nat, c: nat)
    requires a <= b
    ensures c * a <= c * b
  {
  }

  lemma OneMore(n: nat, k: int)
    ensures (n + 1) * k == n * k + k
  {
  }

  lemma DivideBound(a: nat, b: int, width: nat)
    requires b > 0
    ensures a > width / b ==> a * b > width
  {
    if a > width / b {
      MultiplyMonotone(width / b + 1, a, b);
      assert b * (width / b + 1) == b * (width / b) + b;
    }
  }

  /** Consecutive entries are at least `gap` apart. */
  predicate Apart(times: seq<int>, gap: int) {
    forall i :: 0 <= i < |times| - 1 ==> times[i] + gap <= times[i + 1]
  }

  /** Any two entries are as far apart as their distance in the sequence says. */
  lemma {:induction false} ApartSpan(times: seq<int>, gap: int, i: nat, j: nat)
    requires Apart(times, gap) && i <= j < |times|
    ensures times[j] - times[i] >= (j - i) * gap
    decreases j
  {
    if i < j {
      ApartSpan(times, gap, i, j - 1);
      assert times[j - 1] + gap <= times[j];
      assert (j - i) * gap == (j - 1 - i) * gap + gap;
    }
  }

  function InWindow(times: seq<int>, from: int, width: int): set<int> {
    set i | 0 <= i < |times| && from <= times[i] <= from + width
  }

  /** At most 1 + width/gap entries lie in a window. */
  lemma WindowCount(times: seq<int>, gap: int, from: int, width: nat)
    requires Apart(times, gap) && gap > 0
    ensures |InWindow(times, from, width)| <= 1 + width / gap
  {
    var inside := InWindow(times, from, width);
    if inside != {} {
      var first := Least(inside);
      var bound := Range(first, first + width / gap + 1);
      forall i | i in inside
        ensures i in bound
      {
        ApartSpan(times, gap, first, i);
        DivideBound(i - first, gap, width);
      }
      SubsetSize(inside, bound);
    }
  }

  lemma Member<T>(s: set<T>) returns (x: T)
    requires s != {}
    ensures x in s
  {
    x :| x in s;
  }

  lemma {:induction false} Least(s: set<int>) returns (m: int)
    requires s != {}
    ensures m in s && forall i :: i in s ==> m <= i
  {
    m := Member(s);
    var rest := s - {m};
    assert forall i :: i in s ==> i == m || i in rest;
    if rest != {} {
      var m' := Least(rest);
      if m' < m {
        m := m';
      }
    }
  }

  /** What holds of one state and is handed on from each to the next holds of every later one. */
  lemma {:induction false} Persists<S>(p: S -> bool, states: seq<S>, i: nat, j: nat)
    requires i <= j < |states| && p(states[i])
    requires forall k :: i <= k < j && p(states[k]) ==> p(states[k + 1])
    ensures p(states[j])
  {
    if i < j {
      Persists(p, states, i, j - 1);
    }
  }
}
