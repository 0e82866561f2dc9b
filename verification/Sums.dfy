/** Counting and summation over finite sets, independent of any enumeration order. */
module Sums {

  ghost function Pick<T>(s: set<T>): (x: T)
    requires s != {}
    ensures x in s
  {
    var x :| x in s; x
  }

  ghost function Sum<T(!new)>(s: set<T>, f: T -> int): int
    decreases |s|
  {
    if s == {} then 0 else f(Pick(s)) + Sum(s - {Pick(s)}, f)
  }

  /** Any element may be taken out first. */
  lemma {:induction false} SumSplit<T(!new)>(s: set<T>, x: T, f: T -> int)
    requires x in s
    ensures Sum(s, f) == f(x) + Sum(s - {x}, f)
    decreases |s|
  {
    var y := Pick(s);
    if y != x {
      SumSplit(s - {y}, x, f);
      SumSplit(s - {x}, y, f);
      assert s - {y} - {x} == s - {x} - {y};
    }
  }

  /** A smaller set of non-negative terms has a smaller sum. */
  lemma {:induction false} SumMonotone<T(!new)>(s: set<T>, t: set<T>, f: T -> int)
    requires s <= t
    requires forall x :: x in t ==> f(x) >= 0
    ensures 0 <= Sum(s, f) <= Sum(t, f)
    decreases |t|
  {
    if t != {} {
      var x := Pick(t);
      if x in s {
        SumSplit(s, x, f);
        SumMonotone(s - {x}, t - {x}, f);
      } else {
        SumMonotone(s, t - {x}, f);
      }
    }
  }

  lemma {:induction false} SumCong<T(!new)>(s: set<T>, f: T -> int, g: T -> int)
    requires forall x :: x in s ==> f(x) == g(x)
    ensures Sum(s, f) == Sum(s, g)
    decreases |s|
  {
    if s != {} {
      SumCong(s - {Pick(s)}, f, g);
    }
  }

  lemma SubsetSize<T>(s: set<T>, t: set<T>)
    requires s <= t
    ensures |s| <= |t|
    ensures s != t ==> |s| < |t|
  {
    assert t == s + (t - s);
  }

  lemma {:induction false} SumZero<T(!new)>(s: set<T>, f: T -> int)
    requires forall x :: x in s ==> f(x) == 0
    ensures Sum(s, f) == 0
    decreases |s|
  {
    if s != {} {
      SumZero(s - {Pick(s)}, f);
    }
  }

  function Elems<T>(s: seq<T>): set<T> {
    set x | x in s
  }

  ghost predicate Distinct<T(!new)>(s: seq<T>) {
    forall i, j :: 0 <= i < j < |s| ==> s[i] != s[j]
  }

  function Count<T(==)>(s: seq<T>, x: T): nat {
    if s == [] then 0 else (if s[0] == x then 1 else 0) + Count(s[1..], x)
  }

  lemma {:induction false} CountPositive<T>(s: seq<T>, x: T)
    ensures Count(s, x) > 0 <==> x in s
  {
    if s != [] {
      CountPositive(s[1..], x);
      assert s == [s[0]] + s[1..];
    }
  }

  lemma {:induction false} CountAppend<T>(s: seq<T>, t: seq<T>, x: T)
    ensures Count(s + t, x) == Count(s, x) + Count(t, x)
  {
    if s == [] {
      assert s + t == t;
    } else {
      CountAppend(s[1..], t, x);
      assert (s + t)[1..] == s[1..] + t;
    }
  }

  /** Pigeonhole: a repetition-free list drawn from `t` is no longer than `t`, and as long only if it covers `t`. */
  lemma {:induction false} DistinctBound<T(!new)>(s: seq<T>, t: set<T>)
    requires Distinct(s) && Elems(s) <= t
    ensures |s| <= |t|
    ensures |s| == |t| <==> Elems(s) == t
    decreases |s|
  {
    if s == [] {
      assert Elems(s) == {};
    } else {
      var x, rest := s[|s| - 1], s[..|s| - 1];
      assert s == rest + [x];
      assert Elems(s) == Elems(rest) + {x};
      DistinctBound(rest, t - {x});
    }
  }

  /** Pigeonhole, the other way: more entries than values forces a repetition. */
  lemma Repetition<T(!new)>(s: seq<T>, t: set<T>) returns (i: nat, j: nat)
    requires Elems(s) <= t && |s| > |t|
    ensures i < j < |s| && s[i] == s[j]
  {
    if Distinct(s) {
      DistinctBound(s, t);
      assert false;
    }
    i, j :| 0 <= i < j < |s| && s[i] == s[j];
  }

  /** A sum along a repetition-free list is the sum over its elements. */
  ghost function SeqSum<T(!new)>(s: seq<T>, f: T -> int): int {
    if s == [] then 0 else SeqSum(s[..|s| - 1], f) + f(s[|s| - 1])
  }

  lemma {:induction false} SeqSumIsSum<T(!new)>(s: seq<T>, f: T -> int)
    requires Distinct(s)
    ensures SeqSum(s, f) == Sum(Elems(s), f)
  {
    if s != [] {
      var x, rest := s[|s| - 1], s[..|s| - 1];
      assert s == rest + [x];
      SeqSumIsSum(rest, f);
      SumSplit(Elems(s), x, f);
      assert Elems(s) - {x} == Elems(rest);
    }
  }
}
