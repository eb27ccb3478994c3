/** Finite sets listed in the order of a strict total order: what a range scan over an ordered
    table yields, and what a sort followed by a removal of duplicates produces. */
module Ordering {
  ghost predicate Irreflexive<T(!new)>(less: (T, T) -> bool) {
    forall x :: !less(x, x)
  }

  ghost predicate StrictTotal<T(!new)>(less: (T, T) -> bool) {
    && Irreflexive(less)
    && (forall x, y, z :: less(x, y) && less(y, z) ==> less(x, z))
    && (forall x, y :: x == y || less(x, y) || less(y, x))
  }

  ghost predicate Sorted<T>(xs: seq<T>, less: (T, T) -> bool) {
    forall i, j :: 0 <= i < j < |xs| ==> less(xs[i], xs[j])
  }

  function Elements<T>(xs: seq<T>): set<T> {
    set x | x in xs
  }

  /** At most the first `n` elements. */
  function Prefix<T>(xs: seq<T>, n: nat): seq<T> {
    if n < |xs| then xs[..n] else xs
  }

  /** The elements of `xs` satisfying `keep`, in order. */
  function Filter<T>(xs: seq<T>, keep: T -> bool): seq<T> {
    if xs == [] then []
    else if keep(xs[0]) then [xs[0]] + Filter(xs[1..], keep)
    else Filter(xs[1..], keep)
  }

  lemma LeastExists<T(!new)>(s: set<T>, less: (T, T) -> bool)
    requires StrictTotal(less) && s != {}
    ensures exists m :: m in s && forall x | x in s :: x == m || less(m, x)
    decreases |s|
  {
    var a :| a in s;
    if s != {a} {
      var rest := s - {a};
      assert s == rest + {a};
      LeastExists(rest, less);
      var m :| m in rest && forall x | x in rest :: x == m || less(m, x);
      var least := if less(a, m) then a else m;
      forall x | x in s ensures x == least || less(least, x) {
        assert x == a || x in rest;
      }
    }
  }

  lemma Prepend<T(!new)>(m: T, rest: seq<T>, less: (T, T) -> bool)
    requires Sorted(rest, less)
    requires forall x | x in Elements(rest) :: less(m, x)
    ensures Sorted([m] + rest, less)
    ensures Elements([m] + rest) == {m} + Elements(rest)
  {
    var xs := [m] + rest;
    forall i, j | 0 <= i < j < |xs| ensures less(xs[i], xs[j]) {
      assert xs[j] == rest[j - 1] && rest[j - 1] in Elements(rest);
    }
    forall x | x in rest ensures x in xs {
      var i :| 0 <= i < |rest| && rest[i] == x;
      assert xs[i + 1] == x;
    }
  }

  /** The elements of `s`, least first. */
  function Enumerate<T(!new)>(s: set<T>, less: (T, T) -> bool): (xs: seq<T>)
    requires StrictTotal(less)
    ensures Sorted(xs, less) && Elements(xs) == s && |xs| == |s|
    decreases |s|
  {
    if s == {} then []
    else
      LeastExists(s, less);
      var m :| m in s && forall x | x in s :: x == m || less(m, x);
      var rest := Enumerate(s - {m}, less);
      Prepend(m, rest, less);
      [m] + rest
  }

  /** A sorted listing is determined by its elements. */
  lemma {:induction false} SortedUnique<T(!new)>(xs: seq<T>, ys: seq<T>, less: (T, T) -> bool)
    requires StrictTotal(less) && Sorted(xs, less) && Sorted(ys, less)
    requires Elements(xs) == Elements(ys)
    ensures xs == ys
  {
    assert |xs| > 0 ==> xs[0] in Elements(ys);
    assert |ys| > 0 ==> ys[0] in Elements(xs) by {
      if |ys| > 0 { assert ys[0] in Elements(ys); }
    }
    if xs != [] {
      var j :| 0 <= j < |ys| && ys[j] == xs[0];
      var i :| 0 <= i < |xs| && xs[i] == ys[0];
      assert i == 0 && j == 0;
      TailElements(xs, less);
      TailElements(ys, less);
      SortedUnique(xs[1..], ys[1..], less);
      assert xs == [xs[0]] + xs[1..] && ys == [ys[0]] + ys[1..];
    }
  }

  lemma TailElements<T(!new)>(xs: seq<T>, less: (T, T) -> bool)
    requires Irreflexive(less) && Sorted(xs, less) && xs != []
    ensures Sorted(xs[1..], less) && Elements(xs[1..]) == Elements(xs) - {xs[0]}
  {
    forall x | x in xs[1..] ensures x != xs[0] {
      var i :| 0 <= i < |xs| - 1 && xs[1..][i] == x;
      assert less(xs[0], xs[i + 1]);
    }
    forall x | x in Elements(xs) - {xs[0]} ensures x in xs[1..] {
      var i :| 0 <= i < |xs| && xs[i] == x;
      assert xs[1..][i - 1] == x;
    }
  }

  /** A sorted listing repeats nothing. */
  lemma {:induction false} SortedSize<T(!new)>(xs: seq<T>, less: (T, T) -> bool)
    requires Irreflexive(less) && Sorted(xs, less)
    ensures |Elements(xs)| == |xs|
  {
    if xs != [] {
      TailElements(xs, less);
      SortedSize(xs[1..], less);
      assert xs[0] in Elements(xs);
    }
  }

  /** Filtering a sorted listing lists the filtered set. */
  lemma {:induction false} FilterSorted<T(!new)>(xs: seq<T>, keep: T -> bool, less: (T, T) -> bool)
    requires Irreflexive(less) && Sorted(xs, less)
    ensures Sorted(Filter(xs, keep), less)
    ensures Elements(Filter(xs, keep)) == set x | x in xs && keep(x)
  {
    if xs != [] {
      TailElements(xs, less);
      FilterSorted(xs[1..], keep, less);
      var tail := Filter(xs[1..], keep);
      forall x | x in tail ensures less(xs[0], x) {
        assert x in Elements(tail);
        assert x in xs[1..];
        var i :| 0 <= i < |xs| - 1 && xs[1..][i] == x;
      }
      assert forall x :: x in xs <==> x == xs[0] || x in xs[1..];
      assert forall x :: x in tail <==> x in Elements(tail);
      assert forall x :: x in [xs[0]] + tail <==> x == xs[0] || x in tail;
    }
  }

  lemma {:induction false} FilterConcat<T>(xs: seq<T>, ys: seq<T>, keep: T -> bool)
    ensures Filter(xs + ys, keep) == Filter(xs, keep) + Filter(ys, keep)
  {
    if xs == [] {
      assert xs + ys == ys;
    } else {
      FilterConcat(xs[1..], ys, keep);
      assert (xs + ys)[1..] == xs[1..] + ys;
    }
  }

  /** One step of a scan that keeps matches: the kept prefix grows by the next element or not. */
  lemma {:induction false} FilterStep<T>(xs: seq<T>, i: nat, keep: T -> bool)
    requires i < |xs|
    ensures Filter(xs[..i + 1], keep) == Filter(xs[..i], keep) + (if keep(xs[i]) then [xs[i]] else [])
    ensures Filter(xs[..i + 1], keep) <= Filter(xs, keep)
  {
    var before, after := xs[..i], xs[i + 1..];
    assert xs[..i + 1] == before + [xs[i]];
    FilterConcat(before, [xs[i]], keep);
    FilterOne(xs[i], keep);
    assert xs == xs[..i + 1] + after;
    FilterConcat(xs[..i + 1], after, keep);
  }

  lemma {:induction false} FilterMembers<T>(xs: seq<T>, keep: T -> bool)
    ensures forall x :: x in Filter(xs, keep) <==> x in xs && keep(x)
  {
    if xs != [] {
      FilterMembers(xs[1..], keep);
      assert forall x :: x in xs <==> x == xs[0] || x in xs[1..];
    }
  }

  lemma FilterOne<T>(x: T, keep: T -> bool)
    ensures Filter([x], keep) == if keep(x) then [x] else []
  {
  }

  /** A filtered listing equals the listing of whatever set the filter selects. */
  lemma FilterEnumerates<T(!new)>(xs: seq<T>, keep: T -> bool, less: (T, T) -> bool, s: set<T>)
    requires StrictTotal(less) && Sorted(xs, less)
    requires forall x :: x in s <==> x in xs && keep(x)
    ensures Filter(xs, keep) == Enumerate(s, less)
  {
    FilterSorted(xs, keep, less);
    assert Elements(Filter(xs, keep)) == s;
    SortedUnique(Filter(xs, keep), Enumerate(s, less), less);
  }

  /** The first `n` of a listing are exactly the elements with fewer than `n` before them: what is
      left out comes after everything kept. */
  lemma PrefixSplits<T(!new)>(s: set<T>, less: (T, T) -> bool, n: nat)
    requires StrictTotal(less)
    ensures var top := Elements(Prefix(Enumerate(s, less), n));
            && top <= s
            && |top| == (if n < |s| then n else |s|)
            && forall a, b | a in top && b in s - top :: less(a, b)
  {
    var xs := Enumerate(s, less);
    var top := Prefix(xs, n);
    assert Sorted(top, less);
    SortedLength(top, less);
    forall a, b | a in Elements(top) && b in s - Elements(top) ensures less(a, b) {
      var i :| 0 <= i < |top| && top[i] == a;
      assert b in Elements(xs);
      var j :| 0 <= j < |xs| && xs[j] == b;
      assert forall k | 0 <= k < |top| :: xs[k] == top[k] && top[k] in Elements(top);
      assert |top| <= j;
      assert xs[i] == a;
    }
    forall x | x in top ensures x in s {
      assert x in Elements(xs);
    }
  }

  lemma {:induction false} SortedLength<T(!new)>(xs: seq<T>, less: (T, T) -> bool)
    requires StrictTotal(less) && Sorted(xs, less)
    ensures |Elements(xs)| == |xs|
  {
    if xs != [] {
      TailElements(xs, less);
      SortedLength(xs[1..], less);
      assert Elements(xs) == Elements(xs[1..]) + {xs[0]};
    }
  }

  /** Cutting a listing of a subset short never loses an element the cut listing of the whole set
      would keep. */
  lemma PrefixOfSubset<T(!new)>(s: set<T>, part: set<T>, less: (T, T) -> bool, n: nat)
    requires StrictTotal(less) && part <= s
    ensures Elements(Prefix(Enumerate(s, less), n)) * part <= Elements(Prefix(Enumerate(part, less), n))
  {
    var top := Elements(Prefix(Enumerate(s, less), n));
    var near := Elements(Prefix(Enumerate(part, less), n));
    PrefixSplits(s, less, n);
    PrefixSplits(part, less, n);
    forall x | x in top && x in part ensures x in near {
      if x !in near {
        CrowdedOut(s, part, top, near, x, less);
        Subset(near + {x}, part);
        Subset(near + {x}, top);
        assert false;
      }
    }
  }

  lemma CrowdedOut<T(!new)>(s: set<T>, part: set<T>, top: set<T>, near: set<T>, x: T, less: (T, T) -> bool)
    requires StrictTotal(less) && part <= s && near <= part
    requires x in top && x in part && x !in near
    requires forall a, b | a in top && b in s - top :: less(a, b)
    requires forall a, b | a in near && b in part - near :: less(a, b)
    ensures near + {x} <= top
  {
    forall y | y in near ensures y in top {
      assert x in part - near;
      assert less(y, x) && !less(x, y) by {
        assert less(x, y) ==> less(x, x);
      }
      assert y in s;
    }
  }

  lemma Subset<T>(a: set<T>, b: set<T>)
    requires a <= b
    ensures |a| <= |b|
  {
    assert b == a + (b - a);
  }
}
