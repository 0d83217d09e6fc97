// Sums over sequences and maps, and the few facts about finite sets that the
// counting arguments of the other modules rest on.
module Sums {

  function SeqSum<T>(xs: seq<T>, f: T -> nat): nat {
    if xs == [] then 0 else SeqSum(xs[..|xs| - 1], f) + f(xs[|xs| - 1])
  }

  lemma {:induction false} SeqSumAppend<T>(xs: seq<T>, x: T, f: T -> nat)
    ensures SeqSum(xs + [x], f) == SeqSum(xs, f) + f(x)
  {
    assert (xs + [x])[..|xs|] == xs;
  }

  /** Replacing one element moves the sum by exactly the difference. */
  lemma {:induction false} SeqSumUpdate<T>(xs: seq<T>, i: nat, x: T, f: T -> nat)
    requires i < |xs|
    ensures SeqSum(xs[i := x], f) + f(xs[i]) == SeqSum(xs, f) + f(x)
  {
    var last := |xs| - 1;
    if i == last {
      assert xs[i := x][..last] == xs[..last];
    } else {
      assert xs[i := x][..last] == xs[..last][i := x];
      SeqSumUpdate(xs[..last], i, x, f);
    }
  }

  lemma OneMoreShare(share: nat, shares: nat, total: nat, more: nat)
    requires total <= share * shares && more <= total + share
    ensures more <= share * (shares + 1)
  {
  }

  lemma SumOfScaled(c: nat, a: nat, b: nat, x: nat, y: nat)
    requires a <= c * x && b <= c * y
    ensures a + b <= c * (x + y)
  {
  }

  /** If f is at most c times g on every element, so are the sums. */
  lemma {:induction false} SeqSumScaled<T>(xs: seq<T>, f: T -> nat, g: T -> nat, c: nat)
    requires forall x :: x in xs ==> f(x) <= c * g(x)
    ensures SeqSum(xs, f) <= c * SeqSum(xs, g)
  {
    if xs != [] {
      var front, last := xs[..|xs| - 1], xs[|xs| - 1];
      SeqSumScaled(front, f, g, c);
      SumOfScaled(c, SeqSum(front, f), f(last), SeqSum(front, g), g(last));
    }
  }

  /** A fixed, otherwise arbitrary element of a nonempty set. */
  ghost function Pick<K>(s: set<K>): (k: K)
    requires s != {}
    ensures k in s
  {
    var k :| k in s; k
  }

  ghost function MapSum<K, V>(m: map<K, V>, f: V -> nat): nat
    decreases |m|
  {
    if m == map[] then 0
    else
      assert m.Keys != {};
      var k := Pick(m.Keys);
      f(m[k]) + MapSum(m - {k}, f)
  }

  /** The sum does not depend on the order in which keys are taken out. */
  lemma {:induction false} MapSumRemove<K, V>(m: map<K, V>, k: K, f: V -> nat)
    requires k in m
    ensures MapSum(m, f) == f(m[k]) + MapSum(m - {k}, f)
    decreases |m|
  {
    var p := Pick(m.Keys);
    if p != k {
      MapSumRemove(m - {p}, k, f);
      MapSumRemove(m - {k}, p, f);
      assert m - {p} - {k} == m - {k} - {p};
    }
  }

  lemma {:induction false} MapSumUpdate<K, V>(m: map<K, V>, k: K, v: V, f: V -> nat)
    ensures MapSum(m[k := v], f) == f(v) + MapSum(m - {k}, f)
  {
    MapSumRemove(m[k := v], k, f);
    assert m[k := v] - {k} == m - {k};
  }

  /** Sum of the weights of a set of keys. */
  ghost function SetSum<K>(s: set<K>, w: K -> nat): nat {
    if s == {} then 0 else var k := Pick(s); w(k) + SetSum(s - {k}, w)
  }

  lemma {:induction false} SetSumRemove<K>(s: set<K>, k: K, w: K -> nat)
    requires k in s
    ensures SetSum(s, w) == w(k) + SetSum(s - {k}, w)
  {
    var p := Pick(s);
    if p != k {
      SetSumRemove(s - {p}, k, w);
      SetSumRemove(s - {k}, p, w);
      assert s - {p} - {k} == s - {k} - {p};
    }
  }

  /** Exchange argument: if no member of `low` weighs more than any element of
      `high` outside it, `low` is a lightest set of its size. */
  lemma {:induction false} LightestSet<K>(low: set<K>, high: set<K>, w: K -> nat)
    requires |low| == |high|
    requires forall a, b :: a in low && b in high - low ==> w(a) <= w(b)
    ensures SetSum(low, w) <= SetSum(high, w)
    decreases |low|
  {
    if low != {} {
      var common := low * high;
      if common != {} {
        var k := Pick(common);
        LightestSet(low - {k}, high - {k}, w);
        SetSumRemove(low, k, w);
        SetSumRemove(high, k, w);
      } else {
        var a, b := Pick(low), Pick(high);
        LightestSet(low - {a}, high - {b}, w);
        SetSumRemove(low, a, w);
        SetSumRemove(high, b, w);
      }
    }
  }

  lemma {:induction false} SubsetSize<K>(small: set<K>, big: set<K>)
    requires small <= big
    ensures |small| <= |big|
    ensures |small| == |big| ==> small == big
  {
    if small != {} {
      var k := Pick(small);
      SubsetSize(small - {k}, big - {k});
    }
  }

  /** Pigeonhole: a set of integers inside [lo, hi) has at most hi - lo elements. */
  lemma {:induction false} IntervalSize(s: set<int>, lo: int, hi: int)
    requires lo <= hi
    requires forall x :: x in s ==> lo <= x < hi
    ensures |s| <= hi - lo
    decreases hi - lo
  {
    if s != {} {
      var x := Pick(s);
      assert lo <= x < hi;
      IntervalSize(s - {hi - 1}, lo, hi - 1);
    }
  }

  ghost function Elements<T>(xs: seq<T>): set<T> {
    set x | x in xs
  }

  lemma {:induction false} FewElements<T>(xs: seq<T>)
    ensures |Elements(xs)| <= |xs|
  {
    if xs != [] {
      var front, last := xs[..|xs| - 1], xs[|xs| - 1];
      FewElements(front);
      assert Elements(xs) == Elements(front) + {last};
    }
  }

  /** A sequence without repetitions is as long as the set of its elements. */
  lemma {:induction false} DistinctSize<T>(xs: seq<T>)
    requires forall i, j :: 0 <= i < j < |xs| ==> xs[i] != xs[j]
    ensures |Elements(xs)| == |xs|
  {
    if xs != [] {
      var front, last := xs[..|xs| - 1], xs[|xs| - 1];
      DistinctSize(front);
      assert Elements(xs) == Elements(front) + {last};
    }
  }

  predicate StrictlyIncreasing(at: seq<nat>) {
    forall j, k :: 0 <= j < k < |at| ==> at[j] < at[k]
  }

  /** The places below n that are to be kept, all of them, in order. */
  ghost predicate Picks(at: seq<nat>, n: nat, keep: nat -> bool) {
    && StrictlyIncreasing(at)
    && (forall k :: 0 <= k < |at| ==> at[k] < n && keep(at[k]))
    && (forall i: nat :: i < n && keep(i) ==> i in at)
  }

  lemma PicksOneMore(at: seq<nat>, n: nat, keep: nat -> bool)
    requires Picks(at, n, keep) && keep(n)
    ensures Picks(at + [n], n + 1, keep)
  {
    assert (at + [n])[|at|] == n;
  }

  lemma PicksSkipOne(at: seq<nat>, n: nat, keep: nat -> bool)
    requires Picks(at, n, keep) && !keep(n)
    ensures Picks(at, n + 1, keep)
  {
  }

  ghost function Image<K, V>(m: map<K, V>, f: V -> int): set<int> {
    set k | k in m :: f(m[k])
  }

  /** A map whose entries f tells apart has as many entries as images. */
  lemma {:induction false} ImageSize<K, V>(m: map<K, V>, f: V -> int)
    requires forall j, k :: j in m && k in m && f(m[j]) == f(m[k]) ==> j == k
    ensures |Image(m, f)| == |m|
    decreases |m|
  {
    if m != map[] {
      var k := Pick(m.Keys);
      var rest := m - {k};
      ImageSize(rest, f);
      assert rest.Keys == m.Keys - {k};
      assert Image(m, f) == Image(rest, f) + {f(m[k])} by {
        assert forall j :: j in m ==> j == k || (j in rest && rest[j] == m[j]);
      }
    }
  }
}
