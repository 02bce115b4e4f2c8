/** Sums of a counting function over a half-open range of instants, and the few laws the clock needs. */
module Sums {

  /** f(lo) + f(lo + 1) + ... + f(hi - 1); zero for an empty or reversed range. */
  function Sum(f: int -> nat, lo: int, hi: int): nat
    decreases hi - lo
  {
    if hi <= lo then 0 else Sum(f, lo, hi - 1) + f(hi - 1)
  }

  lemma {:induction false} SumSplit(f: int -> nat, lo: int, mid: int, hi: int)
    requires lo <= mid <= hi
    ensures Sum(f, lo, hi) == Sum(f, lo, mid) + Sum(f, mid, hi)
    decreases hi - mid
  {
    if mid < hi {
      SumSplit(f, lo, mid, hi - 1);
    }
  }

  lemma {:induction false} SumSame(f: int -> nat, g: int -> nat, lo: int, hi: int)
    requires forall t :: lo <= t < hi ==> f(t) == g(t)
    ensures Sum(f, lo, hi) == Sum(g, lo, hi)
    decreases hi - lo
  {
    if lo < hi {
      SumSame(f, g, lo, hi - 1);
    }
  }

  /** A pointwise smaller function has a smaller sum, and equal sums force pointwise equality. */
  lemma {:induction false} SumOrder(f: int -> nat, g: int -> nat, lo: int, hi: int)
    requires forall t :: lo <= t < hi ==> f(t) <= g(t)
    ensures Sum(f, lo, hi) <= Sum(g, lo, hi)
    ensures Sum(f, lo, hi) == Sum(g, lo, hi) <==> forall t :: lo <= t < hi ==> f(t) == g(t)
    decreases hi - lo
  {
    if lo < hi {
      SumOrder(f, g, lo, hi - 1);
      assert Sum(f, lo, hi) == Sum(g, lo, hi) ==> f(hi - 1) == g(hi - 1);
    }
  }

  lemma {:induction false} SumPlus(f: int -> nat, g: int -> nat, h: int -> nat, lo: int, hi: int)
    requires forall t :: lo <= t < hi ==> h(t) == f(t) + g(t)
    ensures Sum(h, lo, hi) == Sum(f, lo, hi) + Sum(g, lo, hi)
    decreases hi - lo
  {
    if lo < hi {
      SumPlus(f, g, h, lo, hi - 1);
    }
  }

  lemma {:induction false} SumZero(f: int -> nat, lo: int, hi: int)
    requires forall t :: lo <= t < hi ==> f(t) == 0
    ensures Sum(f, lo, hi) == 0
    decreases hi - lo
  {
    if lo < hi {
      SumZero(f, lo, hi - 1);
    }
  }

  lemma {:induction false} SumOne(f: int -> nat, lo: int, hi: int)
    requires lo <= hi
    requires forall t :: lo <= t < hi ==> f(t) == 1
    ensures Sum(f, lo, hi) == hi - lo
    decreases hi - lo
  {
    if lo < hi {
      SumOne(f, lo, hi - 1);
    }
  }

  /** The sum grows with its upper end. */
  lemma SumGrows(f: int -> nat, lo: int, mid: int, hi: int)
    requires mid <= hi
    ensures Sum(f, lo, mid) <= Sum(f, lo, hi)
  {
    if lo <= mid {
      SumSplit(f, lo, mid, hi);
    }
  }

  /** If f adds the last unit just below t, then t is exactly where the running sum reaches r. */
  lemma SumCrossesAt(f: int -> nat, lo: int, t: int, r: nat, u: int)
    requires lo < t
    requires Sum(f, lo, t - 1) < r <= Sum(f, lo, t)
    ensures Sum(f, lo, u) >= r <==> u >= t
  {
    if u >= t {
      SumGrows(f, lo, t, u);
    } else {
      SumGrows(f, lo, u, t - 1);
    }
  }
}
