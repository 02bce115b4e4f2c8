/**
 * Interval lists as coverage: how many intervals hold an instant, and what sorting and summing do to that.
 */
module Coverage {
  import opened Options
  import opened Clock
  import Sorting
  import opened Sums

  /** How many intervals of a list hold an instant. */
  function Cover(intervals: seq<Interval>, t: int): nat {
    if intervals == [] then 0
    else
      var n := |intervals| - 1;
      Cover(intervals[..n], t) + (if intervals[n].Has(t) then 1 else 0)
  }

  function CoverAt(intervals: seq<Interval>): int -> nat {
    t => Cover(intervals, t)
  }

  lemma {:induction false} CoverAppend(a: seq<Interval>, b: seq<Interval>, t: int)
    ensures Cover(a + b, t) == Cover(a, t) + Cover(b, t)
  {
    if b == [] {
      assert a + b == a;
    } else {
      var n := |b| - 1;
      CoverAppend(a, b[..n], t);
      assert (a + b)[..|a + b| - 1] == a + b[..n];
    }
  }

  lemma CoverFront(s: seq<Interval>, t: int)
    requires s != []
    ensures Cover(s, t) == Cover(s[1..], t) + (if s[0].Has(t) then 1 else 0)
  {
    assert s == [s[0]] + s[1..];
    CoverAppend([s[0]], s[1..], t);
    assert [s[0]][..0] == [];
  }

  lemma TotalFront(s: seq<Interval>)
    requires s != []
    ensures Total(s) == (s[0].to - s[0].from) + Total(s[1..])
  {
    assert s == [s[0]] + s[1..];
    TotalAppend([s[0]], s[1..]);
    assert [s[0]][..0] == [];
  }

  lemma {:induction false} CoverPositive(s: seq<Interval>, t: int)
    ensures Cover(s, t) > 0 <==> exists x :: x in s && x.Has(t)
  {
    if s != [] {
      var n := |s| - 1;
      CoverPositive(s[..n], t);
      assert s == s[..n] + [s[n]];
    }
  }

  // ---------------------------------------------------------------- sorting

  /** No two neighbours, hence no two members, are out of order by start. */
  ghost predicate SortedByStart(s: seq<Interval>) {
    forall i, j :: 0 <= i < j < |s| ==> s[i].from <= s[j].from
  }

  lemma OneTakenOut(s: seq<Interval>, i: nat, t: int)
    requires i < |s|
    ensures var rest := s[..i] + s[i + 1..];
            && Cover(s, t) == Cover(rest, t) + (if s[i].Has(t) then 1 else 0)
            && Total(s) == Total(rest) + (s[i].to - s[i].from)
            && multiset(rest) == multiset(s) - multiset{s[i]}
  {
    hide Cover, Total;
    var tail := s[i..];
    assert s == s[..i] + tail && tail[1..] == s[i + 1..];
    assert s == s[..i] + [s[i]] + s[i + 1..];
    assert multiset(s) == multiset(s[..i] + s[i + 1..]) + multiset{s[i]};
    CoverAppend(s[..i], tail, t);
    CoverAppend(s[..i], s[i + 1..], t);
    CoverFront(tail, t);
    TotalAppend(s[..i], tail);
    TotalAppend(s[..i], s[i + 1..]);
    TotalFront(tail);
  }

  /** Coverage and total do not depend on the order of the list. */
  lemma {:induction false} InAnyOrder(a: seq<Interval>, b: seq<Interval>, t: int)
    requires multiset(a) == multiset(b)
    ensures Cover(a, t) == Cover(b, t) && Total(a) == Total(b)
  {
    if a == [] {
      assert |multiset(b)| == |multiset(a)|;
    } else {
      hide Cover, Total;
      var i := PlaceIn(a, b, t);
      InAnyOrder(a[1..], b[..i] + b[i + 1..], t);
    }
  }

  /** The head of one list is somewhere in the other; without it, both still hold the same. */
  lemma PlaceIn(a: seq<Interval>, b: seq<Interval>, t: int) returns (i: nat)
    requires a != [] && multiset(a) == multiset(b)
    ensures i < |b| && b[i] == a[0] && multiset(a[1..]) == multiset(b[..i] + b[i + 1..])
    ensures Cover(a, t) == Cover(a[1..], t) + (if a[0].Has(t) then 1 else 0)
    ensures Cover(b, t) == Cover(b[..i] + b[i + 1..], t) + (if a[0].Has(t) then 1 else 0)
    ensures Total(a) == Total(a[1..]) + (a[0].to - a[0].from)
    ensures Total(b) == Total(b[..i] + b[i + 1..]) + (a[0].to - a[0].from)
  {
    hide Cover, Total;
    assert a[0] in multiset(b);
    i :| i < |b| && b[i] == a[0];
    OneTakenOut(b, i, t);
    CoverFront(a, t);
    TotalFront(a);
    HeadTakenOut(a);
  }

  lemma HeadTakenOut(a: seq<Interval>)
    requires a != []
    ensures multiset(a[1..]) == multiset(a) - multiset{a[0]}
  {
    assert a == [a[0]] + a[1..];
  }

  /** The sort only reorders, so coverage, total and members stay what they were. */
  lemma SortKeeps(s: seq<Interval>, t: int)
    ensures Cover(SortByStart(s), t) == Cover(s, t)
    ensures Total(SortByStart(s)) == Total(s)
    ensures multiset(SortByStart(s)) == multiset(s)
    ensures SortedByStart(SortByStart(s))
  {
    Sorting.SortPermutes(StartsBefore(), s);
    InAnyOrder(SortByStart(s), s, t);
    Sorting.SortOrders(StartsBefore(), s);
    forall i, j | 0 <= i < j < |SortByStart(s)|
      ensures SortByStart(s)[i].from <= SortByStart(s)[j].from
    {
      assert !StartsBefore()(SortByStart(s)[j], SortByStart(s)[i]);
    }
  }

  // ---------------------------------------------------------------- gathering

  lemma {:induction false} GatherWithin(piece: int -> seq<Interval>, first: int, count: nat, lo: int, hi: int)
    requires forall k :: first <= k < first + count ==> Within(piece(k), lo, hi)
    ensures Within(Gather(piece, first, count), lo, hi)
  {
    if count > 0 {
      GatherWithin(piece, first, count - 1, lo, hi);
    }
  }

  /** The pieces hold an instant as often as a running count adds it up. */
  lemma {:induction false} GatherCover(piece: int -> seq<Interval>, running: nat -> nat, first: int, count: nat, t: int)
    requires running(0) == 0
    requires forall k: nat :: k < count ==> running(k + 1) == running(k) + Cover(piece(first + k), t)
    ensures Cover(Gather(piece, first, count), t) == running(count)
  {
    if count > 0 {
      GatherCover(piece, running, first, count - 1, t);
      CoverAppend(Gather(piece, first, count - 1), piece(first + count - 1), t);
      assert running(count - 1 + 1) == running(count - 1) + Cover(piece(first + (count - 1)), t);
    }
  }

  /** When only two neighbouring pieces hold an instant, only those two count. */
  lemma {:induction false} GatherTwo(piece: int -> seq<Interval>, first: int, count: nat, today: int, t: int)
    requires forall k :: k != today && k != today - 1 ==> Cover(piece(k), t) == 0
    ensures Cover(Gather(piece, first, count), t)
            == (if first <= today < first + count then Cover(piece(today), t) else 0)
             + (if first <= today - 1 < first + count then Cover(piece(today - 1), t) else 0)
  {
    if count > 0 {
      GatherTwo(piece, first, count - 1, today, t);
      CoverAppend(Gather(piece, first, count - 1), piece(first + count - 1), t);
    }
  }

  // ---------------------------------------------------------------- measuring

  /** Every member is a proper interval inside [lo, hi). */
  ghost predicate Within(s: seq<Interval>, lo: int, hi: int) {
    forall x :: x in s ==> lo <= x.from < x.to <= hi
  }

  lemma SortCover(s: seq<Interval>, t: int)
    ensures Cover(SortByStart(s), t) == Cover(s, t)
  {
    SortKeeps(s, t);
  }

  lemma SortStaysWithin(s: seq<Interval>, lo: int, hi: int)
    requires Within(s, lo, hi)
    ensures Within(SortByStart(s), lo, hi)
  {
    SortKeeps(s, 0);
    forall x | x in SortByStart(s)
      ensures x in s
    {
      assert x in multiset(SortByStart(s));
    }
  }

  lemma OneInterval(x: Interval, f: int -> nat, lo: int, hi: int)
    requires lo <= x.from <= x.to <= hi
    requires forall t :: lo <= t < hi ==> f(t) == if x.Has(t) then 1 else 0
    ensures Sum(f, lo, hi) == x.to - x.from
  {
    SumSplit(f, lo, x.from, hi);
    SumSplit(f, x.from, x.to, hi);
    SumZero(f, lo, x.from);
    SumOne(f, x.from, x.to);
    SumZero(f, x.to, hi);
  }

  /** The total length of a list is the summed coverage of the range that holds it. */
  lemma {:induction false} TotalIsCoverage(s: seq<Interval>, lo: int, hi: int)
    requires Within(s, lo, hi)
    ensures Total(s) == Sum(CoverAt(s), lo, hi)
  {
    if s == [] {
      SumZero(CoverAt(s), lo, hi);
    } else {
      var n := |s| - 1;
      TotalIsCoverage(s[..n], lo, hi);
      var last := (t: int) => if s[n].Has(t) then 1 else 0;
      assert s[n] in s;
      OneInterval(s[n], last, lo, hi);
      SumPlus(CoverAt(s[..n]), last, CoverAt(s), lo, hi);
    }
  }

  // ---------------------------------------------------------------- disjoint lists

  /** Each interval ends before the next begins. */
  ghost predicate InOrder(s: seq<Interval>) {
    forall i, j :: 0 <= i < j < |s| ==> s[i].to <= s[j].from
  }

  lemma {:induction false} TwoHoldersCoverTwice(s: seq<Interval>, i: int, j: int, t: int)
    requires 0 <= i < j < |s| && s[i].Has(t) && s[j].Has(t)
    ensures Cover(s, t) >= 2
  {
    var n := |s| - 1;
    if j < n {
      TwoHoldersCoverTwice(s[..n], i, j, t);
    } else {
      assert s[i] in s[..n];
      CoverPositive(s[..n], t);
    }
  }

  /** Sorted intervals that never hold an instant twice follow one another without overlap. */
  lemma SortedAndOnceIsInOrder(s: seq<Interval>, lo: int, hi: int)
    requires SortedByStart(s) && Within(s, lo, hi)
    requires forall t :: lo <= t < hi ==> Cover(s, t) <= 1
    ensures InOrder(s)
  {
    forall i, j | 0 <= i < j < |s|
      ensures s[i].to <= s[j].from
    {
      assert s[i] in s && s[j] in s;
      if s[j].from < s[i].to {
        TwoHoldersCoverTwice(s, i, j, s[j].from);
        assert false;
      }
    }
  }

  function HeldBy(x: Interval): int -> nat {
    t => if x.Has(t) then 1 else 0
  }

  /** One interval's share of the range up to u. */
  lemma HeldUpTo(x: Interval, lo: int, u: int)
    requires lo <= x.from < x.to
    ensures Sum(HeldBy(x), lo, u) == Max(0, Min(u, x.to) - x.from)
  {
    if u <= x.from {
      SumZero(HeldBy(x), lo, u);
    } else {
      var stop := Min(u, x.to);
      SumSplit(HeldBy(x), lo, x.from, u);
      SumSplit(HeldBy(x), x.from, stop, u);
      SumZero(HeldBy(x), lo, x.from);
      SumOne(HeldBy(x), x.from, stop);
      SumZero(HeldBy(x), stop, u);
    }
  }

  lemma RestIsLater(s: seq<Interval>, lo: int, hi: int)
    requires s != [] && InOrder(s) && Within(s, lo, hi)
    ensures lo <= s[0].from < s[0].to <= hi
    ensures InOrder(s[1..]) && Within(s[1..], s[0].to, hi)
  {
    assert s[0] in s;
    forall y | y in s[1..]
      ensures s[0].to <= y.from < y.to <= hi
    {
      var k :| 0 <= k < |s[1..]| && s[1..][k] == y;
      assert s[k + 1] == y && y in s;
    }
  }

  /** The coverage of an in-order list up to u: its head's share, then what follows the head. */
  lemma HeadThenRest(s: seq<Interval>, lo: int, hi: int, u: int)
    requires s != [] && InOrder(s) && Within(s, lo, hi)
    ensures Sum(CoverAt(s), lo, u) == Max(0, Min(u, s[0].to) - s[0].from) + Sum(CoverAt(s[1..]), s[0].to, u)
  {
    RestIsLater(s, lo, hi);
    var x, rest := s[0], s[1..];
    forall t ensures CoverAt(s)(t) == HeldBy(x)(t) + CoverAt(rest)(t) {
      CoverFront(s, t);
    }
    SumPlus(HeldBy(x), CoverAt(rest), CoverAt(s), lo, u);
    HeldUpTo(x, lo, u);
    forall t | lo <= t < x.to
      ensures CoverAt(rest)(t) == 0
    {
      CoverPositive(rest, t);
    }
    if u <= x.to {
      SumZero(CoverAt(rest), lo, u);
    } else {
      SumZero(CoverAt(rest), lo, x.to);
      SumSplit(CoverAt(rest), lo, x.to, u);
    }
  }

  /** `end` is right after the r-th covered millisecond, or absent because there are fewer than r. */
  ghost predicate EndsAfter(s: seq<Interval>, lo: int, hi: int, r: nat, end: Option<int>) {
    match end
    case None => Total(s) < r
    case Some(t) => lo < t <= hi && r > 0 && Sum(CoverAt(s), lo, t) == r && Sum(CoverAt(s), lo, t - 1) == r - 1
  }

  lemma EndsInHead(s: seq<Interval>, lo: int, hi: int, r: nat)
    requires s != [] && InOrder(s) && Within(s, lo, hi)
    requires 0 < r <= s[0].to - s[0].from
    ensures EndsAfter(s, lo, hi, r, Some(s[0].from + r))
  {
    var t := s[0].from + r;
    RestIsLater(s, lo, hi);
    HeadThenRest(s, lo, hi, t);
    HeadThenRest(s, lo, hi, t - 1);
  }

  lemma EndsInRest(s: seq<Interval>, lo: int, hi: int, r: nat, end: Option<int>)
    requires s != [] && InOrder(s) && Within(s, lo, hi)
    requires 0 < s[0].to - s[0].from < r
    requires EndsAfter(s[1..], s[0].to, hi, r - (s[0].to - s[0].from), end)
    ensures EndsAfter(s, lo, hi, r, end)
  {
    hide InOrder, Within, CoverAt, Sum, Total;
    RestIsLater(s, lo, hi);
    TotalFront(s);
    if end.Some? {
      HeadThenRest(s, lo, hi, end.value);
      HeadThenRest(s, lo, hi, end.value - 1);
    }
  }

  /** Walking an in-order list until `r` milliseconds are used up finds the r-th covered millisecond. */
  lemma {:induction false} WalkCountsCoverage(s: seq<Interval>, lo: int, hi: int, r: nat)
    requires r > 0 && InOrder(s) && Within(s, lo, hi)
    ensures EndsAfter(s, lo, hi, r, WalkForward(s, r))
  {
    if s != [] {
      RestIsLater(s, lo, hi);
      if s[0].to - s[0].from >= r {
        EndsInHead(s, lo, hi, r);
      } else {
        WalkCountsCoverage(s[1..], s[0].to, hi, r - (s[0].to - s[0].from));
        EndsInRest(s, lo, hi, r, WalkForward(s[1..], r - (s[0].to - s[0].from)));
      }
    }
  }
}
