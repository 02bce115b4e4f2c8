/** A stable insertion sort, standing for the language's own stable sort. */
module Sorting {

  function Insert<T>(before: (T, T) -> bool, x: T, s: seq<T>): seq<T> {
    if s == [] || before(x, s[0]) then [x] + s else [s[0]] + Insert(before, x, s[1..])
  }

  function Sort<T>(before: (T, T) -> bool, s: seq<T>): seq<T> {
    if s == [] then [] else Insert(before, s[|s| - 1], Sort(before, s[..|s| - 1]))
  }

  /** No later member belongs before an earlier one. */
  ghost predicate InOrder<T>(before: (T, T) -> bool, s: seq<T>) {
    forall i, j :: 0 <= i < j < |s| ==> !before(s[j], s[i])
  }

  ghost predicate Transitive<T(!new)>(before: (T, T) -> bool) {
    forall a, b, c :: before(a, b) && before(b, c) ==> before(a, c)
  }

  lemma {:induction false} InsertPermutes<T>(before: (T, T) -> bool, x: T, s: seq<T>)
    ensures multiset(Insert(before, x, s)) == multiset(s) + multiset{x}
  {
    if s != [] && !before(x, s[0]) {
      InsertPermutes(before, x, s[1..]);
      assert s == [s[0]] + s[1..];
    }
  }

  lemma {:induction false} InsertOrders<T(!new)>(before: (T, T) -> bool, x: T, s: seq<T>)
    requires Transitive(before) && InOrder(before, s) && !before(x, x)
    ensures InOrder(before, Insert(before, x, s))
  {
    if s != [] && !before(x, s[0]) {
      var rest := Insert(before, x, s[1..]);
      InsertOrders(before, x, s[1..]);
      InsertPermutes(before, x, s[1..]);
      forall k | 0 <= k < |rest|
        ensures !before(rest[k], s[0])
      {
        assert rest[k] in multiset(rest);
        assert rest[k] == x || rest[k] in multiset(s[1..]);
      }
    }
  }

  lemma {:induction false} SortPermutes<T>(before: (T, T) -> bool, s: seq<T>)
    ensures multiset(Sort(before, s)) == multiset(s)
  {
    if s != [] {
      var n := |s| - 1;
      SortPermutes(before, s[..n]);
      InsertPermutes(before, s[n], Sort(before, s[..n]));
      assert s == s[..n] + [s[n]];
    }
  }

  lemma {:induction false} SortOrders<T(!new)>(before: (T, T) -> bool, s: seq<T>)
    requires Transitive(before) && forall x :: !before(x, x)
    ensures InOrder(before, Sort(before, s))
  {
    if s != [] {
      SortOrders(before, s[..|s| - 1]);
      InsertOrders(before, s[|s| - 1], Sort(before, s[..|s| - 1]));
    }
  }

  /** Sorting loses and adds nobody. */
  lemma SortKeepsMembers<T>(before: (T, T) -> bool, s: seq<T>, x: T)
    ensures x in Sort(before, s) <==> x in s
    ensures |Sort(before, s)| == |s|
  {
    SortPermutes(before, s);
    assert x in multiset(Sort(before, s)) <==> x in multiset(s);
    assert |multiset(Sort(before, s))| == |multiset(s)|;
  }
}
