/**
 * Mentions in a message: the check of what a client sent, which sorts once and then compares neighbours only,
 * and the set of people a message's mentions notify.
 */
module Mentions {
  import Sorting

  type PrincipalId = string

  /** A mention of one principal, or of everybody; the span starts at the `@`. */
  datatype Mention = PRINCIPAL(principalId: PrincipalId, offset: int, length: int) | ALL(offset: int, length: int)

  datatype Failure =
    | MENTION_OUT_OF_RANGE | MENTION_OVERLAPS | MENTION_NOT_A_PARTICIPANT | MENTION_ALL_NOT_PERMITTED | TOO_MANY_MENTIONS

  datatype Validated = Accepted(mentions: seq<Mention>) | Rejected(reason: Failure)

  const MAX_MENTIONS := 50

  // ---------------------------------------------------------------- what a good list of mentions is

  predicate InBody(m: Mention, length: nat) {
    m.offset >= 0 && m.length > 0 && m.offset + m.length <= length
  }

  predicate Apart(a: Mention, b: Mention) {
    a.offset + a.length <= b.offset || b.offset + b.length <= a.offset
  }

  predicate Addressable(m: Mention, participants: set<PrincipalId>, allowAll: bool) {
    if m.ALL? then allowAll else m.principalId in participants
  }

  ghost predicate AllGood(mentions: seq<Mention>, length: nat, participants: set<PrincipalId>, allowAll: bool) {
    forall i :: 0 <= i < |mentions| ==> InBody(mentions[i], length) && Addressable(mentions[i], participants, allowAll)
  }

  ghost predicate AllApart(mentions: seq<Mention>) {
    forall i, j :: 0 <= i < j < |mentions| ==> Apart(mentions[i], mentions[j])
  }

  /** Few enough, each in the body and allowed, and every pair of them apart. */
  ghost predicate Proper(mentions: seq<Mention>, length: nat, participants: set<PrincipalId>, allowAll: bool) {
    |mentions| <= MAX_MENTIONS && AllGood(mentions, length, participants, allowAll) && AllApart(mentions)
  }

  predicate IsCharacterOf(m: Mention, x: int) {
    m.offset <= x < m.offset + m.length
  }

  /** A mention is of some of the text's characters, and of somebody it may be of. */
  ghost predicate IsOfTheText(m: Mention, length: nat, participants: set<PrincipalId>, allowAll: bool) {
    && (exists x :: IsCharacterOf(m, x)) && (forall x :: IsCharacterOf(m, x) ==> 0 <= x < length)
    && (m.ALL? ==> allowAll) && (m.PRINCIPAL? ==> m.principalId in participants)
  }

  ghost predicate NoneShare(mentions: seq<Mention>) {
    forall i, j :: 0 <= i < j < |mentions| ==> ShareNothing(mentions[i], mentions[j])
  }

  ghost predicate ShareNothing(a: Mention, b: Mention) {
    forall x :: !(IsCharacterOf(a, x) && IsCharacterOf(b, x))
  }

  /** In terms of the text: at most fifty, each of some of its characters and allowed, and no character in two. */
  lemma ProperMeans(mentions: seq<Mention>, length: nat, participants: set<PrincipalId>, allowAll: bool)
    ensures Proper(mentions, length, participants, allowAll) <==>
            && |mentions| <= 50 && NoneShare(mentions)
            && forall i :: 0 <= i < |mentions| ==> IsOfTheText(mentions[i], length, participants, allowAll)
  {
    hide IsOfTheText, ShareNothing, InBody, Addressable, Apart;
    forall i | 0 <= i < |mentions|
      ensures IsOfTheText(mentions[i], length, participants, allowAll)
              <==> InBody(mentions[i], length) && Addressable(mentions[i], participants, allowAll)
    {
      OfTheTextMeans(mentions[i], length, participants, allowAll);
    }
    forall i, j | 0 <= i < j < |mentions| && InBody(mentions[i], length) && InBody(mentions[j], length)
      ensures ShareNothing(mentions[i], mentions[j]) <==> Apart(mentions[i], mentions[j])
    {
      ApartMeans(mentions[i], mentions[j], length);
    }
  }

  lemma OfTheTextMeans(m: Mention, length: nat, participants: set<PrincipalId>, allowAll: bool)
    ensures IsOfTheText(m, length, participants, allowAll) <==> InBody(m, length) && Addressable(m, participants, allowAll)
  {
    InBodyMeans(m, length);
  }

  lemma InBodyMeans(m: Mention, length: nat)
    ensures InBody(m, length) <==> (exists x :: IsCharacterOf(m, x)) && forall x :: IsCharacterOf(m, x) ==> 0 <= x < length
  {
    assert m.length > 0 ==> IsCharacterOf(m, m.offset) && IsCharacterOf(m, m.offset + m.length - 1);
  }

  lemma ApartMeans(a: Mention, b: Mention, length: nat)
    requires InBody(a, length) && InBody(b, length)
    ensures Apart(a, b) <==> ShareNothing(a, b)
  {
    var later := if a.offset < b.offset then b.offset else a.offset;
    if !Apart(a, b) {
      assert IsCharacterOf(a, later) && IsCharacterOf(b, later);
    }
  }

  predicate InOrder(mentions: seq<Mention>) {
    forall i, j :: 0 <= i < j < |mentions| ==> mentions[i].offset <= mentions[j].offset
  }

  function StartsBefore(): (Mention, Mention) -> bool {
    (a: Mention, b: Mention) => a.offset < b.offset
  }

  function SortByOffset(mentions: seq<Mention>): seq<Mention> {
    Sorting.Sort(StartsBefore(), mentions)
  }

  lemma SortIsSorted(mentions: seq<Mention>)
    ensures InOrder(SortByOffset(mentions)) && multiset(SortByOffset(mentions)) == multiset(mentions)
  {
    Sorting.SortPermutes(StartsBefore(), mentions);
    Sorting.SortOrders(StartsBefore(), mentions);
    forall i, j | 0 <= i < j < |SortByOffset(mentions)|
      ensures SortByOffset(mentions)[i].offset <= SortByOffset(mentions)[j].offset
    {
      assert !StartsBefore()(SortByOffset(mentions)[j], SortByOffset(mentions)[i]);
    }
  }

  // ---------------------------------------------------------------- the check

  /** The loop's answer over what is left of the sorted list. */
  function Scan(sorted: seq<Mention>, previousEnd: int, length: nat, participants: set<PrincipalId>, allowAll: bool): Validated {
    if sorted == [] then Accepted([])
    else
      var m := sorted[0];
      if !InBody(m, length) then Rejected(MENTION_OUT_OF_RANGE)
      else if m.offset < previousEnd then Rejected(MENTION_OVERLAPS)
      else if m.ALL? && !allowAll then Rejected(MENTION_ALL_NOT_PERMITTED)
      else if m.PRINCIPAL? && m.principalId !in participants then Rejected(MENTION_NOT_A_PARTICIPANT)
      else
        match Scan(sorted[1..], m.offset + m.length, length, participants, allowAll)
        case Rejected(reason) => Rejected(reason)
        case Accepted(rest) => Accepted([m] + rest)
  }

  function Validate(mentions: seq<Mention>, length: nat, participants: set<PrincipalId>, allowAll: bool): Validated {
    if mentions == [] then Accepted([])
    else if |mentions| > MAX_MENTIONS then Rejected(TOO_MANY_MENTIONS)
    else Scan(SortByOffset(mentions), -1, length, participants, allowAll)
  }

  /** In order of offset, being apart from the next mention is being apart from all that follow. */
  lemma NeighboursSuffice(m: Mention, rest: seq<Mention>, length: nat, participants: set<PrincipalId>, allowAll: bool)
    requires InOrder([m] + rest) && InBody(m, length) && AllGood(rest, length, participants, allowAll)
    ensures (rest != [] ==> m.offset + m.length <= rest[0].offset) && AllApart(rest) <==> AllApart([m] + rest)
  {
    hide AllGood, InOrder, AllApart, Apart;
    ApartCons(m, rest);
    if rest != [] {
      ApartFromTheNext(m, rest, length, participants, allowAll);
    }
  }

  lemma ApartFromTheNext(m: Mention, rest: seq<Mention>, length: nat, participants: set<PrincipalId>, allowAll: bool)
    requires InOrder([m] + rest) && InBody(m, length) && AllGood(rest, length, participants, allowAll) && rest != []
    ensures m.offset + m.length <= rest[0].offset <==> forall k :: 0 <= k < |rest| ==> Apart(m, rest[k])
  {
    var all := [m] + rest;
    assert all[0] == m && InBody(rest[0], length);
    forall k | 0 <= k < |rest|
      ensures m.offset <= rest[0].offset <= rest[k].offset
    {
      assert all[1] == rest[0] && all[k + 1] == rest[k];
    }
    assert Apart(m, rest[0]) <==> m.offset + m.length <= rest[0].offset;
  }

  lemma ApartCons(m: Mention, rest: seq<Mention>)
    ensures AllApart([m] + rest) <==> (forall k :: 0 <= k < |rest| ==> Apart(m, rest[k])) && AllApart(rest)
  {
    hide Apart;
    var all := [m] + rest;
    assert forall k :: 0 <= k < |rest| ==> all[k + 1] == rest[k];
    if AllApart(all) {
      forall k | 0 <= k < |rest|
        ensures Apart(m, rest[k])
      {
        assert Apart(all[0], all[k + 1]);
      }
      forall i, j | 0 <= i < j < |rest|
        ensures Apart(rest[i], rest[j])
      {
        assert Apart(all[i + 1], all[j + 1]);
      }
    }
    if (forall k :: 0 <= k < |rest| ==> Apart(m, rest[k])) && AllApart(rest) {
      forall i, j | 0 <= i < j < |all|
        ensures Apart(all[i], all[j])
      {
        assert all[j] == rest[j - 1] && (i > 0 ==> all[i] == rest[i - 1]);
      }
    }
  }

  lemma GoodCons(m: Mention, rest: seq<Mention>, length: nat, participants: set<PrincipalId>, allowAll: bool)
    ensures AllGood([m] + rest, length, participants, allowAll)
            <==> InBody(m, length) && Addressable(m, participants, allowAll) && AllGood(rest, length, participants, allowAll)
  {
    var all := [m] + rest;
    assert all[0] == m && forall k :: 0 <= k < |rest| ==> all[k + 1] == rest[k];
    if AllGood(all, length, participants, allowAll) {
      forall k | 0 <= k < |rest|
        ensures InBody(rest[k], length) && Addressable(rest[k], participants, allowAll)
      {
        assert InBody(all[k + 1], length) && Addressable(all[k + 1], participants, allowAll);
      }
    }
  }

  lemma ScanNext(m: Mention, rest: seq<Mention>, previousEnd: int, length: nat, participants: set<PrincipalId>, allowAll: bool)
    ensures var r, next := Scan([m] + rest, previousEnd, length, participants, allowAll),
                           Scan(rest, m.offset + m.length, length, participants, allowAll);
            && (r.Accepted? <==> next.Accepted? && InBody(m, length) && previousEnd <= m.offset
                                 && Addressable(m, participants, allowAll))
            && (r.Accepted? ==> r.mentions == [m] + next.mentions)
  {
    assert ([m] + rest)[1..] == rest;
  }

  /** In order of offset, an accepted scan has every mention good and every pair apart, not only neighbours. */
  lemma {:induction false} ScanIsExact(sorted: seq<Mention>, previousEnd: int, length: nat,
      participants: set<PrincipalId>, allowAll: bool)
    requires InOrder(sorted)
    ensures var r := Scan(sorted, previousEnd, length, participants, allowAll);
            && (r.Accepted? <==> AllGood(sorted, length, participants, allowAll) && AllApart(sorted)
                                 && (sorted != [] ==> previousEnd <= sorted[0].offset))
            && (r.Accepted? ==> r.mentions == sorted)
  {
    if sorted != [] {
      hide Scan, AllGood, AllApart, InOrder, Apart, Addressable, InBody;
      var m, rest := sorted[0], sorted[1..];
      assert sorted == [m] + rest;
      TailInOrder(sorted);
      ScanNext(m, rest, previousEnd, length, participants, allowAll);
      ScanIsExact(rest, m.offset + m.length, length, participants, allowAll);
      GoodCons(m, rest, length, participants, allowAll);
      if AllGood(rest, length, participants, allowAll) && InBody(m, length) {
        NeighboursSuffice(m, rest, length, participants, allowAll);
      }
    }
  }

  lemma TailInOrder(sorted: seq<Mention>)
    requires sorted != [] && InOrder(sorted)
    ensures InOrder(sorted[1..])
  {
  }

  lemma GoodInAnyOrder(a: seq<Mention>, b: seq<Mention>, length: nat, participants: set<PrincipalId>, allowAll: bool)
    requires multiset(a) == multiset(b) && AllGood(a, length, participants, allowAll)
    ensures AllGood(b, length, participants, allowAll)
  {
    forall i | 0 <= i < |b|
      ensures InBody(b[i], length) && Addressable(b[i], participants, allowAll)
    {
      assert b[i] in multiset(b);
      assert b[i] in a;
    }
  }

  /** Being pairwise apart does not depend on the order of the list. */
  lemma ApartInAnyOrder(a: seq<Mention>, b: seq<Mention>)
    requires multiset(a) == multiset(b) && AllApart(a)
    ensures AllApart(b)
  {
    forall i, j | 0 <= i < j < |b|
      ensures Apart(b[i], b[j])
    {
      TwoPlaces(b, i, j);
      var k, l := PlacesOfTwo(a, b[i], b[j]);
      assert Apart(a[k], a[l]);
    }
  }

  lemma TwoPlaces(b: seq<Mention>, i: nat, j: nat)
    requires i < j < |b|
    ensures multiset{b[i], b[j]} <= multiset(b)
  {
    assert b == b[..i] + [b[i]] + b[i + 1..j] + [b[j]] + b[j + 1..];
  }

  lemma RemoveAt(a: seq<Mention>, i: nat)
    requires i < |a|
    ensures multiset(a) == multiset(a[..i] + a[i + 1..]) + multiset{a[i]}
  {
    assert a == a[..i] + [a[i]] + a[i + 1..];
  }

  lemma PlacesOfTwo(a: seq<Mention>, x: Mention, y: Mention) returns (k: nat, l: nat)
    requires multiset{x, y} <= multiset(a)
    ensures k < l < |a| && ((a[k] == x && a[l] == y) || (a[k] == y && a[l] == x))
  {
    assert x in multiset(a);
    var i: nat :| i < |a| && a[i] == x;
    var rest := a[..i] + a[i + 1..];
    RemoveAt(a, i);
    assert multiset{x, y} == multiset{y} + multiset{x};
    assert y in multiset(rest);
    var r: nat :| r < |rest| && rest[r] == y;
    if r < i {
      k, l := r, i;
    } else {
      k, l := i, r + 1;
    }
  }

  /**
   * Sound and complete: a list is accepted exactly when it is no longer than fifty, every mention lies in the
   * body with something in it, no two overlap, every named principal is a participant, and everybody is
   * mentioned only where that is allowed. What is stored is the same mentions in reading order.
   */
  lemma ValidateIsExact(mentions: seq<Mention>, length: nat, participants: set<PrincipalId>, allowAll: bool)
    ensures var r := Validate(mentions, length, participants, allowAll);
            && (r.Accepted? <==> Proper(mentions, length, participants, allowAll))
            && (r.Accepted? ==> InOrder(r.mentions) && multiset(r.mentions) == multiset(mentions))
  {
    hide AllGood, AllApart, Scan, SortByOffset;
    var sorted := SortByOffset(mentions);
    SortIsSorted(mentions);
    if mentions == [] {
      NothingIsProper(length, participants, allowAll);
    } else {
      assert |multiset(sorted)| == |multiset(mentions)|;
      ScanIsExact(sorted, -1, length, participants, allowAll);
      if Proper(mentions, length, participants, allowAll) {
        GoodInAnyOrder(mentions, sorted, length, participants, allowAll);
        ApartInAnyOrder(mentions, sorted);
        FirstIsInBody(sorted, length, participants, allowAll);
      }
      if AllGood(sorted, length, participants, allowAll) && AllApart(sorted) {
        GoodInAnyOrder(sorted, mentions, length, participants, allowAll);
        ApartInAnyOrder(sorted, mentions);
      }
    }
  }

  /** What makes each refusal right. */
  ghost predicate IsReason(reason: Failure, mentions: seq<Mention>, length: nat, participants: set<PrincipalId>, allowAll: bool) {
    match reason
    case TOO_MANY_MENTIONS => |mentions| > 50
    case MENTION_OUT_OF_RANGE => exists m :: m in mentions && (m.offset < 0 || m.length <= 0 || m.offset + m.length > length)
    case MENTION_NOT_A_PARTICIPANT => exists m :: m in mentions && m.PRINCIPAL? && m.principalId !in participants
    case MENTION_ALL_NOT_PERMITTED => !allowAll && exists m :: m in mentions && m.ALL?
    case MENTION_OVERLAPS => !AllApart(mentions)
  }

  lemma ReasonsCarryOver(reason: Failure, m: Mention, rest: seq<Mention>, length: nat, participants: set<PrincipalId>,
      allowAll: bool)
    requires reason != TOO_MANY_MENTIONS && IsReason(reason, rest, length, participants, allowAll)
    ensures IsReason(reason, [m] + rest, length, participants, allowAll)
  {
    hide AllApart;
    ApartCons(m, rest);
    assert forall x :: x in rest ==> x in [m] + rest;
  }

  /** The refusal of the first mention, or else that of the rest. */
  lemma FirstRefusal(m: Mention, rest: seq<Mention>, previousEnd: int, length: nat, participants: set<PrincipalId>,
      allowAll: bool)
    ensures var r, next := Scan([m] + rest, previousEnd, length, participants, allowAll),
                           Scan(rest, m.offset + m.length, length, participants, allowAll);
            r.Rejected? ==>
              || (r.reason !in {TOO_MANY_MENTIONS, MENTION_OVERLAPS}
                  && IsReason(r.reason, [m] + rest, length, participants, allowAll))
              || (r.reason == MENTION_OVERLAPS && InBody(m, length) && m.offset < previousEnd)
              || (next.Rejected? && r.reason == next.reason && InBody(m, length))
  {
    hide AllApart;
    assert ([m] + rest)[1..] == rest && m in [m] + rest;
  }

  lemma NextOverlaps(m: Mention, rest: seq<Mention>, length: nat)
    requires InOrder([m] + rest) && rest != [] && InBody(m, length) && InBody(rest[0], length)
    requires rest[0].offset < m.offset + m.length
    ensures !AllApart([m] + rest)
  {
    var all := [m] + rest;
    assert all[0] == m && all[1] == rest[0] && !Apart(all[0], all[1]);
  }

  lemma {:induction false} ScanRefusesForAReason(
      sorted: seq<Mention>, previousEnd: int, length: nat, participants: set<PrincipalId>, allowAll: bool)
    requires InOrder(sorted)
    ensures var r := Scan(sorted, previousEnd, length, participants, allowAll);
            r.Rejected? ==>
              || (r.reason != TOO_MANY_MENTIONS && IsReason(r.reason, sorted, length, participants, allowAll))
              || (r.reason == MENTION_OVERLAPS && sorted != [] && InBody(sorted[0], length) && sorted[0].offset < previousEnd)
  {
    if sorted != [] {
      hide Scan, InOrder, AllApart, InBody, IsReason;
      var m, rest := sorted[0], sorted[1..];
      var r, next := Scan(sorted, previousEnd, length, participants, allowAll),
                     Scan(rest, m.offset + m.length, length, participants, allowAll);
      assert sorted == [m] + rest;
      TailInOrder(sorted);
      FirstRefusal(m, rest, previousEnd, length, participants, allowAll);
      ScanRefusesForAReason(rest, m.offset + m.length, length, participants, allowAll);
      if next.Rejected? && next.reason != TOO_MANY_MENTIONS && IsReason(next.reason, rest, length, participants, allowAll) {
        ReasonsCarryOver(next.reason, m, rest, length, participants, allowAll);
      } else if next.Rejected? && r.Rejected? && r.reason == next.reason && InBody(m, length) {
        NextOverlaps(m, rest, length);
        OverlapIsAReason(sorted, length, participants, allowAll);
      }
    }
  }

  lemma OverlapIsAReason(mentions: seq<Mention>, length: nat, participants: set<PrincipalId>, allowAll: bool)
    requires !AllApart(mentions)
    ensures IsReason(MENTION_OVERLAPS, mentions, length, participants, allowAll)
  {
  }

  /** Every refusal is right about its reason. */
  lemma RefusalsHaveTheirReason(mentions: seq<Mention>, length: nat, participants: set<PrincipalId>, allowAll: bool)
    ensures var r := Validate(mentions, length, participants, allowAll);
            r.Rejected? ==> IsReason(r.reason, mentions, length, participants, allowAll)
  {
    hide Scan, SortByOffset, AllApart, InOrder;
    var sorted := SortByOffset(mentions);
    SortIsSorted(mentions);
    ScanRefusesForAReason(sorted, -1, length, participants, allowAll);
    forall m ensures m in sorted <==> m in mentions {
      assert m in sorted <==> m in multiset(sorted);
      assert m in mentions <==> m in multiset(mentions);
    }
    if AllApart(mentions) {
      ApartInAnyOrder(mentions, sorted);
    }
  }

  lemma NothingIsProper(length: nat, participants: set<PrincipalId>, allowAll: bool)
    ensures Proper([], length, participants, allowAll)
  {
  }

  lemma FirstIsInBody(sorted: seq<Mention>, length: nat, participants: set<PrincipalId>, allowAll: bool)
    requires sorted != [] && AllGood(sorted, length, participants, allowAll)
    ensures sorted[0].offset >= 0
  {
    assert InBody(sorted[0], length);
  }

  method ValidateMentions(mentions: seq<Mention>, body: string, participants: set<PrincipalId>, allowAll: bool)
    returns (r: Validated)
    ensures r == Validate(mentions, |body|, participants, allowAll)
    ensures r.Accepted? <==> Proper(mentions, |body|, participants, allowAll)
    ensures r.Accepted? ==> InOrder(r.mentions) && multiset(r.mentions) == multiset(mentions)
    ensures r.Rejected? ==> IsReason(r.reason, mentions, |body|, participants, allowAll)
  {
    hide Proper, SortByOffset, InOrder, IsReason;
    ValidateIsExact(mentions, |body|, participants, allowAll);
    RefusalsHaveTheirReason(mentions, |body|, participants, allowAll);
    if |mentions| == 0 {
      return Accepted([]);
    }
    if |mentions| > MAX_MENTIONS {
      return Rejected(TOO_MANY_MENTIONS);
    }
    var sorted := SortByOffset(mentions);
    r := ScanSorted(sorted, body, participants, allowAll);
    assert sorted[0..] == sorted;
  }

  /** The final answer, seen from position `i` of the scan. */
  function From(sorted: seq<Mention>, i: nat, previousEnd: int, length: nat, participants: set<PrincipalId>,
      allowAll: bool): Validated
    requires i <= |sorted|
  {
    match Scan(sorted[i..], previousEnd, length, participants, allowAll)
    case Rejected(reason) => Rejected(reason)
    case Accepted(rest) => Accepted(sorted[..i] + rest)
  }

  lemma FromNext(sorted: seq<Mention>, i: nat, previousEnd: int, length: nat, participants: set<PrincipalId>, allowAll: bool)
    requires i < |sorted|
    requires InBody(sorted[i], length) && sorted[i].offset >= previousEnd && Addressable(sorted[i], participants, allowAll)
    ensures From(sorted, i, previousEnd, length, participants, allowAll)
         == From(sorted, i + 1, sorted[i].offset + sorted[i].length, length, participants, allowAll)
  {
    assert sorted[i..][0] == sorted[i] && sorted[i..][1..] == sorted[i + 1..];
    match Scan(sorted[i + 1..], sorted[i].offset + sorted[i].length, length, participants, allowAll)
    case Rejected(_) =>
    case Accepted(rest) => assert sorted[..i] + ([sorted[i]] + rest) == sorted[..i + 1] + rest;
  }

  /** The single pass over the sorted list, remembering only where the last mention ended. */
  method ScanSorted(sorted: seq<Mention>, body: string, participants: set<PrincipalId>, allowAll: bool) returns (r: Validated)
    ensures r == From(sorted, 0, -1, |body|, participants, allowAll)
  {
    var previousEnd := -1;
    for i := 0 to |sorted|
      invariant From(sorted, 0, -1, |body|, participants, allowAll)
                == From(sorted, i, previousEnd, |body|, participants, allowAll)
    {
      var mention := sorted[i];
      if mention.offset < 0 || mention.length <= 0 || mention.offset + mention.length > |body| {
        return Rejected(MENTION_OUT_OF_RANGE);
      }
      if mention.offset < previousEnd {
        return Rejected(MENTION_OVERLAPS);
      }
      if mention.ALL? {
        if !allowAll {
          return Rejected(MENTION_ALL_NOT_PERMITTED);
        }
      } else if mention.principalId !in participants {
        return Rejected(MENTION_NOT_A_PARTICIPANT);
      }
      FromNext(sorted, i, previousEnd, |body|, participants, allowAll);
      previousEnd := mention.offset + mention.length;
    }
    return Accepted(sorted);
  }

  // ---------------------------------------------------------------- who is told

  /** Whom a mention names, given who is there. */
  predicate Names(m: Mention, participants: seq<PrincipalId>, id: PrincipalId) {
    if m.ALL? then id in participants else id == m.principalId
  }

  predicate NoRepeats(ids: seq<PrincipalId>) {
    forall i, j :: 0 <= i < j < |ids| ==> ids[i] != ids[j]
  }

  /** The set being built, in order of insertion. */
  function Added(targets: seq<PrincipalId>, ids: seq<PrincipalId>): seq<PrincipalId> {
    if ids == [] then targets
    else
      var before := Added(targets, ids[..|ids| - 1]);
      if ids[|ids| - 1] in before then before else before + [ids[|ids| - 1]]
  }

  function Targets(mentions: seq<Mention>, participants: seq<PrincipalId>): seq<PrincipalId> {
    if mentions == [] then []
    else
      var m := mentions[|mentions| - 1];
      Added(Targets(mentions[..|mentions| - 1], participants), if m.ALL? then participants else [m.principalId])
  }

  function Without(targets: seq<PrincipalId>, sender: PrincipalId): seq<PrincipalId> {
    if targets == [] then []
    else if targets[0] == sender then Without(targets[1..], sender)
    else [targets[0]] + Without(targets[1..], sender)
  }

  function Recipients(mentions: seq<Mention>, participants: seq<PrincipalId>, sender: PrincipalId): seq<PrincipalId> {
    Without(Targets(mentions, participants), sender)
  }

  lemma {:induction false} AddedIsUnion(targets: seq<PrincipalId>, ids: seq<PrincipalId>)
    ensures forall id :: id in Added(targets, ids) <==> id in targets || id in ids
    ensures NoRepeats(targets) ==> NoRepeats(Added(targets, ids))
  {
    if ids != [] {
      AddedIsUnion(targets, ids[..|ids| - 1]);
      assert ids == ids[..|ids| - 1] + [ids[|ids| - 1]];
    }
  }

  lemma {:induction false} TargetsAreNamed(mentions: seq<Mention>, participants: seq<PrincipalId>)
    ensures forall id :: id in Targets(mentions, participants) <==> exists m :: m in mentions && Names(m, participants, id)
    ensures NoRepeats(Targets(mentions, participants))
  {
    if mentions != [] {
      var init, m := mentions[..|mentions| - 1], mentions[|mentions| - 1];
      TargetsAreNamed(init, participants);
      AddedIsUnion(Targets(init, participants), if m.ALL? then participants else [m.principalId]);
      assert mentions == init + [m];
      assert forall id :: id in Targets(mentions, participants)
                          <==> id in Targets(init, participants) || Names(m, participants, id);
    }
  }

  lemma {:induction false} WithoutRemoves(targets: seq<PrincipalId>, sender: PrincipalId)
    ensures forall id :: id in Without(targets, sender) <==> id in targets && id != sender
    ensures NoRepeats(targets) ==> NoRepeats(Without(targets, sender))
  {
    if targets != [] {
      WithoutRemoves(targets[1..], sender);
      assert targets == [targets[0]] + targets[1..];
      if NoRepeats(targets) {
        assert forall k :: 0 <= k < |targets| - 1 ==> targets[k + 1] == targets[1..][k];
        assert targets[0] !in targets[1..];
      }
    }
  }

  /** The people notified are exactly those some mention names, once each, and never the sender. */
  lemma RecipientsAreNamed(mentions: seq<Mention>, participants: seq<PrincipalId>, sender: PrincipalId)
    ensures var r := Recipients(mentions, participants, sender);
            NoRepeats(r) && forall id :: id in r <==> id != sender && exists m :: m in mentions && Names(m, participants, id)
  {
    TargetsAreNamed(mentions, participants);
    WithoutRemoves(Targets(mentions, participants), sender);
  }

  method MentionRecipients(mentions: seq<Mention>, participants: seq<PrincipalId>, sender: PrincipalId)
    returns (recipients: seq<PrincipalId>)
    ensures recipients == Recipients(mentions, participants, sender)
    ensures NoRepeats(recipients)
    ensures forall id :: id in recipients <==> id != sender && exists m :: m in mentions && Names(m, participants, id)
  {
    RecipientsAreNamed(mentions, participants, sender);
    var targets: seq<PrincipalId> := [];
    for i := 0 to |mentions|
      invariant targets == Targets(mentions[..i], participants)
    {
      assert mentions[..i + 1][..i] == mentions[..i];
      var mention := mentions[i];
      var ids := if mention.ALL? then participants else [mention.principalId];
      var named := targets;
      for j := 0 to |ids|
        invariant targets == Added(named, ids[..j])
      {
        assert ids[..j + 1][..j] == ids[..j];
        if ids[j] !in targets {
          targets := targets + [ids[j]];
        }
      }
      assert ids[..|ids|] == ids;
    }
    assert mentions[..|mentions|] == mentions;
    recipients := Without(targets, sender);
  }

  /**
   * An accepted message tells participants only: whoever its mentions name is in the conversation, and where
   * everybody is mentioned the rest add nobody.
   */
  lemma AcceptedNamesParticipants(mentions: seq<Mention>, length: nat, participants: seq<PrincipalId>, allowAll: bool,
      id: PrincipalId)
    requires Validate(mentions, length, (set p | p in participants), allowAll).Accepted?
    ensures (exists m :: m in mentions && Names(m, participants, id)) ==> id in participants
    ensures (exists m :: m in mentions && m.ALL?) ==>
              ((exists m :: m in mentions && Names(m, participants, id)) <==> id in participants)
  {
    ValidateIsExact(mentions, length, (set p | p in participants), allowAll);
    if all :| all in mentions && all.ALL? {
      assert Names(all, participants, id) <==> id in participants;
    }
  }
}
