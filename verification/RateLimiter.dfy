/**
 * The in-process sliding-window limiter in front of search: a list of recent timestamps per key, pruned on
 * every call, instead of the full history it stands for.
 */
module RateLimiter {
  import opened Options

  type Key = string

  datatype Limits = Limits(maxRequests: int, windowMs: int)

  type State = map<Key, seq<int>>

  const EMPTY: State := map[]

  datatype Call = Call(key: Key, at: int)

  function TimesOf(m: map<Key, seq<int>>, key: Key): seq<int> {
    if key in m then m[key] else []
  }

  /** The timestamps later than the cutoff, in their order. */
  function Later(times: seq<int>, cutoff: int): seq<int> {
    if times == [] then []
    else
      var before := Later(times[..|times| - 1], cutoff);
      if times[|times| - 1] > cutoff then before + [times[|times| - 1]] else before
  }

  predicate Allows(o: Limits, s: State, call: Call) {
    |Later(TimesOf(s, call.key), call.at - o.windowMs)| < o.maxRequests
  }

  function Step(o: Limits, s: State, call: Call): State {
    var recent := Later(TimesOf(s, call.key), call.at - o.windowMs);
    s[call.key := if Allows(o, s, call) then recent + [call.at] else recent]
  }

  function Run(o: Limits, calls: seq<Call>): State {
    if calls == [] then EMPTY else Step(o, Run(o, calls[..|calls| - 1]), calls[|calls| - 1])
  }

  /** The clock never goes back. */
  predicate InTime(calls: seq<Call>) {
    forall i, j :: 0 <= i < j < |calls| ==> calls[i].at <= calls[j].at
  }

  // ---------------------------------------------------------------- what the calls and their answers say

  /** Whether the last of these calls was answered true. */
  predicate AnsweredTrue(o: Limits, calls: seq<Call>)
    requires calls != []
  {
    Allows(o, Run(o, calls[..|calls| - 1]), calls[|calls| - 1])
  }

  /** When the calls of a key that were answered true were made. */
  function Allowed(o: Limits, calls: seq<Call>, key: Key): seq<int> {
    if calls == [] then []
    else
      var last := calls[|calls| - 1];
      Allowed(o, calls[..|calls| - 1], key) + if last.key == key && AnsweredTrue(o, calls) then [last.at] else []
  }

  /** When the key was last asked about. */
  function LastAsked(calls: seq<Call>, key: Key): Option<int> {
    if calls == [] then None
    else if calls[|calls| - 1].key == key then Some(calls[|calls| - 1].at)
    else LastAsked(calls[..|calls| - 1], key)
  }

  // ---------------------------------------------------------------- the window

  /** How many of some instants lie in the window that ends at `t`, its start excluded. */
  function InWindow(times: seq<int>, o: Limits, t: int): nat {
    if times == [] then 0
    else
      InWindow(times[..|times| - 1], o, t)
      + if t - o.windowMs < times[|times| - 1] <= t then 1 else 0
  }

  predicate NoneAfter(times: seq<int>, t: int) {
    forall i :: 0 <= i < |times| ==> times[i] <= t
  }

  /** Pruning twice is pruning once with the later cutoff. */
  lemma {:induction false} PruneAgain(times: seq<int>, first: int, second: int)
    requires first <= second
    ensures Later(Later(times, first), second) == Later(times, second)
  {
    if times != [] {
      var init, last := times[..|times| - 1], times[|times| - 1];
      PruneAgain(init, first, second);
      if last > first {
        assert (Later(init, first) + [last])[..|Later(init, first)|] == Later(init, first);
      }
    }
  }

  lemma {:induction false} NothingLater(times: seq<int>, cutoff: int)
    requires NoneAfter(times, cutoff)
    ensures Later(times, cutoff) == []
  {
    if times != [] {
      NothingLater(times[..|times| - 1], cutoff);
    }
  }

  lemma {:induction false} LaterStaysWithin(times: seq<int>, cutoff: int, t: int)
    requires NoneAfter(times, t)
    ensures NoneAfter(Later(times, cutoff), t)
  {
    if times != [] {
      LaterStaysWithin(times[..|times| - 1], cutoff, t);
    }
  }

  lemma LaterAppended(times: seq<int>, cutoff: int, at: int)
    ensures Later(times + [at], cutoff) == Later(times, cutoff) + if at > cutoff then [at] else []
  {
    assert (times + [at])[..|times|] == times;
  }

  lemma {:induction false} PrunedIsWindow(times: seq<int>, o: Limits, t: int)
    requires NoneAfter(times, t)
    ensures |Later(times, t - o.windowMs)| == InWindow(times, o, t)
  {
    if times != [] {
      PrunedIsWindow(times[..|times| - 1], o, t);
    }
  }

  /** A window that ends later has no more of what already happened. */
  lemma {:induction false} LaterWindowHasNoMore(times: seq<int>, o: Limits, at: int, t: int)
    requires NoneAfter(times, at) && at <= t
    ensures InWindow(times, o, t) <= InWindow(times, o, at)
    ensures at <= t - o.windowMs ==> InWindow(times, o, t) == 0
  {
    if times != [] {
      LaterWindowHasNoMore(times[..|times| - 1], o, at, t);
    }
  }

  lemma AppendedWindow(times: seq<int>, o: Limits, at: int, t: int)
    ensures InWindow(times + [at], o, t) == InWindow(times, o, t) + if t - o.windowMs < at <= t then 1 else 0
  {
    assert (times + [at])[..|times|] == times;
  }

  // ---------------------------------------------------------------- what every run keeps

  /**
   * For one key, its stored instants against those ever allowed and the last asked: nothing lies in the future, the
   * pruned list stands for the full history, no window is overfull.
   */
  ghost predicate Faithful(o: Limits, s: State, allowed: seq<int>, asked: Option<int>, key: Key, now: int) {
    && (key in s <==> asked.Some?)
    && (asked.None? ==> allowed == [])
    && (asked.Some? ==>
          && asked.value <= now && NoneAfter(TimesOf(s, key), asked.value)
          && (o.windowMs > 0 ==> TimesOf(s, key) == Later(allowed, asked.value - o.windowMs)))
    && NoneAfter(allowed, now)
    && NeverOverfull(o, allowed)
  }

  ghost predicate NeverOverfull(o: Limits, times: seq<int>) {
    forall t :: InWindow(times, o, t) <= if o.maxRequests > 0 then o.maxRequests else 0
  }

  lemma AllowedStaysWithin(o: Limits, times: seq<int>, at: int)
    requires NoneAfter(times, at) && NeverOverfull(o, times) && InWindow(times, o, at) < o.maxRequests
    ensures NeverOverfull(o, times + [at])
  {
    forall t
      ensures InWindow(times + [at], o, t) <= o.maxRequests
    {
      AppendedWindow(times, o, at, t);
      if at <= t {
        LaterWindowHasNoMore(times, o, at, t);
      }
    }
  }

  /** The limiter's pruned list decides exactly as the full history would. */
  lemma DecidesByTheWindow(o: Limits, s: State, allowed: seq<int>, asked: Option<int>, call: Call, now: int)
    requires Faithful(o, s, allowed, asked, call.key, now) && now <= call.at
    ensures Later(TimesOf(s, call.key), call.at - o.windowMs) == Later(allowed, call.at - o.windowMs)
    ensures Allows(o, s, call) <==> InWindow(allowed, o, call.at) < o.maxRequests
  {
    PrunedIsWindow(allowed, o, call.at);
    if asked.Some? {
      if o.windowMs > 0 {
        PruneAgain(allowed, asked.value - o.windowMs, call.at - o.windowMs);
      } else {
        NothingLater(TimesOf(s, call.key), call.at - o.windowMs);
        NothingLater(allowed, call.at - o.windowMs);
      }
    }
  }

  lemma StepKeeps(o: Limits, s: State, allowed: seq<int>, asked: Option<int>, call: Call, now: int)
    requires Faithful(o, s, allowed, asked, call.key, now) && now <= call.at
    ensures var more := allowed + if Allows(o, s, call) then [call.at] else [];
            Faithful(o, Step(o, s, call), more, Some(call.at), call.key, call.at)
  {
    hide NeverOverfull, InWindow, Later;
    DecidesByTheWindow(o, s, allowed, asked, call, now);
    LaterStaysWithin(allowed, call.at - o.windowMs, call.at);
    if Allows(o, s, call) {
      AllowedStaysWithin(o, allowed, call.at);
      LaterAppended(allowed, call.at - o.windowMs, call.at);
    } else {
      assert allowed + [] == allowed;
    }
  }

  lemma NothingAllowedYet(o: Limits)
    ensures NeverOverfull(o, [])
  {
  }

  lemma {:induction false} EveryRunIsFaithful(o: Limits, calls: seq<Call>, key: Key, now: int)
    requires InTime(calls) && (calls != [] ==> calls[|calls| - 1].at <= now)
    ensures Faithful(o, Run(o, calls), Allowed(o, calls, key), LastAsked(calls, key), key, now)
  {
    hide NeverOverfull, Allows, Later;
    if calls == [] {
      NothingAllowedYet(o);
    } else {
      var before, last := calls[..|calls| - 1], calls[|calls| - 1];
      EveryRunIsFaithful(o, before, key, last.at);
      if last.key == key {
        StepKeeps(o, Run(o, before), Allowed(o, before, key), LastAsked(before, key), last, last.at);
      } else {
        assert Allowed(o, before, key) + [] == Allowed(o, before, key);
      }
    }
  }

  /**
   * The bound: whatever the calls, in no window of the configured length, wherever it ends, are more calls of one
   * key answered true than the maximum.
   */
  lemma NoWindowIsOverfull(o: Limits, calls: seq<Call>, key: Key, t: int)
    requires InTime(calls) && o.maxRequests >= 0
    ensures InWindow(Allowed(o, calls, key), o, t) <= o.maxRequests
  {
    EveryRunIsFaithful(o, calls, key, if calls == [] then 0 else calls[|calls| - 1].at);
  }

  /** A call is answered false exactly when the window that ends with it is already full of calls answered true. */
  lemma RefusedOnlyWhenFull(o: Limits, calls: seq<Call>, call: Call)
    requires InTime(calls + [call]) && o.maxRequests >= 0
    ensures !AnsweredTrue(o, calls + [call])
            <==> InWindow(Allowed(o, calls, call.key), o, call.at) == o.maxRequests
  {
    hide Allows;
    assert (calls + [call])[..|calls|] == calls;
    assert forall i :: 0 <= i < |calls| ==> (calls + [call])[i] == calls[i];
    assert forall i, j :: 0 <= i < j < |calls| ==> (calls + [call])[i].at <= (calls + [call])[j].at;
    assert calls != [] ==> (calls + [call])[|calls| - 1].at <= (calls + [call])[|calls|].at;
    EveryRunIsFaithful(o, calls, call.key, call.at);
    DecidesByTheWindow(o, Run(o, calls), Allowed(o, calls, call.key), LastAsked(calls, call.key), call, call.at);
    NoWindowIsOverfull(o, calls, call.key, call.at);
  }

  /** After each call the key's pruned list is the calls answered true, filtered to the window of that call. */
  lemma PrunedListIsTheWindow(o: Limits, calls: seq<Call>)
    requires InTime(calls) && calls != [] && o.windowMs > 0
    ensures var last := calls[|calls| - 1];
            TimesOf(Run(o, calls), last.key) == Later(Allowed(o, calls, last.key), last.at - o.windowMs)
  {
    hide Later, NeverOverfull, NoneAfter, Allowed, Run;
    var last := calls[|calls| - 1];
    EveryRunIsFaithful(o, calls, last.key, last.at);
  }

  // ---------------------------------------------------------------- the limiter's code

  class Limiter {
    var hits: map<Key, seq<int>>
    const options: Limits

    constructor (options: Limits)
      ensures hits == EMPTY && this.options == options
    {
      hits := map[];
      this.options := options;
    }

    method Allow(key: Key, at: int) returns (ok: bool)
      modifies this
      ensures hits == Step(options, old(hits), Call(key, at))
      ensures ok == Allows(options, old(hits), Call(key, at))
      ensures hits.Keys == old(hits).Keys + {key} && forall k :: k in old(hits) && k != key ==> hits[k] == old(hits)[k]
    {
      hide Later;
      var cutoff := at - options.windowMs;
      var recent := Prune(if key in hits then hits[key] else [], cutoff);
      if |recent| >= options.maxRequests {
        hits := hits[key := recent];
        return false;
      }
      recent := recent + [at];
      hits := hits[key := recent];
      return true;
    }

    method Prune(times: seq<int>, cutoff: int) returns (recent: seq<int>)
      ensures recent == Later(times, cutoff)
    {
      recent := [];
      for i := 0 to |times|
        invariant recent == Later(times[..i], cutoff)
      {
        assert times[..i + 1][..i] == times[..i];
        if times[i] > cutoff {
          recent := recent + [times[i]];
        }
      }
      assert times[..|times|] == times;
    }

    /** Forgets one key, or all of them: a fresh start for the caller. */
    method Reset(key: Key, all: bool)
      modifies this
      ensures hits == if all then map[] else old(hits) - {key}
    {
      hits := if all then map[] else hits - {key};
    }
  }
}
