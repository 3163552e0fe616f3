/**
 The rolling latency list of one backend.  Recording is two separate Redis
 commands, LPUSH and LTRIM, so those of concurrent requests interleave; p95
 is an order statistic over whatever the list holds.
 */
module LatencyTracker {
  import opened Common
  import opened Sorting

  datatype Event = Push(latency: real) | Trim

  /** LTRIM key 0 stop; a negative stop counts from the end of the list. */
  function LTrim(list: seq<real>, stop: int): seq<real> {
    var last := if stop < 0 then |list| + stop else stop;
    if last < 0 then [] else if last >= |list| then list else list[..last + 1]
  }

  function Step(list: seq<real>, e: Event, window: int): seq<real> {
    match e
    case Push(v) => [v] + list
    case Trim => LTrim(list, window - 1)
  }

  function Run(events: seq<Event>, window: int): seq<real> {
    if events == [] then [] else Step(Run(Front(events), window), Last(events), window)
  }

  /** One backend's list; `record` is Push followed, later, by Trim. */
  class Tracker {
    const window: int
    var list: seq<real>

    constructor (window: int)
      ensures this.window == window && list == []
    {
      this.window := window;
      list := [];
    }

    method Push(latency: real)
      modifies this
      ensures list == Step(old(list), Event.Push(latency), window)
    {
      list := [latency] + list;
    }

    method Trim()
      modifies this
      ensures list == Step(old(list), Event.Trim, window)
    {
      list := LTrim(list, window - 1);
    }
  }

  // ----- the list under interleaving -----

  /** The pushed samples, newest first. */
  function Pushed(events: seq<Event>): seq<real> {
    if events == [] then []
    else (match Last(events) case Push(v) => [v] case Trim => []) + Pushed(Front(events))
  }

  function Trims(events: seq<Event>): nat {
    if events == [] then 0 else Trims(Front(events)) + if Last(events).Trim? then 1 else 0
  }

  /** Every trim follows its own push. */
  predicate TrimsFollowPushes(events: seq<Event>) {
    events == [] || (TrimsFollowPushes(Front(events)) && Trims(events) <= |Pushed(events)|)
  }

  /**
   Under any interleaving of the pushes and trims of concurrent requests the list is the newest
   part of the history: at least the last `window` samples, and at most one more for every
   push whose trim is still to come.
   */
  lemma {:induction false} ListIsRecentHistory(events: seq<Event>, window: int)
    requires window >= 1 && TrimsFollowPushes(events)
    ensures var list, all := Run(events, window), Pushed(events);
            && list <= all
            && (if |all| < window then |all| else window) <= |list|
            && |list| <= window + (|all| - Trims(events))
  {
    if events != [] {
      ListIsRecentHistory(Front(events), window);
    }
  }

  /** A window size of zero never trims: LTRIM 0 -1 keeps the whole list. */
  lemma {:induction false} ZeroWindowKeepsAll(events: seq<Event>)
    ensures Run(events, 0) == Pushed(events)
  {
    if events != [] {
      ZeroWindowKeepsAll(Front(events));
    }
  }

  /** At most `window` samples are kept, apart from those whose trim is still to come. */
  ghost predicate Capped(window: int) {
    forall events :: TrimsFollowPushes(events) ==> |Run(events, window)| <= window + (|Pushed(events)| - Trims(events))
  }

  /** The list is capped exactly for window sizes of one and more. */
  lemma CappedExactly(window: int)
    ensures Capped(window) <==> window >= 1
  {
    if window >= 1 {
      forall events | TrimsFollowPushes(events)
        ensures |Run(events, window)| <= window + (|Pushed(events)| - Trims(events))
      {
        ListIsRecentHistory(events, window);
      }
    } else if window == 0 {
      var one := [Push(1.0)];
      var events := one + [Trim];
      assert Front(one) == [];
      assert Trims(one) == 0 && Pushed(one) == [1.0] && TrimsFollowPushes(one);
      assert Front(events) == one && Last(events) == Trim;
      ZeroWindowKeepsAll(events);
    } else {
      assert TrimsFollowPushes([]);
    }
  }

  // ----- p95 -----

  function ByValue(v: real): Rank {
    Rank(0, v)
  }

  /** `min(int(n * 0.95), n - 1)`. */
  function Index(n: nat): int {
    var i := 95 * n / 100;
    if i < n - 1 then i else n - 1
  }

  function P95(list: seq<real>): Option<real> {
    if list == [] then None
    else
      assert |Sort(list, ByValue)| == |list| by { SortContents(list, ByValue); }
      Some(Sort(list, ByValue)[Index(|list|)])
  }

  function CountBelow(s: seq<real>, v: real): nat {
    if s == [] then 0 else (if s[0] < v then 1 else 0) + CountBelow(s[1..], v)
  }

  function CountAtMost(s: seq<real>, v: real): nat {
    if s == [] then 0 else (if s[0] <= v then 1 else 0) + CountAtMost(s[1..], v)
  }

  lemma {:induction false} InsertCounts(s: seq<real>, x: real, v: real)
    ensures CountBelow(Insert(s, x, ByValue), v) == CountBelow(s, v) + if x < v then 1 else 0
    ensures CountAtMost(Insert(s, x, ByValue), v) == CountAtMost(s, v) + if x <= v then 1 else 0
  {
    if s == [] || Leq(ByValue(x), ByValue(s[0])) {
      assert ([x] + s)[1..] == s;
    } else {
      var rest := Insert(s[1..], x, ByValue);
      InsertCounts(s[1..], x, v);
      assert ([s[0]] + rest)[1..] == rest;
    }
  }

  lemma {:induction false} SortCounts(s: seq<real>, v: real)
    ensures CountBelow(Sort(s, ByValue), v) == CountBelow(s, v)
    ensures CountAtMost(Sort(s, ByValue), v) == CountAtMost(s, v)
  {
    if s != [] {
      SortCounts(s[1..], v);
      InsertCounts(Sort(s[1..], ByValue), s[0], v);
    }
  }

  /** In an ordered list, at most `i` elements are below the one at `i`, and more than `i` do not exceed it. */
  lemma {:induction false} SortedCounts(s: seq<real>, i: nat)
    requires Sorted(s, ByValue) && i < |s|
    ensures CountBelow(s, s[i]) <= i && CountAtMost(s, s[i]) >= i + 1
  {
    if i == 0 {
      NoneBelow(s, s[0]);
    } else {
      assert Leq(ByValue(s[0]), ByValue(s[i]));
      SortedCounts(s[1..], i - 1);
    }
  }

  lemma {:induction false} NoneBelow(s: seq<real>, v: real)
    requires forall i :: 0 <= i < |s| ==> v <= s[i]
    ensures CountBelow(s, v) == 0
  {
    if s != [] {
      NoneBelow(s[1..], v);
    }
  }

  /**
   p95 of n > 0 samples is a sample with at most floor(0.95 n) samples below it and more than
   floor(0.95 n) samples not above it; no samples give None.  The index clamp never acts.
   */
  lemma P95IsOrderStatistic(list: seq<real>)
    ensures P95(list).None? <==> list == []
    ensures list != [] ==> Index(|list|) == 95 * |list| / 100
    ensures list != [] ==>
              && P95(list).value in list
              && CountBelow(list, P95(list).value) <= 95 * |list| / 100
              && CountAtMost(list, P95(list).value) >= 95 * |list| / 100 + 1
  {
    if list != [] {
      var sorted := Sort(list, ByValue);
      SortContents(list, ByValue);
      SortSorted(list, ByValue);
      var v := P95(list).value;
      assert v in multiset(sorted);
      SortedCounts(sorted, Index(|list|));
      SortCounts(list, v);
    }
  }
}
