/**
 Backends and the two routing policies.  The orchestrator calls `select` once per
 failover step on the shrinking candidate list; the visits amount to a stable sort.
 */
module Routing {
  import opened Common
  import opened Sorting

  type BackendId = nat

  datatype Backend = Backend(
    id: BackendId, name: string, model: string, priority: int, enabled: bool,
    costIn: real, costOut: real)

  predicate DistinctIds(s: seq<Backend>) {
    forall i, j :: 0 <= i < j < |s| ==> s[i].id != s[j].id
  }

  /** `[b for b in s if b.id != id]`. */
  function Without(s: seq<Backend>, id: BackendId): (r: seq<Backend>)
    ensures |r| <= |s|
    ensures forall b :: b in r <==> b in s && b.id != id
  {
    if s == [] then []
    else
      assert s == [s[0]] + s[1..];
      if s[0].id == id then Without(s[1..], id) else [s[0]] + Without(s[1..], id)
  }

  lemma {:induction false} WithoutShrinks(s: seq<Backend>, b: Backend)
    requires b in s
    ensures |Without(s, b.id)| < |s|
  {
    if s[0].id != b.id {
      WithoutShrinks(s[1..], b);
    }
  }

  lemma {:induction false} WithoutDistinct(s: seq<Backend>, id: BackendId)
    requires DistinctIds(s)
    ensures DistinctIds(Without(s, id))
  {
    if s != [] {
      WithoutDistinct(s[1..], id);
      var rest := Without(s[1..], id);
      forall j | 0 <= j < |rest| ensures rest[j].id != s[0].id {
        assert rest[j] in s[1..];
      }
    }
  }

  // ----- policies -----

  /** The policy contract: some candidate of any nonempty list. */
  ghost predicate Picks(select: seq<Backend> --> Backend) {
    forall c: seq<Backend> :: c != [] ==> select.requires(c) && select(c) in c
  }

  /** `(p95 is not None, p95 or 0.0)`: backends without data come first. */
  function LatencyRank(p95: BackendId -> Option<real>): Backend -> Rank {
    (b: Backend) => match p95(b.id) case None => Rank(0, 0.0) case Some(v) => Rank(1, v)
  }

  function CostRank(): Backend -> Rank {
    (b: Backend) => Rank(0, b.costIn + b.costOut)
  }

  function SelectByLatency(c: seq<Backend>, p95: BackendId -> Option<real>): Backend
    requires c != []
  {
    SortContents(c, LatencyRank(p95));
    if |c| == 1 then c[0] else Sort(c, LatencyRank(p95))[0]
  }

  function SelectByCost(c: seq<Backend>, complexity: real, threshold: real): Backend
    requires c != []
  {
    SortContents(c, CostRank());
    var byCost := Sort(c, CostRank());
    if complexity < threshold then byCost[0] else byCost[|byCost| - 1]
  }

  function LatencyPolicy(p95: BackendId -> Option<real>): seq<Backend> --> Backend {
    (c: seq<Backend>) requires c != [] => SelectByLatency(c, p95)
  }

  function CostPolicy(complexity: real, threshold: real): seq<Backend> --> Backend {
    (c: seq<Backend>) requires c != [] => SelectByCost(c, complexity, threshold)
  }

  lemma LatencyPolicyPicks(p95: BackendId -> Option<real>)
    ensures Picks(LatencyPolicy(p95))
  {
    forall c: seq<Backend> | c != [] ensures SelectByLatency(c, p95) in c {
      SortContents(c, LatencyRank(p95));
      assert SelectByLatency(c, p95) in multiset(c);
    }
  }

  lemma CostPolicyPicks(complexity: real, threshold: real)
    ensures Picks(CostPolicy(complexity, threshold))
  {
    forall c: seq<Backend> | c != [] ensures SelectByCost(c, complexity, threshold) in c {
      SortContents(c, CostRank());
      assert SelectByCost(c, complexity, threshold) in multiset(c);
    }
  }

  // ----- what the policies prefer -----

  /** a is no slower than b: it has no data, or both have and its p95 is not above b's. */
  predicate NoSlower(p95: BackendId -> Option<real>, a: Backend, b: Backend) {
    p95(a.id).None? || (p95(b.id).Some? && p95(a.id).value <= p95(b.id).value)
  }

  /**
   The latency policy picks the first of the candidates that none is faster than: one without data if
   there is any, and else one of the least p95.
   */
  lemma LatencyChoiceIsBest(c: seq<Backend>, p95: BackendId -> Option<real>) returns (k: nat)
    requires c != []
    ensures k < |c| && SelectByLatency(c, p95) == c[k]
    ensures forall i :: 0 <= i < |c| ==> NoSlower(p95, c[k], c[i]) && (i < k ==> !NoSlower(p95, c[i], c[k]))
  {
    k := SortHead(c, LatencyRank(p95));
  }

  predicate Precedes(c: seq<Backend>, a: Backend, b: Backend) {
    exists p, q :: 0 <= p < q < |c| && c[p] == a && c[q] == b
  }

  /** v lists the backends of c so that earlier ones are no slower, and equally fast ones stand as in c. */
  ghost predicate FastestFirst(c: seq<Backend>, v: seq<Backend>, p95: BackendId -> Option<real>) {
    && multiset(v) == multiset(c)
    && forall i, j :: 0 <= i < j < |v| ==>
         NoSlower(p95, v[i], v[j]) && (NoSlower(p95, v[j], v[i]) ==> Precedes(c, v[i], v[j]))
  }

  /** v lists the backends of c so that earlier ones cost no more, and equally dear ones stand as in c. */
  ghost predicate CheapestFirst(c: seq<Backend>, v: seq<Backend>) {
    && multiset(v) == multiset(c)
    && forall i, j :: 0 <= i < j < |v| ==>
         && v[i].costIn + v[i].costOut <= v[j].costIn + v[j].costOut
         && (v[i].costIn + v[i].costOut == v[j].costIn + v[j].costOut ==> Precedes(c, v[i], v[j]))
  }

  lemma SortPrecedes(c: seq<Backend>, key: Backend -> Rank, i: nat, j: nat)
    requires i < j < |Sort(c, key)|
    ensures var a, b := Sort(c, key)[i], Sort(c, key)[j];
            Leq(key(a), key(b)) && (key(a) == key(b) ==> Precedes(c, a, b))
  {
    SortSorted(c, key);
    if key(Sort(c, key)[i]) == key(Sort(c, key)[j]) {
      var p, q := SortPair(c, key, i, j);
    }
  }

  // ----- the order of an all-failing walk -----

  /** The backends in the order in which repeated selection on the shrinking list visits them. */
  ghost function VisitOrder(c: seq<Backend>, select: seq<Backend> --> Backend): seq<Backend>
    requires Picks(select)
    decreases |c|
  {
    if c == [] then []
    else
      var chosen := select(c);
      WithoutShrinks(c, chosen);
      [chosen] + VisitOrder(Without(c, chosen.id), select)
  }

  function Reverse<T>(s: seq<T>): seq<T> {
    if s == [] then [] else Reverse(s[1..]) + [s[0]]
  }

  lemma {:induction false} WithoutInsert(s: seq<Backend>, x: Backend, id: BackendId, key: Backend -> Rank)
    requires Sorted(s, key)
    ensures Without(Insert(s, x, key), id)
         == if x.id == id then Without(s, id) else Insert(Without(s, id), x, key)
  {
    if s == [] || Leq(key(x), key(s[0])) {
      assert ([x] + s)[1..] == s;
      var rest := Without(s, id);
      assert rest != [] ==> rest[0] in s;
    } else {
      var tail := Insert(s[1..], x, key);
      WithoutInsert(s[1..], x, id, key);
      assert ([s[0]] + tail)[1..] == tail;
      var rest := Without(s[1..], id);
      assert ([s[0]] + rest)[1..] == rest;
    }
  }

  /** Stable sorting and leaving a backend out commute. */
  lemma {:induction false} SortWithout(s: seq<Backend>, id: BackendId, key: Backend -> Rank)
    ensures Sort(Without(s, id), key) == Without(Sort(s, key), id)
  {
    if s != [] {
      SortWithout(s[1..], id, key);
      SortSorted(s[1..], key);
      WithoutInsert(Sort(s[1..], key), s[0], id, key);
      var rest := Without(s[1..], id);
      assert ([s[0]] + rest)[1..] == rest;
    }
  }

  lemma {:induction false} WithoutAbsent(s: seq<Backend>, id: BackendId)
    requires forall b :: b in s ==> b.id != id
    ensures Without(s, id) == s
  {
    if s != [] {
      WithoutAbsent(s[1..], id);
    }
  }

  lemma {:induction false} WithoutSnoc(s: seq<Backend>, x: Backend)
    requires forall b :: b in s ==> b.id != x.id
    ensures Without(s + [x], x.id) == s
  {
    if s != [] {
      WithoutSnoc(s[1..], x);
      assert (s + [x])[1..] == s[1..] + [x];
      assert s == [s[0]] + s[1..];
    } else {
      assert [] + [x] == [x];
    }
  }

  lemma WithoutLast(s: seq<Backend>)
    requires s != [] && DistinctIds(s)
    ensures Without(s, Last(s).id) == Front(s)
  {
    WithoutSnoc(Front(s), Last(s));
    assert s == Front(s) + [Last(s)];
  }

  lemma {:induction false} DistinctBySet(s: seq<Backend>, t: seq<Backend>)
    requires DistinctIds(s) && multiset(s) == multiset(t)
    ensures DistinctIds(t)
  {
    forall i, j | 0 <= i < j < |t| ensures t[i].id != t[j].id {
      if t[i].id == t[j].id {
        assert t[i] in multiset(s) && t[j] in multiset(s);
        SameIdSame(s, t[i], t[j]);
        TwiceMeansTwo(t, i, j);
        OnceEach(s, t[i]);
      }
    }
  }

  lemma SameIdSame(s: seq<Backend>, a: Backend, b: Backend)
    requires DistinctIds(s) && a in s && b in s && a.id == b.id
    ensures a == b
  {
  }

  lemma {:induction false} OnceEach(s: seq<Backend>, b: Backend)
    requires DistinctIds(s)
    ensures multiset(s)[b] <= 1
  {
    if s != [] {
      OnceEach(s[1..], b);
      assert s == [s[0]] + s[1..];
      assert forall k :: 0 <= k < |s[1..]| ==> s[1..][k].id != s[0].id;
    }
  }

  lemma SortDistinct(s: seq<Backend>, key: Backend -> Rank)
    requires DistinctIds(s)
    ensures DistinctIds(Sort(s, key)) && |Sort(s, key)| == |s|
  {
    SortContents(s, key);
    DistinctBySet(s, Sort(s, key));
  }

  /** Taking the head, or the last element, off a sorted list is sorting without it. */
  lemma SortWithoutEnd(c: seq<Backend>, key: Backend -> Rank)
    requires DistinctIds(c) && c != []
    ensures var sorted := Sort(c, key);
            && |sorted| == |c|
            && Sort(Without(c, sorted[0].id), key) == sorted[1..]
            && Sort(Without(c, Last(sorted).id), key) == Front(sorted)
  {
    var sorted := Sort(c, key);
    SortDistinct(c, key);
    SortWithout(c, sorted[0].id, key);
    WithoutAbsent(sorted[1..], sorted[0].id);
    SortWithout(c, Last(sorted).id, key);
    WithoutLast(sorted);
  }

  /** The latency policy visits the candidates in stable order of (has data, p95). */
  lemma {:induction false} LatencyVisitsSorted(c: seq<Backend>, p95: BackendId -> Option<real>)
    requires DistinctIds(c)
    ensures Picks(LatencyPolicy(p95))
    ensures VisitOrder(c, LatencyPolicy(p95)) == Sort(c, LatencyRank(p95))
    decreases |c|
  {
    LatencyPolicyPicks(p95);
    if c != [] {
      var key := LatencyRank(p95);
      var chosen := LatencyPolicy(p95)(c);
      assert chosen in c;
      WithoutShrinks(c, chosen);
      WithoutDistinct(c, chosen.id);
      SortWithoutEnd(c, key);
      LatencyVisitsSorted(Without(c, chosen.id), p95);
    }
  }

  lemma {:induction false} ReverseSnoc<T>(s: seq<T>, x: T)
    ensures Reverse(s + [x]) == [x] + Reverse(s)
  {
    if s != [] {
      ReverseSnoc(s[1..], x);
      assert (s + [x])[1..] == s[1..] + [x];
    }
  }

  lemma CostPolicyChooses(c: seq<Backend>, complexity: real, threshold: real)
    requires c != []
    ensures Picks(CostPolicy(complexity, threshold))
    ensures var sorted, chosen := Sort(c, CostRank()), CostPolicy(complexity, threshold)(c);
            && |sorted| == |c|
            && chosen in c
            && chosen == (if complexity < threshold then sorted[0] else Last(sorted))
            && |Without(c, chosen.id)| < |c|
            && VisitOrder(c, CostPolicy(complexity, threshold))
            == [chosen] + VisitOrder(Without(c, chosen.id), CostPolicy(complexity, threshold))
  {
    CostPolicyPicks(complexity, threshold);
    SortContents(c, CostRank());
    WithoutShrinks(c, CostPolicy(complexity, threshold)(c));
  }

  lemma LastReversesFirst(sorted: seq<Backend>)
    requires sorted != []
    ensures Reverse(sorted) == [Last(sorted)] + Reverse(Front(sorted))
  {
    ReverseSnoc(Front(sorted), Last(sorted));
    assert sorted == Front(sorted) + [Last(sorted)];
  }

  /** The cost policy visits cheapest first for simple prompts and exactly the other way round for complex ones. */
  lemma {:induction false} CostVisitsSorted(c: seq<Backend>, complexity: real, threshold: real)
    requires DistinctIds(c)
    ensures Picks(CostPolicy(complexity, threshold))
    ensures VisitOrder(c, CostPolicy(complexity, threshold))
         == if complexity < threshold then Sort(c, CostRank()) else Reverse(Sort(c, CostRank()))
    decreases |c|
  {
    CostPolicyPicks(complexity, threshold);
    if c != [] {
      var chosen := CostPolicy(complexity, threshold)(c);
      CostPolicyChooses(c, complexity, threshold);
      WithoutDistinct(c, chosen.id);
      SortWithoutEnd(c, CostRank());
      CostVisitsSorted(Without(c, chosen.id), complexity, threshold);
      LastReversesFirst(Sort(c, CostRank()));
    }
  }

  lemma SortIsFastestFirst(c: seq<Backend>, p95: BackendId -> Option<real>)
    ensures FastestFirst(c, Sort(c, LatencyRank(p95)), p95)
  {
    var v, key := Sort(c, LatencyRank(p95)), LatencyRank(p95);
    SortContents(c, key);
    forall i, j | 0 <= i < j < |v|
      ensures NoSlower(p95, v[i], v[j]) && (NoSlower(p95, v[j], v[i]) ==> Precedes(c, v[i], v[j]))
    {
      SortPrecedes(c, key, i, j);
    }
  }

  /** The latency policy visits backends without data first, then the fastest, ties as in the list. */
  lemma LatencyVisitsFastestFirst(c: seq<Backend>, p95: BackendId -> Option<real>)
    requires DistinctIds(c)
    ensures Picks(LatencyPolicy(p95)) && FastestFirst(c, VisitOrder(c, LatencyPolicy(p95)), p95)
  {
    LatencyVisitsSorted(c, p95);
    SortIsFastestFirst(c, p95);
  }

  /** v is a list of c cheapest first, read forwards for simple prompts and backwards for complex ones. */
  ghost predicate ByCost(c: seq<Backend>, v: seq<Backend>, simple: bool) {
    exists w :: CheapestFirst(c, w) && |w| == |v|
                && forall i :: 0 <= i < |v| ==> v[i] == w[if simple then i else |w| - 1 - i]
  }

  lemma {:induction false} ReverseAt<T>(s: seq<T>, i: nat)
    requires i < |s|
    ensures |Reverse(s)| == |s| && Reverse(s)[i] == s[|s| - 1 - i]
  {
    if |s| > 1 {
      ReverseAt(s[1..], if i < |s| - 1 then i else 0);
    }
  }

  /** The cost policy visits the cheapest first below the threshold, and exactly the other way round from it on. */
  lemma CostVisitsByCost(c: seq<Backend>, complexity: real, threshold: real)
    requires DistinctIds(c)
    ensures Picks(CostPolicy(complexity, threshold))
    ensures ByCost(c, VisitOrder(c, CostPolicy(complexity, threshold)), complexity < threshold)
  {
    CostVisitsSorted(c, complexity, threshold);
    SortIsCheapestFirst(c);
    ReadsByCost(c, VisitOrder(c, CostPolicy(complexity, threshold)), Sort(c, CostRank()), complexity < threshold);
  }

  lemma ReadsByCost(c: seq<Backend>, v: seq<Backend>, w: seq<Backend>, simple: bool)
    requires CheapestFirst(c, w) && v == if simple then w else Reverse(w)
    ensures ByCost(c, v, simple)
  {
    if !simple {
      forall i | 0 <= i < |w| ensures |v| == |w| && v[i] == w[|w| - 1 - i] {
        ReverseAt(w, i);
      }
      assert |v| == |w| by {
        if w != [] {
          ReverseAt(w, 0);
        }
      }
    }
  }

  lemma SortIsCheapestFirst(c: seq<Backend>)
    ensures CheapestFirst(c, Sort(c, CostRank()))
  {
    var w := Sort(c, CostRank());
    SortContents(c, CostRank());
    forall i, j | 0 <= i < j < |w|
      ensures w[i].costIn + w[i].costOut <= w[j].costIn + w[j].costOut
      ensures w[i].costIn + w[i].costOut == w[j].costIn + w[j].costOut ==> Precedes(c, w[i], w[j])
    {
      SortPrecedes(c, CostRank(), i, j);
    }
  }
}
