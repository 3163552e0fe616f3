/**
 The two-tier response cache: L1 is a Redis map with a TTL, L2 a table searched by
 vector distance.  `Get` is proved against the plain history of writes.
 */
module TwoTierCache {
  import opened Common
  import CacheKeys

  type Vector = seq<real>
  type Distance = (Vector, Vector) -> real
  /** An embedding service turns a text into a vector. */
  type Embedder = string -> Vector

  datatype Tier = L1 | L2
  datatype Answer = Answer(content: string, tokensIn: nat, tokensOut: nat)
  datatype Hit = Hit(answer: Answer, tier: Tier)

  /**
   A put is two writes, first to L1 and then, if the writer has an embedder, to L2; the writes of
   concurrent puts interleave.
   */
  datatype Write =
    | ToL1(model: string, digest: string, answer: Answer, now: int)
    | ToL2(model: string, digest: string, answer: Answer, vector: Vector)

  datatype Stored = Stored(answer: Answer, expireAt: int)
  datatype Row = Row(model: string, digest: string, vector: Vector, answer: Answer)
  datatype Stores = Stores(l1: map<string, Stored>, rows: seq<Row>)

  const Empty := Stores(map[], [])

  // ----- the stores -----

  function WriteStep(s: Stores, w: Write, ttl: int): Stores {
    match w
    case ToL1(model, digest, answer, now) =>
      s.(l1 := s.l1[CacheKeys.L1Key(model, digest) := Stored(answer, now + ttl)])
    case ToL2(model, digest, answer, vector) => s.(rows := s.rows + [Row(model, digest, vector, answer)])
  }

  function Run(history: seq<Write>, ttl: int): Stores {
    if history == [] then Empty else WriteStep(Run(Front(history), ttl), Last(history), ttl)
  }

  function GetL1(s: Stores, model: string, digest: string, now: int): Option<Hit> {
    var k := CacheKeys.L1Key(model, digest);
    if k in s.l1 && !Expired(Some(s.l1[k].expireAt), now) then Some(Hit(s.l1[k].answer, L1)) else None
  }

  /** The nearest row of the model (ORDER BY distance LIMIT 1). */
  function Nearest(rows: seq<Row>, model: string, q: Vector, dist: Distance): Option<Row> {
    if rows == [] then None
    else
      var best, r := Nearest(Front(rows), model, q, dist), Last(rows);
      if r.model == model && (best.None? || dist(r.vector, q) < dist(best.value.vector, q)) then Some(r) else best
  }

  /** The nearest row, unless its similarity is below the threshold. */
  function FindSimilar(rows: seq<Row>, model: string, q: Vector, threshold: real, dist: Distance): Option<Row> {
    var best := Nearest(rows, model, q, dist);
    if best.None? || 1.0 - dist(best.value.vector, q) < threshold then None else best
  }

  function GetL2(s: Stores, model: string, q: Option<Vector>, threshold: real, dist: Distance): Option<Hit> {
    if q.None? then None
    else
      match FindSimilar(s.rows, model, q.value, threshold, dist)
      case None => None
      case Some(r) => Some(Hit(r.answer, L2))
  }

  /** A lookup reads L1 in one state and, on a miss, L2 in the later state that it finds after embedding. */
  function Get(early: Stores, late: Stores, model: string, digest: string, q: Option<Vector>, now: int,
               threshold: real, dist: Distance): Option<Hit> {
    var hit := GetL1(early, model, digest, now);
    if hit.Some? then hit else GetL2(late, model, q, threshold, dist)
  }

  /** The writes of other requests, one after the other. */
  function Apply(s: Stores, writes: seq<Write>, ttl: int): Stores {
    if writes == [] then s else WriteStep(Apply(s, Front(writes), ttl), Last(writes), ttl)
  }

  /** One gateway process's cache: the shared stores and its own lazily resolved embedder. */
  class Cache {
    const ttl: int
    const threshold: real
    const dist: Distance
    var stores: Stores
    var embedder: Option<Embedder>
    var resolved: bool
    var factoryCalls: nat

    ghost predicate Valid()
      reads this
    {
      && factoryCalls == (if resolved then 1 else 0)
      && (!resolved ==> embedder.None?)
    }

    constructor (ttl: int, threshold: real, dist: Distance)
      ensures Valid() && !resolved && stores == Empty
      ensures this.ttl == ttl && this.threshold == threshold && this.dist == dist
    {
      this.ttl, this.threshold, this.dist := ttl, threshold, dist;
      stores, embedder, resolved, factoryCalls := Empty, None, false, 0;
    }

    /** `offer` is what the embeddings factory would give now; it is asked at most once per process. */
    method Embed(text: string, offer: Option<Embedder>) returns (v: Option<Vector>)
      requires Valid()
      modifies this`embedder, this`resolved, this`factoryCalls
      ensures Valid() && resolved
      ensures embedder == (if old(resolved) then old(embedder) else offer)
      ensures v == (if embedder.None? then None else Some(embedder.value(text)))
    {
      if !resolved {
        embedder, factoryCalls, resolved := offer, factoryCalls + 1, true;
      }
      if embedder.None? {
        return None;
      }
      return Some(embedder.value(text));
    }

    /** Lets the writes of other requests happen, as every await does. */
    method Await(others: seq<Write>)
      requires Valid()
      modifies this`stores
      ensures Valid() && stores == Apply(old(stores), others, ttl)
    {
      for i := 0 to |others|
        invariant Valid() && stores == Apply(old(stores), others[..i], ttl)
      {
        assert Front(others[..i + 1]) == others[..i];
        stores := WriteStep(stores, others[i], ttl);
      }
      assert others[..|others|] == others;
    }

    /** `others` are the writes that land between the two tiers, while the text is embedded. */
    method Lookup(model: string, digest: string, text: string, now: int, offer: Option<Embedder>, others: seq<Write>)
      returns (hit: Option<Hit>)
      requires Valid()
      modifies this
      ensures Valid()
      ensures old(resolved) ==> resolved && embedder == old(embedder)
      ensures GetL1(old(stores), model, digest, now).Some? ==>
                hit == GetL1(old(stores), model, digest, now) && stores == old(stores) && resolved == old(resolved)
      ensures GetL1(old(stores), model, digest, now).None? ==>
                && resolved && stores == Apply(old(stores), others, ttl)
                && hit == Get(old(stores), stores, model, digest,
                              if embedder.None? then None else Some(embedder.value(text)), now, threshold, dist)
    {
      hit := GetL1(stores, model, digest, now);
      if hit.Some? {
        return;
      }
      var q := Embed(text, offer);
      Await(others);
      if q.None? {
        return None;
      }
      var row := FindSimilar(stores.rows, model, q.value, threshold, dist);
      hit := if row.None? then None else Some(Hit(row.value.answer, L2));
    }

    method Store(model: string, digest: string, text: string, answer: Answer, now: int, offer: Option<Embedder>,
                 others: seq<Write>)
      requires Valid()
      modifies this
      ensures Valid() && resolved
      ensures embedder == (if old(resolved) then old(embedder) else offer)
      ensures var between := Apply(WriteStep(old(stores), ToL1(model, digest, answer, now), ttl), others, ttl);
              stores == if embedder.None? then between
                        else WriteStep(between, ToL2(model, digest, answer, embedder.value(text)), ttl)
    {
      stores := stores.(l1 := stores.l1[CacheKeys.L1Key(model, digest) := Stored(answer, now + ttl)]);
      var v := Embed(text, offer);
      Await(others);
      if v.Some? {
        stores := stores.(rows := stores.rows + [Row(model, digest, v.value, answer)]);
      }
    }
  }

  // ----- the reference: the history of writes -----

  /** The last write to L1 under this model and digest. */
  function Latest(history: seq<Write>, model: string, digest: string): (w: Option<Write>)
    ensures w.Some? ==> w.value in history && w.value.ToL1? && w.value.model == model && w.value.digest == digest
  {
    if history == [] then None
    else
      var w := Last(history);
      if w.ToL1? && w.model == model && w.digest == digest then Some(w)
      else Latest(Front(history), model, digest)
  }

  predicate Similar(w: Write, model: string, q: Vector, threshold: real, dist: Distance) {
    w.ToL2? && w.model == model && 1.0 - dist(w.vector, q) >= threshold
  }

  /** Among the writes that pass the threshold, the first one at the least distance. */
  function BestSimilar(history: seq<Write>, model: string, q: Vector, threshold: real, dist: Distance)
    : (b: Option<Write>)
    ensures b.Some? ==> Similar(b.value, model, q, threshold, dist) && b.value in history
  {
    if history == [] then None
    else
      var best, w := BestSimilar(Front(history), model, q, threshold, dist), Last(history);
      if Similar(w, model, q, threshold, dist)
         && (best.None? || dist(w.vector, q) < dist(best.value.vector, q))
      then Some(w) else best
  }

  /**
   What a lookup should answer, from the histories alone: the one that L1 is read after, and the longer
   one that L2 is read after.
   */
  function Expected(history: seq<Write>, later: seq<Write>, model: string, digest: string, q: Option<Vector>, now: int,
                    ttl: int, threshold: real, dist: Distance): Option<Hit> {
    var latest := Latest(history, model, digest);
    if latest.Some? && now <= latest.value.now + ttl then Some(Hit(latest.value.answer, L1))
    else if q.None? then None
    else
      match BestSimilar(history + later, model, q.value, threshold, dist)
      case None => None
      case Some(w) => Some(Hit(w.answer, L2))
  }

  predicate SameLength(history: seq<Write>, digest: string) {
    forall i :: 0 <= i < |history| ==> |history[i].digest| == |digest|
  }

  lemma {:induction false} L1HoldsLatest(history: seq<Write>, model: string, digest: string, ttl: int)
    requires SameLength(history, digest)
    ensures var k, l1, w := CacheKeys.L1Key(model, digest), Run(history, ttl).l1, Latest(history, model, digest);
            && (k in l1 <==> w.Some?)
            && (w.Some? ==> l1[k] == Stored(w.value.answer, w.value.now + ttl))
  {
    if history != [] {
      L1HoldsLatest(Front(history), model, digest, ttl);
      var w := Last(history);
      if CacheKeys.L1Key(w.model, w.digest) == CacheKeys.L1Key(model, digest) {
        CacheKeys.L1KeyInjective(w.model, w.digest, model, digest);
      }
    }
  }

  predicate Agree(found: Option<Row>, best: Option<Write>) {
    match best
    case None => found.None?
    case Some(w) => w.ToL2? && found == Some(Row(w.model, w.digest, w.vector, w.answer))
  }

  lemma NearestSnoc(rows: seq<Row>, r: Row, model: string, q: Vector, dist: Distance)
    ensures var best := Nearest(rows, model, q, dist);
            Nearest(rows + [r], model, q, dist)
            == if r.model == model && (best.None? || dist(r.vector, q) < dist(best.value.vector, q))
               then Some(r) else best
  {
    assert Front(rows + [r]) == rows && Last(rows + [r]) == r;
  }

  lemma BestSnoc(history: seq<Write>, w: Write, model: string, q: Vector, threshold: real, dist: Distance)
    ensures var best := BestSimilar(history, model, q, threshold, dist);
            BestSimilar(history + [w], model, q, threshold, dist)
            == if Similar(w, model, q, threshold, dist)
                  && (best.None? || dist(w.vector, q) < dist(best.value.vector, q))
               then Some(w) else best
  {
    assert Front(history + [w]) == history && Last(history + [w]) == w;
  }

  /** One more row keeps "nearest, then check" and "check, then nearest" together. */
  lemma AgreeSnoc(rows: seq<Row>, history: seq<Write>, w: Write, model: string, q: Vector,
                  threshold: real, dist: Distance)
    requires w.ToL2?
    requires Agree(FindSimilar(rows, model, q, threshold, dist), BestSimilar(history, model, q, threshold, dist))
    ensures Agree(FindSimilar(rows + [Row(w.model, w.digest, w.vector, w.answer)], model, q, threshold, dist),
                  BestSimilar(history + [w], model, q, threshold, dist))
  {
    NearestSnoc(rows, Row(w.model, w.digest, w.vector, w.answer), model, q, dist);
    BestSnoc(history, w, model, q, threshold, dist);
  }

  /** Taking the nearest row and then checking it equals checking first and then taking the nearest. */
  lemma {:induction false} NearestThenCheck(history: seq<Write>, model: string, q: Vector,
                                            ttl: int, threshold: real, dist: Distance)
    ensures Agree(FindSimilar(Run(history, ttl).rows, model, q, threshold, dist),
                  BestSimilar(history, model, q, threshold, dist))
  {
    if history != [] {
      var past, w := Front(history), Last(history);
      NearestThenCheck(past, model, q, ttl, threshold, dist);
      if w.ToL2? {
        AgreeSnoc(Run(past, ttl).rows, past, w, model, q, threshold, dist);
        assert past + [w] == history;
      }
    }
  }

  /** The two tiers answer exactly as the history of writes prescribes, however the writes interleave. */
  lemma GetRefinesHistory(history: seq<Write>, later: seq<Write>, model: string, digest: string,
                          q: Option<Vector>, now: int, ttl: int, threshold: real, dist: Distance)
    requires SameLength(history, digest)
    ensures Get(Run(history, ttl), Run(history + later, ttl), model, digest, q, now, threshold, dist)
         == Expected(history, later, model, digest, q, now, ttl, threshold, dist)
  {
    L1HoldsLatest(history, model, digest, ttl);
    if q.Some? {
      NearestThenCheck(history + later, model, q.value, ttl, threshold, dist);
    }
  }

  /** An L2 answer exists exactly when some write of the model reaches the threshold, and is a most similar one. */
  lemma {:induction false} BestIsMostSimilar(history: seq<Write>, model: string, q: Vector,
                                             threshold: real, dist: Distance)
    ensures var b := BestSimilar(history, model, q, threshold, dist);
            && (b.Some? <==> exists w :: w in history && Similar(w, model, q, threshold, dist))
            && forall w :: w in history && w.ToL2? && w.model == model && b.Some? ==>
                 dist(b.value.vector, q) <= dist(w.vector, q)
  {
    if history != [] {
      BestIsMostSimilar(Front(history), model, q, threshold, dist);
      assert history == Front(history) + [Last(history)];
    }
  }

  /** Under a nondecreasing clock, if any write of the key is still live, then so is the latest. */
  lemma {:induction false} AnyLiveMeansLatestLive(history: seq<Write>, i: nat, now: int, ttl: int)
    requires i < |history| && history[i].ToL1? && now <= history[i].now + ttl
    requires forall j, k :: 0 <= j <= k < |history| && history[j].ToL1? && history[k].ToL1? ==>
               history[j].now <= history[k].now
    ensures var w := Latest(history, history[i].model, history[i].digest);
            w.Some? && now <= w.value.now + ttl
  {
    if i < |history| - 1 {
      AnyLiveMeansLatestLive(Front(history), i, now, ttl);
    }
  }

  /** The write put this answer under the same model and digest, and is still live. */
  predicate LiveWrite(w: Write, model: string, digest: string, now: int, ttl: int) {
    w.ToL1? && w.model == model && w.digest == digest && now <= w.now + ttl
  }

  /** An L1 answer was written under the same model and digest, and is live. */
  lemma L1HitWasWritten(history: seq<Write>, model: string, digest: string, now: int, ttl: int)
    requires SameLength(history, digest) && GetL1(Run(history, ttl), model, digest, now).Some?
    ensures var hit := GetL1(Run(history, ttl), model, digest, now).value;
            && hit.tier == L1
            && exists w :: w in history && LiveWrite(w, model, digest, now, ttl) && w.answer == hit.answer
  {
    L1HoldsLatest(history, model, digest, ttl);
    var w := Latest(history, model, digest).value;
    assert LiveWrite(w, model, digest, now, ttl);
  }

  /**
   An L2 answer needs an embedded query and was written under the same model with a similarity that reaches
   the threshold.
   */
  lemma L2HitWasWritten(history: seq<Write>, model: string, q: Option<Vector>, ttl: int,
                        threshold: real, dist: Distance)
    requires GetL2(Run(history, ttl), model, q, threshold, dist).Some?
    ensures var hit := GetL2(Run(history, ttl), model, q, threshold, dist).value;
            && hit.tier == L2 && q.Some?
            && exists w :: w in history && Similar(w, model, q.value, threshold, dist) && w.answer == hit.answer
  {
    NearestThenCheck(history, model, q.value, ttl, threshold, dist);
  }

  /** What a hit owes its answer to: in L1 the same prompt digest, in L2 enough similarity. */
  lemma HitWasWritten(history: seq<Write>, later: seq<Write>, model: string, digest: string,
                      q: Option<Vector>, now: int, ttl: int, threshold: real, dist: Distance)
    requires SameLength(history, digest)
    requires Get(Run(history, ttl), Run(history + later, ttl), model, digest, q, now, threshold, dist).Some?
    ensures var hit := Get(Run(history, ttl), Run(history + later, ttl), model, digest, q, now, threshold, dist).value;
            match hit.tier
            case L1 => exists w :: w in history && LiveWrite(w, model, digest, now, ttl) && w.answer == hit.answer
            case L2 =>
              && q.Some?
              && exists w :: w in history + later && Similar(w, model, q.value, threshold, dist)
                             && w.answer == hit.answer
  {
    if GetL1(Run(history, ttl), model, digest, now).Some? {
      L1HitWasWritten(history, model, digest, now, ttl);
    } else {
      L2HitWasWritten(history + later, model, q, ttl, threshold, dist);
    }
  }
}
