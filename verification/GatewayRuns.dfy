/**
 Whole runs of the gateway: any number of requests, on any number of replicas, interleave
 their effects on the shared limiter, breakers, cache and request log.  A request may be
 anywhere in its pipeline, or abandoned there.
 */
module GatewayRuns {
  import opened Common
  import opened Routing
  import opened CacheKeys
  import opened TwoTierCache
  import opened Orchestrator
  import opened RequestTraces
  import opened Outcomes
  import BackendRegistry
  import CircuitBreaker
  import Failover
  import LimiterExpiry
  import MemberCodec
  import RateLimiter
  import TokenWindow

  /** A request with its reservation id, the answers its world gives it, and its replica's registry events. */
  datatype Arrival = Arrival(
    req: Request, env: Env, streaming: bool, reservation: string, loaded: seq<BackendRegistry.Event>)

  datatype System = System(
    arrivals: nat -> Arrival,
    threshold: int, cooldown: int,                      // breaker
    ttl: int, similarity: real, dist: Distance,         // cache
    digest: string -> string,
    budget: nat -> nat, window: nat -> int)             // limiter, per API key

  /** One atomic step: an effect of request `rid`, or the expiry of a limiter key. */
  datatype Step =
    | Act(rid: nat, now: int, vector: Option<Vector>, effect: Effect)
    | KeyExpiry(key: nat, now: int)

  function TraceOf(sys: System, rid: nat): seq<Effect>
    requires Sound(sys)
  {
    var a := sys.arrivals(rid);
    assert RoutesFor(sys, rid);
    Handle(a.env, a.req, a.streaming).trace
  }

  ghost predicate RoutesFor(sys: System, rid: nat) {
    var a := sys.arrivals(rid);
    && Routes(a.env)
    && a.env.candidates == BackendRegistry.Group(BackendRegistry.Run(a.loaded).byModel, a.req.model)
  }

  /** Policies pick candidates, candidates come from the registry, digests have one length. */
  ghost predicate Sound(sys: System) {
    && (forall rid :: RoutesFor(sys, rid))
    && (forall x, y :: |sys.digest(x)| == |sys.digest(y)|)
  }

  function RawOf(sys: System, rid: nat): string {
    Raw(sys.arrivals(rid).req.model, sys.arrivals(rid).req.messages)
  }

  function DigestOf(sys: System, req: Request): string {
    sys.digest(Raw(req.model, req.messages))
  }

  // ----- what the steps mean to each part -----

  function EffectOf(rid: nat): Step -> seq<Effect> {
    (s: Step) => if s.Act? && s.rid == rid then [s.effect] else []
  }

  function EffectsOf(steps: seq<Step>, rid: nat): seq<Effect> {
    Collect(steps, EffectOf(rid))
  }

  function WriteOf(sys: System): Step -> seq<Write> {
    (s: Step) =>
      if !s.Act? || !s.effect.Cached? then []
      else
        var req := sys.arrivals(s.rid).req;
        match s.effect.tier
        case L1 => [ToL1(req.model, DigestOf(sys, req), s.effect.answer, s.now)]
        case L2 =>
          if s.vector.None? then [] // no embedder
          else [ToL2(req.model, DigestOf(sys, req), s.effect.answer, s.vector.value)]
  }

  function Writes(sys: System, steps: seq<Step>): seq<Write> {
    Collect(steps, WriteOf(sys))
  }

  function BreakerEventOf(id: BackendId): Step -> seq<CircuitBreaker.Event> {
    (s: Step) =>
      if !s.Act? then []
      else if s.effect.Allowed? && s.effect.id == id then [CircuitBreaker.Allow(s.now)]
      else if s.effect.Recorded? && s.effect.id == id then [CircuitBreaker.Record(s.effect.ok, s.now)]
      else []
  }

  function BreakerEvents(steps: seq<Step>, id: BackendId): seq<CircuitBreaker.Event> {
    Collect(steps, BreakerEventOf(id))
  }

  function ReserveOp(sys: System, rid: nat, est: nat, now: int): TokenWindow.Op {
    var a := sys.arrivals(rid);
    TokenWindow.Reserve(a.reservation, est, sys.budget(a.req.key), sys.window(a.req.key), now)
  }

  function LimiterOpOf(sys: System, key: nat): Step -> seq<TokenWindow.Op> {
    (s: Step) =>
      match s
      case KeyExpiry(k, now) => if k == key then [TokenWindow.Expire(now)] else []
      case Act(rid, now, _, effect) =>
        if sys.arrivals(rid).req.key != key then []
        else
          match effect
          case Reserved(est, _) => [ReserveOp(sys, rid, est, now)]
          case Reconciled(n) => [TokenWindow.Reconcile(sys.arrivals(rid).reservation, n, now)]
          case _ => []
  }

  function LimiterOps(sys: System, steps: seq<Step>, key: nat): seq<TokenWindow.Op> {
    Collect(steps, LimiterOpOf(sys, key))
  }

  // ----- runs -----

  function AnswerOf(hit: Option<Hit>): Option<Answer> {
    match hit
    case None => None
    case Some(h) => Some(h.answer)
  }

  /** The answer carried by a step is the one its shared part gives after the steps before it. */
  ghost predicate Truthful(sys: System, past: seq<Step>, s: Step) {
    s.Act? ==>
      var req := sys.arrivals(s.rid).req;
      match s.effect
      case Reserved(est, ok) =>
        ok == TokenWindow.Admitted(TokenWindow.Run(LimiterOps(sys, past, req.key)), ReserveOp(sys, s.rid, est, s.now))
      case Looked(tier, found) =>
        var stores := TwoTierCache.Run(Writes(sys, past), sys.ttl);
        found == AnswerOf(match tier
                          case L1 => GetL1(stores, req.model, DigestOf(sys, req), s.now)
                          case L2 => GetL2(stores, req.model, s.vector, sys.similarity, sys.dist))
      case Allowed(id, ok) =>
        var breaker := CircuitBreaker.Run(BreakerEvents(past, id), sys.threshold, sys.cooldown);
        CircuitBreaker.AllowStep(breaker, s.now, sys.cooldown).1 == Some(ok)
      case _ => true
  }

  /** A run of the gateway: each request is somewhere in its own pipeline and every answer is truthful. */
  ghost predicate Genuine(sys: System, steps: seq<Step>)
    requires Sound(sys)
  {
    && (forall rid :: EffectsOf(steps, rid) <= TraceOf(sys, rid))
    && (forall i :: 0 <= i < |steps| ==> Truthful(sys, steps[..i], steps[i]))
  }

  /** A step of a request is the next effect of its pipeline. */
  lemma StepInTrace(sys: System, steps: seq<Step>, i: nat)
    requires Sound(sys) && Genuine(sys, steps) && i < |steps| && steps[i].Act?
    ensures var past, trace := EffectsOf(steps[..i], steps[i].rid), TraceOf(sys, steps[i].rid);
            |past| < |trace| && trace[..|past|] == past && trace[|past|] == steps[i].effect
  {
    var rid := steps[i].rid;
    var past := EffectsOf(steps[..i], rid);
    var later := EffectsOf(steps[i + 1..], rid);
    assert steps == steps[..i] + [steps[i]] + steps[i + 1..];
    CollectAppend(steps[..i] + [steps[i]], steps[i + 1..], EffectOf(rid));
    CollectSnoc(steps[..i], steps[i], EffectOf(rid));
    assert EffectsOf(steps, rid) == past + [steps[i].effect] + later;
    PrefixAt(past, steps[i].effect, later, TraceOf(sys, rid));
  }

  lemma PrefixAt(past: seq<Effect>, e: Effect, later: seq<Effect>, trace: seq<Effect>)
    requires past + [e] + later <= trace
    ensures |past| < |trace| && trace[..|past|] == past && trace[|past|] == e
  {
    var p := past + [e] + later;
    assert p[..|past|] == past && p[|past|] == e;
  }

  // ----- the cache -----

  /** The step is a backend of model m answering `a` to a request for m that uses the cache. */
  ghost predicate Produced(sys: System, s: Step, b: Backend, m: string, a: Answer) {
    && s.Act? && s.effect == Answered(b, Some(a))
    && b.model == m && b.enabled
    && var from := sys.arrivals(s.rid);
       b in from.env.candidates && from.req.model == m && !from.req.bypassCache
  }

  lemma WriteWasProduced(sys: System, steps: seq<Step>, i: nat) returns (j: nat, b: Backend)
    requires Sound(sys) && Genuine(sys, steps) && i < |steps| && steps[i].Act? && steps[i].effect.Cached?
    ensures j < i && steps[j].Act? && steps[j].rid == steps[i].rid
    ensures Produced(sys, steps[j], b, sys.arrivals(steps[i].rid).req.model, steps[i].effect.answer)
  {
    var rid, a := steps[i].rid, steps[i].effect.answer;
    var from := sys.arrivals(rid);
    StepInTrace(sys, steps, i);
    TraceIsBacked(sys, rid);
    b := AnswerBeforeWrite(TraceOf(sys, rid), EffectsOf(steps[..i], rid), from.env.candidates, a);
    j := CollectMember(steps[..i], EffectOf(rid), Answered(b, Some(a)));
  }

  lemma TraceIsBacked(sys: System, rid: nat)
    requires Sound(sys)
    ensures var a := sys.arrivals(rid);
            && Backed(TraceOf(sys, rid), a.env.candidates)
            && (forall b :: b in a.env.candidates ==> b.model == a.req.model && b.enabled)
            && (a.req.bypassCache ==> forall e :: e in TraceOf(sys, rid) ==> !e.Cached? && !e.Looked?)
  {
    var a := sys.arrivals(rid);
    assert RoutesFor(sys, rid);
    RequestCache(a.env, a.req, a.streaming);
    BackendRegistry.CandidatesAgreeWithSnapshot(a.loaded, a.req.model);
  }

  lemma AnswerBeforeWrite(trace: seq<Effect>, past: seq<Effect>, candidates: seq<Backend>, a: Answer)
    returns (b: Backend)
    requires Backed(trace, candidates) && |past| < |trace| && trace[..|past|] == past
    requires trace[|past|].Cached? && trace[|past|].answer == a
    ensures b in candidates && Answered(b, Some(a)) in past
  {
    assert BackedBy(trace[..|past|], candidates, a);
    b :| b in candidates && Answered(b, Some(a)) in past;
  }

  /** The step t stored what the lookup s found: in L1 under the same digest, and live, in L2 similar enough. */
  ghost predicate StoredFor(sys: System, s: Step, t: Step)
    requires s.Act? && s.effect.Looked? && s.effect.found.Some?
  {
    && t.Act? && t.effect == Cached(s.effect.tier, s.effect.found.value)
    && var from, req := sys.arrivals(t.rid).req, sys.arrivals(s.rid).req;
       && from.model == req.model
       && match s.effect.tier
          case L1 => DigestOf(sys, from) == DigestOf(sys, req) && s.now <= t.now + sys.ttl
          case L2 =>
            && s.vector.Some? && t.vector.Some?
            && 1.0 - sys.dist(t.vector.value, s.vector.value) >= sys.similarity
  }

  /** The lookup at i owes its answer to backend b, which gave it at j to a request that stored it at k. */
  ghost predicate Sourced(sys: System, steps: seq<Step>, i: nat, j: nat, k: nat, b: Backend)
    requires i < |steps| && steps[i].Act? && steps[i].effect.Looked? && steps[i].effect.found.Some?
  {
    && j < k < i && StoredFor(sys, steps[i], steps[k])
    && steps[j].Act? && steps[j].rid == steps[k].rid
    && Produced(sys, steps[j], b, sys.arrivals(steps[i].rid).req.model, steps[i].effect.found.value)
  }

  /** The write answers the lookup s. */
  predicate Fits(sys: System, s: Step, w: Write)
    requires s.Act? && s.effect.Looked? && s.effect.found.Some?
  {
    var req := sys.arrivals(s.rid).req;
    && w.answer == s.effect.found.value
    && match s.effect.tier
       case L1 => LiveWrite(w, req.model, DigestOf(sys, req), s.now, sys.ttl)
       case L2 => s.vector.Some? && Similar(w, req.model, s.vector.value, sys.similarity, sys.dist)
  }

  lemma FittingWrite(sys: System, past: seq<Step>, s: Step) returns (w: Write)
    requires Sound(sys) && s.Act? && s.effect.Looked? && s.effect.found.Some? && Truthful(sys, past, s)
    ensures w in Writes(sys, past) && Fits(sys, s, w)
  {
    var req, writes := sys.arrivals(s.rid).req, Writes(sys, past);
    var digest := DigestOf(sys, req);
    match s.effect.tier
    case L1 =>
      DigestsAgree(sys, past, digest);
      L1HitWasWritten(writes, req.model, digest, s.now, sys.ttl);
      w :| w in writes && LiveWrite(w, req.model, digest, s.now, sys.ttl) && w.answer == s.effect.found.value;
    case L2 =>
      L2HitWasWritten(writes, req.model, s.vector, sys.ttl, sys.similarity, sys.dist);
      w :| w in writes && Similar(w, req.model, s.vector.value, sys.similarity, sys.dist)
           && w.answer == s.effect.found.value;
  }

  /** Where a write that answers the lookup was made. */
  lemma FindWrite(sys: System, steps: seq<Step>, i: nat) returns (k: nat)
    requires Sound(sys) && Genuine(sys, steps)
    requires i < |steps| && steps[i].Act? && steps[i].effect.Looked? && steps[i].effect.found.Some?
    ensures k < i && StoredFor(sys, steps[i], steps[k])
  {
    var w := FittingWrite(sys, steps[..i], steps[i]);
    k := CollectMember(steps[..i], WriteOf(sys), w);
    FittingStep(sys, steps[i], steps[k], w);
  }

  lemma FittingStep(sys: System, s: Step, t: Step, w: Write)
    requires s.Act? && s.effect.Looked? && s.effect.found.Some?
    requires w in WriteOf(sys)(t) && Fits(sys, s, w)
    ensures StoredFor(sys, s, t)
  {
  }

  /**
   In every run, a cache hit carries content and token counts that a backend registered for the
   requested model produced earlier for a request for that model that was not bypassed; an L1 hit
   comes from a request with the same prompt digest, an L2 hit from one similar enough.
   */
  lemma CacheProvenance(sys: System, steps: seq<Step>, i: nat)
    requires Sound(sys) && Genuine(sys, steps)
    requires i < |steps| && steps[i].Act? && steps[i].effect.Looked? && steps[i].effect.found.Some?
    ensures exists j: nat, k: nat, b :: Sourced(sys, steps, i, j, k, b)
  {
    var k := FindWrite(sys, steps, i);
    var j, b := WriteWasProduced(sys, steps, k);
    assert Sourced(sys, steps, i, j, k, b);
  }

  /**
   A request of at most one message that hides no other gets from L1 only what was answered to the very
   same messages, unless the hash collides on the two prompts.
   */
  lemma ExactHitIsSamePrompt(sys: System, s: Step, t: Step)
    requires s.Act? && s.effect.Looked? && s.effect.found.Some? && s.effect.tier.L1? && StoredFor(sys, s, t)
    requires OwnsText(sys.arrivals(s.rid).req.messages)
    requires NoCollision(sys.digest, RawOf(sys, t.rid), RawOf(sys, s.rid))
    ensures sys.arrivals(t.rid).req.messages == sys.arrivals(s.rid).req.messages
  {
    var from, req := sys.arrivals(t.rid).req, sys.arrivals(s.rid).req;
    assert Raw(req.model, from.messages) == Raw(req.model, req.messages);
    TextIsOwnExactly(req.model, req.messages);
  }

  lemma DigestsAgree(sys: System, steps: seq<Step>, digest: string)
    requires Sound(sys) && exists x :: digest == sys.digest(x)
    ensures SameLength(Writes(sys, steps), digest)
  {
    var writes := Writes(sys, steps);
    var x :| digest == sys.digest(x);
    forall i | 0 <= i < |writes| ensures |writes[i].digest| == |digest| {
      var k := CollectMember(steps, WriteOf(sys), writes[i]);
      assert |DigestOf(sys, sys.arrivals(steps[k].rid).req)| == |sys.digest(x)|;
    }
  }

  lemma BypassedEffect(sys: System, steps: seq<Step>, i: nat)
    requires Sound(sys) && Genuine(sys, steps)
    requires i < |steps| && steps[i].Act? && sys.arrivals(steps[i].rid).req.bypassCache
    ensures !steps[i].effect.Looked? && !steps[i].effect.Cached?
  {
    StepInTrace(sys, steps, i);
    TraceIsBacked(sys, steps[i].rid);
    assert steps[i].effect in TraceOf(sys, steps[i].rid);
  }

  /** A bypassed request neither reads nor changes the cache. */
  lemma BypassLeavesCacheAlone(sys: System, steps: seq<Step>, i: nat)
    requires Sound(sys) && Genuine(sys, steps)
    requires i < |steps| && steps[i].Act? && sys.arrivals(steps[i].rid).req.bypassCache
    ensures !steps[i].effect.Looked?
    ensures Writes(sys, steps[..i + 1]) == Writes(sys, steps[..i])
  {
    BypassedEffect(sys, steps, i);
    assert steps[..i + 1] == steps[..i] + [steps[i]];
    CollectSnoc(steps[..i], steps[i], WriteOf(sys));
  }

  /** Every result carries the requested model. */
  lemma ResultHasRequestedModel(sys: System, rid: nat)
    requires Sound(sys) && RoutesFor(sys, rid)
    ensures var a := sys.arrivals(rid);
            var r := Handle(a.env, a.req, a.streaming);
            r.outcome.Returned? ==> r.outcome.result.model == a.req.model
  {
    var a := sys.arrivals(rid);
    RequestCache(a.env, a.req, a.streaming);
    BackendRegistry.CandidatesAgreeWithSnapshot(a.loaded, a.req.model);
  }

  // ----- the breaker -----

  /** The failures of a backend recorded by any request since its last recorded success. */
  function FailuresInARow(steps: seq<Step>, id: BackendId): nat {
    if steps == [] then 0
    else
      var s, before := Last(steps), FailuresInARow(Front(steps), id);
      if s.Act? && s.effect.Recorded? && s.effect.id == id then if s.effect.ok then 0 else before + 1 else before
  }

  /** When its last failure was recorded; only meaningful once there is one. */
  function FailedLast(steps: seq<Step>, id: BackendId): int {
    if steps == [] then 0
    else
      var s := Last(steps);
      if s.Act? && s.effect == Recorded(id, false) then s.now else FailedLast(Front(steps), id)
  }

  /** Since its last record, its breaker has been asked when the cooldown was over. */
  predicate FoundCooled(steps: seq<Step>, id: BackendId, cooldown: int) {
    steps != []
    && var s, past := Last(steps), Front(steps);
       if s.Act? && s.effect.Recorded? && s.effect.id == id then false
       else if s.Act? && s.effect.Allowed? && s.effect.id == id
       then s.now - FailedLast(past, id) >= cooldown || FoundCooled(past, id, cooldown)
       else FoundCooled(past, id, cooldown)
  }

  lemma EventSaysStep(steps: seq<Step>, id: BackendId, cooldown: int)
    requires steps != []
    ensures var next := BreakerEventOf(id)(Last(steps));
            && |next| <= 1 && (next != [] ==> next[0].now == Last(steps).now)
            && FailuresInARow(steps, id) == (var before := FailuresInARow(Front(steps), id);
                                             if next == [] || next[0].Allow? then before
                                             else if next[0].ok then 0 else before + 1)
            && FailedLast(steps, id) == (if next != [] && next[0].Record? && !next[0].ok then next[0].now
                                         else FailedLast(Front(steps), id))
            && (FoundCooled(steps, id, cooldown) <==>
                  if next == [] then FoundCooled(Front(steps), id, cooldown)
                  else next[0].Allow? && (next[0].now - FailedLast(Front(steps), id) >= cooldown
                                          || FoundCooled(Front(steps), id, cooldown)))
  {
  }

  lemma HistorySnoc(past: seq<CircuitBreaker.Event>, e: CircuitBreaker.Event, cooldown: int)
    ensures var all := past + [e];
            && CircuitBreaker.Trailing(all) == (if e.Allow? then CircuitBreaker.Trailing(past)
                                                else if e.ok then 0 else CircuitBreaker.Trailing(past) + 1)
            && CircuitBreaker.LastFailure(all) == (if e.Record? && !e.ok then e.now
                                                   else CircuitBreaker.LastFailure(past))
            && (CircuitBreaker.ProbedSince(all, cooldown) <==>
                  e.Allow? && (e.now - CircuitBreaker.LastFailure(past) >= cooldown
                               || CircuitBreaker.ProbedSince(past, cooldown)))
  {
    assert Front(past + [e]) == past && Last(past + [e]) == e;
  }

  /** The breaker's history says what the steps say. */
  lemma {:induction false} EventsSaySteps(steps: seq<Step>, id: BackendId, cooldown: int)
    ensures var events := BreakerEvents(steps, id);
            && CircuitBreaker.Trailing(events) == FailuresInARow(steps, id)
            && CircuitBreaker.LastFailure(events) == FailedLast(steps, id)
            && (CircuitBreaker.ProbedSince(events, cooldown) <==> FoundCooled(steps, id, cooldown))
  {
    if steps != [] {
      var past, next := BreakerEvents(Front(steps), id), BreakerEventOf(id)(Last(steps));
      EventsSaySteps(Front(steps), id, cooldown);
      EventSaysStep(steps, id, cooldown);
      if next == [] {
        assert past + next == past;
      } else {
        HistorySnoc(past, next[0], cooldown);
        assert next == [next[0]];
      }
    }
  }

  /** The breaker's reason to let a call of the backend through, read off the steps of all requests. */
  predicate MayCall(sys: System, steps: seq<Step>, id: BackendId, now: int) {
    || FailuresInARow(steps, id) < CircuitBreaker.Effective(sys.threshold)
    || now - FailedLast(steps, id) >= sys.cooldown
    || FoundCooled(steps, id, sys.cooldown)
  }

  /**
   In every run, a backend is called only after its breaker was asked by that request, at a moment
   when the backend's trailing failures, over all requests and replicas, were below the threshold, or
   its cooldown was over, or had been found over by an earlier probe.
   */
  lemma CallsRespectBreaker(sys: System, steps: seq<Step>, i: nat)
    requires Sound(sys) && Genuine(sys, steps) && i < |steps| && steps[i].Act? && steps[i].effect.Called?
    ensures exists j :: 0 <= j < i && steps[j].Act? && steps[j].rid == steps[i].rid
                        && steps[j].effect == Allowed(steps[i].effect.backend.id, true)
                        && MayCall(sys, steps[..j], steps[i].effect.backend.id, steps[j].now)
  {
    var rid, id := steps[i].rid, steps[i].effect.backend.id;
    StepInTrace(sys, steps, i);
    TraceIsGuarded(sys, rid);
    GrantBeforeCall(TraceOf(sys, rid), EffectsOf(steps[..i], rid), steps[i].effect.backend);
    var j := CollectMember(steps[..i], EffectOf(rid), Allowed(id, true));
    assert Truthful(sys, steps[..j], steps[j]);
    CircuitBreaker.AllowExactly(BreakerEvents(steps[..j], id), steps[j].now, sys.threshold, sys.cooldown);
    EventsSaySteps(steps[..j], id, sys.cooldown);
  }

  lemma TraceIsGuarded(sys: System, rid: nat)
    requires Sound(sys)
    ensures Guarded(TraceOf(sys, rid))
  {
    var a := sys.arrivals(rid);
    assert RoutesFor(sys, rid);
    RequestGuarded(a.env, a.req, a.streaming);
  }

  lemma GrantBeforeCall(trace: seq<Effect>, past: seq<Effect>, b: Backend)
    requires Guarded(trace) && |past| < |trace| && trace[..|past|] == past && trace[|past|] == Called(b)
    ensures Allowed(b.id, true) in past
  {
    assert past[|past| - 1] == trace[|past| - 1];
  }

  // ----- the limiter -----

  /** No other request of the run has this reservation id. */
  ghost predicate OwnReservation(sys: System, steps: seq<Step>, rid: nat) {
    forall s :: s in steps && s.Act? && s.rid != rid ==>
      sys.arrivals(s.rid).reservation != sys.arrivals(rid).reservation
  }

  /** Reservation ids are well formed and never shared, and amounts stay below the exponent limit. */
  ghost predicate GoodReservations(sys: System, steps: seq<Step>) {
    forall s :: s in steps && s.Act? ==>
      && RateLimiter.ValidId(sys.arrivals(s.rid).reservation)
      && OwnReservation(sys, steps, s.rid)
      && (s.effect.Reserved? ==> s.effect.est < MemberCodec.EXPONENT_LIMIT)
      && (s.effect.Reconciled? ==> s.effect.amount < MemberCodec.EXPONENT_LIMIT)
  }

  lemma FrontIsGenuine(sys: System, steps: seq<Step>)
    requires Sound(sys) && Genuine(sys, steps) && steps != []
    ensures Genuine(sys, Front(steps))
  {
    var past := Front(steps);
    forall rid ensures EffectsOf(past, rid) <= TraceOf(sys, rid) {
      assert EffectsOf(steps, rid) == EffectsOf(past, rid) + EffectOf(rid)(Last(steps));
    }
    forall i | 0 <= i < |past| ensures Truthful(sys, past[..i], past[i]) {
      assert past[..i] == steps[..i] && past[i] == steps[i];
    }
  }

  /** A request that reserves now has not reserved before. */
  lemma ReservesOnce(sys: System, steps: seq<Step>, rid: nat)
    requires Sound(sys) && Genuine(sys, steps) && steps != []
    requires Last(steps).Act? && Last(steps).rid == rid && Last(steps).effect.Reserved?
    ensures EffectsOf(Front(steps), rid) == []
  {
    var from := sys.arrivals(rid);
    assert RoutesFor(sys, rid);
    StepInTrace(sys, steps, |steps| - 1);
    OnlyFirstReserves(from.env, from.req, from.streaming);
  }

  lemma OpOfStep(sys: System, s: Step, key: nat, op: TokenWindow.Op)
    requires op in LimiterOpOf(sys, key)(s)
    ensures LimiterOpOf(sys, key)(s) == [op] && op.now == s.now
    ensures op.Expire? ==> s.KeyExpiry? && s.key == key
    ensures op.Reserve? ==> s.Act? && s.effect.Reserved? && op == ReserveOp(sys, s.rid, s.effect.est, s.now)
                            && sys.arrivals(s.rid).req.key == key
    ensures op.Reconcile? ==> s.Act? && s.effect.Reconciled? && sys.arrivals(s.rid).req.key == key
                              && op == TokenWindow.Reconcile(sys.arrivals(s.rid).reservation, s.effect.amount, s.now)
  {
    match s
    case KeyExpiry(_, _) =>
    case Act(_, _, _, effect) =>
      match effect
      case Reserved(est, _) => assert op == ReserveOp(sys, s.rid, est, s.now);
      case Reconciled(_) =>
      case _ =>
  }

  lemma FreshSnoc(ops: seq<TokenWindow.Op>, op: TokenWindow.Op)
    requires RateLimiter.ValidRun(ops) && RateLimiter.ValidOp(op)
    requires op.Reserve? ==> forall x :: x in ops && x.Reserve? ==> x.id != op.id
    ensures RateLimiter.ValidRun(ops + [op])
  {
  }

  /** The operations that the requests of a key make on the limiter are well formed, with fresh ids. */
  lemma {:induction false} LimiterRunIsValid(sys: System, steps: seq<Step>, key: nat)
    requires Sound(sys) && Genuine(sys, steps) && GoodReservations(sys, steps)
    ensures RateLimiter.ValidRun(LimiterOps(sys, steps, key))
  {
    if steps != [] {
      var past, s := Front(steps), Last(steps);
      FrontIsGenuine(sys, steps);
      LimiterRunIsValid(sys, past, key);
      var ops, next := LimiterOps(sys, past, key), LimiterOpOf(sys, key)(s);
      if next == [] {
        assert ops + next == ops;
      } else {
        var op := next[0];
        OpOfStep(sys, s, key, op);
        assert s in steps;
        if op.Reserve? {
          ReservationIsFresh(sys, steps, key);
        }
        FreshSnoc(ops, op);
      }
    }
  }

  lemma ReservationIsFresh(sys: System, steps: seq<Step>, key: nat)
    requires Sound(sys) && Genuine(sys, steps) && GoodReservations(sys, steps) && steps != []
    requires Last(steps).Act? && Last(steps).effect.Reserved?
    ensures forall x :: x in LimiterOps(sys, Front(steps), key) && x.Reserve? ==>
              x.id != sys.arrivals(Last(steps).rid).reservation
  {
    var past, rid := Front(steps), Last(steps).rid;
    ReservesOnce(sys, steps, rid);
    forall x | x in LimiterOps(sys, past, key) && x.Reserve? ensures x.id != sys.arrivals(rid).reservation {
      var k := CollectMember(past, LimiterOpOf(sys, key), x);
      OpOfStep(sys, past[k], key, x);
      if past[k].rid == rid {
        CollectKeeps(past, EffectOf(rid), k, past[k].effect);
        assert false;
      }
    }
  }

  lemma BudgetIsFixed(sys: System, steps: seq<Step>, key: nat)
    ensures TokenWindow.FixedBudget(LimiterOps(sys, steps, key), sys.budget(key))
  {
    var ops := LimiterOps(sys, steps, key);
    forall i | 0 <= i < |ops| && ops[i].Reserve? ensures ops[i].budget == sys.budget(key) {
      var k := CollectMember(steps, LimiterOpOf(sys, key), ops[i]);
      OpOfStep(sys, steps[k], key, ops[i]);
    }
  }

  /**
   In every run, the strings that Redis holds for a key are its record-level state, and the charges
   stored for it exceed its budget by at most the upward corrections since its last admitted reserve.
   */
  lemma LimiterHoldsInRuns(sys: System, steps: seq<Step>, key: nat)
    requires Sound(sys) && Genuine(sys, steps) && GoodReservations(sys, steps)
    ensures var ops := LimiterOps(sys, steps, key);
            && RateLimiter.TextRun(ops) == RateLimiter.ToState(TokenWindow.Run(ops))
            && TokenWindow.Sum(TokenWindow.Run(ops).entries) <= sys.budget(key) + TokenWindow.Corrections(ops)
  {
    LimiterRunIsValid(sys, steps, key);
    RateLimiter.TextRefinesRecords(LimiterOps(sys, steps, key));
    BudgetIsFixed(sys, steps, key);
    TokenWindow.BudgetBound(LimiterOps(sys, steps, key), sys.budget(key));
  }

  /** A granted reserve leaves the key within its budget. */
  lemma AdmissionKeepsBudget(sys: System, steps: seq<Step>, i: nat)
    requires Sound(sys) && Genuine(sys, steps) && i < |steps|
    requires steps[i].Act? && steps[i].effect.Reserved? && steps[i].effect.admitted
    ensures var key := sys.arrivals(steps[i].rid).req.key;
            TokenWindow.Sum(TokenWindow.Run(LimiterOps(sys, steps[..i + 1], key)).entries) <= sys.budget(key)
  {
    var s, key := steps[i], sys.arrivals(steps[i].rid).req.key;
    var past, op := LimiterOps(sys, steps[..i], key), ReserveOp(sys, s.rid, s.effect.est, s.now);
    assert Truthful(sys, steps[..i], s);
    assert steps[..i + 1] == steps[..i] + [s];
    CollectSnoc(steps[..i], s, LimiterOpOf(sys, key));
    BudgetIsFixed(sys, steps[..i + 1], key);
    assert Front(past + [op]) == past;
    TokenWindow.BudgetBound(past + [op], sys.budget(key));
  }

  /** What the limiter last heard about a reservation is what its request last said. */
  lemma {:induction false} ChargeFollowsRequest(sys: System, steps: seq<Step>, rid: nat)
    requires OwnReservation(sys, steps, rid)
    ensures var from := sys.arrivals(rid);
            RateLimiter.LastCharge(LimiterOps(sys, steps, from.req.key), from.reservation)
            == LastAmount(EffectsOf(steps, rid))
  {
    if steps != [] {
      var past, s, from := Front(steps), Last(steps), sys.arrivals(rid);
      ChargeFollowsRequest(sys, past, rid);
      assert s in steps;
      StepTellsBoth(sys, LimiterOps(sys, past, from.req.key), EffectsOf(past, rid), s, rid);
    }
  }

  lemma StepTellsBoth(sys: System, ops: seq<TokenWindow.Op>, effects: seq<Effect>, s: Step, rid: nat)
    requires RateLimiter.LastCharge(ops, sys.arrivals(rid).reservation) == LastAmount(effects)
    requires s.Act? && s.rid != rid ==> sys.arrivals(s.rid).reservation != sys.arrivals(rid).reservation
    ensures var from := sys.arrivals(rid);
            RateLimiter.LastCharge(ops + LimiterOpOf(sys, from.req.key)(s), from.reservation)
            == LastAmount(effects + EffectOf(rid)(s))
  {
    var from := sys.arrivals(rid);
    var next, effect := LimiterOpOf(sys, from.req.key)(s), EffectOf(rid)(s);
    SameTold(sys, s, rid);
    ChargeStep(ops, next, from.reservation);
    AmountStep(effects, effect);
  }

  /** What an operation, or an effect, tells about a reservation. */
  function ChargeTold(next: seq<TokenWindow.Op>, id: string): Option<nat> {
    if next == [] then None
    else
      match next[0]
      case Reserve(x, est, _, _, _) => if x == id then Some(est) else None
      case Reconcile(x, n, _) => if x == id then Some(n) else None
      case Expire(_) => None
  }

  function EffectTold(effect: seq<Effect>): Option<nat> {
    if effect == [] then None
    else
      match effect[0]
      case Reserved(est, _) => Some(est)
      case Reconciled(n) => Some(n)
      case _ => None
  }

  lemma SameTold(sys: System, s: Step, rid: nat)
    requires s.Act? && s.rid != rid ==> sys.arrivals(s.rid).reservation != sys.arrivals(rid).reservation
    ensures var from := sys.arrivals(rid);
            && |LimiterOpOf(sys, from.req.key)(s)| <= 1 && |EffectOf(rid)(s)| <= 1
            && ChargeTold(LimiterOpOf(sys, from.req.key)(s), from.reservation) == EffectTold(EffectOf(rid)(s))
  {
  }

  lemma ChargeStep(ops: seq<TokenWindow.Op>, next: seq<TokenWindow.Op>, id: string)
    requires |next| <= 1
    ensures RateLimiter.LastCharge(ops + next, id)
         == if ChargeTold(next, id).Some? then ChargeTold(next, id) else RateLimiter.LastCharge(ops, id)
  {
    if next == [] {
      assert ops + next == ops;
    } else {
      assert Front(ops + next) == ops && Last(ops + next) == next[0];
    }
  }

  lemma AmountStep(trace: seq<Effect>, next: seq<Effect>)
    requires |next| <= 1
    ensures LastAmount(trace + next) == if EffectTold(next).Some? then EffectTold(next) else LastAmount(trace)
  {
    if next == [] {
      assert trace + next == trace;
    } else {
      assert next == [next[0]];
      CollectSnoc(trace, next[0], AmountTold());
    }
  }

  /**
   Once a request has finished, whatever is still stored for its reservation is charged at the tokens
   of its result, or at the estimate if it ended in an exception.
   */
  lemma FinishedChargeIsRight(sys: System, steps: seq<Step>, rid: nat, e: TokenWindow.Entry)
    requires Sound(sys) && Genuine(sys, steps) && GoodReservations(sys, steps)
    requires EffectsOf(steps, rid) == TraceOf(sys, rid)
    requires e.id == sys.arrivals(rid).reservation
    requires e in TokenWindow.Run(LimiterOps(sys, steps, sys.arrivals(rid).req.key)).entries
    ensures RoutesFor(sys, rid)
    ensures var a := sys.arrivals(rid);
            var o := Handle(a.env, a.req, a.streaming).outcome;
            e.cost == if o.Returned? then Charge(o) else EstimateTokens(a.req.messages)
  {
    var a := sys.arrivals(rid);
    LimiterRunIsValid(sys, steps, a.req.key);
    RateLimiter.StoredCostIsLastCharge(LimiterOps(sys, steps, a.req.key));
    assert RoutesFor(sys, rid);
    RequestLeavesAmount(a.env, a.req, a.streaming);
    var k := CollectMember(steps, EffectOf(rid), TraceOf(sys, rid)[0]);
    assert steps[k] in steps;
    ChargeFollowsRequest(sys, steps, rid);
  }

  // ----- key expiry -----

  lemma SecondReconcile(sys: System, steps: seq<Step>, key: nat)
    requires Sound(sys) && Genuine(sys, steps) && GoodReservations(sys, steps) && steps != []
    requires Last(steps).Act? && Last(steps).effect.Reconciled?
    ensures forall x :: x in LimiterOps(sys, Front(steps), key) && x.Reconcile? ==>
              x.id != sys.arrivals(Last(steps).rid).reservation
  {
    var past, rid := Front(steps), Last(steps).rid;
    NotReconciledYet(sys, steps, rid);
    forall x | x in LimiterOps(sys, past, key) && x.Reconcile? ensures x.id != sys.arrivals(rid).reservation {
      var k := CollectMember(past, LimiterOpOf(sys, key), x);
      OpOfStep(sys, past[k], key, x);
      assert past[k] in steps && Last(steps) in steps;
      if past[k].rid == rid {
        CollectKeeps(past, EffectOf(rid), k, past[k].effect);
        assert false;
      }
    }
  }

  /** A request that reconciles now has not reconciled before. */
  lemma NotReconciledYet(sys: System, steps: seq<Step>, rid: nat)
    requires Sound(sys) && Genuine(sys, steps) && steps != []
    requires Last(steps).Act? && Last(steps).rid == rid && Last(steps).effect.Reconciled?
    ensures forall e :: e in EffectsOf(Front(steps), rid) ==> !e.Reconciled?
  {
    var from, past := sys.arrivals(rid), EffectsOf(Front(steps), rid);
    assert RoutesFor(sys, rid);
    StepInTrace(sys, steps, |steps| - 1);
    forall i | 0 <= i < |past| ensures !past[i].Reconciled? {
      ReconcilesOnlyOnce(from.env, from.req, from.streaming, i, |past|);
    }
  }

  lemma OnceSnoc(ops: seq<TokenWindow.Op>, op: TokenWindow.Op)
    requires LimiterExpiry.OnceReconciled(ops)
    requires op.Reconcile? ==> forall x :: x in ops && x.Reconcile? ==> x.id != op.id
    ensures LimiterExpiry.OnceReconciled(ops + [op])
  {
  }

  /** No reservation of a key is reconciled twice. */
  lemma {:induction false} LimiterReconcilesOnce(sys: System, steps: seq<Step>, key: nat)
    requires Sound(sys) && Genuine(sys, steps) && GoodReservations(sys, steps)
    ensures LimiterExpiry.OnceReconciled(LimiterOps(sys, steps, key))
  {
    if steps != [] {
      var past, s := Front(steps), Last(steps);
      FrontIsGenuine(sys, steps);
      LimiterReconcilesOnce(sys, past, key);
      var ops, next := LimiterOps(sys, past, key), LimiterOpOf(sys, key)(s);
      if next == [] {
        assert ops + next == ops;
      } else {
        OpOfStep(sys, s, key, next[0]);
        if next[0].Reconcile? {
          SecondReconcile(sys, steps, key);
        }
        OnceSnoc(ops, next[0]);
      }
    }
  }

  /**
   In every run, the first expiry of a key goes unnoticed in all that may follow exactly when nothing was
   charged in its window and every reservation it stored had been reconciled.
   */
  lemma RunExpiryHarmlessExactly(sys: System, steps: seq<Step>, key: nat, now: int, id: string)
    requires Sound(sys) && Genuine(sys, steps) && GoodReservations(sys, steps)
    requires sys.window(key) > 0 && sys.budget(key) + 1 < MemberCodec.EXPONENT_LIMIT
    requires LimiterExpiry.FirstExpiry(LimiterOps(sys, steps, key), now)
    requires RateLimiter.ValidId(id) && !RateLimiter.ReservedBefore(LimiterOps(sys, steps, key), id)
    ensures LimiterExpiry.AlwaysUnnoticed(LimiterOps(sys, steps, key), now, sys.window(key), sys.budget(key))
            <==> LimiterExpiry.NothingAtStake(LimiterOps(sys, steps, key), now, sys.window(key))
  {
    LimiterRunIsValid(sys, steps, key);
    LimiterReconcilesOnce(sys, steps, key);
    LimiterExpiry.ExpiryHarmlessExactly(LimiterOps(sys, steps, key), now, sys.window(key), sys.budget(key), id);
  }

  // ----- denials -----

  /**
   In every run, a request whose reserve was answered at i ends in RateLimitExceeded exactly when that answer
   was no, and in NoBackendsAvailable exactly when it was yes, no cached answer is used, and its replica's
   last snapshot has no enabled row for the model.
   */
  lemma DenialsAreExact(sys: System, steps: seq<Step>, i: nat)
    requires Sound(sys) && Genuine(sys, steps)
    requires i < |steps| && steps[i].Act? && steps[i].effect.Reserved? && RoutesFor(sys, steps[i].rid)
    ensures var a := sys.arrivals(steps[i].rid);
            var o, rows := Handle(a.env, a.req, a.streaming).outcome, BackendRegistry.LastInstalled(a.loaded);
            && (o == Raised(RateLimitExceeded) <==> !steps[i].effect.admitted)
            && (o == Raised(NoBackendsAvailable) <==>
                  && steps[i].effect.admitted && (a.req.bypassCache || a.env.hit.None?)
                  && forall b :: b in rows ==> !b.enabled || b.model != a.req.model)
  {
    var a, past := sys.arrivals(steps[i].rid), EffectsOf(steps[..i], steps[i].rid);
    StepInTrace(sys, steps, i);
    OnlyFirstReserves(a.env, a.req, a.streaming);
    RequestLedger(a.env, a.req, a.streaming);
    assert past == [];
    OutcomeExactly(a.env, a.req, a.streaming);
    BackendRegistry.CandidatesByPriority(a.loaded, a.req.model);
    var rows := BackendRegistry.LastInstalled(a.loaded);
    assert a.env.candidates == [] <==> forall b :: b in rows ==> !b.enabled || b.model != a.req.model by {
      if a.env.candidates != [] {
        assert a.env.candidates[0] in a.env.candidates;
      }
    }
  }

  // ----- failover -----

  /**
   In every run, a finished completion gave up on all backends exactly when it was admitted, missed the
   cache, had candidates, and every one of them was refused or failed; the table's primary key suffices.
   */
  lemma CompletionsGiveUpExactly(sys: System, steps: seq<Step>, rid: nat)
    requires Sound(sys) && RoutesFor(sys, rid) && EffectsOf(steps, rid) == TraceOf(sys, rid)
    requires !sys.arrivals(rid).streaming && BackendRegistry.KeyedSnapshots(sys.arrivals(rid).loaded)
    ensures var a := sys.arrivals(rid);
            GaveUpOn(Handle(a.env, a.req, false).outcome)
            <==> (a.env.admitted && (a.req.bypassCache || a.env.hit.None?) && a.env.candidates != []
                  && forall b :: b in a.env.candidates ==> Failover.Dismissed(EffectsOf(steps, rid), b))
  {
    var a := sys.arrivals(rid);
    BackendRegistry.CandidatesDistinct(a.loaded, a.req.model);
    Failover.CompleteGivesUpExactly(a.env, a.req);
  }

  // ----- the ledger -----

  function SumTo(n: nat, g: nat -> int): int {
    if n == 0 then 0 else SumTo(n - 1, g) + g(n - 1)
  }

  lemma {:induction false} SumToAdds(n: nat, g: nat -> int, h: nat -> int, k: nat -> int)
    requires forall r: nat :: r < n ==> g(r) == h(r) + k(r)
    ensures SumTo(n, g) == SumTo(n, h) + SumTo(n, k)
  {
    if n > 0 {
      SumToAdds(n - 1, g, h, k);
    }
  }

  /** The sum of a function that is zero except perhaps at q. */
  lemma {:induction false} SumToSingle(n: nat, g: nat -> int, q: nat)
    requires forall r: nat :: r < n && r != q ==> g(r) == 0
    ensures SumTo(n, g) == if q < n then g(q) else 0
  {
    if n > 0 {
      SumToSingle(n - 1, g, q);
    }
  }

  /** The contribution of a step of one of the key's requests. */
  function ForKey(sys: System, key: nat, f: Effect -> int): Step -> int {
    (s: Step) => if s.Act? && sys.arrivals(s.rid).req.key == key then f(s.effect) else 0
  }

  /** The contribution of one request of the key. */
  function PerRequest(sys: System, steps: seq<Step>, key: nat, f: seq<Effect> -> int): nat -> int {
    (rid: nat) => if sys.arrivals(rid).req.key == key then f(EffectsOf(steps, rid)) else 0
  }

  function TotalOf(f: Effect -> int): seq<Effect> -> int {
    (trace: seq<Effect>) => Total(trace, f)
  }

  function PendingOf(): seq<Effect> -> int {
    (trace: seq<Effect>) => Pending(trace)
  }

  /** A number above all request ids of the run. */
  function Requests(steps: seq<Step>): nat {
    if steps == [] then 0
    else
      var n := Requests(Front(steps));
      if Last(steps).Act? && Last(steps).rid >= n then Last(steps).rid + 1 else n
  }

  /** What one step adds to each request's total. */
  function Added(sys: System, key: nat, s: Step, f: Effect -> int): nat -> int {
    (rid: nat) => if s.Act? && s.rid == rid then ForKey(sys, key, f)(s) else 0
  }

  /** A total over a run is the sum of the totals of its requests. */
  lemma {:induction false} TotalByRequest(sys: System, steps: seq<Step>, key: nat, f: Effect -> int, n: nat)
    requires n >= Requests(steps)
    ensures Total(steps, ForKey(sys, key, f)) == SumTo(n, PerRequest(sys, steps, key, TotalOf(f)))
  {
    var g := PerRequest(sys, steps, key, TotalOf(f));
    if steps == [] {
      forall r: nat | r < n ensures g(r) == 0 {
        assert EffectsOf(steps, r) == [];
      }
      SumToSingle(n, g, n);
    } else {
      var past, s := Front(steps), Last(steps);
      var before, added := PerRequest(sys, past, key, TotalOf(f)), Added(sys, key, s, f);
      TotalByRequest(sys, past, key, f, n);
      forall r: nat | r < n ensures g(r) == before(r) + added(r) {
        StepAdds(sys, past, s, key, f, r);
        assert steps == past + [s];
      }
      SumToAdds(n, g, before, added);
      SumToSingle(n, added, if s.Act? then s.rid else n);
    }
  }

  lemma StepAdds(sys: System, past: seq<Step>, s: Step, key: nat, f: Effect -> int, r: nat)
    ensures PerRequest(sys, past + [s], key, TotalOf(f))(r)
         == PerRequest(sys, past, key, TotalOf(f))(r) + Added(sys, key, s, f)(r)
  {
    CollectSnoc(past, s, EffectOf(r));
    var effects := EffectsOf(past, r);
    if s.Act? && s.rid == r {
      TotalSnoc(effects, s.effect, f);
    } else {
      assert EffectOf(r)(s) == [] && effects + [] == effects;
      assert EffectsOf(past + [s], r) == effects;
    }
  }

  /**
   At every point of every run, the amounts reconciled for a key are the tokens of its 200 rows plus
   the amounts of those requests that have reconciled and not yet logged.
   */
  lemma TokenAccountsBalance(sys: System, steps: seq<Step>, key: nat)
    requires Sound(sys) && Genuine(sys, steps)
    ensures Total(steps, ForKey(sys, key, AmountOf()))
         == Total(steps, ForKey(sys, key, RowTokensOf()))
            + SumTo(Requests(steps), PerRequest(sys, steps, key, PendingOf()))
  {
    var n := Requests(steps);
    TotalByRequest(sys, steps, key, AmountOf(), n);
    TotalByRequest(sys, steps, key, RowTokensOf(), n);
    var amounts := PerRequest(sys, steps, key, TotalOf(AmountOf()));
    var rows := PerRequest(sys, steps, key, TotalOf(RowTokensOf()));
    var pending := PerRequest(sys, steps, key, PendingOf());
    forall r: nat | r < n ensures amounts(r) == rows(r) + pending(r) {
      RequestBalances(sys, steps, r);
    }
    SumToAdds(n, amounts, rows, pending);
  }

  lemma RequestBalances(sys: System, steps: seq<Step>, r: nat)
    requires Sound(sys) && Genuine(sys, steps)
    ensures var effects := EffectsOf(steps, r);
            Total(effects, AmountOf()) == Total(effects, RowTokensOf()) + Pending(effects)
  {
    var a, trace, effects := sys.arrivals(r), TraceOf(sys, r), EffectsOf(steps, r);
    assert RoutesFor(sys, r);
    RequestLedger(a.env, a.req, a.streaming);
    PrefixLedger(trace, |effects|);
    assert trace[..|effects|] == effects;
  }

  /** No request is in flight. */
  ghost predicate AtRest(sys: System, steps: seq<Step>)
    requires Sound(sys)
  {
    forall rid :: EffectsOf(steps, rid) == [] || EffectsOf(steps, rid) == TraceOf(sys, rid)
  }

  /** With no request in flight, the tokens in a key's 200 rows sum to its reconciled amounts. */
  lemma AccountsBalanceAtRest(sys: System, steps: seq<Step>, key: nat)
    requires Sound(sys) && Genuine(sys, steps) && AtRest(sys, steps)
    ensures Total(steps, ForKey(sys, key, AmountOf())) == Total(steps, ForKey(sys, key, RowTokensOf()))
  {
    TokenAccountsBalance(sys, steps, key);
    var n, pending := Requests(steps), PerRequest(sys, steps, key, PendingOf());
    forall r: nat | r < n ensures pending(r) == 0 {
      var a := sys.arrivals(r);
      assert RoutesFor(sys, r);
      RequestLedger(a.env, a.req, a.streaming);
      assert PairedAt(TraceOf(sys, r), |TraceOf(sys, r)| - 1);
    }
    SumToSingle(n, pending, n);
  }

  // ----- under one clock -----

  /** All replicas read one nondecreasing clock. */
  ghost predicate OneClock(steps: seq<Step>) {
    forall i, j :: 0 <= i <= j < |steps| ==> steps[i].now <= steps[j].now
  }

  lemma {:induction false} OpsOrdered(sys: System, steps: seq<Step>, key: nat, now: int)
    requires OneClock(steps) && forall k :: 0 <= k < |steps| ==> steps[k].now <= now
    ensures var ops := LimiterOps(sys, steps, key);
            TokenWindow.Ordered(ops) && forall k :: 0 <= k < |ops| ==> ops[k].now <= now
  {
    if steps != [] {
      var past, s := Front(steps), Last(steps);
      var next := LimiterOpOf(sys, key)(s);
      OpsOrdered(sys, past, key, s.now);
      if next != [] {
        OpOfStep(sys, s, key, next[0]);
      }
    }
  }

  lemma {:induction false} EventsOrdered(steps: seq<Step>, id: BackendId, now: int)
    requires OneClock(steps) && forall k :: 0 <= k < |steps| ==> steps[k].now <= now
    ensures var events := BreakerEvents(steps, id);
            CircuitBreaker.Ordered(events) && forall k :: 0 <= k < |events| ==> events[k].now <= now
  {
    if steps != [] {
      var past, s := Front(steps), Last(steps);
      var next := BreakerEventOf(id)(s);
      EventsOrdered(past, id, s.now);
      assert |next| <= 1 && forall k :: 0 <= k < |next| ==> next[k].now == s.now;
    }
  }

  /** The breaker grants exactly when failures are below the threshold or the cooldown is over. */
  lemma GrantsAreExact(sys: System, steps: seq<Step>, i: nat)
    requires Sound(sys) && Genuine(sys, steps) && OneClock(steps)
    requires i < |steps| && steps[i].Act? && steps[i].effect.Allowed?
    ensures steps[i].effect.ok <==>
            || FailuresInARow(steps[..i], steps[i].effect.id) < CircuitBreaker.Effective(sys.threshold)
            || steps[i].now - FailedLast(steps[..i], steps[i].effect.id) >= sys.cooldown
  {
    var s := steps[i];
    var events := BreakerEvents(steps[..i], s.effect.id);
    assert Truthful(sys, steps[..i], s);
    assert OneClock(steps[..i]) && forall k :: 0 <= k < i ==> steps[..i][k].now <= steps[i].now;
    EventsOrdered(steps[..i], s.effect.id, s.now);
    CircuitBreaker.AllowUnderOneClock(events, s.now, sys.threshold, sys.cooldown);
    EventsSaySteps(steps[..i], s.effect.id, sys.cooldown);
  }

  predicate NeverExpires(steps: seq<Step>, key: nat) {
    forall k :: 0 <= k < |steps| && steps[k].KeyExpiry? ==> steps[k].key != key
  }

  /** While a key does not expire, each reserve is decided as the true sum of its window decides it. */
  lemma AdmissionsAreExact(sys: System, steps: seq<Step>, i: nat)
    requires Sound(sys) && Genuine(sys, steps) && OneClock(steps)
    requires i < |steps| && steps[i].Act? && steps[i].effect.Reserved?
    requires sys.window(sys.arrivals(steps[i].rid).req.key) > 0
    requires NeverExpires(steps[..i], sys.arrivals(steps[i].rid).req.key)
    ensures var s, key := steps[i], sys.arrivals(steps[i].rid).req.key;
            s.effect.admitted
            <==> TokenWindow.LogAdmits(TokenWindow.LogRun(LimiterOps(sys, steps[..i], key)),
                                       ReserveOp(sys, s.rid, s.effect.est, s.now))
  {
    var s, key := steps[i], sys.arrivals(steps[i].rid).req.key;
    var ops, op := LimiterOps(sys, steps[..i], key), ReserveOp(sys, s.rid, s.effect.est, s.now);
    assert Truthful(sys, steps[..i], s);
    assert OneClock(steps[..i]) && forall k :: 0 <= k < i ==> steps[..i][k].now <= steps[i].now;
    OpsOrdered(sys, steps[..i], key, s.now);
    OpsArePlain(sys, steps[..i], key);
    PlainSnoc(ops, op, sys.window(key));
    TokenWindow.TrimmingIsHarmless(ops, op, sys.window(key));
  }

  lemma OpsArePlain(sys: System, past: seq<Step>, key: nat)
    requires NeverExpires(past, key)
    ensures var ops := LimiterOps(sys, past, key);
            TokenWindow.NoExpiry(ops) && TokenWindow.FixedWindow(ops, sys.window(key))
  {
    var ops := LimiterOps(sys, past, key);
    forall k | 0 <= k < |ops| ensures !ops[k].Expire? && (ops[k].Reserve? ==> ops[k].window == sys.window(key)) {
      var j := CollectMember(past, LimiterOpOf(sys, key), ops[k]);
      OpOfStep(sys, past[j], key, ops[k]);
    }
  }

  lemma PlainSnoc(ops: seq<TokenWindow.Op>, op: TokenWindow.Op, window: int)
    requires TokenWindow.Ordered(ops) && TokenWindow.NoExpiry(ops) && TokenWindow.FixedWindow(ops, window)
    requires op.Reserve? && op.window == window && forall k :: 0 <= k < |ops| ==> ops[k].now <= op.now
    ensures var all := ops + [op];
            TokenWindow.Ordered(all) && TokenWindow.NoExpiry(all) && TokenWindow.FixedWindow(all, window)
  {
  }
}
