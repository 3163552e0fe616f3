/**
 What the outcome of a request says: which exception it raises, whose answer it returns,
 which error it reports, and in which order it took its steps.
 */
module Outcomes {
  import opened Common
  import opened Routing
  import opened TwoTierCache
  import opened Orchestrator
  import opened Failover
  import opened RequestTraces
  import opened Streaming

  // ----- which outcome -----

  /**
   A request is told of its rate limit exactly when it is denied, of missing backends exactly when it is
   admitted, uses no hit and has no candidates, and returns a cached answer exactly when it finds one.
   */
  lemma OutcomeExactly(env: Env, req: Request, streaming: bool)
    requires Routes(env)
    ensures var o, hit := Handle(env, req, streaming).outcome, !req.bypassCache && env.hit.Some?;
            && (o == Raised(RateLimitExceeded) <==> !env.admitted)
            && (o == Raised(NoBackendsAvailable) <==> env.admitted && !hit && env.candidates == [])
            && ((o.Returned? && o.result.tier.Some?) <==> env.admitted && hit)
            && (env.admitted && hit ==>
                  o == Returned(Result(env.hit.value.answer, req.model, None, Some(env.hit.value.tier), None)))
  {
    if env.admitted && (req.bypassCache || env.hit.None?) && env.candidates != [] {
      var idle, end := WalkEnding(env, req, streaming, Before(env, req), env.candidates, None);
    }
  }

  // ----- what the last backend said -----

  /** The error of a call after the history h, if it fails. */
  function CallError(env: Env, streaming: bool, h: History, b: Backend): Option<Error> {
    if streaming then env.stream(h, b).error
    else
      match env.complete(h, b)
      case Failed(e) => Some(e)
      case Completed(_) => None
  }

  /** The result is what the call of b after the history h answered. */
  ghost predicate Said(env: Env, streaming: bool, h: History, b: Backend, r: Result) {
    && r.backend == Some(b.name) && r.model == b.model && r.tier.None? && r.finish.Some?
    && if streaming
       then var events := env.stream(h, b).events;
            && Spells(r.answer.content, ChunksOf(events))
            && LastUsage(events, r.answer.tokensIn, r.answer.tokensOut, r.finish.value)
       else env.complete(h, b) == Completed(r.answer) && r.finish == Some("stop")
  }

  /** The outcome is what the call of b after the history h says: its error or its answer. */
  ghost predicate DecidedBy(env: Env, streaming: bool, h: History, b: Backend, o: Outcome) {
    var error := CallError(env, streaming, h, b);
    match o
    case Raised(x) => error.Some? && x == AllBackendsUnavailable(error)
    case Returned(result) => error.None? && Said(env, streaming, h, b, result)
  }

  /** The last call of the trace is of b, as effect number k. */
  ghost predicate LastCall(trace: seq<Effect>, k: nat, b: Backend) {
    k < |trace| && trace[k] == Called(b) && forall i :: k < i < |trace| ==> !trace[i].Called?
  }

  /**
   Of a run that continues the history h: without any call it reports the error `last`, and otherwise the
   last call decides it, by its error or by its answer.
   */
  ghost predicate LastCallDecides(env: Env, streaming: bool, h: History, r: Run, last: Option<Error>) {
    && (!AnyCall(r.trace) ==> r.outcome == Raised(AllBackendsUnavailable(last)))
    && forall k: nat, b :: LastCall(r.trace, k, b) ==> DecidedBy(env, streaming, h + r.trace[..k + 1], b, r.outcome)
  }

  lemma DecidesLater(env: Env, streaming: bool, h: History, front: seq<Effect>, r: Run, last: Option<Error>,
                     earlier: Option<Error>)
    requires LastCallDecides(env, streaming, h + front, r, last)
    requires !AnyCall(front) ==> last == earlier
    requires forall k: nat, b :: LastCall(front, k, b) ==>
               last.Some? && CallError(env, streaming, h + front[..k + 1], b) == last
    ensures LastCallDecides(env, streaming, h, After(front, r), earlier)
  {
    var all := front + r.trace;
    assert !AnyCall(all) ==> !AnyCall(front) && !AnyCall(r.trace) by {
      if e :| e in front && e.Called? {
        assert e in all;
      } else if e :| e in r.trace && e.Called? {
        assert e in all;
      }
    }
    forall k: nat, b | LastCall(all, k, b)
      ensures DecidedBy(env, streaming, h + all[..k + 1], b, r.outcome)
    {
      if k < |front| {
        CallInFront(front, r.trace, k, b);
        assert all[..k + 1] == front[..k + 1];
      } else {
        var m := k - |front|;
        CallInTail(front, r.trace, k, b);
        assert h + front + r.trace[..m + 1] == h + all[..k + 1];
      }
    }
  }

  lemma CallInFront(front: seq<Effect>, tail: seq<Effect>, k: nat, b: Backend)
    requires LastCall(front + tail, k, b) && k < |front|
    ensures LastCall(front, k, b) && !AnyCall(tail)
  {
    var all := front + tail;
    assert forall i :: 0 <= i < |front| ==> all[i] == front[i];
    forall i | 0 <= i < |tail| ensures !tail[i].Called? {
      assert all[|front| + i] == tail[i];
    }
  }

  lemma CallInTail(front: seq<Effect>, tail: seq<Effect>, k: nat, b: Backend)
    requires LastCall(front + tail, k, b) && k >= |front|
    ensures LastCall(tail, k - |front|, b)
  {
    var all := front + tail;
    forall i | 0 <= i < |tail| ensures all[|front| + i] == tail[i] {
    }
  }

  lemma NoLastCall(trace: seq<Effect>, k: nat, b: Backend)
    requires !AnyCall(trace)
    ensures !LastCall(trace, k, b)
  {
    if k < |trace| {
      assert trace[k] in trace;
    }
  }

  /** The one call of an attempt is its second effect. */
  lemma CallOfAttempt(env: Env, streaming: bool, h: History, b: Backend, after: seq<Effect>, k: nat, c: Backend)
    requires !AnyCall(after)
    ensures var trace := Try(env, streaming, h, b).effects + after;
            LastCall(trace, k, c) ==> env.allow(h, b.id) && k == 1 && c == b && trace[..k + 1] == Opening(b)
  {
    var effects := Try(env, streaming, h, b).effects;
    if env.allow(h, b.id) {
      var middle, end := TryParts(env, streaming, h, b);
      assert effects + after == Opening(b) + (middle + end + after);
      assert !AnyCall(middle + end + after);
      OpeningIsCall(b, middle + end + after, k, c);
    } else {
      assert !AnyCall(effects + after);
      NoLastCall(effects + after, k, c);
    }
  }

  lemma OpeningIsCall(b: Backend, tail: seq<Effect>, k: nat, c: Backend)
    requires !AnyCall(tail)
    ensures LastCall(Opening(b) + tail, k, c) ==> k == 1 && c == b && (Opening(b) + tail)[..k + 1] == Opening(b)
  {
    var all := Opening(b) + tail;
    assert all[0] == Opening(b)[0] && all[1] == Opening(b)[1];
    if 2 <= k < |all| {
      assert all[k] == tail[k - 2];
      NoLastCall(tail, k - 2, c);
      assert tail[k - 2] in tail;
    }
  }

  lemma StopSays(env: Env, req: Request, streaming: bool, h: History, b: Backend)
    requires !GoesOn(Try(env, streaming, h, b).verdict)
    ensures DecidedBy(env, streaming, h + Opening(b), b, Stop(req, streaming, b, Try(env, streaming, h, b)).outcome)
  {
    if streaming {
      var events := env.stream(h + Opening(b), b).events;
      ConcatSpells(ChunksOf(events));
      UsageIsLast(events);
    }
  }

  /** The trace of a stopping attempt. */
  lemma StopTrace(env: Env, req: Request, streaming: bool, h: History, b: Backend) returns (after: seq<Effect>)
    requires !GoesOn(Try(env, streaming, h, b).verdict)
    ensures !AnyCall(after) && Called(b) in Try(env, streaming, h, b).effects
    ensures Stop(req, streaming, b, Try(env, streaming, h, b)).trace == Try(env, streaming, h, b).effects + after
  {
    var t := Try(env, streaming, h, b);
    TryShape(env, streaming, h, b);
    if t.verdict.Success? {
      after := Commit(req, streaming, b, t.verdict.answer, t.verdict.finish);
      CommitKinds(req, streaming, b, t.verdict.answer, t.verdict.finish);
    } else {
      after := [];
      assert t.effects + [] == t.effects;
    }
  }

  lemma StopDecides(env: Env, req: Request, streaming: bool, h: History, b: Backend, last: Option<Error>)
    requires !GoesOn(Try(env, streaming, h, b).verdict)
    ensures LastCallDecides(env, streaming, h, Stop(req, streaming, b, Try(env, streaming, h, b)), last)
  {
    var effects, r := Try(env, streaming, h, b).effects, Stop(req, streaming, b, Try(env, streaming, h, b));
    var after := StopTrace(env, req, streaming, h, b);
    StopSays(env, req, streaming, h, b);
    assert Called(b) in effects + after;
    forall k: nat, c | LastCall(r.trace, k, c) ensures DecidedBy(env, streaming, h + r.trace[..k + 1], c, r.outcome) {
      CallOfAttempt(env, streaming, h, b, after, k, c);
    }
  }

  /** An attempt after which the walk goes on has no call, or one whose error is carried on. */
  lemma CarriesError(env: Env, streaming: bool, h: History, b: Backend, last: Option<Error>, k: nat, c: Backend)
    requires GoesOn(Try(env, streaming, h, b).verdict) && LastCall(Try(env, streaming, h, b).effects, k, c)
    ensures var carried := Carry(Try(env, streaming, h, b).verdict, last);
            carried.Some? && CallError(env, streaming, h + Try(env, streaming, h, b).effects[..k + 1], c) == carried
  {
    var effects := Try(env, streaming, h, b).effects;
    assert effects + [] == effects;
    CallOfAttempt(env, streaming, h, b, [], k, c);
  }

  lemma NothingCarried(env: Env, streaming: bool, h: History, b: Backend, last: Option<Error>)
    requires GoesOn(Try(env, streaming, h, b).verdict) && !AnyCall(Try(env, streaming, h, b).effects)
    ensures Carry(Try(env, streaming, h, b).verdict, last) == last
  {
    TryShape(env, streaming, h, b);
  }

  lemma {:induction false} WalkIsDecided(env: Env, req: Request, streaming: bool, h: History,
                                         remaining: seq<Backend>, last: Option<Error>)
    requires Routes(env)
    ensures LastCallDecides(env, streaming, h, Walk(env, req, streaming, h, remaining, last), last)
    decreases |remaining|
  {
    if remaining != [] {
      var b := Choose(env, h, remaining);
      var t := Try(env, streaming, h, b);
      var rest := Without(remaining, b.id);
      WithoutShrinks(remaining, b);
      if GoesOn(t.verdict) {
        var carried := Carry(t.verdict, last);
        WalkIsDecided(env, req, streaming, h + t.effects, rest, carried);
        forall k: nat, c | LastCall(t.effects, k, c)
          ensures carried.Some? && CallError(env, streaming, h + t.effects[..k + 1], c) == carried
        {
          CarriesError(env, streaming, h, b, last, k, c);
        }
        if !AnyCall(t.effects) {
          NothingCarried(env, streaming, h, b, last);
        }
        var w := Walk(env, req, streaming, h + t.effects, rest, carried);
        DecidesLater(env, streaming, h, t.effects, w, carried, last);
      } else {
        StopDecides(env, req, streaming, h, b, last);
      }
    }
  }

  /**
   A request that reaches its backends returns what the last called one answered, with "stop" or the last
   reported usage, or reports the error of the last call, and none if every backend was refused.
   */
  lemma LastBackendDecides(env: Env, req: Request, streaming: bool)
    requires Routes(env) && env.admitted && (req.bypassCache || env.hit.None?) && env.candidates != []
    ensures LastCallDecides(env, streaming, [], Handle(env, req, streaming), None)
  {
    var h := Before(env, req);
    WalkIsDecided(env, req, streaming, h, env.candidates, None);
    assert [] + h == h;
    BeforeIsQuiet(env, req);
    assert !AnyCall(h);
    forall k: nat, b ensures !LastCall(h, k, b) {
      NoLastCall(h, k, b);
    }
    DecidesLater(env, streaming, [], h, Walk(env, req, streaming, h, env.candidates, None), None, None);
  }

  // ----- the order of the steps -----

  /** What may directly follow what, in the pipeline of one request. */
  predicate Follows(p: Effect, e: Effect) {
    match e
    case Reserved(_, _) => false
    case Looked(tier, _) => if tier.L1? then p.Reserved? && p.admitted else p == Looked(L1, None)
    case Allowed(_, _) =>
      || (p.Reserved? && p.admitted) || p == Looked(L2, None)
      || (p.Allowed? && !p.ok) || (p.Recorded? && !p.ok)
    case Called(b) => p == Allowed(b.id, true)
    case Yielded(_) => p.Called? || p.Yielded? || IsPaidRow(p)
    case Answered(b, _) => p == Called(b) || p.Yielded?
    case Recorded(id, ok) => p.Answered? && p.backend.id == id && (p.got.Some? <==> ok)
    case Tracked(id) => p == Recorded(id, true)
    case Cached(tier, a) => if tier.L1? then p.Tracked? else p == Cached(L1, a)
    case Reconciled(_) => p.Tracked? || (p.Cached? && p.tier.L2?) || (p.Looked? && p.found.Some?)
    case Logged(row) => if row.status == 200 then p.Reconciled? else (p.Allowed? && !p.ok) || (p.Recorded? && !p.ok)
    case Finished(_) => IsPaidRow(p) || p.Yielded?
  }

  ghost predicate Linked(trace: seq<Effect>) {
    forall i :: 0 < i < |trace| ==> Follows(trace[i - 1], trace[i])
  }

  lemma LinkedAppend(a: seq<Effect>, b: seq<Effect>)
    requires Linked(a) && Linked(b) && (a != [] && b != [] ==> Follows(Last(a), b[0]))
    ensures Linked(a + b)
  {
    var all := a + b;
    forall i | 0 < i < |all| ensures Follows(all[i - 1], all[i]) {
      if i > |a| {
        assert all[i] == b[i - |a|] && all[i - 1] == b[i - |a| - 1];
      }
    }
  }

  lemma PartsLinked(b: Backend, middle: seq<Effect>, end: seq<Effect>)
    requires forall e :: e in middle ==> e.Yielded?
    requires end != [] && Linked(end) && end[0].Answered? && end[0].backend == b
    ensures Linked(Opening(b) + middle + end)
    ensures (Opening(b) + middle + end)[0] == Allowed(b.id, true) && Last(Opening(b) + middle + end) == Last(end)
  {
    assert forall i :: 0 <= i < |middle| ==> middle[i] in middle;
    LinkedAppend(Opening(b), middle);
    LinkedAppend(Opening(b) + middle, end);
  }

  lemma TryLinked(env: Env, streaming: bool, h: History, b: Backend)
    ensures var t := Try(env, streaming, h, b);
            && Linked(t.effects) && t.effects != [] && t.effects[0] == Allowed(b.id, !t.verdict.Refused?)
            && Last(t.effects) == if t.verdict.Refused? then Allowed(b.id, false)
                                  else if t.verdict.Success? then Answered(b, Some(t.verdict.answer))
                                  else Recorded(b.id, false)
  {
    if env.allow(h, b.id) {
      var middle, end := TryParts(env, streaming, h, b);
      PartsLinked(b, middle, end);
    }
  }

  lemma CommitLinked(req: Request, streaming: bool, b: Backend, a: Answer, finish: string)
    ensures var c := Commit(req, streaming, b, a, finish);
            Linked(c) && c != [] && c[0] == Recorded(b.id, true)
  {
  }

  lemma {:induction false} WalkLinked(env: Env, req: Request, streaming: bool, h: History,
                                      remaining: seq<Backend>, last: Option<Error>)
    requires Routes(env)
    ensures var w := Walk(env, req, streaming, h, remaining, last);
            && Linked(w.trace) && w.trace != []
            && (w.trace[0].Allowed? || (remaining == [] && w.trace[0] == Unavailable503))
    decreases |remaining|
  {
    if remaining != [] {
      var b := Choose(env, h, remaining);
      var t := Try(env, streaming, h, b);
      var rest := Without(remaining, b.id);
      WithoutShrinks(remaining, b);
      TryLinked(env, streaming, h, b);
      if GoesOn(t.verdict) {
        WalkLinked(env, req, streaming, h + t.effects, rest, Carry(t.verdict, last));
        LinkedAppend(t.effects, Walk(env, req, streaming, h + t.effects, rest, Carry(t.verdict, last)).trace);
      } else if t.verdict.Success? {
        CommitLinked(req, streaming, b, t.verdict.answer, t.verdict.finish);
        LinkedAppend(t.effects, Commit(req, streaming, b, t.verdict.answer, t.verdict.finish));
      }
    }
  }

  lemma BeforeLinked(env: Env, req: Request)
    ensures var first := Before(env, req);
            && Linked(first) && first[0] == Reserved(EstimateTokens(req.messages), true)
            && (if req.bypassCache then |first| == 1
                else match env.hit
                     case None => Last(first) == Looked(L2, None)
                     case Some(hit) => Last(first) == Looked(hit.tier, Some(hit.answer)))
  {
  }

  lemma HitLinked(req: Request, streaming: bool, hit: Hit)
    ensures var c := HitEffects(req, streaming, hit);
            Linked(c) && c != [] && c[0].Reconciled?
  {
  }

  /**
   Every step of every request directly follows one that it may follow; the request begins with its reserve,
   looks into L1 exactly when it is admitted and not bypassed, and into L2 exactly after a miss there.
   */
  lemma StepsFollowPipeline(env: Env, req: Request, streaming: bool)
    requires Routes(env)
    ensures var r := Handle(env, req, streaming);
            && Linked(r.trace) && r.trace != [] && r.trace[0].Reserved?
            && ((exists found :: Looked(L1, found) in r.trace) <==> env.admitted && !req.bypassCache)
            && ((exists found :: Looked(L2, found) in r.trace) <==> Looked(L1, None) in r.trace)
  {
    var first, idle, end := RequestAnatomy(env, req, streaming);
    EndingCaches(req, streaming, end);
    LooksAreFirst(first, idle, EndingEffects(req, streaming, end));
    if env.admitted {
      var h := Before(env, req);
      BeforeLinked(env, req);
      if !req.bypassCache && env.hit.Some? {
        HitLinked(req, streaming, env.hit.value);
        LinkedAppend(h, HitEffects(req, streaming, env.hit.value));
      } else if env.candidates != [] {
        WalkLinked(env, req, streaming, h, env.candidates, None);
        LinkedAppend(h, Walk(env, req, streaming, h, env.candidates, None).trace);
      }
    }
  }

  lemma LooksAreFirst(first: seq<Effect>, idle: seq<Effect>, c: seq<Effect>)
    requires ReserveThenLooks(first) && AllIdle(idle) && forall e :: e in c ==> !e.Looked?
    ensures var trace := first + idle + c;
            && ((exists found :: Looked(L1, found) in trace) <==> |first| > 1)
            && ((exists found :: Looked(L2, found) in trace) <==> Looked(L1, None) in trace)
  {
    var trace := first + idle + c;
    forall e | e in trace && e.Looked? ensures e in first {
    }
    if |first| > 1 {
      assert trace[1] == first[1] == Looked(L1, first[1].found);
    }
    if |first| > 2 {
      assert trace[2] == first[2] == Looked(L2, first[2].found);
    }
  }
}
