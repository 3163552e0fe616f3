/**
 Streaming guarantees: the text a caller receives comes from one source, the terminal
 result comes last and matches it, and a faithful stream does what a completion does.
 */
module Streaming {
  import opened Common
  import opened Routing
  import opened TwoTierCache
  import opened Orchestrator
  import opened Failover

  function TextOf(): Effect -> seq<string> {
    (e: Effect) => if e.Yielded? then [e.chunk] else []
  }

  /** The text chunks that a trace hands to the caller. */
  function Delivered(trace: seq<Effect>): seq<string> {
    Collect(trace, TextOf())
  }

  lemma DeliveredAppend(a: seq<Effect>, b: seq<Effect>)
    ensures Delivered(a + b) == Delivered(a) + Delivered(b)
  {
    CollectAppend(a, b, TextOf());
  }

  lemma DeliveredNone(a: seq<Effect>)
    requires !AnyYield(a)
    ensures Delivered(a) == []
  {
    CollectNone(a, TextOf());
  }

  lemma {:induction false} DeliveredYields(chunks: seq<string>)
    ensures Delivered(Yields(chunks)) == chunks
  {
    if chunks != [] {
      var front, last := Front(chunks), Last(chunks);
      DeliveredYields(front);
      CollectSnoc(Yields(front), Yielded(last), TextOf());
    }
  }

  // ----- one source -----

  ghost predicate AnyCall(trace: seq<Effect>) {
    exists e :: e in trace && e.Called?
  }

  /**
   Nothing is delivered in `quiet`, no backend is called in `tail`, and what is delivered are the
   chunks of the stream opened by the call that ends `quiet`.
   */
  ghost predicate OneSource(env: Env, h: History, quiet: seq<Effect>, tail: seq<Effect>) {
    && !AnyYield(quiet) && !AnyCall(tail)
    && (Delivered(tail) != [] ==>
          && quiet != [] && Last(quiet).Called?
          && Delivered(tail) == ChunksOf(env.stream(h + quiet, Last(quiet).backend).events))
  }

  /** The trace, continuing the history h, delivers from one call at most. */
  ghost predicate FromOneCall(env: Env, h: History, trace: seq<Effect>) {
    exists quiet, tail :: OneSource(env, h, quiet, tail) && trace == quiet + tail
  }

  lemma FromOneCallLater(env: Env, h: History, front: seq<Effect>, trace: seq<Effect>)
    requires !AnyYield(front) && FromOneCall(env, h + front, trace)
    ensures FromOneCall(env, h, front + trace)
  {
    var quiet, tail :| OneSource(env, h + front, quiet, tail) && trace == quiet + tail;
    Assoc(front, quiet, tail);
    Assoc(h, front, quiet);
    assert OneSource(env, h, front + quiet, tail);
  }

  lemma NothingDelivered(env: Env, h: History, trace: seq<Effect>)
    requires !AnyYield(trace)
    ensures FromOneCall(env, h, trace)
  {
    assert OneSource(env, h, trace, []);
    assert trace == trace + [];
  }

  /** The end of a streamed call. */
  function StreamEnd(b: Backend, run: StreamRun): seq<Effect> {
    if run.error.None? then [Answered(b, Some(StreamAnswer(run.events)))] else Closing(b)
  }

  lemma TailDelivers(chunks: seq<string>, end: seq<Effect>)
    requires !AnyYield(end) && !AnyCall(end)
    ensures !AnyCall(Yields(chunks) + end) && Delivered(Yields(chunks) + end) == chunks
  {
    YieldsAreYields(chunks);
    DeliveredAppend(Yields(chunks), end);
    DeliveredYields(chunks);
    DeliveredNone(end);
  }

  lemma CallIsSource(env: Env, h: History, b: Backend, end: seq<Effect>, chunks: seq<string>)
    requires chunks == ChunksOf(env.stream(h + Opening(b), b).events)
    requires !AnyYield(end) && !AnyCall(end)
    ensures var trace := Opening(b) + (Yields(chunks) + end);
            FromOneCall(env, h, trace) && Delivered(trace) == chunks
  {
    TailDelivers(chunks, end);
    DeliveredAppend(Opening(b), Yields(chunks) + end);
    DeliveredNone(Opening(b));
    assert OneSource(env, h, Opening(b), Yields(chunks) + end);
  }

  lemma AttemptIsSource(env: Env, h: History, b: Backend, after: seq<Effect>)
    requires env.allow(h, b.id) && !AnyYield(after) && !AnyCall(after)
    ensures FromOneCall(env, h, Try(env, true, h, b).effects + after)
    ensures Delivered(Try(env, true, h, b).effects + after) == ChunksOf(env.stream(h + Opening(b), b).events)
  {
    var run := env.stream(h + Opening(b), b);
    var y, end := Yields(ChunksOf(run.events)), StreamEnd(b, run);
    assert Try(env, true, h, b).effects == Opening(b) + y + end;
    CallIsSource(env, h, b, end + after, ChunksOf(run.events));
    Assoc(Opening(b) + y, end, after);
    Assoc(Opening(b), y, end + after);
  }

  lemma StopHasOneSource(env: Env, req: Request, h: History, b: Backend)
    requires !GoesOn(Try(env, true, h, b).verdict)
    ensures FromOneCall(env, h, Stop(req, true, b, Try(env, true, h, b)).trace)
  {
    var t := Try(env, true, h, b);
    var after := if t.verdict.Success? then Commit(req, true, b, t.verdict.answer, t.verdict.finish) else [];
    if t.verdict.Success? {
      CommitKinds(req, true, b, t.verdict.answer, t.verdict.finish);
    }
    AttemptIsSource(env, h, b, after);
    assert t.effects + [] == t.effects;
  }

  lemma {:induction false} WalkHasOneSource(env: Env, req: Request, h: History,
                                            remaining: seq<Backend>, last: Option<Error>)
    requires Routes(env)
    ensures FromOneCall(env, h, Walk(env, req, true, h, remaining, last).trace)
    decreases |remaining|
  {
    if remaining == [] {
      NothingDelivered(env, h, [Unavailable503]);
    } else {
      var b := Choose(env, h, remaining);
      var t := Try(env, true, h, b);
      WithoutShrinks(remaining, b);
      if GoesOn(t.verdict) {
        var w := Walk(env, req, true, h + t.effects, Without(remaining, b.id), Carry(t.verdict, last));
        WalkHasOneSource(env, req, h + t.effects, Without(remaining, b.id), Carry(t.verdict, last));
        TryShape(env, true, h, b);
        FromOneCallLater(env, h, t.effects, w.trace);
      } else {
        StopHasOneSource(env, req, h, b);
      }
    }
  }

  // ----- the terminal result -----

  /** On a normal end the result comes last, once, and its content is what was delivered and cached. */
  ghost predicate TerminatesRightly(r: Run) {
    match r.outcome
    case Raised(_) => forall e :: e in r.trace ==> !e.Finished? && !e.Cached?
    case Returned(result) =>
      && r.trace != [] && Last(r.trace) == Finished(result)
      && (forall e :: e in Front(r.trace) ==> !e.Finished?)
      && Concat(Delivered(r.trace)) == result.answer.content
      && (forall e :: e in r.trace && e.Cached? ==> e.answer == result.answer)
  }

  lemma TerminatesLater(front: seq<Effect>, r: Run)
    requires !AnyYield(front) && forall e :: e in front ==> !e.Finished? && !e.Cached?
    requires TerminatesRightly(r)
    ensures TerminatesRightly(After(front, r))
  {
    DeliveredAppend(front, r.trace);
    DeliveredNone(front);
    assert [] + Delivered(r.trace) == Delivered(r.trace);
    if r.outcome.Returned? {
      assert Front(front + r.trace) == front + Front(r.trace);
    }
  }

  lemma ResultComesLast(front: seq<Effect>, c: seq<Effect>, result: Result)
    requires forall e :: e in front ==> !e.Finished? && !e.Cached?
    requires c != [] && Last(c) == Finished(result) && forall e :: e in Front(c) ==> !e.Finished?
    requires forall e :: e in c && e.Cached? ==> e.answer == result.answer
    requires Concat(Delivered(front + c)) == result.answer.content
    ensures TerminatesRightly(Run(front + c, Returned(result)))
  {
    assert Front(front + c) == front + Front(c) && Last(front + c) == Last(c);
  }

  lemma SuccessDelivers(env: Env, h: History, b: Backend, after: seq<Effect>)
    requires Try(env, true, h, b).verdict.Success? && !AnyYield(after) && !AnyCall(after)
    ensures Concat(Delivered(Try(env, true, h, b).effects + after)) == Try(env, true, h, b).verdict.answer.content
  {
    AttemptIsSource(env, h, b, after);
  }

  lemma AttemptEndsNothing(env: Env, h: History, b: Backend)
    ensures forall e :: e in Try(env, true, h, b).effects ==> !e.Finished? && !e.Cached?
  {
    TryShape(env, true, h, b);
  }

  lemma SuccessTerminates(env: Env, req: Request, h: History, b: Backend)
    requires Try(env, true, h, b).verdict.Success?
    ensures TerminatesRightly(Stop(req, true, b, Try(env, true, h, b)))
  {
    var t := Try(env, true, h, b);
    var a, finish := t.verdict.answer, t.verdict.finish;
    CommitKinds(req, true, b, a, finish);
    CommitEnds(req, b, a, finish);
    SuccessDelivers(env, h, b, Commit(req, true, b, a, finish));
    AttemptEndsNothing(env, h, b);
    ResultComesLast(t.effects, Commit(req, true, b, a, finish), BackendResult(b, a, finish));
  }

  lemma CommitEnds(req: Request, b: Backend, a: Answer, finish: string)
    ensures var c := Commit(req, true, b, a, finish);
            && Last(c) == Finished(BackendResult(b, a, finish))
            && (forall e :: e in Front(c) ==> !e.Finished?)
            && (forall e :: e in c && e.Cached? ==> e.answer == a)
  {
    var c := Commit(req, true, b, a, finish);
    var body := Commit(req, false, b, a, finish);
    assert c == body + [Finished(BackendResult(b, a, finish))];
    assert Front(c) == body;
  }

  lemma {:induction false} WalkTerminatesRightly(env: Env, req: Request, h: History,
                                                 remaining: seq<Backend>, last: Option<Error>)
    requires Routes(env)
    ensures TerminatesRightly(Walk(env, req, true, h, remaining, last))
    decreases |remaining|
  {
    if remaining != [] {
      var b := Choose(env, h, remaining);
      var t := Try(env, true, h, b);
      WithoutShrinks(remaining, b);
      TryShape(env, true, h, b);
      if GoesOn(t.verdict) {
        WalkTerminatesRightly(env, req, h + t.effects, Without(remaining, b.id), Carry(t.verdict, last));
        var w := Walk(env, req, true, h + t.effects, Without(remaining, b.id), Carry(t.verdict, last));
        TerminatesLater(t.effects, w);
      } else if t.verdict.Success? {
        SuccessTerminates(env, req, h, b);
      }
    }
  }

  /**
   In every run of `handle_stream` the delivered text is the cached answer of the one hit, without
   any backend call, or the chunks of the last backend call, before which nothing was delivered;
   a normal end yields its result last and once, with the delivered chunks, in their order, as its content,
   which is also what is cached; an exception is preceded by no result and no cache write.
   */
  lemma StreamNeverSplices(env: Env, req: Request)
    requires Routes(env)
    ensures var r := Handle(env, req, true);
            && TerminatesRightly(r)
            && (r.outcome.Returned? ==> Spells(r.outcome.result.answer.content, Delivered(r.trace)))
            && (FromOneCall(env, [], r.trace)
                || (env.hit.Some? && !req.bypassCache && Delivered(r.trace) == [env.hit.value.answer.content]
                    && !AnyCall(r.trace)))
  {
    ConcatSpells(Delivered(Handle(env, req, true).trace));
    if !env.admitted || ((req.bypassCache || env.hit.None?) && env.candidates == []) {
      TurnedAway(env, req);
    } else if !req.bypassCache && env.hit.Some? {
      HitTerminates(env, req);
    } else {
      WalkAfter(env, req, Before(env, req), env.candidates);
    }
  }

  lemma TurnedAway(env: Env, req: Request)
    requires Routes(env) && (!env.admitted || ((req.bypassCache || env.hit.None?) && env.candidates == []))
    ensures var r := Handle(env, req, true);
            TerminatesRightly(r) && FromOneCall(env, [], r.trace)
  {
    if env.admitted {
      BeforeIsQuiet(env, req);
      QuietlyRaised(env, Before(env, req), NoBackendsAvailable);
    } else {
      QuietlyRaised(env, [Reserved(EstimateTokens(req.messages), false)], RateLimitExceeded);
    }
  }

  lemma QuietlyRaised(env: Env, trace: seq<Effect>, x: Exception)
    requires QuietStart(trace)
    ensures TerminatesRightly(Run(trace, Raised(x))) && FromOneCall(env, [], trace)
  {
    NothingDelivered(env, [], trace);
  }

  lemma WalkAfter(env: Env, req: Request, h: History, candidates: seq<Backend>)
    requires Routes(env) && forall e :: e in h ==> !e.Yielded? && !e.Finished? && !e.Cached?
    ensures var r := After(h, Walk(env, req, true, h, candidates, None));
            TerminatesRightly(r) && FromOneCall(env, [], r.trace)
  {
    var w := Walk(env, req, true, h, candidates, None);
    WalkHasOneSource(env, req, h, candidates, None);
    assert [] + h == h;
    FromOneCallLater(env, [], h, w.trace);
    WalkTerminatesRightly(env, req, h, candidates, None);
    TerminatesLater(h, w);
  }

  lemma DeliverOne(front: seq<Effect>, chunk: string, end: Effect)
    requires !AnyYield(front) && !end.Yielded?
    ensures Delivered(front + [Yielded(chunk)] + [end]) == [chunk] && Concat([chunk]) == chunk
  {
    var y, z := [Yielded(chunk)], [end];
    DeliveredAppend(front + y, z);
    DeliveredAppend(front, y);
    DeliveredNone(front);
    DeliveredNone(z);
    assert Front(y) == [] && Front([chunk]) == [];
  }

  lemma HitTerminates(env: Env, req: Request)
    requires Routes(env) && env.admitted && !req.bypassCache && env.hit.Some?
    ensures var r := Handle(env, req, true);
            && TerminatesRightly(r) && Delivered(r.trace) == [env.hit.value.answer.content]
            && !AnyCall(r.trace)
  {
    BeforeIsQuiet(env, req);
    HitEnds(Before(env, req), req, env.hit.value);
  }

  lemma BeforeIsQuiet(env: Env, req: Request)
    ensures QuietStart(Before(env, req))
  {
  }

  ghost predicate QuietStart(first: seq<Effect>) {
    forall e :: e in first ==> !e.Yielded? && !e.Called? && !e.Finished? && !e.Cached?
  }

  lemma HitEnds(first: seq<Effect>, req: Request, hit: Hit)
    requires QuietStart(first)
    ensures var r := Run(first + HitEffects(req, true, hit), Returned(HitResult(req, hit)));
            TerminatesRightly(r) && Delivered(r.trace) == [hit.answer.content] && !AnyCall(r.trace)
  {
    var x := first + HitEffects(req, false, hit);
    var content, result := hit.answer.content, HitResult(req, hit);
    HitParts(first, req, hit);
    DeliverOne(x, content, Finished(result));
    Assoc(x, [Yielded(content)], [Finished(result)]);
    ResultComesLast(x, [Yielded(content)] + [Finished(result)], result);
  }

  lemma HitParts(first: seq<Effect>, req: Request, hit: Hit)
    requires QuietStart(first)
    ensures QuietStart(first + HitEffects(req, false, hit))
    ensures first + HitEffects(req, true, hit)
         == first + HitEffects(req, false, hit) + [Yielded(hit.answer.content)] + [Finished(HitResult(req, hit))]
  {
  }

  // ----- stream and completion agree -----

  /** A stream that fails before any chunk when the completion fails, and else carries the same answer. */
  ghost predicate Faithful(env: Env) {
    forall h, b ::
      var run := env.stream(h, b);
      match env.complete(h, b)
      case Failed(_) => run.error.Some? && ChunksOf(run.events) == []
      case Completed(a) => run.error.None? && StreamAnswer(run.events) == a
  }

  function Blank(e: Effect): Effect {
    if e.Logged? then Logged(e.row.(finish := None)) else e
  }

  function SharedPart(): Effect -> seq<Effect> {
    (e: Effect) => if e.Yielded? || e.Finished? then [] else [Blank(e)]
  }

  /** What a run does to breaker, limiter, cache, tracker and log; finish reasons are left out. */
  function Shared(trace: seq<Effect>): seq<Effect> {
    Collect(trace, SharedPart())
  }

  lemma SharedYields(chunks: seq<string>)
    ensures Shared(Yields(chunks)) == []
  {
    YieldsAreYields(chunks);
    CollectNone(Yields(chunks), SharedPart());
  }

  predicate SameOutcome(a: Outcome, b: Outcome) {
    match (a, b)
    case (Returned(r), Returned(s)) =>
      r.answer == s.answer && r.model == s.model && r.tier == s.tier && r.backend == s.backend
    case (Raised(x), Raised(y)) => x == y || (x.AllBackendsUnavailable? && y.AllBackendsUnavailable?)
    case _ => false
  }

  predicate Agree(s: Run, c: Run) {
    Shared(s.trace) == Shared(c.trace) && SameOutcome(s.outcome, c.outcome)
  }

  lemma AgreeLater(front: seq<Effect>, s: Run, c: Run)
    requires Agree(s, c)
    ensures Agree(After(front, s), After(front, c))
  {
    CollectAppend(front, s.trace, SharedPart());
    CollectAppend(front, c.trace, SharedPart());
  }

  lemma FailuresAgree(env: Env, h: History, b: Backend)
    requires Faithful(env)
    ensures var s, c := Try(env, true, h, b), Try(env, false, h, b);
            && (GoesOn(s.verdict) <==> GoesOn(c.verdict))
            && (GoesOn(s.verdict) ==> s.effects == c.effects)
            && (!GoesOn(s.verdict) ==> s.verdict.Success? && c.verdict.Success? && s.verdict.answer == c.verdict.answer)
  {
    var run := env.stream(h + Opening(b), b);
    if env.complete(h + Opening(b), b).Failed? {
      assert Opening(b) + [] + Closing(b) == Opening(b) + Closing(b);
    }
  }

  lemma SuccessAgrees(env: Env, req: Request, h: History, b: Backend)
    requires Faithful(env) && !GoesOn(Try(env, true, h, b).verdict) && !GoesOn(Try(env, false, h, b).verdict)
    ensures Agree(Stop(req, true, b, Try(env, true, h, b)), Stop(req, false, b, Try(env, false, h, b)))
  {
    FailuresAgree(env, h, b);
    var s, c := Try(env, true, h, b), Try(env, false, h, b);
    var a := s.verdict.answer;
    var chunks := ChunksOf(env.stream(h + Opening(b), b).events);
    var end := [Answered(b, Some(a))];
    CollectAppend(Opening(b) + Yields(chunks), end, SharedPart());
    CollectAppend(Opening(b), Yields(chunks), SharedPart());
    CollectAppend(Opening(b), end, SharedPart());
    SharedYields(chunks);
    assert Shared(s.effects) == Shared(c.effects) by {
      assert Shared(Opening(b)) + [] == Shared(Opening(b));
    }
    var cs, cc := Commit(req, true, b, a, s.verdict.finish), Commit(req, false, b, a, c.verdict.finish);
    CollectAppend(s.effects, cs, SharedPart());
    CollectAppend(c.effects, cc, SharedPart());
    CommitsAgree(req, b, a, s.verdict.finish, c.verdict.finish);
  }

  lemma CommitsAgree(req: Request, b: Backend, a: Answer, f: string, g: string)
    ensures Shared(Commit(req, true, b, a, f)) == Shared(Commit(req, false, b, a, g))
  {
    var x := Commit(req, false, b, a, f);
    var last := [Finished(BackendResult(b, a, f))];
    assert Commit(req, true, b, a, f) == x + last;
    CollectAppend(x, last, SharedPart());
    assert Front(last) == [];
    assert Shared(last) == [];
    var y := Commit(req, false, b, a, g);
    assert |x| == |y| && Front(x) == Front(y) && Blank(Last(x)) == Blank(Last(y));
  }

  lemma {:induction false} WalksAgree(env: Env, req: Request, h: History, remaining: seq<Backend>,
                                      last: Option<Error>, last': Option<Error>)
    requires Routes(env) && Faithful(env)
    ensures Agree(Walk(env, req, true, h, remaining, last), Walk(env, req, false, h, remaining, last'))
    decreases |remaining|
  {
    if remaining != [] {
      var b := Choose(env, h, remaining);
      var s, c := Try(env, true, h, b), Try(env, false, h, b);
      var rest := Without(remaining, b.id);
      WithoutShrinks(remaining, b);
      FailuresAgree(env, h, b);
      if GoesOn(s.verdict) {
        var l, l' := Carry(s.verdict, last), Carry(c.verdict, last');
        WalksAgree(env, req, h + s.effects, rest, l, l');
        var ws, wc := Walk(env, req, true, h + s.effects, rest, l), Walk(env, req, false, h + s.effects, rest, l');
        AgreeLater(s.effects, ws, wc);
      } else {
        SuccessAgrees(env, req, h, b);
      }
    }
  }

  /**
   From the same state, and with faithful streams, `handle_stream` and `handle_complete` examine the
   same backends in the same order, leave the same breaker, limiter, cache and log effects, and
   end alike: same content, tokens, model, tier and backend, or the same kind of exception.
   */
  lemma StreamAgreesWithComplete(env: Env, req: Request)
    requires Routes(env) && Faithful(env)
    ensures Agree(Handle(env, req, true), Handle(env, req, false))
  {
    if env.admitted && !req.bypassCache && env.hit.Some? {
      var hit := env.hit.value;
      var x := HitEffects(req, false, hit);
      var y := [Yielded(hit.answer.content)];
      var z := [Finished(HitResult(req, hit))];
      assert HitEffects(req, true, hit) == x + y + z;
      CollectAppend(x + y, z, SharedPart());
      CollectAppend(x, y, SharedPart());
      assert Front(y) == [] && Front(z) == [];
      assert Shared(y) == [] && Shared(z) == [];
      assert Shared(x) + [] == Shared(x);
      CollectAppend(Before(env, req), x + y + z, SharedPart());
      CollectAppend(Before(env, req), x, SharedPart());
    } else if env.admitted && env.candidates != [] {
      var h := Before(env, req);
      WalksAgree(env, req, h, env.candidates, None, None);
      AgreeLater(h, Walk(env, req, true, h, env.candidates, None), Walk(env, req, false, h, env.candidates, None));
    }
  }
}
