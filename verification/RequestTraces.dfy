/**
 What one request does to the shared parts, in every run and at every prefix of it: one
 reserve, at most one reconcile with its matching log row, cache writes only of what a
 backend answered, and calls only behind a grant of the breaker.
 */
module RequestTraces {
  import opened Common
  import opened Routing
  import opened TwoTierCache
  import opened Orchestrator
  import opened Failover

  // ----- the anatomy of a walk -----

  /** An effect of an attempt after which the walk goes on. */
  predicate Fruitless(e: Effect) {
    e.Allowed? || e.Called? || (e.Answered? && e.got.None?) || (e.Recorded? && !e.ok)
  }

  ghost predicate AllFruitless(trace: seq<Effect>) {
    forall e :: e in trace ==> Fruitless(e)
  }

  predicate GaveUpOn(o: Outcome) {
    o.Raised? && o.exception.AllBackendsUnavailable?
  }

  /** The walk w is `front` followed by its last attempt, at b, or by giving up. */
  ghost predicate Anatomy(env: Env, req: Request, streaming: bool, h: History, remaining: seq<Backend>,
                          w: Run, front: seq<Effect>, b: Option<Backend>) {
    && AllFruitless(front)
    && match b
       case None => w.trace == front + [Unavailable503] && GaveUpOn(w.outcome)
       case Some(b) =>
         var t := Try(env, streaming, h + front, b);
         b in remaining && !GoesOn(t.verdict) && w == After(front, Stop(req, streaming, b, t))
  }

  lemma AnatomyLater(env: Env, req: Request, streaming: bool, h: History, remaining: seq<Backend>, rest: seq<Backend>,
                     first: seq<Effect>, w: Run, front: seq<Effect>, b: Option<Backend>)
    requires AllFruitless(first) && forall x :: x in rest ==> x in remaining
    requires Anatomy(env, req, streaming, h + first, rest, w, front, b)
    ensures Anatomy(env, req, streaming, h, remaining, After(first, w), first + front, b)
  {
    Assoc(h, first, front);
    if b.None? {
      Assoc(first, front, [Unavailable503]);
    } else {
      AfterAfter(first, front, Stop(req, streaming, b.value, Try(env, streaming, h + first + front, b.value)));
    }
  }

  lemma {:induction false} WalkAnatomy(env: Env, req: Request, streaming: bool, h: History,
                                       remaining: seq<Backend>, last: Option<Error>)
    returns (front: seq<Effect>, b: Option<Backend>)
    requires Routes(env)
    ensures Anatomy(env, req, streaming, h, remaining, Walk(env, req, streaming, h, remaining, last), front, b)
    decreases |remaining|
  {
    if remaining == [] {
      front, b := [], None;
    } else {
      var c := Choose(env, h, remaining);
      var t := Try(env, streaming, h, c);
      var rest := Without(remaining, c.id);
      WithoutShrinks(remaining, c);
      if GoesOn(t.verdict) {
        var w := Walk(env, req, streaming, h + t.effects, rest, Carry(t.verdict, last));
        front, b := WalkAnatomy(env, req, streaming, h + t.effects, rest, Carry(t.verdict, last));
        TryIsFruitless(env, streaming, h, c);
        AnatomyLater(env, req, streaming, h, remaining, rest, t.effects, w, front, b);
        front := t.effects + front;
      } else {
        front, b := [], Some(c);
        assert h + [] == h;
        assert [] + Stop(req, streaming, c, t).trace == Stop(req, streaming, c, t).trace;
      }
    }
  }

  lemma TryIsFruitless(env: Env, streaming: bool, h: History, b: Backend)
    requires GoesOn(Try(env, streaming, h, b).verdict)
    ensures AllFruitless(Try(env, streaming, h, b).effects)
  {
    TryShape(env, streaming, h, b);
  }

  // ----- the anatomy of a request -----

  /** An effect of the attempts, before anything is settled. */
  predicate Idle(e: Effect) {
    && !e.Reserved? && !e.Looked? && !e.Cached? && !e.Reconciled? && !e.Logged?
    && !e.Tracked? && !e.Finished? && (e.Recorded? ==> !e.ok)
  }

  ghost predicate AllIdle(trace: seq<Effect>) {
    forall e :: e in trace ==> Idle(e)
  }

  /** What a request does to ledger and cache after its idle part. */
  datatype Ending =
    | GaveUp(logged: bool)
    | Served(hit: Hit)
    | Answers(backend: Backend, answer: Answer, finish: string)

  function EndingEffects(req: Request, streaming: bool, end: Ending): seq<Effect> {
    match end
    case GaveUp(logged) => if logged then [Unavailable503] else []
    case Served(hit) => HitEffects(req, streaming, hit)
    case Answers(b, a, finish) => Commit(req, streaming, b, a, finish)
  }

  /** A reserve, then perhaps a look into L1 and, exactly after a miss there, one into L2. */
  predicate ReserveThenLooks(first: seq<Effect>) {
    && 1 <= |first| <= 3 && first[0].Reserved?
    && (|first| >= 2 ==> first[1].Looked? && first[1].tier == L1 && (first[1].found.None? <==> |first| == 3))
    && (|first| == 3 ==> first[2].Looked? && first[2].tier == L2)
  }

  ghost predicate HasAnatomy(env: Env, req: Request, streaming: bool,
                             first: seq<Effect>, idle: seq<Effect>, end: Ending)
    requires Routes(env)
  {
    var r := Handle(env, req, streaming);
    && r.trace == first + idle + EndingEffects(req, streaming, end)
    && ReserveThenLooks(first) && first[0] == Reserved(EstimateTokens(req.messages), env.admitted)
    && (|first| > 1 <==> env.admitted && !req.bypassCache)
    && AllIdle(idle)
    && (end.GaveUp? <==> r.outcome.Raised?)
    && match end
       case GaveUp(logged) => logged <==> GaveUpOn(r.outcome) && !AnyYield(r.trace)
       case Served(hit) =>
         && Looked(hit.tier, Some(hit.answer)) in first && !req.bypassCache
         && r.outcome == Returned(HitResult(req, hit))
       case Answers(b, a, finish) =>
         b in env.candidates && Answered(b, Some(a)) in idle && r.outcome == Returned(BackendResult(b, a, finish))
  }

  /** Every request reserves, perhaps looks into the cache, tries backends, and ends in one of three ways. */
  lemma RequestAnatomy(env: Env, req: Request, streaming: bool)
    returns (first: seq<Effect>, idle: seq<Effect>, end: Ending)
    requires Routes(env)
    ensures HasAnatomy(env, req, streaming, first, idle, end)
  {
    first := if env.admitted then Before(env, req) else [Reserved(EstimateTokens(req.messages), false)];
    idle, end := [], GaveUp(false);
    if !env.admitted {
    } else if !req.bypassCache && env.hit.Some? {
      end := Served(env.hit.value);
      assert Last(first) == Looked(env.hit.value.tier, Some(env.hit.value.answer));
    } else if env.candidates == [] {
    } else {
      idle, end := WalkEnding(env, req, streaming, first, env.candidates, None);
      Assoc(first, idle, EndingEffects(req, streaming, end));
      YieldsLater(first, Walk(env, req, streaming, first, env.candidates, None).trace);
    }
  }

  lemma YieldsLater(first: seq<Effect>, trace: seq<Effect>)
    requires forall e :: e in first ==> !e.Yielded?
    ensures AnyYield(first + trace) <==> AnyYield(trace)
  {
    if AnyYield(trace) {
      var e :| e in trace && e.Yielded?;
      assert e in first + trace;
    }
  }

  lemma WalkEnding(env: Env, req: Request, streaming: bool, h: History, remaining: seq<Backend>, last: Option<Error>)
    returns (idle: seq<Effect>, end: Ending)
    requires Routes(env)
    ensures EndsWalk(req, streaming, Walk(env, req, streaming, h, remaining, last), remaining, idle, end)
  {
    var front, b := WalkAnatomy(env, req, streaming, h, remaining, last);
    if b.None? {
      idle, end := front, GaveUp(true);
    } else {
      var t := Try(env, streaming, h + front, b.value);
      TryIsIdle(env, streaming, h + front, b.value);
      idle, end := StopEnding(req, streaming, b.value, t, remaining, front);
    }
  }

  lemma TryIsIdle(env: Env, streaming: bool, h: History, b: Backend)
    ensures var t := Try(env, streaming, h, b);
            && AllIdle(t.effects) && (t.verdict.Broken? ==> AnyYield(t.effects))
            && (t.verdict.Success? ==> Answered(b, Some(t.verdict.answer)) in t.effects)
  {
    TryShape(env, streaming, h, b);
  }

  /** A walk without effects on ledger and cache up to its ending. */
  ghost predicate EndsWalk(req: Request, streaming: bool, w: Run, remaining: seq<Backend>,
                           idle: seq<Effect>, end: Ending) {
    && AllIdle(idle) && !end.Served?
    && w.trace == idle + EndingEffects(req, streaming, end)
    && (end.GaveUp? ==> GaveUpOn(w.outcome) && (end.logged <==> !AnyYield(w.trace)))
    && (end.Answers? ==>
          && end.backend in remaining && Answered(end.backend, Some(end.answer)) in idle
          && w.outcome == Returned(BackendResult(end.backend, end.answer, end.finish)))
  }

  lemma StopEnding(req: Request, streaming: bool, b: Backend, t: Attempt, remaining: seq<Backend>, front: seq<Effect>)
    returns (idle: seq<Effect>, end: Ending)
    requires !GoesOn(t.verdict) && b in remaining && AllFruitless(front) && AllIdle(t.effects)
    requires t.verdict.Broken? ==> AnyYield(t.effects)
    requires t.verdict.Success? ==> Answered(b, Some(t.verdict.answer)) in t.effects
    ensures EndsWalk(req, streaming, After(front, Stop(req, streaming, b, t)), remaining, idle, end)
  {
    idle := front + t.effects;
    match t.verdict
    case Broken(_) =>
      end := GaveUp(false);
      assert idle + [] == idle;
      YieldsLater(front, t.effects);
    case Success(a, finish) =>
      end := Answers(b, a, finish);
      Assoc(front, t.effects, Commit(req, streaming, b, a, finish));
  }

  /**
   A 503 row is written exactly by the requests that give up on all backends before any text was
   delivered: none for a stream that broke after its first chunk.
   */
  lemma GivingUpIsLogged(env: Env, req: Request, streaming: bool)
    requires Routes(env)
    ensures var r := Handle(env, req, streaming);
            var row := LogRow(503, 0, 0, None, None, 0.0, None);
            && (Logged(row) in r.trace <==> GaveUpOn(r.outcome) && !AnyYield(r.trace))
            && (forall e :: e in r.trace && e.Logged? && !IsPaidRow(e) ==> e.row == row)
  {
    var first, idle, end := RequestAnatomy(env, req, streaming);
    PartsAreUnsettled(first, idle);
    RowOfEnding(req, streaming, end);
  }

  lemma RowOfEnding(req: Request, streaming: bool, end: Ending)
    ensures var c, row := EndingEffects(req, streaming, end), LogRow(503, 0, 0, None, None, 0.0, None);
            && (Logged(row) in c <==> end == GaveUp(true))
            && (forall e :: e in c && e.Logged? && !IsPaidRow(e) ==> e.row == row)
  {
  }

  /** The same of the walk alone. */
  lemma GivingUpWalkIsLogged(env: Env, req: Request, streaming: bool, h: History,
                             remaining: seq<Backend>, last: Option<Error>)
    requires Routes(env)
    ensures var w := Walk(env, req, streaming, h, remaining, last);
            Unavailable503 in w.trace <==> GaveUpOn(w.outcome) && !AnyYield(w.trace)
  {
    var idle, end := WalkEnding(env, req, streaming, h, remaining, last);
    assert forall e: Effect :: e in idle ==> !e.Logged?;
    RowOfEnding(req, streaming, end);
  }

  /** A run that gives up without a row: its stream fails after one chunk. */
  lemma BrokenStreamIsNotLogged(b: Backend, req: Request, e: Error) returns (env: Env)
    ensures Routes(env) && env.candidates == [b]
    ensures var r := Handle(env, req, true);
            GaveUpOn(r.outcome) && Delivers(r.trace, "x") && Unavailable503 !in r.trace
  {
    var broken := StreamRun([Text("x")], Some(e));
    env := Env(true, None, [b], (h: History, c: seq<Backend>) requires c != [] => c[0],
               (h: History, id: BackendId) => true, (h: History, b: Backend) => Failed(e),
               (h: History, b: Backend) => broken);
    BrokenAttempt(env, Before(env, req), b, broken, e);
    var t := Try(env, true, Before(env, req), b);
    assert Choose(env, Before(env, req), [b]) == b;
    assert Yielded("x") in Before(env, req) + t.effects;
    GivingUpIsLogged(env, req, true);
  }

  predicate Delivers(trace: seq<Effect>, chunk: string) {
    Yielded(chunk) in trace
  }

  lemma BrokenAttempt(env: Env, h: History, b: Backend, broken: StreamRun, e: Error)
    requires env.allow(h, b.id) && env.stream(h + Opening(b), b) == broken == StreamRun([Text("x")], Some(e))
    ensures var t := Try(env, true, h, b); t.verdict == Broken(e) && Yielded("x") in t.effects
  {
    OneChunk();
  }

  lemma OneChunk()
    ensures ChunksOf([Text("x")]) == ["x"] && Yields(["x"]) == [Yielded("x")]
  {
    CollectOne(Text("x"), ChunkOf());
    CollectOne("x", YieldOf());
  }

  // ----- the ledger -----

  predicate IsPaidRow(e: Effect) {
    e.Logged? && e.row.status == 200
  }

  function RowTokens(e: Effect): nat
    requires IsPaidRow(e)
  {
    e.row.tokensIn + e.row.tokensOut
  }

  /** A reconcile is followed, and a 200 row preceded, by its partner of the same amount. */
  predicate PairedAt(trace: seq<Effect>, i: nat)
    requires i < |trace|
  {
    && (trace[i].Reconciled? ==>
          i + 1 < |trace| && IsPaidRow(trace[i + 1]) && RowTokens(trace[i + 1]) == trace[i].amount)
    && (IsPaidRow(trace[i]) ==> i > 0 && trace[i - 1] == Reconciled(RowTokens(trace[i])))
  }

  /** Reconciles and 200 rows come in adjacent pairs of equal amounts. */
  ghost predicate Paired(trace: seq<Effect>) {
    forall i :: 0 <= i < |trace| ==> PairedAt(trace, i)
  }

  lemma PairedAppend(a: seq<Effect>, b: seq<Effect>)
    requires Paired(a) && Paired(b)
    ensures Paired(a + b)
  {
    forall i | 0 <= i < |a + b| ensures PairedAt(a + b, i) {
      if i < |a| {
        assert PairedAt(a, i);
      } else {
        assert PairedAt(b, i - |a|);
      }
    }
  }

  function ReservesOf(): Effect -> int {
    (e: Effect) => if e.Reserved? then 1 else 0
  }

  function ReconcilesOf(): Effect -> int {
    (e: Effect) => if e.Reconciled? then 1 else 0
  }

  function PaidRowsOf(): Effect -> int {
    (e: Effect) => if IsPaidRow(e) then 1 else 0
  }

  /** The amount a step reconciles, and the tokens of the 200 row it writes. */
  function AmountOf(): Effect -> int {
    (e: Effect) => if e.Reconciled? then e.amount else 0
  }

  function RowTokensOf(): Effect -> int {
    (e: Effect) => if IsPaidRow(e) then RowTokens(e) else 0
  }

  /** A reconcile whose row is not written yet. */
  function Pending(trace: seq<Effect>): int {
    if trace != [] && Last(trace).Reconciled? then Last(trace).amount else 0
  }

  lemma TotalOfThree(a: seq<Effect>, b: seq<Effect>, c: seq<Effect>, f: Effect -> int)
    ensures Total(a + b + c, f) == Total(a, f) + Total(b, f) + Total(c, f)
  {
    TotalAppend(a + b, c, f);
    TotalAppend(a, b, f);
  }

  /** `front` and `tail` aside, the effects are a reconcile of n and its row. */
  lemma LedgerOfPair(front: seq<Effect>, n: nat, row: Effect, tail: seq<Effect>)
    requires AllOutside(front) && AllOutside(tail) && IsPaidRow(row) && RowTokens(row) == n
    ensures var c := front + [Reconciled(n), row] + tail;
            && Paired(c) && Total(c, ReservesOf()) == 0
            && Total(c, ReconcilesOf()) == Total(c, PaidRowsOf()) == 1
            && Total(c, AmountOf()) == Total(c, RowTokensOf()) == n
  {
    PairedAppend(front, [Reconciled(n), row]);
    PairedAppend(front + [Reconciled(n), row], tail);
    LedgerTotal(front, n, row, tail, ReservesOf());
    LedgerTotal(front, n, row, tail, ReconcilesOf());
    LedgerTotal(front, n, row, tail, PaidRowsOf());
    LedgerTotal(front, n, row, tail, AmountOf());
    LedgerTotal(front, n, row, tail, RowTokensOf());
  }

  lemma LedgerTotal(front: seq<Effect>, n: nat, row: Effect, tail: seq<Effect>, f: Effect -> int)
    requires (forall e :: e in front ==> f(e) == 0) && (forall e :: e in tail ==> f(e) == 0)
    ensures Total(front + [Reconciled(n), row] + tail, f) == f(Reconciled(n)) + f(row)
  {
    TotalOfThree(front, [Reconciled(n), row], tail, f);
    TotalZero(front, f);
    TotalZero(tail, f);
    TotalHead(Reconciled(n), [row], f);
    TotalOne(row, f);
    assert [Reconciled(n), row] == [Reconciled(n)] + [row];
  }

  /** Effects outside the ledger; a 503 row carries no tokens. */
  ghost predicate AllOutside(trace: seq<Effect>) {
    forall e :: e in trace ==> !e.Reserved? && !e.Reconciled? && !IsPaidRow(e)
  }

  lemma LedgerOfNone(trace: seq<Effect>)
    requires AllOutside(trace)
    ensures Paired(trace)
    ensures Total(trace, ReservesOf()) == Total(trace, ReconcilesOf()) == Total(trace, PaidRowsOf()) == 0
    ensures Total(trace, AmountOf()) == Total(trace, RowTokensOf()) == 0
  {
    TotalZero(trace, ReservesOf());
    TotalZero(trace, ReconcilesOf());
    TotalZero(trace, PaidRowsOf());
    TotalZero(trace, AmountOf());
    TotalZero(trace, RowTokensOf());
    assert forall i :: 0 <= i < |trace| ==> trace[i] in trace;
  }

  /** The tokens that the request's outcome is charged for. */
  function Charge(o: Outcome): nat {
    match o
    case Raised(_) => 0
    case Returned(r) => r.answer.tokensIn + r.answer.tokensOut
  }

  function Pays(end: Ending): (bool, nat) {
    match end
    case GaveUp(_) => (false, 0)
    case Served(hit) => (true, hit.answer.tokensIn + hit.answer.tokensOut)
    case Answers(_, a, _) => (true, a.tokensIn + a.tokensOut)
  }

  lemma EndingLedger(req: Request, streaming: bool, end: Ending)
    ensures var c := EndingEffects(req, streaming, end);
            var (paid, n) := Pays(end);
            && Paired(c) && Total(c, ReservesOf()) == 0
            && Total(c, ReconcilesOf()) == Total(c, PaidRowsOf()) == (if paid then 1 else 0)
            && Total(c, AmountOf()) == Total(c, RowTokensOf()) == n
  {
    var c := EndingEffects(req, streaming, end);
    match end
    case GaveUp(_) => LedgerOfNone(c);
    case Served(hit) =>
      var n := hit.answer.tokensIn + hit.answer.tokensOut;
      var front: seq<Effect> := [];
      var tail := if streaming then [Yielded(hit.answer.content), Finished(HitResult(req, hit))] else [];
      assert c == front + [Reconciled(n), c[1]] + tail;
      LedgerOfPair(front, n, c[1], tail);
    case Answers(b, a, finish) =>
      var n := a.tokensIn + a.tokensOut;
      var cached := if req.bypassCache then [] else [Cached(L1, a), Cached(L2, a)];
      var front := [Recorded(b.id, true), Tracked(b.id)] + cached;
      var row := Logged(LogRow(200, a.tokensIn, a.tokensOut, Some(b.id), None, CallCost(b, a), Some(finish)));
      var tail := if streaming then [Finished(BackendResult(b, a, finish))] else [];
      assert c == front + [Reconciled(n), row] + tail;
      LedgerOfPair(front, n, row, tail);
  }

  /**
   Each request reserves exactly once, first, and its estimate; it reconciles once if it returns and
   never if it raises; the amount is the tokens of its result; and every reconcile is followed by
   the one 200 row with as many tokens.
   */
  lemma RequestLedger(env: Env, req: Request, streaming: bool)
    requires Routes(env)
    ensures var r := Handle(env, req, streaming);
            && r.trace != []
            && r.trace[0] == Reserved(Max(1, Total(req.messages, ContentLength()) / 4), env.admitted)
            && Total(r.trace, ReservesOf()) == 1
            && Total(r.trace, ReconcilesOf()) == Total(r.trace, PaidRowsOf()) == (if r.outcome.Returned? then 1 else 0)
            && Total(r.trace, AmountOf()) == Total(r.trace, RowTokensOf()) == Charge(r.outcome)
            && Paired(r.trace)
  {
    CharsOfAll(req.messages);
    var r := Handle(env, req, streaming);
    var first, idle, end := RequestAnatomy(env, req, streaming);
    var c := EndingEffects(req, streaming, end);
    EndingLedger(req, streaming, end);
    LedgerOfNone(idle);
    FirstLedger(first);
    PairedAppend(first, idle);
    PairedAppend(first + idle, c);
    TotalOfThree(first, idle, c, ReservesOf());
    TotalOfThree(first, idle, c, ReconcilesOf());
    TotalOfThree(first, idle, c, PaidRowsOf());
    TotalOfThree(first, idle, c, AmountOf());
    TotalOfThree(first, idle, c, RowTokensOf());
  }

  lemma FirstLedger(first: seq<Effect>)
    requires ReserveThenLooks(first)
    ensures Paired(first) && Total(first, ReservesOf()) == 1
    ensures Total(first, ReconcilesOf()) == Total(first, PaidRowsOf()) == 0
    ensures Total(first, AmountOf()) == Total(first, RowTokensOf()) == 0
  {
    var rest := first[1..];
    LedgerOfNone(rest);
    assert first == [first[0]] + rest;
    TotalHead(first[0], rest, ReservesOf());
    TotalHead(first[0], rest, ReconcilesOf());
    TotalHead(first[0], rest, PaidRowsOf());
    TotalHead(first[0], rest, AmountOf());
    TotalHead(first[0], rest, RowTokensOf());
  }

  lemma TotalHead(e: Effect, rest: seq<Effect>, f: Effect -> int)
    ensures Total([e] + rest, f) == f(e) + Total(rest, f)
  {
    TotalAppend([e], rest, f);
    TotalOne(e, f);
  }

  /** At every prefix, what was reconciled is what was logged plus the one amount still to be logged. */
  lemma {:induction false} PrefixLedger(trace: seq<Effect>, n: nat)
    requires Paired(trace) && n <= |trace|
    ensures Total(trace[..n], AmountOf()) == Total(trace[..n], RowTokensOf()) + Pending(trace[..n])
  {
    if n > 0 {
      var past, e := trace[..n - 1], trace[n - 1];
      PrefixLedger(trace, n - 1);
      assert trace[..n] == past + [e];
      TotalSnoc(past, e, AmountOf());
      TotalSnoc(past, e, RowTokensOf());
      assert PairedAt(trace, n - 1);
      if n > 1 {
        assert PairedAt(trace, n - 2) && Last(past) == trace[n - 2];
      }
    }
  }

  lemma OnlyFirstReserves(env: Env, req: Request, streaming: bool)
    requires Routes(env)
    ensures var trace := Handle(env, req, streaming).trace;
            forall i :: 1 <= i < |trace| ==> !trace[i].Reserved?
  {
    var first, idle, end := RequestAnatomy(env, req, streaming);
    var c := EndingEffects(req, streaming, end);
    assert forall e :: e in c ==> !e.Reserved?;
    NoLaterReserve(first, idle, c);
  }

  lemma NoLaterReserve(first: seq<Effect>, idle: seq<Effect>, c: seq<Effect>)
    requires ReserveThenLooks(first)
    requires AllIdle(idle) && forall e :: e in c ==> !e.Reserved?
    ensures forall i :: 1 <= i < |first + idle + c| ==> !(first + idle + c)[i].Reserved?
  {
    var trace := first + idle + c;
    forall i | 1 <= i < |trace| ensures !trace[i].Reserved? {
      if i < |first| {
        assert trace[i] == first[i];
      } else if i < |first + idle| {
        assert trace[i] == idle[i - |first|] && trace[i] in idle;
      } else {
        assert trace[i] == c[i - |first + idle|] && trace[i] in c;
      }
    }
  }

  lemma ReconcilesOnlyOnce(env: Env, req: Request, streaming: bool, i: nat, j: nat)
    requires Routes(env) && i < j < |Handle(env, req, streaming).trace|
    ensures var trace := Handle(env, req, streaming).trace; !trace[i].Reconciled? || !trace[j].Reconciled?
  {
    var trace := Handle(env, req, streaming).trace;
    RequestLedger(env, req, streaming);
    if trace[i].Reconciled? && trace[j].Reconciled? {
      TotalAtLeast(trace, i, j, ReconcilesOf());
    }
  }

  function AmountTold(): Effect -> seq<nat> {
    (e: Effect) => if e.Reserved? then [e.est] else if e.Reconciled? then [e.amount] else []
  }

  /** The amounts the request told the limiter, in order. */
  function Amounts(trace: seq<Effect>): seq<nat> {
    Collect(trace, AmountTold())
  }

  function LastAmount(trace: seq<Effect>): Option<nat> {
    if Amounts(trace) == [] then None else Some(Last(Amounts(trace)))
  }

  /** A finished request tells the limiter its estimate and, unless it raised, then its result's tokens. */
  lemma RequestLeavesAmount(env: Env, req: Request, streaming: bool)
    requires Routes(env)
    ensures var r := Handle(env, req, streaming);
            Amounts(r.trace) == [EstimateTokens(req.messages)] + if r.outcome.Returned? then [Charge(r.outcome)] else []
  {
    var first, idle, c := AmountAnatomy(env, req, streaming);
    AmountsOfThree(first, idle, c);
  }

  lemma AmountAnatomy(env: Env, req: Request, streaming: bool)
    returns (first: seq<Effect>, idle: seq<Effect>, c: seq<Effect>)
    requires Routes(env)
    ensures var r := Handle(env, req, streaming);
            && r.trace == first + idle + c && ReserveThenLooks(first) && AllIdle(idle)
            && first[0].est == EstimateTokens(req.messages)
            && Amounts(c) == if r.outcome.Returned? then [Charge(r.outcome)] else []
  {
    var end;
    first, idle, end := RequestAnatomy(env, req, streaming);
    c := EndingEffects(req, streaming, end);
    EndingAmount(req, streaming, end);
    EndingPays(env, req, streaming, first, idle, end);
  }

  lemma EndingPays(env: Env, req: Request, streaming: bool, first: seq<Effect>, idle: seq<Effect>, end: Ending)
    requires Routes(env) && HasAnatomy(env, req, streaming, first, idle, end)
    ensures var r := Handle(env, req, streaming);
            Pays(end) == (r.outcome.Returned?, Charge(r.outcome))
  {
  }

  lemma AmountsOfThree(first: seq<Effect>, idle: seq<Effect>, c: seq<Effect>)
    requires ReserveThenLooks(first) && AllIdle(idle)
    ensures Amounts(first + idle + c) == [first[0].est] + Amounts(c)
  {
    var rest: seq<Effect> := first[1..];
    assert first == [first[0]] + rest;
    CollectAppend(first + idle, c, AmountTold());
    CollectAppend(first, idle, AmountTold());
    CollectNone(idle, AmountTold());
    CollectAppend([first[0]], rest, AmountTold());
    CollectOne(first[0], AmountTold());
    CollectNone(rest, AmountTold());
  }

  lemma EndingAmount(req: Request, streaming: bool, end: Ending)
    ensures var (paid, n) := Pays(end);
            Amounts(EndingEffects(req, streaming, end)) == if paid then [n] else []
  {
    var c := EndingEffects(req, streaming, end);
    if end.GaveUp? {
      CollectNone(c, AmountTold());
    } else {
      var n := Pays(end).1;
      var k := if end.Served? then 0 else if req.bypassCache then 2 else 4;
      var pre, post := c[..k], c[k + 1..];
      assert c == pre + [Reconciled(n)] + post;
      OneAmount(pre, n, post);
    }
  }

  lemma OneAmount(pre: seq<Effect>, n: nat, post: seq<Effect>)
    requires (forall e :: e in pre ==> AmountTold()(e) == []) && (forall e :: e in post ==> AmountTold()(e) == [])
    ensures Amounts(pre + [Reconciled(n)] + post) == [n]
  {
    CollectAppend(pre + [Reconciled(n)], post, AmountTold());
    CollectAppend(pre, [Reconciled(n)], AmountTold());
    CollectOne(Reconciled(n), AmountTold());
    CollectNone(pre, AmountTold());
    CollectNone(post, AmountTold());
  }

  // ----- what a result leaves behind -----

  /** The row of a request tells where its result came from and what it cost. */
  ghost predicate RowMatches(row: LogRow, result: Result, trace: seq<Effect>, candidates: seq<Backend>) {
    && row.tokensIn == result.answer.tokensIn && row.tokensOut == result.answer.tokensOut
    && row.tier == result.tier && row.finish == result.finish
    && if result.tier.Some?
       then && row.backend.None? && result.backend.None? && row.cost == 0.0
            && Looked(row.tier.value, Some(result.answer)) in trace
       else exists b :: b in candidates && Earned(row, result, b, trace)
  }

  /** Backend b gave the answer, was recorded and tracked for it, and is what the row names and prices. */
  predicate Earned(row: LogRow, result: Result, b: Backend, trace: seq<Effect>) {
    && Answered(b, Some(result.answer)) in trace && Recorded(b.id, true) in trace && Tracked(b.id) in trace
    && row.backend == Some(b.id) && result.backend == Some(b.name) && result.model == b.model
    && 1000.0 * row.cost == b.costIn * row.tokensIn as real + b.costOut * row.tokensOut as real
  }

  /** What a returned result leaves in log and cache. */
  ghost predicate LeftBehind(r: Run, req: Request, candidates: seq<Backend>)
    requires r.outcome.Returned?
  {
    var result := r.outcome.result;
    && (forall e :: e in r.trace && IsPaidRow(e) ==> RowMatches(e.row, result, r.trace, candidates))
    && (forall e :: e in r.trace && e.Cached? ==> e.answer == result.answer)
    && (Cached(L1, result.answer) in r.trace <==> !req.bypassCache && result.tier.None?)
    && (Cached(L2, result.answer) in r.trace <==> !req.bypassCache && result.tier.None?)
  }

  /**
   A returned result is logged with its own tokens, tier, finish reason, backend and price, and is cached
   in both tiers exactly when it came from a backend and the cache is not bypassed; an exception
   leaves nothing in the cache.
   */
  lemma ResultIsAccountedFor(env: Env, req: Request, streaming: bool)
    requires Routes(env)
    ensures var r := Handle(env, req, streaming);
            if r.outcome.Returned? then LeftBehind(r, req, env.candidates) else forall e :: e in r.trace ==> !e.Cached?
  {
    var first, idle, end := RequestAnatomy(env, req, streaming);
    var pre := first + idle;
    PartsAreUnsettled(first, idle);
    match end
    case GaveUp(_) =>
    case Served(hit) => ServedIsAccountedFor(pre, req, streaming, hit, env.candidates);
    case Answers(b, a, finish) => AnswerIsAccountedFor(pre, req, streaming, b, a, finish, env.candidates);
  }

  lemma PartsAreUnsettled(first: seq<Effect>, idle: seq<Effect>)
    requires ReserveThenLooks(first) && AllIdle(idle)
    ensures forall e :: e in first + idle ==> !e.Cached? && !e.Logged?
  {
  }

  ghost predicate AllUnsettled(trace: seq<Effect>) {
    forall e :: e in trace ==> !e.Cached? && !IsPaidRow(e)
  }

  lemma ServedIsAccountedFor(pre: seq<Effect>, req: Request, streaming: bool, hit: Hit, candidates: seq<Backend>)
    requires AllUnsettled(pre) && Looked(hit.tier, Some(hit.answer)) in pre
    ensures LeftBehind(Run(pre + HitEffects(req, streaming, hit), Returned(HitResult(req, hit))), req, candidates)
  {
    AccountedFor(pre, HitEffects(req, streaming, hit), req, HitResult(req, hit), candidates);
  }

  lemma AnswerIsAccountedFor(pre: seq<Effect>, req: Request, streaming: bool, b: Backend, a: Answer, finish: string,
                             candidates: seq<Backend>)
    requires AllUnsettled(pre) && Answered(b, Some(a)) in pre && b in candidates
    ensures var result := BackendResult(b, a, finish);
            LeftBehind(Run(pre + Commit(req, streaming, b, a, finish), Returned(result)), req, candidates)
  {
    var c, result := Commit(req, streaming, b, a, finish), BackendResult(b, a, finish);
    CommitRow(req, streaming, b, a, finish);
    CommitRecords(req, streaming, b, a, finish);
    CommitCaches(req, streaming, b, a, finish);
    forall e | e in c && IsPaidRow(e) ensures RowMatches(e.row, result, pre + c, candidates) {
      RowIsEarned(pre, c, e.row, b, a, finish, candidates);
    }
    AccountedFor(pre, c, req, result, candidates);
  }

  lemma RowIsEarned(pre: seq<Effect>, c: seq<Effect>, row: LogRow, b: Backend, a: Answer, finish: string,
                    candidates: seq<Backend>)
    requires Answered(b, Some(a)) in pre && b in candidates && RowOf(row, b, a, finish)
    requires Recorded(b.id, true) in c && Tracked(b.id) in c
    ensures RowMatches(row, BackendResult(b, a, finish), pre + c, candidates)
  {
    assert Earned(row, BackendResult(b, a, finish), b, pre + c);
  }

  /** What comes after an unsettled part decides what is left behind. */
  lemma AccountedFor(pre: seq<Effect>, c: seq<Effect>, req: Request, result: Result, candidates: seq<Backend>)
    requires AllUnsettled(pre)
    requires forall e :: e in c && IsPaidRow(e) ==> RowMatches(e.row, result, pre + c, candidates)
    requires forall e :: e in c && e.Cached? ==> e.answer == result.answer
    requires Cached(L1, result.answer) in c <==> !req.bypassCache && result.tier.None?
    requires Cached(L2, result.answer) in c <==> !req.bypassCache && result.tier.None?
    ensures LeftBehind(Run(pre + c, Returned(result)), req, candidates)
  {
  }

  /** The row of an answer. */
  predicate RowOf(row: LogRow, b: Backend, a: Answer, finish: string) {
    && row.tokensIn == a.tokensIn && row.tokensOut == a.tokensOut && row.backend == Some(b.id)
    && row.tier.None? && row.finish == Some(finish)
    && 1000.0 * row.cost == b.costIn * a.tokensIn as real + b.costOut * a.tokensOut as real
  }

  lemma CommitRow(req: Request, streaming: bool, b: Backend, a: Answer, finish: string)
    ensures forall e :: e in Commit(req, streaming, b, a, finish) && IsPaidRow(e) ==> RowOf(e.row, b, a, finish)
  {
  }

  lemma CommitRecords(req: Request, streaming: bool, b: Backend, a: Answer, finish: string)
    ensures var c := Commit(req, streaming, b, a, finish);
            Recorded(b.id, true) in c && Tracked(b.id) in c
  {
    var c := Commit(req, streaming, b, a, finish);
    assert c[0] == Recorded(b.id, true) && c[1] == Tracked(b.id);
  }

  lemma CommitCaches(req: Request, streaming: bool, b: Backend, a: Answer, finish: string)
    ensures var c := Commit(req, streaming, b, a, finish);
            && (forall e :: e in c && e.Cached? ==> e.answer == a)
            && (Cached(L1, a) in c <==> !req.bypassCache)
            && (Cached(L2, a) in c <==> !req.bypassCache)
  {
    var c := Commit(req, streaming, b, a, finish);
    if !req.bypassCache {
      assert c[2] == Cached(L1, a) && c[3] == Cached(L2, a);
    }
  }

  // ----- the cache -----

  /** Every cache write is of an answer that a candidate gave earlier in the request. */
  ghost predicate Backed(trace: seq<Effect>, candidates: seq<Backend>) {
    forall i :: 0 <= i < |trace| && trace[i].Cached? ==> BackedBy(trace[..i], candidates, trace[i].answer)
  }

  ghost predicate BackedBy(trace: seq<Effect>, candidates: seq<Backend>, a: Answer) {
    exists b :: b in candidates && Answered(b, Some(a)) in trace
  }

  /**
   A request writes to the cache only what one of its candidates answered it before, and touches the
   cache only when it is not bypassed; what it returns carries the requested model if its candidates do.
   */
  lemma RequestCache(env: Env, req: Request, streaming: bool)
    requires Routes(env)
    ensures var r := Handle(env, req, streaming);
            && Backed(r.trace, env.candidates)
            && (req.bypassCache ==> forall e :: e in r.trace ==> !e.Cached? && !e.Looked?)
            && (r.outcome.Returned? && (forall b :: b in env.candidates ==> b.model == req.model) ==>
                  r.outcome.result.model == req.model)
  {
    var first, idle, end := RequestAnatomy(env, req, streaming);
    var c := EndingEffects(req, streaming, end);
    EndingCaches(req, streaming, end);
    PartsAreBacked(first, idle, c, end, env.candidates);
    if req.bypassCache {
      BypassedParts(first, idle, c);
    }
  }

  lemma PartsAreBacked(first: seq<Effect>, idle: seq<Effect>, c: seq<Effect>, end: Ending, candidates: seq<Backend>)
    requires ReserveThenLooks(first) && AllIdle(idle)
    requires forall e :: e in c && e.Cached? ==> end.Answers? && e.answer == end.answer
    requires end.Answers? ==> end.backend in candidates && Answered(end.backend, Some(end.answer)) in idle
    ensures Backed(first + idle + c, candidates)
  {
    if end.Answers? {
      EndingIsBacked(first + idle, c, end.backend, end.answer, candidates);
    } else {
      NothingToBack(first + idle + c, candidates);
    }
  }

  lemma NothingToBack(trace: seq<Effect>, candidates: seq<Backend>)
    requires forall e :: e in trace ==> !e.Cached?
    ensures Backed(trace, candidates)
  {
  }

  lemma EndingIsBacked(pre: seq<Effect>, c: seq<Effect>, b: Backend, a: Answer, candidates: seq<Backend>)
    requires (forall e :: e in pre ==> !e.Cached?) && Answered(b, Some(a)) in pre && b in candidates
    requires forall e :: e in c && e.Cached? ==> e.answer == a
    ensures Backed(pre + c, candidates)
  {
    forall k | 0 <= k < |pre| ensures !pre[k].Cached? {
      assert pre[k] in pre;
    }
    forall i | 0 <= i < |pre + c| && (pre + c)[i].Cached?
      ensures BackedBy((pre + c)[..i], candidates, (pre + c)[i].answer)
    {
      CachedInEnding(pre, c, i);
    }
  }

  lemma BypassedParts(first: seq<Effect>, idle: seq<Effect>, c: seq<Effect>)
    requires |first| == 1 && first[0].Reserved? && AllIdle(idle) && forall e :: e in c ==> !e.Looked? && !e.Cached?
    ensures forall e :: e in first + idle + c ==> !e.Looked? && !e.Cached?
  {
  }

  lemma EndingCaches(req: Request, streaming: bool, end: Ending)
    ensures forall e :: e in EndingEffects(req, streaming, end) ==>
              !e.Looked? && (e.Cached? ==> !req.bypassCache && end.Answers? && e.answer == end.answer)
  {
  }

  lemma CachedInEnding(pre: seq<Effect>, c: seq<Effect>, i: nat)
    requires i < |pre + c| && (pre + c)[i].Cached? && forall k :: 0 <= k < |pre| ==> !pre[k].Cached?
    ensures (pre + c)[i] in c && forall e :: e in pre ==> e in (pre + c)[..i]
  {
    assert (pre + c)[i] == c[i - |pre|];
    assert (pre + c)[..i] == pre + c[..i - |pre|];
  }

  // ----- the breaker -----

  /** Every call directly follows a grant of that backend's breaker. */
  ghost predicate Guarded(trace: seq<Effect>) {
    forall i :: 0 <= i < |trace| && trace[i].Called? ==> i > 0 && trace[i - 1] == Allowed(trace[i].backend.id, true)
  }

  lemma GuardedAppend(a: seq<Effect>, b: seq<Effect>)
    requires Guarded(a) && Guarded(b)
    ensures Guarded(a + b)
  {
    var all := a + b;
    forall i | 0 <= i < |all| && all[i].Called? ensures i > 0 && all[i - 1] == Allowed(all[i].backend.id, true) {
      if i < |a| {
        assert all[i] == a[i];
      } else {
        var k := i - |a|;
        assert all[i] == b[k] && b[k].Called?;
        assert all[i - 1] == b[k - 1];
      }
    }
  }

  lemma NoCallGuarded(trace: seq<Effect>)
    requires forall e :: e in trace ==> !e.Called?
    ensures Guarded(trace)
  {
  }

  lemma TryGuarded(env: Env, streaming: bool, h: History, b: Backend)
    ensures Guarded(Try(env, streaming, h, b).effects)
  {
    if env.allow(h, b.id) {
      var middle, end := TryParts(env, streaming, h, b);
      NoCallGuarded(middle);
      NoCallGuarded(end);
      GuardedAppend(Opening(b), middle);
      GuardedAppend(Opening(b) + middle, end);
    }
  }

  lemma {:induction false} WalkGuarded(env: Env, req: Request, streaming: bool, h: History,
                                       remaining: seq<Backend>, last: Option<Error>)
    requires Routes(env)
    ensures Guarded(Walk(env, req, streaming, h, remaining, last).trace)
    decreases |remaining|
  {
    if remaining != [] {
      var b := Choose(env, h, remaining);
      var t := Try(env, streaming, h, b);
      var rest := Without(remaining, b.id);
      WithoutShrinks(remaining, b);
      TryGuarded(env, streaming, h, b);
      if GoesOn(t.verdict) {
        WalkGuarded(env, req, streaming, h + t.effects, rest, Carry(t.verdict, last));
        GuardedAppend(t.effects, Walk(env, req, streaming, h + t.effects, rest, Carry(t.verdict, last)).trace);
      } else if t.verdict.Success? {
        var c := Commit(req, streaming, b, t.verdict.answer, t.verdict.finish);
        CommitKinds(req, streaming, b, t.verdict.answer, t.verdict.finish);
        NoCallGuarded(c);
        GuardedAppend(t.effects, c);
      }
    }
  }

  /** In every request each backend call directly follows the breaker's consent. */
  lemma RequestGuarded(env: Env, req: Request, streaming: bool)
    requires Routes(env)
    ensures Guarded(Handle(env, req, streaming).trace)
  {
    if env.admitted && (req.bypassCache || env.hit.None?) && env.candidates != [] {
      var h := Before(env, req);
      NoCallGuarded(h);
      WalkGuarded(env, req, streaming, h, env.candidates, None);
      GuardedAppend(h, Walk(env, req, streaming, h, env.candidates, None).trace);
    } else {
      NoCallGuarded(Handle(env, req, streaming).trace);
    }
  }
}
