/**
 The request pipeline.  A request is run against an environment whose answers may
 depend on everything the request has done so far, and so stand for any shared state and
 any interference by other requests; the run is the trace of the request's effects.
 `HandleComplete` and `HandleStream` are the two loops of the source; `Handle` specifies them.
 */
module Orchestrator {
  import opened Common
  import opened Routing
  import opened CacheKeys
  import opened TwoTierCache

  datatype Request = Request(key: nat, model: string, messages: seq<Message>, bypassCache: bool)

  datatype Error = Error(message: string)
  datatype Completion = Completed(answer: Answer) | Failed(error: Error)

  /** A backend stream: its events, and the error that ended it, if one did. */
  datatype StreamEvent = Text(chunk: string) | Usage(tokensIn: nat, tokensOut: nat, finish: string)
  datatype StreamRun = StreamRun(events: seq<StreamEvent>, error: Option<Error>)

  datatype Result = Result(
    answer: Answer, model: string, finish: Option<string>, tier: Option<Tier>, backend: Option<string>)
  datatype Exception = RateLimitExceeded | NoBackendsAvailable | AllBackendsUnavailable(last: Option<Error>)
  datatype Outcome = Returned(result: Result) | Raised(exception: Exception)

  datatype LogRow = LogRow(
    status: nat, tokensIn: nat, tokensOut: nat, backend: Option<BackendId>, tier: Option<Tier>,
    cost: real, finish: Option<string>)

  datatype Effect =
    | Reserved(est: nat, admitted: bool)          // rate_limiter.reserve and its answer
    | Looked(tier: Tier, found: Option<Answer>)   // one tier's part of cache.get and its answer
    | Allowed(id: BackendId, ok: bool)            // breaker.allow and its answer
    | Called(backend: Backend)                    // client.complete or client.stream
    | Yielded(chunk: string)                      // a text chunk handed to the caller
    | Answered(backend: Backend, got: Option<Answer>) // the end of the call; None for an error
    | Recorded(id: BackendId, ok: bool)           // breaker.record
    | Tracked(id: BackendId)                      // latency_tracker.record
    | Cached(tier: Tier, answer: Answer)          // the two writes of cache.put
    | Reconciled(amount: nat)                     // rate_limiter.reconcile
    | Logged(row: LogRow)
    | Finished(result: Result)                    // the terminal item of a stream

  type History = seq<Effect>

  /** Everything a request is told by the rest of the system. */
  datatype Env = Env(
    admitted: bool,
    hit: Option<Hit>,
    candidates: seq<Backend>,
    select: (History, seq<Backend>) --> Backend,
    allow: (History, BackendId) -> bool,
    complete: (History, Backend) -> Completion,
    stream: (History, Backend) -> StreamRun)

  /** The policy returns some candidate of every nonempty list. */
  ghost predicate Routes(env: Env) {
    forall h: History, c: seq<Backend> :: c != [] ==> env.select.requires(h, c) && env.select(h, c) in c
  }

  // ----- pure helpers of the source -----

  function TotalChars(ms: seq<Message>): nat {
    if ms == [] then 0 else |ms[0].content| + TotalChars(ms[1..])
  }

  function ContentLength(): Message -> int {
    (m: Message) => |m.content|
  }

  /** All characters of all messages are counted. */
  lemma {:induction false} CharsOfAll(ms: seq<Message>)
    ensures TotalChars(ms) == Total(ms, ContentLength())
  {
    if ms != [] {
      CharsOfAll(ms[1..]);
      TotalAppend([ms[0]], ms[1..], ContentLength());
      TotalOne(ms[0], ContentLength());
      assert ms == [ms[0]] + ms[1..];
    }
  }

  /** A quarter of the characters, rounded down, and at least one. */
  function EstimateTokens(ms: seq<Message>): (n: nat)
    ensures n >= 1 && TotalChars(ms) < 4 * n + 4 && (n > 1 ==> 4 * n <= TotalChars(ms))
  {
    Max(1, TotalChars(ms) / 4)
  }

  /** One part in 2000 per character, up to one. */
  function EstimateComplexity(ms: seq<Message>): (c: real)
    ensures if TotalChars(ms) <= 2000 then 2000.0 * c == TotalChars(ms) as real else c == 1.0
  {
    var c := TotalChars(ms) as real / 2000.0;
    if c < 1.0 then c else 1.0
  }

  /** `next(pair for pair in remaining if pair[0].id == id)`. */
  function FirstWithId(s: seq<Backend>, id: BackendId): (b: Backend)
    requires exists x :: x in s && x.id == id
    ensures b in s && b.id == id
    ensures exists i :: 0 <= i < |s| && s[i] == b && forall j :: 0 <= j < i ==> s[j].id != id
  {
    if s[0].id == id then s[0]
    else
      assert s == [s[0]] + s[1..];
      var b := FirstWithId(s[1..], id);
      assert exists i :: 0 <= i < |s| && s[i] == b && forall j :: 0 <= j < i ==> s[j].id != id by {
        var i :| 0 <= i < |s[1..]| && s[1..][i] == b && forall j :: 0 <= j < i ==> s[1..][j].id != id;
        assert s[i + 1] == b && forall j :: 0 <= j < i + 1 ==> s[j].id != id;
      }
      b
  }

  /** The concatenation of a stream's text chunks. */
  function Concat(chunks: seq<string>): string {
    if chunks == [] then [] else Concat(Front(chunks)) + Last(chunks)
  }

  function LengthOf(): string -> int {
    (chunk: string) => |chunk|
  }

  /** The chunk at i stands in the text where the chunks before it end. */
  predicate SpelledAt(text: string, chunks: seq<string>, i: nat)
    requires i < |chunks|
  {
    var start := Total(chunks[..i], LengthOf());
    0 <= start && start + |chunks[i]| <= |text| && text[start..start + |chunks[i]|] == chunks[i]
  }

  /** The text is the chunks, one after the other, and no more. */
  predicate Spells(text: string, chunks: seq<string>) {
    |text| == Total(chunks, LengthOf()) && forall i :: 0 <= i < |chunks| ==> SpelledAt(text, chunks, i)
  }

  lemma SpelledLater(text: string, chunks: seq<string>, chunk: string, i: nat)
    requires i < |chunks| && SpelledAt(text, chunks, i)
    ensures SpelledAt(text + chunk, chunks + [chunk], i)
  {
    var start := Total(chunks[..i], LengthOf());
    assert (chunks + [chunk])[..i] == chunks[..i];
    assert (text + chunk)[start..start + |chunks[i]|] == text[start..start + |chunks[i]|];
  }

  lemma SpellsSnoc(text: string, chunks: seq<string>, chunk: string)
    requires Spells(text, chunks)
    ensures Spells(text + chunk, chunks + [chunk])
  {
    TotalSnoc(chunks, chunk, LengthOf());
    forall i | 0 <= i < |chunks| ensures SpelledAt(text + chunk, chunks + [chunk], i) {
      SpelledLater(text, chunks, chunk, i);
    }
    assert (chunks + [chunk])[..|chunks|] == chunks;
    assert (text + chunk)[|text|..|text| + |chunk|] == chunk;
    assert SpelledAt(text + chunk, chunks + [chunk], |chunks|);
  }

  lemma {:induction false} ConcatSpells(chunks: seq<string>)
    ensures Spells(Concat(chunks), chunks)
  {
    if chunks != [] {
      ConcatSpells(Front(chunks));
      SpellsSnoc(Concat(Front(chunks)), Front(chunks), Last(chunks));
      assert chunks == Front(chunks) + [Last(chunks)];
    }
  }

  lemma {:induction false} ConcatAppend(a: seq<string>, b: seq<string>)
    ensures Concat(a + b) == Concat(a) + Concat(b)
  {
    if b == [] {
      assert a + b == a;
    } else {
      ConcatAppend(a, Front(b));
      assert Front(a + b) == a + Front(b);
      Assoc(Concat(a), Concat(Front(b)), Last(b));
    }
  }

  function ChunkOf(): StreamEvent -> seq<string> {
    (e: StreamEvent) => match e case Text(s) => [s] case Usage(_, _, _) => []
  }

  function ChunksOf(events: seq<StreamEvent>): seq<string> {
    Collect(events, ChunkOf())
  }

  /** The chunks are the texts of the events, in order. */
  lemma ChunksAreTexts(a: seq<StreamEvent>, e: StreamEvent, b: seq<StreamEvent>)
    ensures ChunksOf(a + [e] + b) == ChunksOf(a) + (if e.Text? then [e.chunk] else []) + ChunksOf(b)
  {
    CollectAppend(a + [e], b, ChunkOf());
    CollectSnoc(a, e, ChunkOf());
  }

  /** The last usage report; a stream without one counts as zero tokens and "stop". */
  function UsageOf(events: seq<StreamEvent>): StreamEvent {
    if events == [] then Usage(0, 0, "stop")
    else if Last(events).Usage? then Last(events)
    else UsageOf(Front(events))
  }

  lemma {:induction false} UsageIsUsage(events: seq<StreamEvent>)
    ensures UsageOf(events).Usage?
  {
    if events != [] {
      UsageIsUsage(Front(events));
    }
  }

  /** These are the numbers of the last usage event, or zeros and "stop" if there is none. */
  predicate LastUsage(events: seq<StreamEvent>, tokensIn: nat, tokensOut: nat, finish: string) {
    || (exists i :: 0 <= i < |events| && events[i] == Usage(tokensIn, tokensOut, finish)
                    && forall j :: i < j < |events| ==> events[j].Text?)
    || (tokensIn == tokensOut == 0 && finish == "stop" && forall i :: 0 <= i < |events| ==> events[i].Text?)
  }

  lemma LastUsageLater(past: seq<StreamEvent>, e: StreamEvent, u: StreamEvent)
    requires u.Usage? && e.Text? && LastUsage(past, u.tokensIn, u.tokensOut, u.finish)
    ensures LastUsage(past + [e], u.tokensIn, u.tokensOut, u.finish)
  {
    var all := past + [e];
    assert forall j :: 0 <= j < |past| ==> all[j] == past[j];
    if i :| 0 <= i < |past| && past[i] == u && forall j :: i < j < |past| ==> past[j].Text? {
      assert all[i] == u && forall j :: i < j < |all| ==> all[j].Text?;
    }
  }

  lemma {:induction false} UsageIsLast(events: seq<StreamEvent>)
    ensures UsageOf(events).Usage?
    ensures var u := UsageOf(events); LastUsage(events, u.tokensIn, u.tokensOut, u.finish)
  {
    if events != [] {
      UsageIsLast(Front(events));
      if Last(events).Usage? {
        assert events[|events| - 1] == UsageOf(events);
      } else {
        LastUsageLater(Front(events), Last(events), UsageOf(events));
        assert events == Front(events) + [Last(events)];
      }
    }
  }

  function StreamAnswer(events: seq<StreamEvent>): Answer {
    UsageIsUsage(events);
    var u := UsageOf(events);
    Answer(Concat(ChunksOf(events)), u.tokensIn, u.tokensOut)
  }

  function StreamFinish(events: seq<StreamEvent>): string {
    UsageIsUsage(events);
    UsageOf(events).finish
  }

  function YieldOf(): string -> seq<Effect> {
    (chunk: string) => [Yielded(chunk)]
  }

  /** Handing the chunks to the caller. */
  function Yields(chunks: seq<string>): seq<Effect> {
    Collect(chunks, YieldOf())
  }

  // ----- one attempt at one backend -----

  datatype Verdict =
    | Refused                                   // circuit open
    | Failure(error: Error)                     // failed before any chunk
    | Broken(error: Error)                      // failed after a chunk
    | Success(answer: Answer, finish: string)

  datatype Attempt = Attempt(effects: seq<Effect>, verdict: Verdict)

  function Opening(b: Backend): seq<Effect> {
    [Allowed(b.id, true), Called(b)]
  }

  function Closing(b: Backend): seq<Effect> {
    [Answered(b, None), Recorded(b.id, false)]
  }

  function Try(env: Env, streaming: bool, h: History, b: Backend): Attempt {
    if !env.allow(h, b.id) then Attempt([Allowed(b.id, false)], Refused)
    else if !streaming then
      match env.complete(h + Opening(b), b)
      case Failed(e) => Attempt(Opening(b) + Closing(b), Failure(e))
      case Completed(a) => Attempt(Opening(b) + [Answered(b, Some(a))], Success(a, "stop"))
    else
      var run := env.stream(h + Opening(b), b);
      var chunks := ChunksOf(run.events);
      match run.error
      case None =>
        var a := StreamAnswer(run.events);
        Attempt(Opening(b) + Yields(chunks) + [Answered(b, Some(a))], Success(a, StreamFinish(run.events)))
      case Some(e) =>
        Attempt(Opening(b) + Yields(chunks) + Closing(b), if chunks == [] then Failure(e) else Broken(e))
  }

  function CallCost(b: Backend, a: Answer): real {
    b.costIn * a.tokensIn as real / 1000.0 + b.costOut * a.tokensOut as real / 1000.0
  }

  function BackendResult(b: Backend, a: Answer, finish: string): Result {
    Result(a, b.model, Some(finish), None, Some(b.name))
  }

  /** What follows a successful call. */
  function Commit(req: Request, streaming: bool, b: Backend, a: Answer, finish: string): seq<Effect> {
    [Recorded(b.id, true), Tracked(b.id)]
    + (if req.bypassCache then [] else [Cached(L1, a), Cached(L2, a)])
    + [Reconciled(a.tokensIn + a.tokensOut),
       Logged(LogRow(200, a.tokensIn, a.tokensOut, Some(b.id), None, CallCost(b, a), Some(finish)))]
    + (if streaming then [Finished(BackendResult(b, a, finish))] else [])
  }

  const Unavailable503 := Logged(LogRow(503, 0, 0, None, None, 0.0, None))

  // ----- the whole request -----

  datatype Run = Run(trace: seq<Effect>, outcome: Outcome)

  function After(effects: seq<Effect>, r: Run): Run {
    Run(effects + r.trace, r.outcome)
  }

  function Choose(env: Env, h: History, remaining: seq<Backend>): (b: Backend)
    requires Routes(env) && remaining != []
    ensures b in remaining
  {
    FirstWithId(remaining, env.select(h, remaining).id)
  }

  /** Failover goes on after a refusal or a failure before the first chunk. */
  predicate GoesOn(v: Verdict) {
    v.Refused? || v.Failure?
  }

  function Carry(v: Verdict, last: Option<Error>): Option<Error> {
    if v.Failure? then Some(v.error) else last
  }

  function Stop(req: Request, streaming: bool, b: Backend, t: Attempt): Run
    requires !GoesOn(t.verdict)
  {
    match t.verdict
    case Broken(e) => Run(t.effects, Raised(AllBackendsUnavailable(Some(e))))
    case Success(a, finish) =>
      Run(t.effects + Commit(req, streaming, b, a, finish), Returned(BackendResult(b, a, finish)))
  }

  /** The failover walk over the remaining candidates after the history h. */
  function Walk(env: Env, req: Request, streaming: bool, h: History, remaining: seq<Backend>, last: Option<Error>): Run
    requires Routes(env)
    decreases |remaining|
  {
    if remaining == [] then Run([Unavailable503], Raised(AllBackendsUnavailable(last)))
    else
      var b := Choose(env, h, remaining);
      var t := Try(env, streaming, h, b);
      WithoutShrinks(remaining, b);
      var rest := Without(remaining, b.id);
      if GoesOn(t.verdict) then
        After(t.effects, Walk(env, req, streaming, h + t.effects, rest, Carry(t.verdict, last)))
      else
        Stop(req, streaming, b, t)
  }

  function HitResult(req: Request, hit: Hit): Result {
    Result(hit.answer, req.model, None, Some(hit.tier), None)
  }

  function HitEffects(req: Request, streaming: bool, hit: Hit): seq<Effect> {
    var a := hit.answer;
    [Reconciled(a.tokensIn + a.tokensOut),
     Logged(LogRow(200, a.tokensIn, a.tokensOut, None, Some(hit.tier), 0.0, None))]
    + if streaming then [Yielded(a.content), Finished(HitResult(req, hit))] else []
  }

  /** The lookups that end in this hit, or in none: L1, and after a miss L2. */
  function Lookups(hit: Option<Hit>): seq<Effect> {
    match hit
    case Some(Hit(a, L1)) => [Looked(L1, Some(a))]
    case Some(Hit(a, L2)) => [Looked(L1, None), Looked(L2, Some(a))]
    case None => [Looked(L1, None), Looked(L2, None)]
  }

  /** What an admitted request does before the walk, and the hit it may find. */
  function Before(env: Env, req: Request): seq<Effect> {
    [Reserved(EstimateTokens(req.messages), true)] + if req.bypassCache then [] else Lookups(env.hit)
  }

  function Handle(env: Env, req: Request, streaming: bool): Run
    requires Routes(env)
  {
    if !env.admitted then Run([Reserved(EstimateTokens(req.messages), false)], Raised(RateLimitExceeded))
    else if !req.bypassCache && env.hit.Some? then
      Run(Before(env, req) + HitEffects(req, streaming, env.hit.value), Returned(HitResult(req, env.hit.value)))
    else if env.candidates == [] then Run(Before(env, req), Raised(NoBackendsAvailable))
    else After(Before(env, req), Walk(env, req, streaming, Before(env, req), env.candidates, None))
  }

  // ----- the loops -----

  /** A walk that goes on after a refused or failed attempt. */
  lemma WalkOn(env: Env, req: Request, streaming: bool, h: History, remaining: seq<Backend>, last: Option<Error>)
    requires Routes(env) && remaining != []
    ensures var b := Choose(env, h, remaining);
            var t := Try(env, streaming, h, b);
            var rest := Without(remaining, b.id);
            && |rest| < |remaining|
            && (GoesOn(t.verdict) ==>
                  After(h, Walk(env, req, streaming, h, remaining, last))
                  == After(h + t.effects, Walk(env, req, streaming, h + t.effects, rest, Carry(t.verdict, last))))
  {
    var b := Choose(env, h, remaining);
    var t := Try(env, streaming, h, b);
    WithoutShrinks(remaining, b);
    var rest := Without(remaining, b.id);
    AfterAfter(h, t.effects, Walk(env, req, streaming, h + t.effects, rest, Carry(t.verdict, last)));
  }

  lemma AssocFour(a: seq<Effect>, b: seq<Effect>, c: seq<Effect>, d: seq<Effect>)
    ensures a + b + c + d == a + (b + c + d)
  {
    Assoc(a, b, c);
    Assoc(a, b + c, d);
  }

  lemma AfterAfter(a: seq<Effect>, b: seq<Effect>, r: Run)
    ensures After(a, After(b, r)) == After(a + b, r)
  {
    assert a + (b + r.trace) == a + b + r.trace;
  }

  /** The bookkeeping after a successful call. */
  method Settle(req: Request, streaming: bool, b: Backend, a: Answer, finish: string, before: History)
    returns (trace: seq<Effect>, result: Result)
    ensures trace == before + Commit(req, streaming, b, a, finish) && result == BackendResult(b, a, finish)
  {
    trace := before + [Recorded(b.id, true), Tracked(b.id)];
    trace := trace + if req.bypassCache then [] else [Cached(L1, a), Cached(L2, a)];
    trace := trace + [Reconciled(a.tokensIn + a.tokensOut),
                      Logged(LogRow(200, a.tokensIn, a.tokensOut, Some(b.id), None, CallCost(b, a), Some(finish)))];
    result := Result(a, b.model, Some(finish), None, Some(b.name));
    trace := trace + if streaming then [Finished(result)] else [];
    assert trace == before + Commit(req, streaming, b, a, finish);
  }

  /** `handle_complete`. */
  method HandleComplete(env: Env, req: Request) returns (trace: seq<Effect>, outcome: Outcome)
    requires Routes(env)
    ensures Run(trace, outcome) == Handle(env, req, false)
  {
    var est := EstimateTokens(req.messages);
    trace := [Reserved(est, env.admitted)];
    if !env.admitted {
      return trace, Raised(RateLimitExceeded);
    }
    var hit := None;
    if !req.bypassCache {
      hit := env.hit;
      trace := trace + Lookups(hit);
    }
    assert trace == Before(env, req);
    if hit.Some? {
      var a := hit.value.answer;
      trace := trace + [Reconciled(a.tokensIn + a.tokensOut),
                        Logged(LogRow(200, a.tokensIn, a.tokensOut, None, Some(hit.value.tier), 0.0, None))];
      return trace, Returned(Result(a, req.model, None, Some(hit.value.tier), None));
    }
    if env.candidates == [] {
      return trace, Raised(NoBackendsAvailable);
    }
    trace, outcome := CompleteLoop(env, req, trace);
  }

  /** The body of the `try` in `handle_complete`: one allowed call and its end. */
  method CompleteCall(env: Env, h: History, b: Backend) returns (trace: seq<Effect>, verdict: Verdict)
    requires env.allow(h, b.id)
    ensures trace == h + Try(env, false, h, b).effects && verdict == Try(env, false, h, b).verdict
    ensures verdict.Failure? || verdict.Success?
  {
    trace := h + [Allowed(b.id, true), Called(b)];
    var completion := env.complete(trace, b);
    if completion.Failed? {
      trace := trace + [Answered(b, None), Recorded(b.id, false)];
      assert trace == h + (Opening(b) + Closing(b));
      return trace, Failure(completion.error);
    }
    trace := trace + [Answered(b, Some(completion.answer))];
    assert trace == h + (Opening(b) + [Answered(b, Some(completion.answer))]);
    return trace, Success(completion.answer, "stop");
  }

  /** The `while remaining` loop of `handle_complete`. */
  method CompleteLoop(env: Env, req: Request, before: History) returns (trace: seq<Effect>, outcome: Outcome)
    requires Routes(env)
    ensures Run(trace, outcome) == After(before, Walk(env, req, false, before, env.candidates, None))
  {
    trace := before;
    var remaining := env.candidates;
    var lastError: Option<Error> := None;
    while remaining != []
      invariant After(before, Walk(env, req, false, before, env.candidates, None))
             == After(trace, Walk(env, req, false, trace, remaining, lastError))
      decreases |remaining|
    {
      WalkOn(env, req, false, trace, remaining, lastError);
      ghost var h := trace;
      var chosen := env.select(trace, remaining);
      var backend := FirstWithId(remaining, chosen.id);
      remaining := Without(remaining, chosen.id);
      ghost var t := Try(env, false, h, backend);
      var ok := env.allow(trace, backend.id);
      if !ok {
        trace := trace + [Allowed(backend.id, false)];
        continue;
      }
      var verdict;
      trace, verdict := CompleteCall(env, trace, backend);
      match verdict
      case Failure(error) =>
        lastError := Some(error);
      case Success(a, finish) =>
        var result;
        trace, result := Settle(req, false, backend, a, finish, trace);
        Assoc(h, t.effects, Commit(req, false, backend, a, finish));
        return trace, Returned(result);
    }
    return trace + [Unavailable503], Raised(AllBackendsUnavailable(lastError));
  }

  lemma NextEvent(events: seq<StreamEvent>, i: nat)
    requires i < |events|
    ensures var past, next, e := events[..i], events[..i + 1], events[i];
            var chunks, handed := ChunksOf(past), Yields(ChunksOf(past));
            && ChunksOf(next) == (if e.Text? then chunks + [e.chunk] else chunks)
            && Yields(ChunksOf(next)) == (if e.Text? then handed + [Yielded(e.chunk)] else handed)
            && UsageOf(next) == (if e.Usage? then e else UsageOf(past))
  {
    var past, e := events[..i], events[i];
    assert events[..i + 1] == past + [e];
    CollectSnoc(past, e, ChunkOf());
    if e.Text? {
      CollectSnoc(ChunksOf(past), e.chunk, YieldOf());
    }
    assert Front(past + [e]) == past;
  }

  /** The `async for event in client.stream(...)` loop: pass chunks on, keep the last usage. */
  method Consume(events: seq<StreamEvent>, before: History)
    returns (trace: seq<Effect>, accumulated: seq<string>, usage: Option<StreamEvent>, anyYielded: bool)
    ensures trace == before + Yields(ChunksOf(events))
    ensures accumulated == ChunksOf(events) && anyYielded == (ChunksOf(events) != [])
    ensures UsageOf(events) == if usage.Some? then usage.value else Usage(0, 0, "stop")
  {
    trace, accumulated, usage, anyYielded := before, [], None, false;
    for i := 0 to |events|
      invariant trace == before + Yields(ChunksOf(events[..i]))
      invariant accumulated == ChunksOf(events[..i]) && anyYielded == (accumulated != [])
      invariant UsageOf(events[..i]) == if usage.Some? then usage.value else Usage(0, 0, "stop")
    {
      NextEvent(events, i);
      var event := events[i];
      if event.Usage? {
        usage := Some(event);
      } else {
        accumulated := accumulated + [event.chunk];
        anyYielded := true;
        Assoc(before, Yields(ChunksOf(events[..i])), [Yielded(event.chunk)]);
        trace := trace + [Yielded(event.chunk)];
      }
    }
    assert events[..|events|] == events;
  }

  /** `"".join(accumulated)`. */
  method Join(chunks: seq<string>) returns (content: string)
    ensures content == Concat(chunks) && Spells(content, chunks)
  {
    content := [];
    for i := 0 to |chunks|
      invariant content == Concat(chunks[..i])
    {
      assert Front(chunks[..i + 1]) == chunks[..i];
      content := content + chunks[i];
    }
    assert chunks[..|chunks|] == chunks;
    ConcatSpells(chunks);
  }

  /** `handle_stream`; the trace holds what the generator yields. */
  method HandleStream(env: Env, req: Request) returns (trace: seq<Effect>, outcome: Outcome)
    requires Routes(env)
    ensures Run(trace, outcome) == Handle(env, req, true)
  {
    var est := EstimateTokens(req.messages);
    trace := [Reserved(est, env.admitted)];
    if !env.admitted {
      return trace, Raised(RateLimitExceeded);
    }
    var hit := None;
    if !req.bypassCache {
      hit := env.hit;
      trace := trace + Lookups(hit);
    }
    assert trace == Before(env, req);
    if hit.Some? {
      var a := hit.value.answer;
      var result := Result(a, req.model, None, Some(hit.value.tier), None);
      trace := trace + [Reconciled(a.tokensIn + a.tokensOut),
                        Logged(LogRow(200, a.tokensIn, a.tokensOut, None, Some(hit.value.tier), 0.0, None)),
                        Yielded(a.content), Finished(result)];
      return trace, Returned(result);
    }
    if env.candidates == [] {
      return trace, Raised(NoBackendsAvailable);
    }
    trace, outcome := StreamLoop(env, req, trace);
  }

  /** The body of the `try` in `handle_stream`: one allowed call, its chunks and its end. */
  method StreamCall(env: Env, h: History, b: Backend) returns (trace: seq<Effect>, verdict: Verdict)
    requires env.allow(h, b.id)
    ensures trace == h + Try(env, true, h, b).effects && verdict == Try(env, true, h, b).verdict
    ensures !verdict.Refused?
  {
    trace := h + [Allowed(b.id, true), Called(b)];
    var run := env.stream(trace, b);
    var accumulated, usage, anyYielded;
    ghost var chunks := ChunksOf(run.events);
    trace, accumulated, usage, anyYielded := Consume(run.events, trace);
    if run.error.Some? {
      trace := trace + [Answered(b, None), Recorded(b.id, false)];
      AssocFour(h, Opening(b), Yields(chunks), Closing(b));
      return trace, if anyYielded then Broken(run.error.value) else Failure(run.error.value);
    }
    var content := Join(accumulated);
    UsageIsUsage(run.events);
    var tokensIn := if usage.Some? then usage.value.tokensIn else 0;
    var tokensOut := if usage.Some? then usage.value.tokensOut else 0;
    var finish := if usage.Some? then usage.value.finish else "stop";
    var a := Answer(content, tokensIn, tokensOut);
    trace := trace + [Answered(b, Some(a))];
    AssocFour(h, Opening(b), Yields(chunks), [Answered(b, Some(a))]);
    return trace, Success(a, finish);
  }

  /** The `while remaining` loop of `handle_stream`. */
  method StreamLoop(env: Env, req: Request, before: History) returns (trace: seq<Effect>, outcome: Outcome)
    requires Routes(env)
    ensures Run(trace, outcome) == After(before, Walk(env, req, true, before, env.candidates, None))
  {
    trace := before;
    var remaining := env.candidates;
    var lastError: Option<Error> := None;
    while remaining != []
      invariant After(before, Walk(env, req, true, before, env.candidates, None))
             == After(trace, Walk(env, req, true, trace, remaining, lastError))
      decreases |remaining|
    {
      WalkOn(env, req, true, trace, remaining, lastError);
      ghost var h := trace;
      var chosen := env.select(trace, remaining);
      var backend := FirstWithId(remaining, chosen.id);
      remaining := Without(remaining, chosen.id);
      ghost var t := Try(env, true, h, backend);
      var ok := env.allow(trace, backend.id);
      if !ok {
        trace := trace + [Allowed(backend.id, false)];
        continue;
      }
      var verdict;
      trace, verdict := StreamCall(env, trace, backend);
      match verdict
      case Failure(error) =>
        lastError := Some(error);
      case Broken(error) =>
        return trace, Raised(AllBackendsUnavailable(Some(error)));
      case Success(a, finish) =>
        var result;
        trace, result := Settle(req, true, backend, a, finish, trace);
        Assoc(h, t.effects, Commit(req, true, backend, a, finish));
        return trace, Returned(result);
    }
    return trace + [Unavailable503], Raised(AllBackendsUnavailable(lastError));
  }
}
