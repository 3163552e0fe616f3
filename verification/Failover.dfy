/**
 What the failover walk guarantees, for every policy, breaker and backend behaviour:
 each candidate is examined at most once, the first success wins, and the walk gives
 up exactly when every candidate was refused or failed.
 */
module Failover {
  import opened Common
  import opened Routing
  import opened TwoTierCache
  import opened Orchestrator

  // ----- what is counted -----

  function Examines(id: BackendId): Effect -> int {
    (e: Effect) => if e.Allowed? && e.id == id then 1 else 0
  }

  function Grants(id: BackendId): Effect -> int {
    (e: Effect) => if e == Allowed(id, true) then 1 else 0
  }

  function Calls(id: BackendId): Effect -> int {
    (e: Effect) => if e.Called? && e.backend.id == id then 1 else 0
  }

  function Records(id: BackendId): Effect -> int {
    (e: Effect) => if e.Recorded? && e.id == id then 1 else 0
  }

  // ----- one attempt -----

  lemma {:induction false} YieldsAreYields(chunks: seq<string>)
    ensures forall e :: e in Yields(chunks) ==> e.Yielded?
    ensures |Yields(chunks)| == |chunks|
  {
    if chunks != [] {
      YieldsAreYields(Front(chunks));
    }
  }

  /** An allowed attempt is its opening, the chunks it delivers, and its end. */
  lemma TryParts(env: Env, streaming: bool, h: History, b: Backend) returns (middle: seq<Effect>, end: seq<Effect>)
    requires env.allow(h, b.id)
    ensures var t := Try(env, streaming, h, b);
            && t.effects == Opening(b) + middle + end && !t.verdict.Refused?
            && end == (if t.verdict.Success? then [Answered(b, Some(t.verdict.answer))] else Closing(b))
            && (GoesOn(t.verdict) || !streaming ==> middle == []) && (t.verdict.Broken? ==> middle != [])
    ensures forall e :: e in middle ==> e.Yielded?
  {
    var t := Try(env, streaming, h, b);
    var chunks := ChunksOf(env.stream(h + Opening(b), b).events);
    YieldsAreYields(chunks);
    middle := if streaming then Yields(chunks) else [];
    end := if t.verdict.Success? then [Answered(b, Some(t.verdict.answer))] else Closing(b);
    assert Opening(b) + [] == Opening(b);
  }

  /** The effects are about b alone and say how the attempt went. */
  ghost predicate Shaped(effects: seq<Effect>, b: Backend, v: Verdict) {
    && (forall e :: e in effects ==>
          || e == Allowed(b.id, !v.Refused?) || e == Called(b) || e.Yielded?
          || e == Answered(b, if v.Success? then Some(v.answer) else None)
          || e == Recorded(b.id, false))
    && (v.Refused? <==> Allowed(b.id, false) in effects)
    && (v.Refused? <==> Called(b) !in effects)
    && (v.Failure? || v.Broken? <==> Answered(b, None) in effects)
    && (v.Success? ==> Answered(b, Some(v.answer)) in effects)
  }

  lemma PartsAreShaped(b: Backend, middle: seq<Effect>, end: seq<Effect>, v: Verdict)
    requires !v.Refused? && forall e :: e in middle ==> e.Yielded?
    requires end == if v.Success? then [Answered(b, Some(v.answer))] else Closing(b)
    ensures Shaped(Opening(b) + middle + end, b, v)
  {
    var effects := Opening(b) + middle + end;
    assert effects[1] == Called(b);
    assert end[0] in end && end[0] in effects;
    assert forall e :: e in effects <==> e in Opening(b) || e in middle || e in end;
  }

  lemma TryShape(env: Env, streaming: bool, h: History, b: Backend)
    ensures var t := Try(env, streaming, h, b);
            && Shaped(t.effects, b, t.verdict)
            && (GoesOn(t.verdict) || !streaming ==> forall e :: e in t.effects ==> !e.Yielded?)
            && (t.verdict.Broken? ==> exists e :: e in t.effects && e.Yielded?)
  {
    if env.allow(h, b.id) {
      var middle, end := TryParts(env, streaming, h, b);
      PartsAreShaped(b, middle, end, Try(env, streaming, h, b).verdict);
      YieldsOfParts(b, middle, end);
    }
  }

  lemma YieldsOfParts(b: Backend, middle: seq<Effect>, end: seq<Effect>)
    requires (forall e :: e in middle ==> e.Yielded?) && forall e :: e in end ==> !e.Yielded?
    ensures (exists e :: e in Opening(b) + middle + end && e.Yielded?) <==> middle != []
  {
    if middle != [] {
      assert middle[0] in Opening(b) + middle + end;
    }
  }

  /** How often one attempt examines, is granted, calls and records a backend. */
  ghost predicate CountsAre(trace: seq<Effect>, id: BackendId, examined: int, called: int, recorded: int) {
    && Total(trace, Examines(id)) == examined
    && Total(trace, Grants(id)) == called
    && Total(trace, Calls(id)) == called
    && Total(trace, Records(id)) == recorded
  }

  lemma TryCounts(env: Env, streaming: bool, h: History, b: Backend, id: BackendId)
    ensures var t := Try(env, streaming, h, b);
            var one := if id == b.id then 1 else 0;
            var called := if t.verdict.Refused? then 0 else one;
            CountsAre(t.effects, id, one, called, if t.verdict.Success? then 0 else called)
  {
    if env.allow(h, b.id) {
      var middle, end := TryParts(env, streaming, h, b);
      AttemptCounts(b, middle, end, id);
    } else {
      TotalOne(Allowed(b.id, false), Examines(id));
      TotalOne(Allowed(b.id, false), Grants(id));
      TotalOne(Allowed(b.id, false), Calls(id));
      TotalOne(Allowed(b.id, false), Records(id));
    }
  }

  lemma AttemptCounts(b: Backend, middle: seq<Effect>, end: seq<Effect>, id: BackendId)
    requires forall e :: e in middle ==> e.Yielded?
    requires (|end| == 1 && end[0].Answered?) || end == Closing(b)
    ensures var one := if id == b.id then 1 else 0;
            CountsAre(Opening(b) + middle + end, id, one, one, if |end| == 1 then 0 else one)
  {
    TotalOfAttempt(b, middle, end, Examines(id));
    TotalOfAttempt(b, middle, end, Grants(id));
    TotalOfAttempt(b, middle, end, Calls(id));
    TotalOfAttempt(b, middle, end, Records(id));
  }

  lemma TotalOfAttempt(b: Backend, middle: seq<Effect>, end: seq<Effect>, f: Effect -> int)
    requires 1 <= |end| <= 2
    requires forall e :: e in middle ==> f(e) == 0
    ensures Total(Opening(b) + middle + end, f)
         == f(Allowed(b.id, true)) + f(Called(b)) + f(end[0]) + if |end| == 2 then f(end[1]) else 0
  {
    TotalAppend(Opening(b) + middle, end, f);
    TotalAppend(Opening(b), middle, f);
    TotalZero(middle, f);
    TotalAppend([Allowed(b.id, true)], [Called(b)], f);
    TotalOne(Allowed(b.id, true), f);
    TotalOne(Called(b), f);
    TotalOne(end[0], f);
    if |end| == 2 {
      TotalAppend([end[0]], [end[1]], f);
      TotalOne(end[1], f);
      assert end == [end[0]] + [end[1]];
    } else {
      assert end == [end[0]];
    }
  }

  lemma CommitKinds(req: Request, streaming: bool, b: Backend, a: Answer, finish: string)
    ensures var c := Commit(req, streaming, b, a, finish);
            && c[0] == Recorded(b.id, true)
            && (forall i :: 1 <= i < |c| ==> !c[i].Recorded?)
            && (forall e :: e in c ==> !e.Allowed? && !e.Called? && !e.Answered? && !e.Yielded?)
  {
  }

  /** What follows a success touches the breaker once, for the backend that succeeded. */
  lemma CommitCounts(req: Request, streaming: bool, b: Backend, a: Answer, finish: string, id: BackendId)
    ensures var c := Commit(req, streaming, b, a, finish);
            && Total(c, Examines(id)) == Total(c, Grants(id)) == Total(c, Calls(id)) == 0
            && Total(c, Records(id)) == if id == b.id then 1 else 0
  {
    var c := Commit(req, streaming, b, a, finish);
    var first, rest := [Recorded(b.id, true)], c[1..];
    assert c == first + rest;
    CommitKinds(req, streaming, b, a, finish);
    TotalZero(c, Examines(id));
    TotalZero(c, Grants(id));
    TotalZero(c, Calls(id));
    TotalAppend(first, rest, Records(id));
    TotalOne(Recorded(b.id, true), Records(id));
    TotalZero(rest, Records(id));
  }

  // ----- the walk -----

  ghost predicate InList(remaining: seq<Backend>, id: BackendId) {
    exists b :: b in remaining && b.id == id
  }

  /** The backend is examined at most so often, called exactly when granted, and recorded once per call. */
  ghost predicate CountsRight(trace: seq<Effect>, id: BackendId, most: int) {
    && 0 <= Total(trace, Examines(id)) <= most
    && Total(trace, Calls(id)) == Total(trace, Grants(id)) == Total(trace, Records(id))
    && 0 <= Total(trace, Grants(id)) <= Total(trace, Examines(id))
  }

  lemma CountsAppend(a: seq<Effect>, b: seq<Effect>, id: BackendId, m: int, n: int)
    requires CountsRight(a, id, m) && CountsRight(b, id, n)
    ensures CountsRight(a + b, id, m + n)
  {
    TotalAppend(a, b, Examines(id));
    TotalAppend(a, b, Grants(id));
    TotalAppend(a, b, Calls(id));
    TotalAppend(a, b, Records(id));
  }

  lemma StopCounts(env: Env, req: Request, streaming: bool, h: History, b: Backend, id: BackendId)
    requires !GoesOn(Try(env, streaming, h, b).verdict)
    ensures CountsRight(Stop(req, streaming, b, Try(env, streaming, h, b)).trace, id, if id == b.id then 1 else 0)
  {
    var t := Try(env, streaming, h, b);
    TryCounts(env, streaming, h, b, id);
    if t.verdict.Success? {
      var c := Commit(req, streaming, b, t.verdict.answer, t.verdict.finish);
      CommitCounts(req, streaming, b, t.verdict.answer, t.verdict.finish, id);
      TotalAppend(t.effects, c, Examines(id));
      TotalAppend(t.effects, c, Grants(id));
      TotalAppend(t.effects, c, Calls(id));
      TotalAppend(t.effects, c, Records(id));
    }
  }

  /**
   Each candidate is examined at most once and no one else is; a call is made exactly for a granted
   examination; and each call is recorded exactly once, so a refused backend is not recorded at all.
   */
  lemma {:induction false} WalkCounts(env: Env, req: Request, streaming: bool, h: History,
                                      remaining: seq<Backend>, last: Option<Error>, id: BackendId)
    requires Routes(env)
    ensures CountsRight(Walk(env, req, streaming, h, remaining, last).trace, id, if InList(remaining, id) then 1 else 0)
    decreases |remaining|
  {
    if remaining == [] {
      TotalOne(Unavailable503, Examines(id));
      TotalOne(Unavailable503, Grants(id));
      TotalOne(Unavailable503, Calls(id));
      TotalOne(Unavailable503, Records(id));
    } else {
      var b := Choose(env, h, remaining);
      var t := Try(env, streaming, h, b);
      var rest := Without(remaining, b.id);
      WithoutShrinks(remaining, b);
      if GoesOn(t.verdict) {
        var w := Walk(env, req, streaming, h + t.effects, rest, Carry(t.verdict, last));
        TryCounts(env, streaming, h, b, id);
        WalkCounts(env, req, streaming, h + t.effects, rest, Carry(t.verdict, last), id);
        CountsAppend(t.effects, w.trace, id, if id == b.id then 1 else 0, if InList(rest, id) then 1 else 0);
      } else {
        StopCounts(env, req, streaming, h, b, id);
      }
    }
  }

  /** The candidate was refused by its breaker, or its call failed. */
  predicate Dismissed(trace: seq<Effect>, b: Backend) {
    Allowed(b.id, false) in trace || Answered(b, None) in trace
  }

  ghost predicate AnyYield(trace: seq<Effect>) {
    exists e :: e in trace && e.Yielded?
  }

  ghost predicate NamesOnly(trace: seq<Effect>, remaining: seq<Backend>) {
    forall e :: e in trace ==>
      && (e.Allowed? ==> InList(remaining, e.id))
      && (e.Called? || e.Answered? ==> e.backend in remaining)
  }

  lemma NamesAppend(a: seq<Effect>, b: seq<Effect>, remaining: seq<Backend>, rest: seq<Backend>)
    requires NamesOnly(a, remaining) && NamesOnly(b, rest) && forall x :: x in rest ==> x in remaining
    ensures NamesOnly(a + b, remaining)
  {
    forall id | InList(rest, id) ensures InList(remaining, id) {
    }
  }

  lemma TryNames(env: Env, streaming: bool, h: History, b: Backend, remaining: seq<Backend>)
    requires b in remaining
    ensures NamesOnly(Try(env, streaming, h, b).effects, remaining)
  {
    TryShape(env, streaming, h, b);
    assert InList(remaining, b.id);
  }

  lemma StopNames(env: Env, req: Request, streaming: bool, h: History, b: Backend, remaining: seq<Backend>)
    requires b in remaining && !GoesOn(Try(env, streaming, h, b).verdict)
    ensures NamesOnly(Stop(req, streaming, b, Try(env, streaming, h, b)).trace, remaining)
  {
    var t := Try(env, streaming, h, b);
    TryNames(env, streaming, h, b, remaining);
    if t.verdict.Success? {
      CommitKinds(req, streaming, b, t.verdict.answer, t.verdict.finish);
      NamesAppend(t.effects, Commit(req, streaming, b, t.verdict.answer, t.verdict.finish), remaining, remaining);
    }
  }

  /** Effects of a walk name only its candidates. */
  lemma {:induction false} WalkNamesCandidates(env: Env, req: Request, streaming: bool, h: History,
                                               remaining: seq<Backend>, last: Option<Error>)
    requires Routes(env)
    ensures NamesOnly(Walk(env, req, streaming, h, remaining, last).trace, remaining)
    decreases |remaining|
  {
    if remaining != [] {
      var b := Choose(env, h, remaining);
      var t := Try(env, streaming, h, b);
      var rest := Without(remaining, b.id);
      WithoutShrinks(remaining, b);
      if GoesOn(t.verdict) {
        var w := Walk(env, req, streaming, h + t.effects, rest, Carry(t.verdict, last));
        TryNames(env, streaming, h, b, remaining);
        WalkNamesCandidates(env, req, streaming, h + t.effects, rest, Carry(t.verdict, last));
        NamesAppend(t.effects, w.trace, remaining, rest);
      } else {
        StopNames(env, req, streaming, h, b, remaining);
      }
    }
  }

  /** How a walk ends. */
  ghost predicate EndsRightly(w: Run, remaining: seq<Backend>) {
    match w.outcome
    case Raised(e) =>
      && e.AllBackendsUnavailable?
      && (AnyYield(w.trace) || forall b :: b in remaining ==> Dismissed(w.trace, b))
      && (forall e :: e in w.trace && e.Answered? ==> e.got.None?)
    case Returned(r) =>
      exists b, finish :: b in remaining && r == BackendResult(b, r.answer, finish)
                          && Answered(b, Some(r.answer)) in w.trace && !Dismissed(w.trace, b)
  }

  lemma StopEndsRightly(env: Env, req: Request, streaming: bool, h: History, b: Backend, remaining: seq<Backend>)
    requires b in remaining && !GoesOn(Try(env, streaming, h, b).verdict)
    ensures EndsRightly(Stop(req, streaming, b, Try(env, streaming, h, b)), remaining)
  {
    var t := Try(env, streaming, h, b);
    TryShape(env, streaming, h, b);
    if t.verdict.Success? {
      var c := Commit(req, streaming, b, t.verdict.answer, t.verdict.finish);
      CommitKinds(req, streaming, b, t.verdict.answer, t.verdict.finish);
      var w := Stop(req, streaming, b, t);
      assert !Dismissed(w.trace, b);
    }
  }

  /** The effects are those of one refused or failed attempt at b. */
  ghost predicate Dismisses(front: seq<Effect>, b: Backend) {
    && Dismissed(front, b)
    && forall e :: e in front ==> (e.Allowed? ==> e.id == b.id) && (e.Answered? ==> e == Answered(b, None))
  }

  lemma TryDismisses(env: Env, streaming: bool, h: History, b: Backend)
    requires GoesOn(Try(env, streaming, h, b).verdict)
    ensures Dismisses(Try(env, streaming, h, b).effects, b)
  {
    TryShape(env, streaming, h, b);
  }

  lemma {:induction false} WalkEndsRightly(env: Env, req: Request, streaming: bool, h: History,
                                           remaining: seq<Backend>, last: Option<Error>)
    requires Routes(env) && DistinctIds(remaining)
    ensures EndsRightly(Walk(env, req, streaming, h, remaining, last), remaining)
    decreases |remaining|
  {
    if remaining != [] {
      var b := Choose(env, h, remaining);
      var t := Try(env, streaming, h, b);
      var rest := Without(remaining, b.id);
      WithoutShrinks(remaining, b);
      WithoutDistinct(remaining, b.id);
      if GoesOn(t.verdict) {
        var w := Walk(env, req, streaming, h + t.effects, rest, Carry(t.verdict, last));
        WalkEndsRightly(env, req, streaming, h + t.effects, rest, Carry(t.verdict, last));
        TryDismisses(env, streaming, h, b);
        GoingOnEndsRightly(t.effects, w, b, remaining);
      } else {
        StopEndsRightly(env, req, streaming, h, b, remaining);
      }
    }
  }

  lemma GoingOnEndsRightly(front: seq<Effect>, w: Run, b: Backend, remaining: seq<Backend>)
    requires DistinctIds(remaining) && b in remaining && Dismisses(front, b)
    requires EndsRightly(w, Without(remaining, b.id))
    ensures EndsRightly(After(front, w), remaining)
  {
    var rest := Without(remaining, b.id);
    match w.outcome
    case Raised(_) =>
      if AnyYield(w.trace) {
        var e :| e in w.trace && e.Yielded?;
        assert e in front + w.trace;
      } else {
        forall x | x in remaining ensures Dismissed(front + w.trace, x) {
          if x.id == b.id {
            SameIdSame(remaining, x, b);
          }
        }
      }
    case Returned(r) =>
      var x, finish :| x in rest && r == BackendResult(x, r.answer, finish)
                       && Answered(x, Some(r.answer)) in w.trace && !Dismissed(w.trace, x);
      assert !Dismissed(front, x);
      assert !Dismissed(front + w.trace, x);
  }

  lemma {:induction false} CompleteNeverYields(env: Env, req: Request, h: History,
                                               remaining: seq<Backend>, last: Option<Error>)
    requires Routes(env)
    ensures !AnyYield(Walk(env, req, false, h, remaining, last).trace)
    decreases |remaining|
  {
    if remaining != [] {
      var b := Choose(env, h, remaining);
      var t := Try(env, false, h, b);
      WithoutShrinks(remaining, b);
      if GoesOn(t.verdict) {
        var w := Walk(env, req, false, h + t.effects, Without(remaining, b.id), Carry(t.verdict, last));
        CompleteNeverYields(env, req, h + t.effects, Without(remaining, b.id), Carry(t.verdict, last));
        TryNeverYields(env, h, b);
      } else {
        StopNeverYields(env, req, h, b);
      }
    }
  }

  lemma TryNeverYields(env: Env, h: History, b: Backend)
    ensures !AnyYield(Try(env, false, h, b).effects)
  {
    TryShape(env, false, h, b);
  }

  lemma StopNeverYields(env: Env, req: Request, h: History, b: Backend)
    requires !GoesOn(Try(env, false, h, b).verdict)
    ensures !AnyYield(Stop(req, false, b, Try(env, false, h, b)).trace)
  {
    var t := Try(env, false, h, b);
    TryNeverYields(env, h, b);
    if t.verdict.Success? {
      CommitKinds(req, false, b, t.verdict.answer, t.verdict.finish);
    }
  }

  /**
   The non-streaming walk raises AllBackendsUnavailable exactly when every candidate was refused or
   failed; otherwise it returns what a candidate that was neither refused nor failed answered.
   */
  lemma FailoverIsExhaustive(env: Env, req: Request, h: History, candidates: seq<Backend>, last: Option<Error>)
    requires Routes(env) && DistinctIds(candidates)
    ensures var w := Walk(env, req, false, h, candidates, last);
            && (w.outcome.Raised? <==> forall b :: b in candidates ==> Dismissed(w.trace, b))
            && (w.outcome.Raised? ==> w.outcome.exception.AllBackendsUnavailable?)
            && (w.outcome.Returned? ==> EndsRightly(w, candidates))
  {
    WalkEndsRightly(env, req, false, h, candidates, last);
    CompleteNeverYields(env, req, h, candidates, last);
  }

  /**
   `handle_complete` raises AllBackendsUnavailable exactly when it reaches the walk and every candidate is
   dismissed.
   */
  lemma CompleteGivesUpExactly(env: Env, req: Request)
    requires Routes(env) && DistinctIds(env.candidates)
    ensures var r := Handle(env, req, false);
            (r.outcome.Raised? && r.outcome.exception.AllBackendsUnavailable?)
            <==> (env.admitted && (req.bypassCache || env.hit.None?) && env.candidates != []
                  && forall b :: b in env.candidates ==> Dismissed(r.trace, b))
  {
    if env.admitted && (req.bypassCache || env.hit.None?) && env.candidates != [] {
      FailoverIsExhaustive(env, req, Before(env, req), env.candidates, None);
      BeforeDismissesNone(env, req, Walk(env, req, false, Before(env, req), env.candidates, None).trace);
    } else {
      NoWalkAllowsNone(env, req, false);
    }
  }

  lemma BeforeDismissesNone(env: Env, req: Request, trace: seq<Effect>)
    ensures forall b :: Dismissed(Before(env, req) + trace, b) <==> Dismissed(trace, b)
  {
    var h := Before(env, req);
    assert forall e :: e in h ==> !e.Allowed? && !e.Answered?;
  }

  /** Nothing is examined or called after the first answer. */
  ghost predicate FirstAnswerWins(trace: seq<Effect>) {
    forall i, j :: 0 <= i < j < |trace| && trace[i].Answered? && trace[i].got.Some? ==>
      !trace[j].Allowed? && !trace[j].Called? && !trace[j].Answered?
  }

  lemma {:induction false} FirstSuccessWins(env: Env, req: Request, streaming: bool, h: History,
                                            remaining: seq<Backend>, last: Option<Error>)
    requires Routes(env)
    ensures FirstAnswerWins(Walk(env, req, streaming, h, remaining, last).trace)
    decreases |remaining|
  {
    if remaining != [] {
      var b := Choose(env, h, remaining);
      var t := Try(env, streaming, h, b);
      WithoutShrinks(remaining, b);
      TryShape(env, streaming, h, b);
      if GoesOn(t.verdict) {
        FirstSuccessWins(env, req, streaming, h + t.effects, Without(remaining, b.id), Carry(t.verdict, last));
        var tail := Walk(env, req, streaming, h + t.effects, Without(remaining, b.id), Carry(t.verdict, last)).trace;
        forall i | 0 <= i < |t.effects| ensures !(t.effects[i].Answered? && t.effects[i].got.Some?) {
          assert t.effects[i] in t.effects;
        }
        AnswerInTail(t.effects, tail);
      } else if t.verdict.Success? {
        var c := Commit(req, streaming, b, t.verdict.answer, t.verdict.finish);
        CommitKinds(req, streaming, b, t.verdict.answer, t.verdict.finish);
        AnswerEndsAttempt(env, streaming, h, b);
        NothingAfterAnswer(t.effects, c);
      } else {
        forall i | 0 <= i < |t.effects| ensures !(t.effects[i].Answered? && t.effects[i].got.Some?) {
          assert t.effects[i] in t.effects;
        }
      }
    }
  }

  lemma AnswerInTail(front: seq<Effect>, tail: seq<Effect>)
    requires forall i :: 0 <= i < |front| ==> !(front[i].Answered? && front[i].got.Some?)
    requires FirstAnswerWins(tail)
    ensures FirstAnswerWins(front + tail)
  {
    var all := front + tail;
    assert forall k :: 0 <= k < |front| ==> all[k] == front[k];
    forall i, j | 0 <= i < j < |all| && all[i].Answered? && all[i].got.Some?
      ensures !all[j].Allowed? && !all[j].Called? && !all[j].Answered?
    {
      assert i >= |front|;
      assert all[i] == tail[i - |front|] && all[j] == tail[j - |front|];
    }
  }

  lemma AnswerEndsAttempt(env: Env, streaming: bool, h: History, b: Backend)
    requires Try(env, streaming, h, b).verdict.Success?
    ensures var t := Try(env, streaming, h, b).effects;
            t != [] && forall i :: 0 <= i < |t| - 1 ==> !t[i].Answered?
  {
    YieldsAreYields(ChunksOf(env.stream(h + Opening(b), b).events));
    var y := Yields(ChunksOf(env.stream(h + Opening(b), b).events));
    forall i | 0 <= i < |y| ensures y[i].Yielded? {
      assert y[i] in y;
    }
  }

  lemma NothingAfterAnswer(t: seq<Effect>, c: seq<Effect>)
    requires forall i :: 0 <= i < |t| - 1 ==> !t[i].Answered?
    requires forall e :: e in c ==> !e.Allowed? && !e.Called? && !e.Answered?
    ensures FirstAnswerWins(t + c)
  {
    var all := t + c;
    forall i, j | 0 <= i < j < |all| && all[i].Answered? && all[i].got.Some?
      ensures !all[j].Allowed? && !all[j].Called? && !all[j].Answered?
    {
      assert j >= |t|;
      assert all[j] in c;
    }
  }

  // ----- the order of examination -----

  function ExaminedBy(): Effect -> seq<BackendId> {
    (e: Effect) => if e.Allowed? then [e.id] else []
  }

  /** The backends put to their breakers, in order. */
  function Examined(trace: seq<Effect>): seq<BackendId> {
    Collect(trace, ExaminedBy())
  }

  lemma TryExaminesOne(env: Env, streaming: bool, h: History, b: Backend)
    ensures Examined(Try(env, streaming, h, b).effects) == [b.id]
  {
    if env.allow(h, b.id) {
      var middle, end := TryParts(env, streaming, h, b);
      AttemptExamines(b, middle, end);
    } else {
      CollectOne(Allowed(b.id, false), ExaminedBy());
    }
  }

  lemma AttemptExamines(b: Backend, middle: seq<Effect>, end: seq<Effect>)
    requires (forall e :: e in middle ==> !e.Allowed?) && (forall e :: e in end ==> !e.Allowed?)
    ensures Examined(Opening(b) + middle + end) == [b.id]
  {
    CollectAppend(Opening(b) + middle, end, ExaminedBy());
    CollectAppend(Opening(b), middle, ExaminedBy());
    CollectNone(middle, ExaminedBy());
    CollectNone(end, ExaminedBy());
    ExaminesFirst(Allowed(b.id, true), [Called(b)]);
    assert Opening(b) == [Allowed(b.id, true)] + [Called(b)];
  }

  lemma ExaminesFirst(first: Effect, rest: seq<Effect>)
    requires first.Allowed? && forall e :: e in rest ==> !e.Allowed?
    ensures Examined([first] + rest) == [first.id]
  {
    CollectAppend([first], rest, ExaminedBy());
    CollectOne(first, ExaminedBy());
    CollectNone(rest, ExaminedBy());
  }

  function Ids(s: seq<Backend>): seq<BackendId> {
    if s == [] then [] else [s[0].id] + Ids(s[1..])
  }

  /** The policy of this environment does not depend on the history (its data is fixed for the request). */
  ghost predicate SteadyPolicy(env: Env, select: seq<Backend> --> Backend) {
    forall h: History, c: seq<Backend> :: c != [] ==>
      select.requires(c) && env.select.requires(h, c) && env.select(h, c) == select(c)
  }

  /**
   With a policy that is steady during the request, the walk examines the candidates in the policy's
   visiting order: a prefix of it, and all of it when every candidate is dismissed.
   */
  lemma {:induction false} WalkFollowsVisitOrder(env: Env, req: Request, streaming: bool, h: History,
                                                 remaining: seq<Backend>, last: Option<Error>,
                                                 select: seq<Backend> --> Backend)
    requires Routes(env) && Picks(select) && SteadyPolicy(env, select) && DistinctIds(remaining)
    ensures var w := Walk(env, req, streaming, h, remaining, last);
            var order := Ids(VisitOrder(remaining, select));
            && Examined(w.trace) <= order
            && (w.outcome.Raised? && !AnyYield(w.trace) ==> Examined(w.trace) == order)
    decreases |remaining|
  {
    if remaining == [] {
      CollectNone([Unavailable503], ExaminedBy());
    } else {
      var b := Choose(env, h, remaining);
      var t := Try(env, streaming, h, b);
      var rest := Without(remaining, b.id);
      WithoutShrinks(remaining, b);
      WithoutDistinct(remaining, b.id);
      VisitsChosenFirst(env, h, remaining, select);
      if GoesOn(t.verdict) {
        TryExaminesOne(env, streaming, h, b);
        WalkFollowsVisitOrder(env, req, streaming, h + t.effects, rest, Carry(t.verdict, last), select);
        FollowsFurther(t.effects, Walk(env, req, streaming, h + t.effects, rest, Carry(t.verdict, last)), b.id,
                       Ids(VisitOrder(rest, select)));
      } else {
        StopExaminesOne(env, req, streaming, h, b);
      }
    }
  }

  lemma StopExaminesOne(env: Env, req: Request, streaming: bool, h: History, b: Backend)
    requires !GoesOn(Try(env, streaming, h, b).verdict)
    ensures var r := Stop(req, streaming, b, Try(env, streaming, h, b));
            Examined(r.trace) == [b.id] && (r.outcome.Raised? ==> AnyYield(r.trace))
  {
    var t := Try(env, streaming, h, b);
    TryExaminesOne(env, streaming, h, b);
    TryShape(env, streaming, h, b);
    if t.verdict.Success? {
      var c := Commit(req, streaming, b, t.verdict.answer, t.verdict.finish);
      CommitKinds(req, streaming, b, t.verdict.answer, t.verdict.finish);
      CollectAppend(t.effects, c, ExaminedBy());
      CollectNone(c, ExaminedBy());
    }
  }

  lemma VisitsChosenFirst(env: Env, h: History, remaining: seq<Backend>, select: seq<Backend> --> Backend)
    requires Routes(env) && Picks(select) && SteadyPolicy(env, select) && DistinctIds(remaining) && remaining != []
    ensures var b := Choose(env, h, remaining);
            Ids(VisitOrder(remaining, select)) == [b.id] + Ids(VisitOrder(Without(remaining, b.id), select))
  {
    var b, chosen := Choose(env, h, remaining), select(remaining);
    assert env.select(h, remaining) == chosen && chosen in remaining;
    SameIdSame(remaining, b, chosen);
    var later := VisitOrder(Without(remaining, b.id), select);
    WithoutShrinks(remaining, b);
    assert VisitOrder(remaining, select) == [b] + later;
    assert ([b] + later)[1..] == later;
  }

  lemma FollowsFurther(front: seq<Effect>, w: Run, id: BackendId, order: seq<BackendId>)
    requires Examined(front) == [id] && Examined(w.trace) <= order
    requires w.outcome.Raised? && !AnyYield(w.trace) ==> Examined(w.trace) == order
    ensures var r := After(front, w);
            && Examined(r.trace) <= [id] + order
            && (r.outcome.Raised? && !AnyYield(r.trace) ==> Examined(r.trace) == [id] + order)
  {
    CollectAppend(front, w.trace, ExaminedBy());
    if AnyYield(w.trace) {
      var e :| e in w.trace && e.Yielded?;
      assert e in front + w.trace;
    }
  }

  /** What a request examines, against the order that its policy prescribes. */
  ghost predicate ExaminesInOrder(r: Run, order: seq<BackendId>) {
    && Examined(r.trace) <= order
    && (r.outcome.Raised? && r.outcome.exception.AllBackendsUnavailable? && !AnyYield(r.trace) ==>
          Examined(r.trace) == order)
  }

  lemma RequestFollowsVisitOrder(env: Env, req: Request, streaming: bool, select: seq<Backend> --> Backend)
    requires Routes(env) && Picks(select) && SteadyPolicy(env, select) && DistinctIds(env.candidates)
    ensures ExaminesInOrder(Handle(env, req, streaming), Ids(VisitOrder(env.candidates, select)))
  {
    if env.admitted && (req.bypassCache || env.hit.None?) && env.candidates != [] {
      var h := Before(env, req);
      NoneExamined(h);
      WalkFollowsVisitOrder(env, req, streaming, h, env.candidates, None, select);
      InOrderLater(h, Walk(env, req, streaming, h, env.candidates, None), Ids(VisitOrder(env.candidates, select)));
    } else {
      NoWalkAllowsNone(env, req, streaming);
      NoneExamined(Handle(env, req, streaming).trace);
    }
  }

  lemma NoneExamined(trace: seq<Effect>)
    requires forall e :: e in trace ==> !e.Allowed?
    ensures Examined(trace) == []
  {
    CollectNone(trace, ExaminedBy());
  }

  lemma NoWalkAllowsNone(env: Env, req: Request, streaming: bool)
    requires Routes(env) && !(env.admitted && (req.bypassCache || env.hit.None?) && env.candidates != [])
    ensures var r := Handle(env, req, streaming);
            && (forall e :: e in r.trace ==> !e.Allowed?)
            && (r.outcome.Raised? ==> !r.outcome.exception.AllBackendsUnavailable?)
  {
  }

  lemma InOrderLater(front: seq<Effect>, w: Run, order: seq<BackendId>)
    requires Examined(front) == [] && Examined(w.trace) <= order
    requires w.outcome.Raised? && !AnyYield(w.trace) ==> Examined(w.trace) == order
    ensures ExaminesInOrder(After(front, w), order)
  {
    CollectAppend(front, w.trace, ExaminedBy());
    if AnyYield(w.trace) {
      var e :| e in w.trace && e.Yielded?;
      assert e in front + w.trace;
    }
  }

  /** Under the latency policy a request examines backends without data first, then the fastest, ties as listed. */
  lemma LatencyRequestIsSorted(env: Env, req: Request, streaming: bool, p95: BackendId -> Option<real>)
    requires Routes(env) && SteadyPolicy(env, LatencyPolicy(p95)) && DistinctIds(env.candidates)
    ensures exists v :: FastestFirst(env.candidates, v, p95) && ExaminesInOrder(Handle(env, req, streaming), Ids(v))
  {
    LatencyVisitsFastestFirst(env.candidates, p95);
    RequestFollowsVisitOrder(env, req, streaming, LatencyPolicy(p95));
  }

  /** Under the cost policy a short prompt examines cheapest first, a long one exactly the other way round. */
  lemma CostRequestIsSorted(env: Env, req: Request, streaming: bool, threshold: real)
    requires Routes(env) && SteadyPolicy(env, CostPolicy(EstimateComplexity(req.messages), threshold))
    requires DistinctIds(env.candidates)
    ensures exists v :: ByCost(env.candidates, v, EstimateComplexity(req.messages) < threshold)
                        && ExaminesInOrder(Handle(env, req, streaming), Ids(v))
  {
    var complexity := EstimateComplexity(req.messages);
    CostVisitsByCost(env.candidates, complexity, threshold);
    RequestFollowsVisitOrder(env, req, streaming, CostPolicy(complexity, threshold));
  }
}
