/**
 What the expiry of a limiter key can change: the run is compared with the same run on a
 key that never expires, over everything that may still happen to the key.
 */
module LimiterExpiry {
  import opened Common
  import opened TokenWindow
  import MemberCodec
  import RateLimiter

  /** The same run on a key whose expiry never takes effect. */
  function PersistentRun(ops: seq<Op>): Key {
    if ops == [] then Absent
    else if Last(ops).Expire? then PersistentRun(Front(ops))
    else Step(PersistentRun(Front(ops)), Last(ops))
  }

  /** How the expiring key `a` stays related to the never-expiring key `b` up to time `now`. */
  predicate SameFrom(a: Key, b: Key, now: int, window: int) {
    && Trim(a.entries, now - window) == Trim(b.entries, now - window)
    && (a.entries != [] ==> a.expireAt.Some?)
    && (a.entries != [] ==> forall e :: e in b.entries ==> e.score <= a.expireAt.value - window)
  }

  lemma SameFromLater(a: Key, b: Key, now: int, later: int, window: int)
    requires SameFrom(a, b, now, window) && now <= later
    ensures SameFrom(a, b, later, window)
  {
    TrimTrim(a.entries, now - window, later - window);
    TrimTrim(b.entries, now - window, later - window);
  }

  lemma {:induction false} TrimAllOld(z: seq<Entry>, cutoff: int)
    requires forall e :: e in z ==> e.score <= cutoff
    ensures Trim(z, cutoff) == []
  {
    if z != [] {
      TrimAllOld(z[1..], cutoff);
    }
  }

  lemma SameAfterReserve(a: Key, b: Key, op: Op, window: int)
    requires window > 0 && op.Reserve? && op.window == window
    requires SameFrom(a, b, op.now, window)
    requires forall e :: e in b.entries ==> e.score <= op.now
    ensures Admitted(a, op) == Admitted(b, op)
    ensures SameFrom(Step(a, op), Step(b, op), op.now, window)
    ensures forall e :: e in Step(b, op).entries ==> e.score <= op.now
  {
    var cutoff := op.now - window;
    var live := Trim(a.entries, cutoff);
    TrimMembers(a.entries, cutoff);
    TrimMembers(b.entries, cutoff);
    InsertMembers(live, Entry(op.id, op.est, op.now));
  }

  lemma SameAfterExpire(a: Key, b: Key, op: Op, window: int)
    requires op.Expire? && SameFrom(a, b, op.now, window)
    ensures SameFrom(Step(a, op), b, op.now, window)
  {
    if Step(a, op) != a && a.entries != [] {
      TrimAllOld(b.entries, op.now - window);
    }
  }

  lemma SameAfterStep(a: Key, b: Key, op: Op, now: int, window: int)
    requires window > 0 && !op.Reconcile? && (op.Reserve? ==> op.window == window) && op.now <= now
    requires SameFrom(a, b, op.now, window)
    requires forall e :: e in b.entries ==> e.score <= op.now
    ensures SameFrom(Step(a, op), if op.Expire? then b else Step(b, op), now, window)
    ensures forall e :: e in (if op.Expire? then b else Step(b, op)).entries ==> e.score <= now
  {
    if op.Expire? {
      SameAfterExpire(a, b, op, window);
      SameFromLater(Step(a, op), b, op.now, now, window);
    } else {
      SameAfterReserve(a, b, op, window);
      SameFromLater(Step(a, op), Step(b, op), op.now, now, window);
    }
  }

  /** A run without reconciles under one clock that has not passed `now`. */
  predicate Plain(ops: seq<Op>, window: int, now: int) {
    && Ordered(ops) && FixedWindow(ops, window) && NoReconcile(ops)
    && forall i :: 0 <= i < |ops| ==> ops[i].now <= now
  }

  lemma PlainSnoc(past: seq<Op>, op: Op, window: int, now: int)
    requires Plain(past + [op], window, now)
    ensures Plain(past, window, op.now)
    ensures !op.Reconcile? && (op.Reserve? ==> op.window == window) && op.now <= now
  {
    OrderedSnoc(past, op, window);
    assert forall i :: 0 <= i < |past| ==> (past + [op])[i] == past[i];
    assert (past + [op])[|past|] == op;
  }

  lemma {:induction false} ExpiringRunStaysSame(ops: seq<Op>, now: int, window: int)
    requires window > 0 && Plain(ops, window, now)
    ensures SameFrom(Run(ops), PersistentRun(ops), now, window)
    ensures forall e :: e in PersistentRun(ops).entries ==> e.score <= now
  {
    if ops != [] {
      var past, op := Front(ops), Last(ops);
      assert ops == past + [op];
      PlainSnoc(past, op, window, now);
      ExpiringRunStaysSame(past, op.now, window);
      SameAfterStep(Run(past), PersistentRun(past), op, now, window);
    }
  }

  /** Without reconciles, deleting the expired key never changes a later decision. */
  lemma ExpiryHarmlessWithoutReconcile(ops: seq<Op>, next: Op, window: int)
    requires window > 0
    requires Ordered(ops + [next]) && FixedWindow(ops + [next], window) && NoReconcile(ops)
    ensures Admitted(Run(ops), next) == Admitted(PersistentRun(ops), next)
  {
    OrderedSnoc(ops, next, window);
    ExpiringRunStaysSame(ops, next.now, window);
  }

  // ----- everything that may follow -----

  function RunFrom(k: Key, fs: seq<Op>): Key {
    if fs == [] then k else Step(RunFrom(k, Front(fs)), Last(fs))
  }

  /** Operations of a key with this window and budget, from `now` on, while it does not expire. */
  predicate From(fs: seq<Op>, now: int, window: int, budget: int) {
    && Ordered(fs) && (fs != [] ==> now <= fs[0].now)
    && FixedWindow(fs, window) && FixedBudget(fs, budget) && NoExpiry(fs)
  }

  /** They reserve with ids that are new, to each other and to the key k. */
  predicate Follows(k: Key, fs: seq<Op>, now: int, window: int, budget: int) {
    && From(fs, now, window, budget) && RateLimiter.FreshIds(fs)
    && forall i :: 0 <= i < |fs| && fs[i].Reserve? ==> !RateLimiter.HasId(k.entries, fs[i].id)
  }

  /** No reservation is reconciled twice. */
  predicate OnceReconciled(ops: seq<Op>) {
    forall i, j :: 0 <= i < j < |ops| && ops[i].Reconcile? && ops[j].Reconcile? ==> ops[i].id != ops[j].id
  }

  /**
   What requests can still do to the key k: valid operations that reconcile no reservation twice, and of
   the stored ones only those in `pending`.
   */
  predicate Future(k: Key, fs: seq<Op>, now: int, window: int, budget: int, pending: set<string>) {
    && Follows(k, fs, now, window, budget) && RateLimiter.ValidRun(fs) && OnceReconciled(fs)
    && forall i :: 0 <= i < |fs| && fs[i].Reconcile? && RateLimiter.HasId(k.entries, fs[i].id) ==> fs[i].id in pending
  }

  /** No reservation stored in k is reconciled any more. */
  predicate LeavesAlone(k: Key, fs: seq<Op>) {
    forall i :: 0 <= i < |fs| && fs[i].Reconcile? ==> !RateLimiter.HasId(k.entries, fs[i].id)
  }

  /** The last operation is decided alike from both keys. */
  predicate DecideAlike(a: Key, b: Key, fs: seq<Op>) {
    fs != [] ==> Admitted(RunFrom(a, Front(fs)), Last(fs)) == Admitted(RunFrom(b, Front(fs)), Last(fs))
  }

  // ----- a stored reservation may still be reconciled -----

  lemma {:induction false} SumTrimInsert(z: seq<Entry>, e: Entry, cutoff: int)
    ensures Sum(Trim(Insert(z, e), cutoff)) == Sum(Trim(z, cutoff)) + if e.score > cutoff then e.cost else 0
  {
    WindowSumIsTrimmedSum(Insert(z, e), cutoff);
    WindowSumIsTrimmedSum(z, cutoff);
    WindowSumInsert(z, e, cutoff);
  }

  lemma {:induction false} WindowSumInsert(z: seq<Entry>, e: Entry, cutoff: int)
    ensures WindowSum(Insert(z, e), cutoff) == WindowSum(z, cutoff) + if e.score > cutoff then e.cost else 0
  {
    if z == [] || Before(e, z[0]) {
      assert ([e] + z)[1..] == z;
    } else {
      WindowSumInsert(z[1..], e, cutoff);
      assert ([z[0]] + Insert(z[1..], e))[1..] == Insert(z[1..], e);
    }
  }

  lemma {:induction false} SumTrimRemove(z: seq<Entry>, id: string, cutoff: int)
    requires Find(z, id).Some?
    ensures var e := Find(z, id).value;
            Sum(Trim(Remove(z, id), cutoff)) == Sum(Trim(z, cutoff)) - if e.score > cutoff then e.cost else 0
  {
    WindowSumIsTrimmedSum(Remove(z, id), cutoff);
    WindowSumIsTrimmedSum(z, cutoff);
    WindowSumRemove(z, id, cutoff);
  }

  lemma {:induction false} WindowSumRemove(z: seq<Entry>, id: string, cutoff: int)
    requires Find(z, id).Some?
    ensures var e := Find(z, id).value;
            WindowSum(Remove(z, id), cutoff) == WindowSum(z, cutoff) - if e.score > cutoff then e.cost else 0
  {
    if z[0].id != id {
      WindowSumRemove(z[1..], id, cutoff);
      assert ([z[0]] + Remove(z[1..], id))[1..] == Remove(z[1..], id);
    }
  }

  /** A late reconcile of a stored reservation, then a reserve of the whole budget. */
  function LateReconcile(e: Entry, id: string, now: int, window: int, budget: nat): seq<Op> {
    [Reconcile(e.id, budget + 1, now), Reserve(id, budget, budget, window, now)]
  }

  lemma HeldAfterReconcile(k: Key, e: Entry, cost: nat, now: int, window: int)
    requires window > 0 && e in k.entries
    ensures Sum(Trim(Step(k, Reconcile(e.id, cost, now)).entries, now - window)) >= cost
  {
    RateLimiter.FindMeansHasId(k.entries, e.id);
    SumTrimInsert(Remove(k.entries, e.id), Entry(e.id, cost, now), now - window);
  }

  /** After the deletion a reconcile of a stored reservation misses, and the next reserve is let in. */
  lemma LateReconcileTells(k: Key, e: Entry, id: string, now: int, window: int, budget: nat)
    requires window > 0 && e in k.entries && !RateLimiter.HasId(k.entries, id)
    ensures !DecideAlike(k, Absent, LateReconcile(e, id, now, window, budget))
  {
    var late, next := Reconcile(e.id, budget + 1, now), Reserve(id, budget, budget, window, now);
    HeldAfterReconcile(k, e, budget + 1, now, window);
    assert Front([late, next]) == [late] && Front([late]) == [];
    assert RunFrom(k, [late]) == Step(k, late);
    assert RunFrom(Absent, [late]) == Step(Absent, late) == Absent;
  }

  // ----- stored reservations that are left alone -----

  lemma {:induction false} FindInsert(z: seq<Entry>, e: Entry, id: string)
    requires id != e.id || Find(z, id).None?
    ensures Find(Insert(z, e), id) == if id == e.id then Some(e) else Find(z, id)
  {
    if z == [] || Before(e, z[0]) {
      assert ([e] + z)[1..] == z;
    } else {
      FindInsert(z[1..], e, id);
      assert ([z[0]] + Insert(z[1..], e))[1..] == Insert(z[1..], e);
    }
  }

  lemma {:induction false} FindRemove(z: seq<Entry>, gone: string, id: string)
    requires id != gone
    ensures Find(Remove(z, gone), id) == Find(z, id)
  {
    if z != [] && z[0].id != gone {
      FindRemove(z[1..], gone, id);
      assert ([z[0]] + Remove(z[1..], gone))[1..] == Remove(z[1..], gone);
    }
  }

  lemma {:induction false} FindTrim(z: seq<Entry>, cutoff: int, id: string)
    requires RateLimiter.DistinctIds(z)
    ensures Find(Trim(z, cutoff), id)
         == if Find(z, id).Some? && Find(z, id).value.score > cutoff then Find(z, id) else None
  {
    if z != [] {
      FindTrim(z[1..], cutoff, id);
      RateLimiter.FindMeansHasId(z[1..], z[0].id);
      assert ([z[0]] + Trim(z[1..], cutoff))[1..] == Trim(z[1..], cutoff);
    }
  }

  /** To the ids outside k, and to all sums above `low`, the two sorted sets look the same. */
  ghost predicate Alike(a: seq<Entry>, b: seq<Entry>, k: Key, low: int) {
    && RateLimiter.DistinctIds(a) && RateLimiter.DistinctIds(b)
    && (forall id :: !RateLimiter.HasId(k.entries, id) ==> Find(a, id) == Find(b, id))
    && (forall c :: c >= low ==> Sum(Trim(a, c)) == Sum(Trim(b, c)))
  }

  lemma AlikeTrim(a: seq<Entry>, b: seq<Entry>, k: Key, low: int, cutoff: int)
    requires Alike(a, b, k, low) && low <= cutoff
    ensures Alike(Trim(a, cutoff), Trim(b, cutoff), k, low)
  {
    RateLimiter.DistinctTrim(a, cutoff);
    RateLimiter.DistinctTrim(b, cutoff);
    forall id | !RateLimiter.HasId(k.entries, id) ensures Find(Trim(a, cutoff), id) == Find(Trim(b, cutoff), id) {
      FindTrim(a, cutoff, id);
      FindTrim(b, cutoff, id);
    }
    forall c | c >= low ensures Sum(Trim(Trim(a, cutoff), c)) == Sum(Trim(Trim(b, cutoff), c)) {
      TrimAgain(a, cutoff, c);
      TrimAgain(b, cutoff, c);
    }
  }

  lemma {:induction false} TrimAgain(z: seq<Entry>, first: int, second: int)
    ensures Trim(Trim(z, first), second) == Trim(z, Max(first, second))
  {
    if z != [] {
      TrimAgain(z[1..], first, second);
      assert ([z[0]] + Trim(z[1..], first))[1..] == Trim(z[1..], first);
    }
  }

  lemma AlikeInsert(a: seq<Entry>, b: seq<Entry>, k: Key, low: int, e: Entry)
    requires Alike(a, b, k, low) && !RateLimiter.HasId(a, e.id) && !RateLimiter.HasId(b, e.id)
    ensures Alike(Insert(a, e), Insert(b, e), k, low)
  {
    RateLimiter.DistinctInsert(a, e);
    RateLimiter.DistinctInsert(b, e);
    RateLimiter.FindMeansHasId(a, e.id);
    RateLimiter.FindMeansHasId(b, e.id);
    forall id | !RateLimiter.HasId(k.entries, id) ensures Find(Insert(a, e), id) == Find(Insert(b, e), id) {
      FindInsert(a, e, id);
      FindInsert(b, e, id);
    }
    forall c | c >= low ensures Sum(Trim(Insert(a, e), c)) == Sum(Trim(Insert(b, e), c)) {
      SumTrimInsert(a, e, c);
      SumTrimInsert(b, e, c);
    }
  }

  lemma AlikeRemove(a: seq<Entry>, b: seq<Entry>, k: Key, low: int, gone: string)
    requires Alike(a, b, k, low) && !RateLimiter.HasId(k.entries, gone) && Find(a, gone).Some?
    ensures Alike(Remove(a, gone), Remove(b, gone), k, low)
    ensures !RateLimiter.HasId(Remove(a, gone), gone) && !RateLimiter.HasId(Remove(b, gone), gone)
  {
    RateLimiter.DistinctRemove(a, gone);
    RateLimiter.DistinctRemove(b, gone);
    RateLimiter.FindMeansHasId(Remove(a, gone), gone);
    RateLimiter.FindMeansHasId(Remove(b, gone), gone);
    forall id | !RateLimiter.HasId(k.entries, id) ensures Find(Remove(a, gone), id) == Find(Remove(b, gone), id) {
      if id != gone {
        FindRemove(a, gone, id);
        FindRemove(b, gone, id);
      }
    }
    forall c | c >= low ensures Sum(Trim(Remove(a, gone), c)) == Sum(Trim(Remove(b, gone), c)) {
      SumTrimRemove(a, gone, c);
      SumTrimRemove(b, gone, c);
    }
  }

  lemma AlikeStep(a: Key, b: Key, k: Key, low: int, op: Op)
    requires Alike(a.entries, b.entries, k, low) && !op.Expire?
    requires op.Reserve? ==> op.window > 0 && low <= op.now - op.window
    requires op.Reserve? ==> !RateLimiter.HasId(a.entries, op.id) && !RateLimiter.HasId(b.entries, op.id)
    requires op.Reconcile? ==> !RateLimiter.HasId(k.entries, op.id)
    ensures Admitted(a, op) == Admitted(b, op)
    ensures Alike(Step(a, op).entries, Step(b, op).entries, k, low)
  {
    match op
    case Reserve(id, est, _, window, now) =>
      AlikeTrim(a.entries, b.entries, k, low, now - window);
      TrimMembers(a.entries, now - window);
      TrimMembers(b.entries, now - window);
      AlikeInsert(Trim(a.entries, now - window), Trim(b.entries, now - window), k, low, Entry(id, est, now));
    case Reconcile(id, actual, now) =>
      if Find(a.entries, id).Some? {
        AlikeRemove(a.entries, b.entries, k, low, id);
        AlikeInsert(Remove(a.entries, id), Remove(b.entries, id), k, low, Entry(id, actual, now));
      }
  }

  /** Every stored id was in k or was reserved since. */
  ghost predicate KnownIds(z: seq<Entry>, k: Key, fs: seq<Op>) {
    forall e :: e in z ==> RateLimiter.HasId(k.entries, e.id) || RateLimiter.ReservedBefore(fs, e.id)
  }

  lemma ReservedLater(fs: seq<Op>, op: Op, id: string)
    requires RateLimiter.ReservedBefore(fs, id) || (op.Reserve? && op.id == id)
    ensures RateLimiter.ReservedBefore(fs + [op], id)
  {
    if RateLimiter.ReservedBefore(fs, id) {
      var i :| 0 <= i < |fs| && fs[i].Reserve? && fs[i].id == id;
      assert (fs + [op])[i] == fs[i];
    } else {
      assert (fs + [op])[|fs|] == op;
    }
  }

  lemma IdsStayKnown(a: Key, k: Key, fs: seq<Op>, op: Op)
    requires KnownIds(a.entries, k, fs)
    ensures KnownIds(Step(a, op).entries, k, fs + [op])
  {
    StepAddsNoOther(a, op);
    forall e | e in Step(a, op).entries
      ensures RateLimiter.HasId(k.entries, e.id) || RateLimiter.ReservedBefore(fs + [op], e.id)
    {
      if !RateLimiter.HasId(k.entries, e.id) {
        ReservedLater(fs, op, e.id);
      }
    }
  }

  lemma StepAddsNoOther(a: Key, op: Op)
    ensures forall e :: e in Step(a, op).entries ==>
              RateLimiter.HasId(a.entries, e.id) || (op.Reserve? && e.id == op.id)
  {
    match op
    case Reserve(id, est, _, window, now) =>
      TrimMembers(a.entries, now - window);
      InsertMembers(Trim(a.entries, now - window), Entry(id, est, now));
    case Reconcile(id, actual, now) =>
      RateLimiter.FindMeansHasId(a.entries, id);
      RemoveMembers(a.entries, id);
      InsertMembers(Remove(a.entries, id), Entry(id, actual, now));
    case Expire(_) =>
  }

  lemma FreshNow(a: seq<Entry>, k: Key, fs: seq<Op>, op: Op)
    requires KnownIds(a, k, fs) && RateLimiter.FreshIds(fs + [op])
    requires op.Reserve? && !RateLimiter.HasId(k.entries, op.id)
    ensures !RateLimiter.HasId(a, op.id)
  {
    assert forall i :: 0 <= i < |fs| ==> (fs + [op])[i] == fs[i];
    assert (fs + [op])[|fs|] == op;
  }

  /** What follows may stop earlier, and its next operation is as a future's should be. */
  lemma FutureSnoc(k: Key, fs: seq<Op>, op: Op, now: int, window: int, budget: int)
    requires Follows(k, fs + [op], now, window, budget) && LeavesAlone(k, fs + [op])
    ensures Follows(k, fs, now, window, budget) && LeavesAlone(k, fs)
    ensures now <= op.now && !op.Expire? && (op.Reserve? ==> op.window == window)
    ensures !op.Expire? ==> !RateLimiter.HasId(k.entries, op.id)
  {
    var all := fs + [op];
    assert forall i :: 0 <= i < |fs| ==> all[i] == fs[i];
    assert all[|fs|] == op;
  }

  /**
   When nothing is charged in the window, deleting the key is not noticed by anything that reserves with
   new ids and leaves the stored reservations alone.
   */
  lemma {:induction false} StrangersAgree(k: Key, fs: seq<Op>, now: int, window: int, budget: int)
    requires window > 0 && RateLimiter.DistinctIds(k.entries) && Sum(Trim(k.entries, now - window)) == 0
    requires Follows(k, fs, now, window, budget) && LeavesAlone(k, fs)
    ensures var a, b := RunFrom(k, fs).entries, RunFrom(Absent, fs).entries;
            Alike(a, b, k, now - window) && KnownIds(a, k, fs) && KnownIds(b, k, fs)
    ensures DecideAlike(k, Absent, fs)
  {
    if fs == [] {
      StartAlike(k, now - window);
    } else {
      var past, op := Front(fs), Last(fs);
      assert fs == past + [op];
      FutureSnoc(k, past, op, now, window, budget);
      StrangersAgree(k, past, now, window, budget);
      StrangersStep(RunFrom(k, past), RunFrom(Absent, past), k, past, op, now, window);
    }
  }

  lemma StrangersStep(a: Key, b: Key, k: Key, past: seq<Op>, op: Op, now: int, window: int)
    requires window > 0 && RateLimiter.FreshIds(past + [op]) && now <= op.now
    requires !op.Expire? && !RateLimiter.HasId(k.entries, op.id) && (op.Reserve? ==> op.window == window)
    requires Alike(a.entries, b.entries, k, now - window)
    requires KnownIds(a.entries, k, past) && KnownIds(b.entries, k, past)
    ensures Admitted(a, op) == Admitted(b, op)
    ensures Alike(Step(a, op).entries, Step(b, op).entries, k, now - window)
    ensures KnownIds(Step(a, op).entries, k, past + [op]) && KnownIds(Step(b, op).entries, k, past + [op])
  {
    if op.Reserve? {
      FreshNow(a.entries, k, past, op);
      FreshNow(b.entries, k, past, op);
    }
    AlikeStep(a, b, k, now - window, op);
    IdsStayKnown(a, k, past, op);
    IdsStayKnown(b, k, past, op);
  }

  lemma StartAlike(k: Key, low: int)
    requires RateLimiter.DistinctIds(k.entries) && Sum(Trim(k.entries, low)) == 0
    ensures Alike(k.entries, [], k, low) && KnownIds(k.entries, k, []) && KnownIds([], k, [])
  {
    forall id | !RateLimiter.HasId(k.entries, id) ensures Find(k.entries, id) == Find([], id) {
      RateLimiter.FindMeansHasId(k.entries, id);
    }
    forall c | c >= low ensures Sum(Trim(k.entries, c)) == Sum(Trim([], c)) {
      TrimTrim(k.entries, low, c);
      SumTrim(Trim(k.entries, low), c);
    }
  }

  lemma WholeBudgetTells(k: Key, id: string, now: int, window: int, budget: nat)
    requires Sum(Trim(k.entries, now - window)) > 0
    ensures !DecideAlike(k, Absent, [Reserve(id, budget, budget, window, now)])
  {
    assert Front([Reserve(id, budget, budget, window, now)]) == [];
  }

  /**
   Deleting a key leaves everything that requests can still do alone exactly when nothing is charged in the
   window and no stored reservation still awaits its reconcile.
   */
  lemma DeletionHarmlessExactly(k: Key, now: int, window: int, budget: nat, pending: set<string>, id: string)
    requires window > 0 && budget + 1 < MemberCodec.EXPONENT_LIMIT && RateLimiter.Good(k.entries)
    requires RateLimiter.ValidId(id) && !RateLimiter.HasId(k.entries, id)
    ensures (forall fs :: Future(k, fs, now, window, budget, pending) ==> DecideAlike(k, Absent, fs))
            <==> Sum(Trim(k.entries, now - window)) == 0 && forall e :: e in k.entries ==> e.id !in pending
  {
    if e :| e in k.entries && e.id in pending {
      assert Future(k, LateReconcile(e, id, now, window, budget), now, window, budget, pending);
      LateReconcileTells(k, e, id, now, window, budget);
    } else if Sum(Trim(k.entries, now - window)) != 0 {
      WholeBudgetTells(k, id, now, window, budget);
      assert Future(k, [Reserve(id, budget, budget, window, now)], now, window, budget, pending);
    } else {
      forall fs | Future(k, fs, now, window, budget, pending) ensures DecideAlike(k, Absent, fs) {
        StrangersAgree(k, fs, now, window, budget);
      }
    }
  }

  // ----- the first expiry of a run -----

  /** The key expires at `now`, for the first time in the run. */
  ghost predicate FirstExpiry(ops: seq<Op>, now: int) {
    && Expired(Run(ops).expireAt, now)
    && forall i :: 0 <= i < |ops| && ops[i].Expire? ==> !Expired(Run(ops[..i]).expireAt, ops[i].now)
  }

  lemma {:induction false} PersistentSoFar(ops: seq<Op>)
    requires forall i :: 0 <= i < |ops| && ops[i].Expire? ==> !Expired(Run(ops[..i]).expireAt, ops[i].now)
    ensures PersistentRun(ops) == Run(ops)
  {
    if ops != [] {
      var past := Front(ops);
      forall i | 0 <= i < |past| && past[i].Expire? ensures !Expired(Run(past[..i]).expireAt, past[i].now) {
        assert past[i] == ops[i] && past[..i] == ops[..i];
      }
      PersistentSoFar(past);
      assert ops[|ops| - 1] == Last(ops) && ops[..|ops| - 1] == past;
    }
  }

  lemma {:induction false} AfterExpiry(ops: seq<Op>, now: int, fs: seq<Op>)
    requires FirstExpiry(ops, now) && NoExpiry(fs)
    ensures Run(ops + [Expire(now)] + fs) == RunFrom(Absent, fs)
    ensures PersistentRun(ops + [Expire(now)] + fs) == RunFrom(Run(ops), fs)
  {
    var gone := ops + [Expire(now)];
    if fs == [] {
      assert gone + fs == gone && Front(gone) == ops;
      PersistentSoFar(ops);
    } else {
      AfterExpiry(ops, now, Front(fs));
      assert Front(gone + fs) == gone + Front(fs);
    }
  }

  /** The last operation of the future is decided as if the key had not expired. */
  ghost predicate Unnoticed(ops: seq<Op>, now: int, fs: seq<Op>) {
    var gone := ops + [Expire(now)];
    fs != [] ==> Admitted(Run(gone + Front(fs)), Last(fs)) == Admitted(PersistentRun(gone + Front(fs)), Last(fs))
  }

  lemma UnnoticedMeansAlike(ops: seq<Op>, now: int, fs: seq<Op>)
    requires FirstExpiry(ops, now) && NoExpiry(fs)
    ensures Unnoticed(ops, now, fs) <==> DecideAlike(Run(ops), Absent, fs)
  {
    if fs != [] {
      assert NoExpiry(Front(fs));
      AfterExpiry(ops, now, Front(fs));
    }
  }

  predicate ReconciledIn(ops: seq<Op>, id: string) {
    exists i :: 0 <= i < |ops| && ops[i].Reconcile? && ops[i].id == id
  }

  /** What may follow the expiry, so that the whole run is valid and reconciles no reservation twice. */
  predicate Continues(ops: seq<Op>, fs: seq<Op>, now: int, window: int, budget: int) {
    && From(fs, now, window, budget)
    && RateLimiter.ValidRun(ops + [Expire(now)] + fs) && OnceReconciled(ops + [Expire(now)] + fs)
  }

  /** The expiry changes no decision in any continuation. */
  ghost predicate AlwaysUnnoticed(ops: seq<Op>, now: int, window: int, budget: int) {
    forall fs :: Continues(ops, fs, now, window, budget) ==> Unnoticed(ops, now, fs)
  }

  /** Nothing is charged in the window and every stored reservation has been reconciled. */
  ghost predicate NothingAtStake(ops: seq<Op>, now: int, window: int) {
    && Sum(Trim(Run(ops).entries, now - window)) == 0
    && forall e :: e in Run(ops).entries ==> ReconciledIn(ops, e.id)
  }

  /** The run before the expiry and what follows it share no reserve id and no reconcile id. */
  lemma SharesNothing(ops: seq<Op>, fs: seq<Op>, now: int)
    requires RateLimiter.FreshIds(ops + [Expire(now)] + fs) && OnceReconciled(ops + [Expire(now)] + fs)
    ensures RateLimiter.FreshIds(fs)
    ensures forall j :: 0 <= j < |fs| && fs[j].Reserve? ==> !RateLimiter.ReservedBefore(ops, fs[j].id)
    ensures forall j :: 0 <= j < |fs| && fs[j].Reconcile? ==> !ReconciledIn(ops, fs[j].id)
  {
    var whole := ops + [Expire(now)] + fs;
    assert forall i :: 0 <= i < |ops| ==> whole[i] == ops[i];
    assert forall j :: 0 <= j < |fs| ==> whole[|ops| + 1 + j] == fs[j];
  }

  lemma ContinuingLeavesAlone(ops: seq<Op>, fs: seq<Op>, now: int, window: int, budget: int)
    requires RateLimiter.ValidRun(ops) && Continues(ops, fs, now, window, budget)
    requires forall e :: e in Run(ops).entries ==> ReconciledIn(ops, e.id)
    ensures Follows(Run(ops), fs, now, window, budget) && LeavesAlone(Run(ops), fs)
  {
    SharesNothing(ops, fs, now);
    RateLimiter.TextRefinesRecords(ops);
  }

  lemma OneReserveContinues(ops: seq<Op>, id: string, now: int, window: int, budget: nat)
    requires RateLimiter.ValidRun(ops) && OnceReconciled(ops) && budget < MemberCodec.EXPONENT_LIMIT
    requires RateLimiter.ValidId(id) && !RateLimiter.ReservedBefore(ops, id)
    ensures Continues(ops, [Reserve(id, budget, budget, window, now)], now, window, budget)
  {
    var fs := [Reserve(id, budget, budget, window, now)];
    var whole := ops + [Expire(now)] + fs;
    assert forall i :: 0 <= i < |ops| ==> whole[i] == ops[i];
    assert |whole| == |ops| + 2 && whole[|ops|] == Expire(now) && whole[|ops| + 1] == fs[0];
  }

  lemma LateReconcileContinues(ops: seq<Op>, e: Entry, id: string, now: int, window: int, budget: nat)
    requires RateLimiter.ValidRun(ops) && OnceReconciled(ops) && budget + 1 < MemberCodec.EXPONENT_LIMIT
    requires RateLimiter.ValidId(id) && !RateLimiter.ReservedBefore(ops, id)
    requires RateLimiter.ValidId(e.id) && !ReconciledIn(ops, e.id)
    ensures Continues(ops, LateReconcile(e, id, now, window, budget), now, window, budget)
  {
    var fs := LateReconcile(e, id, now, window, budget);
    var whole := ops + [Expire(now)] + fs;
    assert forall i :: 0 <= i < |ops| ==> whole[i] == ops[i];
    assert |whole| == |ops| + 3 && whole[|ops|] == Expire(now);
    assert whole[|ops| + 1] == fs[0] && whole[|ops| + 2] == fs[1];
  }

  /**
   The first expiry of a run goes unnoticed in every valid continuation exactly when nothing was charged in
   the window and every stored reservation had been reconciled.
   */
  lemma ExpiryHarmlessExactly(ops: seq<Op>, now: int, window: int, budget: nat, id: string)
    requires window > 0 && budget + 1 < MemberCodec.EXPONENT_LIMIT
    requires RateLimiter.ValidRun(ops) && OnceReconciled(ops) && FirstExpiry(ops, now)
    requires RateLimiter.ValidId(id) && !RateLimiter.ReservedBefore(ops, id)
    ensures AlwaysUnnoticed(ops, now, window, budget) <==> NothingAtStake(ops, now, window)
  {
    var k := Run(ops);
    RateLimiter.TextRefinesRecords(ops);
    if e :| e in k.entries && !ReconciledIn(ops, e.id) {
      var fs := LateReconcile(e, id, now, window, budget);
      LateReconcileContinues(ops, e, id, now, window, budget);
      LateReconcileTells(k, e, id, now, window, budget);
      UnnoticedMeansAlike(ops, now, fs);
    } else if Sum(Trim(k.entries, now - window)) != 0 {
      var fs := [Reserve(id, budget, budget, window, now)];
      OneReserveContinues(ops, id, now, window, budget);
      WholeBudgetTells(k, id, now, window, budget);
      UnnoticedMeansAlike(ops, now, fs);
    } else {
      forall fs | Continues(ops, fs, now, window, budget) ensures Unnoticed(ops, now, fs) {
        ContinuingLeavesAlone(ops, fs, now, window, budget);
        StrangersAgree(k, fs, now, window, budget);
        UnnoticedMeansAlike(ops, now, fs);
      }
    }
  }

  // ----- a run in which expiry over-admits -----

  /** An id of the length of a UUID. */
  function Uuid(c: char): string {
    seq(RateLimiter.ID_LENGTH, _ => c)
  }

  /** A valid run in which the deleted key forgets 90 tokens of its window and over-admits. */
  lemma ExpiryCanOverAdmit() returns (ops: seq<Op>, next: Op)
    ensures RateLimiter.ValidRun(ops + [next])
    ensures Ordered(ops + [next]) && FixedWindow(ops + [next], 60) && FixedBudget(ops + [next], 100)
    ensures Admitted(Run(ops), next) && !Admitted(PersistentRun(ops), next)
  {
    var x, y, z := Uuid('a'), Uuid('b'), Uuid('c');
    assert x[0] == 'a' && y[0] == 'b' && z[0] == 'c';
    ops := [Reserve(x, 1, 100, 60, 0), Reserve(y, 1, 100, 60, 1), Reconcile(x, 90, 50), Expire(62)];
    next := Reserve(z, 50, 100, 60, 62);
    OverAdmitIsValid(x, y, z, ops + [next]);
    OverAdmits(x, y, ops[0], ops[1], ops[2], next);
  }

  lemma OverAdmitIsValid(x: string, y: string, z: string, run: seq<Op>)
    requires RateLimiter.ValidId(x) && RateLimiter.ValidId(y) && RateLimiter.ValidId(z) && x != y && x != z && y != z
    requires run == [Reserve(x, 1, 100, 60, 0), Reserve(y, 1, 100, 60, 1), Reconcile(x, 90, 50), Expire(62),
                     Reserve(z, 50, 100, 60, 62)]
    ensures RateLimiter.ValidRun(run) && Ordered(run) && FixedWindow(run, 60) && FixedBudget(run, 100)
  {
  }

  lemma OverAdmits(x: string, y: string, a: Op, b: Op, c: Op, next: Op)
    requires x != y && a == Reserve(x, 1, 100, 60, 0) && b == Reserve(y, 1, 100, 60, 1) && c == Reconcile(x, 90, 50)
    requires next.Reserve? && next.est == 50 && next.budget == 100 && next.window == 60 && next.now == 62
    ensures var ops := [a, b, c, Expire(62)]; Admitted(Run(ops), next) && !Admitted(PersistentRun(ops), next)
  {
    var k := OverAdmitKey(x, y, a, b, c);
    assert Front([a, b, c, Expire(62)]) == [a, b, c];
  }

  lemma OverAdmitKey(x: string, y: string, a: Op, b: Op, c: Op) returns (k: Key)
    requires x != y && a == Reserve(x, 1, 100, 60, 0) && b == Reserve(y, 1, 100, 60, 1) && c == Reconcile(x, 90, 50)
    ensures k == Run([a, b, c]) == PersistentRun([a, b, c]) && k.expireAt == Some(61)
    ensures Sum(Trim(k.entries, 2)) == 90
  {
    var ea, eb, ec := Entry(x, 1, 0), Entry(y, 1, 1), Entry(x, 90, 50);
    OneEntry(ea);
    OneEntry(eb);
    OneEntry(ec);
    TwoEntries(ea, eb);
    TwoEntries(eb, ec);
    assert Step(Absent, a) == Key([ea], Some(60));
    assert Step(Key([ea], Some(60)), b) == Key([ea, eb], Some(61));
    assert Step(Key([ea, eb], Some(61)), c) == Key([eb, ec], Some(61));
    assert Front([a]) == [] && Front([a, b]) == [a] && Front([a, b, c]) == [a, b];
    assert Run([a]) == PersistentRun([a]) == Key([ea], Some(60));
    assert Run([a, b]) == PersistentRun([a, b]) == Key([ea, eb], Some(61));
    k := Key([eb, ec], Some(61));
  }

  lemma OneEntry(e: Entry)
    ensures Sum([e]) == e.cost && forall c :: Trim([e], c) == if e.score > c then [e] else []
  {
  }

  lemma TwoEntries(d: Entry, e: Entry)
    requires d.score < e.score
    ensures Insert([d], e) == [d, e] && Find([d, e], d.id) == Some(d) && Remove([d, e], d.id) == [e]
    ensures forall c :: d.score <= c ==> Trim([d, e], c) == Trim([e], c)
  {
    assert [d, e][1..] == [e];
  }
}
