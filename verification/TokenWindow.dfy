/**
 The token-budget limiter of one API key over records (id, cost, score): a
 sliding window kept in a Redis sorted set, with provisional charges, later
 correction, trimming and key expiry.  Each operation is one atomic step.
 */
module TokenWindow {
  import opened Common
  import MemberCodec

  datatype Entry = Entry(id: string, cost: nat, score: int)

  /** The Redis key: absent when `entries` is empty; `expireAt` is its TTL deadline, if it has one. */
  datatype Key = Key(entries: seq<Entry>, expireAt: Option<int>)

  const Absent := Key([], None)

  datatype Op =
    | Reserve(id: string, est: nat, budget: int, window: int, now: int)
    | Reconcile(id: string, actual: nat, now: int)
    | Expire(now: int)

  // ----- the sorted set -----

  /** Sorted-set order: by score, then by member text. */
  predicate Before(a: Entry, b: Entry) {
    a.score < b.score
    || (a.score == b.score
        && MemberCodec.LexLess(MemberCodec.Member(a.id, a.cost), MemberCodec.Member(b.id, b.cost)))
  }

  function Insert(z: seq<Entry>, e: Entry): seq<Entry> {
    if z == [] || Before(e, z[0]) then [e] + z else [z[0]] + Insert(z[1..], e)
  }

  /** ZREMRANGEBYSCORE key -inf cutoff. */
  function Trim(z: seq<Entry>, cutoff: int): seq<Entry> {
    if z == [] then []
    else if z[0].score > cutoff then [z[0]] + Trim(z[1..], cutoff)
    else Trim(z[1..], cutoff)
  }

  function Find(z: seq<Entry>, id: string): Option<Entry> {
    if z == [] then None else if z[0].id == id then Some(z[0]) else Find(z[1..], id)
  }

  function Remove(z: seq<Entry>, id: string): seq<Entry> {
    if z == [] then [] else if z[0].id == id then z[1..] else [z[0]] + Remove(z[1..], id)
  }

  function Sum(z: seq<Entry>): nat {
    if z == [] then 0 else z[0].cost + Sum(z[1..])
  }

  // ----- the two scripts and expiry -----

  predicate Admitted(k: Key, op: Op) {
    op.Reserve? && Sum(Trim(k.entries, op.now - op.window)) + op.est <= op.budget
  }

  /** A key whose entries became `z` keeps its deadline unless it was emptied on the way. */
  function Settle(z: seq<Entry>, expireAt: Option<int>): Key {
    Key(z, if z == [] then None else expireAt)
  }

  function Step(k: Key, op: Op): Key {
    match op
    case Reserve(id, est, budget, window, now) =>
      var live := Trim(k.entries, now - window);
      if !Admitted(k, op) then Settle(live, k.expireAt)
      else if window <= 0 then Absent // EXPIRE with a non-positive TTL deletes the key
      else Key(Insert(live, Entry(id, est, now)), Some(now + window))
    case Reconcile(id, actual, now) =>
      if Find(k.entries, id).None? then k
      else
        // ZREM may empty, and so drop, the key; ZADD then makes a new one without a TTL.
        var rest := Settle(Remove(k.entries, id), k.expireAt);
        Key(Insert(rest.entries, Entry(id, actual, now)), rest.expireAt)
    case Expire(now) =>
      if Expired(k.expireAt, now) then Absent else k
  }

  function Run(ops: seq<Op>): Key {
    if ops == [] then Absent else Step(Run(Front(ops)), Last(ops))
  }

  // ----- assumptions on runs -----

  predicate Ordered(ops: seq<Op>) {
    forall i, j :: 0 <= i <= j < |ops| ==> ops[i].now <= ops[j].now
  }

  predicate FixedWindow(ops: seq<Op>, window: int) {
    forall i :: 0 <= i < |ops| && ops[i].Reserve? ==> ops[i].window == window
  }

  predicate FixedBudget(ops: seq<Op>, budget: int) {
    forall i :: 0 <= i < |ops| && ops[i].Reserve? ==> ops[i].budget == budget
  }

  predicate NoExpiry(ops: seq<Op>) {
    forall i :: 0 <= i < |ops| ==> !ops[i].Expire?
  }

  predicate NoReconcile(ops: seq<Op>) {
    forall i :: 0 <= i < |ops| ==> !ops[i].Reconcile?
  }

  // ----- sorted-set lemmas -----

  lemma {:induction false} SumInsert(z: seq<Entry>, e: Entry)
    ensures Sum(Insert(z, e)) == Sum(z) + e.cost
  {
    if z == [] || Before(e, z[0]) {
      assert ([e] + z)[1..] == z;
    } else {
      SumInsert(z[1..], e);
      assert ([z[0]] + Insert(z[1..], e))[1..] == Insert(z[1..], e);
    }
  }

  lemma {:induction false} SumTrim(z: seq<Entry>, cutoff: int)
    ensures Sum(Trim(z, cutoff)) <= Sum(z)
  {
    if z != [] {
      SumTrim(z[1..], cutoff);
      assert ([z[0]] + Trim(z[1..], cutoff))[1..] == Trim(z[1..], cutoff);
    }
  }

  lemma {:induction false} SumRemove(z: seq<Entry>, id: string)
    requires Find(z, id).Some?
    ensures Sum(Remove(z, id)) == Sum(z) - Find(z, id).value.cost
  {
    if z[0].id != id {
      SumRemove(z[1..], id);
      assert ([z[0]] + Remove(z[1..], id))[1..] == Remove(z[1..], id);
    }
  }

  lemma {:induction false} InsertMembers(z: seq<Entry>, e: Entry)
    ensures forall x :: x in Insert(z, e) <==> x == e || x in z
  {
    if z != [] && !Before(e, z[0]) {
      InsertMembers(z[1..], e);
      assert z == [z[0]] + z[1..];
    }
  }

  lemma {:induction false} TrimMembers(z: seq<Entry>, cutoff: int)
    ensures forall x :: x in Trim(z, cutoff) <==> x in z && x.score > cutoff
  {
    if z != [] {
      TrimMembers(z[1..], cutoff);
      assert z == [z[0]] + z[1..];
    }
  }

  lemma {:induction false} RemoveMembers(z: seq<Entry>, id: string)
    ensures forall x :: x in Remove(z, id) ==> x in z
    ensures |Remove(z, id)| == if Find(z, id).Some? then |z| - 1 else |z|
  {
    if z != [] && z[0].id != id {
      RemoveMembers(z[1..], id);
      assert z == [z[0]] + z[1..];
    }
  }

  lemma {:induction false} InsertLength(z: seq<Entry>, e: Entry)
    ensures |Insert(z, e)| == |z| + 1
  {
    if z != [] && !Before(e, z[0]) {
      InsertLength(z[1..], e);
    }
  }

  lemma {:induction false} TrimTrim(z: seq<Entry>, low: int, high: int)
    requires low <= high
    ensures Trim(Trim(z, low), high) == Trim(z, high)
  {
    if z != [] {
      TrimTrim(z[1..], low, high);
      assert ([z[0]] + Trim(z[1..], low))[1..] == Trim(z[1..], low);
    }
  }

  /** A new entry above the cutoff lands in the same place whether or not dead entries were removed. */
  lemma {:induction false} TrimInsert(z: seq<Entry>, e: Entry, cutoff: int)
    requires e.score > cutoff
    ensures Trim(Insert(z, e), cutoff) == Insert(Trim(z, cutoff), e)
  {
    if z == [] {
    } else if Before(e, z[0]) {
      assert ([e] + z)[1..] == z;
    } else {
      TrimInsert(z[1..], e, cutoff);
      assert ([z[0]] + Insert(z[1..], e))[1..] == Insert(z[1..], e);
      assert ([z[0]] + Trim(z[1..], cutoff))[1..] == Trim(z[1..], cutoff);
    }
  }

  // ----- trimming is harmless -----

  /** A log that is never trimmed, with the largest cutoff used so far. */
  datatype Log = Log(all: seq<Entry>, cutoff: Option<int>)

  predicate Live(cutoff: Option<int>, e: Entry) {
    cutoff.Some? ==> e.score > cutoff.value
  }

  /** The live entries of the log. */
  function LiveEntries(l: Log): seq<Entry> {
    if l.cutoff.None? then l.all else Trim(l.all, l.cutoff.value)
  }

  /** The true in-window sum, straight from the untrimmed log. */
  function WindowSum(all: seq<Entry>, cutoff: int): nat {
    if all == [] then 0
    else (if all[0].score > cutoff then all[0].cost else 0) + WindowSum(all[1..], cutoff)
  }

  predicate HasLive(all: seq<Entry>, id: string, cutoff: Option<int>) {
    exists i :: 0 <= i < |all| && all[i].id == id && Live(cutoff, all[i])
  }

  function RemoveLive(all: seq<Entry>, id: string, cutoff: Option<int>): seq<Entry> {
    if all == [] then []
    else if all[0].id == id && Live(cutoff, all[0]) then all[1..]
    else [all[0]] + RemoveLive(all[1..], id, cutoff)
  }

  predicate LogAdmits(l: Log, op: Op) {
    op.Reserve? && WindowSum(l.all, op.now - op.window) + op.est <= op.budget
  }

  function LogStep(l: Log, op: Op): Log {
    match op
    case Reserve(id, est, budget, window, now) =>
      var cutoff := if l.cutoff.None? then now - window else Max(l.cutoff.value, now - window);
      Log(if LogAdmits(l, op) then Insert(l.all, Entry(id, est, now)) else l.all, Some(cutoff))
    case Reconcile(id, actual, now) =>
      if HasLive(l.all, id, l.cutoff)
      then l.(all := Insert(RemoveLive(l.all, id, l.cutoff), Entry(id, actual, now)))
      else l
    case Expire(now) => l
  }

  function LogRun(ops: seq<Op>): Log {
    if ops == [] then Log([], None) else LogStep(LogRun(Front(ops)), Last(ops))
  }

  lemma {:induction false} WindowSumIsTrimmedSum(all: seq<Entry>, cutoff: int)
    ensures WindowSum(all, cutoff) == Sum(Trim(all, cutoff))
  {
    if all != [] {
      WindowSumIsTrimmedSum(all[1..], cutoff);
      assert ([all[0]] + Trim(all[1..], cutoff))[1..] == Trim(all[1..], cutoff);
    }
  }

  lemma {:induction false} FindIsHasLive(all: seq<Entry>, id: string, cutoff: Option<int>)
    ensures Find(LiveEntries(Log(all, cutoff)), id).Some? <==> HasLive(all, id, cutoff)
  {
    if all != [] {
      FindIsHasLive(all[1..], id, cutoff);
      var live := LiveEntries(Log(all[1..], cutoff));
      assert ([all[0]] + live)[1..] == live;
      if HasLive(all[1..], id, cutoff) {
        var i :| 0 <= i < |all[1..]| && all[1..][i].id == id && Live(cutoff, all[1..][i]);
        assert all[i + 1].id == id && Live(cutoff, all[i + 1]);
      }
      if HasLive(all, id, cutoff) && !(all[0].id == id && Live(cutoff, all[0])) {
        var i :| 0 <= i < |all| && all[i].id == id && Live(cutoff, all[i]);
        assert all[1..][i - 1] == all[i];
      }
    }
  }

  lemma {:induction false} RemoveIsRemoveLive(all: seq<Entry>, id: string, cutoff: Option<int>)
    ensures Remove(LiveEntries(Log(all, cutoff)), id)
         == LiveEntries(Log(RemoveLive(all, id, cutoff), cutoff))
  {
    if all != [] {
      RemoveIsRemoveLive(all[1..], id, cutoff);
      var live := LiveEntries(Log(all[1..], cutoff));
      assert ([all[0]] + live)[1..] == live;
      var rest := RemoveLive(all[1..], id, cutoff);
      assert ([all[0]] + rest)[1..] == rest;
      if cutoff.None? {
        assert all == [all[0]] + all[1..];
      }
    }
  }

  /** The cutoff never overtakes a time already read, minus the window. */
  lemma {:induction false} CutoffIsPast(ops: seq<Op>, window: int)
    requires Ordered(ops) && FixedWindow(ops, window)
    ensures ops == [] ==> LogRun(ops).cutoff.None?
    ensures ops != [] && LogRun(ops).cutoff.Some? ==> LogRun(ops).cutoff.value <= Last(ops).now - window
  {
    if ops != [] {
      CutoffIsPast(Front(ops), window);
    }
  }

  /** One log step from a state whose cutoff is not ahead of the clock. */
  lemma StepKeepsLiveEntries(l: Log, k: Key, op: Op, window: int)
    requires window > 0 && !op.Expire? && (op.Reserve? ==> op.window == window)
    requires l.cutoff.Some? ==> l.cutoff.value <= op.now - window
    requires k.entries == LiveEntries(l)
    ensures Admitted(k, op) == LogAdmits(l, op)
    ensures Step(k, op).entries == LiveEntries(LogStep(l, op))
  {
    var cutoff := op.now - window;
    match op
    case Reserve(id, est, budget, w, now) =>
      if l.cutoff.Some? {
        TrimTrim(l.all, l.cutoff.value, cutoff);
      }
      WindowSumIsTrimmedSum(l.all, cutoff);
      TrimInsert(l.all, Entry(id, est, now), cutoff);
    case Reconcile(id, actual, now) =>
      FindIsHasLive(l.all, id, l.cutoff);
      RemoveIsRemoveLive(l.all, id, l.cutoff);
      if l.cutoff.Some? {
        TrimInsert(RemoveLive(l.all, id, l.cutoff), Entry(id, actual, now), l.cutoff.value);
      }
  }

  lemma OrderedSnoc(ops: seq<Op>, op: Op, window: int)
    requires Ordered(ops + [op]) && FixedWindow(ops + [op], window)
    ensures Ordered(ops) && FixedWindow(ops, window)
    ensures forall i :: 0 <= i < |ops| ==> ops[i].now <= op.now
    ensures op.Reserve? ==> op.window == window
  {
    var all := ops + [op];
    assert forall i :: 0 <= i < |ops| ==> all[i] == ops[i];
    assert all[|ops|] == op;
  }

  /**
   In every interleaving of reserves and reconciles under a nondecreasing clock and a constant
   positive window, the stored set is the untrimmed log restricted to the live scores, and the
   next reserve is decided as the true in-window sum of that log decides it.
   */
  lemma {:induction false} TrimmingIsHarmless(ops: seq<Op>, next: Op, window: int)
    requires window > 0
    requires Ordered(ops + [next]) && FixedWindow(ops + [next], window) && NoExpiry(ops + [next])
    ensures Run(ops).entries == LiveEntries(LogRun(ops))
    ensures Admitted(Run(ops), next) == LogAdmits(LogRun(ops), next)
  {
    OrderedSnoc(ops, next, window);
    assert (ops + [next])[|ops|] == next;
    CutoffIsPast(ops, window);
    if ops != [] {
      var past, op := Front(ops), Last(ops);
      assert past + [op] == ops;
      assert NoExpiry(ops) by {
        assert forall i :: 0 <= i < |ops| ==> (ops + [next])[i] == ops[i];
      }
      OrderedSnoc(past, op, window);
      TrimmingIsHarmless(past, op, window);
      CutoffIsPast(past, window);
      StepKeepsLiveEntries(LogRun(past), Run(past), op, window);
    }
    StepKeepsLiveEntries(LogRun(ops), Run(ops), next, window);
  }

  // ----- the budget bound -----

  /** Total upward corrections by reconciles since the last admitted reserve. */
  function Corrections(ops: seq<Op>): nat {
    if ops == [] then 0 else CorrectionsAfter(Run(Front(ops)), Last(ops), Corrections(Front(ops)))
  }

  /**
   In every reachable state the stored costs exceed the budget by at most the upward corrections
   since the last admitted reserve, and never right after an admitted reserve, whatever the clocks,
   windows, trims, denials and expiries in between.
   */
  lemma {:induction false} BudgetBound(ops: seq<Op>, budget: nat)
    requires FixedBudget(ops, budget)
    ensures Sum(Run(ops).entries) <= budget + Corrections(ops)
    ensures ops != [] && Admitted(Run(Front(ops)), Last(ops)) ==> Sum(Run(ops).entries) <= budget
  {
    if ops != [] {
      BudgetBound(Front(ops), budget);
      BoundStep(Run(Front(ops)), Last(ops), budget, Corrections(Front(ops)));
    }
  }

  /** What one operation adds to the corrections since the last admitted reserve. */
  function CorrectionsAfter(k: Key, op: Op, before: nat): nat {
    if Admitted(k, op) then 0
    else if op.Reconcile? && Find(k.entries, op.id).Some?
    then before + Max(0, op.actual - Find(k.entries, op.id).value.cost)
    else before
  }

  lemma BoundStep(k: Key, op: Op, budget: nat, before: nat)
    requires Sum(k.entries) <= budget + before && (op.Reserve? ==> op.budget == budget)
    ensures Sum(Step(k, op).entries) <= budget + CorrectionsAfter(k, op, before)
  {
    match op
    case Reserve(id, est, b, window, now) =>
      SumTrim(k.entries, now - window);
      SumInsert(Trim(k.entries, now - window), Entry(id, est, now));
    case Reconcile(id, actual, now) =>
      if Find(k.entries, id).Some? {
        SumRemove(k.entries, id);
        SumInsert(Remove(k.entries, id), Entry(id, actual, now));
      }
    case Expire(now) =>
  }

  // ----- what key expiry can lose -----

  /** Index of the last admitted reserve, or -1. */
  function LastAdmit(ops: seq<Op>): (i: int)
    ensures -1 <= i < |ops|
    ensures i >= 0 ==> ops[i].Reserve?
  {
    if ops == [] then -1
    else if Admitted(Run(Front(ops)), Last(ops)) then |ops| - 1
    else LastAdmit(Front(ops))
  }

  /** The entry was given its present score by a reconcile made after the last admitted reserve. */
  predicate Rescored(ops: seq<Op>, e: Entry) {
    exists j :: LastAdmit(ops) < j < |ops| && ops[j] == Reconcile(e.id, e.cost, e.score)
  }

  predicate ScoresExplained(ops: seq<Op>) {
    var k, a := Run(ops), LastAdmit(ops);
    && (k.entries != [] ==> a >= 0)
    && (k.expireAt.Some? ==> a >= 0 && k.expireAt.value == ops[a].now + ops[a].window)
    && (forall e :: e in k.entries ==> e.score <= ops[a].now || Rescored(ops, e))
    && (k.entries != [] && k.expireAt.None? ==> |k.entries| == 1 && Rescored(ops, k.entries[0]))
  }

  lemma RescoredLater(ops: seq<Op>, op: Op, e: Entry)
    requires !Admitted(Run(ops), op)
    requires Rescored(ops, e)
    ensures Rescored(ops + [op], e)
  {
    var all := ops + [op];
    assert Front(all) == ops;
    var j :| LastAdmit(ops) < j < |ops| && ops[j] == Reconcile(e.id, e.cost, e.score);
    assert all[j] == ops[j];
  }

  lemma {:induction false} ScoresAreExplained(ops: seq<Op>)
    requires Ordered(ops)
    ensures ScoresExplained(ops)
  {
    if ops != [] {
      var past, op := Front(ops), Last(ops);
      assert ops == past + [op];
      assert forall i :: 0 <= i < |past| ==> ops[i] == past[i];
      ScoresAreExplained(past);
      ScoresStayExplained(past, op);
    }
  }

  lemma ScoresStayExplained(ops: seq<Op>, op: Op)
    requires Ordered(ops + [op]) && ScoresExplained(ops)
    ensures ScoresExplained(ops + [op])
  {
    forall i | 0 <= i < |ops| ensures ops[i] == (ops + [op])[i] {
    }
    assert (ops + [op])[|ops|] == op;
    if Admitted(Run(ops), op) {
      forall e | e in Run(ops).entries ensures e.score <= op.now {
        assert e.score <= ops[LastAdmit(ops)].now || Rescored(ops, e);
      }
      AdmitExplains(ops, op);
    } else if op.Reconcile? && Find(Run(ops).entries, op.id).Some? {
      ReconcileExplains(ops, op);
    } else {
      ShrinkExplains(ops, op);
    }
  }

  lemma Snoc(ops: seq<Op>, op: Op)
    ensures Run(ops + [op]) == Step(Run(ops), op)
    ensures LastAdmit(ops + [op]) == if Admitted(Run(ops), op) then |ops| else LastAdmit(ops)
  {
    assert Front(ops + [op]) == ops;
  }

  lemma AdmitExplains(ops: seq<Op>, op: Op)
    requires Admitted(Run(ops), op)
    requires forall e :: e in Run(ops).entries ==> e.score <= op.now
    ensures ScoresExplained(ops + [op])
  {
    var all := ops + [op];
    Snoc(ops, op);
    assert all[|ops|] == op;
    AdmitAddsPresent(Run(ops), op);
  }

  lemma AdmitAddsPresent(k: Key, op: Op)
    requires Admitted(k, op)
    ensures Step(k, op) == Absent || Step(k, op).expireAt == Some(op.now + op.window)
    ensures forall e :: e in Step(k, op).entries ==> e in k.entries || e.score == op.now
  {
    TrimMembers(k.entries, op.now - op.window);
    InsertMembers(Trim(k.entries, op.now - op.window), Entry(op.id, op.est, op.now));
  }

  lemma ReconcileExplains(ops: seq<Op>, op: Op)
    requires ScoresExplained(ops) && op.Reconcile? && Find(Run(ops).entries, op.id).Some?
    ensures ScoresExplained(ops + [op])
  {
    var all, k := ops + [op], Run(ops);
    assert Front(all) == ops && Last(all) == op;
    var rest, e := Remove(k.entries, op.id), Entry(op.id, op.actual, op.now);
    RemoveMembers(k.entries, op.id);
    InsertMembers(rest, e);
    InsertLength(rest, e);
    assert all[|ops|] == Reconcile(e.id, e.cost, e.score);
    assert Rescored(all, e);
    forall x | x in rest ensures x.score <= all[LastAdmit(all)].now || Rescored(all, x) {
      if Rescored(ops, x) {
        RescoredLater(ops, op, x);
      }
    }
    if Run(all).expireAt.None? {
      assert rest == [];
    }
  }

  /** A denied reserve, a missed reconcile or an expiry only drops entries. */
  lemma ShrinkExplains(ops: seq<Op>, op: Op)
    requires ScoresExplained(ops) && !Admitted(Run(ops), op)
    requires op.Reconcile? ==> Find(Run(ops).entries, op.id).None?
    ensures ScoresExplained(ops + [op])
  {
    var all, k := ops + [op], Run(ops);
    Snoc(ops, op);
    var k' := Run(all);
    ShrinkDrops(k, op);
    forall x | x in k'.entries ensures x.score <= all[LastAdmit(all)].now || Rescored(all, x) {
      if Rescored(ops, x) {
        RescoredLater(ops, op, x);
      }
    }
    if k'.entries != [] && k'.expireAt.None? {
      RescoredLater(ops, op, k.entries[0]);
    }
  }

  lemma ShrinkDrops(k: Key, op: Op)
    requires !Admitted(k, op)
    requires op.Reconcile? ==> Find(k.entries, op.id).None?
    ensures forall x :: x in Step(k, op).entries ==> x in k.entries
    ensures Step(k, op).expireAt.Some? || Step(k, op).entries != [] ==> Step(k, op).expireAt == k.expireAt
    ensures |k.entries| == 1 && Step(k, op).entries != [] ==> Step(k, op).entries == k.entries
  {
    if op.Reserve? {
      TrimMembers(k.entries, op.now - op.window);
      if |k.entries| == 1 {
        assert k.entries == [k.entries[0]] && Trim(k.entries[1..], op.now - op.window) == [];
      }
    }
  }

  /**
   An entry still inside its window when the key's deadline has passed owes its score to a
   reconcile made after the last admitted reserve: only such entries can be lost early.
   */
  lemma ExpiryLosesOnlyRescored(ops: seq<Op>, now: int, window: int, e: Entry)
    requires Ordered(ops) && FixedWindow(ops, window)
    requires Expired(Run(ops).expireAt, now)
    requires e in Run(ops).entries && e.score > now - window
    ensures Rescored(ops, e)
  {
    ScoresAreExplained(ops);
  }

  /** A stored key without a TTL holds exactly one entry, re-scored since the last admitted reserve. */
  lemma MissingTtlMeansSoleReconciled(ops: seq<Op>)
    requires Ordered(ops)
    requires Run(ops).entries != [] && Run(ops).expireAt.None?
    ensures |Run(ops).entries| == 1 && Rescored(ops, Run(ops).entries[0])
  {
    ScoresAreExplained(ops);
  }

  // ----- the deadline and the order of the set -----

  predicate AnyAfter(z: seq<Entry>, cutoff: int) {
    exists e :: e in z && e.score > cutoff
  }

  /**
   The deadline after every operation: an admitted reserve sets it, whatever empties the set on the way loses
   it, so the reconcile of the only entry leaves a key without one, and everything else keeps it.
   */
  lemma DeadlineExactly(k: Key, op: Op)
    ensures Admitted(k, op) ==>
              if op.window <= 0 then Step(k, op) == Absent else Step(k, op).expireAt == Some(op.now + op.window)
    ensures op.Reserve? && !Admitted(k, op) ==>
              Step(k, op).expireAt == if AnyAfter(k.entries, op.now - op.window) then k.expireAt else None
    ensures op.Reconcile? ==>
              Step(k, op).expireAt == if Find(k.entries, op.id).Some? && |k.entries| == 1 then None else k.expireAt
    ensures op.Expire? ==> Step(k, op) == if Expired(k.expireAt, op.now) then Absent else k
  {
    if op.Reserve? {
      LiveMeansAnyAfter(k.entries, op.now - op.window);
    } else if op.Reconcile? {
      RemoveMembers(k.entries, op.id);
    }
  }

  lemma LiveMeansAnyAfter(z: seq<Entry>, cutoff: int)
    ensures Trim(z, cutoff) != [] <==> AnyAfter(z, cutoff)
  {
    var live := Trim(z, cutoff);
    TrimMembers(z, cutoff);
    assert live != [] ==> live[0] in live;
  }

  predicate ByScore(z: seq<Entry>) {
    forall i, j :: 0 <= i < j < |z| ==> z[i].score <= z[j].score
  }

  lemma ConsOrdered(e: Entry, z: seq<Entry>)
    requires ByScore(z) && forall i :: 0 <= i < |z| ==> e.score <= z[i].score
    ensures ByScore([e] + z)
  {
  }

  lemma {:induction false} InsertOrdered(z: seq<Entry>, e: Entry)
    requires ByScore(z)
    ensures ByScore(Insert(z, e))
  {
    if z == [] || Before(e, z[0]) {
      ConsOrdered(e, z);
    } else {
      var rest := Insert(z[1..], e);
      InsertOrdered(z[1..], e);
      InsertMembers(z[1..], e);
      forall i | 0 <= i < |rest| ensures z[0].score <= rest[i].score {
        assert rest[i] in rest;
      }
      ConsOrdered(z[0], rest);
    }
  }

  lemma {:induction false} TrimOrdered(z: seq<Entry>, cutoff: int)
    requires ByScore(z)
    ensures ByScore(Trim(z, cutoff))
  {
    if z != [] {
      var rest := Trim(z[1..], cutoff);
      TrimOrdered(z[1..], cutoff);
      TrimMembers(z[1..], cutoff);
      forall i | 0 <= i < |rest| ensures z[0].score <= rest[i].score {
        assert rest[i] in rest;
      }
      ConsOrdered(z[0], rest);
    }
  }

  lemma {:induction false} RemoveOrdered(z: seq<Entry>, id: string)
    requires ByScore(z)
    ensures ByScore(Remove(z, id))
  {
    if z != [] && z[0].id != id {
      var rest := Remove(z[1..], id);
      RemoveOrdered(z[1..], id);
      RemoveMembers(z[1..], id);
      forall i | 0 <= i < |rest| ensures z[0].score <= rest[i].score {
        assert rest[i] in rest;
      }
      ConsOrdered(z[0], rest);
    }
  }

  /** The stored set is always in ascending order of scores. */
  lemma {:induction false} SetIsOrdered(ops: seq<Op>)
    ensures ByScore(Run(ops).entries)
  {
    if ops != [] {
      var k, op := Run(Front(ops)), Last(ops);
      SetIsOrdered(Front(ops));
      match op
      case Reserve(id, est, _, window, now) =>
        TrimOrdered(k.entries, now - window);
        InsertOrdered(Trim(k.entries, now - window), Entry(id, est, now));
      case Reconcile(id, actual, now) =>
        RemoveOrdered(k.entries, id);
        InsertOrdered(Remove(k.entries, id), Entry(id, actual, now));
      case Expire(_) =>
    }
  }
}
