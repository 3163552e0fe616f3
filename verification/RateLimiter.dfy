/**
 The limiter as Redis holds it: a sorted set of member strings, read back by
 Lua pattern matching.  `LimiterKey` carries out the two scripts on it, and
 `TextRefinesRecords` shows that the strings behave as the records of TokenWindow.
 */
module RateLimiter {
  import opened Common
  import opened MemberCodec
  import TokenWindow

  /** The length of `str(uuid.uuid4())`. */
  const ID_LENGTH: nat := 36

  datatype Item = Item(member: string, score: int)
  datatype State = State(items: seq<Item>, expireAt: Option<int>)
  /** What a script replies: 1, 0, or a Lua error on a member it cannot read. */
  datatype Reply = Yes | No | ScriptError

  // ----- sorted-set commands -----

  predicate ItemBefore(a: Item, b: Item) {
    a.score < b.score || (a.score == b.score && LexLess(a.member, b.member))
  }

  function ZInsert(z: seq<Item>, x: Item): seq<Item> {
    if z == [] || ItemBefore(x, z[0]) then [x] + z else [z[0]] + ZInsert(z[1..], x)
  }

  function ZRem(z: seq<Item>, member: string): seq<Item> {
    if z == [] then [] else if z[0].member == member then z[1..] else [z[0]] + ZRem(z[1..], member)
  }

  /** ZADD moves the member if it is already stored. */
  function ZAdd(z: seq<Item>, member: string, score: int): seq<Item> {
    ZInsert(ZRem(z, member), Item(member, score))
  }

  function ZRemRangeByScore(z: seq<Item>, max: int): seq<Item> {
    if z == [] then []
    else if z[0].score > max then [z[0]] + ZRemRangeByScore(z[1..], max)
    else ZRemRangeByScore(z[1..], max)
  }

  // ----- what the scripts compute -----

  /** The sum of the parsed costs, or None when some member does not parse. */
  function TotalCost(z: seq<Item>): Option<int> {
    if z == [] then Some(0)
    else
      match (MatchCost(z[0].member), TotalCost(z[1..]))
      case (Some(c), Some(t)) => Some(c + t)
      case _ => None
  }

  function FirstWithId(z: seq<Item>, id: string): Option<string> {
    if z == [] then None
    else if HasIdPrefix(z[0].member, id) then Some(z[0].member)
    else FirstWithId(z[1..], id)
  }

  function Settle(z: seq<Item>, expireAt: Option<int>): State {
    State(z, if z == [] then None else expireAt)
  }

  function TextStep(k: State, op: TokenWindow.Op): (State, Reply) {
    match op
    case Reserve(id, est, budget, window, now) =>
      var live := Settle(ZRemRangeByScore(k.items, now - window), k.expireAt);
      (match TotalCost(live.items)
       case None => (live, ScriptError)
       case Some(total) =>
         if total + est > budget then (live, No)
         else if window <= 0 then (State([], None), Yes)
         else (State(ZAdd(live.items, Member(id, est), now), Some(now + window)), Yes))
    case Reconcile(id, actual, now) =>
      (match FirstWithId(k.items, id)
       case None => (k, No)
       case Some(member) =>
         var rest := Settle(ZRem(k.items, member), k.expireAt);
         (State(ZAdd(rest.items, Member(id, actual), now), rest.expireAt), Yes))
    case Expire(now) =>
      if Expired(k.expireAt, now) then (State([], None), Yes) else (k, No)
  }

  function TextRun(ops: seq<TokenWindow.Op>): State {
    if ops == [] then State([], None) else TextStep(TextRun(Front(ops)), Last(ops)).0
  }

  /** The loop of the reserve script over the members; None for a member without a cost. */
  method SumCosts(items: seq<Item>) returns (sum: Option<int>)
    ensures sum == TotalCost(items)
  {
    var total := 0;
    var i := 0;
    while i < |items|
      invariant 0 <= i <= |items|
      invariant match TotalCost(items[i..])
                case None => TotalCost(items).None?
                case Some(t) => TotalCost(items) == Some(total + t)
    {
      assert items[i..][1..] == items[i + 1..];
      var cost := MatchCost(items[i].member);
      if cost.None? {
        return None;
      }
      total := total + cost.value;
      i := i + 1;
    }
    return Some(total);
  }

  /** One API key's sorted set, on which the scripts work in place. */
  class LimiterKey {
    var items: seq<Item>
    var expireAt: Option<int>

    function View(): State
      reads this
    {
      State(items, expireAt)
    }

    constructor ()
      ensures View() == State([], None)
    {
      items, expireAt := [], None;
    }

    /** Trim, sum, and add a provisional entry only if it fits the budget. */
    method Reserve(now: int, window: int, budget: int, est: nat, id: string) returns (reply: Reply)
      requires est < EXPONENT_LIMIT
      modifies this
      ensures (View(), reply) == TextStep(old(View()), TokenWindow.Reserve(id, est, budget, window, now))
    {
      items := ZRemRangeByScore(items, now - window);
      if items == [] {
        expireAt := None;
      }
      var sum := SumCosts(items);
      if sum.None? {
        return ScriptError;
      }
      var total := sum.value;
      if total + est > budget {
        return No;
      }
      items := ZAdd(items, Member(id, est), now);
      expireAt := Some(now + window);
      if window <= 0 {
        items, expireAt := [], None;
      }
      return Yes;
    }

    /** Replace the entry of a reservation, if it is still stored, by its true cost at the present time. */
    method Reconcile(id: string, actual: nat, now: int) returns (reply: Reply)
      requires actual < EXPONENT_LIMIT
      modifies this
      ensures (View(), reply) == TextStep(old(View()), TokenWindow.Reconcile(id, actual, now))
    {
      var i := 0;
      while i < |items|
        invariant 0 <= i <= |items|
        invariant View() == old(View())
        invariant FirstWithId(items, id) == FirstWithId(items[i..], id)
      {
        assert items[i..][1..] == items[i + 1..];
        var member := items[i].member;
        if HasIdPrefix(member, id) {
          items := ZRem(items, member);
          if items == [] {
            expireAt := None;
          }
          items := ZAdd(items, Member(id, actual), now);
          return Yes;
        }
        i := i + 1;
      }
      return No;
    }
  }

  // ----- the strings refine the records -----

  predicate ValidId(id: string) {
    |id| == ID_LENGTH && ':' !in id
  }

  predicate ValidOp(op: TokenWindow.Op) {
    match op
    case Reserve(id, est, _, _, _) => ValidId(id) && est < EXPONENT_LIMIT
    case Reconcile(id, actual, _) => ValidId(id) && actual < EXPONENT_LIMIT
    case Expire(_) => true
  }

  /** Reservation ids are never reused. */
  predicate FreshIds(ops: seq<TokenWindow.Op>) {
    forall i, j :: 0 <= i < j < |ops| && ops[i].Reserve? && ops[j].Reserve? ==> ops[i].id != ops[j].id
  }

  predicate ValidRun(ops: seq<TokenWindow.Op>) {
    (forall i :: 0 <= i < |ops| ==> ValidOp(ops[i])) && FreshIds(ops)
  }

  function ToItem(e: TokenWindow.Entry): Item {
    Item(Member(e.id, e.cost), e.score)
  }

  function ToItems(z: seq<TokenWindow.Entry>): (items: seq<Item>)
    ensures |items| == |z|
  {
    if z == [] then [] else [ToItem(z[0])] + ToItems(z[1..])
  }

  predicate ValidEntries(z: seq<TokenWindow.Entry>) {
    forall i :: 0 <= i < |z| ==> ValidId(z[i].id)
  }

  predicate HasId(z: seq<TokenWindow.Entry>, id: string) {
    exists e :: e in z && e.id == id
  }

  predicate DistinctIds(z: seq<TokenWindow.Entry>) {
    z == [] || (!HasId(z[1..], z[0].id) && DistinctIds(z[1..]))
  }

  lemma {:induction false} TrimRefines(z: seq<TokenWindow.Entry>, max: int)
    ensures ZRemRangeByScore(ToItems(z), max) == ToItems(TokenWindow.Trim(z, max))
  {
    if z != [] {
      TrimRefines(z[1..], max);
      assert ToItems(z)[1..] == ToItems(z[1..]);
    }
  }

  lemma {:induction false} InsertRefines(z: seq<TokenWindow.Entry>, e: TokenWindow.Entry)
    ensures ZInsert(ToItems(z), ToItem(e)) == ToItems(TokenWindow.Insert(z, e))
  {
    if z == [] || TokenWindow.Before(e, z[0]) {
      assert ([e] + z)[1..] == z;
    } else {
      InsertRefines(z[1..], e);
      assert ToItems(z)[1..] == ToItems(z[1..]);
      var rest := TokenWindow.Insert(z[1..], e);
      assert ([z[0]] + rest)[1..] == rest;
    }
  }

  /** The Lua sum over the strings is the sum over the records, and never fails. */
  lemma {:induction false} TotalRefines(z: seq<TokenWindow.Entry>)
    requires ValidEntries(z)
    ensures TotalCost(ToItems(z)) == Some(TokenWindow.Sum(z))
  {
    if z != [] {
      TotalRefines(z[1..]);
      assert ToItems(z)[1..] == ToItems(z[1..]);
      CostRoundTrip(z[0].id, z[0].cost);
    }
  }

  lemma {:induction false} LookupRefines(z: seq<TokenWindow.Entry>, id: string)
    requires ValidEntries(z) && ValidId(id)
    ensures FirstWithId(ToItems(z), id)
         == match TokenWindow.Find(z, id) case None => None case Some(e) => Some(Member(e.id, e.cost))
  {
    if z != [] {
      LookupRefines(z[1..], id);
      assert ToItems(z)[1..] == ToItems(z[1..]);
      PrefixSelectsId(id, z[0].id, z[0].cost);
    }
  }

  lemma {:induction false} FindMeansHasId(z: seq<TokenWindow.Entry>, id: string)
    ensures TokenWindow.Find(z, id).Some? <==> HasId(z, id)
    ensures TokenWindow.Find(z, id).Some? ==> TokenWindow.Find(z, id).value.id == id
  {
    if z != [] {
      FindMeansHasId(z[1..], id);
      assert z == [z[0]] + z[1..];
    }
  }

  /** Removing the member string of a stored reservation removes that record. */
  lemma {:induction false} RemRefines(z: seq<TokenWindow.Entry>, id: string)
    requires ValidEntries(z) && ValidId(id) && TokenWindow.Find(z, id).Some?
    ensures var e := TokenWindow.Find(z, id).value;
            ZRem(ToItems(z), Member(e.id, e.cost)) == ToItems(TokenWindow.Remove(z, id))
  {
    var e := TokenWindow.Find(z, id).value;
    assert ToItems(z)[1..] == ToItems(z[1..]);
    FindMeansHasId(z, id);
    if z[0].id != id {
      RemRefines(z[1..], id);
      var rest := TokenWindow.Remove(z[1..], id);
      assert ([z[0]] + rest)[1..] == rest;
      if Member(z[0].id, z[0].cost) == Member(e.id, e.cost) {
        MemberInjective(z[0].id, z[0].cost, e.id, e.cost);
      }
    }
  }

  /** ZADD of a reservation that is not stored overwrites nothing. */
  lemma {:induction false} AddRefines(z: seq<TokenWindow.Entry>, e: TokenWindow.Entry)
    requires ValidEntries(z) && ValidId(e.id) && !HasId(z, e.id)
    ensures ZAdd(ToItems(z), Member(e.id, e.cost), e.score) == ToItems(TokenWindow.Insert(z, e))
  {
    AbsentMember(z, e);
    InsertRefines(z, e);
  }

  lemma {:induction false} AbsentMember(z: seq<TokenWindow.Entry>, e: TokenWindow.Entry)
    requires ValidEntries(z) && ValidId(e.id) && !HasId(z, e.id)
    ensures ZRem(ToItems(z), Member(e.id, e.cost)) == ToItems(z)
  {
    if z != [] {
      AbsentMember(z[1..], e);
      assert ToItems(z)[1..] == ToItems(z[1..]);
      if Member(z[0].id, z[0].cost) == Member(e.id, e.cost) {
        MemberInjective(z[0].id, z[0].cost, e.id, e.cost);
      }
    }
  }

  lemma {:induction false} DistinctInsert(z: seq<TokenWindow.Entry>, e: TokenWindow.Entry)
    requires DistinctIds(z) && !HasId(z, e.id)
    ensures DistinctIds(TokenWindow.Insert(z, e))
  {
    TokenWindow.InsertMembers(z, e);
    if z == [] || TokenWindow.Before(e, z[0]) {
      assert ([e] + z)[1..] == z;
    } else {
      var rest := TokenWindow.Insert(z[1..], e);
      DistinctInsert(z[1..], e);
      TokenWindow.InsertMembers(z[1..], e);
      assert ([z[0]] + rest)[1..] == rest;
    }
  }

  lemma {:induction false} DistinctTrim(z: seq<TokenWindow.Entry>, max: int)
    requires DistinctIds(z)
    ensures DistinctIds(TokenWindow.Trim(z, max))
  {
    if z != [] {
      var rest := TokenWindow.Trim(z[1..], max);
      DistinctTrim(z[1..], max);
      TokenWindow.TrimMembers(z[1..], max);
      assert ([z[0]] + rest)[1..] == rest;
    }
  }

  lemma {:induction false} DistinctRemove(z: seq<TokenWindow.Entry>, id: string)
    requires DistinctIds(z)
    ensures DistinctIds(TokenWindow.Remove(z, id)) && !HasId(TokenWindow.Remove(z, id), id)
  {
    if z != [] && z[0].id != id {
      var rest := TokenWindow.Remove(z[1..], id);
      DistinctRemove(z[1..], id);
      TokenWindow.RemoveMembers(z[1..], id);
      assert ([z[0]] + rest)[1..] == rest;
    }
  }

  function ToState(k: TokenWindow.Key): State {
    State(ToItems(k.entries), k.expireAt)
  }

  predicate Good(z: seq<TokenWindow.Entry>) {
    (forall e :: e in z ==> ValidId(e.id)) && DistinctIds(z)
  }

  /** The record-level meaning of a script's reply. */
  function Expected(k: TokenWindow.Key, op: TokenWindow.Op): Reply {
    match op
    case Reserve(_, _, _, _, _) => if TokenWindow.Admitted(k, op) then Yes else No
    case Reconcile(id, _, _) => if HasId(k.entries, id) then Yes else No
    case Expire(now) => if Expired(k.expireAt, now) then Yes else No
  }

  lemma ReserveRefines(k: TokenWindow.Key, op: TokenWindow.Op)
    requires Good(k.entries) && op.Reserve? && ValidOp(op) && !HasId(k.entries, op.id)
    ensures TextStep(ToState(k), op) == (ToState(TokenWindow.Step(k, op)), Expected(k, op))
    ensures Good(TokenWindow.Step(k, op).entries)
    ensures forall e :: e in TokenWindow.Step(k, op).entries ==> e in k.entries || e.id == op.id
  {
    ReserveKeepsGood(k, op);
    var live := TokenWindow.Trim(k.entries, op.now - op.window);
    LiveRefines(k.entries, op.now - op.window);
    AddRefines(live, TokenWindow.Entry(op.id, op.est, op.now));
    if TokenWindow.Admitted(k, op) {
      AdmitOnLive(k, op, live);
    } else {
      DenyOnLive(k, op, live);
    }
  }

  lemma DenyOnLive(k: TokenWindow.Key, op: TokenWindow.Op, live: seq<TokenWindow.Entry>)
    requires op.Reserve? && live == TokenWindow.Trim(k.entries, op.now - op.window) && !TokenWindow.Admitted(k, op)
    requires ZRemRangeByScore(ToItems(k.entries), op.now - op.window) == ToItems(live)
    requires TotalCost(ToItems(live)) == Some(TokenWindow.Sum(live))
    ensures TextStep(ToState(k), op) == (ToState(TokenWindow.Step(k, op)), Expected(k, op))
  {
  }

  lemma AdmitOnLive(k: TokenWindow.Key, op: TokenWindow.Op, live: seq<TokenWindow.Entry>)
    requires op.Reserve? && live == TokenWindow.Trim(k.entries, op.now - op.window) && TokenWindow.Admitted(k, op)
    requires ZRemRangeByScore(ToItems(k.entries), op.now - op.window) == ToItems(live)
    requires TotalCost(ToItems(live)) == Some(TokenWindow.Sum(live))
    requires ZAdd(ToItems(live), Member(op.id, op.est), op.now)
          == ToItems(TokenWindow.Insert(live, TokenWindow.Entry(op.id, op.est, op.now)))
    ensures TextStep(ToState(k), op) == (ToState(TokenWindow.Step(k, op)), Expected(k, op))
  {
  }

  lemma ReserveKeepsGood(k: TokenWindow.Key, op: TokenWindow.Op)
    requires Good(k.entries) && op.Reserve? && ValidOp(op) && !HasId(k.entries, op.id)
    ensures Good(TokenWindow.Step(k, op).entries)
    ensures forall e :: e in TokenWindow.Step(k, op).entries ==> e in k.entries || e.id == op.id
  {
    var live, e := TokenWindow.Trim(k.entries, op.now - op.window), TokenWindow.Entry(op.id, op.est, op.now);
    TokenWindow.TrimMembers(k.entries, op.now - op.window);
    DistinctTrim(k.entries, op.now - op.window);
    TokenWindow.InsertMembers(live, e);
    DistinctInsert(live, e);
  }

  lemma LiveRefines(z: seq<TokenWindow.Entry>, max: int)
    requires Good(z)
    ensures var live := TokenWindow.Trim(z, max);
            && ZRemRangeByScore(ToItems(z), max) == ToItems(live)
            && TotalCost(ToItems(live)) == Some(TokenWindow.Sum(live))
            && Good(live) && forall e :: e in live ==> e in z
  {
    TrimRefines(z, max);
    TokenWindow.TrimMembers(z, max);
    DistinctTrim(z, max);
    TotalRefines(TokenWindow.Trim(z, max));
  }

  lemma ReconcileRefines(k: TokenWindow.Key, op: TokenWindow.Op)
    requires Good(k.entries) && op.Reconcile? && ValidOp(op)
    ensures TextStep(ToState(k), op) == (ToState(TokenWindow.Step(k, op)), Expected(k, op))
    ensures Good(TokenWindow.Step(k, op).entries)
    ensures forall e :: e in TokenWindow.Step(k, op).entries ==> e in k.entries || HasId(k.entries, e.id)
  {
    LookupRefines(k.entries, op.id);
    FindMeansHasId(k.entries, op.id);
    if HasId(k.entries, op.id) {
      var rest, e := TokenWindow.Remove(k.entries, op.id), TokenWindow.Entry(op.id, op.actual, op.now);
      RemRefines(k.entries, op.id);
      TokenWindow.RemoveMembers(k.entries, op.id);
      DistinctRemove(k.entries, op.id);
      AddRefines(rest, e);
      TokenWindow.InsertMembers(rest, e);
      DistinctInsert(rest, e);
    }
  }

  predicate ReservedBefore(ops: seq<TokenWindow.Op>, id: string) {
    exists i :: 0 <= i < |ops| && ops[i].Reserve? && ops[i].id == id
  }

  /**
   In every run with well-formed, never reused ids and costs below the exponent limit, the strings
   hold exactly the record-level state, at most one member per reservation is stored, and every
   script replies what the records say; in particular no script fails.
   */
  lemma {:induction false} TextRefinesRecords(ops: seq<TokenWindow.Op>)
    requires ValidRun(ops)
    ensures TextRun(ops) == ToState(TokenWindow.Run(ops))
    ensures Good(TokenWindow.Run(ops).entries)
    ensures forall e :: e in TokenWindow.Run(ops).entries ==> ReservedBefore(ops, e.id)
    ensures ops != [] ==>
              TextStep(TextRun(Front(ops)), Last(ops)).1 == Expected(TokenWindow.Run(Front(ops)), Last(ops))
  {
    if ops != [] {
      var past, op := Front(ops), Last(ops);
      TextRefinesRecords(past);
      var k := TokenWindow.Run(past);
      forall id | ReservedBefore(past, id) ensures ReservedBefore(ops, id) {
        var i :| 0 <= i < |past| && past[i].Reserve? && past[i].id == id;
        assert ops[i] == past[i];
      }
      match op
      case Reserve(id, _, _, _, _) =>
        assert ReservedBefore(ops, id) by {
          assert ops[|ops| - 1].id == id;
        }
        ReserveRefines(k, op);
      case Reconcile(_, _, _) => ReconcileRefines(k, op);
      case Expire(_) =>
    }
  }

  // ----- what a stored reservation is charged -----

  /** The amount of the last operation on a reservation. */
  function LastCharge(ops: seq<TokenWindow.Op>, id: string): Option<nat> {
    if ops == [] then None
    else
      match Last(ops)
      case Reserve(x, est, _, _, _) => if x == id then Some(est) else LastCharge(Front(ops), id)
      case Reconcile(x, actual, _) => if x == id then Some(actual) else LastCharge(Front(ops), id)
      case Expire(_) => LastCharge(Front(ops), id)
  }

  /** Every stored reservation is charged what the last operation on it said. */
  lemma {:induction false} StoredCostIsLastCharge(ops: seq<TokenWindow.Op>)
    requires ValidRun(ops)
    ensures forall e :: e in TokenWindow.Run(ops).entries ==> LastCharge(ops, e.id) == Some(e.cost)
  {
    if ops != [] {
      var past, op := Front(ops), Last(ops);
      StoredCostIsLastCharge(past);
      TextRefinesRecords(past);
      var k := TokenWindow.Run(past);
      match op
      case Reserve(id, _, _, _, _) =>
        assert !HasId(k.entries, id);
        ReserveKeepsOthers(k, op);
      case Reconcile(_, _, _) => ReconcileKeepsOthers(k, op);
      case Expire(_) =>
    }
  }

  lemma ReserveKeepsOthers(k: TokenWindow.Key, op: TokenWindow.Op)
    requires op.Reserve? && !HasId(k.entries, op.id)
    ensures forall e :: e in TokenWindow.Step(k, op).entries ==>
              if e.id == op.id then e.cost == op.est else e in k.entries
  {
    var live := TokenWindow.Trim(k.entries, op.now - op.window);
    TokenWindow.TrimMembers(k.entries, op.now - op.window);
    TokenWindow.InsertMembers(live, TokenWindow.Entry(op.id, op.est, op.now));
  }

  lemma ReconcileKeepsOthers(k: TokenWindow.Key, op: TokenWindow.Op)
    requires op.Reconcile? && Good(k.entries)
    ensures forall e :: e in TokenWindow.Step(k, op).entries ==>
              if e.id == op.id then e.cost == op.actual else e in k.entries
  {
    FindMeansHasId(k.entries, op.id);
    var rest := TokenWindow.Remove(k.entries, op.id);
    TokenWindow.RemoveMembers(k.entries, op.id);
    DistinctRemove(k.entries, op.id);
    TokenWindow.InsertMembers(rest, TokenWindow.Entry(op.id, op.actual, op.now));
  }
}
