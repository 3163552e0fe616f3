/**
 The hot-reloadable backend registry.  A reload reads the table, then builds and
 swaps in new clients in one uninterrupted step, then closes the old clients one by
 one; the last part of several reloads can interleave.
 */
module BackendRegistry {
  import opened Common
  import opened Sorting
  import opened Routing

  /** Clients are numbered in the order in which the factory makes them. */
  type Client = nat

  /** A Python dict from backend ids to clients: insertion order and contents. */
  datatype Dict = Dict(order: seq<BackendId>, at: map<BackendId, Client>) {
    ghost predicate Valid() {
      && (forall id :: id in order <==> id in at)
      && (forall i, j :: 0 <= i < j < |order| ==> order[i] != order[j])
    }

    function Put(id: BackendId, c: Client): Dict {
      Dict(if id in at then order else order + [id], at[id := c])
    }

    function Values(): (v: seq<Client>)
      requires Valid()
      ensures |v| == |order| && forall i :: 0 <= i < |v| ==> v[i] == at[order[i]]
    {
      seq(|order|, i requires 0 <= i < |order| => assert order[i] in order; at[order[i]])
    }
  }

  const EmptyDict := Dict([], map[])

  datatype State = State(
    clients: Dict,
    byModel: map<string, seq<Backend>>,
    made: nat,                      // clients made so far
    closing: seq<seq<Client>>,      // old clients that each finished reload still has to close
    closed: seq<Client>)            // clients closed so far, in order

  const Initial := State(EmptyDict, map[], 0, [], [])

  datatype Event = Install(rows: seq<Backend>, works: Backend -> bool) | CloseNext(reload: nat)

  function PriorityRank(): Backend -> Rank {
    (b: Backend) => Rank(0, b.priority as real)
  }

  // ----- one reload -----

  function Group(g: map<string, seq<Backend>>, m: string): seq<Backend> {
    if m in g then g[m] else []
  }

  function Grouped(rows: seq<Backend>): map<string, seq<Backend>> {
    if rows == [] then map[]
    else
      var g, b := Grouped(Front(rows)), Last(rows);
      if b.enabled then g[b.model := Group(g, b.model) + [b]] else g
  }

  function SortedGroups(g: map<string, seq<Backend>>): map<string, seq<Backend>> {
    map m | m in g :: Sort(g[m], PriorityRank())
  }

  function Enabled(rows: seq<Backend>): nat {
    if rows == [] then 0 else Enabled(Front(rows)) + if Last(rows).enabled then 1 else 0
  }

  function NewClients(rows: seq<Backend>, made: nat): Dict {
    if rows == [] then EmptyDict
    else
      var d := NewClients(Front(rows), made);
      if Last(rows).enabled then d.Put(Last(rows).id, made + Enabled(Front(rows))) else d
  }

  lemma {:induction false} NewClientsValid(rows: seq<Backend>, made: nat)
    ensures NewClients(rows, made).Valid()
  {
    if rows != [] {
      NewClientsValid(Front(rows), made);
    }
  }

  /** The clients that a reload of these rows installs. */
  function NewValues(rows: seq<Backend>, made: nat): seq<Client> {
    NewClientsValid(rows, made);
    NewClients(rows, made).Values()
  }

  /** The rows before the first enabled one that the client factory rejects. */
  function Buildable(rows: seq<Backend>, works: Backend -> bool): (n: nat)
    ensures n <= |rows|
    ensures n < |rows| ==> rows[n].enabled && !works(rows[n])
    ensures forall i :: 0 <= i < n ==> !rows[i].enabled || works(rows[i])
  {
    if rows == [] || (rows[0].enabled && !works(rows[0])) then 0 else 1 + Buildable(rows[1..], works)
  }

  function InstallStep(s: State, rows: seq<Backend>, works: Backend -> bool): (t: State)
    requires s.clients.Valid()
    ensures t.clients.Valid()
  {
    NewClientsValid(rows, s.made);
    var n := Buildable(rows, works);
    if n < |rows| then s.(made := s.made + Enabled(rows[..n])) // the factory's error leaves the registry as it was
    else State(NewClients(rows, s.made), SortedGroups(Grouped(rows)), s.made + Enabled(rows),
               s.closing + [s.clients.Values()], s.closed)
  }

  function CloseStep(s: State, reload: nat): State {
    if reload >= |s.closing| || s.closing[reload] == [] then s
    else s.(closing := s.closing[reload := s.closing[reload][1..]], closed := s.closed + [s.closing[reload][0]])
  }

  function Step(s: State, e: Event): (t: State)
    requires s.clients.Valid()
    ensures t.clients.Valid()
  {
    match e
    case Install(rows, works) => InstallStep(s, rows, works)
    case CloseNext(reload) => CloseStep(s, reload)
  }

  function Run(events: seq<Event>): (s: State)
    ensures s.clients.Valid()
  {
    if events == [] then Initial else Step(Run(Front(events)), Last(events))
  }

  predicate Servable(s: State, m: string) {
    forall b :: b in Group(s.byModel, m) ==> b.id in s.clients.at
  }

  /** What the loop has built from these rows. */
  ghost predicate Built(rows: seq<Backend>, made: nat,
                        clients: Dict, groups: map<string, seq<Backend>>, made': nat) {
    && clients == NewClients(rows, made) && groups == Grouped(rows)
    && made' == made + Enabled(rows)
  }

  lemma BuildsNext(rows: seq<Backend>, b: Backend, made: nat,
                   clients: Dict, groups: map<string, seq<Backend>>, made': nat)
    requires Built(rows, made, clients, groups, made')
    ensures if b.enabled
            then var grown := groups[b.model := Group(groups, b.model) + [b]];
                 Built(rows + [b], made, clients.Put(b.id, made'), grown, made' + 1)
            else Built(rows + [b], made, clients, groups, made')
  {
    assert Front(rows + [b]) == rows;
  }

  /** Sorts every group by priority, in whatever order the groups come. */
  method SortGroups(groups: map<string, seq<Backend>>) returns (sorted: map<string, seq<Backend>>)
    ensures sorted == SortedGroups(groups)
  {
    sorted := map[];
    var todo := groups.Keys;
    while todo != {}
      invariant todo <= groups.Keys
      invariant sorted == map m | m in groups && m !in todo :: Sort(groups[m], PriorityRank())
    {
      var m :| m in todo;
      sorted := sorted[m := Sort(groups[m], PriorityRank())];
      todo := todo - {m};
    }
  }

  /** The loop over the snapshot; the client factory may reject a row and so end it early. */
  method Build(rows: seq<Backend>, works: Backend -> bool, made: nat)
    returns (ok: bool, clients: Dict, groups: map<string, seq<Backend>>, made': nat)
    ensures ok <==> Buildable(rows, works) == |rows|
    ensures made' == made + Enabled(rows[..Buildable(rows, works)])
    ensures ok ==> clients == NewClients(rows, made) && groups == Grouped(rows)
  {
    ok, clients, groups, made' := true, EmptyDict, map[], made;
    for i := 0 to |rows|
      invariant i <= Buildable(rows, works)
      invariant Built(rows[..i], made, clients, groups, made')
    {
      var b := rows[i];
      BuildsNext(rows[..i], b, made, clients, groups, made');
      assert rows[..i + 1] == rows[..i] + [b];
      if b.enabled {
        if !works(b) {
          ok := false;
          return;
        }
        clients := clients.Put(b.id, made');
        made' := made' + 1;
        groups := groups[b.model := Group(groups, b.model) + [b]];
      }
    }
    assert rows[..|rows|] == rows;
  }

  class Registry {
    var clients: Dict
    var byModel: map<string, seq<Backend>>
    var made: nat
    var closing: seq<seq<Client>>
    var closed: seq<Client>

    function View(): State
      reads this
    {
      State(clients, byModel, made, closing, closed)
    }

    constructor ()
      ensures View() == Initial
    {
      clients, byModel, made, closing, closed := EmptyDict, map[], 0, [], [];
    }

    /** The part of `reload` from the table snapshot to the swap, which runs without interruption. */
    method Install(rows: seq<Backend>, works: Backend -> bool) returns (ok: bool)
      requires clients.Valid()
      modifies this
      ensures View() == InstallStep(old(View()), rows, works)
      ensures ok <==> forall i :: 0 <= i < |rows| && rows[i].enabled ==> works(rows[i])
    {
      var oldClients := clients.Values();
      var newClients, groups;
      ok, newClients, groups, made := Build(rows, works, made);
      assert rows[..|rows|] == rows;
      if ok {
        var sorted := SortGroups(groups);
        clients, byModel, closing := newClients, sorted, closing + [oldClients];
      }
    }

    /** One `await client.aclose()` of a reload that has already swapped. */
    method CloseNext(reload: nat)
      modifies this
      ensures View() == CloseStep(old(View()), reload)
    {
      if reload < |closing| && closing[reload] != [] {
        closed := closed + [closing[reload][0]];
        closing := closing[reload := closing[reload][1..]];
      }
    }

    method Candidates(m: string) returns (pairs: seq<(Backend, Client)>)
      requires Servable(View(), m)
      ensures |pairs| == |Group(byModel, m)|
      ensures forall i :: 0 <= i < |pairs| ==>
                pairs[i].0 == Group(byModel, m)[i] && pairs[i].1 == clients.at[pairs[i].0.id]
    {
      pairs := [];
      for i := 0 to |Group(byModel, m)|
        invariant |pairs| == i
        invariant forall k :: 0 <= k < i ==>
                    pairs[k].0 == Group(byModel, m)[k] && pairs[k].1 == clients.at[pairs[k].0.id]
      {
        var b := Group(byModel, m)[i];
        pairs := pairs + [(b, clients.at[b.id])];
      }
    }
  }

  // ----- the registry agrees with its snapshot -----

  /** The enabled rows of a model, in table order: the query of `list_enabled_for_model` before ordering. */
  function Matching(rows: seq<Backend>, m: string): seq<Backend> {
    if rows == [] then []
    else Matching(Front(rows), m) + if Last(rows).enabled && Last(rows).model == m then [Last(rows)] else []
  }

  lemma {:induction false} GroupIsMatching(rows: seq<Backend>, m: string)
    ensures Group(Grouped(rows), m) == Matching(rows, m)
  {
    if rows != [] {
      GroupIsMatching(Front(rows), m);
    }
  }

  lemma {:induction false} MatchingHaveClients(rows: seq<Backend>, m: string, made: nat)
    ensures forall b :: b in Matching(rows, m) ==>
              b in rows && b.enabled && b.model == m && b.id in NewClients(rows, made).at
  {
    if rows != [] {
      MatchingHaveClients(Front(rows), m, made);
    }
  }

  /** The table snapshot of the last reload that succeeded. */
  function LastInstalled(events: seq<Event>): seq<Backend> {
    if events == [] then []
    else
      match Last(events)
      case Install(rows, works) =>
        if Buildable(rows, works) == |rows| then rows else LastInstalled(Front(events))
      case CloseNext(_) => LastInstalled(Front(events))
  }

  /**
   Whatever reloads and closes interleave, the candidates of a model are the stable priority
   sort of its enabled rows in the snapshot last swapped in, and each of them has a client.
   */
  lemma {:induction false} CandidatesAgreeWithSnapshot(events: seq<Event>, m: string)
    ensures Group(Run(events).byModel, m) == Sort(Matching(LastInstalled(events), m), PriorityRank())
    ensures Servable(Run(events), m)
    ensures forall b :: b in Group(Run(events).byModel, m) ==> b.enabled && b.model == m
  {
    if events != [] {
      CandidatesAgreeWithSnapshot(Front(events), m);
      var s, e := Run(Front(events)), Last(events);
      if e.Install? && Buildable(e.rows, e.works) == |e.rows| {
        GroupIsMatching(e.rows, m);
        MatchingHaveClients(e.rows, m, s.made);
        SortContents(Matching(e.rows, m), PriorityRank());
        forall b | b in Group(Run(events).byModel, m) ensures b in Matching(e.rows, m) {
          assert b in multiset(Group(Run(events).byModel, m));
        }
      }
    }
  }

  lemma {:induction false} MatchingPrecedes(rows: seq<Backend>, m: string, p: nat, q: nat)
    requires p < q < |Matching(rows, m)|
    ensures Precedes(rows, Matching(rows, m)[p], Matching(rows, m)[q])
  {
    var past, b, g := Front(rows), Last(rows), Matching(Front(rows), m);
    if q < |g| {
      MatchingPrecedes(past, m, p, q);
      var i, j :| 0 <= i < j < |past| && past[i] == g[p] && past[j] == g[q];
      assert rows[i] == g[p] && rows[j] == g[q];
    } else {
      MatchingInRows(past, m);
      assert g[p] in past;
      var i :| 0 <= i < |past| && past[i] == g[p];
      assert rows[i] == g[p] && rows[|rows| - 1] == b;
    }
  }

  /** The matching rows are the enabled rows of the model. */
  lemma {:induction false} MatchingInRows(rows: seq<Backend>, m: string)
    ensures forall b :: b in Matching(rows, m) <==> b in rows && b.enabled && b.model == m
  {
    if rows != [] {
      MatchingInRows(Front(rows), m);
      assert rows == Front(rows) + [Last(rows)];
    }
  }

  /**
   Whatever reloads and closes interleave, the candidates of a model are its enabled rows in the snapshot
   last swapped in, by ascending priority number, rows of equal priority as they stand in the table.
   */
  lemma CandidatesByPriority(events: seq<Event>, m: string)
    ensures var g, rows := Group(Run(events).byModel, m), LastInstalled(events);
            && (forall b :: b in g <==> b in rows && b.enabled && b.model == m)
            && (forall i, j :: 0 <= i < j < |g| ==>
                  g[i].priority <= g[j].priority && (g[i].priority == g[j].priority ==> Precedes(rows, g[i], g[j])))
  {
    var g, rows := Group(Run(events).byModel, m), LastInstalled(events);
    CandidatesAgreeWithSnapshot(events, m);
    SortedMatching(rows, m);
  }

  /** The matching rows in stable order of their priorities. */
  lemma SortedMatching(rows: seq<Backend>, m: string)
    ensures var g := Sort(Matching(rows, m), PriorityRank());
            && (forall b :: b in g <==> b in rows && b.enabled && b.model == m)
            && (forall i, j :: 0 <= i < j < |g| ==>
                  g[i].priority <= g[j].priority && (g[i].priority == g[j].priority ==> Precedes(rows, g[i], g[j])))
  {
    var matching := Matching(rows, m);
    var g := Sort(matching, PriorityRank());
    MatchingInRows(rows, m);
    SortContents(matching, PriorityRank());
    forall b ensures b in g <==> b in matching {
      assert b in g <==> b in multiset(g);
    }
    forall i, j | 0 <= i < j < |g|
      ensures g[i].priority <= g[j].priority && (g[i].priority == g[j].priority ==> Precedes(rows, g[i], g[j]))
    {
      PairByPriority(rows, m, i, j);
    }
  }

  lemma PairByPriority(rows: seq<Backend>, m: string, i: nat, j: nat)
    requires i < j < |Sort(Matching(rows, m), PriorityRank())|
    ensures var g := Sort(Matching(rows, m), PriorityRank());
            g[i].priority <= g[j].priority && (g[i].priority == g[j].priority ==> Precedes(rows, g[i], g[j]))
  {
    var matching := Matching(rows, m);
    var a, b := Sort(matching, PriorityRank())[i], Sort(matching, PriorityRank())[j];
    SortPrecedes(matching, PriorityRank(), i, j);
    if a.priority == b.priority {
      var p, q :| 0 <= p < q < |matching| && matching[p] == a && matching[q] == b;
      MatchingPrecedes(rows, m, p, q);
    }
  }

  /** With distinct ids, each enabled row is served by the client that the factory made when it came to that row. */
  lemma {:induction false} ClientIsOwn(rows: seq<Backend>, made: nat, i: nat)
    requires DistinctIds(rows) && i < |rows| && rows[i].enabled
    ensures var at, before := NewClients(rows, made).at, set j | 0 <= j < i && rows[j].enabled;
            rows[i].id in at && at[rows[i].id] == made + |before|
  {
    var past := Front(rows);
    if i < |past| {
      ClientIsOwn(past, made, i);
      assert (set j | 0 <= j < i && past[j].enabled) == (set j | 0 <= j < i && rows[j].enabled);
    } else {
      EnabledCount(past);
      assert (set j | 0 <= j < i && past[j].enabled) == (set j | 0 <= j < i && rows[j].enabled);
    }
  }

  lemma {:induction false} EnabledCount(rows: seq<Backend>)
    ensures Enabled(rows) == |set j | 0 <= j < |rows| && rows[j].enabled|
  {
    if rows != [] {
      var past := Front(rows);
      EnabledCount(past);
      var before, all := set j | 0 <= j < |past| && past[j].enabled, set j | 0 <= j < |rows| && rows[j].enabled;
      assert all == before + if Last(rows).enabled then {|rows| - 1} else {};
    }
  }

  /** Table snapshots have a primary key. */
  ghost predicate KeyedSnapshots(events: seq<Event>) {
    forall i :: 0 <= i < |events| && events[i].Install? ==> DistinctIds(events[i].rows)
  }

  lemma {:induction false} MatchingDistinct(rows: seq<Backend>, m: string)
    requires DistinctIds(rows)
    ensures DistinctIds(Matching(rows, m)) && forall b :: b in Matching(rows, m) ==> b in rows
  {
    if rows != [] {
      MatchingDistinct(Front(rows), m);
      assert forall b :: b in Front(rows) ==> b.id != Last(rows).id;
    }
  }

  lemma {:induction false} LastInstalledDistinct(events: seq<Event>)
    requires KeyedSnapshots(events)
    ensures DistinctIds(LastInstalled(events))
  {
    if events != [] {
      LastInstalledDistinct(Front(events));
    }
  }

  /** The candidates of a model have distinct ids. */
  lemma CandidatesDistinct(events: seq<Event>, m: string)
    requires KeyedSnapshots(events)
    ensures DistinctIds(Group(Run(events).byModel, m))
  {
    CandidatesAgreeWithSnapshot(events, m);
    LastInstalledDistinct(events);
    MatchingDistinct(LastInstalled(events), m);
    SortDistinct(Matching(LastInstalled(events), m), PriorityRank());
  }

  // ----- client lifecycle -----

  function Flatten(q: seq<seq<Client>>): multiset<Client> {
    if q == [] then multiset{} else Flatten(Front(q)) + multiset(Last(q))
  }

  /** Every client that is installed, waiting to be closed, or closed. */
  function Tracked(s: State): multiset<Client>
    requires s.clients.Valid()
  {
    multiset(s.clients.Values()) + Flatten(s.closing) + multiset(s.closed)
  }

  /** Each tracked client occurs once, and only clients made so far occur. */
  ghost predicate OnceEach(s: State)
    requires s.clients.Valid()
  {
    forall c: Client :: Tracked(s)[c] <= (if c < s.made then 1 else 0)
  }

  lemma PlusCounts(a: multiset<Client>, b: multiset<Client>, c: Client)
    ensures (a + b)[c] == a[c] + b[c]
  {
  }

  lemma FlattenSnoc(q: seq<seq<Client>>, v: seq<Client>, c: Client)
    ensures Flatten(q + [v])[c] == Flatten(q)[c] + multiset(v)[c]
  {
    assert Front(q + [v]) == q;
  }

  lemma {:induction false} FlattenUpdate(q: seq<seq<Client>>, i: nat, c: Client)
    requires i < |q| && q[i] != []
    ensures Flatten(q)[c] == Flatten(q[i := q[i][1..]])[c] + if c == q[i][0] then 1 else 0
  {
    var past, v, w := Front(q), Last(q), q[i][1..];
    assert q == past + [v];
    FlattenSnoc(past, v, c);
    if i == |past| {
      assert q[i := w] == past + [w];
      assert v == [v[0]] + w;
      FlattenSnoc(past, w, c);
    } else {
      assert q[i := w] == past[i := w] + [v];
      FlattenUpdate(past, i, c);
      FlattenSnoc(past[i := w], v, c);
    }
  }

  /** Closing moves a client; it neither makes nor loses one. */
  lemma CloseConserves(s: State, reload: nat)
    requires s.clients.Valid()
    ensures Tracked(CloseStep(s, reload)) == Tracked(s)
  {
    forall c: Client ensures Tracked(CloseStep(s, reload))[c] == Tracked(s)[c] {
      if reload < |s.closing| && s.closing[reload] != [] {
        FlattenUpdate(s.closing, reload, c);
      }
    }
  }

  ghost predicate FreshRange(at: map<BackendId, Client>, low: nat, high: nat) {
    && (forall id :: id in at ==> low <= at[id] < high)
    && (forall a, b :: a in at && b in at && a != b ==> at[a] != at[b])
  }

  lemma {:induction false} NewClientsAreNew(rows: seq<Backend>, made: nat)
    ensures FreshRange(NewClients(rows, made).at, made, made + Enabled(rows))
  {
    if rows != [] {
      NewClientsAreNew(Front(rows), made);
    }
  }

  lemma {:induction false} NoDuplicates(v: seq<Client>, c: Client)
    requires forall i, j :: 0 <= i < j < |v| ==> v[i] != v[j]
    ensures multiset(v)[c] <= 1
  {
    if v != [] {
      NoDuplicates(Front(v), c);
      assert v == Front(v) + [Last(v)];
      assert Last(v) !in Front(v);
    }
  }

  /** A successful reload moves the old clients to the closing queue and adds only new ones. */
  lemma InstallConserves(s: State, rows: seq<Backend>, works: Backend -> bool)
    requires s.clients.Valid() && Buildable(rows, works) == |rows|
    ensures Tracked(InstallStep(s, rows, works)) == Tracked(s) + multiset(NewValues(rows, s.made))
  {
    assert Front(s.closing + [s.clients.Values()]) == s.closing;
    Rearrange(multiset(s.clients.Values()), Flatten(s.closing), multiset(s.closed), multiset(NewValues(rows, s.made)));
  }

  lemma Rearrange(a: multiset<Client>, b: multiset<Client>, c: multiset<Client>, d: multiset<Client>)
    ensures d + (b + a) + c == a + b + c + d
  {
  }

  lemma InstallCounts(s: State, rows: seq<Backend>, works: Backend -> bool, c: Client)
    requires s.clients.Valid()
    ensures Tracked(InstallStep(s, rows, works))[c]
         == if Buildable(rows, works) < |rows| then Tracked(s)[c]
            else Tracked(s)[c] + multiset(NewValues(rows, s.made))[c]
  {
    if Buildable(rows, works) == |rows| {
      InstallConserves(s, rows, works);
      PlusCounts(Tracked(s), multiset(NewValues(rows, s.made)), c);
    } else {
      assert Tracked(InstallStep(s, rows, works)) == Tracked(s);
    }
  }

  lemma InstallTracksOnceAt(s: State, rows: seq<Backend>, works: Backend -> bool, c: Client)
    requires s.clients.Valid() && Tracked(s)[c] <= if c < s.made then 1 else 0
    ensures var t := InstallStep(s, rows, works);
            Tracked(t)[c] <= if c < t.made then 1 else 0
  {
    NewValueOnce(rows, s.made, c);
    InstallCounts(s, rows, works, c);
  }

  lemma InstallTracksOnce(s: State, rows: seq<Backend>, works: Backend -> bool)
    requires s.clients.Valid() && OnceEach(s)
    ensures OnceEach(InstallStep(s, rows, works))
  {
    forall c: Client
      ensures var t := InstallStep(s, rows, works);
              Tracked(t)[c] <= if c < t.made then 1 else 0
    {
      InstallTracksOnceAt(s, rows, works, c);
    }
  }

  lemma NewValueOnce(rows: seq<Backend>, made: nat, c: Client)
    ensures multiset(NewValues(rows, made))[c] <= if made <= c < made + Enabled(rows) then 1 else 0
  {
    NewClientsAreNew(rows, made);
    NewClientsValid(rows, made);
    FreshValuesOnce(NewClients(rows, made), made, made + Enabled(rows), c);
  }

  lemma FreshValuesOnce(d: Dict, low: nat, high: nat, c: Client)
    requires d.Valid() && FreshRange(d.at, low, high)
    ensures multiset(d.Values())[c] <= if low <= c < high then 1 else 0
  {
    var v := d.Values();
    forall i | 0 <= i < |v| ensures d.order[i] in d.at {
      assert d.order[i] in d.order;
    }
    NoDuplicates(v, c);
    if c in multiset(v) {
      assert c in v;
    }
  }

  lemma {:induction false} RunTracksOnce(events: seq<Event>)
    ensures OnceEach(Run(events))
  {
    if events == [] {
      assert Initial.clients.Values() == [];
    } else {
      RunTracksOnce(Front(events));
      var s := Run(Front(events));
      match Last(events)
      case CloseNext(reload) => CloseConserves(s, reload);
      case Install(rows, works) => InstallTracksOnce(s, rows, works);
    }
  }

  lemma InstalledIsOpen(s: State, id: BackendId)
    requires s.clients.Valid() && OnceEach(s) && id in s.clients.at
    ensures s.clients.at[id] !in s.closed
  {
    assert id in s.clients.order;
    var i :| 0 <= i < |s.clients.order| && s.clients.order[i] == id;
    var v := s.clients.Values();
    var c := v[i];
    assert c in multiset(v) && Tracked(s)[c] <= 1;
    assert multiset(s.closed)[c] == 0;
  }

  lemma ClosedOnce(s: State, i: nat, j: nat)
    requires s.clients.Valid() && OnceEach(s) && i < j < |s.closed|
    ensures s.closed[i] != s.closed[j]
  {
    var c := s.closed[i];
    assert Tracked(s)[c] <= 1;
    PlusCounts(multiset(s.clients.Values()) + Flatten(s.closing), multiset(s.closed), c);
    if s.closed[j] == c {
      TwiceMeansTwo(s.closed, i, j);
    }
  }

  /** In every interleaving no installed client has been closed, and no client is closed twice. */
  lemma InstalledClientsAreOpen(events: seq<Event>)
    ensures var s := Run(events);
            && (forall id :: id in s.clients.at ==> s.clients.at[id] !in s.closed)
            && (forall i, j :: 0 <= i < j < |s.closed| ==> s.closed[i] != s.closed[j])
  {
    RunTracksOnce(events);
    var s := Run(events);
    forall id | id in s.clients.at ensures s.clients.at[id] !in s.closed {
      InstalledIsOpen(s, id);
    }
    forall i, j | 0 <= i < j < |s.closed| ensures s.closed[i] != s.closed[j] {
      ClosedOnce(s, i, j);
    }
  }

  // ----- clients that a failed reload leaves behind -----

  /** A reload that fails after the factory has made a client. */
  predicate FailsLate(e: Event) {
    e.Install? && Buildable(e.rows, e.works) < |e.rows| && Enabled(e.rows[..Buildable(e.rows, e.works)]) > 0
  }

  /** The client was made by a reload that then failed. */
  predicate Leaked(events: seq<Event>, c: Client) {
    events != []
    && (Leaked(Front(events), c)
        || (FailsLate(Last(events)) && Run(Front(events)).made <= c < Run(events).made))
  }

  lemma {:induction false} LeakedIsMade(events: seq<Event>, c: Client)
    requires Leaked(events, c)
    ensures c < Run(events).made
  {
    if Leaked(Front(events), c) {
      LeakedIsMade(Front(events), c);
    }
  }

  lemma {:induction false} NewIdsFromRows(rows: seq<Backend>, made: nat, id: BackendId)
    requires id in NewClients(rows, made).at
    ensures exists b :: b in rows && b.id == id
  {
    if Last(rows).enabled && Last(rows).id == id {
      assert Last(rows) in rows;
    } else {
      NewIdsFromRows(Front(rows), made, id);
    }
  }

  /** With distinct ids no client that a reload makes is overwritten. */
  lemma {:induction false} NewClientIsKept(rows: seq<Backend>, made: nat, c: Client) returns (id: BackendId)
    requires DistinctIds(rows) && made <= c < made + Enabled(rows)
    ensures var at := NewClients(rows, made).at; id in at && at[id] == c
  {
    var past, b := Front(rows), Last(rows);
    if b.enabled && c == made + Enabled(past) {
      id := b.id;
    } else {
      id := NewClientIsKept(past, made, c);
      NewIdsFromRows(past, made, id);
    }
  }

  lemma ValueIsCounted(d: Dict, id: BackendId)
    requires d.Valid() && id in d.at
    ensures multiset(d.Values())[d.at[id]] >= 1
  {
    assert id in d.order;
    var i :| 0 <= i < |d.order| && d.order[i] == id;
    assert d.Values()[i] in d.Values();
  }

  /** They are installed once each. */
  lemma NewValueExactly(rows: seq<Backend>, made: nat, c: Client)
    requires DistinctIds(rows)
    ensures multiset(NewValues(rows, made))[c] == if made <= c < made + Enabled(rows) then 1 else 0
  {
    NewValueOnce(rows, made, c);
    if made <= c < made + Enabled(rows) {
      var id := NewClientIsKept(rows, made, c);
      NewClientsValid(rows, made);
      ValueIsCounted(NewClients(rows, made), id);
    }
  }

  /** After every interleaving, exactly the clients that no failed reload left behind are tracked, once each. */
  lemma {:induction false} TrackedExactly(events: seq<Event>, c: Client)
    requires KeyedSnapshots(events)
    ensures Tracked(Run(events))[c] == if c < Run(events).made && !Leaked(events, c) then 1 else 0
  {
    if events == [] {
      assert Initial.clients.Values() == [];
    } else {
      var past, e := Front(events), Last(events);
      var s := Run(past);
      TrackedExactly(past, c);
      if Leaked(past, c) {
        LeakedIsMade(past, c);
      }
      match e
      case CloseNext(reload) => CloseConserves(s, reload);
      case Install(rows, works) =>
        NewValueExactly(rows, s.made, c);
        InstallCounts(s, rows, works, c);
    }
  }

  lemma {:induction false} LeaksOnlyLate(events: seq<Event>, c: Client)
    requires Leaked(events, c)
    ensures exists i :: 0 <= i < |events| && FailsLate(events[i])
  {
    if FailsLate(Last(events)) {
      assert FailsLate(events[|events| - 1]);
    } else {
      LeaksOnlyLate(Front(events), c);
      var i :| 0 <= i < |Front(events)| && FailsLate(Front(events)[i]);
      assert events[i] == Front(events)[i];
    }
  }

  lemma {:induction false} LateMeansLeak(events: seq<Event>, i: nat) returns (c: Client)
    requires i < |events| && FailsLate(events[i])
    ensures c < Run(events).made && Leaked(events, c)
  {
    if i == |events| - 1 {
      c := Run(Front(events)).made;
    } else {
      c := LateMeansLeak(Front(events), i);
      LeakedIsMade(events, c);
    }
  }

  /**
   Every client made so far is installed, waiting to be closed, or closed, exactly when no reload failed
   after the factory had made a client for it.
   */
  lemma NoClientLostExactly(events: seq<Event>)
    requires KeyedSnapshots(events)
    ensures (forall c: Client :: c < Run(events).made ==> c in Tracked(Run(events)))
            <==> (forall i :: 0 <= i < |events| ==> !FailsLate(events[i]))
  {
    var s := Run(events);
    forall c: Client ensures c in Tracked(s) <==> c < s.made && !Leaked(events, c) {
      TrackedExactly(events, c);
    }
    if i :| 0 <= i < |events| && FailsLate(events[i]) {
      var c := LateMeansLeak(events, i);
    } else {
      forall c: Client | c < s.made ensures !Leaked(events, c) {
        if Leaked(events, c) {
          LeaksOnlyLate(events, c);
        }
      }
    }
  }
}
