/** Starting changes and their dependencies. */
module ChangeExecutor {
  import opened Text

  type Id = nat

  /** A change: what it depends on, and whether it must first be loaded. */
  datatype Change = Change(deps: seq<Id>, async: bool)

  type Graph = map<Id, Change>

  /** A started change, and the changes whose promises it waits for. */
  datatype Node = Node(id: Id, waits: seq<Id>)

  /** `plan` is the table of promises, in the order in which they were entered; `begun` is a history: the
      changes whose executor was called. */
  datatype Memo = Memo(plan: seq<Node>, begun: seq<Id>)

  datatype One = One(memo: Memo, handle: Option<Id>)
  datatype Many = Many(memo: Memo, handles: seq<Id>)

  const EMPTY := Memo([], [])

  function Ids(plan: seq<Node>): (ids: seq<Id>)
    ensures |ids| == |plan|
  {
    seq(|plan|, i requires 0 <= i < |plan| => plan[i].id)
  }

  function Elements(s: seq<Id>): set<Id> { set x | x in s }

  // ----- starting changes -----

  /** `r`: change t is asked for by the changes of `path`, the last one directly.  The table gets its promise
      only after the executor, which asks for the dependencies, has returned. */
  function Start(g: Graph, s: Memo, t: Id, path: seq<Id>): One
    decreases g.Keys - Elements(path), 0
  {
    if t in path then One(s, None)
    else if t in Ids(s.plan) then One(s, Some(t))
    else if t !in g then One(s, None)
    else
      assert t in g.Keys - Elements(path) && t !in g.Keys - Elements(path + [t]);
      assert g.Keys - Elements(path + [t]) <= g.Keys - Elements(path);
      var r := StartAll(g, s.(begun := s.begun + [t]), g[t].deps, path + [t]);
      One(r.memo.(plan := r.memo.plan + [Node(t, r.handles)]), Some(t))
  }

  /** A dependency without a promise counts as settled. */
  function StartAll(g: Graph, s: Memo, ts: seq<Id>, path: seq<Id>): Many
    decreases g.Keys - Elements(path), |ts| + 1
  {
    if ts == [] then Many(s, [])
    else
      var first := Start(g, s, ts[0], path);
      var rest := StartAll(g, first.memo, ts[1..], path);
      Many(rest.memo, (if first.handle.Some? then [first.handle.value] else []) + rest.handles)
  }

  /** `executePreparedAction` */
  function Execute(g: Graph, changeSet: seq<Id>): Many { StartAll(g, EMPTY, changeSet, []) }

  // ----- the graph -----

  predicate Edge(g: Graph, a: Id, b: Id) { a in g && b in g[a].deps }

  predicate Chain(g: Graph, p: seq<Id>) {
    forall i :: 0 <= i < |p| - 1 ==> Edge(g, p[i], p[i + 1])
  }

  /** p leads from a to b. */
  predicate Leads(g: Graph, p: seq<Id>, a: Id, b: Id) {
    |p| > 0 && p[0] == a && p[|p| - 1] == b && Chain(g, p)
  }

  /** b can be reached from a. */
  ghost predicate Reaches(g: Graph, a: Id, b: Id) { exists p :: Leads(g, p, a, b) }

  /** No change depends on itself, directly or through others. */
  ghost predicate Acyclic(g: Graph) {
    forall a, b :: Edge(g, a, b) ==> !Reaches(g, b, a)
  }

  // ----- the invariant of the table -----

  predicate Distinct(s: seq<Id>) { forall i, j :: 0 <= i < j < |s| ==> s[i] != s[j] }

  /** A change waits for nothing but dependencies of its own, entered before it; a known dependency it does not
      wait for depends on it in turn. */
  ghost predicate NodeOk(g: Graph, plan: seq<Node>, i: nat)
    requires i < |plan|
  {
    var n := plan[i];
    && n.id in g
    && (forall w :: w in n.waits ==> w in Ids(plan[..i]) && w in g[n.id].deps)
    && (forall d :: d in g[n.id].deps && d in g ==> d in n.waits || Reaches(g, d, n.id))
  }

  ghost predicate Inv(g: Graph, s: Memo, path: seq<Id>) {
    && Distinct(s.begun) && Distinct(Ids(s.plan))
    && (forall x :: x in s.begun <==> x in Ids(s.plan) || x in path)
    && (forall x :: x in path ==> x !in Ids(s.plan))
    && (forall i :: 0 <= i < |s.plan| ==> NodeOk(g, s.plan, i))
  }

  lemma ReachesFromPath(g: Graph, path: seq<Id>, t: Id, d: Id)
    requires Chain(g, path + [t]) && d in path + [t]
    ensures Reaches(g, d, t)
  {
    var q := path + [t];
    var k :| 0 <= k < |q| && q[k] == d;
    var p := q[k..];
    forall i | 0 <= i < |p| - 1 ensures Edge(g, p[i], p[i + 1]) {
      assert Edge(g, q[k + i], q[k + i + 1]);
    }
    assert Leads(g, p, d, t);
  }

  lemma NodeStays(g: Graph, plan: seq<Node>, n: Node, i: nat)
    requires i < |plan| && NodeOk(g, plan, i)
    ensures NodeOk(g, plan + [n], i)
  {
    assert (plan + [n])[..i] == plan[..i];
  }

  /** What the parts of the plan that were there before stay like. */
  predicate Grows(s: Memo, s': Memo) { s.plan <= s'.plan && s.begun <= s'.begun }

  lemma GrowsKeepsIds(s: Memo, s': Memo, x: Id)
    requires Grows(s, s') && x in Ids(s.plan)
    ensures x in Ids(s'.plan)
  {
    var i :| 0 <= i < |s.plan| && Ids(s.plan)[i] == x;
    assert Ids(s'.plan)[i] == x;
  }

  lemma EnterKeeps(g: Graph, s: Memo, path: seq<Id>, n: Node)
    requires Inv(g, s, path + [n.id]) && n.id in g && n.id !in path
    requires forall w :: w in n.waits ==> w in Ids(s.plan) && w in g[n.id].deps
    requires forall d :: d in g[n.id].deps && d in g ==> d in n.waits || Reaches(g, d, n.id)
    ensures Inv(g, s.(plan := s.plan + [n]), path)
  {
    var plan := s.plan + [n];
    assert Ids(plan) == Ids(s.plan) + [n.id];
    forall i | 0 <= i < |plan| ensures NodeOk(g, plan, i) {
      if i < |s.plan| {
        NodeStays(g, s.plan, n, i);
      } else {
        assert plan[..i] == s.plan;
      }
    }
    assert n.id in path + [n.id];
    forall x ensures x in s.begun <==> x in Ids(plan) || x in path {
      assert x in path + [n.id] <==> x in path || x == n.id;
    }
    forall x | x in path ensures x !in Ids(plan) {
      assert x in path + [n.id];
    }
  }

  lemma BeginKeeps(g: Graph, s: Memo, path: seq<Id>, t: Id)
    requires Inv(g, s, path) && t !in path && t !in Ids(s.plan)
    ensures Inv(g, s.(begun := s.begun + [t]), path + [t])
  {
    assert t !in s.begun;
  }

  lemma {:induction false} StartKeeps(g: Graph, s: Memo, t: Id, path: seq<Id>)
    requires Inv(g, s, path) && Chain(g, path + [t])
    ensures var r := Start(g, s, t, path);
      && Inv(g, r.memo, path) && Grows(s, r.memo)
      && (r.handle.None? <==> t in path || (t !in g && t !in Ids(s.plan)))
      && (r.handle.Some? ==> r.handle.value == t && t in Ids(r.memo.plan))
    decreases g.Keys - Elements(path), 0
  {
    if t !in path && t !in Ids(s.plan) && t in g {
      assert t in g.Keys - Elements(path) && t !in g.Keys - Elements(path + [t]);
      assert g.Keys - Elements(path + [t]) <= g.Keys - Elements(path);
      BeginKeeps(g, s, path, t);
      var s' := s.(begun := s.begun + [t]);
      StartAllKeeps(g, s', g[t].deps, path + [t]);
      var r := StartAll(g, s', g[t].deps, path + [t]);
      forall d | d in g[t].deps && d in g && d !in r.handles ensures Reaches(g, d, t) {
        ReachesFromPath(g, path, t, d);
      }
      EnterKeeps(g, r.memo, path, Node(t, r.handles));
      assert (r.memo.plan + [Node(t, r.handles)])[|r.memo.plan|].id == t;
      assert Ids(r.memo.plan + [Node(t, r.handles)])[|r.memo.plan|] == t;
    }
  }

  lemma {:induction false} StartAllKeeps(g: Graph, s: Memo, ts: seq<Id>, path: seq<Id>)
    requires Inv(g, s, path)
    requires Chain(g, path)
    requires path != [] ==> path[|path| - 1] in g && forall d :: d in ts ==> d in g[path[|path| - 1]].deps
    ensures var r := StartAll(g, s, ts, path);
      && Inv(g, r.memo, path) && Grows(s, r.memo)
      && (forall w :: w in r.handles ==> w in ts && w in Ids(r.memo.plan))
      && (forall d :: d in ts && d in g ==> d in r.handles || d in path)
    decreases g.Keys - Elements(path), |ts| + 1
  {
    if ts != [] {
      var t := ts[0];
      assert t in ts;
      ChainExtends(g, path, t);
      StartKeeps(g, s, t, path);
      var first := Start(g, s, t, path);
      assert forall d :: d in ts[1..] ==> d in ts;
      StartAllKeeps(g, first.memo, ts[1..], path);
      var rest := StartAll(g, first.memo, ts[1..], path);
      var r := StartAll(g, s, ts, path);
      forall w | w in r.handles ensures w in ts && w in Ids(r.memo.plan) {
        if w !in rest.handles {
          GrowsKeepsIds(first.memo, rest.memo, w);
        }
      }
      forall d | d in ts && d in g ensures d in r.handles || d in path {
        assert d == t || d in ts[1..];
      }
    }
  }

  lemma ChainExtends(g: Graph, path: seq<Id>, t: Id)
    requires Chain(g, path)
    requires path != [] ==> Edge(g, path[|path| - 1], t)
    ensures Chain(g, path + [t])
  {
    var q := path + [t];
    forall i | 0 <= i < |q| - 1 ensures Edge(g, q[i], q[i + 1]) {
      if i < |path| - 1 {
        assert Edge(g, path[i], path[i + 1]);
      }
    }
  }

  // ----- the table an action ends up with -----

  lemma ExecuteKeeps(g: Graph, changeSet: seq<Id>)
    ensures Inv(g, Execute(g, changeSet).memo, [])
    ensures forall w :: w in Execute(g, changeSet).handles ==> w in Ids(Execute(g, changeSet).memo.plan)
    ensures forall d :: d in changeSet && d in g ==> d in Execute(g, changeSet).handles
  {
    StartAllKeeps(g, EMPTY, changeSet, []);
  }

  lemma ExecuteWaits(g: Graph, changeSet: seq<Id>)
    ensures forall d :: d in Execute(g, changeSet).handles <==> d in changeSet && d in g
  {
    StartAllKeeps(g, EMPTY, changeSet, []);
    var r := Execute(g, changeSet);
    forall d | d in r.handles ensures d in g {
      var i :| 0 <= i < |r.memo.plan| && Ids(r.memo.plan)[i] == d;
      assert NodeOk(g, r.memo.plan, i);
    }
  }

  /** On every finite graph, cycles included, each change is started at most once, and those of the action
      that are known are started. */
  lemma StartedOnce(g: Graph, changeSet: seq<Id>)
    ensures var s := Execute(g, changeSet).memo;
      && Distinct(s.begun)
      && (forall x :: x in s.begun <==> x in Ids(s.plan))
      && (forall d :: d in changeSet && d in g ==> d in s.begun)
  {
    ExecuteKeeps(g, changeSet);
  }

  /** A change waits only for changes entered before it, so no two wait for each other, cycles or not. */
  lemma WaitsAreEarlier(g: Graph, changeSet: seq<Id>, i: nat)
    requires i < |Execute(g, changeSet).memo.plan|
    ensures var plan := Execute(g, changeSet).memo.plan;
      forall w :: w in plan[i].waits ==> w in Ids(plan[..i])
  {
    ExecuteKeeps(g, changeSet);
    assert NodeOk(g, Execute(g, changeSet).memo.plan, i);
  }

  /** A known dependency is waited for unless the two changes lie on a common cycle. */
  lemma OnlyCyclesAreCut(g: Graph, changeSet: seq<Id>, i: nat, d: Id)
    requires i < |Execute(g, changeSet).memo.plan|
    requires Edge(g, Execute(g, changeSet).memo.plan[i].id, d) && d in g
    ensures d in Execute(g, changeSet).memo.plan[i].waits || Reaches(g, d, Execute(g, changeSet).memo.plan[i].id)
  {
    ExecuteKeeps(g, changeSet);
    assert NodeOk(g, Execute(g, changeSet).memo.plan, i);
  }

  // ----- which changes are started -----

  /** The known dependencies of a change in the table are begun. */
  ghost predicate Closed(g: Graph, s: Memo) {
    forall i, d :: 0 <= i < |s.plan| && Edge(g, s.plan[i].id, d) && d in g ==> d in s.begun
  }

  lemma {:induction false} StartCloses(g: Graph, s: Memo, t: Id, path: seq<Id>)
    requires Inv(g, s, path) && Chain(g, path + [t]) && Closed(g, s)
    ensures Closed(g, Start(g, s, t, path).memo)
    decreases g.Keys - Elements(path), 0
  {
    if t !in path && t !in Ids(s.plan) && t in g {
      assert t in g.Keys - Elements(path) && t !in g.Keys - Elements(path + [t]);
      assert g.Keys - Elements(path + [t]) <= g.Keys - Elements(path);
      BeginKeeps(g, s, path, t);
      var s' := s.(begun := s.begun + [t]);
      StartAllKeeps(g, s', g[t].deps, path + [t]);
      StartAllCloses(g, s', g[t].deps, path + [t]);
    }
  }

  lemma {:induction false} StartAllCloses(g: Graph, s: Memo, ts: seq<Id>, path: seq<Id>)
    requires Inv(g, s, path) && Chain(g, path) && Closed(g, s)
    requires path != [] ==> path[|path| - 1] in g && forall d :: d in ts ==> d in g[path[|path| - 1]].deps
    ensures Closed(g, StartAll(g, s, ts, path).memo)
    decreases g.Keys - Elements(path), |ts| + 1
  {
    if ts != [] {
      assert ts[0] in ts;
      ChainExtends(g, path, ts[0]);
      StartKeeps(g, s, ts[0], path);
      StartCloses(g, s, ts[0], path);
      assert forall d :: d in ts[1..] ==> d in ts;
      hide Closed, Start, Inv;
      StartAllCloses(g, Start(g, s, ts[0], path).memo, ts[1..], path);
    }
  }

  /** What is begun is asked for by a known change of `roots`, directly or through others. */
  ghost predicate Wanted(g: Graph, begun: seq<Id>, roots: seq<Id>) {
    forall x :: x in begun ==> x in g && exists c :: c in roots && Reaches(g, c, x)
  }

  lemma {:induction false} StartIsWanted(g: Graph, s: Memo, t: Id, path: seq<Id>, roots: seq<Id>)
    requires Wanted(g, s.begun, roots) && exists c :: c in roots && Reaches(g, c, t)
    ensures Wanted(g, Start(g, s, t, path).memo.begun, roots)
    decreases g.Keys - Elements(path), 0
  {
    if t !in path && t !in Ids(s.plan) && t in g {
      assert t in g.Keys - Elements(path) && t !in g.Keys - Elements(path + [t]);
      assert g.Keys - Elements(path + [t]) <= g.Keys - Elements(path);
      forall d | d in g[t].deps ensures exists c :: c in roots && Reaches(g, c, d) {
        var c :| c in roots && Reaches(g, c, t);
        ReachesNext(g, c, t, d);
      }
      StartAllIsWanted(g, s.(begun := s.begun + [t]), g[t].deps, path + [t], roots);
    }
  }

  lemma {:induction false} StartAllIsWanted(g: Graph, s: Memo, ts: seq<Id>, path: seq<Id>, roots: seq<Id>)
    requires Wanted(g, s.begun, roots) && forall d :: d in ts ==> exists c :: c in roots && Reaches(g, c, d)
    ensures Wanted(g, StartAll(g, s, ts, path).memo.begun, roots)
    decreases g.Keys - Elements(path), |ts| + 1
  {
    if ts != [] {
      assert ts[0] in ts && forall d :: d in ts[1..] ==> d in ts;
      StartIsWanted(g, s, ts[0], path, roots);
      hide Wanted, Start, Reaches;
      StartAllIsWanted(g, Start(g, s, ts[0], path).memo, ts[1..], path, roots);
    }
  }

  lemma ReachesNext(g: Graph, a: Id, b: Id, c: Id)
    requires Reaches(g, a, b) && Edge(g, b, c)
    ensures Reaches(g, a, c)
  {
    var p :| Leads(g, p, a, b);
    var q := p + [c];
    forall i | 0 <= i < |q| - 1 ensures Edge(g, q[i], q[i + 1]) {
      assert i < |p| - 1 ==> Edge(g, p[i], p[i + 1]);
    }
    assert Leads(g, q, a, c);
  }

  lemma {:induction false} ReachedIsBegun(g: Graph, s: Memo, p: seq<Id>, a: Id, x: Id)
    requires Closed(g, s) && (forall y :: y in s.begun ==> y in Ids(s.plan))
    requires Leads(g, p, a, x) && a in s.begun && x in g
    ensures x in s.begun
    decreases |p|
  {
    if |p| > 1 {
      var i :| 0 <= i < |s.plan| && Ids(s.plan)[i] == a;
      assert Edge(g, p[0], p[1]) && s.plan[i].id == a;
      assert |p| > 2 ==> Edge(g, p[1], p[2]);
      assert p[1] in s.begun;
      var q := p[1..];
      forall j | 0 <= j < |q| - 1 ensures Edge(g, q[j], q[j + 1]) {
        assert Edge(g, p[j + 1], p[j + 2]);
      }
      ReachedIsBegun(g, s, q, p[1], x);
    }
  }

  /** An action starts exactly its known changes and the known changes they depend on, directly or through others. */
  lemma StartedExactlyWhenReached(g: Graph, changeSet: seq<Id>, x: Id)
    ensures x in Execute(g, changeSet).memo.begun
            <==> x in g && exists c :: c in changeSet && Reaches(g, c, x)
  {
    hide Execute, Closed, Reaches;
    OnlyReachedBegin(g, changeSet);
    ExecuteCloses(g, changeSet);
    StartedOnce(g, changeSet);
    if x in g && exists c :: c in changeSet && Reaches(g, c, x) {
      var c :| c in changeSet && Reaches(g, c, x);
      KnownStart(g, c, x);
      ReachingIsBegun(g, Execute(g, changeSet).memo, c, x);
    }
  }

  lemma ExecuteCloses(g: Graph, changeSet: seq<Id>)
    ensures Closed(g, Execute(g, changeSet).memo)
  {
    assert Inv(g, EMPTY, []) && Closed(g, EMPTY);
    hide Inv, Closed;
    StartAllCloses(g, EMPTY, changeSet, []);
  }

  lemma OnlyReachedBegin(g: Graph, changeSet: seq<Id>)
    ensures Wanted(g, Execute(g, changeSet).memo.begun, changeSet)
  {
    hide Reaches;
    forall d | d in changeSet ensures exists c :: c in changeSet && Reaches(g, c, d) {
      ReachesItself(g, d);
    }
    StartAllIsWanted(g, EMPTY, changeSet, [], changeSet);
  }

  lemma ReachesItself(g: Graph, d: Id)
    ensures Reaches(g, d, d)
  {
    assert Leads(g, [d], d, d);
  }

  lemma KnownStart(g: Graph, c: Id, x: Id)
    requires Reaches(g, c, x) && x in g
    ensures c in g
  {
    var p :| Leads(g, p, c, x);
    assert |p| > 1 ==> Edge(g, p[0], p[1]);
  }

  lemma ReachingIsBegun(g: Graph, s: Memo, c: Id, x: Id)
    requires Closed(g, s) && (forall y :: y in s.begun ==> y in Ids(s.plan))
    requires Reaches(g, c, x) && c in s.begun && x in g
    ensures x in s.begun
  {
    var p :| Leads(g, p, c, x);
    ReachedIsBegun(g, s, p, c, x);
  }

  // ----- runs -----

  /** What happened so far to the changes of a plan: `applied` is the history of appliers that were called. */
  datatype State = State(loaded: set<Id>, applied: seq<Id>, settled: set<Id>)

  /** The script of a change arrived or failed; all a change waits for is settled, so it is applied; its applier
      resolved or rejected. */
  datatype Event = Load(t: Id) | FailLoad(t: Id) | Proceed(t: Id) | Finish(t: Id)

  const IDLE := State({}, [], {})

  /** The node of t in the plan. */
  function Find(plan: seq<Node>, t: Id): Option<Node> {
    if plan == [] then None else if plan[0].id == t then Some(plan[0]) else Find(plan[1..], t)
  }

  predicate Settled(ts: seq<Id>, settled: set<Id>) { forall w :: w in ts ==> w in settled }

  /** `Promise.all(f).then(...)` with its `catch`: a failed load settles the change at once, unapplied, and a
      change without an applier settles when its turn comes.  An impossible event changes nothing. */
  function Step(g: Graph, plan: seq<Node>, appliers: set<Id>, s: State, e: Event): State {
    var n := Find(plan, e.t);
    if n.None? || e.t !in g || e.t in s.settled then s
    else
      match e
      case Load(t) => if g[t].async then s.(loaded := s.loaded + {t}) else s
      case FailLoad(t) => if g[t].async && t !in s.loaded then s.(settled := s.settled + {t}) else s
      case Proceed(t) =>
        if t in s.applied || (g[t].async && t !in s.loaded) || !Settled(n.value.waits, s.settled) then s
        else if t in appliers then s.(applied := s.applied + [t])
        else s.(settled := s.settled + {t})
      case Finish(t) => if t in s.applied then s.(settled := s.settled + {t}) else s
  }

  function Run(g: Graph, plan: seq<Node>, appliers: set<Id>, s: State, events: seq<Event>): State
    decreases |events|
  {
    if events == [] then s else Run(g, plan, appliers, Step(g, plan, appliers, s, events[0]), events[1..])
  }

  lemma {:induction false} FindId(plan: seq<Node>, t: Id)
    ensures Find(plan, t).Some? <==> t in Ids(plan)
    ensures Find(plan, t).Some? ==> Find(plan, t).value in plan && Find(plan, t).value.id == t
  {
    if plan != [] {
      FindId(plan[1..], t);
      assert Ids(plan) == [plan[0].id] + Ids(plan[1..]);
    }
  }

  predicate WaitedFor(plan: seq<Node>, s: State, t: Id) {
    Find(plan, t).Some? && Settled(Find(plan, t).value.waits, s.settled)
  }

  predicate InOrder(plan: seq<Node>, s: State) {
    Distinct(s.applied) && forall t :: t in s.applied ==> WaitedFor(plan, s, t)
  }

  lemma {:induction false} RunInOrder(g: Graph, plan: seq<Node>, appliers: set<Id>, s: State, events: seq<Event>)
    requires InOrder(plan, s)
    ensures InOrder(plan, Run(g, plan, appliers, s, events))
    decreases |events|
  {
    if events != [] {
      var s' := Step(g, plan, appliers, s, events[0]);
      forall t | t in s'.applied ensures WaitedFor(plan, s', t) {
        assert t in s.applied ==> WaitedFor(plan, s, t);
      }
      RunInOrder(g, plan, appliers, s', events[1..]);
    }
  }

  /** Over every order of loads, failures and appliers that finish: a change is applied at most once, and where
      nothing depends on itself, only after every known dependency has settled. */
  lemma AppliedAfterDependencies(g: Graph, changeSet: seq<Id>, appliers: set<Id>, events: seq<Event>)
    requires Acyclic(g)
    ensures var s := Run(g, Execute(g, changeSet).memo.plan, appliers, IDLE, events);
      && Distinct(s.applied)
      && forall t, d :: t in s.applied && Edge(g, t, d) && d in g ==> d in s.settled
  {
    var plan := Execute(g, changeSet).memo.plan;
    var s := Run(g, plan, appliers, IDLE, events);
    RunInOrder(g, plan, appliers, IDLE, events);
    forall t, d | t in s.applied && Edge(g, t, d) && d in g ensures d in s.settled {
      assert WaitedFor(plan, s, t);
      FindId(plan, t);
      var i :| 0 <= i < |plan| && plan[i] == Find(plan, t).value;
      OnlyCyclesAreCut(g, changeSet, i, d);
      assert d in plan[i].waits;
    }
  }

  /** Why a change was applied, and why it is settled, by what has happened. */
  ghost predicate Explained(g: Graph, plan: seq<Node>, appliers: set<Id>, s: State, past: seq<Event>) {
    && (forall t :: t in s.loaded ==> Load(t) in past)
    && (forall t :: t in s.applied
          ==> t in Ids(plan) && t in g && t in appliers && (g[t].async ==> t in s.loaded) && Proceed(t) in past)
    && (forall t :: t in s.settled
          ==> t in Ids(plan) && t in g
              && if t in s.applied then Finish(t) in past
                 else if t in appliers then g[t].async && FailLoad(t) in past
                 else (g[t].async && FailLoad(t) in past) || Proceed(t) in past)
  }

  lemma StepIsExplained(g: Graph, plan: seq<Node>, appliers: set<Id>, s: State, past: seq<Event>, e: Event)
    requires Explained(g, plan, appliers, s, past)
    ensures Explained(g, plan, appliers, Step(g, plan, appliers, s, e), past + [e])
  {
    FindId(plan, e.t);
    assert (past + [e])[|past|] == e && forall o :: o in past ==> o in past + [e];
    hide Settled, Find;
  }

  lemma {:induction false} RunIsExplained(g: Graph, plan: seq<Node>, appliers: set<Id>, s: State, past: seq<Event>,
                                          events: seq<Event>)
    requires Explained(g, plan, appliers, s, past)
    ensures Explained(g, plan, appliers, Run(g, plan, appliers, s, events), past + events)
    decreases |events|
  {
    if events == [] {
      assert past + events == past;
    } else {
      hide Step, Explained;
      StepIsExplained(g, plan, appliers, s, past, events[0]);
      RunIsExplained(g, plan, appliers, Step(g, plan, appliers, s, events[0]), past + [events[0]], events[1..]);
      assert past + [events[0]] + events[1..] == past + events;
    }
  }

  /** Over every run: a change is applied only if it has an applier and was loaded where it must be; one that has an
      applier settles when its applier has finished, or else because its load failed, and it is not applied then. */
  lemma OnlyFailedLoadsSkip(g: Graph, changeSet: seq<Id>, appliers: set<Id>, events: seq<Event>)
    ensures Explained(g, Execute(g, changeSet).memo.plan, appliers,
                      Run(g, Execute(g, changeSet).memo.plan, appliers, IDLE, events), events)
  {
    assert [] + events == events;
    RunIsExplained(g, Execute(g, changeSet).memo.plan, appliers, IDLE, [], events);
  }

  // ----- dependencies of dependencies -----

  /** Every settled change that is not among the failed ones had all it waits for settled before. */
  predicate SettledInOrder(plan: seq<Node>, s: State, failed: set<Id>) {
    forall t :: t in s.settled ==> t in failed || WaitedFor(plan, s, t)
  }

  /** The load of a change fails, which only happens to one that is loaded. */
  predicate Fails(g: Graph, e: Event) { e.FailLoad? && e.t in g && g[e.t].async }

  lemma StepSettlesInOrder(g: Graph, plan: seq<Node>, appliers: set<Id>, s: State, e: Event, failed: set<Id>)
    requires InOrder(plan, s) && SettledInOrder(plan, s, failed) && (Fails(g, e) ==> e.t in failed)
    ensures var s' := Step(g, plan, appliers, s, e); InOrder(plan, s') && SettledInOrder(plan, s', failed)
  {
    var s' := Step(g, plan, appliers, s, e);
    forall t | t in s'.applied ensures WaitedFor(plan, s', t) {
      assert t in s.applied ==> WaitedFor(plan, s, t);
    }
    forall t | t in s'.settled ensures t in failed || WaitedFor(plan, s', t) {
      if t in s.settled {
        assert t in failed || WaitedFor(plan, s, t);
      } else {
        assert t == e.t && (t in s.applied ==> WaitedFor(plan, s, t));
      }
    }
  }

  lemma {:induction false} RunSettlesInOrder(g: Graph, plan: seq<Node>, appliers: set<Id>, s: State, events: seq<Event>,
                                             failed: set<Id>)
    requires InOrder(plan, s) && SettledInOrder(plan, s, failed)
    requires forall e :: e in events && Fails(g, e) ==> e.t in failed
    ensures var s' := Run(g, plan, appliers, s, events); InOrder(plan, s') && SettledInOrder(plan, s', failed)
    decreases |events|
  {
    if events != [] {
      hide Step, InOrder, SettledInOrder;
      assert events[0] in events;
      assert forall e :: e in events[1..] ==> e in events;
      StepSettlesInOrder(g, plan, appliers, s, events[0], failed);
      RunSettlesInOrder(g, plan, appliers, Step(g, plan, appliers, s, events[0]), events[1..], failed);
    }
  }

  /** A change whose waits are settled has its known dependencies settled, where nothing depends on itself. */
  lemma WaitedForDependencies(g: Graph, changeSet: seq<Id>, s: State, t: Id, d: Id)
    requires Acyclic(g) && WaitedFor(Execute(g, changeSet).memo.plan, s, t) && Edge(g, t, d) && d in g
    ensures d in s.settled
  {
    var plan := Execute(g, changeSet).memo.plan;
    hide Execute;
    FindId(plan, t);
    var i :| 0 <= i < |plan| && plan[i] == Find(plan, t).value;
    OnlyCyclesAreCut(g, changeSet, i, d);
    assert d in plan[i].waits;
  }

  /** Down any chain of dependencies from an applied change, everything has settled, as long as the load of no change
      in between failed. */
  lemma {:induction false} AppliedAfterChain(g: Graph, changeSet: seq<Id>, appliers: set<Id>, events: seq<Event>,
                                             p: seq<Id>)
    requires Acyclic(g) && |p| > 1 && Chain(g, p) && p[|p| - 1] in g
    requires p[0] in Run(g, Execute(g, changeSet).memo.plan, appliers, IDLE, events).applied
    requires forall k, e :: 0 < k < |p| - 1 && e in events && e.t == p[k] ==> !Fails(g, e)
    ensures p[|p| - 1] in Run(g, Execute(g, changeSet).memo.plan, appliers, IDLE, events).settled
    decreases |p|
  {
    var plan := Execute(g, changeSet).memo.plan;
    var failed := set e | e in events && Fails(g, e) :: e.t;
    var s := Run(g, plan, appliers, IDLE, events);
    RunSettlesInOrder(g, plan, appliers, IDLE, events, failed);
    var n := |p| - 1;
    assert Edge(g, p[n - 1], p[n]);
    if n == 1 {
      assert WaitedFor(plan, s, p[0]);
    } else {
      forall k | 0 <= k < n - 1 ensures Edge(g, p[..n][k], p[..n][k + 1]) {
        assert Edge(g, p[k], p[k + 1]);
      }
      AppliedAfterChain(g, changeSet, appliers, events, p[..n]);
      assert p[..n][n - 1] == p[n - 1];
      assert p[n - 1] !in failed;
      assert WaitedFor(plan, s, p[n - 1]);
    }
    WaitedForDependencies(g, changeSet, s, p[n - 1], p[n]);
  }

  /** Over every run in which no load fails, an applied change has everything it depends on settled, directly or through
      others. */
  lemma AppliedAfterAllDependencies(g: Graph, changeSet: seq<Id>, appliers: set<Id>, events: seq<Event>, t: Id, d: Id)
    requires Acyclic(g) && forall e :: e in events ==> !e.FailLoad?
    requires t in Run(g, Execute(g, changeSet).memo.plan, appliers, IDLE, events).applied
    requires Reaches(g, t, d) && d != t && d in g
    ensures d in Run(g, Execute(g, changeSet).memo.plan, appliers, IDLE, events).settled
  {
    var p :| Leads(g, p, t, d);
    assert |p| > 1;
    AppliedAfterChain(g, changeSet, appliers, events, p);
  }

  // ----- when dependencies of dependencies are waited for -----

  /** The load of x may fail: it is among those that are `open`. */
  predicate MayFail(g: Graph, open: set<Id>, x: Id) { x in open && x in g && g[x].async }

  predicate Firm(g: Graph, open: set<Id>, p: seq<Id>) {
    forall k :: 0 < k < |p| - 1 ==> !MayFail(g, open, p[k])
  }

  /** A chain of dependencies leads from a to b on which no load in between may fail. */
  ghost predicate FirmlyReaches(g: Graph, open: set<Id>, a: Id, b: Id) {
    exists p :: |p| > 1 && Leads(g, p, a, b) && Firm(g, open, p)
  }

  /** Only loads that may fail do. */
  predicate FailsOnly(open: set<Id>, events: seq<Event>) {
    forall e :: e in events && e.FailLoad? ==> e.t in open
  }

  lemma FirmStep(g: Graph, open: set<Id>, a: Id, w: Id, b: Id)
    requires Edge(g, a, w) && (w == b || (FirmlyReaches(g, open, w, b) && !MayFail(g, open, w)))
    ensures FirmlyReaches(g, open, a, b)
  {
    if w == b {
      assert Leads(g, [a, b], a, b) && Firm(g, open, [a, b]);
    } else {
      var p :| |p| > 1 && Leads(g, p, w, b) && Firm(g, open, p);
      var q := [a] + p;
      forall i | 0 <= i < |q| - 1 ensures Edge(g, q[i], q[i + 1]) {
        if i > 0 {
          assert Edge(g, p[i - 1], p[i]);
        }
      }
      forall k | 0 < k < |q| - 1 ensures !MayFail(g, open, q[k]) {
        assert q[k] == p[k - 1];
      }
      assert Leads(g, q, a, b) && Firm(g, open, q);
    }
  }

  lemma {:induction false} RunAppend(g: Graph, plan: seq<Node>, appliers: set<Id>, s: State, a: seq<Event>,
                                     b: seq<Event>)
    ensures Run(g, plan, appliers, s, a + b) == Run(g, plan, appliers, Run(g, plan, appliers, s, a), b)
    decreases |a|
  {
    hide Step;
    if a == [] {
      assert a + b == b;
    } else {
      assert (a + b)[1..] == a[1..] + b;
      RunAppend(g, plan, appliers, Step(g, plan, appliers, s, a[0]), a[1..], b);
    }
  }

  /** x is kept from settling, in a run that is to leave d unsettled. */
  ghost predicate Held(g: Graph, open: set<Id>, d: Id, x: Id) {
    x == d || (!MayFail(g, open, x) && FirmlyReaches(g, open, x, d))
  }

  /** Of the first i changes of the plan all have settled but the held ones, and nothing has happened to the others. */
  ghost predicate Prepared(g: Graph, plan: seq<Node>, open: set<Id>, d: Id, i: nat, s: State)
    requires i <= |plan|
  {
    && (forall x :: x in s.settled || x in s.loaded || x in s.applied ==> x in Ids(plan[..i]))
    && (forall k :: 0 <= k < i && !Held(g, open, d, plan[k].id) ==> plan[k].id in s.settled)
    && d !in s.settled
  }

  /** What settles a change whose waits are settled, or whose load may fail. */
  ghost function Handling(g: Graph, open: set<Id>, d: Id, x: Id): seq<Event> {
    if Held(g, open, d, x) then []
    else if MayFail(g, open, x) then [FailLoad(x)]
    else [Load(x), Proceed(x), Finish(x)]
  }

  /** Nothing a change waits for is held, unless the change is. */
  lemma WaitsAreSettled(g: Graph, plan: seq<Node>, open: set<Id>, d: Id, i: nat, s: State)
    requires i < |plan| && NodeOk(g, plan, i) && Prepared(g, plan, open, d, i, s)
    requires !FirmlyReaches(g, open, plan[i].id, d)
    ensures Settled(plan[i].waits, s.settled)
  {
    forall w | w in plan[i].waits ensures w in s.settled {
      assert w in Ids(plan[..i]);
      var k :| 0 <= k < i && Ids(plan[..i])[k] == w;
      assert plan[k].id == w;
      if Held(g, open, d, w) {
        FirmStep(g, open, plan[i].id, w, d);
      }
    }
  }

  lemma IdsSnoc(plan: seq<Node>, i: nat)
    requires i < |plan|
    ensures Ids(plan[..i + 1]) == Ids(plan[..i]) + [plan[i].id]
  {
  }

  lemma IdsFresh(plan: seq<Node>, i: nat)
    requires i < |plan| && Distinct(Ids(plan))
    ensures plan[i].id !in Ids(plan[..i])
  {
    forall k | 0 <= k < i ensures Ids(plan[..i])[k] != plan[i].id {
      assert Ids(plan)[k] != Ids(plan)[i];
    }
  }

  lemma RunOne(g: Graph, plan: seq<Node>, appliers: set<Id>, s: State, a: Event)
    ensures Run(g, plan, appliers, s, [a]) == Step(g, plan, appliers, s, a)
  {
    hide Step;
    assert [a][1..] == [];
  }

  lemma RunThree(g: Graph, plan: seq<Node>, appliers: set<Id>, s: State, a: Event, b: Event, c: Event)
    ensures Run(g, plan, appliers, s, [a, b, c])
         == Step(g, plan, appliers, Step(g, plan, appliers, Step(g, plan, appliers, s, a), b), c)
  {
    hide Step;
    assert [a, b, c][1..] == [b, c] && [b, c][1..] == [c] && [c][1..] == [];
    var s1 := Step(g, plan, appliers, s, a);
    var s2 := Step(g, plan, appliers, s1, b);
    assert Run(g, plan, appliers, s, [a, b, c]) == Run(g, plan, appliers, s1, [b, c]);
    assert Run(g, plan, appliers, s1, [b, c]) == Run(g, plan, appliers, s2, [c]);
  }

  /** The change settles, and nothing else happens. */
  lemma HandlingSettles(g: Graph, plan: seq<Node>, appliers: set<Id>, open: set<Id>, d: Id, s: State, n: Node)
    requires Find(plan, n.id) == Some(n) && n.id in g && !Held(g, open, d, n.id)
    requires n.id !in s.settled && n.id !in s.loaded && n.id !in s.applied
    requires !MayFail(g, open, n.id) ==> Settled(n.waits, s.settled)
    ensures var r := Run(g, plan, appliers, s, Handling(g, open, d, n.id));
      && r.settled == s.settled + {n.id}
      && (forall x :: x in r.loaded || x in r.applied ==> x in s.loaded || x in s.applied || x == n.id)
  {
    var x := n.id;
    if MayFail(g, open, x) {
      RunOne(g, plan, appliers, s, FailLoad(x));
    } else {
      RunThree(g, plan, appliers, s, Load(x), Proceed(x), Finish(x));
    }
  }

  lemma PreparedNext(g: Graph, plan: seq<Node>, open: set<Id>, d: Id, i: nat, s: State, r: State)
    requires i < |plan| && Prepared(g, plan, open, d, i, s)
    requires r.settled == s.settled + if Held(g, open, d, plan[i].id) then {} else {plan[i].id}
    requires forall x :: x in r.loaded || x in r.applied ==> x in s.loaded || x in s.applied || x == plan[i].id
    ensures Prepared(g, plan, open, d, i + 1, r)
  {
    IdsSnoc(plan, i);
    assert plan[i].id == d ==> Held(g, open, d, plan[i].id);
    hide Held, Ids;
  }

  lemma PrepareStep(g: Graph, plan: seq<Node>, appliers: set<Id>, open: set<Id>, d: Id, i: nat, s: State)
    requires i < |plan| && Distinct(Ids(plan)) && NodeOk(g, plan, i) && Prepared(g, plan, open, d, i, s)
    ensures Prepared(g, plan, open, d, i + 1, Run(g, plan, appliers, s, Handling(g, open, d, plan[i].id)))
  {
    var n := plan[i];
    var r := Run(g, plan, appliers, s, Handling(g, open, d, n.id));
    if !Held(g, open, d, n.id) {
      IdsFresh(plan, i);
      FindAt(plan, i);
      if !MayFail(g, open, n.id) {
        WaitsAreSettled(g, plan, open, d, i, s);
      }
      HandlingSettles(g, plan, appliers, open, d, s, n);
    }
    hide Prepared, Held, MayFail, FirmlyReaches, NodeOk, Step;
    PreparedNext(g, plan, open, d, i, s, r);
  }

  lemma {:induction false} Prepare(g: Graph, plan: seq<Node>, appliers: set<Id>, open: set<Id>, d: Id, i: nat)
    returns (events: seq<Event>)
    requires i <= |plan| && Distinct(Ids(plan)) && forall k :: 0 <= k < |plan| ==> NodeOk(g, plan, k)
    ensures FailsOnly(open, events)
    ensures Prepared(g, plan, open, d, i, Run(g, plan, appliers, IDLE, events))
    decreases i
  {
    if i == 0 {
      events := [];
    } else {
      var before := Prepare(g, plan, appliers, open, d, i - 1);
      var s := Run(g, plan, appliers, IDLE, before);
      var last := Handling(g, open, d, plan[i - 1].id);
      events := before + last;
      RunAppend(g, plan, appliers, IDLE, before, last);
      assert NodeOk(g, plan, i - 1);
      PrepareStep(g, plan, appliers, open, d, i - 1, s);
      hide Prepared, Held, FirmlyReaches, NodeOk, Run;
    }
  }

  /** A run in which t is applied and d has not settled. */
  lemma Overtakes(g: Graph, changeSet: seq<Id>, appliers: set<Id>, open: set<Id>, t: Id, d: Id)
    returns (events: seq<Event>)
    requires d in g && d != t && t in appliers && t in Ids(Execute(g, changeSet).memo.plan)
    requires !FirmlyReaches(g, open, t, d)
    ensures FailsOnly(open, events)
    ensures var s := Run(g, Execute(g, changeSet).memo.plan, appliers, IDLE, events); t in s.applied && d !in s.settled
  {
    var plan := Execute(g, changeSet).memo.plan;
    ExecuteKeeps(g, changeSet);
    hide Execute;
    var i :| 0 <= i < |plan| && Ids(plan)[i] == t;
    var before := Prepare(g, plan, appliers, open, d, i);
    var s := Run(g, plan, appliers, IDLE, before);
    assert NodeOk(g, plan, i);
    WaitsAreSettled(g, plan, open, d, i, s);
    IdsFresh(plan, i);
    FindAt(plan, i);
    var last := [Load(t), Proceed(t), Load(t)];
    RunThree(g, plan, appliers, s, Load(t), Proceed(t), Load(t));
    RunAppend(g, plan, appliers, IDLE, before, last);
    events := before + last;
    hide FirmlyReaches, NodeOk, Run, Prepared;
  }

  lemma FirmChainIsKept(g: Graph, changeSet: seq<Id>, appliers: set<Id>, open: set<Id>, t: Id, d: Id,
                        events: seq<Event>)
    requires Acyclic(g) && d in g && FirmlyReaches(g, open, t, d) && FailsOnly(open, events)
    requires t in Run(g, Execute(g, changeSet).memo.plan, appliers, IDLE, events).applied
    ensures d in Run(g, Execute(g, changeSet).memo.plan, appliers, IDLE, events).settled
  {
    hide Execute, Run;
    var p :| |p| > 1 && Leads(g, p, t, d) && Firm(g, open, p);
    forall k, e | 0 < k < |p| - 1 && e in events && e.t == p[k] ensures !Fails(g, e) {
      assert !MayFail(g, open, p[k]);
    }
    AppliedAfterChain(g, changeSet, appliers, events, p);
  }

  /** Whatever loads may fail: a started change with an applier is, in every run in which no other load fails, applied
      only after d has settled if and only if a chain of dependencies leads to d on which no load in between may
      fail. */
  lemma AppliedAfterExactlyWhen(g: Graph, changeSet: seq<Id>, appliers: set<Id>, open: set<Id>, t: Id, d: Id)
    requires Acyclic(g) && d in g && d != t && t in appliers && t in Ids(Execute(g, changeSet).memo.plan)
    ensures (forall events :: FailsOnly(open, events) ==>
               var s := Run(g, Execute(g, changeSet).memo.plan, appliers, IDLE, events);
               t in s.applied ==> d in s.settled)
            <==> FirmlyReaches(g, open, t, d)
  {
    hide Execute, Run, FailsOnly, Acyclic;
    if FirmlyReaches(g, open, t, d) {
      forall events | FailsOnly(open, events)
        ensures var s := Run(g, Execute(g, changeSet).memo.plan, appliers, IDLE, events);
                t in s.applied ==> d in s.settled
      {
        if t in Run(g, Execute(g, changeSet).memo.plan, appliers, IDLE, events).applied {
          FirmChainIsKept(g, changeSet, appliers, open, t, d, events);
        }
      }
    } else {
      var events := Overtakes(g, changeSet, appliers, open, t, d);
    }
  }

  const CHAIN_OF_THREE: Graph := map[0 := Change([1], false), 1 := Change([2], true), 2 := Change([], false)]

  lemma StartedIs(g: Graph, s: Memo, t: Id, path: seq<Id>)
    requires t in g && t !in path && t !in Ids(s.plan)
    ensures var r := StartAll(g, s.(begun := s.begun + [t]), g[t].deps, path + [t]);
      Start(g, s, t, path) == One(r.memo.(plan := r.memo.plan + [Node(t, r.handles)]), Some(t))
  {
    hide StartAll;
  }

  lemma StartAllOne(g: Graph, s: Memo, t: Id, path: seq<Id>)
    ensures var r := Start(g, s, t, path);
      StartAll(g, s, [t], path) == Many(r.memo, if r.handle.Some? then [r.handle.value] else [])
  {
    assert [t][1..] == [];
    hide Start;
  }

  lemma PlanOfThree()
    ensures Execute(CHAIN_OF_THREE, [0]).memo.plan == [Node(2, []), Node(1, [2]), Node(0, [1])]
  {
    var g := CHAIN_OF_THREE;
    var m0, m1, m2 := Memo([], [0]), Memo([], [0, 1]), Memo([], [0, 1, 2]);
    assert StartAll(g, m2, [], [0, 1, 2]) == Many(m2, []);
    assert [0, 1] + [2] == [0, 1, 2] && [0] + [1] == [0, 1] && [] + [0] == [0];
    hide Start, StartAll, Ids;
    NoIds();
    StartedIs(g, m1, 2, [0, 1]);
    StartAllOne(g, m1, 2, [0, 1]);
    StartedIs(g, m0, 1, [0]);
    StartAllOne(g, m0, 1, [0]);
    StartedIs(g, EMPTY, 0, []);
    StartAllOne(g, EMPTY, 0, []);
  }

  lemma NoIds()
    ensures Ids([]) == []
  {
  }

  lemma {:induction false} ChainRises(p: seq<Id>)
    requires p != [] && Chain(CHAIN_OF_THREE, p)
    ensures p[|p| - 1] == p[0] + |p| - 1
    decreases |p|
  {
    if |p| > 1 {
      forall i | 0 <= i < |p[1..]| - 1 ensures Edge(CHAIN_OF_THREE, p[1..][i], p[1..][i + 1]) {
        assert Edge(CHAIN_OF_THREE, p[i + 1], p[i + 2]);
      }
      ChainRises(p[1..]);
      assert Edge(CHAIN_OF_THREE, p[0], p[1]);
    }
  }

  lemma ThreeIsAcyclic()
    ensures Acyclic(CHAIN_OF_THREE)
  {
    forall a, b | Edge(CHAIN_OF_THREE, a, b) ensures !Reaches(CHAIN_OF_THREE, b, a) {
      if Reaches(CHAIN_OF_THREE, b, a) {
        var p :| Leads(CHAIN_OF_THREE, p, b, a);
        ChainRises(p);
      }
    }
  }

  /** 0 depends on 1, whose load fails, and 1 on 2; then 0 is applied while 2 is not settled. */
  lemma OvertakenChain()
    ensures var s := Run(CHAIN_OF_THREE, Execute(CHAIN_OF_THREE, [0]).memo.plan, {0}, IDLE, [FailLoad(1), Proceed(0)]);
      0 in s.applied && 2 !in s.settled
  {
    PlanOfThree();
    hide Execute;
    var plan := [Node(2, []), Node(1, [2]), Node(0, [1])];
    assert plan[1..] == [Node(1, [2]), Node(0, [1])] && plan[1..][1..] == [Node(0, [1])];
    assert Find(plan, 1) == Some(Node(1, [2])) && Find(plan, 0) == Some(Node(0, [1]));
    var s1 := Step(CHAIN_OF_THREE, plan, {0}, IDLE, FailLoad(1));
    assert s1 == State({}, [], {1});
    var s2 := Step(CHAIN_OF_THREE, plan, {0}, s1, Proceed(0));
    assert s2 == State({}, [0], {1});
    assert [FailLoad(1), Proceed(0)][1..] == [Proceed(0)] && [Proceed(0)][1..] == [];
    assert Run(CHAIN_OF_THREE, plan, {0}, s2, []) == s2;
    assert Run(CHAIN_OF_THREE, plan, {0}, s1, [Proceed(0)]) == s2;
  }

  /** The smallest case: 2 is reached from 0, but not firmly when the load of 1 may fail, and a run shows it. */
  lemma FailedLoadBreaksTheChain()
    ensures Reaches(CHAIN_OF_THREE, 0, 2) && !FirmlyReaches(CHAIN_OF_THREE, {1}, 0, 2)
    ensures var s := Run(CHAIN_OF_THREE, Execute(CHAIN_OF_THREE, [0]).memo.plan, {0}, IDLE, [FailLoad(1), Proceed(0)]);
      0 in s.applied && 2 !in s.settled
  {
    assert Edge(CHAIN_OF_THREE, 0, 1) && Edge(CHAIN_OF_THREE, 1, 2);
    assert Leads(CHAIN_OF_THREE, [0, 1, 2], 0, 2);
    ThreeIsAcyclic();
    PlanOfThree();
    assert Ids([Node(2, []), Node(1, [2]), Node(0, [1])])[2] == 0;
    OvertakenChain();
    assert FailsOnly({1}, [FailLoad(1), Proceed(0)]);
    hide Execute, Run;
    AppliedAfterExactlyWhen(CHAIN_OF_THREE, [0], {0}, {1}, 0, 2);
  }

  lemma {:induction false} FindAt(plan: seq<Node>, i: nat)
    requires i < |plan| && Distinct(Ids(plan))
    ensures Find(plan, plan[i].id) == Some(plan[i])
  {
    if i > 0 {
      assert Ids(plan)[0] != Ids(plan)[i];
      assert Ids(plan[1..]) == Ids(plan)[1..];
      FindAt(plan[1..], i - 1);
    }
  }

  /** Nothing waits for ever, cycles or not: as long as a started change is not settled, the first such change
      can go on. */
  lemma NeverStuck(g: Graph, changeSet: seq<Id>, appliers: set<Id>, s: State, x: Id) returns (e: Event)
    requires x in Ids(Execute(g, changeSet).memo.plan) && x !in s.settled
    ensures Step(g, Execute(g, changeSet).memo.plan, appliers, s, e) != s
  {
    var plan := Execute(g, changeSet).memo.plan;
    ExecuteKeeps(g, changeSet);
    hide Execute;
    var i := FirstUnsettled(plan, s.settled, x);
    var t := plan[i].id;
    FindAt(plan, i);
    assert NodeOk(g, plan, i);
    forall w | w in plan[i].waits ensures w in s.settled {
      assert w in Ids(plan[..i]);
      var k :| 0 <= k < i && Ids(plan[..i])[k] == w;
      assert plan[k].id == w;
    }
    if g[t].async && t !in s.loaded {
      e := Load(t);
      assert t in (s.loaded + {t});
    } else if t in s.applied {
      e := Finish(t);
      assert t in (s.settled + {t});
    } else {
      e := Proceed(t);
      assert t in (s.settled + {t});
      assert |s.applied + [t]| > |s.applied|;
    }
  }

  lemma FirstUnsettled(plan: seq<Node>, settled: set<Id>, x: Id) returns (i: nat)
    requires x in Ids(plan) && x !in settled
    ensures i < |plan| && plan[i].id !in settled && forall k :: 0 <= k < i ==> plan[k].id in settled
  {
    var j :| 0 <= j < |plan| && Ids(plan)[j] == x;
    i := 0;
    while plan[i].id in settled
      invariant i <= j
      invariant forall k :: 0 <= k < i ==> plan[k].id in settled
      decreases j - i
    {
      i := i + 1;
    }
  }

  /** A failed load settles a change although its dependencies have not: it is then never applied. */
  lemma FailedLoadSkips(g: Graph, plan: seq<Node>, appliers: set<Id>, s: State, t: Id, events: seq<Event>)
    requires Find(plan, t).Some? && t in g && g[t].async && t !in s.loaded && t !in s.applied
    ensures t in Step(g, plan, appliers, s, FailLoad(t)).settled
    ensures t !in Run(g, plan, appliers, Step(g, plan, appliers, s, FailLoad(t)), events).applied
  {
    SettledStays(g, plan, appliers, Step(g, plan, appliers, s, FailLoad(t)), t, events);
  }

  lemma {:induction false} SettledStays(g: Graph, plan: seq<Node>, appliers: set<Id>, s: State, t: Id,
                                        events: seq<Event>)
    requires t in s.settled
    ensures t in Run(g, plan, appliers, s, events).settled
    ensures t in Run(g, plan, appliers, s, events).applied <==> t in s.applied
    decreases |events|
  {
    if events != [] {
      SettledStays(g, plan, appliers, Step(g, plan, appliers, s, events[0]), t, events[1..]);
    }
  }

  // ----- the executor itself -----

  /** One turn of the loop over dependencies, of which `f` are the promises so far. */
  lemma StartAllTurn(g: Graph, s: Memo, ts: seq<Id>, i: nat, path: seq<Id>, f: seq<Id>)
    requires i < |ts|
    ensures var first := Start(g, s, ts[i], path);
            var all, rest := StartAll(g, s, ts[i..], path), StartAll(g, first.memo, ts[i + 1..], path);
      && all.memo == rest.memo
      && f + all.handles == (if first.handle.Some? then f + [first.handle.value] else f) + rest.handles
  {
    assert ts[i..][1..] == ts[i + 1..];
    hide Start;
  }

  /** The table of promises of one action. */
  class Executor {
    const g: Graph
    var plan: seq<Node>
    var begun: seq<Id>

    ghost function View(): Memo
      reads this
    {
      Memo(plan, begun)
    }

    constructor (g: Graph)
      ensures this.g == g && View() == EMPTY
    {
      this.g := g;
      plan, begun := [], [];
    }

    method Ask(t: Id, path: seq<Id>) returns (handle: Option<Id>)
      modifies this
      ensures One(View(), handle) == Start(g, old(View()), t, path)
      decreases g.Keys - Elements(path)
    {
      if t in path {
        return None;
      }
      if t !in Ids(plan) {
        if t !in g {
          return None;
        }
        ghost var s := View();
        begun := begun + [t];
        ghost var entry := View();
        var deps := g[t].deps;
        var f: seq<Id> := [];
        assert t in g.Keys - Elements(path) && t !in g.Keys - Elements(path + [t]);
        assert g.Keys - Elements(path + [t]) <= g.Keys - Elements(path);
        ghost var whole := StartAll(g, entry, deps, path + [t]);
        assert deps[0..] == deps && deps[|deps|..] == [];
        hide Start;
        var i := 0;
        while i < |deps|
          invariant i <= |deps|
          invariant var rest := StartAll(g, View(), deps[i..], path + [t]);
                    whole.memo == rest.memo && whole.handles == f + rest.handles
        {
          StartAllTurn(g, View(), deps, i, path + [t], f);
          var h := Ask(deps[i], path + [t]);
          if h.Some? {
            f := f + [h.value];
          }
          i := i + 1;
        }
        assert whole == Many(View(), f);
        plan := plan + [Node(t, f)];
        StartedIs(g, s, t, path);
      }
      return Some(t);
    }

    /** The promises `executePreparedAction` waits for. */
    method ExecutePrepared(changeSet: seq<Id>) returns (handles: seq<Id>)
      requires View() == EMPTY
      modifies this
      ensures Many(View(), handles) == Execute(g, changeSet)
      ensures forall d :: d in handles <==> d in changeSet && d in g
    {
      ExecuteWaits(g, changeSet);
      handles := [];
      assert changeSet[0..] == changeSet && changeSet[|changeSet|..] == [];
      hide Start;
      var i := 0;
      while i < |changeSet|
        invariant i <= |changeSet|
        invariant var rest := StartAll(g, View(), changeSet[i..], []);
                  Execute(g, changeSet) == Many(rest.memo, handles + rest.handles)
      {
        StartAllTurn(g, View(), changeSet, i, [], handles);
        var h := Ask(changeSet[i], []);
        if h.Some? {
          handles := handles + [h.value];
        }
        i := i + 1;
      }
    }
  }
}