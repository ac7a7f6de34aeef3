/** The loader of script chunks. */
module ChunkLoader {
  type Mod = nat
  type Chunk = nat

  /** What a module body does that the loader can see. */
  datatype Action = Require(m: Mod) | Fetch(c: Chunk) | Throw

  /** A chunk that is not in the table was never asked for, or its script failed.  `Loading(k)` holds the
      functions that settle promise number k. */
  datatype Load = Loading(k: nat) | Installed

  /** Promise and script number k: how often its promise was resolved and rejected, and whether the
      handler of its script (load, error or timeout) was called. */
  datatype Request = Request(chunk: Chunk, resolved: nat, rejected: nat, fired: bool)

  /** A deferred entry: a module, and the chunks it waits for. */
  datatype Entry = Entry(m: Mod, chunks: seq<Chunk>)

  /** `cache` tells whether a cached module has finished; `started` and `executed` are histories: the bodies
      that were run and the entries that left the queue. */
  datatype State = State(modules: map<Mod, seq<Action>>, cache: map<Mod, bool>, started: seq<Mod>,
                         chunks: map<Chunk, Load>, requests: seq<Request>,
                         deferred: seq<Entry>, executed: seq<Entry>)

  /** A step that ran to its end, or was cut short by an exception. */
  datatype Ran = Ran(state: State, ok: bool)

  const START := State(map[], map[], [], map[10 := Installed], [], [], [])

  predicate IsInstalled(chunks: map<Chunk, Load>, c: Chunk) { c in chunks && chunks[c] == Installed }

  // ----- modules -----

  /** `o.e` */
  function FetchChunk(s: State, c: Chunk): State {
    if c in s.chunks then s
    else s.(chunks := s.chunks[c := Loading(|s.requests|)], requests := s.requests + [Request(c, 0, 0, false)])
  }

  /** What running modules leaves alone. */
  ghost predicate Frame(s: State, s': State) {
    && s'.modules == s.modules && s'.deferred == s.deferred && s'.executed == s.executed
    && s.cache.Keys <= s'.cache.Keys && s.started <= s'.started
    && SameInstalled(s'.chunks, s.chunks)
  }

  /** `o`: the record of a module is cached before its body runs. */
  function RunModule(s: State, m: Mod): (r: Ran)
    ensures Frame(s, r.state) && m in r.state.cache
    decreases s.modules.Keys - s.cache.Keys, 0
  {
    if m in s.cache then Ran(s, true)
    else
      var s' := s.(cache := s.cache[m := false]);
      if m !in s.modules then Ran(s', false)
      else
        assert m in s.modules.Keys - s.cache.Keys && m !in s'.modules.Keys - s'.cache.Keys;
        var r := RunBody(s'.(started := s'.started + [m]), s.modules[m]);
        if r.ok then Ran(r.state.(cache := r.state.cache[m := true]), true) else r
  }

  function RunBody(s: State, actions: seq<Action>): (r: Ran)
    ensures Frame(s, r.state)
    decreases s.modules.Keys - s.cache.Keys, |actions| + 1
  {
    if actions == [] then Ran(s, true)
    else if actions[0].Throw? then Ran(s, false)
    else if actions[0].Fetch? then RunBody(FetchChunk(s, actions[0].c), actions[1..])
    else
      var r := RunModule(s, actions[0].m);
      if !r.ok then r
      else
        assert s.modules.Keys - r.state.cache.Keys <= s.modules.Keys - s.cache.Keys;
        RunBody(r.state, actions[1..])
  }

  // ----- deferred entries -----

  predicate Ready(chunks: map<Chunk, Load>, e: Entry) {
    forall c :: c in e.chunks ==> IsInstalled(chunks, c)
  }

  /** `r`: the loop from index n on; an entry is taken out of the list before its module runs. */
  function Check(s: State, n: nat): Ran
    requires n <= |s.deferred|
    decreases |s.deferred| - n
  {
    if n == |s.deferred| then Ran(s, true)
    else if !Ready(s.chunks, s.deferred[n]) then Check(s, n + 1)
    else
      var e := s.deferred[n];
      var r := RunModule(s.(deferred := s.deferred[..n] + s.deferred[n + 1..], executed := s.executed + [e]), e.m);
      if r.ok then Check(r.state, n) else r
  }

  // ----- arrival of a chunk file -----

  function Mark(chunks: map<Chunk, Load>, ids: seq<Chunk>): map<Chunk, Load> {
    if ids == [] then chunks else Mark(chunks, ids[..|ids| - 1])[ids[|ids| - 1] := Installed]
  }

  /** The promises that are to be resolved. */
  function Resolvers(chunks: map<Chunk, Load>, ids: seq<Chunk>): seq<nat> {
    if ids == [] then []
    else
      var init, last := ids[..|ids| - 1], ids[|ids| - 1];
      var marked := Mark(chunks, init);
      Resolvers(chunks, init) + if last in marked && marked[last].Loading? then [marked[last].k] else []
  }

  function ResolveAll(requests: seq<Request>, ks: seq<nat>): (r: seq<Request>)
    ensures |r| == |requests|
    decreases |ks|
  {
    if ks == [] then requests
    else
      var k := ks[0];
      ResolveAll(if k < |requests| then requests[k := requests[k].(resolved := requests[k].resolved + 1)] else requests,
                 ks[1..])
  }

  /** `n`, up to the check of the deferred entries. */
  function Install(s: State, ids: seq<Chunk>, modules: map<Mod, seq<Action>>, entries: seq<Entry>): State {
    s.(chunks := Mark(s.chunks, ids), modules := s.modules + modules,
       requests := ResolveAll(s.requests, Resolvers(s.chunks, ids)), deferred := s.deferred + entries)
  }

  // ----- scripts -----

  /** The handler of script k, for load, error and timeout alike; it is detached when it is called. */
  function Fire(s: State, k: nat): State {
    if k >= |s.requests| || s.requests[k].fired then s
    else
      var c := s.requests[k].chunk;
      var requests := s.requests[k := s.requests[k].(fired := true)];
      if c !in s.chunks || s.chunks[c] == Installed then s.(requests := requests)
      else
        var j := s.chunks[c].k;
        s.(chunks := s.chunks - {c},
           requests := if j < |requests| then requests[j := requests[j].(rejected := requests[j].rejected + 1)]
                       else requests)
  }

  // ----- runs -----

  datatype Event =
    | Arrive(ids: seq<Chunk>, modules: map<Mod, seq<Action>>, entries: seq<Entry>)
    | Ask(c: Chunk)
    | Settle(k: nat)
    | Call(m: Mod)
    | Recheck

  function Step(s: State, e: Event): Ran {
    match e
    case Arrive(ids, modules, entries) => Check(Install(s, ids, modules, entries), 0)
    case Ask(c) => Ran(FetchChunk(s, c), true)
    case Settle(k) => Ran(Fire(s, k), true)
    case Call(m) => RunModule(s, m)
    case Recheck => Check(s, 0)
  }

  function Run(s: State, events: seq<Event>): State
    decreases |events|
  {
    if events == [] then s else Run(Step(s, events[0]).state, events[1..])
  }

  // ----- the invariant -----

  predicate Distinct(s: seq<Mod>) { forall i, j :: 0 <= i < j < |s| ==> s[i] != s[j] }

  predicate OnceEach(s: State) {
    Distinct(s.started) && forall i :: 0 <= i < |s.started| ==> s.started[i] in s.cache
  }

  predicate InTime(s: State) {
    forall i :: 0 <= i < |s.executed| ==> Ready(s.chunks, s.executed[i])
  }

  /** Promise k is pending exactly while its chunk waits for it; then its own script is the only one of that
      chunk that can still fail. */
  predicate RequestOk(chunks: map<Chunk, Load>, q: Request, k: nat) {
    if q.chunk in chunks && chunks[q.chunk] == Loading(k) then q == Request(q.chunk, 0, 0, false)
    else
      && q.resolved + q.rejected == 1
      && (q.resolved == 1 || !q.fired ==> IsInstalled(chunks, q.chunk))
  }

  predicate ChunkOk(chunks: map<Chunk, Load>, requests: seq<Request>, c: Chunk)
    requires c in chunks
  {
    chunks[c].Loading? ==> chunks[c].k < |requests| && requests[chunks[c].k].chunk == c
  }

  predicate Settling(chunks: map<Chunk, Load>, requests: seq<Request>) {
    && (forall k :: 0 <= k < |requests| ==> RequestOk(chunks, requests[k], k))
    && (forall c :: c in chunks ==> ChunkOk(chunks, requests, c))
  }

  predicate Inv(s: State) {
    OnceEach(s) && InTime(s) && Settling(s.chunks, s.requests)
  }

  lemma FetchKeeps(s: State, c: Chunk)
    requires Inv(s)
    ensures Inv(FetchChunk(s, c))
  {
    var s' := FetchChunk(s, c);
    if c !in s.chunks {
      forall k | 0 <= k < |s'.requests| ensures RequestOk(s'.chunks, s'.requests[k], k) {
        if k < |s.requests| {
          assert RequestOk(s.chunks, s.requests[k], k);
        }
      }
      forall c' | c' in s'.chunks ensures ChunkOk(s'.chunks, s'.requests, c') {
        assert c' in s.chunks ==> ChunkOk(s.chunks, s.requests, c');
      }
      forall i | 0 <= i < |s.executed| ensures Ready(s'.chunks, s.executed[i]) {
        assert Ready(s.chunks, s.executed[i]);
      }
    }
  }

  lemma {:induction false} ModuleKeeps(s: State, m: Mod)
    requires Inv(s)
    ensures Inv(RunModule(s, m).state)
    decreases s.modules.Keys - s.cache.Keys, 0
  {
    if m !in s.cache && m in s.modules {
      var s' := s.(cache := s.cache[m := false]);
      assert m in s.modules.Keys - s.cache.Keys && m !in s'.modules.Keys - s'.cache.Keys;
      BodyKeeps(s'.(started := s'.started + [m]), s.modules[m]);
    }
  }

  lemma {:induction false} BodyKeeps(s: State, actions: seq<Action>)
    requires Inv(s)
    ensures Inv(RunBody(s, actions).state)
    decreases s.modules.Keys - s.cache.Keys, |actions| + 1
  {
    if actions != [] {
      match actions[0]
      case Throw =>
      case Fetch(c) =>
        FetchKeeps(s, c);
        BodyKeeps(FetchChunk(s, c), actions[1..]);
      case Require(m) =>
        var r := RunModule(s, m);
        ModuleKeeps(s, m);
        if r.ok {
          assert s.modules.Keys - r.state.cache.Keys <= s.modules.Keys - s.cache.Keys;
          BodyKeeps(r.state, actions[1..]);
        }
    }
  }

  lemma {:induction false} CheckKeeps(s: State, n: nat)
    requires Inv(s) && n <= |s.deferred|
    ensures Inv(Check(s, n).state)
    decreases |s.deferred| - n
  {
    if n < |s.deferred| {
      var e := s.deferred[n];
      if !Ready(s.chunks, e) {
        CheckKeeps(s, n + 1);
      } else {
        var s' := s.(deferred := s.deferred[..n] + s.deferred[n + 1..], executed := s.executed + [e]);
        ModuleKeeps(s', e.m);
        var r := RunModule(s', e.m);
        if r.ok {
          CheckKeeps(r.state, n);
        }
      }
    }
  }

  // ----- arrivals and scripts keep it -----

  function Bump(requests: seq<Request>, k: nat): seq<Request> {
    if k < |requests| then requests[k := requests[k].(resolved := requests[k].resolved + 1)] else requests
  }

  lemma {:induction false} ResolveLast(requests: seq<Request>, ks: seq<nat>, k: nat)
    ensures ResolveAll(requests, ks + [k]) == Bump(ResolveAll(requests, ks), k)
    decreases |ks|
  {
    if ks == [] {
      assert [k][1..] == [];
      assert ks + [k] == [k];
    } else {
      assert (ks + [k])[1..] == ks[1..] + [k];
      ResolveLast(Bump(requests, ks[0]), ks[1..], k);
    }
  }

  lemma InstallOneSettles(chunks: map<Chunk, Load>, requests: seq<Request>, c: Chunk)
    requires Settling(chunks, requests)
    ensures var requests' := if c in chunks && chunks[c].Loading? then Bump(requests, chunks[c].k) else requests;
            Settling(chunks[c := Installed], requests')
  {
    var requests' := if c in chunks && chunks[c].Loading? then Bump(requests, chunks[c].k) else requests;
    var chunks' := chunks[c := Installed];
    assert c in chunks ==> ChunkOk(chunks, requests, c);
    forall k | 0 <= k < |requests'| ensures RequestOk(chunks', requests'[k], k) {
      assert RequestOk(chunks, requests[k], k);
    }
    forall c' | c' in chunks' ensures ChunkOk(chunks', requests', c') {
      assert c' in chunks ==> ChunkOk(chunks, requests, c');
    }
  }

  lemma {:induction false} MarkSettles(chunks: map<Chunk, Load>, requests: seq<Request>, ids: seq<Chunk>)
    requires Settling(chunks, requests)
    ensures Settling(Mark(chunks, ids), ResolveAll(requests, Resolvers(chunks, ids)))
    decreases |ids|
  {
    if ids != [] {
      var init, last := ids[..|ids| - 1], ids[|ids| - 1];
      var ks := Resolvers(chunks, init);
      var marked := Mark(chunks, init);
      MarkSettles(chunks, requests, init);
      InstallOneSettles(marked, ResolveAll(requests, ks), last);
      if last in marked && marked[last].Loading? {
        ResolveLast(requests, ks, marked[last].k);
      } else {
        assert ks + [] == ks;
      }
    }
  }

  lemma {:induction false} Marked(chunks: map<Chunk, Load>, ids: seq<Chunk>, c: Chunk)
    ensures IsInstalled(Mark(chunks, ids), c) <==> (IsInstalled(chunks, c) || c in ids)
    decreases |ids|
  {
    if ids != [] {
      var init, last := ids[..|ids| - 1], ids[|ids| - 1];
      Marked(chunks, init, c);
      assert ids == init + [last];
    }
  }

  lemma InstallKeeps(s: State, ids: seq<Chunk>, modules: map<Mod, seq<Action>>, entries: seq<Entry>)
    requires Inv(s)
    ensures Inv(Install(s, ids, modules, entries))
  {
    MarkSettles(s.chunks, s.requests, ids);
    var s' := Install(s, ids, modules, entries);
    forall i | 0 <= i < |s.executed| ensures Ready(s'.chunks, s.executed[i]) {
      assert Ready(s.chunks, s.executed[i]);
      forall c | c in s.executed[i].chunks ensures IsInstalled(s'.chunks, c) {
        Marked(s.chunks, ids, c);
      }
    }
  }

  lemma FireSettles(s: State, k: nat)
    requires Settling(s.chunks, s.requests)
    ensures Settling(Fire(s, k).chunks, Fire(s, k).requests)
  {
    var s' := Fire(s, k);
    if k < |s.requests| && !s.requests[k].fired {
      assert RequestOk(s.chunks, s.requests[k], k);
      var c := s.requests[k].chunk;
      assert ChunkOk(s.chunks, s.requests, c);
      forall i | 0 <= i < |s'.requests| ensures RequestOk(s'.chunks, s'.requests[i], i) {
        assert RequestOk(s.chunks, s.requests[i], i);
      }
      forall c' | c' in s'.chunks ensures ChunkOk(s'.chunks, s'.requests, c') {
        assert ChunkOk(s.chunks, s.requests, c');
      }
    }
  }

  lemma FireKeeps(s: State, k: nat)
    requires Inv(s)
    ensures Inv(Fire(s, k))
  {
    FireSettles(s, k);
    var s' := Fire(s, k);
    forall i | 0 <= i < |s.executed| ensures Ready(s'.chunks, s.executed[i]) {
      assert Ready(s.chunks, s.executed[i]);
    }
  }

  lemma StepKeepsInv(s: State, e: Event)
    requires Inv(s)
    ensures Inv(Step(s, e).state)
  {
    hide Inv;
    match e
    case Arrive(ids, modules, entries) =>
      InstallKeeps(s, ids, modules, entries);
      CheckKeeps(Install(s, ids, modules, entries), 0);
    case Ask(c) => FetchKeeps(s, c);
    case Settle(k) => FireKeeps(s, k);
    case Call(m) => ModuleKeeps(s, m);
    case Recheck => CheckKeeps(s, 0);
  }

  lemma {:induction false} RunKeepsInv(s: State, events: seq<Event>)
    requires Inv(s)
    ensures Inv(Run(s, events))
    decreases |events|
  {
    if events != [] {
      hide Inv, Step;
      StepKeepsInv(s, events[0]);
      RunKeepsInv(Step(s, events[0]).state, events[1..]);
    }
  }

  // ----- what holds over every order of arrivals, errors and timeouts -----

  /** A deferred entry has only run once all its chunks were installed. */
  lemma EntriesWaited(events: seq<Event>, i: nat)
    requires i < |Run(START, events).executed|
    ensures forall c :: c in Run(START, events).executed[i].chunks ==> IsInstalled(Run(START, events).chunks, c)
  {
    RunKeepsInv(START, events);
    assert Ready(Run(START, events).chunks, Run(START, events).executed[i]);
  }

  /** No module body runs twice, circular requires and entries that name the same module included. */
  lemma BodiesRunOnce(events: seq<Event>)
    ensures Distinct(Run(START, events).started)
  {
    RunKeepsInv(START, events);
  }

  /** Each chunk promise is settled at most once, and has been exactly when its chunk no longer waits for it:
      resolved by the arrival of the chunk, which is for good, or rejected by its own script. */
  lemma PromisesSettleOnce(events: seq<Event>, k: nat)
    requires k < |Run(START, events).requests|
    ensures var s := Run(START, events);
            var q := s.requests[k];
      && q.resolved + q.rejected == (if q.chunk in s.chunks && s.chunks[q.chunk] == Loading(k) then 0 else 1)
      && (q.resolved == 1 ==> IsInstalled(s.chunks, q.chunk))
      && (q.rejected == 1 && !IsInstalled(s.chunks, q.chunk) ==> q.fired)
      && (q.fired ==> q.resolved + q.rejected == 1)
  {
    RunKeepsInv(START, events);
    assert RequestOk(Run(START, events).chunks, Run(START, events).requests[k], k);
  }

  predicate Awaited(requests: seq<Request>, c: Chunk, k: nat) {
    k < |requests| && requests[k].chunk == c && requests[k].resolved + requests[k].rejected == 0
  }

  /** Asking for a chunk that is not installed and not awaited makes one request for it, asking again makes none, and
      at any time at most one request for a chunk is awaited. */
  lemma AskingRequestsOnce(events: seq<Event>, c: Chunk)
    ensures var s := Run(START, events);
            var s' := Step(s, Ask(c)).state;
      && s'.requests == (if IsInstalled(s.chunks, c) || exists k: nat :: Awaited(s.requests, c, k) then s.requests
                         else s.requests + [Request(c, 0, 0, false)])
      && (IsInstalled(s'.chunks, c) || exists k: nat :: Awaited(s'.requests, c, k))
      && Step(s', Ask(c)).state == s'
      && forall j: nat, k: nat :: Awaited(s.requests, c, j) && Awaited(s.requests, c, k) ==> j == k
  {
    RunKeepsInv(START, events);
    var s := Run(START, events);
    hide Run;
    forall k: nat | Awaited(s.requests, c, k) ensures c in s.chunks && s.chunks[c] == Loading(k) {
      assert RequestOk(s.chunks, s.requests[k], k);
    }
    if c in s.chunks && s.chunks[c].Loading? {
      var k := s.chunks[c].k;
      assert ChunkOk(s.chunks, s.requests, c) && RequestOk(s.chunks, s.requests[k], k);
      assert Awaited(s.requests, c, k);
    } else if c !in s.chunks {
      assert Awaited(Step(s, Ask(c)).state.requests, c, |s.requests|);
    }
  }

  /** Promise k is settled, once, and its script done with; no other promise has changed. */
  predicate SettlesOnly(requests: seq<Request>, requests': seq<Request>, k: nat) {
    && |requests'| == |requests|
    && (k < |requests| ==> requests'[k].fired && requests'[k].resolved + requests'[k].rejected == 1)
    && (forall j :: 0 <= j < |requests| && j != k ==> requests'[j] == requests[j])
  }

  lemma FireSettlesOnly(s: State, k: nat)
    requires Settling(s.chunks, s.requests)
    ensures SettlesOnly(s.requests, Fire(s, k).requests, k)
  {
    if k < |s.requests| {
      assert RequestOk(s.chunks, s.requests[k], k);
      var c := s.requests[k].chunk;
      assert c in s.chunks ==> ChunkOk(s.chunks, s.requests, c);
    }
  }

  /** The handler of a script rejects no promise but its own. */
  lemma HandlersRejectTheirOwn(events: seq<Event>, k: nat, j: nat)
    requires j < |Run(START, events).requests| && j != k
    ensures var s := Run(START, events); Fire(s, k).requests[j] == s.requests[j]
  {
    RunKeepsInv(START, events);
    var s := Run(START, events);
    if k < |s.requests| {
      assert RequestOk(s.chunks, s.requests[k], k);
      assert s.requests[k].chunk in s.chunks ==> ChunkOk(s.chunks, s.requests, s.requests[k].chunk);
    }
  }

  function ReadyOnes(chunks: map<Chunk, Load>, es: seq<Entry>): seq<Entry> {
    if es == [] then []
    else (if Ready(chunks, es[0]) then [es[0]] else []) + ReadyOnes(chunks, es[1..])
  }

  function WaitingOnes(chunks: map<Chunk, Load>, es: seq<Entry>): seq<Entry> {
    if es == [] then []
    else (if Ready(chunks, es[0]) then [] else [es[0]]) + WaitingOnes(chunks, es[1..])
  }

  lemma {:induction false} OnesDependOnInstalled(a: map<Chunk, Load>, b: map<Chunk, Load>, es: seq<Entry>)
    requires SameInstalled(a, b)
    ensures ReadyOnes(a, es) == ReadyOnes(b, es) && WaitingOnes(a, es) == WaitingOnes(b, es)
  {
    if es != [] {
      OnesDependOnInstalled(a, b, es[1..]);
    }
  }

  lemma {:induction false} StillWaiting(chunks: map<Chunk, Load>, es: seq<Entry>, e: Entry)
    requires e in WaitingOnes(chunks, es)
    ensures !Ready(chunks, e)
  {
    hide Ready;
    if es != [] && e in WaitingOnes(chunks, es[1..]) {
      StillWaiting(chunks, es[1..], e);
    }
  }

  lemma FirstReadyOrWaiting(chunks: map<Chunk, Load>, es: seq<Entry>)
    requires es != []
    ensures var ready, waiting := ReadyOnes(chunks, es[1..]), WaitingOnes(chunks, es[1..]);
      if Ready(chunks, es[0])
      then ReadyOnes(chunks, es) == [es[0]] + ready && WaitingOnes(chunks, es) == waiting
      else ReadyOnes(chunks, es) == ready && WaitingOnes(chunks, es) == [es[0]] + waiting
  {
    hide Ready;
    assert [] + ReadyOnes(chunks, es[1..]) == ReadyOnes(chunks, es[1..]);
    assert [] + WaitingOnes(chunks, es[1..]) == WaitingOnes(chunks, es[1..]);
  }

  lemma {:induction false} ReadyOrWaiting(chunks: map<Chunk, Load>, es: seq<Entry>)
    ensures multiset(es) == multiset(ReadyOnes(chunks, es)) + multiset(WaitingOnes(chunks, es))
  {
    hide Ready;
    if es != [] {
      hide ReadyOnes, WaitingOnes;
      ReadyOrWaiting(chunks, es[1..]);
      FirstReadyOrWaiting(chunks, es);
      assert es == [es[0]] + es[1..];
      OneMore(es[0], es[1..], ReadyOnes(chunks, es[1..]), WaitingOnes(chunks, es[1..]));
    }
  }

  lemma NoneReady(chunks: map<Chunk, Load>, es: seq<Entry>)
    ensures forall e :: e in WaitingOnes(chunks, es) ==> !Ready(chunks, e)
    ensures multiset(es) == multiset(ReadyOnes(chunks, es)) + multiset(WaitingOnes(chunks, es))
  {
    hide Ready, ReadyOnes, WaitingOnes;
    ReadyOrWaiting(chunks, es);
    forall e | e in WaitingOnes(chunks, es) ensures !Ready(chunks, e) {
      StillWaiting(chunks, es, e);
    }
  }

  lemma OneMore(e: Entry, es: seq<Entry>, a: seq<Entry>, b: seq<Entry>)
    requires multiset(es) == multiset(a) + multiset(b)
    ensures multiset([e] + es) == multiset([e] + a) + multiset(b) == multiset(a) + multiset([e] + b)
  {
  }

  ghost predicate SameInstalled(a: map<Chunk, Load>, b: map<Chunk, Load>) {
    forall c :: IsInstalled(a, c) <==> IsInstalled(b, c)
  }

  /** From s, a check starting at index n led to r, having looked at the entries before i: those that were ready
      ran in order, the others stay in place. */
  ghost predicate Splits(s: State, n: nat, i: nat, r: State)
    requires n <= i <= |s.deferred|
  {
    && r.executed == s.executed + ReadyOnes(s.chunks, s.deferred[n..i])
    && r.deferred == s.deferred[..n] + WaitingOnes(s.chunks, s.deferred[n..i]) + s.deferred[i..]
    && SameInstalled(r.chunks, s.chunks)
  }

  lemma SplitsSkip(s: State, n: nat, i: nat, r: State)
    requires n + 1 <= i <= |s.deferred| && !Ready(s.chunks, s.deferred[n])
    requires Splits(s, n + 1, i, r)
    ensures Splits(s, n, i, r)
  {
    hide Ready, SameInstalled;
    var e := s.deferred[n];
    assert s.deferred[n..i] == [e] + s.deferred[n + 1..i];
    assert ([e] + s.deferred[n + 1..i])[1..] == s.deferred[n + 1..i];
    assert s.deferred[..n + 1] == s.deferred[..n] + [e];
    var waiting := WaitingOnes(s.chunks, s.deferred[n + 1..i]);
    assert WaitingOnes(s.chunks, s.deferred[n..i]) == [e] + waiting;
    assert ReadyOnes(s.chunks, s.deferred[n..i]) == [] + ReadyOnes(s.chunks, s.deferred[n + 1..i]);
    hide ReadyOnes, WaitingOnes;
    assert s.deferred[..n] + ([e] + waiting) + s.deferred[i..] == (s.deferred[..n] + [e]) + waiting + s.deferred[i..];
  }

  lemma Dropped(d: seq<Entry>, n: nat, j: nat)
    requires n <= j < |d|
    ensures var d' := d[..n] + d[n + 1..];
      && d'[..n] == d[..n] && d'[n..j] == d[n + 1..j + 1] && d'[j..] == d[j + 1..]
      && d[n..j + 1] == [d[n]] + d[n + 1..j + 1] && (d[n..j + 1])[1..] == d[n + 1..j + 1]
  {
  }

  lemma SplitsRun(s: State, n: nat, s': State, j: nat, r: State)
    requires n <= j < |s.deferred| && Ready(s.chunks, s.deferred[n])
    requires s'.deferred == s.deferred[..n] + s.deferred[n + 1..]
    requires s'.executed == s.executed + [s.deferred[n]] && SameInstalled(s'.chunks, s.chunks)
    requires Splits(s', n, j, r)
    ensures Splits(s, n, j + 1, r)
  {
    hide Ready;
    var e, rest := s.deferred[n], s.deferred[n + 1..j + 1];
    Dropped(s.deferred, n, j);
    OnesDependOnInstalled(s'.chunks, s.chunks, rest);
    assert ReadyOnes(s.chunks, s.deferred[n..j + 1]) == [e] + ReadyOnes(s.chunks, rest);
    assert WaitingOnes(s.chunks, s.deferred[n..j + 1]) == [] + WaitingOnes(s.chunks, rest)
        == WaitingOnes(s.chunks, rest);
    assert (s.executed + [e]) + ReadyOnes(s.chunks, rest) == s.executed + ([e] + ReadyOnes(s.chunks, rest));
  }

  lemma SplitsEmpty(s: State, n: nat, r: State)
    requires n <= |s.deferred|
    requires r.executed == s.executed && r.deferred == s.deferred && SameInstalled(r.chunks, s.chunks)
    ensures Splits(s, n, n, r)
  {
    assert s.deferred[n..n] == [] && s.deferred[..n] + [] + s.deferred[n..] == s.deferred;
  }

  /** The check walks the list once, up to its end unless a module threw. */
  lemma {:induction false} CheckSplits(s: State, n: nat) returns (i: nat)
    requires n <= |s.deferred|
    ensures n <= i <= |s.deferred| && Splits(s, n, i, Check(s, n).state)
    ensures Check(s, n).ok ==> i == |s.deferred|
    decreases |s.deferred| - n
  {
    hide RunModule, Ready, Splits;
    if n == |s.deferred| {
      i := n;
      SplitsEmpty(s, n, s);
    } else if !Ready(s.chunks, s.deferred[n]) {
      i := CheckSplits(s, n + 1);
      SplitsSkip(s, n, i, Check(s, n).state);
    } else {
      var e := s.deferred[n];
      var s' := s.(deferred := s.deferred[..n] + s.deferred[n + 1..], executed := s.executed + [e]);
      var r := RunModule(s', e.m);
      var j := n;
      if r.ok {
        j := CheckSplits(r.state, n);
      } else {
        SplitsEmpty(r.state, n, r.state);
      }
      SplitsRun(s, n, r.state, j, Check(s, n).state);
      i := j + 1;
    }
  }

  /** No entry is lost or runs twice, and after an arrival that did not throw, no ready entry is left. */
  lemma ArrivalRunsTheReady(s: State, ids: seq<Chunk>, modules: map<Mod, seq<Action>>, entries: seq<Entry>)
    ensures var r := Step(s, Arrive(ids, modules, entries));
      && multiset(r.state.executed) + multiset(r.state.deferred)
         == multiset(s.executed) + multiset(s.deferred) + multiset(entries)
      && (r.ok ==> forall e :: e in r.state.deferred ==> !Ready(r.state.chunks, e))
  {
    InstallQueues(s, ids, modules, entries);
    CheckRunsTheReady(Install(s, ids, modules, entries));
    hide Check, Install;
  }

  lemma CheckRunsTheReady(s: State)
    ensures var r := Check(s, 0);
      && multiset(r.state.executed) + multiset(r.state.deferred) == multiset(s.executed) + multiset(s.deferred)
      && (r.ok ==> forall e :: e in r.state.deferred ==> !Ready(r.state.chunks, e))
  {
    var r := Check(s, 0);
    var i := CheckSplits(s, 0);
    hide Check, Ready, ReadyOnes, WaitingOnes;
    var seen, rest := s.deferred[0..i], s.deferred[i..];
    NoneReady(s.chunks, seen);
    assert s.deferred == seen + rest;
    assert s.deferred[..0] + WaitingOnes(s.chunks, seen) + rest == WaitingOnes(s.chunks, seen) + rest;
    if r.ok {
      assert rest == [] && WaitingOnes(s.chunks, seen) + [] == WaitingOnes(s.chunks, seen);
      forall e | e in r.state.deferred ensures !Ready(r.state.chunks, e) {
        assert !Ready(s.chunks, e);
        SameReady(r.state.chunks, s.chunks, e);
      }
    }
  }

  lemma SameReady(a: map<Chunk, Load>, b: map<Chunk, Load>, e: Entry)
    requires SameInstalled(a, b)
    ensures Ready(a, e) <==> Ready(b, e)
  {
  }

  lemma InstallQueues(s: State, ids: seq<Chunk>, modules: map<Mod, seq<Action>>, entries: seq<Entry>)
    ensures var s' := Install(s, ids, modules, entries);
      s'.deferred == s.deferred + entries && s'.executed == s.executed
  {
  }

  lemma StepKeepsInstalled(s: State, e: Event, c: Chunk)
    requires IsInstalled(s.chunks, c)
    ensures IsInstalled(Step(s, e).state.chunks, c)
  {
    match e
    case Arrive(ids, modules, entries) =>
      Marked(s.chunks, ids, c);
      var s' := Install(s, ids, modules, entries);
      var _ := CheckSplits(s', 0);
      assert SameInstalled(Check(s', 0).state.chunks, s'.chunks) && IsInstalled(s'.chunks, c);
    case Recheck =>
      var _ := CheckSplits(s, 0);
      assert SameInstalled(Check(s, 0).state.chunks, s.chunks);
    case Call(m) => assert SameInstalled(RunModule(s, m).state.chunks, s.chunks);
    case Ask(_) =>
    case Settle(_) =>
  }

  /** An installed chunk stays installed. */
  lemma {:induction false} InstalledForGood(s: State, events: seq<Event>, c: Chunk)
    requires IsInstalled(s.chunks, c)
    ensures IsInstalled(Run(s, events).chunks, c)
    decreases |events|
  {
    if events != [] {
      hide Step, IsInstalled;
      StepKeepsInstalled(s, events[0], c);
      InstalledForGood(Step(s, events[0]).state, events[1..], c);
    }
  }

  // ----- which bodies are there -----

  lemma {:induction false} CheckAddsNoModule(s: State, n: nat)
    requires n <= |s.deferred|
    ensures Check(s, n).state.modules == s.modules
    decreases |s.deferred| - n
  {
    hide RunModule;
    if n < |s.deferred| {
      var e := s.deferred[n];
      if !Ready(s.chunks, e) {
        CheckAddsNoModule(s, n + 1);
      } else {
        var s' := s.(deferred := s.deferred[..n] + s.deferred[n + 1..], executed := s.executed + [e]);
        if RunModule(s', e.m).ok {
          CheckAddsNoModule(RunModule(s', e.m).state, n);
        }
      }
    }
  }

  predicate Brings(e: Event, m: Mod) { e.Arrive? && m in e.modules }

  lemma StepBrings(s: State, e: Event, m: Mod)
    ensures var s' := Step(s, e).state;
      && (m in s'.modules <==> m in s.modules || Brings(e, m))
      && (m in s'.modules ==> s'.modules[m] == if Brings(e, m) then e.modules[m] else s.modules[m])
  {
    match e
    case Arrive(ids, modules, entries) => CheckAddsNoModule(Install(s, ids, modules, entries), 0);
    case Recheck => CheckAddsNoModule(s, 0);
    case _ =>
  }

  /** The last arrival that brought m. */
  predicate LastBrings(events: seq<Event>, m: Mod, i: nat) {
    i < |events| && Brings(events[i], m) && forall j :: i < j < |events| ==> !Brings(events[j], m)
  }

  lemma {:induction false} RunBrings(s: State, events: seq<Event>, m: Mod)
    ensures var s' := Run(s, events);
      && (m in s'.modules <==> m in s.modules || exists i :: 0 <= i < |events| && Brings(events[i], m))
      && (forall i: nat :: LastBrings(events, m, i) ==> m in s'.modules && s'.modules[m] == events[i].modules[m])
      && ((forall i :: 0 <= i < |events| ==> !Brings(events[i], m)) && m in s.modules
          ==> m in s'.modules && s'.modules[m] == s.modules[m])
    decreases |events|
  {
    if events != [] {
      hide Step, Brings;
      var s1, rest := Step(s, events[0]).state, events[1..];
      StepBrings(s, events[0], m);
      RunBrings(s1, rest, m);
      assert forall i :: 0 < i < |events| ==> events[i] == rest[i - 1];
      if i :| 0 <= i < |rest| && Brings(rest[i], m) {
        assert Brings(events[i + 1], m);
      }
      forall i: nat | LastBrings(events, m, i)
        ensures m in Run(s, events).modules && Run(s, events).modules[m] == events[i].modules[m]
      {
        if i > 0 {
          assert LastBrings(rest, m, i - 1);
        }
      }
    }
  }

  /** A module is there when a chunk has brought it, and its body is the one that was brought last. */
  lemma LastBodyCounts(events: seq<Event>, m: Mod)
    ensures m in Run(START, events).modules <==> exists i :: 0 <= i < |events| && Brings(events[i], m)
    ensures forall i: nat :: LastBrings(events, m, i)
              ==> m in Run(START, events).modules && Run(START, events).modules[m] == events[i].modules[m]
  {
    RunBrings(START, events, m);
    hide Run, Brings;
  }

  // ----- modules that are cached without having run -----

  predicate Skipped(s: State, x: Mod) { x in s.cache && x !in s.started }

  lemma {:induction false} ModuleSkips(s: State, m: Mod, x: Mod)
    requires Skipped(s, x)
    ensures Skipped(RunModule(s, m).state, x)
    decreases s.modules.Keys - s.cache.Keys, 0
  {
    if m !in s.cache && m in s.modules {
      var s' := s.(cache := s.cache[m := false]);
      assert m in s.modules.Keys - s.cache.Keys && m !in s'.modules.Keys - s'.cache.Keys;
      BodySkips(s'.(started := s'.started + [m]), s.modules[m], x);
    }
  }

  lemma {:induction false} BodySkips(s: State, actions: seq<Action>, x: Mod)
    requires Skipped(s, x)
    ensures Skipped(RunBody(s, actions).state, x)
    decreases s.modules.Keys - s.cache.Keys, |actions| + 1
  {
    if actions != [] {
      match actions[0]
      case Throw =>
      case Fetch(c) => BodySkips(FetchChunk(s, c), actions[1..], x);
      case Require(m) =>
        var r := RunModule(s, m);
        ModuleSkips(s, m, x);
        if r.ok {
          assert s.modules.Keys - r.state.cache.Keys <= s.modules.Keys - s.cache.Keys;
          BodySkips(r.state, actions[1..], x);
        }
    }
  }

  lemma {:induction false} CheckSkips(s: State, n: nat, x: Mod)
    requires Skipped(s, x) && n <= |s.deferred|
    ensures Skipped(Check(s, n).state, x)
    decreases |s.deferred| - n
  {
    hide RunModule;
    if n < |s.deferred| {
      var e := s.deferred[n];
      if !Ready(s.chunks, e) {
        CheckSkips(s, n + 1, x);
      } else {
        var s' := s.(deferred := s.deferred[..n] + s.deferred[n + 1..], executed := s.executed + [e]);
        ModuleSkips(s', e.m, x);
        if RunModule(s', e.m).ok {
          CheckSkips(RunModule(s', e.m).state, n, x);
        }
      }
    }
  }

  /** Requiring a module that has not arrived throws, and leaves its record in the cache: its body never runs,
      even when its chunk arrives later. */
  lemma {:induction false} RequiredTooEarlyNeverRuns(s: State, m: Mod, events: seq<Event>)
    requires m !in s.cache && m !in s.modules && m !in s.started
    ensures !RunModule(s, m).ok
    ensures m !in Run(RunModule(s, m).state, events).started
  {
    SkippedForGood(RunModule(s, m).state, events, m);
  }

  lemma {:induction false} SkippedForGood(s: State, events: seq<Event>, x: Mod)
    requires Skipped(s, x)
    ensures Skipped(Run(s, events), x)
    decreases |events|
  {
    if events != [] {
      hide RunModule, Check;
      match events[0] {
        case Arrive(ids, modules, entries) => CheckSkips(Install(s, ids, modules, entries), 0, x);
        case Recheck => CheckSkips(s, 0, x);
        case Call(m) => ModuleSkips(s, m, x);
        case Ask(_) =>
        case Settle(_) =>
      }
      SkippedForGood(Step(s, events[0]).state, events[1..], x);
    }
  }

  /** A module that has arrived and was never required runs when it is asked for, before any other body. */
  lemma AskedForRuns(s: State, m: Mod)
    requires m !in s.cache && m in s.modules
    ensures s.started + [m] <= RunModule(s, m).state.started
  {
  }

  lemma {:induction false} CheckOnlyAdds(s: State, n: nat)
    requires n <= |s.deferred|
    ensures s.started <= Check(s, n).state.started
    decreases |s.deferred| - n
  {
    hide RunModule;
    if n < |s.deferred| {
      var e := s.deferred[n];
      if !Ready(s.chunks, e) {
        CheckOnlyAdds(s, n + 1);
      } else {
        var s' := s.(deferred := s.deferred[..n] + s.deferred[n + 1..], executed := s.executed + [e]);
        assert Frame(s', RunModule(s', e.m).state);
        if RunModule(s', e.m).ok {
          CheckOnlyAdds(RunModule(s', e.m).state, n);
        }
      }
    }
  }

  lemma {:induction false} RunOnlyAdds(s: State, events: seq<Event>)
    ensures s.started <= Run(s, events).started
    decreases |events|
  {
    if events != [] {
      hide RunModule, Check;
      match events[0] {
        case Arrive(ids, modules, entries) => CheckOnlyAdds(Install(s, ids, modules, entries), 0);
        case Recheck => CheckOnlyAdds(s, 0);
        case Call(m) => assert Frame(s, RunModule(s, m).state);
        case Ask(_) =>
        case Settle(_) =>
      }
      RunOnlyAdds(Step(s, events[0]).state, events[1..]);
    }
  }

  /** Whether the body of a module ever runs is decided when it is first required: it does exactly when the module has
      arrived by then, whatever happens afterwards. */
  lemma FirstRequireDecides(s: State, m: Mod, events: seq<Event>)
    requires Inv(s) && m !in s.cache
    ensures m in Run(RunModule(s, m).state, events).started <==> m in s.modules
  {
    if m in s.modules {
      AskedForRuns(s, m);
      RunOnlyAdds(RunModule(s, m).state, events);
      var after := Run(RunModule(s, m).state, events).started;
      assert after[|s.started|] == m;
    } else {
      RequiredTooEarlyNeverRuns(s, m, events);
    }
  }

  // ----- the loader itself -----

  class Loader {
    var modules: map<Mod, seq<Action>>
    var cache: map<Mod, bool>
    var started: seq<Mod>
    var chunks: map<Chunk, Load>
    var requests: seq<Request>
    var deferred: seq<Entry>
    var executed: seq<Entry>

    ghost function View(): State
      reads this
    {
      State(modules, cache, started, chunks, requests, deferred, executed)
    }

    constructor ()
      ensures View() == START
    {
      modules, cache, started, chunks := map[], map[], [], map[10 := Installed];
      requests, deferred, executed := [], [], [];
    }

    method RequestChunk(c: Chunk)
      modifies this`chunks, this`requests
      ensures View() == FetchChunk(old(View()), c)
    {
      if c !in chunks {
        chunks := chunks[c := Loading(|requests|)];
        requests := requests + [Request(c, 0, 0, false)];
      }
    }

    method RequireModule(m: Mod) returns (ok: bool)
      modifies this
      ensures View() == RunModule(old(View()), m).state && ok == RunModule(old(View()), m).ok
      decreases modules.Keys - cache.Keys
    {
      if m in cache {
        return true;
      }
      cache := cache[m := false];
      if m !in modules {
        return false;
      }
      started := started + [m];
      ghost var entry := View();
      var body := modules[m];
      var i := 0;
      ok := true;
      assert body[0..] == body;
      while ok && i < |body|
        invariant i <= |body|
        invariant Frame(entry, View())
        invariant ok ==> RunBody(entry, body) == RunBody(View(), body[i..])
        invariant !ok ==> RunBody(entry, body) == Ran(View(), false)
      {
        BodyUnfold(View(), body, i);
        match body[i] {
          case Throw => ok := false;
          case Fetch(c) => RequestChunk(c);
          case Require(d) =>
            assert m in old(modules.Keys - cache.Keys) && m !in modules.Keys - cache.Keys;
            ok := RequireModule(d);
        }
        i := i + 1;
      }
      if ok {
        cache := cache[m := true];
      }
    }

    /** `r` */
    method CheckDeferred() returns (ok: bool)
      modifies this
      ensures View() == Check(old(View()), 0).state && ok == Check(old(View()), 0).ok
    {
      var n := 0;
      ok := true;
      while ok && n < |deferred|
        invariant n <= |deferred|
        invariant ok ==> Check(old(View()), 0) == Check(View(), n)
        invariant !ok ==> Check(old(View()), 0) == Ran(View(), false)
        decreases if ok then 1 else 0, |deferred| - n
      {
        hide RunModule;
        var e := deferred[n];
        var ready := true;
        for a := 0 to |e.chunks|
          invariant ready <==> forall b :: 0 <= b < a ==> IsInstalled(chunks, e.chunks[b])
        {
          if e.chunks[a] !in chunks || chunks[e.chunks[a]] != Installed {
            ready := false;
          }
        }
        assert ready <==> Ready(chunks, e);
        if ready {
          deferred := deferred[..n] + deferred[n + 1..];
          executed := executed + [e];
          ok := RequireModule(e.m);
        } else {
          n := n + 1;
        }
      }
    }

    /** `n` */
    method OnArrival(ids: seq<Chunk>, arrived: map<Mod, seq<Action>>, entries: seq<Entry>) returns (ok: bool)
      modifies this
      ensures View() == Step(old(View()), Arrive(ids, arrived, entries)).state
      ensures ok == Step(old(View()), Arrive(ids, arrived, entries)).ok
    {
      var d: seq<nat> := [];
      for u := 0 to |ids|
        invariant chunks == Mark(old(chunks), ids[..u]) && d == Resolvers(old(chunks), ids[..u])
        invariant View() == old(View()).(chunks := chunks)
      {
        assert ids[..u + 1][..u] == ids[..u];
        var o := ids[u];
        if o in chunks && chunks[o].Loading? {
          d := d + [chunks[o].k];
        }
        chunks := chunks[o := Installed];
      }
      assert ids[..|ids|] == ids;
      modules := modules + arrived;
      while |d| > 0
        invariant ResolveAll(old(requests), Resolvers(old(chunks), ids)) == ResolveAll(requests, d)
        invariant View() == old(View()).(chunks := chunks, modules := modules, requests := requests)
        invariant chunks == Mark(old(chunks), ids) && modules == old(modules) + arrived
      {
        if d[0] < |requests| {
          requests := requests[d[0] := requests[d[0]].(resolved := requests[d[0]].resolved + 1)];
        }
        d := d[1..];
      }
      deferred := deferred + entries;
      ok := CheckDeferred();
    }

    /** `c`, the handler of script k: afterwards promise k is settled, exactly once, and no other has changed. */
    method OnScript(k: nat)
      modifies this`chunks, this`requests
      ensures View() == Fire(old(View()), k)
      ensures old(Inv(View())) ==> Inv(View()) && SettlesOnly(old(requests), requests, k)
    {
      ghost var before := View();
      if Inv(before) {
        FireKeeps(before, k);
        FireSettlesOnly(before, k);
      }
      if k < |requests| && !requests[k].fired {
        var c := requests[k].chunk;
        requests := requests[k := requests[k].(fired := true)];
        if c in chunks && chunks[c].Loading? {
          var j := chunks[c].k;
          if j < |requests| {
            requests := requests[j := requests[j].(rejected := requests[j].rejected + 1)];
          }
          chunks := chunks - {c};
        }
      }
    }
  }

  lemma BodyUnfold(s: State, body: seq<Action>, i: nat)
    requires i < |body|
    ensures body[i].Throw? ==> RunBody(s, body[i..]) == Ran(s, false)
    ensures body[i].Fetch? ==> RunBody(s, body[i..]) == RunBody(FetchChunk(s, body[i].c), body[i + 1..])
    ensures body[i].Require? ==>
      var r := RunModule(s, body[i].m);
      RunBody(s, body[i..]) == if r.ok then RunBody(r.state, body[i + 1..]) else r
  {
    assert body[i..][1..] == body[i + 1..];
  }
}
