/** The promise core as a state machine. */
module Promises {
  import opened Text

  // User code may resolve, reject or call `then` between any two steps of a flush.

  type Id = nat

  datatype Phase = Pending | Fulfilled | Rejected

  /** What a promise can be resolved with: a plain value, a promise of this library, a foreign thenable,
      or an object whose `then` getter throws. */
  datatype Value = Plain(n: int) | Own(p: Id) | Thenable(t: int) | ThrowingThen(error: int)

  /** The error of a promise resolved with itself. */
  const SELF_RESOLUTION := Plain(-1)

  /** A subscriber: a `then` with its two optional callbacks and the promise it returned, or a promise
      that follows this one. */
  datatype Reaction = Then(child: Id, onFulfilled: Option<int>, onRejected: Option<int>) | Follow(target: Id)

  /** Reaction number `no` of its promise. */
  datatype Subscriber = Subscriber(no: nat, reaction: Reaction)

  /** The fields of a promise, and two histories: how many reactions were registered on it, and the
      numbers of those that ran. */
  datatype Promise = Promise(phase: Phase, result: Value, subscribers: seq<Subscriber>, registered: nat, ran: seq<nat>)

  datatype Task = Publish(p: Id) | Late(p: Id, subscriber: Subscriber) | CallThen(p: Id, thenable: int)

  /** What the flush is in the middle of: publishing the subscribers of p from `next` on, or a callback called
      with `argument`, whose outcome settles `child`; `resume` is None for a late reaction. */
  datatype Current =
    | Idle
    | Publishing(p: Id, next: nat)
    | InCallback(p: Id, resume: Option<nat>, child: Id, callback: int, argument: Value)

  /** `tasks` are those not yet taken, `length` counts all of the current round (q / 2), `requests` are
      the flushes scheduled but not begun. */
  datatype State = State(promises: seq<Promise>, tasks: seq<Task>, length: nat, requests: nat, flushing: bool,
                         current: Current)

  datatype Outcome = Returned(v: Value) | Threw(error: int)

  /** `SelfResolve` is a foreign thenable that, asked to settle p, passes itself on: `y` then fulfils p with it. */
  datatype Operation =
    | New
    | Resolve(p: Id, x: Value)
    | Reject(p: Id, x: Value)
    | SelfResolve(p: Id, thenable: int)
    | CallThenOn(p: Id, onFulfilled: Option<int>, onRejected: Option<int>)
    | StartFlush
    | TakeTask
    | RunNext
    | FinishCallback(outcome: Outcome)
    | FinishPublish
    | EndFlush

  const FRESH := Promise(Pending, Plain(0), [], 0, [])

  // ----- the functions of the core -----

  function Put(s: State, p: Id, r: Promise): State
    requires p < |s.promises|
  {
    s.(promises := s.promises[p := r])
  }

  /** `asap`: a flush is scheduled when the queue was empty. */
  function Enqueue(s: State, t: Task): State {
    s.(tasks := s.tasks + [t], length := s.length + 1, requests := s.requests + if s.length == 0 then 1 else 0)
  }

  /** `R` */
  function Fulfill(s: State, p: Id, v: Value): State
    requires p < |s.promises|
  {
    var r := s.promises[p];
    if r.phase != Pending then s
    else
      var s' := Put(s, p, r.(phase := Fulfilled, result := v));
      if r.subscribers != [] then Enqueue(s', Publish(p)) else s'
  }

  /** `D` */
  function RejectWith(s: State, p: Id, v: Value): State
    requires p < |s.promises|
  {
    var r := s.promises[p];
    if r.phase != Pending then s
    else Enqueue(Put(s, p, r.(phase := Rejected, result := v)), Publish(p))
  }

  /** `b`, called only on pending promises. */
  function Subscribe(s: State, p: Id, reaction: Reaction): State
    requires p < |s.promises|
  {
    var r := s.promises[p];
    Put(s, p, r.(subscribers := r.subscribers + [Subscriber(r.registered, reaction)], registered := r.registered + 1))
  }

  /** `T`, with the branches of `A` and `S`. */
  function ResolveWith(s: State, p: Id, x: Value): State
    requires p < |s.promises|
  {
    match x
    case Plain(_) => Fulfill(s, p, x)
    case Own(q) =>
      if q == p then RejectWith(s, p, SELF_RESOLUTION)
      else if q >= |s.promises| then s
      else
        var r := s.promises[q];
        (match r.phase
         case Fulfilled => Fulfill(s, p, r.result)
         case Rejected => RejectWith(s, p, r.result)
         case Pending => Subscribe(s, q, Follow(p)))
    case Thenable(t) => Enqueue(s, CallThen(p, t))
    case ThrowingThen(e) => RejectWith(s, p, Plain(e))
  }

  /** `then`: a reaction on a settled promise becomes a task of its own. */
  function CallThenMethod(s: State, p: Id, f: Option<int>, r: Option<int>): State
    requires p < |s.promises|
  {
    var child := |s.promises|;
    var s' := s.(promises := s.promises + [FRESH]);
    var q := s'.promises[p];
    var reaction := Then(child, f, r);
    if q.phase == Pending then Subscribe(s', p, reaction)
    else Enqueue(Put(s', p, q.(registered := q.registered + 1)), Late(p, Subscriber(q.registered, reaction)))
  }

  /** The reaction is about to run: it is logged, and the flush moves behind it. */
  function Log(s: State, p: Id, no: nat, current: Current): State
    requires p < |s.promises|
  {
    Put(s, p, s.promises[p].(ran := s.promises[p].ran + [no])).(current := current)
  }

  function Behind(p: Id, resume: Option<nat>): Current {
    if resume.Some? then Publishing(p, resume.value) else Idle
  }

  /** The callback of a reaction that is for the state of its promise. */
  function Callback(q: Promise, reaction: Reaction): Option<int> {
    if reaction.Follow? then None else if q.phase == Fulfilled then reaction.onFulfilled else reaction.onRejected
  }

  /** `P`, up to the user's callback, or the internal callbacks of a following promise. */
  function React(s: State, p: Id, sub: Subscriber, resume: Option<nat>): State
    requires p < |s.promises|
  {
    var q := s.promises[p];
    match sub.reaction
    case Follow(target) =>
      var s' := Log(s, p, sub.no, Behind(p, resume));
      if target >= |s.promises| then s'
      else if q.phase == Fulfilled then ResolveWith(s', target, q.result)
      else RejectWith(s', target, q.result)
    case Then(child, _, _) =>
      var callback := Callback(q, sub.reaction);
      if callback.Some? then Log(s, p, sub.no, InCallback(p, resume, child, callback.value, q.result))
      else
        var s' := Log(s, p, sub.no, Behind(p, resume));
        if child >= |s.promises| then s'
        else if q.phase == Fulfilled then Fulfill(s', child, q.result)
        else RejectWith(s', child, q.result)
  }

  /** `P`, after the user's callback. */
  function SettleChild(s: State, child: Id, outcome: Outcome): State {
    if child >= |s.promises| || s.promises[child].phase != Pending then s
    else
      match outcome
      case Threw(e) => RejectWith(s, child, Plain(e))
      case Returned(v) => if v == Own(child) then RejectWith(s, child, SELF_RESOLUTION) else ResolveWith(s, child, v)
  }

  /** One step; a step that is not possible changes nothing. */
  function Next(s: State, op: Operation): State {
    match op
    case New => s.(promises := s.promises + [FRESH])
    case Resolve(p, x) => if p < |s.promises| then ResolveWith(s, p, x) else s
    case Reject(p, x) => if p < |s.promises| then RejectWith(s, p, x) else s
    case SelfResolve(p, t) => if p < |s.promises| then Fulfill(s, p, Thenable(t)) else s
    case CallThenOn(p, f, r) => if p < |s.promises| then CallThenMethod(s, p, f, r) else s
    case StartFlush =>
      if s.requests > 0 && !s.flushing then s.(requests := s.requests - 1, flushing := true) else s
    case TakeTask =>
      if !s.flushing || s.current != Idle || s.tasks == [] then s
      else
        var s' := s.(tasks := s.tasks[1..]);
        (match s.tasks[0]
         case Publish(p) =>
           if p < |s.promises| && s.promises[p].subscribers != [] then s'.(current := Publishing(p, 0)) else s'
         case Late(p, sub) => if p < |s.promises| then React(s', p, sub, None) else s'
         case CallThen(_, _) => s')
    case RunNext =>
      if s.current.Publishing? && s.current.p < |s.promises|
         && s.current.next < |s.promises[s.current.p].subscribers|
      then React(s, s.current.p, s.promises[s.current.p].subscribers[s.current.next], Some(s.current.next + 1))
      else s
    case FinishCallback(outcome) =>
      if s.current.InCallback?
      then SettleChild(s.(current := Behind(s.current.p, s.current.resume)), s.current.child, outcome)
      else s
    case FinishPublish =>
      if s.current.Publishing? && s.current.p < |s.promises|
         && s.current.next == |s.promises[s.current.p].subscribers|
      then Put(s, s.current.p, s.promises[s.current.p].(subscribers := [])).(current := Idle)
      else s
    case EndFlush =>
      if s.flushing && s.current == Idle && s.tasks == [] then s.(flushing := false, length := 0) else s
  }

  function Run(s: State, ops: seq<Operation>): State
    decreases |ops|
  {
    if ops == [] then s else Run(Next(s, ops[0]), ops[1..])
  }

  const START := State([], [], 0, 0, false, Idle)

  // ----- what still has to run -----

  function Nos(subs: seq<Subscriber>): (n: seq<nat>)
    ensures |n| == |subs|
  {
    seq(|subs|, i requires 0 <= i < |subs| => subs[i].no)
  }

  /** The reactions of p that task t will run, if its subscribers are `subs`. */
  function Entry(t: Task, p: Id, subs: seq<Subscriber>): seq<nat> {
    match t
    case Publish(q) => if q == p then Nos(subs) else []
    case Late(q, sub) => if q == p then [sub.no] else []
    case CallThen(_, _) => []
  }

  /** The reactions of p that the queued tasks will run, in order, if its subscribers are `subs`. */
  function Queued(tasks: seq<Task>, p: Id, subs: seq<Subscriber>): seq<nat>
    decreases |tasks|
  {
    if tasks == [] then []
    else
      Entry(tasks[0], p, subs) + Queued(tasks[1..], p, subs)
  }

  /** How often p is to be published. */
  function Publications(tasks: seq<Task>, p: Id): nat
    decreases |tasks|
  {
    if tasks == [] then 0 else (if tasks[0] == Publish(p) then 1 else 0) + Publications(tasks[1..], p)
  }

  predicate PublishingNow(c: Current, p: Id) {
    (c.Publishing? && c.p == p) || (c.InCallback? && c.resume.Some? && c.p == p)
  }

  /** The subscriber the interrupted publication of p goes on with. */
  function Resumes(c: Current): nat {
    if c.Publishing? then c.next else if c.InCallback? && c.resume.Some? then c.resume.value else 0
  }

  /** What is left of the publication in progress. */
  function Rest(c: Current, p: Id, subs: seq<Subscriber>): seq<nat> {
    if PublishingNow(c, p) && Resumes(c) <= |subs| then Nos(subs[Resumes(c)..]) else []
  }

  /** The reactions of p that wait: for the publication in progress, for a task, or for p to settle. */
  function WaitingAt(r: Promise, tasks: seq<Task>, c: Current, p: Id): seq<nat> {
    Rest(c, p, r.subscribers) + Queued(tasks, p, r.subscribers)
    + if r.phase == Pending then Nos(r.subscribers) else []
  }

  function Numbers(n: nat): seq<nat> { seq(n, i requires 0 <= i < n => i) }

  predicate NoLate(tasks: seq<Task>, p: Id) {
    forall i :: 0 <= i < |tasks| ==> !(tasks[i].Late? && tasks[i].p == p)
  }

  /** Every reaction registered on the promise `p` with fields `r` has run, or waits to run, each once and in
      order; nothing ran, and nothing is scheduled, before it settles, and its subscribers are scheduled once
      when it does. */
  ghost predicate OrderlyAt(r: Promise, tasks: seq<Task>, c: Current, p: Id) {
    var schedules := Publications(tasks, p) + if PublishingNow(c, p) then 1 else 0;
    && Numbers(r.registered) == r.ran + WaitingAt(r, tasks, c, p)
    && (r.phase == Pending ==> r.ran == [] && schedules == 0 && NoLate(tasks, p))
    && (r.phase != Pending && r.subscribers != [] ==> schedules == 1)
    && schedules <= 1
    && (PublishingNow(c, p) ==> Resumes(c) <= |r.subscribers|)
  }

  ghost predicate Orderly(s: State) {
    forall p: Id :: p < |s.promises| ==> OrderlyAt(s.promises[p], s.tasks, s.current, p)
  }

  /** A flush is scheduled, once, exactly while tasks wait outside a flush. */
  predicate Awake(s: State) {
    && s.requests == (if s.length > 0 && !s.flushing then 1 else 0)
    && |s.tasks| <= s.length
    && (!s.flushing ==> |s.tasks| == s.length && s.current == Idle)
    && (s.flushing ==> s.length > 0)
  }

  predicate Names(t: Task, n: nat) { t.p < n }

  predicate Placed(s: State) {
    && (!s.current.Idle? ==> s.current.p < |s.promises|)
    && forall t :: t in s.tasks ==> Names(t, |s.promises|)
  }

  ghost predicate Inv(s: State) {
    Awake(s) && Placed(s) && Orderly(s)
  }

  // ----- laws of the bookkeeping functions -----

  lemma {:induction false} QueuedAppend(tasks: seq<Task>, t: Task, p: Id, subs: seq<Subscriber>)
    ensures Queued(tasks + [t], p, subs) ==
            Queued(tasks, p, subs) + Entry(t, p, subs)
    ensures Publications(tasks + [t], p) == Publications(tasks, p) + if t == Publish(p) then 1 else 0
    decreases |tasks|
  {
    hide Entry;
    var e := Entry(t, p, subs);
    if tasks == [] {
      assert tasks + [t] == [t] && [t][1..] == [];
      assert Queued([t], p, subs) == e + Queued([], p, subs) == e == Queued([], p, subs) + e;
    } else {
      var first := Entry(tasks[0], p, subs);
      assert (tasks + [t])[1..] == tasks[1..] + [t];
      QueuedAppend(tasks[1..], t, p, subs);
      assert Queued(tasks + [t], p, subs) == first + (Queued(tasks[1..], p, subs) + e) == Queued(tasks, p, subs) + e;
    }
  }

  /** Without a publication of p in the queue, its subscribers do not matter there. */
  lemma {:induction false} QueuedUnpublished(tasks: seq<Task>, p: Id, subs: seq<Subscriber>, subs': seq<Subscriber>)
    requires Publications(tasks, p) == 0
    ensures Queued(tasks, p, subs) == Queued(tasks, p, subs')
    ensures NoLate(tasks, p) ==> Queued(tasks, p, subs) == []
    decreases |tasks|
  {
    if tasks != [] {
      QueuedUnpublished(tasks[1..], p, subs, subs');
      assert NoLate(tasks, p) ==> NoLate(tasks[1..], p) && !(tasks[0].Late? && tasks[0].p == p);
    }
  }

  lemma QueuedHead(tasks: seq<Task>, p: Id, subs: seq<Subscriber>)
    requires tasks != []
    ensures Queued(tasks, p, subs) ==
            Entry(tasks[0], p, subs) + Queued(tasks[1..], p, subs)
    ensures Publications(tasks, p) == (if tasks[0] == Publish(p) then 1 else 0) + Publications(tasks[1..], p)
  {
  }

  lemma NosAppend(a: seq<Subscriber>, b: seq<Subscriber>)
    ensures Nos(a + b) == Nos(a) + Nos(b)
  {
  }

  lemma NumbersNext(n: nat)
    ensures Numbers(n + 1) == Numbers(n) + [n]
  {
  }

  // ----- every step keeps the invariant -----

  lemma OtherTask(r: Promise, tasks: seq<Task>, t: Task, c: Current, p: Id)
    requires OrderlyAt(r, tasks, c, p)
    requires t.CallThen? || t.p != p
    ensures OrderlyAt(r, tasks + [t], c, p)
  {
    QueuedAppend(tasks, t, p, r.subscribers);
    assert Queued(tasks, p, r.subscribers) + [] == Queued(tasks, p, r.subscribers);
  }

  /** A task for one promise, whose fields become r, leaves the others orderly. */
  lemma EnqueueOrderly(s: State, p: Id, r: Promise, t: Task)
    requires Orderly(s) && p < |s.promises| && t.p == p
    requires OrderlyAt(r, s.tasks + [t], s.current, p)
    ensures Orderly(Enqueue(Put(s, p, r), t))
  {
    forall q: Id | q < |s.promises| && q != p
      ensures OrderlyAt(s.promises[q], s.tasks + [t], s.current, q)
    {
      OtherTask(s.promises[q], s.tasks, t, s.current, q);
    }
  }

  lemma SettledOrderly(r: Promise, tasks: seq<Task>, c: Current, p: Id, phase: Phase, v: Value)
    requires OrderlyAt(r, tasks, c, p) && r.phase == Pending && phase != Pending
    ensures r.subscribers == [] ==> OrderlyAt(r.(phase := phase, result := v), tasks, c, p)
    ensures OrderlyAt(r.(phase := phase, result := v), tasks + [Publish(p)], c, p)
  {
    var r' := r.(phase := phase, result := v);
    QueuedUnpublished(tasks, p, r.subscribers, r.subscribers);
    QueuedAppend(tasks, Publish(p), p, r.subscribers);
    assert WaitingAt(r, tasks, c, p) == Nos(r.subscribers);
    assert WaitingAt(r', tasks + [Publish(p)], c, p) == Nos(r.subscribers);
    assert r.subscribers == [] ==> WaitingAt(r', tasks, c, p) == [] == Nos(r.subscribers);
  }

  lemma FulfillKeeps(s: State, p: Id, v: Value)
    requires Inv(s) && p < |s.promises|
    ensures Inv(Fulfill(s, p, v))
  {
    var r := s.promises[p];
    if r.phase == Pending {
      SettledOrderly(r, s.tasks, s.current, p, Fulfilled, v);
      if r.subscribers != [] {
        EnqueueOrderly(s, p, r.(phase := Fulfilled, result := v), Publish(p));
      }
    }
  }

  lemma RejectKeeps(s: State, p: Id, v: Value)
    requires Inv(s) && p < |s.promises|
    ensures Inv(RejectWith(s, p, v))
  {
    var r := s.promises[p];
    if r.phase == Pending {
      SettledOrderly(r, s.tasks, s.current, p, Rejected, v);
      EnqueueOrderly(s, p, r.(phase := Rejected, result := v), Publish(p));
    }
  }

  lemma PendingWaits(r: Promise, tasks: seq<Task>, c: Current, p: Id)
    requires r.phase == Pending && Publications(tasks, p) == 0 && NoLate(tasks, p) && !PublishingNow(c, p)
    ensures WaitingAt(r, tasks, c, p) == Nos(r.subscribers)
  {
    QueuedUnpublished(tasks, p, r.subscribers, r.subscribers);
    hide Queued, Nos;
  }

  lemma SubscribedOrderly(r: Promise, tasks: seq<Task>, c: Current, p: Id, reaction: Reaction)
    requires OrderlyAt(r, tasks, c, p) && r.phase == Pending
    ensures OrderlyAt(r.(subscribers := r.subscribers + [Subscriber(r.registered, reaction)],
                         registered := r.registered + 1), tasks, c, p)
  {
    var sub := Subscriber(r.registered, reaction);
    var r' := r.(subscribers := r.subscribers + [sub], registered := r.registered + 1);
    NosAppend(r.subscribers, [sub]);
    NumbersNext(r.registered);
    assert Nos([sub]) == [r.registered];
    PendingWaits(r, tasks, c, p);
    PendingWaits(r', tasks, c, p);
    hide WaitingAt, Queued, Nos, Numbers;
  }

  lemma SubscribeKeeps(s: State, p: Id, reaction: Reaction)
    requires Inv(s) && p < |s.promises| && s.promises[p].phase == Pending
    ensures Inv(Subscribe(s, p, reaction))
  {
    SubscribedOrderly(s.promises[p], s.tasks, s.current, p, reaction);
    hide OrderlyAt;
  }

  lemma ResolveKeeps(s: State, p: Id, x: Value)
    requires Inv(s) && p < |s.promises|
    ensures Inv(ResolveWith(s, p, x))
  {
    match x
    case Plain(_) => FulfillKeeps(s, p, x);
    case Own(q) =>
      if q == p {
        RejectKeeps(s, p, SELF_RESOLUTION);
      } else if q < |s.promises| {
        match s.promises[q].phase
        case Fulfilled => FulfillKeeps(s, p, s.promises[q].result);
        case Rejected => RejectKeeps(s, p, s.promises[q].result);
        case Pending => SubscribeKeeps(s, q, Follow(p));
      }
    case Thenable(t) =>
      forall q: Id | q < |s.promises|
        ensures OrderlyAt(s.promises[q], s.tasks + [CallThen(p, t)], s.current, q)
      {
        OtherTask(s.promises[q], s.tasks, CallThen(p, t), s.current, q);
      }
    case ThrowingThen(e) => RejectKeeps(s, p, Plain(e));
  }

  /** No task mentions a promise that does not exist yet. */
  lemma {:induction false} Unmentioned(tasks: seq<Task>, p: Id)
    requires forall t :: t in tasks ==> Names(t, p)
    ensures Publications(tasks, p) == 0 && Queued(tasks, p, []) == [] && NoLate(tasks, p)
    decreases |tasks|
  {
    if tasks != [] {
      assert tasks[0] in tasks && Names(tasks[0], p);
      forall t | t in tasks[1..] ensures Names(t, p) {
        assert t in tasks;
      }
      Unmentioned(tasks[1..], p);
      forall i | 0 <= i < |tasks| ensures !(tasks[i].Late? && tasks[i].p == p) {
        assert tasks[i] in tasks && Names(tasks[i], p);
      }
    }
  }

  lemma FreshOrderly(tasks: seq<Task>, c: Current, p: Id)
    requires Publications(tasks, p) == 0 && Queued(tasks, p, []) == [] && NoLate(tasks, p) && (!c.Idle? ==> c.p < p)
    ensures OrderlyAt(FRESH, tasks, c, p)
  {
    assert Numbers(0) == [] == WaitingAt(FRESH, tasks, c, p);
  }

  lemma NewOrderly(s: State)
    requires Placed(s) && Orderly(s)
    ensures Orderly(s.(promises := s.promises + [FRESH]))
  {
    var n := |s.promises|;
    Unmentioned(s.tasks, n);
    FreshOrderly(s.tasks, s.current, n);
    hide OrderlyAt;
    var promises := s.promises + [FRESH];
    forall p: Id | p < |promises| ensures OrderlyAt(promises[p], s.tasks, s.current, p) {
      if p < n {
        assert promises[p] == s.promises[p];
      } else {
        assert promises[p] == FRESH;
      }
    }
  }

  lemma NewKeeps(s: State)
    requires Inv(s)
    ensures Inv(s.(promises := s.promises + [FRESH]))
  {
    NewOrderly(s);
    forall t | t in s.tasks ensures Names(t, |s.promises| + 1) {
      assert Names(t, |s.promises|);
    }
    hide Orderly;
  }

  lemma LateOrderly(r: Promise, tasks: seq<Task>, c: Current, p: Id, reaction: Reaction)
    requires OrderlyAt(r, tasks, c, p) && r.phase != Pending
    ensures OrderlyAt(r.(registered := r.registered + 1),
                      tasks + [Late(p, Subscriber(r.registered, reaction))], c, p)
  {
    var t := Late(p, Subscriber(r.registered, reaction));
    QueuedAppend(tasks, t, p, r.subscribers);
    NumbersNext(r.registered);
    hide Queued, Rest, Nos, Numbers, Publications;
    var rest, queued := Rest(c, p, r.subscribers), Queued(tasks, p, r.subscribers);
    assert r.ran + (rest + (queued + [r.registered]) + []) == (r.ran + (rest + queued + [])) + [r.registered];
  }

  lemma ThenKeeps(s: State, p: Id, f: Option<int>, g: Option<int>)
    requires Inv(s) && p < |s.promises|
    ensures Inv(CallThenMethod(s, p, f, g))
  {
    NewKeeps(s);
    var s' := s.(promises := s.promises + [FRESH]);
    var reaction := Then(|s.promises|, f, g);
    var r := s'.promises[p];
    if r.phase == Pending {
      SubscribeKeeps(s', p, reaction);
    } else {
      var t := Late(p, Subscriber(r.registered, reaction));
      var r' := r.(registered := r.registered + 1);
      LateOrderly(r, s'.tasks, s'.current, p, reaction);
      hide OrderlyAt;
      EnqueueOrderly(s', p, r', t);
    }
  }

  lemma ReactKeeps(s: State, p: Id, sub: Subscriber, resume: Option<nat>)
    requires p < |s.promises|
    requires Inv(Log(s, p, sub.no, Behind(p, resume)))
    requires Callback(s.promises[p], sub.reaction).Some?
             ==> Inv(Log(s, p, sub.no, InCallback(p, resume, sub.reaction.child,
                                                  Callback(s.promises[p], sub.reaction).value, s.promises[p].result)))
    ensures Inv(React(s, p, sub, resume))
  {
    var q := s.promises[p];
    var s' := Log(s, p, sub.no, Behind(p, resume));
    match sub.reaction
    case Follow(target) =>
      if target < |s.promises| {
        if q.phase == Fulfilled {
          ResolveKeeps(s', target, q.result);
        } else {
          RejectKeeps(s', target, q.result);
        }
      }
    case Then(child, _, _) =>
      if child < |s.promises| && Callback(q, sub.reaction).None? {
        if q.phase == Fulfilled {
          FulfillKeeps(s', child, q.result);
        } else {
          RejectKeeps(s', child, q.result);
        }
      }
  }

  lemma CurrentOther(r: Promise, tasks: seq<Task>, c: Current, c': Current, p: Id)
    requires OrderlyAt(r, tasks, c, p) && !PublishingNow(c, p) && !PublishingNow(c', p)
    ensures OrderlyAt(r, tasks, c', p)
  {
  }

  lemma LoggedOrderly(r: Promise, tasks: seq<Task>, p: Id, k: nat, c: Current)
    requires OrderlyAt(r, tasks, Publishing(p, k), p) && k < |r.subscribers|
    requires c == Publishing(p, k + 1) || (c.InCallback? && c.p == p && c.resume == Some(k + 1))
    ensures OrderlyAt(r.(ran := r.ran + [r.subscribers[k].no]), tasks, c, p)
  {
    hide Queued, Publications, Nos;
    var no := r.subscribers[k].no;
    var r' := r.(ran := r.ran + [no]);
    var rest, queued := Nos(r.subscribers[k + 1..]), Queued(tasks, p, r.subscribers);
    assert r.subscribers[k..] == [r.subscribers[k]] + r.subscribers[k + 1..];
    NosAppend([r.subscribers[k]], r.subscribers[k + 1..]);
    NosOne(r.subscribers[k]);
    assert WaitingAt(r, tasks, Publishing(p, k), p) == ([no] + rest) + queued + [];
    assert WaitingAt(r', tasks, c, p) == rest + queued + [];
    assert r.ran + (([no] + rest) + queued + []) == (r.ran + [no]) + (rest + queued + []);
  }

  lemma NosOne(sub: Subscriber)
    ensures Nos([sub]) == [sub.no]
  {
  }

  /** The publication in progress runs its next subscriber. */
  lemma LogNextKeeps(s: State, p: Id, k: nat, c: Current)
    requires Inv(s) && s.current == Publishing(p, k) && k < |s.promises[p].subscribers|
    requires c == Publishing(p, k + 1) || (c.InCallback? && c.p == p && c.resume == Some(k + 1))
    ensures Inv(Log(s, p, s.promises[p].subscribers[k].no, c))
  {
    LoggedOrderly(s.promises[p], s.tasks, p, k, c);
    hide OrderlyAt, Queued, Publications, Rest;
    forall q: Id | q < |s.promises| && q != p ensures OrderlyAt(s.promises[q], s.tasks, c, q) {
      assert OrderlyAt(s.promises[q], s.tasks, s.current, q);
      CurrentOther(s.promises[q], s.tasks, s.current, c, q);
    }
  }

  lemma TakeOther(r: Promise, tasks: seq<Task>, c: Current, p: Id)
    requires tasks != [] && OrderlyAt(r, tasks, c, p)
    requires tasks[0].CallThen? || tasks[0].p != p
    ensures OrderlyAt(r, tasks[1..], c, p)
  {
    assert [] + Queued(tasks[1..], p, r.subscribers) == Queued(tasks[1..], p, r.subscribers);
  }

  /** Taking a task of p from the queue leaves the other promises orderly. */
  lemma TakeOthers(s: State, p: Id, c: Current)
    requires Orderly(s) && s.current == Idle && s.tasks != [] && s.tasks[0].p == p
    requires !c.Idle? ==> c.p == p
    ensures forall q: Id :: q < |s.promises| && q != p ==> OrderlyAt(s.promises[q], s.tasks[1..], c, q)
  {
    hide OrderlyAt, Queued, Publications, Rest;
    forall q: Id | q < |s.promises| && q != p ensures OrderlyAt(s.promises[q], s.tasks[1..], c, q) {
      assert OrderlyAt(s.promises[q], s.tasks, Idle, q);
      TakeOther(s.promises[q], s.tasks, s.current, q);
      CurrentOther(s.promises[q], s.tasks[1..], s.current, c, q);
    }
  }

  lemma TakePlaced(s: State)
    requires Awake(s) && Placed(s) && s.tasks != [] && s.flushing
    ensures Awake(s.(tasks := s.tasks[1..])) && Placed(s.(tasks := s.tasks[1..]))
    ensures s.tasks[0].p < |s.promises|
  {
    assert s.tasks[0] in s.tasks && Names(s.tasks[0], |s.promises|);
    forall t | t in s.tasks[1..] ensures Names(t, |s.promises|) {
      assert t in s.tasks;
    }
  }

  lemma TakenOrderly(r: Promise, tasks: seq<Task>, p: Id, c: Current)
    requires OrderlyAt(r, tasks, Idle, p) && tasks != [] && tasks[0].Late? && tasks[0].p == p
    requires c == Idle || (c.InCallback? && c.p == p && c.resume == None)
    ensures OrderlyAt(r.(ran := r.ran + [tasks[0].subscriber.no]), tasks[1..], c, p)
  {
    QueuedHead(tasks, p, r.subscribers);
    assert r.phase != Pending;
    hide Queued, Nos, Numbers, Publications;
    var no, queued := tasks[0].subscriber.no, Queued(tasks[1..], p, r.subscribers);
    assert WaitingAt(r, tasks, Idle, p) == [] + ([no] + queued) + [];
    assert WaitingAt(r, tasks[1..], c, p) == [] + queued + [];
    assert r.ran + ([] + ([no] + queued) + []) == (r.ran + [no]) + ([] + queued + []);
  }

  /** A late reaction is taken from the queue and runs. */
  lemma TakeLateKeeps(s: State, c: Current)
    requires Inv(s) && s.flushing && s.current == Idle && s.tasks != [] && s.tasks[0].Late?
    requires c == Idle || (c.InCallback? && c.p == s.tasks[0].p && c.resume == None)
    ensures s.tasks[0].p < |s.promises|
    ensures Inv(Log(s.(tasks := s.tasks[1..]), s.tasks[0].p, s.tasks[0].subscriber.no, c))
  {
    TakePlaced(s);
    var p := s.tasks[0].p;
    TakenOrderly(s.promises[p], s.tasks, p, c);
    TakeOthers(s, p, c);
    hide OrderlyAt, Queued, Publications, Rest;
  }

  lemma PublishedOrderly(r: Promise, tasks: seq<Task>, p: Id)
    requires OrderlyAt(r, tasks, Idle, p) && tasks != [] && tasks[0] == Publish(p)
    ensures OrderlyAt(r, tasks[1..], if r.subscribers != [] then Publishing(p, 0) else Idle, p)
  {
    QueuedHead(tasks, p, r.subscribers);
    assert r.phase != Pending;
    assert r.subscribers == [] ==> Nos(r.subscribers) == [];
    assert r.subscribers[0..] == r.subscribers;
    hide Queued, Nos, Numbers, Publications;
    var nos, queued := Nos(r.subscribers), Queued(tasks[1..], p, r.subscribers);
    var c := if r.subscribers != [] then Publishing(p, 0) else Idle;
    assert WaitingAt(r, tasks, Idle, p) == [] + (nos + queued) + [];
    assert WaitingAt(r, tasks[1..], c, p) == nos + queued + [];
    assert [] + (nos + queued) + [] == nos + queued + [];
  }

  /** The publication of a promise is taken from the queue. */
  lemma TakePublishKeeps(s: State)
    requires Inv(s) && s.flushing && s.current == Idle && s.tasks != [] && s.tasks[0].Publish?
    ensures s.tasks[0].p < |s.promises|
    ensures Inv(s.(tasks := s.tasks[1..], current := if s.promises[s.tasks[0].p].subscribers != []
                                                       then Publishing(s.tasks[0].p, 0) else Idle))
  {
    TakePlaced(s);
    var p := s.tasks[0].p;
    var r := s.promises[p];
    var c := if r.subscribers != [] then Publishing(p, 0) else Idle;
    PublishedOrderly(r, s.tasks, p);
    TakeOthers(s, p, c);
    hide OrderlyAt, Queued, Publications, Rest;
  }

  lemma TakeCallKeeps(s: State)
    requires Inv(s) && s.flushing && s.current == Idle && s.tasks != [] && s.tasks[0].CallThen?
    ensures Inv(s.(tasks := s.tasks[1..]))
  {
    TakePlaced(s);
    forall q: Id | q < |s.promises| ensures OrderlyAt(s.promises[q], s.tasks[1..], s.current, q) {
      TakeOther(s.promises[q], s.tasks, s.current, q);
    }
  }

  lemma FinishPublishKeeps(s: State)
    requires Inv(s)
    ensures Inv(Next(s, FinishPublish))
  {
    var s' := Next(s, FinishPublish);
    if s' != s {
      var p := s.current.p;
      var r := s.promises[p];
      assert OrderlyAt(r, s.tasks, s.current, p);
      QueuedUnpublished(s.tasks, p, r.subscribers, []);
      assert WaitingAt(r, s.tasks, s.current, p) == WaitingAt(s'.promises[p], s.tasks, Idle, p);
      forall q: Id | q < |s.promises| && q != p ensures OrderlyAt(s'.promises[q], s.tasks, Idle, q) {
        assert OrderlyAt(s.promises[q], s.tasks, s.current, q);
      }
    }
  }

  lemma FinishCallbackKeeps(s: State, outcome: Outcome)
    requires Inv(s)
    ensures Inv(Next(s, FinishCallback(outcome)))
  {
    if s.current.InCallback? {
      var s' := s.(current := Behind(s.current.p, s.current.resume));
      forall q: Id | q < |s.promises| ensures OrderlyAt(s'.promises[q], s'.tasks, s'.current, q) {
        assert OrderlyAt(s.promises[q], s.tasks, s.current, q);
      }
      var child := s.current.child;
      if child < |s.promises| {
        match outcome
        case Threw(e) => RejectKeeps(s', child, Plain(e));
        case Returned(v) => RejectKeeps(s', child, SELF_RESOLUTION); ResolveKeeps(s', child, v);
      }
    }
  }

  lemma TakeTaskKeeps(s: State)
    requires Inv(s)
    ensures Inv(Next(s, TakeTask))
  {
    if s.flushing && s.current == Idle && s.tasks != [] {
      match s.tasks[0]
      case Publish(p) => TakePublishKeeps(s);
      case Late(p, sub) =>
        TakeLateKeeps(s, Idle);
        var r := s.promises[p];
        var callback := Callback(r, sub.reaction);
        if callback.Some? {
          TakeLateKeeps(s, InCallback(p, None, sub.reaction.child, callback.value, r.result));
        }
        ReactKeeps(s.(tasks := s.tasks[1..]), p, sub, None);
      case CallThen(_, _) => TakeCallKeeps(s);
    }
  }

  lemma RunNextKeeps(s: State)
    requires Inv(s)
    ensures Inv(Next(s, RunNext))
  {
    if s.current.Publishing? && s.current.next < |s.promises[s.current.p].subscribers| {
      var p, k := s.current.p, s.current.next;
      var sub := s.promises[p].subscribers[k];
      LogNextKeeps(s, p, k, Publishing(p, k + 1));
      var r := s.promises[p];
      var callback := Callback(r, sub.reaction);
      if callback.Some? {
        LogNextKeeps(s, p, k, InCallback(p, Some(k + 1), sub.reaction.child, callback.value, r.result));
      }
      ReactKeeps(s, p, sub, Some(k + 1));
    }
  }

  lemma StepKeepsInv(s: State, op: Operation)
    requires Inv(s)
    ensures Inv(Next(s, op))
  {
    match op
    case New => NewKeeps(s);
    case Resolve(p, x) => if p < |s.promises| { ResolveKeeps(s, p, x); }
    case Reject(p, x) => if p < |s.promises| { RejectKeeps(s, p, x); }
    case SelfResolve(p, t) => if p < |s.promises| { FulfillKeeps(s, p, Thenable(t)); }
    case CallThenOn(p, f, g) => if p < |s.promises| { ThenKeeps(s, p, f, g); }
    case StartFlush =>
    case TakeTask => TakeTaskKeeps(s);
    case RunNext => RunNextKeeps(s);
    case FinishCallback(outcome) => FinishCallbackKeeps(s, outcome);
    case FinishPublish => FinishPublishKeeps(s);
    case EndFlush =>
  }

  lemma {:induction false} RunKeepsInv(s: State, ops: seq<Operation>)
    requires Inv(s)
    ensures Inv(Run(s, ops))
    decreases |ops|
  {
    if ops != [] {
      StepKeepsInv(s, ops[0]);
      RunKeepsInv(Next(s, ops[0]), ops[1..]);
    }
  }

  // ----- what a client may rely on -----

  /** Sections 2.1.2 and 2.1.3 of Promises/A+: over every run, a settled promise keeps its state and its
      result, what ran stays run, and registrations are never withdrawn. */
  ghost predicate Extends(s: State, s': State) {
    && |s.promises| <= |s'.promises|
    && forall p: Id :: p < |s.promises| ==> ExtendsAt(s.promises[p], s'.promises[p])
  }

  ghost predicate ExtendsAt(r: Promise, r': Promise) {
    && (r.phase != Pending ==> r'.phase == r.phase && r'.result == r.result)
    && r.registered <= r'.registered
    && r.ran <= r'.ran
  }

  lemma ExtendsTrans(s: State, s': State, s'': State)
    requires Extends(s, s') && Extends(s', s'')
    ensures Extends(s, s'')
  {
    forall p: Id | p < |s.promises| ensures ExtendsAt(s.promises[p], s''.promises[p]) {
      assert ExtendsAt(s.promises[p], s'.promises[p]) && ExtendsAt(s'.promises[p], s''.promises[p]);
    }
  }

  lemma SettlingExtends(s: State, p: Id, v: Value)
    requires p < |s.promises|
    ensures Extends(s, Fulfill(s, p, v)) && Extends(s, RejectWith(s, p, v))
  {
  }

  lemma ResolvingExtends(s: State, p: Id, x: Value)
    requires p < |s.promises|
    ensures Extends(s, ResolveWith(s, p, x))
  {
    hide Fulfill, RejectWith;
    match x
    case Plain(_) => SettlingExtends(s, p, x);
    case Own(q) =>
      SettlingExtends(s, p, SELF_RESOLUTION);
      if q < |s.promises| {
        SettlingExtends(s, p, s.promises[q].result);
      }
    case Thenable(_) =>
    case ThrowingThen(e) => SettlingExtends(s, p, Plain(e));
  }

  /** A reaction that is started is logged, whatever else it does. */
  lemma ReactingExtends(s: State, p: Id, sub: Subscriber, resume: Option<nat>)
    requires p < |s.promises|
    ensures Extends(Log(s, p, sub.no, Idle), React(s, p, sub, resume))
    ensures Extends(s, React(s, p, sub, resume))
  {
    hide Fulfill, RejectWith, ResolveWith, Behind;
    var q := s.promises[p];
    var s' := Log(s, p, sub.no, Behind(p, resume));
    var target := match sub.reaction case Follow(t) => t case Then(c, _, _) => c;
    if target < |s.promises| {
      SettlingExtends(s', target, q.result);
      ResolvingExtends(s', target, q.result);
    }
    ExtendsTrans(s, Log(s, p, sub.no, Idle), React(s, p, sub, resume));
  }

  lemma SettlingChildExtends(s: State, child: Id, outcome: Outcome)
    ensures Extends(s, SettleChild(s, child, outcome))
  {
    hide Fulfill, RejectWith, ResolveWith;
    if child < |s.promises| {
      match outcome
      case Threw(e) => SettlingExtends(s, child, Plain(e));
      case Returned(v) => SettlingExtends(s, child, SELF_RESOLUTION); ResolvingExtends(s, child, v);
    }
  }

  lemma FinishPublishExtends(s: State)
    ensures Extends(s, Next(s, FinishPublish))
  {
  }

  lemma ThenExtends(s: State, p: Id, f: Option<int>, g: Option<int>)
    requires p < |s.promises|
    ensures Extends(s, CallThenMethod(s, p, f, g))
  {
  }

  lemma StepExtends(s: State, op: Operation)
    ensures Extends(s, Next(s, op))
  {
    hide Fulfill, RejectWith, ResolveWith, React, SettleChild, CallThenMethod;
    match op
    case CallThenOn(p, f, g) => if p < |s.promises| { ThenExtends(s, p, f, g); }
    case FinishPublish => FinishPublishExtends(s);
    case Resolve(p, x) => if p < |s.promises| { ResolvingExtends(s, p, x); }
    case Reject(p, x) => if p < |s.promises| { SettlingExtends(s, p, x); }
    case SelfResolve(p, t) => if p < |s.promises| { SettlingExtends(s, p, Thenable(t)); }
    case TakeTask =>
      if s.tasks != [] && s.tasks[0].Late? && s.tasks[0].p < |s.promises| {
        ReactingExtends(s.(tasks := s.tasks[1..]), s.tasks[0].p, s.tasks[0].subscriber, None);
      }
    case RunNext =>
      if s.current.Publishing? && s.current.p < |s.promises|
         && s.current.next < |s.promises[s.current.p].subscribers| {
        ReactingExtends(s, s.current.p, s.promises[s.current.p].subscribers[s.current.next], Some(s.current.next + 1));
      }
    case FinishCallback(outcome) =>
      if s.current.InCallback? {
        SettlingChildExtends(s.(current := Behind(s.current.p, s.current.resume)), s.current.child, outcome);
      }
    case _ =>
  }

  lemma {:induction false} SettledForever(s: State, ops: seq<Operation>)
    ensures Extends(s, Run(s, ops))
    decreases |ops|
  {
    if ops != [] {
      StepExtends(s, ops[0]);
      SettledForever(Next(s, ops[0]), ops[1..]);
      var s1, s2 := Next(s, ops[0]), Run(s, ops);
      forall p: Id | p < |s.promises| ensures ExtendsAt(s.promises[p], s2.promises[p]) {
        assert ExtendsAt(s.promises[p], s1.promises[p]) && ExtendsAt(s1.promises[p], s2.promises[p]);
      }
    }
  }

  predicate ByUser(op: Operation) {
    op.New? || op.Resolve? || op.Reject? || op.SelfResolve? || op.CallThenOn?
  }

  ghost predicate SameRuns(s: State, s': State) {
    && s'.current == s.current
    && |s.promises| <= |s'.promises|
    && forall p: Id :: p < |s.promises| ==> s'.promises[p].ran == s.promises[p].ran
  }

  lemma SettlingRunsNothing(s: State, p: Id, v: Value)
    requires p < |s.promises|
    ensures SameRuns(s, Fulfill(s, p, v)) && SameRuns(s, RejectWith(s, p, v))
  {
  }

  /** Section 2.2.4 of Promises/A+: no call made by user code runs a reaction. */
  lemma NothingRunsSynchronously(s: State, op: Operation)
    requires ByUser(op)
    ensures SameRuns(s, Next(s, op))
  {
    hide Fulfill, RejectWith;
    match op
    case Resolve(p, x) =>
      if p < |s.promises| {
        SettlingRunsNothing(s, p, x);
        SettlingRunsNothing(s, p, SELF_RESOLUTION);
        match x
        case Own(q) => if q < |s.promises| { SettlingRunsNothing(s, p, s.promises[q].result); }
        case ThrowingThen(e) => SettlingRunsNothing(s, p, Plain(e));
        case _ =>
      }
    case Reject(p, x) => if p < |s.promises| { SettlingRunsNothing(s, p, x); }
    case SelfResolve(p, t) => if p < |s.promises| { SettlingRunsNothing(s, p, Thenable(t)); }
    case _ =>
  }

  /** Section 2.2.6: at any moment of any run, the reactions of a promise that ran are the first ones
      registered, each once and in order; on a pending promise none has. */
  lemma RanInOrder(ops: seq<Operation>, p: Id)
    requires p < |Run(START, ops).promises|
    ensures var r := Run(START, ops).promises[p];
      && r.ran <= Numbers(r.registered)
      && (r.phase == Pending ==> r.ran == [])
  {
    RunKeepsInv(START, ops);
    var s := Run(START, ops);
    assert OrderlyAt(s.promises[p], s.tasks, s.current, p);
  }

  /** When the queue is drained, every reaction registered on a settled promise has run. */
  lemma AllRanAtRest(ops: seq<Operation>, p: Id)
    requires p < |Run(START, ops).promises|
    requires var s := Run(START, ops); s.tasks == [] && s.current == Idle
    requires Run(START, ops).promises[p].phase != Pending
    ensures var r := Run(START, ops).promises[p]; r.ran == Numbers(r.registered)
  {
    RunKeepsInv(START, ops);
    var s := Run(START, ops);
    assert OrderlyAt(s.promises[p], s.tasks, s.current, p);
  }

  /** While tasks wait outside a flush exactly one flush is scheduled, and never another one. */
  lemma OneFlushScheduled(ops: seq<Operation>)
    ensures var s := Run(START, ops);
      s.requests == if s.tasks != [] && !s.flushing then 1 else 0
  {
    RunKeepsInv(START, ops);
  }

  predicate IsFlushStep(op: Operation) {
    op.TakeTask? || op.RunNext? || op.FinishCallback? || op.FinishPublish? || op.EndFlush?
  }

  /** The step with which the flush goes on; a callback of the user ends with `outcome`. */
  function FlushStep(s: State, outcome: Outcome): (op: Operation)
    ensures IsFlushStep(op)
  {
    match s.current
    case InCallback(_, _, _, _, _) => FinishCallback(outcome)
    case Publishing(p, next) =>
      if p < |s.promises| && next < |s.promises[p].subscribers| then RunNext else FinishPublish
    case Idle => if s.tasks == [] then EndFlush else TakeTask
  }

  lemma PublicationInRange(s: State, p: Id)
    requires Orderly(s) && p < |s.promises| && PublishingNow(s.current, p)
    ensures Resumes(s.current) <= |s.promises[p].subscribers|
  {
  }

  /** Sections 2.2.7.3 and 2.2.7.4: a reaction without a callback hands state and result on to its promise,
      unless that promise was settled before. */
  lemma PassesThrough(s: State, p: Id, sub: Subscriber, resume: Option<nat>)
    requires p < |s.promises| && s.promises[p].phase != Pending
    requires sub.reaction.Then? && sub.reaction.child < |s.promises|
    requires (if s.promises[p].phase == Fulfilled then sub.reaction.onFulfilled else sub.reaction.onRejected).None?
    ensures var before, after := s.promises[sub.reaction.child], React(s, p, sub, resume).promises[sub.reaction.child];
      if before.phase == Pending
      then after.phase == s.promises[p].phase && after.result == s.promises[p].result
      else after.phase == before.phase && after.result == before.result
  {
  }

  /** A promise resolved with a pending promise is not locked in: resolving it again, with a plain value, wins,
      and when the promise it followed is rejected in the end, and publishes that, it stays fulfilled. */
  lemma NotLockedIn(n: int, e: int)
    ensures var s := Run(START, [New, New, Resolve(0, Own(1)), Resolve(0, Plain(n)), Reject(1, Plain(e)),
                                 StartFlush, TakeTask, RunNext]);
      && |s.promises| >= 2 && s.promises[0].phase == Fulfilled && s.promises[0].result == Plain(n)
      && s.promises[1].phase == Rejected
  {
    var s3 := Next(Next(Next(Next(START, New), New), Resolve(0, Own(1))), Resolve(0, Plain(n)));
    var s4 := Next(s3, Reject(1, Plain(e)));
    var first := [New, New, Resolve(0, Own(1)), Resolve(0, Plain(n))];
    var last := [StartFlush, TakeTask, RunNext];
    assert |s4.promises| == 2 && s4.promises[0].phase == Fulfilled && s4.promises[0].result == Plain(n);
    assert s4.promises[1].phase == Rejected;
    RunFour(START, New, New, Resolve(0, Own(1)), Resolve(0, Plain(n)));
    RunAppend(START, first, [Reject(1, Plain(e))] + last);
    assert ([Reject(1, Plain(e))] + last)[1..] == last;
    assert first + ([Reject(1, Plain(e))] + last)
        == [New, New, Resolve(0, Own(1)), Resolve(0, Plain(n)), Reject(1, Plain(e)), StartFlush, TakeTask, RunNext];
    SettledForever(s4, last);
    assert ExtendsAt(s4.promises[0], Run(s4, last).promises[0]);
    assert ExtendsAt(s4.promises[1], Run(s4, last).promises[1]);
  }

  lemma RunFour(s: State, a: Operation, b: Operation, c: Operation, d: Operation)
    ensures Run(s, [a, b, c, d]) == Next(Next(Next(Next(s, a), b), c), d)
  {
    hide Next;
    assert [a, b, c, d][1..] == [b, c, d] && [b, c, d][1..] == [c, d] && [c, d][1..] == [d] && [d][1..] == [];
    assert Run(s, [a, b, c, d]) == Run(Next(s, a), [b, c, d]);
    assert Run(Next(s, a), [b, c, d]) == Run(Next(Next(s, a), b), [c, d]);
    assert Run(Next(Next(s, a), b), [c, d]) == Run(Next(Next(Next(s, a), b), c), [d]);
  }

  lemma {:induction false} RunAppend(s: State, a: seq<Operation>, b: seq<Operation>)
    ensures Run(s, a + b) == Run(Run(s, a), b)
    decreases |a|
  {
    hide Next;
    if a == [] {
      assert a + b == b;
    } else {
      assert (a + b)[1..] == a[1..] + b;
      RunAppend(Next(s, a[0]), a[1..], b);
    }
  }

  lemma LateIsSettled(s: State)
    requires Orderly(s) && Placed(s) && s.tasks != [] && s.tasks[0].Late?
    ensures s.tasks[0].p < |s.promises| && s.promises[s.tasks[0].p].phase != Pending
  {
    assert s.tasks[0] in s.tasks && Names(s.tasks[0], |s.promises|);
    assert OrderlyAt(s.promises[s.tasks[0].p], s.tasks, s.current, s.tasks[0].p);
  }

  predicate SameOutcome(p: Promise, q: Promise) { p.phase == q.phase && p.result == q.result }

  // ----- subscribers of a settled promise -----

  predicate SameSubscribers(s: State, s': State, p: Id)
    requires p < |s.promises|
  {
    |s.promises| <= |s'.promises| && s'.promises[p].subscribers == s.promises[p].subscribers
    && s'.promises[p].phase == s.promises[p].phase
  }

  lemma SettlingLeaves(s: State, q: Id, v: Value, p: Id)
    requires q < |s.promises| && p < |s.promises| && s.promises[p].phase != Pending
    ensures SameSubscribers(s, Fulfill(s, q, v), p) && SameSubscribers(s, RejectWith(s, q, v), p)
  {
  }

  lemma ResolvingLeaves(s: State, q: Id, x: Value, p: Id)
    requires q < |s.promises| && p < |s.promises| && s.promises[p].phase != Pending
    ensures SameSubscribers(s, ResolveWith(s, q, x), p)
  {
    hide Fulfill, RejectWith;
    match x
    case Plain(_) => SettlingLeaves(s, q, x, p);
    case Own(o) =>
      SettlingLeaves(s, q, SELF_RESOLUTION, p);
      if o < |s.promises| {
        SettlingLeaves(s, q, s.promises[o].result, p);
      }
    case Thenable(_) =>
    case ThrowingThen(e) => SettlingLeaves(s, q, Plain(e), p);
  }

  /** The loop of a publication runs over a list that does not change meanwhile. */
  lemma ReactingLeaves(s: State, p: Id, sub: Subscriber, resume: Option<nat>)
    requires p < |s.promises| && s.promises[p].phase != Pending
    ensures SameSubscribers(s, React(s, p, sub, resume), p)
  {
    hide Fulfill, RejectWith, ResolveWith, Behind;
    var s' := Log(s, p, sub.no, Behind(p, resume));
    var target := match sub.reaction case Follow(t) => t case Then(c, _, _) => c;
    if target < |s.promises| {
      SettlingLeaves(s', target, s.promises[p].result, p);
      ResolvingLeaves(s', target, s.promises[p].result, p);
    }
  }

  lemma CurrentAfterReact(s: State, p: Id, sub: Subscriber, resume: Option<nat>)
    requires p < |s.promises|
    ensures var c := Callback(s.promises[p], sub.reaction);
      React(s, p, sub, resume).current
      == if c.Some? then InCallback(p, resume, sub.reaction.child, c.value, s.promises[p].result)
         else Behind(p, resume)
  {
  }

  // ----- what the calls of the core mean to their callers -----

  /** A settled promise keeps state and result, nothing that ran or was registered is taken back, and the invariant
      holds on. */
  ghost predicate Keeps(s: State, s': State) {
    Extends(s, s') && (Inv(s) ==> Inv(s'))
  }

  /** Section 2.3 of Promises/A+, up to thenables: what a pending promise p becomes when it is resolved with x. */
  predicate ResolutionOf(s: State, p: Id, x: Value, r: Promise)
    requires p < |s.promises|
  {
    match x
    case Plain(_) => r.phase == Fulfilled && r.result == x
    case Thenable(_) => r.phase == Pending
    case ThrowingThen(e) => r.phase == Rejected && r.result == Plain(e)
    case Own(q) =>
      if q == p then r.phase == Rejected && r.result == SELF_RESOLUTION
      else if q < |s.promises| && s.promises[q].phase != Pending
      then r.phase == s.promises[q].phase && r.result == s.promises[q].result
      else r.phase == Pending
  }

  /** Resolving p runs no reaction, keeps what is settled, and settles p as the standard says. */
  ghost predicate Resolves(s: State, s': State, p: Id, x: Value) {
    && Keeps(s, s') && SameRuns(s, s')
    && (p < |s.promises| && s.promises[p].phase == Pending ==> ResolutionOf(s, p, x, s'.promises[p]))
  }

  lemma ResolvingResolves(s: State, p: Id, x: Value)
    requires p < |s.promises|
    ensures Resolves(s, ResolveWith(s, p, x), p, x)
  {
    ResolvingExtends(s, p, x);
    NothingRunsSynchronously(s, Resolve(p, x));
    if Inv(s) {
      ResolveKeeps(s, p, x);
    }
    hide Extends, SameRuns, Inv;
  }

  /** Exactly one reaction has run: number `no` of p. */
  ghost predicate RunsOne(s: State, s': State, p: Id, no: nat) {
    && |s'.promises| == |s.promises|
    && forall q: Id :: q < |s.promises|
         ==> s'.promises[q].ran == s.promises[q].ran + if q == p then [no] else []
  }

  lemma ReactingRunsOne(s: State, p: Id, sub: Subscriber, resume: Option<nat>)
    requires p < |s.promises|
    ensures RunsOne(s, React(s, p, sub, resume), p, sub.no)
  {
    hide Fulfill, RejectWith, ResolveWith, Behind;
    var q := s.promises[p];
    var s' := Log(s, p, sub.no, Behind(p, resume));
    var target := match sub.reaction case Follow(t) => t case Then(c, _, _) => c;
    assert forall i: Id :: i < |s.promises| && i != p ==> s.promises[i].ran + [] == s.promises[i].ran;
    if target < |s.promises| {
      SettlingRunsNothing(s', target, q.result);
      SettlingCounts(s', target, q.result);
      NothingRunsSynchronously(s', Resolve(target, q.result));
    }
  }

  lemma SettlingCounts(s: State, p: Id, v: Value)
    requires p < |s.promises|
    ensures |Fulfill(s, p, v).promises| == |RejectWith(s, p, v).promises| == |ResolveWith(s, p, v).promises|
         == |s.promises|
  {
  }

  /** The callback's promise is settled by what the callback returned or threw, and the flush is out of user code. */
  ghost predicate Calls(s: State, s': State, child: Id, outcome: Outcome) {
    && Keeps(s, s') && !s'.current.InCallback?
    && (forall p: Id :: p < |s.promises| ==> s'.promises[p].ran == s.promises[p].ran)
    && (child < |s.promises| && s.promises[child].phase == Pending
        ==> ResolutionOf(s, child, if outcome.Threw? then ThrowingThen(outcome.error) else outcome.v,
                         s'.promises[child]))
  }

  lemma FinishingCalls(s: State, outcome: Outcome)
    requires s.current.InCallback?
    ensures Calls(s, Next(s, FinishCallback(outcome)), s.current.child, outcome)
  {
    StepExtends(s, FinishCallback(outcome));
    if Inv(s) {
      StepKeepsInv(s, FinishCallback(outcome));
    }
    var s' := s.(current := Behind(s.current.p, s.current.resume));
    var child := s.current.child;
    if child < |s.promises| {
      match outcome
      case Threw(e) => SettlingRunsNothing(s', child, Plain(e));
      case Returned(v) => SettlingRunsNothing(s', child, SELF_RESOLUTION); ResolvingResolves(s', child, v);
    }
    hide Inv, Extends, ResolveWith;
  }

  /** Nothing is queued, and every reaction registered on a promise that is settled has run, each once and in order. */
  ghost predicate Drained(s: State) {
    && !s.flushing && s.current == Idle && s.tasks == [] && s.requests == 0
    && forall p: Id :: p < |s.promises| && s.promises[p].phase != Pending
         ==> s.promises[p].ran == Numbers(s.promises[p].registered)
  }

  lemma EndDrains(s: State)
    requires Inv(s) && s.flushing && s.current == Idle && s.tasks == []
    ensures Drained(Next(s, EndFlush)) && Inv(Next(s, EndFlush))
  {
    forall p: Id | p < |s.promises| && s.promises[p].phase != Pending
      ensures s.promises[p].ran == Numbers(s.promises[p].registered)
    {
      assert OrderlyAt(s.promises[p], [], Idle, p);
      assert WaitingAt(s.promises[p], [], Idle, p) == [];
    }
    StepKeepsInv(s, EndFlush);
  }

  /** One turn of the flush: a task is taken, or the round is over and nothing is left to run. */
  ghost predicate Turns(s: State, s': State) {
    Keeps(s, s') && (Inv(s) && s.tasks == [] ==> Drained(s'))
  }

  lemma TurningTurns(s: State)
    requires s.flushing && s.current == Idle
    ensures Turns(s, Next(s, if s.tasks == [] then EndFlush else TakeTask))
  {
    var op := if s.tasks == [] then EndFlush else TakeTask;
    StepExtends(s, op);
    if Inv(s) {
      StepKeepsInv(s, op);
      if s.tasks == [] {
        EndDrains(s);
      }
    }
    hide Inv, Extends, Next, Drained;
  }

  // ----- what a registration owes -----

  /** Every reaction that is stored has a number that was given out before. */
  ghost predicate Numbered(s: State) {
    && (forall p: Id, sub :: p < |s.promises| && sub in s.promises[p].subscribers ==> sub.no < s.promises[p].registered)
    && (forall t :: t in s.tasks && t.Late? ==> NumberedTask(s, t.p, t.subscriber.no))
  }

  predicate NumberedTask(s: State, p: Id, no: nat) { p < |s.promises| && no < s.promises[p].registered }

  /** Wherever number `no` of p is stored, it is the callbacks f and g, and a call of one of them settles `child`. */
  ghost predicate Owes(s: State, p: Id, no: nat, child: Id, f: Option<int>, g: Option<int>) {
    && NumberedTask(s, p, no) && child < |s.promises|
    && (forall sub :: sub in s.promises[p].subscribers && sub.no == no ==> sub.reaction == Then(child, f, g))
    && (forall t :: t in s.tasks && t.Late? && t.p == p && t.subscriber.no == no
          ==> t.subscriber.reaction == Then(child, f, g))
  }

  lemma ThenOwes(s: State, p: Id, f: Option<int>, g: Option<int>)
    requires Numbered(s) && p < |s.promises|
    ensures Owes(CallThenMethod(s, p, f, g), p, s.promises[p].registered, |s.promises|, f, g)
    ensures Numbered(CallThenMethod(s, p, f, g))
  {
    var s' := CallThenMethod(s, p, f, g);
    forall t | t in s'.tasks && t.Late? ensures NumberedTask(s', t.p, t.subscriber.no) {
      assert t in s.tasks ==> NumberedTask(s, t.p, t.subscriber.no);
    }
  }

  // ----- the core itself -----

  /** The promises and the queue, updated in place. */
  class Core {
    var promises: seq<Promise>
    var tasks: seq<Task>
    var length: nat
    var requests: nat
    var flushing: bool
    var current: Current

    ghost function View(): State
      reads this
    {
      State(promises, tasks, length, requests, flushing, current)
    }

    constructor ()
      ensures View() == START
    {
      promises, tasks, length, requests, flushing, current := [], [], 0, 0, false, Idle;
    }

    method Create() returns (p: Id)
      modifies this`promises
      ensures p == old(|promises|) && View() == Next(old(View()), New)
    {
      p := |promises|;
      promises := promises + [FRESH];
    }

    method Asap(t: Task)
      modifies this`tasks, this`length, this`requests
      ensures View() == Enqueue(old(View()), t)
      ensures Awake(old(View())) ==> Awake(View())
    {
      tasks := tasks + [t];
      length := length + 1;
      if length == 1 {
        requests := requests + 1;
      }
    }

    method DoFulfill(p: Id, v: Value)
      requires p < |promises|
      modifies this
      ensures View() == Fulfill(old(View()), p, v)
    {
      if promises[p].phase == Pending {
        promises := promises[p := promises[p].(result := v, phase := Fulfilled)];
        if |promises[p].subscribers| != 0 {
          Asap(Publish(p));
        }
      }
    }

    method DoReject(p: Id, v: Value)
      requires p < |promises|
      modifies this
      ensures View() == RejectWith(old(View()), p, v)
    {
      if promises[p].phase == Pending {
        promises := promises[p := promises[p].(phase := Rejected, result := v)];
        Asap(Publish(p));
      }
    }

    method DoSubscribe(p: Id, reaction: Reaction)
      requires p < |promises|
      modifies this`promises
      ensures View() == Subscribe(old(View()), p, reaction)
    {
      var r := promises[p];
      r := r.(subscribers := r.subscribers + [Subscriber(r.registered, reaction)]);
      r := r.(registered := r.registered + 1);
      promises := promises[p := r];
    }

    method DoResolve(p: Id, x: Value)
      requires p < |promises|
      modifies this
      ensures View() == ResolveWith(old(View()), p, x) && Resolves(old(View()), View(), p, x)
    {
      ResolvingResolves(View(), p, x);
      hide Resolves;
      match x {
        case Plain(_) => DoFulfill(p, x);
        case Own(q) =>
          if q == p {
            DoReject(p, SELF_RESOLUTION);
          } else if q < |promises| {
            match promises[q].phase {
              case Fulfilled => DoFulfill(p, promises[q].result);
              case Rejected => DoReject(p, promises[q].result);
              case Pending => DoSubscribe(q, Follow(p));
            }
          }
        case Thenable(t) => Asap(CallThen(p, t));
        case ThrowingThen(e) => DoReject(p, Plain(e));
      }
    }

    /** `then`: the promise it returns is new, and pending until its reaction has run. */
    method DoThen(p: Id, onFulfilled: Option<int>, onRejected: Option<int>) returns (child: Id)
      requires p < |promises|
      modifies this
      ensures child == old(|promises|) < |promises| && promises[child] == FRESH
      ensures View() == CallThenMethod(old(View()), p, onFulfilled, onRejected)
      ensures Numbered(old(View()))
              ==> Numbered(View()) && Owes(View(), p, old(promises[p].registered), child, onFulfilled, onRejected)
    {
      if Numbered(View()) {
        ThenOwes(View(), p, onFulfilled, onRejected);
      }
      hide Numbered, Owes;
      child := Create();
      var reaction := Then(child, onFulfilled, onRejected);
      if promises[p].phase != Pending {
        var r := promises[p];
        promises := promises[p := r.(registered := r.registered + 1)];
        Asap(Late(p, Subscriber(r.registered, reaction)));
      } else {
        DoSubscribe(p, reaction);
      }
    }

    /** Reaction `sub` of the settled promise p, up to the callback of the user; `called` is that callback. */
    method DoReact(p: Id, sub: Subscriber, resume: Option<nat>) returns (called: Option<int>)
      requires p < |promises|
      modifies this
      ensures View() == React(old(View()), p, sub, resume) && RunsOne(old(View()), View(), p, sub.no)
      ensures Extends(old(View()), View())
      ensures called == if sub.reaction.Follow? then None
                        else if old(promises[p]).phase == Fulfilled then sub.reaction.onFulfilled
                        else sub.reaction.onRejected
      ensures current == if called.None? then Behind(p, resume)
                         else InCallback(p, resume, sub.reaction.child, called.value, old(promises[p]).result)
    {
      CurrentAfterReact(View(), p, sub, resume);
      ReactingRunsOne(View(), p, sub, resume);
      ReactingExtends(View(), p, sub, resume);
      hide RunsOne, Extends, Resolves;
      called := None;
      var q := promises[p];
      promises := promises[p := q.(ran := q.ran + [sub.no])];
      current := Behind(p, resume);
      match sub.reaction {
        case Follow(target) =>
          if target < |promises| {
            if q.phase == Fulfilled {
              DoResolve(target, q.result);
            } else {
              DoReject(target, q.result);
            }
          }
        case Then(child, f, g) =>
          called := if q.phase == Fulfilled then f else g;
          if called.Some? {
            current := InCallback(p, resume, child, called.value, q.result);
          } else if child < |promises| {
            if q.phase == Fulfilled {
              DoFulfill(child, q.result);
            } else {
              DoReject(child, q.result);
            }
          }
      }
    }

    /** The flush goes on after a callback of the user. */
    method AfterCallback(outcome: Outcome)
      requires current.InCallback?
      modifies this
      ensures View() == Next(old(View()), FinishCallback(outcome))
      ensures Calls(old(View()), View(), old(current.child), outcome)
    {
      FinishingCalls(View(), outcome);
      hide Calls, Resolves;
      var child := current.child;
      current := Behind(current.p, current.resume);
      if child < |promises| && promises[child].phase == Pending {
        match outcome {
          case Threw(e) => DoReject(child, Plain(e));
          case Returned(v) =>
            if v == Own(child) {
              DoReject(child, SELF_RESOLUTION);
            } else {
              DoResolve(child, v);
            }
        }
      }
    }

    /** The head of the flush loop: the next task, or the end of the round. */
    method FlushLoop() returns (called: Option<int>)
      requires flushing && current == Idle
      modifies this
      ensures View() == Next(old(View()), if old(tasks) == [] then EndFlush else TakeTask)
      ensures Turns(old(View()), View()) && (called.Some? <==> current.InCallback?)
    {
      TurningTurns(View());
      hide Turns, RunsOne, Extends;
      called := None;
      if |tasks| == 0 {
        flushing, length := false, 0;
      } else {
        var t := tasks[0];
        tasks := tasks[1..];
        match t {
          case Publish(p) =>
            if p < |promises| && |promises[p].subscribers| != 0 {
              current := Publishing(p, 0);
            }
          case Late(p, sub) =>
            if p < |promises| {
              called := DoReact(p, sub, None);
            }
          case CallThen(_, _) =>
        }
      }
    }

    /** `O`: the loop over the subscribers, up to the next callback of the user or the end of the loop. */
    method PublishLoop() returns (called: Option<int>, n: nat)
      requires Inv(View()) && current.Publishing?
      modifies this
      ensures called.None? ==> n == |old(promises[current.p]).subscribers| - old(current.next)
      ensures called.None? ==> View() == Next(Run(old(View()), Steps(n)), FinishPublish) && current == Idle
      ensures called.Some? ==> View() == Run(old(View()), Steps(n)) && current.InCallback?
    {
      called, n := None, 0;
      var p := current.p;
      PublicationInRange(View(), p);
      SettledWhenPublishing(View(), p);
      var k := current.next;
      assert Run(View(), Steps(0)) == View();
      hide Run, React, Next, Inv;
      while called.None? && k < |promises[p].subscribers|
        invariant p < |promises| && promises[p].phase != Pending
        invariant promises[p].subscribers == old(promises[current.p]).subscribers
        invariant k == old(current.next) + n <= |promises[p].subscribers|
        invariant called.None? ==> current == Publishing(p, k)
        invariant called.Some? ==> current.InCallback?
        invariant View() == Run(old(View()), Steps(n))
        decreases |promises[p].subscribers| - k
      {
        ghost var before := View();
        RunNextIsReact(before, p, k);
        called := DoReact(p, promises[p].subscribers[k], Some(k + 1));
        StepsNext(old(View()), n);
        k := k + 1;
        n := n + 1;
      }
      if called.None? {
        FinishPublishIs(View(), p);
        promises := promises[p := promises[p].(subscribers := [])];
        current := Idle;
      }
    }
  }

  lemma FinishPublishIs(s: State, p: Id)
    requires p < |s.promises| && s.current == Publishing(p, |s.promises[p].subscribers|)
    ensures Next(s, FinishPublish)
         == s.(promises := s.promises[p := s.promises[p].(subscribers := [])], current := Idle)
  {
  }

  lemma RunNextIsReact(s: State, p: Id, k: nat)
    requires p < |s.promises| && s.promises[p].phase != Pending
    requires s.current == Publishing(p, k) && k < |s.promises[p].subscribers|
    ensures var sub := s.promises[p].subscribers[k];
            var s' := React(s, p, sub, Some(k + 1));
      && Next(s, RunNext) == s'
      && SameSubscribers(s, s', p)
      && (s'.current == Publishing(p, k + 1) || s'.current.InCallback?)
      && (s'.current.InCallback?
          <==> Callback(s.promises[p], sub.reaction).Some?)
  {
    var sub := s.promises[p].subscribers[k];
    ReactingLeaves(s, p, sub, Some(k + 1));
    CurrentAfterReact(s, p, sub, Some(k + 1));
    hide React;
  }

  lemma SettledWhenPublishing(s: State, p: Id)
    requires Orderly(s) && p < |s.promises| && PublishingNow(s.current, p)
    ensures s.promises[p].phase != Pending
  {
    assert OrderlyAt(s.promises[p], s.tasks, s.current, p);
  }

  function Steps(n: nat): seq<Operation> { seq(n, i => RunNext) }

  lemma StepsNext(s: State, n: nat)
    ensures Run(s, Steps(n + 1)) == Next(Run(s, Steps(n)), RunNext)
  {
    hide Next;
    assert Steps(n + 1) == Steps(n) + [RunNext];
    RunAppend(s, Steps(n), [RunNext]);
    assert [RunNext][1..] == [];
  }
}
