/** Which callback is called when a reaction runs, and what its outcome settles. */
module Callbacks {
  import opened Promises
  import opened Text

  // ----- what a step stores -----

  /** How many reactions were registered on p. */
  function Given(s: State, p: Id): nat { if p < |s.promises| then s.promises[p].registered else 0 }

  function SubscribersOf(s: State, p: Id): seq<Subscriber> {
    if p < |s.promises| then s.promises[p].subscribers else []
  }

  predicate StoredSince(s: State, s': State, p: Id, sub: Subscriber) {
    sub in SubscribersOf(s, p) || Given(s, p) <= sub.no < Given(s', p)
  }

  predicate QueuedSince(s: State, s': State, t: Task) {
    t in s.tasks || (t.Late? ==> Given(s, t.p) <= t.subscriber.no < Given(s', t.p))
  }

  /** Reactions are stored in s' as they were in s, or with numbers that were given out since. */
  ghost predicate Stores(s: State, s': State) {
    && |s.promises| <= |s'.promises|
    && (forall p: Id :: Given(s, p) <= Given(s', p))
    && (forall p: Id, sub :: sub in SubscribersOf(s', p) ==> StoredSince(s, s', p, sub))
    && (forall t :: t in s'.tasks ==> QueuedSince(s, s', t))
  }

  lemma StoresItself(s: State)
    ensures Stores(s, s)
  {
  }

  lemma StoresTrans(s: State, s': State, s'': State)
    requires Stores(s, s') && Stores(s', s'')
    ensures Stores(s, s'')
  {
    forall p: Id, sub | sub in SubscribersOf(s'', p) ensures StoredSince(s, s'', p, sub) {
      assert StoredSince(s', s'', p, sub) && Given(s, p) <= Given(s', p) <= Given(s'', p);
    }
    forall t | t in s''.tasks ensures QueuedSince(s, s'', t) {
      assert QueuedSince(s', s'', t) && (t.Late? ==> Given(s, t.p) <= Given(s', t.p) <= Given(s'', t.p));
    }
  }

  lemma StoresOwes(s: State, s': State, p: Id, no: nat, child: Id, f: Option<int>, g: Option<int>)
    requires Stores(s, s') && Owes(s, p, no, child, f, g)
    ensures Owes(s', p, no, child, f, g)
  {
    assert Given(s, p) <= Given(s', p);
    forall sub | sub in s'.promises[p].subscribers && sub.no == no ensures sub.reaction == Then(child, f, g) {
      assert sub in SubscribersOf(s', p) && StoredSince(s, s', p, sub);
    }
    forall t | t in s'.tasks && t.Late? && t.p == p && t.subscriber.no == no
      ensures t.subscriber.reaction == Then(child, f, g)
    {
      assert QueuedSince(s, s', t);
    }
  }

  lemma StoresNumbered(s: State, s': State)
    requires Stores(s, s') && Numbered(s)
    ensures Numbered(s')
  {
    forall p: Id, sub | p < |s'.promises| && sub in s'.promises[p].subscribers
      ensures sub.no < s'.promises[p].registered
    {
      assert sub in SubscribersOf(s', p) && StoredSince(s, s', p, sub) && Given(s, p) <= Given(s', p);
    }
    forall t | t in s'.tasks && t.Late? ensures NumberedTask(s', t.p, t.subscriber.no) {
      assert QueuedSince(s, s', t) && Given(s, t.p) <= Given(s', t.p);
    }
  }

  lemma SettlingStores(s: State, p: Id, v: Value)
    requires p < |s.promises|
    ensures Stores(s, Fulfill(s, p, v)) && Stores(s, RejectWith(s, p, v))
  {
  }

  lemma SubscribingStores(s: State, p: Id, reaction: Reaction)
    requires p < |s.promises|
    ensures Stores(s, Subscribe(s, p, reaction))
  {
  }

  lemma ResolvingStores(s: State, p: Id, x: Value)
    requires p < |s.promises|
    ensures Stores(s, ResolveWith(s, p, x))
  {
    hide Fulfill, RejectWith, Subscribe, Stores;
    match x
    case Plain(_) => SettlingStores(s, p, x);
    case Own(q) =>
      StoresItself(s);
      SettlingStores(s, p, SELF_RESOLUTION);
      if q < |s.promises| {
        SettlingStores(s, p, s.promises[q].result);
        SubscribingStores(s, q, Follow(p));
      }
    case Thenable(t) => AskingStores(s, CallThen(p, t));
    case ThrowingThen(e) => SettlingStores(s, p, Plain(e));
  }

  lemma AskingStores(s: State, t: Task)
    requires t.CallThen?
    ensures Stores(s, Enqueue(s, t))
  {
  }

  lemma LoggingStores(s: State, p: Id, no: nat, c: Current)
    requires p < |s.promises|
    ensures Stores(s, Log(s, p, no, c))
  {
  }

  lemma ReactingStores(s: State, p: Id, sub: Subscriber, resume: Option<nat>)
    requires p < |s.promises|
    ensures Stores(s, React(s, p, sub, resume))
  {
    hide Fulfill, RejectWith, ResolveWith, Stores, Behind;
    var q := s.promises[p];
    var s' := Log(s, p, sub.no, Behind(p, resume));
    LoggingStores(s, p, sub.no, React(s, p, sub, resume).current);
    LoggingStores(s, p, sub.no, Behind(p, resume));
    var target := match sub.reaction case Follow(t) => t case Then(c, _, _) => c;
    if target < |s.promises| {
      SettlingStores(s', target, q.result);
      ResolvingStores(s', target, q.result);
      StoresTrans(s, s', RejectWith(s', target, q.result));
      StoresTrans(s, s', Fulfill(s', target, q.result));
      StoresTrans(s, s', ResolveWith(s', target, q.result));
    }
  }

  /** The tasks get fewer, and the flush goes on somewhere. */
  lemma MovingStores(s: State, tasks: seq<Task>, s': State)
    requires forall t :: t in tasks ==> t in s.tasks
    requires s'.promises == s.promises && s'.tasks == tasks
    ensures Stores(s, s')
  {
  }

  lemma FinishPublishStores(s: State)
    ensures Stores(s, Next(s, FinishPublish))
  {
  }

  lemma ThenStores(s: State, p: Id, f: Option<int>, g: Option<int>)
    requires p < |s.promises|
    ensures Stores(s, CallThenMethod(s, p, f, g))
  {
  }

  lemma NewStores(s: State)
    ensures Stores(s, s.(promises := s.promises + [FRESH]))
  {
  }

  lemma FinishCallbackStores(s: State, outcome: Outcome)
    ensures Stores(s, Next(s, FinishCallback(outcome)))
  {
    hide Fulfill, RejectWith, ResolveWith, Stores;
    StoresItself(s);
    if s.current.InCallback? {
      var s' := s.(current := Behind(s.current.p, s.current.resume));
      var child := s.current.child;
      MovingStores(s, s.tasks, s');
      if child < |s.promises| {
        match outcome
        case Threw(e) =>
          SettlingStores(s', child, Plain(e));
          StoresTrans(s, s', RejectWith(s', child, Plain(e)));
        case Returned(v) =>
          SettlingStores(s', child, SELF_RESOLUTION);
          ResolvingStores(s', child, v);
          StoresTrans(s, s', RejectWith(s', child, SELF_RESOLUTION));
          StoresTrans(s, s', ResolveWith(s', child, v));
      }
    }
  }

  lemma TakeTaskStores(s: State)
    ensures Stores(s, Next(s, TakeTask))
  {
    hide React, Stores;
    StoresItself(s);
    if s.flushing && s.current == Idle && s.tasks != [] {
      var rest := s.tasks[1..];
      var s' := s.(tasks := rest);
      assert forall t :: t in rest ==> t in s.tasks;
      MovingStores(s, rest, s');
      match s.tasks[0]
      case Publish(p) => MovingStores(s, rest, Next(s, TakeTask));
      case Late(p, sub) =>
        if p < |s.promises| {
          ReactingStores(s', p, sub, None);
          StoresTrans(s, s', React(s', p, sub, None));
        }
      case CallThen(_, _) =>
    }
  }

  lemma StepStores(s: State, op: Operation)
    ensures Stores(s, Next(s, op))
  {
    hide Fulfill, RejectWith, ResolveWith, React, SettleChild, CallThenMethod, Stores;
    StoresItself(s);
    match op
    case New => NewStores(s);
    case Resolve(p, x) => if p < |s.promises| { ResolvingStores(s, p, x); }
    case Reject(p, x) => if p < |s.promises| { SettlingStores(s, p, x); }
    case SelfResolve(p, t) => if p < |s.promises| { SettlingStores(s, p, Thenable(t)); }
    case CallThenOn(p, f, g) => if p < |s.promises| { ThenStores(s, p, f, g); }
    case StartFlush => MovingStores(s, s.tasks, Next(s, StartFlush));
    case TakeTask => TakeTaskStores(s);
    case RunNext =>
      if s.current.Publishing? && s.current.p < |s.promises|
         && s.current.next < |s.promises[s.current.p].subscribers| {
        ReactingStores(s, s.current.p, s.promises[s.current.p].subscribers[s.current.next], Some(s.current.next + 1));
      }
    case FinishCallback(outcome) => FinishCallbackStores(s, outcome);
    case FinishPublish => FinishPublishStores(s);
    case EndFlush => MovingStores(s, s.tasks, Next(s, EndFlush));
  }

  lemma {:induction false} RunNumbered(s: State, ops: seq<Operation>)
    requires Numbered(s)
    ensures Numbered(Run(s, ops))
    decreases |ops|
  {
    if ops != [] {
      hide Next, Numbered;
      StepStores(s, ops[0]);
      StoresNumbered(s, Next(s, ops[0]));
      RunNumbered(Next(s, ops[0]), ops[1..]);
    }
  }

  lemma {:induction false} RunOwes(s: State, ops: seq<Operation>, p: Id, no: nat, child: Id, f: Option<int>,
                                   g: Option<int>)
    requires Owes(s, p, no, child, f, g)
    ensures Owes(Run(s, ops), p, no, child, f, g)
    decreases |ops|
  {
    if ops != [] {
      hide Next, Owes;
      StepStores(s, ops[0]);
      StoresOwes(s, Next(s, ops[0]), p, no, child, f, g);
      RunOwes(Next(s, ops[0]), ops[1..], p, no, child, f, g);
    }
  }

  // ----- the step in which a reaction runs -----

  /** The step from s to s' calls the callback that is for the state of p, with the result of p, for `child`; where
      there is none, `child` takes state and result of p, if nothing settled it before. */
  ghost predicate CallsFor(s: State, s': State, p: Id, child: Id, f: Option<int>, g: Option<int>) {
    && p < |s.promises| && child < |s.promises| && child < |s'.promises| && s.promises[p].phase != Pending
    && var callback := if s.promises[p].phase == Fulfilled then f else g;
    if callback.Some? then
      && s'.current.InCallback? && s'.current.p == p && s'.current.child == child
      && s'.current.callback == callback.value && s'.current.argument == s.promises[p].result
    else
      && !s'.current.InCallback?
      && SameOutcome(s'.promises[child],
                     if s.promises[child].phase == Pending then s.promises[p] else s.promises[child])
  }

  lemma ReactingCalls(s: State, p: Id, sub: Subscriber, resume: Option<nat>, child: Id, f: Option<int>, g: Option<int>)
    requires p < |s.promises| && child < |s.promises| && s.promises[p].phase != Pending
    requires sub.reaction == Then(child, f, g)
    ensures CallsFor(s, React(s, p, sub, resume), p, child, f, g)
  {
    CurrentAfterReact(s, p, sub, resume);
    if Callback(s.promises[p], sub.reaction).None? {
      PassesThrough(s, p, sub, resume);
    }
    hide React;
  }

  predicate RunsNow(s: State, s': State, p: Id, no: nat) {
    p < |s.promises| && p < |s'.promises| && s'.promises[p].ran == s.promises[p].ran + [no]
  }

  lemma Grown(a: seq<nat>, n: nat, m: nat)
    requires a + [n] == a + [m]
    ensures n == m
  {
    assert (a + [n])[|a|] == n;
  }

  /** A reaction that runs in a step is one that was taken from where it is stored. */
  lemma ReactionCalls(s: State, s': State, r: Id, sub: Subscriber, resume: Option<nat>, p: Id, no: nat, child: Id,
                      f: Option<int>, g: Option<int>)
    requires r < |s.promises| && s.promises[r].phase != Pending && child < |s.promises|
    requires s' == React(s, r, sub, resume)
    requires r == p && sub.no == no ==> sub.reaction == Then(child, f, g)
    requires RunsNow(s, s', p, no)
    ensures CallsFor(s, s', p, child, f, g)
  {
    ReactingRunsOne(s, r, sub, resume);
    hide React;
    assert r == p;
    Grown(s.promises[p].ran, sub.no, no);
    ReactingCalls(s, p, sub, resume, child, f, g);
  }

  lemma TakeTaskCalls(s: State, p: Id, no: nat, child: Id, f: Option<int>, g: Option<int>)
    requires Inv(s) && Owes(s, p, no, child, f, g) && RunsNow(s, Next(s, TakeTask), p, no)
    ensures CallsFor(s, Next(s, TakeTask), p, child, f, g)
  {
    if s.flushing && s.current == Idle && s.tasks != [] {
      match s.tasks[0]
      case Publish(_) =>
      case Late(r, sub) =>
        LateIsSettled(s);
        assert s.tasks[0] in s.tasks;
        hide React, Inv;
        ReactionCalls(s.(tasks := s.tasks[1..]), Next(s, TakeTask), r, sub, None, p, no, child, f, g);
      case CallThen(_, _) =>
    }
  }

  lemma RunNextCalls(s: State, p: Id, no: nat, child: Id, f: Option<int>, g: Option<int>)
    requires Inv(s) && Owes(s, p, no, child, f, g) && RunsNow(s, Next(s, RunNext), p, no)
    ensures CallsFor(s, Next(s, RunNext), p, child, f, g)
  {
    var r := s.current.p;
    SettledWhenPublishing(s, r);
    hide React, Inv;
    var sub := s.promises[r].subscribers[s.current.next];
    ReactionCalls(s, Next(s, RunNext), r, sub, Some(s.current.next + 1), p, no, child, f, g);
  }

  /** The other steps run nothing. */
  lemma OtherStep(s: State, op: Operation, p: Id)
    requires p < |s.promises| && !op.TakeTask? && !op.RunNext?
    ensures p < |Next(s, op).promises| && Next(s, op).promises[p].ran == s.promises[p].ran
  {
    if ByUser(op) {
      NothingRunsSynchronously(s, op);
      hide Next;
    } else if op.FinishCallback? && s.current.InCallback? {
      FinishingCalls(s, op.outcome);
      StepExtends(s, op);
      hide Next;
    }
  }

  lemma StepCalls(s: State, op: Operation, p: Id, no: nat, child: Id, f: Option<int>, g: Option<int>)
    requires Inv(s) && Owes(s, p, no, child, f, g) && RunsNow(s, Next(s, op), p, no)
    ensures CallsFor(s, Next(s, op), p, child, f, g)
  {
    if op.TakeTask? {
      TakeTaskCalls(s, p, no, child, f, g);
    } else if op.RunNext? {
      RunNextCalls(s, p, no, child, f, g);
    } else {
      OtherStep(s, op, p);
    }
  }

  // ----- the theorems -----

  lemma RegisteredOwes(before: seq<Operation>, p: Id, f: Option<int>, g: Option<int>, after: seq<Operation>)
    requires p < |Run(START, before).promises|
    ensures var s := Run(START, before);
            var t := Run(Next(s, CallThenOn(p, f, g)), after);
      Inv(t) && Owes(t, p, s.promises[p].registered, |s.promises|, f, g)
  {
    hide *;
    StartIsNumbered();
    RunNumbered(START, before);
    RunKeepsInv(START, before);
    var s := Run(START, before);
    ThenOwes(s, p, f, g);
    NextThen(s, p, f, g);
    StepKeepsInv(s, CallThenOn(p, f, g));
    RunKeepsInv(Next(s, CallThenOn(p, f, g)), after);
    RunOwes(Next(s, CallThenOn(p, f, g)), after, p, s.promises[p].registered, |s.promises|, f, g);
  }

  lemma StartIsNumbered()
    ensures Numbered(START) && Inv(START)
  {
  }

  lemma NextThen(s: State, p: Id, f: Option<int>, g: Option<int>)
    requires p < |s.promises|
    ensures Next(s, CallThenOn(p, f, g)) == CallThenMethod(s, p, f, g)
  {
  }

  /** Section 2.2 of Promises/A+: in whatever step of whatever run the reaction that a `then` registered runs, its
      promise is settled, and that step calls the first callback given to that `then` if it was fulfilled and the
      second if it was rejected, with its result; where that callback is missing, the promise the `then` returned
      takes state and result. */
  lemma CallsWhatThenWasGiven(before: seq<Operation>, p: Id, f: Option<int>, g: Option<int>, after: seq<Operation>,
                              op: Operation)
    requires p < |Run(START, before).promises|
    ensures var s := Run(START, before);
            var t := Run(Next(s, CallThenOn(p, f, g)), after);
      RunsNow(t, Next(t, op), p, s.promises[p].registered) ==> CallsFor(t, Next(t, op), p, |s.promises|, f, g)
  {
    hide *;
    RegisteredOwes(before, p, f, g, after);
    var s := Run(START, before);
    var t := Run(Next(s, CallThenOn(p, f, g)), after);
    if RunsNow(t, Next(t, op), p, s.promises[p].registered) {
      StepCalls(t, op, p, s.promises[p].registered, |s.promises|, f, g);
    }
  }

  lemma CallbackGoesOn(s: State, op: Operation)
    requires s.current.InCallback? && !op.FinishCallback?
    ensures Next(s, op).current == s.current
  {
    if ByUser(op) {
      NothingRunsSynchronously(s, op);
      hide Next;
    }
  }

  lemma {:induction false} CallbackLasts(s: State, ops: seq<Operation>)
    requires s.current.InCallback? && forall op :: op in ops ==> !op.FinishCallback?
    ensures Run(s, ops).current == s.current
    decreases |ops|
  {
    if ops != [] {
      hide Next;
      assert ops[0] in ops;
      CallbackGoesOn(s, ops[0]);
      CallbackLasts(Next(s, ops[0]), ops[1..]);
    }
  }

  /** And when that callback ends, whatever user code did meanwhile, what it returned or threw settles the promise that
      the `then` returned. */
  lemma OutcomeSettlesWhatThenReturned(before: seq<Operation>, p: Id, f: Option<int>, g: Option<int>,
                                       after: seq<Operation>, op: Operation, during: seq<Operation>, outcome: Outcome)
    requires p < |Run(START, before).promises| && forall o :: o in during ==> !o.FinishCallback?
    requires var s := Run(START, before);
             var t := Run(Next(s, CallThenOn(p, f, g)), after);
             RunsNow(t, Next(t, op), p, s.promises[p].registered)
             && (if t.promises[p].phase == Fulfilled then f else g).Some?
    ensures var s := Run(START, before);
            var t := Run(Next(s, CallThenOn(p, f, g)), after);
            var u := Run(Next(t, op), during);
      u.current == Next(t, op).current && Calls(u, Next(u, FinishCallback(outcome)), |s.promises|, outcome)
  {
    CallsWhatThenWasGiven(before, p, f, g, after, op);
    var s := Run(START, before);
    var t := Run(Next(s, CallThenOn(p, f, g)), after);
    hide Run, Next, Calls, RunsNow;
    CallbackLasts(Next(t, op), during);
    FinishingCalls(Run(Next(t, op), during), outcome);
  }
}
