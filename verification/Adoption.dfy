/** When a promise that was resolved with a pending promise takes that promise's outcome. */
module Adoption {
  import opened Promises
  import opened Text

  // ----- what fulfilled promises hold -----

  predicate HasValue(r: Promise) { r.phase == Fulfilled ==> r.result.Plain? || r.result.Thenable? }

  /** Nothing is fulfilled with a promise of this library. */
  ghost predicate Values(s: State) {
    forall p: Id :: p < |s.promises| ==> HasValue(s.promises[p])
  }

  lemma SettlingValues(s: State, p: Id, v: Value)
    requires Values(s) && p < |s.promises|
    ensures v.Plain? || v.Thenable? ==> Values(Fulfill(s, p, v))
    ensures Values(RejectWith(s, p, v))
  {
  }

  lemma ResolvingValues(s: State, p: Id, x: Value)
    requires Values(s) && p < |s.promises|
    ensures Values(ResolveWith(s, p, x))
  {
    hide Fulfill, RejectWith;
    match x
    case Plain(_) => SettlingValues(s, p, x);
    case Own(q) =>
      SettlingValues(s, p, SELF_RESOLUTION);
      if q < |s.promises| {
        assert HasValue(s.promises[q]);
        SettlingValues(s, p, s.promises[q].result);
      }
    case Thenable(_) =>
    case ThrowingThen(e) => SettlingValues(s, p, Plain(e));
  }

  lemma ReactingValues(s: State, p: Id, sub: Subscriber, resume: Option<nat>)
    requires Values(s) && p < |s.promises|
    ensures Values(React(s, p, sub, resume))
  {
    hide Fulfill, RejectWith, ResolveWith;
    var s' := Log(s, p, sub.no, Behind(p, resume));
    var target := match sub.reaction case Follow(t) => t case Then(c, _, _) => c;
    assert HasValue(s.promises[p]);
    LogValues(s, p, sub.no, Behind(p, resume));
    if target < |s.promises| {
      SettlingValues(s', target, s.promises[p].result);
      ResolvingValues(s', target, s.promises[p].result);
    }
    if sub.reaction.Then? {
      var callback := Callback(s.promises[p], sub.reaction);
      if callback.Some? {
        LogValues(s, p, sub.no, InCallback(p, resume, sub.reaction.child, callback.value, s.promises[p].result));
      }
    }
  }

  lemma LogValues(s: State, p: Id, no: nat, c: Current)
    requires Values(s) && p < |s.promises|
    ensures Values(Log(s, p, no, c))
  {
    assert HasValue(s.promises[p]);
  }

  lemma StepValues(s: State, op: Operation)
    requires Values(s)
    ensures Values(Next(s, op))
  {
    hide Fulfill, RejectWith, ResolveWith, React, HasValue;
    match op
    case New => FreshValue();
    case Resolve(p, x) => if p < |s.promises| { ResolvingValues(s, p, x); }
    case Reject(p, x) => if p < |s.promises| { SettlingValues(s, p, x); }
    case SelfResolve(p, t) => if p < |s.promises| { SettlingValues(s, p, Thenable(t)); }
    case CallThenOn(p, f, g) => if p < |s.promises| { ThenValues(s, p, f, g); }
    case TakeTask =>
      if s.tasks != [] && s.tasks[0].Late? && s.tasks[0].p < |s.promises| {
        ReactingValues(s.(tasks := s.tasks[1..]), s.tasks[0].p, s.tasks[0].subscriber, None);
      }
    case RunNext =>
      if s.current.Publishing? && s.current.p < |s.promises|
         && s.current.next < |s.promises[s.current.p].subscribers| {
        ReactingValues(s, s.current.p, s.promises[s.current.p].subscribers[s.current.next], Some(s.current.next + 1));
      }
    case FinishCallback(outcome) =>
      if s.current.InCallback? && s.current.child < |s.promises| {
        var s' := s.(current := Behind(s.current.p, s.current.resume));
        match outcome
        case Threw(e) => SettlingValues(s', s.current.child, Plain(e));
        case Returned(v) =>
          SettlingValues(s', s.current.child, SELF_RESOLUTION);
          ResolvingValues(s', s.current.child, v);
      }
    case FinishPublish =>
      if s.current.Publishing? && s.current.p < |s.promises| {
        ClearedValue(s, s.current.p);
      }
    case StartFlush =>
    case EndFlush =>
  }

  lemma FreshValue()
    ensures HasValue(FRESH)
  {
  }

  lemma ClearedValue(s: State, p: Id)
    requires Values(s) && p < |s.promises|
    ensures HasValue(s.promises[p].(subscribers := []))
  {
    assert HasValue(s.promises[p]);
  }

  lemma ThenValues(s: State, p: Id, f: Option<int>, g: Option<int>)
    requires Values(s) && p < |s.promises|
    ensures Values(CallThenMethod(s, p, f, g))
  {
    FreshValue();
    var r := s.promises[p];
    assert HasValue(r);
    var sub := Subscriber(r.registered, Then(|s.promises|, f, g));
    assert HasValue(r.(registered := r.registered + 1));
    assert HasValue(r.(subscribers := r.subscribers + [sub], registered := r.registered + 1));
  }

  lemma {:induction false} RunValues(s: State, ops: seq<Operation>)
    requires Values(s)
    ensures Values(Run(s, ops))
    decreases |ops|
  {
    if ops != [] {
      hide Next, Values;
      StepValues(s, ops[0]);
      RunValues(Next(s, ops[0]), ops[1..]);
    }
  }

  // ----- who may still settle p -----

  predicate Mentions(sub: Subscriber, p: Id) {
    match sub.reaction
    case Then(child, _, _) => child == p
    case Follow(target) => target == p
  }

  /** Of the reactions registered on r, only number `no` of q may concern p, and that one follows. */
  predicate OnlyFollower(r: Id, sub: Subscriber, p: Id, q: Id, no: nat) {
    (Mentions(sub, p) || (r == q && sub.no == no)) ==> r == q && sub == Subscriber(no, Follow(p))
  }

  ghost predicate Unclaimed(s: State, p: Id, q: Id, no: nat) {
    && (forall r: Id, k :: r < |s.promises| && 0 <= k < |s.promises[r].subscribers|
          ==> OnlyFollower(r, s.promises[r].subscribers[k], p, q, no))
    && (forall t :: t in s.tasks && t.Late? ==> OnlyFollower(t.p, t.subscriber, p, q, no))
    && !(s.current.InCallback? && s.current.child == p)
  }

  /** p has q's outcome; a thenable that q was fulfilled with is asked in its turn, so p goes on waiting. */
  predicate Took(p: Promise, q: Promise) {
    q.phase != Pending
    && if q.phase == Fulfilled && q.result.Thenable? then p.phase == Pending
       else p.phase == q.phase && p.result == q.result
  }

  /** p waits for reaction `no` of q, and takes q's outcome with it. */
  ghost predicate Follows(s: State, p: Id, q: Id, no: nat) {
    && p < |s.promises| && q < |s.promises| && p != q && no < s.promises[q].registered
    && Unclaimed(s, p, q, no)
    && if no in s.promises[q].ran then Took(s.promises[p], s.promises[q]) else s.promises[p].phase == Pending
  }

  /** The parts of the state that matter to p and q. */
  ghost predicate Alike(s: State, s': State, p: Id, q: Id, no: nat)
    requires p < |s.promises| && q < |s.promises|
  {
    && |s.promises| <= |s'.promises|
    && s'.promises[p].phase == s.promises[p].phase && s'.promises[p].result == s.promises[p].result
    && (no in s'.promises[q].ran <==> no in s.promises[q].ran)
    && s.promises[q].registered <= s'.promises[q].registered
    && (s.promises[q].phase != Pending
        ==> s'.promises[q].phase == s.promises[q].phase && s'.promises[q].result == s.promises[q].result)
  }

  lemma AlikeFollows(s: State, s': State, p: Id, q: Id, no: nat)
    requires Follows(s, p, q, no) && Alike(s, s', p, q, no) && Unclaimed(s', p, q, no)
    ensures Follows(s', p, q, no)
  {
    hide Unclaimed;
  }

  lemma SettlingUnclaimed(s: State, t: Id, v: Value, p: Id, q: Id, no: nat)
    requires t < |s.promises| && Unclaimed(s, p, q, no)
    ensures Unclaimed(Fulfill(s, t, v), p, q, no) && Unclaimed(RejectWith(s, t, v), p, q, no)
  {
    hide OnlyFollower;
  }

  lemma SettlingIsAlike(s: State, t: Id, v: Value, p: Id, q: Id, no: nat)
    requires p < |s.promises| && q < |s.promises| && t < |s.promises| && t != p && Unclaimed(s, p, q, no)
    ensures Alike(s, Fulfill(s, t, v), p, q, no) && Unclaimed(Fulfill(s, t, v), p, q, no)
    ensures Alike(s, RejectWith(s, t, v), p, q, no) && Unclaimed(RejectWith(s, t, v), p, q, no)
  {
    hide OnlyFollower;
  }

  lemma SubscribingIsAlike(s: State, t: Id, reaction: Reaction, p: Id, q: Id, no: nat)
    requires p < |s.promises| && q < |s.promises| && t < |s.promises| && Unclaimed(s, p, q, no)
    requires no < s.promises[q].registered && !Mentions(Subscriber(0, reaction), p)
    ensures Alike(s, Subscribe(s, t, reaction), p, q, no) && Unclaimed(Subscribe(s, t, reaction), p, q, no)
  {
    var sub := Subscriber(s.promises[t].registered, reaction);
    assert OnlyFollower(t, sub, p, q, no);
    hide OnlyFollower;
    var s' := Subscribe(s, t, reaction);
    forall r: Id, k | r < |s'.promises| && 0 <= k < |s'.promises[r].subscribers|
      ensures OnlyFollower(r, s'.promises[r].subscribers[k], p, q, no)
    {
      if k < |s.promises[r].subscribers| {
        assert OnlyFollower(r, s.promises[r].subscribers[k], p, q, no);
      }
    }
  }

  lemma ResolvingIsAlike(s: State, t: Id, x: Value, p: Id, q: Id, no: nat)
    requires p < |s.promises| && q < |s.promises| && t < |s.promises| && t != p && Unclaimed(s, p, q, no)
    requires no < s.promises[q].registered
    ensures Alike(s, ResolveWith(s, t, x), p, q, no) && Unclaimed(ResolveWith(s, t, x), p, q, no)
  {
    hide Fulfill, RejectWith, Subscribe, Unclaimed;
    match x
    case Plain(_) => SettlingIsAlike(s, t, x, p, q, no);
    case Own(o) =>
      SettlingIsAlike(s, t, SELF_RESOLUTION, p, q, no);
      if o < |s.promises| {
        SettlingIsAlike(s, t, s.promises[o].result, p, q, no);
        SubscribingIsAlike(s, o, Follow(t), p, q, no);
        AlikeItself(s, p, q, no);
      } else {
        AlikeItself(s, p, q, no);
      }
    case Thenable(n) => EnqueuingIsAlike(s, CallThen(t, n), p, q, no);
    case ThrowingThen(e) => SettlingIsAlike(s, t, Plain(e), p, q, no);
  }

  lemma AlikeItself(s: State, p: Id, q: Id, no: nat)
    requires p < |s.promises| && q < |s.promises|
    ensures Alike(s, s, p, q, no)
  {
  }

  lemma EnqueuingIsAlike(s: State, t: Task, p: Id, q: Id, no: nat)
    requires p < |s.promises| && q < |s.promises| && Unclaimed(s, p, q, no)
    requires t.Late? ==> OnlyFollower(t.p, t.subscriber, p, q, no)
    ensures Alike(s, Enqueue(s, t), p, q, no) && Unclaimed(Enqueue(s, t), p, q, no)
  {
    hide OnlyFollower;
  }

  // ----- reactions -----

  lemma LoggingIsAlike(s: State, r: Id, n: nat, c: Current, p: Id, q: Id, no: nat)
    requires p < |s.promises| && q < |s.promises| && r < |s.promises| && Unclaimed(s, p, q, no)
    requires !(c.InCallback? && c.child == p)
    ensures Unclaimed(Log(s, r, n, c), p, q, no)
    ensures !(r == q && n == no) ==> Alike(s, Log(s, r, n, c), p, q, no)
  {
    hide OnlyFollower;
    var s' := Log(s, r, n, c);
    forall i: Id, k | i < |s'.promises| && 0 <= k < |s'.promises[i].subscribers|
      ensures OnlyFollower(i, s'.promises[i].subscribers[k], p, q, no)
    {
      assert OnlyFollower(i, s.promises[i].subscribers[k], p, q, no);
    }
  }

  /** The reaction that follows: p takes q's outcome, if nothing settled it before. */
  lemma AdoptingReaction(s: State, q: Id, resume: Option<nat>, p: Id, no: nat)
    requires Values(s) && Follows(s, p, q, no) && s.promises[q].phase != Pending
    ensures Follows(React(s, q, Subscriber(no, Follow(p)), resume), p, q, no)
  {
    var s' := Log(s, q, no, Behind(q, resume));
    LoggingIsAlike(s, q, no, Behind(q, resume), p, q, no);
    assert HasValue(s.promises[q]);
    var v := s.promises[q].result;
    SettlingUnclaimed(s', p, v, p, q, no);
    EnqueuingIsAlike(s', CallThen(p, if v.Thenable? then v.t else 0), p, q, no);
    AdoptedOutcome(s, q, resume, p, no);
    hide Unclaimed, Log, Fulfill, RejectWith, Enqueue, Behind, Values;
  }

  lemma AdoptedOutcome(s: State, q: Id, resume: Option<nat>, p: Id, no: nat)
    requires p < |s.promises| && q < |s.promises| && p != q && HasValue(s.promises[q])
    requires s.promises[q].phase != Pending
    requires if no in s.promises[q].ran then Took(s.promises[p], s.promises[q]) else s.promises[p].phase == Pending
    ensures var r := React(s, q, Subscriber(no, Follow(p)), resume);
      && |r.promises| == |s.promises| && no in r.promises[q].ran && Took(r.promises[p], r.promises[q])
      && r.promises[q].registered == s.promises[q].registered
  {
  }

  /** Any other reaction leaves p and its following alone. */
  lemma OtherReaction(s: State, r: Id, sub: Subscriber, resume: Option<nat>, p: Id, q: Id, no: nat)
    requires Follows(s, p, q, no) && r < |s.promises|
    requires !Mentions(sub, p) && !(r == q && sub.no == no)
    ensures Follows(React(s, r, sub, resume), p, q, no)
  {
    hide Fulfill, RejectWith, ResolveWith, Unclaimed, Follows, Log;
    var v := s.promises[r].result;
    LogFollows(s, r, sub.no, Behind(r, resume), p, q, no);
    var s' := Log(s, r, sub.no, Behind(r, resume));
    match sub.reaction
    case Follow(target) =>
      if target < |s.promises| {
        SettleFollows(s', target, v, p, q, no);
        ResolveFollows(s', target, v, p, q, no);
      }
    case Then(child, _, _) =>
      var callback := Callback(s.promises[r], sub.reaction);
      if callback.Some? {
        LogFollows(s, r, sub.no, InCallback(r, resume, child, callback.value, v), p, q, no);
      } else if child < |s.promises| {
        SettleFollows(s', child, v, p, q, no);
      }
  }

  lemma LogFollows(s: State, r: Id, n: nat, c: Current, p: Id, q: Id, no: nat)
    requires Follows(s, p, q, no) && r < |s.promises| && !(r == q && n == no) && !(c.InCallback? && c.child == p)
    ensures Follows(Log(s, r, n, c), p, q, no) && |Log(s, r, n, c).promises| == |s.promises|
  {
    LoggingIsAlike(s, r, n, c, p, q, no);
    AlikeFollows(s, Log(s, r, n, c), p, q, no);
  }

  lemma SettleFollows(s: State, t: Id, v: Value, p: Id, q: Id, no: nat)
    requires Follows(s, p, q, no) && t < |s.promises| && t != p
    ensures Follows(Fulfill(s, t, v), p, q, no) && Follows(RejectWith(s, t, v), p, q, no)
  {
    SettlingIsAlike(s, t, v, p, q, no);
    AlikeFollows(s, Fulfill(s, t, v), p, q, no);
    AlikeFollows(s, RejectWith(s, t, v), p, q, no);
  }

  lemma ResolveFollows(s: State, t: Id, x: Value, p: Id, q: Id, no: nat)
    requires Follows(s, p, q, no) && t < |s.promises| && t != p
    ensures Follows(ResolveWith(s, t, x), p, q, no)
  {
    ResolvingIsAlike(s, t, x, p, q, no);
    AlikeFollows(s, ResolveWith(s, t, x), p, q, no);
  }

  lemma ReactFollows(s: State, r: Id, sub: Subscriber, resume: Option<nat>, p: Id, q: Id, no: nat)
    requires Values(s) && Follows(s, p, q, no) && r < |s.promises| && s.promises[r].phase != Pending
    requires OnlyFollower(r, sub, p, q, no)
    ensures Follows(React(s, r, sub, resume), p, q, no)
  {
    if Mentions(sub, p) || (r == q && sub.no == no) {
      AdoptingReaction(s, q, resume, p, no);
    } else {
      OtherReaction(s, r, sub, resume, p, q, no);
    }
  }

  // ----- steps -----

  /** The operation settles p, or resolves it with something, by name. */
  predicate Names(op: Operation, p: Id) {
    (op.Resolve? || op.Reject? || op.SelfResolve?) && op.p == p
  }

  lemma NewFollows(s: State, p: Id, q: Id, no: nat)
    requires Follows(s, p, q, no)
    ensures Follows(s.(promises := s.promises + [FRESH]), p, q, no)
  {
    var s' := s.(promises := s.promises + [FRESH]);
    hide OnlyFollower;
    forall i: Id, k | i < |s'.promises| && 0 <= k < |s'.promises[i].subscribers|
      ensures OnlyFollower(i, s'.promises[i].subscribers[k], p, q, no)
    {
      assert OnlyFollower(i, s.promises[i].subscribers[k], p, q, no);
    }
    AlikeFollows(s, s', p, q, no);
  }

  lemma SubscribeFollows(s: State, t: Id, reaction: Reaction, p: Id, q: Id, no: nat)
    requires Follows(s, p, q, no) && t < |s.promises| && !Mentions(Subscriber(0, reaction), p)
    ensures Follows(Subscribe(s, t, reaction), p, q, no)
  {
    SubscribingIsAlike(s, t, reaction, p, q, no);
    AlikeFollows(s, Subscribe(s, t, reaction), p, q, no);
  }

  lemma LateFollows(s: State, t: Id, reaction: Reaction, p: Id, q: Id, no: nat)
    requires Follows(s, p, q, no) && t < |s.promises| && !Mentions(Subscriber(0, reaction), p)
    ensures var r := s.promises[t];
      Follows(Enqueue(Put(s, t, r.(registered := r.registered + 1)), Late(t, Subscriber(r.registered, reaction))),
              p, q, no)
  {
    var r := s.promises[t];
    var s' := Put(s, t, r.(registered := r.registered + 1));
    var task := Late(t, Subscriber(r.registered, reaction));
    assert OnlyFollower(t, task.subscriber, p, q, no);
    hide OnlyFollower;
    forall i: Id, k | i < |s'.promises| && 0 <= k < |s'.promises[i].subscribers|
      ensures OnlyFollower(i, s'.promises[i].subscribers[k], p, q, no)
    {
      assert OnlyFollower(i, s.promises[i].subscribers[k], p, q, no);
    }
    AlikeFollows(s, s', p, q, no);
    EnqueuingIsAlike(s', task, p, q, no);
    AlikeFollows(s', Enqueue(s', task), p, q, no);
  }

  lemma ThenFollows(s: State, t: Id, f: Option<int>, g: Option<int>, p: Id, q: Id, no: nat)
    requires Follows(s, p, q, no) && t < |s.promises|
    ensures Follows(CallThenMethod(s, t, f, g), p, q, no)
  {
    NewFollows(s, p, q, no);
    var s' := s.(promises := s.promises + [FRESH]);
    var reaction := Then(|s.promises|, f, g);
    SubscribeFollows(s', t, reaction, p, q, no);
    LateFollows(s', t, reaction, p, q, no);
    hide Follows;
  }

  /** The tasks get fewer, and the flush goes on somewhere. */
  lemma MovedFollows(s: State, tasks: seq<Task>, c: Current, p: Id, q: Id, no: nat)
    requires Follows(s, p, q, no) && (forall t :: t in tasks ==> t in s.tasks) && !(c.InCallback? && c.child == p)
    ensures Follows(s.(tasks := tasks, current := c), p, q, no)
  {
    hide OnlyFollower;
    AlikeFollows(s, s.(tasks := tasks, current := c), p, q, no);
  }

  lemma TakeTaskFollows(s: State, p: Id, q: Id, no: nat)
    requires Inv(s) && Values(s) && Follows(s, p, q, no)
    ensures Follows(Next(s, TakeTask), p, q, no)
  {
    if s.flushing && s.current == Idle && s.tasks != [] {
      var rest := s.tasks[1..];
      assert forall t :: t in rest ==> t in s.tasks;
      MovedFollows(s, rest, Idle, p, q, no);
      var s' := s.(tasks := rest);
      assert s' == s.(tasks := rest, current := Idle);
      match s.tasks[0]
      case Publish(t) =>
        MovedFollows(s, rest, Publishing(t, 0), p, q, no);
        hide Follows;
      case Late(t, sub) =>
        LateIsSettled(s);
        assert s.tasks[0] in s.tasks && OnlyFollower(t, sub, p, q, no);
        hide Follows, React;
        ReactFollows(s', t, sub, None, p, q, no);
      case CallThen(_, _) => hide Follows;
    }
  }

  lemma RunNextFollows(s: State, p: Id, q: Id, no: nat)
    requires Inv(s) && Values(s) && Follows(s, p, q, no)
    ensures Follows(Next(s, RunNext), p, q, no)
  {
    if s.current.Publishing? && s.current.next < |s.promises[s.current.p].subscribers| {
      var r, k := s.current.p, s.current.next;
      SettledWhenPublishing(s, r);
      assert OnlyFollower(r, s.promises[r].subscribers[k], p, q, no);
      hide Follows, React;
      ReactFollows(s, r, s.promises[r].subscribers[k], Some(k + 1), p, q, no);
    }
  }

  lemma FinishCallbackFollows(s: State, outcome: Outcome, p: Id, q: Id, no: nat)
    requires Follows(s, p, q, no)
    ensures Follows(Next(s, FinishCallback(outcome)), p, q, no)
  {
    if s.current.InCallback? {
      var c := Behind(s.current.p, s.current.resume);
      var child := s.current.child;
      MovedFollows(s, s.tasks, c, p, q, no);
      var s' := s.(current := c);
      assert s' == s.(tasks := s.tasks, current := c) && child != p;
      hide Follows, ResolveWith, RejectWith;
      if child < |s.promises| {
        match outcome
        case Threw(e) => SettleFollows(s', child, Plain(e), p, q, no);
        case Returned(v) =>
          SettleFollows(s', child, SELF_RESOLUTION, p, q, no);
          ResolveFollows(s', child, v, p, q, no);
      }
    }
  }

  lemma FinishPublishFollows(s: State, p: Id, q: Id, no: nat)
    requires Follows(s, p, q, no)
    ensures Follows(Next(s, FinishPublish), p, q, no)
  {
    var s' := Next(s, FinishPublish);
    hide OnlyFollower;
    if s' != s {
      forall i: Id, k | i < |s'.promises| && 0 <= k < |s'.promises[i].subscribers|
        ensures OnlyFollower(i, s'.promises[i].subscribers[k], p, q, no)
      {
        assert OnlyFollower(i, s.promises[i].subscribers[k], p, q, no);
      }
      AlikeFollows(s, s', p, q, no);
    }
  }

  lemma StepFollows(s: State, op: Operation, p: Id, q: Id, no: nat)
    requires Inv(s) && Values(s) && Follows(s, p, q, no) && !Names(op, p)
    ensures Follows(Next(s, op), p, q, no)
  {
    match op
    case New => NewFollows(s, p, q, no);
    case Resolve(t, x) => if t < |s.promises| { ResolveFollows(s, t, x, p, q, no); hide Follows, ResolveWith; }
    case Reject(t, x) => if t < |s.promises| { SettleFollows(s, t, x, p, q, no); hide Follows, RejectWith; }
    case SelfResolve(t, n) => if t < |s.promises| { SettleFollows(s, t, Thenable(n), p, q, no); hide Follows, Fulfill; }
    case CallThenOn(t, f, g) => if t < |s.promises| { ThenFollows(s, t, f, g, p, q, no); hide Follows, CallThenMethod; }
    case StartFlush => hide OnlyFollower;
    case TakeTask => TakeTaskFollows(s, p, q, no); hide Follows, React;
    case RunNext => RunNextFollows(s, p, q, no); hide Follows, React;
    case FinishCallback(outcome) => FinishCallbackFollows(s, outcome, p, q, no); hide Follows, SettleChild;
    case FinishPublish => FinishPublishFollows(s, p, q, no); hide Follows;
    case EndFlush => hide OnlyFollower;
  }

  lemma {:induction false} RunFollows(s: State, ops: seq<Operation>, p: Id, q: Id, no: nat)
    requires Inv(s) && Values(s) && Follows(s, p, q, no) && forall op :: op in ops ==> !Names(op, p)
    ensures Inv(Run(s, ops)) && Follows(Run(s, ops), p, q, no)
    decreases |ops|
  {
    if ops != [] {
      hide Inv, Values, Follows, Next;
      assert ops[0] in ops;
      assert forall op :: op in ops[1..] ==> op in ops;
      StepKeepsInv(s, ops[0]);
      StepValues(s, ops[0]);
      StepFollows(s, ops[0], p, q, no);
      RunFollows(Next(s, ops[0]), ops[1..], p, q, no);
    }
  }

  // ----- the theorems -----

  /** No reaction and no callback in progress is to settle p. */
  ghost predicate Untouched(s: State, p: Id) {
    && (forall r: Id, k :: r < |s.promises| && 0 <= k < |s.promises[r].subscribers|
          ==> !Mentions(s.promises[r].subscribers[k], p))
    && (forall t :: t in s.tasks && t.Late? ==> !Mentions(t.subscriber, p))
    && !(s.current.InCallback? && s.current.child == p)
  }

  lemma NumbersBelow(r: Promise, tasks: seq<Task>, c: Current, q: Id, k: nat)
    requires OrderlyAt(r, tasks, c, q) && r.phase == Pending && k < |r.subscribers|
    ensures r.subscribers[k].no < r.registered
  {
    PendingWaits(r, tasks, c, q);
    assert Nos(r.subscribers)[k] == r.subscribers[k].no;
    assert Numbers(r.registered) == Nos(r.subscribers);
  }

  lemma ResolvedFollows(s: State, p: Id, q: Id)
    requires Inv(s) && p < |s.promises| && q < |s.promises| && p != q && Untouched(s, p)
    requires s.promises[p].phase == Pending && s.promises[q].phase == Pending
    ensures Follows(Next(s, Resolve(p, Own(q))), p, q, s.promises[q].registered)
  {
    var r, no := s.promises[q], s.promises[q].registered;
    var s' := Next(s, Resolve(p, Own(q)));
    assert s' == Subscribe(s, q, Follow(p));
    assert OrderlyAt(r, s.tasks, s.current, q);
    forall i: Id, k | i < |s'.promises| && 0 <= k < |s'.promises[i].subscribers|
      ensures OnlyFollower(i, s'.promises[i].subscribers[k], p, q, no)
    {
      if k < |s.promises[i].subscribers| {
        assert !Mentions(s.promises[i].subscribers[k], p);
        if i == q {
          NumbersBelow(r, s.tasks, s.current, q, k);
        }
      }
    }
    forall t | t in s'.tasks && t.Late? ensures OnlyFollower(t.p, t.subscriber, p, q, no) {
      var i :| 0 <= i < |s.tasks| && s.tasks[i] == t;
      assert NoLate(s.tasks, q);
    }
  }

  /** A promise that was resolved with a pending promise, and that nothing else was or is to settle, takes that
      promise's outcome in every run that does not settle it by name: it is pending until its reaction runs, and
      then has the other's state and result. */
  lemma AdoptsUnlessNamed(before: seq<Operation>, p: Id, q: Id, after: seq<Operation>)
    requires p < |Run(START, before).promises| && q < |Run(START, before).promises| && p != q
    requires Run(START, before).promises[p].phase == Pending && Run(START, before).promises[q].phase == Pending
    requires Untouched(Run(START, before), p) && forall op :: op in after ==> !Names(op, p)
    ensures var s := Run(START, before);
            var r := Run(Next(s, Resolve(p, Own(q))), after);
      && p < |r.promises| && q < |r.promises|
      && (if s.promises[q].registered in r.promises[q].ran then Took(r.promises[p], r.promises[q])
          else r.promises[p].phase == Pending)
      && (r.tasks == [] && r.current == Idle && r.promises[q].phase != Pending ==> Took(r.promises[p], r.promises[q]))
  {
    var s := Run(START, before);
    RunKeepsInv(START, before);
    RunValues(START, before);
    ResolvedFollows(s, p, q);
    StepKeepsInv(s, Resolve(p, Own(q)));
    StepValues(s, Resolve(p, Own(q)));
    var s' := Next(s, Resolve(p, Own(q)));
    RunFollows(s', after, p, q, s.promises[q].registered);
    var r := Run(s', after);
    if r.tasks == [] && r.current == Idle && r.promises[q].phase != Pending {
      assert OrderlyAt(r.promises[q], r.tasks, r.current, q);
      AllRan(r.promises[q], q);
      assert Numbers(r.promises[q].registered)[s.promises[q].registered] == s.promises[q].registered;
    }
    hide Run, Next, Inv, Values, Unclaimed;
  }

  lemma AllRan(r: Promise, q: Id)
    requires OrderlyAt(r, [], Idle, q) && r.phase != Pending
    ensures r.ran == Numbers(r.registered)
  {
  }

  /** In general: when the reaction by which p follows q is about to run, p ends, in every continuation of every run,
      with q's state and result exactly when it is still pending or was settled alike; unless q was fulfilled with a
      thenable, which is asked in its turn. */
  lemma AdoptsExactlyWhen(before: seq<Operation>, p: Id, q: Id, k: nat, after: seq<Operation>)
    requires var s := Run(START, before);
      && p < |s.promises| && q < |s.promises| && p != q && s.current == Publishing(q, k)
      && k < |s.promises[q].subscribers| && s.promises[q].subscribers[k].reaction == Follow(p)
      && !(s.promises[q].phase == Fulfilled && s.promises[q].result.Thenable?)
    ensures var s := Run(START, before);
            var r := Run(Next(s, RunNext), after);
      && p < |r.promises|
      && (SameOutcome(r.promises[p], s.promises[q])
          <==> s.promises[p].phase == Pending || SameOutcome(s.promises[p], s.promises[q]))
  {
    var s := Run(START, before);
    RunKeepsInv(START, before);
    RunValues(START, before);
    hide Run, Next, Inv, Values;
    AdoptsNow(s, p, q, k);
    var s' := Next(s, RunNext);
    SettledForever(s', after);
    assert ExtendsAt(s'.promises[p], Run(s', after).promises[p]);
  }

  lemma AdoptsNow(s: State, p: Id, q: Id, k: nat)
    requires Inv(s) && Values(s) && p < |s.promises| && q < |s.promises| && p != q && s.current == Publishing(q, k)
    requires k < |s.promises[q].subscribers| && s.promises[q].subscribers[k].reaction == Follow(p)
    requires !(s.promises[q].phase == Fulfilled && s.promises[q].result.Thenable?)
    ensures var r := Next(s, RunNext);
      && p < |r.promises| && r.promises[p].phase != Pending
      && (if s.promises[p].phase == Pending then SameOutcome(r.promises[p], s.promises[q])
          else SameOutcome(r.promises[p], s.promises[p]))
  {
    assert HasValue(s.promises[q]);
    SettledWhenPublishing(s, q);
    hide Inv, Values;
    var sub := s.promises[q].subscribers[k];
    assert sub == Subscriber(sub.no, Follow(p));
    assert Next(s, RunNext) == React(s, q, sub, Some(k + 1));
    hide Next, React;
    AdoptedAtOnce(s, p, q, sub.no, Some(k + 1));
  }

  lemma AdoptedAtOnce(s: State, p: Id, q: Id, no: nat, resume: Option<nat>)
    requires p < |s.promises| && q < |s.promises| && p != q && s.promises[q].phase != Pending
    requires s.promises[q].phase == Fulfilled ==> s.promises[q].result.Plain?
    ensures var r := React(s, q, Subscriber(no, Follow(p)), resume);
      && p < |r.promises| && r.promises[p].phase != Pending
      && (if s.promises[p].phase == Pending then SameOutcome(r.promises[p], s.promises[q])
          else SameOutcome(r.promises[p], s.promises[p]))
  {
  }

  /** If q was fulfilled with a thenable, this reaction leaves p as it is, and the thenable is asked to settle p. */
  lemma AsksTheThenable(before: seq<Operation>, p: Id, q: Id, k: nat, t: int)
    requires var s := Run(START, before);
      && p < |s.promises| && q < |s.promises| && p != q && s.current == Publishing(q, k)
      && k < |s.promises[q].subscribers| && s.promises[q].subscribers[k].reaction == Follow(p)
      && s.promises[q].phase == Fulfilled && s.promises[q].result == Thenable(t)
    ensures var s := Run(START, before);
            var r := Next(s, RunNext);
      && p < |r.promises| && SameOutcome(r.promises[p], s.promises[p]) && r.tasks == s.tasks + [CallThen(p, t)]
  {
    hide Run;
  }

  /** The condition that nobody names p is needed: whatever happened before, user code that fulfils p in the meantime,
      and rejects q, gives them different outcomes for ever. */
  lemma NamedOtherwise(before: seq<Operation>, p: Id, q: Id, n: int, e: int, after: seq<Operation>)
    requires p < |Run(START, before).promises| && q < |Run(START, before).promises| && p != q
    requires Run(START, before).promises[p].phase == Pending && Run(START, before).promises[q].phase == Pending
    ensures var named := [Resolve(p, Plain(n)), Reject(q, Plain(e))];
            var r := Run(Next(Run(START, before), Resolve(p, Own(q))), named + after);
      && p < |r.promises| && q < |r.promises|
      && r.promises[p].phase == Fulfilled && r.promises[p].result == Plain(n)
      && r.promises[q].phase == Rejected && r.promises[q].result == Plain(e)
  {
    var s := Run(START, before);
    var s1 := Next(s, Resolve(p, Own(q)));
    assert s1 == Subscribe(s, q, Follow(p));
    var s2 := Next(s1, Resolve(p, Plain(n)));
    var s3 := Next(s2, Reject(q, Plain(e)));
    var named := [Resolve(p, Plain(n)), Reject(q, Plain(e))];
    assert s3.promises[p].phase == Fulfilled && s3.promises[p].result == Plain(n);
    assert s3.promises[q].phase == Rejected && s3.promises[q].result == Plain(e);
    hide Next;
    assert named[1..] == [Reject(q, Plain(e))] && named[1..][1..] == [];
    assert Run(s1, named) == Run(s2, named[1..]) == s3;
    RunAppend(s1, named, after);
    SettledForever(s3, after);
    assert ExtendsAt(s3.promises[p], Run(s3, after).promises[p]);
    assert ExtendsAt(s3.promises[q], Run(s3, after).promises[q]);
  }
}
