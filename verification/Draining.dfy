/** A flush comes to an end, with nothing left to run, once user code registers nothing more. */
module Draining {
  import opened Promises
  import opened Text

  // ----- the measure of a flush -----

  predicate IsPending(r: Promise) { r.phase == Pending }

  function Waits(r: Promise): nat { if IsPending(r) then 1 else 0 }

  /** The reactions of a settled promise that have not run. */
  function Unrun(r: Promise): nat {
    if IsPending(r) || r.registered < |r.ran| then 0 else r.registered - |r.ran|
  }

  function Total(ps: seq<Promise>, weight: Promise -> nat): nat
    decreases |ps|
  {
    if ps == [] then 0 else weight(ps[0]) + Total(ps[1..], weight)
  }

  lemma {:induction false} TotalUpdate(ps: seq<Promise>, weight: Promise -> nat, i: nat, r: Promise)
    requires i < |ps|
    ensures Total(ps[i := r], weight) + weight(ps[i]) == Total(ps, weight) + weight(r)
    decreases |ps|
  {
    if i == 0 {
      assert ps[0 := r][1..] == ps[1..];
    } else {
      assert ps[i := r][1..] == ps[1..][i - 1 := r];
      TotalUpdate(ps[1..], weight, i - 1, r);
    }
  }

  function PendingOnes(s: State): nat { Total(s.promises, Waits) }

  function UnrunOnes(s: State): nat { Total(s.promises, Unrun) }

  /** A promise settles, or as many reactions as before are still to run. */
  ghost predicate Lowers(s: State, s': State) {
    && s'.flushing == s.flushing && s'.current == s.current && |s'.promises| == |s.promises|
    && (PendingOnes(s') < PendingOnes(s) || (PendingOnes(s') == PendingOnes(s) && UnrunOnes(s') == UnrunOnes(s)))
  }

  /** One promise changes. */
  lemma PutTotals(s: State, p: Id, r: Promise)
    requires p < |s.promises|
    ensures PendingOnes(Put(s, p, r)) + Waits(s.promises[p]) == PendingOnes(s) + Waits(r)
    ensures UnrunOnes(Put(s, p, r)) + Unrun(s.promises[p]) == UnrunOnes(s) + Unrun(r)
  {
    TotalUpdate(s.promises, Waits, p, r);
    TotalUpdate(s.promises, Unrun, p, r);
  }

  lemma SettlingLowers(s: State, p: Id, v: Value)
    requires p < |s.promises|
    ensures Lowers(s, Fulfill(s, p, v)) && Lowers(s, RejectWith(s, p, v))
  {
    var r := s.promises[p];
    PutTotals(s, p, r.(phase := Fulfilled, result := v));
    PutTotals(s, p, r.(phase := Rejected, result := v));
    hide Total;
  }

  lemma SubscribingLowers(s: State, p: Id, reaction: Reaction)
    requires p < |s.promises| && IsPending(s.promises[p])
    ensures Lowers(s, Subscribe(s, p, reaction))
  {
    var r := s.promises[p];
    PutTotals(s, p, r.(subscribers := r.subscribers + [Subscriber(r.registered, reaction)],
                       registered := r.registered + 1));
    hide Total;
  }

  lemma ResolvingLowers(s: State, p: Id, x: Value)
    requires p < |s.promises|
    ensures Lowers(s, ResolveWith(s, p, x))
  {
    hide Fulfill, RejectWith, Subscribe, Total;
    match x
    case Plain(_) => SettlingLowers(s, p, x);
    case Own(q) =>
      SettlingLowers(s, p, SELF_RESOLUTION);
      if q < |s.promises| {
        SettlingLowers(s, p, s.promises[q].result);
        if IsPending(s.promises[q]) {
          SubscribingLowers(s, q, Follow(p));
        }
      }
    case Thenable(_) =>
    case ThrowingThen(e) => SettlingLowers(s, p, Plain(e));
  }

  /** A promise settles, or one reaction fewer is to run. */
  ghost predicate Advances(s: State, s': State) {
    && s'.flushing == s.flushing
    && (PendingOnes(s') < PendingOnes(s) || (PendingOnes(s') == PendingOnes(s) && UnrunOnes(s') < UnrunOnes(s)))
  }

  lemma LoggingAdvances(s: State, p: Id, no: nat, c: Current)
    requires p < |s.promises| && !IsPending(s.promises[p]) && |s.promises[p].ran| < s.promises[p].registered
    ensures Advances(s, Log(s, p, no, c))
  {
    PutTotals(s, p, s.promises[p].(ran := s.promises[p].ran + [no]));
    hide Total;
  }

  lemma ThenLowers(s: State, s': State, s'': State)
    requires Advances(s, s') && Lowers(s', s'')
    ensures Advances(s, s'')
  {
  }

  /** A reaction that runs advances the flush, whatever it settles. */
  lemma ReactingAdvances(s: State, p: Id, sub: Subscriber, resume: Option<nat>)
    requires p < |s.promises| && !IsPending(s.promises[p]) && |s.promises[p].ran| < s.promises[p].registered
    ensures Advances(s, React(s, p, sub, resume))
  {
    hide Fulfill, RejectWith, ResolveWith, Behind, Advances, Lowers;
    var v := s.promises[p].result;
    var s' := Log(s, p, sub.no, Behind(p, resume));
    LoggingAdvances(s, p, sub.no, Behind(p, resume));
    assert |s'.promises| == |s.promises|;
    match sub.reaction
    case Follow(target) =>
      if target < |s.promises| {
        SettlingLowers(s', target, v);
        ResolvingLowers(s', target, v);
        ThenLowers(s, s', RejectWith(s', target, v));
        ThenLowers(s, s', ResolveWith(s', target, v));
      }
    case Then(child, _, _) =>
      var callback := Callback(s.promises[p], sub.reaction);
      if callback.Some? {
        LoggingAdvances(s, p, sub.no, InCallback(p, resume, child, callback.value, v));
      }
      if child < |s.promises| {
        SettlingLowers(s', child, v);
        ThenLowers(s, s', RejectWith(s', child, v));
        ThenLowers(s, s', Fulfill(s', child, v));
      }
  }

  // ----- every step of a flush lowers the measure -----

  function InCall(c: Current): nat { if c.InCallback? then 1 else 0 }

  function Publishes(c: Current): nat { if c.Publishing? then 1 else 0 }

  /** The measure, compared lexicographically: promises that are pending, reactions that have not run, the callback
      in progress, tasks, the publication in progress. */
  ghost predicate Lower(s: State, s': State) {
    (PendingOnes(s), UnrunOnes(s), InCall(s.current), |s.tasks|, Publishes(s.current)
     decreases to PendingOnes(s'), UnrunOnes(s'), InCall(s'.current), |s'.tasks|, Publishes(s'.current))
  }

  lemma AdvancingLowers(s: State, s': State)
    requires Advances(s, s')
    ensures Lower(s, s') && s'.flushing == s.flushing
  {
  }

  /** A settled promise whose reactions ran in order has one left, if one of them still waits. */
  lemma OneIsLeft(r: Promise, tasks: seq<Task>, c: Current, p: Id)
    requires OrderlyAt(r, tasks, c, p) && WaitingAt(r, tasks, c, p) != []
    ensures |r.ran| < r.registered
  {
    assert |Numbers(r.registered)| == r.registered;
    hide WaitingAt;
  }

  lemma LateWaits(s: State)
    requires Inv(s) && s.tasks != [] && s.tasks[0].Late?
    ensures var p := s.tasks[0].p;
      p < |s.promises| && !IsPending(s.promises[p]) && |s.promises[p].ran| < s.promises[p].registered
  {
    assert s.tasks[0] in s.tasks && Names(s.tasks[0], |s.promises|);
    var p := s.tasks[0].p;
    assert OrderlyAt(s.promises[p], s.tasks, s.current, p);
    assert !NoLate(s.tasks, p);
    QueuedHead(s.tasks, p, s.promises[p].subscribers);
    OneIsLeft(s.promises[p], s.tasks, s.current, p);
  }

  lemma NextWaits(s: State)
    requires Inv(s) && s.current.Publishing?
    requires s.current.p < |s.promises| && s.current.next < |s.promises[s.current.p].subscribers|
    ensures var p := s.current.p;
      !IsPending(s.promises[p]) && |s.promises[p].ran| < s.promises[p].registered
  {
    var p := s.current.p;
    var subs := s.promises[p].subscribers;
    SettledWhenPublishing(s, p);
    assert OrderlyAt(s.promises[p], s.tasks, s.current, p);
    assert Rest(s.current, p, subs) == Nos(subs[s.current.next..]) != [];
    OneIsLeft(s.promises[p], s.tasks, s.current, p);
  }

  lemma TakingLowers(s: State)
    requires Inv(s) && s.flushing && s.current == Idle && s.tasks != []
    ensures Lower(s, Next(s, TakeTask)) && Next(s, TakeTask).flushing
  {
    var s' := s.(tasks := s.tasks[1..]);
    if s.tasks[0].Late? {
      LateWaits(s);
      ReactingAdvances(s', s.tasks[0].p, s.tasks[0].subscriber, None);
      AdvancingLowers(s', React(s', s.tasks[0].p, s.tasks[0].subscriber, None));
    }
    hide React, Inv, Total;
  }

  lemma PublishingEnds(s: State)
    requires s.flushing && s.current.Publishing? && s.current.p < |s.promises|
    requires s.current.next == |s.promises[s.current.p].subscribers|
    ensures Lower(s, Next(s, FinishPublish)) && Next(s, FinishPublish).flushing
  {
    PutTotals(s, s.current.p, s.promises[s.current.p].(subscribers := []));
    hide Total;
  }

  lemma PublishingLowers(s: State)
    requires Inv(s) && s.flushing && s.current.Publishing?
    ensures Lower(s, Next(s, FlushStep(s, Threw(0)))) && Next(s, FlushStep(s, Threw(0))).flushing
  {
    var p, next := s.current.p, s.current.next;
    PublicationInRange(s, p);
    if next < |s.promises[p].subscribers| {
      NextWaits(s);
      ReactingAdvances(s, p, s.promises[p].subscribers[next], Some(next + 1));
      assert Next(s, RunNext) == React(s, p, s.promises[p].subscribers[next], Some(next + 1));
      AdvancingLowers(s, Next(s, RunNext));
    } else {
      PublishingEnds(s);
    }
    hide React, Inv, Total, Next, PendingOnes, UnrunOnes, Lower;
  }

  lemma CallingLowers(s: State, outcome: Outcome)
    requires s.flushing && s.current.InCallback?
    ensures Lower(s, Next(s, FinishCallback(outcome))) && Next(s, FinishCallback(outcome)).flushing
  {
    hide Fulfill, RejectWith, ResolveWith, Total;
    var s' := s.(current := Behind(s.current.p, s.current.resume));
    var child := s.current.child;
    if child < |s.promises| {
      match outcome
      case Threw(e) => SettlingLowers(s', child, Plain(e));
      case Returned(v) => SettlingLowers(s', child, SELF_RESOLUTION); ResolvingLowers(s', child, v);
    }
  }

  lemma FlushStepLowers(s: State, outcome: Outcome)
    requires Inv(s) && s.flushing && !(s.current == Idle && s.tasks == [])
    ensures Lower(s, Next(s, FlushStep(s, outcome))) && Next(s, FlushStep(s, outcome)).flushing
  {
    hide Inv, Next, Lower;
    match s.current
    case InCallback(_, _, _, _, _) => CallingLowers(s, outcome);
    case Publishing(p, next) => PublishingLowers(s);
    case Idle => TakingLowers(s);
  }

  // ----- the theorem -----

  /** `n` steps of a flush; `outcomes` is what the callbacks of the user do. */
  function Flush(s: State, outcomes: State -> Outcome, n: nat): State
    decreases n
  {
    if n == 0 then s else Flush(Next(s, FlushStep(s, outcomes(s))), outcomes, n - 1)
  }

  lemma {:induction false} FlushEnds(s: State, outcomes: State -> Outcome) returns (n: nat)
    requires Inv(s) && s.flushing
    ensures Drained(Flush(s, outcomes, n)) && Inv(Flush(s, outcomes, n))
    decreases PendingOnes(s), UnrunOnes(s), InCall(s.current), |s.tasks|, Publishes(s.current)
  {
    hide Inv, Next, Drained, PendingOnes, UnrunOnes;
    var op := FlushStep(s, outcomes(s));
    if s.current == Idle && s.tasks == [] {
      EndDrains(s);
      n := 1;
      assert Flush(s, outcomes, 1) == Flush(Next(s, op), outcomes, 0);
    } else {
      StepKeepsInv(s, op);
      FlushStepLowers(s, outcomes(s));
      var rest := FlushEnds(Next(s, op), outcomes);
      n := rest + 1;
    }
  }

  /** In every run, a flush that is scheduled or has begun comes to its end, whatever its callbacks return or throw,
      if user code makes no further calls: nothing is queued then, and every reaction on a settled promise has run. */
  lemma FlushDrains(ops: seq<Operation>, outcomes: State -> Outcome)
    requires Run(START, ops).flushing || Run(START, ops).requests > 0
    ensures exists n: nat :: Drained(Flush(Next(Run(START, ops), StartFlush), outcomes, n))
  {
    RunKeepsInv(START, ops);
    var s := Run(START, ops);
    StepKeepsInv(s, StartFlush);
    var n := FlushEnds(Next(s, StartFlush), outcomes);
  }
}
