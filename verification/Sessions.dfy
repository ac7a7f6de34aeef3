/** Sessions of behaviour events: the whole-list pass and the one-event-at-a-time updates. */
module Sessions {

  const SESSION: int := 1800000

  // ----- what a session is, on the list of event times -----

  predicate Together(t: int, u: int) { -SESSION < t - u < SESSION }

  /** The id of event k: its own time at the start of a session, else its predecessor's id. */
  function IdAt(times: seq<int>, k: nat): int
    requires k < |times|
  {
    if k > 0 && Together(times[k - 1], times[k]) then IdAt(times, k - 1) else times[k]
  }

  /** The index of event k: the last session is 0 while it can still be running at `now`, else 1,
      and every session before has one more. */
  function IndexAt(times: seq<int>, now: int, k: nat): int
    requires k < |times|
    decreases |times| - k
  {
    if k + 1 == |times| then (if now - times[k] > SESSION then 1 else 0)
    else IndexAt(times, now, k + 1) + if Together(times[k + 1], times[k]) then 0 else 1
  }

  /** A session lasts until there is no event for half an hour: two neighbours share their session when less than
      1,800,000 milliseconds lie between them, and the last one is over more than that after its last event. */
  lemma {:induction false} SessionsEndAfterHalfAnHour(times: seq<int>, now: int, k: nat)
    requires 0 < k < |times|
    ensures var apart := if times[k] < times[k - 1] then times[k - 1] - times[k] else times[k] - times[k - 1];
      && IdAt(times, k) == (if apart < 1800000 then IdAt(times, k - 1) else times[k])
      && IndexAt(times, now, k - 1) == IndexAt(times, now, k) + if apart < 1800000 then 0 else 1
    ensures IndexAt(times, now, |times| - 1) == if now - times[|times| - 1] <= 1800000 then 0 else 1
  {
  }

  ghost predicate Ordered(times: seq<int>) {
    forall i, j :: 0 <= i < j < |times| ==> times[i] <= times[j]
  }

  ghost predicate Unbroken(times: seq<int>, i: nat, j: nat)
    requires i <= j < |times|
  {
    forall k :: i < k <= j ==> Together(times[k - 1], times[k])
  }

  /** On ordered lists ids never decrease, and stay equal exactly within a session. */
  lemma {:induction false} IdsFollowSessions(times: seq<int>, i: nat, j: nat)
    requires Ordered(times) && i <= j < |times|
    ensures IdAt(times, i) <= times[i] && IdAt(times, i) <= IdAt(times, j)
    ensures IdAt(times, i) == IdAt(times, j) <==> Unbroken(times, i, j)
    decreases i + j
  {
    if i > 0 { IdsFollowSessions(times, i - 1, i - 1); }
    if i < j {
      IdsFollowSessions(times, i, j - 1);
      assert Unbroken(times, i, j) <==> Unbroken(times, i, j - 1) && Together(times[j - 1], times[j]);
      if !Together(times[j - 1], times[j]) {
        assert times[i] <= times[j - 1] < times[j];
      }
    }
  }

  /** Indices never increase along the list, and stay equal exactly within a session. */
  lemma {:induction false} IndicesFollowSessions(times: seq<int>, now: int, i: nat, j: nat)
    requires i <= j < |times|
    ensures IndexAt(times, now, i) >= IndexAt(times, now, j) >= 0
    ensures IndexAt(times, now, i) == IndexAt(times, now, j) <==> Unbroken(times, i, j)
    decreases |times| - i, |times| - j
  {
    if j + 1 < |times| { IndicesFollowSessions(times, now, j + 1, |times| - 1); }
    if i < j {
      IndicesFollowSessions(times, now, i + 1, j);
      assert Unbroken(times, i, j) <==> Unbroken(times, i + 1, j) && Together(times[i], times[i + 1]);
    }
  }

  // ----- when ids and indices agree -----

  predicate IsStart(times: seq<int>, k: nat)
    requires k < |times|
  {
    k == 0 || !Together(times[k - 1], times[k])
  }

  /** The first event of the session of event k. */
  function StartAt(times: seq<int>, k: nat): (s: nat)
    requires k < |times|
    ensures s <= k && IsStart(times, s)
  {
    if IsStart(times, k) then k else StartAt(times, k - 1)
  }

  lemma {:induction false} IdIsStartTime(times: seq<int>, k: nat)
    requires k < |times|
    ensures IdAt(times, k) == times[StartAt(times, k)]
  {
    if !IsStart(times, k) {
      IdIsStartTime(times, k - 1);
    }
  }

  lemma {:induction false} UnbrokenIsOneStart(times: seq<int>, i: nat, j: nat)
    requires i <= j < |times|
    ensures Unbroken(times, i, j) <==> StartAt(times, i) == StartAt(times, j)
    decreases j
  {
    if i < j {
      UnbrokenIsOneStart(times, i, j - 1);
      assert Unbroken(times, i, j) <==> Unbroken(times, i, j - 1) && Together(times[j - 1], times[j]);
    }
  }

  /** Two events share a session id if and only if they share a session index. */
  ghost predicate Agree(times: seq<int>, now: int, i: nat, j: nat)
    requires i < |times| && j < |times|
  {
    IdAt(times, i) == IdAt(times, j) <==> IndexAt(times, now, i) == IndexAt(times, now, j)
  }

  /** On any list, ids and indices agree on two events exactly when these are in one session, or their sessions
      start at different times. */
  lemma PairAgreesExactlyWhen(times: seq<int>, now: int, i: nat, j: nat)
    requires i <= j < |times|
    ensures Agree(times, now, i, j)
            <==> Unbroken(times, i, j) || times[StartAt(times, i)] != times[StartAt(times, j)]
  {
    IdIsStartTime(times, i);
    IdIsStartTime(times, j);
    UnbrokenIsOneStart(times, i, j);
    IndicesFollowSessions(times, now, i, j);
  }

  /** Different sessions start at different times. */
  ghost predicate DistinctStarts(times: seq<int>) {
    forall s, t :: 0 <= s < t < |times| && IsStart(times, s) && IsStart(times, t) ==> times[s] != times[t]
  }

  /** They agree on all events of a list exactly when its sessions start at different times. */
  lemma AllAgreeExactlyWhen(times: seq<int>, now: int)
    ensures (forall i: nat, j: nat :: i <= j < |times| ==> Agree(times, now, i, j)) <==> DistinctStarts(times)
  {
    hide Agree;
    if DistinctStarts(times) {
      forall i: nat, j: nat | i <= j < |times| ensures Agree(times, now, i, j) {
        PairAgreesExactlyWhen(times, now, i, j);
        UnbrokenIsOneStart(times, i, j);
        StartsRise(times, i, j);
      }
    } else {
      var s, t :| 0 <= s < t < |times| && IsStart(times, s) && IsStart(times, t) && times[s] == times[t];
      PairAgreesExactlyWhen(times, now, s, t);
      assert StartAt(times, s) == s && StartAt(times, t) == t;
      UnbrokenIsOneStart(times, s, t);
      assert !Agree(times, now, s, t);
    }
  }

  lemma {:induction false} StartsRise(times: seq<int>, i: nat, j: nat)
    requires i <= j < |times|
    ensures StartAt(times, i) <= StartAt(times, j)
    decreases j
  {
    if i < j {
      StartsRise(times, i, j - 1);
    }
  }

  lemma OrderedStartsDiffer(times: seq<int>)
    requires Ordered(times)
    ensures DistinctStarts(times)
  {
    forall s, t | 0 <= s < t < |times| && IsStart(times, s) && IsStart(times, t) ensures times[s] != times[t] {
      assert times[s] <= times[t - 1] <= times[t];
    }
  }

  /** On time-ordered lists they always agree. */
  lemma IdsAndIndicesAgree(times: seq<int>, now: int, i: nat, j: nat)
    requires Ordered(times) && i < |times| && j < |times|
    ensures IdAt(times, i) == IdAt(times, j) <==> IndexAt(times, now, i) == IndexAt(times, now, j)
  {
    OrderedStartsDiffer(times);
    AllAgreeExactlyWhen(times, now);
    assert Agree(times, now, if i <= j then i else j, if i <= j then j else i);
  }

  /** The smallest list on which they do not: its first and last session start at the same time. */
  lemma UnorderedListsDisagree()
    ensures var times := [0, 2000000, 0];
            IdAt(times, 0) == IdAt(times, 2) && IndexAt(times, 2000000, 0) != IndexAt(times, 2000000, 2)
  {
    var times := [0, 2000000, 0];
    assert StartAt(times, 2) == 2;
    PairAgreesExactlyWhen(times, 2000000, 0, 2);
    IdIsStartTime(times, 2);
    IdIsStartTime(times, 0);
    assert !Unbroken(times, 0, 2) by { assert !Together(times[0], times[1]); }
  }

  /** Dropping a prefix changes no index. */
  lemma {:induction false} IndicesSurviveTruncation(times: seq<int>, now: int, p: nat, k: nat)
    requires p + k < |times|
    ensures IndexAt(times[p..], now, k) == IndexAt(times, now, p + k)
    decreases |times| - k
  {
    if p + k + 1 < |times| {
      IndicesSurviveTruncation(times, now, p, k + 1);
    }
  }

  /** It changes an id only in the session it cuts into, whose new id is the first time kept. */
  lemma {:induction false} IdsAfterTruncation(times: seq<int>, p: nat, k: nat)
    requires p + k < |times|
    ensures IdAt(times[p..], k) == if Unbroken(times, p, p + k) then times[p] else IdAt(times, p + k)
    decreases k
  {
    if k > 0 {
      IdsAfterTruncation(times, p, k - 1);
      assert Unbroken(times, p, p + k) <==> Unbroken(times, p, p + k - 1) && Together(times[p + k - 1], times[p + k]);
    }
  }

  // ----- adding one event -----

  /** The index a new event at `now` gets from the last one, before any reindexing. */
  function NewIndex(times: seq<int>, since: int, now: int): int {
    if times == [] then 0
    else
      var n := |times| - 1;
      IndexAt(times, since, n) - if Together(now, times[n]) then 0 else 1
  }

  lemma {:induction false} IdsOfLonger(times: seq<int>, now: int, k: nat)
    requires k < |times|
    ensures IdAt(times + [now], k) == IdAt(times, k)
    decreases k
  {
    if k > 0 { IdsOfLonger(times, now, k - 1); }
  }

  /** A list sessionized at `since` and extended at `now` has the indices of the longer list, once
      they are all moved up by one when the new event came out at -1. */
  lemma {:induction false} IndicesOfLonger(times: seq<int>, since: int, now: int, k: nat)
    requires k < |times| && since <= now && times[|times| - 1] <= now
    ensures -1 <= NewIndex(times, since, now) <= 0
    ensures IndexAt(times + [now], now, k) ==
            IndexAt(times, since, k) + if NewIndex(times, since, now) == -1 then 1 else 0
    decreases |times| - k
  {
    if k + 1 < |times| {
      IndicesOfLonger(times, since, now, k + 1);
    } else {
      assert IndexAt(times + [now], now, k + 1) == 0;
    }
  }

  lemma IndexOfNew(times: seq<int>, since: int, now: int)
    ensures times != [] ==>
              NewIndex(times, since, now) ==
              IndexAt(times, since, |times| - 1) - if Together(now, times[|times| - 1]) then 0 else 1
  {
  }

  lemma IdOfNew(times: seq<int>, now: int)
    ensures IdAt(times + [now], |times|) ==
            if times != [] && Together(times[|times| - 1], now) then IdAt(times, |times| - 1) else now
  {
    if times != [] { IdsOfLonger(times, now, |times| - 1); }
  }

  lemma LastIndex(times: seq<int>, now: int)
    ensures IndexAt(times + [now], now, |times|) == 0
  {
  }

  lemma LastIndexAt(times: seq<int>, now: int)
    ensures times != [] ==>
              IndexAt(times, now, |times| - 1) == if now - times[|times| - 1] > SESSION then 1 else 0
  {
  }

  lemma IndexStep(times: seq<int>, now: int, k: nat)
    requires k + 1 < |times|
    ensures IndexAt(times, now, k) == IndexAt(times, now, k + 1) + if Together(times[k + 1], times[k]) then 0 else 1
  {
  }

  // ----- the code -----

  class Event {
    var time: int
    var sessionId: int
    var sessionIndex: int

    constructor (t: int, id: int, index: int)
      ensures time == t && sessionId == id && sessionIndex == index
    {
      time, sessionId, sessionIndex := t, id, index;
    }
  }

  function Times(events: seq<Event>): (times: seq<int>)
    reads events
    ensures |times| == |events| && forall i :: 0 <= i < |events| ==> times[i] == events[i].time
  {
    seq(|events|, i requires 0 <= i < |events| reads events => events[i].time)
  }

  ghost predicate Distinct(events: seq<Event>) {
    forall i, j :: 0 <= i < j < |events| ==> events[i] != events[j]
  }

  lemma InEither(a: seq<Event>, b: seq<Event>, before: seq<Event>)
    requires before <= a + b
    ensures forall k :: 0 <= k < |before| ==> before[k] in a || before[k] in b
  {
    assert forall k :: 0 <= k < |before| ==> before[k] == (a + b)[k];
  }

  lemma DistinctParts(a: seq<Event>, b: seq<Event>)
    requires Distinct(a + b)
    ensures Distinct(a) && Distinct(b) && forall e :: e in a ==> e !in b
  {
    assert forall k :: 0 <= k < |a| ==> a[k] == (a + b)[k];
    assert forall k :: 0 <= k < |b| ==> b[k] == (a + b)[|a| + k];
  }

  /** Every event carries the id and index of the whole-list pass run at `now`. */
  ghost predicate SessionizedAt(events: seq<Event>, now: int)
    reads events
  {
    forall k :: 0 <= k < |events| ==>
      events[k].sessionId == IdAt(Times(events), k) && events[k].sessionIndex == IndexAt(Times(events), now, k)
  }

  predicate IsInSameSession(e: Event, f: Event)
    reads e, f
  {
    var d := e.time - f.time;
    (if d < 0 then -d else d) < SESSION
  }

  /** `sessionize`: ids from the front, then indices from the back. */
  method Sessionize(events: seq<Event>, now: int)
    requires Distinct(events)
    modifies events`sessionId, events`sessionIndex
    ensures SessionizedAt(events, now)
  {
    hide IdAt, IndexAt;
    if |events| == 0 { return; }
    ghost var times := Times(events);
    AssignIds(events);
    assert Times(events) == times;
    AssignIndices(events, now);
    assert Times(events) == times;
  }

  method AssignIds(events: seq<Event>)
    requires Distinct(events) && events != []
    modifies events`sessionId
    ensures forall k :: 0 <= k < |events| ==> events[k].sessionId == IdAt(Times(events), k)
  {
    ghost var times := Times(events);
    events[0].sessionId := events[0].time;
    var a := 1;
    while a < |events|
      invariant 1 <= a <= |events|
      invariant forall k :: 0 <= k < a ==> events[k].sessionId == IdAt(times, k)
    {
      var id := if IsInSameSession(events[a - 1], events[a]) then events[a - 1].sessionId else events[a].time;
      assert id == IdAt(times, a);
      events[a].sessionId := id;
      a := a + 1;
    }
    assert Times(events) == times;
  }

  method AssignIndices(events: seq<Event>, now: int)
    requires Distinct(events) && events != []
    modifies events`sessionIndex
    ensures forall k :: 0 <= k < |events| ==> events[k].sessionIndex == IndexAt(Times(events), now, k)
  {
    hide IndexAt;
    ghost var times := Times(events);
    var i := |events|;
    LastIndexAt(times, now);
    var u := 0;
    var l := events[i - 1].time;
    if now - l > SESSION {
      u := u + 1;
    }
    events[i - 1].sessionIndex := u;
    var a := i - 1;
    while a > 0
      invariant 0 <= a < i
      invariant forall k :: a <= k < i ==> events[k].sessionIndex == IndexAt(times, now, k)
    {
      var index := events[a].sessionIndex;
      var next := if IsInSameSession(events[a - 1], events[a]) then index else index + 1;
      IndexStep(times, now, a - 1);
      assert next == IndexAt(times, now, a - 1);
      assert forall k :: a <= k < i ==> events[k] != events[a - 1];
      events[a - 1].sessionIndex := next;
      a := a - 1;
    }
    assert Times(events) == times;
  }

  function Ids(events: seq<Event>): (ids: seq<int>)
    reads events
    ensures |ids| == |events| && forall i :: 0 <= i < |events| ==> ids[i] == events[i].sessionId
  {
    seq(|events|, i requires 0 <= i < |events| reads events => events[i].sessionId)
  }

  function Indices(events: seq<Event>): (indices: seq<int>)
    reads events
    ensures |indices| == |events| && forall i :: 0 <= i < |events| ==> indices[i] == events[i].sessionIndex
  {
    seq(|events|, i requires 0 <= i < |events| reads events => events[i].sessionIndex)
  }

  /** A sessionized list plus a new event, all moved up if the new one came out at -1, is sessionized. */
  lemma LongerIsSessionized(times: seq<int>, ids: seq<int>, indices: seq<int>, since: int, now: int)
    requires |ids| == |indices| == |times| && since <= now && (times != [] ==> times[|times| - 1] <= now)
    requires forall k :: 0 <= k < |times| ==> ids[k] == IdAt(times, k) && indices[k] == IndexAt(times, since, k)
    ensures var n := |times|;
            var up := if NewIndex(times, since, now) == -1 then 1 else 0;
            && (forall k :: 0 <= k < n ==> IdAt(times + [now], k) == ids[k])
            && (forall k :: 0 <= k < n ==> IndexAt(times + [now], now, k) == indices[k] + up)
            && IdAt(times + [now], n) == (if n > 0 && Together(times[n - 1], now) then ids[n - 1] else now)
            && IndexAt(times + [now], now, n) == NewIndex(times, since, now) + up
            && NewIndex(times, since, now)
               == if n == 0 then 0 else indices[n - 1] - if Together(now, times[n - 1]) then 0 else 1
  {
    hide IdAt, IndexAt;
    forall k | 0 <= k < |times|
      ensures IdAt(times + [now], k) == ids[k]
      ensures IndexAt(times + [now], now, k) == indices[k] + if NewIndex(times, since, now) == -1 then 1 else 0
    {
      IdsOfLonger(times, now, k);
      IndicesOfLonger(times, since, now, k);
    }
    if times != [] { IndicesOfLonger(times, since, now, |times| - 1); }
    IndexOfNew(times, since, now);
    IdOfNew(times, now);
    LastIndex(times, now);
  }

  lemma Unsessionize(before: seq<Event>, since: int)
    requires SessionizedAt(before, since)
    ensures forall k :: 0 <= k < |before| ==>
              Ids(before)[k] == IdAt(Times(before), k) && Indices(before)[k] == IndexAt(Times(before), since, k)
  {
  }

  /** The new event behind the old ones, all moved up by the same amount. */
  lemma Finish(before: seq<Event>, u: Event, times: seq<int>, ids: seq<int>, indices: seq<int>, index: int,
               since: int, now: int)
    requires |before| == |ids| == |indices| == |times|
    requires since <= now && (times != [] ==> times[|times| - 1] <= now)
    requires forall k :: 0 <= k < |times| ==> ids[k] == IdAt(times, k) && indices[k] == IndexAt(times, since, k)
    requires var n := |times|;
             && u.time == now
             && u.sessionId == (if n > 0 && Together(times[n - 1], now) then ids[n - 1] else now)
             && index == (if n == 0 then 0 else indices[n - 1] - if Together(now, times[n - 1]) then 0 else 1)
             && u.sessionIndex == index + if index == -1 then 1 else 0
    requires forall k :: 0 <= k < |before| ==>
               && before[k].time == times[k] && before[k].sessionId == ids[k]
               && before[k].sessionIndex == indices[k] + if index == -1 then 1 else 0
    ensures SessionizedAt(before + [u], now)
  {
    hide IdAt, IndexAt, NewIndex;
    LongerIsSessionized(times, ids, indices, since, now);
    assert Times(before + [u]) == times + [now];
  }

  /** The behaviour store: persisted events, the queue of new ones, and the event added last. */
  class Store {
    var events: seq<Event>
    var queue: seq<Event>
    var last: Event?

    ghost predicate Valid()
      reads this
    {
      && Distinct(events + queue)
      && (events + queue == [] ==> last == null)
      && (events + queue != [] ==> last == (events + queue)[|events + queue| - 1])
    }

    constructor ()
      ensures Valid() && events == [] && queue == []
    {
      events, queue, last := [], [], null;
    }

    static method UpdateSessionId(e: Event?, t: Event)
      requires e != t
      modifies t`sessionId
      ensures t.sessionId == if e != null && Together(e.time, t.time) then e.sessionId else t.time
    {
      if e == null {
        t.sessionId := t.time;
        return;
      }
      t.sessionId := if IsInSameSession(e, t) then e.sessionId else t.time;
    }

    static method UpdateSessionIndex(e: Event?, t: Event)
      requires e != t
      modifies t`sessionIndex
      ensures t.sessionIndex ==
              if e == null then 0 else e.sessionIndex - if Together(t.time, e.time) then 0 else 1
    {
      if e == null {
        t.sessionIndex := 0;
        return;
      }
      var a := e.sessionIndex;
      t.sessionIndex := if IsInSameSession(t, e) then a else a - 1;
    }

    /** The inner function of reindexIfNecessary. */
    static method MoveUp(list: seq<Event>)
      requires Distinct(list)
      modifies list`sessionIndex
      ensures forall e :: e in list ==> e.sessionIndex == old(e.sessionIndex) + 1
    {
      var t := 0;
      while t < |list|
        invariant 0 <= t <= |list|
        invariant forall k :: 0 <= k < t ==> list[k].sessionIndex == old(list[k].sessionIndex) + 1
        invariant forall k :: t <= k < |list| ==> list[k].sessionIndex == old(list[k].sessionIndex)
      {
        list[t].sessionIndex := list[t].sessionIndex + 1;
        t := t + 1;
      }
    }

    /** `addEvent`: from a store sessionized at an earlier moment to one sessionized now. */
    method AddEvent(now: int, ghost since: int) returns (u: Event)
      requires Valid() && SessionizedAt(events + queue, since)
      requires since <= now && (last != null ==> last.time <= now)
      modifies `queue, `last, events`sessionIndex, queue`sessionIndex
      ensures Valid() && SessionizedAt(events + queue, now)
      ensures fresh(u) && u.time == now && last == u
      ensures queue == old(queue) + [u]
    {
      hide IdAt, IndexAt, NewIndex, Distinct, Times, Ids, Indices, SessionizedAt;
      ghost var before := events + queue;
      ghost var times, ids, indices := Times(before), Ids(before), Indices(before);
      assert forall k :: 0 <= k < |before| ==> ids[k] == IdAt(times, k) && indices[k] == IndexAt(times, since, k) by {
        Unsessionize(before, since);
      }
      u := Enqueue(now);
      ghost var index := u.sessionIndex;
      ReindexIfNecessary(u);
      InEither(events, queue, before);
      Finish(before, u, times, ids, indices, index, since, now);
    }

    /** The new event, with the id and index its predecessor gives it, at the end of the queue. */
    method Enqueue(now: int) returns (u: Event)
      requires Valid()
      modifies `queue, `last
      ensures Valid() && fresh(u) && last == u && u.time == now
      ensures queue == old(queue) + [u] && events + queue == old(events + queue) + [u]
      ensures var e := old(last);
              && u.sessionId == (if e != null && Together(e.time, now) then e.sessionId else now)
              && u.sessionIndex == if e == null then 0 else e.sessionIndex - if Together(now, e.time) then 0 else 1
    {
      u := new Event(now, -1, 0);
      UpdateSessionId(last, u);
      UpdateSessionIndex(last, u);
      last := u;
      queue := queue + [u];
      assert events + queue == old(events + queue) + [u];
    }

    /** The persisted events, then the queue. */
    static method MoveUpBoth(a: seq<Event>, b: seq<Event>)
      requires Distinct(a) && Distinct(b) && forall e :: e in a ==> e !in b
      modifies a`sessionIndex, b`sessionIndex
      ensures forall e :: e in a || e in b ==> e.sessionIndex == old(e.sessionIndex) + 1
    {
      hide Distinct;
      MoveUp(a);
      MoveUp(b);
    }

    method ReindexIfNecessary(e: Event)
      requires Distinct(events + queue) && e in queue
      modifies events`sessionIndex, queue`sessionIndex
      ensures forall f :: f in events || f in queue ==>
                f.sessionIndex == old(f.sessionIndex) + if old(e.sessionIndex) == -1 then 1 else 0
    {
      if e.sessionIndex == -1 {
        DistinctParts(events, queue);
        hide Distinct;
        MoveUpBoth(events, queue);
      }
    }

    /** `getEvents`: the queue joins the events, the oldest beyond 1000 are dropped, and only then is
        the rest sessionized anew. */
    method GetEvents(now: int, ghost since: int) returns (all: seq<Event>)
      requires Valid() && SessionizedAt(events + queue, since)
      modifies this, (events + queue)`sessionId, (events + queue)`sessionIndex
      ensures all == events && queue == []
      ensures var was := old(events + queue);
              events == if old(queue) == [] then old(events)
                        else if |was| > 1000 then was[|was| - 1000..] else was
      ensures SessionizedAt(events, if old(queue) != [] && |old(events + queue)| > 1000 then now else since)
      ensures Valid()
    {
      hide IdAt, IndexAt;
      assert queue == [] ==> events + queue == events;
      if queue != [] {
        var e := events + queue;
        var t := false;
        if |e| > 1000 {
          e := e[|e| - 1000..];
          t := true;
        }
        events := e;
        queue := [];
        if t {
          Sessionize(events, now);
        }
      }
      all := events;
      assert events + queue == events;
    }
  }
}
