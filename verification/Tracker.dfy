/** The event tracker: pending decision events, snapshots of visitors, previous batches, and the sender. */
module Tracker {
  import opened Text

  /** A tracked event, identified by its uuid. */
  type Event = int

  datatype Snapshot = Snapshot(decisions: seq<int>, events: seq<Event>)
  datatype Visitor = Visitor(snapshots: seq<Snapshot>)
  datatype Batch = Batch(visitors: seq<Visitor>)

  /** A batch handed to the request queue: a previous one, or the current one. */
  datatype Ticket = Previous(batch: Batch) | Current(batch: Batch)

  /** The fields of the store; data is None while it is the empty object. `sent` is what the sender
      has handed over. */
  datatype State = State(data: Option<Batch>, decisions: seq<int>, decisionEvents: seq<Event>,
                         previous: seq<Batch>, canSend: bool, sent: seq<Ticket>)

  datatype Operation =
    | RegisterVisitor(decisions: seq<int>)
    | Track(event: Event, decisions: seq<int>)
    | Decide(event: Event, decisions: seq<int>)
    | RegisterPrevious(batch: Batch)
    | Finalize
    | Send
    | SetCanSend(on: bool)
    | RestoreFrom(saved: Saved)
    | ResetStore

  /** The persisted part of a store; absent parts are None or empty. */
  datatype Saved = Saved(data: Option<Batch>, decisions: seq<int>, decisionEvents: seq<Event>, previous: seq<Batch>)

  // ----- the operations; None is a thrown TypeError, the store unchanged -----

  predicate HasVisitor(s: State) { s.data.Some? && s.data.value.visitors != [] }

  /** The current visitor is the last one. */
  function Snapshots(s: State): seq<Snapshot>
    requires HasVisitor(s)
  {
    s.data.value.visitors[|s.data.value.visitors| - 1].snapshots
  }

  function WithSnapshots(s: State, snapshots: seq<Snapshot>): State
    requires HasVisitor(s)
  {
    var v := s.data.value.visitors;
    s.(data := Some(Batch(v[|v| - 1 := Visitor(snapshots)])))
  }

  /** `at`: the pending decision events become a new snapshot of the current visitor. */
  function TakeSnapshot(s: State): Option<State> {
    if !HasVisitor(s) then None
    else Some(WithSnapshots(s, Snapshots(s) + [Snapshot(s.decisions, s.decisionEvents)]).(decisionEvents := []))
  }

  /** `Ke` */
  function FinalizeSnapshot(s: State): Option<State> {
    if s.decisionEvents == [] then Some(s) else TakeSnapshot(s)
  }

  /** `qe` */
  function AddVisitor(s: State, decisions: seq<int>): Option<State> {
    var ready := if s.data.None? then Some(s.(data := Some(Batch([])))) else FinalizeSnapshot(s);
    if ready.None? then None
    else
      var r := ready.value;
      Some(r.(data := Some(Batch(r.data.value.visitors + [Visitor([])])), decisions := decisions, decisionEvents := []))
  }

  /** `Xe` */
  function TrackEvent(s: State, e: Event, decisions: seq<int>): Option<State> {
    if !HasVisitor(s) then None
    else
      var ready := if Snapshots(s) != [] && s.decisionEvents == [] then Some(s) else TakeSnapshot(s);
      var r := ready.value;
      var shots := Snapshots(r);
      var last := shots[|shots| - 1];
      Some(WithSnapshots(r, shots[|shots| - 1 := last.(events := last.events + [e])]).(decisions := decisions))
  }

  predicate HasEventsToSend(s: State) {
    s.decisionEvents != [] ||
    (s.data.Some? && exists i :: 0 <= i < |s.data.value.visitors| && s.data.value.visitors[i].snapshots != [])
  }

  /** `Qe`: only the current visitor stays, without snapshots. */
  function ResetEvents(s: State): Option<State> {
    if !HasVisitor(s) then None else Some(s.(data := Some(Batch([Visitor([])]))))
  }

  function Tickets(batches: seq<Batch>): seq<Ticket>
    decreases |batches|
  {
    if batches == [] then [] else [Previous(batches[0])] + Tickets(batches[1..])
  }

  /** The sender `v`. */
  function SendAll(s: State): Option<State> {
    if !s.canSend then Some(s)
    else
      var e := HasEventsToSend(s);
      var s1 := s.(sent := s.sent + Tickets(s.previous), previous := []);
      if !e then Some(s1)
      else
        var s2 := FinalizeSnapshot(s1);
        if s2.None? || s2.value.data.None? then None
        else ResetEvents(s2.value.(sent := s2.value.sent + [Current(s2.value.data.value)]))
  }

  /** `tt` */
  function Restore(s: State, e: Saved): Option<State> {
    var ready := if s.data.Some? && e.data.Some? then FinalizeSnapshot(s) else Some(s);
    if ready.None? then None
    else
      var r := if s.data.Some? && e.data.Some?
               then ready.value.(previous := ready.value.previous + [ready.value.data.value])
               else s;
      Some(r.(data := e.data, decisions := e.decisions, decisionEvents := e.decisionEvents,
              previous := if r.previous == [] || e.previous == [] then e.previous else r.previous + e.previous))
  }

  function Next(s: State, op: Operation): Option<State> {
    match op
    case RegisterVisitor(d) => AddVisitor(s, d)
    case Track(e, d) => TrackEvent(s, e, d)
    case Decide(e, d) => Some(s.(decisionEvents := s.decisionEvents + [e], decisions := d))
    case RegisterPrevious(b) => Some(s.(previous := s.previous + [b]))
    case Finalize => FinalizeSnapshot(s)
    case Send => SendAll(s)
    case SetCanSend(on) => Some(s.(canSend := on))
    case RestoreFrom(saved) => Restore(s, saved)
    case ResetStore => Some(State(None, [], [], [], false, s.sent))
  }

  function Run(s: State, ops: seq<Operation>): Option<State>
    decreases |ops|
  {
    if ops == [] then Some(s)
    else
      var s' := Next(s, ops[0]);
      if s'.None? then None else Run(s'.value, ops[1..])
  }

  // ----- where events are -----

  function OfSnapshots(shots: seq<Snapshot>): seq<Event>
    decreases |shots|
  {
    if shots == [] then [] else shots[0].events + OfSnapshots(shots[1..])
  }

  function OfVisitors(visitors: seq<Visitor>): seq<Event>
    decreases |visitors|
  {
    if visitors == [] then [] else OfSnapshots(visitors[0].snapshots) + OfVisitors(visitors[1..])
  }

  function OfDataOf(data: Option<Batch>): seq<Event> {
    if data.None? then [] else OfVisitors(data.value.visitors)
  }

  function OfData(s: State): seq<Event> { OfDataOf(s.data) }

  function CurrentOf(t: Ticket): seq<Event> { if t.Current? then OfVisitors(t.batch.visitors) else [] }

  function PreviousOf(t: Ticket): seq<Batch> { if t.Previous? then [t.batch] else [] }

  function SentCurrent(sent: seq<Ticket>): seq<Event>
    decreases |sent|
  {
    if sent == [] then []
    else CurrentOf(sent[0]) + SentCurrent(sent[1..])
  }

  function SentPrevious(sent: seq<Ticket>): seq<Batch>
    decreases |sent|
  {
    if sent == [] then [] else PreviousOf(sent[0]) + SentPrevious(sent[1..])
  }

  /** Sent, then in snapshots, then pending: every tracked event in the order it was tracked. */
  function Stream(s: State): seq<Event> {
    SentCurrent(s.sent) + OfData(s) + s.decisionEvents
  }

  /** Sent, then waiting: every registered previous batch in the order it was registered. */
  function PreviousStream(s: State): seq<Batch> {
    SentPrevious(s.sent) + s.previous
  }

  function Tracked(ops: seq<Operation>): seq<Event>
    decreases |ops|
  {
    if ops == [] then []
    else (if ops[0].Track? || ops[0].Decide? then [ops[0].event] else []) + Tracked(ops[1..])
  }

  function Registered(ops: seq<Operation>): seq<Batch>
    decreases |ops|
  {
    if ops == [] then [] else (if ops[0].RegisterPrevious? then [ops[0].batch] else []) + Registered(ops[1..])
  }

  // ----- flattening laws -----

  lemma {:induction false} SnapshotsAppend(a: seq<Snapshot>, b: seq<Snapshot>)
    ensures OfSnapshots(a + b) == OfSnapshots(a) + OfSnapshots(b)
    decreases |a|
  {
    if a == [] {
      assert a + b == b;
    } else {
      assert (a + b)[1..] == a[1..] + b;
      SnapshotsAppend(a[1..], b);
    }
  }

  lemma {:induction false} VisitorsAppend(a: seq<Visitor>, b: seq<Visitor>)
    ensures OfVisitors(a + b) == OfVisitors(a) + OfVisitors(b)
    decreases |a|
  {
    if a == [] {
      assert a + b == b;
    } else {
      assert (a + b)[1..] == a[1..] + b;
      VisitorsAppend(a[1..], b);
    }
  }

  lemma {:induction false} SentCurrentAppend(a: seq<Ticket>, b: seq<Ticket>)
    ensures SentCurrent(a + b) == SentCurrent(a) + SentCurrent(b)
    decreases |a|
  {
    hide CurrentOf;
    if a == [] {
      assert a + b == b;
    } else {
      assert (a + b)[1..] == a[1..] + b;
      SentCurrentAppend(a[1..], b);
    }
  }

  lemma {:induction false} SentPreviousAppend(a: seq<Ticket>, b: seq<Ticket>)
    ensures SentPrevious(a + b) == SentPrevious(a) + SentPrevious(b)
    decreases |a|
  {
    hide PreviousOf;
    if a == [] {
      assert a + b == b;
    } else {
      assert (a + b)[1..] == a[1..] + b;
      SentPreviousAppend(a[1..], b);
    }
  }

  lemma SentAppend(a: seq<Ticket>, b: seq<Ticket>)
    ensures SentCurrent(a + b) == SentCurrent(a) + SentCurrent(b)
    ensures SentPrevious(a + b) == SentPrevious(a) + SentPrevious(b)
  {
    SentCurrentAppend(a, b);
    SentPreviousAppend(a, b);
  }

  lemma {:induction false} TicketsArePrevious(batches: seq<Batch>)
    ensures SentCurrent(Tickets(batches)) == [] && SentPrevious(Tickets(batches)) == batches
    decreases |batches|
  {
    if batches != [] {
      TicketsArePrevious(batches[1..]);
      assert Tickets(batches)[1..] == Tickets(batches[1..]);
      assert [batches[0]] + batches[1..] == batches;
    }
  }

  /** Appending to the current visitor's snapshots appends to the data. */
  lemma {:induction false} DataGrows(s: State, shots: seq<Snapshot>, more: seq<Event>)
    requires HasVisitor(s) && OfSnapshots(shots) == OfSnapshots(Snapshots(s)) + more
    ensures OfData(WithSnapshots(s, shots)) == OfData(s) + more
    ensures HasVisitor(WithSnapshots(s, shots)) && Snapshots(WithSnapshots(s, shots)) == shots
  {
    hide OfSnapshots, OfVisitors;
    var v := s.data.value.visitors;
    var n := |v| - 1;
    assert v == v[..n] + [v[n]];
    assert v[n := Visitor(shots)] == v[..n] + [Visitor(shots)];
    VisitorsAppend(v[..n], [v[n]]);
    VisitorsAppend(v[..n], [Visitor(shots)]);
    OfOneVisitor(v[n]);
    OfOneVisitor(Visitor(shots));
  }

  lemma OfOneVisitor(v: Visitor)
    ensures OfVisitors([v]) == OfSnapshots(v.snapshots)
  {
  }

  lemma OfOneSnapshot(s: Snapshot)
    ensures OfSnapshots([s]) == s.events
  {
  }

  // ----- each operation moves events along the stream -----

  lemma {:induction false} TakeSnapshotKeeps(s: State)
    requires HasVisitor(s)
    ensures var r := TakeSnapshot(s);
            && r.Some? && HasVisitor(r.value) && r.value.decisionEvents == []
            && OfData(r.value) == OfData(s) + s.decisionEvents
            && r.value.sent == s.sent && r.value.previous == s.previous
            && Snapshots(r.value) != []
  {
    var shot := Snapshot(s.decisions, s.decisionEvents);
    SnapshotsAppend(Snapshots(s), [shot]);
    OfOneSnapshot(shot);
    DataGrows(s, Snapshots(s) + [shot], s.decisionEvents);
  }

  lemma {:induction false} FinalizeKeeps(s: State)
    requires HasVisitor(s)
    ensures var r := FinalizeSnapshot(s);
            && r.Some? && HasVisitor(r.value) && r.value.decisionEvents == []
            && OfData(r.value) == OfData(s) + s.decisionEvents
            && r.value.sent == s.sent && r.value.previous == s.previous
  {
    hide TakeSnapshot;
    TakeSnapshotKeeps(s);
    assert OfData(s) + [] == OfData(s);
  }

  lemma {:induction false} AddVisitorKeeps(s: State, d: seq<int>)
    requires HasVisitor(s)
    ensures var r := AddVisitor(s, d);
            && r.Some? && HasVisitor(r.value) && r.value.decisionEvents == []
            && OfData(r.value) == OfData(s) + s.decisionEvents
            && r.value.sent == s.sent && r.value.previous == s.previous
  {
    hide FinalizeSnapshot;
    FinalizeKeeps(s);
    var v := FinalizeSnapshot(s).value.data.value.visitors;
    VisitorsAppend(v, [Visitor([])]);
    OfOneVisitor(Visitor([]));
    assert OfVisitors(v) + [] == OfVisitors(v);
  }

  /** The event joins the last of the current visitor's snapshots. */
  lemma AppendKeeps(r: State, e: Event)
    requires HasVisitor(r) && Snapshots(r) != []
    ensures var shots := Snapshots(r);
            var last := shots[|shots| - 1];
            var r' := WithSnapshots(r, shots[|shots| - 1 := last.(events := last.events + [e])]);
      HasVisitor(r') && OfData(r') == OfData(r) + [e]
  {
    hide HasVisitor, OfSnapshots, OfData, WithSnapshots, Snapshots;
    var shots := Snapshots(r);
    var n := |shots| - 1;
    var last := shots[n];
    var longer := last.(events := last.events + [e]);
    assert shots == shots[..n] + [last] && shots[n := longer] == shots[..n] + [longer];
    SnapshotsAppend(shots[..n], [last]);
    SnapshotsAppend(shots[..n], [longer]);
    OfOneSnapshot(last);
    OfOneSnapshot(longer);
    assert OfSnapshots(shots[..n]) + (last.events + [e]) == (OfSnapshots(shots[..n]) + last.events) + [e];
    DataGrows(r, shots[n := longer], [e]);
  }

  /** The state an event is added to: pending decision events have become a snapshot. */
  function Readied(s: State): State
    requires HasVisitor(s)
  {
    if Snapshots(s) != [] && s.decisionEvents == [] then s else TakeSnapshot(s).value
  }

  lemma ReadiedKeeps(s: State)
    requires HasVisitor(s)
    ensures var r := Readied(s);
      && HasVisitor(r) && Snapshots(r) != [] && r.decisionEvents == [] && OfData(r) == OfData(s) + s.decisionEvents
      && r.sent == s.sent && r.previous == s.previous
  {
    TakeSnapshotKeeps(s);
    hide TakeSnapshot, OfData, HasVisitor, Snapshots;
    assert OfData(s) + [] == OfData(s);
  }

  lemma TrackIs(s: State, e: Event, d: seq<int>)
    requires HasVisitor(s) && HasVisitor(Readied(s)) && Snapshots(Readied(s)) != []
    ensures var r := Readied(s);
            var shots := Snapshots(r);
            var last := shots[|shots| - 1];
      TrackEvent(s, e, d)
      == Some(WithSnapshots(r, shots[|shots| - 1 := last.(events := last.events + [e])]).(decisions := d))
  {
    hide HasVisitor, Snapshots, WithSnapshots, TakeSnapshot;
  }

  lemma WithSnapshotsKeeps(r: State, shots: seq<Snapshot>, d: seq<int>)
    requires HasVisitor(r)
    ensures var w := WithSnapshots(r, shots);
            var r' := w.(decisions := d);
      && r'.decisionEvents == r.decisionEvents && r'.sent == r.sent && r'.previous == r.previous
      && HasVisitor(r') == HasVisitor(w) && OfData(r') == OfData(w)
  {
  }

  lemma TrackKeeps(s: State, e: Event, d: seq<int>)
    requires HasVisitor(s)
    ensures var r := TrackEvent(s, e, d);
            && r.Some? && HasVisitor(r.value) && r.value.decisionEvents == []
            && OfData(r.value) == OfData(s) + s.decisionEvents + [e]
            && r.value.sent == s.sent && r.value.previous == s.previous
  {
    hide HasVisitor, Snapshots, WithSnapshots, TrackEvent, Readied, OfData;
    ReadiedKeeps(s);
    TrackIs(s, e, d);
    var r := Readied(s);
    var shots := Snapshots(r);
    var last := shots[|shots| - 1];
    AppendKeeps(r, e);
    WithSnapshotsKeeps(r, shots[|shots| - 1 := last.(events := last.events + [e])], d);
  }

  lemma {:induction false} NothingToSend(s: State)
    requires !HasEventsToSend(s)
    ensures s.decisionEvents == [] && OfData(s) == []
  {
    if s.data.Some? {
      NoSnapshotsNoEvents(s.data.value.visitors);
    }
  }

  lemma {:induction false} NoSnapshotsNoEvents(v: seq<Visitor>)
    requires forall i :: 0 <= i < |v| ==> v[i].snapshots == []
    ensures OfVisitors(v) == []
    decreases |v|
  {
    if v != [] { NoSnapshotsNoEvents(v[1..]); }
  }

  lemma {:induction false} SendKeeps(s: State)
    requires HasVisitor(s)
    ensures var r := SendAll(s);
            && r.Some? && HasVisitor(r.value)
            && Stream(r.value) == Stream(s) && PreviousStream(r.value) == PreviousStream(s)
            && (s.canSend ==> r.value.previous == [] && r.value.decisionEvents == [] && OfData(r.value) == [])
  {
    hide FinalizeSnapshot, HasEventsToSend, OfVisitors, SentCurrent, SentPrevious;
    if s.canSend {
      var s1 := s.(sent := s.sent + Tickets(s.previous), previous := []);
      SentAppend(s.sent, Tickets(s.previous));
      TicketsArePrevious(s.previous);
      assert SentCurrent(s.sent) + [] == SentCurrent(s.sent);
      assert Stream(s1) == Stream(s) && PreviousStream(s1) == PreviousStream(s);
      if !HasEventsToSend(s) {
        NothingToSend(s);
      } else {
        FinalizeKeeps(s1);
        var s2 := FinalizeSnapshot(s1).value;
        var b := s2.data.value;
        SentAppend(s2.sent, [Current(b)]);
        SentOne(b);
        OfOneVisitor(Visitor([]));
        assert OfSnapshots([]) == [];
        var s3 := SendAll(s).value;
        assert OfData(s3) == [];
        assert SentCurrent(s3.sent) == SentCurrent(s1.sent) + (OfData(s1) + s1.decisionEvents);
        assert Stream(s3) == Stream(s1);
        assert SentPrevious(s2.sent) + [] == SentPrevious(s2.sent);
      }
    }
  }

  lemma SentOne(b: Batch)
    ensures SentCurrent([Current(b)]) == OfVisitors(b.visitors) && SentPrevious([Current(b)]) == []
  {
  }

  /** Operations on the store as it is, without the persisted one. */
  predicate IsPlain(op: Operation) { !op.RestoreFrom? && !op.ResetStore? }

  /** Once a visitor is registered no plain operation throws, nothing is lost or repeated, and the order is kept. */
  lemma {:induction false} StepKeepsOrder(s: State, op: Operation)
    requires HasVisitor(s) && IsPlain(op)
    ensures var r := Next(s, op);
            && r.Some? && HasVisitor(r.value)
            && Stream(r.value) == Stream(s) + Tracked([op])
            && PreviousStream(r.value) == PreviousStream(s) + Registered([op])
  {
    hide AddVisitor, TrackEvent, FinalizeSnapshot, SendAll, OfData, SentCurrent, SentPrevious;
    assert Stream(s) + [] == Stream(s) && PreviousStream(s) + [] == PreviousStream(s);
    var parts := SentCurrent(s.sent) + OfData(s) + s.decisionEvents;
    assert SentCurrent(s.sent) + (OfData(s) + s.decisionEvents) == parts;
    match op
    case RegisterVisitor(d) => AddVisitorKeeps(s, d);
    case Track(e, d) =>
      TrackKeeps(s, e, d);
      assert SentCurrent(s.sent) + (OfData(s) + s.decisionEvents + [e]) == parts + [e];
    case Decide(e, d) =>
      assert OfData(Next(s, op).value) == OfData(s) by { SameData(s, Next(s, op).value); }
      assert SentCurrent(s.sent) + OfData(s) + (s.decisionEvents + [e]) == parts + [e];
    case RegisterPrevious(b) =>
      SameData(s, Next(s, op).value);
      assert SentPrevious(s.sent) + (s.previous + [b]) == PreviousStream(s) + [b];
    case Finalize => FinalizeKeeps(s);
    case Send => SendKeeps(s);
    case SetCanSend(on) => SameData(s, Next(s, op).value);
    case RestoreFrom(_) =>
    case ResetStore =>
  }

  lemma SameData(s: State, t: State)
    requires s.data == t.data
    ensures OfData(s) == OfData(t)
  {
  }

  /** Over every run of plain operations after a visitor is registered: sent, stored and pending events are together
      exactly the tracked ones, in order; sent and waiting batches exactly the registered ones. */
  lemma {:induction false} RunKeepsOrder(s: State, ops: seq<Operation>)
    requires HasVisitor(s) && forall op :: op in ops ==> IsPlain(op)
    ensures var r := Run(s, ops);
            && r.Some? && HasVisitor(r.value)
            && Stream(r.value) == Stream(s) + Tracked(ops)
            && PreviousStream(r.value) == PreviousStream(s) + Registered(ops)
    decreases |ops|
  {
    hide Next, Stream, PreviousStream;
    if ops == [] {
      assert Stream(s) + [] == Stream(s) && PreviousStream(s) + [] == PreviousStream(s);
    } else {
      assert ops[0] in ops;
      assert forall op :: op in ops[1..] ==> op in ops;
      StepKeepsOrder(s, ops[0]);
      RunKeepsOrder(Next(s, ops[0]).value, ops[1..]);
      TrackedCons(ops);
      assert Stream(s) + Tracked([ops[0]]) + Tracked(ops[1..]) == Stream(s) + Tracked(ops);
      assert PreviousStream(s) + Registered([ops[0]]) + Registered(ops[1..]) == PreviousStream(s) + Registered(ops);
    }
  }

  lemma {:induction false} TrackedCons(ops: seq<Operation>)
    requires ops != []
    ensures Tracked(ops) == Tracked([ops[0]]) + Tracked(ops[1..])
    ensures Registered(ops) == Registered([ops[0]]) + Registered(ops[1..])
  {
    assert [ops[0]][1..] == [] && Tracked([]) == [] && Registered([]) == [];
  }

  // ----- restoring a persisted store -----

  function OfBatches(batches: seq<Batch>): seq<Event>
    decreases |batches|
  {
    if batches == [] then [] else OfVisitors(batches[0].visitors) + OfBatches(batches[1..])
  }

  /** Every event a store holds, sent ones aside. */
  function Held(data: Option<Batch>, decisionEvents: seq<Event>, previous: seq<Batch>): multiset<Event> {
    multiset(OfDataOf(data)) + multiset(decisionEvents) + multiset(OfBatches(previous))
  }

  lemma {:induction false} BatchesAppend(a: seq<Batch>, b: seq<Batch>)
    ensures OfBatches(a + b) == OfBatches(a) + OfBatches(b)
    decreases |a|
  {
    if a == [] {
      assert a + b == b;
    } else {
      assert (a + b)[1..] == a[1..] + b;
      BatchesAppend(a[1..], b);
    }
  }

  /** When restoring drops nothing: with both data present, memory's part survives only beside restored
      previous batches; otherwise memory's data and pending events are overwritten outright. */
  predicate RestoreIsSafe(s: State, e: Saved) {
    if s.data.Some? && e.data.Some?
    then e.previous != [] || (OfData(s) == [] && s.decisionEvents == [] && OfBatches(s.previous) == [])
    else OfData(s) == [] && s.decisionEvents == [] && (e.previous != [] || OfBatches(s.previous) == [])
  }

  lemma RestoreBesideData(s: State, e: Saved)
    requires HasVisitor(s) && e.data.Some?
    ensures Restore(s, e).Some?
    ensures Restore(s, e).value.data == e.data && Restore(s, e).value.decisionEvents == e.decisionEvents
    ensures OfBatches(Restore(s, e).value.previous)
         == if e.previous == [] then []
            else OfBatches(s.previous) + (OfData(s) + s.decisionEvents) + OfBatches(e.previous)
  {
    hide FinalizeSnapshot, OfVisitors, OfBatches;
    FinalizeKeeps(s);
    var f := FinalizeSnapshot(s).value;
    BatchesAppend(f.previous, [f.data.value]);
    OfOneBatch(f.data.value);
    BatchesAppend(f.previous + [f.data.value], e.previous);
    NoBatches();
  }

  lemma RestoreAlone(s: State, e: Saved)
    requires s.data.None? || e.data.None?
    ensures Restore(s, e).Some?
    ensures Restore(s, e).value.data == e.data && Restore(s, e).value.decisionEvents == e.decisionEvents
    ensures OfBatches(Restore(s, e).value.previous)
         == if e.previous == [] then [] else OfBatches(s.previous) + OfBatches(e.previous)
  {
    hide FinalizeSnapshot, OfVisitors, OfBatches;
    BatchesAppend(s.previous, e.previous);
    NoBatches();
    assert [] + OfBatches(e.previous) == OfBatches(e.previous);
  }

  /** What a restore keeps and what it drops, by the parts memory held. */
  lemma KeptAndDropped(d: seq<Event>, p: seq<Event>, q: seq<Event>, dropped: multiset<Event>, kept: multiset<Event>,
                       all: multiset<Event>)
    requires kept + dropped == all
    requires dropped == multiset{} || dropped == multiset(d) + multiset(p)
             || dropped == multiset(d) + multiset(p) + multiset(q)
    ensures kept <= all
    ensures kept == all <==> dropped == multiset{}
    ensures dropped == multiset(d) + multiset(p) ==> (dropped == multiset{} <==> d == [] && p == [])
    ensures dropped == multiset(d) + multiset(p) + multiset(q)
        ==> (dropped == multiset{} <==> d == [] && p == [] && q == [])
  {
    assert |multiset(d)| == |d| && |multiset(p)| == |p| && |multiset(q)| == |q|;
    if kept == all {
      assert |kept| + |dropped| == |all|;
    }
  }

  /** Restoring keeps every event of memory and of storage exactly when it is safe, and never invents one. */
  lemma RestoreKeepsExactlyWhen(s: State, e: Saved)
    requires HasVisitor(s) || s.data.None?
    ensures Restore(s, e).Some?
    ensures var r := Restore(s, e).value;
            var all := Held(s.data, s.decisionEvents, s.previous) + Held(e.data, e.decisionEvents, e.previous);
      && (Held(r.data, r.decisionEvents, r.previous) == all <==> RestoreIsSafe(s, e))
      && Held(r.data, r.decisionEvents, r.previous) <= all
  {
    hide Restore, OfVisitors, OfBatches, HasVisitor;
    NoBatches();
    var d, p, q, q' := OfData(s), s.decisionEvents, OfBatches(s.previous), OfBatches(e.previous);
    var all := Held(s.data, s.decisionEvents, s.previous) + Held(e.data, e.decisionEvents, e.previous);
    var mine := multiset(OfDataOf(e.data)) + multiset(e.decisionEvents);
    assert all == multiset(d) + multiset(p) + multiset(q) + (mine + multiset(q'));
    if s.data.Some? && e.data.Some? {
      RestoreBesideData(s, e);
      SplitMultiset(d, p);
      SplitMultiset(q, d + p);
      SplitMultiset(q + (d + p), q');
      var kept := if e.previous == [] then mine else mine + (multiset(q) + (multiset(d) + multiset(p)) + multiset(q'));
      KeptAndDropped(d, p, q, if e.previous == [] then multiset(d) + multiset(p) + multiset(q) else multiset{}, kept,
                     all);
    } else {
      RestoreAlone(s, e);
      SplitMultiset(q, q');
      var kept := if e.previous == [] then mine else mine + (multiset(q) + multiset(q'));
      KeptAndDropped(d, p, q,
                     if e.previous == [] then multiset(d) + multiset(p) + multiset(q) else multiset(d) + multiset(p),
                     kept, all);
    }
  }

  lemma OfOneBatch(b: Batch)
    ensures OfBatches([b]) == OfVisitors(b.visitors)
  {
  }

  // ----- runs with restores -----

  /** The store is empty or has a visitor, and so has a persisted one. */
  predicate WellFormed(s: State) { s.data.None? || HasVisitor(s) }

  predicate WellSaved(op: Operation) {
    op.RestoreFrom? ==> op.saved.data.None? || op.saved.data.value.visitors != []
  }

  /** Every event that was ever handed over or is held, in batches of either kind or pending. */
  function All(s: State): multiset<Event> {
    multiset(SentCurrent(s.sent)) + multiset(OfBatches(SentPrevious(s.sent)))
    + Held(s.data, s.decisionEvents, s.previous)
  }

  /** The events an operation brings. */
  function Brought(op: Operation): multiset<Event> {
    match op
    case Track(e, _) => multiset{e}
    case Decide(e, _) => multiset{e}
    case RegisterPrevious(b) => multiset(OfVisitors(b.visitors))
    case RestoreFrom(e) => Held(e.data, e.decisionEvents, e.previous)
    case _ => multiset{}
  }

  function BroughtByAll(ops: seq<Operation>): multiset<Event>
    decreases |ops|
  {
    if ops == [] then multiset{} else Brought(ops[0]) + BroughtByAll(ops[1..])
  }

  /** What a caller can check before an operation: a first visitor finds nothing pending, a restore overwrites nothing,
      and the store is reset when it is empty. */
  predicate IsSafe(s: State, op: Operation) {
    match op
    case RegisterVisitor(_) => HasVisitor(s) || s.decisionEvents == []
    case RestoreFrom(e) => RestoreIsSafe(s, e)
    case ResetStore => OfData(s) == [] && s.decisionEvents == [] && OfBatches(s.previous) == []
    case _ => true
  }

  predicate IsSafeRun(s: State, ops: seq<Operation>)
    decreases |ops|
  {
    ops == [] ||
    (IsSafe(s, ops[0]) && (Next(s, ops[0]).Some? ==> IsSafeRun(Next(s, ops[0]).value, ops[1..])))
  }

  /** The two streams hold all events. */
  lemma AllIsStreams(s: State)
    ensures All(s) == multiset(Stream(s)) + multiset(OfBatches(PreviousStream(s)))
  {
    BatchesAppend(SentPrevious(s.sent), s.previous);
    hide SentCurrent, SentPrevious, OfVisitors, OfBatches;
    assert multiset(Stream(s)) == multiset(SentCurrent(s.sent)) + multiset(OfData(s)) + multiset(s.decisionEvents);
  }

  lemma PlainStepKeepsAll(s: State, op: Operation)
    requires HasVisitor(s) && IsPlain(op)
    ensures var r := Next(s, op);
      r.Some? && HasVisitor(r.value) && All(r.value) == All(s) + Brought(op)
  {
    hide Next, All, Stream, PreviousStream, OfBatches, HasVisitor, OfVisitors, Tracked, Registered, Brought;
    StepKeepsOrder(s, op);
    var r := Next(s, op).value;
    AllIsStreams(s);
    AllIsStreams(r);
    OneTracked(op);
    BatchesAppend(PreviousStream(s), Registered([op]));
    SplitMultiset(Stream(s), Tracked([op]));
    SplitMultiset(OfBatches(PreviousStream(s)), OfBatches(Registered([op])));
    Regroup(multiset(Stream(s)), multiset(Tracked([op])), multiset(OfBatches(PreviousStream(s))),
            multiset(OfBatches(Registered([op]))));
  }

  lemma SplitMultiset(a: seq<Event>, b: seq<Event>)
    ensures multiset(a + b) == multiset(a) + multiset(b)
  {
  }

  lemma Regroup(a: multiset<Event>, b: multiset<Event>, c: multiset<Event>, d: multiset<Event>)
    ensures (a + b) + (c + d) == (a + c) + (b + d)
  {
  }

  lemma OneTracked(op: Operation)
    requires IsPlain(op)
    ensures Brought(op) == multiset(Tracked([op])) + multiset(OfBatches(Registered([op])))
  {
    assert [op][1..] == [];
    if op.RegisterPrevious? {
      assert Registered([op]) == [op.batch];
      OfOneBatch(op.batch);
      hide OfVisitors;
    }
  }

  lemma EmptyVisitorKeepsAll(s: State, d: seq<int>)
    requires s.data.None?
    ensures var r := AddVisitor(s, d).value;
      AddVisitor(s, d).Some? && HasVisitor(r) && All(r) <= All(s) && (All(r) == All(s) <==> s.decisionEvents == [])
  {
    hide OfBatches, SentCurrent, SentPrevious;
    var r := AddVisitor(s, d).value;
    OfOneVisitor(Visitor([]));
    assert [] + [Visitor([])] == [Visitor([])];
    assert OfVisitors([Visitor([])]) == [];
    assert |multiset(s.decisionEvents)| == |s.decisionEvents|;
    Dropped(All(r), multiset(s.decisionEvents), All(s));
  }

  lemma RegisterKeepsAll(s: State, b: Batch)
    ensures All(s.(previous := s.previous + [b])) == All(s) + multiset(OfVisitors(b.visitors))
  {
    BatchesAppend(s.previous, [b]);
    OfOneBatch(b);
    hide OfBatches, SentCurrent, SentPrevious, OfVisitors;
    assert multiset(OfBatches(s.previous) + OfVisitors(b.visitors))
        == multiset(OfBatches(s.previous)) + multiset(OfVisitors(b.visitors));
  }

  lemma DecideKeepsAll(s: State, e: Event, d: seq<int>)
    ensures All(s.(decisionEvents := s.decisionEvents + [e], decisions := d)) == All(s) + multiset{e}
  {
    hide OfBatches, SentCurrent, SentPrevious, OfVisitors;
  }

  /** Without data, a plain operation that does not throw loses at most what was pending before the first visitor. */
  lemma SwitchKeepsAll(s: State, on: bool)
    ensures All(s.(canSend := on)) == All(s)
  {
    hide OfVisitors, OfBatches, SentCurrent, SentPrevious;
  }

  lemma EmptyStepKeepsAll(s: State, op: Operation)
    requires s.data.None? && IsPlain(op) && Next(s, op).Some?
    ensures WellFormed(Next(s, op).value) && All(Next(s, op).value) <= All(s) + Brought(op)
    ensures All(Next(s, op).value) == All(s) + Brought(op) <==> IsSafe(s, op)
  {
    hide All, AddVisitor, SendAll;
    match op
    case RegisterVisitor(d) => EmptyVisitorKeepsAll(s, d);
    case Decide(e, d) => DecideKeepsAll(s, e, d);
    case RegisterPrevious(b) => RegisterKeepsAll(s, b);
    case Send => EmptySendKeepsAll(s);
    case Finalize =>
    case SetCanSend(on) => SwitchKeepsAll(s, on);
    case Track(_, _) =>
    case RestoreFrom(_) =>
    case ResetStore =>
  }

  lemma Dropped(kept: multiset<Event>, dropped: multiset<Event>, all: multiset<Event>)
    requires kept + dropped == all
    ensures kept <= all && (kept == all <==> |dropped| == 0)
  {
    if kept == all {
      assert |kept| + |dropped| == |all|;
    }
  }

  lemma EmptySendKeepsAll(s: State)
    requires s.data.None? && SendAll(s).Some?
    ensures WellFormed(SendAll(s).value) && All(SendAll(s).value) == All(s)
  {
    if s.canSend {
      EmptySendIs(s);
      HandOverKeepsAll(s);
      hide SendAll, All;
    }
  }

  lemma EmptySendIs(s: State)
    requires s.data.None? && SendAll(s).Some? && s.canSend
    ensures SendAll(s).value == s.(sent := s.sent + Tickets(s.previous), previous := [])
  {
    hide Tickets;
  }

  lemma HandOverKeepsAll(s: State)
    ensures All(s.(sent := s.sent + Tickets(s.previous), previous := [])) == All(s)
  {
    SentAppend(s.sent, Tickets(s.previous));
    TicketsArePrevious(s.previous);
    BatchesAppend(SentPrevious(s.sent), s.previous);
    NoBatches();
    hide OfVisitors, OfBatches, SentCurrent, SentPrevious, Tickets;
    assert SentCurrent(s.sent) + [] == SentCurrent(s.sent);
    assert multiset(OfBatches(SentPrevious(s.sent)) + OfBatches(s.previous))
        == multiset(OfBatches(SentPrevious(s.sent))) + multiset(OfBatches(s.previous));
  }

  lemma NoBatches()
    ensures OfBatches([]) == []
  {
  }

  /** A restore never invents an event, and keeps all exactly when it is safe. */
  lemma RestoreStepKeepsAll(s: State, e: Saved)
    requires WellFormed(s)
    ensures var r := Restore(s, e);
      && r.Some? && All(r.value) <= All(s) + Held(e.data, e.decisionEvents, e.previous)
      && (All(r.value) == All(s) + Held(e.data, e.decisionEvents, e.previous) <==> RestoreIsSafe(s, e))
  {
    RestoreKeepsExactlyWhen(s, e);
    var r := Restore(s, e).value;
    RestoreKeepsSent(s, e);
    hide Restore, Held, RestoreIsSafe, OfBatches, SentCurrent, SentPrevious;
    var sent := multiset(SentCurrent(s.sent)) + multiset(OfBatches(SentPrevious(s.sent)));
    var before, saved := Held(s.data, s.decisionEvents, s.previous), Held(e.data, e.decisionEvents, e.previous);
    CancelSent(sent, Held(r.data, r.decisionEvents, r.previous), before, saved);
  }

  /** From s to r nothing appears from nowhere, and nothing of memory or of the saved store is lost exactly when the
      restore was safe. */
  predicate KeepsAllWhenSafe(s: State, e: Saved, r: State) {
    var all := All(s) + Held(e.data, e.decisionEvents, e.previous);
    All(r) <= all && (All(r) == all <==> RestoreIsSafe(s, e))
  }

  lemma RestoreKeepsSent(s: State, e: Saved)
    requires Restore(s, e).Some?
    ensures Restore(s, e).value.sent == s.sent
  {
  }

  lemma CancelSent(sent: multiset<Event>, kept: multiset<Event>, before: multiset<Event>, saved: multiset<Event>)
    requires kept <= before + saved
    ensures sent + kept <= sent + before + saved
    ensures sent + kept == sent + before + saved <==> kept == before + saved
  {
    if sent + kept == sent + before + saved {
      forall e ensures kept[e] == (before + saved)[e] {
        assert (sent + kept)[e] == (sent + before + saved)[e];
      }
    }
  }

  /** The step invents no event, and loses none exactly when it is safe. */
  ghost predicate Conserves(s: State, op: Operation)
    requires Next(s, op).Some?
  {
    var r := Next(s, op).value;
    WellFormed(r) && All(r) <= All(s) + Brought(op) && (All(r) == All(s) + Brought(op) <==> IsSafe(s, op))
  }

  lemma RestoreConserves(s: State, op: Operation)
    requires WellFormed(s) && WellSaved(op) && Next(s, op).Some? && op.RestoreFrom?
    ensures Conserves(s, op)
  {
    RestoreStepKeepsAll(s, op.saved);
    RestoreWellFormed(s, op.saved);
    BroughtBySaved(op);
    hide All, Restore, Brought, RestoreIsSafe;
  }

  lemma PlainConserves(s: State, op: Operation)
    requires WellFormed(s) && WellSaved(op) && Next(s, op).Some? && IsPlain(op)
    ensures Conserves(s, op)
  {
    if HasVisitor(s) {
      PlainStepKeepsAll(s, op);
    } else {
      EmptyStepKeepsAll(s, op);
    }
    hide All, Brought, Next, HasVisitor;
  }

  /** No step invents an event, and a step loses none exactly when it is safe. */
  lemma StepConserves(s: State, op: Operation)
    requires WellFormed(s) && WellSaved(op) && Next(s, op).Some?
    ensures var r := Next(s, op).value;
      && WellFormed(r) && All(r) <= All(s) + Brought(op)
      && (All(r) == All(s) + Brought(op) <==> IsSafe(s, op))
  {
    hide All, Brought, Next, WellFormed, IsSafe;
    if op.RestoreFrom? {
      RestoreConserves(s, op);
    } else if op.ResetStore? {
      ResetConserves(s);
    } else {
      PlainConserves(s, op);
    }
  }

  lemma ResetConserves(s: State)
    ensures Next(s, ResetStore).Some? && Conserves(s, ResetStore)
  {
    ResetKeepsAll(s);
    hide All;
  }

  lemma BroughtBySaved(op: Operation)
    requires op.RestoreFrom?
    ensures Brought(op) == Held(op.saved.data, op.saved.decisionEvents, op.saved.previous)
  {
  }

  lemma RestoreWellFormed(s: State, e: Saved)
    requires Restore(s, e).Some? && (e.data.None? || e.data.value.visitors != [])
    ensures WellFormed(Restore(s, e).value)
  {
  }

  lemma ResetKeepsAll(s: State)
    ensures var r := Next(s, ResetStore).value;
      && All(r) <= All(s) && (All(r) == All(s) <==> IsSafe(s, ResetStore))
  {
    hide OfVisitors, OfBatches, SentCurrent, SentPrevious;
    NoBatches();
    var r := Next(s, ResetStore).value;
    var d, p, q := multiset(OfData(s)), multiset(s.decisionEvents), multiset(OfBatches(s.previous));
    assert |d| == |OfData(s)| && |p| == |s.decisionEvents| && |q| == |OfBatches(s.previous)|;
    Dropped(All(r), d + p + q, All(s));
  }

  /** Over every run of all operations, restores and resets included, that does not throw: no event appears from
      nowhere, and none is lost if and only if every step was safe. */
  lemma {:induction false} RunConserves(s: State, ops: seq<Operation>)
    requires WellFormed(s) && Run(s, ops).Some? && forall op :: op in ops ==> WellSaved(op)
    ensures All(Run(s, ops).value) <= All(s) + BroughtByAll(ops)
    ensures All(Run(s, ops).value) == All(s) + BroughtByAll(ops) <==> IsSafeRun(s, ops)
    decreases |ops|
  {
    hide Next, All, Brought, IsSafe, WellFormed, WellSaved;
    if ops != [] {
      assert ops[0] in ops;
      assert forall op :: op in ops[1..] ==> op in ops;
      StepConserves(s, ops[0]);
      var s' := Next(s, ops[0]).value;
      RunConserves(s', ops[1..]);
      Chained(All(Run(s, ops).value), All(s'), All(s), Brought(ops[0]), BroughtByAll(ops[1..]));
    }
  }

  lemma Chained(last: multiset<Event>, next: multiset<Event>, first: multiset<Event>, b: multiset<Event>,
                rest: multiset<Event>)
    requires next <= first + b && last <= next + rest
    ensures last <= first + (b + rest)
    ensures last == first + (b + rest) <==> next == first + b && last == next + rest
  {
    if last == first + (b + rest) {
      forall e ensures next[e] == (first + b)[e] && last[e] == (next + rest)[e] {
        assert last[e] == (first + (b + rest))[e] && last[e] <= (next + rest)[e] && next[e] <= (first + b)[e];
      }
    }
  }

  /** An event brought once is in exactly one place at the end of any safe run. */
  lemma ExactlyOnePlace(s: State, ops: seq<Operation>, e: Event)
    requires WellFormed(s) && Run(s, ops).Some? && forall op :: op in ops ==> WellSaved(op)
    requires IsSafeRun(s, ops) && (All(s) + BroughtByAll(ops))[e] == 1
    ensures var r := Run(s, ops).value;
      multiset(SentCurrent(r.sent))[e] + multiset(OfBatches(SentPrevious(r.sent)))[e] + multiset(OfData(r))[e]
      + multiset(r.decisionEvents)[e] + multiset(OfBatches(r.previous))[e] == 1
  {
    RunConserves(s, ops);
    hide Run, SentCurrent, SentPrevious, OfBatches, OfVisitors;
    var r := Run(s, ops).value;
    assert All(r)[e] == 1;
  }

  lemma FinalizeKeepsStream(s: State)
    requires HasVisitor(s)
    ensures var r := FinalizeSnapshot(s);
      r.Some? && HasVisitor(r.value) && r.value.decisionEvents == [] && Stream(r.value) == Stream(s)
  {
    FinalizeKeeps(s);
    hide FinalizeSnapshot, OfData, SentCurrent, HasVisitor;
    var r := FinalizeSnapshot(s).value;
    assert SentCurrent(s.sent) + (OfData(s) + s.decisionEvents) + []
        == SentCurrent(s.sent) + OfData(s) + s.decisionEvents;
  }

  lemma TrackKeepsStream(s: State, e: Event, d: seq<int>)
    requires HasVisitor(s)
    ensures var r := TrackEvent(s, e, d);
      && r.Some? && HasVisitor(r.value) && Stream(r.value) == Stream(s) + [e]
      && PreviousStream(r.value) == PreviousStream(s)
  {
    StepKeepsOrder(s, Track(e, d));
    hide TrackEvent, Stream, PreviousStream, HasVisitor;
    assert [Track(e, d)][1..] == [] && PreviousStream(s) + [] == PreviousStream(s);
  }

  // ----- which decisions an event is recorded with -----

  /** An event with the decisions of its snapshot. */
  datatype Recorded = Recorded(event: Event, decisions: seq<int>)

  function Under(events: seq<Event>, decisions: seq<int>): (r: seq<Recorded>)
    ensures |r| == |events|
  {
    seq(|events|, i requires 0 <= i < |events| => Recorded(events[i], decisions))
  }

  /** What is recorded so far, what is pending, the decisions last handed in, the decisions of the snapshot that a
      tracked event joins, if there is one, and whether the sender is on. */
  datatype Log = Log(done: seq<Recorded>, pending: seq<Event>, now: seq<int>, open: Option<seq<int>>, sends: bool)

  /** Pending decision events are recorded with the decisions last handed in. */
  function Settled(l: Log): Log { l.(done := l.done + Under(l.pending, l.now), pending := []) }

  /** What an operation adds to the log. */
  function After(l: Log, op: Operation): Log {
    match op
    case RegisterVisitor(d) => Settled(l).(now := d, open := None)
    case Track(e, d) =>
      var joined := if l.pending == [] && l.open.Some? then l.open.value else l.now;
      var r := Settled(l);
      r.(done := r.done + [Recorded(e, joined)], now := d, open := Some(joined))
    case Decide(e, d) => l.(pending := l.pending + [e], now := d)
    case Finalize => if l.pending == [] then l else Settled(l).(open := Some(l.now))
    case Send => if l.sends then Settled(l).(open := None) else l
    case SetCanSend(on) => l.(sends := on)
    case _ => l
  }

  function AfterAll(l: Log, ops: seq<Operation>): Log
    decreases |ops|
  {
    if ops == [] then l else AfterAll(After(l, ops[0]), ops[1..])
  }

  function PairsOf(shots: seq<Snapshot>): seq<Recorded>
    decreases |shots|
  {
    if shots == [] then [] else Under(shots[0].events, shots[0].decisions) + PairsOf(shots[1..])
  }

  function VisitorPairs(visitors: seq<Visitor>): seq<Recorded>
    decreases |visitors|
  {
    if visitors == [] then [] else PairsOf(visitors[0].snapshots) + VisitorPairs(visitors[1..])
  }

  function TicketPairs(t: Ticket): seq<Recorded> { if t.Current? then VisitorPairs(t.batch.visitors) else [] }

  function SentPairs(sent: seq<Ticket>): seq<Recorded>
    decreases |sent|
  {
    if sent == [] then [] else TicketPairs(sent[0]) + SentPairs(sent[1..])
  }

  function OpenOf(s: State): Option<seq<int>>
    requires HasVisitor(s)
  {
    var shots := Snapshots(s);
    if shots == [] then None else Some(shots[|shots| - 1].decisions)
  }

  /** The log that a store is the state of: what was sent, and then what it holds. */
  function LogOf(s: State): Log
    requires HasVisitor(s)
  {
    Log(SentPairs(s.sent) + VisitorPairs(s.data.value.visitors), s.decisionEvents, s.decisions, OpenOf(s), s.canSend)
  }

  lemma {:induction false} PairsAppend(a: seq<Snapshot>, b: seq<Snapshot>)
    ensures PairsOf(a + b) == PairsOf(a) + PairsOf(b)
    decreases |a|
  {
    hide Under;
    if a == [] {
      assert a + b == b;
    } else {
      assert (a + b)[1..] == a[1..] + b;
      PairsAppend(a[1..], b);
    }
  }

  lemma {:induction false} VisitorPairsAppend(a: seq<Visitor>, b: seq<Visitor>)
    ensures VisitorPairs(a + b) == VisitorPairs(a) + VisitorPairs(b)
    decreases |a|
  {
    hide PairsOf;
    if a == [] {
      assert a + b == b;
    } else {
      assert (a + b)[1..] == a[1..] + b;
      VisitorPairsAppend(a[1..], b);
    }
  }

  lemma {:induction false} SentPairsAppend(a: seq<Ticket>, b: seq<Ticket>)
    ensures SentPairs(a + b) == SentPairs(a) + SentPairs(b)
    decreases |a|
  {
    hide TicketPairs;
    if a == [] {
      assert a + b == b;
    } else {
      assert (a + b)[1..] == a[1..] + b;
      SentPairsAppend(a[1..], b);
    }
  }

  lemma {:induction false} TicketsHaveNoPairs(batches: seq<Batch>)
    ensures SentPairs(Tickets(batches)) == []
    decreases |batches|
  {
    if batches != [] {
      TicketsHaveNoPairs(batches[1..]);
      assert Tickets(batches)[1..] == Tickets(batches[1..]);
    }
  }

  lemma OneSnapshot(shot: Snapshot)
    ensures PairsOf([shot]) == Under(shot.events, shot.decisions)
  {
  }

  lemma OneVisitor(v: Visitor)
    ensures VisitorPairs([v]) == PairsOf(v.snapshots)
  {
  }

  lemma OneTicket(b: Batch)
    ensures SentPairs([Current(b)]) == VisitorPairs(b.visitors)
  {
  }

  /** The log grows by what the snapshots of the current visitor grow by. */
  lemma {:induction false} LogGrows(s: State, shots: seq<Snapshot>, more: seq<Recorded>)
    requires HasVisitor(s) && PairsOf(shots) == PairsOf(Snapshots(s)) + more
    ensures var r := WithSnapshots(s, shots);
      && HasVisitor(r) && Snapshots(r) == shots
      && VisitorPairs(r.data.value.visitors) == VisitorPairs(s.data.value.visitors) + more
  {
    hide PairsOf, VisitorPairs;
    var v := s.data.value.visitors;
    var n := |v| - 1;
    assert v == v[..n] + [v[n]];
    assert v[n := Visitor(shots)] == v[..n] + [Visitor(shots)];
    VisitorPairsAppend(v[..n], [v[n]]);
    VisitorPairsAppend(v[..n], [Visitor(shots)]);
    OneVisitor(v[n]);
    OneVisitor(Visitor(shots));
  }

  lemma {:induction false} Reassociate(a: seq<Recorded>, b: seq<Recorded>, c: seq<Recorded>)
    ensures a + (b + c) == (a + b) + c
  {
  }

  /** The last of the longer snapshots is the open one. */
  lemma {:induction false} GrownLog(s: State, shots: seq<Snapshot>, more: seq<Recorded>, decisions: seq<int>)
    requires HasVisitor(s) && shots != [] && shots[|shots| - 1].decisions == decisions
    requires PairsOf(shots) == PairsOf(Snapshots(s)) + more
    ensures var w := WithSnapshots(s, shots);
      && HasVisitor(w) && w.decisions == s.decisions && w.decisionEvents == s.decisionEvents
      && LogOf(w) == LogOf(s).(done := LogOf(s).done + more, open := Some(decisions))
  {
    LogGrows(s, shots, more);
    Reassociate(SentPairs(s.sent), VisitorPairs(s.data.value.visitors), more);
    hide PairsOf, VisitorPairs, SentPairs, HasVisitor, Snapshots;
  }

  lemma {:induction false} TakeLogs(s: State)
    requires HasVisitor(s)
    ensures TakeSnapshot(s).Some? && HasVisitor(TakeSnapshot(s).value)
    ensures LogOf(TakeSnapshot(s).value) == Settled(LogOf(s)).(open := Some(s.decisions))
  {
    var shots, shot := Snapshots(s), Snapshot(s.decisions, s.decisionEvents);
    PairsAppend(shots, [shot]);
    OneSnapshot(shot);
    hide PairsOf, VisitorPairs, SentPairs, Under, WithSnapshots;
    GrownLog(s, shots + [shot], Under(s.decisionEvents, s.decisions), s.decisions);
    LogWithout(WithSnapshots(s, shots + [shot]));
  }

  lemma LogWithout(s: State)
    requires HasVisitor(s)
    ensures HasVisitor(s.(decisionEvents := [])) && LogOf(s.(decisionEvents := [])) == LogOf(s).(pending := [])
  {
  }

  lemma NothingUnder(decisions: seq<int>)
    ensures Under([], decisions) == []
  {
  }

  lemma NothingPending(l: Log)
    requires l.pending == []
    ensures Settled(l) == l
  {
    NothingUnder(l.now);
  }

  lemma {:induction false} FinalizeLogs(s: State)
    requires HasVisitor(s)
    ensures FinalizeSnapshot(s).Some? && HasVisitor(FinalizeSnapshot(s).value)
    ensures LogOf(FinalizeSnapshot(s).value) == After(LogOf(s), Finalize)
  {
    TakeLogs(s);
    LogPending(s);
    hide TakeSnapshot, HasVisitor, LogOf, Settled;
  }

  lemma {:induction false} LogPending(s: State)
    requires HasVisitor(s)
    ensures LogOf(s).pending == s.decisionEvents && LogOf(s).now == s.decisions && LogOf(s).sends == s.canSend
  {
  }

  lemma {:induction false} VisitorLogs(s: State, d: seq<int>)
    requires HasVisitor(s)
    ensures AddVisitor(s, d).Some? && HasVisitor(AddVisitor(s, d).value)
    ensures LogOf(AddVisitor(s, d).value) == After(LogOf(s), RegisterVisitor(d))
  {
    FinalizeLogs(s);
    if s.decisionEvents == [] {
      NothingPending(LogOf(s));
    }
    var f := FinalizeSnapshot(s).value;
    NewVisitorLog(f, d);
    hide FinalizeSnapshot, SentPairs, VisitorPairs, PairsOf, Under, HasVisitor, OpenOf;
    var r := AddVisitor(s, d).value;
    assert LogOf(f).done == Settled(LogOf(s)).done && f.canSend == LogOf(s).sends;
    assert LogOf(r).pending == [] && LogOf(r).now == d;
  }

  lemma {:induction false} NewVisitorLog(f: State, d: seq<int>)
    requires HasVisitor(f)
    ensures var r := f.(data := Some(Batch(f.data.value.visitors + [Visitor([])])), decisions := d,
                        decisionEvents := []);
      HasVisitor(r) && LogOf(r) == LogOf(f).(now := d, open := None, pending := [])
  {
    VisitorPairsAppend(f.data.value.visitors, [Visitor([])]);
    NoPairs();
    hide PairsOf, VisitorPairs, SentPairs;
    assert VisitorPairs(f.data.value.visitors) + [] == VisitorPairs(f.data.value.visitors);
  }

  lemma NoPairs()
    ensures VisitorPairs([Visitor([])]) == []
  {
    OneVisitor(Visitor([]));
  }

  lemma {:induction false} ReadiedLogs(s: State)
    requires HasVisitor(s)
    ensures var r := Readied(s);
      && HasVisitor(r) && Snapshots(r) != []
      && var joined := if s.decisionEvents == [] && OpenOf(s).Some? then OpenOf(s).value else s.decisions;
      LogOf(r) == Settled(LogOf(s)).(open := Some(joined))
  {
    if Snapshots(s) != [] && s.decisionEvents == [] {
      NothingPending(LogOf(s));
    } else {
      TakeLogs(s);
      TakeSnapshotKeeps(s);
    }
    hide TakeSnapshot, HasVisitor, Snapshots, PairsOf, VisitorPairs, SentPairs, Settled;
  }

  lemma {:induction false} JoinedPairs(shots: seq<Snapshot>, e: Event)
    requires shots != []
    ensures var last := shots[|shots| - 1];
      PairsOf(shots[|shots| - 1 := last.(events := last.events + [e])])
      == PairsOf(shots) + [Recorded(e, last.decisions)]
  {
    var n := |shots| - 1;
    var last := shots[n];
    var longer := last.(events := last.events + [e]);
    assert shots == shots[..n] + [last] && shots[n := longer] == shots[..n] + [longer];
    PairsAppend(shots[..n], [last]);
    PairsAppend(shots[..n], [longer]);
    OneSnapshot(last);
    OneSnapshot(longer);
    assert Under(longer.events, last.decisions) == Under(last.events, last.decisions) + [Recorded(e, last.decisions)];
    hide PairsOf, Under;
  }

  lemma {:induction false} TrackLogs(s: State, e: Event, d: seq<int>)
    requires HasVisitor(s)
    ensures TrackEvent(s, e, d).Some? && HasVisitor(TrackEvent(s, e, d).value)
    ensures LogOf(TrackEvent(s, e, d).value) == After(LogOf(s), Track(e, d))
  {
    ReadiedLogs(s);
    TrackIs(s, e, d);
    hide TrackEvent, Readied, PairsOf, VisitorPairs, SentPairs, Under, Settled;
    var r := Readied(s);
    var shots := Snapshots(r);
    var last := shots[|shots| - 1];
    var joined := shots[|shots| - 1 := last.(events := last.events + [e])];
    JoinedPairs(shots, e);
    GrownLog(r, joined, [Recorded(e, last.decisions)], last.decisions);
    LogWith(WithSnapshots(r, joined), d);
    SettledTwice(LogOf(s));
  }

  lemma LogWith(s: State, d: seq<int>)
    requires HasVisitor(s)
    ensures HasVisitor(s.(decisions := d)) && LogOf(s.(decisions := d)) == LogOf(s).(now := d)
  {
  }

  lemma SettledTwice(l: Log)
    ensures Settled(l).pending == [] && Settled(l).now == l.now && Settled(l).sends == l.sends
  {
  }

  lemma {:induction false} SendLogs(s: State)
    requires HasVisitor(s)
    ensures SendAll(s).Some? && HasVisitor(SendAll(s).value)
    ensures LogOf(SendAll(s).value) == After(LogOf(s), Send)
  {
    LogPending(s);
    if s.canSend {
      var s1 := s.(sent := s.sent + Tickets(s.previous), previous := []);
      PreviousLeaveLog(s);
      if HasEventsToSend(s) {
        FinalizeLogs(s1);
        SendHandsOver(s, s1);
      } else {
        assert SendAll(s) == Some(s1);
        NothingLogged(s);
      }
    }
    hide SendAll, LogOf, Settled, HasVisitor, HasEventsToSend;
  }

  lemma {:induction false} PreviousLeaveLog(s: State)
    requires HasVisitor(s)
    ensures var s1 := s.(sent := s.sent + Tickets(s.previous), previous := []);
      HasVisitor(s1) && LogOf(s1) == LogOf(s)
  {
    SentPairsAppend(s.sent, Tickets(s.previous));
    TicketsHaveNoPairs(s.previous);
    assert SentPairs(s.sent) + [] == SentPairs(s.sent);
    hide SentPairs, VisitorPairs;
  }

  lemma {:induction false} NothingLogged(s: State)
    requires HasVisitor(s) && !HasEventsToSend(s)
    ensures Settled(LogOf(s)).(open := None) == LogOf(s)
  {
    LogPending(s);
    NothingPending(LogOf(s));
    assert OpenOf(s) == None;
    hide SentPairs, VisitorPairs, Settled;
  }

  lemma {:induction false} SendHandsOver(s: State, s1: State)
    requires HasVisitor(s) && s.canSend && HasEventsToSend(s)
    requires s1 == s.(sent := s.sent + Tickets(s.previous), previous := []) && LogOf(s1) == LogOf(s)
    requires FinalizeSnapshot(s1).Some? && HasVisitor(FinalizeSnapshot(s1).value)
    requires LogOf(FinalizeSnapshot(s1).value) == After(LogOf(s1), Finalize)
    ensures SendAll(s).Some? && HasVisitor(SendAll(s).value)
    ensures LogOf(SendAll(s).value) == Settled(LogOf(s)).(open := None)
  {
    hide FinalizeSnapshot, HasEventsToSend, PairsOf, SentPairs, VisitorPairs;
    var s2 := FinalizeSnapshot(s1).value;
    SentPairsAppend(s2.sent, [Current(s2.data.value)]);
    OneTicket(s2.data.value);
    NoPairs();
    if s.decisionEvents == [] {
      NothingPending(LogOf(s));
    }
    var r := SendAll(s).value;
    assert r.sent == s2.sent + [Current(s2.data.value)];
    assert LogOf(r).done == LogOf(s2).done + [] == LogOf(s2).done;
  }

  lemma {:induction false} StepLogs(s: State, op: Operation)
    requires HasVisitor(s) && IsPlain(op)
    ensures Next(s, op).Some? && HasVisitor(Next(s, op).value)
    ensures LogOf(Next(s, op).value) == After(LogOf(s), op)
  {
    hide AddVisitor, TrackEvent, FinalizeSnapshot, SendAll, PairsOf, SentPairs, VisitorPairs, Settled;
    match op
    case RegisterVisitor(d) => VisitorLogs(s, d);
    case Track(e, d) => TrackLogs(s, e, d);
    case Decide(_, _) =>
    case RegisterPrevious(_) =>
    case Finalize => FinalizeLogs(s);
    case Send => SendLogs(s);
    case SetCanSend(_) =>
    case RestoreFrom(_) =>
    case ResetStore =>
  }

  /** Over every run of plain operations after a visitor is registered, the events that were sent and those the store
      holds, each with the decisions of its snapshot, are in order those of the log of the operations: a decision
      event has the decisions that were handed in last when it was made part of a snapshot, and a tracked event has
      those of the snapshot it joined. */
  lemma {:induction false} RunLogs(s: State, ops: seq<Operation>)
    requires HasVisitor(s) && forall op :: op in ops ==> IsPlain(op)
    ensures Run(s, ops).Some? && HasVisitor(Run(s, ops).value)
    ensures LogOf(Run(s, ops).value) == AfterAll(LogOf(s), ops)
    decreases |ops|
  {
    if ops != [] {
      hide Next, LogOf, After, HasVisitor;
      assert ops[0] in ops;
      assert forall op :: op in ops[1..] ==> op in ops;
      StepLogs(s, ops[0]);
      RunLogs(Next(s, ops[0]).value, ops[1..]);
    }
  }

  /** A restore overwrites data, decisions and pending events by what was saved; where both have data, memory's
      becomes a previous batch, its pending events made a snapshot under the decisions of memory; and previous batches
      are kept only when some were saved. */
  lemma {:induction false} RestoredIs(s: State, e: Saved)
    requires s.data.None? || HasVisitor(s)
    ensures Restore(s, e).Some?
    ensures var r := Restore(s, e).value;
      && r.data == e.data && r.decisions == e.decisions && r.decisionEvents == e.decisionEvents
      && r.sent == s.sent && r.canSend == s.canSend
      && (e.previous == [] ==> r.previous == [])
      && (e.previous != [] && (s.data.None? || e.data.None?) ==> r.previous == s.previous + e.previous)
      && (e.previous != [] && s.data.Some? && e.data.Some?
          ==> exists b: Batch ::
                && r.previous == s.previous + [b] + e.previous
                && SentPairs(s.sent) + VisitorPairs(b.visitors) == After(LogOf(s), Finalize).done)
  {
    if s.data.Some? && e.data.Some? {
      FinalizeLogs(s);
      var f := FinalizeSnapshot(s).value;
      var b := f.data.value;
      FinalizeLeaves(s);
      hide FinalizeSnapshot, SentPairs, VisitorPairs, After;
      assert LogOf(f).done == SentPairs(s.sent) + VisitorPairs(b.visitors);
      if e.previous != [] {
        assert Restore(s, e).value.previous == f.previous + [b] + e.previous;
      }
    }
  }

  /** When sending is on, the previous batches are handed over first, then, if there is anything, one batch of all that
      is held; when it is off, nothing is. */
  lemma {:induction false} SendsPreviousFirst(s: State)
    requires HasVisitor(s)
    ensures SendAll(s).Some?
    ensures var r, first := SendAll(s).value, s.sent + Tickets(s.previous);
      if !s.canSend then r == s
      else if s.decisionEvents == [] && (forall v :: v in s.data.value.visitors ==> v.snapshots == [])
      then r.sent == first
      else exists b: Batch :: r.sent == first + [Current(b)]
                              && SentPairs(s.sent) + VisitorPairs(b.visitors) == Settled(LogOf(s)).done
  {
    if s.canSend {
      PreviousLeaveLog(s);
      var s1 := s.(sent := s.sent + Tickets(s.previous), previous := []);
      FinalizeLogs(s1);
      FinalizeLeaves(s1);
      var f := FinalizeSnapshot(s1).value;
      if s.decisionEvents == [] {
        NothingPending(LogOf(s));
      }
      TicketsHaveNoPairs(s.previous);
      SentPairsAppend(s.sent, Tickets(s.previous));
      LogPending(s);
      hide SendAll, FinalizeSnapshot, SentPairs, VisitorPairs, Tickets, OpenOf, HasVisitor, Settled;
      assert LogOf(f).done == Settled(LogOf(s)).done;
      hide LogOf;
      SentAs(s, s1, f);
    }
  }

  lemma {:induction false} SentAs(s: State, s1: State, f: State)
    requires HasVisitor(s) && s.canSend && HasVisitor(f)
    requires s1 == s.(sent := s.sent + Tickets(s.previous), previous := []) && FinalizeSnapshot(s1) == Some(f)
    requires f.sent == s1.sent && SentPairs(s1.sent) == SentPairs(s.sent) + []
    requires LogOf(f).done == Settled(LogOf(s)).done
    ensures SendAll(s).Some?
    ensures var r, first := SendAll(s).value, s.sent + Tickets(s.previous);
      if s.decisionEvents == [] && (forall v :: v in s.data.value.visitors ==> v.snapshots == [])
      then r.sent == first
      else exists b: Batch :: r.sent == first + [Current(b)]
                              && SentPairs(s.sent) + VisitorPairs(b.visitors) == Settled(LogOf(s)).done
  {
    hide FinalizeSnapshot, SentPairs, VisitorPairs, Settled, Tickets;
    var r := SendAll(s).value;
    if HasEventsToSend(s) {
      var b := f.data.value;
      assert r.sent == s.sent + Tickets(s.previous) + [Current(b)];
      assert SentPairs(s.sent) + [] == SentPairs(s.sent);
      assert SentPairs(s.sent) + VisitorPairs(b.visitors) == LogOf(f).done;
      if s.decisionEvents == [] {
        var i :| 0 <= i < |s.data.value.visitors| && s.data.value.visitors[i].snapshots != [];
        assert s.data.value.visitors[i] in s.data.value.visitors;
      }
    }
  }

  lemma FinalizeLeaves(s: State)
    requires HasVisitor(s)
    ensures FinalizeSnapshot(s).Some?
    ensures var f := FinalizeSnapshot(s).value; f.sent == s.sent && f.previous == s.previous && f.canSend == s.canSend
  {
  }

  // ----- the code -----

  /** The store's field L and the sender; ok is false where the source throws. */
  class TrackerStore {
    var data: Option<Batch>
    var decisions: seq<int>
    var decisionEvents: seq<Event>
    var previous: seq<Batch>
    var canSend: bool
    var sent: seq<Ticket>

    function View(): State
      reads this
    {
      State(data, decisions, decisionEvents, previous, canSend, sent)
    }

    ghost predicate Did(before: State, after: Option<State>, ok: bool)
      reads this
    {
      ok == after.Some? && View() == if after.Some? then after.value else before
    }

    constructor ()
      ensures View() == State(None, [], [], [], false, [])
    {
      data, decisions, decisionEvents, previous, canSend, sent := None, [], [], [], false, [];
    }

    method AtSnapshot() returns (ok: bool)
      modifies this
      ensures Did(old(View()), TakeSnapshot(old(View())), ok)
    {
      if !HasVisitor(View()) { return false; }
      var v := data.value.visitors;
      var n := |v| - 1;
      data := Some(Batch(v[n := Visitor(v[n].snapshots + [Snapshot(decisions, decisionEvents)])]));
      decisionEvents := [];
      return true;
    }

    method FinalizeBatchSnapshot() returns (ok: bool)
      modifies this
      ensures Did(old(View()), FinalizeSnapshot(old(View())), ok)
      ensures old(HasVisitor(View())) ==> ok && HasVisitor(View()) && decisionEvents == []
                                          && Stream(View()) == old(Stream(View()))
                                          && LogOf(View()) == After(old(LogOf(View())), Finalize)
    {
      if HasVisitor(View()) {
        FinalizeKeepsStream(View());
        FinalizeLogs(View());
      }
      hide Stream, FinalizeSnapshot, LogOf, After;
      ok := true;
      if |decisionEvents| > 0 {
        ok := AtSnapshot();
      }
    }

    method RegisterTrackerVisitor(newDecisions: seq<int>) returns (ok: bool)
      modifies this
      ensures Did(old(View()), AddVisitor(old(View()), newDecisions), ok)
      ensures old(HasVisitor(View()))
              ==> ok && HasVisitor(View()) && LogOf(View()) == After(old(LogOf(View())), RegisterVisitor(newDecisions))
    {
      if HasVisitor(View()) {
        VisitorLogs(View(), newDecisions);
      }
      hide LogOf, After;
      if data.None? {
        data := Some(Batch([]));
      } else {
        ok := FinalizeBatchSnapshot();
        if !ok { return false; }
      }
      data := Some(Batch(data.value.visitors + [Visitor([])]));
      decisions := newDecisions;
      decisionEvents := [];
      return true;
    }

    method RegisterTrackerEvent(e: Event, newDecisions: seq<int>) returns (ok: bool)
      modifies this
      ensures Did(old(View()), TrackEvent(old(View()), e, newDecisions), ok)
      ensures old(HasVisitor(View())) ==> ok && HasVisitor(View()) && Stream(View()) == old(Stream(View())) + [e]
                                          && PreviousStream(View()) == old(PreviousStream(View()))
                                          && LogOf(View()) == After(old(LogOf(View())), Track(e, newDecisions))
    {
      hide LogOf, After;
      if !HasVisitor(View()) { return false; }
      TrackKeepsStream(View(), e, newDecisions);
      TrackLogs(View(), e, newDecisions);
      if !(Snapshots(View()) != [] && decisionEvents == []) {
        ok := AtSnapshot();
      }
      var v := data.value.visitors;
      var n := |v| - 1;
      var shots := v[n].snapshots;
      var m := |shots| - 1;
      data := Some(Batch(v[n := Visitor(shots[m := shots[m].(events := shots[m].events + [e])])]));
      decisions := newDecisions;
      return true;
    }

    method RegisterTrackerDecision(e: Event, newDecisions: seq<int>)
      modifies this
      ensures Did(old(View()), Next(old(View()), Decide(e, newDecisions)), true)
    {
      decisionEvents := decisionEvents + [e];
      decisions := newDecisions;
    }

    method RegisterPreviousBatch(b: Batch)
      modifies this
      ensures Did(old(View()), Next(old(View()), RegisterPrevious(b)), true)
    {
      previous := previous + [b];
    }

    method SetSendEvents(on: bool)
      modifies this
      ensures Did(old(View()), Next(old(View()), SetCanSend(on)), true)
    {
      canSend := on;
    }

    method ResetTrackerEvents() returns (ok: bool)
      modifies this
      ensures Did(old(View()), ResetEvents(old(View())), ok)
    {
      if !HasVisitor(View()) { return false; }
      data := Some(Batch([Visitor([])]));
      return true;
    }

    method AnySnapshots() returns (any: bool)
      ensures any == HasEventsToSend(View())
    {
      if decisionEvents != [] { return true; }
      if data.None? { return false; }
      var v := data.value.visitors;
      var i := 0;
      while i < |v|
        invariant 0 <= i <= |v|
        invariant forall k :: 0 <= k < i ==> v[k].snapshots == []
      {
        if |v[i].snapshots| > 0 { return true; }
        i := i + 1;
      }
      return false;
    }

    method SendPrevious()
      modifies this
      ensures View() == old(View()).(sent := old(sent) + Tickets(old(previous)), previous := [])
    {
      var i := 0;
      assert sent + Tickets(previous) == old(sent) + Tickets(old(previous)) && previous[0..] == previous;
      while i < |previous|
        invariant 0 <= i <= |previous|
        invariant View() == old(View()).(sent := sent)
        invariant sent + Tickets(previous[i..]) == old(sent) + Tickets(old(previous))
      {
        assert previous[i..][1..] == previous[i + 1..];
        ghost var rest := Tickets(previous[i + 1..]);
        assert sent + ([Previous(previous[i])] + rest) == sent + [Previous(previous[i])] + rest;
        sent := sent + [Previous(previous[i])];
        i := i + 1;
      }
      assert previous[i..] == [] && sent + [] == sent;
      previous := [];
    }

    /** The sender, called by the polling timer and by every registration once polling has ended. A
        throw leaves the previous batches sent. */
    method SendEvents() returns (ok: bool)
      modifies this
      ensures ok == SendAll(old(View())).Some?
      ensures ok ==> View() == SendAll(old(View())).value
      ensures old(HasVisitor(View()))
              ==> ok && HasVisitor(View()) && LogOf(View()) == After(old(LogOf(View())), Send)
    {
      if HasVisitor(View()) {
        SendLogs(View());
      }
      hide LogOf, After;
      if !canSend { return true; }
      var e := AnySnapshots();
      ghost var s1 := old(View()).(sent := old(sent) + Tickets(old(previous)), previous := []);
      if previous != [] {
        SendPrevious();
      } else {
        assert sent + [] == sent;
      }
      assert View() == s1;
      if e {
        ok := FinalizeBatchSnapshot();
        if !ok || data.None? { return false; }
        sent := sent + [Current(data.value)];
        ok := ResetTrackerEvents();
        return ok;
      }
      return true;
    }

    /** `He`: nothing is lost if and only if nothing was held. */
    method ResetTrackerStore()
      modifies this
      ensures Did(old(View()), Next(old(View()), ResetStore), true)
      ensures All(View()) == old(All(View())) <==> IsSafe(old(View()), ResetStore)
    {
      ResetKeepsAll(View());
      hide All, IsSafe;
      data, decisions, decisionEvents, previous, canSend := None, [], [], [], false;
    }

    method SetPersistableState(e: Saved) returns (ok: bool)
      modifies this
      ensures Did(old(View()), Restore(old(View()), e), ok)
      ensures old(WellFormed(View())) ==> ok && KeepsAllWhenSafe(old(View()), e, View())
    {
      ok := Overwrite(e);
      if WellFormed(old(View())) {
        RestoreStepKeepsAll(old(View()), e);
      }
      hide Restore, WellFormed, All, Held, RestoreIsSafe;
    }

    /** The body of `tt`. */
    method Overwrite(e: Saved) returns (ok: bool)
      modifies this
      ensures Did(old(View()), Restore(old(View()), e), ok)
    {
      if data.Some? && e.data.Some? {
        ok := FinalizeBatchSnapshot();
        if !ok { return false; }
        previous := previous + [data.value];
      }
      data := e.data;
      decisions := e.decisions;
      decisionEvents := e.decisionEvents;
      if previous == [] || e.previous == [] {
        previous := e.previous;
      } else {
        previous := previous + e.previous;
      }
      return true;
    }
  }
}
