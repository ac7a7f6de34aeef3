/** Persisting behaviour events: events that share a base are stored under one record, found through a scratch index
    written on the base object itself.  A record keeps the fields of its base once, the first time stamp, and
    for every event its offset from that and its place in the list, so that reading back restores the
    order of the list whatever bases its events shared. */
module EventCodec {
  import opened Text

  /** The own properties of an event base. */
  datatype Fields = Fields(name: string, kind: string, category: Option<string>,
                           options: Option<map<string, string>>, revenue: Option<int>)

  /** What the constructor keeps: a category that is not blank, options that are not empty. */
  function Normalize(f: Fields): Fields {
    f.(category := if f.category.Some?
                      && exists i :: 0 <= i < |f.category.value| && !IsSpace(f.category.value[i] as int)
                   then f.category else None,
       options := if f.options.Some? && f.options.value != map[] then f.options else None)
  }

  class Base {
    const fields: Fields
    const hash: string
    /** The scratch property "_idx_". */
    var idx: Option<nat>

    constructor (f: Fields, h: string)
      ensures fields == Normalize(f) && hash == h && idx == None
    {
      fields := Normalize(f);
      hash := h;
      idx := None;
    }
  }

  class Event {
    const base: Base
    const time: int

    constructor (b: Base, t: int)
      ensures base == b && time == t
    {
      base, time := b, t;
    }
  }

  datatype Stamp = Stamp(delta: int, index: nat)

  /** The stored form: "eb", "h", "tb" and "ts". */
  datatype Record = Record(eventBase: Fields, hash: string, timebase: int, timestamps: seq<Stamp>)

  // ----- the stored form as a function of the list -----

  /** What the codec sees of an event: whose base it is, and the values stored. */
  datatype Snap = Snap(base: Base, fields: Fields, hash: string, time: int)

  /** The bases of a list in order of first use. */
  function Bases(snaps: seq<Snap>): (bases: seq<Base>)
    ensures forall i :: 0 <= i < |snaps| ==> snaps[i].base in bases
    decreases |snaps|
  {
    if snaps == [] then []
    else
      var front, b := Bases(snaps[..|snaps| - 1]), snaps[|snaps| - 1].base;
      if b in front then front else front + [b]
  }

  function Position(bases: seq<Base>, b: Base): (k: nat)
    requires b in bases
    ensures k < |bases| && bases[k] == b
    ensures forall i :: 0 <= i < k ==> bases[i] != b
  {
    if bases[0] == b then 0 else 1 + Position(bases[1..], b)
  }

  /** Encoding a list and one more event. */
  function Extend(records: seq<Record>, k: nat, s: Snap, n: nat): seq<Record>
    requires k <= |records|
  {
    if k < |records|
    then records[k := records[k].(timestamps := records[k].timestamps + [Stamp(s.time - records[k].timebase, n)])]
    else records + [Record(s.fields, s.hash, s.time, [Stamp(0, n)])]
  }

  function Encode(snaps: seq<Snap>): (records: seq<Record>)
    ensures |records| == |Bases(snaps)|
    decreases |snaps|
  {
    if snaps == [] then []
    else
      var front, s := snaps[..|snaps| - 1], snaps[|snaps| - 1];
      var bases := Bases(front);
      Extend(Encode(front), if s.base in bases then Position(bases, s.base) else |bases|, s, |front|)
  }

  // ----- reading it back -----

  /** A restored event: the record its base came from, the base's values, and its time. */
  datatype Restored = Restored(record: nat, fields: Fields, hash: string, time: int)

  function DecodeStamps(k: nat, r: Record, n: nat): map<nat, Restored>
    requires n <= |r.timestamps|
    decreases n
  {
    if n == 0 then map[]
    else
      var s := r.timestamps[n - 1];
      DecodeStamps(k, r, n - 1)[s.index := Restored(k, Normalize(r.eventBase), r.hash, r.timebase + s.delta)]
  }

  function Decode(records: seq<Record>): map<nat, Restored>
    decreases |records|
  {
    if records == [] then map[]
    else
      var k := |records| - 1;
      Decode(records[..k]) + DecodeStamps(k, records[k], |records[k].timestamps|)
  }

  // ----- the round trip -----

  ghost predicate Normal(snaps: seq<Snap>) {
    forall i :: 0 <= i < |snaps| ==> Normalize(snaps[i].fields) == snaps[i].fields
  }

  /** Events with the same base see the same values. */
  ghost predicate Coherent(snaps: seq<Snap>) {
    forall i, j :: 0 <= i < |snaps| && 0 <= j < |snaps| && snaps[i].base == snaps[j].base ==>
      snaps[i].fields == snaps[j].fields && snaps[i].hash == snaps[j].hash
  }

  lemma {:induction false} StampsPrefix(k: nat, r: Record, s: Stamp, n: nat)
    requires n <= |r.timestamps|
    ensures DecodeStamps(k, r.(timestamps := r.timestamps + [s]), n) == DecodeStamps(k, r, n)
    decreases n
  {
    if n > 0 { StampsPrefix(k, r, s, n - 1); }
  }

  /** Appending a stamp with a new index to any record adds one entry to what is read back. */
  lemma {:induction false} AppendedStamp(records: seq<Record>, k: nat, s: Stamp)
    requires k < |records| && s.index !in Decode(records)
    ensures var r := records[k];
            Decode(records[k := r.(timestamps := r.timestamps + [s])]) ==
            Decode(records)[s.index := Restored(k, Normalize(r.eventBase), r.hash, r.timebase + s.delta)]
    decreases |records|
  {
    var n, r := |records| - 1, records[k];
    var r' := r.(timestamps := r.timestamps + [s]);
    var records' := records[k := r'];
    hide Normalize;
    if k == n {
      assert records'[..n] == records[..n];
      StampsPrefix(k, r, s, |r.timestamps|);
      assert r'.timestamps[|r.timestamps|] == s;
      var before := DecodeStamps(k, r, |r.timestamps|);
      var one := Restored(k, Normalize(r.eventBase), r.hash, r.timebase + s.delta);
      hide DecodeStamps;
      UpdateRight(Decode(records[..n]), before, s.index, one);
    } else {
      assert records'[..n] == records[..n][k := r'];
      hide DecodeStamps;
      AppendedStamp(records[..n], k, s);
      UpdateLeft(Decode(records[..n]), DecodeStamps(n, records[n], |records[n].timestamps|), s.index,
                 Restored(k, Normalize(r.eventBase), r.hash, r.timebase + s.delta));
    }
  }

  lemma UpdateRight<K, V>(a: map<K, V>, b: map<K, V>, k: K, v: V)
    ensures a + b[k := v] == (a + b)[k := v]
  {
  }

  lemma UpdateLeft<K, V>(a: map<K, V>, b: map<K, V>, k: K, v: V)
    requires k !in b
    ensures a[k := v] + b == (a + b)[k := v]
  {
  }

  lemma {:induction false} DecodeOfAppended(records: seq<Record>, r: Record)
    ensures Decode(records + [r]) == Decode(records) + DecodeStamps(|records|, r, |r.timestamps|)
  {
    assert (records + [r])[..|records|] == records;
  }

  lemma {:induction false} PositionIsStable(front: seq<Base>, b: Base, c: Base)
    requires b in front
    ensures Position(front + [c], b) == Position(front, b)
  {
    var p := Position(front, b);
    var q := Position(front + [c], b);
    assert (front + [c])[p] == b;
    assert forall i :: 0 <= i < p ==> (front + [c])[i] == front[i];
  }

  /** The record of a base holds that base's values. */
  lemma {:induction false} RecordHolds(snaps: seq<Snap>, i: nat)
    requires Coherent(snaps) && i < |snaps|
    ensures var k := Position(Bases(snaps), snaps[i].base);
            Encode(snaps)[k].eventBase == snaps[i].fields && Encode(snaps)[k].hash == snaps[i].hash
    decreases |snaps|
  {
    hide Encode, Bases, Position;
    BasesStep(snaps);
    var n := |snaps| - 1;
    var front, s := snaps[..n], snaps[n];
    var bases := Bases(front);
    assert Coherent(front);
    if s.base in bases {
      // the record was there before, and its values are those of an earlier event of the base
      var j: nat := if i < n then i else FirstUse(front, s.base);
      assert snaps[j] == front[j];
      RecordHolds(front, j);
    } else if i < n {
      assert snaps[i] == front[i];
      RecordHolds(front, i);
      PositionIsStable(bases, snaps[i].base, s.base);
    } else {
      NewPosition(bases, s.base);
    }
  }

  /** Some event that uses the base. */
  function FirstUse(snaps: seq<Snap>, b: Base): (j: nat)
    requires b in Bases(snaps)
    ensures j < |snaps| && snaps[j].base == b
    decreases |snaps|
  {
    var n := |snaps| - 1;
    if snaps[n].base == b then n else FirstUse(snaps[..n], b)
  }

  lemma NewPosition(bases: seq<Base>, b: Base)
    requires b !in bases
    ensures Position(bases + [b], b) == |bases|
  {
    assert (bases + [b])[|bases|] == b;
  }

  /** The list whose events hold these values, at the same places, with as many bases shared. */
  ghost predicate IsRestored(m: map<nat, Restored>, snaps: seq<Snap>) {
    && (forall i: nat :: i in m <==> i < |snaps|)
    && forall i: nat :: i < |snaps| ==>
         m[i] == Restored(Position(Bases(snaps), snaps[i].base), snaps[i].fields, snaps[i].hash, snaps[i].time)
  }

  /** Reading back a stored list gives every event its base's values and its own time at its old place,
      and two events the same base exactly when they had the same base. */
  lemma {:induction false} RoundTrip(snaps: seq<Snap>)
    requires Normal(snaps) && Coherent(snaps)
    ensures IsRestored(Decode(Encode(snaps)), snaps)
    decreases |snaps|
  {
    hide *;
    if snaps == [] {
      NothingRestored();
    } else {
      var n := |snaps| - 1;
      Initial(snaps);
      RoundTrip(snaps[..n]);
      if snaps[n].base in Bases(snaps[..n]) {
        RoundTripOldBase(snaps, n);
      } else {
        RoundTripNewBase(snaps, n);
      }
    }
  }

  lemma NothingRestored()
    ensures IsRestored(Decode(Encode([])), [])
  {
  }

  lemma Initial(snaps: seq<Snap>)
    requires Normal(snaps) && Coherent(snaps) && snaps != []
    ensures Normal(snaps[..|snaps| - 1]) && Coherent(snaps[..|snaps| - 1])
  {
  }

  lemma OneMoreRestored(m: map<nat, Restored>, snaps: seq<Snap>, n: nat)
    requires n == |snaps| - 1 && IsRestored(m, snaps[..n])
    requires forall i: nat :: i < n ==> KeepsRecord(snaps, n, i)
    ensures var s := snaps[n];
            IsRestored(m[n := Restored(Position(Bases(snaps), s.base), s.fields, s.hash, s.time)], snaps)
  {
    hide Bases, Position;
    var s := snaps[n];
    var m' := m[n := Restored(Position(Bases(snaps), s.base), s.fields, s.hash, s.time)];
    forall i: nat | i < |snaps|
      ensures m'[i] == Restored(Position(Bases(snaps), snaps[i].base), snaps[i].fields, snaps[i].hash, snaps[i].time)
    {
      if i < n {
        assert KeepsRecord(snaps, n, i);
        assert snaps[..n][i] == snaps[i];
      }
    }
  }

  lemma NotYetRestored(m: map<nat, Restored>, front: seq<Snap>)
    requires IsRestored(m, front)
    ensures |front| !in m
  {
  }

  lemma SameValues(snaps: seq<Snap>, j: nat, n: nat)
    requires Normal(snaps) && Coherent(snaps) && j < n < |snaps| && snaps[j].base == snaps[n].base
    ensures snaps[..n][j] == snaps[j]
    ensures snaps[j].fields == snaps[n].fields == Normalize(snaps[n].fields) && snaps[j].hash == snaps[n].hash
  {
  }

  /** The record an earlier event belongs to, before and after one more event. */
  ghost predicate KeepsRecord(snaps: seq<Snap>, n: nat, i: nat)
    requires i < n <= |snaps|
  {
    assert snaps[..n][i] == snaps[i];
    Position(Bases(snaps), snaps[i].base) == Position(Bases(snaps[..n]), snaps[i].base)
  }

  lemma PositionIsStableAt(snaps: seq<Snap>, n: nat, i: nat)
    requires i < n < |snaps| && Bases(snaps) == Bases(snaps[..n]) + [snaps[n].base]
    ensures KeepsRecord(snaps, n, i)
  {
    hide Bases, Position;
    assert snaps[i] == snaps[..n][i];
    PositionIsStable(Bases(snaps[..n]), snaps[i].base, snaps[n].base);
  }

  lemma {:induction false} RoundTripOldBase(snaps: seq<Snap>, n: nat)
    requires Normal(snaps) && Coherent(snaps) && n == |snaps| - 1
    requires IsRestored(Decode(Encode(snaps[..n])), snaps[..n])
    requires snaps[n].base in Bases(snaps[..n])
    ensures IsRestored(Decode(Encode(snaps)), snaps)
  {
    hide Encode, Decode, DecodeStamps, Bases, Position, Normalize, Extend, IsRestored, Coherent, Normal;
    BasesStep(snaps);
    var front, s := snaps[..n], snaps[n];
    var records, k := Encode(front), Position(Bases(front), s.base);
    NotYetRestored(Decode(records), front);
    var j := FirstUse(front, s.base);
    Initial(snaps);
    RecordHolds(front, j);
    SameValues(snaps, j, n);
    AppendedStamp(records, k, Stamp(s.time - records[k].timebase, n));
    OneMoreRestored(Decode(records), snaps, n);
    assert Decode(Encode(snaps)) == Decode(records)[n := Restored(k, s.fields, s.hash, s.time)];
  }

  lemma {:induction false} RoundTripNewBase(snaps: seq<Snap>, n: nat)
    requires Normal(snaps) && Coherent(snaps) && n == |snaps| - 1
    requires IsRestored(Decode(Encode(snaps[..n])), snaps[..n])
    requires snaps[n].base !in Bases(snaps[..n])
    ensures IsRestored(Decode(Encode(snaps)), snaps)
  {
    hide Encode, Decode, DecodeStamps, Bases, Position, Normalize, Extend, IsRestored, Coherent;
    BasesStep(snaps);
    var front, s := snaps[..n], snaps[n];
    var records, bases := Encode(front), Bases(front);
    DecodeOfAppended(records, Record(s.fields, s.hash, s.time, [Stamp(0, n)]));
    DecodeOfSingle(|records|, s, n);
    NewPosition(bases, s.base);
    forall i: nat | i < n ensures KeepsRecord(snaps, n, i) {
      PositionIsStableAt(snaps, n, i);
    }
    OneMoreRestored(Decode(records), snaps, n);
    assert Decode(Encode(snaps)) == Decode(records)[n := Restored(|bases|, s.fields, s.hash, s.time)];
  }

  lemma DecodeNothing()
    ensures Decode([]) == map[]
  {
  }

  lemma DecodeOfSingle(k: nat, s: Snap, n: nat)
    requires Normalize(s.fields) == s.fields
    ensures DecodeStamps(k, Record(s.fields, s.hash, s.time, [Stamp(0, n)]), 1)
            == map[n := Restored(k, s.fields, s.hash, s.time)]
  {
  }

  /** One more event: its base is found, or becomes the next one. */
  lemma BasesStep(snaps: seq<Snap>)
    ensures snaps == [] ==> Encode(snaps) == []
    ensures snaps != [] ==>
              var n := |snaps| - 1;
              var front, s := snaps[..n], snaps[n];
              var bases := Bases(front);
              && (s.base in bases ==>
                    && Bases(snaps) == bases
                    && var k := Position(bases, s.base);
                       var r := Encode(front)[k];
                       Encode(snaps) ==
                       Encode(front)[k := r.(timestamps := r.timestamps + [Stamp(s.time - r.timebase, n)])])
              && (s.base !in bases ==>
                    && Bases(snaps) == bases + [s.base]
                    && Encode(snaps) == Encode(front) + [Record(s.fields, s.hash, s.time, [Stamp(0, n)])])
  {
  }

  lemma SharingIsKept(snaps: seq<Snap>, i: nat, j: nat)
    requires Normal(snaps) && Coherent(snaps) && i < |snaps| && j < |snaps|
    ensures i in Decode(Encode(snaps)) && j in Decode(Encode(snaps))
    ensures Decode(Encode(snaps))[i].record == Decode(Encode(snaps))[j].record <==> snaps[i].base == snaps[j].base
  {
    hide *;
    RoundTrip(snaps);
    BothRestored(Decode(Encode(snaps)), snaps, i, j);
  }

  lemma BothRestored(m: map<nat, Restored>, snaps: seq<Snap>, i: nat, j: nat)
    requires IsRestored(m, snaps) && i < |snaps| && j < |snaps|
    ensures i in m && j in m && (m[i].record == m[j].record <==> snaps[i].base == snaps[j].base)
  {
    var bases := Bases(snaps);
    assert bases[Position(bases, snaps[i].base)] == snaps[i].base;
    assert bases[Position(bases, snaps[j].base)] == snaps[j].base;
  }

  // ----- the code -----

  function Snaps(events: seq<Event>): (s: seq<Snap>)
    ensures |s| == |events|
  {
    seq(|events|, i requires 0 <= i < |events| =>
      Snap(events[i].base, events[i].base.fields, events[i].base.hash, events[i].time))
  }

  function BaseSet(events: seq<Event>): set<Base> {
    set i | 0 <= i < |events| :: events[i].base
  }

  lemma SnapsAreCoherent(events: seq<Event>)
    requires forall i :: 0 <= i < |events| ==> Normalize(events[i].base.fields) == events[i].base.fields
    ensures Normal(Snaps(events)) && Coherent(Snaps(events))
  {
  }

  /** The scratch index of a base while the first n events are stored. */
  function ScratchOf(snaps: seq<Snap>, b: Base): Option<nat> {
    if b in Bases(snaps) then Some(Position(Bases(snaps), b)) else None
  }

  lemma NextScratch(snaps: seq<Snap>, n: nat, b: Base)
    requires n < |snaps|
    ensures ScratchOf(snaps[..n + 1], b) ==
            if b == snaps[n].base && snaps[n].base !in Bases(snaps[..n]) then Some(|Bases(snaps[..n])|)
            else ScratchOf(snaps[..n], b)
  {
    hide Position, Bases;
    assert snaps[..n + 1][..n] == snaps[..n];
    BasesStep(snaps[..n + 1]);
    var bases := Bases(snaps[..n]);
    if snaps[n].base !in bases {
      NewPosition(bases, snaps[n].base);
      if b in bases { PositionIsStable(bases, b, snaps[n].base); }
    }
  }

  /** `qt`: the scratch index leads from a base to its record, and is deleted again at the end. */
  method Serialize(events: seq<Event>) returns (n: seq<Record>)
    requires forall i :: 0 <= i < |events| ==> events[i].base.idx == None
    modifies BaseSet(events)`idx
    ensures n == Encode(Snaps(events))
    ensures forall i :: 0 <= i < |events| ==> events[i].base.idx == None
  {
    hide Encode, Bases, Position;
    ghost var snaps := Snaps(events);
    n := [];
    var a := 0;
    assert snaps[..0] == [];
    BasesStep([]);
    NoBases();
    while a < |events|
      invariant 0 <= a <= |events|
      invariant n == Encode(snaps[..a])
      invariant forall i :: 0 <= i < |events| ==> events[i].base.idx == ScratchOf(snaps[..a], events[i].base)
    {
      var u := events[a];
      var c := u.base;
      assert snaps[..a + 1][..a] == snaps[..a];
      BasesStep(snaps[..a + 1]);
      forall b: Base ensures ScratchOf(snaps[..a + 1], b) ==
                             if b == c && c !in Bases(snaps[..a]) then Some(|Bases(snaps[..a])|)
                             else ScratchOf(snaps[..a], b)
      {
        NextScratch(snaps, a, b);
      }
      if c.idx.Some? {
        var o := n[c.idx.value];
        var l := u.time - o.timebase;
        n := n[c.idx.value := o.(timestamps := o.timestamps + [Stamp(l, a)])];
      } else {
        var o := Record(c.fields, c.hash, u.time, [Stamp(0, a)]);
        n := n + [o];
        c.idx := Some(|n| - 1);
      }
      a := a + 1;
    }
    assert snaps[..a] == snaps;
    a := 0;
    while a < |events|
      invariant 0 <= a <= |events|
      invariant forall i :: 0 <= i < a ==> events[i].base.idx == None
    {
      events[a].base.idx := None;
      a := a + 1;
    }
  }

  lemma NoBases()
    ensures Bases([]) == [] && Encode([]) == []
  {
  }

  ghost predicate DistinctBases(bases: seq<Base>) {
    forall i, j :: 0 <= i < j < |bases| ==> bases[i] != bases[j]
  }

  /** What the objects built so far stand for. */
  ghost predicate Represents(i: map<nat, Event>, bases: seq<Base>, m: map<nat, Restored>) {
    && i.Keys == m.Keys
    && forall d :: d in m ==>
         && m[d].record < |bases| && i[d].base == bases[m[d].record] && i[d].time == m[d].time
         && i[d].base.fields == m[d].fields && i[d].base.hash == m[d].hash
  }

  /** `Bt`: one fresh base for each record, one event for each stamp, at the index of the stamp. */
  method Deserialize(records: seq<Record>) returns (i: map<nat, Event>, ghost bases: seq<Base>)
    ensures |bases| == |records| && DistinctBases(bases)
    ensures forall k :: 0 <= k < |bases| ==> fresh(bases[k]) && bases[k].idx == None
    ensures Represents(i, bases, Decode(records))
  {
    hide Decode, DecodeStamps;
    i := map[];
    bases := [];
    var n := 0;
    assert records[..0] == [];
    DecodeNothing();
    while n < |records|
      invariant 0 <= n <= |records| && |bases| == n && DistinctBases(bases)
      invariant forall k :: 0 <= k < |bases| ==> fresh(bases[k]) && bases[k].idx == None
      invariant Represents(i, bases, Decode(records[..n]))
    {
      var r := records[n];
      var a := new Base(r.eventBase, r.hash);
      assert records[..n + 1] == records[..n] + [r];
      DecodeOfAppended(records[..n], r);
      bases := bases + [a];
      i := ReadStamps(i, a, r, Decode(records[..n]), bases);
      n := n + 1;
    }
    assert records[..n] == records;
  }

  lemma NoStamps(k: nat, r: Record, m: map<nat, Restored>)
    ensures m + DecodeStamps(k, r, 0) == m
  {
  }

  lemma NextStamp(k: nat, r: Record, u: nat, m: map<nat, Restored>)
    requires u < |r.timestamps|
    ensures var s := r.timestamps[u];
            m + DecodeStamps(k, r, u + 1) ==
            (m + DecodeStamps(k, r, u))[s.index := Restored(k, Normalize(r.eventBase), r.hash, r.timebase + s.delta)]
  {
  }

  lemma MoreBases(i: map<nat, Event>, bases: seq<Base>, m: map<nat, Restored>)
    requires bases != [] && Represents(i, bases[..|bases| - 1], m)
    ensures Represents(i, bases, m)
  {
  }

  lemma OneMoreRepresented(i: map<nat, Event>, bases: seq<Base>, m: map<nat, Restored>, d: nat, e: Event, v: Restored)
    requires Represents(i, bases, m)
    requires v.record < |bases| && e.base == bases[v.record] && e.time == v.time
    requires e.base.fields == v.fields && e.base.hash == v.hash
    ensures Represents(i[d := e], bases, m[d := v])
  {
  }

  /** The inner loop of `Bt`. */
  method ReadStamps(before: map<nat, Event>, a: Base, r: Record, ghost m: map<nat, Restored>, ghost bases: seq<Base>)
    returns (i: map<nat, Event>)
    requires bases != [] && a == bases[|bases| - 1] && a.fields == Normalize(r.eventBase) && a.hash == r.hash
    requires Represents(before, bases[..|bases| - 1], m)
    ensures Represents(i, bases, m + DecodeStamps(|bases| - 1, r, |r.timestamps|))
  {
    hide DecodeStamps, Represents;
    i := before;
    var u := 0;
    ghost var k := |bases| - 1;
    NoStamps(k, r, m);
    MoreBases(before, bases, m);
    while u < |r.timestamps|
      invariant 0 <= u <= |r.timestamps|
      invariant Represents(i, bases, m + DecodeStamps(k, r, u))
    {
      var c := r.timestamps[u];
      var l := new Event(a, r.timebase + c.delta);
      NextStamp(k, r, u, m);
      OneMoreRepresented(i, bases, m + DecodeStamps(k, r, u), c.index, l,
                         Restored(k, Normalize(r.eventBase), r.hash, r.timebase + c.delta));
      i := i[c.index := l];
      u := u + 1;
    }
  }

  /** Storing a list and reading it back: every event is at its place with its base's values and its own
      time, bases are shared as before, and no base keeps a scratch index. */
  method StoreAndReload(events: seq<Event>) returns (restored: map<nat, Event>)
    requires forall i :: 0 <= i < |events| ==>
               events[i].base.idx == None && Normalize(events[i].base.fields) == events[i].base.fields
    modifies BaseSet(events)`idx
    ensures forall i: nat :: i in restored <==> i < |events|
    ensures forall i: nat :: i < |events| ==>
              && restored[i].base.fields == events[i].base.fields
              && restored[i].base.hash == events[i].base.hash
              && restored[i].time == events[i].time
    ensures forall i: nat, j: nat :: i < |events| && j < |events| ==>
              (restored[i].base == restored[j].base <==> events[i].base == events[j].base)
    ensures forall i :: 0 <= i < |events| ==> events[i].base.idx == None
  {
    hide Encode, Decode, Bases, Position, Normalize;
    var records := Serialize(events);
    ghost var bases;
    restored, bases := Deserialize(records);
    ghost var snaps := Snaps(events);
    SnapsAreCoherent(events);
    RoundTrip(snaps);
    forall i: nat, j: nat | i < |events| && j < |events|
      ensures restored[i].base == restored[j].base <==> events[i].base == events[j].base
    {
      SharingIsKept(snaps, i, j);
    }
  }
}
