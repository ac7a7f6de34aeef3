/** The segments of a text between the points where a markup starts or ends. */
module Markup {
  import opened Text
  import Sorting

  datatype Anchor = NoAnchor | LinkAnchor | UserAnchor | OtherAnchor

  datatype Kind =
    | Comment | Highlight | FullHighlight(highlight: int) | HighlightSegment(ids: seq<int>) | Quote | Query | Code
    | A(anchor: Anchor, href: string, userId: string) | Strong | Em | Warning

  /** A markup as it is stored; a field may be missing. */
  datatype Stored = Stored(kind: Option<Kind>, start: Option<int>, end: Option<int>)

  /** A highlight of a reader.  `ends` tells whether it ends in this paragraph. */
  datatype Reader = Reader(id: int, startOffset: Option<int>, endOffset: Option<int>, ends: bool)

  /** A markup with all its fields; `no` tells equal markups apart. */
  datatype Range = Range(kind: Kind, start: int, end: int, no: nat)

  /** What covers a segment: a markup, the highlights merged into one object made for the segment that starts
      at `start`, or the drop cap. */
  datatype Item = Own(m: Range) | Merged(start: int, ids: seq<int>) | DropCap(end: int)

  datatype Segment = Segment(point: int, items: seq<Item>)

  // ----- which ranges there are -----

  predicate Complete(m: Stored) { m.kind.Some? && m.start.Some? && m.end.Some? }

  function OrZero(n: Option<int>): int { if n.Some? then n.value else 0 }

  /** The highlight as a markup of a paragraph of n characters; an end of 0 counts as missing. */
  function OfReader(r: Reader, n: nat): Stored {
    var end := if r.ends && OrZero(r.endOffset) != 0 then r.endOffset.value else n - 1;
    Stored(Some(FullHighlight(r.id)), Some(OrZero(r.startOffset)), Some(end))
  }

  function OfReaders(rs: seq<Reader>, n: nat): seq<Stored> {
    if rs == [] then [] else OfReaders(rs[..|rs| - 1], n) + [OfReader(rs[|rs| - 1], n)]
  }

  /** `concat` and `filter`. */
  function Ranges(ms: seq<Stored>): seq<Range> {
    if ms == [] then []
    else
      var init, m := Ranges(ms[..|ms| - 1]), ms[|ms| - 1];
      if Complete(m) then init + [Range(m.kind.value, m.start.value, m.end.value, |ms| - 1)] else init
  }

  // ----- the order of markups -----

  function Rank(k: Kind): nat {
    match k
    case Comment => 1
    case Highlight => 2
    case FullHighlight(_) => 3
    case HighlightSegment(_) => 4
    case Quote => 5
    case Query => 6
    case Code => 7
    case A(_, _, _) => 8
    case Strong => 9
    case Em => 10
    case Warning => 11
  }

  /** `le`: the order by type, start, end and the text of the whole object, which `text` compares. */
  function Compare(text: (Range, Range) -> int, a: Range, b: Range): int {
    if Rank(a.kind) != Rank(b.kind) then Rank(a.kind) - Rank(b.kind)
    else if a.start != b.start then a.start - b.start
    else if a.end != b.end then a.end - b.end
    else text(a, b)
  }

  function RangeOrder(text: (Range, Range) -> int): (Range, Range) -> bool { (a, b) => Compare(text, a, b) < 0 }

  function Sort(text: (Range, Range) -> int, ms: seq<Range>): seq<Range> { Sorting.Sort(RangeOrder(text), ms) }

  // ----- the points -----

  /** A set keeps the order of insertion. */
  function AddPoint(l: seq<int>, x: int): seq<int> { if x in l then l else l + [x] }

  function AddPoints(l: seq<int>, ms: seq<Range>): seq<int> {
    if ms == [] then l
    else AddPoint(AddPoint(AddPoints(l, ms[..|ms| - 1]), ms[|ms| - 1].start), ms[|ms| - 1].end)
  }

  const LESS: (int, int) -> bool := (a, b) => a < b

  function SortPoints(l: seq<int>): seq<int> { Sorting.Sort(LESS, l) }

  // ----- what covers a point -----

  predicate Covers(m: Range, x: int) { m.start <= x < m.end }

  function Covering(ms: seq<Range>, x: int): seq<Range> {
    if ms == [] then []
    else Covering(ms[..|ms| - 1], x) + if Covers(ms[|ms| - 1], x) then [ms[|ms| - 1]] else []
  }

  /** The highlights among the markups. */
  function Ids(ms: seq<Range>): seq<int> {
    if ms == [] then []
    else
      var m := ms[|ms| - 1];
      Ids(ms[..|ms| - 1]) + if m.kind.FullHighlight? then [m.kind.highlight] else []
  }

  /** `reduce`: the highlights become one object, at the place of the first of them. */
  function Merge(ms: seq<Range>, x: int): seq<Item> {
    if ms == [] then []
    else
      var init, m := ms[..|ms| - 1], ms[|ms| - 1];
      if !m.kind.FullHighlight? then Merge(init, x) + [Own(m)]
      else if Ids(init) == [] then Merge(init, x) + [Merged(x, [m.kind.highlight])]
      else Extend(Merge(init, x), m.kind.highlight)
  }

  /** The merged object takes one more highlight. */
  function Extend(items: seq<Item>, id: int): seq<Item> {
    if items == [] then []
    else
      var last := items[|items| - 1];
      if last.Merged? then items[..|items| - 1] + [last.(ids := last.ids + [id])]
      else Extend(items[..|items| - 1], id) + [last]
  }

  function Cap(drop: nat, x: int): seq<Item> { if drop > 0 && 0 <= x < drop then [DropCap(drop)] else [] }

  function SegmentAt(sorted: seq<Range>, drop: nat, x: int): Segment {
    Segment(x, Cap(drop, x) + Merge(Covering(sorted, x), x))
  }

  function SegmentsAt(sorted: seq<Range>, drop: nat, points: seq<int>): seq<Segment> {
    if points == [] then []
    else SegmentsAt(sorted, drop, points[..|points| - 1]) + [SegmentAt(sorted, drop, points[|points| - 1])]
  }

  /** With a drop cap, only the drop cap covers the first segment. */
  function CapFirst(segments: seq<Segment>): seq<Segment> {
    if segments != [] && segments[0].items != [] && segments[0].items[0].DropCap?
    then [segments[0].(items := [segments[0].items[0]])] + segments[1..] else segments
  }

  /** The points of a text of n characters; `drop` is the length of its drop cap, 0 for none. */
  function Points(n: nat, ms: seq<Range>, drop: nat): seq<int> {
    var l := AddPoints(AddPoint([0], n), ms);
    SortPoints(if drop > 0 then AddPoint(l, drop) else l)
  }

  /** `pe` */
  function Segments(text: (Range, Range) -> int, n: nat, markups: seq<Stored>, readers: seq<Reader>, drop: nat)
    : seq<Segment>
  {
    if n == 0 then []
    else
      var ms := Ranges(markups + OfReaders(readers, n));
      CapFirst(SegmentsAt(Sort(text, ms), drop, Points(n, ms, drop)))
  }

  // ----- laws of the order -----

  /** The comparison of whole objects is a total preorder. */
  ghost predicate Total(text: (Range, Range) -> int) {
    && (forall a, b :: text(a, b) < 0 <==> text(b, a) > 0)
    && (forall a, b, c :: text(a, b) <= 0 && text(b, c) <= 0 ==> text(a, c) <= 0)
  }

  lemma CompareTransitive(text: (Range, Range) -> int, a: Range, b: Range, c: Range)
    requires Total(text) && Compare(text, a, b) <= 0 && Compare(text, b, c) <= 0
    ensures Compare(text, a, c) <= 0
  {
  }

  ghost predicate Sorted(text: (Range, Range) -> int, ms: seq<Range>) {
    forall i, j :: 0 <= i < j < |ms| ==> Compare(text, ms[i], ms[j]) <= 0
  }

  predicate Least(text: (Range, Range) -> int, m: Range, ms: seq<Range>) {
    forall j :: 0 <= j < |ms| ==> Compare(text, m, ms[j]) <= 0
  }

  lemma SortedCons(text: (Range, Range) -> int, m: Range, ms: seq<Range>)
    requires Sorted(text, ms) && Least(text, m, ms)
    ensures Sorted(text, [m] + ms)
  {
    hide Compare;
  }

  lemma LeastOfSorted(text: (Range, Range) -> int, m: Range, ms: seq<Range>)
    requires Total(text) && Sorted(text, ms) && ms != [] && Compare(text, m, ms[0]) <= 0
    ensures Least(text, m, ms)
  {
    hide Compare;
    forall j | 0 < j < |ms| ensures Compare(text, m, ms[j]) <= 0 {
      CompareTransitive(text, m, ms[0], ms[j]);
    }
  }

  lemma CompareBack(text: (Range, Range) -> int, a: Range, b: Range)
    requires Total(text)
    ensures Compare(text, a, b) >= 0 ==> Compare(text, b, a) <= 0
  {
  }

  lemma {:induction false} InsertSorts(text: (Range, Range) -> int, m: Range, sorted: seq<Range>)
    requires Total(text) && Sorted(text, sorted)
    ensures Sorted(text, Sorting.Insert(RangeOrder(text), m, sorted))
  {
    hide Compare;
    if sorted != [] {
      var head, rest := sorted[0], sorted[1..];
      assert sorted == [head] + rest;
      CompareBack(text, head, m);
      if Compare(text, head, m) < 0 {
        InsertSorts(text, m, rest);
        Sorting.InsertKeeps(RangeOrder(text), m, rest);
        var r := Sorting.Insert(RangeOrder(text), m, rest);
        forall j | 0 <= j < |r| ensures Compare(text, head, r[j]) <= 0 {
          assert r[j] in multiset(r);
          assert r[j] == m || r[j] in rest;
        }
        SortedCons(text, head, r);
      } else {
        LeastOfSorted(text, m, sorted);
        SortedCons(text, m, sorted);
      }
    }
  }

  /** The markups come out ordered by type, start, end and text, none lost or doubled. */
  lemma {:induction false} SortSorts(text: (Range, Range) -> int, ms: seq<Range>)
    requires Total(text)
    ensures Sorted(text, Sort(text, ms)) && multiset(Sort(text, ms)) == multiset(ms)
  {
    if ms != [] {
      SortSorts(text, ms[1..]);
      InsertSorts(text, ms[0], Sort(text, ms[1..]));
    }
    SortKeeps(text, ms);
  }

  // ----- laws of the points -----

  predicate Rising(points: seq<int>) { forall i, j :: 0 <= i < j < |points| ==> points[i] < points[j] }

  lemma {:induction false} InsertPointRises(x: int, sorted: seq<int>)
    requires Rising(sorted) && x !in sorted
    ensures Rising(Sorting.Insert(LESS, x, sorted))
    ensures forall y :: y in Sorting.Insert(LESS, x, sorted) <==> y == x || y in sorted
  {
    if sorted != [] {
      assert sorted == [sorted[0]] + sorted[1..];
      if sorted[0] < x {
        InsertPointRises(x, sorted[1..]);
        var rest := Sorting.Insert(LESS, x, sorted[1..]);
        forall j | 0 <= j < |rest| ensures sorted[0] < rest[j] {
          assert rest[j] in rest;
        }
      }
    }
  }

  predicate Different(l: seq<int>) { forall i, j :: 0 <= i < j < |l| ==> l[i] != l[j] }

  lemma {:induction false} SortPointsRises(l: seq<int>)
    requires Different(l)
    ensures Rising(SortPoints(l))
    ensures forall y :: y in SortPoints(l) <==> y in l
  {
    if l != [] {
      SortPointsRises(l[1..]);
      assert l == [l[0]] + l[1..];
      assert l[0] !in l[1..];
      InsertPointRises(l[0], SortPoints(l[1..]));
    }
  }

  /** y is where one of the markups starts or ends. */
  predicate IsEnd(ms: seq<Range>, y: int) { exists m :: m in ms && (y == m.start || y == m.end) }

  lemma IsEndSnoc(ms: seq<Range>, m: Range, y: int)
    ensures IsEnd(ms + [m], y) <==> IsEnd(ms, y) || y == m.start || y == m.end
  {
    if IsEnd(ms, y) {
      var a :| a in ms && (y == a.start || y == a.end);
      assert a in ms + [m];
    }
    assert m in ms + [m];
  }

  lemma AddPointDiffers(l: seq<int>, x: int)
    requires Different(l)
    ensures Different(AddPoint(l, x)) && forall y :: y in AddPoint(l, x) <==> y in l || y == x
  {
  }

  lemma {:induction false} AddPointsDiffer(l: seq<int>, ms: seq<Range>)
    requires Different(l)
    ensures Different(AddPoints(l, ms))
    ensures forall y :: y in AddPoints(l, ms) <==> y in l || IsEnd(ms, y)
  {
    if ms != [] {
      hide IsEnd, Different, AddPoint;
      var init, m := ms[..|ms| - 1], ms[|ms| - 1];
      AddPointsDiffer(l, init);
      var before := AddPoints(l, init);
      AddPointDiffers(before, m.start);
      AddPointDiffers(AddPoint(before, m.start), m.end);
      assert ms == init + [m];
      forall y ensures y in AddPoints(l, ms) <==> y in l || IsEnd(ms, y) {
        IsEndSnoc(init, m, y);
      }
    } else {
      assert forall y :: !IsEnd([], y);
    }
  }

  /** The points rise, and are the ends of the text, of the markups and of the drop cap. */
  lemma PointsAre(n: nat, ms: seq<Range>, drop: nat)
    ensures Rising(Points(n, ms, drop))
    ensures forall y :: y in Points(n, ms, drop) <==>
              y == 0 || y == n || (drop > 0 && y == drop) || IsEnd(ms, y)
  {
    var l0 := AddPoint([0], n);
    AddPointsDiffer(l0, ms);
    var l := AddPoints(l0, ms);
    SortPointsRises(if drop > 0 then AddPoint(l, drop) else l);
  }

  // ----- laws of what covers a point -----

  lemma {:induction false} CoveringCount(ms: seq<Range>, x: int, m: Range)
    ensures multiset(Covering(ms, x))[m] == if Covers(m, x) then multiset(ms)[m] else 0
  {
    if ms != [] {
      CoveringCount(ms[..|ms| - 1], x, m);
      assert ms == ms[..|ms| - 1] + [ms[|ms| - 1]];
    }
  }

  predicate Among(points: seq<int>, ms: seq<Range>) {
    forall m :: m in ms ==> m.start in points && m.end in points
  }

  /** Between two neighbouring points, the same markups cover everything. */
  lemma {:induction false} CoveringConstant(points: seq<int>, ms: seq<Range>, n: nat, x: int)
    requires Rising(points) && Among(points, ms) && n + 1 < |points| && points[n] <= x < points[n + 1]
    ensures Covering(ms, x) == Covering(ms, points[n])
  {
    if ms != [] {
      var init, m := ms[..|ms| - 1], ms[|ms| - 1];
      assert ms == init + [m];
      CoveringConstant(points, init, n, x);
      var a :| 0 <= a < |points| && points[a] == m.start;
      var b :| 0 <= b < |points| && points[b] == m.end;
      assert m.start <= x <==> m.start <= points[n];
      assert m.end > x <==> m.end > points[n];
    }
  }

  lemma {:induction false} MergeOwns(ms: seq<Range>, x: int, m: Range)
    ensures multiset(Merge(ms, x))[Own(m)] == if m.kind.FullHighlight? then 0 else multiset(ms)[m]
  {
    if ms != [] {
      var init, last := ms[..|ms| - 1], ms[|ms| - 1];
      assert ms == init + [last];
      MergeOwns(init, x, m);
      ExtendOwns(Merge(init, x), if last.kind.FullHighlight? then last.kind.highlight else 0, m);
    }
  }

  lemma {:induction false} ExtendOwns(items: seq<Item>, id: int, m: Range)
    ensures multiset(Extend(items, id))[Own(m)] == multiset(items)[Own(m)]
  {
    if items != [] {
      var init, last := items[..|items| - 1], items[|items| - 1];
      assert items == init + [last];
      ExtendOwns(init, id, m);
    }
  }

  /** The merged objects among the items. */
  function Highlights(items: seq<Item>): (r: seq<Item>)
    ensures forall i :: 0 <= i < |r| ==> r[i].Merged?
  {
    if items == [] then []
    else
      var init, last := Highlights(items[..|items| - 1]), items[|items| - 1];
      if last.Merged? then init + [last] else init
  }

  lemma HighlightsSnoc(items: seq<Item>, last: Item)
    ensures Highlights(items + [last]) == Highlights(items) + if last.Merged? then [last] else []
  {
    assert (items + [last])[..|items|] == items;
    assert Highlights(items) + [] == Highlights(items);
  }

  lemma {:induction false} ExtendHighlights(items: seq<Item>, id: int)
    ensures var h, h' := Highlights(items), Highlights(Extend(items, id));
      if h == [] then h' == [] else h' == h[..|h| - 1] + [h[|h| - 1].(ids := h[|h| - 1].ids + [id])]
  {
    if items != [] {
      var init, last := items[..|items| - 1], items[|items| - 1];
      ExtendHighlights(init, id);
      var r := Extend(items, id);
      if last.Merged? {
        assert r[..|r| - 1] == init;
      } else {
        assert r[..|r| - 1] == Extend(init, id);
      }
    }
  }

  /** The highlights that cover a point are one item, which has the ids of all of them in their order. */
  lemma {:induction false} MergeHighlights(ms: seq<Range>, x: int)
    ensures Highlights(Merge(ms, x)) == if Ids(ms) == [] then [] else [Merged(x, Ids(ms))]
  {
    if ms != [] {
      var init, m := ms[..|ms| - 1], ms[|ms| - 1];
      MergeHighlights(init, x);
      var before := Merge(init, x);
      if !m.kind.FullHighlight? {
        assert Merge(ms, x) == before + [Own(m)];
        assert Ids(ms) == Ids(init) + [] == Ids(init);
        HighlightsSnoc(before, Own(m));
      } else if Ids(init) == [] {
        var one := Merged(x, [m.kind.highlight]);
        assert Merge(ms, x) == before + [one];
        assert Ids(ms) == [] + [m.kind.highlight] == [m.kind.highlight];
        hide Merge, Ids, Highlights;
        HighlightsSnoc(before, one);
      } else {
        assert Merge(ms, x) == Extend(before, m.kind.highlight);
        assert Ids(ms) == Ids(init) + [m.kind.highlight];
        hide Merge, Ids, Highlights;
        ExtendHighlights(before, m.kind.highlight);
      }
    }
  }

  /** No two markups are the same. */
  lemma {:induction false} RangesDiffer(ms: seq<Stored>, m: Range)
    ensures multiset(Ranges(ms))[m] <= 1
    ensures m in Ranges(ms) ==> m.no < |ms|
  {
    if ms != [] {
      RangesDiffer(ms[..|ms| - 1], m);
    }
  }

  // ----- the segments -----

  lemma {:induction false} SegmentsAtPoints(sorted: seq<Range>, drop: nat, points: seq<int>)
    ensures var s := SegmentsAt(sorted, drop, points);
      |s| == |points| && forall k :: 0 <= k < |points| ==> s[k] == SegmentAt(sorted, drop, points[k])
  {
    hide SegmentAt;
    if points != [] {
      var init := points[..|points| - 1];
      SegmentsAtPoints(sorted, drop, init);
      forall k | 0 <= k < |points| ensures SegmentsAt(sorted, drop, points)[k] == SegmentAt(sorted, drop, points[k]) {
        assert k < |init| ==> points[k] == init[k];
      }
    }
  }

  /** No offset is negative. */
  predicate NonNegative(markups: seq<Stored>, readers: seq<Reader>) {
    && (forall m :: m in markups ==> OrZero(m.start) >= 0 && OrZero(m.end) >= 0)
    && (forall r :: r in readers ==> OrZero(r.startOffset) >= 0 && OrZero(r.endOffset) >= 0)
  }

  lemma {:induction false} RangesNonNegative(ms: seq<Stored>)
    requires forall m :: m in ms ==> OrZero(m.start) >= 0 && OrZero(m.end) >= 0
    ensures forall m :: m in Ranges(ms) ==> m.start >= 0 && m.end >= 0
  {
    if ms != [] {
      var init, m := ms[..|ms| - 1], ms[|ms| - 1];
      assert ms == init + [m];
      RangesNonNegative(init);
    }
  }

  lemma {:induction false} ReadersNonNegative(rs: seq<Reader>, n: nat)
    requires n > 0 && forall r :: r in rs ==> OrZero(r.startOffset) >= 0 && OrZero(r.endOffset) >= 0
    ensures forall m :: m in OfReaders(rs, n) ==> OrZero(m.start) >= 0 && OrZero(m.end) >= 0
  {
    if rs != [] {
      var init, r := rs[..|rs| - 1], rs[|rs| - 1];
      assert rs == init + [r];
      ReadersNonNegative(init, n);
    }
  }

  /** All markups of a paragraph of n characters. */
  function AllRanges(n: nat, markups: seq<Stored>, readers: seq<Reader>): seq<Range> {
    Ranges(markups + OfReaders(readers, n))
  }

  lemma AllNonNegative(n: nat, markups: seq<Stored>, readers: seq<Reader>)
    requires n > 0 && NonNegative(markups, readers)
    ensures forall m :: m in AllRanges(n, markups, readers) ==> m.start >= 0 && m.end >= 0
  {
    ReadersNonNegative(readers, n);
    RangesNonNegative(markups + OfReaders(readers, n));
  }

  lemma PointsSpan(n: nat, ms: seq<Range>, drop: nat)
    requires n > 0 && forall m :: m in ms ==> m.start >= 0 && m.end >= 0
    ensures var points := Points(n, ms, drop);
      |points| > 1 && Rising(points) && points[0] == 0 && points[|points| - 1] >= n
  {
    PointsAre(n, ms, drop);
    hide Points;
    var points := Points(n, ms, drop);
    assert 0 in points && n in points;
    var a :| 0 <= a < |points| && points[a] == 0;
    var b :| 0 <= b < |points| && points[b] == n;
    assert points[0] in points;
  }

  lemma CapFirstPoints(s: seq<Segment>)
    ensures |CapFirst(s)| == |s| && forall k :: 0 <= k < |s| ==> CapFirst(s)[k].point == s[k].point
  {
  }

  /** The segments start at the points, in order, from 0 to the end of the text or beyond. */
  lemma SegmentPoints(text: (Range, Range) -> int, n: nat, markups: seq<Stored>, readers: seq<Reader>, drop: nat)
    requires n > 0 && NonNegative(markups, readers)
    ensures var s, points := Segments(text, n, markups, readers, drop), Points(n, AllRanges(n, markups, readers), drop);
      && |s| == |points| > 1 && Rising(points) && points[0] == 0 && points[|points| - 1] >= n
      && forall k :: 0 <= k < |s| ==> s[k].point == points[k]
  {
    var ms := AllRanges(n, markups, readers);
    var points := Points(n, ms, drop);
    AllNonNegative(n, markups, readers);
    PointsSpan(n, ms, drop);
    SegmentsAtPoints(Sort(text, ms), drop, points);
    CapFirstPoints(SegmentsAt(Sort(text, ms), drop, points));
    hide Points, SegmentsAt, CapFirst, Sort, Ranges, OfReaders, Rising, NonNegative;
  }

  lemma SortKeeps(text: (Range, Range) -> int, ms: seq<Range>)
    ensures multiset(Sort(text, ms)) == multiset(ms)
  {
    Sorting.SortKeeps(RangeOrder(text), ms);
  }

  lemma SortedAmong(text: (Range, Range) -> int, n: nat, ms: seq<Range>, drop: nat)
    ensures Among(Points(n, ms, drop), Sort(text, ms))
  {
    PointsAre(n, ms, drop);
    SortKeeps(text, ms);
    hide Points, Sort;
    forall m | m in Sort(text, ms) ensures m.start in Points(n, ms, drop) && m.end in Points(n, ms, drop) {
      assert m in multiset(Sort(text, ms));
      assert m in ms;
    }
  }

  lemma Between(points: seq<int>, x: int) returns (k: nat)
    requires |points| > 1 && points[0] <= x < points[|points| - 1]
    ensures k + 1 < |points| && points[k] <= x < points[k + 1]
  {
    k := 0;
    while points[k + 1] <= x
      invariant k + 1 < |points| && points[k] <= x
      decreases |points| - k
    {
      k := k + 1;
    }
  }

  /** The segment of a character has what covers that character, and the drop cap over the characters the drop cap
      is for; but with a drop cap the first segment has nothing else. */
  lemma SegmentOf(text: (Range, Range) -> int, n: nat, markups: seq<Stored>, readers: seq<Reader>, drop: nat, x: nat)
    returns (k: nat)
    requires x < n && NonNegative(markups, readers)
    ensures var s, sorted := Segments(text, n, markups, readers, drop), Sort(text, AllRanges(n, markups, readers));
      && k + 1 < |s| && s[k].point <= x < s[k + 1].point
      && s[k].items == if drop > 0 && k == 0 then [DropCap(drop)]
                       else Cap(drop, x) + Merge(Covering(sorted, x), s[k].point)
  {
    var ms := AllRanges(n, markups, readers);
    var points := Points(n, ms, drop);
    var sorted := Sort(text, ms);
    SegmentPoints(text, n, markups, readers, drop);
    SegmentsAtPoints(sorted, drop, points);
    SortedAmong(text, n, ms, drop);
    k := Between(points, x);
    CoveringConstant(points, sorted, k, x);
    CapConstant(n, ms, drop, k, x);
    FirstIsCapped(SegmentsAt(sorted, drop, points), sorted, drop, points, k);
    hide Points, Sort, SegmentsAt, CapFirst, Cap, Merge, Covering, Rising, Among, Ranges, OfReaders, NonNegative;
  }

  lemma CapConstant(n: nat, ms: seq<Range>, drop: nat, k: nat, x: nat)
    requires var points := Points(n, ms, drop); Rising(points) && k + 1 < |points| && points[k] <= x < points[k + 1]
    requires Points(n, ms, drop)[0] == 0
    ensures Cap(drop, Points(n, ms, drop)[k]) == Cap(drop, x)
  {
    PointsAre(n, ms, drop);
    hide Points;
    var points := Points(n, ms, drop);
    assert k > 0 ==> points[0] < points[k];
    if drop > 0 {
      assert drop in points;
      var d :| 0 <= d < |points| && points[d] == drop;
      assert d <= k ==> points[d] <= points[k];
      assert d > k ==> points[k + 1] <= points[d];
    }
  }

  lemma FirstIsCapped(segments: seq<Segment>, sorted: seq<Range>, drop: nat, points: seq<int>, k: nat)
    requires segments == SegmentsAt(sorted, drop, points) && k < |points| && points[0] == 0
    ensures |segments| == |points| && k < |CapFirst(segments)|
    ensures CapFirst(segments)[k].items == if drop > 0 && k == 0 then [DropCap(drop)]
                                           else Cap(drop, points[k]) + Merge(Covering(sorted, points[k]), points[k])
  {
    SegmentsAtPoints(sorted, drop, points);
    MergeHasNoCap(Covering(sorted, 0), 0);
    hide Merge, Covering, SegmentsAt, CapFirst;
    CapFirstItems(segments, drop, Merge(Covering(sorted, 0), 0), k);
  }

  lemma CapFirstItems(segments: seq<Segment>, drop: nat, first: seq<Item>, k: nat)
    requires k < |segments| && segments[0].items == Cap(drop, 0) + first && forall i :: i in first ==> !i.DropCap?
    ensures |CapFirst(segments)| == |segments|
    ensures CapFirst(segments)[k].items == if drop > 0 && k == 0 then [DropCap(drop)] else segments[k].items
  {
    if drop == 0 {
      assert first != [] ==> first[0] in first;
    }
  }

  lemma {:induction false} MergeHasNoCap(ms: seq<Range>, x: int)
    ensures forall i :: i in Merge(ms, x) ==> !i.DropCap?
  {
    if ms != [] {
      var init, m := ms[..|ms| - 1], ms[|ms| - 1];
      MergeHasNoCap(init, x);
      if m.kind.FullHighlight? {
        ExtendHasNoCap(Merge(init, x), m.kind.highlight);
      }
    }
  }

  lemma {:induction false} ExtendHasNoCap(items: seq<Item>, id: int)
    requires forall i :: i in items ==> !i.DropCap?
    ensures forall i :: i in Extend(items, id) ==> !i.DropCap?
  {
    if items != [] {
      var init := items[..|items| - 1];
      assert items == init + [items[|items| - 1]];
      ExtendHasNoCap(init, id);
    }
  }

  // ----- the passes themselves -----

  lemma {:induction false} ExtendAt(items: seq<Item>, n: nat, id: int)
    requires n < |items| && items[n].Merged? && forall j :: n < j < |items| ==> !items[j].Merged?
    ensures Extend(items, id) == items[n := items[n].(ids := items[n].ids + [id])]
  {
    if n < |items| - 1 {
      ExtendAt(items[..|items| - 1], n, id);
    }
  }

  /** The `reduce` of `pe`: the object for the highlights is made once and then grows in place. */
  method MergeItems(ms: seq<Range>, x: int) returns (r: seq<Item>)
    ensures r == Merge(ms, x)
  {
    r := [];
    var n: Option<nat> := None;
    for k := 0 to |ms|
      invariant r == Merge(ms[..k], x)
      invariant n.None? <==> Ids(ms[..k]) == []
      invariant n.Some? ==> n.value < |r| && r[n.value].Merged? && forall j :: n.value < j < |r| ==> !r[j].Merged?
    {
      assert ms[..k + 1][..k] == ms[..k];
      var a := ms[k];
      if a.kind.FullHighlight? {
        if n.None? {
          n := Some(|r|);
          r := r + [Merged(x, [a.kind.highlight])];
        } else {
          ExtendAt(r, n.value, a.kind.highlight);
          r := r[n.value := r[n.value].(ids := r[n.value].ids + [a.kind.highlight])];
        }
      } else {
        r := r + [Own(a)];
      }
    }
    assert ms[..|ms|] == ms;
  }

  /** The set of points that `pe` fills. */
  method CollectPoints(n: nat, u: seq<Range>, drop: nat) returns (f: seq<int>)
    ensures f == Points(n, u, drop)
  {
    var l := AddPoint([0], n);
    for k := 0 to |u|
      invariant l == AddPoints(AddPoint([0], n), u[..k])
    {
      assert u[..k + 1][..k] == u[..k];
      l := AddPoint(l, u[k].start);
      l := AddPoint(l, u[k].end);
    }
    assert u[..|u|] == u;
    if drop > 0 {
      l := AddPoint(l, drop);
    }
    f := SortPoints(l);
  }

  /** `pe` */
  method ComputeSegments(text: (Range, Range) -> int, n: nat, markups: seq<Stored>, readers: seq<Reader>, drop: nat)
    returns (m: seq<Segment>)
    ensures m == Segments(text, n, markups, readers, drop)
  {
    hide Points, Sort, AddPoint, Covering, Merge, Ranges, OfReaders, Cap;
    if n == 0 {
      return [];
    }
    var u := AllRanges(n, markups, readers);
    var p := Sort(text, u);
    var f := CollectPoints(n, u, drop);
    m := [];
    for t := 0 to |f|
      invariant m == SegmentsAt(p, drop, f[..t])
    {
      assert f[..t + 1][..t] == f[..t];
      var items := MergeItems(Covering(p, f[t]), f[t]);
      m := m + [Segment(f[t], Cap(drop, f[t]) + items)];
    }
    assert f[..|f|] == f;
    if |m| > 0 && |m[0].items| > 0 && m[0].items[0].DropCap? {
      m := [Segment(m[0].point, [m[0].items[0]])] + m[1..];
    }
  }
}
