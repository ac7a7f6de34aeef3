/** From a hash to a bucket in [0, 10000), and from a bucket to a weighted candidate,
    which is the first one whose range ends beyond it. */
module Bucketing {
  import opened JsBits

  const TOTAL_POINTS: nat := 10000

  datatype Candidate = Candidate(entityId: string, endOfRange: int)

  datatype Choice = Chosen(entityId: string) | UnableToChoose

  /** `Math.floor((hash >>> 0) / 2^32 * 10000)`; both operations are exact in double precision. */
  function BucketingNumber(hash: Word): int {
    ((hash as real / 4294967296.0) * 10000.0).Floor
  }

  /** The first hash that falls in bucket a, or 2^32 for a == 10000. */
  function FirstHash(a: int): int {
    (a * 0x1_0000_0000 + 9999) / 10000
  }

  lemma BucketIsQuotient(hash: Word)
    ensures BucketingNumber(hash) == hash * 10000 / 0x1_0000_0000
    ensures 0 <= BucketingNumber(hash) < TOTAL_POINTS
  {
    var scaled := hash * 10000;
    var q := scaled / 0x1_0000_0000;
    assert q * 0x1_0000_0000 <= scaled < (q + 1) * 0x1_0000_0000;
    var r := (hash as real / 4294967296.0) * 10000.0;
    assert r * 4294967296.0 == scaled as real;
    assert q as real <= r < (q + 1) as real;
  }

  /** Every bucket is one interval of hashes, and no two buckets differ by more than one hash. */
  lemma BucketsAreEven(hash: Word, a: int)
    requires 0 <= a < TOTAL_POINTS
    ensures BucketingNumber(hash) == a <==> FirstHash(a) <= hash < FirstHash(a + 1)
    ensures 429496 <= FirstHash(a + 1) - FirstHash(a) <= 429497
    ensures FirstHash(0) == 0 && FirstHash(TOTAL_POINTS) == 0x1_0000_0000
  {
    BucketIsQuotient(hash);
  }

  ghost predicate NonDecreasing(ranges: seq<Candidate>) {
    forall i, j :: 0 <= i < j < |ranges| ==> ranges[i].endOfRange <= ranges[j].endOfRange
  }

  /** Candidates whose ends run up to the last bucket. */
  ghost predicate CoversAllBuckets(ranges: seq<Candidate>) {
    && ranges != []
    && NonDecreasing(ranges)
    && 0 <= ranges[0].endOfRange
    && ranges[|ranges| - 1].endOfRange == TOTAL_POINTS
  }

  /** The index the loop stops at, |ranges| if it runs off the end. */
  function FirstBeyond(ranges: seq<Candidate>, a: int): (i: nat)
    ensures i <= |ranges|
    ensures forall j :: 0 <= j < i ==> ranges[j].endOfRange <= a
    ensures i < |ranges| ==> a < ranges[i].endOfRange
  {
    if ranges == [] || a < ranges[0].endOfRange then 0 else 1 + FirstBeyond(ranges[1..], a)
  }

  /** `chooseWeightedCandidate`; the source throws where this returns UnableToChoose. */
  method ChooseWeightedCandidate(hash: Word, ranges: seq<Candidate>) returns (choice: Choice)
    ensures var i := FirstBeyond(ranges, BucketingNumber(hash));
            choice == if i < |ranges| then Chosen(ranges[i].entityId) else UnableToChoose
  {
    var a := BucketingNumber(hash);
    var o := 0;
    while o < |ranges|
      invariant 0 <= o <= |ranges|
      invariant FirstBeyond(ranges, a) == o + FirstBeyond(ranges[o..], a)
    {
      if ranges[o].endOfRange > a {
        return Chosen(ranges[o].entityId);
      }
      assert ranges[o..][1..] == ranges[o + 1..];
      o := o + 1;
    }
    return UnableToChoose;
  }

  function StartOfRange(ranges: seq<Candidate>, i: nat): int
    requires i < |ranges|
  {
    if i == 0 then 0 else ranges[i - 1].endOfRange
  }

  function BucketsOf(ranges: seq<Candidate>, i: nat): set<int> {
    set a | 0 <= a < TOTAL_POINTS && FirstBeyond(ranges, a) == i
  }

  predicate Within(lo: int, a: int, hi: int) { lo <= a < hi }

  function Interval(lo: int, hi: int): set<int> {
    set a | lo <= a < hi && Within(lo, a, hi)
  }

  lemma {:induction false} IntervalSize(lo: int, hi: int)
    requires lo <= hi
    ensures |Interval(lo, hi)| == hi - lo
    decreases hi - lo
  {
    if lo < hi {
      IntervalSize(lo, hi - 1);
      assert Interval(lo, hi) == Interval(lo, hi - 1) + {hi - 1} by {
        assert forall a :: Within(lo, a, hi) <==> Within(lo, a, hi - 1) || a == hi - 1;
      }
    } else {
      assert Interval(lo, hi) == {};
    }
  }

  /** Each candidate is chosen for exactly the buckets of its own range, so for as many
      buckets as the range is wide, and every bucket chooses somebody. */
  lemma {:induction false} EachGetsItsWidth(ranges: seq<Candidate>, i: nat)
    requires CoversAllBuckets(ranges) && i < |ranges|
    ensures |BucketsOf(ranges, i)| == ranges[i].endOfRange - StartOfRange(ranges, i)
    ensures forall a :: 0 <= a < TOTAL_POINTS ==> FirstBeyond(ranges, a) < |ranges|
  {
    var lo, hi := StartOfRange(ranges, i), ranges[i].endOfRange;
    assert 0 <= lo <= hi <= TOTAL_POINTS;
    assert BucketsOf(ranges, i) == Interval(lo, hi) by {
      assert forall a :: 0 <= a < TOTAL_POINTS ==> (FirstBeyond(ranges, a) == i <==> Within(lo, a, hi));
    }
    IntervalSize(lo, hi);
  }

  /** Leaving the last end below 10000 leaves exactly the buckets above it without a candidate. */
  lemma {:induction false} HolesAreAboveTheLastEnd(ranges: seq<Candidate>, a: int)
    requires NonDecreasing(ranges) && ranges != []
    ensures FirstBeyond(ranges, a) == |ranges| <==> ranges[|ranges| - 1].endOfRange <= a
  {
    var i := FirstBeyond(ranges, a);
    if i < |ranges| {
      assert ranges[i].endOfRange <= ranges[|ranges| - 1].endOfRange;
    }
  }
}
