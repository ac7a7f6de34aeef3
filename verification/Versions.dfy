/** The integer encoding of version strings and the range check built on it (configure.py).
    Every segment after the first has three digits. */
module Versions {
  import opened Text

  // ----- decimal text -----

  predicate IsDigit(c: char) { '0' <= c <= '9' }

  /** `str.isdigit`, on ASCII text: the empty string is not a number. */
  predicate IsNumber(s: string) {
    s != [] && forall i :: 0 <= i < |s| ==> IsDigit(s[i])
  }

  function DigitValue(c: char): nat
    requires IsDigit(c)
  {
    c as int - '0' as int
  }

  function ToInt(s: string): nat
    requires forall i :: 0 <= i < |s| ==> IsDigit(s[i])
    decreases |s|
  {
    if s == [] then 0 else 10 * ToInt(s[..|s| - 1]) + DigitValue(s[|s| - 1])
  }

  const DIGITS := "0123456789"

  function Decimal(n: nat): (s: string)
    ensures IsNumber(s)
  {
    Digits(n, 10, DIGITS)
  }

  lemma {:induction false} DecimalToInt(n: nat)
    ensures ToInt(Decimal(n)) == n
    decreases n
  {
    if n >= 10 {
      DecimalToInt(n / 10);
      assert Decimal(n)[..|Decimal(n)| - 1] == Decimal(n / 10);
    }
  }

  /** `'%03d' % n` */
  function Pad3(n: nat): (s: string)
    ensures IsNumber(s)
  {
    if n < 10 then "00" + Decimal(n) else if n < 100 then "0" + Decimal(n) else Decimal(n)
  }

  function Pow10(n: nat): nat { if n == 0 then 1 else 10 * Pow10(n - 1) }

  lemma {:induction false} ToIntOfConcat(a: string, b: string)
    requires forall i :: 0 <= i < |a| ==> IsDigit(a[i])
    requires forall i :: 0 <= i < |b| ==> IsDigit(b[i])
    ensures ToInt(a + b) == ToInt(a) * Pow10(|b|) + ToInt(b)
    decreases |b|
  {
    if b == [] {
      assert a + b == a;
    } else {
      var front := b[..|b| - 1];
      assert (a + b)[..|a + b| - 1] == a + front;
      ToIntOfConcat(a, front);
      ShiftDigits(ToInt(a), Pow10(|front|), ToInt(front), DigitValue(b[|b| - 1]));
    }
  }

  lemma ShiftDigits(a: nat, p: nat, f: nat, d: nat)
    ensures 10 * (a * p + f) + d == a * (10 * p) + (10 * f + d)
  {
  }

  /** Below 1000 a padded number has three digits and the same value. */
  lemma {:induction false} Pad3IsThreeDigits(n: nat)
    requires n < 1000
    ensures |Pad3(n)| == 3 && ToInt(Pad3(n)) == n
  {
    DecimalLength(n);
    var zeros := if n < 10 then "00" else if n < 100 then "0" else "";
    assert Pad3(n) == zeros + Decimal(n);
    DecimalToInt(n);
    ToIntOfConcat(zeros, Decimal(n));
    ZerosAreZero(zeros);
  }

  lemma ZerosAreZero(zeros: string)
    requires zeros == "00" || zeros == "0" || zeros == ""
    ensures ToInt(zeros) == 0
  {
    if zeros == "00" { assert zeros[..1] == "0"; assert "0"[..0] == ""; }
    if zeros == "0" { assert zeros[..0] == ""; }
  }

  lemma DecimalLength(n: nat)
    requires n < 1000
    ensures |Decimal(n)| == if n < 10 then 1 else if n < 100 then 2 else 3
  {
    DecimalStep(n);
    if n >= 10 { DecimalStep(n / 10); }
    if n >= 100 { DecimalStep(n / 10 / 10); }
    hide Decimal;
  }

  lemma DecimalStep(n: nat)
    ensures |Decimal(n)| == if n < 10 then 1 else |Decimal(n / 10)| + 1
  {
  }

  // ----- the encoding -----

  /** `''.join(['%03d' % int(seg) for seg in segments])` */
  function Padded(segments: seq<nat>): (s: string)
    ensures forall i :: 0 <= i < |s| ==> IsDigit(s[i])
    ensures segments != [] ==> s != []
    decreases |segments|
  {
    if segments == [] then [] else Padded(segments[..|segments| - 1]) + Pad3(segments[|segments| - 1])
  }

  function Encoded(segments: seq<nat>): nat { ToInt(Padded(segments)) }

  /** The dot-separated parts before the first "-", with a third part supplied for two. */
  function Parts(version: string): (p: seq<string>)
    ensures p != []
  {
    var p := Split(Split(version, '-')[0], '.');
    if |p| == 2 then p + ["0"] else p
  }

  predicate AllNumbers(parts: seq<string>) {
    forall i :: 0 <= i < |parts| ==> IsNumber(parts[i])
  }

  function Numbers(parts: seq<string>): seq<nat>
    requires AllNumbers(parts)
  {
    seq(|parts|, i requires 0 <= i < |parts| => ToInt(parts[i]))
  }

  /** `convert_version_to_int`; None where the source returns None. */
  function Convert(version: string): Option<nat> {
    var p := Parts(version);
    if AllNumbers(p) then Some(Encoded(Numbers(p))) else None
  }

  // ----- order -----

  /** Every segment after the first fits into its three digits; the first may be as large as it likes. */
  predicate TailSmall(segments: seq<nat>) {
    forall i :: 1 <= i < |segments| ==> segments[i] < 1000
  }

  /** Lexicographic order, most significant segment first. */
  predicate Before(a: seq<nat>, b: seq<nat>)
    requires |a| == |b|
    decreases |a|
  {
    a != [] && (a[0] < b[0] || (a[0] == b[0] && Before(a[1..], b[1..])))
  }

  lemma {:induction false} EncodedStep(segments: seq<nat>)
    requires |segments| > 1 && TailSmall(segments)
    ensures Encoded(segments) == 1000 * Encoded(segments[..|segments| - 1]) + segments[|segments| - 1]
  {
    var front, n := segments[..|segments| - 1], segments[|segments| - 1];
    assert segments == front + [n];
    EncodedStepOn(front, n);
  }

  lemma EncodedOne(n: nat)
    ensures Encoded([n]) == n
  {
    hide Encoded, Pad3, Pow10;
    EncodedNothing();
    WideStep([], n);
    ZeroTimes(Pow10(|Pad3(n)|));
    assert [] + [n] == [n];
  }

  lemma ZeroTimes(p: nat)
    ensures 0 * p == 0
  {
  }

  lemma {:induction false} BeforeLast(a: seq<nat>, b: seq<nat>)
    requires |a| == |b| > 0
    ensures var n := |a| - 1;
            Before(a, b) <==> Before(a[..n], b[..n]) || (a[..n] == b[..n] && a[n] < b[n])
    decreases |a|
  {
    var n := |a| - 1;
    if n > 0 {
      BeforeLast(a[1..], b[1..]);
      assert a[1..][..n - 1] == a[..n][1..] && b[1..][..n - 1] == b[..n][1..];
      assert a[..n] == [a[0]] + a[..n][1..] && b[..n] == [b[0]] + b[..n][1..];
    }
  }

  /** The encoding orders equally long lists as they are ordered, whatever their first segments. */
  lemma {:induction false} EncodingOrders(a: seq<nat>, b: seq<nat>)
    requires |a| == |b| && TailSmall(a) && TailSmall(b)
    ensures Encoded(a) < Encoded(b) <==> Before(a, b)
    ensures Encoded(a) == Encoded(b) <==> a == b
    decreases |a|
  {
    hide Encoded, Before;
    if a == [] {
      BeforeNothing();
    } else if |a| == 1 {
      assert a == [a[0]] && b == [b[0]];
      EncodedOne(a[0]);
      EncodedOne(b[0]);
      BeforeOne(a[0], b[0]);
    } else {
      var n := |a| - 1;
      EncodingOrders(a[..n], b[..n]);
      EncodedStep(a);
      EncodedStep(b);
      BeforeLast(a, b);
      ThousandsOrder(Encoded(a[..n]), a[n], Encoded(b[..n]), b[n]);
      assert a == a[..n] + [a[n]] && b == b[..n] + [b[n]];
    }
  }

  lemma BeforeOne(x: nat, y: nat)
    ensures Before([x], [y]) <==> x < y
  {
    assert [x][1..] == [] == [y][1..];
  }

  lemma EncodedNothing()
    ensures Encoded([]) == 0
  {
  }

  lemma BeforeNothing()
    ensures !Before([], [])
  {
  }

  lemma ThousandsOrder(x: nat, p: nat, y: nat, q: nat)
    requires p < 1000 && q < 1000
    ensures 1000 * x + p < 1000 * y + q <==> x < y || (x == y && p < q)
    ensures 1000 * x + p == 1000 * y + q <==> x == y && p == q
  {
  }

  /** The list of n segments that the integer v stands for. */
  function Canonical(v: nat, n: nat): (a: seq<nat>)
    requires n > 0
    ensures |a| == n && TailSmall(a)
    decreases n
  {
    if n == 1 then [v] else Canonical(v / 1000, n - 1) + [v % 1000]
  }

  lemma {:induction false} CanonicalEncodes(v: nat, n: nat)
    requires n > 0
    ensures Encoded(Canonical(v, n)) == v
    decreases n
  {
    hide Encoded;
    if n == 1 {
      EncodedOne(v);
    } else {
      CanonicalEncodes(v / 1000, n - 1);
      EncodedStepOn(Canonical(v / 1000, n - 1), v % 1000);
    }
  }

  /** Of every length, exactly one list with small segments after the first has a given integer. */
  lemma OneListPerInteger(v: nat, a: seq<nat>)
    requires a != []
    ensures TailSmall(a) && Encoded(a) == v <==> a == Canonical(v, |a|)
  {
    hide Encoded, Canonical;
    CanonicalEncodes(v, |a|);
    if TailSmall(a) {
      EncodingOrders(a, Canonical(v, |a|));
    }
  }

  /** a compares by its integer, with every equally long list of small segments after the first, as by its
      segments. */
  ghost predicate ComparesRight(a: seq<nat>) {
    forall b :: |b| == |a| && TailSmall(b) ==> OrderedAlike(a, b)
  }

  ghost predicate OrderedAlike(a: seq<nat>, b: seq<nat>)
    requires |a| == |b|
  {
    (Encoded(a) < Encoded(b) <==> Before(a, b)) && (Encoded(a) == Encoded(b) <==> a == b)
  }

  /** The order is right exactly while no segment after the first needs a fourth digit: every list with one that
      does shares its integer with another list of its length. */
  lemma OrdersExactlyWhen(a: seq<nat>)
    requires a != []
    ensures ComparesRight(a) <==> TailSmall(a)
    ensures !TailSmall(a) ==> exists b :: |b| == |a| && b != a && TailSmall(b) && Encoded(b) == Encoded(a)
  {
    hide Encoded, Before, Canonical;
    if TailSmall(a) {
      forall b | |b| == |a| && TailSmall(b) ensures OrderedAlike(a, b) {
        EncodingOrders(a, b);
      }
    } else {
      var b := Canonical(Encoded(a), |a|);
      CanonicalEncodes(Encoded(a), |a|);
      assert !OrderedAlike(a, b);
    }
  }

  /** The same for version strings with equally many numeric parts. */
  lemma {:induction false} ConvertOrders(v: string, w: string)
    requires AllNumbers(Parts(v)) && AllNumbers(Parts(w)) && |Parts(v)| == |Parts(w)|
    requires TailSmall(Numbers(Parts(v))) && TailSmall(Numbers(Parts(w)))
    ensures Convert(v).Some? && Convert(w).Some?
    ensures Convert(v).value < Convert(w).value <==> Before(Numbers(Parts(v)), Numbers(Parts(w)))
    ensures Convert(v).value == Convert(w).value <==> Numbers(Parts(v)) == Numbers(Parts(w))
  {
    hide Encoded, Parts, Before;
    EncodingOrders(Numbers(Parts(v)), Numbers(Parts(w)));
  }

  /** The smallest example: 0.1000.0 and 1.0.0 get the same integer. */
  lemma LargeSegmentsCollide()
    ensures Encoded([0, 1000, 0]) == Encoded([1, 0, 0])
    ensures Before([0, 1000, 0], [1, 0, 0])
  {
    hide Encoded;
    EncodedOne(1);
    EncodedStepOn([1], 0);
    assert [1] + [0] == [1, 0];
    EncodedStepOn([1, 0], 0);
    assert [1, 0] + [0] == [1, 0, 0];
    EncodedOne(0);
    WideStep([0], 1000);
    assert [0] + [1000] == [0, 1000];
    EncodedStepOn([0, 1000], 0);
    assert [0, 1000] + [0] == [0, 1000, 0];
  }

  lemma {:induction false} WideStep(front: seq<nat>, n: nat)
    ensures Encoded(front + [n]) == Encoded(front) * Pow10(|Pad3(n)|) + n
  {
    assert (front + [n])[..|front|] == front;
    ToIntOfConcat(Padded(front), Pad3(n));
    PaddedValue(n);
  }

  lemma PaddedValue(n: nat)
    ensures ToInt(Pad3(n)) == n
  {
    if n < 1000 {
      Pad3IsThreeDigits(n);
    } else {
      DecimalToInt(n);
    }
    hide ToInt, Decimal;
  }

  lemma {:induction false} EncodedStepOn(front: seq<nat>, n: nat)
    requires n < 1000
    ensures Encoded(front + [n]) == 1000 * Encoded(front) + n
  {
    assert Pow10(3) == 1000;
    hide Encoded, Pad3, ToInt, Pow10;
    WideStep(front, n);
    Pad3IsThreeDigits(n);
    TimesThousand(Encoded(front), Pow10(|Pad3(n)|));
  }

  lemma TimesThousand(x: nat, p: nat)
    requires p == 1000
    ensures x * p == 1000 * x
  {
  }

  /** The versions the comparison is meant for: three numeric parts, the last two below 1000. */
  ghost predicate Release(version: string) {
    AllNumbers(Parts(version)) && |Parts(version)| == 3 && TailSmall(Numbers(Parts(version)))
  }

  /** At most, in the order of the segments. */
  ghost predicate AtMost(v: string, w: string)
    requires Release(v) && Release(w)
  {
    !Before(Numbers(Parts(w)), Numbers(Parts(v)))
  }

  // ----- the range check -----

  datatype Verdict = NotARelease | TooOld | TooNew | Accepted | TypeError

  /** `check_bazel_version` once the label is found; comparing with None raises a TypeError. */
  function Check(min: string, max: string, current: string, ignoreMax: bool): Verdict {
    var lo, cur, hi := Convert(min), Convert(current), Convert(max);
    if cur.None? || cur.value == 0 then NotARelease
    else if lo.None? then TypeError
    else if cur.value < lo.value then TooOld
    else if hi.None? then TypeError
    else if cur.value > hi.value && !ignoreMax then TooNew
    else Accepted
  }

  /** A release other than 0.0.0 is accepted exactly when it lies between the two bounds. */
  lemma {:induction false} AcceptedIsBetween(min: string, max: string, current: string, ignoreMax: bool)
    requires Release(min) && Release(max) && Release(current)
    requires Numbers(Parts(current)) != [0, 0, 0]
    ensures Check(min, max, current, ignoreMax) == Accepted
            <==> AtMost(min, current) && (ignoreMax || AtMost(current, max))
    ensures Check(min, max, current, ignoreMax) == TooOld <==> !AtMost(min, current)
  {
    hide Encoded, Parts, Before;
    var c := Numbers(Parts(current));
    EncodingOrders(c, Numbers(Parts(min)));
    EncodingOrders(Numbers(Parts(max)), c);
    EncodingOrders([0, 0, 0], c);
    EncodedZeros();
  }

  lemma EncodedZeros()
    ensures Encoded([0, 0, 0]) == 0
  {
    hide Encoded;
    EncodedOne(0);
    EncodedStepOn([0], 0);
    assert [0] + [0] == [0, 0];
    EncodedStepOn([0, 0], 0);
    assert [0, 0] + [0] == [0, 0, 0];
  }

  // ----- the code -----

  lemma PaddedNext(segments: seq<nat>, k: nat)
    requires k < |segments|
    ensures Padded(segments[..k + 1]) == Padded(segments[..k]) + Pad3(segments[k])
  {
    assert segments[..k + 1][..k] == segments[..k];
    hide Pad3;
  }

  method ConvertVersionToInt(version: string) returns (r: Option<nat>)
    ensures r == Convert(version)
  {
    var release := Split(version, '-')[0];
    var segments := Split(release, '.');
    if |segments| == 2 {
      segments := segments + ["0"];
    }
    for k := 0 to |segments|
      invariant forall i :: 0 <= i < k ==> IsNumber(segments[i])
    {
      if !IsNumber(segments[k]) {
        return None;
      }
    }
    var text := "";
    assert Numbers(segments)[..0] == [] && Numbers(segments)[..|segments|] == Numbers(segments);
    hide Split, IsNumber, ToInt, Pad3;
    for k := 0 to |segments|
      invariant text == Padded(Numbers(segments)[..k])
    {
      PaddedNext(Numbers(segments), k);
      text := text + Pad3(ToInt(segments[k]));
    }
    r := Some(ToInt(text));
  }

  const LABEL := "Build label: "

  /** Where a text first occurs in a line. */
  function Find(line: string, text: string): (r: Option<nat>)
    ensures r.Some? ==> r.value <= |line| && text <= line[r.value..]
    ensures r.Some? ==> forall k :: 0 <= k < r.value ==> !(text <= line[k..])
    ensures r.None? ==> forall k :: 0 <= k <= |line| ==> !(text <= line[k..])
    decreases |line|
  {
    if text <= line then Some(0)
    else if line == [] then None
    else
      var r := Find(line[1..], text);
      assert forall k :: 0 < k <= |line| ==> line[k..] == line[1..][k - 1..];
      if r.None? then None else Some(r.value + 1)
  }

  /** `line.split(LABEL)[1]`: between the first two occurrences of the label. */
  function AfterLabel(line: string): string
    requires Find(line, LABEL).Some?
  {
    var rest := line[Find(line, LABEL).value + |LABEL|..];
    var next := Find(rest, LABEL);
    if next.None? then rest else rest[..next.value]
  }

  /** The version named by the first labelled line, or the whole output if no line has a label. */
  function CurrentVersion(output: string, lines: seq<string>): string
    decreases |lines|
  {
    if lines == [] then output
    else if Find(lines[0], LABEL).Some? then AfterLabel(lines[0])
    else CurrentVersion(output, lines[1..])
  }

  lemma {:induction false} FindFirst(line: string, text: string, n: nat)
    requires n <= |line| && text <= line[n..] && forall k :: 0 <= k < n ==> !(text <= line[k..])
    ensures Find(line, text) == Some(n)
  {
  }

  /** The version is what follows the label in the first line that has one; without such a line it is the whole
      output. */
  lemma {:induction false} LabelledVersion(output: string, lines: seq<string>, head: string, version: string,
                                           rest: seq<string>)
    requires forall line :: line in lines ==> Find(line, LABEL).None?
    requires Find(version, LABEL).None? && forall k :: 0 <= k < |head| ==> !(LABEL <= (head + LABEL + version)[k..])
    ensures CurrentVersion(output, lines) == output
    ensures CurrentVersion(output, lines + [head + LABEL + version] + rest) == version
    decreases |lines|
  {
    var line := head + LABEL + version;
    var all := lines + [line] + rest;
    if lines == [] {
      assert line[|head|..] == LABEL + version;
      FindFirst(line, LABEL, |head|);
      assert line[|head| + |LABEL|..] == version;
      assert all[0] == line;
    } else {
      assert all[0] == lines[0] && all[1..] == lines[1..] + [line] + rest;
      LabelledVersion(output, lines[1..], head, version, rest);
    }
  }

  /** The version reported is the one checked; the three exits of the source are the verdict. */
  method CheckBazelVersion(min: string, max: string, output: string, ignoreMax: bool)
    returns (verdict: Verdict, current: string)
    ensures current == CurrentVersion(output, Split(output, '\n'))
    ensures verdict == Check(min, max, current, ignoreMax)
  {
    current := output;
    var lines := Split(output, '\n');
    var k := 0;
    var found := false;
    while k < |lines| && !found
      invariant 0 <= k <= |lines|
      invariant !found ==> current == output
      invariant CurrentVersion(output, lines) == if found then current else CurrentVersion(output, lines[k..])
    {
      if Find(lines[k], LABEL).Some? {
        current := AfterLabel(lines[k]);
        found := true;
      }
      k := k + 1;
    }
    var lo := ConvertVersionToInt(min);
    var cur := ConvertVersionToInt(current);
    var hi := ConvertVersionToInt(max);
    if cur.None? || cur.value == 0 { return NotARelease, current; }
    if lo.None? { return TypeError, current; }
    if cur.value < lo.value { return TooOld, current; }
    if hi.None? { return TypeError, current; }
    if cur.value > hi.value && !ignoreMax { return TooNew, current; }
    return Accepted, current;
  }
}
