/** The checksum of the link decorator: a cached table of 256 entries against the bit-serial shift register
    with the reflected polynomial, on the signed 32-bit values that the loop computes with. */
module Crc32 {
  import opened JsBits

  const POLY: nat := 3988292384
  const ONES: nat := 4294967295

  // ----- the definition, one message bit at a time -----

  /** One clock of the reflected shift register. */
  function Feed(reg: nat, bit: nat): nat {
    if (reg % 2 + bit) % 2 == 1 then Xor(reg / 2, POLY) else reg / 2
  }

  /** The n low bits of `bits`, least significant first. */
  function FeedBits(reg: nat, bits: nat, n: nat): nat
    decreases n
  {
    if n == 0 then reg else FeedBits(Feed(reg, bits % 2), bits / 2, n - 1)
  }

  function Register(reg: nat, message: seq<CodeUnit>): nat
    decreases |message|
  {
    if message == [] then reg else Register(FeedBits(reg, message[0] % 256, 8), message[1..])
  }

  /** CRC-32 of the low bytes of a string. */
  function Checksum(message: seq<CodeUnit>): nat {
    Xor(Register(ONES, message), ONES)
  }

  // ----- the register is a linear, invertible machine on 32-bit words -----

  lemma {:induction false} FeedIsWord(reg: Word, bit: nat)
    ensures Feed(reg, bit) < TWO32
  {
    Pow2Values();
    XorBound(reg / 2, POLY, 32);
  }

  lemma {:induction false} FeedBitsIsWord(reg: Word, bits: nat, n: nat)
    ensures FeedBits(reg, bits, n) < TWO32
    decreases n
  {
    if n > 0 {
      FeedIsWord(reg, bits % 2);
      FeedBitsIsWord(Feed(reg, bits % 2), bits / 2, n - 1);
    }
  }

  lemma {:induction false} RegisterIsWord(reg: Word, message: seq<CodeUnit>)
    ensures Register(reg, message) < TWO32
    decreases |message|
  {
    if message != [] {
      FeedBitsIsWord(reg, message[0] % 256, 8);
      RegisterIsWord(FeedBits(reg, message[0] % 256, 8), message[1..]);
    }
  }

  lemma XorSwap(a: nat, b: nat, c: nat)
    ensures Xor(Xor(a, b), c) == Xor(Xor(a, c), b)
  {
    XorAssociates(a, b, c);
    XorCommutes(b, c);
    XorAssociates(a, c, b);
  }

  /** Feeding message bits is shifting zeros into the register xored with those bits. */
  lemma {:induction false} FeedIsXorThenShift(reg: nat, bits: nat, n: nat)
    requires bits < Pow2(n)
    ensures FeedBits(reg, bits, n) == FeedBits(Xor(reg, bits), 0, n)
    decreases n
  {
    if n == 0 {
      XorZero(reg);
    } else {
      var next := Feed(reg, bits % 2);
      FeedIsXorThenShift(next, bits / 2, n - 1);
      XorHalves(reg, bits);
      XorSwap(reg / 2, POLY, bits / 2);
      assert Feed(Xor(reg, bits), 0) == Xor(next, bits / 2);
    }
  }

  /** Shifting zeros is linear. */
  lemma {:induction false} ShiftIsLinear(a: nat, b: nat, n: nat)
    ensures FeedBits(Xor(a, b), 0, n) == Xor(FeedBits(a, 0, n), FeedBits(b, 0, n))
    decreases n
  {
    if n > 0 {
      var fa, fb := Feed(a, 0), Feed(b, 0);
      assert Feed(Xor(a, b), 0) == Xor(fa, fb) by { FeedIsLinear(a, b); }
      ShiftIsLinear(fa, fb, n - 1);
    }
  }

  lemma FeedIsLinear(a: nat, b: nat)
    ensures Feed(Xor(a, b), 0) == Xor(Feed(a, 0), Feed(b, 0))
  {
    hide Xor;
    var x, y := a / 2, b / 2;
    XorHalves(a, b);
    if a % 2 == 0 {
      XorAssociates(x, y, POLY);
    } else if b % 2 == 0 {
      XorSwap(x, y, POLY);
    } else {
      XorPairCancels(x, y, POLY);
    }
  }

  lemma XorPairCancels(x: nat, y: nat, p: nat)
    ensures Xor(Xor(x, p), Xor(y, p)) == Xor(x, y)
  {
    XorAssociates(Xor(x, p), y, p);
    XorSwap(x, y, p);
    XorAssociates(Xor(x, y), p, p);
    XorSelf(p);
    XorZero(Xor(x, y));
  }

  /** Multiples of 2^n shift out unchanged. */
  lemma {:induction false} ShiftOutZeros(h: nat, n: nat)
    ensures FeedBits(h * Pow2(n), 0, n) == h
    decreases n
  {
    if n > 0 {
      HalveSum(h, 0, n);
      ShiftOutZeros(h, n - 1);
    }
  }

  lemma EightBits()
    ensures Pow2(8) == 256
  {
    Pow2Values();
  }

  lemma FeedSplit(h: nat, l: nat)
    requires l < 256
    ensures FeedBits(256 * h + l, 0, 8) == Xor(h, FeedBits(l, 0, 8))
  {
    EightBits();
    hide Pow2, Xor, FeedBits;
    XorDisjoint(h, l, 8);
    ShiftIsLinear(h * Pow2(8), l, 8);
    ShiftOutZeros(h, 8);
  }

  /** The byte step that the table precomputes. */
  lemma {:induction false} ByteStep(reg: nat, byte: nat)
    requires byte < 256
    ensures FeedBits(reg, byte, 8) == Xor(reg / 256, FeedBits(Xor(reg, byte) % 256, 0, 8))
  {
    EightBits();
    hide Pow2, Xor, FeedBits;
    var x := Xor(reg, byte);
    FeedIsXorThenShift(reg, byte, 8);
    FeedSplit(x / 256, x % 256);
    XorHighPart(reg, byte, 8);
  }

  /** Xor with a number below 2^n leaves the part above 2^n alone. */
  lemma {:induction false} XorHighPart(x: nat, y: nat, n: nat)
    requires y < Pow2(n)
    ensures Xor(x, y) / Pow2(n) == x / Pow2(n)
    decreases n
  {
    if n == 0 {
      XorZero(x);
    } else {
      XorHalves(x, y);
      XorHighPart(x / 2, y / 2, n - 1);
      DivTwice(Xor(x, y), Pow2(n - 1));
      DivTwice(x, Pow2(n - 1));
    }
  }

  lemma DivTwice(x: nat, d: nat)
    requires d >= 1
    ensures x / (2 * d) == x / 2 / d
  {
    var q, r := x / 2 / d, (x / 2) % d;
    assert x == q * (2 * d) + (x % 2 + 2 * r);
    DivModUnique(x, 2 * d, q, x % 2 + 2 * r);
  }

  // ----- what the checksum detects -----

  /** The register step can be undone, because the polynomial's top bit is set. */
  lemma {:induction false} FeedIsInjective(r: Word, s: Word, bit: nat)
    requires Feed(r, bit) == Feed(s, bit)
    ensures r == s
  {
    var h, k := r / 2, s / 2;
    var p, q := (r % 2 + bit) % 2 == 1, (s % 2 + bit) % 2 == 1;
    TopBit(h);
    TopBit(k);
    assert h == k by {
      if p && q { XorCancels(h, k, POLY); }
    }
    SameParity(r % 2, s % 2, bit);
    HalvesDetermine(r, s);
  }

  lemma SameParity(a: nat, b: nat, c: nat)
    requires a < 2 && b < 2 && ((a + c) % 2 == 1 <==> (b + c) % 2 == 1)
    ensures a == b
  {
  }

  lemma {:induction false} TopBit(h: nat)
    requires h < TWO31
    ensures Xor(h, POLY) >= TWO31
  {
    assert Pow2(31) == TWO31 by { Pow2Values(); }
    var low := POLY - TWO31;
    XorDisjoint(1, low, 31);
    XorCommutes(h, POLY);
    XorAssociates(TWO31, low, h);
    XorBound(low, h, 31);
    XorDisjoint(1, Xor(low, h), 31);
  }

  lemma {:induction false} FeedBitsIsInjective(r: Word, s: Word, bits: nat, n: nat)
    requires FeedBits(r, bits, n) == FeedBits(s, bits, n)
    ensures r == s
    decreases n
  {
    if n > 0 {
      FeedIsWord(r, bits % 2);
      FeedIsWord(s, bits % 2);
      FeedBitsIsInjective(Feed(r, bits % 2), Feed(s, bits % 2), bits / 2, n - 1);
      FeedIsInjective(r, s, bits % 2);
    }
  }

  lemma {:induction false} RegisterIsInjective(r: Word, s: Word, message: seq<CodeUnit>)
    requires Register(r, message) == Register(s, message)
    ensures r == s
    decreases |message|
  {
    if message != [] {
      var b := message[0] % 256;
      FeedBitsIsWord(r, b, 8);
      FeedBitsIsWord(s, b, 8);
      RegisterIsInjective(FeedBits(r, b, 8), FeedBits(s, b, 8), message[1..]);
      FeedBitsIsInjective(r, s, b, 8);
    }
  }

  lemma {:induction false} RegisterSplits(reg: nat, front: seq<CodeUnit>, back: seq<CodeUnit>)
    ensures Register(reg, front + back) == Register(Register(reg, front), back)
    decreases |front|
  {
    if front == [] {
      assert front + back == back;
    } else {
      assert (front + back)[1..] == front[1..] + back;
      RegisterSplits(FeedBits(reg, front[0] % 256, 8), front[1..], back);
    }
  }

  /** The low bytes of a string as one little-endian number. */
  function LowBytes(window: seq<CodeUnit>): (v: nat)
    ensures v < Pow2(8 * |window|)
    decreases |window|
  {
    if window == [] then 0
    else
      LowBytesBound(|window|, LowBytes(window[1..]));
      window[0] % 256 + 256 * LowBytes(window[1..])
  }

  lemma LowBytesBound(n: nat, rest: nat)
    requires n > 0 && rest < Pow2(8 * (n - 1))
    ensures Pow2(8 * n) == 256 * Pow2(8 * (n - 1)) >= 256 + 256 * rest
  {
    Pow2Adds(8, 8 * (n - 1));
    Pow2Values();
  }

  lemma {:induction false} FeedBitsSplits(reg: nat, low: nat, high: nat, m: nat, n: nat)
    requires low < Pow2(m)
    ensures FeedBits(reg, low + high * Pow2(m), m + n) == FeedBits(FeedBits(reg, low, m), high, n)
    decreases m
  {
    if m > 0 {
      HalveSum(high, low, m);
      var bits := low + high * Pow2(m);
      assert bits % 2 == low % 2 && bits / 2 == low / 2 + high * Pow2(m - 1);
      FeedBitsSplits(Feed(reg, low % 2), low / 2, high, m - 1, n);
    }
  }

  lemma {:induction false} WindowAsBits(reg: nat, window: seq<CodeUnit>)
    ensures Register(reg, window) == FeedBits(reg, LowBytes(window), 8 * |window|)
    decreases |window|
  {
    if window != [] {
      assert Pow2(8) == 256 by { Pow2Values(); }
      var b, rest := window[0] % 256, window[1..];
      assert LowBytes(window) == b + 256 * LowBytes(rest);
      assert Register(reg, window) == Register(FeedBits(reg, b, 8), rest);
      hide LowBytes, Register, FeedBits, Pow2;
      FeedBitsSplits(reg, b, LowBytes(rest), 8, 8 * |rest|);
      WindowAsBits(FeedBits(reg, b, 8), rest);
    }
  }

  /** Any burst within four consecutive characters changes the checksum. */
  lemma {:induction false} DetectsBursts(front: seq<CodeUnit>, w: seq<CodeUnit>, v: seq<CodeUnit>, back: seq<CodeUnit>)
    requires |w| == |v| <= 4
    requires LowBytes(w) != LowBytes(v)
    ensures Checksum(front + w + back) != Checksum(front + v + back)
  {
    if Checksum(front + w + back) == Checksum(front + v + back) {
      XorCancels(Register(ONES, front + w + back), Register(ONES, front + v + back), ONES);
      RegisterSplits(ONES, front + w, back);
      RegisterSplits(ONES, front + v, back);
      RegisterSplits(ONES, front, w);
      RegisterSplits(ONES, front, v);
      RegisterIsWord(ONES, front);
      var r := Register(ONES, front);
      RegisterIsWord(r, w);
      RegisterIsWord(r, v);
      RegisterIsInjective(Register(r, w), Register(r, v), back);
      WindowsCollideOnlyIfEqual(r, w, v);
    }
  }

  lemma {:induction false} WindowsCollideOnlyIfEqual(r: Word, w: seq<CodeUnit>, v: seq<CodeUnit>)
    requires |w| == |v| <= 4
    requires Register(r, w) == Register(r, v)
    ensures LowBytes(w) == LowBytes(v)
  {
    var n, a, b := 8 * |w|, LowBytes(w), LowBytes(v);
    WindowAsBits(r, w);
    WindowAsBits(r, v);
    FeedIsXorThenShift(r, a, n);
    FeedIsXorThenShift(r, b, n);
    assert Pow2(32) == TWO32 by { Pow2Values(); }
    Pow2Mono(n, 32);
    XorBound(r, a, 32);
    XorBound(r, b, 32);
    FeedBitsIsInjective(Xor(r, a), Xor(r, b), 0, n);
    XorCommutes(r, a);
    XorCommutes(r, b);
    XorCancels(a, b, r);
  }

  // ----- the code -----

  /** Entry k of the table: eight zero bits shifted through k, stored as an int32. */
  function TableEntry(k: nat): int {
    ToInt32(FeedBits(k, 0, 8))
  }

  ghost predicate IsTable(t: seq<int>) {
    |t| == 256 && forall k :: 0 <= k < 256 ==> t[k] == TableEntry(k)
  }

  lemma StepMatches(d: Word)
    ensures (if JsAnd(ToInt32(d), 1) != 0 then JsXor(JsUshr(ToInt32(d), 1), POLY) else JsUshr(ToInt32(d), 1))
            == ToInt32(Feed(d, 0))
  {
    hide Xor, And;
    Uint32OfInt32(d);
    assert JsAnd(ToInt32(d), 1) == d % 2 by { JsAndMask(ToInt32(d), 1); }
    assert JsUshr(ToInt32(d), 1) == d / 2;
    SmallIsItself(d / 2);
  }

  lemma {:induction false} FeedLast(k: Word, e: nat)
    ensures FeedBits(k, 0, e + 1) == Feed(FeedBits(k, 0, e), 0)
    decreases e
  {
    if e > 0 {
      FeedIsWord(k, 0);
      FeedLast(Feed(k, 0), e - 1);
    }
  }

  /** The index and the next register, read off the int32 values the loop computes. */
  lemma {:induction false} LookupStep(reg: Word, c: CodeUnit, b: int)
    requires ToUint32(b) == reg
    ensures JsAnd(JsXor(b, c), 255) == Xor(reg, c) % 256
    ensures ToUint32(JsXor(JsUshr(b, 8), TableEntry(Xor(reg, c) % 256))) == FeedBits(reg, c % 256, 8) < TWO32
  {
    assert JsAnd(JsXor(b, c), 255) == Xor(reg, c) % 256 by {
      WordIsItself(c);
      JsXorWord(b, c);
      JsAndByte(JsXor(b, c));
    }
    NextRegister(reg, c, b, FeedBits(Xor(reg, c) % 256, 0, 8));
    FeedBitsIsWord(reg, c % 256, 8);
  }

  lemma {:induction false} NextRegister(reg: Word, c: CodeUnit, b: int, v: nat)
    requires ToUint32(b) == reg && v == FeedBits(Xor(reg, c) % 256, 0, 8)
    ensures ToUint32(JsXor(JsUshr(b, 8), ToInt32(v))) == FeedBits(reg, c % 256, 8)
  {
    assert Pow2(8) == 256 by { Pow2Values(); }
    XorLowPart(reg, c, 8);
    FeedBitsIsWord(Xor(reg, c) % 256, 0, 8);
    ByteStep(reg, c % 256);
    XorOfTableEntry(b, v);
  }

  lemma XorOfTableEntry(b: int, v: Word)
    ensures ToUint32(JsXor(JsUshr(b, 8), ToInt32(v))) == Xor(ToUint32(b) / 256, v)
  {
    var q := JsUshr(b, 8);
    assert q == ToUint32(b) / 256 by { JsUshrByte(b); }
    JsXorWord(q, ToInt32(v));
    assert ToUint32(ToInt32(v)) == v by { WordRoundTrip(v); }
    assert ToUint32(q) == q by { WordIsItself(q); }
  }

  /** The low n bits of a xor depend only on the low n bits of its operands. */
  lemma {:induction false} XorLowPart(x: nat, y: nat, n: nat)
    ensures Xor(x, y) % Pow2(n) == Xor(x, y % Pow2(n)) % Pow2(n)
    decreases n
  {
    if n > 0 {
      var d := Pow2(n - 1);
      var y' := y % (2 * d);
      ModHalves(y, d);
      assert y' % 2 == y % 2 && y' / 2 == (y / 2) % d;
      calc {
        Xor(x, y) % (2 * d);
        { ModHalves(Xor(x, y), d); XorHalves(x, y); }
        (x % 2 + y % 2) % 2 + 2 * (Xor(x / 2, y / 2) % d);
        { XorLowPart(x / 2, y / 2, n - 1); }
        (x % 2 + y' % 2) % 2 + 2 * (Xor(x / 2, y' / 2) % d);
        { ModHalves(Xor(x, y'), d); XorHalves(x, y'); }
        Xor(x, y') % (2 * d);
      }
    }
  }

  /** The module-level table `I` with the loop that fills it on first use. */
  class Fingerprinter {
    var table: array?<int>

    ghost predicate Valid()
      reads this, table
    {
      table != null ==> IsTable(table[..])
    }

    constructor ()
      ensures Valid() && table == null
    {
      table := null;
    }

    method BuildTable() returns (b: array<int>)
      ensures fresh(b) && IsTable(b[..])
    {
      b := new int[256];
      var c := 0;
      while c < 256
        invariant 0 <= c <= 256
        invariant forall k :: 0 <= k < c ==> b[k] == TableEntry(k)
      {
        b[c] := Entry(c);
        c := c + 1;
      }
    }

    /** The inner loop of the table: eight shifts of one index. */
    static method Entry(c: nat) returns (d: int)
      requires c < 256
      ensures d == TableEntry(c)
    {
      d := c;
      var e := 0;
      while e < 8
        invariant 0 <= e <= 8
        invariant FeedBits(c, 0, e) < TWO32 && d == ToInt32(FeedBits(c, 0, e))
      {
        StepMatches(FeedBits(c, 0, e));
        FeedLast(c, e);
        FeedIsWord(FeedBits(c, 0, e), 0);
        d := if JsAnd(d, 1) != 0 then JsXor(JsUshr(d, 1), POLY) else JsUshr(d, 1);
        e := e + 1;
      }
    }

    /** The returned number is the bit-serial checksum, and the table is kept for the next call. */
    method Crc(a: seq<CodeUnit>) returns (crc: Word)
      requires Valid()
      modifies this`table
      ensures Valid() && table != null
      ensures old(table) != null ==> table == old(table)
      ensures crc == Checksum(a)
    {
      hide IsTable, Checksum;
      var t := table;
      if t == null {
        t := BuildTable();
      }
      table := t;
      crc := CrcWith(t, a);
    }

    /** The loop over the characters. */
    static method CrcWith(t: array<int>, a: seq<CodeUnit>) returns (crc: Word)
      requires IsTable(t[..])
      ensures crc == Checksum(a)
    {
      var b: int := ONES;
      var c := 0;
      ghost var reg := ONES;
      assert a[0..] == a && ToUint32(ONES) == ONES;
      hide FeedBits, TableEntry, Xor, Register, IsTable, JsAnd, JsXor, JsUshr, ToUint32, ToInt32;
      while c < |a|
        invariant 0 <= c <= |a|
        invariant reg < TWO32 && ToUint32(b) == reg
        invariant Register(ONES, a) == Register(reg, a[c..])
      {
        LookedUp(t[..], reg, a[c], b);
        RegisterStep(reg, a, c);
        var k := JsAnd(JsXor(b, a[c]), 255);
        b := JsXor(JsUshr(b, 8), t[k]);
        reg := FeedBits(reg, a[c] % 256, 8);
        c := c + 1;
      }
      RegisterOfNothing(reg, a[c..]);
      FinalXor(b, reg);
      crc := JsUshr(JsXor(b, -1), 0);
    }
  }

  lemma LookedUp(t: seq<int>, reg: Word, c: CodeUnit, b: int)
    requires IsTable(t) && ToUint32(b) == reg
    ensures var k := JsAnd(JsXor(b, c), 255);
      0 <= k < |t| && ToUint32(JsXor(JsUshr(b, 8), t[k])) == FeedBits(reg, c % 256, 8) < TWO32
  {
    LookupStep(reg, c, b);
    hide FeedBits, TableEntry, Xor, JsAnd, JsXor, JsUshr, ToUint32;
  }

  lemma RegisterStep(reg: nat, message: seq<CodeUnit>, c: nat)
    requires c < |message|
    ensures Register(reg, message[c..]) == Register(FeedBits(reg, message[c] % 256, 8), message[c + 1..])
  {
    hide FeedBits;
    assert message[c..][1..] == message[c + 1..];
  }

  lemma RegisterOfNothing(reg: nat, message: seq<CodeUnit>)
    requires message == []
    ensures Register(reg, message) == reg
  {
  }

  lemma FinalXor(b: int, reg: Word)
    requires ToUint32(b) == reg
    ensures JsUshr(JsXor(b, -1), 0) == Xor(reg, ONES)
  {
    JsXorWord(b, -1);
    assert ToUint32(-1) == ONES;
  }
}
