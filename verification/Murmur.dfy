/** MurmurHash3 (x86, 32 bits) over 16-bit limbs.  The multiplication, the rotation and the addition of every
    round are computed on JavaScript numbers, which are exact up to 2^53, so every intermediate has a type that
    says how large it may get; the reference works on 32-bit words. */
module Murmur {
  import opened JsBits

  type Byte = x: int | 0 <= x < 256

  // ----- the reference algorithm, modulo 2^32 -----

  const C1: Word := 0xcc9e2d51
  const C2: Word := 0x1b873593

  function Mul32(a: Word, b: Word): Word { (a * b) % 0x1_0000_0000 }

  function Rotl(x: Word, k: nat): Word
    requires 0 < k < 32
  {
    RotlIsWord(x, k);
    (x * Pow2(k)) % 0x1_0000_0000 + x / Pow2(32 - k)
  }

  function MixKey(k: Word): Word { Mul32(Rotl(Mul32(k, C1), 15), C2) }

  function XorW(x: Word, y: Word): Word {
    XorIsWord(x, y);
    Xor(x, y)
  }

  function Round(h: Word, k: Word): Word {
    (Rotl(XorW(h, MixKey(k)), 13) * 5 + 0xe6546b64) % 0x1_0000_0000
  }

  function LittleEndian(bytes: seq<Byte>): nat
    decreases |bytes|
  {
    if bytes == [] then 0 else bytes[0] + 256 * LittleEndian(bytes[1..])
  }

  function Block(b0: Byte, b1: Byte, b2: Byte, b3: Byte): Word {
    b0 + 0x100 * b1 + 0x1_0000 * b2 + 0x100_0000 * b3
  }

  function Body(bytes: seq<Byte>, h: Word): Word
    decreases |bytes|
  {
    if |bytes| >= 4 then
      Body(bytes[4..], Round(h, Block(bytes[0], bytes[1], bytes[2], bytes[3])))
    else if |bytes| == 3 then XorW(h, MixKey(Block(bytes[0], bytes[1], bytes[2], 0)))
    else if |bytes| == 2 then XorW(h, MixKey(Block(bytes[0], bytes[1], 0, 0)))
    else if |bytes| == 1 then XorW(h, MixKey(Block(bytes[0], 0, 0, 0)))
    else h
  }

  function Finalize(h: Word): Word {
    var a := Mul32(XorW(h, h / 0x1_0000), 0x85ebca6b);
    var b := Mul32(XorW(a, a / 0x2000), 0xc2b2ae35);
    XorW(b, b / 0x1_0000)
  }

  function Reference(bytes: seq<Byte>, seed: Word): Word {
    Finalize(XorW(Body(bytes, seed), |bytes| % 0x1_0000_0000))
  }

  function LowBytes(text: seq<CodeUnit>): seq<Byte> {
    seq(|text|, i requires 0 <= i < |text| => text[i] % 256)
  }

  // ----- the expressions of the code, with every intermediate an exact number -----

  /** `(65535 & u) * o + (((u >>> 16) * o & 65535) << 16) & 4294967295` */
  function Limb(u: int, o: Word): Safe {
    LimbIntermediates(u, o);
    var low: Safe := JsAnd(65535, u) * o;
    var high: Safe := JsUshr(u, 16) * o;
    var sum: Safe := low + JsShl(JsAnd(high, 65535), 16);
    JsAnd(sum, 4294967295)
  }

  /** `u << k | u >>> 32 - k` */
  function RotateLeft(u: int, k: nat): Safe
    requires 0 < k < 32
  {
    JsOr(JsShl(u, k), JsUshr(u, 32 - k))
  }

  /** `(65535 & a) + 27492 + (((a >>> 16) + 58964 & 65535) << 16)` */
  function AddRoundConstant(a: int): Safe {
    AddIntermediates(a);
    JsAnd(65535, a) + 27492 + JsShl(JsAnd(JsUshr(a, 16) + 58964, 65535), 16)
  }

  /** Four characters, the first one lowest. */
  function LoadBlock(c0: CodeUnit, c1: CodeUnit, c2: CodeUnit, c3: CodeUnit): Safe {
    JsOr(JsOr(JsOr(JsAnd(255, c0), JsShl(JsAnd(255, c1), 8)), JsShl(JsAnd(255, c2), 16)), JsShl(JsAnd(255, c3), 24))
  }

  // ----- each expression against the reference -----

  lemma JsAndLow16(x: int)
    ensures JsAnd(65535, x) == JsAnd(x, 65535) == ToUint32(x) % 0x1_0000
  {
    assert Pow2(16) == 65536 by { Pow2Values(); }
    JsAndMask(x, 16);
  }

  lemma JsUshr16(x: int)
    ensures JsUshr(x, 16) == ToUint32(x) / 0x1_0000 < 0x1_0000
  {
    assert Pow2(16) == 65536 by { Pow2Values(); }
  }

  lemma JsShl16(x: nat)
    requires x < 0x1_0000
    ensures JsShl(x, 16) == ToInt32(x * 0x1_0000)
  {
    assert Pow2(16) == 65536 by { Pow2Values(); }
  }

  lemma LimbIntermediates(u: int, o: Word)
    ensures 0 <= JsAnd(65535, u) * o < 0x1_0000_0000_0000
    ensures 0 <= JsUshr(u, 16) * o < 0x1_0000_0000_0000
  {
    JsAndLow16(u);
    JsUshr16(u);
    ProductBound(JsAnd(65535, u), o);
    ProductBound(JsUshr(u, 16), o);
  }

  lemma ProductBound(x: nat, o: Word)
    requires x < 0x1_0000
    ensures 0 <= x * o < 0x1_0000_0000_0000
  {
    MulMonotone(x, 0xFFFF, o);
  }

  lemma AddIntermediates(a: int)
    ensures 0 <= JsAnd(65535, a) < 0x1_0000 && 0 <= JsUshr(a, 16) < 0x1_0000
  {
    JsAndLow16(a);
    JsUshr16(a);
  }

  lemma {:induction false} JsAndOnes(x: int)
    ensures JsAnd(x, 4294967295) == ToInt32(x)
  {
    assert Pow2(32) == 0x1_0000_0000 by { Pow2Values(); }
    AndMask(ToUint32(x), 32);
    WordIsItself(ToUint32(x));
  }

  lemma LimbMultiplies(u: int, o: Word)
    ensures ToUint32(Limb(u, o)) == Mul32(ToUint32(u), o)
  {
    var w := ToUint32(u);
    var lo, hi := w % 0x1_0000, w / 0x1_0000;
    LimbUnfolds(u, o, lo, hi);
    LimbArithmetic(w, lo, hi, o);
  }

  lemma LimbUnfolds(u: int, o: Word, lo: nat, hi: nat)
    requires lo == ToUint32(u) % 0x1_0000 && hi == ToUint32(u) / 0x1_0000
    ensures Limb(u, o) == ToInt32(lo * o + ToInt32((hi * o) % 0x1_0000 * 0x1_0000))
  {
    LimbIntermediates(u, o);
    assert JsAnd(65535, u) == lo by { JsAndLow16(u); }
    assert JsUshr(u, 16) == hi by { JsUshr16(u); }
    var high: Safe := hi * o;
    var h := high % 0x1_0000;
    assert JsAnd(high, 65535) == h by { JsAndLow16(high); ModMod(high); }
    assert JsShl(h, 16) == ToInt32(h * 0x1_0000) by { JsShl16(h); }
    var sum: Safe := lo * o + JsShl(h, 16);
    JsAndOnes(sum);
  }

  lemma ModMod(x: nat)
    ensures (x % 0x1_0000_0000) % 0x1_0000 == x % 0x1_0000
  {
  }

  lemma LimbArithmetic(w: Word, lo: nat, hi: nat, o: Word)
    requires lo == w % 0x1_0000 && hi == w / 0x1_0000
    ensures ToUint32(ToInt32(lo * o + ToInt32((hi * o) % 0x1_0000 * 0x1_0000))) == Mul32(w, o)
  {
    var a, b := lo * o, hi * o;
    assert w * o == a + 0x1_0000 * b by { assert w == lo + 0x1_0000 * hi; SplitProduct(lo, hi, o); }
    LowLimbs(a, b);
  }

  lemma SplitProduct(lo: nat, hi: nat, o: nat)
    ensures (lo + 0x1_0000 * hi) * o == lo * o + 0x1_0000 * (hi * o)
  {
  }

  lemma LowLimbs(a: nat, b: nat)
    ensures ToUint32(ToInt32(a + ToInt32(b % 0x1_0000 * 0x1_0000))) == (a + 0x1_0000 * b) % 0x1_0000_0000
  {
    var t := b % 0x1_0000 * 0x1_0000;
    var s := ToInt32(t);
    Uint32OfInt32(a + s);
    assert t < 0x1_0000_0000;
    assert s == t || s == t - 0x1_0000_0000;
    assert (a + s) % 0x1_0000_0000 == (a + t) % 0x1_0000_0000 by {
      WholeTurns(a + s, 1);
    }
    assert 0x1_0000 * b == t + b / 0x1_0000 * 0x1_0000_0000;
    WholeTurns(a + t, b / 0x1_0000);
  }

  lemma WholeTurns(x: int, k: nat)
    ensures (x + k * 0x1_0000_0000) % 0x1_0000_0000 == x % 0x1_0000_0000
  {
  }

  lemma RotlParts(x: Word, k: nat)
    requires 0 < k < 32
    ensures Pow2(k) * Pow2(32 - k) == 0x1_0000_0000
    ensures (x * Pow2(k)) % 0x1_0000_0000 == (x % Pow2(32 - k)) * Pow2(k)
    ensures x / Pow2(32 - k) < Pow2(k)
  {
    assert Pow2(k) * Pow2(32 - k) == 0x1_0000_0000 by {
      Pow2Adds(k, 32 - k);
      Pow2Values();
    }
    hide Pow2;
    CutParts(x, Pow2(k), Pow2(32 - k));
  }

  lemma CutParts(x: Word, p: nat, q: nat)
    requires q > 0 && p * q == 0x1_0000_0000
    ensures (x * p) % 0x1_0000_0000 == (x % q) * p && x / q < p
  {
    var a, b := x / q, x % q;
    assert x == a * q + b;
    ModBound(x, q);
    RotlProduct(a, b, p, q);
    assert (x * p) % 0x1_0000_0000 == b * p by {
      DivModUnique(x * p, 0x1_0000_0000, a, b * p);
    }
    QuotientBelow(x, a, b, p, q);
  }

  lemma QuotientBelow(x: Word, a: nat, b: nat, p: nat, q: nat)
    requires p * q == 0x1_0000_0000 && x == a * q + b
    ensures a < p
  {
    if a >= p {
      MulMonotone(p, a, q);
    }
  }

  lemma MulMonotone(x: nat, y: nat, d: nat)
    requires x <= y
    ensures x * d <= y * d
  {
  }

  lemma RotlProduct(a: nat, b: nat, p: nat, q: nat)
    requires p * q == 0x1_0000_0000 && b < q && p > 0
    ensures (a * q + b) * p == a * 0x1_0000_0000 + b * p
    ensures 0 <= b * p < 0x1_0000_0000
  {
    assert (a * q + b) * p == a * q * p + b * p == a * (q * p) + b * p;
    MulMonotone(b + 1, q, p);
    assert (b + 1) * p == b * p + p;
  }

  lemma RotlIsWord(x: Word, k: nat)
    requires 0 < k < 32
    ensures 0 <= (x * Pow2(k)) % 0x1_0000_0000 + x / Pow2(32 - k) < 0x1_0000_0000
  {
    RotlParts(x, k);
    ModBound(x, Pow2(32 - k));
    hide Pow2;
    RotlSum(x / Pow2(32 - k), x % Pow2(32 - k), Pow2(k), Pow2(32 - k));
  }

  lemma RotlSum(a: nat, b: nat, p: nat, q: nat)
    requires p * q == 0x1_0000_0000 && a < p && b < q
    ensures 0 <= b * p + a < 0x1_0000_0000
  {
    MulMonotone(b + 1, q, p);
    assert (b + 1) * p == b * p + p;
    assert q * p == p * q;
    MulMonotone(0, b, p);
  }

  lemma {:induction false} JsOrDisjoint(h: nat, l: nat, k: nat, x: int, y: int)
    requires l < Pow2(k) && ToUint32(x) == h * Pow2(k) && ToUint32(y) == l
    requires h * Pow2(k) + l < 0x1_0000_0000
    ensures ToUint32(JsOr(x, y)) == ToUint32(JsOr(y, x)) == h * Pow2(k) + l
  {
    OrDisjoint(h, l, k);
    OrCommutes(h * Pow2(k), l);
    WordRoundTrip(h * Pow2(k) + l);
  }

  lemma RotateMatches(u: int, k: nat)
    requires 0 < k < 32
    ensures ToUint32(RotateLeft(u, k)) == Rotl(ToUint32(u), k)
  {
    var w := ToUint32(u);
    var p, q := Pow2(k), Pow2(32 - k);
    RotlParts(w, k);
    RotlIsWord(w, k);
    Uint32OfInt32(w * p);
    DivShrinks(w, q);
    WordIsItself(w / q);
    JsOrDisjoint(w % q, w / q, k, JsShl(u, k), JsUshr(u, 32 - k));
  }

  lemma AddMatches(a: int)
    ensures ToUint32(AddRoundConstant(a)) == (ToUint32(a) + 0xe6546b64) % 0x1_0000_0000
  {
    var w := ToUint32(a);
    var hi: Safe := w / 0x1_0000 + 58964;
    assert JsAnd(65535, a) == w % 0x1_0000 by { JsAndLow16(a); }
    assert JsUshr(a, 16) == w / 0x1_0000 by { JsUshr16(a); }
    assert JsAnd(hi, 65535) == hi % 0x1_0000 by { JsAndLow16(hi); WordIsItself(hi); }
    assert JsShl(hi % 0x1_0000, 16) == ToInt32(hi % 0x1_0000 * 0x1_0000) by { JsShl16(hi % 0x1_0000); }
    AddArithmetic(w);
  }

  lemma AddArithmetic(w: Word)
    ensures ToUint32(w % 0x1_0000 + 27492 + ToInt32((w / 0x1_0000 + 58964) % 0x1_0000 * 0x1_0000))
            == (w + 0xe6546b64) % 0x1_0000_0000
  {
    LowLimbs(w % 0x1_0000 + 27492, w / 0x1_0000 + 58964);
    var x := w % 0x1_0000 + 27492 + ToInt32((w / 0x1_0000 + 58964) % 0x1_0000 * 0x1_0000);
    Uint32OfInt32(x);
    assert 27492 + 0x1_0000 * 58964 == 0xe6546b64;
  }

  lemma JsShlByte(c: CodeUnit, k: nat, p: nat)
    requires k < 32 && p == Pow2(k) && c % 256 * p < 0x1_0000_0000
    ensures JsAnd(255, c) == c % 256
    ensures ToUint32(JsShl(c % 256, k)) == c % 256 * p
  {
    JsAndByte(c);
    WordIsItself(c);
    hide JsAnd, Pow2, JsShl;
    ShiftedByte(c % 256, k, p);
  }

  lemma ShiftedByte(b: nat, k: nat, p: nat)
    requires k < 32 && p == Pow2(k) && b < 256 && b * p < 0x1_0000_0000
    ensures ToUint32(JsShl(b, k)) == b * p
  {
    hide Pow2;
    WordIsItself(b);
    WordRoundTrip(b * p);
  }

  lemma LoadMatches(c0: CodeUnit, c1: CodeUnit, c2: CodeUnit, c3: CodeUnit)
    ensures ToUint32(LoadBlock(c0, c1, c2, c3)) == Block(c0 % 256, c1 % 256, c2 % 256, c3 % 256)
  {
    var p8, p16, p24 := Pow2(8), Pow2(16), Pow2(24);
    assert p8 == 0x100 && p16 == 0x1_0000 && p24 == 0x100_0000 by { Pow2Values(); }
    JsAndByte(c0);
    WordIsItself(c0);
    WordIsItself(c0 % 256);
    JsShlByte(c1, 8, p8);
    JsShlByte(c2, 16, p16);
    JsShlByte(c3, 24, p24);
    var x0, x1, x2, x3 := JsAnd(255, c0), JsShl(c1 % 256, 8), JsShl(c2 % 256, 16), JsShl(c3 % 256, 24);
    var b0, b1, b2, b3 := c0 % 256, c1 % 256, c2 % 256, c3 % 256;
    JsOrDisjoint(b1, b0, 8, x1, x0);
    JsOrDisjoint(b2, b1 * p8 + b0, 16, x2, JsOr(x0, x1));
    JsOrDisjoint(b3, b2 * p16 + b1 * p8 + b0, 24, x3, JsOr(JsOr(x0, x1), x2));
  }

  // ----- the whole hash -----

  /** `(u = Limb(u, o), u = u << 15 | u >>> 17, u = Limb(u, s))`: the key mixing of both loops. */
  function MixExpression(u: int): Safe {
    Limb(RotateLeft(Limb(u, 3432918353), 15), 461845907)
  }

  lemma MixMatches(u: int)
    ensures ToUint32(MixExpression(u)) == MixKey(ToUint32(u))
  {
    LimbMultiplies(u, 3432918353);
    RotateMatches(Limb(u, 3432918353), 15);
    LimbMultiplies(RotateLeft(Limb(u, 3432918353), 15), 461845907);
  }

  /** The rest of a round: `r ^= u, r = r << 13 | r >>> 19, a = 5 * r, r = a + 0xe6546b64`. */
  method MixIntoHash(r: Safe, u: Safe, ghost k: Word) returns (r': Safe)
    requires ToUint32(u) == MixKey(k)
    ensures ToUint32(r') == Round(ToUint32(r), k)
  {
    hide Limb, AddRoundConstant, RotateLeft, Rotl, MixKey, Mul32;
    var x := JsXor(r, u);
    assert ToUint32(x) == XorW(ToUint32(r), MixKey(k)) by { JsXorWord(r, u); }
    var y := RotateLeft(x, 13);
    assert ToUint32(y) == Rotl(ToUint32(x), 13) by { RotateMatches(x, 13); }
    var a := Limb(y, 5);
    assert ToUint32(a) == Mul32(ToUint32(y), 5) by { LimbMultiplies(y, 5); }
    r' := AddRoundConstant(a);
    AddMatches(a);
    RoundArithmetic(ToUint32(y));
  }

  lemma RoundArithmetic(w: Word)
    ensures (Mul32(w, 5) + 0xe6546b64) % 0x1_0000_0000 == (w * 5 + 0xe6546b64) % 0x1_0000_0000
  {
    WholeTurns(Mul32(w, 5) + 0xe6546b64, w * 5 / 0x1_0000_0000);
  }

  lemma BodyStep(text: seq<CodeUnit>, c: nat, h: Word)
    requires c + 4 <= |text|
    ensures Body(LowBytes(text)[c..], h) ==
            Body(LowBytes(text)[c + 4..],
                 Round(h, Block(text[c] % 256, text[c + 1] % 256, text[c + 2] % 256, text[c + 3] % 256)))
  {
    var bytes := LowBytes(text)[c..];
    assert bytes[4..] == LowBytes(text)[c + 4..];
  }

  /** `u ^= (255 & e.charCodeAt(c + j)) << k`, where u holds only higher bytes. */
  method XorByte(u: Safe, c: CodeUnit, k: nat, ghost p: nat, ghost high: nat) returns (u': Safe)
    requires (k == 8 && p == 0x100) || (k == 16 && p == 0x1_0000)
    requires ToUint32(u) == high * (p * 0x100)
    ensures ToUint32(u') == high * (p * 0x100) + c % 256 * p
  {
    hide JsXor, JsShl, JsAnd;
    assert p == Pow2(k) && Pow2(8) == 0x100 by { Pow2Values(); }
    JsShlByte(c, k, p);
    u' := JsXor(u, JsShl(JsAnd(255, c), k));
    JsXorWord(u, JsShl(c % 256, k));
    assert Pow2(k + 8) == p * 0x100 by { Pow2Adds(k, 8); }
    MulMonotone(c % 256 + 1, 0x100, p);
    XorDisjoint(high, c % 256 * p, k + 8);
  }

  /** The character j places after c, or 0 past the end. */
  function TailByte(e: seq<CodeUnit>, c: nat, j: nat): Byte {
    if c + j < |e| then e[c + j] % 256 else 0
  }

  lemma TailBody(e: seq<CodeUnit>, c: nat, h: Word)
    requires c <= |e| < c + 4
    ensures Body(LowBytes(e)[c..], h) ==
            if c == |e| then h
            else XorW(h, MixKey(Block(TailByte(e, c, 0), TailByte(e, c, 1), TailByte(e, c, 2), 0)))
  {
    hide MixKey, XorW, Block;
    assert |LowBytes(e)[c..]| == |e| - c;
  }

  /** The switch over the one to three characters after the last whole block. */
  method Tail(e: seq<CodeUnit>, c: nat, r: Safe) returns (r': Safe)
    requires c <= |e| < c + 4
    ensures ToUint32(r') == Body(LowBytes(e)[c..], ToUint32(r))
  {
    hide MixKey, MixExpression, JsXor, JsShl, JsAnd, JsOr, Xor, Body;
    var i := |e| - c;
    var u: Safe := 0;
    r' := r;
    ghost var b1: nat, b2: nat, b3: nat := TailByte(e, c, 0), TailByte(e, c, 1), TailByte(e, c, 2);
    TailBody(e, c, ToUint32(r));
    if i == 3 {
      u := XorByte(u, e[c + 2], 16, 0x1_0000, 0);
    }
    assert ToUint32(u) == b3 * 0x1_0000;
    if i >= 2 {
      u := XorByte(u, e[c + 1], 8, 0x100, b3);
    }
    assert ToUint32(u) == b3 * 0x1_0000 + b2 * 0x100;
    if i >= 1 {
      u := XorLastByte(u, e[c], b3 * 0x100 + b2);
      assert ToUint32(u) == Block(b1, b2, b3, 0);
      MixMatches(u);
      u := MixExpression(u);
      JsXorWord(r, u);
      r' := JsXor(r, u);
    }
  }

  /** Case 1 of the switch has no shift. */
  method XorLastByte(u: Safe, c: CodeUnit, ghost high: nat) returns (u': Safe)
    requires ToUint32(u) == high * 0x100
    ensures ToUint32(u') == high * 0x100 + c % 256
  {
    JsAndByte(c);
    WordIsItself(c);
    WordIsItself(c % 256);
    u' := JsXor(u, JsAnd(255, c));
    JsXorWord(u, c % 256);
    assert Pow2(8) == 0x100 by { Pow2Values(); }
    XorDisjoint(high, c % 256, 8);
  }

  lemma FinalMatches(r: int, h: Word)
    requires ToUint32(r) == h
    ensures var a := Limb(JsXor(r, JsUshr(r, 16)), 2246822507);
            var b := Limb(JsXor(a, JsUshr(a, 13)), 3266489909);
            JsUshr(JsXor(b, JsUshr(b, 16)), 0) == Finalize(h)
  {
    hide JsXor, Limb, Xor;
    JsUshr16(r);
    var x := JsXor(r, JsUshr(r, 16));
    assert ToUint32(x) == XorW(h, h / 0x1_0000) by { JsXorWord(r, JsUshr(r, 16)); WordIsItself(JsUshr(r, 16)); }
    LimbMultiplies(x, 2246822507);
    var a := Limb(x, 2246822507);
    var wa := ToUint32(a);
    assert JsUshr(a, 13) == wa / 0x2000 by { assert Pow2(13) == 0x2000 by { Pow2Values(); } }
    var y := JsXor(a, JsUshr(a, 13));
    assert ToUint32(y) == XorW(wa, wa / 0x2000) by { JsXorWord(a, JsUshr(a, 13)); WordIsItself(JsUshr(a, 13)); }
    LimbMultiplies(y, 3266489909);
    var b := Limb(y, 3266489909);
    JsUshr16(b);
    JsXorWord(b, JsUshr(b, 16));
    WordIsItself(JsUshr(b, 16));
  }

  /** The length comes last, before the finalizer. */
  lemma LengthMatches(e: seq<CodeUnit>, seed: Word, r: Safe)
    requires ToUint32(r) == Body(LowBytes(e), seed)
    ensures Finalize(ToUint32(JsXor(r, |e|))) == Reference(LowBytes(e), seed)
  {
    JsXorWord(r, |e|);
    hide Finalize, Body, Xor, JsXor;
  }

  /** `murmur.v3`: every intermediate is exact (the types say so) and the result is the reference hash. */
  method V3(e: seq<CodeUnit>, t: Safe) returns (hash: Word)
    ensures hash == Reference(LowBytes(e), ToUint32(t))
  {
    hide MixExpression, LoadBlock, MixKey, Round, JsXor, Finalize, Xor, Body, Reference, ToUint32, XorW, Block;
    var i := |e| % 4;
    var n := |e| - i;
    var r: Safe := t;
    var c := 0;
    ghost var seed := ToUint32(t);
    assert LowBytes(e)[0..] == LowBytes(e);
    while c < n
      invariant 0 <= c <= n && c % 4 == 0
      invariant Body(LowBytes(e), seed) == Body(LowBytes(e)[c..], ToUint32(r))
    {
      BodyStep(e, c, ToUint32(r));
      var u := LoadBlock(e[c], e[c + 1], e[c + 2], e[c + 3]);
      LoadMatches(e[c], e[c + 1], e[c + 2], e[c + 3]);
      ghost var k := ToUint32(u);
      c := c + 4;
      MixMatches(u);
      u := MixExpression(u);
      r := MixIntoHash(r, u, k);
    }
    r := Tail(e, c, r);
    LengthMatches(e, seed, r);
    hash := Avalanche(JsXor(r, |e|));
  }

  /** The two multiplications and three shifts that end the hash. */
  method Avalanche(h: Safe) returns (hash: Word)
    ensures hash == Finalize(ToUint32(h))
  {
    FinalMatches(h, ToUint32(h));
    hide JsXor, JsUshr, Limb, Finalize, ToUint32;
    var r := JsXor(h, JsUshr(h, 16));
    r := Limb(r, 2246822507);
    r := JsXor(r, JsUshr(r, 13));
    r := Limb(r, 3266489909);
    r := JsXor(r, JsUshr(r, 16));
    hash := JsUshr(r, 0);
  }
}
