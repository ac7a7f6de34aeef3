/** The 32-bit operators of ECMAScript on integer-valued numbers, and the few laws
    the hashing and codec modules need.  Bitwise operators are defined bit by bit on
    naturals and lifted through ToUint32/ToInt32. */
module JsBits {

  const TWO32: nat := 0x1_0000_0000
  const TWO31: nat := 0x8000_0000

  /** The numbers on which double-precision addition and multiplication are exact. */
  type Safe = x: int | -0x20_0000_0000_0000 < x < 0x20_0000_0000_0000

  type Word = x: int | 0 <= x < 0x1_0000_0000

  /** One UTF-16 code unit, as charCodeAt returns it. */
  type CodeUnit = x: int | 0 <= x < 0x1_0000

  function Pow2(n: nat): (p: nat)
    ensures p >= 1
  {
    if n == 0 then 1 else 2 * Pow2(n - 1)
  }

  // ----- bitwise operators on naturals -----

  function Xor(x: nat, y: nat): nat
    decreases x + y
  {
    if x == 0 && y == 0 then 0 else (x % 2 + y % 2) % 2 + 2 * Xor(x / 2, y / 2)
  }

  function And(x: nat, y: nat): nat
    decreases x + y
  {
    if x == 0 && y == 0 then 0 else (if x % 2 == 1 && y % 2 == 1 then 1 else 0) + 2 * And(x / 2, y / 2)
  }

  function Or(x: nat, y: nat): nat
    decreases x + y
  {
    if x == 0 && y == 0 then 0 else (if x % 2 == 1 || y % 2 == 1 then 1 else 0) + 2 * Or(x / 2, y / 2)
  }

  // ----- the operators of the language -----

  function ToUint32(x: int): Word { x % 0x1_0000_0000 }

  function ToInt32(x: int): Safe {
    var u := ToUint32(x);
    if u >= 0x8000_0000 then u - 0x1_0000_0000 else u
  }

  /** `x & y`, `x | y`, `x ^ y`, `x << k`, `x >> k`, `x >>> k` */
  function JsAnd(x: int, y: int): Safe { ToInt32(And(ToUint32(x), ToUint32(y))) }

  function JsOr(x: int, y: int): Safe { ToInt32(Or(ToUint32(x), ToUint32(y))) }

  function JsXor(x: int, y: int): Safe { ToInt32(Xor(ToUint32(x), ToUint32(y))) }

  function JsShl(x: int, k: nat): Safe
    requires k < 32
  {
    ToInt32(ToUint32(x) * Pow2(k))
  }

  function JsSar(x: int, k: nat): int
    requires k < 32
  {
    ToInt32(x) / Pow2(k)
  }

  function JsUshr(x: int, k: nat): Word
    requires k < 32
  {
    DivShrinks(ToUint32(x), Pow2(k));
    ToUint32(x) / Pow2(k)
  }

  lemma DivShrinks(x: nat, d: nat)
    requires d >= 1
    ensures 0 <= x / d <= x
  {
  }

  // ----- laws of the natural operators -----

  lemma XorZero(x: nat)
    ensures Xor(x, 0) == x == Xor(0, x)
  {
  }

  lemma XorCommutes(x: nat, y: nat)
    ensures Xor(x, y) == Xor(y, x)
    decreases x + y
  {
  }

  lemma {:induction false} XorAssociates(x: nat, y: nat, z: nat)
    ensures Xor(Xor(x, y), z) == Xor(x, Xor(y, z))
    decreases x + y + z
  {
    hide Xor;
    if x + y + z == 0 {
      XorZero(0);
    } else {
      XorAssociates(x / 2, y / 2, z / 2);
      XorHalves(Xor(x, y), z);
      XorHalves(x, y);
      XorHalves(x, Xor(y, z));
      XorHalves(y, z);
      Parities(x % 2, y % 2, z % 2, Xor(x, y) % 2, Xor(y, z) % 2);
      HalvesDetermine(Xor(Xor(x, y), z), Xor(x, Xor(y, z)));
    }
  }

  lemma Parities(a: nat, b: nat, c: nat, ab: nat, bc: nat)
    requires a < 2 && b < 2 && c < 2 && ab == (a + b) % 2 && bc == (b + c) % 2
    ensures (ab + c) % 2 == (a + bc) % 2
  {
  }

  lemma HalvesDetermine(l: nat, r: nat)
    requires l / 2 == r / 2 && l % 2 == r % 2
    ensures l == r
  {
  }

  lemma XorHalves(x: nat, y: nat)
    ensures Xor(x, y) / 2 == Xor(x / 2, y / 2)
    ensures Xor(x, y) % 2 == (x % 2 + y % 2) % 2
  {
  }

  lemma XorSelf(x: nat)
    ensures Xor(x, x) == 0
  {
  }

  /** Xor of n-bit numbers is an n-bit number. */
  lemma {:induction false} XorBound(x: nat, y: nat, n: nat)
    requires x < Pow2(n) && y < Pow2(n)
    ensures Xor(x, y) < Pow2(n)
    decreases n
  {
    if n > 0 {
      XorBound(x / 2, y / 2, n - 1);
      XorHalves(x, y);
    }
  }

  lemma {:induction false} XorCancels(x: nat, y: nat, z: nat)
    requires Xor(x, z) == Xor(y, z)
    ensures x == y
  {
    XorAssociates(x, z, z);
    XorAssociates(y, z, z);
    XorSelf(z);
    XorZero(x);
    XorZero(y);
  }

  lemma Double(n: nat)
    requires n > 0
    ensures Pow2(n) == 2 * Pow2(n - 1)
  {
  }

  /** Multiplying by a power of two and adding a smaller number sets disjoint bits. */
  lemma {:induction false} XorDisjoint(h: nat, l: nat, n: nat)
    requires l < Pow2(n)
    ensures Xor(h * Pow2(n), l) == h * Pow2(n) + l
    decreases n
  {
    if n == 0 {
      XorZero(h);
    } else {
      HalveSum(h, l, n);
      HalveBound(l, n);
      hide Xor, Pow2;
      XorDisjoint(h, l / 2, n - 1);
      XorOfSum(h * Pow2(n - 1), l);
    }
  }

  lemma XorOfSum(high: nat, l: nat)
    requires Xor(high, l / 2) == high + l / 2
    ensures Xor(2 * high, l) == 2 * high + l
  {
    XorHalves(2 * high, l);
    hide Xor;
    SumFromHalves(Xor(2 * high, l), high, 2 * high, l);
  }

  /** A number whose half is high + l / 2, and which is as odd as l. */
  lemma SumFromHalves(r: nat, high: nat, twice: nat, l: nat)
    requires twice == 2 * high && r / 2 == high + l / 2 && r % 2 == l % 2
    ensures r == twice + l
  {
  }

  lemma HalveBound(l: nat, n: nat)
    requires n > 0 && l < Pow2(n)
    ensures l / 2 < Pow2(n - 1)
  {
  }

  lemma HalveSum(h: nat, l: nat, n: nat)
    requires n > 0
    ensures h * Pow2(n) == 2 * (h * Pow2(n - 1)) && h * Pow2(n - 1) >= 0
    ensures h * Pow2(n) / 2 == h * Pow2(n - 1) && h * Pow2(n) % 2 == 0
  {
    assert h * Pow2(n) == h * (2 * Pow2(n - 1)) == 2 * (h * Pow2(n - 1));
  }

  lemma OrCommutes(x: nat, y: nat)
    ensures Or(x, y) == Or(y, x)
    decreases x + y
  {
  }

  lemma OrZero(x: nat)
    ensures Or(x, 0) == x
  {
  }

  lemma OrHalves(x: nat, y: nat)
    ensures Or(x, y) / 2 == Or(x / 2, y / 2)
    ensures Or(x, y) % 2 == if x % 2 == 1 || y % 2 == 1 then 1 else 0
  {
  }

  lemma {:induction false} OrDisjoint(h: nat, l: nat, n: nat)
    requires l < Pow2(n)
    ensures Or(h * Pow2(n), l) == h * Pow2(n) + l
    decreases n
  {
    if n == 0 {
      OrZero(h);
    } else {
      HalveSum(h, l, n);
      HalveBound(l, n);
      hide Or, Pow2;
      OrDisjoint(h, l / 2, n - 1);
      OrOfSum(h * Pow2(n - 1), l);
    }
  }

  lemma OrOfSum(high: nat, l: nat)
    requires Or(high, l / 2) == high + l / 2
    ensures Or(2 * high, l) == 2 * high + l
  {
    OrHalves(2 * high, l);
    hide Or;
    SumFromHalves(Or(2 * high, l), high, 2 * high, l);
  }

  lemma {:induction false} OrAtMost(x: nat, y: nat)
    ensures Or(x, y) <= x + y
    decreases x + y
  {
    if x + y > 0 {
      OrAtMost(x / 2, y / 2);
      OrHalves(x, y);
      hide Or;
      assert Or(x, y) <= 2 * (x / 2 + y / 2) + x % 2 + y % 2;
    }
  }

  /** Or of n-bit numbers is an n-bit number. */
  lemma {:induction false} OrBound(x: nat, y: nat, n: nat)
    requires x < Pow2(n) && y < Pow2(n)
    ensures Or(x, y) < Pow2(n)
    decreases n
  {
    if n > 0 {
      Double(n);
      HalveBound(x, n);
      HalveBound(y, n);
      OrBound(x / 2, y / 2, n - 1);
      OrHalves(x, y);
      hide Or, Pow2;
    }
  }

  lemma {:induction false} AndAtMost(x: nat, y: nat)
    ensures And(x, y) <= y
    decreases x + y
  {
    if x + y > 0 {
      AndAtMost(x / 2, y / 2);
      AndHalves(x, y);
      hide And;
      assert And(x, y) <= 2 * (y / 2) + y % 2;
    }
  }

  lemma AndHalves(x: nat, y: nat)
    ensures And(x, y) / 2 == And(x / 2, y / 2)
    ensures And(x, y) % 2 == if x % 2 == 1 && y % 2 == 1 then 1 else 0
  {
  }

  /** Masking with n ones is the remainder by 2^n. */
  lemma {:induction false} AndMask(x: nat, n: nat)
    ensures And(x, Pow2(n) - 1) == x % Pow2(n)
    decreases n
  {
    if n == 0 {
      AndZero(x);
    } else {
      Double(n);
      hide And, Pow2;
      AndMask(x / 2, n - 1);
      MaskHalves(x, Pow2(n - 1), Pow2(n));
    }
  }

  lemma MaskHalves(x: nat, d: nat, twice: nat)
    requires d >= 1 && twice == 2 * d && And(x / 2, d - 1) == x / 2 % d
    ensures And(x, twice - 1) == x % twice
  {
    AndHalves(x, twice - 1);
    hide And;
    HalfOfOdd(d);
    ModHalves(x, d);
  }

  lemma HalfOfOdd(d: nat)
    requires d >= 1
    ensures (2 * d - 1) / 2 == d - 1 && (2 * d - 1) % 2 == 1
  {
  }

  lemma AndZero(x: nat)
    ensures And(x, 0) == 0
  {
  }

  lemma ModHalves(x: nat, d: nat)
    requires d >= 1
    ensures x % (2 * d) == x % 2 + 2 * ((x / 2) % d)
  {
    var q := (x / 2) / d;
    var r := (x / 2) % d;
    assert x / 2 == q * d + r;
    assert x == x % 2 + 2 * (x / 2) == q * (2 * d) + (x % 2 + 2 * r);
    DivModUnique(x, 2 * d, q, x % 2 + 2 * r);
  }

  /** The quotient and remainder of a division are unique. */
  lemma DivModUnique(x: int, d: int, q: int, r: int)
    requires d > 0 && 0 <= r < d && x == q * d + r
    ensures x / d == q && x % d == r
  {
    var q', r' := x / d, x % d;
    assert x == q' * d + r';
    ProductGap(q' - q, d, r - r');
  }

  lemma ProductGap(k: int, d: int, gap: int)
    requires d > 0 && -d < gap < d && k * d == gap
    ensures k == 0
  {
    if k > 0 {
      MulNonNegative(k - 1, d);
    }
  }

  lemma {:induction false} MulNonNegative(a: nat, b: nat)
    ensures a * b >= 0
    ensures (a + 1) * b == a * b + b
  {
  }

  // ----- laws of the language operators -----

  lemma Uint32OfInt32(x: int)
    ensures ToUint32(ToInt32(x)) == ToUint32(x)
  {
  }

  lemma JsAndMask(x: int, n: nat)
    requires n <= 31
    ensures JsAnd(x, Pow2(n) - 1) == JsAnd(Pow2(n) - 1, x) == ToUint32(x) % Pow2(n)
  {
    var m, u := Pow2(n), ToUint32(x);
    assert m <= TWO31 by { Pow2Mono(n, 31); Pow2Values(); }
    AndMask(u, n);
    AndCommutes(u, m - 1);
    ModBound(u, m);
    SmallIsItself(m - 1);
    SmallIsItself(And(u, m - 1));
  }

  lemma ModBound(x: nat, d: nat)
    requires d > 0
    ensures 0 <= x % d < d
  {
  }

  lemma SmallIsItself(v: nat)
    requires v < TWO31
    ensures ToInt32(v) == ToUint32(v) == v
  {
  }

  /** Whatever sign the operands carry, the word of a xor is the xor of the words. */
  lemma JsXorWord(x: int, y: int)
    ensures ToUint32(JsXor(x, y)) == Xor(ToUint32(x), ToUint32(y)) < TWO32
  {
    XorIsWord(ToUint32(x), ToUint32(y));
    WordRoundTrip(Xor(ToUint32(x), ToUint32(y)));
  }

  lemma {:induction false} XorIsWord(x: Word, y: Word)
    ensures Xor(x, y) < TWO32
  {
    assert Pow2(32) == TWO32 by { Pow2Values(); }
    XorBound(x, y, 32);
  }

  lemma WordRoundTrip(w: Word)
    ensures ToUint32(ToInt32(w)) == w
  {
  }

  lemma WordIsItself(w: Word)
    ensures ToUint32(w) == w
  {
  }

  lemma JsUshrByte(x: int)
    ensures JsUshr(x, 8) == ToUint32(x) / 256
  {
    assert Pow2(8) == 256 by { Pow2Values(); }
  }

  lemma JsAndByte(x: int)
    ensures JsAnd(x, 255) == JsAnd(255, x) == ToUint32(x) % 256
  {
    assert Pow2(8) == 256 by { Pow2Values(); }
    JsAndMask(x, 8);
  }

  lemma AndCommutes(x: nat, y: nat)
    ensures And(x, y) == And(y, x)
    decreases x + y
  {
  }

  lemma {:induction false} Pow2Mono(m: nat, n: nat)
    requires m <= n
    ensures Pow2(m) <= Pow2(n)
    decreases n
  {
    if m < n { Pow2Mono(m, n - 1); }
  }

  lemma {:induction false} Pow2Adds(m: nat, n: nat)
    ensures Pow2(m + n) == Pow2(m) * Pow2(n)
    decreases m
  {
    if m > 0 {
      Pow2Adds(m - 1, n);
      assert Pow2(m) * Pow2(n) == 2 * Pow2(m - 1) * Pow2(n) == 2 * (Pow2(m - 1) * Pow2(n));
    }
  }

  lemma Pow2Values()
    ensures Pow2(2) == 4 && Pow2(4) == 16 && Pow2(6) == 64 && Pow2(8) == 256 && Pow2(13) == 8192
    ensures Pow2(15) == 32768 && Pow2(16) == 65536 && Pow2(17) == 131072 && Pow2(19) == 524288
    ensures Pow2(24) == 0x100_0000 && Pow2(31) == TWO31 && Pow2(32) == TWO32
  {
    assert Pow2(4) == 16;
    assert Pow2(8) == 256 by { Pow2Adds(4, 4); }
    assert Pow2(16) == 65536 by { Pow2Adds(8, 8); }
    assert Pow2(24) == 0x100_0000 by { Pow2Adds(16, 8); }
    assert Pow2(32) == TWO32 by { Pow2Adds(16, 16); }
  }
}
