/** The link decorator's base64 codec: the URL-safe alphabet of section 5 of RFC 4648, with "." for padding.  The
    decoder reads four digits at a time and skips white space between them; it knows the end of the text by
    the padding, or by the text running out, and it throws at a character that is in no table. */
module Base64 {
  import opened JsBits
  import opened Text

  type Code = seq<CodeUnit>

  // ----- the alphabet -----

  const PAD: int := 64

  /** Character number k of the alphabet: A-Z, a-z, 0-9, "-", "_" and the padding ".". */
  function Symbol(k: int): CodeUnit
    requires 0 <= k <= 64
  {
    if k < 26 then 65 + k
    else if k < 52 then 97 + k - 26
    else if k < 62 then 48 + k - 52
    else if k == 62 then 45
    else if k == 63 then 95
    else 46
  }

  /** The reverse table; -2 for a character outside the alphabet. */
  function DigitOf(c: CodeUnit): int {
    if 65 <= c < 91 then c - 65
    else if 97 <= c < 123 then c - 97 + 26
    else if 48 <= c < 58 then c - 48 + 52
    else if c == 45 then 62
    else if c == 95 then 63
    else if c == 46 then 64
    else -2
  }

  /** The two tables are inverse to each other. */
  lemma TablesAreInverse(c: CodeUnit, k: int)
    requires 0 <= k <= 64
    ensures DigitOf(Symbol(k)) == k
    ensures DigitOf(c) == -2 || (0 <= DigitOf(c) <= 64 && Symbol(DigitOf(c)) == c)
  {
  }

  // ----- encoding -----

  /** `D[m]` pushed on an array that is later joined: outside the table it contributes nothing. */
  function Lookup(m: int): Code {
    if 0 <= m <= 64 then [Symbol(m)] else []
  }

  /** One turn of the encoding loop: the codes of up to three characters, 0 for the missing ones. */
  function EncodeGroup(g: CodeUnit, f: CodeUnit, h: CodeUnit, d: bool, e: bool): Code {
    var m := JsSar(g, 2);
    var g' := JsOr(JsShl(JsAnd(g, 3), 4), JsSar(f, 4));
    var f' := JsOr(JsShl(JsAnd(f, 15), 2), JsSar(h, 6));
    var h' := JsAnd(h, 63);
    var h'' := if !e then PAD else h';
    var f'' := if !e && !d then PAD else f';
    Lookup(m) + Lookup(g') + Lookup(f'') + Lookup(h'')
  }

  function Encode(a: Code): Code
    decreases |a|
  {
    if |a| == 0 then []
    else if |a| == 1 then EncodeGroup(a[0], 0, 0, false, false)
    else if |a| == 2 then EncodeGroup(a[0], a[1], 0, true, false)
    else EncodeGroup(a[0], a[1], a[2], true, true) + Encode(a[3..])
  }

  // ----- decoding -----

  datatype Scan = Digit(value: int, rest: Code) | UnknownEncoding

  /** The inner reader: the next table entry, m at the end of the input, an error on a foreign character. */
  function Next(a: Code, m: int): (s: Scan)
    ensures s.Digit? ==> (s.value == m && s.rest == []) || (0 <= s.value <= 64 && |s.rest| < |a|)
    ensures s.Digit? && a == [] ==> s.value == m && s.rest == []
    decreases |a|
  {
    if a == [] then Digit(m, [])
    else if DigitOf(a[0]) >= 0 then Digit(DigitOf(a[0]), a[1..])
    else if IsSpace(a[0]) then Next(a[1..], m)
    else UnknownEncoding
  }

  /** `String.fromCharCode` */
  function FromCharCode(x: int): CodeUnit { x % 0x1_0000 }

  /** The up to three characters that four table entries stand for. */
  function DecodeGroup(e: int, g: int, f: int, h: int): Code {
    [FromCharCode(JsOr(JsShl(e, 2), JsSar(g, 4)))] +
    if f == 64 then []
    else [FromCharCode(JsOr(JsAnd(JsShl(g, 4), 240), JsSar(f, 2)))] +
         if h == 64 then [] else [FromCharCode(JsOr(JsAnd(JsShl(f, 6), 192), h))]
  }

  datatype Quad = Quad(e: int, g: int, f: int, h: int, rest: Code) | BadQuad

  /** The four reads at the top of the decoding loop. */
  function ReadQuad(a: Code): (q: Quad)
    ensures q.Quad? && !(q.h == 64 && q.e == -1) ==> |q.rest| < |a|
  {
    var e := Next(a, -1);
    if e.UnknownEncoding? then BadQuad else
    var g := Next(e.rest, 0);
    if g.UnknownEncoding? then BadQuad else
    var f := Next(g.rest, 64);
    if f.UnknownEncoding? then BadQuad else
    var h := Next(f.rest, 64);
    if h.UnknownEncoding? then BadQuad else
    Quad(e.value, g.value, f.value, h.value, h.rest)
  }

  function Decode(a: Code): Option<Code>
    decreases |a|
  {
    var q := ReadQuad(a);
    if q.BadQuad? then None
    else if q.h == 64 && q.e == -1 then Some([])
    else
      var tail := Decode(q.rest);
      if tail.None? then None else Some(DecodeGroup(q.e, q.g, q.f, q.h) + tail.value)
  }

  // ----- one group, in arithmetic -----

  /** What the codec can carry: bytes, and up to 259 where a group of three begins, since the table has an entry
      for 64 as well. */
  ghost predicate Survives(a: Code) {
    forall i :: 0 <= i < |a| ==> a[i] < if i % 3 == 0 then 260 else 256
  }

  lemma Shift(x: nat, k: nat, p: nat)
    requires k < 32 && p == Pow2(k) && x < 0x1_0000 && x * p < TWO31
    ensures JsSar(x, k) == x / p
    ensures JsShl(x, k) == x * p
  {
    SmallIsItself(x);
    SmallIsItself(x * p);
  }

  lemma {:induction false} OrOfDisjoint(h: nat, l: nat, k: nat, p: nat)
    requires p == Pow2(k) && l < p && h * p + l < TWO31
    ensures JsOr(h * p, l) == h * p + l
  {
    OrDisjoint(h, l, k);
    SmallIsItself(h * p);
    SmallIsItself(l);
    SmallIsItself(h * p + l);
  }

  lemma Mask(x: nat, k: nat, p: nat)
    requires k <= 16 && p == Pow2(k) && x < TWO31
    ensures JsAnd(x, p - 1) == x % p
  {
    JsAndMask(x, k);
    SmallIsItself(x);
  }

  /** The digits of a group are the base-64 digits of its 24 bits, as section 4 of RFC 4648 defines them; the first
      can be 64. */
  lemma GroupDigits(g: CodeUnit, f: CodeUnit, h: CodeUnit)
    requires g < 260 && f < 256 && h < 256
    ensures JsSar(g, 2) == g / 4
    ensures JsOr(JsShl(JsAnd(g, 3), 4), JsSar(f, 4)) == g % 4 * 16 + f / 16
    ensures JsOr(JsShl(JsAnd(f, 15), 2), JsSar(h, 6)) == f % 16 * 4 + h / 64
    ensures JsAnd(h, 63) == h % 64
    ensures g / 4 * 0x4_0000 + (g % 4 * 16 + f / 16) * 0x1000 + (f % 16 * 4 + h / 64) * 0x40 + h % 64
            == g * 0x1_0000 + f * 0x100 + h
  {
    hide JsOr, JsShl, JsAnd, JsSar;
    assert Pow2(2) == 4 && Pow2(4) == 16 && Pow2(6) == 64 by { Pow2Values(); }
    Mask(g, 2, 4);
    Mask(f, 4, 16);
    Mask(h, 6, 64);
    Shift(g, 2, 4);
    Shift(g % 4, 4, 16);
    Shift(f, 4, 16);
    Shift(f % 16, 2, 4);
    Shift(h, 6, 64);
    OrOfDisjoint(g % 4, f / 16, 4, 16);
    OrOfDisjoint(f % 16, h / 64, 2, 4);
  }

  /** What the decoder does with the digits of a group. */
  lemma UngroupDigits(g: CodeUnit, f: CodeUnit, h: CodeUnit)
    requires g < 260 && f < 256 && h < 256
    ensures JsOr(JsShl(g / 4, 2), JsSar(g % 4 * 16 + f / 16, 4)) == g
    ensures JsOr(JsAnd(JsShl(g % 4 * 16 + f / 16, 4), 240), JsSar(f % 16 * 4 + h / 64, 2)) == f
    ensures JsOr(JsAnd(JsShl(f % 16 * 4 + h / 64, 6), 192), h % 64) == h
  {
    hide JsOr, JsShl, JsAnd, JsSar;
    assert Pow2(2) == 4 && Pow2(4) == 16 && Pow2(6) == 64 by { Pow2Values(); }
    var x, y := g % 4 * 16 + f / 16, f % 16 * 4 + h / 64;
    Shift(g / 4, 2, 4);
    Shift(x, 4, 16);
    OrOfDisjoint(g / 4, x / 16, 2, 4);
    MaskHigh(x, 4, 16);
    Shift(y, 2, 4);
    OrOfDisjoint(f / 16, y / 4, 4, 16);
    Shift(y, 6, 64);
    MaskTop(y);
    OrOfDisjoint(y % 4, h % 64, 6, 64);
  }

  /** `x << 4 & 240` */
  lemma {:induction false} MaskHigh(x: nat, k: nat, p: nat)
    requires k == 4 && p == 16 && x < 0x1_0000
    ensures JsAnd(x * 16, 240) == x % 16 * 16
  {
    AndShifted(x, 15, 4);
    AndMask(x, 4);
    assert Pow2(4) == 16;
    SmallIsItself(x * 16);
    SmallIsItself(240);
    SmallIsItself(x % 16 * 16);
  }

  /** `y << 6 & 192` */
  lemma {:induction false} MaskTop(y: nat)
    requires y < 0x1_0000
    ensures JsAnd(y * 64, 192) == y % 4 * 64
  {
    AndShifted(y, 3, 6);
    AndMask(y, 2);
    assert Pow2(6) == 64 && Pow2(2) == 4;
    SmallIsItself(y * 64);
    SmallIsItself(192);
    SmallIsItself(y % 4 * 64);
  }

  lemma {:induction false} AndShifted(x: nat, y: nat, n: nat)
    ensures And(x * Pow2(n), y * Pow2(n)) == And(x, y) * Pow2(n)
    decreases n
  {
    if n > 0 {
      HalveSum(x, 0, n);
      HalveSum(y, 0, n);
      HalveSum(And(x, y), 0, n);
      AndHalves(x * Pow2(n), y * Pow2(n));
      AndShifted(x, y, n - 1);
    }
  }

  // ----- the round trip -----

  /** Four table characters in front are read as their four digits. */
  lemma ReadsFourDigits(e: int, g: int, f: int, h: int, rest: Code)
    requires 0 <= e <= 64 && 0 <= g <= 64 && 0 <= f <= 64 && 0 <= h <= 64
    ensures ReadQuad([Symbol(e), Symbol(g), Symbol(f), Symbol(h)] + rest) == Quad(e, g, f, h, rest)
  {
    var a := [Symbol(e), Symbol(g), Symbol(f), Symbol(h)] + rest;
    ReadsOneDigit(a, e, -1);
    ReadsOneDigit(a[1..], g, 0);
    ReadsOneDigit(a[1..][1..], f, 64);
    ReadsOneDigit(a[1..][1..][1..], h, 64);
    assert a[1..][1..][1..][1..] == rest;
  }

  lemma ReadsOneDigit(a: Code, k: int, m: int)
    requires a != [] && 0 <= k <= 64 && a[0] == Symbol(k)
    ensures Next(a, m) == Digit(k, a[1..])
  {
    TablesAreInverse(a[0], k);
  }

  lemma EncodedGroup(g: CodeUnit, f: CodeUnit, h: CodeUnit, d: bool, e: bool)
    requires g < 260 && f < 256 && h < 256 && (e ==> d)
    ensures EncodeGroup(g, f, h, d, e) ==
            [Symbol(g / 4), Symbol(g % 4 * 16 + f / 16),
             Symbol(if d then f % 16 * 4 + h / 64 else 64), Symbol(if e then h % 64 else 64)]
  {
    hide JsOr, JsShl, JsAnd, JsSar, Symbol;
    GroupDigits(g, f, h);
  }

  lemma DecodedGroup(g: CodeUnit, f: CodeUnit, h: CodeUnit, d: bool, e: bool)
    requires g < 260 && f < 256 && h < 256 && (e ==> d)
    requires (!d ==> f == 0) && (!e ==> h == 0)
    ensures DecodeGroup(g / 4, g % 4 * 16 + f / 16,
                        if d then f % 16 * 4 + h / 64 else 64, if e then h % 64 else 64)
            == [g] + (if d then [f] else []) + (if e then [h] else [])
  {
    hide JsOr, JsShl, JsAnd, JsSar;
    UngroupDigits(g, f, h);
    var x, y, z := g % 4 * 16 + f / 16, f % 16 * 4 + h / 64, h % 64;
    assert y < 64 && z < 64;
    if !d {
      assert DecodeGroup(g / 4, x, 64, 64) == [g] + [] + [];
    } else if !e {
      assert DecodeGroup(g / 4, x, y, 64) == [g] + [f] + [];
    } else {
      assert DecodeGroup(g / 4, x, y, z) == [g] + [f] + [h];
    }
  }

  /** One encoded group in front of anything decodes to its characters. */
  lemma GroupRoundTrip(g: CodeUnit, f: CodeUnit, h: CodeUnit, d: bool, e: bool, rest: Code)
    requires g < 260 && f < 256 && h < 256 && (e ==> d)
    requires (!d ==> f == 0) && (!e ==> h == 0)
    ensures Decode(EncodeGroup(g, f, h, d, e) + rest) ==
            Prefixed([g] + (if d then [f] else []) + (if e then [h] else []), Decode(rest))
  {
    hide EncodeGroup, DecodeGroup, Symbol, ReadQuad;
    EncodedGroup(g, f, h, d, e);
    DecodedGroup(g, f, h, d, e);
    ReadsFourDigits(g / 4, g % 4 * 16 + f / 16, if d then f % 16 * 4 + h / 64 else 64, if e then h % 64 else 64, rest);
  }

  lemma DecodeNothing()
    ensures Decode([]) == Some([])
  {
  }

  lemma SurvivingTail(a: Code)
    requires |a| > 3
    ensures Survives(a) <==> Survives(a[..3]) && Survives(a[3..])
  {
    var b := a[3..];
    assert forall i :: 0 <= i < |b| ==> b[i] == a[i + 3] && (i + 3) % 3 == i % 3;
    if Survives(a[..3]) && Survives(b) {
      forall i | 0 <= i < |a| ensures a[i] < if i % 3 == 0 then 260 else 256 {
        if i < 3 {
          assert a[i] == a[..3][i];
        } else {
          assert a[i] == b[i - 3] && (i - 3) % 3 == i % 3;
        }
      }
    }
  }

  /** Decoding undoes encoding on every string the codec can carry. */
  lemma {:induction false} RoundTrip(a: Code)
    requires Survives(a)
    ensures Decode(Encode(a)) == Some(a)
    decreases |a|
  {
    hide EncodeGroup, Decode;
    DecodeNothing();
    if |a| == 0 {
    } else if |a| == 1 {
      GroupRoundTrip(a[0], 0, 0, false, false, []);
      assert Encode(a) + [] == Encode(a);
      assert [a[0]] + [] + [] + [] == a;
    } else if |a| == 2 {
      GroupRoundTrip(a[0], a[1], 0, true, false, []);
      assert Encode(a) + [] == Encode(a);
      assert [a[0]] + [a[1]] + [] + [] == a;
    } else {
      if |a| > 3 {
        SurvivingTail(a);
      }
      RoundTrip(a[3..]);
      GroupRoundTrip(a[0], a[1], a[2], true, true, Encode(a[3..]));
      assert [a[0]] + [a[1]] + [a[2]] + a[3..] == a;
    }
  }

  /** Encoded text is made of table characters, whatever the text. */
  lemma {:induction false} EncodedCharacters(a: Code)
    ensures forall i :: 0 <= i < |Encode(a)| ==> DigitOf(Encode(a)[i]) >= 0
    decreases |a|
  {
    hide JsOr, JsShl, JsAnd, JsSar, Symbol;
    forall k | 0 <= k <= 64 ensures DigitOf(Symbol(k)) == k { TablesAreInverse(0, k); }
    if |a| > 3 { EncodedCharacters(a[3..]); }
  }

  /** Text the codec can carry is encoded in groups of four. */
  lemma {:induction false} EncodedShape(a: Code)
    requires Survives(a)
    ensures |Encode(a)| == (|a| + 2) / 3 * 4
    decreases |a|
  {
    hide EncodeGroup;
    if |a| > 0 {
      EncodedGroup(a[0], if |a| > 1 then a[1] else 0, if |a| > 2 then a[2] else 0, |a| > 1, |a| > 2);
      if |a| > 3 {
        SurvivingTail(a);
        EncodedShape(a[3..]);
      }
    }
  }

  // ----- exactly which strings survive -----

  lemma SmallOr(x: nat, y: nat, n: nat)
    requires n <= 16 && x < Pow2(n) && y < Pow2(n)
    ensures JsOr(x, y) == Or(x, y) < Pow2(n)
    ensures JsOr(x, y) <= x + y
  {
    assert Pow2(n) <= TWO31 by { Pow2Mono(n, 31); Pow2Values(); }
    OrBound(x, y, n);
    OrAtMost(x, y);
    hide Or, Pow2;
    SmallIsItself(x);
    SmallIsItself(y);
    SmallIsItself(Or(x, y));
  }

  lemma SmallAnd(x: nat, y: nat)
    requires x < TWO31 && y < TWO31
    ensures 0 <= JsAnd(x, y) <= y
  {
    AndAtMost(x, y);
    hide And;
    SmallIsItself(x);
    SmallIsItself(y);
    SmallIsItself(And(x, y));
  }

  /** What four digits decode to: characters of a byte, except that the first can be as large as 260. */
  lemma GroupBounds(e: int, g: int, f: int, h: int)
    requires 0 <= e <= 64 && 0 <= g <= 64 && 0 <= f <= 64 && 0 <= h <= 64
    ensures var c := DecodeGroup(e, g, f, h);
      && |c| == (if f == 64 then 1 else if h == 64 then 2 else 3)
      && c[0] <= 4 * e + 4 && (|c| > 1 ==> c[1] < 256) && (|c| > 2 ==> c[2] < 256)
  {
    hide JsOr, JsShl, JsAnd, JsSar, Or, And;
    assert Pow2(2) == 4 && Pow2(4) == 16 && Pow2(6) == 64 && Pow2(16) == 0x1_0000 by { Pow2Values(); }
    hide Pow2;
    Shift(e, 2, 4);
    Shift(g, 4, 16);
    SmallOr(4 * e, g / 16, 16);
    Shift(f, 2, 4);
    SmallAnd(g * 16, 240);
    SmallOr(JsAnd(g * 16, 240), f / 4, 16);
    Shift(f, 6, 64);
    SmallAnd(f * 64, 192);
    SmallOr(JsAnd(f * 64, 192), h, 16);
  }

  lemma QuadBounds(a: Code)
    ensures var q := ReadQuad(a);
      q.Quad? && !(q.h == 64 && q.e == -1) ==>
        0 <= q.e <= 64 && 0 <= q.g <= 64 && 0 <= q.f <= 64 && 0 <= q.h <= 64
  {
  }

  /** Nothing decodes to a character above 260. */
  lemma {:induction false} DecodedBound(a: Code)
    ensures Decode(a).Some? ==> forall i :: 0 <= i < |Decode(a).value| ==> Decode(a).value[i] <= 260
    decreases |a|
  {
    hide ReadQuad, DecodeGroup;
    QuadBounds(a);
    var q := ReadQuad(a);
    if q.Quad? && !(q.h == 64 && q.e == -1) {
      GroupBounds(q.e, q.g, q.f, q.h);
      DecodedBound(q.rest);
    }
  }

  /** 260 at the start of a group has no entry in the table, and the digit after it is read in its place. */
  lemma FirstTooLarge(a: Code)
    requires a != [] && a[0] == 260 && (|a| > 1 ==> a[1] <= 260)
    ensures Decode(Encode(a)) != Some(a)
  {
    hide DecodeGroup, EncodeGroup, Symbol, ReadQuad;
    var f: CodeUnit := if |a| > 1 then a[1] else 0;
    var h: CodeUnit := if |a| > 2 then a[2] else 0;
    EncodeFirst(a);
    var k := FirstDigitMissing(f, h, |a| > 1, |a| > 2);
    var code := Encode(a);
    assert code[0] == Symbol(k);
    FirstDigitRead(code, k);
    QuadBounds(code);
    var q := ReadQuad(code);
    if q.Quad? {
      GroupBounds(q.e, q.g, q.f, q.h);
    }
  }

  lemma FirstDigitRead(code: Code, k: int)
    requires 0 <= k <= 64 && code != [] && code[0] == Symbol(k)
    ensures ReadQuad(code).Quad? ==> ReadQuad(code).e == k
  {
    ReadsOneDigit(code, k, -1);
    hide Symbol, DigitOf, IsSpace, Next;
  }

  lemma FirstDigitMissing(f: CodeUnit, h: CodeUnit, d: bool, e: bool) returns (k: int)
    requires f <= 260
    ensures 0 <= k <= 16 && EncodeGroup(260, f, h, d, e) != [] && EncodeGroup(260, f, h, d, e)[0] == Symbol(k)
  {
    hide JsOr, JsShl, JsAnd, JsSar, Or, And, Symbol;
    assert Pow2(2) == 4 && Pow2(4) == 16 && Pow2(16) == 0x1_0000 by { Pow2Values(); }
    hide Pow2;
    Shift(260, 2, 4);
    Mask(260, 2, 4);
    Shift(0, 4, 16);
    Shift(f, 4, 16);
    SmallOr(0, f / 16, 16);
    k := JsOr(0, f / 16);
    assert Lookup(65) == [] && Lookup(k) == [Symbol(k)];
  }

  /** The digits of a group whose second or third character is a little too large. */
  lemma WideGroup(g: CodeUnit, f: CodeUnit, h: CodeUnit, d: bool, e: bool) returns (x: int, y: int, z: int)
    requires g < 260 && f <= 260 && h <= 260 && (e ==> d)
    ensures 0 <= x < 64 && 0 <= y < 64 && 0 <= z < 64
    ensures EncodeGroup(g, f, h, d, e)
         == [Symbol(g / 4), Symbol(x), Symbol(if d then y else 64), Symbol(if e then z else 64)]
  {
    hide JsOr, JsShl, JsAnd, JsSar, Symbol, Or, And;
    assert Pow2(2) == 4 && Pow2(4) == 16 && Pow2(6) == 64 by { Pow2Values(); }
    hide Pow2;
    Shift(g, 2, 4);
    Mask(g, 2, 4);
    Shift(g % 4, 4, 16);
    Shift(f, 4, 16);
    SmallOr(g % 4 * 16, f / 16, 6);
    Mask(f, 4, 16);
    Shift(f % 16, 2, 4);
    Shift(h, 6, 64);
    SmallOr(f % 16 * 4, h / 64, 6);
    Mask(h, 6, 64);
    x, y, z := JsOr(g % 4 * 16, f / 16), JsOr(f % 16 * 4, h / 64), h % 64;
  }

  lemma LaterTooLarge(a: Code)
    requires |a| > 1 && a[0] < 260 && a[1] <= 260 && (|a| > 2 ==> a[2] <= 260)
    requires a[1] >= 256 || (|a| > 2 && a[2] >= 256)
    ensures Decode(Encode(a)) != Some(a)
  {
    hide DecodeGroup, Symbol, EncodeGroup, ReadQuad;
    var e := |a| > 2;
    var h: CodeUnit := if e then a[2] else 0;
    var x, y, z := WideGroup(a[0], a[1], h, true, e);
    var rest := if |a| > 3 then Encode(a[3..]) else [];
    var z' := if e then z else 64;
    EncodeFirst(a);
    ReadsFourDigits(a[0] / 4, x, y, z', rest);
    GroupBounds(a[0] / 4, x, y, z');
  }

  lemma EncodeFirst(a: Code)
    requires a != []
    ensures Encode(a) == EncodeGroup(a[0], if |a| > 1 then a[1] else 0, if |a| > 2 then a[2] else 0, |a| > 1, |a| > 2)
                         + if |a| > 3 then Encode(a[3..]) else []
  {
    hide EncodeGroup;
    if |a| == 3 {
      assert a[3..] == [] && Encode([]) == [];
    }
  }

  /** A text comes back from the codec exactly when every character is below 256, or below 260 where a group of three
      begins. */
  lemma {:induction false} RoundTripIff(a: Code)
    ensures Decode(Encode(a)) == Some(a) <==> Survives(a)
    decreases |a|
  {
    hide Decode, Encode, EncodeGroup;
    if Survives(a) {
      RoundTrip(a);
    } else {
      Lost(a);
    }
  }

  lemma {:induction false} Lost(a: Code)
    requires !Survives(a)
    ensures Decode(Encode(a)) != Some(a)
    decreases |a|
  {
    hide Decode, EncodeGroup;
    if i :| 0 <= i < |a| && a[i] > 260 {
      DecodedBound(Encode(a));
    } else if a[0] >= 260 {
      FirstTooLarge(a);
    } else if (|a| > 1 && a[1] >= 256) || (|a| > 2 && a[2] >= 256) {
      LaterTooLarge(a);
    } else {
      assert Survives(a[..3]) && |a| > 3 by {
        assert forall i :: 0 <= i < |a| && i < 3 ==> a[i] < if i % 3 == 0 then 260 else 256;
      }
      SurvivingTail(a);
      Lost(a[3..]);
      GroupRoundTrip(a[0], a[1], a[2], true, true, Encode(a[3..]));
      assert a == [a[0]] + [a[1]] + [a[2]] + a[3..];
    }
  }

  /** The smallest example of two strings that encode alike. */
  lemma WideCharactersCollide()
    ensures Encode([0, 0x100]) == Encode([1, 0])
  {
    hide JsSar, JsAnd, JsShl, JsOr, Lookup;
    assert Pow2(2) == 4 && Pow2(4) == 16 && Pow2(6) == 64 by { Pow2Values(); }
    Shift(0, 2, 4);
    Shift(1, 2, 4);
    Shift(0, 4, 16);
    Shift(1, 4, 16);
    Shift(0x100, 4, 16);
    Shift(0, 6, 64);
    Mask(0, 2, 4);
    Mask(1, 2, 4);
    Mask(0, 4, 16);
    Mask(0x100, 4, 16);
    Mask(0, 6, 64);
    OrOfDisjoint(1, 0, 4, 16);
    OrSixteen();
  }

  lemma OrSixteen()
    ensures JsOr(0, 16) == 16
  {
    OrCommutes(16, 0);
    OrZero(16);
    SmallIsItself(0);
    SmallIsItself(16);
  }

  // ----- the code -----

  method EncodeText(a: Code) returns (b: Code)
    ensures b == Encode(a)
  {
    hide EncodeGroup;
    b := [];
    var c := 0;
    while c < |a|
      invariant 0 <= c
      invariant Encode(a) == b + (if c <= |a| then Encode(a[c..]) else [])
    {
      var d := c + 1 < |a|;
      var e := c + 2 < |a|;
      var g := a[c];
      var f := if d then a[c + 1] else 0;
      var h := if e then a[c + 2] else 0;
      if c + 3 <= |a| { assert a[c..][3..] == a[c + 3..]; }
      b := b + EncodeGroup(g, f, h, d, e);
      c := c + 3;
    }
  }

  /** The inner function `b(m)` of the decoder, moving the shared position d. */
  method Read(a: Code, d: nat, m: int) returns (value: int, d': nat, bad: bool)
    requires d <= |a|
    ensures d <= d' <= |a|
    ensures Next(a[d..], m) == if bad then UnknownEncoding else Digit(value, a[d'..])
  {
    d' := d;
    while d' < |a|
      invariant d <= d' <= |a|
      invariant Next(a[d..], m) == Next(a[d'..], m)
    {
      var t := a[d'];
      assert a[d'..][1..] == a[d' + 1..];
      d' := d' + 1;
      if DigitOf(t) >= 0 {
        return DigitOf(t), d', false;
      }
      if !IsSpace(t) {
        return 0, d', true;
      }
    }
    return m, d', false;
  }

  function Prefixed(c: Code, r: Option<Code>): Option<Code> {
    if r.None? then None else Some(c + r.value)
  }

  lemma PrefixedNothing(r: Option<Code>)
    ensures Prefixed([], r) == r
  {
    if r.Some? { assert [] + r.value == r.value; }
  }

  lemma PrefixedTwice(c: Code, g: Code, r: Option<Code>)
    ensures Prefixed(c, Prefixed(g, r)) == Prefixed(c + g, r)
  {
    if r.Some? { assert c + (g + r.value) == c + g + r.value; }
  }

  /** The source throws where this returns None. */
  method DecodeText(a: Code) returns (r: Option<Code>)
    ensures r == Decode(a)
  {
    hide DecodeGroup;
    var c: Code := [];
    var d := 0;
    assert a[0..] == a;
    assert Decode(a) == Prefixed([], Decode(a)) by { PrefixedNothing(Decode(a)); }
    while true
      invariant 0 <= d <= |a|
      invariant Decode(a) == Prefixed(c, Decode(a[d..]))
      decreases |a| - d
    {
      ghost var start := d;
      var e, g, f, h, bad;
      e, d, bad := Read(a, d, -1);
      if bad { return None; }
      g, d, bad := Read(a, d, 0);
      if bad { return None; }
      f, d, bad := Read(a, d, 64);
      if bad { return None; }
      h, d, bad := Read(a, d, 64);
      if bad { return None; }
      assert ReadQuad(a[start..]) == Quad(e, g, f, h, a[d..]);
      if 64 == h && -1 == e {
        assert c + [] == c;
        return Some(c);
      }
      PrefixedTwice(c, DecodeGroup(e, g, f, h), Decode(a[d..]));
      c := c + DecodeGroup(e, g, f, h);
    }
  }
}
