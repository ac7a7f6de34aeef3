/** The cross-domain link parameter "1*fingerprint*key*value*key*value...", written by one page and read by the
    next.  The fingerprint is a checksum of the browser, the minute and the payload, so a link is read only
    by the same browser and within the minutes that the reader tries. */
module Linker {
  import opened JsBits
  import opened Text
  import opened Base64
  import Crc32

  const STAR: CodeUnit := 42

  /** Characters that `.` does not match in a regular expression. */
  predicate IsLineTerminator(c: CodeUnit) {
    c == 10 || c == 13 || c == 0x2028 || c == 0x2029
  }

  /** The property name that an assignment on a plain object does not create: "__proto__". */
  const PROTO: Code := [95, 95, 112, 114, 111, 116, 111, 95, 95]

  /** A property value: skipped when undefined, null, NaN or a plain object, else its String(). */
  datatype Value = Skipped | Kept(text: Code)

  datatype Param = Param(key: Code, value: Value)

  /** What the fingerprint takes from the browser, besides the clock. */
  datatype Browser = Browser(userAgent: Code, timezone: Code, language: Code)

  // ----- numbers as text -----

  /** "0" to "9" and "a" to "z". */
  const DIGITS: Code := [48, 49, 50, 51, 52, 53, 54, 55, 56, 57, 97, 98, 99, 100, 101, 102, 103, 104, 105, 106, 107,
                         108, 109, 110, 111, 112, 113, 114, 115, 116, 117, 118, 119, 120, 121, 122]

  function Decimal(n: int): Code {
    if n < 0 then [45] + Digits(-n, 10, DIGITS) else Digits(n, 10, DIGITS)
  }

  // ----- writing -----

  /** The array that is joined: each kept key followed by its encoded value. */
  function Parts(params: seq<Param>): seq<Code>
    decreases |params|
  {
    if params == [] then []
    else if params[0].value.Skipped? then Parts(params[1..])
    else [params[0].key, Encode(params[0].value.text)] + Parts(params[1..])
  }

  function FingerprintText(browser: Browser, minute: int, payload: Code): Code {
    Join([browser.userAgent, browser.timezone, browser.language, Decimal(minute), payload], STAR)
  }

  function Fingerprint(browser: Browser, minute: int, payload: Code): (fp: Code)
    ensures forall i :: 0 <= i < |fp| ==> fp[i] in DIGITS
  {
    Digits(Crc32.Checksum(FingerprintText(browser, minute, payload)), 36, DIGITS)
  }

  function Generate(params: seq<Param>, browser: Browser, minute: int): Code {
    var payload := Join(Parts(params), STAR);
    Join([[49], Fingerprint(browser, minute, payload), payload], STAR)
  }

  // ----- reading -----

  /** The first star before any line terminator. */
  function FirstStar(a: Code): (r: Option<nat>)
    ensures r.Some? ==> r.value < |a| && a[r.value] == STAR
    decreases |a|
  {
    if a == [] || IsLineTerminator(a[0]) then None
    else if a[0] == STAR then Some(0)
    else
      var r := FirstStar(a[1..]);
      if r.None? then None else Some(r.value + 1)
  }

  /** The greedy `(.*)`. */
  function Line(a: Code): (r: Code)
    ensures forall i :: 0 <= i < |r| ==> !IsLineTerminator(r[i])
    decreases |a|
  {
    if a == [] || IsLineTerminator(a[0]) then [] else [a[0]] + Line(a[1..])
  }

  datatype Groups = Groups(version: Code, fingerprint: Code, payload: Code)

  function MatchHere(a: Code): Option<Groups> {
    var p := FirstStar(a);
    if p.None? then None else
    var b := a[p.value + 1..];
    var q := FirstStar(b);
    if q.None? then None else
    Some(Groups(a[..p.value], b[..q.value], Line(b[q.value + 1..])))
  }

  /** `/(.*?)\*(.*?)\*(.*)/.exec(a)`: the leftmost match. */
  function Exec(a: Code): (r: Option<Groups>)
    decreases |a|
  {
    if MatchHere(a).Some? then MatchHere(a) else if a == [] then None else Exec(a[1..])
  }

  /** Up to `tries` attempts, each failed one followed by a percent-decoding that may throw. */
  function FindGroups(a: Code, tries: nat, uriDecode: Code -> Option<Code>): Option<Groups>
    decreases tries
  {
    if tries == 0 then None
    else if Exec(a).Some? then Exec(a)
    else
      var a' := uriDecode(a);
      if a'.None? then None else FindGroups(a'.value, tries - 1, uriDecode)
  }

  predicate FingerprintAt(browser: Browser, minute: int, g: Groups) {
    g.fingerprint == Fingerprint(browser, minute, g.payload)
  }

  /** `for (e = 0; e < b; ++e) if (g === S(f, e))`: this minute or one of the two before. */
  predicate FingerprintIsFresh(browser: Browser, minute: int, g: Groups) {
    exists m :: minute - 3 < m <= minute && FingerprintAt(browser, m, g)
  }

  /** The loop over key and value; None where the decoder throws or a value is missing. */
  function Collect(m: seq<Code>, b: map<Code, Code>): Option<map<Code, Code>>
    decreases |m|
  {
    if m == [] then Some(b)
    else if |m| == 1 then None
    else
      var v := Decode(m[1]);
      if v.None? then None else Collect(m[2..], Assign(b, m[0], v.value))
  }

  function Assign(b: map<Code, Code>, key: Code, v: Code): map<Code, Code> {
    if key == PROTO then b else b[key := v]
  }

  /** The parsed parameters; None is the source's undefined. */
  function Parse(a: Code, browser: Browser, minute: int, uriDecode: Code -> Option<Code>): Option<map<Code, Code>> {
    if a == [] then None else
    var g := FindGroups(a, 3, uriDecode);
    if g.None? || g.value.version != [49] || !FingerprintIsFresh(browser, minute, g.value) then None
    else Collect(if g.value.payload == [] then [] else Split(g.value.payload, STAR), map[])
  }

  // ----- the round trip -----

  function MapOf(params: seq<Param>): map<Code, Code>
    decreases |params|
  {
    if params == [] then map[]
    else if params[0].value.Skipped? then MapOf(params[1..])
    else MapOf(params[1..])[params[0].key := params[0].value.text]
  }

  ghost predicate IsOneLine(s: Code) {
    forall i :: 0 <= i < |s| ==> !IsLineTerminator(s[i])
  }

  /** What a caller can check about a key before generating the link. */
  ghost predicate CleanKey(key: Code) {
    Free(key, STAR) && IsOneLine(key) && key != PROTO
  }

  ghost predicate DistinctKeys(params: seq<Param>) {
    forall i, j :: 0 <= i < j < |params| ==> params[i].key != params[j].key
  }

  /** What a caller can check about the values: each one survives the codec. */
  ghost predicate CleanValues(params: seq<Param>) {
    forall i :: 0 <= i < |params| && params[i].value.Kept? ==> Survives(params[i].value.text)
  }

  ghost predicate CleanKeys(params: seq<Param>) {
    forall i :: 0 <= i < |params| && params[i].value.Kept? ==> CleanKey(params[i].key)
  }

  lemma {:induction false} PlainIsFree(s: Code)
    requires forall i :: 0 <= i < |s| ==> 45 <= s[i] < 123
    ensures Free(s, STAR) && IsOneLine(s)
  {
  }

  lemma EncodedIsPlain(a: Code)
    ensures Free(Encode(a), STAR) && IsOneLine(Encode(a))
  {
    EncodedCharacters(a);
    forall i | 0 <= i < |Encode(a)| ensures 45 <= Encode(a)[i] < 123 {
      TablesAreInverse(Encode(a)[i], 0);
    }
    PlainIsFree(Encode(a));
  }

  /** With clean keys, every joined part is star-free and on one line. */
  lemma {:induction false} PartsAreClean(params: seq<Param>)
    requires CleanKeys(params)
    ensures AllFree(Parts(params), STAR)
    ensures forall i :: 0 <= i < |Parts(params)| ==> IsOneLine(Parts(params)[i])
    decreases |params|
  {
    if params != [] {
      PartsAreClean(params[1..]);
      if params[0].value.Kept? {
        EncodedIsPlain(params[0].value.text);
        assert CleanKey(params[0].key);
      }
    }
  }

  lemma {:induction false} JoinIsOneLine(parts: seq<Code>)
    requires forall i :: 0 <= i < |parts| ==> IsOneLine(parts[i])
    ensures IsOneLine(Join(parts, STAR))
    decreases |parts|
  {
    if |parts| >= 2 {
      JoinIsOneLine(parts[1..]);
    }
  }

  lemma {:induction false} LineOfOneLine(s: Code)
    requires IsOneLine(s)
    ensures Line(s) == s
    decreases |s|
  {
    if s != [] {
      LineOfOneLine(s[1..]);
    }
  }

  lemma {:induction false} FirstStarAfter(front: Code, rest: Code)
    requires Free(front, STAR) && IsOneLine(front)
    ensures FirstStar(front + [STAR] + rest) == Some(|front|)
    decreases |front|
  {
    var a := front + [STAR] + rest;
    if front != [] {
      assert a[1..] == front[1..] + [STAR] + rest;
      FirstStarAfter(front[1..], rest);
    }
  }

  /** The regular expression takes a generated string apart at the two stars that joined it,
      but keeps only the first line of the payload. */
  lemma {:induction false} ExecOfGenerated(fp: Code, payload: Code)
    requires Free(fp, STAR) && IsOneLine(fp)
    ensures Exec(Join([[49], fp, payload], STAR)) == Some(Groups([49], fp, Line(payload)))
  {
    var a := [49] + [STAR] + (fp + [STAR] + payload);
    JoinOfThree([49], fp, payload);
    FirstStarAfter([49], fp + [STAR] + payload);
    assert a[2..] == fp + [STAR] + payload;
    FirstStarAfter(fp, payload);
    assert (fp + [STAR] + payload)[|fp| + 1..] == payload;
    assert a[..1] == [49] && (fp + [STAR] + payload)[..|fp|] == fp;
  }

  lemma JoinOfThree(x: Code, y: Code, z: Code)
    ensures Join([x, y, z], STAR) == x + [STAR] + (y + [STAR] + z)
  {
    assert [x, y, z][1..] == [y, z];
    assert [y, z][1..] == [z];
    assert Join([z], STAR) == z;
    assert Join([y, z], STAR) == y + [STAR] + z;
  }

  lemma DigitsArePlain(n: nat)
    ensures Free(Digits(n, 36, DIGITS), STAR) && IsOneLine(Digits(n, 36, DIGITS))
  {
    var fp := Digits(n, 36, DIGITS);
    hide Digits;
    forall i | 0 <= i < |fp| ensures 45 <= fp[i] < 123 {
      DigitIsPlain(fp[i]);
    }
    PlainIsFree(fp);
  }

  lemma FingerprintIsPlain(browser: Browser, minute: int, payload: Code)
    ensures Free(Fingerprint(browser, minute, payload), STAR) && IsOneLine(Fingerprint(browser, minute, payload))
  {
    DigitsArePlain(Crc32.Checksum(FingerprintText(browser, minute, payload)));
    hide Digits, Free, IsOneLine;
  }

  lemma DigitIsPlain(c: CodeUnit)
    requires c in DIGITS
    ensures 45 <= c < 123
  {
  }

  /** Collecting the parts writes each parameter into the object. */
  lemma {:induction false} CollectOfParts(params: seq<Param>, b: map<Code, Code>)
    requires CleanValues(params) && CleanKeys(params) && DistinctKeys(params)
    ensures Collect(Parts(params), b) == Some(b + MapOf(params))
    decreases |params|
  {
    hide Decode, Encode;
    if params == [] {
      assert b + map[] == b;
    } else if params[0].value.Skipped? {
      CollectOfParts(params[1..], b);
    } else {
      var p := params[0];
      assert CleanKey(p.key);
      RoundTrip(p.value.text);
      assert Parts(params)[2..] == Parts(params[1..]);
      CollectOfParts(params[1..], b[p.key := p.value.text]);
      KeysOfMap(params[1..], p.key);
      assert b[p.key := p.value.text] + MapOf(params[1..]) == b + MapOf(params);
    }
  }

  lemma {:induction false} KeysOfMap(params: seq<Param>, key: Code)
    ensures key in MapOf(params) <==> exists i :: 0 <= i < |params| && params[i].value.Kept? && params[i].key == key
    decreases |params|
  {
    if params != [] {
      KeysOfMap(params[1..], key);
      if exists i :: 0 <= i < |params| && params[i].value.Kept? && params[i].key == key {
        var i :| 0 <= i < |params| && params[i].value.Kept? && params[i].key == key;
        if i > 0 { assert params[1..][i - 1] == params[i]; }
      }
    }
  }

  /** With clean keys, a link is read as the parts that were written. */
  lemma {:induction false} CleanLinksAreRead(params: seq<Param>, browser: Browser, written: int, read: int,
                                             uriDecode: Code -> Option<Code>)
    requires CleanKeys(params)
    requires 0 <= read - written < 3
    ensures Parse(Generate(params, browser, written), browser, read, uriDecode) == Collect(Parts(params), map[])
  {
    hide Fingerprint, Exec, Collect, Decode, Encode, Line;
    var parts := Parts(params);
    var payload := Join(parts, STAR);
    PartsAreClean(params);
    JoinIsOneLine(parts);
    LineOfOneLine(payload);
    var fp := Fingerprint(browser, written, payload);
    FingerprintIsPlain(browser, written, payload);
    ExecOfGenerated(fp, payload);
    var g := Groups([49], fp, payload);
    assert FingerprintAt(browser, written, g);
    PartsComeInPairs(params);
    if parts == [] {
      assert payload == [];
    } else {
      SplitOfJoin(parts, STAR);
      assert payload != [];
    }
  }

  // ----- values that do not survive -----

  lemma {:induction false} CollectKeeps(params: seq<Param>, b: map<Code, Code>, key: Code)
    requires key in b && forall i :: 0 <= i < |params| ==> params[i].key != key
    ensures var r := Collect(Parts(params), b);
      r.Some? ==> key in r.value && r.value[key] == b[key]
    decreases |params|
  {
    hide Decode, Encode;
    if params != [] {
      var p := params[0];
      if p.value.Skipped? {
        CollectKeeps(params[1..], b, key);
      } else {
        assert Parts(params)[2..] == Parts(params[1..]);
        var v := Decode(Encode(p.value.text));
        if v.Some? {
          CollectKeeps(params[1..], Assign(b, p.key, v.value), key);
        }
      }
    }
  }

  /** What is read for a key is what its value decodes to. */
  lemma {:induction false} CollectedValue(params: seq<Param>, b: map<Code, Code>, i: nat)
    requires CleanKeys(params) && DistinctKeys(params) && i < |params| && params[i].value.Kept?
    ensures var r, v := Collect(Parts(params), b), Decode(Encode(params[i].value.text));
      r.Some? ==> v.Some? && params[i].key in r.value && r.value[params[i].key] == v.value
    decreases |params|
  {
    hide Decode, Encode;
    var p, rest := params[0], params[1..];
    if p.value.Skipped? {
      CollectedValue(rest, b, i - 1);
    } else {
      assert Parts(params)[2..] == Parts(rest);
      assert CleanKey(p.key);
      var v := Decode(Encode(p.value.text));
      if v.Some? {
        if i == 0 {
          CollectKeeps(rest, Assign(b, p.key, v.value), p.key);
        } else {
          CollectedValue(rest, Assign(b, p.key, v.value), i - 1);
        }
      }
    }
  }

  lemma {:induction false} ValueOfMap(params: seq<Param>, i: nat)
    requires DistinctKeys(params) && i < |params| && params[i].value.Kept?
    ensures params[i].key in MapOf(params) && MapOf(params)[params[i].key] == params[i].value.text
    decreases |params|
  {
    if i > 0 {
      ValueOfMap(params[1..], i - 1);
    }
  }

  lemma PairMore(n: nat)
    requires n % 2 == 0
    ensures (2 + n) % 2 == 0
  {
  }

  lemma {:induction false} PartsComeInPairs(params: seq<Param>)
    ensures |Parts(params)| % 2 == 0
    decreases |params|
  {
    hide Encode;
    if params != [] {
      PartsComeInPairs(params[1..]);
      PairMore(|Parts(params[1..])|);
    }
  }

  // ----- what reading can never return -----

  lemma {:induction false} PiecesAreOneLine(s: Code)
    requires IsOneLine(s)
    ensures forall i :: 0 <= i < |Split(s, STAR)| ==> IsOneLine(Split(s, STAR)[i])
    decreases |s|
  {
    if s != [] {
      PiecesAreOneLine(s[1..]);
      assert IsOneLine(Split(s[1..], STAR)[0]);
    }
  }

  lemma {:induction false} CollectedKeysAreClean(m: seq<Code>, b: map<Code, Code>)
    requires forall i :: 0 <= i < |m| ==> Free(m[i], STAR) && IsOneLine(m[i])
    requires forall k :: k in b ==> CleanKey(k)
    ensures Collect(m, b).Some? ==> forall k :: k in Collect(m, b).value ==> CleanKey(k)
    decreases |m|
  {
    if |m| >= 2 && Decode(m[1]).Some? {
      CollectedKeysAreClean(m[2..], Assign(b, m[0], Decode(m[1]).value));
    }
  }

  lemma {:induction false} ParsedKeysAreClean(a: Code, browser: Browser, minute: int, uriDecode: Code -> Option<Code>)
    ensures Parse(a, browser, minute, uriDecode).Some? ==>
              forall k :: k in Parse(a, browser, minute, uriDecode).value ==> CleanKey(k)
  {
    if Parse(a, browser, minute, uriDecode).Some? {
      var g := FindGroups(a, 3, uriDecode).value;
      PayloadIsOneLine(a, 3, uriDecode);
      PiecesAreFree(g.payload, STAR);
      PiecesAreOneLine(g.payload);
      CollectedKeysAreClean(if g.payload == [] then [] else Split(g.payload, STAR), map[]);
    }
  }

  lemma {:induction false} PayloadIsOneLine(a: Code, tries: nat, uriDecode: Code -> Option<Code>)
    ensures FindGroups(a, tries, uriDecode).Some? ==> IsOneLine(FindGroups(a, tries, uriDecode).value.payload)
    decreases tries
  {
    if tries > 0 {
      if Exec(a).Some? {
        ExecPayload(a);
      } else if uriDecode(a).Some? {
        PayloadIsOneLine(uriDecode(a).value, tries - 1, uriDecode);
      }
    }
  }

  lemma {:induction false} ExecPayload(a: Code)
    ensures Exec(a).Some? ==> IsOneLine(Exec(a).value.payload)
    decreases |a|
  {
    if MatchHere(a).None? && a != [] { ExecPayload(a[1..]); }
  }

  /** Reading back what was written gives the original parameters exactly when no kept key holds a star or a line
      terminator or is "__proto__", and every kept value is one the codec can carry. */
  lemma {:induction false} RoundTripIff(params: seq<Param>, browser: Browser, written: int, read: int,
                                        uriDecode: Code -> Option<Code>)
    requires DistinctKeys(params)
    requires 0 <= read - written < 3
    ensures Parse(Generate(params, browser, written), browser, read, uriDecode) == Some(MapOf(params))
            <==> CleanKeys(params) && CleanValues(params)
  {
    hide Parse, Generate, Collect, Decode, Encode;
    if !CleanKeys(params) {
      var i :| 0 <= i < |params| && params[i].value.Kept? && !CleanKey(params[i].key);
      KeysOfMap(params, params[i].key);
      ParsedKeysAreClean(Generate(params, browser, written), browser, read, uriDecode);
    } else {
      CleanLinksAreRead(params, browser, written, read, uriDecode);
      if CleanValues(params) {
        CollectOfParts(params, map[]);
        assert map[] + MapOf(params) == MapOf(params);
      } else {
        var i :| 0 <= i < |params| && params[i].value.Kept? && !Survives(params[i].value.text);
        CollectedValue(params, map[], i);
        ValueOfMap(params, i);
        Base64.RoundTripIff(params[i].value.text);
      }
    }
  }

  // ----- what the fingerprint protects -----

  /** The checksum of the browser, the minute and the payload, joined by stars. */
  function Stamp(browser: Browser, minute: int, payload: Code): nat {
    Crc32.Checksum(browser.userAgent + [STAR] + browser.timezone + [STAR] + browser.language + [STAR]
                   + Decimal(minute) + [STAR] + payload)
  }

  /** A link with the number `stamp` as its fingerprint. */
  function Link(stamp: nat, payload: Code): Code { [49] + [STAR] + Digits(stamp, 36, DIGITS) + [STAR] + payload }

  /** One of the three minutes that the reader tries gives the number. */
  ghost predicate Fresh(browser: Browser, minute: int, payload: Code, stamp: nat) {
    exists m :: minute - 3 < m <= minute && Stamp(browser, m, payload) == stamp
  }

  lemma JoinOfFive(a: Code, b: Code, c: Code, d: Code, e: Code)
    ensures Join([a, b, c, d, e], STAR) == a + [STAR] + b + [STAR] + c + [STAR] + d + [STAR] + e
  {
    assert [a, b, c, d, e][1..] == [b, c, d, e] && [b, c, d, e][1..] == [c, d, e];
    JoinOfThree(c, d, e);
    var rest := c + [STAR] + (d + [STAR] + e);
    assert Join([b, c, d, e], STAR) == b + [STAR] + rest;
    assert Join([a, b, c, d, e], STAR) == a + [STAR] + (b + [STAR] + rest);
    assert a + [STAR] + (b + [STAR] + rest) == a + [STAR] + b + [STAR] + c + [STAR] + d + [STAR] + e;
  }

  lemma FingerprintIsStamp(browser: Browser, minute: int, payload: Code)
    ensures Fingerprint(browser, minute, payload) == Digits(Stamp(browser, minute, payload), 36, DIGITS)
  {
    JoinOfFive(browser.userAgent, browser.timezone, browser.language, Decimal(minute), payload);
    hide Join, Digits, Crc32.Checksum, Decimal;
  }

  lemma DigitsDiffer()
    ensures |DIGITS| == 36 && Alphabet(DIGITS)
  {
    assert forall i :: 0 <= i < 36 ==> DIGITS[i] == if i < 10 then 48 + i else 87 + i;
  }

  lemma StampDigits(stamp: nat, browser: Browser, minute: int, payload: Code)
    ensures Digits(stamp, 36, DIGITS) == Fingerprint(browser, minute, payload)
            <==> stamp == Stamp(browser, minute, payload)
  {
    FingerprintIsStamp(browser, minute, payload);
    DigitsDiffer();
    hide Digits, Number, Fingerprint, Stamp, Alphabet;
    DigitsRead(stamp, 36, DIGITS);
    DigitsRead(Stamp(browser, minute, payload), 36, DIGITS);
  }

  /** A written link is the one whose number is the checksum of its payload. */
  lemma WrittenLink(params: seq<Param>, browser: Browser, minute: int)
    ensures var payload := Join(Parts(params), STAR);
      Generate(params, browser, minute) == Link(Stamp(browser, minute, payload), payload)
  {
    var payload := Join(Parts(params), STAR);
    FingerprintIsStamp(browser, minute, payload);
    LinkIsJoined(Fingerprint(browser, minute, payload), payload);
    hide Join, Parts, Fingerprint, Stamp;
  }

  lemma LinkIsJoined(fp: Code, payload: Code)
    ensures Join([[49], fp, payload], STAR) == [49] + [STAR] + fp + [STAR] + payload
  {
    JoinOfThree([49], fp, payload);
    assert [49] + [STAR] + (fp + [STAR] + payload) == [49] + [STAR] + fp + [STAR] + payload;
  }

  lemma LinkIsTakenApart(stamp: nat, payload: Code)
    ensures Exec(Link(stamp, payload)) == Some(Groups([49], Digits(stamp, 36, DIGITS), Line(payload)))
    ensures Link(stamp, payload) != []
  {
    var fp := Digits(stamp, 36, DIGITS);
    DigitsArePlain(stamp);
    LinkIsJoined(fp, payload);
    hide Digits, Free, IsOneLine, Exec, Join, Line;
    ExecOfGenerated(fp, payload);
  }

  /** What the first line of the payload holds, if the number is fresh. */
  ghost function Accepted(stamp: nat, payload: Code, browser: Browser, minute: int): Option<map<Code, Code>> {
    var line := Line(payload);
    if Fresh(browser, minute, line, stamp) then Collect(if line == [] then [] else Split(line, STAR), map[]) else None
  }

  /** A link is read exactly when its number is the checksum of the reader's browser, the first line of the payload
      and one of the minutes that are tried; what is read is then what that line holds. */
  lemma ReadExactlyWhenFresh(stamp: nat, payload: Code, browser: Browser, minute: int, uriDecode: Code -> Option<Code>)
    ensures Parse(Link(stamp, payload), browser, minute, uriDecode) == Accepted(stamp, payload, browser, minute)
  {
    var line := Line(payload);
    LinkIsTakenApart(stamp, payload);
    hide Exec, Link, Stamp, Fingerprint, Collect, Split, Digits, Line;
    var g := Groups([49], Digits(stamp, 36, DIGITS), line);
    assert FindGroups(Link(stamp, payload), 3, uriDecode) == Some(g);
    assert FingerprintIsFresh(browser, minute, g) <==> Fresh(browser, minute, line, stamp) by {
      forall m ensures FingerprintAt(browser, m, g) <==> Stamp(browser, m, line) == stamp {
        StampDigits(stamp, browser, m, line);
      }
    }
  }

  /** If the text is a link, what is read from it is what its payload holds, or nothing if its number is not fresh. */
  ghost predicate ReadsLinks(text: Code, browser: Browser, minute: int, r: Option<map<Code, Code>>) {
    forall stamp: nat, payload :: text == Link(stamp, payload) ==> r == Accepted(stamp, payload, browser, minute)
  }

  lemma ParseReadsLinks(text: Code, browser: Browser, minute: int, uriDecode: Code -> Option<Code>)
    ensures ReadsLinks(text, browser, minute, Parse(text, browser, minute, uriDecode))
  {
    hide Parse, Link, Accepted;
    forall stamp: nat, payload | text == Link(stamp, payload)
      ensures Parse(text, browser, minute, uriDecode) == Accepted(stamp, payload, browser, minute)
    {
      ReadExactlyWhenFresh(stamp, payload, browser, minute, uriDecode);
    }
  }

  /** b is a with at most four consecutive characters changed, in their low bytes, which are all the checksum sees. */
  ghost predicate Alters(a: Code, b: Code) {
    exists front: Code, was: Code, is': Code, back: Code :: AltersAt(a, b, front, was, is', back)
  }

  ghost predicate AltersAt(a: Code, b: Code, front: Code, was: Code, is': Code, back: Code) {
    && |was| == |is'| <= 4 && Crc32.LowBytes(was) != Crc32.LowBytes(is')
    && a == front + was + back && b == front + is' + back
  }

  /** Of what is checksummed, one part is altered: the payload, or a field of the browser. */
  ghost predicate AltersOne(browser: Browser, payload: Code, browser': Browser, payload': Code) {
    || (browser' == browser && Alters(payload, payload'))
    || (payload' == payload
        && ((browser' == browser.(userAgent := browser'.userAgent) && Alters(browser.userAgent, browser'.userAgent))
            || (browser' == browser.(timezone := browser'.timezone) && Alters(browser.timezone, browser'.timezone))
            || (browser' == browser.(language := browser'.language) && Alters(browser.language, browser'.language))))
  }

  lemma AlteredChecksum(before: Code, a: Code, b: Code, after: Code)
    requires Alters(a, b)
    ensures Crc32.Checksum(before + a + after) != Crc32.Checksum(before + b + after)
  {
    hide Crc32.Checksum, Crc32.LowBytes;
    var front: Code, was: Code, is': Code, back: Code :| AltersAt(a, b, front, was, is', back);
    Crc32.DetectsBursts(before + front, was, is', back + after);
    assert before + a + after == (before + front) + was + (back + after);
    assert before + b + after == (before + front) + is' + (back + after);
  }

  lemma AlteredStamp(browser: Browser, payload: Code, browser': Browser, payload': Code, minute: int)
    requires AltersOne(browser, payload, browser', payload')
    ensures Stamp(browser, minute, payload) != Stamp(browser', minute, payload')
  {
    hide Crc32.Checksum, Decimal, Alters;
    var u, t, l, m, s := browser.userAgent, browser.timezone, browser.language, Decimal(minute), [STAR];
    if browser' == browser && Alters(payload, payload') {
      var before := u + s + t + s + l + s + m + s;
      AlteredChecksum(before, payload, payload', []);
      assert before + payload + [] == before + payload && before + payload' + [] == before + payload';
    } else if browser' == browser.(userAgent := browser'.userAgent) && Alters(u, browser'.userAgent) {
      AlteredAgent(browser, browser'.userAgent, minute, payload);
    } else if browser' == browser.(timezone := browser'.timezone) && Alters(t, browser'.timezone) {
      AlteredTimezone(browser, browser'.timezone, minute, payload);
    } else {
      AlteredLanguage(browser, browser'.language, minute, payload);
    }
  }

  lemma AlteredAgent(browser: Browser, agent: Code, minute: int, payload: Code)
    requires Alters(browser.userAgent, agent)
    ensures Stamp(browser, minute, payload) != Stamp(browser.(userAgent := agent), minute, payload)
  {
    hide Crc32.Checksum, Decimal, Alters;
    var t, l, m, s := browser.timezone, browser.language, Decimal(minute), [STAR];
    var after := s + t + s + l + s + m + s + payload;
    AlteredChecksum([], browser.userAgent, agent, after);
    forall u: Code ensures [] + u + after == u + s + t + s + l + s + m + s + payload {
    }
  }

  lemma AlteredTimezone(browser: Browser, zone: Code, minute: int, payload: Code)
    requires Alters(browser.timezone, zone)
    ensures Stamp(browser, minute, payload) != Stamp(browser.(timezone := zone), minute, payload)
  {
    hide Crc32.Checksum, Decimal, Alters;
    var u, l, m, s := browser.userAgent, browser.language, Decimal(minute), [STAR];
    var before, after := u + s, s + l + s + m + s + payload;
    AlteredChecksum(before, browser.timezone, zone, after);
    forall t: Code ensures before + t + after == u + s + t + s + l + s + m + s + payload {
    }
  }

  lemma AlteredLanguage(browser: Browser, language: Code, minute: int, payload: Code)
    requires Alters(browser.language, language)
    ensures Stamp(browser, minute, payload) != Stamp(browser.(language := language), minute, payload)
  {
    hide Crc32.Checksum, Decimal, Alters;
    var u, t, m, s := browser.userAgent, browser.timezone, Decimal(minute), [STAR];
    var before, after := u + s + t + s, s + m + s + payload;
    AlteredChecksum(before, browser.language, language, after);
    forall l: Code ensures before + l + after == u + s + t + s + l + s + m + s + payload {
    }
  }

  /** A link written at one minute, with its payload then altered, or read by a browser that is not quite the
      writer's, is not accepted by that minute; so it is not read, unless another minute that is tried happens to give
      the same checksum. */
  lemma AlteredLinksAreRefused(browser: Browser, written: int, payload: Code, browser': Browser, read: int,
                               payload': Code, uriDecode: Code -> Option<Code>)
    requires AltersOne(browser, payload, browser', payload') && IsOneLine(payload')
    ensures Stamp(browser', written, payload') != Stamp(browser, written, payload)
    ensures Parse(Link(Stamp(browser, written, payload), payload'), browser', read, uriDecode).Some?
            ==> exists m :: read - 3 < m <= read && m != written
                            && Stamp(browser', m, payload') == Stamp(browser, written, payload)
  {
    AlteredStamp(browser, payload, browser', payload', written);
    LineOfOneLine(payload');
    ReadExactlyWhenFresh(Stamp(browser, written, payload), payload', browser', read, uriDecode);
    hide Parse, Link, Stamp, Collect, AltersOne, IsOneLine, Line;
  }

  // ----- the code -----

  lemma PartsStep(params: seq<Param>, c: nat, b: seq<Code>)
    requires c < |params|
    ensures var v := params[c].value;
      b + Parts(params[c..])
      == (if v.Kept? then b + [params[c].key] + [Encode(v.text)] else b) + Parts(params[c + 1..])
  {
    hide Encode;
    assert params[c..][1..] == params[c + 1..];
  }

  /** The loop of `T` over the properties. */
  method CollectParts(params: seq<Param>) returns (b: seq<Code>)
    ensures b == Parts(params)
  {
    hide Encode;
    b := [];
    var c := 0;
    assert params[|params|..] == [] && Parts([]) == [] && params[0..] == params;
    hide Parts;
    while c < |params|
      invariant 0 <= c <= |params|
      invariant Parts(params) == b + Parts(params[c..])
    {
      PartsStep(params, c, b);
      var d := params[c].value;
      if d.Kept? {
        var encoded := EncodeText(d.text);
        b := b + [params[c].key];
        b := b + [encoded];
      }
      c := c + 1;
    }
  }

  method GenerateLink(params: seq<Param>, browser: Browser, minute: int, crc: Crc32.Fingerprinter) returns (a: Code)
    requires crc.Valid()
    modifies crc`table
    ensures crc.Valid()
    ensures a == Generate(params, browser, minute)
    ensures var payload := Join(Parts(params), STAR); a == Link(Stamp(browser, minute, payload), payload)
  {
    WrittenLink(params, browser, minute);
    hide Parts, Join, Fingerprint, Link, Stamp;
    var b := CollectParts(params);
    a := Join(b, STAR);
    var fp := FingerprintOf(browser, minute, a, crc);
    a := Join([[49], fp, a], STAR);
  }

  method FingerprintOf(browser: Browser, minute: int, payload: Code, crc: Crc32.Fingerprinter) returns (fp: Code)
    requires crc.Valid()
    modifies crc`table
    ensures crc.Valid()
    ensures fp == Fingerprint(browser, minute, payload)
  {
    var sum := crc.Crc(FingerprintText(browser, minute, payload));
    fp := Digits(sum, 36, DIGITS);
  }

  method ParseLink(text: Code, browser: Browser, minute: int, uriDecode: Code -> Option<Code>, crc: Crc32.Fingerprinter)
    returns (r: Option<map<Code, Code>>)
    requires crc.Valid()
    modifies crc`table
    ensures crc.Valid()
    ensures r == Parse(text, browser, minute, uriDecode)
    ensures ReadsLinks(text, browser, minute, r)
  {
    ParseReadsLinks(text, browser, minute, uriDecode);
    hide Fingerprint, FingerprintIsFresh, Exec, Collect, ReadsLinks;
    if text == [] { return None; }
    var a := text;
    var found: Option<Groups> := None;
    var c := 0;
    while c < 3 && found.None?
      invariant 0 <= c <= 3 && crc.Valid()
      invariant found.None? ==> FindGroups(text, 3, uriDecode) == FindGroups(a, 3 - c, uriDecode)
      invariant found.Some? ==> FindGroups(text, 3, uriDecode) == found
    {
      found := Exec(a);
      if found.None? {
        var decoded := uriDecode(a);
        if decoded.None? { return None; }
        a := decoded.value;
      }
      c := c + 1;
    }
    if found.None? || found.value.version != [49] { return None; }
    var g := found.value;
    var fresh' := CheckFresh(browser, minute, g, crc);
    if !fresh' { return None; }
    var m := if g.payload == [] then [] else Split(g.payload, STAR);
    r := CollectPairs(m);
  }

  /** The loop over the minutes. */
  method CheckFresh(browser: Browser, minute: int, g: Groups, crc: Crc32.Fingerprinter) returns (fresh': bool)
    requires crc.Valid()
    modifies crc`table
    ensures crc.Valid()
    ensures fresh' == FingerprintIsFresh(browser, minute, g)
  {
    hide Fingerprint;
    fresh' := false;
    var e := 0;
    while e < 3 && !fresh'
      invariant 0 <= e <= 3 && crc.Valid()
      invariant fresh' ==> FingerprintIsFresh(browser, minute, g)
      invariant !fresh' ==> forall m :: minute - e < m <= minute ==> !FingerprintAt(browser, m, g)
    {
      var fp := FingerprintOf(browser, minute - e, g.payload, crc);
      fresh' := g.fingerprint == fp;
      assert fresh' <==> FingerprintAt(browser, minute - e, g);
      e := e + 1;
    }
  }

  method CollectPairs(m: seq<Code>) returns (r: Option<map<Code, Code>>)
    ensures r == Collect(m, map[])
  {
    var b: map<Code, Code> := map[];
    var f := 0;
    while f < |m|
      invariant 0 <= f <= |m|
      invariant Collect(m, map[]) == Collect(m[f..], b)
    {
      if f + 1 == |m| { return None; }
      var v := DecodeText(m[f + 1]);
      if v.None? { return None; }
      assert m[f..][2..] == m[f + 2..];
      b := Assign(b, m[f], v.value);
      f := f + 2;
    }
    r := Some(b);
  }
}
