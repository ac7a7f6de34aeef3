/** String.split and Array.join on one separator, white space, and numbers as text,
    for strings and for sequences of code units alike. */
module Text {

  datatype Option<+T> = None | Some(value: T)

  function Split<T(==)>(s: seq<T>, sep: T): (parts: seq<seq<T>>)
    ensures parts != []
    decreases |s|
  {
    if s == [] then [[]]
    else
      var rest := Split(s[1..], sep);
      if s[0] == sep then [[]] + rest else [[s[0]] + rest[0]] + rest[1..]
  }

  function Join<T>(parts: seq<seq<T>>, sep: T): seq<T>
    decreases |parts|
  {
    if parts == [] then []
    else if |parts| == 1 then parts[0]
    else parts[0] + [sep] + Join(parts[1..], sep)
  }

  ghost predicate Free<T>(part: seq<T>, sep: T) {
    forall i :: 0 <= i < |part| ==> part[i] != sep
  }

  ghost predicate AllFree<T>(parts: seq<seq<T>>, sep: T) {
    forall i :: 0 <= i < |parts| ==> Free(parts[i], sep)
  }

  /** What `trim` strips and `\\s` matches, as the number of a character. */
  predicate IsSpace(c: int) {
    9 <= c <= 13 || c == 32 || c == 0xA0 || c == 0x1680 || 0x2000 <= c <= 0x200A || c == 0x2028 || c == 0x2029
    || c == 0x202F || c == 0x205F || c == 0x3000 || c == 0xFEFF
  }

  /** A number written with the first `base` digits of an alphabet. */
  function Digits<T>(n: nat, base: nat, alphabet: seq<T>): (s: seq<T>)
    requires 2 <= base <= |alphabet|
    ensures s != [] && forall i :: 0 <= i < |s| ==> s[i] in alphabet
    decreases n
  {
    DigitStep(n, base);
    if n < base then [alphabet[n]] else Digits(n / base, base, alphabet) + [alphabet[n % base]]
  }

  /** The first place of a digit in the alphabet. */
  function Place<T(==)>(c: T, alphabet: seq<T>): nat {
    if alphabet == [] || alphabet[0] == c then 0 else 1 + Place(c, alphabet[1..])
  }

  /** The number that is written, the last digit for the units. */
  function Number<T(==)>(s: seq<T>, base: nat, alphabet: seq<T>): int {
    if s == [] then 0 else base * Number(s[..|s| - 1], base, alphabet) + Place(s[|s| - 1], alphabet)
  }

  ghost predicate Alphabet<T>(alphabet: seq<T>) {
    forall i, j :: 0 <= i < j < |alphabet| ==> alphabet[i] != alphabet[j]
  }

  lemma {:induction false} PlaceAt<T>(alphabet: seq<T>, k: nat)
    requires Alphabet(alphabet) && k < |alphabet|
    ensures Place(alphabet[k], alphabet) == k
  {
    if k > 0 {
      PlaceAt(alphabet[1..], k - 1);
    }
  }

  lemma Divided(n: nat, base: nat)
    requires base >= 2
    ensures n == base * (n / base) + n % base
  {
  }

  /** Reading a written number gives it back, so different numbers are written differently. */
  lemma {:induction false} DigitsRead<T>(n: nat, base: nat, alphabet: seq<T>)
    requires 2 <= base <= |alphabet| && Alphabet(alphabet)
    ensures Number(Digits(n, base, alphabet), base, alphabet) == n
    decreases n
  {
    DigitStep(n, base);
    if n < base {
      PlaceAt(alphabet, n);
      NumberSnoc([], alphabet[n], base, alphabet);
      assert [] + [alphabet[n]] == [alphabet[n]];
    } else {
      PlaceAt(alphabet, n % base);
      DigitsRead(n / base, base, alphabet);
      NumberSnoc(Digits(n / base, base, alphabet), alphabet[n % base], base, alphabet);
      Divided(n, base);
      hide Number, Place, Alphabet;
    }
  }

  lemma NumberSnoc<T>(s: seq<T>, c: T, base: nat, alphabet: seq<T>)
    ensures Number(s + [c], base, alphabet) == base * Number(s, base, alphabet) + Place(c, alphabet)
  {
    assert (s + [c])[..|s|] == s;
  }

  lemma DigitStep(n: nat, base: nat)
    requires base >= 2
    ensures 0 <= n % base < base
    ensures n >= base ==> 0 <= n / base < n
  {
    if n >= base {
      AtLeastDoubles(n / base, base);
      assert n == n / base * base + n % base;
    }
  }

  lemma {:induction false} AtLeastDoubles(x: nat, y: nat)
    requires y >= 2
    ensures x * y >= 2 * x
  {
    if x > 0 {
      AtLeastDoubles(x - 1, y);
      assert x * y == (x - 1) * y + y;
    }
  }

  lemma {:induction false} PiecesAreFree<T>(s: seq<T>, sep: T)
    ensures AllFree(Split(s, sep), sep)
    decreases |s|
  {
    if s != [] {
      PiecesAreFree(s[1..], sep);
      var rest := Split(s[1..], sep);
      assert Free(rest[0], sep);
    }
  }

  lemma JoinExtendsFirst<T>(parts: seq<seq<T>>, c: T, sep: T)
    requires parts != []
    ensures Join([[c] + parts[0]] + parts[1..], sep) == [c] + Join(parts, sep)
  {
    var longer := [[c] + parts[0]] + parts[1..];
    assert longer[1..] == parts[1..];
    if |parts| > 1 {
      var rest := Join(parts[1..], sep);
      assert ([c] + parts[0]) + [sep] + rest == [c] + (parts[0] + [sep] + rest);
    }
  }

  lemma JoinPrependsEmpty<T>(parts: seq<seq<T>>, sep: T)
    requires parts != []
    ensures Join([[]] + parts, sep) == [sep] + Join(parts, sep)
  {
    var longer := [[]] + parts;
    assert longer[1..] == parts;
    assert [] + [sep] == [sep];
  }

  lemma {:induction false} JoinOfSplit<T>(s: seq<T>, sep: T)
    ensures Join(Split(s, sep), sep) == s
    decreases |s|
  {
    hide Join;
    if s != [] {
      JoinOfSplit(s[1..], sep);
      var rest := Split(s[1..], sep);
      assert [s[0]] + s[1..] == s;
      JoinPrependsEmpty(rest, sep);
      JoinExtendsFirst(rest, s[0], sep);
    } else {
      JoinOfOne<T>([], sep);
    }
  }

  lemma JoinOfOne<T>(part: seq<T>, sep: T)
    ensures Join([part], sep) == part
  {
  }

  lemma {:induction false} SplitOfFree<T>(part: seq<T>, sep: T)
    requires Free(part, sep)
    ensures Split(part, sep) == [part]
    decreases |part|
  {
    if part != [] {
      assert Free(part[1..], sep);
      SplitOfFree(part[1..], sep);
      assert [part[0]] + part[1..] == part;
    }
  }

  lemma {:induction false} SplitAtFirst<T>(part: seq<T>, sep: T, rest: seq<T>)
    requires Free(part, sep)
    ensures Split(part + [sep] + rest, sep) == [part] + Split(rest, sep)
    decreases |part|
  {
    var s := part + [sep] + rest;
    if part == [] {
      assert s[1..] == rest;
    } else {
      assert s[1..] == part[1..] + [sep] + rest;
      assert Free(part[1..], sep);
      SplitAtFirst(part[1..], sep, rest);
      assert [part[0]] + part[1..] == part;
    }
  }

  lemma {:induction false} SplitOfJoin<T>(parts: seq<seq<T>>, sep: T)
    requires parts != [] && AllFree(parts, sep)
    ensures Split(Join(parts, sep), sep) == parts
    decreases |parts|
  {
    if |parts| == 1 {
      SplitOfFree(parts[0], sep);
    } else {
      assert AllFree(parts[1..], sep);
      SplitOfJoin(parts[1..], sep);
      SplitAtFirst(parts[0], sep, Join(parts[1..], sep));
    }
  }
}
