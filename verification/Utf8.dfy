/** UTF-8, as Python's strict str.encode and bytes.decode. Strings hold Unicode scalar values. */
module Utf8 {
  import opened Prelude
  import opened Base64Url

  function EncodeScalar(c: char): (r: seq<byte>)
    ensures 1 <= |r| <= 4
  {
    var x := c as int;
    if x < 0x80 then [x]
    else if x < 0x800 then [0xC0 + x / 64, 0x80 + x % 64]
    else if x < 0x1_0000 then [0xE0 + x / 4096, 0x80 + x / 64 % 64, 0x80 + x % 64]
    else [0xF0 + x / 262144, 0x80 + x / 4096 % 64, 0x80 + x / 64 % 64, 0x80 + x % 64]
  }

  function Encode(s: string): seq<byte> {
    if s == "" then [] else EncodeScalar(s[0]) + Encode(s[1..])
  }

  predicate Continues(b: byte) {
    0x80 <= b < 0xC0
  }

  /** How many bytes a leading byte announces; 0 when it cannot lead. */
  function Announced(b: byte): nat {
    if b < 0x80 then 1 else if b < 0xC0 then 0 else if b < 0xE0 then 2 else if b < 0xF0 then 3
    else if b < 0xF8 then 4 else 0
  }

  /** The number the first `Announced` bytes spell. */
  function Spelled(b: seq<byte>): int
    requires b != [] && 1 <= Announced(b[0]) <= |b|
  {
    match Announced(b[0])
    case 1 => b[0] as int
    case 2 => b[0] as int * 64 + b[1] as int - (0xC0 * 64 + 0x80)
    case 3 => b[0] as int * 4096 + b[1] as int * 64 + b[2] as int - (0xE0 * 4096 + 0x80 * 64 + 0x80)
    case _ => b[0] as int * 262144 + b[1] as int * 4096 + b[2] as int * 64 + b[3] as int
              - (0xF0 * 262144 + 0x80 * 4096 + 0x80 * 64 + 0x80)
  }

  /** Strictness: no shorter spelling exists, and the number is a scalar value. */
  predicate Acceptable(n: nat, x: int) {
    && (n == 1 || (n == 2 && x >= 0x80) || (n == 3 && x >= 0x800) || (n == 4 && x >= 0x1_0000))
    && (0 <= x < 0xD800 || 0xE000 <= x < 0x11_0000)
  }

  predicate StartsScalar(b: seq<byte>) {
    && b != [] && 1 <= Announced(b[0]) <= |b|
    && (forall i :: 1 <= i < Announced(b[0]) ==> Continues(b[i]))
    && Acceptable(Announced(b[0]), Spelled(b))
  }

  function Decode(b: seq<byte>): Option<string> {
    if b == [] then Some("")
    else if !StartsScalar(b) then None
    else
      match Decode(b[Announced(b[0])..])
      case None => None
      case Some(s) => Some([Spelled(b) as char] + s)
  }

  lemma ScalarRoundTrip(c: char)
    ensures var b := EncodeScalar(c);
      StartsScalar(b) && Announced(b[0]) == |b| && Spelled(b) == c as int
  {
    var x := c as int;
    assert x == x / 64 * 64 + x % 64;
    if 0x800 <= x {
      assert x / 64 == x / 4096 * 64 + x / 64 % 64;
    }
    if 0x1_0000 <= x {
      assert x / 4096 == x / 262144 * 64 + x / 4096 % 64;
    }
  }

  /** The number that one leading byte and six bits in each of the others make. */
  predicate SpelledIn(r: seq<byte>, n: nat, lead: int, x: int)
    requires n > 0
  {
    && |r| == n && (forall i :: 1 <= i < n ==> 0x80 <= r[i] < 0xC0)
    && x == (r[0] as int - lead) * (if n == 4 then 262144 else if n == 3 then 4096 else 64)
            + (if n == 4 then (r[1] as int - 0x80) * 4096 else 0)
            + (if n >= 3 then (r[n - 2] as int - 0x80) * 64 else 0)
            + (if n >= 2 then r[n - 1] as int - 0x80 else 0)
  }

  /** The bytes of a character as the table in section 3 of RFC 3629 has them: as few as its number needs,
      a leading byte that tells how many, and six bits in each that follows. */
  lemma ScalarIs(c: char)
    ensures var r, x := EncodeScalar(c), c as int;
      && (x < 0x80 ==> r == [x])
      && (0x80 <= x < 0x800 ==> SpelledIn(r, 2, 0xC0, x) && 0xC0 <= r[0] < 0xE0)
      && (0x800 <= x < 0x1_0000 ==> SpelledIn(r, 3, 0xE0, x) && 0xE0 <= r[0] < 0xF0)
      && (0x1_0000 <= x ==> SpelledIn(r, 4, 0xF0, x) && 0xF0 <= r[0] < 0xF8)
  {
    ScalarRoundTrip(c);
  }

  lemma {:induction false} EncodeJoins(s: string, t: string)
    ensures Encode(s + t) == Encode(s) + Encode(t)
  {
    if s == "" {
      assert s + t == t;
    } else {
      assert (s + t)[0] == s[0] && (s + t)[1..] == s[1..] + t;
      EncodeJoins(s[1..], t);
    }
  }

  /** Only the announced bytes matter. */
  lemma ScalarPrefix(b: seq<byte>, rest: seq<byte>)
    requires StartsScalar(b)
    ensures StartsScalar(b + rest) && Spelled(b + rest) == Spelled(b)
  {
  }

  lemma {:induction false} RoundTrip(s: string)
    ensures Decode(Encode(s)) == Some(s)
  {
    if s != "" {
      var b, rest := EncodeScalar(s[0]), Encode(s[1..]);
      ScalarRoundTrip(s[0]);
      ScalarPrefix(b, rest);
      assert (b + rest)[|b|..] == rest;
      RoundTrip(s[1..]);
      assert [s[0]] + s[1..] == s;
    }
  }

  /** The digits of a number to the base 64. */
  lemma Digits(d: int, c: int, b: int, a: int)
    requires 0 <= d && 0 <= c < 64 && 0 <= b < 64 && 0 <= a < 64
    ensures var x := ((d * 64 + c) * 64 + b) * 64 + a;
      && x == d * 262144 + c * 4096 + b * 64 + a
      && x % 64 == a && x / 64 % 64 == b && x / 4096 % 64 == c && x / 262144 == d
      && x / 64 == (d * 64 + c) * 64 + b && x / 4096 == d * 64 + c
  {
  }

  lemma ReencodesPair(b: seq<byte>)
    requires StartsScalar(b) && |b| == 2 == Announced(b[0])
    ensures EncodeScalar(Spelled(b) as char) == b
  {
    Digits(0, 0, b[0] as int - 0xC0, b[1] as int - 0x80);
  }

  lemma ReencodesTriple(b: seq<byte>)
    requires StartsScalar(b) && |b| == 3 == Announced(b[0])
    ensures EncodeScalar(Spelled(b) as char) == b
  {
    Digits(0, b[0] as int - 0xE0, b[1] as int - 0x80, b[2] as int - 0x80);
  }

  lemma ReencodesQuadruple(b: seq<byte>)
    requires StartsScalar(b) && |b| == 4 == Announced(b[0])
    ensures EncodeScalar(Spelled(b) as char) == b
  {
    Digits(b[0] as int - 0xF0, b[1] as int - 0x80, b[2] as int - 0x80, b[3] as int - 0x80);
  }

  lemma ScalarReencodes(b: seq<byte>)
    requires StartsScalar(b) && |b| == Announced(b[0])
    ensures EncodeScalar(Spelled(b) as char) == b
  {
    match |b|
    case 2 => ReencodesPair(b);
    case 3 => ReencodesTriple(b);
    case 4 => ReencodesQuadruple(b);
    case _ =>
  }

  /** Strict decoding is the exact inverse: what it accepts is what encoding its result gives. */
  lemma {:induction false} Reencodes(b: seq<byte>)
    requires Decode(b).Some?
    ensures Encode(Decode(b).value) == b
  {
    if b != [] {
      var n := Announced(b[0]);
      var first, rest := b[..n], b[n..];
      assert first + rest == b;
      assert StartsScalar(first) && Announced(first[0]) == n;
      ScalarPrefix(first, rest);
      ScalarReencodes(first);
      Reencodes(rest);
      var s := Decode(b).value;
      assert s[0] == Spelled(first) as char && s[1..] == Decode(rest).value;
    }
  }

  lemma {:induction false} EncodedLength(s: string)
    ensures |Encode(s)| >= |s|
  {
    if s != "" { EncodedLength(s[1..]); }
  }
}
