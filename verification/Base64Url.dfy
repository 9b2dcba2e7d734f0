/**
 The URL- and filename-safe base 64 of section 5 of RFC 4648, with the padding omitted as
 section 3.2 allows, the way the adapter uses Python's base64 module: encode, strip the
 trailing `=`, and before decoding put back as many as the length asks for.

 The decoder is Python's lenient one: characters outside both alphabets are skipped, the
 standard `+` and `/` are accepted next to `-` and `_`, and the unused low bits of the last
 character are not looked at.
 */
module Base64Url {
  import opened Prelude

  type byte = x: int | 0 <= x < 256
  type sextet = x: int | 0 <= x < 64

  function EncodeChar(v: sextet): (c: char)
    ensures c != '=' && c < 128 as char
  {
    if v < 26 then 'A' + v as char
    else if v < 52 then 'a' + (v - 26) as char
    else if v < 62 then '0' + (v - 52) as char
    else if v == 62 then '-' else '_'
  }

  function DecodeChar(c: char): Option<sextet> {
    if 'A' <= c <= 'Z' then Some(c as int - 'A' as int)
    else if 'a' <= c <= 'z' then Some(c as int - 'a' as int + 26)
    else if '0' <= c <= '9' then Some(c as int - '0' as int + 52)
    else if c == '-' || c == '+' then Some(62)
    else if c == '_' || c == '/' then Some(63)
    else None
  }

  /** Three bytes are four groups of six bits; a short last group is filled with zero bits. */
  function Sextets(b: seq<byte>): seq<sextet> {
    if |b| == 0 then []
    else if |b| == 1 then [b[0] / 4, b[0] % 4 * 16]
    else if |b| == 2 then [b[0] / 4, b[0] % 4 * 16 + b[1] / 16, b[1] % 16 * 4]
    else [b[0] / 4, b[0] % 4 * 16 + b[1] / 16, b[1] % 16 * 4 + b[2] / 64, b[2] % 64] + Sextets(b[3..])
  }

  function Chars(vs: seq<sextet>): (s: string)
    ensures |s| == |vs|
    ensures forall i :: 0 <= i < |s| ==> s[i] == EncodeChar(vs[i])
  {
    seq(|vs|, i requires 0 <= i < |vs| => EncodeChar(vs[i]))
  }

  function Pad(n: nat): string {
    seq(n, i => '=')
  }

  /** Padded encoding. */
  function Encode(b: seq<byte>): string {
    Chars(Sextets(b)) + Pad((3 - |b| % 3) % 3)
  }

  function StripPad(s: string): string {
    if s != "" && s[|s| - 1] == '=' then StripPad(s[..|s| - 1]) else s
  }

  /** The token as it travels: encoded, padding stripped. */
  function ToToken(b: seq<byte>): string {
    StripPad(Encode(b))
  }

  /** The decoder's reading loop. `q` is the position in the current group of four, `pads` the
      padding characters seen in a row; padding that completes a group ends the input. The
      result says whether it was padding that ended it. */
  function Scan(s: string, q: nat, pads: nat): (seq<sextet>, bool) {
    if s == "" then ([], false)
    else if s[0] == '=' then
      if q >= 2 && q + pads + 1 >= 4 then ([], true)
      else Scan(s[1..], q, if q >= 2 then pads + 1 else pads)
    else
      match DecodeChar(s[0])
      case None => Scan(s[1..], q, pads)
      case Some(v) =>
        var (vs, ended) := Scan(s[1..], (q + 1) % 4, 0);
        ([v] + vs, ended)
  }

  function Bytes(vs: seq<sextet>): seq<byte> {
    if |vs| <= 1 then []
    else
      var first: byte := vs[0] as int * 4 + vs[1] / 16;
      if |vs| == 2 then [first]
      else
        var second: byte := vs[1] as int % 16 * 16 + vs[2] / 4;
        if |vs| == 3 then [first, second]
        else [first, second, vs[2] as int % 4 * 64 + vs[3]] + Bytes(vs[4..])
  }

  predicate Ascii(s: string) {
    forall i :: 0 <= i < |s| ==> s[i] < 128 as char
  }

  /** Decoding of a token whose padding was stripped. None is Python's binascii.Error or ValueError. */
  function FromToken(s: string): Option<seq<byte>> {
    if !Ascii(s) then None
    else
      var (vs, ended) := Scan(s + Pad((4 - |s| % 4) % 4), 0, 0);
      if ended || |vs| % 4 == 0 then Some(Bytes(vs)) else None
  }

  // ---- properties ----

  lemma CharRoundTrip(v: sextet)
    ensures DecodeChar(EncodeChar(v)) == Some(v)
  {
  }

  /** The alphabet of table 2 in section 5 of RFC 4648, in ASCII codes: the capitals from 65, the small
      letters from 97, the digits from 48, the hyphen 45 and the underscore 95. Decoding reads it back, and
      `+` and `/` for the last two. No other character has a value. */
  lemma AlphabetIs(v: sextet, c: char)
    ensures EncodeChar(v) as int ==
      (if v <= 25 then 65 + v else if v <= 51 then 97 + v - 26 else if v <= 61 then 48 + v - 52 else if v == 62 then 45 else 95)
    ensures DecodeChar(c) == Some(v) <==> c == EncodeChar(v) || (v == 62 && c == '+') || (v == 63 && c == '/')
    ensures DecodeChar(c).Some? <==>
      65 <= c as int <= 90 || 97 <= c as int <= 122 || 48 <= c as int <= 57 || c in {'-', '_', '+', '/'}
  {
  }

  /** A token is made of the URL-safe alphabet alone. */
  lemma TokenIsUrlSafe(b: seq<byte>)
    ensures forall i :: 0 <= i < |ToToken(b)| ==>
      var c := ToToken(b)[i] as int;
      65 <= c <= 90 || 97 <= c <= 122 || 48 <= c <= 57 || c == 45 || c == 95
  {
    TokenIsChars(b);
  }

  /** Every three bytes are four characters with the same bits, and so are one or two bytes at the end but
      for the bits that fill the last character, which are zero. */
  lemma {:induction false} SextetsCarryTheBits(b: seq<byte>, k: nat)
    requires 3 * k <= |b|
    ensures 3 * k + 3 <= |b| ==>
      4 * k + 4 <= |Sextets(b)|
      && Bits(Sextets(b)[4 * k], Sextets(b)[4 * k + 1], Sextets(b)[4 * k + 2], Sextets(b)[4 * k + 3])
         == b[3 * k] as int * 65536 + b[3 * k + 1] as int * 256 + b[3 * k + 2] as int
    ensures 3 * k + 2 == |b| ==>
      4 * k + 3 == |Sextets(b)|
      && Bits(Sextets(b)[4 * k], Sextets(b)[4 * k + 1], Sextets(b)[4 * k + 2], 0) == b[3 * k] as int * 65536 + b[3 * k + 1] as int * 256
    ensures 3 * k + 1 == |b| ==>
      4 * k + 2 == |Sextets(b)| && Bits(Sextets(b)[4 * k], Sextets(b)[4 * k + 1], 0, 0) == b[3 * k] as int * 65536
  {
    if k > 0 {
      SextetsCarryTheBits(b[3..], k - 1);
      assert Sextets(b)[4..] == Sextets(b[3..]);
    }
  }

  function Bits(p: int, q: int, r: int, s: int): int {
    p * 262144 + q * 4096 + r * 64 + s
  }

  lemma {:induction false} SextetCount(b: seq<byte>)
    ensures |Sextets(b)| == (4 * |b| + 2) / 3
  {
    if |b| >= 3 {
      SextetCount(b[3..]);
    }
  }

  lemma {:induction false} NeverOneLeft(b: seq<byte>)
    ensures |Sextets(b)| % 4 != 1
  {
    if |b| >= 3 {
      NeverOneLeft(b[3..]);
    }
  }

  lemma {:induction false} StripPadOfPadded(s: string, n: nat)
    requires s == "" || s[|s| - 1] != '='
    ensures StripPad(s + Pad(n)) == s
  {
    if n == 0 {
      assert s + Pad(0) == s;
    } else {
      var t := s + Pad(n);
      assert t[..|t| - 1] == s + Pad(n - 1);
      StripPadOfPadded(s, n - 1);
    }
  }

  lemma TokenIsChars(b: seq<byte>)
    ensures ToToken(b) == Chars(Sextets(b))
  {
    StripPadOfPadded(Chars(Sextets(b)), (3 - |b| % 3) % 3);
  }

  /** Only characters with a value. */
  predicate Alphabetic(s: string) {
    forall i :: 0 <= i < |s| ==> DecodeChar(s[i]).Some?
  }

  function Values(s: string): (vs: seq<sextet>)
    requires Alphabetic(s)
    ensures |vs| == |s|
    ensures forall i :: 0 <= i < |s| ==> DecodeChar(s[i]) == Some(vs[i])
  {
    seq(|s|, i requires 0 <= i < |s| => DecodeChar(s[i]).value)
  }

  lemma ScanOne(s: string, q: nat)
    requires s != "" && DecodeChar(s[0]).Some?
    ensures var (vs, ended) := Scan(s[1..], (q + 1) % 4, 0);
      Scan(s, q, 0) == ([DecodeChar(s[0]).value] + vs, ended)
  {
  }

  lemma ValuesHead(s: string)
    requires s != "" && Alphabetic(s)
    ensures Alphabetic(s[1..]) && Values(s) == [DecodeChar(s[0]).value] + Values(s[1..])
  {
  }

  lemma NextInGroup(q: nat, n: nat)
    requires n > 0
    ensures ((q + 1) % 4 + (n - 1)) % 4 == (q + n) % 4
  {
  }

  /** Reading characters with values yields these and continues behind them. */
  lemma {:induction false} ScanValues(s: string, rest: string, q: nat)
    requires Alphabetic(s) && q < 4
    ensures var tail := Scan(rest, (q + |s|) % 4, 0);
      Scan(s + rest, q, 0) == (Values(s) + tail.0, tail.1)
  {
    var tail := Scan(rest, (q + |s|) % 4, 0);
    if s == "" {
      assert s + rest == rest && Values(s) + tail.0 == tail.0;
    } else {
      var all, v := s + rest, DecodeChar(s[0]).value;
      assert all[0] == s[0] && all[1..] == s[1..] + rest;
      ScanOne(all, q);
      ValuesHead(s);
      ScanValues(s[1..], rest, (q + 1) % 4);
      NextInGroup(q, |s|);
      assert [v] + Values(s[1..]) + tail.0 == [v] + (Values(s[1..]) + tail.0);
    }
  }

  lemma CharsAreAlphabetic(vs: seq<sextet>)
    ensures Alphabetic(Chars(vs)) && Values(Chars(vs)) == vs
  {
    forall i | 0 <= i < |vs| ensures DecodeChar(Chars(vs)[i]) == Some(vs[i]) {
      CharRoundTrip(vs[i]);
    }
  }

  lemma ScanPad(q: nat)
    requires q < 4 && q != 1
    ensures Scan(Pad((4 - q) % 4), q, 0) == ([], q != 0)
  {
    if q == 2 {
      assert Pad(2)[1..] == Pad(1);
      assert Scan(Pad(1), 2, 1) == ([], true);
    } else if q == 3 {
      assert Pad(1)[0] == '=';
    }
  }

  lemma GroupRoundTrip(b0: byte, b1: byte, b2: byte)
    ensures var v1: sextet, v2: sextet := b0 % 4 * 16 + b1 / 16, b1 % 16 * 4 + b2 / 64;
      && b0 / 4 * 4 + v1 / 16 == b0
      && v1 % 16 * 16 + v2 / 4 == b1
      && v2 % 4 * 64 + b2 % 64 == b2
  {
  }

  lemma {:induction false} BytesOfSextets(b: seq<byte>)
    ensures Bytes(Sextets(b)) == b
  {
    if |b| >= 3 {
      GroupRoundTrip(b[0], b[1], b[2]);
      BytesOfSextets(b[3..]);
      assert Sextets(b)[4..] == Sextets(b[3..]);
      assert [b[0], b[1], b[2]] + b[3..] == b;
    } else if |b| == 2 {
      GroupRoundTrip(b[0], b[1], 0);
    } else if |b| == 1 {
      GroupRoundTrip(b[0], 0, 0);
    }
  }

  lemma ScanThreePads()
    ensures Scan(Pad(3), 1, 0) == ([], false)
  {
    assert Pad(3)[1..] == Pad(2) && Pad(2)[1..] == Pad(1) && Pad(1)[1..] == "";
    assert Scan("", 1, 0) == ([], false);
    assert Scan(Pad(1), 1, 0) == ([], false);
    assert Scan(Pad(2), 1, 0) == ([], false);
  }

  lemma AlphabeticIsAscii(s: string)
    requires Alphabetic(s)
    ensures Ascii(s)
  {
    forall i | 0 <= i < |s| ensures s[i] < 128 as char {
      assert DecodeChar(s[i]).Some?;
    }
  }

  /** A string of the alphabets decodes, to the bytes of its values, unless its length is impossible. */
  lemma AlphabeticDecodes(s: string)
    requires Alphabetic(s)
    ensures FromToken(s) == if |s| % 4 == 1 then None else Some(Bytes(Values(s)))
  {
    var q := |s| % 4;
    var pad := Pad((4 - q) % 4);
    AlphabeticIsAscii(s);
    ScanValues(s, pad, 0);
    assert Values(s) + [] == Values(s);
    if q == 1 {
      ScanThreePads();
    } else {
      ScanPad(q);
    }
  }

  lemma TokenIsAlphabetic(b: seq<byte>)
    ensures Alphabetic(ToToken(b)) && Values(ToToken(b)) == Sextets(b) && |ToToken(b)| % 4 != 1
  {
    TokenIsChars(b);
    CharsAreAlphabetic(Sextets(b));
    NeverOneLeft(b);
  }

  /** Every byte string survives the token, and the token has ceil(4n/3) characters. */
  lemma TokenRoundTrip(b: seq<byte>)
    ensures FromToken(ToToken(b)) == Some(b)
    ensures |ToToken(b)| == (4 * |b| + 2) / 3
  {
    TokenIsAlphabetic(b);
    AlphabeticDecodes(ToToken(b));
    BytesOfSextets(b);
    SextetCount(b);
  }

  // ---- what else decodes to the same bytes ----

  /** Characters the decoder skips. */
  predicate Junk(s: string) {
    forall i :: 0 <= i < |s| ==> s[i] < 128 as char && s[i] != '=' && DecodeChar(s[i]) == None
  }

  lemma {:induction false} ScanSkipsFirst(junk: string, rest: string, q: nat, pads: nat)
    requires Junk(junk)
    ensures Scan(junk + rest, q, pads) == Scan(rest, q, pads)
  {
    if junk == "" {
      assert junk + rest == rest;
    } else {
      assert (junk + rest)[0] == junk[0] && (junk + rest)[1..] == junk[1..] + rest;
      ScanSkipsFirst(junk[1..], rest, q, pads);
    }
  }

  lemma {:induction false} ScanSkips(s: string, junk: string, rest: string, q: nat, pads: nat)
    requires Junk(junk)
    ensures Scan(s + junk + rest, q, pads) == Scan(s + rest, q, pads)
    decreases |s|
  {
    var all, without := s + junk + rest, s + rest;
    if s == "" {
      assert all == junk + rest && without == rest;
      ScanSkipsFirst(junk, rest, q, pads);
    } else {
      assert all[0] == without[0] == s[0] && all[1..] == s[1..] + junk + rest && without[1..] == s[1..] + rest;
      if s[0] == '=' {
        ScanSkips(s[1..], junk, rest, q, if q >= 2 then pads + 1 else pads);
      } else if DecodeChar(s[0]) == None {
        ScanSkips(s[1..], junk, rest, q, pads);
      } else {
        ScanSkips(s[1..], junk, rest, (q + 1) % 4, 0);
      }
    }
  }

  lemma JunkIsAscii(s: string, junk: string, rest: string)
    requires Junk(junk)
    ensures Ascii(s + junk + rest) <==> Ascii(s + rest)
  {
    var all, without := s + junk + rest, s + rest;
    if Ascii(all) {
      forall i | 0 <= i < |without| ensures without[i] < 128 as char {
        assert without[i] == all[if i < |s| then i else i + |junk|];
      }
    }
    if Ascii(without) {
      forall i | 0 <= i < |all| ensures all[i] < 128 as char {
        assert all[i] == if i < |s| then without[i] else if i < |s| + |junk| then junk[i - |s|] else without[i - |junk|];
      }
    }
  }

  /** Any four characters outside the alphabets, anywhere in any string, change nothing: so whatever
      decodes has other spellings. */
  lemma JunkIsSkipped(s: string, junk: string, rest: string)
    requires Junk(junk) && |junk| % 4 == 0
    ensures FromToken(s + junk + rest) == FromToken(s + rest)
  {
    var all, without := s + junk + rest, s + rest;
    JunkIsAscii(s, junk, rest);
    var pad := Pad((4 - |all| % 4) % 4);
    assert |all| % 4 == |without| % 4;
    assert all + pad == s + junk + (rest + pad) && without + pad == s + (rest + pad);
    ScanSkips(s, junk, rest + pad, 0, 0);
  }

  /** The same values, except for the low bits of the last one that no byte is made from. */
  predicate SameUpToUnusedBits(vs: seq<sextet>, ws: seq<sextet>) {
    && |vs| == |ws|
    && forall i :: 0 <= i < |vs| ==> Used(vs, i) == Used(ws, i)
  }

  function Used(vs: seq<sextet>, i: nat): int
    requires i < |vs|
  {
    if i < |vs| - 1 || |vs| % 4 == 0 then vs[i]
    else if |vs| % 4 == 2 then vs[i] / 16
    else vs[i] / 4
  }

  function Group(a: seq<sextet>): (b: seq<byte>)
    requires |a| == 4
    ensures |b| == 3
  {
    [a[0] as int * 4 + a[1] / 16, a[1] as int % 16 * 16 + a[2] / 4, a[2] as int % 4 * 64 + a[3]]
  }

  lemma BytesOfGroup(a: seq<sextet>)
    requires |a| >= 4
    ensures Bytes(a) == Group(a[..4]) + Bytes(a[4..])
  {
  }

  lemma GroupInjective(a: seq<sextet>, b: seq<sextet>)
    requires |a| == |b| == 4
    ensures Group(a) == Group(b) <==> a == b
  {
    if Group(a) == Group(b) {
      SextetsOfGroup(a[0], a[1], a[2], a[3], b[0], b[1], b[2], b[3]);
    }
  }

  lemma SameParts(x: seq<byte>, u: seq<byte>, y: seq<byte>, v: seq<byte>)
    requires |x| == |y|
    ensures x + u == y + v <==> x == y && u == v
  {
    if x + u == y + v {
      assert x == (x + u)[..|x|] && y == (y + v)[..|x|];
      assert u == (x + u)[|x|..] && v == (y + v)[|x|..];
    }
  }

  lemma SextetsOfGroup(a0: int, a1: int, a2: int, a3: int, b0: int, b1: int, b2: int, b3: int)
    requires 0 <= a0 < 64 && 0 <= a1 < 64 && 0 <= a2 < 64 && 0 <= a3 < 64
    requires 0 <= b0 < 64 && 0 <= b1 < 64 && 0 <= b2 < 64 && 0 <= b3 < 64
    requires [a0 * 4 + a1 / 16, a1 % 16 * 16 + a2 / 4, a2 % 4 * 64 + a3] == [b0 * 4 + b1 / 16, b1 % 16 * 16 + b2 / 4, b2 % 4 * 64 + b3]
    ensures a0 == b0 && a1 == b1 && a2 == b2 && a3 == b3
  {
    var x := [a0 * 4 + a1 / 16, a1 % 16 * 16 + a2 / 4, a2 % 4 * 64 + a3];
    var y := [b0 * 4 + b1 / 16, b1 % 16 * 16 + b2 / 4, b2 % 4 * 64 + b3];
    assert x[0] == y[0] && x[1] == y[1] && x[2] == y[2];
  }

  lemma {:induction false} ByteCount(vs: seq<sextet>)
    requires |vs| % 4 != 1
    ensures |Bytes(vs)| == 3 * |vs| / 4
  {
    if |vs| >= 4 { ByteCount(vs[4..]); }
  }

  lemma {:induction false} SameBytesIff(a: seq<sextet>, b: seq<sextet>)
    requires |a| == |b| && |a| % 4 != 1
    ensures Bytes(a) == Bytes(b) <==> SameUpToUnusedBits(a, b)
  {
    if |a| >= 4 {
      FirstGroups(a, b);
      SameBytesIff(a[4..], b[4..]);
      UsedInGroups(a, b);
    } else if |a| >= 2 {
      ShortGroups(a, b);
    }
  }

  lemma FirstGroups(a: seq<sextet>, b: seq<sextet>)
    requires |a| == |b| >= 4
    ensures Bytes(a) == Bytes(b) <==> a[..4] == b[..4] && Bytes(a[4..]) == Bytes(b[4..])
  {
    BytesOfGroup(a);
    BytesOfGroup(b);
    GroupInjective(a[..4], b[..4]);
    SameParts(Group(a[..4]), Bytes(a[4..]), Group(b[..4]), Bytes(b[4..]));
  }

  lemma UsedInGroup(a: seq<sextet>)
    requires |a| >= 4 && |a| % 4 != 1
    ensures forall i :: 0 <= i < |a| - 4 ==> Used(a[4..], i) == Used(a, i + 4)
    ensures forall i :: 0 <= i < 4 ==> Used(a, i) == a[i] == a[..4][i]
  {
  }

  lemma UsedInGroups(a: seq<sextet>, b: seq<sextet>)
    requires |a| == |b| >= 4 && |a| % 4 != 1
    ensures SameUpToUnusedBits(a, b) <==> a[..4] == b[..4] && SameUpToUnusedBits(a[4..], b[4..])
  {
    UsedInGroup(a);
    UsedInGroup(b);
    if SameUpToUnusedBits(a, b) {
      forall i | 0 <= i < |a| - 4 ensures Used(a[4..], i) == Used(b[4..], i) { assert Used(a, i + 4) == Used(b, i + 4); }
      forall i | 0 <= i < 4 ensures a[..4][i] == b[..4][i] { assert Used(a, i) == Used(b, i); }
    }
    if a[..4] == b[..4] && SameUpToUnusedBits(a[4..], b[4..]) {
      forall i | 0 <= i < |a| ensures Used(a, i) == Used(b, i) {
        if i >= 4 { assert Used(a[4..], i - 4) == Used(b[4..], i - 4); } else { assert a[..4][i] == b[..4][i]; }
      }
    }
  }

  lemma ShortGroups(a: seq<sextet>, b: seq<sextet>)
    requires |a| == |b| && 2 <= |a| <= 3
    ensures Bytes(a) == Bytes(b) <==> SameUpToUnusedBits(a, b)
  {
    UsedInShort(a);
    UsedInShort(b);
    assert SameUpToUnusedBits(a, b) <==> forall i :: 0 <= i < |a| ==> Used(a, i) == Used(b, i);
    if |a| == 2 {
      assert SameUpToUnusedBits(a, b) <==> Used(a, 0) == Used(b, 0) && Used(a, 1) == Used(b, 1);
      assert Bytes(a) == Bytes(b) <==> Bytes(a)[0] == Bytes(b)[0];
    } else {
      assert SameUpToUnusedBits(a, b) <==> Used(a, 0) == Used(b, 0) && Used(a, 1) == Used(b, 1) && Used(a, 2) == Used(b, 2);
      assert Bytes(a) == Bytes(b) <==> Bytes(a)[0] == Bytes(b)[0] && Bytes(a)[1] == Bytes(b)[1];
    }
  }

  lemma UsedInShort(a: seq<sextet>)
    requires 2 <= |a| <= 3
    ensures |Bytes(a)| == |a| - 1
    ensures |a| == 2 ==> Bytes(a)[0] == Used(a, 0) * 4 + Used(a, 1)
    ensures |a| == 2 ==> 0 <= Used(a, 1) < 4
    ensures |a| == 3 ==> Bytes(a)[0] == Used(a, 0) * 4 + Used(a, 1) / 16 && Bytes(a)[1] == Used(a, 1) % 16 * 16 + Used(a, 2)
    ensures |a| == 3 ==> 0 <= Used(a, 1) < 64 && 0 <= Used(a, 2) < 16
  {
  }

  lemma CountsDiffer(m: nat, n: nat)
    requires m % 4 != 1 && n % 4 != 1 && m != n
    ensures 3 * m / 4 != 3 * n / 4
  {
  }

  /** Whatever their lengths: values carry the same bytes exactly when they are the same up to the
      unused bits. */
  lemma SameBytes(vs: seq<sextet>, ws: seq<sextet>)
    requires |vs| % 4 != 1 && |ws| % 4 != 1
    ensures Bytes(vs) == Bytes(ws) <==> SameUpToUnusedBits(vs, ws)
  {
    if |vs| == |ws| {
      SameBytesIff(vs, ws);
    } else {
      ByteCount(vs);
      ByteCount(ws);
      CountsDiffer(|vs|, |ws|);
    }
  }

  /** Exactly when two strings of the alphabets carry the same bytes: they have one length, and the
      same values up to the unused bits of the last. */
  lemma LenientDecoding(s: string, t: string)
    requires Alphabetic(s) && Alphabetic(t) && |s| % 4 != 1 && |t| % 4 != 1
    ensures FromToken(s) == FromToken(t) <==> SameUpToUnusedBits(Values(s), Values(t))
  {
    AlphabeticDecodes(s);
    AlphabeticDecodes(t);
    SameBytes(Values(s), Values(t));
  }
}
