/**
 The signed public link to a recording
 (app/bss/adapters/portaswitch/recording_link.py, class RecordingLinkSigner).

 The HMAC-SHA-256 under the signer's derived key is an unknown function from payloads to
 32-byte digests; nothing about its strength is claimed. Clocks are inputs, in seconds.
 */
module RecordingLink {
  import opened Prelude
  import opened Base64Url
  import opened Spellings
  import Utf8

  type Digest = seq<byte> -> seq<byte>

  const VERSION := 1
  const MAC_SIZE := 16
  const HEADER_SIZE := 13
  const MAX_TTL := 10 * 365 * 24 * 3600

  ghost predicate IsDigest(digest: Digest) {
    forall p :: |digest(p)| == 32
  }

  datatype Signed = Id(id: string) | IllegalTtl | DoesNotFit

  /** `BadText` is the UnicodeDecodeError of a tail that is not UTF-8, which verify lets through. */
  datatype Verified = Link(iXdr: nat, callRecordingId: Option<string>, expiresAt: nat) | Invalid | Expired | BadText

  function Pow256(w: nat): nat {
    if w == 0 then 1 else 256 * Pow256(w - 1)
  }

  /** Big-endian, `w` bytes wide. */
  function BigEndian(n: nat, w: nat): (b: seq<byte>)
    ensures |b| == w
  {
    if w == 0 then [] else BigEndian(n / 256, w - 1) + [n % 256]
  }

  function Number(b: seq<byte>): nat {
    if b == [] then 0 else Number(b[..|b| - 1]) * 256 + b[|b| - 1]
  }

  function Mac(digest: Digest, payload: seq<byte>): seq<byte>
    requires |digest(payload)| == 32
  {
    digest(payload)[..MAC_SIZE]
  }

  function Payload(version: nat, expiresAt: nat, iXdr: nat, key: string): seq<byte> {
    BigEndian(version, 1) + BigEndian(expiresAt, 4) + BigEndian(iXdr, 8) + Utf8.Encode(key)
  }

  function Expiry(ttl: Option<int>, now: real): int {
    if ttl == None || ttl.value == 0 then 0 else now.Floor + ttl.value
  }

  predicate LegalTtl(ttl: Option<int>) {
    ttl == None || 0 <= ttl.value <= MAX_TTL
  }

  function KeyText(key: Option<string>): string {
    if key == None then "" else key.value
  }

  function Sign(digest: Digest, iXdr: int, key: Option<string>, ttl: Option<int>, now: real): Signed
    requires IsDigest(digest) && now >= 0.0
  {
    if !LegalTtl(ttl) then IllegalTtl
    else
      var e := Expiry(ttl, now);
      if 0 <= e < 0x1_0000_0000 && 0 <= iXdr < 0x1_0000_0000_0000_0000 then
        var payload := Payload(VERSION, e, iXdr, KeyText(key));
        Id(ToToken(payload + Mac(digest, payload)))
      else DoesNotFit
  }

  function Verify(digest: Digest, id: string, now: real): Verified
    requires IsDigest(digest)
  {
    match FromToken(id)
    case None => Invalid
    case Some(raw) =>
      var cut := Max(0, |raw| - MAC_SIZE);
      var payload, mac := raw[..cut], raw[cut..];
      if |payload| < HEADER_SIZE || mac != Mac(digest, payload) then Invalid
      else
        var version, e, iXdr := Number(payload[..1]), Number(payload[1..5]), Number(payload[5..13]);
        if version != VERSION then Invalid
        else if e != 0 && e as real < now then Expired
        else
          match Utf8.Decode(payload[HEADER_SIZE..])
          case None => BadText
          case Some(text) => Link(iXdr, if text == "" then None else Some(text), e)
  }

  // ---- properties ----

  lemma {:induction false} NumberRoundTrip(n: nat, w: nat)
    requires n < Pow256(w)
    ensures Number(BigEndian(n, w)) == n
  {
    if w > 0 {
      NumberRoundTrip(n / 256, w - 1);
      assert BigEndian(n, w)[..w - 1] == BigEndian(n / 256, w - 1);
    }
  }

  lemma {:induction false} BigEndianRoundTrip(b: seq<byte>)
    ensures BigEndian(Number(b), |b|) == b && Number(b) < Pow256(|b|)
  {
    if b != [] {
      BigEndianRoundTrip(b[..|b| - 1]);
      var last: byte := b[|b| - 1];
      var top := Number(b[..|b| - 1]);
      assert (top * 256 + last) / 256 == top && (top * 256 + last) % 256 == last;
      assert b[..|b| - 1] + [last] == b;
    }
  }

  lemma Widths()
    ensures Pow256(1) == 0x100 && Pow256(4) == 0x1_0000_0000 && Pow256(8) == 0x1_0000_0000_0000_0000
  {
    assert Pow256(2) == 0x1_0000;
    assert Pow256(4) == 256 * (256 * Pow256(2));
    assert Pow256(6) == 256 * (256 * Pow256(4));
    assert Pow256(8) == 256 * (256 * Pow256(6));
  }

  lemma PayloadFields(version: nat, e: nat, iXdr: nat, key: string)
    requires version < 0x100 && e < 0x1_0000_0000 && iXdr < 0x1_0000_0000_0000_0000
    ensures var p := Payload(version, e, iXdr, key);
      && |p| == HEADER_SIZE + |Utf8.Encode(key)|
      && Number(p[..1]) == version && Number(p[1..5]) == e && Number(p[5..13]) == iXdr
      && p[HEADER_SIZE..] == Utf8.Encode(key)
  {
    Widths();
    NumberRoundTrip(version, 1);
    NumberRoundTrip(e, 4);
    NumberRoundTrip(iXdr, 8);
    var p := Payload(version, e, iXdr, key);
    assert p[..1] == BigEndian(version, 1);
    assert p[1..5] == BigEndian(e, 4);
    assert p[5..13] == BigEndian(iXdr, 8);
    assert p[13..] == Utf8.Encode(key);
  }

  lemma PayloadOfFields(p: seq<byte>, text: string)
    requires |p| >= HEADER_SIZE && Utf8.Decode(p[HEADER_SIZE..]) == Some(text)
    ensures Payload(Number(p[..1]), Number(p[1..5]), Number(p[5..13]), text) == p
  {
    BigEndianRoundTrip(p[..1]);
    BigEndianRoundTrip(p[1..5]);
    BigEndianRoundTrip(p[5..13]);
    Utf8.Reencodes(p[13..]);
    assert p == p[..1] + p[1..5] + p[5..13] + p[13..];
  }

  /** Four bytes, the most significant one first. */
  function Four(a: int, b: int, c: int, d: int): int {
    a * 0x100_0000 + b * 0x1_0000 + c * 0x100 + d
  }

  /** The numbers of the header are read most significant byte first. */
  lemma NumberOfBytes(b: seq<byte>)
    ensures |b| == 1 ==> Number(b) == b[0]
    ensures |b| == 4 ==> Number(b) == Four(b[0], b[1], b[2], b[3])
    ensures |b| == 8 ==> Number(b) == Four(b[0], b[1], b[2], b[3]) * 0x1_0000_0000 + Four(b[4], b[5], b[6], b[7])
  {
    if |b| == 1 {
      NumberPrefix(b, 0);
    } else if |b| == 4 {
      NumberPrefix(b, 0); NumberPrefix(b, 1); NumberPrefix(b, 2); NumberPrefix(b, 3);
    } else if |b| == 8 {
      NumberPrefix(b, 0); NumberPrefix(b, 1); NumberPrefix(b, 2); NumberPrefix(b, 3);
      NumberPrefix(b, 4); NumberPrefix(b, 5); NumberPrefix(b, 6); NumberPrefix(b, 7);
    }
    assert b[..0] == [] && b[..|b|] == b;
  }

  lemma NumberPrefix(b: seq<byte>, i: nat)
    requires i < |b|
    ensures Number(b[..i + 1]) == Number(b[..i]) * 256 + b[i]
  {
    assert b[..i + 1][..i] == b[..i];
  }

  /** Exactly when a link can be signed: the lifetime is absent, zero or at most ten years of 365 days, the
      number fits eight bytes and the expiry four. */
  lemma SignsIff(digest: Digest, iXdr: int, key: Option<string>, ttl: Option<int>, now: real)
    requires IsDigest(digest) && now >= 0.0
    ensures Sign(digest, iXdr, key, ttl, now).Id? <==>
      && (ttl == None || 0 <= ttl.value <= 10 * 365 * 24 * 3600) && 0 <= iXdr < 0x1_0000_0000_0000_0000
      && (ttl == None || ttl.value == 0 || now.Floor + ttl.value < 0x1_0000_0000)
    ensures Sign(digest, iXdr, key, ttl, now) == IllegalTtl <==>
      ttl.Some? && !(0 <= ttl.value <= 10 * 365 * 24 * 3600)
  {
  }

  /** What a signed id carries: version one, the expiry and the number most significant byte first, the
      key in UTF-8, and the first sixteen bytes of the digest of all that. */
  lemma SignedCarriesDigest(digest: Digest, iXdr: int, key: Option<string>, ttl: Option<int>, now: real)
    requires IsDigest(digest) && now >= 0.0 && Sign(digest, iXdr, key, ttl, now).Id?
    ensures FromToken(Sign(digest, iXdr, key, ttl, now).id).Some?
    ensures var raw := FromToken(Sign(digest, iXdr, key, ttl, now).id).value;
      && |raw| >= 29 && raw[|raw| - 16..] == digest(raw[..|raw| - 16])[..16]
      && raw[0] == 1
      && Four(raw[1], raw[2], raw[3], raw[4])
         == (if ttl == None || ttl.value == 0 then 0 else now.Floor + ttl.value)
      && Four(raw[5], raw[6], raw[7], raw[8]) * 0x1_0000_0000 + Four(raw[9], raw[10], raw[11], raw[12]) == iXdr
      && raw[13..|raw| - 16] == Utf8.Encode(if key == None then "" else key.value)
  {
    var e, text := Expiry(ttl, now), KeyText(key);
    var payload := Payload(VERSION, e, iXdr, text);
    var raw := payload + Mac(digest, payload);
    PayloadFields(VERSION, e, iXdr, text);
    TokenRoundTrip(raw);
    assert raw[..|raw| - 16] == payload && raw[|raw| - 16..] == Mac(digest, payload);
    assert raw[1..5] == payload[1..5] && raw[5..13] == payload[5..13] && raw[13..|raw| - 16] == payload[13..];
    assert raw[..1] == payload[..1];
    NumberOfBytes(raw[..1]);
    NumberOfBytes(raw[1..5]);
    NumberOfBytes(raw[5..13]);
  }

  /** With a clock ten years short of the 32-bit limit, every legal lifetime fits its field. */
  lemma EveryLegalTtlFits(digest: Digest, iXdr: int, key: Option<string>, ttl: Option<int>, now: real)
    requires IsDigest(digest) && 0.0 <= now < (0x1_0000_0000 - MAX_TTL) as real
    requires LegalTtl(ttl) && 0 <= iXdr < 0x1_0000_0000_0000_0000
    ensures Sign(digest, iXdr, key, ttl, now).Id?
  {
    SignsIff(digest, iXdr, key, ttl, now);
  }

  /** What verifying a signed link answers at any later time: the same triple up to the expiry,
      `Expired` after it. An empty key comes back as no key. */
  lemma SignedLinkVerifies(digest: Digest, iXdr: nat, key: Option<string>, ttl: Option<int>, now: real, later: real)
    requires IsDigest(digest) && now >= 0.0 && Sign(digest, iXdr, key, ttl, now).Id?
    ensures var id := Sign(digest, iXdr, key, ttl, now).id;
      var e := if ttl == None || ttl.value == 0 then 0 else now.Floor + ttl.value;
      Verify(digest, id, later) ==
        if e != 0 && e as real < later then Expired
        else Link(iXdr, if key == Some("") then None else key, e)
  {
    var e := Expiry(ttl, now);
    var text := KeyText(key);
    var payload := Payload(VERSION, e, iXdr, text);
    var raw := payload + Mac(digest, payload);
    PayloadFields(VERSION, e, iXdr, text);
    TokenRoundTrip(raw);
    assert raw[..|raw| - MAC_SIZE] == payload && raw[|raw| - MAC_SIZE..] == Mac(digest, payload);
    Utf8.RoundTrip(text);
  }

  /** The length of an id, and the bound its callers rely on. */
  lemma LinkLength(digest: Digest, iXdr: nat, key: Option<string>, ttl: Option<int>, now: real)
    requires IsDigest(digest) && now >= 0.0 && Sign(digest, iXdr, key, ttl, now).Id?
    ensures var id := Sign(digest, iXdr, key, ttl, now).id;
      var n := |Utf8.Encode(KeyText(key))|;
      |id| == (4 * (29 + n) + 2) / 3 && (|id| <= 90 <==> n <= 38)
  {
    var payload := Payload(VERSION, Expiry(ttl, now), iXdr, KeyText(key));
    PayloadFields(VERSION, Expiry(ttl, now), iXdr, KeyText(key));
    TokenRoundTrip(payload + Mac(digest, payload));
  }

  /** A string is authentic when its bytes end with the first sixteen of the digest of those before, and
      these are a header of version one and whatever is behind it. */
  ghost predicate Authentic(digest: Digest, id: string) {
    FromToken(id).Some? &&
    var raw := FromToken(id).value;
    |raw| >= 29 && |digest(raw[..|raw| - 16])| == 32 && raw[|raw| - 16..] == digest(raw[..|raw| - 16])[..16] && raw[0] == 1
  }

  /** Exactly what verifying answers, for every string: `Invalid` unless it is authentic; `Expired` when
      its expiry is not zero and has passed; and otherwise the number and the text it carries. */
  lemma VerdictIff(digest: Digest, id: string, now: real)
    requires IsDigest(digest)
    ensures Verify(digest, id, now) == Invalid <==> !Authentic(digest, id)
    ensures Authentic(digest, id) ==>
      var raw, v := FromToken(id).value, Verify(digest, id, now);
      var e := Four(raw[1], raw[2], raw[3], raw[4]);
      var text := Utf8.Decode(raw[13..|raw| - 16]);
      && (v == Expired <==> e != 0 && e as real < now)
      && (v == BadText <==> v != Expired && text == None)
      && (v.Link? <==> v != Expired && text.Some?)
      && (v.Link? ==> v.expiresAt == e && v.callRecordingId == (if text == Some("") then None else text))
      && (v.Link? ==> v.iXdr == Four(raw[5], raw[6], raw[7], raw[8]) * 0x1_0000_0000 + Four(raw[9], raw[10], raw[11], raw[12]))
  {
    if FromToken(id).Some? && |FromToken(id).value| >= 29 {
      var raw := FromToken(id).value;
      var payload := raw[..|raw| - 16];
      NumberOfBytes(payload[..1]);
      NumberOfBytes(payload[1..5]);
      NumberOfBytes(payload[5..13]);
      assert payload[13..] == raw[13..|raw| - 16];
    }
  }

  /** Whatever string verifies carries the payload of the triple it verifies to, followed by the first
      sixteen bytes of that payload's digest. (The string itself need not be the issued one: see
      SpellingsIff.) */
  lemma VerifiedLinkIsAuthentic(digest: Digest, id: string, now: real)
    requires IsDigest(digest) && Verify(digest, id, now).Link?
    ensures var l := Verify(digest, id, now);
      var payload := Payload(1, l.expiresAt, l.iXdr, KeyText(l.callRecordingId));
      && FromToken(id) == Some(payload + digest(payload)[..16])
      && l.callRecordingId != Some("")
      && l.expiresAt < 0x1_0000_0000 && l.iXdr < 0x1_0000_0000_0000_0000
      && (l.expiresAt == 0 || now <= l.expiresAt as real)
  {
    var raw := FromToken(id).value;
    var payload := raw[..|raw| - MAC_SIZE];
    var text := Utf8.Decode(payload[HEADER_SIZE..]).value;
    PayloadOfFields(payload, text);
    Widths();
    BigEndianRoundTrip(payload[1..5]);
    BigEndianRoundTrip(payload[5..13]);
    assert raw == payload + raw[|raw| - MAC_SIZE..];
  }

  // ---- other spellings ----

  /** Characters outside the alphabets, four at a time and anywhere, change no verdict. */
  lemma JunkChangesNothing(digest: Digest, s: string, junk: string, rest: string, now: real)
    requires IsDigest(digest) && Junk(junk) && |junk| % 4 == 0
    ensures Verify(digest, s + junk + rest, now) == Verify(digest, s + rest, now)
  {
    JunkIsSkipped(s, junk, rest);
  }

  /** Any number of them, in a signed link: the verdict is as before when the padding for the new length
      fits, and `Invalid` otherwise. */
  lemma JunkIff(digest: Digest, iXdr: nat, key: Option<string>, ttl: Option<int>, now: real, later: real,
                s: string, junk: string, rest: string)
    requires IsDigest(digest) && now >= 0.0 && Sign(digest, iXdr, key, ttl, now) == Id(s + rest) && Junk(junk)
    ensures Verify(digest, s + junk + rest, later) ==
      if PadFits(|s + rest|, |s + junk + rest|) then Verify(digest, s + rest, later) else Invalid
  {
    var payload := Payload(VERSION, Expiry(ttl, now), iXdr, KeyText(key));
    TokenIsAlphabetic(payload + Mac(digest, payload));
    Spellings.JunkIff(s, junk, rest);
  }

  /** Exactly which strings verify like a signed link that has not expired: those whose letters, up to
      where padding ends them, have its length and its values up to the unused bits of the last. */
  lemma SpellingsIff(digest: Digest, iXdr: nat, key: Option<string>, ttl: Option<int>, now: real, later: real, t: string)
    requires IsDigest(digest) && now >= 0.0 && Sign(digest, iXdr, key, ttl, now).Id?
    requires Expiry(ttl, now) == 0 || later <= Expiry(ttl, now) as real
    ensures var id := Sign(digest, iXdr, key, ttl, now).id;
      && Alphabetic(id)
      && (Verify(digest, t, later) == Verify(digest, id, later) <==>
            Accepted(t) && SameUpToUnusedBits(Values(ReadOf(t)), Values(id)))
    ensures '=' !in t ==> (Accepted(t) <==> Ascii(t) && PadFits(|Letters(t)|, |t|)) && ReadOf(t) == Letters(t)
  {
    var e := Expiry(ttl, now);
    var payload := Payload(VERSION, e, iXdr, KeyText(key));
    var raw := payload + Mac(digest, payload);
    TokenIsAlphabetic(raw);
    TokenRoundTrip(raw);
    SpellingsOfToken(raw, t);
    if '=' !in t { PlainDecodes(t); }
    VerifiesAlike(digest, iXdr, key, ttl, now, later, t);
  }

  /** Two strings verify alike, as an unexpired link, exactly when they carry the same bytes. */
  lemma VerifiesAlike(digest: Digest, iXdr: nat, key: Option<string>, ttl: Option<int>, now: real, later: real, t: string)
    requires IsDigest(digest) && now >= 0.0 && Sign(digest, iXdr, key, ttl, now).Id?
    requires Expiry(ttl, now) == 0 || later <= Expiry(ttl, now) as real
    ensures var id := Sign(digest, iXdr, key, ttl, now).id;
      Verify(digest, t, later) == Verify(digest, id, later) <==> FromToken(t) == FromToken(id)
  {
    var payload := Payload(VERSION, Expiry(ttl, now), iXdr, KeyText(key));
    TokenRoundTrip(payload + Mac(digest, payload));
    SignedLinkVerifies(digest, iXdr, key, ttl, now, later);
    if Verify(digest, t, later) == Verify(digest, Sign(digest, iXdr, key, ttl, now).id, later) {
      VerifiedLinkIsAuthentic(digest, t, later);
    }
  }
}
