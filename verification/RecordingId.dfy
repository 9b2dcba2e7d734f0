/**
 The recording_id handed out with the call history
 (app/bss/adapters/portaswitch/serializer.py, `compose_recording_id`, `parse_recording_id`).
 It carries both PortaBilling keys of a recording in one token, and shares its name space
 with the bare numbers that were handed out before.
 */
module RecordingId {
  import opened Prelude
  import opened Base64Url
  import opened Spellings
  import Utf8

  datatype Parsed = Ok(iXdr: string, callRecordingId: Option<string>) | Malformed

  /** A non-empty string of ASCII digits. */
  predicate Digits(s: string) {
    s != "" && forall i :: 0 <= i < |s| ==> '0' <= s[i] <= '9'
  }

  const SEPARATOR := '|'

  function Text(iXdr: string, key: string): string {
    iXdr + [SEPARATOR] + key
  }

  /** `conf` is the row's h323_conf_id; without one the bare number is all there is. */
  function Compose(iXdr: string, conf: Option<string>): string {
    if conf == None || conf.value == "" then iXdr
    else ToToken(Utf8.Encode(Text(iXdr, conf.value)))
  }

  /** The part before the first separator, if there is one, and the part behind it. */
  function Partition(s: string): Option<(string, string)> {
    if s == "" then None
    else if s[0] == SEPARATOR then Some(("", s[1..]))
    else
      match Partition(s[1..])
      case None => None
      case Some(p) => Some(([s[0]] + p.0, p.1))
  }

  function Parse(id: string): Parsed {
    if Digits(id) then Ok(id, None)
    else
      match FromToken(id)
      case None => Malformed
      case Some(bytes) =>
        match Utf8.Decode(bytes)
        case None => Malformed
        case Some(text) =>
          match Partition(text)
          case None => Malformed
          case Some(p) => if Digits(p.0) && p.1 != "" then Ok(p.0, Some(p.1)) else Malformed
  }

  lemma {:induction false} PartitionSplits(a: string, b: string)
    requires SEPARATOR !in a
    ensures Partition(a + [SEPARATOR] + b) == Some((a, b))
  {
    var s := a + [SEPARATOR] + b;
    if a == "" {
      assert s[1..] == b;
    } else {
      assert s[1..] == a[1..] + [SEPARATOR] + b;
      PartitionSplits(a[1..], b);
      assert [a[0]] + a[1..] == a;
    }
  }

  lemma {:induction false} PartitionRejoins(s: string)
    ensures Partition(s).Some? ==> var p := Partition(s).value; s == p.0 + [SEPARATOR] + p.1
  {
    if s != "" && s[0] != SEPARATOR {
      PartitionRejoins(s[1..]);
    }
  }

  /** The first character of a token encodes the top six bits of a leading digit. */
  lemma ComposedIsNeverANumber(iXdr: string, key: string)
    requires Digits(iXdr) && key != ""
    ensures var id := Compose(iXdr, Some(key));
      id != "" && (id[0] == 'M' || id[0] == 'N' || id[0] == 'O') && !Digits(id)
  {
    var bytes := Utf8.Encode(Text(iXdr, key));
    var lead := iXdr[0];
    assert Text(iXdr, key)[0] == lead;
    assert bytes[0] == lead as int;
    TokenIsChars(bytes);
    var first: sextet := bytes[0] / 4;
    assert Sextets(bytes)[0] == first && 12 <= first <= 14;
    assert EncodeChar(12) == 'M' && EncodeChar(13) == 'N' && EncodeChar(14) == 'O';
  }

  /** What an id carries: the number, a vertical bar and the second key, in UTF-8 and base 64; without a
      second key, or an empty one, it is the bare number. */
  lemma ComposedCarries(iXdr: string, key: string)
    ensures key != "" ==> FromToken(Compose(iXdr, Some(key))) == Some(Utf8.Encode(iXdr + "|" + key))
    ensures Compose(iXdr, None) == Compose(iXdr, Some("")) == iXdr
  {
    TokenRoundTrip(Utf8.Encode(Text(iXdr, key)));
    assert Text(iXdr, key) == iXdr + "|" + key;
  }

  /** Exactly what is parsed, for every string: a bare number as itself; otherwise a token whose text has
      ASCII digits before its first vertical bar and something behind it. */
  lemma ParsesIff(id: string, iXdr: string, key: Option<string>)
    ensures Parse(id) == Ok(iXdr, key) <==>
      if key == None then id == iXdr && Digits(id)
      else
        && !Digits(id) && Digits(iXdr) && key.value != ""
        && FromToken(id) == Some(Utf8.Encode(iXdr + "|" + key.value))
  {
    if key.Some? && !Digits(id) && Digits(iXdr) && key.value != "" && FromToken(id) == Some(Utf8.Encode(iXdr + "|" + key.value)) {
      var text := iXdr + "|" + key.value;
      assert text == iXdr + [SEPARATOR] + key.value;
      Utf8.RoundTrip(text);
      PartitionSplits(iXdr, key.value);
    }
    if Parse(id) == Ok(iXdr, key) && !Digits(id) {
      var bytes := FromToken(id).value;
      var text := Utf8.Decode(bytes).value;
      Utf8.Reencodes(bytes);
      PartitionRejoins(text);
      assert text == iXdr + "|" + key.value;
    }
  }

  /** Parsing gives back both keys, whatever the second one contains. */
  lemma RoundTrip(iXdr: string, conf: Option<string>)
    requires Digits(iXdr)
    ensures Parse(Compose(iXdr, conf)) == Ok(iXdr, if conf == Some("") then None else conf)
  {
    if conf.Some? && conf.value != "" {
      var text := Text(iXdr, conf.value);
      ComposedIsNeverANumber(iXdr, conf.value);
      TokenRoundTrip(Utf8.Encode(text));
      Utf8.RoundTrip(text);
      PartitionSplits(iXdr, conf.value);
    }
  }

  /** No two recordings share an id, bare or composed. */
  lemma Injective(i: string, c: Option<string>, j: string, d: Option<string>)
    requires Digits(i) && Digits(j) && Compose(i, c) == Compose(j, d)
    ensures i == j && (c == d || {c, d} <= {None, Some("")})
  {
    RoundTrip(i, c);
    RoundTrip(j, d);
  }

  /** Whatever string is accepted: it is a bare number exactly when no second key comes out, and
      a token carries exactly the bytes that composing its two keys would encode. */
  lemma AcceptedTokenCarriesItsKeys(id: string)
    requires Parse(id).Ok?
    ensures var p := Parse(id);
      && Digits(p.iXdr)
      && (p.callRecordingId == None <==> Digits(id))
      && (p.callRecordingId == None ==> p.iXdr == id)
      && (p.callRecordingId != None ==>
            p.callRecordingId != Some("")
            && FromToken(id) == FromToken(Compose(p.iXdr, p.callRecordingId)))
  {
    if !Digits(id) {
      var bytes := FromToken(id).value;
      var text := Utf8.Decode(bytes).value;
      Utf8.Reencodes(bytes);
      PartitionRejoins(text);
      TokenRoundTrip(bytes);
    }
  }

  // ---- other spellings ----

  /** Characters outside the alphabets, four at a time and anywhere, leave every id but a bare number
      what it is. */
  lemma JunkChangesNothing(s: string, junk: string, rest: string)
    requires Junk(junk) && |junk| % 4 == 0 && !Digits(s + rest)
    ensures Parse(s + junk + rest) == Parse(s + rest)
  {
    JunkIsSkipped(s, junk, rest);
    if junk == "" {
      assert s + junk == s;
    } else {
      assert (s + junk + rest)[|s|] == junk[0];
    }
  }

  /** Any number of them, in a composed id: it is read as before when the padding for its new length
      fits, and refused otherwise. */
  lemma JunkIff(iXdr: string, key: string, s: string, junk: string, rest: string)
    requires Digits(iXdr) && key != "" && s + rest == Compose(iXdr, Some(key)) && Junk(junk)
    ensures Parse(s + junk + rest) ==
      if PadFits(|s + rest|, |s + junk + rest|) then Ok(iXdr, Some(key)) else Malformed
  {
    var bytes := Utf8.Encode(Text(iXdr, key));
    TokenIsAlphabetic(bytes);
    Spellings.JunkIff(s, junk, rest);
    RoundTrip(iXdr, Some(key));
    ComposedIsNeverANumber(iXdr, key);
    if junk == "" {
      assert s + junk == s;
      TokenRoundTrip(bytes);
    } else {
      assert (s + junk + rest)[|s|] == junk[0];
    }
  }

  /** A bare number never decodes to the text of two keys. */
  lemma NumberSpellsNoKeys(t: string, b: seq<byte>)
    requires Digits(t) && |b| >= 3 && '0' as int <= b[0] <= '9' as int
    ensures FromToken(t) != Some(b)
  {
    assert Alphabetic(t) && '=' !in t;
    PlainSpellings(b, t);
    AllLetters(t);
    var first: sextet := b[0] / 4;
    assert Sextets(b)[0] == first && first < 15;
    SextetCount(b);
    assert |Sextets(b)| > 1 && Used(Sextets(b), 0) == first;
    assert Values(t)[0] >= 52;
    if |t| > 1 {
      assert Used(Values(t), 0) == Values(t)[0];
    }
  }

  /** Exactly which strings are read as the two keys of a composed id: those whose letters, up to where
      padding ends them, have its length and its values up to the unused bits of the last. */
  lemma SpellingsIff(iXdr: string, key: string, t: string)
    requires Digits(iXdr) && key != ""
    ensures Compose(iXdr, Some(key)) == ToToken(Utf8.Encode(Text(iXdr, key)))
    ensures Parse(t) == Ok(iXdr, Some(key)) <==>
      Accepted(t) && SameUpToUnusedBits(Values(ReadOf(t)), Sextets(Utf8.Encode(Text(iXdr, key))))
    ensures '=' !in t ==> (Accepted(t) <==> Ascii(t) && PadFits(|Letters(t)|, |t|)) && ReadOf(t) == Letters(t)
  {
    var bytes := Utf8.Encode(Text(iXdr, key));
    SpellingsOfToken(bytes, t);
    if '=' !in t { PlainDecodes(t); }
    TextBytes(iXdr, key);
    TokenRoundTrip(bytes);
    RoundTrip(iXdr, Some(key));
    ComposedIsNeverANumber(iXdr, key);
    if Digits(t) {
      NumberSpellsNoKeys(t, bytes);
    } else if Parse(t) == Ok(iXdr, Some(key)) {
      AcceptedTokenCarriesItsKeys(t);
    }
  }

  lemma TextBytes(iXdr: string, key: string)
    requires Digits(iXdr) && key != ""
    ensures var bytes := Utf8.Encode(Text(iXdr, key));
      |bytes| >= 3 && '0' as int <= bytes[0] <= '9' as int
  {
    var text := Text(iXdr, key);
    assert text[0] == iXdr[0];
    Utf8.EncodedLength(text);
  }
}
