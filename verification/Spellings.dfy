/**
 Which strings the lenient decoder of Base64Url reads as which bytes: all of them, with skipped
 characters and with padding anywhere. Padding that completes a group of four ends the reading;
 otherwise only the characters with a value count, and they must come in whole groups.
 */
module Spellings {
  import opened Prelude
  import opened Base64Url

  /** The characters with a value. */
  function Letters(s: string): (r: string)
    ensures Alphabetic(r)
  {
    if s == "" then "" else (if DecodeChar(s[0]).Some? then [s[0]] else "") + Letters(s[1..])
  }

  /** How much padding there is behind the last of them. */
  function Trailing(s: string): nat {
    if s == "" then 0
    else
      var c := s[|s| - 1];
      if DecodeChar(c).Some? then 0 else Trailing(s[..|s| - 1]) + (if c == '=' then 1 else 0)
  }

  /** The character at `k` is padding that completes a group of at least two characters. */
  predicate Completes(s: string, k: nat)
    requires k < |s|
  {
    var q := |Letters(s[..k])| % 4;
    s[k] == '=' && q >= 2 && q + Trailing(s[..k + 1]) >= 4
  }

  /** The first such place from `i` on, or the end. */
  function Stop(s: string, i: nat): (k: nat)
    requires i <= |s|
    ensures i <= k <= |s| && (k < |s| ==> Completes(s, k))
    ensures forall j :: i <= j < k ==> !Completes(s, j)
    decreases |s| - i
  {
    if i == |s| || Completes(s, i) then i else Stop(s, i + 1)
  }

  /** The string with the padding that its length asks for. */
  function Padded(t: string): string {
    t + Pad((4 - |t| % 4) % 4)
  }

  /** What is read of it. */
  function ReadOf(t: string): (r: string)
    ensures Alphabetic(r)
  {
    Letters(Padded(t)[..Stop(Padded(t), 0)])
  }

  predicate Accepted(t: string) {
    Ascii(t) && (Stop(Padded(t), 0) < |Padded(t)| || |ReadOf(t)| % 4 == 0)
  }

  lemma {:induction false} LettersConcat(s: string, t: string)
    ensures Letters(s + t) == Letters(s) + Letters(t)
  {
    if s == "" {
      assert s + t == t;
    } else {
      var head := if DecodeChar(s[0]).Some? then [s[0]] else "";
      assert (s + t)[0] == s[0] && (s + t)[1..] == s[1..] + t;
      LettersConcat(s[1..], t);
      assert Letters(s + t) == head + (Letters(s[1..]) + Letters(t));
    }
  }

  lemma LettersNext(s: string, i: nat)
    requires i < |s|
    ensures Letters(s[..i + 1]) == Letters(s[..i]) + (if DecodeChar(s[i]).Some? then [s[i]] else "")
    ensures Trailing(s[..i + 1]) ==
      if DecodeChar(s[i]).Some? then 0 else Trailing(s[..i]) + (if s[i] == '=' then 1 else 0)
  {
    assert s[..i + 1] == s[..i] + [s[i]] && s[..i + 1][..i] == s[..i];
    LettersConcat(s[..i], [s[i]]);
    assert [s[i]][1..] == "";
  }

  lemma LettersFrom(s: string, i: nat, k: nat)
    requires i < k <= |s|
    ensures Letters(s[i..k]) == (if DecodeChar(s[i]).Some? then [s[i]] else "") + Letters(s[i + 1..k])
  {
    assert s[i..k][0] == s[i] && s[i..k][1..] == s[i + 1..k];
  }

  /** The decoder's counters at position `i`. */
  function Quad(s: string, i: nat): nat
    requires i <= |s|
  {
    |Letters(s[..i])| % 4
  }

  function Pads(s: string, i: nat): nat
    requires i <= |s|
  {
    if Quad(s, i) >= 2 then Trailing(s[..i]) else 0
  }

  lemma CountersNext(s: string, i: nat)
    requires i < |s|
    ensures Quad(s, i + 1) == if DecodeChar(s[i]).Some? then (Quad(s, i) + 1) % 4 else Quad(s, i)
    ensures Pads(s, i + 1) ==
      if DecodeChar(s[i]).Some? then 0
      else if s[i] == '=' && Quad(s, i) >= 2 then Pads(s, i) + 1 else Pads(s, i)
    ensures Completes(s, i) <==> s[i] == '=' && Quad(s, i) >= 2 && Quad(s, i) + Pads(s, i) + 1 >= 4
  {
    LettersNext(s, i);
  }

  /** The decoder reads the letters up to where it stops. */
  lemma {:induction false} ScanReads(s: string, i: nat)
    requires i <= |s|
    ensures Scan(s[i..], Quad(s, i), Pads(s, i)) == (Values(Letters(s[i..Stop(s, i)])), Stop(s, i) < |s|)
    decreases |s| - i
  {
    var k := Stop(s, i);
    if i == |s| {
      assert s[i..k] == "" && s[i..] == "";
    } else {
      var rest := s[i..];
      assert rest[0] == s[i] && rest[1..] == s[i + 1..];
      CountersNext(s, i);
      if k == i {
        assert s[i..k] == "";
      } else {
        ScanReads(s, i + 1);
        LettersFrom(s, i, k);
        if DecodeChar(s[i]).Some? {
          var v := DecodeChar(s[i]).value;
          LetterInFront(s[i], Letters(s[i + 1..k]));
        } else {
          assert "" + Letters(s[i + 1..k]) == Letters(s[i + 1..k]);
        }
      }
    }
  }

  lemma LetterInFront(c: char, letters: string)
    requires DecodeChar(c).Some? && Alphabetic(letters)
    ensures Alphabetic([c] + letters) && Values([c] + letters) == [DecodeChar(c).value] + Values(letters)
  {
  }

  /** What decoding any string gives. */
  lemma Decodes(t: string)
    ensures FromToken(t) == if Accepted(t) then Some(Bytes(Values(ReadOf(t)))) else None
    ensures Accepted(t) ==> |ReadOf(t)| % 4 != 1
  {
    var u := Padded(t);
    ScanReads(u, 0);
    assert u[0..] == u && u[..0] == "" && u[0..Stop(u, 0)] == u[..Stop(u, 0)];
  }

  /** Exactly which strings decode to the bytes of a token: those accepted whose letters have its
      length and its values, up to the unused bits of the last. */
  lemma SpellingsOfToken(b: seq<byte>, t: string)
    ensures FromToken(t) == Some(b) <==> Accepted(t) && SameUpToUnusedBits(Values(ReadOf(t)), Sextets(b))
  {
    Decodes(t);
    BytesOfSextets(b);
    NeverOneLeft(b);
    if Accepted(t) {
      SameBytes(Values(ReadOf(t)), Sextets(b));
    }
  }

  // ---- strings without padding ----

  /** `a` characters with a value, in a string of length `n`, get the padding they need. */
  predicate PadFits(a: nat, n: nat) {
    a % 4 == 0 || (a % 4 == 2 && 1 <= n % 4 <= 2) || (a % 4 == 3 && n % 4 != 0)
  }

  lemma {:induction false} NoTrailing(t: string)
    requires '=' !in t
    ensures Trailing(t) == 0
  {
    if t != "" {
      assert t[|t| - 1] in t;
      NoTrailing(t[..|t| - 1]);
    }
  }

  lemma OnePad(u: string)
    ensures Letters(u + "=") == Letters(u) && Trailing(u + "=") == Trailing(u) + 1
  {
    var v := u + "=";
    assert v[..|u|] == u && v[..|u| + 1] == v;
    LettersNext(v, |u|);
  }

  /** Padding behind a string without any. */
  lemma {:induction false} PaddingBehind(t: string, m: nat)
    requires '=' !in t
    ensures Letters(t + Pad(m)) == Letters(t) && Trailing(t + Pad(m)) == m
  {
    if m == 0 {
      assert t + Pad(0) == t;
      NoTrailing(t);
    } else {
      PaddingBehind(t, m - 1);
      assert t + Pad(m) == (t + Pad(m - 1)) + "=";
      OnePad(t + Pad(m - 1));
    }
  }

  lemma CompletesBehind(t: string, n: nat, j: nat)
    requires '=' !in t && j < n
    ensures Completes(t + Pad(n), |t| + j) <==> |Letters(t)| % 4 >= 2 && |Letters(t)| % 4 + j + 1 >= 4
  {
    var u := t + Pad(n);
    assert u[..|t| + j] == t + Pad(j) && u[..|t| + j + 1] == t + Pad(j + 1);
    PaddingBehind(t, j);
    PaddingBehind(t, j + 1);
  }

  lemma StopsBehind(t: string, n: nat)
    requires '=' !in t
    ensures Stop(t + Pad(n), 0) >= |t|
  {
    var u := t + Pad(n);
    forall k | 0 <= k < |t| ensures !Completes(u, k) {
      assert u[k] == t[k] && t[k] in t;
    }
  }

  lemma StopsInPadIff(t: string, n: nat)
    requires '=' !in t
    ensures Stop(t + Pad(n), 0) < |t| + n <==> |Letters(t)| % 4 >= 2 && 4 - |Letters(t)| % 4 <= n
  {
    var a, k := |Letters(t)| % 4, Stop(t + Pad(n), 0);
    StopsBehind(t, n);
    if k < |t| + n { CompletesBehind(t, n, k - |t|); }
    if a >= 2 && 4 - a <= n { CompletesBehind(t, n, 3 - a); }
  }

  lemma ReadsAllLetters(t: string, n: nat)
    requires '=' !in t
    ensures Stop(t + Pad(n), 0) <= |t| + n && Letters((t + Pad(n))[..Stop(t + Pad(n), 0)]) == Letters(t)
  {
    var u := t + Pad(n);
    var k := Stop(u, 0);
    StopsBehind(t, n);
    assert u[..k] == t + Pad(k - |t|);
    PaddingBehind(t, k - |t|);
  }

  lemma PadFitsIff(a: nat, n: nat)
    ensures PadFits(a, n) <==> a % 4 == 0 || (a % 4 >= 2 && 4 - a % 4 <= (4 - n % 4) % 4)
  {
  }

  /** Without padding in it a string is accepted exactly when what is added fits its letters, and then
      all of them are read. */
  lemma PlainDecodes(t: string)
    requires '=' !in t
    ensures Accepted(t) <==> Ascii(t) && PadFits(|Letters(t)|, |t|)
    ensures ReadOf(t) == Letters(t)
  {
    StopsInPadIff(t, (4 - |t| % 4) % 4);
    ReadsAllLetters(t, (4 - |t| % 4) % 4);
    PadFitsIff(|Letters(t)|, |t|);
  }

  /** The same for the spellings of a token. */
  lemma PlainSpellings(b: seq<byte>, t: string)
    requires '=' !in t
    ensures FromToken(t) == Some(b) <==>
      Ascii(t) && PadFits(|Letters(t)|, |t|) && SameUpToUnusedBits(Values(Letters(t)), Sextets(b))
  {
    SpellingsOfToken(b, t);
    PlainDecodes(t);
  }

  lemma {:induction false} AllLetters(s: string)
    requires Alphabetic(s)
    ensures Letters(s) == s
  {
    if s != "" {
      AllLetters(s[1..]);
      assert [s[0]] + s[1..] == s;
    }
  }

  lemma {:induction false} NoLetters(junk: string)
    requires Junk(junk)
    ensures Letters(junk) == ""
  {
    if junk != "" { NoLetters(junk[1..]); }
  }

  /** Skipped characters anywhere in a string of the alphabets, in any number: it stays what it was
      when the padding for the new length fits, and is refused otherwise. */
  lemma JunkIff(s: string, junk: string, rest: string)
    requires Alphabetic(s + rest) && |s + rest| % 4 != 1 && Junk(junk)
    ensures FromToken(s + junk + rest) ==
      if PadFits(|s + rest|, |s + junk + rest|) then FromToken(s + rest) else None
  {
    var t := s + junk + rest;
    forall i | 0 <= i < |t| ensures t[i] != '=' && t[i] < 128 as char {
      if i < |s| || i >= |s| + |junk| {
        assert DecodeChar((s + rest)[if i < |s| then i else i - |junk|]).Some?;
      } else {
        assert t[i] == junk[i - |s|];
      }
    }
    LettersConcat(s + junk, rest);
    LettersConcat(s, junk);
    NoLetters(junk);
    LettersConcat(s, rest);
    AllLetters(s + rest);
    assert Letters(t) == s + rest;
    PlainDecodes(t);
    Decodes(t);
    AlphabeticDecodes(s + rest);
  }
}
