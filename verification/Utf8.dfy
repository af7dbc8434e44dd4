/** UTF-8 (section 3 of RFC 3629), as used to bound release bodies and to read markers. */
module Utf8 {
  import opened Wrappers

  type Byte = b: int | 0 <= b < 256

  predicate IsScalar(n: int) {
    0 <= n < 0xD800 || 0xE000 <= n < 0x11_0000
  }

  function EncodeChar(c: char): (r: seq<Byte>)
    ensures 1 <= |r| <= 4
  {
    var n := c as int;
    if n < 0x80 then [n]
    else if n < 0x800 then [0xC0 + n / 64, 0x80 + n % 64]
    else if n < 0x1_0000 then [0xE0 + n / 4096, 0x80 + n / 64 % 64, 0x80 + n % 64]
    else [0xF0 + n / 262144, 0x80 + n / 4096 % 64, 0x80 + n / 64 % 64, 0x80 + n % 64]
  }

  function Encode(s: string): seq<Byte> {
    if s == "" then [] else EncodeChar(s[0]) + Encode(s[1..])
  }

  predicate IsTail(b: Byte) {
    0x80 <= b < 0xC0
  }

  /** Reads the character at the front, with the number of bytes it takes; None where the
      front is not a complete, shortest-form encoding of a scalar value. */
  function DecodeChar(b: seq<Byte>): (r: Option<(char, nat)>)
    ensures r.Some? ==> 1 <= r.value.1 <= |b|
  {
    if b == [] then None
    else if b[0] < 0x80 then Some((b[0] as char, 1))
    else if 0xC0 <= b[0] < 0xE0 && |b| >= 2 && IsTail(b[1]) then
      var n := (b[0] as int - 0xC0) * 64 + (b[1] as int - 0x80);
      if n < 0x80 then None else Some((n as char, 2))
    else if 0xE0 <= b[0] < 0xF0 && |b| >= 3 && IsTail(b[1]) && IsTail(b[2]) then
      var n := (b[0] as int - 0xE0) * 4096 + (b[1] as int - 0x80) * 64 + (b[2] as int - 0x80);
      if n < 0x800 || !IsScalar(n) then None else Some((n as char, 3))
    else if 0xF0 <= b[0] < 0xF8 && |b| >= 4 && IsTail(b[1]) && IsTail(b[2]) && IsTail(b[3]) then
      var n := (b[0] as int - 0xF0) * 262144 + (b[1] as int - 0x80) * 4096 + (b[2] as int - 0x80) * 64 + (b[3] as int - 0x80);
      if n < 0x1_0000 || !IsScalar(n) then None else Some((n as char, 4))
    else None
  }

  /** Strict decoding. */
  function Decode(b: seq<Byte>): Option<string> {
    if b == [] then Some("") else
      match DecodeChar(b)
      case None => None
      case Some((c, n)) =>
        match Decode(b[n..])
        case None => None
        case Some(s) => Some([c] + s)
  }

  /** Decoding that drops whatever is not part of a complete character. */
  function DecodeIgnore(b: seq<Byte>): string {
    if b == [] then "" else
      match DecodeChar(b)
      case None => DecodeIgnore(b[1..])
      case Some((c, n)) => [c] + DecodeIgnore(b[n..])
  }

  lemma SixBitGroups(n: nat)
    ensures n == n / 64 * 64 + n % 64
    ensures n == n / 4096 * 4096 + n / 64 % 64 * 64 + n % 64
    ensures n == n / 262144 * 262144 + n / 4096 % 64 * 4096 + n / 64 % 64 * 64 + n % 64
  {
    var a := n / 64;
    var b := a / 64;
    assert n == a * 64 + n % 64 && a == b * 64 + a % 64 && b == b / 64 * 64 + b % 64;
    assert b == n / 4096;
    assert b / 64 == n / 262144;
  }

  lemma DecodeEncodedChar(c: char, rest: seq<Byte>)
    ensures DecodeChar(EncodeChar(c) + rest) == Some((c, |EncodeChar(c)|))
  {
    var n, b := c as int, EncodeChar(c) + rest;
    SixBitGroups(n);
    if n < 0x80 {
      assert b[0] == n;
    } else if n < 0x800 {
      assert b[0] == 0xC0 + n / 64 && b[1] == 0x80 + n % 64;
    } else if n < 0x1_0000 {
      assert b[0] == 0xE0 + n / 4096 && b[1] == 0x80 + n / 64 % 64 && b[2] == 0x80 + n % 64;
    } else {
      assert b[0] == 0xF0 + n / 262144 && b[1] == 0x80 + n / 4096 % 64 && b[2] == 0x80 + n / 64 % 64 && b[3] == 0x80 + n % 64;
    }
  }

  lemma {:induction false} DecodeEncoded(s: string)
    ensures Decode(Encode(s)) == Some(s)
  {
    if s != "" {
      DecodeEncodedChar(s[0], Encode(s[1..]));
      DecodeEncoded(s[1..]);
      assert Encode(s)[|EncodeChar(s[0])|..] == Encode(s[1..]);
      assert [s[0]] + s[1..] == s;
    }
  }

  lemma {:induction false} EncodeAppend(a: string, b: string)
    ensures Encode(a + b) == Encode(a) + Encode(b)
  {
    hide EncodeChar;
    if a == "" {
      assert a + b == b;
    } else {
      EncodeAppend(a[1..], b);
      assert (a + b)[1..] == a[1..] + b;
      assert EncodeChar(a[0]) + (Encode(a[1..]) + Encode(b)) == (EncodeChar(a[0]) + Encode(a[1..])) + Encode(b);
    }
  }

  /** A character cut short decodes to nothing. */
  lemma CutCharacterIsDropped(c: char, n: nat)
    requires n < |EncodeChar(c)|
    ensures DecodeIgnore(EncodeChar(c)[..n]) == ""
  {
    var e := EncodeChar(c)[..n];
    forall k | 0 <= k <= n
      ensures DecodeChar(e[k..]) == None
    {
    }
    TailsAreDropped(e);
  }

  lemma {:induction false} TailsAreDropped(e: seq<Byte>)
    requires forall k | 0 <= k < |e| :: DecodeChar(e[k..]) == None
    ensures DecodeIgnore(e) == ""
  {
    if e != [] {
      assert e[0..] == e;
      forall k | 0 <= k < |e[1..]|
        ensures DecodeChar(e[1..][k..]) == None
      {
        assert e[1..][k..] == e[k + 1..];
      }
      TailsAreDropped(e[1..]);
    }
  }

  /** How many leading characters of `s` fit into `n` bytes. */
  function Fitting(s: string, n: nat): (k: nat)
    ensures k <= |s|
  {
    if s == "" || |EncodeChar(s[0])| > n then 0 else 1 + Fitting(s[1..], n - |EncodeChar(s[0])|)
  }

  /** `Fitting` is the longest prefix that fits: it fits, and no longer one does. */
  lemma {:induction false} FittingIsLongest(s: string, n: nat, k: nat)
    requires k <= |s|
    ensures |Encode(s[..k])| <= n <==> k <= Fitting(s, n)
  {
    if k > 0 {
      assert s[..k][1..] == s[1..][..k - 1];
      if |EncodeChar(s[0])| <= n {
        FittingIsLongest(s[1..], n - |EncodeChar(s[0])|, k - 1);
      }
    }
  }

  /** Cutting an encoding at a byte position and decoding leniently keeps exactly the longest
      prefix of whole characters that fits. */
  lemma {:induction false} TruncationKeepsPrefix(s: string, n: nat)
    requires n <= |Encode(s)|
    ensures DecodeIgnore(Encode(s)[..n]) == s[..Fitting(s, n)]
  {
    if s != "" {
      var e, tail := EncodeChar(s[0]), Encode(s[1..]);
      if |e| <= n {
        assert Encode(s)[..n] == e + tail[..n - |e|];
        DecodeEncodedChar(s[0], tail[..n - |e|]);
        assert (e + tail[..n - |e|])[|e|..] == tail[..n - |e|];
        TruncationKeepsPrefix(s[1..], n - |e|);
      } else {
        assert Encode(s)[..n] == e[..n];
        CutCharacterIsDropped(s[0], n);
      }
    }
  }

  predicate IsAscii(s: string) {
    forall i | 0 <= i < |s| :: s[i] < 128 as char
  }

  lemma {:induction false} AsciiEncoding(s: string)
    requires IsAscii(s)
    ensures |Encode(s)| == |s| && forall i | 0 <= i < |s| :: Encode(s)[i] == s[i] as int
  {
    if s != "" {
      AsciiEncoding(s[1..]);
    }
  }

  /** One character of each length: a letter, one with an accent, a currency sign, an emoji. */
  lemma EncodeCharSpelled()
    ensures EncodeChar('a') == [0x61] && EncodeChar('\U{E9}') == [0xC3, 0xA9]
    ensures EncodeChar('\U{20AC}') == [0xE2, 0x82, 0xAC] && EncodeChar('\U{1F600}') == [0xF0, 0x9F, 0x98, 0x80]
  {
  }
}
