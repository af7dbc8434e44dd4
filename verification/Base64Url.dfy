/** Base64 with the URL-safe alphabet and without padding (sections 3.2 and 5 of RFC 4648). */
module Base64Url {
  import opened Wrappers
  import opened Utf8

  predicate IsSymbol(c: char) {
    'A' <= c <= 'Z' || 'a' <= c <= 'z' || '0' <= c <= '9' || c == '-' || c == '_'
  }

  function Symbol(v: int): (c: char)
    requires 0 <= v < 64
    ensures IsSymbol(c)
  {
    if v < 26 then 'A' + v as char
    else if v < 52 then 'a' + (v - 26) as char
    else if v < 62 then '0' + (v - 52) as char
    else if v == 62 then '-' else '_'
  }

  function Value(c: char): (v: int)
    requires IsSymbol(c)
    ensures 0 <= v < 64
  {
    if 'A' <= c <= 'Z' then c as int - 'A' as int
    else if 'a' <= c <= 'z' then c as int - 'a' as int + 26
    else if '0' <= c <= '9' then c as int - '0' as int + 52
    else if c == '-' then 62 else 63
  }

  /** Four symbols for three bytes, and back. */
  function Group(x: Byte, y: Byte, z: Byte): string {
    [Symbol(x / 4), Symbol(x % 4 * 16 + y / 16), Symbol(y % 16 * 4 + z / 64), Symbol(z % 64)]
  }

  function First(a: char, b: char): Byte
    requires IsSymbol(a) && IsSymbol(b)
  {
    Value(a) * 4 + Value(b) / 16
  }

  function Second(b: char, c: char): Byte
    requires IsSymbol(b) && IsSymbol(c)
  {
    Value(b) % 16 * 16 + Value(c) / 4
  }

  function Third(c: char, d: char): Byte
    requires IsSymbol(c) && IsSymbol(d)
  {
    Value(c) % 4 * 64 + Value(d)
  }

  /** The encoding with its padding stripped. */
  function Encode(b: seq<Byte>): string {
    if |b| == 0 then ""
    else if |b| == 1 then Group(b[0], 0, 0)[..2]
    else if |b| == 2 then Group(b[0], b[1], 0)[..3]
    else Group(b[0], b[1], b[2]) + Encode(b[3..])
  }

  predicate AllSymbols(s: string) {
    forall i | 0 <= i < |s| :: IsSymbol(s[i])
  }

  /** Pads to a multiple of four and decodes; a single leftover symbol is an error, and spare
      bits of the last symbol are ignored. */
  function Decode(s: string): Option<seq<Byte>>
    requires AllSymbols(s)
  {
    if |s| == 0 then Some([])
    else if |s| == 1 then None
    else if |s| == 2 then Some([First(s[0], s[1])])
    else if |s| == 3 then Some([First(s[0], s[1]), Second(s[1], s[2])])
    else match Decode(s[4..])
      case None => None
      case Some(rest) => Some([First(s[0], s[1]), Second(s[1], s[2]), Third(s[2], s[3])] + rest)
  }

  lemma {:induction false} EncodesToSymbols(b: seq<Byte>)
    ensures AllSymbols(Encode(b))
  {
    if |b| > 2 {
      EncodesToSymbols(b[3..]);
    }
  }

  lemma SymbolValue(v: int)
    requires 0 <= v < 64
    ensures Value(Symbol(v)) == v
  {
  }

  lemma GroupValues(x: Byte, y: Byte, z: Byte)
    ensures AllSymbols(Group(x, y, z))
    ensures var g := Group(x, y, z); First(g[0], g[1]) == x && Second(g[1], g[2]) == y && Third(g[2], g[3]) == z
  {
    SymbolValue(x / 4);
    SymbolValue(x % 4 * 16 + y / 16);
    SymbolValue(y % 16 * 4 + z / 64);
    SymbolValue(z % 64);
  }

  /** Decoding what was encoded gives the bytes back. */
  lemma {:induction false} DecodeEncoded(b: seq<Byte>)
    ensures AllSymbols(Encode(b)) && Decode(Encode(b)) == Some(b)
  {
    EncodesToSymbols(b);
    hide First, Second, Third, Symbol, IsSymbol;
    if |b| == 1 {
      GroupValues(b[0], 0, 0);
      assert |Encode(b)| == 2 && b == [b[0]];
    } else if |b| == 2 {
      GroupValues(b[0], b[1], 0);
      assert |Encode(b)| == 3 && b == [b[0], b[1]];
    } else if |b| > 2 {
      GroupValues(b[0], b[1], b[2]);
      DecodeEncoded(b[3..]);
      assert Encode(b)[4..] == Encode(b[3..]);
      assert b == [b[0], b[1], b[2]] + b[3..];
    }
  }

  /** The alphabet of section 5 of RFC 4648. */
  lemma AlphabetSpelled(v: int)
    requires 0 <= v < 64
    ensures Symbol(v) == ("ABCDEFGHIJKLMNOPQRSTUVWXYZ" + "abcdefghijklmnopqrstuvwxyz" + "0123456789-_")[v]
  {
    var upper, lower, others := "ABCDEFGHIJKLMNOPQRSTUVWXYZ", "abcdefghijklmnopqrstuvwxyz", "0123456789-_";
    assert forall i | 0 <= i < 26 :: upper[i] as int == 65 + i && lower[i] as int == 97 + i;
    assert forall i | 0 <= i < 10 :: others[i] as int == 48 + i;
  }

  /** A group is one number of four digits to the base of 64. */
  lemma GroupIsNumber(x: Byte, y: Byte, z: Byte)
    ensures AllSymbols(Group(x, y, z))
    ensures var g := Group(x, y, z); Value(g[0]) * 262144 + Value(g[1]) * 4096 + Value(g[2]) * 64 + Value(g[3]) == x * 65536 + y * 256 + z
  {
    var a, b, c, d := x / 4, x % 4 * 16 + y / 16, y % 16 * 4 + z / 64, z % 64;
    assert a * 262144 + b * 4096 + c * 64 + d == x * 65536 + y * 256 + z;
    SymbolValue(a);
    SymbolValue(b);
    SymbolValue(c);
    SymbolValue(d);
    hide Symbol, Value;
  }
}
