/** String operations the programs share. */
module Text {

  /** Whitespace as `str.strip` and a regular expression's `\s` see it. */
  predicate IsWhite(c: char) {
    var n := c as int;
    || 9 <= n <= 13 || 28 <= n <= 32 || n == 0x85 || n == 0xA0 || n == 0x1680 || 0x2000 <= n <= 0x200A
    || n == 0x2028 || n == 0x2029 || n == 0x202F || n == 0x205F || n == 0x3000
  }

  /** The characters of Unicode's class of spaces, and the separators among the controls. */
  lemma WhiteSpelled(c: char)
    ensures IsWhite(c) <==>
            c as int in {0x9, 0xA, 0xB, 0xC, 0xD, 0x1C, 0x1D, 0x1E, 0x1F, 0x20, 0x85, 0xA0, 0x1680, 0x2000, 0x2001, 0x2002, 0x2003,
                         0x2004, 0x2005, 0x2006, 0x2007, 0x2008, 0x2009, 0x200A, 0x2028, 0x2029, 0x202F, 0x205F, 0x3000}
  {
  }

  predicate AllWhite(s: string) {
    forall i | 0 <= i < |s| :: IsWhite(s[i])
  }

  /** Python's `s[:n]`. */
  function Slice<T>(s: seq<T>, n: nat): seq<T> {
    if n <= |s| then s[..n] else s
  }

  /** The character classes that get stripped or replaced. */
  datatype CharClass = Whitespace | UnsafeChar | DotOrDash

  predicate SafeChar(c: char) {
    'a' <= c <= 'z' || 'A' <= c <= 'Z' || '0' <= c <= '9' || c == '_' || c == '.' || c == '-'
  }

  /** Letters, digits, underscores, dots and dashes. */
  lemma SafeCharSpelled(c: char)
    ensures SafeChar(c) <==> c in "ABCDEFGHIJKLMNOPQRSTUVWXYZ" + "abcdefghijklmnopqrstuvwxyz" + "0123456789_.-"
  {
    var upper, lower, digits := "ABCDEFGHIJKLMNOPQRSTUVWXYZ", "abcdefghijklmnopqrstuvwxyz", "0123456789";
    assert forall i | 0 <= i < 26 :: upper[i] as int == 65 + i && lower[i] as int == 97 + i;
    assert forall i | 0 <= i < 10 :: digits[i] as int == 48 + i;
    if 'A' <= c <= 'Z' {
      assert upper[c as int - 65] == c;
    } else if 'a' <= c <= 'z' {
      assert lower[c as int - 97] == c;
    } else if '0' <= c <= '9' {
      assert digits[c as int - 48] == c;
    }
    assert "0123456789_.-" == digits + "_.-";
  }

  predicate Is(c: char, k: CharClass) {
    match k
    case Whitespace => IsWhite(c)
    case UnsafeChar => !SafeChar(c)
    case DotOrDash => c == '.' || c == '-'
  }

  function LStrip(s: string, drop: CharClass): (r: string)
    ensures |r| <= |s| && r == s[|s| - |r|..] && (r != "" ==> !Is(r[0], drop))
    ensures forall i | 0 <= i < |s| - |r| :: Is(s[i], drop)
  {
    if s != "" && Is(s[0], drop) then LStrip(s[1..], drop) else s
  }

  function RStrip(s: string, drop: CharClass): (r: string)
    ensures |r| <= |s| && r == s[..|r|] && (r != "" ==> !Is(r[|r| - 1], drop))
    ensures forall i | |r| <= i < |s| :: Is(s[i], drop)
  {
    if s != "" && Is(s[|s| - 1], drop) then RStrip(s[..|s| - 1], drop) else s
  }

  function Strip(s: string, drop: CharClass): string {
    RStrip(LStrip(s, drop), drop)
  }

  /** Stripping takes characters of the class from both ends, and all of them. */
  lemma StripIs(s: string, drop: CharClass)
    ensures var r := Strip(s, drop);
            (r != "" ==> !Is(r[0], drop) && !Is(r[|r| - 1], drop)) && exists i :: StrippedAt(s, drop, r, i)
  {
    hide Is, LStrip, RStrip;
    var t := LStrip(s, drop);
    var r := RStrip(t, drop);
    var i := |s| - |t|;
    assert r == s[i..i + |r|];
    forall j | i + |r| <= j < |s|
      ensures Is(s[j], drop)
    {
      assert s[j] == t[j - i];
    }
    assert StrippedAt(s, drop, r, i);
  }

  /** What is left stands at `i`, with nothing but characters of the class around it. */
  ghost predicate StrippedAt(s: string, drop: CharClass, r: string, i: int) {
    && 0 <= i <= |s| - |r| && r == s[i..i + |r|]
    && (forall j | 0 <= j < i :: Is(s[j], drop)) && forall j | i + |r| <= j < |s| :: Is(s[j], drop)
  }
}
