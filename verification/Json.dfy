/** JSON text (RFC 8259) as Python's `json` module prints it with compact separators and ASCII
    escapes, and as it parses it. */
module Json {
  import opened Wrappers

  datatype Field = Field(key: string, value: Json)

  /** `Real` stands for every number with a fraction, an exponent or no finite value. */
  datatype Json = Null | Bool(b: bool) | Int(n: int) | Real | Str(s: string) | Arr(items: seq<Json>) | Obj(fields: seq<Field>)

  // ---------------------------------------------------------------- printing

  function Digit(v: int): char
    requires 0 <= v < 10
  {
    '0' + v as char
  }

  function Digits(n: nat): (r: string)
    ensures r != ""
  {
    if n < 10 then [Digit(n)] else Digits(n / 10) + [Digit(n % 10)]
  }

  function PrintInt(n: int): string {
    if n < 0 then "-" + Digits(-n) else Digits(n)
  }

  function HexDigit(v: int): char
    requires 0 <= v < 16
  {
    if v < 10 then '0' + v as char else 'a' + (v - 10) as char
  }

  function Hex4(n: int): (r: string)
    requires 0 <= n < 0x1_0000
    ensures |r| == 4
  {
    [HexDigit(n / 4096), HexDigit(n / 256 % 16), HexDigit(n / 16 % 16), HexDigit(n % 16)]
  }

  /** One character of a string literal; beyond the basic plane as a surrogate pair. */
  function Escape(c: char): (r: string)
    ensures r != ""
  {
    var n := c as int;
    if c == '"' then "\\\""
    else if c == '\\' then "\\\\"
    else if ' ' <= c <= '~' then [c]
    else if n == 10 then "\\n"
    else if n == 13 then "\\r"
    else if n == 9 then "\\t"
    else if n == 8 then "\\b"
    else if n == 12 then "\\f"
    else if n < 0x1_0000 then "\\u" + Hex4(n)
    else "\\u" + Hex4(0xD800 + (n - 0x1_0000) / 0x400) + "\\u" + Hex4(0xDC00 + (n - 0x1_0000) % 0x400)
  }

  function EscapeAll(s: string): string {
    if s == "" then "" else Escape(s[0]) + EscapeAll(s[1..])
  }

  function PrintString(s: string): string {
    "\"" + EscapeAll(s) + "\""
  }

  function Print(v: Json): string
    decreases v
  {
    match v
    case Null => "null"
    case Bool(b) => if b then "true" else "false"
    case Int(n) => PrintInt(n)
    case Real => "NaN"
    case Str(s) => PrintString(s)
    case Arr(items) => "[" + PrintItems(items) + "]"
    case Obj(fields) => "{" + PrintFields(fields) + "}"
  }

  function PrintItems(items: seq<Json>): string
    decreases items
  {
    if items == [] then ""
    else Print(items[0]) + if |items| == 1 then "" else "," + PrintItems(items[1..])
  }

  function PrintFields(fields: seq<Field>): string
    decreases fields
  {
    if fields == [] then ""
    else PrintString(fields[0].key) + ":" + Print(fields[0].value)
         + if |fields| == 1 then "" else "," + PrintFields(fields[1..])
  }

  // ---------------------------------------------------------------- parsing

  predicate IsSpace(c: char) {
    c == ' ' || c == '\t' || c == '\n' || c == '\r'
  }

  function SkipSpace(s: string): (r: string)
    ensures |r| <= |s|
  {
    if s != "" && IsSpace(s[0]) then SkipSpace(s[1..]) else s
  }

  predicate IsDigit(c: char) {
    '0' <= c <= '9'
  }

  function DigitCount(s: string): (k: nat)
    ensures k <= |s|
  {
    if s != "" && IsDigit(s[0]) then 1 + DigitCount(s[1..]) else 0
  }

  function Number(s: string): nat
    requires forall i | 0 <= i < |s| :: IsDigit(s[i])
  {
    if s == "" then 0 else
      var c := s[|s| - 1];
      assert IsDigit(c);
      Number(s[..|s| - 1]) * 10 + (c as int - '0' as int)
  }

  lemma {:induction false} CountedAreDigits(s: string)
    ensures forall i | 0 <= i < DigitCount(s) :: IsDigit(s[i])
  {
    if s != "" && IsDigit(s[0]) {
      CountedAreDigits(s[1..]);
    }
  }

  function FractionLength(s: string): (k: nat)
    ensures k <= |s|
  {
    if |s| >= 2 && s[0] == '.' && IsDigit(s[1]) then 1 + DigitCount(s[1..]) else 0
  }

  function ExponentLength(s: string): (k: nat)
    ensures k <= |s|
  {
    if s == "" || (s[0] != 'e' && s[0] != 'E') then 0 else
      var j := if |s| > 1 && (s[1] == '+' || s[1] == '-') then 2 else 1;
      if j < |s| && IsDigit(s[j]) then j + DigitCount(s[j..]) else 0
  }

  function Signed(negative: bool, n: nat): int {
    if negative then 0 - n else n
  }

  /** Reads the part of a number after its sign. */
  function ParseUnsigned(t: string, negative: bool): (r: Option<(Json, string)>)
    ensures r.Some? ==> |r.value.1| < |t|
  {
    if t == "" || !IsDigit(t[0]) then None
    else
      var k := if t[0] == '0' then 1 else DigitCount(t);
      CountedAreDigits(t);
      var f := FractionLength(t[k..]);
      var e := ExponentLength(t[k + f..]);
      Some((if f + e > 0 then Real else Int(Signed(negative, Number(t[..k]))), t[k + f + e..]))
  }

  function ParseNumber(s: string): (r: Option<(Json, string)>)
    ensures r.Some? ==> |r.value.1| < |s|
  {
    var negative := s != "" && s[0] == '-';
    var t := if negative then s[1..] else s;
    if "Infinity" <= t then Some((Real, t[8..])) else ParseUnsigned(t, negative)
  }

  function HexValue(c: char): Option<int> {
    if IsDigit(c) then Some(c as int - '0' as int)
    else if 'a' <= c <= 'f' then Some(c as int - 'a' as int + 10)
    else if 'A' <= c <= 'F' then Some(c as int - 'A' as int + 10)
    else None
  }

  function ParseHex4(s: string): (r: Option<int>)
    ensures r.Some? ==> |s| >= 4
  {
    if |s| < 4 then None else
      var a, b, c, d := HexValue(s[0]), HexValue(s[1]), HexValue(s[2]), HexValue(s[3]);
      if a.None? || b.None? || c.None? || d.None? then None
      else Some(a.value * 4096 + b.value * 256 + c.value * 16 + d.value)
  }

  /** Reads one character of a string literal; escapes of lone surrogates are not characters. */
  function ParseChar(s: string): (r: Option<(char, string)>)
    requires s != ""
    ensures r.Some? ==> |r.value.1| < |s|
  {
    if s[0] != '\\' then (if s[0] < ' ' then None else Some((s[0], s[1..])))
    else if |s| < 2 then None
    else if s[1] == '"' || s[1] == '\\' || s[1] == '/' then Some((s[1], s[2..]))
    else if s[1] == 'n' then Some(('\n', s[2..]))
    else if s[1] == 'r' then Some(('\r', s[2..]))
    else if s[1] == 't' then Some(('\t', s[2..]))
    else if s[1] == 'b' then Some((8 as char, s[2..]))
    else if s[1] == 'f' then Some((12 as char, s[2..]))
    else if s[1] != 'u' then None
    else match ParseHex4(s[2..])
      case None => None
      case Some(n) =>
        if 0 <= n < 0xD800 || 0xE000 <= n < 0x1_0000 then Some((n as char, s[6..]))
        else if !(0xD800 <= n < 0xDC00) || |s| < 12 || s[6] != '\\' || s[7] != 'u' then None
        else match ParseHex4(s[8..])
          case None => None
          case Some(m) =>
            if 0xDC00 <= m < 0xE000 then Some(((0x1_0000 + (n - 0xD800) * 0x400 + (m - 0xDC00)) as char, s[12..])) else None
  }

  /** Reads a string literal whose opening quote has been consumed. */
  function ParseString(s: string): (r: Option<(string, string)>)
    ensures r.Some? ==> |r.value.1| < |s|
    decreases |s|
  {
    if s == "" then None
    else if s[0] == '"' then Some(("", s[1..]))
    else match ParseChar(s)
      case None => None
      case Some((c, t)) =>
        match ParseString(t)
        case None => None
        case Some((rest, u)) => Some(([c] + rest, u))
  }

  function ParseValue(s: string): (r: Option<(Json, string)>)
    ensures r.Some? ==> |r.value.1| < |s|
    decreases |s|, 0
  {
    if s == "" then None
    else if s[0] == '"' then
      match ParseString(s[1..])
      case None => None
      case Some((t, u)) => Some((Str(t), u))
    else if s[0] == '[' then
      var t := SkipSpace(s[1..]);
      if t != "" && t[0] == ']' then Some((Arr([]), t[1..]))
      else (match ParseItems(t)
            case None => None
            case Some((items, u)) => Some((Arr(items), u)))
    else if s[0] == '{' then
      var t := SkipSpace(s[1..]);
      if t != "" && t[0] == '}' then Some((Obj([]), t[1..]))
      else (match ParseFields(t)
            case None => None
            case Some((fields, u)) => Some((Obj(fields), u)))
    else if "null" <= s then Some((Null, s[4..]))
    else if "true" <= s then Some((Bool(true), s[4..]))
    else if "false" <= s then Some((Bool(false), s[5..]))
    else if "NaN" <= s then Some((Real, s[3..]))
    else ParseNumber(s)
  }

  /** Reads items up to and including the closing bracket. */
  function ParseItems(s: string): (r: Option<(seq<Json>, string)>)
    ensures r.Some? ==> |r.value.1| < |s|
    decreases |s|, 1
  {
    match ParseValue(s)
    case None => None
    case Some((v, t)) =>
      var u := SkipSpace(t);
      if u != "" && u[0] == ']' then Some(([v], u[1..]))
      else if u == "" || u[0] != ',' then None
      else match ParseItems(SkipSpace(u[1..]))
        case None => None
        case Some((items, w)) => Some(([v] + items, w))
  }

  /** Reads members up to and including the closing brace. */
  function ParseFields(s: string): (r: Option<(seq<Field>, string)>)
    ensures r.Some? ==> |r.value.1| < |s|
    decreases |s|, 1
  {
    if s == "" || s[0] != '"' then None else
      match ParseString(s[1..])
      case None => None
      case Some((key, t)) =>
        var u := SkipSpace(t);
        if u == "" || u[0] != ':' then None else
          match ParseValue(SkipSpace(u[1..]))
          case None => None
          case Some((v, w)) =>
            var x := SkipSpace(w);
            if x != "" && x[0] == '}' then Some(([Field(key, v)], x[1..]))
            else if x == "" || x[0] != ',' then None
            else match ParseFields(SkipSpace(x[1..]))
              case None => None
              case Some((fields, y)) => Some(([Field(key, v)] + fields, y))
  }

  /** A whole text: one value with optional space around it. */
  function Parse(s: string): Option<Json> {
    match ParseValue(SkipSpace(s))
    case None => None
    case Some((v, t)) => if SkipSpace(t) == "" then Some(v) else None
  }

  // ---------------------------------------------------------------- round trip

  /** Text that cannot continue a number. */
  predicate Delimited(s: string) {
    s == "" || !(IsDigit(s[0]) || s[0] == '.' || s[0] == 'e' || s[0] == 'E')
  }

  predicate Printable(v: Json) {
    match v
    case Real => false
    case Arr(items) => forall i | 0 <= i < |items| :: Printable(items[i])
    case Obj(fields) => forall i | 0 <= i < |fields| :: Printable(fields[i].value)
    case _ => true
  }

  lemma {:induction false} DigitsAreDigits(n: nat)
    ensures forall i | 0 <= i < |Digits(n)| :: IsDigit(Digits(n)[i])
    ensures n > 0 ==> Digits(n)[0] != '0'
    ensures Number(Digits(n)) == n
  {
    if n >= 10 {
      DigitsAreDigits(n / 10);
      assert Digits(n)[..|Digits(n)| - 1] == Digits(n / 10);
    } else {
      assert Digits(n)[..0] == "";
    }
  }

  lemma {:induction false} CountOfDigits(d: string, rest: string)
    requires (forall i | 0 <= i < |d| :: IsDigit(d[i])) && (rest == "" || !IsDigit(rest[0]))
    ensures DigitCount(d + rest) == |d|
  {
    if d == "" {
      assert d + rest == rest;
    } else {
      CountOfDigits(d[1..], rest);
      assert (d + rest)[1..] == d[1..] + rest;
    }
  }

  lemma UnsignedRoundTrip(n: nat, negative: bool, rest: string)
    requires Delimited(rest)
    ensures ParseUnsigned(Digits(n) + rest, negative) == Some((Int(Signed(negative, n)), rest))
  {
    DigitsAreDigits(n);
    var d := Digits(n);
    var t := d + rest;
    CountOfDigits(d, rest);
    assert t[0] == d[0] && IsDigit(d[0]);
    assert d[0] == '0' ==> n == 0 && |d| == 1;
    assert t[..|d|] == d && t[|d|..] == rest;
    assert rest[0..] == rest;
  }

  lemma NumberDispatch(s: string)
    requires s != "" && (s[0] == '-' || IsDigit(s[0]))
    ensures ParseValue(s) == ParseNumber(s)
  {
    hide ParseNumber, ParseString, ParseItems, ParseFields;
  }

  lemma NumberRoundTrip(n: int, rest: string)
    requires Delimited(rest)
    ensures ParseNumber(PrintInt(n) + rest) == Some((Int(n), rest))
    ensures PrintInt(n)[0] == '-' || IsDigit(PrintInt(n)[0])
  {
    hide ParseUnsigned, Digits, Number, Delimited;
    var m: nat := if n < 0 then -n else n;
    DigitsAreDigits(m);
    UnsignedRoundTrip(m, n < 0, rest);
    var s := PrintInt(n) + rest;
    assert IsDigit(Digits(m)[0]);
    if n < 0 {
      assert s[1..] == Digits(m) + rest;
      assert s[1] == Digits(m)[0];
    } else {
      assert s == Digits(m) + rest && s[0] == Digits(m)[0];
    }
  }

  lemma IntRoundTrip(n: int, rest: string)
    requires Delimited(rest)
    ensures ParseValue(PrintInt(n) + rest) == Some((Int(n), rest))
  {
    hide ParseValue, ParseNumber, PrintInt;
    NumberRoundTrip(n, rest);
    var s := PrintInt(n) + rest;
    assert s[0] == PrintInt(n)[0];
    NumberDispatch(s);
  }

  lemma HexRoundTrip(n: int, rest: string)
    requires 0 <= n < 0x1_0000
    ensures ParseHex4(Hex4(n) + rest) == Some(n)
  {
    HexParts(n);
    var a, b, c, d := n / 4096, n / 256 % 16, n / 16 % 16, n % 16;
    HexDigitRoundTrip(a);
    HexDigitRoundTrip(b);
    HexDigitRoundTrip(c);
    HexDigitRoundTrip(d);
    hide HexValue, HexDigit;
    var s := Hex4(n) + rest;
    assert s[0] == HexDigit(a) && s[1] == HexDigit(b) && s[2] == HexDigit(c) && s[3] == HexDigit(d);
  }

  lemma HexDigitRoundTrip(v: int)
    requires 0 <= v < 16
    ensures HexValue(HexDigit(v)) == Some(v)
  {
  }

  lemma HexParts(n: int)
    requires 0 <= n < 0x1_0000
    ensures 0 <= n / 4096 < 16 && n == n / 4096 * 4096 + n / 256 % 16 * 256 + n / 16 % 16 * 16 + n % 16
  {
    var a := n / 16;
    var b := a / 16;
    assert n == a * 16 + n % 16 && a == b * 16 + a % 16 && b == b / 16 * 16 + b % 16;
    assert b == n / 256 && b / 16 == n / 4096;
  }

  lemma PairRoundTrip(hi: int, lo: int, rest: string)
    requires 0xD800 <= hi < 0xDC00 <= lo < 0xE000
    ensures ParseChar("\\u" + Hex4(hi) + "\\u" + Hex4(lo) + rest) ==
            Some(((0x1_0000 + (hi - 0xD800) * 0x400 + (lo - 0xDC00)) as char, rest))
  {
    var s := "\\u" + Hex4(hi) + "\\u" + Hex4(lo) + rest;
    HexRoundTrip(hi, "\\u" + Hex4(lo) + rest);
    HexRoundTrip(lo, rest);
    assert s[2..] == Hex4(hi) + ("\\u" + Hex4(lo) + rest);
    assert s[8..] == Hex4(lo) + rest && s[12..] == rest;
    hide ParseHex4, Hex4;
  }

  lemma BasicRoundTrip(n: int, rest: string)
    requires 0 <= n < 0xD800 || 0xE000 <= n < 0x1_0000
    ensures ParseChar("\\u" + Hex4(n) + rest) == Some((n as char, rest))
  {
    var s := "\\u" + Hex4(n) + rest;
    HexRoundTrip(n, rest);
    assert s[2..] == Hex4(n) + rest && s[6..] == rest;
    hide ParseHex4, Hex4;
  }

  lemma CharRoundTrip(c: char, rest: string)
    ensures ParseChar(Escape(c) + rest) == Some((c, rest)) && Escape(c)[0] != '"'
  {
    var n, s := c as int, Escape(c) + rest;
    hide ParseHex4, Hex4;
    if n >= 0x1_0000 {
      PairRoundTrip(0xD800 + (n - 0x1_0000) / 0x400, 0xDC00 + (n - 0x1_0000) % 0x400, rest);
    } else if |Escape(c)| == 6 {
      BasicRoundTrip(n, rest);
    } else if |Escape(c)| == 1 {
      assert s[1..] == rest;
    } else {
      assert s[2..] == rest;
    }
  }

  lemma {:induction false} StringRoundTrip(x: string, rest: string)
    ensures ParseString(EscapeAll(x) + "\"" + rest) == Some((x, rest))
  {
    var s := EscapeAll(x) + "\"" + rest;
    hide ParseChar, Escape, IsSpace;
    if x == "" {
      assert s[1..] == rest;
    } else {
      var t := EscapeAll(x[1..]) + "\"" + rest;
      assert s == Escape(x[0]) + t;
      CharRoundTrip(x[0], t);
      StringRoundTrip(x[1..], rest);
      assert x == [x[0]] + x[1..];
    }
  }

  /** The first character of a printed value: never a space, a closing bracket or a comma. */
  lemma PrintedFront(v: Json)
    ensures Print(v) != "" && !IsSpace(Print(v)[0]) && Print(v)[0] != ']' && Print(v)[0] != '}'
  {
    if v.Int? {
      DigitsAreDigits(if v.n < 0 then -v.n else v.n);
    }
  }

  lemma NotSpace(s: string)
    requires s == "" || !IsSpace(s[0])
    ensures SkipSpace(s) == s
  {
  }

  lemma StringValueRoundTrip(x: string, rest: string)
    ensures ParseValue(PrintString(x) + rest) == Some((Str(x), rest))
  {
    hide ParseString, EscapeAll;
    StringRoundTrip(x, rest);
    var s := PrintString(x) + rest;
    assert s[1..] == EscapeAll(x) + "\"" + rest;
  }

  lemma ArrayDispatch(items: seq<Json>, body: string, rest: string)
    requires if body == "" then items == [] else
               !IsSpace(body[0]) && body[0] != ']' && ParseItems(body + "]" + rest) == Some((items, rest))
    ensures ParseValue("[" + body + "]" + rest) == Some((Arr(items), rest))
  {
    var s := "[" + body + "]" + rest;
    hide ParseItems;
    assert s[1..] == body + "]" + rest;
    NotSpace(s[1..]);
    if body == "" {
      assert s[1..][1..] == rest;
    } else {
      assert s[1..][0] == body[0];
    }
  }

  lemma ObjectDispatch(fields: seq<Field>, body: string, rest: string)
    requires if body == "" then fields == [] else
               !IsSpace(body[0]) && body[0] != '}' && ParseFields(body + "}" + rest) == Some((fields, rest))
    ensures ParseValue("{" + body + "}" + rest) == Some((Obj(fields), rest))
  {
    var s := "{" + body + "}" + rest;
    hide ParseFields;
    assert s[1..] == body + "}" + rest;
    NotSpace(s[1..]);
    if body == "" {
      assert s[1..][1..] == rest;
    } else {
      assert s[1..][0] == body[0];
    }
  }

  /** Parsing what was printed gives the value back and leaves the rest of the text. */
  lemma {:induction false} ValueRoundTrip(v: Json, rest: string)
    requires Printable(v) && Delimited(rest)
    ensures ParseValue(Print(v) + rest) == Some((v, rest))
    decreases v
  {
    match v
    case Null => assert ("null" + rest)[4..] == rest;
    case Bool(b) => assert (if b then ("true" + rest)[4..] else ("false" + rest)[5..]) == rest;
    case Int(n) => IntRoundTrip(n, rest);
    case Str(x) => StringValueRoundTrip(x, rest);
    case Arr(items) =>
      if items != [] {
        PrintedFront(items[0]);
        ItemsRoundTrip(items, rest);
      }
      hide ParseValue, ParseItems;
      ArrayDispatch(items, PrintItems(items), rest);
    case Obj(fields) =>
      if fields != [] {
        FieldsRoundTrip(fields, rest);
      }
      hide ParseValue, ParseFields;
      ObjectDispatch(fields, PrintFields(fields), rest);
  }

  lemma {:induction false} ItemsRoundTrip(items: seq<Json>, rest: string)
    requires items != [] && forall i | 0 <= i < |items| :: Printable(items[i])
    ensures ParseItems(PrintItems(items) + "]" + rest) == Some((items, rest))
    decreases items
  {
    hide ParseItems, ParseValue, PrintItems, Print, SkipSpace, IsSpace, Printable;
    var more := items[1..];
    ItemsText(items, rest);
    if more == [] {
      ValueRoundTrip(items[0], "]" + rest);
      LastItem(items, rest);
    } else {
      var tail := PrintItems(more) + "]" + rest;
      ValueRoundTrip(items[0], "," + tail);
      ItemsFront(more, rest);
      NotSpace(tail);
      ItemsRoundTrip(more, rest);
      OneItemMore(items, tail, rest);
    }
  }

  lemma ItemsText(items: seq<Json>, rest: string)
    requires items != []
    ensures PrintItems(items) + "]" + rest ==
            Print(items[0]) + if |items| == 1 then "]" + rest else "," + (PrintItems(items[1..]) + "]" + rest)
  {
    hide *;
    var a := Print(items[0]);
    ItemsAre(items);
    if |items| == 1 {
      Bracket(a, "", rest);
      assert "" + "]" + rest == "]" + rest;
    } else {
      var b := PrintItems(items[1..]);
      Bracket(a, "," + b, rest);
      Bracket(",", b, rest);
    }
  }

  lemma ItemsAre(items: seq<Json>)
    requires items != []
    ensures PrintItems(items) == Print(items[0]) + if |items| == 1 then "" else "," + PrintItems(items[1..])
  {
    hide Print;
  }

  lemma Bracket(a: string, b: string, rest: string)
    ensures a + b + "]" + rest == a + (b + "]" + rest)
  {
  }

  lemma ItemsFront(items: seq<Json>, rest: string)
    requires items != []
    ensures var tail := PrintItems(items) + "]" + rest; tail != "" && !IsSpace(tail[0])
  {
    PrintedFront(items[0]);
    ItemsText(items, rest);
    hide Print, PrintItems, IsSpace;
  }

  lemma LastItem(items: seq<Json>, rest: string)
    requires |items| == 1 && ParseValue(Print(items[0]) + ("]" + rest)) == Some((items[0], "]" + rest))
    ensures ParseItems(Print(items[0]) + ("]" + rest)) == Some((items, rest))
  {
    hide ParseValue, Print;
    NotSpace("]" + rest);
    assert ("]" + rest)[1..] == rest && items == [items[0]];
  }

  lemma OneItemMore(items: seq<Json>, tail: string, rest: string)
    requires |items| > 1 && ParseValue(Print(items[0]) + ("," + tail)) == Some((items[0], "," + tail))
    requires SkipSpace(tail) == tail && ParseItems(tail) == Some((items[1..], rest))
    ensures ParseItems(Print(items[0]) + ("," + tail)) == Some((items, rest))
  {
    hide ParseValue, Print;
    NotSpace("," + tail);
    assert ("," + tail)[1..] == tail && items == [items[0]] + items[1..];
  }

  lemma {:induction false} FieldsRoundTrip(fields: seq<Field>, rest: string)
    requires fields != [] && forall i | 0 <= i < |fields| :: Printable(fields[i].value)
    ensures ParseFields(PrintFields(fields) + "}" + rest) == Some((fields, rest))
    ensures PrintFields(fields) != "" && PrintFields(fields)[0] == '"'
    decreases fields
  {
    hide ParseFields, ParseString, ParseValue, SkipSpace, Print, EscapeAll, PrintFields, PrintString;
    var key, value := fields[0].key, fields[0].value;
    var tail := FieldTail(fields, rest);
    FieldsText(fields, rest);
    StringRoundTrip(key, ":" + (Print(value) + tail));
    PrintedFront(value);
    ValueRoundTrip(value, tail);
    if |fields| > 1 {
      FieldsRoundTrip(fields[1..], rest);
      NotSpace(tail[1..]);
    }
    FieldStep(fields, key, value, tail, rest);
  }

  /** The printed text behind the first member's value. */
  function FieldTail(fields: seq<Field>, rest: string): string {
    (if |fields| <= 1 then "" else "," + PrintFields(fields[1..])) + "}" + rest
  }

  lemma FieldsText(fields: seq<Field>, rest: string)
    requires fields != []
    ensures PrintFields(fields) != "" && PrintFields(fields)[0] == '"'
    ensures PrintFields(fields) + "}" + rest ==
            PrintString(fields[0].key) + ":" + (Print(fields[0].value) + FieldTail(fields, rest))
    ensures FieldTail(fields, rest)[1..] == if |fields| == 1 then rest else PrintFields(fields[1..]) + "}" + rest
  {
    hide Print, PrintString;
    var more := if |fields| == 1 then "" else "," + PrintFields(fields[1..]);
    var key, value := PrintString(fields[0].key), Print(fields[0].value);
    Regroup(key, value, more, rest);
    StringFront(fields[0].key);
    assert PrintFields(fields) == key + ":" + value + more;
    AfterFront(if |fields| == 1 then "" else PrintFields(fields[1..]), rest);
  }

  lemma StringFront(x: string)
    ensures PrintString(x) != "" && PrintString(x)[0] == '"'
  {
  }

  lemma Regroup(a: string, b: string, c: string, rest: string)
    ensures a + ":" + b + c + "}" + rest == a + ":" + (b + (c + "}" + rest))
  {
  }

  lemma AfterFront(a: string, rest: string)
    ensures ("," + a + "}" + rest)[1..] == a + "}" + rest
    ensures ("" + "}" + rest)[1..] == rest
  {
  }

  lemma FieldStep(fields: seq<Field>, key: string, value: Json, tail: string, rest: string)
    requires fields != [] && fields[0] == Field(key, value) && tail != "" && !IsSpace(tail[0])
    requires ParseString(EscapeAll(key) + "\"" + (":" + (Print(value) + tail))) == Some((key, ":" + (Print(value) + tail)))
    requires Print(value) != "" && !IsSpace(Print(value)[0]) && ParseValue(Print(value) + tail) == Some((value, tail))
    requires if |fields| == 1 then tail[0] == '}' && tail[1..] == rest
             else tail[0] == ',' && SkipSpace(tail[1..]) == tail[1..] && ParseFields(tail[1..]) == Some((fields[1..], rest))
    ensures ParseFields(PrintString(key) + ":" + (Print(value) + tail)) == Some((fields, rest))
  {
    var s := PrintString(key) + ":" + (Print(value) + tail);
    hide ParseValue, ParseString, Print, EscapeAll;
    var t := ":" + (Print(value) + tail);
    assert s[1..] == EscapeAll(key) + "\"" + t;
    NotSpace(t);
    assert t[1..] == Print(value) + tail;
    NotSpace(t[1..]);
    NotSpace(tail);
    assert ParseString(s[1..]) == Some((key, t)) && SkipSpace(t) == t && t[0] == ':';
    assert ParseValue(SkipSpace(t[1..])) == Some((value, tail)) && SkipSpace(tail) == tail;
    if |fields| == 1 {
      assert fields == [Field(key, value)];
    } else {
      assert fields == [Field(key, value)] + fields[1..];
    }
  }

  /** `json.loads(json.dumps(v))` is `v`. */
  lemma RoundTrip(v: Json)
    requires Printable(v)
    ensures Parse(Print(v)) == Some(v)
  {
    PrintedFront(v);
    ValueRoundTrip(v, "");
    assert Print(v) + "" == Print(v);
  }

  // ---------------------------------------------------------------- spellings

  /** Printable text without quotes and backslashes stands for itself. */
  lemma {:induction false} PlainText(s: string)
    requires forall i | 0 <= i < |s| :: ' ' <= s[i] <= '~' && s[i] != '"' && s[i] != '\\'
    ensures EscapeAll(s) == s
  {
    if s != "" {
      PlainText(s[1..]);
    }
  }

  lemma HexSpelled()
    ensures Hex4(0x20AC) == "20ac" && Hex4(0xD83D) == "d83d" && Hex4(0xDE00) == "de00"
  {
  }

  /** The short escapes, and the long ones within and beyond the basic plane. */
  lemma EscapeSpelled()
    ensures Escape('"') == ['\\', '"'] && Escape('\\') == ['\\', '\\']
    ensures Escape('\n') == ['\\', 'n'] && Escape('\r') == ['\\', 'r'] && Escape('\t') == ['\\', 't']
    ensures Escape('\U{20AC}') == ['\\', 'u'] + "20ac"
    ensures Escape('\U{1F600}') == ['\\', 'u'] + "d83d" + ['\\', 'u'] + "de00"
  {
    HexSpelled();
    hide Hex4;
    var euro, face := '\U{20AC}', '\U{1F600}';
    assert euro as int == 0x20AC && face as int == 0x1F600;
  }
}
