/** Destination names of githarbor/services/naming.py. */
module Naming {
  import opened Wrappers
  import opened Text
  import Json

  datatype Kind = Owned | Starred | External

  const MAX_NAME: nat := 100

  predicate Edge(c: char) {
    Is(c, DotOrDash)
  }

  /** A letter, a digit or an underscore. */
  predicate Core(c: char) {
    SafeChar(c) && !Edge(c)
  }

  ghost predicate HasCore(s: string) {
    exists i | 0 <= i < |s| :: Core(s[i])
  }

  /** Every run of unsafe characters replaced by one dash. */
  function Replaced(s: string): string
    decreases |s|
  {
    if s == "" then ""
    else if SafeChar(s[0]) then [s[0]] + Replaced(s[1..])
    else "-" + Replaced(LStrip(s[1..], UnsafeChar))
  }

  /** Every run of dashes replaced by one. */
  function Collapsed(s: string): string {
    if |s| < 2 then s
    else if s[0] == '-' && s[1] == '-' then Collapsed(s[1..])
    else [s[0]] + Collapsed(s[1..])
  }

  function SafeComponent(value: string, max: nat): Result<string> {
    var v := Collapsed(Strip(Replaced(Strip(value, Whitespace)), DotOrDash));
    if v == "" then Failure else Success(RStrip(Slice(v, max), DotOrDash))
  }

  // ---------------------------------------------------------------- components

  ghost predicate AllSafe(s: string) {
    forall i | 0 <= i < |s| :: SafeChar(s[i])
  }

  ghost predicate NoDouble(s: string) {
    forall i | 0 <= i < |s| - 1 :: !(s[i] == '-' && s[i + 1] == '-')
  }

  /** What a safe component is. */
  ghost predicate Component(s: string, max: nat) {
    0 < |s| <= max && AllSafe(s) && NoDouble(s) && !Edge(s[0]) && !Edge(s[|s| - 1])
  }

  lemma {:induction false} ReplacedIsSafe(s: string)
    ensures AllSafe(Replaced(s)) && (HasCore(Replaced(s)) <==> HasCore(s))
    ensures AllSafe(s) ==> Replaced(s) == s
    decreases |s|
  {
    hide SafeChar, Core, HasCore;
    if s == "" {
    } else if SafeChar(s[0]) {
      assert s == [s[0]] + s[1..];
      ReplacedIsSafe(s[1..]);
      CoreConcat([s[0]], s[1..]);
      CoreConcat([s[0]], Replaced(s[1..]));
    } else {
      var rest := LStrip(s[1..], UnsafeChar);
      ReplacedIsSafe(rest);
      DashIsSafe();
      UnsafeRun(s, rest);
      CoreConcat("-", Replaced(rest));
    }
  }

  lemma DashIsSafe()
    ensures SafeChar('-') && !HasCore("-")
  {
    assert "-"[0] == '-';
  }

  lemma UnsafeRun(s: string, rest: string)
    requires s != "" && !SafeChar(s[0]) && rest == LStrip(s[1..], UnsafeChar)
    ensures !AllSafe(s) && (HasCore(s) <==> HasCore(rest))
  {
    var run := s[..|s| - |rest|];
    forall i | 0 <= i < |run|
      ensures !Core(run[i])
    {
      assert i == 0 || run[i] == s[1..][i - 1];
    }
    assert s == run + rest;
    CoreConcat(run, rest);
  }

  lemma CoreConcat(a: string, b: string)
    ensures HasCore(a + b) <==> HasCore(a) || HasCore(b)
  {
    if HasCore(a) {
      var i :| 0 <= i < |a| && Core(a[i]);
      assert (a + b)[i] == a[i];
    }
    if HasCore(b) {
      var i :| 0 <= i < |b| && Core(b[i]);
      assert (a + b)[|a| + i] == b[i];
    }
  }

  lemma NoCoreInOne(c: char)
    ensures HasCore([c]) <==> Core(c)
  {
    if Core(c) {
      assert Core([c][0]);
    }
  }

  lemma {:induction false} LStripCore(s: string, drop: CharClass)
    requires drop != UnsafeChar
    ensures (HasCore(LStrip(s, drop)) <==> HasCore(s)) && (AllSafe(s) ==> AllSafe(LStrip(s, drop)))
  {
    hide SafeChar, Core, Is, HasCore;
    if s != "" && Is(s[0], drop) {
      StrippedIsNotCore(s[0], drop);
      NoCoreInOne(s[0]);
      assert s == [s[0]] + s[1..];
      CoreConcat([s[0]], s[1..]);
      LStripCore(s[1..], drop);
    }
  }

  lemma {:induction false} RStripCore(s: string, drop: CharClass)
    requires drop != UnsafeChar
    ensures (HasCore(RStrip(s, drop)) <==> HasCore(s)) && (AllSafe(s) ==> AllSafe(RStrip(s, drop)))
  {
    hide SafeChar, Core, Is, HasCore;
    if s != "" && Is(s[|s| - 1], drop) {
      var n := |s| - 1;
      StrippedIsNotCore(s[n], drop);
      NoCoreInOne(s[n]);
      assert s == s[..n] + [s[n]];
      CoreConcat(s[..n], [s[n]]);
      RStripCore(s[..n], drop);
    }
  }

  /** Stripping characters that are not at the core keeps the core. */
  lemma StripKeepsCore(s: string, drop: CharClass)
    requires drop != UnsafeChar
    ensures var r := Strip(s, drop);
            && (HasCore(r) <==> HasCore(s)) && (AllSafe(s) ==> AllSafe(r))
            && (r != "" ==> !Is(r[0], drop) && !Is(r[|r| - 1], drop))
    ensures s != "" && !Is(s[0], drop) && !Is(s[|s| - 1], drop) ==> Strip(s, drop) == s
  {
    hide SafeChar, Core, Is, HasCore, AllSafe;
    LStripCore(s, drop);
    RStripCore(LStrip(s, drop), drop);
  }

  lemma {:induction false} CollapsedIs(s: string)
    ensures NoDouble(Collapsed(s)) && (AllSafe(s) ==> AllSafe(Collapsed(s))) && (NoDouble(s) ==> Collapsed(s) == s)
    ensures (Collapsed(s) == "" <==> s == "") && |Collapsed(s)| <= |s|
    ensures s != "" ==> Collapsed(s)[0] == s[0] && Collapsed(s)[|Collapsed(s)| - 1] == s[|s| - 1]
  {
    if |s| >= 2 {
      CollapsedIs(s[1..]);
      assert AllSafe(s) ==> AllSafe(s[1..]);
      if NoDouble(s) {
        var t := s[1..];
        forall i | 0 <= i < |t| - 1
          ensures !(t[i] == '-' && t[i + 1] == '-')
        {
          assert t[i] == s[i + 1] && t[i + 1] == s[i + 1 + 1];
        }
        assert !(s[0] == '-' && s[0 + 1] == '-');
      }
    }
  }

  lemma StrippedIsNotCore(c: char, drop: CharClass)
    requires drop != UnsafeChar && Is(c, drop)
    ensures !Core(c)
  {
  }

  /** Cutting a collapsed text and stripping the cut end leaves a component. */
  lemma CutIsComponent(v: string, max: nat)
    requires max > 0 && v != "" && AllSafe(v) && NoDouble(v) && !Edge(v[0])
    ensures Component(RStrip(Slice(v, max), DotOrDash), max)
  {
    hide SafeChar;
    var c := Slice(v, max);
    var r := RStrip(c, DotOrDash);
    assert r != "" by {
      assert c != "" && c[0] == v[0];
    }
    forall i | 0 <= i < |r| - 1
      ensures !(r[i] == '-' && r[i + 1] == '-')
    {
      assert r[i] == v[i] && r[i + 1] == v[i + 1];
    }
  }

  /** A text has a safe component exactly when it has a letter, a digit or an underscore. */
  lemma SafeComponentIff(value: string, max: nat)
    requires max > 0
    ensures SafeComponent(value, max).Success? <==> HasCore(value)
    ensures SafeComponent(value, max).Success? ==> Component(SafeComponent(value, max).value, max)
  {
    hide IsWhite, SafeChar, Is, Core, Replaced, Collapsed, Strip, HasCore, AllSafe, NoDouble;
    var a := Strip(value, Whitespace);
    StripKeepsCore(value, Whitespace);
    ReplacedIsSafe(a);
    var b := Strip(Replaced(a), DotOrDash);
    StripKeepsCore(Replaced(a), DotOrDash);
    CollapsedIs(b);
    EmptyHasNoCore(b);
    if b != "" {
      CutIsComponent(Collapsed(b), max);
    }
  }

  lemma EmptyHasNoCore(s: string)
    requires s != "" ==> AllSafe(s) && !Edge(s[0])
    ensures HasCore(s) <==> s != ""
  {
    if s != "" {
      assert Core(s[0]);
    }
  }

  lemma ComponentEnds(s: string, max: nat)
    requires Component(s, max)
    ensures s != "" && AllSafe(s) && NoDouble(s) && RStrip(Slice(s, max), DotOrDash) == s
    ensures !Is(s[0], Whitespace) && !Is(s[|s| - 1], Whitespace) && !Is(s[0], DotOrDash) && !Is(s[|s| - 1], DotOrDash)
  {
    assert SafeChar(s[0]) && SafeChar(s[|s| - 1]);
  }

  lemma SafeComponentIs(s: string, max: nat)
    ensures var v := Collapsed(Strip(Replaced(Strip(s, Whitespace)), DotOrDash));
            SafeComponent(s, max) == if v == "" then Failure else Success(RStrip(Slice(v, max), DotOrDash))
  {
  }

  /** Components are exactly the texts that are their own safe component. */
  lemma ComponentIsFixed(s: string, max: nat)
    requires max > 0
    ensures Component(s, max) <==> SafeComponent(s, max) == Success(s)
  {
    hide *;
    if Component(s, max) {
      ComponentEnds(s, max);
      StripKeepsCore(s, Whitespace);
      ReplacedIsSafe(s);
      StripKeepsCore(s, DotOrDash);
      CollapsedIs(s);
      SafeComponentIs(s, max);
    } else if SafeComponent(s, max) == Success(s) {
      SafeComponentIff(s, max);
    }
  }

  lemma SafeComponentIdempotent(value: string, max: nat)
    requires max > 0 && SafeComponent(value, max).Success?
    ensures SafeComponent(SafeComponent(value, max).value, max) == SafeComponent(value, max)
  {
    SafeComponentIff(value, max);
    ComponentIsFixed(SafeComponent(value, max).value, max);
  }

  /** The start of a text up to `n` characters, without the dots and dashes at its end. */
  ghost predicate IsStart(s: string, n: nat, p: string) {
    && p <= s && |p| <= n && (p != "" ==> p[|p| - 1] != '.' && p[|p| - 1] != '-')
    && forall i | |p| <= i < |s| && i < n :: s[i] == '.' || s[i] == '-'
  }

  lemma StartIs(s: string, n: nat, p: string)
    ensures IsStart(s, n, p) <==> p == RStrip(Slice(s, n), DotOrDash)
  {
    var c := Slice(s, n);
    var r := RStrip(c, DotOrDash);
    assert r == s[..|r|];
    forall i | |r| <= i < |c|
      ensures s[i] == '.' || s[i] == '-'
    {
      assert Is(c[i], DotOrDash);
    }
    assert r != "" ==> s[|r| - 1] == r[|r| - 1];
    assert p <= s ==> p == s[..|p|];
    assert p <= s && p != "" ==> s[|p| - 1] == p[|p| - 1];
  }

  // ---------------------------------------------------------------- one pass

  /** Character by character: a safe one as it is, any other as a dash, and no dash twice. */
  ghost function Dashed(s: string): string {
    if s == "" then "" else
      var rest := Dashed(s[..|s| - 1]);
      var c := Mapped(s[|s| - 1]);
      if c == '-' && rest != "" && rest[|rest| - 1] == '-' then rest else rest + [c]
  }

  function Mapped(c: char): char {
    if SafeChar(c) then c else '-'
  }

  ghost function MappedAll(s: string): (r: string)
    ensures |r| == |s| && forall i | 0 <= i < |r| :: r[i] == Mapped(s[i])
  {
    seq(|s|, i requires 0 <= i < |s| => Mapped(s[i]))
  }

  lemma {:induction false} CollapsedSnoc(s: string, c: char)
    ensures Collapsed(s + [c]) == if s != "" && s[|s| - 1] == '-' && c == '-' then Collapsed(s) else Collapsed(s) + [c]
  {
    if |s| >= 2 {
      CollapsedSnoc(s[1..], c);
      assert (s + [c])[1..] == s[1..] + [c];
    } else if |s| == 1 {
      assert (s + [c])[1..] == [c] && s == [s[0]];
    }
  }

  lemma {:induction false} DashedIs(s: string)
    ensures Dashed(s) == Collapsed(MappedAll(s))
  {
    if s != "" {
      var n := |s| - 1;
      DashedIs(s[..n]);
      assert MappedAll(s) == MappedAll(s[..n]) + [Mapped(s[n])];
      CollapsedSnoc(MappedAll(s[..n]), Mapped(s[n]));
      CollapsedIs(MappedAll(s[..n]));
      hide Mapped, Collapsed;
    }
  }

  /** What follows a character is collapsed by itself. */
  lemma CollapsedCons(c: char, x: string, y: string)
    requires Collapsed(x) == Collapsed(y)
    ensures Collapsed([c] + x) == Collapsed([c] + y)
  {
    CollapsedIs(x);
    CollapsedIs(y);
    hide NoDouble, AllSafe;
    assert ([c] + x)[1..] == x && ([c] + y)[1..] == y;
  }

  /** Replacing runs and replacing characters makes no difference once dashes are collapsed. */
  lemma {:induction false} ReplacedIsMapped(s: string)
    ensures Collapsed(Replaced(s)) == Collapsed(MappedAll(s))
    decreases |s|
  {
    hide Collapsed, SafeChar;
    if s != "" {
      assert MappedAll(s) == [Mapped(s[0])] + MappedAll(s[1..]);
      if SafeChar(s[0]) {
        ReplacedIsMapped(s[1..]);
        CollapsedCons(s[0], Replaced(s[1..]), MappedAll(s[1..]));
      } else {
        var rest := LStrip(s[1..], UnsafeChar);
        ReplacedIsMapped(rest);
        CollapsedCons('-', Replaced(rest), MappedAll(rest));
        RunIsDash(s[1..]);
      }
    }
  }

  lemma {:induction false} RunIsDash(s: string)
    ensures Collapsed("-" + MappedAll(s)) == Collapsed("-" + MappedAll(LStrip(s, UnsafeChar)))
  {
    if s != "" && !SafeChar(s[0]) {
      RunIsDash(s[1..]);
      assert ("-" + MappedAll(s))[1..] == "-" + MappedAll(s[1..]);
    }
  }

  lemma {:induction false} CollapsedLStrip(s: string)
    ensures Collapsed(LStrip(s, DotOrDash)) == LStrip(Collapsed(s), DotOrDash)
  {
    hide *;
    if s == "" {
      NothingStripped();
    } else {
      assert s == [s[0]] + s[1..];
      CollapsedLStrip(s[1..]);
      CollapsedHead(s);
      LStripCons(s[0], s[1..], DotOrDash);
      LStripCons(s[0], Collapsed(s[1..]), DotOrDash);
    }
  }

  lemma NothingStripped()
    ensures Collapsed("") == "" && MappedAll("") == "" && forall drop :: LStrip("", drop) == "" && RStrip("", drop) == ""
  {
  }

  lemma CollapsedHead(s: string)
    requires s != ""
    ensures Collapsed(s) == Collapsed(s[1..]) || Collapsed(s) == [s[0]] + Collapsed(s[1..])
    ensures !Is(s[0], DotOrDash) ==> Collapsed(s) == [s[0]] + Collapsed(s[1..])
  {
  }

  lemma LStripCons(c: char, s: string, drop: CharClass)
    ensures LStrip([c] + s, drop) == if Is(c, drop) then LStrip(s, drop) else [c] + s
  {
    hide Is;
    assert ([c] + s)[1..] == s;
  }

  lemma {:induction false} CollapsedRStrip(s: string)
    ensures Collapsed(RStrip(s, DotOrDash)) == RStrip(Collapsed(s), DotOrDash)
  {
    hide *;
    if s == "" {
      NothingStripped();
    } else {
      var n := |s| - 1;
      assert s == s[..n] + [s[n]];
      CollapsedRStrip(s[..n]);
      CollapsedSnoc(s[..n], s[n]);
      RStripSnoc(s[..n], s[n], DotOrDash);
      RStripSnoc(Collapsed(s[..n]), s[n], DotOrDash);
      DashIsStripped();
    }
  }

  lemma DashIsStripped()
    ensures Is('-', DotOrDash)
  {
  }

  lemma RStripSnoc(s: string, c: char, drop: CharClass)
    ensures RStrip(s + [c], drop) == if Is(c, drop) then RStrip(s, drop) else s + [c]
  {
    hide Is;
    assert (s + [c])[..|s|] == s;
  }

  lemma CollapsedStrip(s: string)
    ensures Collapsed(Strip(s, DotOrDash)) == Strip(Collapsed(s), DotOrDash)
  {
    CollapsedLStrip(s);
    CollapsedRStrip(LStrip(s, DotOrDash));
    hide Collapsed;
  }

  /** Space at the ends becomes dashes there, which are stripped in any case. */
  lemma {:induction false} SpaceOnTheLeft(s: string)
    ensures LStrip(MappedAll(LStrip(s, Whitespace)), DotOrDash) == LStrip(MappedAll(s), DotOrDash)
  {
    hide *;
    if s == "" {
      NothingStripped();
    } else {
      assert s == [s[0]] + s[1..];
      LStripCons(s[0], s[1..], Whitespace);
      if Is(s[0], Whitespace) {
        SpaceOnTheLeft(s[1..]);
        SpaceIsMapped(s[0]);
        assert MappedAll(s) == [Mapped(s[0])] + MappedAll(s[1..]);
        LStripCons(Mapped(s[0]), MappedAll(s[1..]), DotOrDash);
      }
    }
  }

  lemma SpaceIsMapped(c: char)
    requires Is(c, Whitespace)
    ensures Is(Mapped(c), DotOrDash)
  {
  }

  lemma {:induction false} SpaceOnTheRight(s: string)
    ensures RStrip(MappedAll(RStrip(s, Whitespace)), DotOrDash) == RStrip(MappedAll(s), DotOrDash)
  {
    hide *;
    if s == "" {
      NothingStripped();
    } else {
      var n := |s| - 1;
      assert s == s[..n] + [s[n]];
      RStripSnoc(s[..n], s[n], Whitespace);
      if Is(s[n], Whitespace) {
        SpaceOnTheRight(s[..n]);
        SpaceIsMapped(s[n]);
        assert MappedAll(s) == MappedAll(s[..n]) + [Mapped(s[n])];
        RStripSnoc(MappedAll(s[..n]), Mapped(s[n]), DotOrDash);
      }
    }
  }

  lemma {:induction false} StripsCommute(s: string)
    ensures RStrip(LStrip(s, DotOrDash), DotOrDash) == LStrip(RStrip(s, DotOrDash), DotOrDash)
  {
    hide *;
    if s == "" {
      NothingStripped();
    } else {
      assert s == [s[0]] + s[1..];
      StripsCommute(s[1..]);
      LStripCons(s[0], s[1..], DotOrDash);
      RStripCons(s[0], s[1..]);
      LStripCons(s[0], RStrip(s[1..], DotOrDash), DotOrDash);
      NothingStripped();
    }
  }

  lemma {:induction false} RStripCons(c: char, s: string)
    ensures var r := RStrip(s, DotOrDash);
            RStrip([c] + s, DotOrDash) == if r == "" && Is(c, DotOrDash) then "" else [c] + r
  {
    hide *;
    NothingStripped();
    if s == "" {
      RStripSnoc("", c, DotOrDash);
      assert "" + [c] == [c] + s == [c];
    } else {
      var n := |s| - 1;
      assert s == s[..n] + [s[n]] && [c] + s == ([c] + s[..n]) + [s[n]];
      RStripCons(c, s[..n]);
      RStripSnoc(s[..n], s[n], DotOrDash);
      RStripSnoc([c] + s[..n], s[n], DotOrDash);
    }
  }

  lemma SpaceIsStripped(s: string)
    ensures Strip(MappedAll(Strip(s, Whitespace)), DotOrDash) == Strip(MappedAll(s), DotOrDash)
  {
    hide Is, MappedAll;
    var t := LStrip(s, Whitespace);
    SpaceOnTheLeft(s);
    SpaceOnTheRight(t);
    StripsCommute(MappedAll(RStrip(t, Whitespace)));
    StripsCommute(MappedAll(t));
  }

  /** IN ONE PASS. Stripping, replacing, stripping and collapsing amount to one pass over the
      text, with dots and dashes stripped at the end; a component is the start of that. */
  lemma SafeComponentInOnePass(value: string, max: nat)
    ensures var d := Strip(Dashed(value), DotOrDash);
            if d == "" then SafeComponent(value, max).Failure?
            else SafeComponent(value, max).Success? && IsStart(d, max, SafeComponent(value, max).value)
  {
    hide *;
    var t := Strip(value, Whitespace);
    SafeComponentIs(value, max);
    CollapsedStrip(Replaced(t));
    ReplacedIsMapped(t);
    CollapsedStrip(MappedAll(t));
    SpaceIsStripped(value);
    CollapsedStrip(MappedAll(value));
    DashedIs(value);
    var d := Strip(Dashed(value), DotOrDash);
    StartIs(d, max, RStrip(Slice(d, max), DotOrDash));
  }

  // ---------------------------------------------------------------- destination names

  function DestinationName(owner: string, name: string, githubId: nat, kind: Kind): Result<string> {
    match SafeComponent(name, MAX_NAME)
    case Failure => Failure
    case Success(safeName) =>
      match kind
      case Owned => Success(safeName)
      case Starred =>
        (match SafeComponent(owner, MAX_NAME)
         case Failure => Failure
         case Success(safeOwner) => Success(RStrip(Slice(safeOwner + "--" + safeName, MAX_NAME), DotOrDash)))
      case External => Failure
  }

  function Suffix(githubId: nat): string {
    "--gh" + Json.Digits(githubId)
  }

  function CollisionDestinationName(owner: string, name: string, githubId: nat, kind: Kind): Result<string> {
    match DestinationName(owner, name, githubId, kind)
    case Failure => Failure
    case Success(preferred) =>
      if kind != Starred then Success(preferred)
      else Success(RStrip(CutTo(preferred, MAX_NAME - |Suffix(githubId)|), DotOrDash) + Suffix(githubId))
  }

  /** Python's `s[:n]` with a negative `n` counting from the end. */
  function CutTo(s: string, n: int): string {
    if n >= 0 then Slice(s, n) else Slice(s, if |s| + n >= 0 then |s| + n else 0)
  }

  // ---------------------------------------------------------------- names spelled out

  lemma WholeIsStart(s: string, n: nat, p: string)
    requires s != "" && !Edge(s[|s| - 1]) && |s| <= n
    ensures IsStart(s, n, p) <==> p == s
  {
    assert p <= s ==> p == s[..|p|];
  }

  /** The first choice: an owned repository keeps its own name, a starred one gets its owner's in
      front; both as safe components. */
  ghost predicate IsPreferred(owner: string, name: string, kind: Kind, p: string) {
    && SafeComponent(name, 100).Success?
    && match kind
       case Owned => p == SafeComponent(name, 100).value
       case Starred =>
         SafeComponent(owner, 100).Success?
         && IsStart(SafeComponent(owner, 100).value + "--" + SafeComponent(name, 100).value, 100, p)
       case External => false
  }

  lemma PreferredIs(owner: string, name: string, githubId: nat, kind: Kind, p: string)
    ensures IsPreferred(owner, name, kind, p) <==> DestinationName(owner, name, githubId, kind) == Success(p)
  {
    hide SafeComponent, Slice, Is;
    if kind == Starred && SafeComponent(owner, 100).Success? && SafeComponent(name, 100).Success? {
      StartIs(SafeComponent(owner, 100).value + "--" + SafeComponent(name, 100).value, 100, p);
      hide IsStart;
    }
  }

  lemma PreferredAre(owner: string, name: string, githubId: nat, kind: Kind)
    ensures forall p :: IsPreferred(owner, name, kind, p) <==> DestinationName(owner, name, githubId, kind) == Success(p)
  {
    hide IsPreferred, DestinationName;
    forall p
      ensures IsPreferred(owner, name, kind, p) <==> DestinationName(owner, name, githubId, kind) == Success(p)
    {
      PreferredIs(owner, name, githubId, kind, p);
    }
  }

  /** The second choice: as much of the first as fits before the id. */
  ghost predicate IsSuffixed(p: string, githubId: nat, c: string) {
    var suffix := "--gh" + Json.Digits(githubId);
    var room := if |suffix| <= 100 then 100 - |suffix| else if |suffix| <= 100 + |p| then 100 + |p| - |suffix| else 0;
    exists start :: c == start + suffix && IsStart(p, room, start)
  }

  lemma SuffixedIs(owner: string, name: string, githubId: nat, p: string)
    requires DestinationName(owner, name, githubId, Starred) == Success(p)
    ensures CollisionDestinationName(owner, name, githubId, Starred).Success?
    ensures IsSuffixed(p, githubId, CollisionDestinationName(owner, name, githubId, Starred).value)
  {
    hide DestinationName, Json.Digits, Is, IsStart, Slice;
    var n := MAX_NAME - |Suffix(githubId)|;
    StartIs(p, if n >= 0 then n else if |p| + n >= 0 then |p| + n else 0, RStrip(CutTo(p, n), DotOrDash));
  }

  /** Ordinary names: GitHub's own, as long as nothing has to be cut. */
  lemma OrdinaryNames(owner: string, name: string, githubId: nat, p: string)
    requires Component(owner, 100) && Component(name, 100)
    ensures IsPreferred(owner, name, Owned, p) <==> p == name
    ensures |owner| + |name| <= 98 ==> (IsPreferred(owner, name, Starred, p) <==> p == owner + "--" + name)
    ensures var suffix := "--gh" + Json.Digits(githubId);
            |owner| + |name| + |suffix| <= 98 ==>
              (IsSuffixed(owner + "--" + name, githubId, p) <==> p == owner + "--" + name + suffix)
  {
    hide *;
    ComponentIsFixed(owner, 100);
    ComponentIsFixed(name, 100);
    JoinedEnd(owner, name);
    if |owner| + |name| <= 98 {
      WholeIsStart(owner + "--" + name, 100, p);
    }
    OwnedIs(owner, name, p);
    StarredIs(owner, name, p);
    var suffix := "--gh" + Json.Digits(githubId);
    if |owner| + |name| + |suffix| <= 98 {
      RoomyIs(owner + "--" + name, githubId, p);
    }
  }

  lemma JoinedEnd(owner: string, name: string)
    requires Component(name, 100)
    ensures var s := owner + "--" + name; s != "" && !Edge(s[|s| - 1]) && |s| == |owner| + |name| + 2
  {
    hide AllSafe, NoDouble, Edge;
    var s := owner + "--" + name;
    assert s[|s| - 1] == name[|name| - 1];
  }

  lemma OwnedIs(owner: string, name: string, p: string)
    requires SafeComponent(name, 100) == Success(name)
    ensures IsPreferred(owner, name, Owned, p) <==> p == name
  {
    hide SafeComponent;
  }

  lemma StarredIs(owner: string, name: string, p: string)
    requires SafeComponent(owner, 100) == Success(owner) && SafeComponent(name, 100) == Success(name)
    ensures IsPreferred(owner, name, Starred, p) <==> IsStart(owner + "--" + name, 100, p)
  {
    hide SafeComponent, IsStart;
  }

  lemma RoomyIs(s: string, githubId: nat, p: string)
    requires s != "" && !Edge(s[|s| - 1]) && |s| + |"--gh" + Json.Digits(githubId)| <= 100
    ensures IsSuffixed(s, githubId, p) <==> p == s + ("--gh" + Json.Digits(githubId))
  {
    hide IsStart, Json.Digits, Edge;
    var room: nat := 100 - |"--gh" + Json.Digits(githubId)|;
    forall start: string
      ensures IsStart(s, room, start) <==> start == s
    {
      WholeIsStart(s, room, start);
    }
  }

  /** How many times two dashes follow each other. */
  function Doubles(s: string): nat {
    if |s| < 2 then 0 else (if s[0] == '-' && s[1] == '-' then 1 else 0) + Doubles(s[1..])
  }

  lemma {:induction false} NoDoubles(s: string)
    ensures NoDouble(s) <==> Doubles(s) == 0
  {
    if |s| >= 2 {
      NoDoubles(s[1..]);
      var t := s[1..];
      if NoDouble(s) {
        assert !(s[0] == '-' && s[0 + 1] == '-');
        forall i | 0 <= i < |t| - 1
          ensures !(t[i] == '-' && t[i + 1] == '-')
        {
          assert t[i] == s[i + 1] && t[i + 1] == s[i + 1 + 1];
        }
      } else {
        var i :| 0 <= i < |s| - 1 && s[i] == '-' && s[i + 1] == '-';
        if i > 0 {
          assert t[i - 1] == s[i] && t[i - 1 + 1] == s[i + 1];
        }
      }
    }
  }

  lemma {:induction false} DoublesConcat(a: string, b: string)
    ensures Doubles(a + b) == Doubles(a) + Doubles(b) + (if a != "" && b != "" && a[|a| - 1] == '-' && b[0] == '-' then 1 else 0)
  {
    if a == "" {
      assert a + b == b;
    } else {
      DoublesConcat(a[1..], b);
      assert (a + b)[1..] == a[1..] + b;
    }
  }

  /** The parts of a starred name: an owner, two dashes and at least the start of a name. */
  ghost predicate StarredParts(s: string, owner: string, part: string) {
    s == owner + "--" + part && Component(owner, MAX_NAME) && part != "" && NoDouble(part) && !Edge(part[0]) && !Edge(part[|part| - 1])
  }

  lemma StarredDoubles(s: string, owner: string, part: string)
    requires StarredParts(s, owner, part)
    ensures Doubles(s) == 1 && s != "" && !Edge(s[|s| - 1])
  {
    hide SafeChar, AllSafe;
    NoDoubles(owner);
    NoDoubles(part);
    DoublesConcat(owner, "--" + part);
    DoublesConcat("--", part);
    assert Doubles("--") == 1;
    assert owner + ("--" + part) == s;
  }

  /** Text that may follow the two dashes. */
  ghost predicate NamePart(name: string) {
    name != "" && NoDouble(name) && !Edge(name[0])
  }

  /** Cutting a starred name behind the start of its name part leaves such a name. */
  lemma CutStarred(owner: string, name: string, n: nat)
    requires Component(owner, MAX_NAME) && NamePart(name) && |owner| + 3 <= n
    ensures var s := RStrip(Slice(owner + "--" + name, n), DotOrDash);
            |s| <= n && |owner| + 2 < |s| && StarredParts(s, owner, s[|owner| + 2..])
  {
    hide SafeChar, AllSafe, Component;
    var whole := owner + "--" + name;
    var c := Slice(whole, n);
    var s := RStrip(c, DotOrDash);
    var first := |owner| + 2;
    assert c == whole[..|c|] && s == whole[..|s|];
    assert c[first] == name[0] && !Edge(name[0]);
    assert first < |s|;
    assert whole[..first] == owner + "--" && s[..first] == whole[..first];
    var part := s[first..];
    forall i | 0 <= i < |part|
      ensures part[i] == name[i]
    {
      assert part[i] == whole[first + i];
    }
    forall i | 0 <= i < |part| - 1
      ensures !(part[i] == '-' && part[i + 1] == '-')
    {
      assert part[i] == name[i] && part[i + 1] == name[i + 1];
    }
    assert s == s[..first] + part;
  }

  lemma ComponentIsNamePart(s: string, max: nat)
    requires Component(s, max)
    ensures NamePart(s) && Doubles(s) == 0 && 0 < |s| <= max
  {
    NoDoubles(s);
  }

  lemma {:induction false} ReplacedIsShorter(s: string)
    ensures |Replaced(s)| <= |s|
    decreases |s|
  {
    if s != "" {
      if SafeChar(s[0]) {
        ReplacedIsShorter(s[1..]);
      } else {
        ReplacedIsShorter(LStrip(s[1..], UnsafeChar));
      }
    }
  }

  lemma SafeComponentIsShorter(value: string, max: nat)
    requires SafeComponent(value, max).Success?
    ensures |SafeComponent(value, max).value| <= |value|
  {
    hide Replaced, Collapsed, Is;
    ReplacedIsShorter(Strip(value, Whitespace));
    CollapsedIs(Strip(Replaced(Strip(value, Whitespace)), DotOrDash));
  }

  /** An owned name has no double dash; a starred one has at most one, however long its owner. */
  lemma PreferredDoubles(owner: string, name: string, githubId: nat, kind: Kind)
    requires DestinationName(owner, name, githubId, kind).Success?
    ensures var p := DestinationName(owner, name, githubId, kind).value;
            0 < |p| <= MAX_NAME && Doubles(p) <= (if kind == Starred then 1 else 0)
  {
    hide SafeComponent, Component, Is;
    SafeComponentIff(name, MAX_NAME);
    var safeName := SafeComponent(name, MAX_NAME).value;
    ComponentIsNamePart(safeName, MAX_NAME);
    if kind == Starred {
      SafeComponentIff(owner, MAX_NAME);
      PrefixDoubles(SafeComponent(owner, MAX_NAME).value, safeName);
    }
  }

  lemma PrefixDoubles(owner: string, name: string)
    requires Component(owner, MAX_NAME) && Component(name, MAX_NAME)
    ensures var p := RStrip(Slice(owner + "--" + name, MAX_NAME), DotOrDash);
            0 < |p| <= MAX_NAME && Doubles(p) <= 1
  {
    var whole := owner + "--" + name;
    var c := Slice(whole, MAX_NAME);
    var p := RStrip(c, DotOrDash);
    assert c[|owner| - 1] == owner[|owner| - 1] && !Edge(c[|owner| - 1]);
    StarredDoubles(whole, owner, name);
    assert whole == p + whole[|p|..];
    DoublesConcat(p, whole[|p|..]);
  }

  lemma SuffixDoubles(githubId: nat)
    ensures Doubles(Suffix(githubId)) == 1 && |Suffix(githubId)| > 4
  {
    Json.DigitsAreDigits(githubId);
    var d := Json.Digits(githubId);
    NoDoubles(d);
    DoublesConcat("--gh", d);
    assert Doubles("--gh") == 1 by {
      assert "--gh"[1..] == "-gh" && "-gh"[1..] == "gh" && "gh"[1..] == "h";
    }
  }

  /** With an owner of up to 39 characters and an id of up to 54 digits, the suffixed name fits,
      has two double dashes and ends in its own id. */
  lemma CollisionName(owner: string, name: string, githubId: nat)
    requires DestinationName(owner, name, githubId, Starred).Success? && |owner| <= 39 && |Suffix(githubId)| <= 58
    ensures var c := CollisionDestinationName(owner, name, githubId, Starred);
            c.Success? && |c.value| <= MAX_NAME && Doubles(c.value) == 2 && HasSuffix(c.value, githubId)
  {
    hide SafeComponent, Component, Is, Suffix, StarredParts, NamePart;
    SafeComponentIff(name, MAX_NAME);
    SafeComponentIff(owner, MAX_NAME);
    SafeComponentIsShorter(owner, MAX_NAME);
    var o, n := SafeComponent(owner, MAX_NAME).value, SafeComponent(name, MAX_NAME).value;
    ComponentIsNamePart(n, MAX_NAME);
    CutStarred(o, n, MAX_NAME);
    var preferred := RStrip(Slice(o + "--" + n, MAX_NAME), DotOrDash);
    var part := preferred[|o| + 2..];
    StarredIsParts(preferred, o, part);
    var m := MAX_NAME - |Suffix(githubId)|;
    CutStarred(o, part, m);
    var base := RStrip(Slice(preferred, m), DotOrDash);
    StarredDoubles(base, o, base[|o| + 2..]);
    SuffixDoubles(githubId);
    EdgeOfDash();
    DoublesConcat(base, Suffix(githubId));
    assert HasSuffix(base + Suffix(githubId), githubId);
  }

  lemma EdgeOfDash()
    ensures Edge('-')
  {
  }

  lemma StarredIsParts(s: string, owner: string, part: string)
    requires StarredParts(s, owner, part)
    ensures s == owner + "--" + part && NamePart(part)
  {
  }

  ghost predicate HasSuffix(s: string, githubId: nat) {
    exists base :: s == base + Suffix(githubId)
  }

  /** A suffixed name belongs to one id only. */
  lemma SuffixInjective(s: string, i: nat, j: nat)
    requires HasSuffix(s, i) && HasSuffix(s, j)
    ensures i == j
  {
    var a :| s == a + Suffix(i);
    var b :| s == b + Suffix(j);
    hide *;
    SuffixLonger(s, a, i, b, j);
    SuffixLonger(s, b, j, a, i);
    TailIs(s, a, i);
    TailIs(s, b, j);
    Json.DigitsAreDigits(i);
    Json.DigitsAreDigits(j);
  }

  lemma TailIs(s: string, a: string, i: nat)
    requires s == a + Suffix(i)
    ensures |Json.Digits(i)| <= |s| && s[|s| - |Json.Digits(i)|..] == Json.Digits(i)
  {
    hide Json.Digits;
  }

  lemma SuffixLonger(s: string, a: string, i: nat, b: string, j: nat)
    requires s == a + Suffix(i) && s == b + Suffix(j)
    ensures |Json.Digits(j)| <= |Json.Digits(i)|
  {
    Json.DigitsAreDigits(j);
    var p := |s| - |Json.Digits(i)| - 1;
    hide Json.Digits, Json.Number;
    var start := |s| - |Json.Digits(j)|;
    forall q | start <= q < |s|
      ensures Json.IsDigit(s[q])
    {
      assert s[q] == Json.Digits(j)[q - start];
    }
    assert s[p] == 'h' && !Json.IsDigit(s[p]);
  }
}
