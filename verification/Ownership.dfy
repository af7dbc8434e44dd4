/** Ownership markers of githarbor/clients/gitea.py: the description that ties a destination
    repository to one source, and why it can never tie it to two. */
module Ownership {
  import opened Wrappers
  import opened Text
  import opened Naming

  /** A source: its provider, its stable id and the kind it is mirrored as. */
  datatype Identity = Identity(provider: string, id: string, kind: Kind)

  const PHRASE: string := "GitHarbor managed; "
  const MAX_DESCRIPTION: nat := 2048

  function KindText(kind: Kind): string {
    match kind
    case Owned => "owned"
    case Starred => "starred"
    case External => "external"
  }

  function MarkerBody(who: Identity): string {
    (if who.provider == "github" then "github-id:" + who.id
     else "source-provider:" + who.provider + "; source-id:" + who.id) + "; kind:" + KindText(who.kind)
  }

  function ManagementMarker(who: Identity): string {
    PHRASE + MarkerBody(who)
  }

  function ProviderName(provider: string): string {
    if provider == "github" then "GitHub" else if provider == "gitlab" then "GitLab"
    else if provider == "forgejo" then "Forgejo" else provider
  }

  function Provenance(who: Identity, fullName: string): string {
    "Mirrored from " + ProviderName(who.provider) + ": " + fullName + ". " + ManagementMarker(who)
  }

  function ManagedDescription(source: string, fullName: string, who: Identity): string {
    var text := Strip(source, Whitespace);
    if text == "" then Provenance(who, fullName)
    else RStrip(CutTo(text, MAX_DESCRIPTION - 2 - |Provenance(who, fullName)|), Whitespace) + "\n\n" + Provenance(who, fullName)
  }

  /** The parts of an identity are words. */
  ghost predicate Proper(who: Identity) {
    Word(who.provider) && Word(who.id)
  }

  ghost predicate Word(s: string) {
    forall i | 0 <= i < |s| :: s[i] != ' ' && s[i] != ';'
  }

  // ---------------------------------------------------------------- occurrences

  predicate At(s: string, part: string, i: nat) {
    i + |part| <= |s| && s[i..i + |part|] == part
  }

  /** `part in s`. */
  predicate Contains(s: string, part: string) {
    exists i: nat | i <= |s| :: At(s, part, i)
  }

  ghost predicate NoPhrase(s: string) {
    forall i: nat :: !At(s, PHRASE, i)
  }

  /** The marker's opening phrase occurs at most once. */
  ghost predicate OnePhrase(s: string) {
    forall i: nat, j: nat | At(s, PHRASE, i) && At(s, PHRASE, j) :: i == j
  }

  /** The description carries the identity's marker. */
  predicate Carries(description: string, who: Identity) {
    Contains(description, ManagementMarker(who))
  }

  lemma AtConcat(a: string, b: string, part: string, i: nat)
    ensures At(a, part, i) ==> At(a + b, part, i)
    ensures At(b, part, i) ==> At(a + b, part, |a| + i)
    ensures At(a + b, part, i) && i + |part| <= |a| ==> At(a, part, i)
    ensures At(a + b, part, i) && |a| <= i ==> At(b, part, i - |a|)
  {
    if At(a, part, i) {
      assert (a + b)[i..i + |part|] == a[i..i + |part|];
    }
    if At(b, part, i) {
      assert (a + b)[|a| + i..|a| + i + |part|] == b[i..i + |part|];
    }
    if At(a + b, part, i) && i + |part| <= |a| {
      assert a[i..i + |part|] == (a + b)[i..i + |part|];
    }
    if At(a + b, part, i) && |a| <= i {
      assert b[i - |a|..i - |a| + |part|] == (a + b)[i..i + |part|];
    }
  }

  /** A character of an occurrence is the phrase's. */
  lemma AtChar(s: string, part: string, i: nat, q: nat)
    requires At(s, part, i) && i <= q < i + |part|
    ensures s[q] == part[q - i]
  {
    assert s[q] == s[i..i + |part|][q - i];
  }

  /** Texts without the phrase stay so when joined by a character the phrase does not have. */
  lemma Joined(a: string, c: char, b: string)
    requires NoPhrase(a) && NoPhrase(b) && forall k | 0 <= k < |PHRASE| :: PHRASE[k] != c
    ensures NoPhrase(a + [c] + b)
  {
    var s := a + [c] + b;
    forall i: nat
      ensures !At(s, PHRASE, i)
    {
      if At(s, PHRASE, i) {
        AtConcat(a + [c], b, PHRASE, i);
        AtConcat(a, [c] + b, PHRASE, i);
        assert a + ([c] + b) == s;
        if i <= |a| < i + |PHRASE| {
          AtChar(s, PHRASE, i, |a|);
        }
      }
    }
  }

  lemma Shorter(s: string, t: string, from: nat)
    requires NoPhrase(s) && from + |t| <= |s| && t == s[from..from + |t|]
    ensures NoPhrase(t)
  {
    forall i: nat
      ensures !At(t, PHRASE, i)
    {
      if At(t, PHRASE, i) {
        var u, v := t[i..i + |PHRASE|], s[from + i..from + i + |PHRASE|];
        forall k | 0 <= k < |PHRASE|
          ensures u[k] == v[k]
        {
          assert u[k] == t[i + k] && v[k] == s[from + i + k];
        }
        assert u == v;
        assert At(s, PHRASE, from + i);
      }
    }
  }

  // ---------------------------------------------------------------- markers

  /** Inside a marker every space but the first follows a semicolon. */
  ghost predicate Spaced(s: string) {
    forall q | 0 <= q < |s| && s[q] == ' ' :: 0 < q && s[q - 1] == ';'
  }

  lemma SpacedConcat(a: string, b: string)
    requires Spaced(a) && Spaced(b)
    ensures Spaced(a + b)
  {
    var s := a + b;
    forall q | 0 <= q < |s| && s[q] == ' '
      ensures 0 < q && s[q - 1] == ';'
    {
      if q < |a| {
        assert a[q] == ' ';
      } else {
        assert b[q - |a|] == ' ';
      }
    }
  }

  lemma WordSpaced(s: string)
    requires Word(s)
    ensures Spaced(s)
  {
  }

  lemma BodySpaced(who: Identity)
    requires Proper(who)
    ensures Spaced(MarkerBody(who))
  {
    WordSpaced(who.id);
    WordSpaced(who.provider);
    var kind := "; kind:" + KindText(who.kind);
    assert Spaced("; kind:") && Word(KindText(who.kind)) && Spaced("github-id:") && Spaced("source-provider:") && Spaced("; source-id:");
    WordSpaced(KindText(who.kind));
    SpacedConcat("; kind:", KindText(who.kind));
    hide Spaced, KindText;
    if who.provider == "github" {
      SpacedConcat("github-id:", who.id);
      SpacedConcat("github-id:" + who.id, kind);
      assert MarkerBody(who) == "github-id:" + who.id + kind;
    } else {
      SpacedConcat("source-provider:", who.provider);
      SpacedConcat("source-provider:" + who.provider, "; source-id:");
      SpacedConcat("source-provider:" + who.provider + "; source-id:", who.id);
      SpacedConcat("source-provider:" + who.provider + "; source-id:" + who.id, kind);
      assert MarkerBody(who) == "source-provider:" + who.provider + "; source-id:" + who.id + kind;
    }
  }

  lemma PhraseChars()
    ensures |PHRASE| == 19 && PHRASE[0] == 'G' && PHRASE[8] == 'r' && PHRASE[9] == ' '
    ensures forall k | 0 < k < |PHRASE| :: PHRASE[k] != 'G'
    ensures forall k | 0 <= k < |PHRASE| :: PHRASE[k] != '\n' && PHRASE[k] != ':' && PHRASE[k] != '.'
  {
  }

  lemma MarkerSpaces(who: Identity)
    requires Proper(who)
    ensures var m := ManagementMarker(who);
            forall q | 9 < q < |m| && m[q] == ' ' :: m[q - 1] == ';'
  {
    BodySpaced(who);
    PhraseChars();
    hide MarkerBody;
    var m, body := ManagementMarker(who), MarkerBody(who);
    forall q | 9 < q < |m| && m[q] == ' '
      ensures m[q - 1] == ';'
    {
      if q < |PHRASE| {
        assert m[q] == PHRASE[q] && m[q - 1] == PHRASE[q - 1];
      } else {
        assert m[q] == body[q - |PHRASE|];
      }
    }
  }

  /** A marker holds its opening phrase once, at its start. */
  lemma MarkerPhrase(who: Identity, i: nat)
    requires Proper(who)
    ensures At(ManagementMarker(who), PHRASE, i) <==> i == 0
  {
    MarkerSpaces(who);
    PhraseChars();
    hide MarkerBody;
    var m := ManagementMarker(who);
    assert m[0..|PHRASE|] == PHRASE;
    if At(m, PHRASE, i) {
      AtChar(m, PHRASE, i, i + 9);
      AtChar(m, PHRASE, i, i + 8);
    }
  }

  /** Behind a text without the phrase, a marker holds it once. */
  lemma BehindText(head: string, who: Identity)
    requires NoPhrase(head) && Proper(who)
    ensures OnePhrase(head + ManagementMarker(who)) && Carries(head + ManagementMarker(who), who)
  {
    var m := ManagementMarker(who);
    var s := head + m;
    PhraseChars();
    assert s[|head|..|head| + |m|] == m;
    assert At(s, m, |head|);
    hide ManagementMarker;
    forall i: nat | At(s, PHRASE, i)
      ensures i == |head|
    {
      AtConcat(head, m, PHRASE, i);
      if i >= |head| {
        MarkerPhrase(who, i - |head|);
      } else {
        MarkerPhrase(who, 0);
        AtChar(m, PHRASE, 0, 0);
        AtChar(s, PHRASE, i, |head|);
      }
    }
  }

  /** A field up to its semicolon is determined by what starts with it. */
  lemma FieldPrefix(a: string, restA: string, b: string, restB: string)
    requires Word(a) && Word(b) && a + ";" + restA <= b + ";" + restB
    ensures a == b && restA <= restB
  {
    var s, t := a + ";" + restA, b + ";" + restB;
    assert s[|a|] == ';' && t[|b|] == ';';
    assert forall k | 0 <= k < |s| :: s[k] == t[k];
    assert forall k | 0 <= k < |a| :: s[k] == a[k];
    assert forall k | 0 <= k < |b| :: t[k] == b[k];
    assert |a| == |b|;
    assert a == s[..|a|] && b == t[..|b|];
    assert restA == s[|a| + 1..] && restB == t[|b| + 1..];
  }

  lemma KindPrefix(a: Kind, b: Kind)
    requires KindText(a) <= KindText(b)
    ensures a == b
  {
    assert KindText(a)[0] == KindText(b)[0] == match a case Owned => 'o' case Starred => 's' case External => 'e';
  }

  /** Two markers where one starts with the other are the same identity's. */
  lemma MarkerPrefixFree(a: Identity, b: Identity)
    requires Proper(a) && Proper(b) && ManagementMarker(a) <= ManagementMarker(b)
    ensures a == b
  {
    hide KindText;
    var x, y := MarkerBody(a), MarkerBody(b);
    assert x == ManagementMarker(a)[|PHRASE|..] && y == ManagementMarker(b)[|PHRASE|..];
    assert x <= y;
    BodyShape(a);
    BodyShape(b);
    assert x[0] == y[0];
    hide MarkerBody;
    var kindA, kindB := " kind:" + KindText(a.kind), " kind:" + KindText(b.kind);
    if a.provider == "github" {
      var head := "github-id:";
      Unprefixed(head, a.id + ";" + kindA, b.id + ";" + kindB, x, y);
      FieldPrefix(a.id, kindA, b.id, kindB);
    } else {
      var head, mid := "source-provider:", " source-id:";
      var restA, restB := mid + (a.id + ";" + kindA), mid + (b.id + ";" + kindB);
      Unprefixed(head, a.provider + ";" + restA, b.provider + ";" + restB, x, y);
      FieldPrefix(a.provider, restA, b.provider, restB);
      Unprefixed(mid, a.id + ";" + kindA, b.id + ";" + kindB, restA, restB);
      FieldPrefix(a.id, kindA, b.id, kindB);
    }
    Unprefixed(" kind:", KindText(a.kind), KindText(b.kind), kindA, kindB);
    KindPrefix(a.kind, b.kind);
  }

  lemma Unprefixed(head: string, a: string, b: string, x: string, y: string)
    requires x == head + a && y == head + b && x <= y
    ensures a <= b
  {
    assert a == x[|head|..] && b == y[|head|..];
    assert forall k | 0 <= k < |a| :: a[k] == x[|head| + k] && b[k] == y[|head| + k];
  }

  lemma BodyShape(who: Identity)
    ensures var kind := " kind:" + KindText(who.kind);
            var body := MarkerBody(who);
            if who.provider == "github" then body == "github-id:" + (who.id + ";" + kind) && body[0] == 'g'
            else body == "source-provider:" + (who.provider + ";" + (" source-id:" + (who.id + ";" + kind))) && body[0] == 's'
  {
    var kind := KindText(who.kind);
    assert "; kind:" == ";" + " kind:" && "; source-id:" == ";" + " source-id:";
    if who.provider == "github" {
      Regroup("github-id:", who.id, ";", " kind:", kind);
    } else {
      Regroup(" source-id:", who.id, ";", " kind:", kind);
      var head, rest := "source-provider:" + who.provider, " source-id:" + (who.id + ";" + (" kind:" + kind));
      Reparen(head, ";", " source-id:", who.id, "; kind:" + kind);
      assert head + ";" + rest == "source-provider:" + (who.provider + ";" + rest);
    }
  }

  lemma Regroup(a: string, b: string, c: string, d: string, e: string)
    ensures a + b + ((c + d) + e) == a + (b + c + (d + e))
  {
  }

  lemma Reparen(a: string, b: string, c: string, d: string, e: string)
    ensures a + (b + c) + d + e == a + b + (c + d + e)
  {
  }

  /** A description with one marker phrase carries one identity at most. */
  lemma OneCarrier(s: string, a: Identity, b: Identity)
    requires OnePhrase(s) && Proper(a) && Proper(b) && Carries(s, a) && Carries(s, b)
    ensures a == b
  {
    var i, j := PhraseAt(s, a), PhraseAt(s, b);
    var x, y := ManagementMarker(a), ManagementMarker(b);
    assert x == s[i..i + |x|] && y == s[i..i + |y|];
    hide ManagementMarker;
    if |x| <= |y| {
      assert x == y[..|x|];
      MarkerPrefixFree(a, b);
    } else {
      assert y == x[..|y|];
      MarkerPrefixFree(b, a);
    }
  }

  ghost function PhraseAt(s: string, who: Identity): (i: nat)
    requires Carries(s, who)
    ensures At(s, ManagementMarker(who), i) && At(s, PHRASE, i)
  {
    var i: nat :| i <= |s| && At(s, ManagementMarker(who), i);
    assert s[i..i + |PHRASE|] == s[i..i + |ManagementMarker(who)|][..|PHRASE|];
    i
  }

  // ---------------------------------------------------------------- descriptions

  lemma SpaceBefore(s: string)
    requires NoPhrase(s)
    ensures NoPhrase(" " + s)
  {
    PhraseChars();
    var t := " " + s;
    if |PHRASE| <= |t| {
      assert t[0..|PHRASE|][0] == ' ';
    }
    forall i: nat
      ensures !At(t, PHRASE, i)
    {
      AtConcat(" ", s, PHRASE, i);
    }
  }

  /** A word behind "Mirrored from " does not complete the phrase. */
  lemma OpeningWords(word: string)
    requires Word(word)
    ensures NoPhrase("Mirrored from " + word)
  {
    var s := "Mirrored from " + word;
    assert PHRASE[9] == ' ' && PHRASE[18] == ' ';
    forall q | 14 <= q < |s|
      ensures s[q] != ' '
    {
      assert s[q] == word[q - 14];
    }
    assert forall q | 0 <= q < |s| && s[q] == ' ' :: q == 8 || q == 13;
    forall i: nat
      ensures !At(s, PHRASE, i)
    {
      if At(s, PHRASE, i) {
        AtChar(s, PHRASE, i, i + 9);
        AtChar(s, PHRASE, i, i + 18);
      }
    }
  }

  function ProvenanceHead(who: Identity, fullName: string): string {
    ("Mirrored from " + ProviderName(who.provider)) + [':'] + (" " + fullName) + ['.'] + " "
  }

  lemma ProvenanceIs(who: Identity, fullName: string)
    ensures Provenance(who, fullName) == ProvenanceHead(who, fullName) + ManagementMarker(who)
  {
    hide ManagementMarker, ProviderName;
    var a := "Mirrored from " + ProviderName(who.provider);
    assert ": " == [':'] + " " && ". " == ['.'] + " ";
    assert a + ([':'] + " ") + fullName + (['.'] + " ") == a + [':'] + (" " + fullName) + ['.'] + " ";
  }

  lemma HeadHasNoPhrase(who: Identity, fullName: string)
    requires Proper(who) && NoPhrase(fullName)
    ensures NoPhrase(ProvenanceHead(who, fullName))
  {
    PhraseChars();
    assert Word(ProviderName(who.provider));
    hide ProviderName;
    OpeningWords(ProviderName(who.provider));
    SpaceBefore(fullName);
    Joined("Mirrored from " + ProviderName(who.provider), ':', " " + fullName);
    NothingInSpace();
    Joined(("Mirrored from " + ProviderName(who.provider)) + [':'] + (" " + fullName), '.', " ");
  }

  lemma NothingInSpace()
    ensures NoPhrase(" ") && NoPhrase("")
  {
  }

  lemma DescriptionIs(source: string, fullName: string, who: Identity)
    ensures var text, head := Strip(source, Whitespace), ProvenanceHead(who, fullName);
            var n := MAX_DESCRIPTION - 2 - |Provenance(who, fullName)|;
            ManagedDescription(source, fullName, who) ==
            if text == "" then head + ManagementMarker(who)
            else (RStrip(CutTo(text, n), Whitespace) + ['\n'] + ("" + ['\n'] + head)) + ManagementMarker(who)
  {
    ProvenanceIs(who, fullName);
    hide Provenance, ProvenanceHead, ManagementMarker, Strip, RStrip, CutTo;
    var head, m := ProvenanceHead(who, fullName), ManagementMarker(who);
    var cut := RStrip(CutTo(Strip(source, Whitespace), MAX_DESCRIPTION - 2 - |Provenance(who, fullName)|), Whitespace);
    assert "\n\n" == ['\n'] + ("" + ['\n']);
    Reparen(cut, ['\n'], "" + ['\n'], head, m);
    assert cut + ['\n'] + (("" + ['\n']) + head + m) == (cut + ['\n'] + (("" + ['\n']) + head)) + m;
  }

  /** A description written for a source carries its marker and no other phrase, and stays within
      Gitea's bound, whenever the source's own text is free of the phrase. */
  lemma DescriptionOwned(source: string, fullName: string, who: Identity)
    requires Proper(who) && NoPhrase(source) && NoPhrase(fullName)
    ensures OnePhrase(ManagedDescription(source, fullName, who)) && Carries(ManagedDescription(source, fullName, who), who)
  {
    hide *;
    var text, head := Strip(source, Whitespace), ProvenanceHead(who, fullName);
    HeadHasNoPhrase(who, fullName);
    DescriptionIs(source, fullName, who);
    if text == "" {
      BehindText(head, who);
    } else {
      var n := MAX_DESCRIPTION - 2 - |Provenance(who, fullName)|;
      CutHasNoPhrase(source, n);
      PhraseChars();
      NothingInSpace();
      Joined("", '\n', head);
      Joined(RStrip(CutTo(text, n), Whitespace), '\n', "" + ['\n'] + head);
      BehindText(RStrip(CutTo(text, n), Whitespace) + ['\n'] + ("" + ['\n'] + head), who);
    }
  }

  /** Descriptions stay within Gitea's bound as long as the provenance does, and leaves room for
      the blank line that sets it off from a source text. */
  lemma DescriptionFits(source: string, fullName: string, who: Identity)
    requires |Provenance(who, fullName)| + (if Strip(source, Whitespace) == "" then 0 else 2) <= MAX_DESCRIPTION
    ensures |ManagedDescription(source, fullName, who)| <= MAX_DESCRIPTION
  {
    hide Provenance, ManagementMarker, Strip, RStrip;
    if Strip(source, Whitespace) != "" {
      var n := MAX_DESCRIPTION - 2 - |Provenance(who, fullName)|;
      var c := CutTo(Strip(source, Whitespace), n);
      assert |c| <= n && |RStrip(c, Whitespace)| <= |c|;
    }
  }

  // ---------------------------------------------------------------- descriptions spelled out

  lemma GitHubMarker(id: string, kind: Kind)
    ensures ManagementMarker(Identity("github", id, kind)) == "GitHarbor managed; github-id:" + id + "; kind:" + KindText(kind)
  {
    hide KindText;
    var k := KindText(kind);
    Reparen4("GitHarbor managed; ", "github-id:", id, "; kind:", k);
    assert "GitHarbor managed; " + "github-id:" == "GitHarbor managed; github-id:";
  }

  lemma SourceMarker(provider: string, id: string, kind: Kind)
    requires provider != "github"
    ensures ManagementMarker(Identity(provider, id, kind))
            == "GitHarbor managed; source-provider:" + provider + "; source-id:" + id + "; kind:" + KindText(kind)
  {
    hide KindText;
    var k := KindText(kind);
    Reparen4("GitHarbor managed; ", "source-provider:", provider, "; source-id:" + id + "; kind:", k);
    assert "GitHarbor managed; " + "source-provider:" == "GitHarbor managed; source-provider:";
    var head := "GitHarbor managed; source-provider:" + provider;
    assert head + ("; source-id:" + id + "; kind:") + k == head + "; source-id:" + id + "; kind:" + k;
    assert "source-provider:" + provider + "; source-id:" + id + "; kind:" + k
        == "source-provider:" + provider + ("; source-id:" + id + "; kind:") + k;
  }

  lemma Reparen4(a: string, b: string, c: string, d: string, e: string)
    ensures a + (b + c + d + e) == a + b + c + d + e
  {
  }

  /** What is written on the mirrors of GitHub's repositories, and of GitLab's and Forgejo's. */
  lemma ProvenanceSpelled(fullName: string, id: string)
    ensures Provenance(Identity("github", id, Owned), fullName)
            == "Mirrored from GitHub: " + fullName + ". " + ("GitHarbor managed; github-id:" + id + "; kind:" + "owned")
    ensures Provenance(Identity("github", id, Starred), fullName)
            == "Mirrored from GitHub: " + fullName + ". " + ("GitHarbor managed; github-id:" + id + "; kind:" + "starred")
    ensures Provenance(Identity("gitlab", id, External), fullName)
            == "Mirrored from GitLab: " + fullName + ". "
               + ("GitHarbor managed; source-provider:" + "gitlab" + "; source-id:" + id + "; kind:" + "external")
    ensures Provenance(Identity("forgejo", id, External), fullName)
            == "Mirrored from Forgejo: " + fullName + ". "
               + ("GitHarbor managed; source-provider:" + "forgejo" + "; source-id:" + id + "; kind:" + "external")
  {
    GitHubMarker(id, Owned);
    GitHubMarker(id, Starred);
    SourceMarker("gitlab", id, External);
    SourceMarker("forgejo", id, External);
    hide ManagementMarker;
    assert "Mirrored from " + "GitHub" + ": " == "Mirrored from GitHub: ";
    assert "Mirrored from " + "GitLab" + ": " == "Mirrored from GitLab: ";
    assert "Mirrored from " + "Forgejo" + ": " == "Mirrored from Forgejo: ";
  }

  /** The start of a text up to `n` characters, without space at its end. */
  ghost predicate IsTextStart(s: string, n: int, start: string) {
    && start <= s && |start| <= n && (start != "" ==> !IsWhite(start[|start| - 1]))
    && forall i | |start| <= i < |s| && i < n :: IsWhite(s[i])
  }

  /** The description is the provenance; behind as much of the source's text as fits before it, if
      there is any, and an empty line. */
  ghost predicate Describes(source: string, fullName: string, who: Identity, description: string) {
    var text, provenance := Strip(source, Whitespace), Provenance(who, fullName);
    if text == "" then description == provenance
    else
      var room := if |provenance| <= 2046 then 2046 - |provenance| else if |provenance| <= 2046 + |text| then 2046 + |text| - |provenance| else 0;
      exists start :: description == start + "\n\n" + provenance && IsTextStart(text, room, start)
  }

  lemma DescriptionDescribes(source: string, fullName: string, who: Identity)
    ensures Describes(source, fullName, who, ManagedDescription(source, fullName, who))
  {
    hide Provenance, Strip, IsWhite;
    var text, n := Strip(source, Whitespace), 2046 - |Provenance(who, fullName)|;
    var start := RStrip(CutTo(text, n), Whitespace);
    assert IsTextStart(text, if n >= 0 then n else if |text| + n >= 0 then |text| + n else 0, start);
  }

  lemma CutHasNoPhrase(source: string, n: int)
    requires NoPhrase(source)
    ensures NoPhrase(RStrip(CutTo(Strip(source, Whitespace), n), Whitespace))
  {
    var a := LStrip(source, Whitespace);
    var b := RStrip(a, Whitespace);
    var c := CutTo(b, n);
    var d := RStrip(c, Whitespace);
    hide NoPhrase, LStrip, RStrip, Is;
    Shorter(source, a, |source| - |a|);
    Shorter(a, b, 0);
    Shorter(b, c, 0);
    Shorter(c, d, 0);
  }
}
