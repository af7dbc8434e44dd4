/** Tag spelling rules of githarbor/services/containers.py: case folding, the
    preservation tag of a digest, and the order in which tags are copied. */
module ContainerTags {

  type Tag = string
  type Digest = string

  function FoldChar(c: char): char {
    if 'A' <= c <= 'Z' then (c - 'A') + 'a' else c
  }

  /** Case folding of a tag; source tags are ASCII once they have been validated. */
  function Fold(s: string): (r: string)
    ensures |r| == |s|
  {
    seq(|s|, i requires 0 <= i < |s| => FoldChar(s[i]))
  }

  predicate IsHexDigit(c: char) {
    '0' <= c <= '9' || 'a' <= c <= 'f'
  }

  const DIGEST_PREFIX := "sha256:"
  const DIGEST_LENGTH := 71

  predicate ValidDigest(d: Digest) {
    |d| == DIGEST_LENGTH && d[..7] == DIGEST_PREFIX && forall i | 7 <= i < |d| :: IsHexDigit(d[i])
  }

  function ReplaceColons(s: string): (r: string)
    ensures |r| == |s|
  {
    seq(|s|, i requires 0 <= i < |s| => if s[i] == ':' then '-' else s[i])
  }

  const PRESERVATION_PREFIX := "githarbor-preserved-"

  function PreservationTag(d: Digest): Tag {
    PRESERVATION_PREFIX + ReplaceColons(d)
  }

  predicate IsLatest(t: Tag) {
    Fold(t) == "latest"
  }

  /** The word `latest` in capital or small letters. */
  predicate SpellsLatest(t: Tag) {
    && |t| == 6 && (t[0] == 'l' || t[0] == 'L') && (t[1] == 'a' || t[1] == 'A') && (t[2] == 't' || t[2] == 'T')
    && (t[3] == 'e' || t[3] == 'E') && (t[4] == 's' || t[4] == 'S') && (t[5] == 't' || t[5] == 'T')
  }

  lemma LatestSpelled()
    ensures forall t :: IsLatest(t) <==> SpellsLatest(t)
  {
    forall t
      ensures IsLatest(t) <==> SpellsLatest(t)
    {
      LatestIs(t);
    }
  }

  lemma LatestIs(t: Tag)
    ensures IsLatest(t) <==> SpellsLatest(t)
  {
    var latest := "latest";
    if |t| == 6 {
      assert IsLatest(t) <==> forall i | 0 <= i < 6 :: FoldChar(t[i]) == latest[i];
      assert IsLatest(t) <==> FoldChar(t[0]) == 'l' && FoldChar(t[1]) == 'a' && FoldChar(t[2]) == 't' && FoldChar(t[3]) == 'e'
                              && FoldChar(t[4]) == 's' && FoldChar(t[5]) == 't';
    }
  }

  /** Code-point order on strings, as Python compares them. */
  predicate StrLe(a: string, b: string) {
    a == [] || (b != [] && (a[0] < b[0] || (a[0] == b[0] && StrLe(a[1..], b[1..]))))
  }

  /** The sort key of a tag: a literal `latest` goes last, others by folded name. */
  predicate TagLe(a: Tag, b: Tag) {
    if IsLatest(a) == IsLatest(b) then StrLe(Fold(a), Fold(b)) else IsLatest(b)
  }

  function Dedupe(s: seq<Tag>): (r: seq<Tag>)
    ensures forall t :: t in r <==> t in s
    ensures forall i, j | 0 <= i < j < |r| :: r[i] != r[j]
  {
    if s == [] then [] else
      var init := Dedupe(s[..|s| - 1]);
      var last := s[|s| - 1];
      assert s == s[..|s| - 1] + [last];
      if last in init then init else init + [last]
  }

  function InsertTag(t: Tag, s: seq<Tag>): (r: seq<Tag>)
    ensures multiset(r) == multiset(s) + multiset{t}
  {
    if s == [] then [t]
    else if TagLe(s[0], t) then
      assert s == [s[0]] + s[1..];
      [s[0]] + InsertTag(t, s[1..])
    else [t] + s
  }

  function SortTags(s: seq<Tag>): (r: seq<Tag>)
    ensures multiset(r) == multiset(s)
  {
    if s == [] then [] else
      assert s == s[..|s| - 1] + [s[|s| - 1]];
      InsertTag(s[|s| - 1], SortTags(s[..|s| - 1]))
  }

  function Folds(s: seq<Tag>): set<Tag> {
    set t | t in s :: Fold(t)
  }

  predicate FoldDistinct(s: seq<Tag>) {
    forall i, j | 0 <= i < j < |s| :: Fold(s[i]) != Fold(s[j])
  }

  lemma FoldIdempotent(s: string)
    ensures Fold(Fold(s)) == Fold(s)
  {
  }

  /** A preservation tag is its own folding, so its owner is decided by exact spelling. */
  lemma PreservationTagIsFolded(d: Digest)
    requires ValidDigest(d)
    ensures Fold(PreservationTag(d)) == PreservationTag(d)
  {
    var p := PreservationTag(d);
    forall i | 0 <= i < |p|
      ensures FoldChar(p[i]) == p[i]
    {
      if i >= |PRESERVATION_PREFIX| {
        var k := i - |PRESERVATION_PREFIX|;
        assert p[i] == ReplaceColons(d)[k];
        if k < 7 {
          assert d[k] == d[..7][k] == DIGEST_PREFIX[k];
        }
      } else {
        assert p[i] == PRESERVATION_PREFIX[i];
      }
    }
  }

  /** Different digests have different preservation tags. */
  lemma PreservationTagInjective(d: Digest, e: Digest)
    requires ValidDigest(d) && ValidDigest(e)
    requires PreservationTag(d) == PreservationTag(e)
    ensures d == e
  {
    var p := PreservationTag(d);
    assert ReplaceColons(d) == p[|PRESERVATION_PREFIX|..];
    assert ReplaceColons(e) == PreservationTag(e)[|PRESERVATION_PREFIX|..];
    forall k | 0 <= k < DIGEST_LENGTH
      ensures d[k] == e[k]
    {
      if k < 7 {
        assert d[k] == d[..7][k] && e[k] == e[..7][k];
      } else {
        assert ReplaceColons(d)[k] == ReplaceColons(e)[k];
        assert IsHexDigit(d[k]) && IsHexDigit(e[k]);
      }
    }
  }

  predicate LatestAtEnd(s: seq<Tag>) {
    forall i, j | 0 <= i < j < |s| && IsLatest(s[i]) :: IsLatest(s[j])
  }

  lemma {:induction false} InsertKeepsLatestAtEnd(t: Tag, s: seq<Tag>)
    requires LatestAtEnd(s)
    ensures LatestAtEnd(InsertTag(t, s))
  {
    if s != [] && TagLe(s[0], t) {
      assert LatestAtEnd(s[1..]);
      InsertKeepsLatestAtEnd(t, s[1..]);
      var r := InsertTag(t, s[1..]);
      if IsLatest(s[0]) {
        assert IsLatest(t);
        forall k | 0 <= k < |r|
          ensures IsLatest(r[k])
        {
          assert r[k] in multiset(r);
          assert r[k] == t || r[k] in s[1..];
        }
      }
    } else if s != [] && IsLatest(t) {
      assert IsLatest(s[0]);
    }
  }

  /** Sorting moves every spelling of `latest` behind every other tag. */
  lemma {:induction false} SortPutsLatestLast(s: seq<Tag>)
    ensures LatestAtEnd(SortTags(s))
    ensures var r := SortTags(s); forall i, j | 0 <= i < j < |r| && SpellsLatest(r[i]) :: SpellsLatest(r[j])
  {
    LatestSpelled();
    hide SpellsLatest, IsLatest;
    if s != [] {
      SortPutsLatestLast(s[..|s| - 1]);
      InsertKeepsLatestAtEnd(s[|s| - 1], SortTags(s[..|s| - 1]));
    }
  }

  lemma SortedMembers(s: seq<Tag>)
    ensures forall t :: t in SortTags(s) <==> t in s
  {
    var r := SortTags(s);
    forall t
      ensures t in r <==> t in s
    {
      assert t in r <==> t in multiset(r);
      assert t in s <==> t in multiset(s);
    }
  }

  // ---------------------------------------------------------------- spellings

  /** Folding makes the capital letters small and leaves every other character. */
  lemma FoldSpelled()
    ensures Fold("ABCDEFGHIJKLMNOPQRSTUVWXYZ") == "abcdefghijklmnopqrstuvwxyz"
    ensures forall c: char | !('A' <= c <= 'Z') :: Fold([c]) == [c]
    ensures forall a, b :: Fold(a + b) == Fold(a) + Fold(b)
  {
    var upper, lower := "ABCDEFGHIJKLMNOPQRSTUVWXYZ", "abcdefghijklmnopqrstuvwxyz";
    assert forall i | 0 <= i < 26 :: upper[i] as int == 65 + i && lower[i] as int == 97 + i;
    forall i | 0 <= i < 26
      ensures FoldChar(upper[i]) == lower[i]
    {
    }
    assert Fold(upper) == lower;
    forall a, b
      ensures Fold(a + b) == Fold(a) + Fold(b)
    {
    }
  }

  /** A digest's preservation tag, spelled out. */
  lemma PreservationTagSpelled(x: string)
    requires forall i | 0 <= i < |x| :: '0' <= x[i] <= '9' || 'a' <= x[i] <= 'f'
    ensures ValidDigest("sha256:" + x) <==> |x| == 64
    ensures PreservationTag("sha256:" + x) == "githarbor-preserved-sha256-" + x
  {
    var d := "sha256:" + x;
    assert d[..7] == "sha256:";
    assert forall i | 0 <= i < |x| :: d[7 + i] == x[i];
    assert forall i | 7 <= i < |d| :: d[i] == x[i - 7];
    assert ReplaceColons(d) == "sha256-" + x;
  }

  // ---------------------------------------------------------------- copying order

  /** Code-point order: the first difference decides, and a prefix comes first. */
  lemma {:induction false} StrLeIs(a: string, b: string)
    ensures StrLe(a, b) <==> exists n :: DecidedAt(a, b, n)
  {
    if a == "" {
      assert DecidedAt(a, b, 0);
    } else if b == "" {
      assert forall n :: !DecidedAt(a, b, n);
    } else if a[0] == b[0] {
      StrLeIs(a[1..], b[1..]);
      forall n | DecidedAt(a[1..], b[1..], n)
        ensures DecidedAt(a, b, n + 1)
      {
        assert a[..n + 1] == [a[0]] + a[1..][..n] && b[..n + 1] == [b[0]] + b[1..][..n];
      }
      forall n | DecidedAt(a, b, n)
        ensures DecidedAt(a[1..], b[1..], n - 1)
      {
        if n > 0 {
          assert a[1..][..n - 1] == a[..n][1..] && b[1..][..n - 1] == b[..n][1..];
        }
      }
    } else {
      if a[0] < b[0] {
        assert DecidedAt(a, b, 0);
      }
      FirstDiffers(a, b);
    }
  }

  lemma FirstDiffers(a: string, b: string)
    requires a != "" && b != "" && a[0] != b[0]
    ensures forall n | DecidedAt(a, b, n) :: n == 0
  {
    forall n | 0 < n <= |a| && n <= |b|
      ensures a[..n] != b[..n]
    {
      assert a[..n][0] != b[..n][0];
    }
  }

  predicate DecidedAt(a: string, b: string, n: int) {
    0 <= n <= |a| && n <= |b| && a[..n] == b[..n] && (n == |a| || (n < |b| && a[n] < b[n]))
  }

  lemma {:induction false} StrLeTotal(a: string, b: string)
    ensures StrLe(a, b) || StrLe(b, a)
  {
    if a != "" && b != "" && a[0] == b[0] {
      StrLeTotal(a[1..], b[1..]);
    }
  }

  lemma {:induction false} StrLeTransitive(a: string, b: string, c: string)
    requires StrLe(a, b) && StrLe(b, c)
    ensures StrLe(a, c)
  {
    if a != "" && a[0] == b[0] == c[0] {
      StrLeTransitive(a[1..], b[1..], c[1..]);
    }
  }

  ghost predicate Ascending(s: seq<Tag>) {
    forall i, j | 0 <= i < j < |s| :: TagLe(s[i], s[j])
  }

  lemma TagLeTransitive(a: Tag, b: Tag, c: Tag)
    requires TagLe(a, b) && TagLe(b, c)
    ensures TagLe(a, c)
  {
    hide StrLe;
    if StrLe(Fold(a), Fold(b)) && StrLe(Fold(b), Fold(c)) {
      StrLeTransitive(Fold(a), Fold(b), Fold(c));
    }
  }

  lemma TagLeTotal(a: Tag, b: Tag)
    ensures TagLe(a, b) || TagLe(b, a)
  {
    hide StrLe;
    StrLeTotal(Fold(a), Fold(b));
  }

  lemma {:induction false} InsertKeepsAscending(t: Tag, s: seq<Tag>)
    requires Ascending(s)
    ensures Ascending(InsertTag(t, s))
  {
    hide TagLe;
    if s != [] {
      TagLeTotal(s[0], t);
      if TagLe(s[0], t) {
        var rest := InsertTag(t, s[1..]);
        InsertKeepsAscending(t, s[1..]);
        forall j | 0 <= j < |rest|
          ensures TagLe(s[0], rest[j])
        {
          assert rest[j] in multiset(rest);
          assert rest[j] == t || rest[j] in s[1..];
        }
      } else {
        forall j | 0 <= j < |s|
          ensures TagLe(t, s[j])
        {
          if j > 0 {
            TagLeTransitive(t, s[0], s[j]);
          }
        }
      }
    }
  }

  /** Tags are copied in ascending order of their folded names, with a literal `latest` last. */
  lemma {:induction false} SortedAscending(s: seq<Tag>)
    ensures Ascending(SortTags(s))
  {
    if s != [] {
      SortedAscending(s[..|s| - 1]);
      InsertKeepsAscending(s[|s| - 1], SortTags(s[..|s| - 1]));
    }
  }
}
