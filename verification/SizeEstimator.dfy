/** The manifest size estimator of githarbor/services/registry.py: a recursive walk with a shared
    `seen` set and a visit budget, proved against the plain sum over reachable digests. */
module SizeEstimator {
  import opened Wrappers

  type Digest = string

  /** An entry of a manifest. `size` is None where the field is absent or not an integer. */
  datatype Descriptor = NotAnObject | InvalidDigest | Descriptor(digest: Digest, size: Option<int>)

  /** A decoded manifest: which of its members are present, and lists where lists are required. */
  datatype Payload =
    | Undecodable
    | Payload(manifests: Option<seq<Descriptor>>, config: Option<Descriptor>,
              layers: Option<seq<Descriptor>>, blobs: Option<seq<Descriptor>>)

  datatype Raw = Raw(length: nat, sha256: Digest, payload: Payload)

  /** What the source repository answers for each digest; other digests cannot be fetched. */
  type Repository = map<Digest, Raw>

  const MAX_MANIFESTS := 256
  const MAX_MANIFEST_BYTES := 16 * 1024 * 1024

  // ---------------------------------------------------------------- the graph

  function IndexDescriptors(p: Payload): seq<Descriptor> {
    if p.Payload? && p.manifests.Some? then p.manifests.value else []
  }

  /** Config, layers and blobs, in the order they are read; an image index has none. */
  function BlobDescriptors(p: Payload): seq<Descriptor> {
    if p.Undecodable? || p.manifests.Some? then [] else
      (if p.config.Some? then [p.config.value] else []) + p.layers.GetOr([]) + p.blobs.GetOr([])
  }

  function Digests(ds: seq<Descriptor>): set<Digest> {
    set d | d in ds && d.Descriptor? :: d.digest
  }

  function Children(raw: Raw): set<Digest> {
    Digests(IndexDescriptors(raw.payload)) + Digests(BlobDescriptors(raw.payload))
  }

  /** An image index lists the manifest. */
  ghost predicate ListsManifest(p: Payload, c: Digest) {
    p.Payload? && p.manifests.Some? && exists d | d in p.manifests.value :: d.Descriptor? && d.digest == c
  }

  /** A manifest that is no index names the blob as its config, or lists it among its layers or
      its blobs. */
  ghost predicate ListsBlob(p: Payload, d: Descriptor) {
    && p.Payload? && p.manifests.None? && d.Descriptor?
    && (|| p.config == Some(d)
        || (p.layers.Some? && d in p.layers.value)
        || (p.blobs.Some? && d in p.blobs.value))
  }

  lemma DescriptorsAreListed(p: Payload)
    ensures forall c :: c in Digests(IndexDescriptors(p)) <==> ListsManifest(p, c)
    ensures forall d :: d in BlobDescriptors(p) && d.Descriptor? <==> ListsBlob(p, d)
  {
    forall c
      ensures c in Digests(IndexDescriptors(p)) <==> ListsManifest(p, c)
    {
    }
  }

  ghost predicate IsPath(repo: Repository, p: seq<Digest>) {
    p != [] && forall i | 0 <= i < |p| - 1 :: p[i] in repo && ListsManifest(repo[p[i]].payload, p[i + 1])
  }

  /** A manifest reachable from the root through image indexes. */
  ghost predicate IsManifest(repo: Repository, root: Digest, m: Digest) {
    exists p :: IsPath(repo, p) && p[0] == root && p[|p| - 1] == m
  }

  /** A reachable manifest describes the blob with this size. */
  ghost predicate Describes(repo: Repository, root: Digest, m: Digest, d: Descriptor) {
    IsManifest(repo, root, m) && m in repo && ListsBlob(repo[m].payload, d)
  }

  ghost predicate IsBlob(repo: Repository, root: Digest, x: Digest) {
    exists m, d :: Describes(repo, root, m, d) && d.digest == x
  }

  /** A manifest that can be fetched, or a blob some reachable manifest lists. */
  ghost predicate IsReachable(repo: Repository, root: Digest, x: Digest) {
    (x in repo && IsManifest(repo, root, x)) || IsBlob(repo, root, x)
  }

  ghost function Manifests(repo: Repository, root: Digest): set<Digest> {
    set m | m in repo && IsManifest(repo, root, m)
  }

  ghost function Blobs(repo: Repository, root: Digest): (s: set<Digest>)
    ensures forall x :: x in s <==> IsBlob(repo, root, x)
  {
    var s := set m, b | m in Manifests(repo, root) && b in Digests(BlobDescriptors(repo[m].payload)) :: b;
    BlobsAre(repo, root, s);
    s
  }

  ghost function Reachable(repo: Repository, root: Digest): (s: set<Digest>)
    ensures forall x :: x in s <==> IsReachable(repo, root, x)
  {
    Manifests(repo, root) + Blobs(repo, root)
  }

  lemma BlobsAre(repo: Repository, root: Digest, s: set<Digest>)
    requires s == set m, b | m in Manifests(repo, root) && b in Digests(BlobDescriptors(repo[m].payload)) :: b
    ensures forall x :: x in s <==> IsBlob(repo, root, x)
  {
    hide IsManifest, BlobDescriptors, ListsBlob;
    forall m | m in repo
      ensures forall d :: d in BlobDescriptors(repo[m].payload) && d.Descriptor? <==> ListsBlob(repo[m].payload, d)
    {
      DescriptorsAreListed(repo[m].payload);
    }
    forall x
      ensures x in s <==> IsBlob(repo, root, x)
    {
      forall m | m in Manifests(repo, root) && x in Digests(BlobDescriptors(repo[m].payload))
        ensures IsBlob(repo, root, x)
      {
        var d :| d in BlobDescriptors(repo[m].payload) && d.Descriptor? && d.digest == x;
        assert Describes(repo, root, m, d);
      }
      forall m, d | Describes(repo, root, m, d) && d.digest == x
        ensures x in s
      {
        assert d in BlobDescriptors(repo[m].payload);
        assert x in Digests(BlobDescriptors(repo[m].payload));
      }
    }
  }

  /** Each digest is used either as a manifest or as a blob, and with one size: `weight` is the
      manifest's length or the blob's declared size. */
  ghost predicate Consistent(repo: Repository, root: Digest, weight: map<Digest, nat>) {
    && (forall m | m in repo && IsManifest(repo, root, m) :: m in weight && weight[m] == repo[m].length)
    && (forall m, d | Describes(repo, root, m, d) ::
          !IsManifest(repo, root, d.digest) && d.digest in weight && (d.size.Some? ==> d.size.value == weight[d.digest]))
  }

  predicate GoodDescriptors(ds: seq<Descriptor>) {
    forall d | d in ds :: d.Descriptor?
  }

  /** At most 16 MiB, of the digest it is asked for, of a supported kind, and with a digest in
      every entry. */
  predicate Sound(repo: Repository, m: Digest) {
    && m in repo && repo[m].length <= 16_777_216 && repo[m].sha256 == m && repo[m].payload.Payload?
    && var p := repo[m].payload;
    if p.manifests.Some? then GoodDescriptors(p.manifests.value)
    else
      && (p.config.Some? || p.layers.Some? || p.blobs.Some?)
      && (p.config.Some? ==> p.config.value.Descriptor?) && (p.layers.Some? ==> GoodDescriptors(p.layers.value))
      && (p.blobs.Some? ==> GoodDescriptors(p.blobs.value))
  }

  /** Sound, with a size for every blob. */
  ghost predicate GoodManifest(repo: Repository, m: Digest) {
    Sound(repo, m) && forall d | ListsBlob(repo[m].payload, d) :: d.size.Some? && d.size.value >= 0
  }

  /** Every reachable manifest can be fetched and is well formed. */
  ghost predicate WellFormed(repo: Repository, root: Digest) {
    forall m | IsManifest(repo, root, m) :: GoodManifest(repo, m)
  }

  lemma RootIsManifest(repo: Repository, root: Digest)
    ensures IsManifest(repo, root, root)
  {
    assert IsPath(repo, [root]);
  }

  lemma ChildIsManifest(repo: Repository, root: Digest, m: Digest, c: Digest)
    requires IsManifest(repo, root, m) && m in repo && c in Digests(IndexDescriptors(repo[m].payload))
    ensures IsManifest(repo, root, c)
  {
    var p :| IsPath(repo, p) && p[0] == root && p[|p| - 1] == m;
    var q := p + [c];
    DescriptorsAreListed(repo[m].payload);
    assert IsPath(repo, q);
  }

  // ---------------------------------------------------------------- sums

  ghost function Sum(s: set<Digest>, weight: map<Digest, nat>): nat
    requires s <= weight.Keys
  {
    if s == {} then 0 else
      var x :| x in s;
      weight[x] + Sum(s - {x}, weight)
  }

  lemma {:induction false} SumRemove(s: set<Digest>, x: Digest, weight: map<Digest, nat>)
    requires s <= weight.Keys && x in s
    ensures Sum(s, weight) == weight[x] + Sum(s - {x}, weight)
  {
    var y :| y in s && Sum(s, weight) == weight[y] + Sum(s - {y}, weight);
    if y != x {
      SumRemove(s - {y}, x, weight);
      SumRemove(s - {x}, y, weight);
      assert s - {y} - {x} == s - {x} - {y};
    }
  }

  lemma {:induction false} SumAgrees(s: set<Digest>, a: map<Digest, nat>, b: map<Digest, nat>)
    requires s <= a.Keys && s <= b.Keys && forall x | x in s :: a[x] == b[x]
    ensures Sum(s, a) == Sum(s, b)
  {
    if s != {} {
      var x :| x in s;
      SumRemove(s, x, a);
      SumRemove(s, x, b);
      SumAgrees(s - {x}, a, b);
    }
  }

  lemma SumInsert(counted: map<Digest, nat>, x: Digest, n: nat)
    requires x !in counted
    ensures Sum(counted[x := n].Keys, counted[x := n]) == Sum(counted.Keys, counted) + n
  {
    var more := counted[x := n];
    SumRemove(more.Keys, x, more);
    assert more.Keys - {x} == counted.Keys;
    SumAgrees(counted.Keys, counted, more);
  }

  // ---------------------------------------------------------------- what a walk establishes

  /** Every counted digest is a fetched manifest counted by its length, or a blob counted by a
      size some reachable manifest declares for it. */
  ghost predicate CountedRight(repo: Repository, root: Digest, fetched: seq<Digest>, counted: map<Digest, nat>) {
    forall x | x in counted ::
      || (x in fetched && x in repo && counted[x] == repo[x].length)
      || (exists m :: Describes(repo, root, m, Descriptor(x, Some(counted[x]))))
  }

  ghost predicate FetchedRight(repo: Repository, root: Digest, fetched: seq<Digest>, counted: map<Digest, nat>) {
    && (forall i, j | 0 <= i < j < |fetched| :: fetched[i] != fetched[j])
    && (forall m | m in fetched :: IsManifest(repo, root, m))
  }

  /** A completed walk: the root is fetched, and so is everything its manifests mention seen. */
  ghost predicate Explored(repo: Repository, root: Digest, fetched: seq<Digest>, counted: map<Digest, nat>) {
    && CountedRight(repo, root, fetched, counted) && FetchedRight(repo, root, fetched, counted)
    && root in fetched
    && (forall m | m in fetched :: m in counted && Walked(repo, m, counted.Keys))
  }

  /** A manifest was accepted, and everything it mentions is seen. */
  ghost predicate Walked(repo: Repository, m: Digest, seen: set<Digest>) {
    Sound(repo, m) && Children(repo[m]) <= seen
  }

  lemma {:induction false} PathIsFetched(repo: Repository, root: Digest, weight: map<Digest, nat>,
                                         fetched: seq<Digest>, counted: map<Digest, nat>, p: seq<Digest>)
    requires Explored(repo, root, fetched, counted) && Consistent(repo, root, weight)
    requires IsPath(repo, p) && p[0] == root
    ensures p[|p| - 1] in fetched
  {
    if |p| > 1 {
      var q := p[..|p| - 1];
      assert IsPath(repo, q);
      PathIsFetched(repo, root, weight, fetched, counted, q);
      var m, c := q[|q| - 1], p[|p| - 1];
      DescriptorsAreListed(repo[m].payload);
      assert c in Children(repo[m]);
      ChildIsManifest(repo, root, m, c);
    }
  }

  lemma FetchedAreManifests(repo: Repository, root: Digest, weight: map<Digest, nat>, fetched: seq<Digest>, counted: map<Digest, nat>)
    requires Explored(repo, root, fetched, counted) && Consistent(repo, root, weight)
    ensures (set m | m in fetched) == Manifests(repo, root)
    ensures forall m | IsManifest(repo, root, m) :: m in fetched
  {
    forall m | IsManifest(repo, root, m)
      ensures m in fetched
    {
      var p :| IsPath(repo, p) && p[0] == root && p[|p| - 1] == m;
      PathIsFetched(repo, root, weight, fetched, counted, p);
    }
  }

  /** On a consistent graph a completed walk has counted exactly the reachable digests, each
      with its weight. */
  lemma ExploredIsExact(repo: Repository, root: Digest, weight: map<Digest, nat>, fetched: seq<Digest>, counted: map<Digest, nat>)
    requires Explored(repo, root, fetched, counted) && Consistent(repo, root, weight)
    ensures counted.Keys == Reachable(repo, root)
    ensures Reachable(repo, root) <= weight.Keys
    ensures Sum(counted.Keys, counted) == Sum(Reachable(repo, root), weight)
  {
    FetchedAreManifests(repo, root, weight, fetched, counted);
    forall x | x in counted
      ensures x in Reachable(repo, root) && x in weight && counted[x] == weight[x]
    {
      if !(x in fetched && x in repo && counted[x] == repo[x].length) {
        var m :| Describes(repo, root, m, Descriptor(x, Some(counted[x])));
        assert IsReachable(repo, root, x);
      }
    }
    forall x | x in Reachable(repo, root)
      ensures x in counted
    {
      if x !in Manifests(repo, root) {
        var m, d :| Describes(repo, root, m, d) && d.digest == x;
        DescriptorsAreListed(repo[m].payload);
        assert m in Manifests(repo, root) && m in fetched && x in Children(repo[m]);
      }
    }
    SumAgrees(counted.Keys, counted, weight);
  }

  lemma {:induction false} DistinctCount(s: seq<Digest>)
    requires forall i, j | 0 <= i < j < |s| :: s[i] != s[j]
    ensures |set x | x in s| == |s|
  {
    if s != [] {
      var init := s[..|s| - 1];
      DistinctCount(init);
      assert (set x | x in s) == (set x | x in init) + {s[|s| - 1]} by {
        assert s == init + [s[|s| - 1]];
      }
    }
  }

  lemma SubsetCount(a: set<Digest>, b: set<Digest>)
    requires a <= b
    ensures |a| <= |b|
  {
    assert b == a + (b - a);
  }

  lemma BudgetExceeded(repo: Repository, root: Digest, fetched: seq<Digest>, counted: map<Digest, nat>)
    requires WellFormed(repo, root) && FetchedRight(repo, root, fetched, counted) && |fetched| == MAX_MANIFESTS + 1
    ensures |Manifests(repo, root)| > MAX_MANIFESTS
  {
    hide IsManifest;
    DistinctCount(fetched);
    SubsetCount((set m | m in fetched), Manifests(repo, root));
  }

  // ---------------------------------------------------------------- the walk

  class Estimator {
    const repo: Repository
    const root: Digest
    var seen: set<Digest>
    var manifestsSeen: nat
    /** Digests handed to a visit so far, and what each seen digest was counted as. */
    ghost var entered: seq<Digest>
    ghost var counted: map<Digest, nat>

    constructor (repo: Repository, root: Digest)
      ensures this.repo == repo && this.root == root && seen == {} && manifestsSeen == 0
      ensures entered == [] && counted == map[]
    {
      this.repo, this.root, seen, manifestsSeen := repo, root, {}, 0;
      entered, counted := [], map[];
    }

    ghost predicate Valid()
      reads this
    {
      && seen == counted.Keys && manifestsSeen == |entered| <= MAX_MANIFESTS
      && (forall m | m in entered :: m in seen)
      && CountedRight(repo, root, entered, counted) && FetchedRight(repo, root, entered, counted)
    }

    /** The part of a failed walk that matters: on a well-formed graph only the budget fails,
        and then 257 different manifests have been asked for. */
    ghost predicate OverBudget()
      reads this
    {
      FetchedRight(repo, root, entered, counted) && |entered| == MAX_MANIFESTS + 1
    }

    ghost function Counted(): nat
      reads this
    {
      Sum(counted.Keys, counted)
    }

    /** Counts one blob of a fetched manifest, the first time it is seen. */
    method CountBlob(m: Digest, d: Descriptor) returns (r: Result<nat>)
      requires Valid() && m in entered && m in repo && d in BlobDescriptors(repo[m].payload)
      modifies this`seen, this`counted
      ensures r.Success? ==> Valid() && old(counted).Keys <= counted.Keys && d.Descriptor? && d.digest in seen
      ensures r.Success? ==> Counted() == old(Counted()) + r.value
      ensures GoodManifest(repo, m) ==> r.Success?
    {
      if !d.Descriptor? {
        return Failure;
      }
      if d.digest in seen {
        return Success(0);
      }
      if d.size.None? || d.size.value < 0 {
        return Failure;
      }
      SumInsert(counted, d.digest, d.size.value);
      assert Describes(repo, root, m, Descriptor(d.digest, Some(d.size.value)));
      seen := seen + {d.digest};
      counted := counted[d.digest := d.size.value];
      r := Success(d.size.value);
    }

    /** Counts every blob of a fetched manifest that was not seen before. */
    method CountBlobs(m: Digest, descriptors: seq<Descriptor>) returns (r: Result<nat>)
      requires Valid() && m in entered && m in repo && descriptors == BlobDescriptors(repo[m].payload)
      modifies this`seen, this`counted
      ensures r.Success? ==> Valid() && old(counted).Keys <= counted.Keys && Digests(descriptors) <= seen
      ensures r.Success? ==> GoodDescriptors(descriptors) && forall d | ListsBlob(repo[m].payload, d) :: d.digest in seen
      ensures r.Success? ==> Counted() == old(Counted()) + r.value
      ensures GoodManifest(repo, m) ==> r.Success?
    {
      hide CountedRight, FetchedRight, Sum, BlobDescriptors, GoodManifest, ListsBlob;
      DescriptorsAreListed(repo[m].payload);
      var total: nat := 0;
      for i := 0 to |descriptors|
        invariant Valid() && old(counted).Keys <= counted.Keys
        invariant forall k | 0 <= k < i :: descriptors[k].Descriptor? && descriptors[k].digest in seen
        invariant Counted() == old(Counted()) + total
      {
        var one := CountBlob(m, descriptors[i]);
        if one.Failure? {
          return Failure;
        }
        total := total + one.value;
      }
      r := Success(total);
    }

    /** Fetches and checks a manifest within the budget, and counts its length. */
    method Fetch(digest: Digest) returns (r: Result<nat>)
      requires Valid() && digest !in seen && IsManifest(repo, root, digest)
      modifies this
      ensures entered == old(entered) + [digest] && manifestsSeen == old(manifestsSeen) + 1
      ensures r.Success? ==> Valid() && seen == old(seen) + {digest} && counted.Keys == seen && old(counted).Keys <= counted.Keys
      ensures r.Success? ==> digest in repo && repo[digest].length <= 16_777_216 && repo[digest].sha256 == digest
      ensures r.Success? ==> repo[digest].payload.Payload? && Counted() == old(Counted()) + r.value
      ensures r.Failure? && GoodManifest(repo, digest) ==> OverBudget()
    {
      manifestsSeen := manifestsSeen + 1;
      entered := entered + [digest];
      if manifestsSeen > MAX_MANIFESTS {
        return Failure;
      }
      if digest !in repo || repo[digest].length > MAX_MANIFEST_BYTES || repo[digest].sha256 != digest
         || repo[digest].payload.Undecodable? {
        return Failure;
      }
      SumInsert(counted, digest, repo[digest].length);
      seen := seen + {digest};
      counted := counted[digest := repo[digest].length];
      r := Success(repo[digest].length);
    }

    /** Visits a manifest not seen before, and through an index everything below it. */
    method Visit(digest: Digest) returns (r: Result<nat>)
      requires Valid() && digest !in seen && IsManifest(repo, root, digest)
      modifies this
      decreases MAX_MANIFESTS + 1 - manifestsSeen, 1
      ensures r.Success? ==> Valid() && old(counted).Keys <= counted.Keys && old(manifestsSeen) < manifestsSeen
      ensures r.Success? ==> old(entered) + [digest] <= entered && digest in seen
      ensures r.Success? ==> forall m | m in entered && m !in old(entered) :: Walked(repo, m, seen)
      ensures r.Success? ==> Counted() == old(Counted()) + r.value
      ensures r.Failure? && WellFormed(repo, root) ==> OverBudget()
    {
      hide CountedRight, FetchedRight, Sum, OverBudget, IsManifest;
      r := Fetch(digest);
      if r.Failure? {
        return;
      }
      var payload, size := repo[digest].payload, r.value;
      if payload.manifests.Some? {
        r := VisitChildren(digest, payload.manifests.value);
      } else if payload.config.None? && payload.layers.None? && payload.blobs.None? {
        return Failure;
      } else {
        r := CountBlobs(digest, BlobDescriptors(payload));
      }
      if r.Success? {
        r := Success(size + r.value);
      }
    }

    lemma BadIndexEntry(m: Digest, d: Descriptor)
      requires m in repo && d in IndexDescriptors(repo[m].payload) && !d.Descriptor? && IsManifest(repo, root, m)
      ensures !WellFormed(repo, root)
    {
      assert !GoodManifest(repo, m);
    }

    method VisitChildren(m: Digest, descriptors: seq<Descriptor>) returns (r: Result<nat>)
      requires Valid() && m in entered && m in repo && IsManifest(repo, root, m) && descriptors == IndexDescriptors(repo[m].payload)
      modifies this
      decreases MAX_MANIFESTS + 1 - manifestsSeen, 2, 0
      ensures r.Success? ==> Valid() && old(counted).Keys <= counted.Keys && old(manifestsSeen) <= manifestsSeen
      ensures r.Success? ==> old(entered) <= entered && Digests(descriptors) <= seen && GoodDescriptors(descriptors)
      ensures r.Success? ==> forall x | x in entered && x !in old(entered) :: Walked(repo, x, seen)
      ensures r.Success? ==> Counted() == old(Counted()) + r.value
      ensures r.Failure? && WellFormed(repo, root) ==> OverBudget()
    {
      hide CountedRight, FetchedRight, Sum, BlobDescriptors, GoodManifest, IsManifest, Children, OverBudget;
      var total: nat := 0;
      for i := 0 to |descriptors|
        invariant Valid() && old(counted).Keys <= counted.Keys && old(manifestsSeen) <= manifestsSeen
        invariant old(entered) <= entered
        invariant forall x | x in entered && x !in old(entered) :: Walked(repo, x, seen)
        invariant forall k | 0 <= k < i :: descriptors[k].Descriptor? && descriptors[k].digest in seen
        invariant Counted() == old(Counted()) + total
      {
        var d := descriptors[i];
        if !d.Descriptor? {
          BadIndexEntry(m, d);
          return Failure;
        }
        if d.digest !in seen {
          ChildIsManifest(repo, root, m, d.digest);
          var one := Visit(d.digest);
          if one.Failure? {
            return Failure;
          }
          total := total + one.value;
        }
      }
      r := Success(total);
    }
  }

  /** Estimates the size of a source image named by digest. On a consistent graph a result is
      exactly the sum over the reachable digests, with each reachable manifest fetched exactly
      once and sound; on a well-formed one it succeeds exactly when at most 256 manifests are
      reachable. */
  method EstimateSize(repo: Repository, root: Digest, ghost weight: map<Digest, nat>)
    returns (r: Result<nat>, ghost fetched: seq<Digest>)
    ensures r.Success? && Consistent(repo, root, weight) ==>
              Reachable(repo, root) <= weight.Keys && r.value == Sum(Reachable(repo, root), weight)
    ensures forall x :: x in Reachable(repo, root) <==> IsReachable(repo, root, x)
    ensures r.Success? && Consistent(repo, root, weight) ==>
              (set m | m in fetched) == Manifests(repo, root) && |fetched| == |Manifests(repo, root)|
    ensures r.Success? && Consistent(repo, root, weight) ==> forall m | IsManifest(repo, root, m) :: Sound(repo, m)
    ensures r.Success? ==> forall m | m in fetched :: Sound(repo, m)
    ensures WellFormed(repo, root) && Consistent(repo, root, weight) ==>
              (r.Success? <==> |Manifests(repo, root)| <= 256)
  {
    hide Consistent, Reachable, Manifests, WellFormed, IsManifest;
    var walk := new Estimator(repo, root);
    RootIsManifest(repo, root);
    r := walk.Visit(root);
    fetched := walk.entered;
    if r.Success? {
      assert fetched[0] == root;
      assert Explored(repo, root, fetched, walk.counted);
      DistinctCount(fetched);
      if Consistent(repo, root, weight) {
        ExploredIsExact(repo, root, weight, fetched, walk.counted);
        FetchedAreManifests(repo, root, weight, fetched, walk.counted);
      }
    } else if WellFormed(repo, root) {
      BudgetExceeded(repo, root, fetched, walk.counted);
    }
  }
}
