/** The container ownership journal of githarbor/services/containers.py as values: the
    destination tag map, the journal rows, what mirroring one version does to them, and the
    safety properties of that step. ContainerMirror.dfy proves that the code makes these steps. */
module ContainerJournal {
  import opened Wrappers
  import opened ContainerTags

  // ---------------------------------------------------------------- data model

  datatype Mode = All | Latest

  datatype SourceVersion = SourceVersion(id: int, digest: Digest, tags: seq<Tag>, createdAt: int)

  /** A Gitea package version: its id, and the manifest its tag resolves to. */
  datatype Entry = Entry(id: nat, digest: Digest)

  /** The destination package. Keys of `tags` are folded; a new digest gets a fresh id. */
  datatype Dest = Dest(tags: map<Tag, Entry>, manifests: set<Digest>, nextId: nat, link: Option<string>)

  datatype State = Pending | Complete

  /** A journal row. Id 0 is an intention; a positive id is an owned Gitea version. */
  datatype Record = Record(package: int, digest: Digest, versions: map<Tag, nat>, state: State)

  /** Journal rows of one repository by GitHub version id. */
  type Journal = map<int, Record>

  datatype World = World(dest: Dest, journal: Journal)

  /** One version to mirror: its identity and the destination tags, in copying order. */
  datatype Job = Job(package: int, id: int, digest: Digest, tags: seq<Tag>)

  /** How an operation ends: without a warning, with one, or by an exception or process stop. */
  datatype Outcome = Clean | Warned | Interrupted

  // ---------------------------------------------------------------- operations

  function SourceTags(mode: Mode, v: SourceVersion): seq<Tag> {
    v.tags + if mode.All? then [PreservationTag(v.digest)] else []
  }

  function Plan(mode: Mode, package: int, v: SourceVersion): Job {
    Job(package, v.id, v.digest, SortTags(Dedupe(SourceTags(mode, v))))
  }

  function Records(j: Journal, package: int): Journal {
    map v | v in j && j[v].package == package :: j[v]
  }

  function OwnedIds(records: Journal): set<nat> {
    set v, t | v in records && t in records[v].versions && records[v].versions[t] > 0 :: records[v].versions[t]
  }

  predicate Resolves(d: Dest, u: Tag, g: Digest) {
    u in d.tags && d.tags[u].digest == g
  }

  function Put(d: Dest, u: Tag, g: Digest): Dest {
    d.(tags := d.tags[u := Entry(d.nextId, g)], manifests := d.manifests + {g}, nextId := d.nextId + 1)
  }

  /** Copying a tag writes it only when it does not already resolve to the digest. */
  function CopyTag(d: Dest, t: Tag, g: Digest): Dest {
    if Resolves(d, Fold(t), g) then d else Put(d, Fold(t), g)
  }

  function CopyTags(d: Dest, tags: seq<Tag>, g: Digest): Dest {
    if tags == [] then d else CopyTag(CopyTags(d, tags[..|tags| - 1], g), tags[|tags| - 1], g)
  }

  function WithIntentions(versions: map<Tag, nat>, tags: seq<Tag>): map<Tag, nat> {
    versions + map t | t in tags && t !in versions :: 0
  }

  function PreparedRecord(j: Journal, job: Job): Record {
    if job.id in j then j[job.id].(versions := WithIntentions(j[job.id].versions, job.tags), state := Pending)
    else Record(job.package, job.digest, WithIntentions(map[], job.tags), Pending)
  }

  function Prepared(j: Journal, job: Job): Journal {
    j[job.id := PreparedRecord(j, job)]
  }

  function ExactVersions(d: Dest, tags: seq<Tag>): map<Tag, nat>
    requires Folds(tags) <= d.tags.Keys
  {
    map t | t in tags :: (assert Fold(t) in Folds(tags); d.tags[Fold(t)].id)
  }

  /** The collision rule for one tag: free, owned by the package's journal, or the
      still-pending intention of this very version with its digest already in place. */
  predicate TagAdmitted(w: World, job: Job, t: Tag) {
    var u := Fold(t);
    || u !in w.dest.tags
    || w.dest.tags[u].id in OwnedIds(Records(w.journal, job.package))
    || (&& job.id in w.journal && w.journal[job.id].state == Pending
        && t in w.journal[job.id].versions && w.journal[job.id].versions[t] == 0
        && w.dest.tags[u].digest == job.digest)
  }

  predicate Admitted(w: World, job: Job) {
    forall t | t in job.tags :: TagAdmitted(w, job, t)
  }

  /** A stored row for this version must agree with GitHub's immutable identity. */
  predicate IdentityMatches(j: Journal, job: Job) {
    job.id in j ==> j[job.id].package == job.package && j[job.id].digest == job.digest
  }

  predicate MayStart(w: World, job: Job) {
    FoldDistinct(job.tags) && Admitted(w, job) && IdentityMatches(w.journal, job)
  }

  /** The world after the journal entry is written and the first `k` tags are copied. */
  function Attempt(w: World, job: Job, k: nat): World
    requires k <= |job.tags|
  {
    World(CopyTags(w.dest, job.tags[..k], job.digest), Prepared(w.journal, job))
  }

  /** The world after an undisturbed mirror of the version. */
  function Finished(w: World, job: Job): World {
    var d := CopyTags(w.dest, job.tags, job.digest);
    CopyTagsKeys(w.dest, job.tags, job.digest);
    World(d, w.journal[job.id := Record(PreparedRecord(w.journal, job).package, PreparedRecord(w.journal, job).digest,
                                        ExactVersions(d, job.tags), Complete)])
  }

  predicate SameUpToLink(w: World, x: World) {
    w.dest.(link := None) == x.dest.(link := None) && w.journal == x.journal
  }

  /** Everything mirroring one version may do, whatever call fails and wherever it stops. */
  ghost predicate VersionStep(job: Job, w: World, r: Outcome, w': World) {
    || (r != Clean && w' == w)
    || (r != Clean && MayStart(w, job) && exists k: nat :: AttemptedUpTo(job, w, w', k))
    || (r == Clean && MayStart(w, job) && SameUpToLink(w', Finished(w, job)))
  }

  ghost predicate AttemptedUpTo(job: Job, w: World, w': World, k: nat) {
    k <= |job.tags| && SameUpToLink(w', Attempt(w, job, k))
  }

  // ---------------------------------------------------------------- invariants

  ghost predicate ValidDest(d: Dest) {
    && d.nextId > 0
    && (forall u | u in d.tags :: Fold(u) == u)
    && (forall u | u in d.tags :: 0 < d.tags[u].id < d.nextId && d.tags[u].digest in d.manifests)
    && (forall u, x | u in d.tags && x in d.tags && d.tags[u].id == d.tags[x].id :: u == x)
  }

  /** A recorded positive id was allocated for that tag and digest, and never changes meaning. */
  ghost predicate RecordValid(d: Dest, r: Record) {
    && (forall t | t in r.versions :: r.versions[t] == 0 || r.versions[t] < d.nextId)
    && (forall t, u | t in r.versions && u in d.tags && d.tags[u].id == r.versions[t] ::
          u == Fold(t) && d.tags[u].digest == r.digest)
  }

  ghost predicate Valid(w: World, package: int) {
    ValidDest(w.dest) && forall v | v in Records(w.journal, package) :: RecordValid(w.dest, w.journal[v])
  }

  // ---------------------------------------------------------------- copying tags

  lemma {:induction false} CopyTagsKeys(d: Dest, tags: seq<Tag>, g: Digest)
    ensures CopyTags(d, tags, g).tags.Keys == d.tags.Keys + Folds(tags)
  {
    if tags != [] {
      CopyTagsKeys(d, tags[..|tags| - 1], g);
      FoldsSnoc(tags);
    }
  }

  lemma FoldsSnoc(tags: seq<Tag>)
    requires tags != []
    ensures Folds(tags) == Folds(tags[..|tags| - 1]) + {Fold(tags[|tags| - 1])}
  {
    assert tags == tags[..|tags| - 1] + [tags[|tags| - 1]];
    assert forall t :: t in tags <==> t in tags[..|tags| - 1] || t == tags[|tags| - 1];
  }

  /** What copying a list of tags does: every listed tag resolves to the digest, a tag already
      there keeps its id, a rewritten one gets a fresh id, and no other tag changes. */
  lemma {:induction false} CopyTagsEffect(d: Dest, tags: seq<Tag>, g: Digest)
    ensures var d' := CopyTags(d, tags, g);
            && d'.tags.Keys == d.tags.Keys + Folds(tags)
            && (forall u | u in d.tags && u !in Folds(tags) :: d'.tags[u] == d.tags[u])
            && (forall u | u in Folds(tags) :: d'.tags[u].digest == g)
            && (forall u | u in Folds(tags) && Resolves(d, u, g) :: d'.tags[u] == d.tags[u])
            && (forall u | u in Folds(tags) && !Resolves(d, u, g) :: d.nextId <= d'.tags[u].id < d'.nextId)
            && d.nextId <= d'.nextId && d'.link == d.link
  {
    if tags != [] {
      CopyTagsEffect(d, tags[..|tags| - 1], g);
      FoldsSnoc(tags);
    }
  }

  lemma CopyTagValid(d: Dest, t: Tag, g: Digest)
    requires ValidDest(d)
    ensures ValidDest(CopyTag(d, t, g))
  {
    FoldIdempotent(t);
  }

  lemma {:induction false} CopyTagsValid(d: Dest, tags: seq<Tag>, g: Digest)
    requires ValidDest(d)
    ensures ValidDest(CopyTags(d, tags, g))
  {
    if tags != [] {
      CopyTagsValid(d, tags[..|tags| - 1], g);
      CopyTagValid(CopyTags(d, tags[..|tags| - 1], g), tags[|tags| - 1], g);
    }
  }

  /** Tags already at the digest are not written again. */
  lemma {:induction false} CopyTagsNothing(d: Dest, tags: seq<Tag>, g: Digest)
    requires forall u | u in Folds(tags) :: Resolves(d, u, g)
    ensures CopyTags(d, tags, g) == d
  {
    if tags != [] {
      FoldsSnoc(tags);
      CopyTagsNothing(d, tags[..|tags| - 1], g);
    }
  }

  lemma {:induction false} CopyTagsAppend(d: Dest, a: seq<Tag>, b: seq<Tag>, g: Digest)
    ensures CopyTags(d, a + b, g) == CopyTags(CopyTags(d, a, g), b, g)
  {
    if b == [] {
      assert a + b == a;
    } else {
      assert (a + b)[..|a + b| - 1] == a + b[..|b| - 1];
      CopyTagsAppend(d, a, b[..|b| - 1], g);
    }
  }

  lemma PlannedMembers(mode: Mode, package: int, v: SourceVersion)
    ensures forall t :: t in Plan(mode, package, v).tags <==> t in v.tags || (mode.All? && t == PreservationTag(v.digest))
  {
    SortedMembers(Dedupe(SourceTags(mode, v)));
  }

  lemma PrefixFolds(tags: seq<Tag>, k: nat)
    requires k <= |tags|
    ensures Folds(tags[..k]) <= Folds(tags)
  {
    assert forall t | t in tags[..k] :: t in tags;
  }

  // ---------------------------------------------------------------- validity is kept

  lemma OwnedIdsMonotone(a: Journal, b: Journal)
    requires forall x, t | x in a && t in a[x].versions && a[x].versions[t] > 0 ::
               x in b && t in b[x].versions && b[x].versions[t] == a[x].versions[t]
    ensures OwnedIds(a) <= OwnedIds(b)
  {
    forall id | id in OwnedIds(a)
      ensures id in OwnedIds(b)
    {
      var x, t :| x in a && t in a[x].versions && a[x].versions[t] > 0 && a[x].versions[t] == id;
      assert b[x].versions[t] == id;
    }
  }

  /** Writing the journal entry neither adds nor drops an owned id. */
  lemma PreparedOwnsTheSame(j: Journal, job: Job)
    requires IdentityMatches(j, job)
    ensures OwnedIds(Records(Prepared(j, job), job.package)) == OwnedIds(Records(j, job.package))
  {
    OwnedIdsMonotone(Records(j, job.package), Records(Prepared(j, job), job.package));
    OwnedIdsMonotone(Records(Prepared(j, job), job.package), Records(j, job.package));
  }

  lemma PreparedTwice(j: Journal, job: Job)
    ensures PreparedRecord(Prepared(j, job), job) == PreparedRecord(j, job)
  {
    var versions := PreparedRecord(j, job).versions;
    assert WithIntentions(versions, job.tags) == versions;
  }

  lemma AttemptRecordValid(d: Dest, tags: seq<Tag>, g: Digest, r: Record, r': Record)
    requires ValidDest(d) && RecordValid(d, r) && r'.digest == r.digest
    requires forall t | t in r'.versions :: r'.versions[t] == 0 || (t in r.versions && r.versions[t] == r'.versions[t])
    ensures RecordValid(CopyTags(d, tags, g), r')
  {
    CopyTagsEffect(d, tags, g);
    CopyTagsValid(d, tags, g);
    hide CopyTags, Folds, Fold;
  }

  lemma AttemptValid(w: World, job: Job, k: nat)
    requires Valid(w, job.package) && MayStart(w, job) && k <= |job.tags|
    ensures Valid(Attempt(w, job, k), job.package)
  {
    var w' := Attempt(w, job, k);
    CopyTagsValid(w.dest, job.tags[..k], job.digest);
    forall x | x in Records(w'.journal, job.package)
      ensures RecordValid(w'.dest, w'.journal[x])
    {
      var r := if x in w.journal then w.journal[x] else Record(job.package, job.digest, map[], Pending);
      assert x in w.journal ==> x in Records(w.journal, job.package);
      AttemptRecordValid(w.dest, job.tags[..k], job.digest, r, w'.journal[x]);
    }
  }

  lemma FinishedRecordValid(d: Dest, job: Job, r: Record)
    requires ValidDest(d) && Folds(job.tags) <= d.tags.Keys && r.versions == ExactVersions(d, job.tags)
    requires forall u | u in Folds(job.tags) :: d.tags[u].digest == r.digest
    ensures RecordValid(d, r)
  {
    assert forall t | t in job.tags :: Fold(t) in Folds(job.tags);
  }

  lemma RowReplacedValid(w: World, package: int, id: int, r: Record)
    requires Valid(w, package) && RecordValid(w.dest, r)
    ensures Valid(World(w.dest, w.journal[id := r]), package)
  {
    var j' := w.journal[id := r];
    forall x | x in Records(j', package)
      ensures RecordValid(w.dest, j'[x])
    {
      assert x != id ==> x in Records(w.journal, package);
    }
  }

  lemma FinishedFromAttempt(w: World, job: Job)
    ensures var a, f := Attempt(w, job, |job.tags|), Finished(w, job);
            f == World(a.dest, a.journal[job.id := f.journal[job.id]])
  {
    assert job.tags[..|job.tags|] == job.tags;
  }

  lemma FinishedValid(w: World, job: Job)
    requires Valid(w, job.package) && MayStart(w, job)
    ensures Valid(Finished(w, job), job.package)
  {
    AttemptValid(w, job, |job.tags|);
    FinishedFromAttempt(w, job);
    CopyTagsEffect(w.dest, job.tags, job.digest);
    var f := Finished(w, job);
    FinishedRecordValid(f.dest, job, f.journal[job.id]);
    RowReplacedValid(Attempt(w, job, |job.tags|), job.package, job.id, f.journal[job.id]);
  }

  /** Mirroring a version keeps ids unique, fresh and tied to their tag and digest. */
  lemma VersionStepValid(job: Job, w: World, r: Outcome, w': World)
    requires Valid(w, job.package) && VersionStep(job, w, r, w')
    ensures Valid(w', job.package)
  {
    if r == Clean {
      FinishedValid(w, job);
      SameUpToLinkValid(Finished(w, job), w', job.package);
    } else if w' != w {
      var k: nat :| AttemptedUpTo(job, w, w', k);
      AttemptValid(w, job, k);
      SameUpToLinkValid(Attempt(w, job, k), w', job.package);
    }
  }

  lemma SameUpToLinkValid(w: World, x: World, package: int)
    requires Valid(w, package) && SameUpToLink(x, w)
    ensures Valid(x, package)
  {
  }

  // ---------------------------------------------------------------- crash recovery

  /** The version's own row has no stale id: a tag it records with a positive id still
      resolves to the version's digest, so it will not be rewritten under that id. */
  predicate RetrySafe(w: World, job: Job) {
    job.id in w.journal ==>
      forall t | t in job.tags && t in w.journal[job.id].versions && w.journal[job.id].versions[t] > 0 ::
        Resolves(w.dest, Fold(t), job.digest)
  }

  /** Live recorded ids are enough: if every positive id in the row is the id its tag has
      at the destination, the row is retry safe. */
  lemma LiveIdsAreRetrySafe(w: World, job: Job)
    requires Valid(w, job.package) && IdentityMatches(w.journal, job)
    requires job.id in w.journal ==>
               forall t | t in w.journal[job.id].versions && w.journal[job.id].versions[t] > 0 ::
                 Fold(t) in w.dest.tags && w.dest.tags[Fold(t)].id == w.journal[job.id].versions[t]
    ensures RetrySafe(w, job)
  {
    if job.id in w.journal {
      assert job.id in Records(w.journal, job.package);
    }
  }

  lemma SameFoldSameTag(tags: seq<Tag>, t: Tag, k: nat)
    requires FoldDistinct(tags) && t in tags && k <= |tags| && Fold(t) in Folds(tags[..k])
    ensures t in tags[..k]
  {
    var x :| x in tags[..k] && Fold(x) == Fold(t);
    var i :| 0 <= i < k && tags[i] == x;
    var n :| 0 <= n < |tags| && tags[n] == t;
    assert i == n;
    assert tags[..k][i] == t;
  }

  lemma RetryAdmitsTag(w: World, job: Job, k: nat, t: Tag)
    requires Valid(w, job.package) && MayStart(w, job) && k <= |job.tags|
    requires RetrySafe(w, job) && t in job.tags
    ensures TagAdmitted(Attempt(w, job, k), job, t)
  {
    CopyTagsEffect(w.dest, job.tags[..k], job.digest);
    PreparedOwnsTheSame(w.journal, job);
    assert TagAdmitted(w, job, t);
  }

  /** The failing family: once a tag with a stale id has been rewritten, the retry is refused. */
  lemma StaleIdRefused(w: World, job: Job, i: nat)
    requires Valid(w, job.package) && MayStart(w, job) && i < |job.tags| && job.id in w.journal
    requires job.tags[i] in w.journal[job.id].versions && w.journal[job.id].versions[job.tags[i]] > 0
    requires !Resolves(w.dest, Fold(job.tags[i]), job.digest)
    ensures !Admitted(Attempt(w, job, i + 1), job)
  {
    var t, w' := job.tags[i], Attempt(w, job, i + 1);
    assert job.tags[..i + 1][i] == t;
    assert Fold(t) in Folds(job.tags[..i + 1]);
    CopyTagsEffect(w.dest, job.tags[..i + 1], job.digest);
    PreparedOwnsTheSame(w.journal, job);
    assert w.dest.nextId <= w'.dest.tags[Fold(t)].id;
    assert !TagAdmitted(w', job, t);
  }

  /** CRASH RECOVERY. However many tags an interrupted attempt had copied, the retry is let
      through at every interruption point exactly when the row held no stale id at the start. */
  lemma RetryAdmittedIff(w: World, job: Job)
    requires Valid(w, job.package) && MayStart(w, job)
    ensures RetrySafe(w, job) <==> forall k | 0 <= k <= |job.tags| :: MayStart(Attempt(w, job, k), job)
  {
    if RetrySafe(w, job) {
      forall k | 0 <= k <= |job.tags|
        ensures MayStart(Attempt(w, job, k), job)
      {
        forall t | t in job.tags
          ensures TagAdmitted(Attempt(w, job, k), job, t)
        {
          RetryAdmitsTag(w, job, k, t);
        }
      }
    } else {
      var t :| t in job.tags && t in w.journal[job.id].versions && w.journal[job.id].versions[t] > 0
               && !Resolves(w.dest, Fold(t), job.digest);
      var i :| 0 <= i < |job.tags| && job.tags[i] == t;
      StaleIdRefused(w, job, i);
      assert !MayStart(Attempt(w, job, i + 1), job);
    }
  }

  lemma CopyingResumes(d: Dest, tags: seq<Tag>, g: Digest, k: nat)
    requires k <= |tags|
    ensures CopyTags(CopyTags(d, tags[..k], g), tags, g) == CopyTags(d, tags, g)
  {
    var a, b := tags[..k], tags[k..];
    assert tags == a + b;
    CopyTagsAppend(d, a, b, g);
    CopyTagsAppend(CopyTags(d, a, g), a, b, g);
    CopyTagsEffect(d, a, g);
    CopyTagsNothing(CopyTags(d, a, g), a, g);
  }

  /** CRASH RECOVERY. Interrupting an attempt anywhere and then retrying it to the end leaves
      exactly the destination and journal that an uninterrupted attempt leaves. */
  lemma RetryReachesTheSameWorld(w: World, job: Job, k: nat)
    requires k <= |job.tags|
    ensures Finished(Attempt(w, job, k), job) == Finished(w, job)
  {
    CopyingResumes(w.dest, job.tags, job.digest, k);
    PreparedTwice(w.journal, job);
  }

  /** What a finished version looks like: every planned tag resolves to its digest, the row
      is complete and names exactly those tags with their destination ids. */
  lemma FinishedIsComplete(w: World, job: Job)
    requires IdentityMatches(w.journal, job)
    ensures var f := Finished(w, job);
            && job.id in f.journal && f.journal[job.id].state == Complete
            && f.journal[job.id].package == job.package && f.journal[job.id].digest == job.digest
            && (forall t :: t in f.journal[job.id].versions <==> t in job.tags)
            && (forall t | t in job.tags :: Resolves(f.dest, Fold(t), job.digest))
            && (forall t | t in job.tags :: f.journal[job.id].versions[t] == f.dest.tags[Fold(t)].id)
  {
    CopyTagsEffect(w.dest, job.tags, job.digest);
    assert forall t | t in job.tags :: Fold(t) in Folds(job.tags);
  }

  lemma LatestIsLast(tags: seq<Tag>, i: nat)
    requires FoldDistinct(tags) && LatestAtEnd(tags) && i < |tags| && IsLatest(tags[i])
    ensures i == |tags| - 1
  {
    var n := |tags| - 1;
    assert i < n ==> IsLatest(tags[n]);
  }

  /** A literal `latest` is switched last: an interrupted attempt that has already moved it
      has every other tag of the version in place. */
  lemma LatestMovesLast(mode: Mode, package: int, v: SourceVersion, w: World, k: nat, t: Tag)
    requires var job := Plan(mode, package, v);
             && FoldDistinct(job.tags) && k <= |job.tags| && t in job.tags && IsLatest(t)
             && !Resolves(w.dest, Fold(t), v.digest) && Resolves(Attempt(w, job, k).dest, Fold(t), v.digest)
    ensures var job := Plan(mode, package, v);
            forall x | x in job.tags :: Resolves(Attempt(w, job, k).dest, Fold(x), v.digest)
  {
    var tags := Plan(mode, package, v).tags;
    SortPutsLatestLast(Dedupe(SourceTags(mode, v)));
    hide Dedupe, SourceTags, SortTags;
    CopyTagsEffect(w.dest, tags[..k], v.digest);
    SameFoldSameTag(tags, t, k);
    var i :| 0 <= i < k && tags[i] == t;
    LatestIsLast(tags, i);
    assert tags[..k] == tags;
    assert forall x | x in tags :: Fold(x) in Folds(tags);
  }

  // ---------------------------------------------------------------- foreign tags

  /** A tag GitHarbor has no claim on: its id is in no row of the package, and no row holds
      a zero-id intention for it together with the digest it resolves to. */
  ghost predicate Foreign(w: World, package: int, u: Tag) {
    && u in w.dest.tags
    && w.dest.tags[u].id !in OwnedIds(Records(w.journal, package))
    && forall v, t | v in Records(w.journal, package) && t in w.journal[v].versions :: !Intends(w, v, t, u)
  }

  predicate Intends(w: World, v: int, t: Tag, u: Tag)
    requires v in w.journal && t in w.journal[v].versions
  {
    Fold(t) == u && w.journal[v].versions[t] == 0 && Resolves(w.dest, u, w.journal[v].digest)
  }

  ghost predicate StaysForeign(w: World, w': World, package: int, u: Tag) {
    u in w.dest.tags && u in w'.dest.tags && w'.dest.tags[u] == w.dest.tags[u] && Foreign(w', package, u)
  }

  ghost predicate ForeignKept(w: World, w': World, package: int) {
    forall u | Foreign(w, package, u) :: StaysForeign(w, w', package, u)
  }

  lemma ForeignKeptTransitive(a: World, b: World, c: World, package: int)
    requires ForeignKept(a, b, package) && ForeignKept(b, c, package)
    ensures ForeignKept(a, c, package)
  {
    forall u | Foreign(a, package, u)
      ensures StaysForeign(a, c, package, u)
    {
      assert StaysForeign(a, b, package, u);
      assert StaysForeign(b, c, package, u);
    }
  }

  lemma PlanAvoidsForeign(w: World, job: Job, u: Tag)
    requires MayStart(w, job) && Foreign(w, job.package, u)
    ensures u !in Folds(job.tags)
  {
    forall t | t in job.tags
      ensures Fold(t) != u
    {
      assert TagAdmitted(w, job, t);
      assert job.id in w.journal ==> job.id in Records(w.journal, job.package);
      assert job.id in w.journal && t in w.journal[job.id].versions ==> !Intends(w, job.id, t, u);
    }
  }

  lemma AttemptKeepsForeign(w: World, job: Job, k: nat, u: Tag)
    requires MayStart(w, job) && k <= |job.tags| && Foreign(w, job.package, u)
    ensures StaysForeign(w, Attempt(w, job, k), job.package, u)
  {
    var w' := Attempt(w, job, k);
    PlanAvoidsForeign(w, job, u);
    PrefixFolds(job.tags, k);
    CopyTagsEffect(w.dest, job.tags[..k], job.digest);
    PreparedOwnsTheSame(w.journal, job);
    forall v, t | v in Records(w'.journal, job.package) && t in w'.journal[v].versions
      ensures !Intends(w', v, t, u)
    {
      if v in w.journal && t in w.journal[v].versions {
        assert v in Records(w.journal, job.package);
        assert !Intends(w, v, t, u);
      } else {
        assert Fold(t) in Folds(job.tags);
      }
    }
  }

  /** The ids a completed row records are not the foreign tag's. */
  lemma CompletionIds(w: World, job: Job, u: Tag)
    requires Valid(w, job.package) && MayStart(w, job) && Foreign(w, job.package, u)
    ensures var w' := Finished(w, job);
            u in w'.dest.tags && job.id in w'.journal
            && forall t | t in job.tags :: Fold(t) != u && t in w'.journal[job.id].versions && 0 < w'.journal[job.id].versions[t] != w'.dest.tags[u].id
  {
    PlanAvoidsForeign(w, job, u);
    FinishedIsComplete(w, job);
    FinishedValid(w, job);
    CopyTagsKeys(w.dest, job.tags, job.digest);
    hide CopyTags, ExactVersions, FoldDistinct, Admitted;
    var w' := Finished(w, job);
    forall t | t in job.tags
      ensures Fold(t) != u && 0 < w'.journal[job.id].versions[t] != w'.dest.tags[u].id
    {
      assert Fold(t) in Folds(job.tags);
      assert Resolves(w'.dest, Fold(t), job.digest);
    }
  }

  lemma CompletionKeepsForeign(w: World, job: Job, u: Tag)
    requires Valid(w, job.package) && MayStart(w, job) && Foreign(w, job.package, u)
    ensures StaysForeign(w, Finished(w, job), job.package, u)
  {
    assert job.tags[..|job.tags|] == job.tags;
    var a, w' := Attempt(w, job, |job.tags|), Finished(w, job);
    AttemptKeepsForeign(w, job, |job.tags|, u);
    CompletionIds(w, job, u);
    FinishedIsComplete(w, job);
    hide Valid, MayStart, CopyTags, ExactVersions, WithIntentions, Fold, Resolves;
    CompletionOwns(a.journal, w'.journal, job, w'.dest.tags[u].id);
    forall v, t | v in Records(w'.journal, job.package) && t in w'.journal[v].versions
      ensures !Intends(w', v, t, u)
    {
      if v != job.id {
        assert v in Records(a.journal, job.package);
        assert !Intends(a, v, t, u);
      }
    }
  }

  lemma CompletionOwns(j: Journal, j': Journal, job: Job, id: nat)
    requires job.id in j' && forall t | t in j'[job.id].versions :: j'[job.id].versions[t] != id
    requires forall x | x in j' && x != job.id :: x in j && j[x] == j'[x]
    requires id !in OwnedIds(Records(j, job.package))
    ensures id !in OwnedIds(Records(j', job.package))
  {
    var a, b := Records(j, job.package), Records(j', job.package);
    forall x, t | x in b && t in b[x].versions && b[x].versions[t] > 0
      ensures b[x].versions[t] != id
    {
      if x != job.id {
        assert x in a && a[x].versions[t] in OwnedIds(a);
      }
    }
  }

  /** FOREIGN-TAG FRAME, one version: no failure, retry or completion touches a foreign tag,
      and the tag stays foreign. */
  lemma VersionStepKeepsForeign(job: Job, w: World, r: Outcome, w': World)
    requires Valid(w, job.package) && VersionStep(job, w, r, w')
    ensures ForeignKept(w, w', job.package)
  {
    forall u | Foreign(w, job.package, u)
      ensures StaysForeign(w, w', job.package, u)
    {
      if r == Clean {
        CompletionKeepsForeign(w, job, u);
        SameUpToLinkForeign(w, Finished(w, job), w', job.package, u);
      } else if w' != w {
        var k: nat :| AttemptedUpTo(job, w, w', k);
        AttemptKeepsForeign(w, job, k, u);
        SameUpToLinkForeign(w, Attempt(w, job, k), w', job.package, u);
      }
    }
  }

  lemma SameUpToLinkForeign(w: World, x: World, w': World, package: int, u: Tag)
    requires StaysForeign(w, x, package, u) && SameUpToLink(w', x)
    ensures StaysForeign(w, w', package, u)
  {
    forall v, t | v in Records(w'.journal, package) && t in w'.journal[v].versions
      ensures !Intends(w', v, t, u)
    {
      assert !Intends(x, v, t, u);
    }
  }
}
