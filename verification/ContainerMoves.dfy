/** Moved tags: when all mode accepts a tag that another version of the package held, and
    concrete runs in which it refuses one. */
module ContainerMoves {
  import opened Wrappers
  import opened ContainerTags
  import opened ContainerJournal
  import opened ContainerRuns

  lemma OwnedIdsSplit(j: Journal, j': Journal, package: int, x: int, id: nat)
    requires x in j' && forall t | t in j'[x].versions :: j'[x].versions[t] != id
    requires j' - {x} == j - {x}
    ensures id in OwnedIds(Records(j', package)) <==> id in OwnedIds(Records(j - {x}, package))
  {
    var a, b := Records(j - {x}, package), Records(j', package);
    assert forall y | y in a :: y in j' - {x};
    OwnedIdsMonotone(a, b);
    if id in OwnedIds(b) {
      var y, t :| y in b && t in b[y].versions && b[y].versions[t] > 0 && b[y].versions[t] == id;
      assert y in j' - {x};
      assert y in a && a[y].versions[t] == id;
    }
  }

  /** A finished version's own tags and row; what it did not list is as it was. */
  lemma FinishedShape(w: World, job: Job)
    requires Valid(w, job.package) && MayStart(w, job)
    ensures var f := Finished(w, job);
            Valid(f, job.package) && f.dest.tags.Keys == w.dest.tags.Keys + Folds(job.tags)
            && job.id in f.journal && f.journal == w.journal[job.id := f.journal[job.id]]
            && f.journal[job.id].package == job.package && f.journal[job.id].digest == job.digest
            && (forall u | u in w.dest.tags && u !in Folds(job.tags) :: f.dest.tags[u] == w.dest.tags[u])
            && (forall t :: t in f.journal[job.id].versions <==> t in job.tags)
    ensures forall t | t in job.tags :: Holds(Finished(w, job), job.id, t) && Resolves(Finished(w, job).dest, Fold(t), job.digest)
  {
    MayStartParts(w, job);
    hide *;
    FinishedIsComplete(w, job);
    FinishedValid(w, job);
    FinishedParts(w, job);
    CopyTagsEffect(w.dest, job.tags, job.digest);
    forall t | t in job.tags
      ensures Holds(Finished(w, job), job.id, t) && Resolves(Finished(w, job).dest, Fold(t), job.digest)
    {
      HoldsIf(Finished(w, job), job, t);
    }
  }

  /** The row records the tag under the id it has. */
  predicate Holds(w: World, x: int, t: Tag) {
    && x in w.journal && t in w.journal[x].versions && Fold(t) in w.dest.tags
    && w.journal[x].versions[t] == w.dest.tags[Fold(t)].id > 0
  }

  lemma HoldsIf(w: World, job: Job, t: Tag)
    requires Valid(w, job.package) && job.id in w.journal && t in w.journal[job.id].versions && Resolves(w.dest, Fold(t), job.digest)
    requires w.journal[job.id].versions[t] == w.dest.tags[Fold(t)].id
    ensures Holds(w, job.id, t)
  {
  }

  lemma MayStartParts(w: World, job: Job)
    ensures MayStart(w, job) <==> FoldDistinct(job.tags) && (forall t | t in job.tags :: TagAdmitted(w, job, t)) && IdentityMatches(w.journal, job)
    ensures IdentityMatches(w.journal, job) <==>
            (job.id in w.journal ==> w.journal[job.id].package == job.package && w.journal[job.id].digest == job.digest)
    ensures Admitted(w, job) <==> forall t | t in job.tags :: TagAdmitted(w, job, t)
  {
    hide TagAdmitted, FoldDistinct;
  }

  lemma FinishedParts(w: World, job: Job)
    ensures var f := Finished(w, job);
            f.dest == CopyTags(w.dest, job.tags, job.digest) && job.id in f.journal && f.journal == w.journal[job.id := f.journal[job.id]]
  {
    hide CopyTags, ExactVersions;
  }

  /** An owned tag is admitted, and so is a free one. */
  lemma HeldIsAdmitted(w: World, job: Job, x: int, t: Tag, u: Tag)
    requires Holds(w, x, t) && w.journal[x].package == job.package && Fold(u) == Fold(t)
    ensures TagAdmitted(w, job, u)
  {
    var rows := Records(w.journal, job.package);
    assert x in rows && rows[x].versions[t] == w.journal[x].versions[t];
  }

  lemma FreeIsAdmitted(w: World, job: Job, t: Tag)
    requires Fold(t) !in w.dest.tags
    ensures TagAdmitted(w, job, t)
  {
  }

  /** The job's own row is a still-pending intention for the tag, with the digest in place. */
  predicate IntendedBy(w: World, job: Job, t: Tag) {
    && job.id in w.journal && w.journal[job.id].state == Pending
    && t in w.journal[job.id].versions && w.journal[job.id].versions[t] == 0 && Resolves(w.dest, Fold(t), job.digest)
  }

  lemma FoldsHold(tags: seq<Tag>)
    ensures forall t | t in tags :: Fold(t) in Folds(tags)
  {
    hide Fold;
  }

  /** A row's positive ids are those of its own tags. */
  lemma OthersKeepIds(w: World, package: int, x: int, u: Tag)
    requires Valid(w, package) && x in w.journal && w.journal[x].package == package && u in w.dest.tags
    requires forall t | t in w.journal[x].versions :: Fold(t) != u
    ensures forall t | t in w.journal[x].versions :: w.journal[x].versions[t] != w.dest.tags[u].id
  {
    assert RecordValid(w.dest, Records(w.journal, package)[x]);
    hide Fold;
  }

  lemma AdmittedWhen(w: World, job: Job, t: Tag)
    requires Fold(t) in w.dest.tags
    ensures TagAdmitted(w, job, t) <==> w.dest.tags[Fold(t)].id in OwnedIds(Records(w.journal, job.package)) || IntendedBy(w, job, t)
  {
    hide Fold, OwnedIds, Records;
  }

  lemma IntendedStays(w: World, f: World, job: Job, t: Tag)
    requires Fold(t) in w.dest.tags && Fold(t) in f.dest.tags && f.dest.tags[Fold(t)] == w.dest.tags[Fold(t)]
    requires (job.id in f.journal <==> job.id in w.journal) && (job.id in w.journal ==> f.journal[job.id] == w.journal[job.id])
    ensures IntendedBy(f, job, t) <==> IntendedBy(w, job, t)
  {
    hide Fold;
  }

  /** All mode does not always accept a tag that moved to a newer version. Once the version that
      owned it has been mirrored again without it, the newer version is let through for that tag
      exactly when some other row of the package still owns the tag's id, or its own interrupted
      attempt had already put its digest there. */
  lemma MovedTagAdmittedIff(w: World, prior: Job, moved: Job, t: Tag)
    requires Valid(w, prior.package) && MayStart(w, prior) && moved.package == prior.package && prior.id != moved.id
    requires Fold(t) in w.dest.tags && Fold(t) !in Folds(prior.tags)
    ensures TagAdmitted(Finished(w, prior), moved, t) <==>
            w.dest.tags[Fold(t)].id in OwnedIds(Records(w.journal - {prior.id}, prior.package)) || IntendedBy(w, moved, t)
  {
    hide *;
    var f, u := Finished(w, prior), Fold(t);
    FinishedShape(w, prior);
    FoldsHold(prior.tags);
    OthersKeepIds(f, prior.package, prior.id, u);
    assert f.journal - {prior.id} == w.journal - {prior.id};
    OwnedIdsSplit(w.journal, f.journal, prior.package, prior.id, w.dest.tags[u].id);
    AdmittedWhen(f, moved, t);
    IntendedStays(w, f, moved, t);
  }

  /** A tag nobody claims is refused for good: through every history of the package, whatever is
      mirrored and however it ends, the tag stays as it is and no version that lists it is let
      through. */
  lemma {:induction false} ForeignIsForGood(package: int, worlds: seq<World>, steps: seq<Step>, u: Tag)
    requires History(worlds, steps) && forall s | s in steps :: s.job.package == package
    requires Valid(worlds[0], package) && Foreign(worlds[0], package, u)
    ensures Valid(worlds[|steps|], package) && StaysForeign(worlds[0], worlds[|steps|], package, u)
    ensures forall job: Job | job.package == package && u in Folds(job.tags) :: !MayStart(worlds[|steps|], job)
  {
    hide Valid, MayStart, Stepped;
    if steps != [] {
      var n := |steps| - 1;
      HistoryInit(worlds, steps);
      assert forall s | s in steps[..n] :: s in steps;
      ForeignIsForGood(package, worlds[..n + 1], steps[..n], u);
      assert steps[n] in steps && Stepped(steps[n], worlds[n], worlds[n + 1]);
      ForeignStep(steps[n], worlds[n], worlds[n + 1], u);
    }
    forall job: Job | job.package == package && u in Folds(job.tags)
      ensures !MayStart(worlds[|steps|], job)
    {
      if MayStart(worlds[|steps|], job) {
        PlanAvoidsForeign(worlds[|steps|], job, u);
      }
    }
  }

  lemma ForeignStep(step: Step, w: World, w': World, u: Tag)
    requires Valid(w, step.job.package) && Foreign(w, step.job.package, u) && Stepped(step, w, w')
    ensures Valid(w', step.job.package) && StaysForeign(w, w', step.job.package, u)
  {
    VersionStepValid(step.job, w, step.outcome, w');
    VersionStepKeepsForeign(step.job, w, step.outcome, w');
    hide Valid, Foreign, Stepped;
  }

  // ---------------------------------------------------------------- concrete versions

  type HexDigit = c: char | '0' <= c <= '9' || 'a' <= c <= 'f' witness '0'

  /** A digest of one hexadecimal digit. */
  function DigestOf(c: HexDigit): (d: Digest)
    ensures ValidDigest(d) && d[7] == c
  {
    DIGEST_PREFIX + seq(64, _ => c)
  }

  function WithoutM(id: int, c: HexDigit): SourceVersion
  {
    SourceVersion(id, DigestOf(c), [], id)
  }

  function WithM(id: int, c: HexDigit): SourceVersion
  {
    SourceVersion(id, DigestOf(c), ["m"], id)
  }

  const PACKAGE := 7

  function EmptyWorld(): World {
    World(Dest(map[], {}, 1, None), map[])
  }

  lemma FoldOfM(c: HexDigit)
    ensures Fold("m") == "m" && Fold(PreservationTag(DigestOf(c))) == PreservationTag(DigestOf(c)) && |PreservationTag(DigestOf(c))| > 1
  {
    PreservationTagIsFolded(DigestOf(c));
  }

  lemma OneTag(t: Tag)
    ensures SortTags(Dedupe([] + [t])) == [t]
  {
    assert [] + [t] == [t] && [t][..0] == [];
    assert Dedupe([t]) == [t];
  }

  lemma TwoTags(t: Tag, u: Tag)
    requires t != u && TagLe(t, u) != TagLe(u, t)
    ensures SortTags(Dedupe([t] + [u])) == if TagLe(t, u) then [t, u] else [u, t]
  {
    var s := [t, u];
    assert [t] + [u] == s && s[..1] == [t] && [t][..0] == [];
    assert Dedupe([t]) == [t];
    assert Dedupe(s) == s;
    assert SortTags([t]) == [t];
    assert SortTags(s) == InsertTag(u, [t]);
    assert [t][1..] == [];
  }

  lemma PlansAre(id: int, c: HexDigit)
    ensures Plan(All, PACKAGE, WithoutM(id, c)) == Job(PACKAGE, id, DigestOf(c), [PreservationTag(DigestOf(c))])
    ensures Plan(All, PACKAGE, WithM(id, c)) == Job(PACKAGE, id, DigestOf(c), [PreservationTag(DigestOf(c)), "m"])
  {
    var p := PreservationTag(DigestOf(c));
    FoldOfM(c);
    OneTag(p);
    assert p[0] == 'g' && "m"[0] == 'm' && "latest"[0] == 'l';
    assert TagLe(p, "m") && !TagLe("m", p);
    TwoTags("m", p);
  }

  lemma DifferentDigests(c: HexDigit, d: HexDigit)
    requires c != d
    ensures PreservationTag(DigestOf(c)) != PreservationTag(DigestOf(d))
  {
    if PreservationTag(DigestOf(c)) == PreservationTag(DigestOf(d)) {
      PreservationTagInjective(DigestOf(c), DigestOf(d));
    }
  }

  function Kept(c: HexDigit): Tag
  {
    PreservationTag(DigestOf(c))
  }

  function JobWith(id: int, c: HexDigit): Job
  {
    Plan(All, PACKAGE, WithM(id, c))
  }

  function JobWithout(id: int, c: HexDigit): Job
  {
    Plan(All, PACKAGE, WithoutM(id, c))
  }

  lemma JobsAre(id: int, c: HexDigit)
    ensures var job := JobWith(id, c);
            job == Job(PACKAGE, id, DigestOf(c), [Kept(c), "m"]) && FoldDistinct(job.tags) && Folds(job.tags) == {Kept(c), "m"}
            && forall t :: t in job.tags <==> t == Kept(c) || t == "m"
    ensures var job := JobWithout(id, c);
            job == Job(PACKAGE, id, DigestOf(c), [Kept(c)]) && FoldDistinct(job.tags) && Folds(job.tags) == {Kept(c)}
            && forall t :: t in job.tags <==> t == Kept(c)
    ensures Fold("m") == "m" && Fold(Kept(c)) == Kept(c) != "m"
  {
    hide *;
    PlansAre(id, c);
    KeptIs(id, c);
    FoldOfM(c);
    TagsOf(Kept(c));
  }

  lemma KeptIs(id: int, c: HexDigit)
    ensures Kept(c) == PreservationTag(DigestOf(c))
    ensures JobWith(id, c) == Plan(All, PACKAGE, WithM(id, c)) && JobWithout(id, c) == Plan(All, PACKAGE, WithoutM(id, c))
  {
    hide PreservationTag, DigestOf, Plan;
  }

  lemma TagsOf(p: Tag)
    requires Fold("m") == "m" && Fold(p) == p && |p| > 1
    ensures FoldDistinct([p, "m"]) && Folds([p, "m"]) == {p, "m"} && FoldDistinct([p]) && Folds([p]) == {p} && p != "m"
    ensures (forall t :: t in [p, "m"] <==> t == p || t == "m") && forall t :: t in [p] <==> t == p
  {
    hide Fold;
    assert |"m"| == 1;
    assert forall t :: t in [p, "m"] <==> t == p || t == "m";
    assert forall t :: t in [p] <==> t == p;
  }

  /** The first run mirrors version 1 with its tag `m` into an empty package. */
  function FirstWorld(): World {
    Finished(EmptyWorld(), JobWith(1, 'a'))
  }

  lemma EmptyStarts(job: Job)
    requires FoldDistinct(job.tags)
    ensures MayStart(EmptyWorld(), job) && Valid(EmptyWorld(), job.package) && EmptyWorld().dest.tags == map[] && EmptyWorld().journal == map[]
  {
    hide Fold, FoldDistinct;
  }

  lemma FirstRun()
    ensures var w := FirstWorld();
            MayStart(EmptyWorld(), JobWith(1, 'a')) && Valid(w, PACKAGE) && w.dest.tags.Keys == {Kept('a'), "m"} && w.journal.Keys == {1}
            && w.journal[1].package == PACKAGE && w.journal[1].digest == DigestOf('a') && Holds(w, 1, Kept('a')) && Holds(w, 1, "m")
            && w.journal[1].versions.Keys == {Kept('a'), "m"} && Resolves(w.dest, Kept('a'), DigestOf('a'))
  {
    hide *;
    JobsAre(1, 'a');
    EmptyStarts(JobWith(1, 'a'));
    FirstWorldIs();
    FinishedShape(EmptyWorld(), JobWith(1, 'a'));
    assert FirstWorld().journal[1].versions.Keys == {Kept('a'), "m"};
  }

  lemma FirstWorldIs()
    ensures FirstWorld() == Finished(EmptyWorld(), JobWith(1, 'a'))
  {
  }

  lemma KeptDiffer()
    ensures Kept('a') != Kept('b') && DigestOf('a') != DigestOf('b')
  {
    DifferentDigests('a', 'b');
  }

  /** Version 1 without `m`, and version 2 with it, may each start next. */
  lemma SecondRunStarts()
    ensures MayStart(FirstWorld(), JobWithout(1, 'a')) && MayStart(FirstWorld(), JobWith(2, 'b'))
  {
    hide *;
    FirstRun();
    JobsAre(1, 'a');
    JobsAre(2, 'b');
    KeptDiffer();
    var w := FirstWorld();
    HeldIsAdmitted(w, JobWithout(1, 'a'), 1, Kept('a'), Kept('a'));
    HeldIsAdmitted(w, JobWith(2, 'b'), 1, "m", "m");
    FreeIsAdmitted(w, JobWith(2, 'b'), Kept('b'));
    MayStartParts(w, JobWithout(1, 'a'));
    MayStartParts(w, JobWith(2, 'b'));
  }

  /** A concrete refusal. Version 1 was mirrored with its tag `m`; then `m` moves to version 2.
      Either version could go first, but the older one does, and completing it drops its claim. */
  lemma MovedTagRefused()
    ensures var w, prior, moved := FirstWorld(), JobWithout(1, 'a'), JobWith(2, 'b');
            MayStart(EmptyWorld(), JobWith(1, 'a')) && Valid(w, PACKAGE) && MayStart(w, prior) && MayStart(w, moved)
            && !Admitted(Finished(w, prior), moved) && Valid(Finished(w, prior), PACKAGE) && Foreign(Finished(w, prior), PACKAGE, "m")
            && "m" in Folds(moved.tags)
  {
    hide *;
    var w, prior, moved := FirstWorld(), JobWithout(1, 'a'), JobWith(2, 'b');
    FirstRun();
    SecondRunStarts();
    JobsAre(1, 'a');
    JobsAre(2, 'b');
    FinishedShape(w, prior);
    var f := Finished(w, prior);
    assert f.journal.Keys == {1};
    AloneIsForeign(f, 1, "m");
    RowsButOne(w, 1, moved, "m");
    MovedTagAdmittedIff(w, prior, moved, "m");
    MayStartParts(f, moved);
  }

  lemma RowsButOne(w: World, x: int, job: Job, t: Tag)
    requires w.journal.Keys == {x} && job.id != x
    ensures OwnedIds(Records(w.journal - {x}, PACKAGE)) == {} && !IntendedBy(w, job, t)
  {
  }

  /** A tag the one row does not record is foreign. */
  lemma AloneIsForeign(w: World, x: int, u: Tag)
    requires Valid(w, PACKAGE) && w.journal.Keys == {x} && u in w.dest.tags && w.journal[x].package == PACKAGE
    requires forall t | t in w.journal[x].versions :: Fold(t) != u
    ensures Foreign(w, PACKAGE, u)
  {
    hide Fold;
    assert RecordValid(w.dest, Records(w.journal, PACKAGE)[x]);
  }

  /** Nor is it ever accepted later: no history of the package reaches a world in which version 2,
      or any other version with that tag, may start. */
  lemma MovedTagRefusedForGood(worlds: seq<World>, steps: seq<Step>)
    requires History(worlds, steps) && forall s | s in steps :: s.job.package == PACKAGE
    requires worlds[0] == Finished(FirstWorld(), JobWithout(1, 'a'))
    ensures !MayStart(worlds[|steps|], JobWith(2, 'b'))
    ensures forall job: Job | job.package == PACKAGE && "m" in Folds(job.tags) :: !MayStart(worlds[|steps|], job)
  {
    assert |worlds| > |steps|;
    hide *;
    MovedTagRefused();
    JobsAre(2, 'b');
    ForeignIsForGood(PACKAGE, worlds, steps, "m");
  }

  /** A concrete stale id. Version 1's turn fails while `m` is moved to version 2, so version 1's
      row keeps the id `m` had; then `m` moves back. The attempt may start, but the row is not
      safe to retry, and once `m` has been copied the retry is refused. */
  lemma StaleIdHappens()
    ensures var w, taker, back := FirstWorld(), JobWith(2, 'b'), JobWith(1, 'a');
            var x := Finished(w, taker);
            MayStart(w, taker) && Valid(x, PACKAGE) && MayStart(x, back) && !RetrySafe(x, back)
            && |back.tags| == 2 && MayStart(Attempt(x, back, 1), back) && !MayStart(Attempt(x, back, 2), back)
  {
    hide *;
    var w, taker, back := FirstWorld(), JobWith(2, 'b'), JobWith(1, 'a');
    FirstRun();
    SecondRunStarts();
    JobsAre(1, 'a');
    JobsAre(2, 'b');
    KeptDiffer();
    FinishedShape(w, taker);
    var x := Finished(w, taker);
    StillHolds(w, x, 1, Kept('a'));
    StillResolves(w.dest, x.dest, Kept('a'), DigestOf('a'));
    HeldIsAdmitted(x, back, 1, Kept('a'), Kept('a'));
    HeldIsAdmitted(x, back, 2, "m", "m");
    MayStartParts(x, back);
    StillRecords(w, x, 1, "m");
    Elsewhere(x.dest, "m", DigestOf('b'), DigestOf('a'));
    StaleIdRefused(x, back, 1);
    MayStartParts(Attempt(x, back, 2), back);
    NotSafe(x, back, "m");
    FirstTagInPlace(x, back);
  }

  lemma StillHolds(w: World, x: World, row: int, t: Tag)
    requires Holds(w, row, t) && row in x.journal && x.journal[row] == w.journal[row]
    requires Fold(t) in x.dest.tags && x.dest.tags[Fold(t)] == w.dest.tags[Fold(t)]
    ensures Holds(x, row, t)
  {
  }

  lemma StillResolves(d: Dest, d': Dest, u: Tag, g: Digest)
    requires Resolves(d, u, g) && u in d'.tags && d'.tags[u] == d.tags[u]
    ensures Resolves(d', u, g)
  {
  }

  lemma StillRecords(w: World, x: World, row: int, t: Tag)
    requires Holds(w, row, t) && row in x.journal && x.journal[row] == w.journal[row]
    ensures t in x.journal[row].versions && x.journal[row].versions[t] > 0
  {
  }

  lemma Elsewhere(d: Dest, u: Tag, g: Digest, h: Digest)
    requires Resolves(d, u, g) && g != h
    ensures !Resolves(d, u, h)
  {
  }

  lemma NotSafe(w: World, job: Job, t: Tag)
    requires job.id in w.journal && t in job.tags && t in w.journal[job.id].versions && w.journal[job.id].versions[t] > 0
    requires !Resolves(w.dest, Fold(t), job.digest)
    ensures !RetrySafe(w, job)
  {
  }

  /** Copying the first tag, which is in place, leaves the attempt where it started. */
  lemma FirstTagInPlace(w: World, job: Job)
    requires MayStart(w, job) && |job.tags| >= 1 && Resolves(w.dest, Fold(job.tags[0]), job.digest)
    ensures MayStart(Attempt(w, job, 1), job)
  {
    var x := Attempt(w, job, 1);
    assert job.tags[..1] == [job.tags[0]];
    assert forall u | u in Folds(job.tags[..1]) :: u == Fold(job.tags[0]);
    CopyTagsNothing(w.dest, job.tags[..1], job.digest);
    PreparedOwnsTheSame(w.journal, job);
    hide FoldDistinct, CopyTags, Folds, Fold;
    forall t | t in job.tags
      ensures TagAdmitted(x, job, t)
    {
      assert TagAdmitted(w, job, t);
    }
  }

  // ---------------------------------------------------------------- the two-version listing

  /** Oldest first leaves one order for two versions of different ages. */
  lemma OneOrder(older: SourceVersion, newer: SourceVersion, turns: seq<SourceVersion>)
    requires older.createdAt < newer.createdAt && Turns(turns, [older, newer])
    ensures turns == [older, newer]
  {
    assert multiset([older, newer]) == multiset{older, newer};
    assert |multiset(turns)| == 2;
    assert turns == [turns[0], turns[1]];
    assert multiset(turns) == multiset{turns[0], turns[1]};
    assert older in multiset(turns) && newer in multiset(turns);
  }

  /** A listing in which `m` has moved from version 1 to version 2 never ends cleanly: version 1,
      the older one, has its turn first, and once it is complete version 2 is refused. */
  lemma MovedTagListingWarns(worlds: seq<World>, steps: seq<Step>, turns: seq<SourceVersion>)
    requires History(worlds, steps) && worlds[0] == FirstWorld() && |steps| == 2
    requires Turns(turns, [WithoutM(1, 'a'), WithM(2, 'b')]) && |turns| == 2
    requires forall i | 0 <= i < 2 :: steps[i].job == Plan(All, PACKAGE, turns[i])
    ensures steps[0].job.id == 1 && steps[1].job.id == 2
    ensures !(steps[0].outcome == Clean && steps[1].outcome == Clean)
  {
    OneOrder(WithoutM(1, 'a'), WithM(2, 'b'), turns);
    assert Stepped(steps[0], worlds[0], worlds[1]) && Stepped(steps[1], worlds[1], worlds[2]);
    hide *;
    JobsAre(1, 'a');
    JobsAre(2, 'b');
    KeptIs(1, 'a');
    KeptIs(2, 'b');
    MovedTagRefused();
    MayStartParts(Finished(FirstWorld(), JobWithout(1, 'a')), JobWith(2, 'b'));
    if steps[0].outcome == Clean {
      CleanStepIs(steps[0], worlds[0], worlds[1]);
      SameStart(Finished(FirstWorld(), JobWithout(1, 'a')), worlds[1], JobWith(2, 'b'));
      RefusedStep(steps[1], worlds[1], worlds[2]);
    }
  }

  lemma CleanStepIs(step: Step, w: World, w': World)
    requires Stepped(step, w, w') && step.outcome == Clean
    ensures SameUpToLink(w', Finished(w, step.job))
  {
    hide MayStart, SameUpToLink, Finished;
  }

  lemma SameStart(w: World, x: World, job: Job)
    requires SameUpToLink(x, w)
    ensures MayStart(x, job) <==> MayStart(w, job)
  {
    LinkIsNoMatter(w, x, job);
  }

  lemma RefusedStep(step: Step, w: World, w': World)
    requires Stepped(step, w, w') && !MayStart(w, step.job)
    ensures step.outcome != Clean && w' == w
  {
    hide MayStart;
  }
}
