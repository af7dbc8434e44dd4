/** Properties of whole container-mirroring runs: preservation tags across any number of
    all-mode runs, moved tags, and the cleanup steps of latest mode. */
module ContainerRuns {
  import opened Wrappers
  import opened ContainerTags
  import opened ContainerJournal

  // ---------------------------------------------------------------- source tags

  predicate IsTagChar(c: char) {
    'A' <= c <= 'Z' || 'a' <= c <= 'z' || '0' <= c <= '9' || c == '_'
  }

  predicate ValidTag(t: Tag) {
    && 1 <= |t| <= 128 && IsTagChar(t[0])
    && forall i | 1 <= i < |t| :: IsTagChar(t[i]) || t[i] == '.' || t[i] == '-'
  }

  /** A tag is a letter, a digit or an underscore, and up to 127 more of these, dots and dashes. */
  lemma ValidTagSpelled(t: Tag)
    ensures ValidTag(t) <==>
            && 0 < |t| < 129 && t[0] in "ABCDEFGHIJKLMNOPQRSTUVWXYZ" + "abcdefghijklmnopqrstuvwxyz" + "0123456789_"
            && forall c | c in t[1..] :: c in "ABCDEFGHIJKLMNOPQRSTUVWXYZ" + "abcdefghijklmnopqrstuvwxyz" + "0123456789_.-"
  {
    forall c: char
      ensures IsTagChar(c) <==> c in "ABCDEFGHIJKLMNOPQRSTUVWXYZ" + "abcdefghijklmnopqrstuvwxyz" + "0123456789_"
      ensures IsTagChar(c) || c == '.' || c == '-' <==> c in "ABCDEFGHIJKLMNOPQRSTUVWXYZ" + "abcdefghijklmnopqrstuvwxyz" + "0123456789_.-"
    {
      TagCharSpelled(c);
    }
    hide IsTagChar;
    if |t| > 0 {
      assert forall i | 1 <= i < |t| :: t[i] == t[1..][i - 1];
    }
  }

  lemma TagCharSpelled(c: char)
    ensures IsTagChar(c) <==> c in "ABCDEFGHIJKLMNOPQRSTUVWXYZ" + "abcdefghijklmnopqrstuvwxyz" + "0123456789_"
    ensures IsTagChar(c) || c == '.' || c == '-' <==> c in "ABCDEFGHIJKLMNOPQRSTUVWXYZ" + "abcdefghijklmnopqrstuvwxyz" + "0123456789_.-"
  {
    var upper, lower, digits := "ABCDEFGHIJKLMNOPQRSTUVWXYZ", "abcdefghijklmnopqrstuvwxyz", "0123456789";
    assert forall i | 0 <= i < 26 :: upper[i] as int == 65 + i && lower[i] as int == 97 + i;
    assert forall i | 0 <= i < 10 :: digits[i] as int == 48 + i;
    if 'A' <= c <= 'Z' {
      assert upper[c as int - 65] == c;
    } else if 'a' <= c <= 'z' {
      assert lower[c as int - 97] == c;
    } else if '0' <= c <= '9' {
      assert digits[c as int - 48] == c;
    }
    assert "0123456789_" == digits + "_" && "0123456789_.-" == digits + "_.-";
  }

  /** Source tags are well formed, distinct up to case within a version, and name one digest. */
  ghost predicate ValidSourceTags(vs: seq<SourceVersion>) {
    && (forall v | v in vs :: FoldDistinct(v.tags))
    && (forall v, t | v in vs && t in v.tags :: ValidTag(t))
    && (forall v, x, t, u | v in vs && x in vs && t in v.tags && u in x.tags && Fold(t) == Fold(u) :: v.digest == x.digest)
  }

  /** A source tag spelled like a preservation tag sits on the digest that tag names. */
  ghost predicate WellSpelled(v: SourceVersion) {
    ValidDigest(v.digest) &&
    forall t, d | t in v.tags && ValidDigest(d) && Fold(t) == PreservationTag(d) :: v.digest == d
  }

  /** `owners` maps exactly the folded tags of the listing to their digests. */
  ghost predicate OwnersOf(vs: seq<SourceVersion>, owners: map<Tag, Digest>) {
    && (forall v, t | v in vs && t in v.tags :: Fold(t) in owners && owners[Fold(t)] == v.digest)
    && (forall u | u in owners :: Seen(vs, u))
  }

  ghost predicate Seen(vs: seq<SourceVersion>, u: Tag) {
    exists v, t | v in vs && t in v.tags :: Fold(t) == u
  }

  /** One version's tags are well formed, distinct up to case, and agree with earlier owners. */
  ghost predicate VersionAgrees(v: SourceVersion, owners: map<Tag, Digest>) {
    FoldDistinct(v.tags) && forall t | t in v.tags :: ValidTag(t) && (Fold(t) in owners ==> owners[Fold(t)] == v.digest)
  }

  lemma FoldDistinctSnoc(tags: seq<Tag>, i: nat)
    requires i < |tags|
    ensures FoldDistinct(tags[..i + 1]) <==> FoldDistinct(tags[..i]) && Fold(tags[i]) !in Folds(tags[..i])
    ensures Folds(tags[..i + 1]) == Folds(tags[..i]) + {Fold(tags[i])}
  {
    var a, b := tags[..i], tags[..i + 1];
    assert b == a + [tags[i]];
    assert forall t :: t in b <==> t in a || t == tags[i];
    if Fold(tags[i]) in Folds(a) {
      var t :| t in a && Fold(t) == Fold(tags[i]);
      var k :| 0 <= k < i && a[k] == t;
      assert Fold(b[k]) == Fold(b[i]);
    } else {
      forall k | 0 <= k < i
        ensures Fold(b[k]) != Fold(tags[i])
      {
        assert a[k] in a;
      }
      assert FoldDistinct(b) ==> forall k, n | 0 <= k < n < i :: a[k] == b[k] && a[n] == b[n];
    }
  }

  lemma ValidPrefix(vs: seq<SourceVersion>, i: nat)
    requires ValidSourceTags(vs) && i <= |vs|
    ensures ValidSourceTags(vs[..i])
  {
    assert forall v | v in vs[..i] :: v in vs;
  }

  /** Extending a checked listing by one version. */
  lemma ValidSnoc(vs: seq<SourceVersion>, v: SourceVersion, owners: map<Tag, Digest>)
    requires ValidSourceTags(vs) && OwnersOf(vs, owners)
    ensures ValidSourceTags(vs + [v]) <==> VersionAgrees(v, owners)
  {
    hide ValidSourceTags, VersionAgrees, OwnersOf;
    if ValidSourceTags(vs + [v]) {
      ValidMeansAgrees(vs, v, owners);
    }
    if VersionAgrees(v, owners) {
      AgreesMeansValid(vs, v, owners);
    }
  }

  lemma ValidMeansAgrees(vs: seq<SourceVersion>, v: SourceVersion, owners: map<Tag, Digest>)
    requires ValidSourceTags(vs + [v]) && OwnersOf(vs, owners)
    ensures VersionAgrees(v, owners)
  {
    hide ValidTag, FoldDistinct, Fold;
    var all := vs + [v];
    assert v in all;
    forall t | t in v.tags && Fold(t) in owners
      ensures owners[Fold(t)] == v.digest
    {
      assert Seen(vs, Fold(t));
      var x, u :| x in vs && u in x.tags && Fold(u) == Fold(t);
      assert x in all;
    }
  }

  lemma AgreesMeansValid(vs: seq<SourceVersion>, v: SourceVersion, owners: map<Tag, Digest>)
    requires ValidSourceTags(vs) && OwnersOf(vs, owners) && VersionAgrees(v, owners)
    ensures ValidSourceTags(vs + [v])
  {
    hide ValidTag, FoldDistinct, Fold;
    assert forall x | x in vs + [v] :: x in vs || x == v;
  }

  lemma OwnersSnoc(vs: seq<SourceVersion>, v: SourceVersion, owners: map<Tag, Digest>, more: map<Tag, Digest>)
    requires OwnersOf(vs, owners) && VersionAgrees(v, owners)
    requires forall u :: u in more <==> u in owners || u in Folds(v.tags)
    requires forall u | u in more :: more[u] == if u in Folds(v.tags) then v.digest else owners[u]
    ensures OwnersOf(vs + [v], more)
  {
    var all := vs + [v];
    assert forall t | t in v.tags :: Fold(t) in Folds(v.tags);
    forall x, t | x in all && t in x.tags
      ensures Fold(t) in more && more[Fold(t)] == x.digest
    {
      if Fold(t) in Folds(v.tags) {
        var y :| y in v.tags && Fold(y) == Fold(t);
      }
    }
    forall u | u in more
      ensures Seen(all, u)
    {
      if u in Folds(v.tags) {
        assert v in all;
      } else {
        assert Seen(vs, u);
      }
    }
  }

  predicate HasLatest(v: SourceVersion): (r: bool)
    ensures r <==> exists t | t in v.tags :: SpellsLatest(t)
  {
    LatestSpelled();
    exists t | t in v.tags :: IsLatest(t)
  }

  /** The versions that carry a literal `latest`, as often as they are listed. */
  function LatestVersions(vs: seq<SourceVersion>): (r: seq<SourceVersion>)
    ensures forall v :: v in r <==> v in vs && HasLatest(v)
    ensures forall v :: multiset(r)[v] == if HasLatest(v) then multiset(vs)[v] else 0
  {
    if vs == [] then [] else
      var rest := LatestVersions(vs[1..]);
      assert vs == [vs[0]] + vs[1..];
      if HasLatest(vs[0]) then [vs[0]] + rest else rest
  }

  function InsertVersion(v: SourceVersion, vs: seq<SourceVersion>): (r: seq<SourceVersion>)
    ensures multiset(r) == multiset(vs) + multiset{v}
  {
    if vs == [] then [v]
    else if vs[0].createdAt < v.createdAt || (vs[0].createdAt == v.createdAt && vs[0].id <= v.id) then
      assert vs == [vs[0]] + vs[1..];
      [vs[0]] + InsertVersion(v, vs[1..])
    else [v] + vs
  }

  /** Oldest first, as the mirror processes them. */
  function SortVersions(vs: seq<SourceVersion>): (r: seq<SourceVersion>)
    ensures multiset(r) == multiset(vs)
    ensures |r| == |vs| && forall v :: v in r <==> v in vs
  {
    if vs == [] then [] else
      var r := InsertVersion(vs[|vs| - 1], SortVersions(vs[..|vs| - 1]));
      assert vs == vs[..|vs| - 1] + [vs[|vs| - 1]];
      assert |multiset(r)| == |multiset(vs)|;
      assert forall v :: (v in r <==> v in multiset(r)) && (v in vs <==> v in multiset(vs));
      r
  }

  /** Ascending by creation time, and by id where times are equal. */
  ghost predicate OldestFirst(vs: seq<SourceVersion>) {
    forall i, j | 0 <= i < j < |vs| :: NotAfter(vs[i], vs[j])
  }

  ghost predicate NotAfter(v: SourceVersion, x: SourceVersion) {
    v.createdAt < x.createdAt || (v.createdAt == x.createdAt && v.id <= x.id)
  }

  lemma FirstIsOldest(v: SourceVersion, vs: seq<SourceVersion>)
    requires OldestFirst(vs) && forall x | x in vs :: NotAfter(v, x)
    ensures OldestFirst([v] + vs)
  {
    hide NotAfter;
  }

  lemma {:induction false} InsertKeepsOldestFirst(v: SourceVersion, vs: seq<SourceVersion>)
    requires OldestFirst(vs)
    ensures OldestFirst(InsertVersion(v, vs))
  {
    if vs == [] {
    } else if NotAfter(vs[0], v) {
      var rest := InsertVersion(v, vs[1..]);
      InsertKeepsOldestFirst(v, vs[1..]);
      forall x | x in rest
        ensures NotAfter(vs[0], x)
      {
        assert x in multiset(rest);
        assert x == v || x in vs[1..];
      }
      hide NotAfter;
      FirstIsOldest(vs[0], rest);
    } else {
      assert NotAfter(v, vs[0]);
      forall x | x in vs
        ensures NotAfter(v, x)
      {
        assert x == vs[0] || NotAfter(vs[0], x);
      }
      hide NotAfter;
      FirstIsOldest(v, vs);
    }
  }

  /** Versions are mirrored oldest first. */
  lemma {:induction false} SortedOldestFirst(vs: seq<SourceVersion>)
    ensures OldestFirst(SortVersions(vs))
  {
    if vs != [] {
      SortedOldestFirst(vs[..|vs| - 1]);
      InsertKeepsOldestFirst(vs[|vs| - 1], SortVersions(vs[..|vs| - 1]));
    }
  }

  /** The versions in the order of their turns. */
  ghost predicate Turns(ordered: seq<SourceVersion>, vs: seq<SourceVersion>) {
    multiset(ordered) == multiset(vs) && OldestFirst(ordered)
  }

  lemma SortedAreTurns(vs: seq<SourceVersion>)
    ensures Turns(SortVersions(vs), vs)
  {
    SortedOldestFirst(vs);
  }

  // ---------------------------------------------------------------- all mode

  datatype Step = Step(job: Job, outcome: Outcome)

  /** Worlds joined by mirror steps, whatever fails in between. */
  ghost predicate History(worlds: seq<World>, steps: seq<Step>) {
    |worlds| == |steps| + 1 && forall i | 0 <= i < |steps| :: Stepped(steps[i], worlds[i], worlds[i + 1])
  }

  ghost predicate Stepped(step: Step, w: World, w': World) {
    VersionStep(step.job, w, step.outcome, w')
  }

  lemma HistorySnoc(worlds: seq<World>, steps: seq<Step>, step: Step, w': World)
    requires History(worlds, steps) && Stepped(step, worlds[|steps|], w')
    ensures History(worlds + [w'], steps + [step])
  {
    var ws, ss := worlds + [w'], steps + [step];
    forall i | 0 <= i < |ss|
      ensures Stepped(ss[i], ws[i], ws[i + 1])
    {
      if i < |steps| {
        assert Stepped(steps[i], worlds[i], worlds[i + 1]);
      }
    }
  }

  /** The job plans, for all mode, a version whose tags are well spelled. */
  ghost predicate WellPlanned(package: int, job: Job) {
    exists v :: WellSpelled(v) && job == Plan(All, package, v)
  }

  lemma PlanMissesPreserved(package: int, v: SourceVersion, d: Digest)
    requires WellSpelled(v) && ValidDigest(d) && PreservationTag(d) in Folds(Plan(All, package, v).tags)
    ensures v.digest == d
  {
    var t :| t in Plan(All, package, v).tags && Fold(t) == PreservationTag(d);
    PlannedMembers(All, package, v);
    if t == PreservationTag(v.digest) {
      PreservationTagIsFolded(v.digest);
      PreservationTagInjective(v.digest, d);
    }
  }

  lemma CopyTagsAt(d: Dest, tags: seq<Tag>, g: Digest, u: Tag)
    requires u in d.tags
    ensures var d' := CopyTags(d, tags, g);
            && u in d'.tags && (u in Folds(tags) ==> d'.tags[u].digest == g)
            && (u !in Folds(tags) || d.tags[u].digest == g ==> d'.tags[u] == d.tags[u])
  {
    CopyTagsEffect(d, tags, g);
  }

  /** The effect of a step on one existing tag: it is rewritten only by a job that lists it, and
      only to that job's digest. */
  lemma SteppedAt(job: Job, w: World, r: Outcome, w': World, u: Tag)
    requires Stepped(Step(job, r), w, w') && u in w.dest.tags
    ensures u in w'.dest.tags
    ensures u !in Folds(job.tags) || w.dest.tags[u].digest == job.digest ==> w'.dest.tags[u] == w.dest.tags[u]
    ensures w'.dest.tags[u] == w.dest.tags[u] || w'.dest.tags[u].digest == job.digest
  {
    if r == Clean {
      CopyTagsAt(w.dest, job.tags, job.digest, u);
      assert w'.dest.tags == CopyTags(w.dest, job.tags, job.digest).tags;
    } else if w' != w {
      var k: nat :| AttemptedUpTo(job, w, w', k);
      CopyTagsAt(w.dest, job.tags[..k], job.digest, u);
      PrefixFolds(job.tags, k);
      assert w'.dest.tags == CopyTags(w.dest, job.tags[..k], job.digest).tags;
    }
  }

  lemma StepKeepsPreserved(package: int, step: Step, w: World, w': World, d: Digest)
    requires WellPlanned(package, step.job) && ValidDigest(d)
    requires Stepped(step, w, w') && Resolves(w.dest, PreservationTag(d), d)
    ensures Resolves(w'.dest, PreservationTag(d), d) && w'.dest.tags[PreservationTag(d)] == w.dest.tags[PreservationTag(d)]
  {
    SteppedAt(step.job, w, step.outcome, w', PreservationTag(d));
    if PreservationTag(d) in Folds(step.job.tags) {
      var v :| WellSpelled(v) && step.job == Plan(All, package, v);
      PlanMissesPreserved(package, v, d);
    }
  }

  lemma HistoryInit(worlds: seq<World>, steps: seq<Step>)
    requires History(worlds, steps) && steps != []
    ensures History(worlds[..|steps|], steps[..|steps| - 1])
  {
    hide Stepped;
    var n := |steps| - 1;
    forall i | 0 <= i < n
      ensures Stepped(steps[..n][i], worlds[..n + 1][i], worlds[..n + 1][i + 1])
    {
      assert Stepped(steps[i], worlds[i], worlds[i + 1]);
    }
  }

  /** ALL-MODE PRESERVATION. Once a digest has its preservation tag, that tag stays on that
      digest, under the same id, through every later all-mode history: tags may move, versions
      may vanish, and any step may fail or be cut short. */
  lemma {:induction false} PreservationTagsAreForever(package: int, worlds: seq<World>, steps: seq<Step>, d: Digest)
    requires History(worlds, steps) && ValidDigest(d) && forall s | s in steps :: WellPlanned(package, s.job)
    requires Resolves(worlds[0].dest, PreservationTag(d), d)
    ensures Resolves(worlds[|steps|].dest, PreservationTag(d), d)
    ensures worlds[|steps|].dest.tags[PreservationTag(d)] == worlds[0].dest.tags[PreservationTag(d)]
  {
    hide Stepped, Resolves, WellPlanned, PreservationTag, ValidDigest;
    if steps != [] {
      var n := |steps| - 1;
      HistoryInit(worlds, steps);
      assert forall s | s in steps[..n] :: s in steps;
      PreservationTagsAreForever(package, worlds[..n + 1], steps[..n], d);
      assert Stepped(steps[n], worlds[n], worlds[n + 1]) && steps[n] in steps;
      StepKeepsPreserved(package, steps[n], worlds[n], worlds[n + 1], d);
    }
  }

  /** A mirrored version's tags survive every later version of the same listing. */
  lemma StepKeepsSourceTags(package: int, vs: seq<SourceVersion>, v: SourceVersion, x: SourceVersion,
                            w: World, r: Outcome, w': World, t: Tag)
    requires ValidSourceTags(vs) && v in vs && x in vs && WellSpelled(v) && WellSpelled(x)
    requires t in Plan(All, package, v).tags && Resolves(w.dest, Fold(t), v.digest)
    requires Stepped(Step(Plan(All, package, x), r), w, w')
    ensures Resolves(w'.dest, Fold(t), v.digest)
  {
    SteppedAt(Plan(All, package, x), w, r, w', Fold(t));
    if Fold(t) in Folds(Plan(All, package, x).tags) {
      SharedTagSharesDigest(package, vs, v, x, t);
    }
  }

  /** Every planned tag of the version resolves to the version's digest. */
  ghost predicate InPlace(d: Dest, job: Job) {
    forall t | t in job.tags :: Resolves(d, Fold(t), job.digest)
  }

  lemma StepKeepsInPlace(package: int, vs: seq<SourceVersion>, v: SourceVersion, x: SourceVersion, w: World, r: Outcome, w': World)
    requires ValidSourceTags(vs) && v in vs && x in vs && WellSpelled(v) && WellSpelled(x)
    requires InPlace(w.dest, Plan(All, package, v)) && Stepped(Step(Plan(All, package, x), r), w, w')
    ensures InPlace(w'.dest, Plan(All, package, v))
  {
    forall t | t in Plan(All, package, v).tags
      ensures Resolves(w'.dest, Fold(t), v.digest)
    {
      StepKeepsSourceTags(package, vs, v, x, w, r, w', t);
    }
  }

  lemma CleanStepInPlace(job: Job, w: World, w': World)
    requires Stepped(Step(job, Clean), w, w')
    ensures InPlace(w'.dest, job)
    ensures job.id in w'.journal && w'.journal[job.id].package == job.package && w'.journal[job.id].digest == job.digest
    ensures forall t :: t in w'.journal[job.id].versions <==> t in job.tags
  {
    FinishedIsComplete(w, job);
    var f := Finished(w, job);
    assert w'.dest.tags == f.dest.tags;
    forall t | t in job.tags
      ensures Resolves(w'.dest, Fold(t), job.digest)
    {
      assert Resolves(f.dest, Fold(t), job.digest);
    }
  }

  /** Every listed version is well spelled. */
  ghost predicate AllWellSpelled(vs: seq<SourceVersion>) {
    forall v | v in vs :: WellSpelled(v)
  }

  /** The steps mirror exactly the listed versions, each without a warning. */
  ghost predicate CleanPass(package: int, vs: seq<SourceVersion>, steps: seq<Step>) {
    |steps| == |vs| && forall i | 0 <= i < |steps| :: steps[i] == Step(Plan(All, package, vs[i]), Clean)
  }

  lemma PassStep(package: int, vs: seq<SourceVersion>, worlds: seq<World>, steps: seq<Step>, i: nat)
    requires CleanPass(package, vs, steps) && History(worlds, steps) && AllWellSpelled(vs) && i < |vs|
    ensures |worlds| == |vs| + 1 && vs[i] in vs && WellSpelled(vs[i])
    ensures Stepped(Step(Plan(All, package, vs[i]), Clean), worlds[i], worlds[i + 1])
  {
    assert Stepped(steps[i], worlds[i], worlds[i + 1]);
  }

  lemma {:induction false} CleanPassInPlace(package: int, vs: seq<SourceVersion>, worlds: seq<World>, steps: seq<Step>, i: nat, n: nat)
    requires ValidSourceTags(vs) && AllWellSpelled(vs) && CleanPass(package, vs, steps) && History(worlds, steps)
    requires i < n <= |vs| < |worlds|
    ensures InPlace(worlds[n].dest, Plan(All, package, vs[i]))
  {
    hide *;
    PassStep(package, vs, worlds, steps, i);
    PassStep(package, vs, worlds, steps, n - 1);
    if i == n - 1 {
      CleanStepInPlace(Plan(All, package, vs[i]), worlds[i], worlds[n]);
    } else {
      CleanPassInPlace(package, vs, worlds, steps, i, n - 1);
      StepKeepsInPlace(package, vs, vs[i], vs[n - 1], worlds[n - 1], Clean, worlds[n]);
    }
  }

  /** Every source tag and every preservation tag resolves to its own version's digest. */
  ghost predicate AllPreserved(vs: seq<SourceVersion>, d: Dest) {
    && (forall v, t | v in vs && t in v.tags :: Resolves(d, Fold(t), v.digest))
    && (forall v | v in vs :: Resolves(d, PreservationTag(v.digest), v.digest))
  }

  /** ALL-MODE PRESERVATION. A warning-free all-mode pass over a listing leaves every source tag
      and every preservation tag on its own version's digest. */
  lemma CleanPassPreservesAll(package: int, vs: seq<SourceVersion>, worlds: seq<World>, steps: seq<Step>)
    requires ValidSourceTags(vs) && AllWellSpelled(vs) && CleanPass(package, vs, steps) && History(worlds, steps)
    ensures AllPreserved(vs, worlds[|vs|].dest)
  {
    forall v | v in vs
      ensures forall t | t in v.tags :: Resolves(worlds[|vs|].dest, Fold(t), v.digest)
      ensures Resolves(worlds[|vs|].dest, PreservationTag(v.digest), v.digest)
    {
      var i :| 0 <= i < |vs| && vs[i] == v;
      CleanPassInPlace(package, vs, worlds, steps, i, |vs|);
      PlannedMembers(All, package, v);
      PreservationTagIsFolded(v.digest);
    }
  }

  /** The same of a listing that was mirrored in sorted order. */
  lemma SortedPassPreserves(package: int, vs: seq<SourceVersion>, worlds: seq<World>, steps: seq<Step>)
    requires ValidSourceTags(vs) && History(worlds, steps) && |steps| == |vs|
    requires forall i | 0 <= i < |steps| :: steps[i].job == Plan(All, package, SortVersions(vs)[i]) && steps[i].outcome == Clean
    ensures AllWellSpelled(vs) ==> AllPreserved(vs, worlds[|steps|].dest)
  {
    assert |worlds| > |steps|;
    hide *;
    var ordered := SortVersions(vs);
    if AllWellSpelled(vs) {
      SameListing(vs, ordered, worlds[|steps|].dest);
      SameListing(ordered, vs, worlds[|steps|].dest);
      IsCleanPass(package, ordered, steps);
      CleanPassPreservesAll(package, ordered, worlds, steps);
    }
  }

  lemma IsCleanPass(package: int, vs: seq<SourceVersion>, steps: seq<Step>)
    requires |steps| == |vs| && forall i | 0 <= i < |steps| :: steps[i].job == Plan(All, package, vs[i]) && steps[i].outcome == Clean
    ensures CleanPass(package, vs, steps)
  {
    hide Plan;
  }

  lemma SameListing(a: seq<SourceVersion>, b: seq<SourceVersion>, d: Dest)
    requires forall v :: v in a <==> v in b
    ensures ValidSourceTags(a) ==> ValidSourceTags(b)
    ensures AllWellSpelled(a) ==> AllWellSpelled(b)
    ensures AllPreserved(a, d) ==> AllPreserved(b, d)
  {
    hide FoldDistinct, ValidTag, Fold, WellSpelled, Resolves, PreservationTag;
  }

  lemma SharedTagSharesDigest(package: int, vs: seq<SourceVersion>, v: SourceVersion, x: SourceVersion, t: Tag)
    requires ValidSourceTags(vs) && v in vs && x in vs && WellSpelled(v) && WellSpelled(x)
    requires t in Plan(All, package, v).tags && Fold(t) in Folds(Plan(All, package, x).tags)
    ensures v.digest == x.digest
  {
    var u :| u in Plan(All, package, x).tags && Fold(u) == Fold(t);
    PlannedMembers(All, package, v);
    PlannedMembers(All, package, x);
    PreservationTagIsFolded(v.digest);
    PreservationTagIsFolded(x.digest);
    if t !in v.tags && u !in x.tags {
      PreservationTagInjective(v.digest, x.digest);
    }
  }

  // ---------------------------------------------------------------- repeated recovery

  lemma {:induction false} CopyTagsLink(d: Dest, tags: seq<Tag>, g: Digest, link: Option<string>)
    ensures CopyTags(d.(link := link), tags, g) == CopyTags(d, tags, g).(link := link)
  {
    if tags != [] {
      CopyTagsLink(d, tags[..|tags| - 1], g, link);
    }
  }

  /** Whom the package is linked to makes no difference to the tags and the journal. */
  lemma LinkIsNoMatter(w: World, x: World, job: Job)
    requires SameUpToLink(x, w)
    ensures SameUpToLink(Finished(x, job), Finished(w, job))
    ensures (MayStart(x, job) <==> MayStart(w, job)) && (RetrySafe(x, job) <==> RetrySafe(w, job))
  {
    assert x.dest == w.dest.(link := x.dest.link);
    CopyTagsLink(w.dest, job.tags, job.digest, x.dest.link);
    hide CopyTags, Fold, FoldDistinct, Records, OwnedIds;
    assert forall t :: TagAdmitted(x, job, t) <==> TagAdmitted(w, job, t);
  }

  /** An interrupted attempt leaves a row that is still safe to retry. */
  lemma AttemptStaysSafe(w: World, job: Job, k: nat)
    requires k <= |job.tags| && RetrySafe(w, job)
    ensures RetrySafe(Attempt(w, job, k), job)
  {
    CopyTagsEffect(w.dest, job.tags[..k], job.digest);
    hide CopyTags, Fold;
  }

  /** One failed attempt changes nothing about whether and where the next one ends. */
  lemma FailedStepRecovers(w: World, job: Job, r: Outcome, w': World)
    requires Valid(w, job.package) && MayStart(w, job) && RetrySafe(w, job) && r != Clean && Stepped(Step(job, r), w, w')
    ensures Valid(w', job.package) && MayStart(w', job) && RetrySafe(w', job)
    ensures SameUpToLink(Finished(w', job), Finished(w, job))
  {
    VersionStepValid(job, w, r, w');
    if w' != w {
      var k: nat :| AttemptedUpTo(job, w, w', k);
      RetryAdmittedIff(w, job);
      AttemptStaysSafe(w, job, k);
      RetryReachesTheSameWorld(w, job, k);
      hide Valid, MayStart, RetrySafe, Finished, Attempt;
      LinkIsNoMatter(Attempt(w, job, k), w', job);
    }
  }

  /** CRASH RECOVERY. After any number of failed or interrupted attempts at a version, each at
      any point, the next attempt is still let through, and run to its end it leaves the tags and
      the journal that one undisturbed attempt would have left. */
  lemma {:induction false} RecoveryChain(job: Job, worlds: seq<World>, steps: seq<Step>)
    requires History(worlds, steps) && forall s | s in steps :: s.job == job && s.outcome != Clean
    requires Valid(worlds[0], job.package) && MayStart(worlds[0], job) && RetrySafe(worlds[0], job)
    ensures Valid(worlds[|steps|], job.package) && MayStart(worlds[|steps|], job) && RetrySafe(worlds[|steps|], job)
    ensures SameUpToLink(Finished(worlds[|steps|], job), Finished(worlds[0], job))
  {
    hide Valid, MayStart, RetrySafe, Finished, Stepped;
    if steps != [] {
      var n := |steps| - 1;
      HistoryInit(worlds, steps);
      assert forall s | s in steps[..n] :: s in steps;
      RecoveryChain(job, worlds[..n + 1], steps[..n]);
      assert steps[n] in steps && Stepped(steps[n], worlds[n], worlds[n + 1]);
      FailedStepRecovers(worlds[n], job, steps[n].outcome, worlds[n + 1]);
    }
  }

  // ---------------------------------------------------------------- cleanup

  function WithoutTag(d: Dest, u: Tag): Dest {
    d.(tags := d.tags - {u})
  }

  /** Deleting a manifest takes every tag that resolves to it along. */
  function WithoutManifest(d: Dest, g: Digest): Dest {
    d.(tags := map u | u in d.tags && d.tags[u].digest != g :: d.tags[u], manifests := d.manifests - {g})
  }

  /** A row's claim on what a tag currently is: its exact id, or an intention at its digest. */
  predicate Claims(d: Dest, r: Record, t: Tag)
    requires t in r.versions
  {
    && Fold(t) in d.tags
    && (d.tags[Fold(t)].id == r.versions[t] || (r.versions[t] == 0 && d.tags[Fold(t)].digest == r.digest))
  }

  lemma ClaimedTagIsNotForeign(w: World, package: int, x: int, t: Tag)
    requires Valid(w, package) && x in Records(w.journal, package) && t in w.journal[x].versions
    requires Claims(w.dest, w.journal[x], t)
    ensures !Foreign(w, package, Fold(t))
  {
    if w.journal[x].versions[t] > 0 {
      assert Records(w.journal, package)[x].versions[t] in OwnedIds(Records(w.journal, package));
    } else {
      assert Intends(w, x, t, Fold(t));
    }
  }

  /** Removing a claimed tag leaves every foreign tag alone. */
  lemma WithoutTagKeeps(w: World, package: int, x: int, t: Tag)
    requires Valid(w, package) && x in Records(w.journal, package) && t in w.journal[x].versions
    requires Claims(w.dest, w.journal[x], t)
    ensures var w' := World(WithoutTag(w.dest, Fold(t)), w.journal);
            Valid(w', package) && ForeignKept(w, w', package)
  {
    var w' := World(WithoutTag(w.dest, Fold(t)), w.journal);
    ClaimedTagIsNotForeign(w, package, x, t);
    forall u | Foreign(w, package, u)
      ensures StaysForeign(w, w', package, u)
    {
      forall v, y | v in Records(w'.journal, package) && y in w'.journal[v].versions
        ensures !Intends(w', v, y, u)
      {
        assert !Intends(w, v, y, u);
      }
    }
  }

  /** Rows may only lose claims: same digest, fewer tags, fewer rows. */
  ghost predicate Shrunk(j: Journal, j': Journal, package: int) {
    forall x | x in Records(j', package) ::
      x in j && j[x].package == package && j[x].digest == j'[x].digest && VersionsWithin(j'[x].versions, j[x].versions)
  }

  ghost predicate VersionsWithin(a: map<Tag, nat>, b: map<Tag, nat>) {
    forall t | t in a :: t in b && a[t] == b[t]
  }

  lemma ShrinkingKeeps(w: World, j': Journal, package: int)
    requires Valid(w, package) && Shrunk(w.journal, j', package)
    ensures Valid(World(w.dest, j'), package) && ForeignKept(w, World(w.dest, j'), package)
  {
    var w' := World(w.dest, j');
    forall x | x in Records(j', package)
      ensures RecordValid(w.dest, j'[x])
    {
      assert x in Records(w.journal, package);
      assert VersionsWithin(j'[x].versions, w.journal[x].versions);
    }
    forall x, t | x in Records(j', package) && t in j'[x].versions
      ensures x in Records(w.journal, package) && t in w.journal[x].versions && j'[x].versions[t] == w.journal[x].versions[t]
    {
      assert VersionsWithin(j'[x].versions, w.journal[x].versions);
    }
    OwnedIdsMonotone(Records(j', package), Records(w.journal, package));
    forall u | Foreign(w, package, u)
      ensures StaysForeign(w, w', package, u)
    {
      forall v, t | v in Records(j', package) && t in j'[v].versions
        ensures !Intends(w', v, t, u)
      {
        assert !Intends(w, v, t, u);
      }
    }
  }

  /** Deleting a manifest nothing resolves to leaves every tag as it was. */
  lemma WithoutManifestKeeps(w: World, package: int, g: Digest)
    requires Valid(w, package) && forall u | u in w.dest.tags :: w.dest.tags[u].digest != g
    ensures var w' := World(WithoutManifest(w.dest, g), w.journal);
            w'.dest.tags == w.dest.tags && Valid(w', package) && ForeignKept(w, w', package)
  {
    var w' := World(WithoutManifest(w.dest, g), w.journal);
    assert w'.dest.tags == w.dest.tags;
    forall u | Foreign(w, package, u)
      ensures StaysForeign(w, w', package, u)
    {
      forall v, t | v in Records(w'.journal, package) && t in w'.journal[v].versions
        ensures !Intends(w', v, t, u)
      {
        assert !Intends(w, v, t, u);
      }
    }
  }
}
