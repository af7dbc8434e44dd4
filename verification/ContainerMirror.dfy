/** The container mirror of githarbor/services/containers.py: a destination registry whose
    every call may fail, and the service that journals, copies and cleans up. */
module ContainerMirror {
  import opened Wrappers
  import opened ContainerTags
  import opened ContainerJournal
  import opened ContainerRuns
  import Size = SizeEstimator

  datatype Listing = Listing(versions: map<Tag, Entry>, link: Option<string>)

  /** A destructive request, with the destination as it stood when the request was sent. */
  datatype Deletion = TagDeletion(before: Dest, tag: Tag) | ManifestDeletion(before: Dest, digest: Digest)

  /** The Gitea package and its registry. A call that does not answer may still have taken
      effect; `faults` counts calls that did not do exactly what was asked. */
  class Destination {
    var tags: map<Tag, Entry>
    var manifests: set<Digest>
    var nextId: nat
    var link: Option<string>
    ghost var deletions: seq<Deletion>
    ghost var faults: nat

    ghost function View(): Dest
      reads this
    {
      Dest(tags, manifests, nextId, link)
    }

    method InspectTag(t: Tag) returns (r: Reply<Option<Digest>>)
      modifies this`faults
      ensures r.Answer? ==> r.value == if Fold(t) in tags then Some(tags[Fold(t)].digest) else None
      ensures faults == old(faults) + if r.Answer? then 0 else 1
    {
      var fate: Reply<()> := *;
      if fate.Answer? {
        r := Answer(if Fold(t) in tags then Some(tags[Fold(t)].digest) else None);
      } else {
        r := if fate.Error? then Error else Crash;
        faults := faults + 1;
      }
    }

    method InspectManifest(g: Digest) returns (r: Reply<bool>)
      modifies this`faults
      ensures r.Answer? ==> r.value == (g in manifests)
      ensures faults == old(faults) + if r.Answer? then 0 else 1
    {
      var fate: Reply<()> := *;
      if fate.Answer? {
        r := Answer(g in manifests);
      } else {
        r := if fate.Error? then Error else Crash;
        faults := faults + 1;
      }
    }

    /** Copies the source image to a tag. Even a copy that reports success may have stored nothing. */
    method Copy(t: Tag, g: Digest) returns (r: Reply<()>)
      modifies this`tags, this`manifests, this`nextId, this`faults
      ensures View() == old(View()) || View() == Put(old(View()), Fold(t), g)
      ensures faults >= old(faults)
      ensures faults == old(faults) ==> r.Answer? && View() == Put(old(View()), Fold(t), g)
    {
      r := *;
      var stored: bool := *;
      if stored {
        tags := tags[Fold(t) := Entry(nextId, g)];
        manifests := manifests + {g};
        nextId := nextId + 1;
      }
      if !r.Answer? || !stored {
        faults := faults + 1;
      }
    }

    /** Lists the package's tags and link; tags in `mayLag` may not be visible yet. */
    method ListVersions(mayLag: set<Tag>) returns (r: Reply<Listing>)
      modifies this`faults
      ensures r.Answer? ==> r.value.link == link && forall u | u in r.value.versions :: u in tags && r.value.versions[u] == tags[u]
      ensures r.Answer? ==> forall u | u in tags && u !in mayLag :: u in r.value.versions
      ensures faults >= old(faults)
      ensures faults == old(faults) ==> r.Answer? && r.value.versions == tags
    {
      var fate: Reply<()> := *;
      var lag: bool := *;
      if fate.Answer? {
        r := Answer(Listing(if lag then tags - mayLag else tags, link));
      } else {
        r := if fate.Error? then Error else Crash;
      }
      if !fate.Answer? || lag {
        faults := faults + 1;
      }
    }

    method LinkPackage(repository: string) returns (r: Reply<()>)
      modifies this`link, this`faults
      ensures link == old(link) || link == Some(repository)
      ensures faults >= old(faults)
      ensures faults == old(faults) ==> r.Answer? && link == Some(repository)
    {
      r := *;
      var stored: bool := *;
      if stored {
        link := Some(repository);
      }
      if !r.Answer? || !stored {
        faults := faults + 1;
      }
    }

    /** Deletes one tag; an absent tag is an error. */
    method DeleteVersion(t: Tag) returns (r: Reply<()>)
      modifies this`tags, this`deletions, this`faults
      ensures deletions == old(deletions) + [TagDeletion(old(View()), Fold(t))]
      ensures View() == old(View()) || (Fold(t) in old(tags) && View() == WithoutTag(old(View()), Fold(t)))
      ensures r.Answer? ==> Fold(t) !in tags
      ensures faults >= old(faults)
      ensures faults == old(faults) && Fold(t) in old(tags) ==> r.Answer?
    {
      deletions := deletions + [TagDeletion(View(), Fold(t))];
      r := *;
      var removed: bool := *;
      if !r.Answer? {
        faults := faults + 1;
      }
      if Fold(t) !in tags {
        if r.Answer? {
          r := Error;
        }
      } else if r.Answer? || removed {
        tags := tags - {Fold(t)};
      }
    }

    method ListTags() returns (r: Reply<set<Tag>>)
      modifies this`faults
      ensures r.Answer? ==> r.value == tags.Keys
      ensures faults == old(faults) + if r.Answer? then 0 else 1
    {
      var fate: Reply<()> := *;
      if fate.Answer? {
        r := Answer(tags.Keys);
      } else {
        r := if fate.Error? then Error else Crash;
        faults := faults + 1;
      }
    }

    /** Deletes a manifest by digest, and with it every tag that resolves to it. */
    method DeleteManifest(g: Digest) returns (r: Reply<()>)
      modifies this`tags, this`manifests, this`deletions, this`faults
      ensures deletions == old(deletions) + [ManifestDeletion(old(View()), g)]
      ensures View() == old(View()) || View() == WithoutManifest(old(View()), g)
      ensures r.Answer? ==> View() == WithoutManifest(old(View()), g)
      ensures faults == old(faults) + if r.Answer? then 0 else 1
    {
      deletions := deletions + [ManifestDeletion(View(), g)];
      r := *;
      var removed: bool := *;
      if r.Answer? || removed {
        tags := map u | u in tags && tags[u].digest != g :: tags[u];
        manifests := manifests - {g};
      }
      if !r.Answer? {
        faults := faults + 1;
      }
    }
  }

  /** Every protected tag of the current row still resolves to its digest, the request spares
      those tags, hits only tags an older row lays exact claim to, and never takes a manifest
      that some tag resolves to. */
  ghost predicate SafeDeletion(del: Deletion, current: Record, rows: Journal) {
    && (forall t | t in current.versions :: Resolves(del.before, Fold(t), current.digest))
    && match del
       case TagDeletion(before, u) => u !in Folded(current.versions) && (u in before.tags ==> ClaimedBy(rows, before, u))
       case ManifestDeletion(before, g) => forall u | u in before.tags :: before.tags[u].digest != g
  }

  ghost predicate ClaimedBy(rows: Journal, d: Dest, u: Tag) {
    exists x, t | x in rows && t in rows[x].versions :: Fold(t) == u && Claims(d, rows[x], t)
  }

  function Folded(versions: map<Tag, nat>): set<Tag> {
    set t | t in versions :: Fold(t)
  }

  ghost predicate TagsWithin(a: map<Tag, Entry>, b: map<Tag, Entry>) {
    forall u | u in a :: u in b && a[u] == b[u]
  }

  /** What cleanup may do between two points: drop tags and claims, spare the current row and
      its tags, foreign tags and other packages. */
  ghost predicate Cleaned(w: World, w': World, package: int, current: int) {
    && Valid(w', package) && ForeignKept(w, w', package)
    && TagsWithin(w'.dest.tags, w.dest.tags)
    && Shrunk(w.journal, w'.journal, package)
    && current in w.journal && current in w'.journal && w'.journal[current] == w.journal[current]
    && (forall t | t in w.journal[current].versions :: Resolves(w'.dest, Fold(t), w.journal[current].digest))
    && OtherPackagesKept(w.journal, w'.journal, package)
  }

  ghost predicate OtherPackagesKept(j: Journal, j': Journal, package: int) {
    && (forall x | x in j && j[x].package != package :: x in j' && j'[x] == j[x])
    && (forall x | x in j' && j'[x].package != package :: x in j && j'[x] == j[x])
  }

  lemma CleanedTransitive(a: World, b: World, c: World, package: int, current: int)
    requires Cleaned(a, b, package, current) && Cleaned(b, c, package, current)
    ensures Cleaned(a, c, package, current)
  {
    ForeignKeptTransitive(a, b, c, package);
    forall x | x in Records(c.journal, package)
      ensures x in a.journal && a.journal[x].package == package && a.journal[x].digest == c.journal[x].digest
      ensures VersionsWithin(c.journal[x].versions, a.journal[x].versions)
    {
      assert x in Records(b.journal, package);
    }
  }

  ghost predicate DeletionsSafe(before: seq<Deletion>, after: seq<Deletion>, current: Record, rows: Journal) {
    before <= after && forall i | |before| <= i < |after| :: SafeDeletion(after[i], current, rows)
  }

  lemma DeletionsSafeTransitive(a: seq<Deletion>, b: seq<Deletion>, c: seq<Deletion>, current: Record, rows: Journal)
    requires DeletionsSafe(a, b, current, rows) && DeletionsSafe(b, c, current, rows)
    ensures DeletionsSafe(a, c, current, rows)
  {
  }

  lemma ForeignKeptReflexive(w: World, package: int)
    ensures ForeignKept(w, w, package)
  {
    forall u | Foreign(w, package, u)
      ensures StaysForeign(w, w, package, u)
    {
    }
  }

  lemma DropTagCleaned(w: World, package: int, current: int, x: int, t: Tag)
    requires Cleaned(w, w, package, current)
    requires x in Records(w.journal, package) && t in w.journal[x].versions && Claims(w.dest, w.journal[x], t)
    requires Fold(t) !in Folded(w.journal[current].versions)
    ensures Cleaned(w, World(WithoutTag(w.dest, Fold(t)), w.journal), package, current)
  {
    WithoutTagKeeps(w, package, x, t);
    assert forall y | y in w.journal[current].versions :: Fold(y) in Folded(w.journal[current].versions);
  }

  lemma ShrinkCleaned(w: World, j': Journal, package: int, current: int)
    requires Cleaned(w, w, package, current) && Shrunk(w.journal, j', package)
    requires current in j' && j'[current] == w.journal[current] && OtherPackagesKept(w.journal, j', package)
    ensures Cleaned(w, World(w.dest, j'), package, current)
  {
    ShrinkingKeeps(w, j', package);
  }

  lemma DropManifestCleaned(w: World, package: int, current: int, g: Digest)
    requires Cleaned(w, w, package, current) && forall u | u in w.dest.tags :: w.dest.tags[u].digest != g
    ensures Cleaned(w, World(WithoutManifest(w.dest, g), w.journal), package, current)
    ensures WithoutManifest(w.dest, g).tags == w.dest.tags
  {
    WithoutManifestKeeps(w, package, g);
  }

  lemma RowNamesJob(w: World, job: Job)
    requires job.id in w.journal && w.journal[job.id].package == job.package && w.journal[job.id].digest == job.digest
    requires InPlace(w.dest, job) && forall t :: t in w.journal[job.id].versions <==> t in job.tags
    ensures job.id in Records(w.journal, job.package) && Folded(w.journal[job.id].versions) == Folds(job.tags)
    ensures forall t | t in w.journal[job.id].versions :: Resolves(w.dest, Fold(t), w.journal[job.id].digest)
  {
  }

  lemma RowInPlace(job: Job, row: Record, d: Dest)
    requires row.digest == job.digest && forall t :: t in row.versions <==> t in job.tags
    requires forall t | t in row.versions :: Resolves(d, Fold(t), row.digest)
    ensures InPlace(d, job)
  {
  }

  /** The package's rows are down to one, and every older row's manifest is gone, as is every
      tag it recorded unless it is one of the current tags. */
  ghost predicate OnlyRowLeft(before: Journal, after: Journal, package: int, current: int, tags: map<Tag, Entry>,
                              manifests: set<Digest>, kept: set<Tag>) {
    && (forall x :: x in Records(after, package) <==> x == current)
    && (forall x | x in Records(before, package) && x != current :: RowGone(before[x], tags, kept) && before[x].digest !in manifests)
  }

  lemma OnlyRowLeftIntro(before: Journal, after: Journal, package: int, current: int, done: set<int>,
                         tags: map<Tag, Entry>, manifests: set<Digest>, kept: set<Tag>)
    requires RowsGone(Records(before, package), done, tags, kept) && ManifestsGone(Records(before, package), done, manifests)
    requires forall x | x in Records(before, package) :: x in done || x == current
    requires current in after && after[current].package == package
    requires forall x | x in after && after[x].package == package :: x == current
    ensures OnlyRowLeft(before, after, package, current, tags, manifests, kept)
  {
  }

  lemma CleanedFrame(w: World, w': World, package: int, current: int)
    requires Cleaned(w, w', package, current)
    ensures Valid(w', package) && ForeignKept(w, w', package)
  {
  }

  /** Nothing stands in the way of removing every older row. */
  ghost predicate AllPrunable(w: World, package: int, current: int) {
    current in w.journal && forall x | x in Records(w.journal, package) && x != current ::
      Prunable(w.dest, w.journal[x], Folded(w.journal[current].versions))
  }

  lemma PrunableAt(w: World, w': World, package: int, current: int, x: int)
    requires current in w.journal && Cleaned(w, w', package, current) && AllPrunable(w, package, current) && x in Records(w.journal, package) && x != current
    ensures Prunable(w'.dest, w.journal[x], Folded(w.journal[current].versions))
  {
    hide Valid, ForeignKept, Shrunk, Prunable;
    PrunableKept(w.dest, w'.dest, w.journal[x], Folded(w.journal[current].versions));
  }

  /** Rows still to be cleaned up are as they were; the others are done or the current one. */
  ghost predicate Remaining(rows: Journal, j: Journal, package: int, current: int, todo: set<int>, done: set<int>, clean: bool) {
    && (forall x | x in todo :: x != current && x in rows && x in j && j[x] == rows[x] && rows[x].package == package)
    && (forall x | x in rows :: x in done || x in todo || x == current)
    && (clean ==> forall x | x in j && j[x].package == package :: x == current || x in todo)
  }

  lemma RemainingAt(rows: Journal, j: Journal, package: int, current: int, todo: set<int>, done: set<int>, clean: bool, x: int)
    requires Remaining(rows, j, package, current, todo, done, clean) && x in todo
    ensures x != current && x in rows && x in j && j[x] == rows[x] && rows[x].package == package
  {
  }

  lemma RemainingNext(rows: Journal, j: Journal, j': Journal, package: int, current: int, todo: set<int>, done: set<int>,
                      clean: bool, clean': bool, x: int)
    requires Remaining(rows, j, package, current, todo, done, clean) && x in todo && (clean' ==> clean && x !in j')
    requires forall y | y in j && y != x :: y in j' && j'[y] == j[y]
    requires forall y | y in j' :: y in j && j'[y].package == j[y].package
    ensures Remaining(rows, j', package, current, todo - {x}, done + {x}, clean')
  {
  }

  /** A cleanup that began in world `w` has dealt with the rows `done` and not yet with `todo`. */
  ghost predicate Cleaning(w: World, now: World, log: seq<Deletion>, deletions: seq<Deletion>, package: int, current: int,
                           todo: set<int>, done: set<int>, clean: bool) {
    && current in w.journal && Cleaned(w, now, package, current)
    && Remaining(Records(w.journal, package), now.journal, package, current, todo, done, clean)
    && DeletionsSafe(log, deletions, w.journal[current], Records(w.journal, package))
    && (clean ==> RowsGone(Records(w.journal, package), done, now.dest.tags, Folded(w.journal[current].versions))
                  && ManifestsGone(Records(w.journal, package), done, now.dest.manifests))
  }

  lemma CleaningStarts(w: World, package: int, current: int, log: seq<Deletion>)
    requires Valid(w, package) && current in Records(w.journal, package)
    requires forall t | t in w.journal[current].versions :: Resolves(w.dest, Fold(t), w.journal[current].digest)
    ensures var todo := set x | x in w.journal && w.journal[x].package == package && x != current;
            Cleaning(w, w, log, log, package, current, todo, {}, true)
  {
    ForeignKeptReflexive(w, package);
    hide Valid, ForeignKept, Resolves, Fold;
  }

  lemma CleaningAt(w: World, now: World, log: seq<Deletion>, deletions: seq<Deletion>, package: int, current: int,
                   todo: set<int>, done: set<int>, clean: bool, x: int)
    requires Cleaning(w, now, log, deletions, package, current, todo, done, clean) && x in todo
    ensures Cleaned(w, now, package, current) && Cleaned(now, now, package, current) && current in now.journal && current in w.journal
    ensures now.journal[current] == w.journal[current] && x != current
    ensures x in Records(now.journal, package) && x in Records(w.journal, package) && x in now.journal && x in w.journal
    ensures now.journal[x] == w.journal[x] && Records(w.journal, package)[x] == w.journal[x]
    ensures AllPrunable(w, package, current) ==> Prunable(now.dest, now.journal[x], Folded(w.journal[current].versions))
    ensures DeletionsSafe(log, deletions, w.journal[current], Records(w.journal, package))
  {
    CleanedReflexive(w, now, package, current);
    if AllPrunable(w, package, current) {
      PrunableAt(w, now, package, current, x);
    }
    hide Valid, ForeignKept, Shrunk, Prunable, AllPrunable, Fold, Folded, DeletionsSafe, OtherPackagesKept;
  }

  lemma CleaningAdvances(w: World, mid: World, now: World, log: seq<Deletion>, before: seq<Deletion>, after: seq<Deletion>,
                         package: int, current: int, todo: set<int>, done: set<int>, clean: bool, clean': bool, x: int)
    requires Cleaning(w, mid, log, before, package, current, todo, done, clean) && x in todo && (clean' ==> clean)
    requires Cleaned(w, now, package, current) && DeletionsSafe(log, after, w.journal[current], Records(w.journal, package))
    requires TagsWithin(now.dest.tags, mid.dest.tags) && now.dest.manifests <= mid.dest.manifests
    requires forall y | y in mid.journal && y != x :: y in now.journal && now.journal[y] == mid.journal[y]
    requires forall y | y in now.journal :: y in mid.journal && now.journal[y].package == mid.journal[y].package
    requires x in w.journal && (clean' ==> x !in now.journal && w.journal[x].digest !in now.dest.manifests
                                           && RowGone(w.journal[x], now.dest.tags, Folded(w.journal[current].versions)))
    ensures Cleaning(w, now, log, after, package, current, todo - {x}, done + {x}, clean')
  {
    var rows := Records(w.journal, package);
    RemainingAt(rows, mid.journal, package, current, todo, done, clean, x);
    RemainingNext(rows, mid.journal, now.journal, package, current, todo, done, clean, clean', x);
    hide Cleaned, Remaining, DeletionsSafe;
    if clean' {
      RowsStayGone(rows, done, x, mid.dest.tags, now.dest.tags, Folded(w.journal[current].versions));
      ManifestsStayGone(rows, done, x, mid.dest.manifests, now.dest.manifests);
    }
  }

  lemma CleaningEnds(w: World, now: World, log: seq<Deletion>, deletions: seq<Deletion>, package: int, current: int,
                     done: set<int>, clean: bool)
    requires Cleaning(w, now, log, deletions, package, current, {}, done, clean) && current in Records(w.journal, package)
    ensures Cleaned(w, now, package, current) && DeletionsSafe(log, deletions, w.journal[current], Records(w.journal, package))
    ensures current in now.journal && now.journal[current] == w.journal[current]
    ensures forall t | t in w.journal[current].versions :: Resolves(now.dest, Fold(t), w.journal[current].digest)
    ensures clean ==> OnlyRowLeft(w.journal, now.journal, package, current, now.dest.tags, now.dest.manifests, Folded(w.journal[current].versions))
  {
    hide Valid, ForeignKept, Shrunk, OtherPackagesKept, DeletionsSafe, RowsGone, ManifestsGone, Resolves, Fold, Folded, OnlyRowLeft;
    if clean {
      OnlyRowLeftIntro(w.journal, now.journal, package, current, done, now.dest.tags, now.dest.manifests, Folded(w.journal[current].versions));
    }
  }

  lemma CleanedTagsWithin(w: World, w': World, package: int, current: int)
    requires Cleaned(w, w', package, current)
    ensures TagsWithin(w'.dest.tags, w.dest.tags)
  {
    hide Valid, ForeignKept, Shrunk, OtherPackagesKept, Resolves, Fold;
  }

  lemma PrunableParts(d: Dest, row: Record, protected: set<Tag>)
    requires Prunable(d, row, protected)
    ensures Provable(d, row, protected)
  {
  }

  /** With the row's tags gone, nothing resolves to its digest any more. */
  lemma NoneLeft(d: Dest, d': Dest, row: Record, protected: set<Tag>)
    requires Prunable(d, row, protected) && TagsWithin(d'.tags, d.tags) && RowGone(row, d'.tags, protected)
    ensures forall u | u in d'.tags :: d'.tags[u].digest != row.digest
  {
  }

  /** A row that keeps fewer claims, and one that is dropped. */
  lemma RowShrinks(w: World, j': Journal, package: int, current: int, x: int)
    requires Cleaned(w, w, package, current) && x in Records(w.journal, package) && x != current
    requires x in j' && j' == w.journal[x := j'[x]] && j'[x] == w.journal[x].(versions := j'[x].versions)
    requires VersionsWithin(j'[x].versions, w.journal[x].versions)
    ensures Cleaned(w, World(w.dest, j'), package, current)
  {
    hide Valid, ForeignKept;
    ShrinkCleaned(w, j', package, current);
  }

  lemma RowDrops(w: World, package: int, current: int, x: int)
    requires Cleaned(w, w, package, current) && x in Records(w.journal, package) && x != current
    ensures Cleaned(w, World(w.dest, w.journal - {x}), package, current)
  {
    hide Valid, ForeignKept;
    ShrinkCleaned(w, w.journal - {x}, package, current);
  }

  lemma CleanedReflexive(w: World, w': World, package: int, current: int)
    requires Cleaned(w, w', package, current)
    ensures Cleaned(w', w', package, current)
  {
    ForeignKeptReflexive(w', package);
  }

  /** The row can prove it owns each of its tags that is still there and not protected. */
  ghost predicate Provable(d: Dest, row: Record, protected: set<Tag>) {
    && (forall t, u | t in row.versions && u in row.versions && Fold(t) == Fold(u) :: t == u)
    && (forall t | t in row.versions && Fold(t) in d.tags && Fold(t) !in protected :: Claims(d, row, t))
  }

  /** Nothing stands in the way of removing the row: its tags are provably its own, and no tag
      that would stay resolves to its digest. */
  ghost predicate Prunable(d: Dest, row: Record, protected: set<Tag>) {
    && Provable(d, row, protected)
    && (forall u | u in d.tags && d.tags[u].digest == row.digest :: exists t :: t in row.versions && Fold(t) == u && u !in protected)
  }

  /** Tags still to be looked at are as they were. */
  ghost predicate Untouched(before: map<Tag, Entry>, tags: map<Tag, Entry>, todo: set<Tag>) {
    forall t | t in todo && Fold(t) in before :: Fold(t) in tags
  }

  lemma UntouchedNext(d: Dest, tags: map<Tag, Entry>, tags': map<Tag, Entry>, row: Record, protected: set<Tag>, todo: set<Tag>, t: Tag)
    requires Provable(d, row, protected) && todo <= row.versions.Keys && t in row.versions && t !in todo
    requires Untouched(d.tags, tags, todo) && forall u | u in tags && u != Fold(t) :: u in tags'
    ensures Untouched(d.tags, tags', todo)
  {
  }

  lemma ProvableNow(d: Dest, d': Dest, row: Record, protected: set<Tag>, todo: set<Tag>, t: Tag)
    requires Provable(d, row, protected) && Untouched(d.tags, d'.tags, todo) && t in todo && todo <= row.versions.Keys
    requires TagsWithin(d'.tags, d.tags)
    ensures Fold(t) in d.tags && Fold(t) !in protected ==> Fold(t) in d'.tags && Claims(d', row, t)
    ensures Untouched(d.tags, d'.tags, todo - {t})
  {
  }

  /** Every tag of the row that was looked at is kept, protected or gone. */
  ghost predicate LookedAt(row: Record, todo: set<Tag>, retained: map<Tag, nat>, protected: set<Tag>, tags: map<Tag, Entry>) {
    forall t | t in row.versions && t !in todo :: t in retained || Fold(t) in protected || Fold(t) !in tags
  }

  /** Every tag but `t`, which is being looked at. */
  ghost predicate LookedBut(row: Record, todo: set<Tag>, retained: map<Tag, nat>, protected: set<Tag>, tags: map<Tag, Entry>, t: Tag) {
    forall u | u in row.versions && u !in todo && u != t :: u in retained || Fold(u) in protected || Fold(u) !in tags
  }

  lemma LookedMore(row: Record, todo: set<Tag>, retained: map<Tag, nat>, protected: set<Tag>, tags: map<Tag, Entry>,
                   listing: map<Tag, Entry>, t: Tag)
    requires LookedAt(row, todo, retained, protected, tags) && TagsWithin(tags, listing)
    ensures LookedBut(row, todo - {t}, retained, protected, tags, t)
    ensures Fold(t) in protected || Fold(t) !in listing ==> LookedAt(row, todo - {t}, retained, protected, tags)
  {
  }

  lemma LookedAway(row: Record, todo: set<Tag>, retained: map<Tag, nat>, protected: set<Tag>, tags: map<Tag, Entry>,
                   tags': map<Tag, Entry>, t: Tag, keep: bool)
    requires LookedBut(row, todo, retained, protected, tags, t) && TagsWithin(tags', tags) && t in row.versions
    requires !keep ==> Fold(t) !in tags'
    ensures LookedAt(row, todo, if keep then retained[t := row.versions[t]] else retained, protected, tags')
  {
  }

  lemma KeptWithin(row: Record, retained: map<Tag, nat>, t: Tag)
    requires VersionsWithin(retained, row.versions) && t in row.versions
    ensures VersionsWithin(retained[t := row.versions[t]], row.versions)
  {
  }

  lemma AllLookedAt(row: Record, retained: map<Tag, nat>, protected: set<Tag>, tags: map<Tag, Entry>)
    requires LookedAt(row, {}, retained, protected, tags)
    ensures retained == map[] ==> RowGone(row, tags, protected)
  {
  }

  lemma ListingCovers(tags: map<Tag, Entry>, listing: map<Tag, Entry>)
    requires forall u | u in tags :: u in listing
    requires forall u | u in listing :: u in tags && listing[u] == tags[u]
    ensures TagsWithin(tags, listing) && TagsWithin(tags, tags)
  {
  }

  lemma CleanedTags(w: World, mid: World, w': World, listing: map<Tag, Entry>, package: int, current: int)
    requires Cleaned(mid, w', package, current) && TagsWithin(mid.dest.tags, listing) && TagsWithin(mid.dest.tags, w.dest.tags)
    ensures TagsWithin(w'.dest.tags, listing) && TagsWithin(w'.dest.tags, w.dest.tags) && TagsWithin(w'.dest.tags, mid.dest.tags)
  {
    hide Valid, ForeignKept, Shrunk, OtherPackagesKept;
  }

  lemma RemovalStarts(w: World, package: int, current: int, log: seq<Deletion>, rows: Journal, todo: set<Tag>)
    requires Cleaned(w, w, package, current)
    ensures current in w.journal && DeletionsSafe(log, log, w.journal[current], rows)
    ensures Untouched(w.dest.tags, w.dest.tags, todo)
    ensures forall row: Record, protected: set<Tag> | row.versions.Keys == todo :: LookedAt(row, todo, map[], protected, w.dest.tags)
    ensures forall versions: map<Tag, nat> :: VersionsWithin(map[], versions)
  {
    hide Valid, ForeignKept, Shrunk, OtherPackagesKept;
  }

  lemma NothingCleaned(w: World, package: int, current: int, log: seq<Deletion>, rows: Journal)
    requires Valid(w, package) && current in w.journal
    requires forall t | t in w.journal[current].versions :: Resolves(w.dest, Fold(t), w.journal[current].digest)
    ensures Cleaned(w, w, package, current) && DeletionsSafe(log, log, w.journal[current], rows)
  {
    ForeignKeptReflexive(w, package);
    hide Valid, ForeignKept, Fold, Resolves;
  }

  lemma ClaimIs(w: World, package: int, row: Record, t: Tag, listing: map<Tag, Entry>)
    requires Valid(w, package) && t in row.versions && Fold(t) in listing && TagsWithin(w.dest.tags, listing)
    ensures Fold(t) in w.dest.tags ==> listing[Fold(t)] == w.dest.tags[Fold(t)] && w.dest.tags[Fold(t)].id > 0
    ensures Claims(w.dest, row, t) <==>
            Fold(t) in w.dest.tags
            && (w.dest.tags[Fold(t)].id == row.versions[t] || (row.versions[t] == 0 && w.dest.tags[Fold(t)].digest == row.digest))
  {
    hide Fold;
  }

  /** Asking for a tag the row lays claim to, whether or not it is then gone. */
  lemma TagDropped(w: World, w': World, package: int, current: int, x: int, t: Tag, log: seq<Deletion>, rows: Journal)
    requires Cleaned(w, w, package, current) && x in Records(w.journal, package) && x in w.journal && x in rows && rows[x] == w.journal[x]
    requires current in w.journal && t in w.journal[x].versions && Fold(t) !in Folded(w.journal[current].versions)
    requires Fold(t) in w.dest.tags ==> Claims(w.dest, w.journal[x], t)
    requires w' == w || (Fold(t) in w.dest.tags && w' == World(WithoutTag(w.dest, Fold(t)), w.journal))
    ensures Cleaned(w, w', package, current)
    ensures DeletionsSafe(log, log + [TagDeletion(w.dest, Fold(t))], w.journal[current], rows)
    ensures forall u | u in w.dest.tags && u != Fold(t) :: u in w'.dest.tags
  {
    if Fold(t) in w.dest.tags {
      DropTagCleaned(w, package, current, x, t);
      assert ClaimedBy(rows, w.dest, Fold(t));
    }
    hide Valid, ForeignKept, Fold, Folded, ClaimedBy, Shrunk, OtherPackagesKept;
    OneDeletion(log, TagDeletion(w.dest, Fold(t)), w.journal[current], rows);
  }

  lemma KeyIsFolded(w: World, package: int, current: int, u: Tag)
    requires Cleaned(w, w, package, current) && u in w.dest.tags
    ensures Fold(u) == u
  {
    hide ForeignKept, Shrunk, OtherPackagesKept;
  }

  lemma SafeManifest(w: World, package: int, current: int, g: Digest, rows: Journal)
    requires Cleaned(w, w, package, current) && forall u | u in w.dest.tags :: w.dest.tags[u].digest != g
    ensures current in w.journal && SafeDeletion(ManifestDeletion(w.dest, g), w.journal[current], rows)
  {
    hide Valid, ForeignKept, Shrunk, OtherPackagesKept;
  }

  lemma OneDeletion(log: seq<Deletion>, d: Deletion, row: Record, rows: Journal)
    requires SafeDeletion(d, row, rows)
    ensures DeletionsSafe(log, log + [d], row, rows)
  {
    hide SafeDeletion;
  }

  lemma ManifestGone(d: Dest, g: Digest)
    ensures g !in WithoutManifest(d, g).manifests
    ensures WithoutManifest(d, g).manifests <= d.manifests
  {
  }

  lemma PrunableKept(d: Dest, d': Dest, row: Record, protected: set<Tag>)
    requires Prunable(d, row, protected) && TagsWithin(d'.tags, d.tags)
    ensures Prunable(d', row, protected)
  {
  }

  /** Every tag of an older row is gone from the destination, unless it is protected. */
  predicate RowGone(row: Record, tags: map<Tag, Entry>, protected: set<Tag>) {
    forall t | t in row.versions :: Fold(t) in protected || Fold(t) !in tags
  }

  ghost predicate RowsGone(rows: Journal, done: set<int>, tags: map<Tag, Entry>, protected: set<Tag>) {
    forall x | x in rows && x in done :: RowGone(rows[x], tags, protected)
  }

  ghost predicate ManifestsGone(rows: Journal, done: set<int>, manifests: set<Digest>) {
    forall x | x in rows && x in done :: rows[x].digest !in manifests
  }

  lemma ManifestsStayGone(rows: Journal, done: set<int>, x: int, manifests: set<Digest>, manifests': set<Digest>)
    requires manifests' <= manifests && ManifestsGone(rows, done, manifests) && x in rows && rows[x].digest !in manifests'
    ensures ManifestsGone(rows, done + {x}, manifests')
  {
  }

  lemma RowsStayGone(rows: Journal, done: set<int>, x: int, tags: map<Tag, Entry>, tags': map<Tag, Entry>, protected: set<Tag>)
    requires TagsWithin(tags', tags) && RowsGone(rows, done, tags, protected)
    requires x in rows && RowGone(rows[x], tags', protected)
    ensures RowsGone(rows, done + {x}, tags', protected)
  {
    forall x | x in rows && x in done
      ensures RowGone(rows[x], tags', protected)
    {
      assert RowGone(rows[x], tags, protected);
    }
  }

  /** `setdefault(tag, 0)` for every tag. */
  method AddIntentions(versions: map<Tag, nat>, tags: seq<Tag>) returns (r: map<Tag, nat>)
    ensures r == WithIntentions(versions, tags)
  {
    r := versions;
    for i := 0 to |tags|
      invariant forall t :: t in r <==> t in versions || t in tags[..i]
      invariant forall t | t in r :: r[t] == if t in versions then versions[t] else 0
    {
      if tags[i] !in r {
        r := r[tags[i] := 0];
      }
    }
    assert tags[..|tags|] == tags;
  }

  /** Reads the exact id of every copied tag out of a listing. */
  method CollectVersions(listing: map<Tag, Entry>, tags: seq<Tag>) returns (ok: bool, versions: map<Tag, nat>)
    ensures ok <==> forall t | t in tags :: Fold(t) in listing
    ensures ok ==> (forall t :: t in versions <==> t in tags) && forall t | t in tags :: versions[t] == listing[Fold(t)].id
  {
    versions := map[];
    for i := 0 to |tags|
      invariant forall t | t in tags[..i] :: Fold(t) in listing
      invariant forall t :: t in versions <==> t in tags[..i]
      invariant forall t | t in versions :: versions[t] == listing[Fold(t)].id
    {
      if Fold(tags[i]) !in listing {
        return false, versions;
      }
      versions := versions[tags[i] := listing[Fold(tags[i])].id];
    }
    assert tags[..|tags|] == tags;
    ok := true;
  }

  /** Checks one version's tags against the digests earlier versions gave them. */
  method ValidateVersionTags(v: SourceVersion, owners: map<Tag, Digest>) returns (ok: bool, r: map<Tag, Digest>)
    ensures ok <==> VersionAgrees(v, owners)
    ensures ok ==> forall u :: u in r <==> u in owners || u in Folds(v.tags)
    ensures ok ==> forall u | u in r :: r[u] == if u in Folds(v.tags) then v.digest else owners[u]
  {
    hide ValidTag;
    var local: set<Tag> := {};
    r := owners;
    for i := 0 to |v.tags|
      invariant FoldDistinct(v.tags[..i]) && local == Folds(v.tags[..i])
      invariant forall k | 0 <= k < i :: ValidTag(v.tags[k]) && (Fold(v.tags[k]) in owners ==> owners[Fold(v.tags[k])] == v.digest)
      invariant forall u :: u in r <==> u in owners || u in local
      invariant forall u | u in r :: r[u] == if u in local then v.digest else owners[u]
    {
      var t := v.tags[i];
      FoldDistinctSnoc(v.tags, i);
      if !ValidTag(t) {
        return false, r;
      }
      if Fold(t) in local {
        assert !FoldDistinct(v.tags[..i + 1]);
        return false, r;
      }
      local := local + {Fold(t)};
      if Fold(t) in r && r[Fold(t)] != v.digest {
        return false, r;
      }
      r := r[Fold(t) := v.digest];
    }
    assert v.tags[..|v.tags|] == v.tags;
    ok := true;
  }

  /** Accepts a listing exactly when its tags are well formed, distinct up to case within a
      version, and never name two digests. */
  method ValidateSourceTags(vs: seq<SourceVersion>) returns (ok: bool)
    ensures ok <==> ValidSourceTags(vs)
  {
    var owners: map<Tag, Digest> := map[];
    for i := 0 to |vs|
      invariant ValidSourceTags(vs[..i]) && OwnersOf(vs[..i], owners)
    {
      assert vs[..i + 1] == vs[..i] + [vs[i]];
      ValidSnoc(vs[..i], vs[i], owners);
      var good, more := ValidateVersionTags(vs[i], owners);
      if !good {
        if ValidSourceTags(vs) {
          ValidPrefix(vs, i + 1);
        }
        return false;
      }
      OwnersSnoc(vs[..i], vs[i], owners, more);
      owners := more;
    }
    assert vs[..|vs|] == vs;
    ok := true;
  }

  lemma RecordAt(j: Journal, package: int, x: int)
    requires x in Records(j, package)
    ensures x in j && j[x].package == package && Records(j, package)[x] == j[x]
  {
  }

  lemma NowIs(m: PackageMirror)
    ensures m.Now() == World(m.dest.View(), m.journal) && m.dest.View() == Dest(m.dest.tags, m.dest.manifests, m.dest.nextId, m.dest.link)
  {
  }

  class PackageMirror {
    const mode: Mode
    const package: int
    const repository: string
    const maxBytes: nat
    /** What the source registry serves, and what each digest there weighs. */
    const images: Size.Repository
    ghost const weights: map<Digest, nat>
    const dest: Destination
    var journal: Journal

    constructor (mode: Mode, package: int, repository: string, maxBytes: nat, images: Size.Repository,
                 ghost weights: map<Digest, nat>, dest: Destination, journal: Journal)
      ensures this.mode == mode && this.package == package && this.repository == repository
      ensures this.maxBytes == maxBytes && this.images == images && this.weights == weights && this.dest == dest && this.journal == journal
    {
      this.mode, this.package, this.repository, this.maxBytes := mode, package, repository, maxBytes;
      this.images, this.weights, this.dest, this.journal := images, weights, dest, journal;
    }

    ghost function Now(): World
      reads this, dest
    {
      World(dest.View(), journal)
    }

    /** The image's manifests are sound, and its digests are used consistently. */
    ghost predicate Regular(g: Digest) {
      Size.WellFormed(images, g) && Size.Consistent(images, g, weights)
    }

    /** The image's size is above the limit: the sum over what is reachable from its digest. */
    ghost predicate Oversized(g: Digest) {
      maxBytes != 0 && Size.Reachable(images, g) <= weights.Keys && Size.Sum(Size.Reachable(images, g), weights) > maxBytes
    }

    ghost predicate TooLarge(g: Digest) {
      |Size.Manifests(images, g)| > Size.MAX_MANIFESTS || Oversized(g)
    }

    predicate LinkConflicts(listing: Listing) {
      listing.versions != map[] && listing.link.Some? && Fold(listing.link.value) != Fold(repository)
    }

    /** The collision rule lets the version through, its image is within the limits, and no other
        repository holds the package's link. */
    ghost predicate Mirrorable(w: World, v: SourceVersion) {
      MayStart(w, Plan(mode, package, v)) && !TooLarge(v.digest)
      && (w.dest.link.Some? ==> Fold(w.dest.link.value) == Fold(repository))
    }

    /** Estimates the size of a source image; an image that is not regular counts as a fault. */
    method EstimateSize(g: Digest) returns (r: Reply<nat>)
      modifies dest`faults
      ensures r.Answer? && Size.Consistent(images, g, weights) ==> (maxBytes != 0 && r.value > maxBytes <==> Oversized(g))
      ensures dest.faults >= old(dest.faults)
      ensures dest.faults == old(dest.faults) ==>
                !r.Crash? && (r.Answer? && !(maxBytes != 0 && r.value > maxBytes) <==> !TooLarge(g))
    {
      var fate: Reply<()> := *;
      var size, fetched := Size.EstimateSize(images, g, weights);
      dest.faults := dest.faults + if fate.Answer? && Regular(g) then 0 else 1;
      hide Size.Consistent, Size.WellFormed, Size.Reachable, Size.Manifests, Size.Sum;
      r := if fate.Crash? then Crash else if fate.Error? || size.Failure? then Error else Answer(size.value);
    }

    /** Applies the collision rule to every planned tag before anything is written. */
    method CheckCollisions(job: Job, listing: map<Tag, Entry>) returns (r: Outcome)
      requires listing == dest.tags
      modifies dest`faults
      ensures r == Clean ==> Admitted(Now(), job)
      ensures dest.faults >= old(dest.faults)
      ensures dest.faults == old(dest.faults) ==> r == if Admitted(Now(), job) then Clean else Warned
    {
      var owned := OwnedIds(Records(journal, job.package));
      for i := 0 to |job.tags|
        invariant forall k | 0 <= k < i :: TagAdmitted(Now(), job, job.tags[k])
        invariant dest.faults >= old(dest.faults)
      {
        var t := job.tags[i];
        if Fold(t) in listing && listing[Fold(t)].id !in owned {
          if job.id !in journal || journal[job.id].state != Pending
             || t !in journal[job.id].versions || journal[job.id].versions[t] != 0 {
            assert !TagAdmitted(Now(), job, t);
            return Warned;
          }
          var actual := dest.InspectTag(t);
          if !actual.Answer? {
            return Interrupted;
          }
          if actual.value != Some(job.digest) {
            assert !TagAdmitted(Now(), job, t);
            return Warned;
          }
        }
      }
      r := Clean;
    }

    /** Writes the intention: every planned tag the row does not know gets id 0. */
    method PrepareRecord(job: Job) returns (ok: bool)
      modifies this`journal
      ensures ok == IdentityMatches(old(journal), job)
      ensures journal == if ok then Prepared(old(journal), job) else old(journal)
    {
      if job.id in journal && (journal[job.id].package != job.package || journal[job.id].digest != job.digest) {
        return false;
      }
      var versions := AddIntentions(if job.id in journal then journal[job.id].versions else map[], job.tags);
      journal := journal[job.id := Record(job.package, job.digest, versions, Pending)];
      ok := true;
    }

    lemma AttemptNext(w: World, job: Job, i: nat)
      requires i < |job.tags|
      ensures Attempt(w, job, i + 1) == World(CopyTag(Attempt(w, job, i).dest, job.tags[i], job.digest), Attempt(w, job, i).journal)
    {
      assert job.tags[..i + 1][..i] == job.tags[..i];
    }

    /** Copies and verifies the planned tags in order; stops at the first failure. */
    method CopyAndVerify(job: Job, ghost w: World) returns (r: Outcome, ghost k: nat)
      requires Now() == Attempt(w, job, 0)
      modifies dest`tags, dest`manifests, dest`nextId, dest`faults
      ensures k <= |job.tags| && Now() == Attempt(w, job, k)
      ensures r == Clean ==> k == |job.tags|
      ensures dest.faults >= old(dest.faults)
      ensures dest.faults == old(dest.faults) ==> r == Clean
    {
      k := 0;
      for i := 0 to |job.tags|
        invariant k == i && Now() == Attempt(w, job, i)
        invariant dest.faults >= old(dest.faults)
      {
        var t := job.tags[i];
        AttemptNext(w, job, i);
        var current := dest.InspectTag(t);
        if !current.Answer? {
          return if current.Error? then Warned else Interrupted, k;
        }
        if current.value != Some(job.digest) {
          var copied := dest.Copy(t, job.digest);
          k := if Fold(t) in dest.tags && dest.tags[Fold(t)].digest == job.digest then i + 1 else i;
          if !copied.Answer? {
            return if copied.Error? then Warned else Interrupted, k;
          }
        } else {
          k := i + 1;
        }
        var verified := dest.InspectTag(t);
        if !verified.Answer? {
          return if verified.Error? then Warned else Interrupted, k;
        }
        if verified.value != Some(job.digest) {
          return Warned, k;
        }
      }
      r := Clean;
    }

    /** Lists the package after copying and links it to the repository where it has no link. */
    method VerifyLink(copied: set<Tag>) returns (r: Outcome, listing: Listing)
      modifies dest`link, dest`faults
      ensures r != Warned && dest.faults >= old(dest.faults)
      ensures r == Clean ==> forall u | u in listing.versions :: u in dest.tags && listing.versions[u] == dest.tags[u]
      ensures r == Clean && listing.versions != map[] ==> dest.link.Some? && Fold(dest.link.value) == Fold(repository)
      ensures dest.faults == old(dest.faults) && dest.tags != map[] ==>
                if old(dest.link).Some? && Fold(old(dest.link).value) != Fold(repository) then r == Interrupted
                else r == Clean && listing.versions == dest.tags
    {
      var reply := dest.ListVersions(copied);
      listing := if reply.Answer? then reply.value else Listing(map[], None);
      if !reply.Answer? || LinkConflicts(listing) {
        return Interrupted, listing;
      }
      if listing.versions != map[] && listing.link.None? {
        var linked := dest.LinkPackage(repository);
        if !linked.Answer? {
          return Interrupted, listing;
        }
        reply := dest.ListVersions(copied);
        if !reply.Answer? || LinkConflicts(reply.value) || (reply.value.versions != map[] && reply.value.link.None?) {
          return Interrupted, listing;
        }
        listing := reply.value;
      }
      r := Clean;
    }

    lemma FinishedRow(w: World, job: Job)
      ensures var a := Attempt(w, job, |job.tags|);
              && Folds(job.tags) <= a.dest.tags.Keys
              && Finished(w, job) == World(a.dest, a.journal[job.id :=
                   a.journal[job.id].(versions := ExactVersions(a.dest, job.tags), state := Complete)])
    {
      assert job.tags[..|job.tags|] == job.tags;
      CopyTagsKeys(w.dest, job.tags, job.digest);
    }

    /** Reads the version ids back, links the package, and completes the journal row. */
    method RecordCopies(job: Job, ghost w: World) returns (r: Outcome)
      requires Now() == Attempt(w, job, |job.tags|)
      modifies this`journal, dest`link, dest`faults
      ensures SameUpToLink(Now(), if r == Clean then Finished(w, job) else Attempt(w, job, |job.tags|))
      ensures r == Clean && job.tags != [] ==> dest.link.Some? && Fold(dest.link.value) == Fold(repository)
      ensures dest.faults >= old(dest.faults)
      ensures dest.faults == old(dest.faults) && job.tags != [] ==>
                (r == Clean <==> (old(dest.link).Some? ==> Fold(old(dest.link).value) == Fold(repository)))
    {
      FinishedRow(w, job);
      assert job.tags != [] ==> Fold(job.tags[0]) in Folds(job.tags);
      var listing: Listing;
      r, listing := VerifyLink(Folds(job.tags));
      if r != Clean {
        return;
      }
      var exposed, versions := CollectVersions(listing.versions, job.tags);
      if !exposed {
        assert exists t | t in job.tags :: Fold(t) !in listing.versions;
        return Warned;
      }
      assert versions == ExactVersions(dest.View(), job.tags);
      journal := journal[job.id := journal[job.id].(versions := versions, state := Complete)];
    }

    /** Copies, verifies and completes an admitted version whose intention is written. */
    method Transfer(job: Job, ghost w: World) returns (r: Outcome)
      requires MayStart(w, job) && Now() == Attempt(w, job, 0)
      modifies this`journal, dest`tags, dest`manifests, dest`nextId, dest`link, dest`faults
      ensures VersionStep(job, w, r, Now())
      ensures dest.faults >= old(dest.faults)
      ensures r == Clean && job.tags != [] ==> dest.link.Some? && Fold(dest.link.value) == Fold(repository)
      ensures dest.faults == old(dest.faults) && job.tags != [] ==>
                (r == Clean <==> (old(dest.link).Some? ==> Fold(old(dest.link).value) == Fold(repository)))
    {
      ghost var k;
      r, k := CopyAndVerify(job, w);
      if r == Clean {
        r := RecordCopies(job, w);
      }
      assert r != Clean ==> AttemptedUpTo(job, w, Now(), k);
    }

    /** Mirrors a planned version whose size is acceptable. */
    method MirrorJob(job: Job) returns (r: Outcome)
      requires FoldDistinct(job.tags)
      modifies this`journal, dest`tags, dest`manifests, dest`nextId, dest`link, dest`faults
      ensures VersionStep(job, old(Now()), r, Now())
      ensures dest.faults >= old(dest.faults)
      ensures r == Clean && job.tags != [] ==> dest.link.Some? && Fold(dest.link.value) == Fold(repository)
      ensures dest.faults == old(dest.faults) && job.tags != [] ==>
                (r == Clean <==> MayStart(old(Now()), job) && (old(dest.link).Some? ==> Fold(old(dest.link).value) == Fold(repository)))
    {
      ghost var w := Now();
      var listing := dest.ListVersions({});
      if !listing.Answer? {
        return Interrupted;
      }
      assert listing.value.versions == dest.tags;
      r := CheckCollisions(job, listing.value.versions);
      if r != Clean {
        return;
      }
      var prepared := PrepareRecord(job);
      if !prepared {
        return Interrupted;
      }
      assert job.tags[..0] == [];
      r := Transfer(job, w);
    }

    /** Mirrors one version. Whatever fails, the outcome is one of the steps `VersionStep`
        describes, nothing is deleted, and without faults it succeeds exactly when it may. */
    method MirrorVersion(v: SourceVersion) returns (r: Outcome)
      modifies this`journal, dest`tags, dest`manifests, dest`nextId, dest`link, dest`faults
      ensures r == Clean && Size.Consistent(images, v.digest, weights) ==> !Oversized(v.digest)
      ensures VersionStep(Plan(mode, package, v), old(Now()), r, Now())
      ensures dest.faults >= old(dest.faults)
      ensures r == Clean && (mode.All? || v.tags != []) ==> dest.link.Some? && Fold(dest.link.value) == Fold(repository)
      ensures dest.faults == old(dest.faults) && (mode.All? || v.tags != []) ==> (r == Clean <==> Mirrorable(old(Now()), v))
    {
      hide *;
      NowIs(this);
      var job := Plan(mode, package, v);
      PlanHasTags(v);
      MirrorableIs(Now(), v);
      NothingStepped(job, Now());
      if !FoldDistinct(job.tags) {
        return Warned;
      }
      var size := EstimateSize(v.digest);
      NowIs(this);
      if !size.Answer? {
        return if size.Error? then Warned else Interrupted;
      }
      if maxBytes != 0 && size.value > maxBytes {
        return Warned;
      }
      r := MirrorJob(job);
    }

    lemma PlanHasTags(v: SourceVersion)
      ensures mode.All? || v.tags != [] ==> Plan(mode, package, v).tags != []
    {
      PlannedMembers(mode, package, v);
      hide Plan;
      assert mode.All? ==> PreservationTag(v.digest) in Plan(mode, package, v).tags;
      assert v.tags != [] ==> v.tags[0] in Plan(mode, package, v).tags;
    }

    lemma MirrorableIs(w: World, v: SourceVersion)
      ensures Mirrorable(w, v) <==> MayStart(w, Plan(mode, package, v)) && !TooLarge(v.digest)
                                    && (w.dest.link.Some? ==> Fold(w.dest.link.value) == Fold(repository))
      ensures MayStart(w, Plan(mode, package, v)) ==> FoldDistinct(Plan(mode, package, v).tags)
    {
      hide Plan, FoldDistinct, TooLarge;
    }

    lemma NothingStepped(job: Job, w: World)
      ensures forall r: Outcome | r != Clean :: VersionStep(job, w, r, w)
    {
    }

    // -------------------------------------------------------------- latest-mode cleanup

    /** Deletes one tag if the row's claim on it still holds; keeps it otherwise. */
    method RemoveOldTag(x: int, t: Tag, listing: map<Tag, Entry>, current: int, protected: set<Tag>, ghost rows: Journal)
      returns (r: Outcome, keep: bool)
      requires Valid(Now(), package) && current in journal
      requires x in Records(journal, package) && x in rows && rows[x] == journal[x] && t in journal[x].versions
      requires Fold(t) !in protected && protected == Folded(journal[current].versions)
      requires forall y | y in journal[current].versions :: Resolves(dest.View(), Fold(y), journal[current].digest)
      requires Fold(t) in listing && TagsWithin(dest.tags, listing)
      modifies dest`tags, dest`deletions, dest`faults
      ensures Cleaned(old(Now()), Now(), package, current)
      ensures DeletionsSafe(old(dest.deletions), dest.deletions, journal[current], rows)
      ensures r != Warned && (r == Clean && !keep ==> Fold(t) !in dest.tags)
      ensures forall u | u in old(dest.tags) && u != Fold(t) :: u in dest.tags
      ensures dest.faults >= old(dest.faults)
      ensures dest.faults == old(dest.faults) && Fold(t) in old(dest.tags) ==>
                r == Clean && (keep <==> !Claims(old(dest.View()), journal[x], t))
    {
      hide *;
      NowIs(this);
      ghost var w, log := Now(), dest.deletions;
      RecordAt(journal, package, x);
      NothingCleaned(w, package, current, log, rows);
      ClaimIs(w, package, journal[x], t, listing);
      var expected := journal[x].versions[t];
      if expected == 0 {
        var actual := dest.InspectTag(t);
        NowIs(this);
        if actual.Crash? {
          return Interrupted, true;
        }
        if actual.Error? || actual.value != Some(journal[x].digest) {
          return Clean, true;
        }
      } else if listing[Fold(t)].id != expected {
        return Clean, true;
      }
      var deleted := dest.DeleteVersion(t);
      NowIs(this);
      TagDropped(w, Now(), package, current, x, t, log, rows);
      r, keep := if deleted.Crash? then Interrupted else Clean, !deleted.Answer?;
    }

    /** Deletes the tags an older row can prove it owns, and returns those it must keep. */
    method RemoveOldTags(x: int, current: int, protected: set<Tag>, ghost rows: Journal)
      returns (r: Outcome, retained: map<Tag, nat>)
      requires Cleaned(Now(), Now(), package, current) && protected == Folded(journal[current].versions)
      requires x in Records(journal, package) && x in rows && rows[x] == journal[x]
      modifies dest`tags, dest`deletions, dest`faults
      ensures Cleaned(old(Now()), Now(), package, current)
      ensures DeletionsSafe(old(dest.deletions), dest.deletions, journal[current], rows)
      ensures VersionsWithin(retained, journal[x].versions)
      ensures r != Interrupted ==> (r == Clean <==> retained == map[])
      ensures r == Clean ==> RowGone(journal[x], dest.tags, protected)
      ensures dest.faults >= old(dest.faults)
      ensures dest.faults == old(dest.faults) && Provable(old(dest.View()), journal[x], protected) ==> r == Clean
    {
      hide *;
      ghost var w, log := Now(), dest.deletions;
      RecordAt(journal, package, x);
      var row := journal[x];
      ghost var provable := Provable(w.dest, row, protected);
      NowIs(this);
      RemovalStarts(w, package, current, log, rows, row.versions.Keys);
      retained := map[];
      var reply := dest.ListVersions({});
      NowIs(this);
      if !reply.Answer? {
        return Interrupted, retained;
      }
      var listing := reply.value.versions;
      var todo := row.versions.Keys;
      ListingCovers(dest.tags, listing);
      while todo != {}
        invariant todo <= row.versions.Keys && journal == old(journal)
        invariant Cleaned(w, Now(), package, current) && TagsWithin(dest.tags, listing) && TagsWithin(dest.tags, w.dest.tags)
        invariant DeletionsSafe(log, dest.deletions, journal[current], rows)
        invariant VersionsWithin(retained, row.versions)
        invariant LookedAt(row, todo, retained, protected, dest.tags)
        invariant dest.faults >= old(dest.faults)
        invariant provable && dest.faults == old(dest.faults) ==> retained == map[] && listing == w.dest.tags
        invariant provable ==> Untouched(w.dest.tags, dest.tags, todo)
      {
        var t :| t in todo;
        NowIs(this);
        CleanedParts(w, Now(), package, current);
        CleanedFrame(w, Now(), package, current);
        if provable {
          ProvableNow(w.dest, dest.View(), row, protected, todo, t);
        }
        LookedMore(row, todo, retained, protected, dest.tags, listing, t);
        todo := todo - {t};
        if Fold(t) !in protected && Fold(t) in listing {
          var keep;
          ghost var mid, logged := Now(), dest.deletions;
          r, keep := RemoveOldTag(x, t, listing, current, protected, rows);
          NowIs(this);
          CleanedTransitive(w, mid, Now(), package, current);
          CleanedTags(w, mid, Now(), listing, package, current);
          DeletionsSafeTransitive(log, logged, dest.deletions, journal[current], rows);
          if r == Interrupted {
            return;
          }
          if provable {
            UntouchedNext(w.dest, mid.dest.tags, dest.tags, row, protected, todo, t);
          }
          LookedAway(row, todo, retained, protected, mid.dest.tags, dest.tags, t, keep);
          if keep {
            KeptWithin(row, retained, t);
            retained := retained[t := row.versions[t]];
          }
        }
      }
      AllLookedAt(row, retained, protected, dest.tags);
      r := if retained == map[] then Clean else Warned;
    }

    /** Deletes an older manifest once no tag of any kind resolves to it. */
    method RemoveOldManifest(g: Digest, current: int, ghost rows: Journal) returns (r: Outcome)
      requires Cleaned(Now(), Now(), package, current)
      modifies dest`tags, dest`manifests, dest`deletions, dest`faults
      ensures Cleaned(old(Now()), Now(), package, current) && dest.tags == old(dest.tags)
      ensures DeletionsSafe(old(dest.deletions), dest.deletions, journal[current], rows)
      ensures dest.faults >= old(dest.faults)
      ensures dest.manifests <= old(dest.manifests)
      ensures r == Clean ==> g !in dest.manifests && forall u | u in dest.tags :: dest.tags[u].digest != g
      ensures dest.faults == old(dest.faults) ==>
                r == if exists u :: u in dest.tags && dest.tags[u].digest == g then Warned else Clean
    {
      hide *;
      NowIs(this);
      ghost var w, log := Now(), dest.deletions;
      RemovalStarts(w, package, current, log, rows, {});
      var listed := dest.ListTags();
      NowIs(this);
      if !listed.Answer? {
        return if listed.Error? then Warned else Interrupted;
      }
      var todo, referenced := listed.value, false;
      while todo != {}
        invariant todo <= dest.tags.Keys
        invariant Now() == w && dest.deletions == log && dest.tags == w.dest.tags
        invariant forall u | u in dest.tags && u !in todo && dest.tags[u].digest == g :: referenced
        invariant referenced ==> exists u :: u in dest.tags && dest.tags[u].digest == g
        invariant dest.faults >= old(dest.faults)
      {
        var u := PickAny(todo);
        todo := todo - {u};
        NowIs(this);
        var digest := dest.InspectTag(u);
        NowIs(this);
        if !digest.Answer? {
          return if digest.Error? then Warned else Interrupted;
        }
        KeyIsFolded(w, package, current, u);
        if digest.value == Some(g) {
          referenced := true;
        }
      }
      NowIs(this);
      if referenced {
        return Warned;
      }
      var present := dest.InspectManifest(g);
      NowIs(this);
      if !present.Answer? {
        return if present.Error? then Warned else Interrupted;
      }
      if present.value {
        DropManifestCleaned(w, package, current, g);
        SafeManifest(w, package, current, g, rows);
        var deleted := dest.DeleteManifest(g);
        NowIs(this);
        OneDeletion(log, ManifestDeletion(w.dest, g), journal[current], rows);
        ManifestGone(w.dest, g);
        if !deleted.Answer? {
          return if deleted.Error? then Warned else Interrupted;
        }
      }
      r := Clean;
    }

    /** Drops one older row: its owned tags, then its manifest, then the row itself. */
    method CleanupRow(x: int, current: int, protected: set<Tag>, ghost rows: Journal) returns (r: Outcome)
      requires Cleaned(Now(), Now(), package, current) && protected == Folded(journal[current].versions)
      requires x in Records(journal, package) && x in rows && rows[x] == journal[x] && x != current
      modifies this`journal, dest`tags, dest`manifests, dest`deletions, dest`faults
      ensures Cleaned(old(Now()), Now(), package, current)
      ensures DeletionsSafe(old(dest.deletions), dest.deletions, journal[current], rows)
      ensures forall y | y in old(journal) && y != x :: y in journal && journal[y] == old(journal[y])
      ensures forall y | y in journal :: y in old(journal) && journal[y].package == old(journal)[y].package
      ensures r == Clean ==> x !in journal
      ensures r == Clean ==> RowGone(old(journal)[x], dest.tags, protected) && old(journal)[x].digest !in dest.manifests
      ensures dest.manifests <= old(dest.manifests)
      ensures dest.faults >= old(dest.faults)
      ensures dest.faults == old(dest.faults) && Prunable(old(dest.View()), old(journal)[x], protected) ==> r == Clean
    {
      hide *;
      NowIs(this);
      ghost var w, log := Now(), dest.deletions;
      RecordAt(journal, package, x);
      CleanedParts(w, w, package, current);
      var row := journal[x];
      if Prunable(dest.View(), row, protected) {
        PrunableParts(dest.View(), row, protected);
      }
      var retained;
      r, retained := RemoveOldTags(x, current, protected, rows);
      NowIs(this);
      ghost var mid, log1 := Now(), dest.deletions;
      if r == Interrupted {
        return;
      }
      CleanedReflexive(w, mid, package, current);
      if retained != map[] {
        RowShrinks(mid, journal[x := row.(versions := retained)], package, current, x);
        journal := journal[x := row.(versions := retained)];
        NowIs(this);
        CleanedTransitive(w, mid, Now(), package, current);
        return Warned;
      }
      CleanedTagsWithin(w, mid, package, current);
      if Prunable(w.dest, row, protected) {
        NoneLeft(w.dest, mid.dest, row, protected);
      }
      r := RemoveOldManifest(row.digest, current, rows);
      NowIs(this);
      CleanedTransitive(w, mid, Now(), package, current);
      DeletionsSafeTransitive(log, log1, dest.deletions, journal[current], rows);
      if r == Clean {
        ghost var last := Now();
        CleanedReflexive(w, last, package, current);
        RowDrops(last, package, current, x);
        journal := journal - {x};
        NowIs(this);
        CleanedTransitive(w, last, Now(), package, current);
      }
    }

    /** Cleans up one more row of a cleanup that began in world `w`. */
    method CleanupNext(so: Outcome, x: int, current: int, protected: set<Tag>, ghost w: World, ghost log: seq<Deletion>,
                       ghost todo: set<int>, ghost done: set<int>)
      returns (r: Outcome)
      requires so != Interrupted && x in todo && Cleaning(w, Now(), log, dest.deletions, package, current, todo, done, so == Clean)
      requires protected == Folded(w.journal[current].versions)
      modifies this`journal, dest`tags, dest`manifests, dest`deletions, dest`faults
      ensures Cleaned(w, Now(), package, current) && DeletionsSafe(log, dest.deletions, w.journal[current], Records(w.journal, package))
      ensures r != Interrupted ==>
                Cleaning(w, Now(), log, dest.deletions, package, current, todo - {x}, done + {x}, r == Clean)
      ensures dest.faults >= old(dest.faults)
      ensures dest.faults == old(dest.faults) && so == Clean && AllPrunable(w, package, current) ==> r == Clean
    {
      hide *;
      NowIs(this);
      ghost var mid, before := Now(), dest.deletions;
      CleaningAt(w, mid, log, before, package, current, todo, done, so == Clean, x);
      r := CleanupRow(x, current, protected, Records(w.journal, package));
      NowIs(this);
      CleanedTransitive(w, mid, Now(), package, current);
      DeletionsSafeTransitive(log, before, dest.deletions, w.journal[current], Records(w.journal, package));
      CleanedTagsWithin(mid, Now(), package, current);
      if r == Clean || r == Warned {
        CleaningAdvances(w, mid, Now(), log, before, dest.deletions, package, current, todo, done, so == Clean, so == Clean && r == Clean, x);
        r := if r == Clean then so else Warned;
      }
    }

    lemma CleanedParts(w: World, w': World, package: int, current: int)
      requires Cleaned(w, w', package, current)
      ensures current in w.journal && current in w'.journal && w'.journal[current] == w.journal[current]
      ensures forall t | t in w.journal[current].versions :: Resolves(w'.dest, Fold(t), w.journal[current].digest)
    {
      hide Valid, ForeignKept, Shrunk, OtherPackagesKept;
    }

    /** LATEST-MODE PRUNING. Every deletion happens while all tags of the current row resolve to
        its digest, and they still do at the end; only claimed tags and unreferenced manifests
        go; a clean result leaves the current row alone in the package, with every older
        manifest gone, and every older recorded tag unless it is a current one. */
    method CleanupOlderVersions(current: int) returns (r: Outcome)
      requires Valid(Now(), package) && current in Records(journal, package)
      requires forall t | t in journal[current].versions :: Resolves(dest.View(), Fold(t), journal[current].digest)
      modifies this`journal, dest`tags, dest`manifests, dest`deletions, dest`faults
      ensures Cleaned(old(Now()), Now(), package, current)
      ensures journal[current] == old(journal)[current]
      ensures forall t | t in journal[current].versions :: Resolves(dest.View(), Fold(t), journal[current].digest)
      ensures DeletionsSafe(old(dest.deletions), dest.deletions, journal[current], Records(old(journal), package))
      ensures r == Clean ==>
                OnlyRowLeft(old(journal), journal, package, current, dest.tags, dest.manifests, Folded(old(journal)[current].versions))
      ensures dest.faults >= old(dest.faults)
      ensures dest.faults == old(dest.faults) && AllPrunable(old(Now()), package, current) ==> r == Clean
    {
      hide *;
      NowIs(this);
      ghost var w, log := Now(), dest.deletions;
      CleaningStarts(w, package, current, log);
      RecordAt(journal, package, current);
      var protected := Folded(journal[current].versions);
      var todo := set x | x in journal && journal[x].package == package && x != current;
      ghost var done: set<int> := {};
      r := Clean;
      while todo != {}
        invariant r == Clean || r == Warned
        invariant Cleaning(w, Now(), log, dest.deletions, package, current, todo, done, r == Clean)
        invariant dest.faults >= old(dest.faults)
        invariant dest.faults == old(dest.faults) && AllPrunable(w, package, current) ==> r == Clean
      {
        var x := PickAny(todo);
        r := CleanupNext(r, x, current, protected, w, log, todo, done);
        if r == Interrupted {
          NowIs(this);
          CleanedParts(w, Now(), package, current);
          return;
        }
        todo := todo - {x};
        done := done + {x};
      }
      NowIs(this);
      CleaningEnds(w, Now(), log, dest.deletions, package, current, done, r == Clean);
    }

    // -------------------------------------------------------------- a whole package

    /** Mirrors one more version of a pass that began in world `w`. */
    method MirrorNext(v: SourceVersion, ghost w: World) returns (r: Outcome, ghost step: Step)
      requires Valid(Now(), package) && ForeignKept(w, Now(), package)
      modifies this`journal, dest`tags, dest`manifests, dest`nextId, dest`link, dest`faults
      ensures Valid(Now(), package) && ForeignKept(w, Now(), package)
      ensures step.outcome == r && step.job == Plan(mode, package, v) && Stepped(step, old(Now()), Now())
      ensures dest.faults >= old(dest.faults)
      ensures dest.faults == old(dest.faults) && (mode.All? || v.tags != []) ==> (r == Clean <==> Mirrorable(old(Now()), v))
    {
      ghost var before := Now();
      r := MirrorVersion(v);
      step := Step(Plan(mode, package, v), r);
      VersionStepValid(step.job, before, r, Now());
      VersionStepKeepsForeign(step.job, before, r, Now());
      ForeignKeptTransitive(w, before, Now(), package);
    }

    /** Every version may be mirrored when its turn comes. */
    ghost predicate AllMirrorable(worlds: seq<World>, vs: seq<SourceVersion>) {
      |worlds| > |vs| && forall i | 0 <= i < |vs| :: Mirrorable(worlds[i], vs[i])
    }

    /** Mirrors the selected versions in order; warnings go on, exceptions stop. */
    method MirrorVersions(vs: seq<SourceVersion>) returns (r: Outcome, ghost worlds: seq<World>, ghost steps: seq<Step>)
      requires Valid(Now(), package)
      modifies this`journal, dest`tags, dest`manifests, dest`nextId, dest`link, dest`faults
      ensures Valid(Now(), package) && ForeignKept(old(Now()), Now(), package)
      ensures History(worlds, steps) && worlds[0] == old(Now()) && worlds[|steps|] == Now()
      ensures |steps| <= |vs| && forall i | 0 <= i < |steps| :: steps[i].job == Plan(mode, package, vs[i])
      ensures r != Interrupted ==> |steps| == |vs|
      ensures r == Clean ==> forall i | 0 <= i < |vs| :: steps[i].outcome == Clean
      ensures dest.faults >= old(dest.faults)
      ensures dest.faults == old(dest.faults) && mode.All? ==> (r == Clean <==> AllMirrorable(worlds, vs))
    {
      r := Clean;
      worlds, steps := [Now()], [];
      ForeignKeptReflexive(Now(), package);
      hide Valid, ForeignKept, Stepped, Plan, Mirrorable;
      for i := 0 to |vs|
        invariant r == Clean || r == Warned
        invariant |steps| == i && History(worlds, steps) && worlds[0] == old(Now()) && worlds[i] == Now()
        invariant forall k | 0 <= k < i :: steps[k].job == Plan(mode, package, vs[k])
        invariant Valid(Now(), package) && ForeignKept(old(Now()), Now(), package)
        invariant r == Clean ==> forall k | 0 <= k < i :: steps[k].outcome == Clean
        invariant dest.faults >= old(dest.faults)
        invariant dest.faults == old(dest.faults) && mode.All? ==> (r == Clean <==> forall k | 0 <= k < i :: Mirrorable(worlds[k], vs[k]))
      {
        var one;
        ghost var step;
        one, step := MirrorNext(vs[i], old(Now()));
        HistorySnoc(worlds, steps, step, Now());
        worlds, steps := worlds + [Now()], steps + [step];
        if one == Interrupted {
          return Interrupted, worlds, steps;
        }
        if one == Warned {
          r := Warned;
        }
      }
    }

    /** Cleans up after the one latest version has been mirrored without a warning. */
    method CleanupAfter(job: Job, ghost before: World) returns (r: Outcome)
      requires job.package == package && Valid(Now(), package) && Stepped(Step(job, Clean), before, Now())
      modifies this`journal, dest`tags, dest`manifests, dest`deletions, dest`faults
      ensures Cleaned(old(Now()), Now(), package, job.id) && InPlace(dest.View(), job) && job.id in old(journal)
      ensures DeletionsSafe(old(dest.deletions), dest.deletions, old(journal)[job.id], Records(old(journal), package))
      ensures r == Clean ==> OnlyRowLeft(old(journal), journal, package, job.id, dest.tags, dest.manifests, Folds(job.tags))
      ensures dest.faults >= old(dest.faults)
      ensures dest.faults == old(dest.faults) && AllPrunable(old(Now()), package, job.id) ==> r == Clean
    {
      ghost var mid := Now();
      CleanStepInPlace(job, before, mid);
      RowNamesJob(mid, job);
      hide *;
      r := CleanupOlderVersions(job.id);
      RowInPlace(job, journal[job.id], dest.View());
    }

    /** The listing is consistent, and the destination package is new, or managed and not linked
        elsewhere. */
    ghost predicate Open(w: World, selected: seq<SourceVersion>) {
      && ValidSourceTags(selected)
      && (w.dest.tags != map[] ==>
            Records(w.journal, package) != map[] && (w.dest.link.Some? ==> Fold(w.dest.link.value) == Fold(repository)))
    }

    /** The checks made before a package is touched. */
    method CheckPackage(selected: seq<SourceVersion>) returns (ok: bool)
      modifies dest`faults
      ensures ok ==> Open(Now(), selected)
      ensures dest.faults >= old(dest.faults)
      ensures dest.faults == old(dest.faults) ==> (ok <==> Open(Now(), selected))
    {
      ok := ValidateSourceTags(selected);
      if ok {
        var listing := dest.ListVersions({});
        if !listing.Answer? {
          return false;
        }
        assert dest.tags != map[] ==> listing.value.versions != map[] by {
          assert forall u | u in dest.tags :: u in listing.value.versions;
        }
        ok := !(listing.value.versions != map[] && Records(journal, package) == map[]) && !LinkConflicts(listing.value);
      }
    }

    /** ALL MODE: mirrors every version, oldest first; a warning-free pass leaves each version's source tags
        and preservation tag on its digest. Nothing is ever deleted. */
    method MirrorAll(vs: seq<SourceVersion>)
      returns (r: Outcome, ghost worlds: seq<World>, ghost steps: seq<Step>, ghost turns: seq<SourceVersion>)
      requires mode.All? && Valid(Now(), package) && ValidSourceTags(vs)
      modifies this`journal, dest`tags, dest`manifests, dest`nextId, dest`link, dest`faults
      ensures Valid(Now(), package) && ForeignKept(old(Now()), Now(), package)
      ensures History(worlds, steps) && worlds[0] == old(Now()) && worlds[|steps|] == Now()
      ensures Turns(turns, vs) && Taken(steps, turns) && (r == Clean ==> AllClean(steps, turns))
      ensures forall s | s in steps :: Planned(s, vs)
      ensures r == Clean && AllWellSpelled(vs) ==> AllPreserved(vs, dest.View())
      ensures dest.faults >= old(dest.faults)
      ensures dest.faults == old(dest.faults) ==> (r == Clean <==> AllMirrorable(worlds, turns))
    {
      hide *;
      NowIs(this);
      var ordered := SortVersions(vs);
      turns := ordered;
      SortedAreTurns(vs);
      r, worlds, steps := MirrorVersions(ordered);
      NowIs(this);
      PlannedFrom(steps, ordered, vs);
      TurnsTaken(steps, ordered);
      if r == Clean {
        SortedPassPreserves(package, vs, worlds, steps);
      }
    }

    /** The steps are those of the first turns, one by one. */
    ghost predicate Taken(steps: seq<Step>, turns: seq<SourceVersion>) {
      |steps| <= |turns| && forall i | 0 <= i < |steps| :: steps[i].job == Plan(mode, package, turns[i])
    }

    /** Every turn was taken and ended without a warning. */
    ghost predicate AllClean(steps: seq<Step>, turns: seq<SourceVersion>) {
      |steps| == |turns| && forall i | 0 <= i < |steps| :: steps[i].outcome == Clean
    }

    lemma TurnsTaken(steps: seq<Step>, turns: seq<SourceVersion>)
      requires |steps| <= |turns| && forall i | 0 <= i < |steps| :: steps[i].job == Plan(mode, package, turns[i])
      ensures Taken(steps, turns)
      ensures |steps| == |turns| && (forall i | 0 <= i < |steps| :: steps[i].outcome == Clean) ==> AllClean(steps, turns)
    {
      hide Plan;
    }

    lemma PlannedFrom(steps: seq<Step>, ordered: seq<SourceVersion>, vs: seq<SourceVersion>)
      requires |steps| <= |ordered| && forall i | 0 <= i < |steps| :: steps[i].job == Plan(mode, package, ordered[i])
      requires forall v :: v in ordered <==> v in vs
      ensures forall s | s in steps :: Planned(s, vs)
    {
      hide Plan;
      forall s | s in steps
        ensures Planned(s, vs)
      {
        var i :| 0 <= i < |steps| && steps[i] == s;
        assert ordered[i] in ordered;
      }
    }

    ghost predicate Planned(s: Step, vs: seq<SourceVersion>) {
      exists v | v in vs :: s.job == Plan(mode, package, v)
    }

    /** LATEST MODE: mirrors the one selected version, and cleans up only if that went without
        a warning. */
    method MirrorLatest(v: SourceVersion)
      returns (r: Outcome, ghost worlds: seq<World>, ghost steps: seq<Step>, ghost cleaned: bool)
      requires mode.Latest? && Valid(Now(), package)
      modifies this`journal, dest`tags, dest`manifests, dest`nextId, dest`link, dest`deletions, dest`faults
      ensures Valid(Now(), package) && ForeignKept(old(Now()), Now(), package)
      ensures History(worlds, steps) && worlds[0] == old(Now()) && |steps| == 1 && steps[0].job == Plan(mode, package, v)
      ensures !cleaned ==> r != Clean && worlds[1] == Now() && dest.deletions == old(dest.deletions)
      ensures cleaned ==> LatestPruned(steps[0], worlds[1], Now(), old(dest.deletions), dest.deletions)
      ensures r == Clean ==> OnlyRowLeft(worlds[1].journal, journal, package, steps[0].job.id, dest.tags, dest.manifests, Folds(steps[0].job.tags))
      ensures dest.faults >= old(dest.faults)
      ensures dest.faults == old(dest.faults) && v.tags != [] ==> (cleaned <==> Mirrorable(old(Now()), v))
      ensures dest.faults == old(dest.faults) && cleaned && AllPrunable(worlds[1], package, steps[0].job.id) ==> r == Clean
    {
      worlds, steps, cleaned := [Now()], [], false;
      ForeignKeptReflexive(Now(), package);
      ghost var step;
      r, step := MirrorNext(v, Now());
      HistorySnoc(worlds, steps, step, Now());
      worlds, steps := worlds + [Now()], steps + [step];
      if r == Clean {
        hide Valid, ForeignKept, Plan;
        r := CleanupAfter(Plan(mode, package, v), worlds[0]);
        cleaned := true;
        CleanedFrame(worlds[1], Now(), package, step.job.id);
        ForeignKeptTransitive(worlds[0], worlds[1], Now(), package);
      }
    }

    /** Pruning ran after a warning-free step, spared the new row and its tags throughout, and
        every deletion it requested was safe. */
    ghost predicate LatestPruned(step: Step, mid: World, w: World, before: seq<Deletion>, after: seq<Deletion>) {
      && step.outcome == Clean && step.job.id in mid.journal
      && Cleaned(mid, w, package, step.job.id) && InPlace(w.dest, step.job)
      && DeletionsSafe(before, after, mid.journal[step.job.id], Records(mid.journal, package))
    }

    /** Mirrors one package from its listed source versions.
        FOREIGN-TAG FRAME: whatever fails, foreign tags keep id and digest and stay foreign.
        Cleanup runs only in latest mode, after the one literal `latest` version has been
        mirrored without a warning. */
    method MirrorPackage(vs: seq<SourceVersion>)
      returns (r: Outcome, ghost worlds: seq<World>, ghost steps: seq<Step>, ghost turns: seq<SourceVersion>, ghost cleaned: bool)
      requires Valid(Now(), package)
      modifies this`journal, dest`tags, dest`manifests, dest`nextId, dest`link, dest`deletions, dest`faults
      ensures Valid(Now(), package) && ForeignKept(old(Now()), Now(), package)
      ensures History(worlds, steps) && worlds[0] == old(Now()) && forall s | s in steps :: Planned(s, vs)
      ensures mode.All? ==> Turns(turns, vs) && Taken(steps, turns) && (r == Clean ==> AllClean(steps, turns))
      ensures !cleaned ==> worlds[|steps|] == Now() && dest.deletions == old(dest.deletions)
      ensures cleaned ==> mode.Latest? && |LatestVersions(vs)| == |steps| == 1
      ensures cleaned ==> LatestPruned(steps[0], worlds[1], Now(), old(dest.deletions), dest.deletions)
      ensures r == Clean && mode.Latest? ==>
                cleaned && OnlyRowLeft(worlds[1].journal, journal, package, steps[0].job.id, dest.tags, dest.manifests, Folds(steps[0].job.tags))
      ensures r == Clean && mode.All? && AllWellSpelled(vs) ==> AllPreserved(vs, dest.View())
      ensures mode.Latest? && |LatestVersions(vs)| != 1 ==> r == Warned && Now() == old(Now())
      ensures dest.faults >= old(dest.faults)
      ensures dest.faults == old(dest.faults) && mode.All? ==>
                (r == Clean <==> Open(old(Now()), vs) && AllMirrorable(worlds, turns))
      ensures dest.faults == old(dest.faults) && mode.Latest? && |LatestVersions(vs)| == 1 ==>
                (cleaned <==> Open(old(Now()), LatestVersions(vs)) && Mirrorable(old(Now()), LatestVersions(vs)[0]))
      ensures dest.faults == old(dest.faults) && cleaned && AllPrunable(worlds[1], package, steps[0].job.id) ==> r == Clean
    {
      worlds, steps, turns, cleaned := [Now()], [], SortVersions(vs), false;
      SortedAreTurns(vs);
      TurnsTaken(steps, turns);
      ForeignKeptReflexive(Now(), package);
      var selected := if mode.All? then vs else LatestVersions(vs);
      if mode.Latest? && |selected| != 1 {
        return Warned, worlds, steps, turns, cleaned;
      }
      var ok := CheckPackage(selected);
      if !ok {
        return Interrupted, worlds, steps, turns, cleaned;
      }
      if mode.All? {
        hide *;
        r, worlds, steps, turns := MirrorAll(vs);
      } else {
        assert selected[0] in selected;
        hide *;
        r, worlds, steps, cleaned := MirrorLatest(selected[0]);
        PlannedBy(steps, selected[0], vs);
      }
    }

    lemma PlannedBy(steps: seq<Step>, v: SourceVersion, vs: seq<SourceVersion>)
      requires |steps| == 1 && steps[0].job == Plan(mode, package, v) && v in vs
      ensures forall s | s in steps :: Planned(s, vs)
    {
    }
  }
}
