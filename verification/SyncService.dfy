/** The synchronization service of githarbor/services/sync.py with its fields: what its tasks do
    between two awaits, proved to be the transitions of SyncState.dfy. */
module SyncService {
  import opened Wrappers
  import opened SyncState
  import opened SyncSafety

  lemma LeftOrphans(s: Service, w: Id, before: Service)
    requires w in s.workers && s == before.(orphanRows := s.orphanRows, orphanRuns := s.orphanRuns)
    ensures Left(s, w, []) == Left(before, w, []).(orphanRows := s.orphanRows, orphanRuns := s.orphanRuns)
  {
  }

  /** With every task in its slot, nothing runs exactly when there is no task. */
  lemma IdleIff(s: Service)
    requires Sound(s)
    ensures IsRunning(s) <==> s.tasks != map[]
    ensures s.tasks.Keys == SlotTasks(s)
  {
    hide Below, Exclusive, RowsOwned, RunsOwned, AllTied, AllCounted, Sums, Locked;
    assert s.tasks.Keys <= SlotTasks(s);
    if s.tasks != map[] {
      var t :| t in s.tasks;
    }
  }

  function SlotTasks(s: Service): set<Id> {
    (if s.globalSlot.Some? && s.globalSlot.value in s.tasks then {s.globalSlot.value} else {})
    + set r | r in s.slots && s.slots[r] in s.tasks :: s.slots[r]
  }

  /** The repository has a task of its own that has not ended. */
  predicate HasTask(s: Service, repo: Id) {
    exists t | t in s.tasks :: s.tasks[t].RepositoryTask? && s.tasks[t].repo == repo
  }

  lemma RepositoryIdleIff(s: Service, repo: Id)
    requires Sound(s)
    ensures Enabled(s, StartRepository(repo)) <==> !HasTask(s, repo)
  {
    hide Inv, Locked;
  }

  // ---------------------------------------------------------------- what the methods guarantee

  lemma StartGlobalIs(s: Service)
    requires Sound(s)
    ensures (Enabled(s, StartGlobal) <==> !IsRunning(s)) && (Enabled(s, StartGlobal) <==> s.tasks == map[])
    ensures Enabled(s, StartGlobal) ==>
              Apply(s, StartGlobal) == s.(tasks := s.tasks[Id(s.next) := GlobalTask(false, None)], globalSlot := Some(Id(s.next)), next := s.next + 1)
              && s.tasks[Id(s.next) := GlobalTask(false, None)] == map[Id(s.next) := GlobalTask(false, None)]
  {
    IdleIff(s);
    hide Sound, IsRunning, SlotTasks;
  }

  lemma StartRepositoryIs(s: Service, repo: Id)
    requires Sound(s)
    ensures Enabled(s, StartRepository(repo)) <==> !HasTask(s, repo)
    ensures Enabled(s, StartRepository(repo)) <==> (repo !in s.slots || s.slots[repo] !in s.tasks)
    ensures Enabled(s, StartRepository(repo)) ==>
              var s' := Apply(s, StartRepository(repo));
              s' == s.(tasks := s.tasks[Id(s.next) := RepositoryTask(repo, false, false)], slots := s.slots[repo := Id(s.next)], next := s.next + 1)
              && HasTask(s', repo)
  {
    RepositoryIdleIff(s, repo);
    hide Sound;
    if Enabled(s, StartRepository(repo)) {
      assert IsTaskOf(Apply(s, StartRepository(repo)).tasks[Id(s.next)], repo);
    }
  }

  lemma GlobalBeginsIs(s: Service, t: Id)
    requires Sound(s) && Enabled(s, GlobalBegins(t))
    ensures t in s.tasks && !s.globalLock
    ensures var s' := Apply(s, GlobalBegins(t));
            Sound(s') && s' == if s.tasks[t].cancelled then s.(tasks := s.tasks - {t})
                               else s.(tasks := s.tasks[t := GlobalTask(false, Some(Batch(Id(s.next), Discovering, 0)))],
                                       runs := s.runs[Id(s.next) := Running], globalLock := true, next := s.next + 1)
    ensures !s.tasks[t].cancelled ==> var s' := Apply(s, GlobalBegins(t)); HasBatch(s', t) && forall x | HasBatch(s', x) :: x == t
  {
    LockFree(s, t);
    StepKeepsSound(s, GlobalBegins(t));
    OnlyBatch(Apply(s, GlobalBegins(t)));
    hide Sound;
  }

  lemma SoundParts(s: Service)
    requires Sound(s)
    ensures Locked(s) && Exclusive(s) && Below(s)
  {
    hide Locked;
    InvParts(s);
  }

  lemma PartsKept(s: Service, s': Service)
    requires Locked(s) && Exclusive(s) && Below(s) && s' == s.(tasks := s'.tasks)
    requires forall t | t in s'.tasks :: t in s.tasks && (HasBatch(s', t) ==> HasBatch(s, t) && BatchOf(s', t).run == BatchOf(s, t).run)
    ensures Locked(s') && Exclusive(s') && Below(s') && forall r :: HasWorker(s', r) <==> HasWorker(s, r)
  {
    LockedKept(s, s');
    forall r
      ensures HasWorker(s', r) <==> HasWorker(s, r)
    {
    }
    hide Locked, HasWorker;
  }

  /** The sync `w` of task `t` is the only one past the repository's lock. */
  ghost predicate SoleSync(s: Service, w: Id, repo: Id, t: Id) {
    && w in s.workers && s.workers[w].repo == repo && s.workers[w].task == t
    && forall v | v in s.workers && s.workers[v].repo == repo :: v == w
  }

  lemma EnteredIs(s: Service, t: Id, repo: Id, child: bool)
    ensures Entered(s, t, repo, child) ==
            s.(locks := s.locks + {repo}, rows := s.rows[repo := true], runs := s.runs[Id(s.next) := Running],
               workers := s.workers[Id(s.next) := Worker(repo, Id(s.next), t, child, false)], next := s.next + 1)
    ensures Refused(s, repo) <==> repo in s.locks || repo !in s.rows
  {
  }

  lemma EntersAlone(s: Service, t: Id, repo: Id, child: bool)
    requires Locked(s) && Exclusive(s) && Below(s)
    ensures Refused(s, repo) <==> !(repo in s.rows && !HasWorker(s, repo))
    ensures Refused(s, repo) <==> repo in s.locks || repo !in s.rows
    ensures var s' := Entered(s, t, repo, child);
            s' == s.(locks := s.locks + {repo}, rows := s.rows[repo := true], runs := s.runs[Id(s.next) := Running],
                     workers := s.workers[Id(s.next) := Worker(repo, Id(s.next), t, child, false)], next := s.next + 1)
            && (!Refused(s, repo) ==> Exclusive(s') && Locked(s') && SoleSync(s', Id(s.next), repo, t))
  {
    assert repo in s.locks <==> HasWorker(s, repo);
    hide Locked, Exclusive, Below;
    if !Refused(s, repo) {
      LockedEntered(s, Entered(s, t, repo, child), Worker(repo, Id(s.next), t, child, false));
      EntersSole(s, t, repo, child);
    }
  }

  lemma EntersSole(s: Service, t: Id, repo: Id, child: bool)
    requires Exclusive(s) && Below(s) && !HasWorker(s, repo)
    ensures var s' := Entered(s, t, repo, child); Exclusive(s') && SoleSync(s', Id(s.next), repo, t)
  {
  }

  function Begun(s: Service, t: Id): Service
    requires t in s.tasks && s.tasks[t].RepositoryTask?
  {
    s.(tasks := s.tasks[t := s.tasks[t].(begun := true)])
  }

  lemma RepositoryBeginsApply(s: Service, t: Id)
    requires Enabled(s, RepositoryBegins(t))
    ensures t in s.tasks && s.tasks[t].RepositoryTask? && Begun(s, t) == s.(tasks := s.tasks[t := s.tasks[t].(begun := true)])
    ensures Apply(s, RepositoryBegins(t)) ==
            if s.tasks[t].cancelled || Refused(s, s.tasks[t].repo) then s.(tasks := s.tasks - {t})
            else Entered(Begun(s, t), t, s.tasks[t].repo, false)
    ensures Refused(Begun(s, t), s.tasks[t].repo) <==> Refused(s, s.tasks[t].repo)
    ensures Begun(s, t).tasks - {t} == s.tasks - {t}
    ensures forall x | x in Begun(s, t).tasks :: x in s.tasks
              && (HasBatch(Begun(s, t), x) ==> HasBatch(s, x) && BatchOf(Begun(s, t), x).run == BatchOf(s, x).run)
  {
    hide Entered;
  }

  lemma RepositoryBeginsIs(s: Service, t: Id)
    requires Sound(s) && Enabled(s, RepositoryBegins(t))
    ensures t in s.tasks && s.tasks[t].RepositoryTask? && Sound(Apply(s, RepositoryBegins(t)))
    ensures var mid := s.(tasks := s.tasks[t := s.tasks[t].(begun := true)]);
            Locked(mid) && Exclusive(mid) && Below(mid) && (Refused(mid, s.tasks[t].repo) <==> Refused(s, s.tasks[t].repo))
            && (HasWorker(mid, s.tasks[t].repo) <==> HasWorker(s, s.tasks[t].repo))
            && mid.tasks - {t} == s.tasks - {t}
            && Apply(s, RepositoryBegins(t)) == if s.tasks[t].cancelled || Refused(s, s.tasks[t].repo) then s.(tasks := s.tasks - {t})
                                                else Entered(mid, t, s.tasks[t].repo, false)
  {
    hide *;
    SoundParts(s);
    StepKeepsSound(s, RepositoryBegins(t));
    RepositoryBeginsApply(s, t);
    PartsKept(s, Begun(s, t));
  }

  function Admitted(s: Service, t: Id, i: nat): Service
    requires Enabled(s, ChildBegins(t, i))
  {
    var b := BatchOf(s, t);
    WithPhase(s, t, b.phase.(waiting := b.phase.waiting[..i] + b.phase.waiting[i + 1..], permits := b.phase.permits - 1))
  }

  lemma ChildBeginsApply(s: Service, t: Id, i: nat)
    requires Enabled(s, ChildBegins(t, i))
    ensures t in s.tasks && s.tasks[t].GlobalTask? && s.tasks[t].batch.Some? && s.tasks[t].batch.value.phase.Mirroring?
    ensures i < |s.tasks[t].batch.value.phase.waiting| && 0 < s.tasks[t].batch.value.phase.permits
    ensures var b := s.tasks[t].batch.value;
            var p := b.phase.(waiting := b.phase.waiting[..i] + b.phase.waiting[i + 1..], permits := b.phase.permits - 1);
            var mid := Admitted(s, t, i);
            var back := p.(permits := p.permits + 1, results := p.results + [false]);
            mid == s.(tasks := s.tasks[t := s.tasks[t].(batch := Some(b.(phase := p)))])
            && Apply(s, ChildBegins(t, i)) ==
               if Refused(mid, b.phase.waiting[i]) then mid.(tasks := mid.tasks[t := mid.tasks[t].(batch := Some(b.(phase := back)))])
               else Entered(mid, t, b.phase.waiting[i], true)
    ensures forall x | x in Admitted(s, t, i).tasks :: x in s.tasks
              && (HasBatch(Admitted(s, t, i), x) ==> HasBatch(s, x) && BatchOf(Admitted(s, t, i), x).run == BatchOf(s, x).run)
  {
    hide Entered;
  }

  lemma ChildBeginsIs(s: Service, t: Id, i: nat)
    requires Sound(s) && Enabled(s, ChildBegins(t, i))
    ensures t in s.tasks && s.tasks[t].GlobalTask? && s.tasks[t].batch.Some? && s.tasks[t].batch.value.phase.Mirroring?
    ensures i < |s.tasks[t].batch.value.phase.waiting| && 0 < s.tasks[t].batch.value.phase.permits
    ensures Sound(Apply(s, ChildBegins(t, i)))
    ensures var b := s.tasks[t].batch.value;
            var p := b.phase.(waiting := b.phase.waiting[..i] + b.phase.waiting[i + 1..], permits := b.phase.permits - 1);
            var mid := s.(tasks := s.tasks[t := s.tasks[t].(batch := Some(b.(phase := p)))]);
            var back := p.(permits := p.permits + 1, results := p.results + [false]);
            Locked(mid) && Exclusive(mid) && Below(mid)
            && Apply(s, ChildBegins(t, i)) ==
               if Refused(mid, b.phase.waiting[i]) then mid.(tasks := mid.tasks[t := mid.tasks[t].(batch := Some(b.(phase := back)))])
               else Entered(mid, t, b.phase.waiting[i], true)
  {
    hide *;
    SoundParts(s);
    StepKeepsSound(s, ChildBegins(t, i));
    ChildBeginsApply(s, t, i);
    PartsKept(s, Admitted(s, t, i));
  }

  lemma LockFree(s: Service, t: Id)
    requires Sound(s) && Enabled(s, GlobalBegins(t))
    ensures !s.globalLock
  {
    hide Below, Exclusive, RowsOwned, RunsOwned, AllTied, AllCounted, Sums, Locked, Slotted;
  }

  lemma OnlyBatch(s: Service)
    requires Sound(s)
    ensures forall t, x | HasBatch(s, t) && HasBatch(s, x) :: t == x
    ensures forall t | HasBatch(s, t) :: s.globalLock
  {
    hide Below, Exclusive, RowsOwned, RunsOwned, AllTied, AllCounted, Sums, Locked, Slotted;
  }

  lemma ChildCounts(s: Service, t: Id, i: nat)
    requires Sound(s) && Enabled(s, ChildBegins(t, i))
    ensures |WorkersOf(Apply(s, ChildBegins(t, i)), t)| <= s.concurrency
  {
    StepKeepsSound(s, ChildBegins(t, i));
    SameConcurrency(s, ChildBegins(t, i));
    var s' := Apply(s, ChildBegins(t, i));
    assert IsMirroring(s', t) && Counted(s', t);
  }

  /** After the sync `w` is gone nobody is past its repository's lock, and the others' are as they were. */
  ghost predicate Freed(s: Service, s': Service, w: Id) {
    && w in s.workers && s.workers[w].repo !in s'.locks && !HasWorker(s', s.workers[w].repo)
    && s'.workers == s.workers - {w}
  }

  lemma LeavingFrees(s: Service, a: Action, w: Id)
    requires Sound(s) && Enabled(s, a) && (a.Finishes? || a.Aborts?) && a.worker == w
    ensures Freed(s, Apply(s, a), w)
  {
    SoundParts(s);
    LeavesMove(s, a, w);
    hide Sound, Apply, Enabled, Locked, Below;
  }

  lemma FinishesIs(s: Service, w: Id, success: bool)
    requires Sound(s) && Enabled(s, Finishes(w, success))
    ensures w in s.workers && Sound(Apply(s, Finishes(w, success))) && Freed(s, Apply(s, Finishes(w, success)), w)
    ensures var k, x := s.workers[w], Left(s, w, [success]);
            x.rows == s.rows && x.runs == s.runs
            && Apply(s, Finishes(w, success)) == x.(rows := if k.repo in x.rows then x.rows[k.repo := false] else x.rows, runs := x.runs[k.run := Ended])
  {
    StepKeepsSound(s, Finishes(w, success));
    LeavingFrees(s, Finishes(w, success), w);
    hide Sound, Freed, TasksAfter;
  }

  lemma AbortsIs(s: Service, w: Id)
    requires Sound(s) && Enabled(s, Aborts(w))
    ensures w in s.workers && Sound(Apply(s, Aborts(w))) && Freed(s, Apply(s, Aborts(w)), w)
    ensures var k, x, s' := s.workers[w], Left(s, w, []), Apply(s, Aborts(w));
            s' == x.(orphanRows := s.orphanRows + {k.repo}, orphanRuns := s.orphanRuns + {k.run})
            && s'.rows == s.rows && s'.runs == s.runs
  {
    StepKeepsSound(s, Aborts(w));
    LeavingFrees(s, Aborts(w), w);
    hide Sound, Freed, TasksAfter;
  }

  lemma BatchCompletesIs(s: Service, t: Id)
    requires Sound(s) && Enabled(s, BatchCompletes(t))
    ensures t in s.tasks && s.tasks[t].GlobalTask? && s.tasks[t].batch.Some? && s.tasks[t].batch.value.phase.Mirroring?
    ensures var b, s' := s.tasks[t].batch.value, Apply(s, BatchCompletes(t));
            var n := Successes(b.phase.results);
            |b.phase.results| == b.total && Sound(s') && (forall x :: !HasBatch(s', x))
            && s' == s.(tasks := s.tasks - {t}, globalLock := false, runs := s.runs[b.run := Completed(n, |b.phase.results| - n, b.total)])
  {
    StepKeepsSound(s, BatchCompletes(t));
    OnlyBatch(s);
    NoWorkers(s, t);
    assert Counted(s, t);
    hide Sound;
  }

  lemma SuccessesStart(results: seq<bool>)
    ensures Successes(results[..0]) == 0
  {
  }

  lemma SuccessesNext(results: seq<bool>, i: nat)
    requires i < |results|
    ensures Successes(results[..i + 1]) == Successes(results[..i]) + if results[i] then 1 else 0
  {
    assert results[..i + 1][..i] == results[..i];
  }

  ghost predicate AllCancelled(s: Service) {
    && (forall t | t in s.tasks :: s.tasks[t].cancelled) && (forall w | w in s.workers :: s.workers[w].cancelled)
  }

  lemma OrphansCancelled(s: Service)
    requires Sound(s)
    ensures forall w | w in s.workers :: s.workers[w].cancelled || s.workers[w].task in s.tasks
  {
    hide Below, Exclusive, RowsOwned, RunsOwned, OneGlobal, AllCounted, Sums, Locked, Slotted;
    forall w | w in s.workers
      ensures s.workers[w].cancelled || s.workers[w].task in s.tasks
    {
      assert Tied(s, w);
    }
  }

  lemma StopRequestIs(s: Service)
    requires Sound(s)
    ensures s.tasks.Keys == (if s.globalSlot.Some? && s.globalSlot.value in s.tasks then {s.globalSlot.value} else {})
                            + set r | r in s.slots && s.slots[r] in s.tasks :: s.slots[r]
    ensures Enabled(s, StopRequest) <==> s.tasks.Keys != {}
    ensures Enabled(s, StopRequest) ==>
              var s' := Apply(s, StopRequest);
              Sound(s') && AllCancelled(s') && s' == Cancelled(s, s.tasks.Keys).(stops := s.stops + [s.tasks.Keys])
    ensures !Enabled(s, StopRequest) ==> AllCancelled(s)
  {
    hide *;
    SlotTasksAre(s);
    IdleIff(s);
    StopRequestApply(s);
    OrphansCancelled(s);
    CancelledAll(s);
    if Enabled(s, StopRequest) {
      StepKeepsSound(s, StopRequest);
    }
  }

  lemma SlotTasksAre(s: Service)
    ensures SlotTasks(s) == (if s.globalSlot.Some? && s.globalSlot.value in s.tasks then {s.globalSlot.value} else {})
                            + set r | r in s.slots && s.slots[r] in s.tasks :: s.slots[r]
  {
  }

  lemma StopRequestApply(s: Service)
    ensures Enabled(s, StopRequest) <==> s.tasks.Keys != {}
    ensures Enabled(s, StopRequest) ==> Apply(s, StopRequest) == Cancelled(s, s.tasks.Keys).(stops := s.stops + [s.tasks.Keys])
  {
    hide Cancelled;
  }

  lemma CancelledAll(s: Service)
    requires forall w | w in s.workers :: s.workers[w].cancelled || s.workers[w].task in s.tasks
    ensures AllCancelled(Cancelled(s, s.tasks.Keys).(stops := s.stops + [s.tasks.Keys]))
    ensures s.tasks.Keys == {} ==> AllCancelled(s)
  {
  }

  lemma CancelledRuns(s: Service, some: set<Id>)
    ensures Cancelled(s, some).stops == s.stops
  {
  }

  lemma StopCompletesIs(s: Service, j: nat)
    requires Sound(s) && Enabled(s, StopCompletes(j))
    ensures j < |s.stops| && Cleared(s).stops == s.stops
    ensures var s' := Apply(s, StopCompletes(j));
            Sound(s') && NothingActive(s') && s' == Cleared(s).(stops := s.stops[..j] + s.stops[j + 1..])
  {
    StepKeepsSound(s, StopCompletes(j));
    KeptByStops(s, StopCompletes(j));
    hide Sound, NothingActive;
  }

  lemma RestartIs(s: Service)
    requires Sound(s)
    ensures var s' := Apply(s, Restart);
            Sound(s') && NothingActive(s') && !IsRunning(s')
            && s' == Cleared(s).(tasks := map[], workers := map[], locks := {}, globalLock := false, globalSlot := None, slots := map[], stops := [])
  {
    StepKeepsSound(s, Restart);
    RestartInv(s);
    hide Sound, NothingActive, Cleared;
  }

  // ---------------------------------------------------------------- the service

  class Synchronizer {
    const concurrency: nat
    var rows: map<Id, bool>
    var runs: map<Id, Run>
    var tasks: map<Id, Task>
    var workers: map<Id, Worker>
    var locks: set<Id>
    var globalLock: bool
    var globalSlot: Option<Id>
    var slots: map<Id, Id>
    var stops: seq<set<Id>>
    ghost var orphanRows: set<Id>
    ghost var orphanRuns: set<Id>
    var next: nat

    constructor (concurrency: nat)
      ensures View() == Initial(concurrency) && Valid()
    {
      this.concurrency := concurrency;
      rows, runs, tasks, workers, locks := map[], map[], map[], map[], {};
      globalLock, globalSlot, slots, stops := false, None, map[], [];
      orphanRows, orphanRuns, next := {}, {}, 0;
      new;
      InitialSound(concurrency);
    }

    ghost predicate Valid()
      reads this
    {
      Sound(View())
    }

    lemma ViewIs()
      ensures View() == Service(concurrency, rows, runs, tasks, workers, locks, globalLock, globalSlot, slots, stops, orphanRows, orphanRuns, next)
      ensures Valid() <==> Sound(View())
    {
    }

    ghost function View(): Service
      reads this
    {
      Service(concurrency, rows, runs, tasks, workers, locks, globalLock, globalSlot, slots, stops, orphanRows, orphanRuns, next)
    }

    predicate Busy()
      reads this
      ensures Busy() == IsRunning(View())
    {
      globalLock || (globalSlot.Some? && globalSlot.value in tasks) || exists r | r in slots :: slots[r] in tasks
    }

    /** Starts a global sync unless anything is running. */
    method StartGlobalSync() returns (started: bool)
      requires Valid()
      modifies this
      ensures Valid() && started == Enabled(old(View()), StartGlobal)
      ensures View() == if started then Apply(old(View()), StartGlobal) else old(View())
      ensures started <==> old(tasks) == map[]
      ensures started ==> exists t :: tasks == map[t := GlobalTask(false, None)]
    {
      hide *;
      ViewIs();
      ghost var s := View();
      StartGlobalIs(s);
      var busy := Busy();
      if busy {
        return false;
      }
      StepKeepsSound(s, StartGlobal);
      var t := Id(next);
      tasks, globalSlot, next := tasks[t := GlobalTask(false, None)], Some(t), next + 1;
      ViewIs();
      started := true;
    }

    /** Starts a repository's sync unless its last task is still there. */
    method StartRepositorySync(repo: Id) returns (started: bool)
      requires Valid()
      modifies this
      ensures Valid() && started == Enabled(old(View()), StartRepository(repo))
      ensures View() == if started then Apply(old(View()), StartRepository(repo)) else old(View())
      ensures started <==> !HasTask(old(View()), repo)
      ensures HasTask(View(), repo)
    {
      hide *;
      ViewIs();
      ghost var s := View();
      StartRepositoryIs(s, repo);
      if repo in slots && slots[repo] in tasks {
        return false;
      }
      StepKeepsSound(s, StartRepository(repo));
      var t := Id(next);
      tasks, slots, next := tasks[t := RepositoryTask(repo, false, false)], slots[repo := t], next + 1;
      ViewIs();
      started := true;
    }

    /** The global task's first step: it gives up if another one holds the lock. In a valid state
        none can, so only its own cancellation keeps it from opening its run. */
    method BeginGlobal(t: Id)
      requires Valid() && Enabled(View(), GlobalBegins(t))
      modifies this
      ensures Valid() && View() == Apply(old(View()), GlobalBegins(t))
      ensures t in tasks <==> !old(tasks)[t].cancelled
      ensures t in tasks ==> !old(globalLock) && globalLock && HasBatch(View(), t) && forall x | HasBatch(View(), x) :: x == t
    {
      hide *;
      ViewIs();
      ghost var s := View();
      GlobalBeginsIs(s, t);
      if tasks[t].cancelled || globalLock {
        tasks := tasks - {t};
        ViewIs();
        return;
      }
      globalLock := true;
      var run := Id(next);
      runs, next := runs[run := Running], next + 1;
      tasks := tasks[t := GlobalTask(false, Some(Batch(run, Discovering, 0)))];
      ViewIs();
    }

    /** The lock and status part of a repository sync: it enters exactly when the repository has a
        row and no sync, and is then the only sync past the repository's lock. */
    method Enter(t: Id, repo: Id, child: bool) returns (entered: bool)
      requires Locked(View()) && Exclusive(View()) && Below(View())
      modifies this
      ensures entered == !Refused(old(View()), repo)
      ensures View() == if entered then Entered(old(View()), t, repo, child) else old(View())
      ensures entered <==> repo in old(rows) && !HasWorker(old(View()), repo)
      ensures Locked(View()) && Exclusive(View())
      ensures entered ==> rows[repo] && exists w :: SoleSync(View(), w, repo, t)
    {
      hide *;
      ViewIs();
      ghost var s := View();
      EntersAlone(s, t, repo, child);
      if repo in locks {
        return false;
      }
      if repo !in rows {
        return false;
      }
      locks := locks + {repo};
      rows := rows[repo := true];
      var run := Id(next);
      runs := runs[run := Running];
      workers := workers[run := Worker(repo, run, t, child, false)];
      next := next + 1;
      ViewIs();
      entered := true;
    }

    /** A single repository's task begins. It goes on exactly when it was not cancelled, the
        repository has a row, and no sync is past its lock; then its own is the only one. */
    method BeginRepository(t: Id)
      requires Valid() && Enabled(View(), RepositoryBegins(t))
      modifies this
      ensures Valid() && View() == Apply(old(View()), RepositoryBegins(t))
      ensures t in tasks <==> !old(tasks)[t].cancelled && old(tasks)[t].repo in old(rows) && !HasWorker(old(View()), old(tasks)[t].repo)
      ensures t in tasks ==> exists w :: SoleSync(View(), w, old(tasks)[t].repo, t)
    {
      hide *;
      ViewIs();
      ghost var s := View();
      RepositoryBeginsIs(s, t);
      var task := tasks[t];
      if task.cancelled {
        tasks := tasks - {t};
        ViewIs();
        return;
      }
      tasks := tasks[t := task.(begun := true)];
      ViewIs();
      ghost var mid := View();
      var entered := Enter(t, task.repo, false);
      ViewIs();
      EnteredIs(mid, t, task.repo, false);
      if !entered {
        tasks := tasks - {t};
        ViewIs();
      }
    }

    /** A child of the global run gets a permit and begins; if it is refused at once, its permit
        goes back and it counts as a failure. */
    method BeginChild(t: Id, i: nat)
      requires Valid() && Enabled(View(), ChildBegins(t, i))
      modifies this
      ensures Valid() && View() == Apply(old(View()), ChildBegins(t, i))
      ensures |WorkersOf(View(), t)| <= concurrency
    {
      hide *;
      ViewIs();
      ghost var s := View();
      ChildBeginsIs(s, t, i);
      ChildCounts(s, t, i);
      var b := tasks[t].batch.value;
      var p := b.phase;
      var repo := p.waiting[i];
      p := p.(waiting := p.waiting[..i] + p.waiting[i + 1..], permits := p.permits - 1);
      tasks := tasks[t := tasks[t].(batch := Some(b.(phase := p)))];
      ViewIs();
      ghost var mid := View();
      var entered := Enter(t, repo, true);
      ViewIs();
      if !entered {
        p := p.(permits := p.permits + 1, results := p.results + [false]);
        tasks := tasks[t := tasks[t].(batch := Some(b.(phase := p)))];
        ViewIs();
      }
    }

    /** A worker's lock is released, and its task goes on or ends. */
    method Leave(w: Id, result: seq<bool>)
      requires w in workers
      modifies this`locks, this`workers, this`tasks
      ensures View() == Left(old(View()), w, result)
    {
      var k := workers[w];
      locks := locks - {k.repo};
      workers := workers - {w};
      if !k.child {
        tasks := tasks - {k.task};
      } else if k.task in tasks && tasks[k.task].GlobalTask? && tasks[k.task].batch.Some? && tasks[k.task].batch.value.phase.Mirroring? {
        var b := tasks[k.task].batch.value;
        var p := b.phase.(permits := b.phase.permits + 1, results := b.phase.results + result);
        tasks := tasks[k.task := tasks[k.task].(batch := Some(b.(phase := p)))];
      }
    }

    /** A repository sync ends by itself: status and run are settled, the lock is released. The
        repository is free for its next sync, and no other repository's sync is disturbed. */
    method Finish(w: Id, success: bool)
      requires Valid() && Enabled(View(), Finishes(w, success))
      modifies this
      ensures Valid() && View() == Apply(old(View()), Finishes(w, success))
      ensures Freed(old(View()), View(), w)
      ensures var k := old(workers)[w]; (k.repo in rows ==> !rows[k.repo]) && k.run in runs && runs[k.run] == Ended
    {
      hide *;
      ViewIs();
      ghost var s := View();
      FinishesIs(s, w, success);
      var k := workers[w];
      Leave(w, [success]);
      ViewIs();
      if k.repo in rows {
        rows := rows[k.repo := false];
      }
      runs := runs[k.run := Ended];
      ViewIs();
    }

    /** A cancelled repository sync ends: row and run stay as they are, for a stop or a restart
        to settle, but the repository is free for its next sync. */
    method Abort(w: Id)
      requires Valid() && Enabled(View(), Aborts(w))
      modifies this
      ensures Valid() && View() == Apply(old(View()), Aborts(w))
      ensures Freed(old(View()), View(), w) && rows == old(rows) && runs == old(runs)
      ensures old(workers)[w].repo in orphanRows && old(workers)[w].run in orphanRuns
    {
      hide *;
      ViewIs();
      ghost var s := View();
      AbortsIs(s, w);
      orphanRows, orphanRuns := orphanRows + {workers[w].repo}, orphanRuns + {workers[w].run};
      ViewIs();
      ghost var before := View();
      Leave(w, []);
      ViewIs();
      LeftOrphans(before, w, s);
    }

    /** All children are done: the global run is completed with its counts, which add up to what
        it discovered. */
    method FinishGlobal(t: Id)
      requires Valid() && Enabled(View(), BatchCompletes(t))
      modifies this
      ensures Valid() && View() == Apply(old(View()), BatchCompletes(t))
      ensures var b := old(tasks)[t].batch.value;
              b.run in runs && runs[b.run].Completed? && runs[b.run].discovered == b.total
              && runs[b.run].succeeded == Successes(b.phase.results) && runs[b.run].succeeded + runs[b.run].failed == b.total
      ensures !globalLock && forall x :: !HasBatch(View(), x)
    {
      hide *;
      ViewIs();
      ghost var s := View();
      BatchCompletesIs(s, t);
      var b := tasks[t].batch.value;
      var results := b.phase.results;
      var succeeded: nat, i: nat := 0, 0;
      SuccessesStart(results);
      while i < |results|
        invariant i <= |results| && succeeded == Successes(results[..i])
        invariant View() == s
      {
        SuccessesNext(results, i);
        if results[i] {
          succeeded := succeeded + 1;
        }
        i := i + 1;
      }
      assert results[..i] == results;
      ViewIs();
      runs := runs[b.run := Completed(succeeded, |results| - succeeded, b.total)];
      globalLock := false;
      tasks := tasks - {t};
      ViewIs();
    }

    /** Asks tasks to end; their next await raises. */
    method CancelTasks(some: set<Id>)
      modifies this`tasks, this`workers
      ensures View() == Cancelled(old(View()), some)
    {
      tasks := map t | t in tasks :: if t in some then tasks[t].(cancelled := true) else tasks[t];
      workers := map w | w in workers :: if workers[w].task in some then workers[w].(cancelled := true) else workers[w];
    }

    /** An administrator's stop, up to where it waits for the tasks it cancelled: those in the
        slots, which are all there are. Every sync past a lock is then cancelled, whether its
        task is still there or not. */
    method RequestStop() returns (waiting: bool)
      requires Valid()
      modifies this
      ensures Valid() && waiting == Enabled(old(View()), StopRequest)
      ensures View() == if waiting then Apply(old(View()), StopRequest) else old(View())
      ensures AllCancelled(View())
    {
      hide *;
      ViewIs();
      ghost var s := View();
      StopRequestIs(s);
      var all := (if globalSlot.Some? && globalSlot.value in tasks then {globalSlot.value} else {})
                 + set r | r in slots && slots[r] in tasks :: slots[r];
      if all == {} {
        return false;
      }
      CancelTasks(all);
      ViewIs();
      CancelledRuns(s, all);
      stops := stops + [all];
      ViewIs();
      waiting := true;
    }

    method SettleAll()
      modifies this`rows, this`runs, this`orphanRows, this`orphanRuns
      ensures View() == Cleared(old(View()))
    {
      rows := map r | r in rows :: false;
      runs := map n | n in runs :: if runs[n] == Running then Ended else runs[n];
      orphanRows, orphanRuns := {}, {};
    }

    /** The rest of the stop, once those tasks are done: nothing is left syncing or running. */
    method CompleteStop(j: nat)
      requires Valid() && Enabled(View(), StopCompletes(j))
      modifies this
      ensures Valid() && View() == Apply(old(View()), StopCompletes(j))
      ensures NothingActive(View())
    {
      hide *;
      ViewIs();
      ghost var s := View();
      StopCompletesIs(s, j);
      SettleAll();
      ViewIs();
      stops := stops[..j] + stops[j + 1..];
      ViewIs();
    }

    /** A restart: every task is gone, and recovery settles what they left, whatever state the
        service was in. */
    method RecoverInterruptedRuns()
      requires Valid()
      modifies this
      ensures Valid() && View() == Apply(old(View()), Restart)
      ensures NothingActive(View()) && !IsRunning(View()) && workers == map[] && locks == {}
    {
      hide *;
      ViewIs();
      ghost var s := View();
      RestartIs(s);
      SettleAll();
      ViewIs();
      tasks, workers, locks, globalLock, globalSlot, slots, stops := map[], map[], {}, false, None, map[], [];
      ViewIs();
    }
  }
}
