/** Safety of every interleaving: the invariant of SyncState.dfy is kept by every action, and what
    follows from it for every run of the service. */
module SyncSafety {
  import opened Wrappers
  import opened SyncState

  lemma InitialInv(concurrency: nat)
    ensures Inv(Initial(concurrency))
  {
  }

  // ---------------------------------------------------------------- what carries over

  /** Rows, locks and workers as they were. */
  ghost predicate SameOwners(s: Service, s': Service) {
    s'.workers == s.workers && s'.locks == s.locks && s'.rows == s.rows && s'.orphanRows == s.orphanRows
  }

  lemma OwnersCarry(s: Service, s': Service)
    requires SameOwners(s, s') && Exclusive(s) && RowsOwned(s)
    ensures Exclusive(s') && RowsOwned(s')
  {
    forall r | r in s'.rows && s'.rows[r] && r !in s'.orphanRows
      ensures HasWorker(s', r)
    {
      assert HasWorker(s, r);
    }
  }

  /** Only task `t` differs. */
  ghost predicate OnlyTask(s: Service, s': Service, t: Id) {
    forall x | x != t :: (x in s'.tasks <==> x in s.tasks) && (x in s.tasks ==> s'.tasks[x] == s.tasks[x])
  }

  lemma TiedCarries(s: Service, s': Service, t: Id)
    requires AllTied(s) && s'.workers == s.workers && OnlyTask(s, s', t)
    requires forall w | w in s.workers && s.workers[w].task == t :: Tied(s', w)
    ensures AllTied(s')
  {
    forall w | w in s'.workers
      ensures Tied(s', w)
    {
      assert Tied(s, w);
    }
  }

  lemma CountedCarries(s: Service, s': Service, t: Id)
    requires AllCounted(s) && s'.workers == s.workers && s'.concurrency == s.concurrency && OnlyTask(s, s', t)
    requires IsMirroring(s', t) ==> Counted(s', t)
    ensures AllCounted(s')
  {
    forall x | IsMirroring(s', x)
      ensures Counted(s', x)
    {
      if x != t {
        assert Counted(s, x);
        assert WorkersOf(s', x) == WorkersOf(s, x);
      }
    }
  }

  /** Runs keep their owners when only task `t` changes and its own run is accounted for. */
  lemma RunsCarry(s: Service, s': Service, t: Id)
    requires RunsOwned(s) && s'.workers == s.workers && OnlyTask(s, s', t) && s.orphanRuns <= s'.orphanRuns
    requires forall n | n in s'.runs && s'.runs[n] == Running :: (n in s.runs && s.runs[n] == Running) || n in s'.orphanRuns || HasOwner(s', n)
    requires HasBatch(s, t) ==> var n := BatchOf(s, t).run; n in s'.orphanRuns || (n in s'.runs && s'.runs[n] != Running) || HasOwner(s', n)
    ensures RunsOwned(s')
  {
    forall n | n in s'.runs && s'.runs[n] == Running && n !in s'.orphanRuns
      ensures HasOwner(s', n)
    {
      if HasOwner(s, n) {
        OwnerCarries(s, s', t, n);
      }
    }
  }

  lemma OwnerCarries(s: Service, s': Service, t: Id, n: Id)
    requires s'.workers == s.workers && OnlyTask(s, s', t) && HasOwner(s, n)
    ensures HasOwner(s', n) || (HasBatch(s, t) && BatchOf(s, t).run == n)
  {
    if w :| w in s.workers && s.workers[w].run == n {
      assert w in s'.workers && s'.workers[w].run == n;
    } else {
      var x :| HasBatch(s, x) && BatchOf(s, x).run == n;
      if x != t {
        assert HasBatch(s', x) && BatchOf(s', x).run == n;
      }
    }
  }

  /** An action that touches tasks, slots and runs only. */
  lemma TaskAction(s: Service, s': Service, t: Id)
    requires Inv(s) && SameOwners(s, s') && OnlyTask(s, s', t) && s'.concurrency == s.concurrency
    requires Below(s') && OneGlobal(s') && RunsOwned(s') && Sums(s')
    requires forall w | w in s.workers && s.workers[w].task == t :: Tied(s', w)
    requires IsMirroring(s', t) ==> Counted(s', t)
    ensures Inv(s')
  {
    hide Below, OneGlobal, RunsOwned, Sums, Tied, Counted, IsMirroring, OnlyTask;
    OwnersCarry(s, s');
    TiedCarries(s, s', t);
    CountedCarries(s, s', t);
  }

  lemma KeptByStartGlobal(s: Service)
    requires Inv(s) && Enabled(s, StartGlobal)
    ensures Inv(Apply(s, StartGlobal))
  {
    var t, s' := Id(s.next), Apply(s, StartGlobal);
    assert t !in s.tasks;
    RunsCarry(s, s', t);
    hide RunsOwned, Exclusive, RowsOwned, AllCounted;
    TaskAction(s, s', t);
  }

  /** A repository's task that has not begun adds nothing to account for. */
  lemma TaskStarts(s: Service, s': Service, k: Task)
    requires Inv(s) && k.RepositoryTask?
    requires s' == s.(tasks := s.tasks[Id(s.next) := k], slots := s'.slots, next := s.next + 1)
    ensures Inv(s')
  {
    var t := Id(s.next);
    assert t !in s.tasks;
    RunsCarry(s, s', t);
    hide RunsOwned, Exclusive, RowsOwned, AllCounted;
    TaskAction(s, s', t);
  }

  lemma KeptByStartRepository(s: Service, repo: Id)
    requires Inv(s) && Enabled(s, StartRepository(repo))
    ensures Inv(Apply(s, StartRepository(repo)))
  {
    hide Inv;
    TaskStarts(s, Apply(s, StartRepository(repo)), RepositoryTask(repo, false, false));
  }

  lemma KeptByGlobalBegins(s: Service, t: Id)
    requires Inv(s) && Enabled(s, GlobalBegins(t))
    ensures Inv(Apply(s, GlobalBegins(t)))
  {
    hide Inv;
    if s.tasks[t].cancelled || s.globalLock {
      NotBegun(s, t, s.(tasks := s.tasks - {t}));
    } else {
      GlobalStarts(s, t, Apply(s, GlobalBegins(t)));
    }
  }

  /** A task that ends before it did anything. */
  lemma NotBegun(s: Service, t: Id, s': Service)
    requires Inv(s) && t in s.tasks && !HasBatch(s, t) && (s.tasks[t].RepositoryTask? ==> !s.tasks[t].begun)
    requires s' == s.(tasks := s.tasks - {t})
    ensures Inv(s')
  {
    assert forall w | w in s.workers :: Tied(s, w);
    RunsCarry(s, s', t);
    hide RunsOwned, Exclusive, RowsOwned, AllCounted;
    TaskAction(s, s', t);
  }

  lemma GlobalStarts(s: Service, t: Id, s': Service)
    requires Inv(s) && t in s.tasks && s.tasks[t].GlobalTask? && !HasBatch(s, t) && !s.globalLock
    requires s' == s.(tasks := s.tasks[t := GlobalTask(false, Some(Batch(Id(s.next), Discovering, 0)))],
                      runs := s.runs[Id(s.next) := Running], globalLock := true, next := s.next + 1)
    ensures Inv(s')
  {
    assert forall w | w in s.workers :: Tied(s, w);
    assert s.globalSlot == Some(t);
    assert HasBatch(s', t) && BatchOf(s', t).run == Id(s.next);
    RunsCarry(s, s', t);
    hide RunsOwned, Exclusive, RowsOwned, AllCounted;
    TaskAction(s, s', t);
  }

  lemma KeptByDiscovered(s: Service, t: Id, repos: seq<Id>)
    requires Inv(s) && Enabled(s, Discovered(t, repos))
    ensures Inv(Apply(s, Discovered(t, repos)))
  {
    hide Inv;
    var b := BatchOf(s, t);
    BatchGrows(s, Apply(s, Discovered(t, repos)), t, b.(phase := Mirroring(repos, s.concurrency, []), total := |repos|));
  }

  lemma BatchGrows(s: Service, s': Service, t: Id, b: Batch)
    requires Inv(s) && HasBatch(s, t) && BatchOf(s, t).phase.Discovering? && b.phase.Mirroring? && b.run == BatchOf(s, t).run
    requires b.phase.permits == s.concurrency && b.phase.results == [] && b.total == |b.phase.waiting|
    requires s' == s.(tasks := s.tasks[t := s.tasks[t].(batch := Some(b))])
    ensures Inv(s')
  {
    assert forall w | w in s.workers :: Tied(s, w);
    NoWorkers(s', t);
    assert HasBatch(s', t) && BatchOf(s', t).run == BatchOf(s, t).run;
    RunsCarry(s, s', t);
    hide RunsOwned, Exclusive, RowsOwned, AllCounted;
    TaskAction(s, s', t);
  }

  lemma NoWorkers(s: Service, t: Id)
    ensures (forall w | w in s.workers :: s.workers[w].task != t) <==> |WorkersOf(s, t)| == 0
  {
    if forall w | w in s.workers :: s.workers[w].task != t {
      assert WorkersOf(s, t) == {};
    } else {
      var w :| w in s.workers && s.workers[w].task == t;
      assert w in WorkersOf(s, t);
    }
  }

  lemma KeptByBatchAborts(s: Service, t: Id)
    requires Inv(s) && Enabled(s, BatchAborts(t))
    ensures Inv(Apply(s, BatchAborts(t)))
  {
    hide Inv;
    BatchDropped(s, Apply(s, BatchAborts(t)), t);
  }

  lemma BatchDropped(s: Service, s': Service, t: Id)
    requires Inv(s) && HasBatch(s, t) && s.tasks[t].cancelled
    requires s' == s.(tasks := s.tasks - {t}, globalLock := false, orphanRuns := s.orphanRuns + {BatchOf(s, t).run})
    ensures Inv(s')
  {
    assert forall w | w in s.workers :: Tied(s, w);
    assert s.globalSlot == Some(t);
    RunsCarry(s, s', t);
    hide RunsOwned, Exclusive, RowsOwned, AllCounted;
    TaskAction(s, s', t);
  }

  lemma KeptByBatchCompletes(s: Service, t: Id)
    requires Inv(s) && Enabled(s, BatchCompletes(t))
    ensures Inv(Apply(s, BatchCompletes(t)))
  {
    hide Inv;
    BatchDone(s, Apply(s, BatchCompletes(t)), t);
  }

  lemma BatchDone(s: Service, s': Service, t: Id)
    requires Inv(s) && IsMirroring(s, t) && !s.tasks[t].cancelled && BatchOf(s, t).phase.waiting == [] && WorkersOf(s, t) == {}
    requires var b := BatchOf(s, t);
             var n := Successes(b.phase.results);
             s' == s.(tasks := s.tasks - {t}, globalLock := false, runs := s.runs[b.run := Completed(n, |b.phase.results| - n, b.total)])
    ensures Inv(s')
  {
    NoWorkers(s, t);
    assert s.globalSlot == Some(t) && Counted(s, t);
    assert BatchOf(s, t).run in s'.runs;
    RunsCarry(s, s', t);
    hide RunsOwned, Exclusive, RowsOwned, AllCounted;
    TaskAction(s, s', t);
  }

  lemma KeptByStopDropped(s: Service, j: nat)
    requires Inv(s) && Enabled(s, StopDropped(j))
    ensures Inv(Apply(s, StopDropped(j)))
  {
    hide Inv;
    OtherStops(s, s.stops[..j] + s.stops[j + 1..]);
  }

  lemma OtherStops(s: Service, stops: seq<set<Id>>)
    requires Inv(s)
    ensures Inv(s.(stops := stops))
  {
    var s' := s.(stops := stops);
    forall t | IsMirroring(s', t)
      ensures Counted(s', t)
    {
      assert Counted(s, t) && WorkersOf(s', t) == WorkersOf(s, t);
    }
    hide Counted;
    OwnersCarry(s, s');
    TiedCarries(s, s', Id(s.next));
    RunsCarry(s, s', Id(s.next));
  }

  lemma KeptByReconcile(s: Service, t: Id, cleared: set<Id>, added: set<Id>)
    requires Inv(s) && Enabled(s, Reconcile(t, cleared, added))
    ensures Inv(Apply(s, Reconcile(t, cleared, added)))
  {
    var s' := Apply(s, Reconcile(t, cleared, added));
    forall r | r in s'.rows && s'.rows[r] && r !in s'.orphanRows
      ensures HasWorker(s', r)
    {
      assert HasWorker(s, r);
    }
    RowsOnly(s, s');
  }

  lemma RowsOnly(s: Service, s': Service)
    requires Inv(s) && RowsOwned(s') && s' == s.(rows := s'.rows)
    ensures Inv(s')
  {
    forall t | IsMirroring(s', t)
      ensures Counted(s', t)
    {
      assert Counted(s, t) && WorkersOf(s', t) == WorkersOf(s, t);
    }
    hide Counted, RowsOwned;
    TiedCarries(s, s', Id(s.next));
    RunsCarry(s, s', Id(s.next));
  }

  // ---------------------------------------------------------------- entering a repository's lock

  /** The task that enters has accounted for one more worker. */
  ghost predicate ReadyToEnter(s: Service, s1: Service, t: Id, repo: Id, child: bool) {
    && s1 == s.(tasks := s1.tasks) && OnlyTask(s, s1, t) && !Refused(s, repo)
    && t in s.tasks && t in s1.tasks && !s1.tasks[t].cancelled && !s.tasks[t].cancelled
    && (HasBatch(s, t) <==> HasBatch(s1, t)) && (HasBatch(s, t) ==> BatchOf(s, t).run == BatchOf(s1, t).run)
    && s1.tasks[t].GlobalTask? == s.tasks[t].GlobalTask?
    && (if child then IsMirroring(s, t) && IsMirroring(s1, t) && RoomForOne(s1, t)
        else s.tasks[t].RepositoryTask? && !s.tasks[t].begun && s1.tasks[t].RepositoryTask? && s1.tasks[t].repo == repo && s1.tasks[t].begun)
  }

  ghost predicate RoomForOne(s1: Service, t: Id)
    requires IsMirroring(s1, t)
  {
    var b := BatchOf(s1, t);
    && b.phase.permits + |WorkersOf(s1, t)| + 1 == s1.concurrency
    && |b.phase.waiting| + |WorkersOf(s1, t)| + 1 + |b.phase.results| == b.total
  }

  lemma EnteredExclusive(s: Service, s1: Service, t: Id, repo: Id, child: bool)
    requires Below(s) && Exclusive(s) && RowsOwned(s) && ReadyToEnter(s, s1, t, repo, child)
    ensures Exclusive(Entered(s1, t, repo, child)) && RowsOwned(Entered(s1, t, repo, child))
  {
    var s' := Entered(s1, t, repo, child);
    assert s'.workers[Id(s.next)].repo == repo;
    assert HasWorker(s', repo);
    forall r | r in s'.rows && s'.rows[r] && r != repo && r !in s'.orphanRows
      ensures HasWorker(s', r)
    {
      assert HasWorker(s, r);
      var w :| w in s.workers && s.workers[w].repo == r;
      assert w in s'.workers && s'.workers[w].repo == r;
    }
  }

  lemma EnteredRuns(s: Service, s1: Service, t: Id, repo: Id, child: bool)
    requires Below(s) && RunsOwned(s) && ReadyToEnter(s, s1, t, repo, child)
    ensures RunsOwned(Entered(s1, t, repo, child))
  {
    var s' := Entered(s1, t, repo, child);
    var own := Id(s.next);
    forall n | n in s'.runs && s'.runs[n] == Running && n !in s'.orphanRuns
      ensures HasOwner(s', n)
    {
      if n == own {
        assert own in s'.workers && s'.workers[own].run == n;
      } else {
        assert HasOwner(s, n);
        if w :| w in s.workers && s.workers[w].run == n {
          assert w in s'.workers && s'.workers[w].run == n;
        } else {
          var x :| HasBatch(s, x) && BatchOf(s, x).run == n;
          assert HasBatch(s', x) && BatchOf(s', x).run == n;
        }
      }
    }
  }

  lemma EnteredTied(s: Service, s1: Service, t: Id, repo: Id, child: bool)
    requires Below(s) && AllTied(s) && ReadyToEnter(s, s1, t, repo, child)
    ensures AllTied(Entered(s1, t, repo, child))
  {
    var s' := Entered(s1, t, repo, child);
    forall w | w in s'.workers
      ensures Tied(s', w)
    {
      if w in s.workers {
        assert Tied(s, w) && w != Id(s.next);
      }
    }
  }

  lemma EnteredCounted(s: Service, s1: Service, t: Id, repo: Id, child: bool)
    requires Below(s) && AllCounted(s) && ReadyToEnter(s, s1, t, repo, child)
    ensures AllCounted(Entered(s1, t, repo, child))
  {
    var s' := Entered(s1, t, repo, child);
    forall x | IsMirroring(s', x)
      ensures Counted(s', x)
    {
      if x == t {
        assert WorkersOf(s', t) == WorkersOf(s1, t) + {Id(s.next)};
      } else {
        assert Counted(s, x) && WorkersOf(s', x) == WorkersOf(s, x);
      }
    }
  }

  lemma EnteredInv(s: Service, s1: Service, t: Id, repo: Id, child: bool)
    requires Inv(s) && ReadyToEnter(s, s1, t, repo, child)
    ensures Inv(Entered(s1, t, repo, child))
  {
    hide Exclusive, RowsOwned, RunsOwned, AllTied, AllCounted, ReadyToEnter, Below, OneGlobal, Sums, Entered;
    EnteredExclusive(s, s1, t, repo, child);
    EnteredRuns(s, s1, t, repo, child);
    EnteredTied(s, s1, t, repo, child);
    EnteredCounted(s, s1, t, repo, child);
    EnteredRest(s, s1, t, repo, child);
  }

  lemma EnteredRest(s: Service, s1: Service, t: Id, repo: Id, child: bool)
    requires Below(s) && OneGlobal(s) && Sums(s) && ReadyToEnter(s, s1, t, repo, child)
    ensures Below(Entered(s1, t, repo, child)) && OneGlobal(Entered(s1, t, repo, child)) && Sums(Entered(s1, t, repo, child))
  {
  }

  lemma KeptByChildBegins(s: Service, t: Id, i: nat)
    requires Inv(s) && Enabled(s, ChildBegins(t, i))
    ensures Inv(Apply(s, ChildBegins(t, i)))
  {
    var b := BatchOf(s, t);
    var p := b.phase;
    var repo, rest := p.waiting[i], p.waiting[..i] + p.waiting[i + 1..];
    assert |rest| == |p.waiting| - 1 && Counted(s, t);
    if Refused(s, repo) {
      ChildRefused(s, t, p.(waiting := rest, results := p.results + [false]));
    } else {
      ChildEnters(s, t, repo, p.(waiting := rest, permits := p.permits - 1));
    }
    hide Inv;
  }

  lemma ChildRefused(s: Service, t: Id, p: Phase)
    requires Inv(s) && IsMirroring(s, t) && p.Mirroring?
    requires p.permits == BatchOf(s, t).phase.permits
    requires |p.waiting| + |p.results| == |BatchOf(s, t).phase.waiting| + |BatchOf(s, t).phase.results|
    ensures Inv(WithPhase(s, t, p))
  {
    var s' := WithPhase(s, t, p);
    assert forall w | w in s.workers :: Tied(s, w);
    assert Counted(s, t) && WorkersOf(s', t) == WorkersOf(s, t);
    assert HasBatch(s', t) && BatchOf(s', t).run == BatchOf(s, t).run;
    RunsCarry(s, s', t);
    hide RunsOwned, Exclusive, RowsOwned, AllCounted;
    TaskAction(s, s', t);
  }

  lemma ChildEnters(s: Service, t: Id, repo: Id, p: Phase)
    requires Inv(s) && IsMirroring(s, t) && p.Mirroring? && !s.tasks[t].cancelled && !Refused(s, repo)
    requires p.permits + 1 == BatchOf(s, t).phase.permits
    requires |p.waiting| + 1 == |BatchOf(s, t).phase.waiting| && p.results == BatchOf(s, t).phase.results
    ensures Inv(Entered(WithPhase(s, t, p), t, repo, true))
  {
    var s1 := WithPhase(s, t, p);
    assert Counted(s, t) && WorkersOf(s1, t) == WorkersOf(s, t);
    hide Inv;
    EnteredInv(s, s1, t, repo, true);
  }

  lemma KeptByRepositoryBegins(s: Service, t: Id)
    requires Inv(s) && Enabled(s, RepositoryBegins(t))
    ensures Inv(Apply(s, RepositoryBegins(t)))
  {
    hide Inv;
    if s.tasks[t].cancelled || Refused(s, s.tasks[t].repo) {
      NotBegun(s, t, s.(tasks := s.tasks - {t}));
    } else {
      EnteredInv(s, s.(tasks := s.tasks[t := s.tasks[t].(begun := true)]), t, s.tasks[t].repo, false);
    }
  }

  // ---------------------------------------------------------------- leaving it

  /** What every end of a worker has in common. */
  ghost predicate LeftAs(s: Service, s': Service, w: Id, result: seq<bool>)
    requires w in s.workers
  {
    s' == Left(s, w, result).(rows := s'.rows, runs := s'.runs, orphanRows := s'.orphanRows, orphanRuns := s'.orphanRuns)
  }

  lemma LeftShape(s: Service, s': Service, w: Id, result: seq<bool>)
    requires AllTied(s) && w in s.workers && LeftAs(s, s', w, result)
    ensures s'.workers == s.workers - {w} && s'.locks == s.locks - {s.workers[w].repo} && OnlyTask(s, s', s.workers[w].task)
    ensures s'.concurrency == s.concurrency && s'.next == s.next && s'.globalLock == s.globalLock && s'.globalSlot == s.globalSlot
    ensures s.workers[w].child ==>
              (s.workers[w].task in s.tasks <==> s.workers[w].task in s'.tasks)
              && (s.workers[w].task in s.tasks ==>
                    (IsMirroring(s, s.workers[w].task) && IsMirroring(s', s.workers[w].task)
                     && s'.tasks[s.workers[w].task].cancelled == s.tasks[s.workers[w].task].cancelled
                     && BatchOf(s', s.workers[w].task).run == BatchOf(s, s.workers[w].task).run))
    ensures !s.workers[w].child ==>
              s.workers[w].task !in s'.tasks && s.workers[w].task in s.tasks && s.tasks[s.workers[w].task].RepositoryTask?
              && s.tasks[s.workers[w].task].repo == s.workers[w].repo
  {
    assert Tied(s, w);
  }

  lemma LeftExclusive(s: Service, s': Service, w: Id, result: seq<bool>)
    requires AllTied(s) && Exclusive(s) && RowsOwned(s) && w in s.workers && LeftAs(s, s', w, result)
    requires forall r | r in s'.rows && s'.rows[r] :: r in s.rows && s.rows[r] && (r in s.orphanRows ==> r in s'.orphanRows)
    requires s.workers[w].repo in s'.rows && s'.rows[s.workers[w].repo] ==> s.workers[w].repo in s'.orphanRows
    ensures Exclusive(s') && RowsOwned(s')
  {
    LeftShape(s, s', w, result);
    hide LeftAs, AllTied, OnlyTask;
    forall r | r in s'.rows && s'.rows[r] && r !in s'.orphanRows
      ensures HasWorker(s', r)
    {
      assert HasWorker(s, r);
      var v :| v in s.workers && s.workers[v].repo == r;
      assert v in s'.workers && s'.workers[v].repo == r;
    }
  }

  lemma LeftRuns(s: Service, s': Service, w: Id, result: seq<bool>)
    requires AllTied(s) && RunsOwned(s) && w in s.workers && LeftAs(s, s', w, result) && s.orphanRuns <= s'.orphanRuns
    requires forall n | n in s'.runs && s'.runs[n] == Running :: n in s.runs && s.runs[n] == Running
    requires s.workers[w].run in s'.orphanRuns || (s.workers[w].run in s'.runs && s'.runs[s.workers[w].run] != Running)
    ensures RunsOwned(s')
  {
    LeftShape(s, s', w, result);
    hide LeftAs, AllTied;
    forall n | n in s'.runs && s'.runs[n] == Running && n !in s'.orphanRuns
      ensures HasOwner(s', n)
    {
      assert HasOwner(s, n);
      if v :| v in s.workers && s.workers[v].run == n {
        assert v in s'.workers && s'.workers[v].run == n;
      } else {
        var x :| HasBatch(s, x) && BatchOf(s, x).run == n;
        assert HasBatch(s', x) && BatchOf(s', x).run == n;
      }
    }
  }

  lemma LeftTied(s: Service, s': Service, w: Id, result: seq<bool>)
    requires AllTied(s) && Exclusive(s) && w in s.workers && LeftAs(s, s', w, result)
    ensures AllTied(s')
  {
    LeftShape(s, s', w, result);
    hide LeftAs;
    forall v | v in s'.workers
      ensures Tied(s', v)
    {
      assert Tied(s, v) && Tied(s, w);
    }
  }

  lemma LeftCounted(s: Service, s': Service, w: Id, result: seq<bool>)
    requires AllTied(s) && AllCounted(s) && w in s.workers && LeftAs(s, s', w, result)
    requires |result| == 1 || (result == [] && s.workers[w].cancelled)
    ensures AllCounted(s')
  {
    LeftShape(s, s', w, result);
    assert Tied(s, w);
    var t := s.workers[w].task;
    forall x | IsMirroring(s', x)
      ensures Counted(s', x)
    {
      assert Counted(s, x);
      if x == t {
        assert WorkersOf(s', t) == WorkersOf(s, t) - {w};
        assert w in WorkersOf(s, t);
        LeftPhase(s, s', w, result);
      } else {
        assert WorkersOf(s', x) == WorkersOf(s, x);
      }
    }
  }

  lemma LeftPhase(s: Service, s': Service, w: Id, result: seq<bool>)
    requires w in s.workers && LeftAs(s, s', w, result) && s.workers[w].child && IsMirroring(s, s.workers[w].task)
    ensures var t := s.workers[w].task;
            IsMirroring(s', t) && BatchOf(s', t).total == BatchOf(s, t).total
            && BatchOf(s', t).phase.waiting == BatchOf(s, t).phase.waiting
            && BatchOf(s', t).phase.permits == BatchOf(s, t).phase.permits + 1
            && BatchOf(s', t).phase.results == BatchOf(s, t).phase.results + result
  {
  }

  lemma LeftRest(s: Service, s': Service, w: Id, result: seq<bool>)
    requires AllTied(s) && Below(s) && OneGlobal(s) && Sums(s) && w in s.workers && LeftAs(s, s', w, result)
    requires forall n | n in s'.runs :: n in s.runs || n == s.workers[w].run
    requires forall n | n in s'.runs && s'.runs[n].Completed? :: n in s.runs && s'.runs[n] == s.runs[n]
    ensures Below(s') && OneGlobal(s') && Sums(s')
  {
    LeftShape(s, s', w, result);
    LeftBatches(s, s', w, result);
    hide LeftAs, AllTied, OnlyTask;
    forall t | t in s'.tasks
      ensures t in s.tasks && s'.tasks[t].GlobalTask? == s.tasks[t].GlobalTask?
    {
      LeftTasks(s, s', w, result, t);
    }
    hide IsMirroring, HasBatch, BatchOf;
  }

  lemma LeftTasks(s: Service, s': Service, w: Id, result: seq<bool>, t: Id)
    requires AllTied(s) && w in s.workers && LeftAs(s, s', w, result)
    ensures t in s'.tasks ==> t in s.tasks && s'.tasks[t].GlobalTask? == s.tasks[t].GlobalTask?
    ensures t in s.tasks && s.tasks[t].GlobalTask? ==> t in s'.tasks
  {
    LeftShape(s, s', w, result);
    hide LeftAs;
  }

  lemma LeftBatches(s: Service, s': Service, w: Id, result: seq<bool>)
    requires AllTied(s) && w in s.workers && LeftAs(s, s', w, result)
    ensures forall t :: HasBatch(s', t) <==> HasBatch(s, t)
    ensures forall t | HasBatch(s', t) :: BatchOf(s', t).run == BatchOf(s, t).run
  {
    LeftShape(s, s', w, result);
    hide LeftAs;
    forall t
      ensures HasBatch(s', t) <==> HasBatch(s, t)
      ensures HasBatch(s', t) ==> BatchOf(s', t).run == BatchOf(s, t).run
    {
    }
  }

  lemma KeptByFinishes(s: Service, w: Id, success: bool)
    requires Inv(s) && Enabled(s, Finishes(w, success))
    ensures Inv(Apply(s, Finishes(w, success)))
  {
    var s' := Apply(s, Finishes(w, success));
    hide Exclusive, RowsOwned, RunsOwned, AllTied, AllCounted, Below, OneGlobal, Sums, Left;
    LeftExclusive(s, s', w, [success]);
    LeftRuns(s, s', w, [success]);
    LeftTied(s, s', w, [success]);
    LeftCounted(s, s', w, [success]);
    LeftRest(s, s', w, [success]);
  }

  lemma KeptByAborts(s: Service, w: Id)
    requires Inv(s) && Enabled(s, Aborts(w))
    ensures Inv(Apply(s, Aborts(w)))
  {
    var s' := Apply(s, Aborts(w));
    hide Exclusive, RowsOwned, RunsOwned, AllTied, AllCounted, Below, OneGlobal, Sums;
    LeftRows(s, w, []);
    hide Left;
    LeftExclusive(s, s', w, []);
    LeftRuns(s, s', w, []);
    LeftTied(s, s', w, []);
    LeftCounted(s, s', w, []);
    LeftRest(s, s', w, []);
  }

  lemma LeftRows(s: Service, w: Id, result: seq<bool>)
    requires w in s.workers
    ensures var s' := Left(s, w, result);
            s'.rows == s.rows && s'.runs == s.runs && s'.orphanRows == s.orphanRows && s'.orphanRuns == s.orphanRuns
  {
    hide IsMirroring, HasBatch, BatchOf;
  }

  // ---------------------------------------------------------------- cancelling, stopping, restarting

  lemma CancelledShape(s: Service, some: set<Id>)
    ensures var s' := Cancelled(s, some);
            && (forall t | t in s.tasks :: t in s'.tasks && s'.tasks[t].GlobalTask? == s.tasks[t].GlobalTask?
                  && s'.tasks[t] == s.tasks[t].(cancelled := s.tasks[t].cancelled || t in some))
            && (forall t | t in s'.tasks :: t in s.tasks)
            && (forall w | w in s.workers :: w in s'.workers
                  && s'.workers[w] == s.workers[w].(cancelled := s.workers[w].cancelled || s.workers[w].task in some))
            && (forall w | w in s'.workers :: w in s.workers)
            && (forall t :: HasBatch(s', t) <==> HasBatch(s, t)) && (forall t | HasBatch(s, t) :: BatchOf(s', t) == BatchOf(s, t))
            && (forall t :: WorkersOf(s', t) == WorkersOf(s, t))
            && s' == s.(tasks := s'.tasks, workers := s'.workers)
  {
    var s' := Cancelled(s, some);
    forall t
      ensures WorkersOf(s', t) == WorkersOf(s, t)
    {
    }
  }

  lemma CancelledOwners(s: Service, some: set<Id>)
    requires Exclusive(s) && RowsOwned(s) && RunsOwned(s)
    ensures Exclusive(Cancelled(s, some)) && RowsOwned(Cancelled(s, some)) && RunsOwned(Cancelled(s, some))
  {
    var s' := Cancelled(s, some);
    CancelledShape(s, some);
    hide Cancelled, HasBatch, BatchOf, WorkersOf;
    forall r | r in s'.rows && s'.rows[r] && r !in s'.orphanRows
      ensures HasWorker(s', r)
    {
      assert HasWorker(s, r);
      var v :| v in s.workers && s.workers[v].repo == r;
      assert v in s'.workers && s'.workers[v].repo == r;
    }
    forall n | n in s'.runs && s'.runs[n] == Running && n !in s'.orphanRuns
      ensures HasOwner(s', n)
    {
      assert HasOwner(s, n);
      if v :| v in s.workers && s.workers[v].run == n {
        assert v in s'.workers && s'.workers[v].run == n;
      } else {
        var x :| HasBatch(s, x) && BatchOf(s, x).run == n;
        assert HasBatch(s', x) && BatchOf(s', x).run == n;
      }
    }
  }

  lemma CancelledTied(s: Service, some: set<Id>)
    requires AllTied(s)
    ensures AllTied(Cancelled(s, some))
  {
    var s' := Cancelled(s, some);
    CancelledShape(s, some);
    hide Cancelled, HasBatch, BatchOf, WorkersOf;
    forall w | w in s'.workers
      ensures Tied(s', w)
    {
      assert Tied(s, w);
    }
  }

  lemma CancelledCounted(s: Service, some: set<Id>)
    requires AllCounted(s)
    ensures AllCounted(Cancelled(s, some))
  {
    var s' := Cancelled(s, some);
    CancelledShape(s, some);
    hide Cancelled, WorkersOf;
    forall t | IsMirroring(s', t)
      ensures Counted(s', t)
    {
      assert Counted(s, t);
    }
  }

  lemma CancelledRest(s: Service, some: set<Id>)
    requires Below(s) && OneGlobal(s) && Sums(s)
    ensures Below(Cancelled(s, some)) && OneGlobal(Cancelled(s, some)) && Sums(Cancelled(s, some))
  {
    CancelledShape(s, some);
    hide Cancelled, HasBatch, BatchOf, WorkersOf;
  }

  lemma CancelledInv(s: Service, some: set<Id>)
    requires Inv(s)
    ensures Inv(Cancelled(s, some))
  {
    hide Exclusive, RowsOwned, RunsOwned, AllTied, AllCounted, Below, OneGlobal, Sums, Cancelled;
    CancelledOwners(s, some);
    CancelledTied(s, some);
    CancelledCounted(s, some);
    CancelledRest(s, some);
  }

  lemma ClearedInv(s: Service)
    requires Inv(s)
    ensures Inv(Cleared(s))
  {
    hide Sums, Below, Exclusive, OneGlobal;
    ClearedRest(s);
    var s' := Cleared(s);
    forall t | IsMirroring(s', t)
      ensures Counted(s', t)
    {
      assert Counted(s, t) && WorkersOf(s', t) == WorkersOf(s, t);
    }
    hide Counted, RowsOwned;
    TiedCarries(s, s', Id(s.next));
  }

  lemma ClearedRest(s: Service)
    requires Below(s) && Exclusive(s) && OneGlobal(s) && Sums(s)
    ensures Below(Cleared(s)) && Exclusive(Cleared(s)) && OneGlobal(Cleared(s)) && Sums(Cleared(s)) && NothingActive(Cleared(s))
  {
  }

  /** No row is syncing, no run is running, and nothing is left behind. */
  ghost predicate NothingActive(s: Service) {
    && (forall r | r in s.rows :: !s.rows[r]) && (forall n | n in s.runs :: s.runs[n] != Running)
    && s.orphanRows == {} && s.orphanRuns == {}
  }

  lemma RestartInv(s: Service)
    requires Inv(s)
    ensures Inv(Apply(s, Restart)) && NothingActive(Apply(s, Restart))
  {
  }

  lemma KeptByStops(s: Service, a: Action)
    requires Inv(s) && Enabled(s, a) && (a.StopRequest? || a.StopCompletes? || a.Cancel?)
    ensures Inv(Apply(s, a)) && (a.StopCompletes? ==> NothingActive(Apply(s, a)))
  {
    hide Inv, Cancelled, Cleared;
    match a
    case StopRequest =>
      CancelledInv(s, s.tasks.Keys);
      OtherStops(Cancelled(s, s.tasks.Keys), s.stops + [s.tasks.Keys]);
    case StopCompletes(j) =>
      ClearedInv(s);
      ClearedNothing(s);
      OtherStops(Cleared(s), s.stops[..j] + s.stops[j + 1..]);
    case Cancel(some) => CancelledInv(s, some);
  }

  lemma ClearedNothing(s: Service)
    ensures NothingActive(Cleared(s))
  {
  }

  // ---------------------------------------------------------------- every schedule

  lemma StepKeepsInv(s: Service, a: Action)
    requires Inv(s) && Enabled(s, a)
    ensures Inv(Apply(s, a))
  {
    hide *;
    match a
    case StartGlobal => KeptByStartGlobal(s);
    case GlobalBegins(t) => KeptByGlobalBegins(s, t);
    case Reconcile(t, cleared, added) => KeptByReconcile(s, t, cleared, added);
    case Discovered(t, repos) => KeptByDiscovered(s, t, repos);
    case ChildBegins(t, i) => KeptByChildBegins(s, t, i);
    case StartRepository(repo) => KeptByStartRepository(s, repo);
    case RepositoryBegins(t) => KeptByRepositoryBegins(s, t);
    case Finishes(w, success) => KeptByFinishes(s, w, success);
    case Aborts(w) => KeptByAborts(s, w);
    case BatchAborts(t) => KeptByBatchAborts(s, t);
    case BatchCompletes(t) => KeptByBatchCompletes(s, t);
    case Cancel(some) => KeptByStops(s, a);
    case StopRequest => KeptByStops(s, a);
    case StopCompletes(j) => KeptByStops(s, a);
    case StopDropped(j) => KeptByStopDropped(s, j);
    case Restart => RestartInv(s);
  }

  lemma StepKeepsSlots(s: Service, a: Action)
    requires Inv(s) && Slotted(s) && Enabled(s, a)
    ensures Slotted(Apply(s, a))
  {
    hide *;
    InvParts(s);
    match a
    case StartGlobal => StartKeepsSlots(s, a);
    case StartRepository(repo) => StartKeepsSlots(s, a);
    case _ =>
      TasksMove(s, a);
      SlotsKept(s, Apply(s, a));
  }

  lemma StartKeepsSlots(s: Service, a: Action)
    requires Below(s) && Slotted(s) && Enabled(s, a) && (a.StartGlobal? || a.StartRepository?)
    ensures Slotted(Apply(s, a))
  {
    assert Id(s.next) !in s.tasks;
  }

  /** The tasks that are there were there before, as the same kind of task and with their batch. */
  ghost predicate NoNewTask(s: Service, s': Service) {
    && s.next <= s'.next
    && forall t | t in s'.tasks :: t in s.tasks && s'.tasks[t].GlobalTask? == s.tasks[t].GlobalTask?
         && (s.tasks[t].RepositoryTask? ==> s'.tasks[t].repo == s.tasks[t].repo)
         && (s.tasks[t].GlobalTask? && s.tasks[t].batch.Some? ==> s'.tasks[t].batch.Some?)
  }

  /** The slots are as they were, or everything is gone. */
  predicate SlotsSame(s: Service, s': Service) {
    (s'.globalSlot == s.globalSlot && s'.slots == s.slots) || (s'.tasks == map[] && s'.slots == map[])
  }

  lemma SlotsKept(s: Service, s': Service)
    requires Slotted(s) && NoNewTask(s, s') && SlotsSame(s, s')
    ensures Slotted(s')
  {
  }

  lemma LeaversMove(s: Service, a: Action)
    requires Enabled(s, a) && (a.Finishes? || a.Aborts?)
    ensures NoNewTask(s, Apply(s, a)) && SlotsSame(s, Apply(s, a))
  {
  }

  lemma StopsMove(s: Service, a: Action)
    requires Enabled(s, a) && (a.Cancel? || a.StopRequest? || a.StopCompletes? || a.StopDropped? || a.Restart? || a.Reconcile?)
    ensures NoNewTask(s, Apply(s, a)) && SlotsSame(s, Apply(s, a))
  {
  }

  lemma BatchesMove(s: Service, a: Action)
    requires Enabled(s, a) && (a.GlobalBegins? || a.Discovered? || a.BatchAborts? || a.BatchCompletes?)
    ensures NoNewTask(s, Apply(s, a)) && SlotsSame(s, Apply(s, a))
  {
    hide Successes, WorkersOf, Refused, IsRunning;
  }

  lemma ChildMove(s: Service, t: Id, i: nat)
    requires Enabled(s, ChildBegins(t, i))
    ensures var s' := Apply(s, ChildBegins(t, i)); NoNewTask(s, s') && SlotsSame(s, s')
  {
    hide Refused;
  }

  lemma RepositoryMove(s: Service, t: Id)
    requires Enabled(s, RepositoryBegins(t))
    ensures var s' := Apply(s, RepositoryBegins(t)); NoNewTask(s, s') && SlotsSame(s, s')
  {
    hide Refused;
  }

  lemma TasksMove(s: Service, a: Action)
    requires Enabled(s, a) && !a.StartGlobal? && !a.StartRepository?
    ensures var s' := Apply(s, a);
            NoNewTask(s, s') && SlotsSame(s, s')
  {
    hide *;
    if a.Finishes? || a.Aborts? {
      LeaversMove(s, a);
    } else if a.ChildBegins? {
      ChildMove(s, a.task, a.i);
    } else if a.RepositoryBegins? {
      RepositoryMove(s, a.task);
    } else if a.GlobalBegins? || a.Discovered? || a.BatchAborts? || a.BatchCompletes? {
      BatchesMove(s, a);
    } else {
      StopsMove(s, a);
    }
  }

  lemma LockedKept(s: Service, s': Service)
    requires Locked(s) && s'.locks == s.locks
    requires forall w :: (w in s'.workers <==> w in s.workers) && (w in s.workers ==> s'.workers[w].repo == s.workers[w].repo)
    ensures Locked(s')
  {
    forall r
      ensures HasWorker(s', r) <==> HasWorker(s, r)
    {
    }
  }

  lemma LockedEntered(s: Service, s': Service, k: Worker)
    requires Below(s) && Locked(s) && s'.workers == s.workers[Id(s.next) := k] && s'.locks == s.locks + {k.repo}
    ensures Locked(s')
  {
    assert s'.workers[Id(s.next)].repo == k.repo;
    forall r
      ensures HasWorker(s', r) <==> HasWorker(s, r) || r == k.repo
    {
      if HasWorker(s, r) {
        var w :| w in s.workers && s.workers[w].repo == r;
        assert w in s'.workers && s'.workers[w].repo == r;
      }
    }
  }

  lemma LockedLeft(s: Service, s': Service, w: Id)
    requires Exclusive(s) && Locked(s) && w in s.workers
    requires s'.workers == s.workers - {w} && s'.locks == s.locks - {s.workers[w].repo}
    ensures Locked(s')
  {
    forall r
      ensures HasWorker(s', r) <==> HasWorker(s, r) && r != s.workers[w].repo
    {
      if HasWorker(s, r) && r != s.workers[w].repo {
        var v :| v in s.workers && s.workers[v].repo == r;
        assert v in s'.workers && s'.workers[v].repo == r;
      }
    }
  }

  lemma StepKeepsLocks(s: Service, a: Action)
    requires Inv(s) && Locked(s) && Enabled(s, a)
    ensures Locked(Apply(s, a))
  {
    hide *;
    InvParts(s);
    var s' := Apply(s, a);
    match a
    case ChildBegins(t, i) =>
      ChildEnterMove(s, t, i);
      LockedOneEnters(s, s', t, true);
    case RepositoryBegins(t) =>
      RepositoryEnterMove(s, t);
      LockedOneEnters(s, s', t, false);
    case Finishes(w, success) =>
      LeavesMove(s, a, w);
      LockedLeft(s, s', w);
    case Aborts(w) =>
      LeavesMove(s, a, w);
      LockedLeft(s, s', w);
    case Restart =>
      RestartMove(s);
      LockedNone(s');
    case _ =>
      OthersMove(s, a);
      SameSyncsLocked(s, s');
  }

  lemma SameSyncsLocked(s: Service, s': Service)
    requires Locked(s) && SameSyncs(s, s')
    ensures Locked(s')
  {
    LockedKept(s, s');
  }

  lemma InvParts(s: Service)
    requires Inv(s)
    ensures Below(s) && Exclusive(s) && AllTied(s) && OneGlobal(s) && AllCounted(s)
  {
    hide Below, Exclusive, AllTied, OneGlobal, AllCounted, RowsOwned, RunsOwned, Sums;
  }

  /** A task begins a sync: nothing changes for the workers, or one more is past its lock. */
  ghost predicate OneEnters(s: Service, s': Service, t: Id, child: bool) {
    || (s'.workers == s.workers && s'.locks == s.locks)
    || exists k: Worker :: k.task == t && k.child == child && s'.workers == s.workers[Id(s.next) := k] && s'.locks == s.locks + {k.repo}
  }

  lemma ChildEnterMove(s: Service, t: Id, i: nat)
    requires Enabled(s, ChildBegins(t, i))
    ensures OneEnters(s, Apply(s, ChildBegins(t, i)), t, true) && t in s.tasks && s.tasks[t].GlobalTask?
  {
  }

  lemma RepositoryEnterMove(s: Service, t: Id)
    requires Enabled(s, RepositoryBegins(t))
    ensures OneEnters(s, Apply(s, RepositoryBegins(t)), t, false)
  {
  }

  lemma LockedOneEnters(s: Service, s': Service, t: Id, child: bool)
    requires Below(s) && Locked(s) && OneEnters(s, s', t, child)
    ensures Locked(s')
  {
    hide Locked, Below;
    if s'.workers == s.workers && s'.locks == s.locks {
      LockedKept(s, s');
    } else {
      var k: Worker :| k.task == t && k.child == child && s'.workers == s.workers[Id(s.next) := k] && s'.locks == s.locks + {k.repo};
      LockedEntered(s, s', k);
    }
  }

  lemma LeavesMove(s: Service, a: Action, w: Id)
    requires Enabled(s, a) && (a.Finishes? || a.Aborts?) && a.worker == w
    ensures w in s.workers && Apply(s, a).workers == s.workers - {w} && Apply(s, a).locks == s.locks - {s.workers[w].repo}
  {
    hide TasksAfter;
  }

  lemma RestartMove(s: Service)
    ensures Enabled(s, Restart) && Apply(s, Restart).locks == {} && Apply(s, Restart).workers == map[]
  {
  }

  /** The syncs past their locks are as they were, but for being cancelled. */
  ghost predicate SameSyncs(s: Service, s': Service) {
    && s'.locks == s.locks
    && forall w :: (w in s'.workers <==> w in s.workers) && (w in s.workers ==> s'.workers[w].(cancelled := s.workers[w].cancelled) == s.workers[w])
  }

  /** No other action makes or ends a worker. */
  lemma OthersMove(s: Service, a: Action)
    requires Enabled(s, a) && !a.ChildBegins? && !a.RepositoryBegins? && !a.Finishes? && !a.Aborts? && a != Restart
    ensures SameSyncs(s, Apply(s, a))
  {
    hide SameSyncs, Enabled;
    if a.Cancel? || a.StopRequest? {
      CancelsMove(s, a);
    } else {
      PlainMove(s, a);
    }
  }

  lemma CancelsMove(s: Service, a: Action)
    requires Enabled(s, a) && (a.Cancel? || a.StopRequest?)
    ensures SameSyncs(s, Apply(s, a))
  {
  }

  lemma PlainMove(s: Service, a: Action)
    requires Enabled(s, a) && !a.ChildBegins? && !a.RepositoryBegins? && !a.Finishes? && !a.Aborts? && a != Restart
    requires !a.Cancel? && !a.StopRequest?
    ensures SameSyncs(s, Apply(s, a))
  {
    hide Successes, WorkersOf, IsRunning;
    assert Apply(s, a).workers == s.workers && Apply(s, a).locks == s.locks;
  }

  lemma LockedNone(s: Service)
    requires s.locks == {} && s.workers == map[]
    ensures Locked(s)
  {
  }

  /** Every action keeps the whole invariant. */
  lemma StepKeepsSound(s: Service, a: Action)
    requires Sound(s) && Enabled(s, a)
    ensures Sound(Apply(s, a))
  {
    hide Inv, Slotted, Locked, Enabled, Apply;
    StepKeepsInv(s, a);
    StepKeepsSlots(s, a);
    StepKeepsLocks(s, a);
  }

  /** The state after a schedule, if each of its actions can happen when it is due. */
  function After(s: Service, schedule: seq<Action>): Option<Service> {
    if schedule == [] then Some(s) else
      match After(s, schedule[..|schedule| - 1])
      case None => None
      case Some(x) => if Enabled(x, schedule[|schedule| - 1]) then Some(Apply(x, schedule[|schedule| - 1])) else None
  }

  /** A state some schedule leads to. */
  ghost predicate Reached(concurrency: nat, schedule: seq<Action>, s: Service) {
    After(Initial(concurrency), schedule) == Some(s)
  }

  lemma {:induction false} ReachedSound(concurrency: nat, schedule: seq<Action>, s: Service)
    requires Reached(concurrency, schedule, s)
    ensures Sound(s)
  {
    hide Sound, Enabled, Initial, Apply;
    if schedule == [] {
      InitialSound(concurrency);
    } else {
      var n := |schedule| - 1;
      var x := After(Initial(concurrency), schedule[..n]).value;
      ReachedSound(concurrency, schedule[..n], x);
      StepKeepsSound(x, schedule[n]);
    }
  }

  lemma InitialSound(concurrency: nat)
    ensures Sound(Initial(concurrency))
  {
    InitialInv(concurrency);
    hide Inv;
  }

  lemma {:induction false} ReachedInv(concurrency: nat, schedule: seq<Action>, s: Service)
    requires Reached(concurrency, schedule, s)
    ensures Inv(s) && s.concurrency == concurrency
  {
    hide Inv, Enabled, Initial, Apply;
    if schedule == [] {
      InitialInv(concurrency);
      InitialConcurrency(concurrency);
    } else {
      var n := |schedule| - 1;
      var x := After(Initial(concurrency), schedule[..n]).value;
      ReachedInv(concurrency, schedule[..n], x);
      StepKeepsInv(x, schedule[n]);
      SameConcurrency(x, schedule[n]);
    }
  }

  lemma InitialConcurrency(concurrency: nat)
    ensures Initial(concurrency).concurrency == concurrency
  {
  }

  lemma SameConcurrency(s: Service, a: Action)
    requires Enabled(s, a)
    ensures Apply(s, a).concurrency == s.concurrency
  {
  }

  /** Over every schedule, at most one sync per repository is past its lock. */
  lemma OneSyncPerRepository(concurrency: nat, schedule: seq<Action>, s: Service, v: Id, w: Id)
    requires Reached(concurrency, schedule, s)
    requires v in s.workers && w in s.workers && s.workers[v].repo == s.workers[w].repo
    ensures v == w
  {
    ReachedInv(concurrency, schedule, s);
    hide Reached, Below, RowsOwned, RunsOwned, OneGlobal, AllTied, AllCounted, Sums;
  }

  /** Over every schedule, every syncing row and every running run has a live owner, or one that
      was cancelled since the last stop or restart. */
  lemma ActiveIsOwned(concurrency: nat, schedule: seq<Action>, s: Service, x: Id)
    requires Reached(concurrency, schedule, s)
    ensures x in s.rows && s.rows[x] ==> x in s.orphanRows || HasWorker(s, x)
    ensures x in s.runs && s.runs[x] == Running ==> x in s.orphanRuns || HasOwner(s, x)
  {
    ReachedInv(concurrency, schedule, s);
    hide Reached, Below, Exclusive, OneGlobal, AllTied, AllCounted, Sums, HasOwner, HasWorker;
  }

  /** Right after the transaction of a stop or a restart nothing is syncing or running. */
  lemma StoppedIsInactive(concurrency: nat, schedule: seq<Action>, s: Service, a: Action)
    requires Reached(concurrency, schedule, s) && Enabled(s, a) && (a.StopCompletes? || a == Restart)
    ensures Reached(concurrency, schedule + [a], Apply(s, a)) && NothingActive(Apply(s, a))
  {
    var more := schedule + [a];
    assert more[..|more| - 1] == schedule && more[|more| - 1] == a;
    ReachedInv(concurrency, schedule, s);
    hide Inv, Enabled, Apply;
    if a == Restart {
      RestartInv(s);
    } else {
      KeptByStops(s, a);
    }
  }

  /** A completed global run has accounted for every repository it discovered. */
  lemma CompletedAddsUp(concurrency: nat, schedule: seq<Action>, s: Service, n: Id)
    requires Reached(concurrency, schedule, s) && n in s.runs && s.runs[n].Completed?
    ensures s.runs[n].succeeded + s.runs[n].failed == s.runs[n].discovered
  {
    ReachedInv(concurrency, schedule, s);
    hide Reached, Below, Exclusive, RowsOwned, RunsOwned, OneGlobal, AllTied, AllCounted;
  }
}
