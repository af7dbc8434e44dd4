/** How many repositories global runs sync at once: when `sync_concurrency` bounds all children
    together, and when it does not. */
module SyncChildren {
  import opened Wrappers
  import opened SyncState
  import opened SyncSafety

  /** Syncs past their repository's lock that a global run started. */
  function Children(s: Service): set<Id> {
    set w | w in s.workers && s.workers[w].child
  }

  /** Children still winding down after their global run has ended. */
  function Stragglers(s: Service): set<Id> {
    set w | w in s.workers && s.workers[w].child && s.workers[w].task !in s.tasks
  }

  lemma {:induction false} SubsetSize<T>(a: set<T>, b: set<T>)
    requires a <= b
    ensures |a| <= |b|
    decreases |a|
  {
    if |a| > 0 {
      var x :| x in a;
      SubsetSize(a - {x}, b - {x});
    }
  }

  lemma OneGlobalRun(s: Service, t: Id, x: Id)
    requires OneGlobal(s) && t in s.tasks && x in s.tasks && s.tasks[t].GlobalTask? && s.tasks[x].GlobalTask?
    ensures x == t
  {
  }

  /** Over every schedule, no batch has more children at work than there are permits, and all
      children together exceed the permits by no more than the stragglers. */
  lemma ChildrenBounded(concurrency: nat, schedule: seq<Action>, s: Service)
    requires Reached(concurrency, schedule, s)
    ensures |Children(s)| <= concurrency + |Stragglers(s)| && forall t | IsMirroring(s, t) :: |WorkersOf(s, t)| <= concurrency
  {
    ReachedInv(concurrency, schedule, s);
    hide Reached, Below, Exclusive, RowsOwned, RunsOwned, Sums;
    forall t | IsMirroring(s, t)
      ensures |WorkersOf(s, t)| <= concurrency
    {
      assert Counted(s, t);
    }
    var rest := Children(s) - Stragglers(s);
    assert Children(s) == rest + Stragglers(s);
    if |rest| > 0 {
      var w :| w in rest;
      var t := s.workers[w].task;
      assert Tied(s, w);
      forall v | v in rest
        ensures v in WorkersOf(s, t)
      {
        assert Tied(s, v);
      }
      SubsetSize(rest, WorkersOf(s, t));
    }
  }

  // ---------------------------------------------------------------- the run without stragglers

  ghost predicate OnlyChildrenOf(s: Service, t: Id) {
    forall w | w in s.workers && s.workers[w].child :: s.workers[w].task == t
  }

  /** While a global run goes on, no other children appear. */
  lemma OwnChildrenStay(s: Service, a: Action, t: Id)
    requires Inv(s) && Enabled(s, a) && HasBatch(s, t) && OnlyChildrenOf(s, t)
    ensures OnlyChildrenOf(Apply(s, a), t)
  {
    InvParts(s);
    hide Inv, Enabled, Apply, Below, Exclusive, OneGlobal, AllTied, AllCounted;
    match a
    case ChildBegins(x, i) =>
      ChildEnterMove(s, x, i);
      OneGlobalRun(s, t, x);
    case RepositoryBegins(x) => RepositoryEnterMove(s, x);
    case Finishes(w, success) => LeavesMove(s, a, w);
    case Aborts(w) => LeavesMove(s, a, w);
    case Restart => RestartMove(s);
    case _ => OthersMove(s, a);
  }

  /** A batch lasts as long as its task, and a task that is gone does not come back. */
  lemma BatchLasts(s: Service, a: Action, t: Id)
    requires Enabled(s, a) && t.n < s.next
    ensures t in Apply(s, a).tasks ==> t in s.tasks && (HasBatch(s, t) ==> HasBatch(Apply(s, a), t))
    ensures s.next <= Apply(s, a).next
  {
    hide *;
    if a.StartGlobal? || a.StartRepository? {
      StartLasts(s, a, t);
    } else {
      TasksMove(s, a);
      BatchStays(s, Apply(s, a), t);
    }
  }

  lemma StartLasts(s: Service, a: Action, t: Id)
    requires Enabled(s, a) && t.n < s.next && (a.StartGlobal? || a.StartRepository?)
    ensures t in Apply(s, a).tasks ==> t in s.tasks && (HasBatch(s, t) ==> HasBatch(Apply(s, a), t))
    ensures s.next <= Apply(s, a).next
  {
  }

  lemma BatchStays(s: Service, s': Service, t: Id)
    requires NoNewTask(s, s')
    ensures (t in s'.tasks ==> t in s.tasks && (HasBatch(s, t) ==> HasBatch(s', t))) && s.next <= s'.next
  {
  }

  lemma {:induction false} DuringRun(s: Service, more: seq<Action>, x: Service, t: Id)
    requires Inv(s) && HasBatch(s, t) && OnlyChildrenOf(s, t) && After(s, more) == Some(x)
    ensures Inv(x) && t.n < x.next && x.concurrency == s.concurrency
    ensures t in x.tasks ==> HasBatch(x, t) && OnlyChildrenOf(x, t)
  {
    if more == [] {
    } else {
      var n := |more| - 1;
      var y := After(s, more[..n]).value;
      DuringRun(s, more[..n], y, t);
      hide Inv, Enabled, Apply, OnlyChildrenOf, HasBatch;
      StepKeepsInv(y, more[n]);
      SameConcurrency(y, more[n]);
      BatchLasts(y, more[n], t);
      if t in x.tasks {
        OwnChildrenStay(y, more[n], t);
      }
    }
  }

  lemma OwnChildrenFit(s: Service, t: Id)
    requires Inv(s) && HasBatch(s, t) && OnlyChildrenOf(s, t)
    ensures |Children(s)| <= s.concurrency
  {
    hide Below, Exclusive, RowsOwned, RunsOwned, OneGlobal, Sums;
    if IsMirroring(s, t) {
      assert Counted(s, t);
      SubsetSize(Children(s), WorkersOf(s, t));
    } else {
      forall w | w in s.workers
        ensures !s.workers[w].child
      {
        assert Tied(s, w);
      }
      assert Children(s) == {};
    }
  }

  // ---------------------------------------------------------------- the run with stragglers

  lemma {:induction false} IdsBelow(ids: set<Id>) returns (n: nat)
    ensures forall x | x in ids :: x.n < n
    decreases |ids|
  {
    n := 0;
    if ids != {} {
      var x :| x in ids;
      n := IdsBelow(ids - {x});
      n := if x.n < n then n else x.n + 1;
    }
  }

  lemma AfterOneMore(s: Service, more: seq<Action>, x: Service, a: Action)
    requires After(s, more) == Some(x) && Enabled(x, a)
    ensures After(s, more + [a]) == Some(Apply(x, a))
  {
    hide Enabled, Apply;
    var all := more + [a];
    assert all[..|all| - 1] == more && all[|all| - 1] == a;
  }

  /** Repositories that can all be synced at once. */
  ghost predicate AllFree(s: Service, repos: seq<Id>) {
    && (forall i | 0 <= i < |repos| :: !Refused(s, repos[i]))
    && (forall i, j | 0 <= i < j < |repos| :: repos[i] != repos[j])
  }

  lemma ChildEntersFirst(s: Service, t: Id, repos: seq<Id>)
    requires Ready(s, t, repos) && repos != [] && Below(s)
    ensures Enabled(s, ChildBegins(t, 0))
    ensures var s' := Apply(s, ChildBegins(t, 0));
            Ready(s', t, repos[1..])
            && Children(s') == Children(s) + {Id(s.next)} && Id(s.next) !in Children(s)
  {
    var s' := Apply(s, ChildBegins(t, 0));
    assert repos[..0] + repos[0 + 1..] == repos[1..];
    ChildAdds(s, t, repos[0]);
    var rest := repos[1..];
    forall i | 0 <= i < |rest|
      ensures !Refused(s', rest[i])
    {
      assert rest[i] == repos[i + 1] != repos[0];
    }
  }

  /** The batch has as many permits as waiting children, all of which can begin. */
  ghost predicate Ready(s: Service, t: Id, repos: seq<Id>) {
    && IsMirroring(s, t) && !s.tasks[t].cancelled && BatchOf(s, t).phase.waiting == repos
    && BatchOf(s, t).phase.permits == |repos| && AllFree(s, repos)
  }

  lemma {:induction false} AllEnter(start: Service, more: seq<Action>, s: Service, t: Id, repos: seq<Id>)
    returns (longer: seq<Action>, x: Service)
    requires After(start, more) == Some(s) && Inv(s) && Ready(s, t, repos)
    ensures After(start, longer) == Some(x) && t in x.tasks && |Children(x)| == |Children(s)| + |repos|
    decreases |repos|
  {
    hide *;
    if repos == [] {
      ReadyTask(s, t, repos);
      longer, x := more, s;
    } else {
      InvParts(s);
      ChildEntersFirst(s, t, repos);
      StepKeepsInv(s, ChildBegins(t, 0));
      AfterOneMore(start, more, s, ChildBegins(t, 0));
      longer, x := AllEnter(start, more + [ChildBegins(t, 0)], Apply(s, ChildBegins(t, 0)), t, repos[1..]);
    }
  }

  lemma ReadyTask(s: Service, t: Id, repos: seq<Id>)
    requires Ready(s, t, repos)
    ensures t in s.tasks
  {
  }

  lemma ReconcileIs(s: Service, t: Id, added: set<Id>)
    requires HasBatch(s, t) && BatchOf(s, t).phase.Discovering? && !s.tasks[t].cancelled
    ensures Enabled(s, Reconcile(t, {}, added))
    ensures var s' := Apply(s, Reconcile(t, {}, added));
            s' == s.(rows := s'.rows) && (forall r | r in added :: r in s'.rows)
            && HasBatch(s', t) && BatchOf(s', t) == BatchOf(s, t)
  {
  }

  /** A run that discovers as many fresh repositories as there are permits can have them all at
      work next to the children that were already there. */
  lemma RunFillsUp(s: Service, t: Id) returns (more: seq<Action>, x: Service)
    requires Inv(s) && HasBatch(s, t) && BatchOf(s, t).phase.Discovering? && !s.tasks[t].cancelled
    ensures After(s, more) == Some(x) && t in x.tasks && |Children(x)| == |Children(s)| + s.concurrency
  {
    hide *;
    var n := IdsBelow(s.locks);
    var repos := Fresh(n, s.concurrency);
    var added := set r | r in repos;
    var first, second := Reconcile(t, {}, added), Discovered(t, repos);
    NothingDone(s);
    ReconcileIs(s, t, added);
    StepKeepsInv(s, first);
    AfterOneMore(s, [], s, first);
    var y := Apply(s, first);
    DiscoveredIs(y, t, repos);
    StepKeepsInv(y, second);
    AfterOneMore(s, [] + [first], y, second);
    var z := Apply(y, second);
    DiscoveredReady(y, z, t, n, s.concurrency);
    more, x := AllEnter(s, [] + [first] + [second], z, t, repos);
    SameChildren(s, z);
  }

  lemma NothingDone(s: Service)
    ensures After(s, []) == Some(s)
  {
  }

  function Fresh(n: nat, count: nat): (r: seq<Id>)
    ensures |r| == count && forall i | 0 <= i < count :: r[i] == Id(n + i)
  {
    seq(count, i requires i >= 0 => Id(n + i))
  }

  lemma DiscoveredReady(y: Service, z: Service, t: Id, n: nat, count: nat)
    requires HasBatch(y, t) && !y.tasks[t].cancelled && y.concurrency == count && forall x | x in y.locks :: x.n < n
    requires forall r | r in Fresh(n, count) :: r in y.rows
    requires z == y.(tasks := y.tasks[t := y.tasks[t].(batch := Some(Batch(BatchOf(y, t).run, Mirroring(Fresh(n, count), count, []), count)))])
    ensures Ready(z, t, Fresh(n, count))
  {
    var repos := Fresh(n, count);
    forall i | 0 <= i < count
      ensures !Refused(z, repos[i])
    {
      assert repos[i] in repos;
    }
  }

  lemma SameChildren(s: Service, z: Service)
    requires z.workers == s.workers
    ensures Children(z) == Children(s)
  {
  }

  // ---------------------------------------------------------------- exactly when the permits hold

  /** As long as the global run of task `t` goes on, there are never more children than permits. */
  ghost predicate WithinPermits(s: Service, t: Id) {
    forall more, x | After(s, more) == Some(x) && t in x.tasks :: |Children(x)| <= s.concurrency
  }

  lemma BeginIs(s: Service, t: Id)
    requires Inv(s) && Enabled(s, GlobalBegins(t)) && !s.tasks[t].cancelled && !s.globalLock
    ensures var s' := Apply(s, GlobalBegins(t));
            HasBatch(s', t) && BatchOf(s', t).phase.Discovering? && !s'.tasks[t].cancelled && s'.concurrency == s.concurrency
            && s'.workers == s.workers && Children(s') == Children(s) == Stragglers(s)
  {
    hide Below, Exclusive, RowsOwned, RunsOwned, AllCounted, Sums;
    forall w | w in s.workers && s.workers[w].child
      ensures s.workers[w].task !in s.tasks
    {
      assert Tied(s, w);
    }
    assert Children(s) == Stragglers(s);
    assert Children(Apply(s, GlobalBegins(t))) == Children(s);
  }

  /** CONCURRENCY. A global run that begins keeps all children together within
      `sync_concurrency`, however it goes on, if and only if no child of an earlier, cancelled run
      is still winding down when it begins. */
  lemma PermitsHoldIff(concurrency: nat, schedule: seq<Action>, s: Service, t: Id)
    requires Reached(concurrency, schedule, s) && Enabled(s, GlobalBegins(t)) && !s.tasks[t].cancelled && !s.globalLock
    ensures WithinPermits(Apply(s, GlobalBegins(t)), t) <==> Stragglers(s) == {}
  {
    ReachedInv(concurrency, schedule, s);
    BeginIs(s, t);
    StepKeepsInv(s, GlobalBegins(t));
    hide *;
    var s' := Apply(s, GlobalBegins(t));
    if Stragglers(s) == {} {
      NoStragglersFit(s', t);
    } else {
      var more, x := RunFillsUp(s', t);
      StragglersOverrun(s', t, more, x);
    }
  }

  lemma NoStragglersFit(s: Service, t: Id)
    requires Inv(s) && HasBatch(s, t) && Children(s) == {}
    ensures WithinPermits(s, t)
  {
    forall w | w in s.workers
      ensures !s.workers[w].child
    {
      assert w !in Children(s);
    }
    assert OnlyChildrenOf(s, t);
    hide Inv, HasBatch, OnlyChildrenOf, After, Children;
    forall more, x | After(s, more) == Some(x) && t in x.tasks
      ensures |Children(x)| <= s.concurrency
    {
      DuringRun(s, more, x, t);
      OwnChildrenFit(x, t);
    }
  }

  lemma StragglersOverrun(s: Service, t: Id, more: seq<Action>, x: Service)
    requires Children(s) != {} && After(s, more) == Some(x) && t in x.tasks && |Children(x)| == |Children(s)| + s.concurrency
    ensures !WithinPermits(s, t)
  {
    hide After, Children;
  }

  ghost predicate Reachable(concurrency: nat, s: Service) {
    exists schedule :: Reached(concurrency, schedule, s)
  }

  lemma OneMore(concurrency: nat, s: Service, a: Action)
    requires Reachable(concurrency, s) && Enabled(s, a)
    ensures Reachable(concurrency, Apply(s, a))
  {
    hide Initial, Enabled, Apply;
    var schedule :| Reached(concurrency, schedule, s);
    var more := schedule + [a];
    assert more[..|more| - 1] == schedule && more[|more| - 1] == a;
    assert Reached(concurrency, more, Apply(s, a));
  }

  /** Cancelled children do not count against the permits of the next batch: with one permit, a
      child that is still winding down and a child of the next global run overlap. */
  lemma CancelledChildMayOverlap()
    ensures exists s :: Reachable(1, s) && |s.workers| == 2 && forall w | w in s.workers :: s.workers[w].child
  {
    var a, b := Id(100), Id(101);
    var first := FirstDiscovery(a, b);
    var s := SecondBatch(a, b, first);
    DiscoveredIs(s, Id(3), [b]);
    OneMore(1, s, Discovered(Id(3), [b]));
    var u := Apply(s, Discovered(Id(3), [b]));
    hide Apply, Enabled, Reachable, Initial;
    ChildAdds(u, Id(3), b);
    OneMore(1, u, ChildBegins(Id(3), 0));
    var v := Apply(u, ChildBegins(Id(3), 0));
    hide *;
    assert v.workers.Keys == {Id(2), Id(5)};
    assert |v.workers| == |v.workers.Keys|;
  }

  lemma DiscoveredIs(s: Service, t: Id, repos: seq<Id>)
    requires HasBatch(s, t) && BatchOf(s, t).phase == Discovering && !s.tasks[t].cancelled
    ensures Enabled(s, Discovered(t, repos))
    ensures Apply(s, Discovered(t, repos)) ==
            s.(tasks := s.tasks[t := s.tasks[t].(batch := Some(Batch(BatchOf(s, t).run, Mirroring(repos, s.concurrency, []), |repos|)))])
  {
  }

  lemma ChildAdds(s: Service, t: Id, repo: Id)
    requires IsMirroring(s, t) && !s.tasks[t].cancelled && |BatchOf(s, t).phase.waiting| > 0 && BatchOf(s, t).phase.waiting[0] == repo
    requires BatchOf(s, t).phase.permits > 0 && !Refused(s, repo)
    ensures Enabled(s, ChildBegins(t, 0))
    ensures Apply(s, ChildBegins(t, 0)).workers == s.workers[Id(s.next) := Worker(repo, Id(s.next), t, true, false)]
  {
  }

  /** One global run has discovered two repositories and syncs the first. */
  lemma FirstDiscovery(a: Id, b: Id) returns (s: Service)
    requires a != b
    ensures Reachable(1, s) && s.concurrency == 1 && s.next == 3 && s.rows.Keys == {a, b} && s.locks == {a} && s.slots == map[]
    ensures s.globalSlot == Some(Id(0)) && s.tasks == map[Id(0) := GlobalTask(false, Some(Batch(Id(1), Mirroring([b], 0, []), 2)))]
    ensures s.workers == map[Id(2) := Worker(a, Id(2), Id(0), true, false)]
  {
    s := FirstBatch(a, b);
    DiscoveredIs(s, Id(0), [a, b]);
    OneMore(1, s, Discovered(Id(0), [a, b]));
    hide Reachable, Initial;
    s := Apply(s, Discovered(Id(0), [a, b]));
    OneMore(1, s, ChildBegins(Id(0), 0));
    assert [a, b][..0] + [a, b][0 + 1..] == [b];
    s := Apply(s, ChildBegins(Id(0), 0));
  }

  lemma FirstBatch(a: Id, b: Id) returns (s: Service)
    ensures Reachable(1, s) && s.concurrency == 1 && s.next == 2 && s.rows.Keys == {a, b} && s.locks == {} && s.slots == map[]
    ensures s.globalSlot == Some(Id(0)) && s.tasks == map[Id(0) := GlobalTask(false, Some(Batch(Id(1), Discovering, 0)))]
    ensures s.workers == map[]
  {
    s := Initial(1);
    assert Reached(1, [], s);
    OneMore(1, s, StartGlobal);
    s := Apply(s, StartGlobal);
    OneMore(1, s, GlobalBegins(Id(0)));
    s := Apply(s, GlobalBegins(Id(0)));
    OneMore(1, s, Reconcile(Id(0), {}, {a, b}));
    s := Apply(s, Reconcile(Id(0), {}, {a, b}));
  }

  /** It is cancelled and ends with its waiting child, and the next global run begins. */
  lemma SecondBatch(a: Id, b: Id, s: Service) returns (t: Service)
    requires Reachable(1, s) && s.concurrency == 1 && s.next == 3 && s.rows.Keys == {a, b} && s.locks == {a} && s.slots == map[]
    requires s.globalSlot == Some(Id(0)) && s.tasks == map[Id(0) := GlobalTask(false, Some(Batch(Id(1), Mirroring([b], 0, []), 2)))]
    requires s.workers == map[Id(2) := Worker(a, Id(2), Id(0), true, false)]
    ensures Reachable(1, t) && t.concurrency == 1 && t.next == 5 && t.rows.Keys == {a, b} && t.locks == {a}
    ensures t.tasks == map[Id(3) := GlobalTask(false, Some(Batch(Id(4), Discovering, 0)))]
    ensures t.workers == map[Id(2) := Worker(a, Id(2), Id(0), true, true)]
  {
    OneMore(1, s, Cancel({Id(0)}));
    t := Apply(s, Cancel({Id(0)}));
    assert t.tasks == map[Id(0) := GlobalTask(true, Some(Batch(Id(1), Mirroring([b], 0, []), 2)))];
    OneMore(1, t, BatchAborts(Id(0)));
    t := Apply(t, BatchAborts(Id(0)));
    assert t.tasks == map[];
    hide Reachable, Initial;
    t := NextBatch(t);
  }

  lemma NextBatch(s: Service) returns (t: Service)
    requires Reachable(1, s) && s.tasks == map[] && !s.globalLock && s.slots == map[] && s.next == 3
    ensures Reachable(1, t) && t.next == 5 && t.rows == s.rows && t.locks == s.locks && t.workers == s.workers && t.concurrency == s.concurrency
    ensures t.tasks == map[Id(3) := GlobalTask(false, Some(Batch(Id(4), Discovering, 0)))]
  {
    OneMore(1, s, StartGlobal);
    t := Apply(s, StartGlobal);
    hide Reachable, Initial;
    OneMore(1, t, GlobalBegins(Id(3)));
    t := Apply(t, GlobalBegins(Id(3)));
  }
}
