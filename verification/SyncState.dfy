/** The interleavings of githarbor/services/sync.py as a state machine: every action is what one
    task does between two awaits, or what an administrator, a cancellation or a restart does. */
module SyncState {
  import opened Wrappers

  /** Identifies repositories, tasks, workers and runs. */
  datatype Id = Id(n: nat)

  /** A global run discovers repositories, then mirrors them with one child each. `waiting` are
      children that have not got a permit yet. */
  datatype Phase = Discovering | Mirroring(waiting: seq<Id>, permits: nat, results: seq<bool>)

  datatype Batch = Batch(run: Id, phase: Phase, total: nat)

  datatype Task =
    | GlobalTask(cancelled: bool, batch: Option<Batch>)
    | RepositoryTask(repo: Id, cancelled: bool, begun: bool)

  /** A repository sync that holds its repository's lock. */
  datatype Worker = Worker(repo: Id, run: Id, task: Id, child: bool, cancelled: bool)

  datatype Run = Running | Ended | Completed(succeeded: nat, failed: nat, discovered: nat)

  /** `rows` tells for each repository whether its status is syncing; the orphans are what
      cancelled tasks left behind since the last stop or restart. */
  datatype Service = Service(
    concurrency: nat, rows: map<Id, bool>, runs: map<Id, Run>, tasks: map<Id, Task>, workers: map<Id, Worker>,
    locks: set<Id>, globalLock: bool, globalSlot: Option<Id>, slots: map<Id, Id>, stops: seq<set<Id>>,
    orphanRows: set<Id>, orphanRuns: set<Id>, next: nat)

  function Initial(concurrency: nat): Service {
    Service(concurrency, map[], map[], map[], map[], {}, false, None, map[], [], {}, {}, 0)
  }

  datatype Action =
    | StartGlobal
    | GlobalBegins(task: Id)
    | Reconcile(task: Id, cleared: set<Id>, added: set<Id>)
    | Discovered(task: Id, repos: seq<Id>)
    | ChildBegins(task: Id, i: nat)
    | StartRepository(repo: Id)
    | RepositoryBegins(task: Id)
    | Finishes(worker: Id, success: bool)
    | Aborts(worker: Id)
    | BatchAborts(task: Id)
    | BatchCompletes(task: Id)
    | Cancel(some: set<Id>)
    | StopRequest
    | StopCompletes(j: nat)
    | StopDropped(j: nat)
    | Restart

  // ---------------------------------------------------------------- transitions

  predicate IsRunning(s: Service) {
    s.globalLock || (s.globalSlot.Some? && s.globalSlot.value in s.tasks) || exists r | r in s.slots :: s.slots[r] in s.tasks
  }

  predicate HasBatch(s: Service, t: Id) {
    t in s.tasks && s.tasks[t].GlobalTask? && s.tasks[t].batch.Some?
  }

  function BatchOf(s: Service, t: Id): Batch
    requires HasBatch(s, t)
  {
    s.tasks[t].batch.value
  }

  predicate IsMirroring(s: Service, t: Id) {
    HasBatch(s, t) && BatchOf(s, t).phase.Mirroring?
  }

  function WorkersOf(s: Service, t: Id): set<Id> {
    set w | w in s.workers && s.workers[w].task == t
  }

  function WithPhase(s: Service, t: Id, phase: Phase): Service
    requires HasBatch(s, t)
  {
    s.(tasks := s.tasks[t := s.tasks[t].(batch := Some(BatchOf(s, t).(phase := phase)))])
  }

  predicate Enabled(s: Service, a: Action) {
    match a
    case StartGlobal => !IsRunning(s)
    case GlobalBegins(t) => t in s.tasks && s.tasks[t].GlobalTask? && s.tasks[t].batch.None?
    case Reconcile(t, cleared, added) => HasBatch(s, t) && BatchOf(s, t).phase.Discovering? && !s.tasks[t].cancelled
    case Discovered(t, repos) => HasBatch(s, t) && BatchOf(s, t).phase.Discovering? && !s.tasks[t].cancelled
    case ChildBegins(t, i) =>
      IsMirroring(s, t) && !s.tasks[t].cancelled && i < |BatchOf(s, t).phase.waiting| && BatchOf(s, t).phase.permits > 0
    case StartRepository(repo) => repo !in s.slots || s.slots[repo] !in s.tasks
    case RepositoryBegins(t) => t in s.tasks && s.tasks[t].RepositoryTask? && !s.tasks[t].begun
    case Finishes(w, success) => w in s.workers
    case Aborts(w) => w in s.workers && s.workers[w].cancelled
    case BatchAborts(t) => HasBatch(s, t) && s.tasks[t].cancelled
    case BatchCompletes(t) =>
      IsMirroring(s, t) && !s.tasks[t].cancelled && BatchOf(s, t).phase.waiting == [] && WorkersOf(s, t) == {}
    case Cancel(some) => true
    case StopRequest => s.tasks != map[]
    case StopCompletes(j) => j < |s.stops| && forall t | t in s.stops[j] :: t !in s.tasks
    case StopDropped(j) => j < |s.stops|
    case Restart => true
  }

  /** The lock and status part of a repository sync: refused while another one holds the lock or
      when there is no row. */
  predicate Refused(s: Service, repo: Id) {
    repo in s.locks || repo !in s.rows
  }

  function Entered(s: Service, t: Id, repo: Id, child: bool): Service {
    s.(locks := s.locks + {repo}, rows := s.rows[repo := true], runs := s.runs[Id(s.next) := Running],
       workers := s.workers[Id(s.next) := Worker(repo, Id(s.next), t, child, false)], next := s.next + 1)
  }

  /** A worker's end as its task sees it: the child's result and permit, or the end of the task. */
  function TasksAfter(s: Service, k: Worker, result: seq<bool>): map<Id, Task> {
    if !k.child then s.tasks - {k.task}
    else if IsMirroring(s, k.task) then
      var b := BatchOf(s, k.task);
      var p := b.phase.(permits := b.phase.permits + 1, results := b.phase.results + result);
      s.tasks[k.task := s.tasks[k.task].(batch := Some(b.(phase := p)))]
    else s.tasks
  }

  function Left(s: Service, w: Id, result: seq<bool>): Service
    requires w in s.workers
  {
    s.(workers := s.workers - {w}, locks := s.locks - {s.workers[w].repo}, tasks := TasksAfter(s, s.workers[w], result))
  }

  function Cancelled(s: Service, some: set<Id>): Service {
    s.(tasks := map t | t in s.tasks :: if t in some then s.tasks[t].(cancelled := true) else s.tasks[t],
       workers := map w | w in s.workers :: if s.workers[w].task in some then s.workers[w].(cancelled := true) else s.workers[w])
  }

  /** The transaction of a stop or a recovery: no row is syncing and no run is running after it. */
  function Cleared(s: Service): Service {
    s.(rows := map r | r in s.rows :: false, runs := map n | n in s.runs :: if s.runs[n] == Running then Ended else s.runs[n],
       orphanRows := {}, orphanRuns := {})
  }

  function Successes(results: seq<bool>): (n: nat)
    ensures n <= |results| && n == multiset(results)[true]
  {
    if results == [] then 0 else
      assert results == results[..|results| - 1] + [results[|results| - 1]];
      Successes(results[..|results| - 1]) + if results[|results| - 1] then 1 else 0
  }

  function Apply(s: Service, a: Action): Service
    requires Enabled(s, a)
  {
    match a
    case StartGlobal => s.(tasks := s.tasks[Id(s.next) := GlobalTask(false, None)], globalSlot := Some(Id(s.next)), next := s.next + 1)
    case GlobalBegins(t) =>
      if s.tasks[t].cancelled || s.globalLock then s.(tasks := s.tasks - {t})
      else s.(tasks := s.tasks[t := GlobalTask(false, Some(Batch(Id(s.next), Discovering, 0)))],
              runs := s.runs[Id(s.next) := Running], globalLock := true, next := s.next + 1)
    case Reconcile(t, cleared, added) =>
      s.(rows := map r | r in s.rows.Keys + added :: r in s.rows && r !in cleared && s.rows[r])
    case Discovered(t, repos) =>
      var b := BatchOf(s, t).(phase := Mirroring(repos, s.concurrency, []), total := |repos|);
      s.(tasks := s.tasks[t := s.tasks[t].(batch := Some(b))])
    case ChildBegins(t, i) =>
      var p := BatchOf(s, t).phase;
      var repo, rest := p.waiting[i], p.waiting[..i] + p.waiting[i + 1..];
      if Refused(s, repo) then WithPhase(s, t, p.(waiting := rest, results := p.results + [false]))
      else Entered(WithPhase(s, t, p.(waiting := rest, permits := p.permits - 1)), t, repo, true)
    case StartRepository(repo) =>
      s.(tasks := s.tasks[Id(s.next) := RepositoryTask(repo, false, false)], slots := s.slots[repo := Id(s.next)], next := s.next + 1)
    case RepositoryBegins(t) =>
      if s.tasks[t].cancelled || Refused(s, s.tasks[t].repo) then s.(tasks := s.tasks - {t})
      else Entered(s.(tasks := s.tasks[t := s.tasks[t].(begun := true)]), t, s.tasks[t].repo, false)
    case Finishes(w, success) =>
      var k := s.workers[w];
      Left(s, w, [success]).(rows := if k.repo in s.rows then s.rows[k.repo := false] else s.rows, runs := s.runs[k.run := Ended])
    case Aborts(w) =>
      var k := s.workers[w];
      Left(s, w, []).(orphanRows := s.orphanRows + {k.repo}, orphanRuns := s.orphanRuns + {k.run})
    case BatchAborts(t) =>
      s.(tasks := s.tasks - {t}, globalLock := false, orphanRuns := s.orphanRuns + {BatchOf(s, t).run})
    case BatchCompletes(t) =>
      var b := BatchOf(s, t);
      var n := Successes(b.phase.results);
      s.(tasks := s.tasks - {t}, globalLock := false, runs := s.runs[b.run := Completed(n, |b.phase.results| - n, b.total)])
    case Cancel(some) => Cancelled(s, some)
    case StopRequest => Cancelled(s, s.tasks.Keys).(stops := s.stops + [s.tasks.Keys])
    case StopCompletes(j) => Cleared(s).(stops := s.stops[..j] + s.stops[j + 1..])
    case StopDropped(j) => s.(stops := s.stops[..j] + s.stops[j + 1..])
    case Restart =>
      Cleared(s).(tasks := map[], workers := map[], locks := {}, globalLock := false, globalSlot := None, slots := map[], stops := [])
  }

  // ---------------------------------------------------------------- invariant

  ghost predicate Below(s: Service) {
    && (forall t | t in s.tasks :: t.n < s.next)
    && (forall w | w in s.workers :: w.n < s.next && s.workers[w].run.n < s.next && s.workers[w].task.n < s.next)
    && (forall n | n in s.runs :: n.n < s.next)
    && (forall t | HasBatch(s, t) :: BatchOf(s, t).run.n < s.next)
    && (s.globalSlot.Some? ==> s.globalSlot.value.n < s.next)
  }

  /** At most one sync per repository is past its lock. */
  ghost predicate Exclusive(s: Service) {
    && (forall w | w in s.workers :: s.workers[w].repo in s.locks)
    && (forall v, w | v in s.workers && w in s.workers && s.workers[v].repo == s.workers[w].repo :: v == w)
  }

  ghost predicate HasWorker(s: Service, repo: Id) {
    exists w :: w in s.workers && s.workers[w].repo == repo
  }

  /** A syncing row has a live worker, or was left by a cancelled one since the last stop. */
  ghost predicate RowsOwned(s: Service) {
    forall r | r in s.rows && s.rows[r] :: r in s.orphanRows || HasWorker(s, r)
  }

  ghost predicate HasOwner(s: Service, run: Id) {
    (exists w :: w in s.workers && s.workers[w].run == run) || (exists t :: HasBatch(s, t) && BatchOf(s, t).run == run)
  }

  ghost predicate RunsOwned(s: Service) {
    forall n | n in s.runs && s.runs[n] == Running :: n in s.orphanRuns || HasOwner(s, n)
  }

  /** There is one global task at most, and it holds the global lock exactly while it has a batch. */
  ghost predicate OneGlobal(s: Service) {
    && (forall t | t in s.tasks && s.tasks[t].GlobalTask? :: s.globalSlot == Some(t))
    && (s.globalLock <==> s.globalSlot.Some? && HasBatch(s, s.globalSlot.value))
  }

  /** Workers belong to their tasks and are cancelled with them; a child outlives its global task
      only if it was cancelled. */
  ghost predicate Tied(s: Service, w: Id)
    requires w in s.workers
  {
    var k := s.workers[w];
    && (k.task in s.tasks ==> (s.tasks[k.task].cancelled <==> k.cancelled))
    && (if k.child then (k.task in s.tasks ==> IsMirroring(s, k.task)) && (k.task !in s.tasks ==> k.cancelled)
        else k.task in s.tasks && s.tasks[k.task].RepositoryTask? && s.tasks[k.task].repo == k.repo && s.tasks[k.task].begun)
  }

  ghost predicate AllTied(s: Service) {
    forall w | w in s.workers :: Tied(s, w)
  }

  /** The permits and the children of a batch add up. */
  ghost predicate Counted(s: Service, t: Id)
    requires IsMirroring(s, t)
  {
    var b := BatchOf(s, t);
    && b.phase.permits + |WorkersOf(s, t)| == s.concurrency
    && (!s.tasks[t].cancelled ==> |b.phase.waiting| + |WorkersOf(s, t)| + |b.phase.results| == b.total)
  }

  ghost predicate AllCounted(s: Service) {
    forall t | IsMirroring(s, t) :: Counted(s, t)
  }

  ghost predicate Sums(s: Service) {
    forall n | n in s.runs && s.runs[n].Completed? :: s.runs[n].succeeded + s.runs[n].failed == s.runs[n].discovered
  }

  ghost predicate Inv(s: Service) {
    Below(s) && Exclusive(s) && RowsOwned(s) && RunsOwned(s) && OneGlobal(s) && AllTied(s) && AllCounted(s) && Sums(s)
  }

  /** Every task is found in its slot: the global one, or its repository's. */
  ghost predicate Slotted(s: Service) {
    && (forall t | t in s.tasks ::
          if s.tasks[t].GlobalTask? then s.globalSlot == Some(t) else s.tasks[t].repo in s.slots && s.slots[s.tasks[t].repo] == t)
    && (forall r | r in s.slots :: s.slots[r].n < s.next && (s.slots[r] in s.tasks ==> IsTaskOf(s.tasks[s.slots[r]], r)))
  }

  predicate IsTaskOf(k: Task, repo: Id) {
    k.RepositoryTask? && k.repo == repo
  }

  /** A repository's lock is held exactly while a sync is past it. */
  ghost predicate Locked(s: Service) {
    forall r :: r in s.locks <==> HasWorker(s, r)
  }

  ghost predicate Sound(s: Service) {
    Inv(s) && Slotted(s) && Locked(s)
  }
}
