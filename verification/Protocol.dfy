/** The job engine as a state machine: the dispatch loop, its workers, crash recovery, the
    scheduler's cancel and prune, and the synchronous waiters interleave freely; every SQL
    transaction and every channel operation is one step. */
module Protocol {
  import opened Base
  import opened JobTables
  import opened JobFacts
  import opened JobTree
  import opened RetryPolicy

  type WorkerId = nat
  type WaiterId = nat

  datatype Config = Config(maxWorkers: int, parallelism: map<string, int>, concurrencySafe: map<string, bool>)

  function MaxWorkers(cfg: Config): nat {
    if cfg.maxWorkers <= 0 then 1 else cfg.maxWorkers
  }

  /** pluginParallelism; the manifest flag can only confirm a limit of one. */
  function PluginParallelism(cfg: Config, plugin: string): int {
    var limit := if plugin in cfg.parallelism && cfg.parallelism[plugin] > 0 then cfg.parallelism[plugin] else 1;
    if plugin in cfg.concurrencySafe && !cfg.concurrencySafe[plugin] && limit <= 1 then 1 else limit
  }

  ghost function RunningRows(rows: map<JobId, Row>): set<JobId> {
    set j | j in rows && rows[j].status == Running
  }

  ghost function Lane(rows: map<JobId, Row>, plugin: string): set<JobId> {
    set j | j in rows && rows[j].status == Running && rows[j].plugin == plugin
  }

  /** The plugins a dispatch pass skips, from the running counts it has just read. */
  ghost function FullLanes(rows: map<JobId, Row>, cfg: Config): set<string> {
    set j | j in rows && rows[j].status == Running &&
            |Lane(rows, rows[j].plugin)| >= PluginParallelism(cfg, rows[j].plugin)
      :: rows[j].plugin
  }

  /** A worker goroutine holds the job as it was claimed. It executes, writes its result, tells
      the waiters, and finally reports to the dispatch loop. */
  datatype WorkerPc = Executing | Notifying | Leaving
  datatype Worker = Worker(job: JobId, attempt: int, maxAttempts: int, pc: WorkerPc)

  /** A synchronous caller with its one-slot channel. */
  datatype WaiterPc = Looking | Confirming(seen: nat) | Blocked
  datatype Waiter = Waiter(root: JobId, signalled: bool, pc: WaiterPc)

  datatype State = State(
    db: Db, past: History, now: int, cfg: Config,
    recovering: bool, killing: Option<JobId>,
    workers: map<WorkerId, Worker>, doneChan: nat, active: nat, filling: Option<set<string>>,
    waiters: map<WaiterId, Waiter>, completions: map<JobId, WaiterId>)

  datatype Step =
    | Elapse(d: nat)
    | Submit(req: Request, id: JobId, rowid: nat)
    | CountLanes
    | ClaimNext(w: WorkerId, id: JobId)
    | FindNothing
    | Route(w: WorkerId, req: Request, id: JobId, rowid: nat)
    | Finish(w: WorkerId, status: Status)
    | Retry(w: WorkerId, failure: Failure, pluginMax: Option<int>, delay: int)
    | Notify(w: WorkerId)
    | Leave(w: WorkerId)
    | Reap
    | CancelJobs(plugin: string, command: string, order: seq<JobId>)
    | PruneJobs(retention: int)
    | Crash
    | Recover(id: JobId)
    | FinishKill
    | Restart(cfg: Config)
    | Register(wt: WaiterId, root: JobId)
    | Look(wt: WaiterId)
    | Confirm(wt: WaiterId)
    | Wake(wt: WaiterId)
    | GiveUp(wt: WaiterId)

  ghost predicate Fresh(s: State, id: JobId, rowid: nat) {
    id !in s.past && forall j :: j in s.db.rows ==> s.db.rows[j].rowid < rowid
  }

  ghost predicate IsAt(s: State, w: WorkerId, pc: WorkerPc) {
    w in s.workers && s.workers[w].pc == pc
  }

  ghost predicate Enabled(s: State, step: Step) {
    match step
    case Elapse(_) => true
    case Submit(req, id, rowid) => Fresh(s, id, rowid) && req.parent.None?
    case CountLanes => !s.recovering && s.filling.None? && s.active < MaxWorkers(s.cfg)
    case ClaimNext(w, id) =>
      !s.recovering && s.filling.Some? && w !in s.workers && IsNext(s.db.rows, id, s.filling.value, {}, s.now)
    case FindNothing =>
      !s.recovering && s.filling.Some? && forall j :: !Eligible(s.db.rows, j, s.filling.value, {}, s.now)
    case Route(w, req, id, rowid) =>
      IsAt(s, w, Executing) && Fresh(s, id, rowid) && req.parent == Some(s.workers[w].job)
    case Finish(w, status) => IsAt(s, w, Executing) && Finished(status)
    case Retry(w, failure, pluginMax, _) =>
      IsAt(s, w, Executing) &&
      ShouldRetry(Decide(failure, s.workers[w].attempt, s.workers[w].maxAttempts, pluginMax))
    case Notify(w) => IsAt(s, w, Notifying)
    case Leave(w) => IsAt(s, w, Leaving) && s.doneChan < MaxWorkers(s.cfg)
    case Reap => !s.recovering && s.filling.None? && s.doneChan > 0
    case CancelJobs(plugin, command, order) =>
      !s.recovering && CancelOrder(s.db.rows, order, plugin, command)
    case PruneJobs(_) => !s.recovering
    case Crash => true
    case Recover(id) => s.recovering && s.killing.None? && id in s.db.rows && s.db.rows[id].status == Running
    case FinishKill => s.recovering && s.killing.Some?
    case Restart(_) => s.recovering && s.killing.None? && RunningRows(s.db.rows) == {}
    case Register(wt, _) => !s.recovering && wt !in s.waiters
    case Look(wt) => wt in s.waiters && s.waiters[wt].pc.Looking?
    case Confirm(wt) => wt in s.waiters && s.waiters[wt].pc.Confirming?
    case Wake(wt) => wt in s.waiters && s.waiters[wt].pc.Blocked? && s.waiters[wt].signalled
    case GiveUp(wt) => wt in s.waiters && s.waiters[wt].pc.Blocked?
  }

  function At(s: State, w: WorkerId, pc: WorkerPc): map<WorkerId, Worker>
    requires w in s.workers
  {
    s.workers[w := s.workers[w].(pc := pc)]
  }

  /** Crash recovery requeues an orphan unless its next attempt would exceed the limit; a dead
      orphan is completed by a second transaction. */
  function RecoveryStatus(row: Row): Status {
    if row.attempt + 1 <= row.maxAttempts then Queued else Dead
  }

  function CompleteIfThere(db: Db, id: JobId, status: Status, now: int): Db {
    if id in db.rows then Complete(db, id, status, now) else db
  }

  /** A retry whose row was pruned falls back to a completion, which finds no row either. */
  function RequeueIfThere(db: Db, id: JobId, attempt: int, nextRetryAt: int): Db {
    if id in db.rows then Requeue(db, id, Queued, attempt, Some(nextRetryAt)) else db
  }

  ghost predicate Registered(s: State, wt: WaiterId) {
    wt in s.waiters && s.waiters[wt].root in s.completions && s.completions[s.waiters[wt].root] == wt
  }

  /** notifyCompletion: a signal into every registered channel that has room. */
  ghost function Signalled(s: State): map<WaiterId, Waiter> {
    map wt | wt in s.waiters :: if Registered(s, wt) then s.waiters[wt].(signalled := true) else s.waiters[wt]
  }

  /** A returning waiter deletes the map entry of its root, whoever owns that entry by then. */
  function Returned(s: State, wt: WaiterId): State
    requires wt in s.waiters
  {
    s.(waiters := s.waiters - {wt}, completions := s.completions - {s.waiters[wt].root})
  }

  function Proceed(s: State, wt: WaiterId, pc: WaiterPc): State
    requires wt in s.waiters
  {
    s.(waiters := s.waiters[wt := s.waiters[wt].(pc := pc)])
  }

  /** First reading of settledJobTree. */
  ghost function Looked(s: State, wt: WaiterId): (s': State)
    requires wt in s.waiters
    ensures s' == s.(waiters := s'.waiters, completions := s'.completions)
  {
    var tree := Tree(s.db.rows, s.waiters[wt].root);
    if tree == {} then Returned(s, wt)
    else if TreeComplete(s.db.rows, s.waiters[wt].root) then Proceed(s, wt, Confirming(|tree|))
    else Proceed(s, wt, Blocked)
  }

  /** Second reading of settledJobTree: the caller returns only if the tree kept its size. */
  ghost function Confirmed(s: State, wt: WaiterId): (s': State)
    requires wt in s.waiters && s.waiters[wt].pc.Confirming?
    ensures s' == s.(waiters := s'.waiters, completions := s'.completions)
  {
    var tree := Tree(s.db.rows, s.waiters[wt].root);
    if tree == {} then Returned(s, wt)
    else if TreeComplete(s.db.rows, s.waiters[wt].root) && |tree| == s.waiters[wt].pc.seen then Returned(s, wt)
    else Proceed(s, wt, Blocked)
  }

  /** What the step's transaction does to the tables. */
  ghost function NextDb(s: State, step: Step): Db
    requires Enabled(s, step)
  {
    match step
    case Submit(req, id, rowid) => Insert(s.db, req, id, rowid, s.now)
    case ClaimNext(_, id) => if (id, s.db.rows[id].attempt) in s.db.attempts then s.db else Claim(s.db, id)
    case Route(_, req, id, rowid) => Insert(s.db, req, id, rowid, s.now)
    case Finish(w, status) => CompleteIfThere(s.db, s.workers[w].job, status, s.now)
    case Retry(w, _, _, delay) => RequeueIfThere(s.db, s.workers[w].job, s.workers[w].attempt + 1, s.now + delay)
    case CancelJobs(plugin, command, order) => Cancel(s.db, plugin, command, order, s.now)
    case PruneJobs(retention) => Prune(s.db, retention, s.now)
    case Recover(id) => Requeue(s.db, id, RecoveryStatus(s.db.rows[id]), s.db.rows[id].attempt + 1, None)
    case FinishKill => CompleteIfThere(s.db, s.killing.value, Dead, s.now)
    case _ => s.db
  }

  ghost function NextPast(s: State, step: Step): History
    requires Enabled(s, step)
  {
    match step
    case Submit(req, id, _) => Issue(s.db, s.past, req, id)
    case Route(_, req, id, _) => Issue(s.db, s.past, req, id)
    case ClaimNext(_, id) =>
      if id in s.past && (id, s.db.rows[id].attempt) !in s.db.attempts then Started(s.past, id) else s.past
    case _ => s.past
  }

  /** What the step does to everything but the tables. */
  ghost function Control(s: State, step: Step): State
    requires Enabled(s, step)
  {
    match step
    case Elapse(d) => s.(now := s.now + d)
    case CountLanes => s.(filling := Some(FullLanes(s.db.rows, s.cfg)))
    case ClaimNext(w, id) =>
      var row := s.db.rows[id];
      if (id, row.attempt) in s.db.attempts then s.(filling := None)
      else s.(filling := None, active := s.active + 1,
              workers := s.workers[w := Worker(id, row.attempt, row.maxAttempts, Executing)])
    case FindNothing => s.(filling := None)
    case Finish(w, _) => s.(workers := At(s, w, Notifying))
    case Retry(w, _, _, _) => s.(workers := At(s, w, if s.workers[w].job in s.db.rows then Leaving else Notifying))
    case Notify(w) => s.(waiters := Signalled(s), workers := At(s, w, Leaving))
    case Leave(w) => s.(workers := s.workers - {w}, doneChan := s.doneChan + 1)
    case Reap => s.(doneChan := s.doneChan - 1, active := if s.active > 0 then s.active - 1 else 0)
    case Crash =>
      s.(recovering := true, killing := None, workers := map[], doneChan := 0, active := 0, filling := None,
         waiters := map[], completions := map[])
    case Recover(id) => s.(killing := if RecoveryStatus(s.db.rows[id]) == Dead then Some(id) else None)
    case FinishKill => s.(killing := None)
    case Restart(cfg) => s.(recovering := false, cfg := cfg)
    case Register(wt, root) =>
      s.(waiters := s.waiters[wt := Waiter(root, false, Looking)], completions := s.completions[root := wt])
    case Look(wt) => Looked(s, wt)
    case Confirm(wt) => Confirmed(s, wt)
    case Wake(wt) => s.(waiters := s.waiters[wt := s.waiters[wt].(signalled := false, pc := Looking)])
    case GiveUp(wt) => Returned(s, wt)
    case _ => s
  }

  ghost function Apply(s: State, step: Step): State
    requires Enabled(s, step)
  {
    Control(s, step).(db := NextDb(s, step), past := NextPast(s, step))
  }

  /** An empty database before its first start. */
  ghost predicate Init(s: State) {
    s.db == Db(map[], [], {}, map[]) && s.past == map[] && s.recovering && s.killing.None? && s.workers == map[] &&
    s.doneChan == 0 && s.active == 0 && s.filling.None? && s.waiters == map[] && s.completions == map[]
  }

  /** A run: a start state and steps, each enabled where it is taken. */
  ghost predicate IsRun(states: seq<State>, steps: seq<Step>) {
    |states| == |steps| + 1 &&
    forall i :: 0 <= i < |steps| ==> Enabled(states[i], steps[i]) && states[i + 1] == Apply(states[i], steps[i])
  }

  ghost predicate IsRunFromInit(states: seq<State>, steps: seq<Step>) {
    IsRun(states, steps) && Init(states[0])
  }
}
