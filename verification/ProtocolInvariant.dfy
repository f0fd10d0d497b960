/** What every step of the protocol keeps. */
module ProtocolInvariant {
  import opened Base
  import opened JobTables
  import opened JobFacts
  import opened RetryPolicy
  import opened Protocol

  ghost predicate Executes(workers: map<WorkerId, Worker>, w: WorkerId, id: JobId) {
    w in workers && workers[w].pc == Executing && workers[w].job == id
  }

  /** The row of a job in execution is running, or was cancelled under its worker, at the
      worker's attempt, and that attempt has no result yet. */
  ghost predicate WorkerOk(db: Db, past: History, worker: Worker) {
    worker.job in past && worker.attempt == past[worker.job].starts &&
    worker.maxAttempts == past[worker.job].maxAttempts && (worker.job, worker.attempt) !in db.jobLog &&
    (worker.job in db.rows ==>
       db.rows[worker.job].attempt == worker.attempt &&
       (db.rows[worker.job].status == Running || db.rows[worker.job].status == Dead))
  }

  ghost predicate WorkersOk(db: Db, past: History, workers: map<WorkerId, Worker>) {
    (forall w :: w in workers && workers[w].pc == Executing ==> WorkerOk(db, past, workers[w])) &&
    (forall w, v, id :: Executes(workers, w, id) && Executes(workers, v, id) ==> w == v)
  }

  ghost predicate Manned(rows: map<JobId, Row>, workers: map<WorkerId, Worker>) {
    forall id :: id in RunningRows(rows) ==> exists w :: Executes(workers, w, id)
  }

  ghost predicate SlotsOk(s: State) {
    s.active == |s.workers| + s.doneChan && s.active <= MaxWorkers(s.cfg) &&
    (s.filling.Some? ==> s.active < MaxWorkers(s.cfg))
  }

  ghost predicate LanesOk(rows: map<JobId, Row>, cfg: Config, filling: Option<set<string>>) {
    (forall p :: |Lane(rows, p)| <= PluginParallelism(cfg, p)) &&
    (filling.Some? ==> forall p :: p !in filling.value ==> |Lane(rows, p)| < PluginParallelism(cfg, p))
  }

  ghost predicate PhaseOk(s: State) {
    (s.recovering ==>
       s.workers == map[] && s.doneChan == 0 && s.active == 0 && s.filling.None? && s.waiters == map[]) &&
    (!s.recovering ==> s.killing.None? && Manned(s.db.rows, s.workers)) &&
    (s.killing.Some? ==> s.killing.value in s.db.rows && s.db.rows[s.killing.value].status == Dead)
  }

  ghost predicate EngineOk(s: State) {
    WorkersOk(s.db, s.past, s.workers) && SlotsOk(s) && LanesOk(s.db.rows, s.cfg, s.filling) && PhaseOk(s)
  }

  ghost predicate Inv(s: State) {
    TablesOk(s.db, s.past) && EngineOk(s)
  }

  lemma InitInv(s: State)
    requires Init(s)
    ensures Inv(s)
  {
    forall p
      ensures Lane(s.db.rows, p) == {} && PluginParallelism(s.cfg, p) >= 1
    {
    }
  }

  // ---------------------------------------------------------------- lanes

  /** Only a claim makes a row running. */
  ghost predicate NoNewRunning(rows: map<JobId, Row>, rows': map<JobId, Row>) {
    forall j :: j in rows' && rows'[j].status == Running ==>
                  j in rows && rows[j].status == Running && rows[j].plugin == rows'[j].plugin
  }

  lemma SubsetSize<T>(a: set<T>, b: set<T>)
    requires a <= b
    ensures |a| <= |b|
  {
    assert |b| == |a| + |b - a| by { assert b == a + (b - a); }
  }

  lemma LanesShrink(rows: map<JobId, Row>, rows': map<JobId, Row>, cfg: Config, filling: Option<set<string>>)
    requires LanesOk(rows, cfg, filling) && NoNewRunning(rows, rows')
    ensures LanesOk(rows', cfg, filling) && LanesOk(rows', cfg, None)
  {
    forall p
      ensures |Lane(rows', p)| <= |Lane(rows, p)|
    {
      SubsetSize(Lane(rows', p), Lane(rows, p));
    }
  }

  /** Counts read before the claim may be stale, but lanes only shrink in between. */
  lemma LanesAfterClaim(rows: map<JobId, Row>, cfg: Config, skip: set<string>, id: JobId)
    requires LanesOk(rows, cfg, Some(skip)) && id in rows && rows[id].plugin !in skip
    ensures LanesOk(rows[id := rows[id].(status := Running)], cfg, None)
  {
    var rows' := rows[id := rows[id].(status := Running)];
    forall p
      ensures |Lane(rows', p)| <= PluginParallelism(cfg, p)
    {
      if p == rows[id].plugin {
        assert Lane(rows', p) == Lane(rows, p) + {id};
      } else {
        assert Lane(rows', p) == Lane(rows, p);
      }
    }
  }

  lemma LanesAfterCount(rows: map<JobId, Row>, cfg: Config)
    requires LanesOk(rows, cfg, None)
    ensures LanesOk(rows, cfg, Some(FullLanes(rows, cfg)))
  {
    forall p | p !in FullLanes(rows, cfg)
      ensures |Lane(rows, p)| < PluginParallelism(cfg, p)
    {
      if Lane(rows, p) != {} {
        var j :| j in Lane(rows, p);
        assert rows[j].plugin == p;
      }
    }
  }

  // ---------------------------------------------------------------- steps

  lemma InsertKeepsWorkers(db: Db, past: History, workers: map<WorkerId, Worker>, req: Request, id: JobId, rowid: nat,
                           now: int)
    requires WorkersOk(db, past, workers) && id !in past
    ensures WorkersOk(Insert(db, req, id, rowid, now), Issue(db, past, req, id), workers)
    ensures RunningRows(Insert(db, req, id, rowid, now).rows) <= RunningRows(db.rows)
  {
    var db', past' := Insert(db, req, id, rowid, now), Issue(db, past, req, id);
    forall w | w in workers && workers[w].pc == Executing
      ensures WorkerOk(db', past', workers[w])
    {
      assert WorkerOk(db, past, workers[w]);
    }
  }

  lemma InsertKeepsEngine(s: State, req: Request, id: JobId, rowid: nat)
    requires EngineOk(s) && Fresh(s, id, rowid)
    ensures EngineOk(s.(db := Insert(s.db, req, id, rowid, s.now), past := Issue(s.db, s.past, req, id)))
  {
    InsertKeepsWorkers(s.db, s.past, s.workers, req, id, rowid, s.now);
    LanesShrink(s.db.rows, Insert(s.db, req, id, rowid, s.now).rows, s.cfg, s.filling);
  }

  lemma ClaimKeepsWorkers(db: Db, past: History, workers: map<WorkerId, Worker>, w: WorkerId, id: JobId)
    requires FactsOk(db, past) && JobLogOk(db.jobLog, db.rows, past) && WorkersOk(db, past, workers)
    requires Claimable(db, id) && w !in workers
    ensures var row := db.rows[id];
            WorkersOk(Claim(db, id), Started(past, id),
                      workers[w := Worker(id, row.attempt, row.maxAttempts, Executing)])
  {
    var row := db.rows[id];
    var db', past' := Claim(db, id), Started(past, id);
    var workers' := workers[w := Worker(id, row.attempt, row.maxAttempts, Executing)];
    forall v | v in workers && workers[v].pc == Executing
      ensures workers[v].job != id && WorkerOk(db', past', workers[v])
    {
      assert WorkerOk(db, past, workers[v]);
    }
    forall v, u, j | Executes(workers', v, j) && Executes(workers', u, j)
      ensures v == u
    {
      assert v == w || Executes(workers, v, j);
      assert u == w || Executes(workers, u, j);
    }
  }

  lemma ClaimKeepsManned(rows: map<JobId, Row>, workers: map<WorkerId, Worker>, w: WorkerId, id: JobId, worker: Worker)
    requires Manned(rows, workers) && id in rows && w !in workers && worker.pc == Executing && worker.job == id
    ensures Manned(rows[id := rows[id].(status := Running)], workers[w := worker])
  {
    var rows', workers' := rows[id := rows[id].(status := Running)], workers[w := worker];
    forall j | j in RunningRows(rows')
      ensures exists v :: Executes(workers', v, j)
    {
      if j == id {
        assert Executes(workers', w, id);
      } else {
        assert j in RunningRows(rows);
        var v :| Executes(workers, v, j);
        assert Executes(workers', v, j);
      }
    }
  }

  lemma ClaimKeepsEngine(s: State, w: WorkerId, id: JobId)
    requires Inv(s) && Enabled(s, ClaimNext(w, id)) && (id, s.db.rows[id].attempt) !in s.db.attempts
    ensures EngineOk(Apply(s, ClaimNext(w, id)))
  {
    var row := s.db.rows[id];
    ClaimKeepsWorkers(s.db, s.past, s.workers, w, id);
    ClaimKeepsManned(s.db.rows, s.workers, w, id, Worker(id, row.attempt, row.maxAttempts, Executing));
    LanesAfterClaim(s.db.rows, s.cfg, s.filling.value, id);
  }

  /** What the last write of an executing worker does to the tables: its row stops running,
      other rows and their log rows stay. */
  ghost predicate StopsJob(db: Db, db': Db, id: JobId) {
    (id in db'.rows ==> db'.rows[id].status != Running) &&
    (forall j :: j in db'.rows && j != id ==> j in db.rows && db'.rows[j] == db.rows[j]) &&
    (forall j, a :: (j, a) in db'.jobLog && j != id ==> (j, a) in db.jobLog)
  }

  lemma StopKeepsWorkers(db: Db, db': Db, past: History, workers: map<WorkerId, Worker>, w: WorkerId, pc: WorkerPc)
    requires WorkersOk(db, past, workers) && Manned(db.rows, workers)
    requires w in workers && workers[w].pc == Executing && pc != Executing && StopsJob(db, db', workers[w].job)
    ensures var workers' := workers[w := workers[w].(pc := pc)];
            WorkersOk(db', past, workers') && Manned(db'.rows, workers')
  {
    var workers' := workers[w := workers[w].(pc := pc)];
    forall v | v in workers' && workers'[v].pc == Executing
      ensures WorkerOk(db', past, workers'[v])
    {
      assert WorkerOk(db, past, workers[v]);
      assert Executes(workers, v, workers[v].job) && Executes(workers, w, workers[w].job);
    }
    forall v, u, id | Executes(workers', v, id) && Executes(workers', u, id)
      ensures v == u
    {
      assert Executes(workers, v, id) && Executes(workers, u, id);
    }
    forall id | id in RunningRows(db'.rows)
      ensures exists v :: Executes(workers', v, id)
    {
      assert id in RunningRows(db.rows);
      var v :| Executes(workers, v, id);
      assert Executes(workers', v, id);
    }
  }

  lemma StopKeepsEngine(s: State, w: WorkerId, db: Db, pc: WorkerPc)
    requires EngineOk(s) && IsAt(s, w, Executing) && pc != Executing && StopsJob(s.db, db, s.workers[w].job)
    ensures EngineOk(s.(db := db, workers := At(s, w, pc)))
  {
    StopKeepsWorkers(s.db, db, s.past, s.workers, w, pc);
    LanesShrink(s.db.rows, db.rows, s.cfg, s.filling);
  }

  lemma FinishKeepsEngine(s: State, w: WorkerId, status: Status)
    requires EngineOk(s) && Enabled(s, Finish(w, status))
    ensures EngineOk(Apply(s, Finish(w, status)))
  {
    StopKeepsEngine(s, w, CompleteIfThere(s.db, s.workers[w].job, status, s.now), Notifying);
  }

  lemma FinishKeepsTables(db: Db, past: History, worker: Worker, status: Status, now: int, db': Db)
    requires TablesOk(db, past) && WorkerOk(db, past, worker) && Finished(status)
    requires db' == CompleteIfThere(db, worker.job, status, now)
    ensures TablesOk(db', past)
  {
    if worker.job in db.rows {
      CompleteKeeps(db, past, worker.job, status, now);
    }
  }

  lemma RetryKeepsEngine(s: State, w: WorkerId, failure: Failure, pluginMax: Option<int>, delay: int)
    requires EngineOk(s) && Enabled(s, Retry(w, failure, pluginMax, delay))
    ensures EngineOk(Apply(s, Retry(w, failure, pluginMax, delay)))
  {
    var s' := Apply(s, Retry(w, failure, pluginMax, delay));
    StopKeepsEngine(s, w, s'.db, s'.workers[w].pc);
  }

  /** The retry policy lets an attempt number go up only while it is below the limit. */
  lemma RetryBelowLimit(failure: Failure, attempt: int, jobMax: int, pluginMax: Option<int>)
    requires ShouldRetry(Decide(failure, attempt, jobMax, pluginMax))
    ensures attempt < EffectiveMaxAttempts(jobMax, pluginMax)
    ensures jobMax > 0 ==> attempt < jobMax
  {
  }

  lemma HeldCanRetry(db: Db, past: History, worker: Worker, failure: Failure, pluginMax: Option<int>)
    requires HistoryOk(db.rows, past) && WorkerOk(db, past, worker) && worker.job in db.rows
    requires ShouldRetry(Decide(failure, worker.attempt, worker.maxAttempts, pluginMax))
    ensures Requeueable(db, past, worker.job, Queued) && db.rows[worker.job].attempt == worker.attempt
  {
    RetryBelowLimit(failure, worker.attempt, worker.maxAttempts, pluginMax);
  }

  lemma RetryKeepsTables(db: Db, past: History, worker: Worker, failure: Failure, pluginMax: Option<int>,
                         nextRetryAt: int, db': Db)
    requires TablesOk(db, past) && WorkerOk(db, past, worker)
    requires ShouldRetry(Decide(failure, worker.attempt, worker.maxAttempts, pluginMax))
    requires db' == RequeueIfThere(db, worker.job, worker.attempt + 1, nextRetryAt)
    ensures TablesOk(db', past)
  {
    if worker.job in db.rows {
      HeldCanRetry(db, past, worker, failure, pluginMax);
      RequeueKeeps(db, past, worker.job, Queued, worker.attempt + 1, Some(nextRetryAt));
    }
  }

  /** Workers that do not execute may change without touching anything else. */
  lemma OthersKeepWorkers(db: Db, past: History, workers: map<WorkerId, Worker>, workers': map<WorkerId, Worker>)
    requires WorkersOk(db, past, workers) && Manned(db.rows, workers)
    requires forall w :: w in workers' && workers'[w].pc == Executing ==> w in workers && workers'[w] == workers[w]
    requires forall w :: w in workers && workers[w].pc == Executing ==> w in workers'
    requires forall w :: w in workers && w in workers' && workers[w].pc == Executing ==> workers'[w] == workers[w]
    ensures WorkersOk(db, past, workers') && Manned(db.rows, workers')
  {
    forall w, id | Executes(workers', w, id)
      ensures Executes(workers, w, id)
    {
    }
    forall id | id in RunningRows(db.rows)
      ensures exists w :: Executes(workers', w, id)
    {
      var w :| Executes(workers, w, id);
      assert Executes(workers', w, id);
    }
  }

  lemma NotifyKeepsEngine(s: State, w: WorkerId)
    requires EngineOk(s) && Enabled(s, Notify(w))
    ensures EngineOk(Apply(s, Notify(w)))
  {
    OthersKeepWorkers(s.db, s.past, s.workers, At(s, w, Leaving));
  }

  lemma LeaveKeepsEngine(s: State, w: WorkerId)
    requires EngineOk(s) && Enabled(s, Leave(w))
    ensures EngineOk(Apply(s, Leave(w)))
  {
    OthersKeepWorkers(s.db, s.past, s.workers, s.workers - {w});
  }

  /** A cancel or a prune: rows in execution keep their attempt and become dead at most. */
  ghost predicate Weakens(db: Db, db': Db) {
    db'.jobLog == db.jobLog && db'.rows.Keys <= db.rows.Keys &&
    forall j :: j in db'.rows ==>
                  db'.rows[j] == db.rows[j] ||
                  (db'.rows[j].status == Dead && db'.rows[j].attempt == db.rows[j].attempt)
  }

  lemma WeakenKeepsEngine(s: State, db: Db)
    requires EngineOk(s) && !s.recovering && Weakens(s.db, db)
    ensures EngineOk(s.(db := db))
  {
    forall w | w in s.workers && s.workers[w].pc == Executing
      ensures WorkerOk(db, s.past, s.workers[w])
    {
      assert WorkerOk(s.db, s.past, s.workers[w]);
    }
    assert RunningRows(db.rows) <= RunningRows(s.db.rows);
    LanesShrink(s.db.rows, db.rows, s.cfg, s.filling);
  }

  lemma OrphanCanRecover(db: Db, past: History, id: JobId)
    requires HistoryOk(db.rows, past) && id in db.rows && db.rows[id].status == Running
    ensures Requeueable(db, past, id, RecoveryStatus(db.rows[id]))
  {
  }

  lemma RecoverKeepsTables(db: Db, past: History, id: JobId, db': Db)
    requires TablesOk(db, past) && id in db.rows && db.rows[id].status == Running
    requires db' == Requeue(db, id, RecoveryStatus(db.rows[id]), db.rows[id].attempt + 1, None)
    ensures TablesOk(db', past)
  {
    OrphanCanRecover(db, past, id);
    RequeueKeeps(db, past, id, RecoveryStatus(db.rows[id]), db.rows[id].attempt + 1, None);
  }

  lemma KillKeepsTables(db: Db, past: History, id: JobId, now: int, db': Db)
    requires TablesOk(db, past) && id in db.rows && db.rows[id].status == Dead
    requires db' == CompleteIfThere(db, id, Dead, now)
    ensures TablesOk(db', past)
  {
    CompleteKeeps(db, past, id, Dead, now);
  }

  /** While recovery has the tables to itself, its writes only have to keep rows from running. */
  lemma RecoveryKeepsEngine(s: State, db: Db, killing: Option<JobId>)
    requires EngineOk(s) && s.recovering && NoNewRunning(s.db.rows, db.rows)
    requires killing.Some? ==> killing.value in db.rows && db.rows[killing.value].status == Dead
    ensures EngineOk(s.(db := db, killing := killing))
  {
    LanesShrink(s.db.rows, db.rows, s.cfg, s.filling);
  }

  lemma RecoverKeepsEngine(s: State, id: JobId)
    requires EngineOk(s) && Enabled(s, Recover(id))
    ensures EngineOk(Apply(s, Recover(id)))
  {
    var s' := Apply(s, Recover(id));
    RecoveryKeepsEngine(s, s'.db, s'.killing);
  }

  lemma FinishKillKeepsEngine(s: State)
    requires EngineOk(s) && Enabled(s, FinishKill)
    ensures EngineOk(Apply(s, FinishKill))
  {
    RecoveryKeepsEngine(s, Complete(s.db, s.killing.value, Dead, s.now), None);
  }

  lemma RestartKeepsEngine(s: State, cfg: Config)
    requires EngineOk(s) && Enabled(s, Restart(cfg))
    ensures EngineOk(Apply(s, Restart(cfg)))
  {
    forall p
      ensures Lane(s.db.rows, p) == {}
    {
      assert Lane(s.db.rows, p) <= RunningRows(s.db.rows);
    }
  }

  lemma NextDbOfWrites(s: State, step: Step)
    requires Enabled(s, step)
    ensures step.Finish? ==> NextDb(s, step) == CompleteIfThere(s.db, s.workers[step.w].job, step.status, s.now)
    ensures step.Retry? ==>
              NextDb(s, step) ==
              RequeueIfThere(s.db, s.workers[step.w].job, s.workers[step.w].attempt + 1, s.now + step.delay)
    ensures step.Recover? ==>
              NextDb(s, step) ==
              Requeue(s.db, step.id, RecoveryStatus(s.db.rows[step.id]), s.db.rows[step.id].attempt + 1, None)
    ensures step.FinishKill? ==> NextDb(s, step) == CompleteIfThere(s.db, s.killing.value, Dead, s.now)
  {
  }

  lemma WorkerWriteKeepsTables(s: State, step: Step)
    requires TablesOk(s.db, s.past) && Enabled(s, step) && (step.Finish? || step.Retry?)
    requires WorkerOk(s.db, s.past, s.workers[step.w])
    ensures TablesOk(NextDb(s, step), s.past)
  {
    NextDbOfWrites(s, step);
    var worker := s.workers[step.w];
    if step.Finish? {
      FinishKeepsTables(s.db, s.past, worker, step.status, s.now, NextDb(s, step));
    } else {
      RetryKeepsTables(s.db, s.past, worker, step.failure, step.pluginMax, s.now + step.delay, NextDb(s, step));
    }
  }

  lemma RecoveryWriteKeepsTables(s: State, step: Step)
    requires TablesOk(s.db, s.past) && Enabled(s, step) && (step.Recover? || step.FinishKill?)
    requires step.FinishKill? ==> s.killing.value in s.db.rows && s.db.rows[s.killing.value].status == Dead
    ensures TablesOk(NextDb(s, step), s.past)
  {
    NextDbOfWrites(s, step);
    if step.Recover? {
      RecoverKeepsTables(s.db, s.past, step.id, NextDb(s, step));
    } else {
      KillKeepsTables(s.db, s.past, s.killing.value, s.now, NextDb(s, step));
    }
  }

  predicate WorkerStep(step: Step) {
    step.Route? || step.Finish? || step.Retry? || step.Notify? || step.Leave?
  }

  predicate RecoveryStep(step: Step) {
    step.Crash? || step.Recover? || step.FinishKill? || step.Restart?
  }

  predicate WaiterStep(step: Step) {
    step.Register? || step.Look? || step.Confirm? || step.Wake? || step.GiveUp?
  }

  lemma WorkerStepKeeps(s: State, step: Step)
    requires Inv(s) && Enabled(s, step) && WorkerStep(step)
    ensures TablesOk(NextDb(s, step), NextPast(s, step)) && EngineOk(Apply(s, step))
  {
    match step
    case Route(w, req, id, rowid) =>
      assert WorkerOk(s.db, s.past, s.workers[w]);
      InsertKeeps(s.db, s.past, req, id, rowid, s.now);
      InsertKeepsEngine(s, req, id, rowid);
    case Finish(w, status) =>
      assert WorkerOk(s.db, s.past, s.workers[w]);
      WorkerWriteKeepsTables(s, step);
      FinishKeepsEngine(s, w, status);
    case Retry(w, failure, pluginMax, delay) =>
      assert WorkerOk(s.db, s.past, s.workers[w]);
      WorkerWriteKeepsTables(s, step);
      RetryKeepsEngine(s, w, failure, pluginMax, delay);
    case Notify(w) => NotifyKeepsEngine(s, w);
    case Leave(w) => LeaveKeepsEngine(s, w);
  }

  lemma RecoveryStepKeeps(s: State, step: Step)
    requires Inv(s) && Enabled(s, step) && RecoveryStep(step)
    ensures TablesOk(NextDb(s, step), NextPast(s, step)) && EngineOk(Apply(s, step))
  {
    match step
    case Crash => LanesShrink(s.db.rows, s.db.rows, s.cfg, s.filling);
    case Recover(id) =>
      RecoveryWriteKeepsTables(s, step);
      RecoverKeepsEngine(s, id);
    case FinishKill =>
      RecoveryWriteKeepsTables(s, step);
      FinishKillKeepsEngine(s);
    case Restart(cfg) => RestartKeepsEngine(s, cfg);
  }

  /** Waiters change nothing but their own state and the map of channels. */
  lemma WaiterFrame(s: State, step: Step)
    requires Enabled(s, step) && WaiterStep(step)
    ensures Apply(s, step) == s.(waiters := Control(s, step).waiters, completions := Control(s, step).completions)
    ensures !(s.recovering && s.waiters == map[])
  {
  }

  lemma WaiterStepKeeps(s: State, step: Step)
    requires Inv(s) && Enabled(s, step) && WaiterStep(step)
    ensures Inv(Apply(s, step))
  {
    WaiterFrame(s, step);
  }

  lemma OtherStepKeeps(s: State, step: Step)
    requires Inv(s) && Enabled(s, step) && !WorkerStep(step) && !RecoveryStep(step) && !WaiterStep(step)
    ensures TablesOk(NextDb(s, step), NextPast(s, step)) && EngineOk(Apply(s, step))
    ensures step.ClaimNext? ==> (step.id, s.db.rows[step.id].attempt) !in s.db.attempts
  {
    match step
    case Submit(req, id, rowid) =>
      InsertKeeps(s.db, s.past, req, id, rowid, s.now);
      InsertKeepsEngine(s, req, id, rowid);
    case CountLanes => LanesAfterCount(s.db.rows, s.cfg);
    case ClaimNext(w, id) =>
      ClaimKeeps(s.db, s.past, id);
      ClaimKeepsEngine(s, w, id);
    case CancelJobs(plugin, command, order) =>
      CancelKeeps(s.db, s.past, plugin, command, order, s.now);
      WeakenKeepsEngine(s, Apply(s, step).db);
    case PruneJobs(retention) =>
      PruneKeeps(s.db, s.past, retention, s.now);
      WeakenKeepsEngine(s, Apply(s, step).db);
    case _ =>
  }

  /** Every step keeps the invariant, and no claim ever meets an existing attempt fact. */
  lemma StepKeepsInv(s: State, step: Step)
    requires Inv(s) && Enabled(s, step)
    ensures Inv(Apply(s, step))
    ensures step.ClaimNext? ==> (step.id, s.db.rows[step.id].attempt) !in s.db.attempts
  {
    if WorkerStep(step) {
      WorkerStepKeeps(s, step);
    } else if RecoveryStep(step) {
      RecoveryStepKeeps(s, step);
    } else if WaiterStep(step) {
      WaiterStepKeeps(s, step);
    } else {
      OtherStepKeeps(s, step);
    }
  }

  /** Every state of every run satisfies the invariant. */
  lemma {:induction false} RunInv(states: seq<State>, steps: seq<Step>, i: nat)
    requires IsRun(states, steps) && Inv(states[0]) && i < |states|
    ensures Inv(states[i])
  {
    if i > 0 {
      var j := i - 1;
      RunInv(states, steps, j);
      StepKeepsInv(states[j], steps[j]);
      assert j + 1 == i;
    }
  }
}
