/** Safety of the job queue over whole runs: starts, transitions, lanes and exclusion. */
module JobSafety {
  import opened Base
  import opened JobTables
  import opened JobFacts
  import opened Protocol
  import opened ProtocolInvariant

  lemma ReachableInv(states: seq<State>, steps: seq<Step>, i: nat)
    requires IsRunFromInit(states, steps) && i < |states|
    ensures Inv(states[i])
  {
    InitInv(states[0]);
    RunInv(states, steps, i);
  }

  // ---------------------------------------------------------------- starts

  /** How often a job was handed to a worker. */
  function Claims(steps: seq<Step>, id: JobId): nat {
    if steps == [] then 0
    else Claims(steps[..|steps| - 1], id) +
         (if ClaimsJob(steps[|steps| - 1], id) then 1 else 0)
  }

  predicate ClaimsJob(step: Step, id: JobId) {
    step.ClaimNext? && step.id == id
  }

  lemma StepCountsStarts(s: State, step: Step, id: JobId)
    requires Enabled(s, step) && s.db.rows.Keys <= s.past.Keys
    requires step.ClaimNext? ==> (step.id, s.db.rows[step.id].attempt) !in s.db.attempts
    ensures var past' := NextPast(s, step);
            if id in s.past then
              id in past' && past'[id].starts == s.past[id].starts + if ClaimsJob(step, id) then 1 else 0
            else !ClaimsJob(step, id) && (id in past' ==> past'[id].starts == 0)
  {
    match step
    case ClaimNext(_, j) => assert j in s.past;
    case _ =>
  }

  /** No run starts a job more often than its attempt limit, and the attempt facts of the job
      are exactly 1, ..., number of starts, whatever mix of retries, cancels and crashes happens. */
  lemma StartsAreBounded(states: seq<State>, steps: seq<Step>, i: nat, id: JobId)
    requires IsRunFromInit(states, steps) && i < |states|
    ensures id !in states[i].past ==> Claims(steps[..i], id) == 0
    ensures id in states[i].past ==>
              Claims(steps[..i], id) == states[i].past[id].starts <= states[i].past[id].maxAttempts
    ensures forall a :: (id, a) in states[i].db.attempts <==> 1 <= a <= Claims(steps[..i], id)
  {
    CountedStarts(states, steps, i, id);
    ReachableInv(states, steps, i);
    assert HistoryOk(states[i].db.rows, states[i].past) && AttemptsOk(states[i].db.attempts, states[i].past);
  }

  /** Claims in the run and starts in the history are counted alike. */
  lemma {:induction false} CountedStarts(states: seq<State>, steps: seq<Step>, i: nat, id: JobId)
    requires IsRunFromInit(states, steps) && i < |states|
    ensures Claims(steps[..i], id) == if id in states[i].past then states[i].past[id].starts else 0
  {
    if i > 0 {
      var j := i - 1;
      CountedStarts(states, steps, j, id);
      NextStarts(states, steps, j, id);
      assert steps[..i][..j] == steps[..j] && j + 1 == i;
    }
  }

  lemma NextStarts(states: seq<State>, steps: seq<Step>, i: nat, id: JobId)
    requires IsRunFromInit(states, steps) && i < |steps|
    ensures var before, after := states[i].past, states[i + 1].past;
            (if id in after then after[id].starts else 0) ==
            (if id in before then before[id].starts else 0) + if ClaimsJob(steps[i], id) then 1 else 0
  {
    ReachableInv(states, steps, i);
    StepKeepsInv(states[i], steps[i]);
    StepCountsStarts(states[i], steps[i], id);
  }

  /** The number of the current attempt tells the starts apart: a running job is in its latest
      start, a queued job one ahead of it. */
  lemma AttemptNumber(states: seq<State>, steps: seq<Step>, i: nat, id: JobId)
    requires IsRunFromInit(states, steps) && i < |states| && id in states[i].db.rows
    ensures var row := states[i].db.rows[id];
            (row.status == Queued ==> row.attempt == Claims(steps[..i], id) + 1) &&
            (row.status == Running ==> row.attempt == Claims(steps[..i], id)) &&
            Claims(steps[..i], id) <= row.maxAttempts
  {
    ReachableInv(states, steps, i);
    StartsAreBounded(states, steps, i, id);
  }

  // ---------------------------------------------------------------- the fate of one row

  /** The step writes the row of this job. */
  ghost predicate Writes(s: State, step: Step, id: JobId)
    requires Enabled(s, step)
  {
    match step
    case ClaimNext(_, j) => j == id
    case Finish(w, _) => s.workers[w].job == id
    case Retry(w, _, _, _) => s.workers[w].job == id
    case CancelJobs(_, _, order) => id in order
    case Recover(j) => j == id
    case FinishKill => s.killing.value == id
    case _ => false
  }

  /** The step is an update of one row. */
  predicate UpdatesOneRow(step: Step) {
    step.ClaimNext? || step.Finish? || step.Retry? || step.Recover? || step.FinishKill?
  }

  lemma UpdateLeavesOthers(s: State, step: Step, id: JobId)
    requires Enabled(s, step) && id in s.db.rows && UpdatesOneRow(step) && !Writes(s, step, id)
    ensures id in NextDb(s, step).rows && NextDb(s, step).rows[id] == s.db.rows[id]
  {
    match step
    case _ =>
  }

  lemma OtherRowsStay(s: State, step: Step, id: JobId)
    requires Enabled(s, step) && id in s.db.rows && !Writes(s, step, id)
    ensures var rows' := NextDb(s, step).rows;
            if id in rows' then rows'[id] == s.db.rows[id] else step.PruneJobs? && s.db.rows[id].status.Terminal()
  {
    if UpdatesOneRow(step) {
      UpdateLeavesOthers(s, step, id);
    } else {
      match step
      case CancelJobs(plugin, command, order) => assert !Cancellable(s.db.rows, id, plugin, command);
      case _ =>
    }
  }

  /** What an executing worker's row looks like. */
  lemma HeldRow(s: State, w: WorkerId)
    requires WorkersOk(s.db, s.past, s.workers) && IsAt(s, w, Executing) && s.workers[w].job in s.db.rows
    ensures var row := s.db.rows[s.workers[w].job];
            (row.status == Running || row.status == Dead) && row.attempt == s.workers[w].attempt
  {
    assert WorkerOk(s.db, s.past, s.workers[w]);
  }

  lemma FinishedIsNotWritten(s: State, step: Step, id: JobId)
    requires WorkersOk(s.db, s.past, s.workers) && PhaseOk(s) && Enabled(s, step)
    requires id in s.db.rows && Finished(s.db.rows[id].status)
    ensures !Writes(s, step, id)
  {
    match step
    case Finish(w, _) => if s.workers[w].job == id { HeldRow(s, w); }
    case Retry(w, _, _, _) => if s.workers[w].job == id { HeldRow(s, w); }
    case _ =>
  }

  /** An id once issued is never inserted again. */
  lemma NoRevival(s: State, step: Step, id: JobId)
    requires Enabled(s, step) && id in s.past
    ensures id in NextPast(s, step) && (id !in s.db.rows ==> id !in NextDb(s, step).rows)
  {
    match step
    case _ =>
  }

  /** The row of an issued job is gone or finished. */
  ghost predicate Settled(s: State, id: JobId) {
    id in s.past && (id in s.db.rows ==> Finished(s.db.rows[id].status))
  }

  lemma SettledStep(s: State, step: Step, id: JobId)
    requires Inv(s) && Enabled(s, step) && Settled(s, id)
    ensures Settled(Apply(s, step), id)
    ensures id in Apply(s, step).db.rows ==> id in s.db.rows && Apply(s, step).db.rows[id] == s.db.rows[id]
  {
    NoRevival(s, step, id);
    if id in s.db.rows {
      FinishedIsNotWritten(s, step, id);
      OtherRowsStay(s, step, id);
    }
  }

  lemma NextSettled(states: seq<State>, steps: seq<Step>, i: nat, id: JobId)
    requires IsRunFromInit(states, steps) && i < |steps| && Settled(states[i], id)
    ensures Settled(states[i + 1], id)
    ensures id in states[i + 1].db.rows ==>
              id in states[i].db.rows && states[i + 1].db.rows[id] == states[i].db.rows[id]
  {
    ReachableInv(states, steps, i);
    SettledStep(states[i], steps[i], id);
  }

  /** Succeeded, skipped, failed and timed_out are final: the row never changes again, it can
      only be pruned. */
  lemma {:induction false} FinishedIsFinal(states: seq<State>, steps: seq<Step>, i: nat, k: nat, id: JobId)
    requires IsRunFromInit(states, steps) && i <= k < |states|
    requires id in states[i].db.rows && Finished(states[i].db.rows[id].status)
    ensures Settled(states[k], id)
    ensures id in states[k].db.rows ==> states[k].db.rows[id] == states[i].db.rows[id]
  {
    if i < k {
      var j := k - 1;
      FinishedIsFinal(states, steps, i, j, id);
      NextSettled(states, steps, j, id);
      assert j + 1 == k;
    } else {
      ReachableInv(states, steps, k);
      assert states[k].db.rows.Keys <= states[k].past.Keys;
    }
  }

  // ---------------------------------------------------------------- the transition log

  /** In every reachable state the transitions of each job form a connected walk from queued
      along legal edges that ends in the row's status. */
  lemma LogMatchesRows(states: seq<State>, steps: seq<Step>, i: nat)
    requires IsRunFromInit(states, steps) && i < |states|
    ensures Connected(states[i].db.log)
    ensures forall id :: id in states[i].db.rows ==>
                           LastStatus(states[i].db.log, id) == Some(states[i].db.rows[id].status)
    ensures forall t :: t in states[i].db.log ==>
              match t.from
              case None => t.to == Queued
              case Some(Queued) => t.to == Running || t.to == Dead
              case Some(Running) => t.to != Running
              case Some(Dead) => t.to != Running && t.to != Dead
              case Some(_) => false
  {
    ReachableInv(states, steps, i);
    var log := states[i].db.log;
    forall t | t in log
      ensures Legal(t.from, t.to)
    {
      var k :| 0 <= k < |log| && log[k] == t;
      assert Follows(log, k);
    }
  }

  /** Since step j, which cancelled the running job under its worker w, the row has been dead
      and w has still been executing. */
  ghost predicate CancelledUnder(states: seq<State>, steps: seq<Step>, j: nat, k: nat, w: WorkerId, id: JobId) {
    j < k < |states| && k <= |steps| && steps[j].CancelJobs? && id in steps[j].order &&
    id in states[j].db.rows && states[j].db.rows[id].status == Running && Executes(states[j].workers, w, id) &&
    forall m :: j < m <= k ==>
                  Executes(states[m].workers, w, id) && id in states[m].db.rows && states[m].db.rows[id].status == Dead
  }

  /** A worker that still executes after the step executed before, unless it has just claimed. */
  lemma ExecutedBefore(s: State, step: Step, w: WorkerId, id: JobId)
    requires Enabled(s, step) && Executes(Control(s, step).workers, w, id)
    ensures Executes(s.workers, w, id) || ClaimsJob(step, id)
    ensures step.Finish? || step.Retry? ==> step.w != w
  {
    match step
    case _ =>
  }

  lemma WorkerOfDeadStep(s: State, step: Step, w: WorkerId, id: JobId)
    requires WorkersOk(s.db, s.past, s.workers) && PhaseOk(s) && Enabled(s, step)
    requires step.ClaimNext? ==> (step.id, s.db.rows[step.id].attempt) !in s.db.attempts
    requires id in s.db.rows && id in NextDb(s, step).rows && NextDb(s, step).rows[id].status == Dead
    requires Executes(Control(s, step).workers, w, id)
    ensures Executes(s.workers, w, id)
    ensures s.db.rows[id].status == Dead || (s.db.rows[id].status == Running && step.CancelJobs? && id in step.order)
  {
    ExecutedBefore(s, step, w, id);
    assert Executes(s.workers, w, id) ==> WorkerOk(s.db, s.past, s.workers[w]);
    if !Writes(s, step, id) {
      OtherRowsStay(s, step, id);
    } else if step.Finish? || step.Retry? {
      assert Executes(s.workers, step.w, id);
    }
  }

  lemma NotBornDead(s: State, step: Step, id: JobId)
    requires Enabled(s, step) && id in NextDb(s, step).rows && NextDb(s, step).rows[id].status != Queued
    ensures id in s.db.rows
  {
    match step
    case _ =>
  }

  lemma DeadStep(s: State, step: Step, w: WorkerId, id: JobId)
    requires Inv(s) && Enabled(s, step)
    requires var s' := Apply(s, step);
             Executes(s'.workers, w, id) && id in s'.db.rows && s'.db.rows[id].status == Dead
    ensures Executes(s.workers, w, id) && id in s.db.rows
    ensures s.db.rows[id].status == Dead || (s.db.rows[id].status == Running && step.CancelJobs? && id in step.order)
  {
    StepKeepsInv(s, step);
    NotBornDead(s, step, id);
    WorkerOfDeadStep(s, step, w, id);
  }

  lemma {:induction false} WorkerOfDead(states: seq<State>, steps: seq<Step>, k: nat, w: WorkerId, id: JobId)
    returns (j: nat)
    requires IsRunFromInit(states, steps) && k < |states|
    requires Executes(states[k].workers, w, id) && id in states[k].db.rows && states[k].db.rows[id].status == Dead
    ensures CancelledUnder(states, steps, j, k, w, id)
  {
    assert Init(states[0]) && k > 0;
    var i := k - 1;
    NextDead(states, steps, i, w, id);
    if states[i].db.rows[id].status == Dead {
      j := WorkerOfDead(states, steps, i, w, id);
    } else {
      j := i;
    }
    assert i + 1 == k;
  }

  /** A worker that executes a dead row did so before the step, on a dead row or on one just cancelled. */
  lemma NextDead(states: seq<State>, steps: seq<Step>, i: nat, w: WorkerId, id: JobId)
    requires IsRunFromInit(states, steps) && i < |steps|
    requires Executes(states[i + 1].workers, w, id)
    requires id in states[i + 1].db.rows && states[i + 1].db.rows[id].status == Dead
    ensures Executes(states[i].workers, w, id) && id in states[i].db.rows
    ensures states[i].db.rows[id].status == Dead ||
            (states[i].db.rows[id].status == Running && steps[i].CancelJobs? && id in steps[i].order)
  {
    ReachableInv(states, steps, i);
    DeadStep(states[i], steps[i], w, id);
  }

  lemma DeadLeavingStep(s: State, step: Step, id: JobId)
    requires WorkersOk(s.db, s.past, s.workers) && PhaseOk(s) && Enabled(s, step)
    requires id in s.db.rows && s.db.rows[id].status == Dead
    requires id in NextDb(s, step).rows && NextDb(s, step).rows[id].status != Dead
    ensures (step.Finish? || step.Retry?) && Executes(s.workers, step.w, id)
  {
    if !Writes(s, step, id) {
      OtherRowsStay(s, step, id);
    }
  }

  /** Dead is left only by the worker that was executing the job when it was cancelled. */
  lemma DeadIsLeftByItsWorker(states: seq<State>, steps: seq<Step>, k: nat, id: JobId) returns (w: WorkerId, j: nat)
    requires IsRunFromInit(states, steps) && k < |steps|
    requires id in states[k].db.rows && states[k].db.rows[id].status == Dead
    requires id in states[k + 1].db.rows && states[k + 1].db.rows[id].status != Dead
    ensures (steps[k].Finish? || steps[k].Retry?) && steps[k].w == w
    ensures CancelledUnder(states, steps, j, k, w, id)
  {
    ReachableInv(states, steps, k);
    DeadLeavingStep(states[k], steps[k], id);
    w := steps[k].w;
    j := WorkerOfDead(states, steps, k, w, id);
  }

  /** The step is possible and takes the row of this job to another status than dead. */
  ghost predicate LeavesDead(s: State, step: Step, id: JobId) {
    Enabled(s, step) && id in NextDb(s, step).rows && NextDb(s, step).rows[id].status != Dead
  }

  /** The worker under which a job was cancelled can still write its result. */
  lemma WorkerLeavesDead(s: State, w: WorkerId, id: JobId)
    requires WorkersOk(s.db, s.past, s.workers) && Executes(s.workers, w, id) && id in s.db.rows
    ensures LeavesDead(s, Finish(w, Succeeded), id)
    ensures NextDb(s, Finish(w, Succeeded)).rows[id].status == Succeeded
  {
  }

  /** So a dead row can be left exactly while some worker executes its job. */
  lemma DeadCanBeLeftIff(s: State, id: JobId)
    requires Inv(s) && id in s.db.rows && s.db.rows[id].status == Dead
    ensures (exists step :: LeavesDead(s, step, id)) <==> exists w :: Executes(s.workers, w, id)
  {
    if step :| LeavesDead(s, step, id) {
      DeadLeavingStep(s, step, id);
    }
    if w :| Executes(s.workers, w, id) {
      WorkerLeavesDead(s, w, id);
    }
  }

  // ---------------------------------------------------------------- lanes and exclusion

  /** Distinct running rows have distinct executing workers. */
  lemma {:induction false} RunningFitsWorkers(running: set<JobId>, workers: map<WorkerId, Worker>)
    requires forall id :: id in running ==> exists w :: Executes(workers, w, id)
    ensures |running| <= |workers|
  {
    if running != {} {
      var id :| id in running;
      var w :| Executes(workers, w, id);
      forall j | j in running - {id}
        ensures exists v :: Executes(workers - {w}, v, j)
      {
        var v :| Executes(workers, v, j);
        assert Executes(workers - {w}, v, j);
      }
      RunningFitsWorkers(running - {id}, workers - {w});
      assert (workers - {w}).Keys == workers.Keys - {w};
      assert |(workers - {w}).Keys| == |workers - {w}| && |workers.Keys| == |workers|;
    }
  }

  lemma RecoveryStartsNothing(s: State, step: Step)
    requires Enabled(s, step) && Control(s, step).recovering
    ensures RunningRows(NextDb(s, step).rows) <= RunningRows(s.db.rows) && Control(s, step).cfg == s.cfg
  {
    match step
    case _ =>
  }

  lemma NextStartsNothing(states: seq<State>, steps: seq<Step>, i: nat)
    requires IsRun(states, steps) && i < |steps| && states[i + 1].recovering
    ensures RunningRows(states[i + 1].db.rows) <= RunningRows(states[i].db.rows) && states[i + 1].cfg == states[i].cfg
  {
    RecoveryStartsNothing(states[i], steps[i]);
  }

  /** The running rows of some plugins. */
  ghost function RunningOf(s: State, plugins: set<string>): set<JobId> {
    set j | j in s.db.rows && s.db.rows[j].status == Running && s.db.rows[j].plugin in plugins
  }

  /** Running rows never exceed a plugin's parallelism nor, in total, the worker limit, although
      the counts are read before the claim. A finished worker can always report to the loop. */
  lemma LanesHold(states: seq<State>, steps: seq<Step>, i: nat, plugin: string)
    requires IsRunFromInit(states, steps) && i < |states|
    ensures var cfg := states[i].cfg;
            |RunningOf(states[i], {plugin})| <=
            if plugin in cfg.parallelism && cfg.parallelism[plugin] > 0 then cfg.parallelism[plugin] else 1
    ensures var cfg := states[i].cfg;
            forall plugins :: |RunningOf(states[i], plugins)| <= if cfg.maxWorkers > 0 then cfg.maxWorkers else 1
    ensures forall w :: IsAt(states[i], w, Leaving) ==> Enabled(states[i], Leave(w))
  {
    LanesWithin(states, steps, i);
    var rows := states[i].db.rows;
    assert Lane(rows, plugin) == RunningOf(states[i], {plugin});
    forall plugins
      ensures |RunningOf(states[i], plugins)| <= |RunningRows(rows)|
    {
      SubsetSize(RunningOf(states[i], plugins), RunningRows(rows));
    }
  }

  /** And no lane is held back below its limit: with a free worker the loop counts, and then skips
      exactly the plugins that have as many running rows as their limit. */
  lemma LaneSkippedIff(states: seq<State>, steps: seq<Step>, i: nat, plugin: string)
    requires IsRunFromInit(states, steps) && i < |steps| && steps[i] == CountLanes
    ensures states[i + 1].filling.Some?
    ensures var cfg := states[i].cfg;
            plugin in states[i + 1].filling.value <==>
            |RunningOf(states[i], {plugin})| >=
            if plugin in cfg.parallelism && cfg.parallelism[plugin] > 0 then cfg.parallelism[plugin] else 1
  {
    var rows := states[i].db.rows;
    assert Lane(rows, plugin) == RunningOf(states[i], {plugin});
    if Lane(rows, plugin) != {} {
      var j :| j in Lane(rows, plugin);
      assert rows[j].plugin == plugin;
    }
  }

  /** The loop may count whenever it is up, not already counting, and has a worker to spare. */
  lemma CountsWithFreeWorker(states: seq<State>, steps: seq<Step>, i: nat)
    requires IsRunFromInit(states, steps) && i < |states| && !states[i].recovering && states[i].filling.None?
    ensures var s := states[i];
            Enabled(s, CountLanes) <==>
            |s.workers| + s.doneChan < if s.cfg.maxWorkers > 0 then s.cfg.maxWorkers else 1
  {
    ReachableInv(states, steps, i);
  }

  /** The configuration in force is the one of the latest start. */
  lemma ConfigIs(s: State, step: Step)
    requires Enabled(s, step)
    ensures Apply(s, step).cfg == if step.Restart? then step.cfg else s.cfg
  {
    match step
    case _ =>
  }

  lemma {:induction false} LanesWithin(states: seq<State>, steps: seq<Step>, i: nat)
    requires IsRunFromInit(states, steps) && i < |states|
    ensures forall p :: |Lane(states[i].db.rows, p)| <= PluginParallelism(states[i].cfg, p)
    ensures |RunningRows(states[i].db.rows)| <= MaxWorkers(states[i].cfg)
    ensures forall w :: IsAt(states[i], w, Leaving) ==> Enabled(states[i], Leave(w))
  {
    ReachableInv(states, steps, i);
    var s := states[i];
    forall w | IsAt(s, w, Leaving)
      ensures s.doneChan < MaxWorkers(s.cfg)
    {
      assert |s.workers| > 0;
    }
    if !s.recovering {
      RunningFitsWorkers(RunningRows(s.db.rows), s.workers);
    } else if i > 0 {
      var j := i - 1;
      LanesWithin(states, steps, j);
      NextStartsNothing(states, steps, j);
      assert j + 1 == i;
      SubsetSize(RunningRows(s.db.rows), RunningRows(states[j].db.rows));
    } else {
      assert RunningRows(s.db.rows) == {};
    }
  }

  /** At most one job runs per concurrency key and target; routed children are unique per
      (parent, event, target). */
  lemma RowsStayApart(states: seq<State>, steps: seq<Step>, k: nat, i: JobId, j: JobId)
    requires IsRunFromInit(states, steps) && k < |states|
    requires i in states[k].db.rows && j in states[k].db.rows && i != j
    ensures var a, b := states[k].db.rows[i], states[k].db.rows[j];
            !(a.status == Running && b.status == Running && a.dedupeKey.Some? && a.dedupeKey == b.dedupeKey &&
              a.plugin == b.plugin && a.command == b.command) &&
            !(a.parent.Some? && a.sourceEvent.Some? && a.parent == b.parent && a.sourceEvent == b.sourceEvent &&
              a.plugin == b.plugin && a.command == b.command) && a.rowid != b.rowid
  {
    ReachableInv(states, steps, k);
    assert Apart(states[k].db.rows, i, j);
  }
}
