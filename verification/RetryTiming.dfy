/** When a failed or orphaned job is tried again, over whole runs. */
module RetryTiming {
  import opened Base
  import opened JobTables
  import opened JobFacts
  import opened RetryPolicy
  import opened Protocol
  import opened ProtocolInvariant
  import opened JobSafety

  // ---------------------------------------------------------------- the decision

  /** A retry is decided exactly when the exit code is not 78, the plugin did not answer an error with
      a veto, and the attempt is below the first positive one of job limit, plugin limit and 4. */
  lemma RetryDecidedIff(failure: Failure, attempt: int, jobMax: int, pluginMax: Option<int>)
    ensures var d := Decide(failure, attempt, jobMax, pluginMax);
            var limit := if jobMax > 0 then jobMax
                         else match pluginMax case Some(n) => (if n > 0 then n else 4) case None => 4;
            (d.retryable <==> failure.exitCode != 78 && !(failure.answeredError && failure.retryHint == Some(false))) &&
            (d.exhausted <==> d.retryable && attempt >= limit) &&
            (ShouldRetry(d) <==> d.retryable && attempt < limit)
  {
  }

  /** The plugin run failed in a way that may be tried again. */
  predicate MayRetry(failure: Failure) {
    failure.exitCode != 78 && (failure.answeredError ==> failure.retryHint != Some(false))
  }

  /** Over any run, a worker whose plugin failed can have its job retried exactly while the failure
      allows it and the job was started less often than its attempt limit. */
  lemma RetryableIff(states: seq<State>, steps: seq<Step>, i: nat, w: WorkerId, failure: Failure,
                     pluginMax: Option<int>, delay: int)
    requires IsRunFromInit(states, steps) && i < |states| && IsAt(states[i], w, Executing)
    ensures var id := states[i].workers[w].job;
            id in states[i].past &&
            (Enabled(states[i], Retry(w, failure, pluginMax, delay)) <==>
             MayRetry(failure) && Claims(steps[..i], id) < states[i].past[id].maxAttempts)
  {
    ReachableInv(states, steps, i);
    var worker := states[i].workers[w];
    assert WorkerOk(states[i].db, states[i].past, worker);
    StartsAreBounded(states, steps, i, worker.job);
    RetryDecidedIff(failure, worker.attempt, worker.maxAttempts, pluginMax);
  }

  /** Crash recovery queues an orphan again, to be claimed at once, exactly while it was started less
      often than its attempt limit, and gives up on it otherwise. */
  lemma OrphanRequeuedIff(states: seq<State>, steps: seq<Step>, i: nat)
    requires IsRunFromInit(states, steps) && i < |steps| && steps[i].Recover?
    ensures var id := steps[i].id;
            id in states[i].past && id in states[i + 1].db.rows &&
            var row := states[i + 1].db.rows[id];
            row.nextRetryAt == None &&
            row.status == if Claims(steps[..i], id) < states[i].past[id].maxAttempts then Queued else Dead
  {
    ReachableInv(states, steps, i);
    AttemptNumber(states, steps, i, steps[i].id);
    StartsAreBounded(states, steps, i, steps[i].id);
  }

  // ---------------------------------------------------------------- the delay

  /** The row as a retry leaves it: queued until some time. */
  ghost predicate WaitsUntil(s: State, id: JobId, time: int) {
    id in s.db.rows && s.db.rows[id].status == Queued && s.db.rows[id].nextRetryAt == Some(time)
  }

  lemma RetryWaits(s: State, step: Step)
    requires Enabled(s, step) && step.Retry? && s.workers[step.w].job in s.db.rows
    ensures WaitsUntil(Apply(s, step), s.workers[step.w].job, s.now + step.delay)
  {
  }

  lemma WaitStays(s: State, step: Step, id: JobId, time: int)
    requires Enabled(s, step) && WaitsUntil(s, id, time) && !Writes(s, step, id)
    ensures WaitsUntil(Apply(s, step), id, time)
  {
    OtherRowsStay(s, step, id);
  }

  /** Step i retries the job, whose row is there, and no step since then wrote that row. */
  ghost predicate RetriedAt(states: seq<State>, steps: seq<Step>, i: nat, k: nat, id: JobId) {
    IsRunFromInit(states, steps) && i < k < |states| && steps[i].Retry? && states[i].workers[steps[i].w].job == id &&
    id in states[i].db.rows && forall m :: i < m < k ==> !Writes(states[m], steps[m], id)
  }

  lemma NextWaits(states: seq<State>, steps: seq<Step>, i: nat, id: JobId, time: int)
    requires IsRun(states, steps) && i < |steps| && WaitsUntil(states[i], id, time) && !Writes(states[i], steps[i], id)
    ensures WaitsUntil(states[i + 1], id, time)
  {
    WaitStays(states[i], steps[i], id, time);
  }

  lemma {:induction false} StillWaits(states: seq<State>, steps: seq<Step>, i: nat, k: nat, id: JobId)
    requires RetriedAt(states, steps, i, k, id)
    ensures WaitsUntil(states[k], id, states[i].now + steps[i].delay)
    decreases k
  {
    var j := k - 1;
    if j == i {
      RetryWaits(states[i], steps[i]);
    } else {
      StillWaits(states, steps, i, j, id);
      NextWaits(states, steps, j, id, states[i].now + steps[i].delay);
    }
    assert j + 1 == k;
  }

  /** A retried job is not started again before its delay is over. */
  lemma NotBeforeDelay(states: seq<State>, steps: seq<Step>, i: nat, k: nat, id: JobId)
    requires RetriedAt(states, steps, i, k, id) && k < |steps| && steps[k].ClaimNext? && steps[k].id == id
    ensures states[k].now >= states[i].now + steps[i].delay
  {
    StillWaits(states, steps, i, k, id);
  }

  /** The dispatch loop is about to claim, and neither the lane nor the key of this row is taken. */
  ghost predicate Free(s: State, row: Row) {
    !s.recovering && s.filling.Some? && row.plugin !in s.filling.value &&
    (row.dedupeKey.Some? ==>
       forall j :: j in s.db.rows && s.db.rows[j].status == Running && s.db.rows[j].dedupeKey == row.dedupeKey ==>
                     s.db.rows[j].plugin != row.plugin || s.db.rows[j].command != row.command)
  }

  /** Once it is over, with lane and key free, the job is offered: the loop does not end with nothing
      found, and it takes this job if every other queued row is younger. */
  lemma OfferedAfterDelay(states: seq<State>, steps: seq<Step>, i: nat, k: nat, id: JobId, w: WorkerId)
    requires RetriedAt(states, steps, i, k, id) && w !in states[k].workers
    requires id in states[k].db.rows ==> Free(states[k], states[k].db.rows[id])
    requires states[k].now >= states[i].now + steps[i].delay
    ensures id in states[k].db.rows && !Enabled(states[k], FindNothing)
    ensures (forall j :: j in states[k].db.rows && j != id && states[k].db.rows[j].status == Queued ==>
               Older(states[k].db.rows[id], states[k].db.rows[j])) ==>
            Enabled(states[k], ClaimNext(w, id))
  {
    StillWaits(states, steps, i, k, id);
    ReadyIsOffered(states[k], id, w);
  }

  // ---------------------------------------------------------------- the queue order

  /** Created earlier, or at the same time and inserted earlier. */
  predicate Older(a: Row, b: Row) {
    a.createdAt < b.createdAt || (a.createdAt == b.createdAt && a.rowid < b.rowid)
  }

  /** Queued, and not before its retry time. */
  predicate Ready(row: Row, now: int) {
    row.status == Queued && match row.nextRetryAt case None => true case Some(t) => t <= now
  }

  lemma ReadyIsOffered(s: State, id: JobId, w: WorkerId)
    requires id in s.db.rows && Ready(s.db.rows[id], s.now) && Free(s, s.db.rows[id]) && w !in s.workers
    ensures !Enabled(s, FindNothing)
    ensures (forall j :: j in s.db.rows && j != id && s.db.rows[j].status == Queued ==>
               Older(s.db.rows[id], s.db.rows[j])) ==> Enabled(s, ClaimNext(w, id))
  {
    assert Eligible(s.db.rows, id, s.filling.value, {}, s.now);
  }

  /** What the loop claims is ready, has its lane and key free, and is older than every other job of
      which that is true. */
  lemma ClaimsOldestReady(states: seq<State>, steps: seq<Step>, k: nat, id: JobId)
    requires IsRunFromInit(states, steps) && k < |steps| && steps[k].ClaimNext? && id in states[k].db.rows
    requires Ready(states[k].db.rows[id], states[k].now) && Free(states[k], states[k].db.rows[id]) && id != steps[k].id
    ensures var claimed := states[k].db.rows[steps[k].id];
            Ready(claimed, states[k].now) && Free(states[k], claimed) && Older(claimed, states[k].db.rows[id])
  {
    var s := states[k];
    ReachableInv(states, steps, k);
    assert Apart(s.db.rows, id, steps[k].id);
    assert Eligible(s.db.rows, id, s.filling.value, {}, s.now);
    ClaimedIsReady(s, steps[k]);
  }

  lemma ClaimedIsReady(s: State, step: Step)
    requires Enabled(s, step) && step.ClaimNext?
    ensures step.id in s.db.rows && Ready(s.db.rows[step.id], s.now) && Free(s, s.db.rows[step.id])
  {
    var row := s.db.rows[step.id];
    if row.dedupeKey.Some? {
      forall j | j in s.db.rows && s.db.rows[j].status == Running && s.db.rows[j].dedupeKey == row.dedupeKey
        ensures s.db.rows[j].plugin != row.plugin || s.db.rows[j].command != row.command
      {
        assert !SameKeyRunning(s.db.rows[j], row);
      }
    }
  }

  /** A dequeue may take a row that is ready, whose plugin is not skipped, and whose key, if any, is
      neither excluded nor held by a running job of the same target. */
  ghost predicate MayTake(rows: map<JobId, Row>, row: Row, skip: set<string>, keys: set<string>, now: int) {
    Ready(row, now) && row.plugin !in skip &&
    (row.dedupeKey.Some? ==>
       row.dedupeKey.value !in keys &&
       forall j :: j in rows && rows[j].status == Running && rows[j].dedupeKey == row.dedupeKey ==>
                     rows[j].plugin != row.plugin || rows[j].command != row.command)
  }

  /** A dequeue takes a job exactly if it may, and every other job it may take is not older. */
  lemma TakesIff(rows: map<JobId, Row>, id: JobId, skip: set<string>, keys: set<string>, now: int)
    ensures IsNext(rows, id, skip, keys, now) <==>
            id in rows && MayTake(rows, rows[id], skip, keys, now) &&
            forall j :: j in rows && MayTake(rows, rows[j], skip, keys, now) ==> !Older(rows[j], rows[id])
  {
    forall j | j in rows
      ensures MayTake(rows, rows[j], skip, keys, now) <==> Eligible(rows, j, skip, keys, now)
    {
      if rows[j].dedupeKey.Some? && KeyBusy(rows, rows[j]) {
        var i :| i in rows && SameKeyRunning(rows[i], rows[j]);
        assert rows[i].status == Running;
      }
      assert forall i :: i in rows && rows[i].status == Running && rows[i].dedupeKey == rows[j].dedupeKey &&
                         rows[i].plugin == rows[j].plugin && rows[i].command == rows[j].command ==>
                           SameKeyRunning(rows[i], rows[j]);
    }
    assert forall a: Row, b: Row :: Before(a, b) <==> !Older(b, a);
  }

  // ---------------------------------------------------------------- completion times

  /** A step that ends a job stamps it with the time of the step; only the first half of a recovery kill
      does not. */
  lemma EndIsStamped(s: State, step: Step, id: JobId)
    requires Enabled(s, step) && id in s.db.rows && Writes(s, step, id) && !step.Recover?
    requires id in NextDb(s, step).rows && NextDb(s, step).rows[id].status.Terminal()
    ensures NextDb(s, step).rows[id].completedAt == Some(s.now)
  {
    match step
    case _ =>
  }

  /** A cancel takes exactly the queued and running rows of its plugin and command: each is dead from now
      on, and its last transition says so. Every other row stays as it is. */
  lemma CancelTakes(states: seq<State>, steps: seq<Step>, i: nat, id: JobId)
    requires IsRunFromInit(states, steps) && i < |steps| && steps[i].CancelJobs? && id in states[i].db.rows
    ensures id in states[i + 1].db.rows
    ensures var row, row' := states[i].db.rows[id], states[i + 1].db.rows[id];
            if row.plugin == steps[i].plugin && row.command == steps[i].command &&
               (row.status == Queued || row.status == Running)
            then row' == row.(status := Dead, completedAt := Some(states[i].now)) &&
                 Transition(id, Some(row.status), Dead) in states[i + 1].db.log[|states[i].db.log|..]
            else row' == row
  {
    var rows, order := states[i].db.rows, steps[i].order;
    if Cancellable(rows, id, steps[i].plugin, steps[i].command) {
      var k :| 0 <= k < |order| && order[k] == id;
      assert CancelLog(rows, order)[k] == Transition(id, Some(rows[id].status), Dead);
      assert states[i + 1].db.log[|states[i].db.log|..] == CancelLog(rows, order);
    }
  }

  /** The log row that an attempt got first is never overwritten, by any completion on any tables. */
  lemma FirstLogRowStays(db: Db, id: JobId, status: Status, now: int, k: (JobId, int))
    requires id in db.rows && k in db.jobLog
    ensures var db' := Complete(db, id, status, now); k in db'.jobLog && db'.jobLog[k] == db.jobLog[k]
  {
  }

  /** A worker notifies only after a completion, or after a retry whose row was gone. */
  lemma NotifiesOnlyAtEnd(s: State, step: Step, w: WorkerId)
    requires Enabled(s, step) && IsAt(Control(s, step), w, Notifying) && !IsAt(s, w, Notifying)
    ensures IsAt(s, w, Executing) && (step.Finish? || step.Retry?) && step.w == w
    ensures step.Retry? ==> s.workers[w].job !in s.db.rows
  {
    match step
    case _ =>
  }
}
