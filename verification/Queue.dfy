/** The queue object: the four job tables as mutable state, one method per operation of the
    program, each proved to take the tables from one value of `JobTables.Db` to the next. */
module JobQueue {
  import opened Base
  import opened JobTables

  datatype DequeueResult = NoWork | Claimed(id: JobId) | AttemptExists(id: JobId)
  datatype CancelResult = EmptyTarget(field: string) | Cancelled(count: nat)
  datatype Outcome = Done | NotFound | InvalidStatus

  class Queue {
    var rows: map<JobId, Row>
    var transitions: seq<Transition>
    var attempts: set<(JobId, int)>
    var jobLog: map<(JobId, int), Status>
    const dedupeTtl: int

    constructor (ttl: int)
      ensures Tables() == Db(map[], [], {}, map[]) && dedupeTtl == ttl
    {
      rows, transitions, attempts, jobLog, dedupeTtl := map[], [], {}, map[], ttl;
    }

    function Tables(): Db
      reads this
    {
      Db(rows, transitions, attempts, jobLog)
    }

    /** The row id of the next insert is above every row id in the table. */
    method NextRowid() returns (r: nat)
      ensures forall j :: j in rows ==> rows[j].rowid < r
      ensures r == 0 || exists j :: j in rows && rows[j].rowid + 1 == r
    {
      r := 0;
      var left := rows.Keys;
      while left != {}
        invariant left <= rows.Keys
        invariant forall j :: j in rows && j !in left ==> rows[j].rowid < r
        invariant r == 0 || exists j :: j in rows && rows[j].rowid + 1 == r
        decreases |left|
      {
        var j :| j in left;
        left := left - {j};
        if r <= rows[j].rowid {
          r := rows[j].rowid + 1;
        }
      }
    }

    method FindOutstandingByDedupeKey(plugin: string, command: string, key: string) returns (best: Option<JobId>)
      ensures best.Some? <==> OutstandingKey(rows, plugin, command, key)
      ensures best.Some? ==> best.value in rows && IsOutstandingKey(rows[best.value], plugin, command, key)
      ensures best.Some? ==> forall j :: j in rows && IsOutstandingKey(rows[j], plugin, command, key) ==>
                                           Before(rows[j], rows[best.value])
    {
      best := None;
      var left := rows.Keys;
      while left != {}
        invariant left <= rows.Keys
        invariant best.Some? ==> best.value in rows && IsOutstandingKey(rows[best.value], plugin, command, key)
        invariant forall j :: j in rows && j !in left && IsOutstandingKey(rows[j], plugin, command, key) ==>
                                best.Some? && Before(rows[j], rows[best.value])
        decreases |left|
      {
        var j :| j in left;
        left := left - {j};
        if IsOutstandingKey(rows[j], plugin, command, key) && (best.None? || Before(rows[best.value], rows[j])) {
          best := Some(j);
        }
      }
    }

    method FindRecentSucceededByDedupeKey(plugin: string, command: string, key: string, ttl: int, now: int)
      returns (best: Option<JobId>)
      ensures best.Some? <==> RecentSuccess(rows, plugin, command, key, ttl, now)
      ensures best.Some? ==> best.value in rows && IsRecentSuccess(rows[best.value], plugin, command, key, now - ttl)
      ensures best.Some? ==> forall j :: j in rows && IsRecentSuccess(rows[j], plugin, command, key, now - ttl) ==>
                                           rows[j].completedAt.value <= rows[best.value].completedAt.value
    {
      best := None;
      var left := rows.Keys;
      while left != {}
        invariant left <= rows.Keys
        invariant best.Some? ==>
                    best.value in rows && IsRecentSuccess(rows[best.value], plugin, command, key, now - ttl)
        invariant forall j :: j in rows && j !in left && IsRecentSuccess(rows[j], plugin, command, key, now - ttl) ==>
                                best.Some? && rows[j].completedAt.value <= rows[best.value].completedAt.value
        decreases |left|
      {
        var j :| j in left;
        left := left - {j};
        if IsRecentSuccess(rows[j], plugin, command, key, now - ttl) &&
           (best.None? || rows[best.value].completedAt.value < rows[j].completedAt.value) {
          best := Some(j);
        }
      }
    }

    /** The two lookups of a request, and the job that makes it a duplicate, if any. */
    method FindDuplicate(req: Request, now: int) returns (existing: Option<JobId>)
      ensures existing.Some? <==> Dropped(rows, req, dedupeTtl, now)
      ensures existing.Some? ==> IsDropCause(rows, req, dedupeTtl, now, existing.value)
    {
      existing := None;
      if req.dedupeKey.Some? && Trim(req.dedupeKey.value) != "" {
        var key, ttl := Trim(req.dedupeKey.value), EffectiveTtl(req, dedupeTtl);
        if req.dedupeTtl.Some? {
          existing := FindOutstandingByDedupeKey(req.plugin, req.command, key);
        }
        if existing.None? && ttl > 0 {
          existing := FindRecentSucceededByDedupeKey(req.plugin, req.command, key, ttl, now);
        }
      }
    }

    /** A drop names the job that caused it. */
    method Enqueue(req: Request, id: JobId, now: int) returns (result: EnqueueResult, existing: Option<JobId>)
      modifies this
      ensures exists rowid: nat ::
                (forall j :: j in old(rows) ==> old(rows)[j].rowid < rowid) &&
                (Tables(), result) == JobTables.Enqueue(old(Tables()), req, id, rowid, dedupeTtl, now)
      ensures existing.Some? <==> result.DedupeDrop?
      ensures existing.Some? ==> req.dedupeKey.Some? && IsDropCause(old(rows), req, dedupeTtl, now, existing.value)
    {
      var rowid := NextRowid();
      ghost var before := Tables();
      existing := None;
      if req.plugin == "" {
        result := MissingField("plugin");
      } else if req.command == "" {
        result := MissingField("command");
      } else if req.submittedBy == "" {
        result := MissingField("submitted_by");
      } else {
        existing := FindDuplicate(req, now);
        if existing.Some? {
          result := DedupeDrop;
        } else {
          result := InsertJob(req, id, rowid, now);
        }
      }
      assert (Tables(), result) == JobTables.Enqueue(before, req, id, rowid, dedupeTtl, now);
    }

    /** The transaction of an enqueue. */
    method InsertJob(req: Request, id: JobId, rowid: nat, now: int) returns (result: EnqueueResult)
      modifies this
      ensures Tables() == Insert(old(Tables()), req, id, rowid, now)
      ensures result == InsertResult(old(Tables()), req, id)
    {
      var ignored := id in rows || Clash(rows, req);
      if ignored && req.sourceEvent.Some? && Trim(req.sourceEvent.value) != "" {
        return SourceEventConflict;
      }
      if !ignored {
        rows := rows[id := NewRow(req, rowid, now)];
        transitions := transitions + [Transition(id, None, Queued)];
      }
      result := Enqueued(id);
    }

    /** Claims the first eligible job in queue order; finds nothing only when nothing is eligible. */
    method DequeueEligible(skip: set<string>, keys: set<string>, now: int) returns (result: DequeueResult)
      modifies this
      ensures result.NoWork? ==>
                Tables() == old(Tables()) && forall j :: !Eligible(old(rows), j, skip, keys, now)
      ensures !result.NoWork? ==> IsNext(old(rows), result.id, skip, keys, now)
      ensures result.AttemptExists? ==>
                Tables() == old(Tables()) && (result.id, old(rows)[result.id].attempt) in old(attempts)
      ensures result.Claimed? ==>
                Tables() == Claim(old(Tables()), result.id) &&
                (result.id, old(rows)[result.id].attempt) !in old(attempts)
    {
      var best: Option<JobId> := None;
      var left := rows.Keys;
      while left != {}
        invariant left <= rows.Keys
        invariant best.None? ==> forall j :: j in rows && j !in left ==> !Eligible(rows, j, skip, keys, now)
        invariant best.Some? ==> best.value in rows && Eligible(rows, best.value, skip, keys, now)
        invariant best.Some? ==> forall j :: j in rows && j !in left && Eligible(rows, j, skip, keys, now) ==>
                                               Before(rows[best.value], rows[j])
        decreases |left|
      {
        var j :| j in left;
        left := left - {j};
        if Eligible(rows, j, skip, keys, now) && (best.None? || Before(rows[j], rows[best.value])) {
          best := Some(j);
        }
      }
      if best.None? {
        return NoWork;
      }
      var id := best.value;
      var row := rows[id];
      if (id, row.attempt) in attempts {
        return AttemptExists(id);
      }
      rows := rows[id := row.(status := Running)];
      transitions := transitions + [Transition(id, Some(Queued), Running)];
      attempts := attempts + {(id, row.attempt)};
      result := Claimed(id);
    }

    /** Marks every queued or running job of one target dead and records each transition. */
    method CancelOutstandingJobs(plugin: string, command: string, now: int) returns (result: CancelResult)
      modifies this
      ensures result == EmptyTarget("plugin") <==> plugin == ""
      ensures result == EmptyTarget("command") <==> plugin != "" && command == ""
      ensures plugin == "" || command == "" ==> Tables() == old(Tables())
      ensures plugin != "" && command != "" ==>
                exists order ::
                  CancelOrder(old(rows), order, plugin, command) && result == Cancelled(|order|) &&
                  Tables() == Cancel(old(Tables()), plugin, command, order, now)
    {
      if plugin == "" {
        return EmptyTarget("plugin");
      }
      if command == "" {
        return EmptyTarget("command");
      }
      ghost var before := Tables();
      var order: seq<JobId> := [];
      var left := rows.Keys;
      while left != {}
        invariant left <= rows.Keys && Tables() == before
        invariant Distinct(order)
        invariant forall j :: j in order <==> (j !in left && Cancellable(rows, j, plugin, command))
        decreases |left|
      {
        var j :| j in left;
        left := left - {j};
        if Cancellable(rows, j, plugin, command) {
          order := order + [j];
        }
      }
      result := Cancelled(|order|);
      var i := 0;
      while i < |order|
        invariant 0 <= i <= |order|
        invariant Tables() == before.(log := before.log + CancelLog(before.rows, order)[..i])
      {
        transitions := transitions + [Transition(order[i], Some(rows[order[i]].status), Dead)];
        i := i + 1;
      }
      rows := CancelledRows(rows, plugin, command, now);
      assert CancelLog(before.rows, order)[..|order|] == CancelLog(before.rows, order);
      assert CancelOrder(before.rows, order, plugin, command);
    }

    method UpdateJobForRecovery(id: JobId, status: Status, attempt: int, nextRetryAt: Option<int>)
      returns (outcome: Outcome)
      modifies this
      ensures outcome == if id in old(rows) then Done else NotFound
      ensures Tables() == if id in old(rows) then Requeue(old(Tables()), id, status, attempt, nextRetryAt)
                          else old(Tables())
      ensures id in old(rows) ==>
                var row := old(rows)[id];
                rows == old(rows)[id := row.(status := status, attempt := attempt, nextRetryAt := nextRetryAt)]
    {
      if id !in rows {
        return NotFound;
      }
      var row := rows[id];
      if row.status != status {
        transitions := transitions + [Transition(id, Some(row.status), status)];
      }
      rows := rows[id := row.(status := status, attempt := attempt, nextRetryAt := nextRetryAt)];
      outcome := Done;
    }

    method CompleteWithResult(id: JobId, status: Status, now: int) returns (outcome: Outcome)
      modifies this
      ensures outcome == if status.Outstanding() then InvalidStatus else if id in old(rows) then Done else NotFound
      ensures Tables() == if outcome.Done? then Complete(old(Tables()), id, status, now) else old(Tables())
      ensures forall k :: k in old(jobLog) ==> k in jobLog && jobLog[k] == old(jobLog)[k]
    {
      if status.Outstanding() {
        return InvalidStatus;
      }
      if id !in rows {
        return NotFound;
      }
      var row := rows[id];
      if row.status != status {
        transitions := transitions + [Transition(id, Some(row.status), status)];
      }
      rows := rows[id := row.(status := status, completedAt := Some(now))];
      if (id, row.attempt) !in jobLog {
        jobLog := jobLog[(id, row.attempt) := status];
      }
      outcome := Done;
    }

    method PruneJobQueue(retention: int, now: int)
      modifies this
      ensures Tables() == Prune(old(Tables()), retention, now)
      ensures forall j :: j in rows <==>
                            j in old(rows) && !(retention > 0 && Prunable(old(rows)[j], now - retention))
      ensures forall j :: j in rows ==> rows[j] == old(rows)[j]
    {
      if retention > 0 {
        rows := map j | j in rows && !Prunable(rows[j], now - retention) :: rows[j];
      }
    }
  }
}
