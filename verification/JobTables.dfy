/** The job tables as values: job_queue, job_transitions, job_attempts and job_log, with one
    function per SQL transaction. Clocks and generated ids are parameters. */
module JobTables {
  import opened Base

  /** A job id; the program draws a random UUID. */
  type JobId = nat

  datatype Status = Queued | Running | Succeeded | Skipped | Failed | TimedOut | Dead {
    predicate Outstanding() {
      Queued? || Running?
    }
    predicate Terminal() {
      !Outstanding()
    }
  }

  datatype Row = Row(
    plugin: string, command: string, status: Status, attempt: int, maxAttempts: int, submittedBy: string,
    dedupeKey: Option<string>, createdAt: int, rowid: nat, completedAt: Option<int>, nextRetryAt: Option<int>,
    parent: Option<JobId>, sourceEvent: Option<string>)

  datatype Transition = Transition(job: JobId, from: Option<Status>, to: Status)

  datatype Db = Db(
    rows: map<JobId, Row>, log: seq<Transition>, attempts: set<(JobId, int)>, jobLog: map<(JobId, int), Status>)

  datatype Request = Request(
    plugin: string, command: string, maxAttempts: int, submittedBy: string, dedupeKey: Option<string>,
    dedupeTtl: Option<int>, parent: Option<JobId>, sourceEvent: Option<string>)

  datatype EnqueueResult = Enqueued(id: JobId) | MissingField(field: string) | DedupeDrop | SourceEventConflict

  const DEFAULT_MAX_ATTEMPTS := 4

  // ---------------------------------------------------------------- enqueue

  /** A succeeded job of the same key and target that completed within the last ttl. */
  predicate RecentSuccess(rows: map<JobId, Row>, plugin: string, command: string, key: string, ttl: int, now: int) {
    exists j :: j in rows && IsRecentSuccess(rows[j], plugin, command, key, now - ttl)
  }

  predicate IsRecentSuccess(row: Row, plugin: string, command: string, key: string, cutoff: int) {
    row.dedupeKey == Some(key) && row.plugin == plugin && row.command == command &&
    row.status == Succeeded && row.completedAt.Some? && row.completedAt.value >= cutoff
  }

  predicate OutstandingKey(rows: map<JobId, Row>, plugin: string, command: string, key: string) {
    exists j :: j in rows && IsOutstandingKey(rows[j], plugin, command, key)
  }

  predicate IsOutstandingKey(row: Row, plugin: string, command: string, key: string) {
    row.dedupeKey == Some(key) && row.plugin == plugin && row.command == command && row.status.Outstanding()
  }

  /** The lookups that make Enqueue drop a duplicate before it inserts anything. */
  predicate Dropped(rows: map<JobId, Row>, req: Request, defaultTtl: int, now: int) {
    req.dedupeKey.Some? &&
    var key, ttl := Trim(req.dedupeKey.value), EffectiveTtl(req, defaultTtl);
    key != "" &&
    ((req.dedupeTtl.Some? && OutstandingKey(rows, req.plugin, req.command, key)) ||
     (ttl > 0 && RecentSuccess(rows, req.plugin, req.command, key, ttl, now)))
  }

  function EffectiveTtl(req: Request, defaultTtl: int): int {
    if req.dedupeTtl.Some? then req.dedupeTtl.value else defaultTtl
  }

  /** The job a drop reports: the newest outstanding one of the key, if the request asks for that
      lookup, and otherwise the latest recent success. */
  ghost predicate IsDropCause(rows: map<JobId, Row>, req: Request, defaultTtl: int, now: int, id: JobId)
    requires req.dedupeKey.Some?
  {
    var key, cutoff := Trim(req.dedupeKey.value), now - EffectiveTtl(req, defaultTtl);
    id in rows &&
    if req.dedupeTtl.Some? && OutstandingKey(rows, req.plugin, req.command, key) then
      IsOutstandingKey(rows[id], req.plugin, req.command, key) &&
      forall j :: j in rows && IsOutstandingKey(rows[j], req.plugin, req.command, key) ==> Before(rows[j], rows[id])
    else
      IsRecentSuccess(rows[id], req.plugin, req.command, key, cutoff) &&
      forall j :: j in rows && IsRecentSuccess(rows[j], req.plugin, req.command, key, cutoff) ==>
                    rows[j].completedAt.value <= rows[id].completedAt.value
  }

  /** The unique index on (parent, source event, plugin, command); rows with a null in either
      of the first two columns never clash. */
  predicate SameSource(row: Row, req: Request) {
    row.parent.Some? && row.sourceEvent.Some? && row.parent == req.parent && row.sourceEvent == req.sourceEvent &&
    row.plugin == req.plugin && row.command == req.command
  }

  predicate Clash(rows: map<JobId, Row>, req: Request) {
    exists j :: j in rows && SameSource(rows[j], req)
  }

  function NewRow(req: Request, rowid: nat, now: int): Row {
    Row(req.plugin, req.command, Queued, 1,
        if req.maxAttempts <= 0 then DEFAULT_MAX_ATTEMPTS else req.maxAttempts,
        req.submittedBy, req.dedupeKey, now, rowid, None, None, req.parent, req.sourceEvent)
  }

  /** INSERT OR IGNORE of a queued row, with its first transition when a row went in. */
  function Insert(db: Db, req: Request, id: JobId, rowid: nat, now: int): Db {
    if id in db.rows || Clash(db.rows, req) then db
    else db.(rows := db.rows[id := NewRow(req, rowid, now)], log := db.log + [Transition(id, None, Queued)])
  }

  function InsertResult(db: Db, req: Request, id: JobId): EnqueueResult {
    if (id in db.rows || Clash(db.rows, req)) && req.sourceEvent.Some? && Trim(req.sourceEvent.value) != ""
    then SourceEventConflict
    else Enqueued(id)
  }

  function Enqueue(db: Db, req: Request, id: JobId, rowid: nat, defaultTtl: int, now: int): (Db, EnqueueResult) {
    if req.plugin == "" then (db, MissingField("plugin"))
    else if req.command == "" then (db, MissingField("command"))
    else if req.submittedBy == "" then (db, MissingField("submitted_by"))
    else if Dropped(db.rows, req, defaultTtl, now) then (db, DedupeDrop)
    else (Insert(db, req, id, rowid, now), InsertResult(db, req, id))
  }

  // ---------------------------------------------------------------- dequeue

  /** Another running job holds the same key on the same target. */
  predicate KeyBusy(rows: map<JobId, Row>, row: Row) {
    exists j :: j in rows && SameKeyRunning(rows[j], row)
  }

  predicate SameKeyRunning(other: Row, row: Row) {
    other.status == Running && other.dedupeKey == row.dedupeKey && other.plugin == row.plugin &&
    other.command == row.command
  }

  predicate Eligible(rows: map<JobId, Row>, id: JobId, skip: set<string>, keys: set<string>, now: int) {
    id in rows && var row := rows[id];
    row.status == Queued && (row.nextRetryAt.Some? ==> row.nextRetryAt.value <= now) && row.plugin !in skip &&
    (row.dedupeKey.Some? ==> row.dedupeKey.value !in keys && !KeyBusy(rows, row))
  }

  /** Queue order: creation time, then row id. */
  predicate Before(a: Row, b: Row) {
    a.createdAt < b.createdAt || (a.createdAt == b.createdAt && a.rowid <= b.rowid)
  }

  /** The job a dequeue must take: eligible, and first in queue order among all eligible jobs. */
  ghost predicate IsNext(rows: map<JobId, Row>, id: JobId, skip: set<string>, keys: set<string>, now: int) {
    Eligible(rows, id, skip, keys, now) &&
    forall j :: Eligible(rows, j, skip, keys, now) ==> Before(rows[id], rows[j])
  }

  function Claim(db: Db, id: JobId): Db
    requires id in db.rows
  {
    var row := db.rows[id];
    db.(rows := db.rows[id := row.(status := Running)],
        log := db.log + [Transition(id, Some(Queued), Running)],
        attempts := db.attempts + {(id, row.attempt)})
  }

  // ---------------------------------------------------------------- cancel, retry, completion, prune

  predicate Cancellable(rows: map<JobId, Row>, id: JobId, plugin: string, command: string) {
    id in rows && rows[id].plugin == plugin && rows[id].command == command && rows[id].status.Outstanding()
  }

  function CancelledRow(row: Row, now: int): Row {
    row.(status := Dead, completedAt := Some(now))
  }

  function CancelledRows(rows: map<JobId, Row>, plugin: string, command: string, now: int): map<JobId, Row> {
    map j | j in rows :: if Cancellable(rows, j, plugin, command) then CancelledRow(rows[j], now) else rows[j]
  }

  /** The transitions a cancel records, in the order the select returned the jobs. */
  function CancelLog(rows: map<JobId, Row>, order: seq<JobId>): seq<Transition>
    requires forall j :: j in order ==> j in rows
  {
    seq(|order|, i requires 0 <= i < |order| => Transition(order[i], Some(rows[order[i]].status), Dead))
  }

  ghost predicate CancelOrder(rows: map<JobId, Row>, order: seq<JobId>, plugin: string, command: string) {
    Distinct(order) && forall j :: j in order <==> Cancellable(rows, j, plugin, command)
  }

  function Cancel(db: Db, plugin: string, command: string, order: seq<JobId>, now: int): Db
    requires forall j :: j in order ==> j in db.rows
  {
    db.(rows := CancelledRows(db.rows, plugin, command, now), log := db.log + CancelLog(db.rows, order))
  }

  function Record(log: seq<Transition>, id: JobId, from: Status, to: Status): seq<Transition> {
    if from == to then log else log + [Transition(id, Some(from), to)]
  }

  /** UpdateJobForRecovery: new status, attempt and retry time, whatever the current status is. */
  function Requeue(db: Db, id: JobId, status: Status, attempt: int, nextRetryAt: Option<int>): Db
    requires id in db.rows
  {
    var row := db.rows[id];
    db.(rows := db.rows[id := row.(status := status, attempt := attempt, nextRetryAt := nextRetryAt)],
        log := Record(db.log, id, row.status, status))
  }

  /** CompleteWithResult: terminal status and completion time, and the first log row of the attempt. */
  function Complete(db: Db, id: JobId, status: Status, now: int): Db
    requires id in db.rows
  {
    var row := db.rows[id];
    db.(rows := db.rows[id := row.(status := status, completedAt := Some(now))],
        log := Record(db.log, id, row.status, status),
        jobLog := if (id, row.attempt) in db.jobLog then db.jobLog else db.jobLog[(id, row.attempt) := status])
  }

  predicate Prunable(row: Row, cutoff: int) {
    row.status.Terminal() && row.completedAt.Some? && row.completedAt.value < cutoff
  }

  /** PruneJobQueue; a retention of zero or less switches it off. */
  function Prune(db: Db, retention: int, now: int): Db {
    if retention <= 0 then db
    else db.(rows := map j | j in db.rows && !Prunable(db.rows[j], now - retention) :: db.rows[j])
  }
}
