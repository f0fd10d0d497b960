/** What every transaction keeps true of the job tables. */
module JobFacts {
  import opened Base
  import opened JobTables

  /** History of one job id, kept even after its row is pruned: the attempt limit it was
      created with and how often it was started. Ids are never issued twice. */
  datatype Past = Past(maxAttempts: int, starts: nat)
  type History = map<JobId, Past>

  // ---------------------------------------------------------------- transition log

  /** The status a job had after the transitions recorded so far. */
  ghost function LastStatus(log: seq<Transition>, id: JobId): Option<Status> {
    if log == [] then None
    else if log[|log| - 1].job == id then Some(log[|log| - 1].to)
    else LastStatus(log[..|log| - 1], id)
  }

  /** Jobs start queued; succeeded, skipped, failed and timed_out have no way out; dead has one. */
  predicate Legal(from: Option<Status>, to: Status) {
    match from
    case None => to == Queued
    case Some(Queued) => to == Running || to == Dead
    case Some(Running) => to != Running
    case Some(Dead) => to != Running && to != Dead
    case Some(_) => false
  }

  ghost predicate Follows(log: seq<Transition>, i: nat)
    requires i < |log|
  {
    log[i].from == LastStatus(log[..i], log[i].job) && Legal(log[i].from, log[i].to)
  }

  /** Each job's transitions form a connected walk from queued along legal edges. */
  ghost predicate Connected(log: seq<Transition>) {
    forall i: nat :: i < |log| ==> Follows(log, i)
  }

  lemma Append(log: seq<Transition>, t: Transition)
    requires Connected(log) && t.from == LastStatus(log, t.job) && Legal(t.from, t.to)
    ensures Connected(log + [t])
    ensures forall id :: LastStatus(log + [t], id) == if id == t.job then Some(t.to) else LastStatus(log, id)
  {
    var log' := log + [t];
    assert log'[..|log|] == log;
    forall i: nat | i < |log'|
      ensures Follows(log', i)
    {
      if i < |log| {
        assert Follows(log, i) && log'[..i] == log[..i];
      }
    }
  }

  // ---------------------------------------------------------------- the invariant

  /** Status, attempt number and number of starts of a job determine each other. */
  predicate AttemptOk(row: Row, starts: nat) {
    match row.status
    case Queued => row.attempt == starts + 1 <= row.maxAttempts
    case Running => row.attempt == starts
    case Dead => row.attempt == starts || row.attempt == starts + 1
    case _ => row.attempt == starts
  }

  predicate HistoryOk(rows: map<JobId, Row>, past: History) {
    (forall id :: id in rows ==>
       id in past && rows[id].maxAttempts == past[id].maxAttempts && AttemptOk(rows[id], past[id].starts) &&
       (rows[id].parent.Some? ==> rows[id].parent.value in past)) &&
    (forall id :: id in past ==> past[id].starts <= past[id].maxAttempts && 1 <= past[id].maxAttempts)
  }

  /** The attempt facts of a job are exactly 1, 2, ..., starts. */
  ghost predicate AttemptsOk(attempts: set<(JobId, int)>, past: History) {
    forall id, a :: (id, a) in attempts <==> id in past && 1 <= a <= past[id].starts
  }

  ghost predicate LogOk(log: seq<Transition>, rows: map<JobId, Row>, past: History) {
    Connected(log) &&
    (forall id :: id in rows ==> LastStatus(log, id) == Some(rows[id].status)) &&
    (forall id :: id !in past ==> LastStatus(log, id) == None)
  }

  predicate SameChild(a: Row, b: Row) {
    a.parent.Some? && a.sourceEvent.Some? && a.parent == b.parent && a.sourceEvent == b.sourceEvent &&
    a.plugin == b.plugin && a.command == b.command
  }

  /** Two rows differ in row id, are not the same routed child, and do not both run for one
      (key, target). */
  ghost predicate Apart(rows: map<JobId, Row>, i: JobId, j: JobId)
    requires i in rows && j in rows
  {
    rows[i].rowid != rows[j].rowid && !SameChild(rows[i], rows[j]) &&
    !(rows[i].dedupeKey.Some? && rows[i].status == Running && SameKeyRunning(rows[j], rows[i]))
  }

  ghost predicate KeysOk(rows: map<JobId, Row>) {
    forall i, j {:trigger Apart(rows, i, j)} :: i in rows && j in rows && i != j ==> Apart(rows, i, j)
  }

  predicate Finished(status: Status) {
    status.Terminal() && status != Dead
  }

  /** Finished jobs have their log row; jobs still to finish their attempt have none for it yet. */
  ghost predicate JobLogOk(jobLog: map<(JobId, int), Status>, rows: map<JobId, Row>, past: History) {
    (forall id, a :: (id, a) in jobLog ==> id in past) &&
    (forall id, a :: (id, a) in jobLog && id in rows ==>
       a <= rows[id].attempt && (rows[id].status.Outstanding() ==> a < rows[id].attempt)) &&
    (forall id :: id in rows && Finished(rows[id].status) ==>
       (id, rows[id].attempt) in jobLog && jobLog[(id, rows[id].attempt)] == rows[id].status)
  }

  ghost predicate FactsOk(db: Db, past: History) {
    HistoryOk(db.rows, past) && AttemptsOk(db.attempts, past) && LogOk(db.log, db.rows, past)
  }

  ghost predicate TablesOk(db: Db, past: History) {
    FactsOk(db, past) && KeysOk(db.rows) && JobLogOk(db.jobLog, db.rows, past)
  }

  // ---------------------------------------------------------------- each transaction keeps it

  function Issue(db: Db, past: History, req: Request, id: JobId): History {
    if id in db.rows || Clash(db.rows, req) then past else past[id := Past(NewRow(req, 0, 0).maxAttempts, 0)]
  }

  lemma InsertKeepsKeys(rows: map<JobId, Row>, req: Request, id: JobId, rowid: nat, now: int)
    requires KeysOk(rows) && id !in rows && !Clash(rows, req)
    requires forall j :: j in rows ==> rows[j].rowid < rowid
    ensures KeysOk(rows[id := NewRow(req, rowid, now)])
  {
    var rows' := rows[id := NewRow(req, rowid, now)];
    forall i, j | i in rows' && j in rows' && i != j
      ensures Apart(rows', i, j)
    {
      if i in rows && j in rows {
        assert Apart(rows, i, j);
      } else {
        assert i in rows ==> !SameSource(rows[i], req);
        assert j in rows ==> !SameSource(rows[j], req);
      }
    }
  }

  lemma InsertKeepsFacts(db: Db, past: History, req: Request, id: JobId, rowid: nat, now: int)
    requires FactsOk(db, past) && id !in past && (req.parent.Some? ==> req.parent.value in past)
    ensures FactsOk(Insert(db, req, id, rowid, now), Issue(db, past, req, id))
  {
    Append(db.log, Transition(id, None, Queued));
  }

  lemma InsertKeeps(db: Db, past: History, req: Request, id: JobId, rowid: nat, now: int)
    requires TablesOk(db, past) && id !in past && (req.parent.Some? ==> req.parent.value in past)
    requires forall j :: j in db.rows ==> db.rows[j].rowid < rowid
    ensures TablesOk(Insert(db, req, id, rowid, now), Issue(db, past, req, id))
  {
    if !(id in db.rows || Clash(db.rows, req)) {
      InsertKeepsKeys(db.rows, req, id, rowid, now);
      InsertKeepsFacts(db, past, req, id, rowid, now);
    }
  }

  ghost predicate Claimable(db: Db, id: JobId) {
    id in db.rows && db.rows[id].status == Queued &&
    (db.rows[id].dedupeKey.Some? ==> !KeyBusy(db.rows, db.rows[id]))
  }

  function Started(past: History, id: JobId): History
    requires id in past
  {
    past[id := past[id].(starts := past[id].starts + 1)]
  }

  lemma ClaimKeepsKeys(rows: map<JobId, Row>, id: JobId)
    requires KeysOk(rows) && id in rows
    requires rows[id].dedupeKey.Some? ==> !KeyBusy(rows, rows[id])
    ensures KeysOk(rows[id := rows[id].(status := Running)])
  {
    var rows' := rows[id := rows[id].(status := Running)];
    forall i, j | i in rows' && j in rows' && i != j
      ensures Apart(rows', i, j)
    {
      assert Apart(rows, i, j);
      assert rows[id].dedupeKey.Some? ==> !SameKeyRunning(rows[i], rows[id]) && !SameKeyRunning(rows[j], rows[id]);
    }
  }

  lemma ClaimKeepsFacts(db: Db, past: History, id: JobId)
    requires FactsOk(db, past) && Claimable(db, id)
    ensures (id, db.rows[id].attempt) !in db.attempts
    ensures FactsOk(Claim(db, id), Started(past, id))
  {
    Append(db.log, Transition(id, Some(Queued), Running));
  }

  /** The attempt of the next start is new, so the insert of its fact cannot violate UNIQUE(job, attempt). */
  lemma ClaimKeeps(db: Db, past: History, id: JobId)
    requires TablesOk(db, past) && Claimable(db, id)
    ensures (id, db.rows[id].attempt) !in db.attempts
    ensures TablesOk(Claim(db, id), Started(past, id))
  {
    ClaimKeepsKeys(db.rows, id);
    ClaimKeepsFacts(db, past, id);
  }

  /** Everything but a claim and an insert leaves identities alone and starts nothing. */
  predicate Settles(before: Row, after: Row) {
    after.rowid == before.rowid && after.parent == before.parent && after.sourceEvent == before.sourceEvent &&
    after.plugin == before.plugin && after.command == before.command && after.dedupeKey == before.dedupeKey &&
    (after.status == Running ==> before.status == Running)
  }

  lemma SettleKeepsKeys(rows: map<JobId, Row>, rows': map<JobId, Row>)
    requires KeysOk(rows) && rows'.Keys <= rows.Keys
    requires forall j :: j in rows' ==> Settles(rows[j], rows'[j])
    ensures KeysOk(rows')
  {
    forall i, j | i in rows' && j in rows' && i != j
      ensures Apart(rows', i, j)
    {
      assert Apart(rows, i, j);
    }
  }

  lemma RecordKeeps(log: seq<Transition>, id: JobId, from: Status, to: Status)
    requires Connected(log) && LastStatus(log, id) == Some(from) && (from != to ==> Legal(Some(from), to))
    ensures Connected(Record(log, id, from, to))
    ensures forall j :: LastStatus(Record(log, id, from, to), j) == if j == id then Some(to) else LastStatus(log, j)
  {
    if from != to {
      Append(log, Transition(id, Some(from), to));
    }
  }

  lemma UpdateKeepsLog(log: seq<Transition>, rows: map<JobId, Row>, past: History, id: JobId, row: Row)
    requires LogOk(log, rows, past) && id in rows && id in past
    requires rows[id].status != row.status ==> Legal(Some(rows[id].status), row.status)
    ensures LogOk(Record(log, id, rows[id].status, row.status), rows[id := row], past)
  {
    RecordKeeps(log, id, rows[id].status, row.status);
  }

  ghost predicate Requeueable(db: Db, past: History, id: JobId, status: Status) {
    id in db.rows && id in past && db.rows[id].attempt == past[id].starts &&
    (db.rows[id].status == Running || (db.rows[id].status == Dead && status == Queued)) &&
    (status == Dead || (status == Queued && db.rows[id].attempt < db.rows[id].maxAttempts))
  }

  lemma RequeueKeepsFacts(db: Db, past: History, id: JobId, status: Status, attempt: int, nextRetryAt: Option<int>)
    requires FactsOk(db, past) && Requeueable(db, past, id, status) && attempt == db.rows[id].attempt + 1
    ensures FactsOk(Requeue(db, id, status, attempt, nextRetryAt), past)
  {
    UpdateKeepsLog(db.log, db.rows, past, id, Requeue(db, id, status, attempt, nextRetryAt).rows[id]);
  }

  lemma RequeueKeepsJobLog(db: Db, past: History, id: JobId, status: Status, attempt: int, nextRetryAt: Option<int>)
    requires JobLogOk(db.jobLog, db.rows, past) && Requeueable(db, past, id, status)
    requires attempt == db.rows[id].attempt + 1
    ensures JobLogOk(db.jobLog, Requeue(db, id, status, attempt, nextRetryAt).rows, past)
  {
  }

  /** A retry by the worker of a running, or meanwhile cancelled, attempt; or crash recovery of a
      running job, which requeues it or gives up on it. */
  lemma RequeueKeeps(db: Db, past: History, id: JobId, status: Status, attempt: int, nextRetryAt: Option<int>)
    requires TablesOk(db, past) && Requeueable(db, past, id, status) && attempt == db.rows[id].attempt + 1
    ensures TablesOk(Requeue(db, id, status, attempt, nextRetryAt), past)
  {
    RequeueKeepsFacts(db, past, id, status, attempt, nextRetryAt);
    RequeueKeepsJobLog(db, past, id, status, attempt, nextRetryAt);
    SettleKeepsKeys(db.rows, Requeue(db, id, status, attempt, nextRetryAt).rows);
  }

  ghost predicate Completable(db: Db, past: History, id: JobId, status: Status) {
    id in db.rows && id in past &&
    if status == Dead then db.rows[id].status == Dead
    else Finished(status) && (db.rows[id].status == Running || db.rows[id].status == Dead) &&
         db.rows[id].attempt == past[id].starts && (id, db.rows[id].attempt) !in db.jobLog
  }

  lemma CompleteKeepsFacts(db: Db, past: History, id: JobId, status: Status, now: int)
    requires FactsOk(db, past) && Completable(db, past, id, status)
    ensures FactsOk(Complete(db, id, status, now), past)
  {
    UpdateKeepsLog(db.log, db.rows, past, id, Complete(db, id, status, now).rows[id]);
  }

  lemma CompleteKeepsJobLog(db: Db, past: History, id: JobId, status: Status, now: int)
    requires JobLogOk(db.jobLog, db.rows, past) && Completable(db, past, id, status)
    ensures var db' := Complete(db, id, status, now); JobLogOk(db'.jobLog, db'.rows, past)
  {
  }

  lemma CompleteKeeps(db: Db, past: History, id: JobId, status: Status, now: int)
    requires TablesOk(db, past) && Completable(db, past, id, status)
    ensures TablesOk(Complete(db, id, status, now), past)
  {
    CompleteKeepsFacts(db, past, id, status, now);
    CompleteKeepsJobLog(db, past, id, status, now);
    SettleKeepsKeys(db.rows, Complete(db, id, status, now).rows);
  }

  lemma {:induction false} CancelLogKeeps(log: seq<Transition>, rows: map<JobId, Row>, order: seq<JobId>)
    requires Connected(log) && Distinct(order)
    requires forall j :: j in order ==> j in rows && rows[j].status.Outstanding()
    requires forall j :: j in order ==> LastStatus(log, j) == Some(rows[j].status)
    ensures Connected(log + CancelLog(rows, order))
    ensures forall id :: LastStatus(log + CancelLog(rows, order), id) ==
                         if id in order then Some(Dead) else LastStatus(log, id)
  {
    if order == [] {
      assert log + CancelLog(rows, order) == log;
    } else {
      var n := |order| - 1;
      var init, last := order[..n], order[n];
      assert order == init + [last] && last !in init;
      CancelLogKeeps(log, rows, init);
      var t := Transition(last, Some(rows[last].status), Dead);
      Append(log + CancelLog(rows, init), t);
      assert CancelLog(rows, order) == CancelLog(rows, init) + [t];
      assert log + CancelLog(rows, order) == log + CancelLog(rows, init) + [t];
    }
  }

  lemma CancelKeepsFacts(db: Db, past: History, plugin: string, command: string, order: seq<JobId>, now: int)
    requires FactsOk(db, past) && CancelOrder(db.rows, order, plugin, command)
    ensures FactsOk(Cancel(db, plugin, command, order, now), past)
  {
    CancelLogKeeps(db.log, db.rows, order);
  }

  lemma CancelKeeps(db: Db, past: History, plugin: string, command: string, order: seq<JobId>, now: int)
    requires TablesOk(db, past) && CancelOrder(db.rows, order, plugin, command)
    ensures TablesOk(Cancel(db, plugin, command, order, now), past)
  {
    CancelKeepsFacts(db, past, plugin, command, order, now);
    SettleKeepsKeys(db.rows, CancelledRows(db.rows, plugin, command, now));
  }

  lemma PruneKeeps(db: Db, past: History, retention: int, now: int)
    requires TablesOk(db, past)
    ensures TablesOk(Prune(db, retention, now), past)
  {
    SettleKeepsKeys(db.rows, Prune(db, retention, now).rows);
  }
}
