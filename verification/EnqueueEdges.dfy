/** Two edges of Enqueue: an answer without a row, and dedupe keys with white space around them. */
module EnqueueEdges {
  import opened Base
  import opened JobTables

  /** The answer names a job that is not in the table afterwards. */
  predicate AnswersPhantom(db: Db, req: Request, id: JobId, rowid: nat, ttl: int, now: int) {
    var (db', r) := Enqueue(db, req, id, rowid, ttl, now);
    r.Enqueued? && r.id !in db'.rows
  }

  /** Enqueue answers with the id of a row that does not exist exactly when the insert was ignored for
      a request whose source event is blank. */
  lemma PhantomIff(db: Db, req: Request, id: JobId, rowid: nat, ttl: int, now: int)
    requires id !in db.rows
    ensures AnswersPhantom(db, req, id, rowid, ttl, now) <==>
            req.plugin != "" && req.command != "" && req.submittedBy != "" && !Dropped(db.rows, req, ttl, now) &&
            Clash(db.rows, req) && req.sourceEvent.Some? && Trim(req.sourceEvent.value) == ""
  {
    if Clash(db.rows, req) {
      var j :| j in db.rows && SameSource(db.rows[j], req);
    }
  }

  /** strPtrOrNil, through which the dispatcher passes parent and event ids. */
  function NilIfBlank(v: string): Option<string> {
    if Trim(v) == "" then None else Some(v)
  }

  /** So no caller in the program meets it: the dispatcher never passes a blank event id, and a relay
      passes no parent. */
  lemma CallersGetRows(db: Db, req: Request, id: JobId, rowid: nat, ttl: int, now: int, event: string)
    requires id !in db.rows && (req.sourceEvent == NilIfBlank(event) || req.parent.None?)
    ensures !AnswersPhantom(db, req, id, rowid, ttl, now)
  {
    PhantomIff(db, req, id, rowid, ttl, now);
  }

  /** It takes two enqueues of a child with a blank event id. */
  lemma BlankEventAnswersPhantom()
    ensures var req := Request("p", "c", 1, "route", None, None, Some(9), Some(" "));
            var db := Enqueue(Db(map[], [], {}, map[]), req, 1, 1, 0, 0).0;
            AnswersPhantom(db, req, 2, 2, 0, 0)
  {
    var req := Request("p", "c", 1, "route", None, None, Some(9), Some(" "));
    var db := Enqueue(Db(map[], [], {}, map[]), req, 1, 1, 0, 0).0;
    assert SameSource(db.rows[1], req) && Clash(db.rows, req);
    assert Trim(" ") == "";
    PhantomIff(db, req, 2, 2, 0, 0);
  }

  // ---------------------------------------------------------------- padded keys

  /** The lookups trim the key of a request, the insert stores it as it came. A row can make a later
      request a duplicate only if its own key has no white space around it. */
  lemma PaddedKeyIsNeverFound(row: Row, req: Request, key: string, cutoff: int)
    requires row.dedupeKey.Some? && req.dedupeKey == Some(key)
    requires IsOutstandingKey(row, req.plugin, req.command, Trim(key)) ||
             IsRecentSuccess(row, req.plugin, req.command, Trim(key), cutoff)
    ensures Trimmed(row.dedupeKey.value)
  {
    TrimIsTrimmed(key);
  }

  /** Of two equal keyed requests the second is dropped exactly when it asks for the outstanding
      lookup and its key has no white space around it. */
  lemma RepeatIsDroppedIff(db: Db, req: Request, id: JobId, id': JobId, rowid: nat, ttl: int, now: int)
    requires req.plugin != "" && req.command != "" && req.submittedBy != "" && id !in db.rows
    requires req.dedupeKey.Some? && Trim(req.dedupeKey.value) != ""
    requires !Dropped(db.rows, req, ttl, now) && !Clash(db.rows, req)
    ensures var first := Enqueue(db, req, id, rowid, ttl, now).0;
            id in first.rows &&
            (Enqueue(first, req, id', rowid + 1, ttl, now).1 == DedupeDrop <==>
             req.dedupeTtl.Some? && Trimmed(req.dedupeKey.value))
  {
    var key := req.dedupeKey.value;
    var first := Enqueue(db, req, id, rowid, ttl, now).0;
    TrimIsTrimmed(key);
    assert first.rows == db.rows[id := NewRow(req, rowid, now)];
    assert IsOutstandingKey(first.rows[id], req.plugin, req.command, Trim(key)) <==> Trim(key) == key;
    forall j | j in first.rows && j != id
      ensures first.rows[j] == db.rows[j]
    {
    }
    if req.dedupeTtl.Some? && Trimmed(key) {
      assert OutstandingKey(first.rows, req.plugin, req.command, Trim(key));
    }
  }

  // ---------------------------------------------------------------- the answer and the row

  /** The request is a duplicate: a queued or running job of its trimmed key and target, if it brings a
      time to live, or one that succeeded within the time to live, its own or the default. */
  ghost predicate IsDuplicate(rows: map<JobId, Row>, req: Request, ttl: int, now: int) {
    req.dedupeKey.Some? && Trim(req.dedupeKey.value) != "" &&
    exists j :: j in rows && rows[j].dedupeKey == Some(Trim(req.dedupeKey.value)) && rows[j].plugin == req.plugin &&
                rows[j].command == req.command &&
                match rows[j].status
                case Queued => req.dedupeTtl.Some?
                case Running => req.dedupeTtl.Some?
                case Succeeded =>
                  var window := match req.dedupeTtl case Some(t) => t case None => ttl;
                  window > 0 && rows[j].completedAt.Some? && now - rows[j].completedAt.value <= window
                case _ => false
  }

  /** A child of the same parent for the same event and target is there. */
  ghost predicate HasChild(rows: map<JobId, Row>, req: Request) {
    req.parent.Some? && req.sourceEvent.Some? &&
    exists j :: j in rows && rows[j].parent == req.parent && rows[j].sourceEvent == req.sourceEvent &&
                rows[j].plugin == req.plugin && rows[j].command == req.command
  }

  lemma DuplicateIff(rows: map<JobId, Row>, req: Request, ttl: int, now: int)
    ensures IsDuplicate(rows, req, ttl, now) <==> Dropped(rows, req, ttl, now)
    ensures HasChild(rows, req) <==> Clash(rows, req)
  {
    if req.dedupeKey.Some? {
      var key := Trim(req.dedupeKey.value);
      if OutstandingKey(rows, req.plugin, req.command, key) {
        var j :| j in rows && IsOutstandingKey(rows[j], req.plugin, req.command, key);
        assert rows[j].status == Queued || rows[j].status == Running;
      }
      forall j | j in rows && rows[j].dedupeKey == Some(key) && rows[j].plugin == req.plugin &&
                 rows[j].command == req.command
        ensures rows[j].status == Queued || rows[j].status == Running ==>
                  OutstandingKey(rows, req.plugin, req.command, key)
      {
        assert rows[j].status == Queued || rows[j].status == Running ==>
                 IsOutstandingKey(rows[j], req.plugin, req.command, key);
      }
    }
    if HasChild(rows, req) {
      var j :| j in rows && rows[j].parent == req.parent && rows[j].sourceEvent == req.sourceEvent &&
               rows[j].plugin == req.plugin && rows[j].command == req.command;
      assert SameSource(rows[j], req);
    }
  }

  /** The answer to a request with a fresh id, and the one row it may add: queued, at its first attempt,
      with the limit it asks for or else 4, created now, and with nothing decided yet. */
  lemma AnswerIs(db: Db, req: Request, id: JobId, rowid: nat, ttl: int, now: int)
    requires id !in db.rows
    ensures var (db', r) := Enqueue(db, req, id, rowid, ttl, now);
            if req.plugin == "" then r == MissingField("plugin") && db' == db
            else if req.command == "" then r == MissingField("command") && db' == db
            else if req.submittedBy == "" then r == MissingField("submitted_by") && db' == db
            else if IsDuplicate(db.rows, req, ttl, now) then r == DedupeDrop && db' == db
            else if HasChild(db.rows, req) then
              db' == db && r == if Trim(req.sourceEvent.value) != "" then SourceEventConflict else Enqueued(id)
            else
              r == Enqueued(id) && db'.rows.Keys == db.rows.Keys + {id} &&
              (forall j :: j in db.rows ==> db'.rows[j] == db.rows[j]) &&
              var row := db'.rows[id];
              row.plugin == req.plugin && row.command == req.command && row.submittedBy == req.submittedBy &&
              row.dedupeKey == req.dedupeKey && row.parent == req.parent && row.sourceEvent == req.sourceEvent &&
              row.status == Queued && row.attempt == 1 &&
              row.maxAttempts == (if req.maxAttempts > 0 then req.maxAttempts else 4) &&
              row.createdAt == now && row.rowid == rowid && row.completedAt == None && row.nextRetryAt == None
  {
    DuplicateIff(db.rows, req, ttl, now);
  }
}
