/** Pruning terminal rows is invisible to deduplication: an engine that prunes and one that never
    does give the same answers. */
module DedupePrune {
  import opened Base
  import opened JobTables

  /** The queue transactions, issued at some time to both engines. */
  datatype Op =
    | EnqueueOp(req: Request, id: JobId, rowid: nat)
    | ClaimOp(id: JobId)
    | CompleteOp(id: JobId, status: Status)
    | RequeueOp(id: JobId, status: Status, attempt: int, nextRetryAt: Option<int>)
    | CancelOp(plugin: string, command: string)
    | PruneOp

  datatype Event = Event(op: Op, now: int)

  datatype Settings = Settings(defaultTtl: int, retention: int)

  /** The tables after one operation; writes to missing rows do nothing, and only the pruning
      engine prunes. A cancel is taken without its transition records. */
  function Do(db: Db, e: Event, cfg: Settings, pruning: bool): Db {
    match e.op
    case EnqueueOp(req, id, rowid) => Enqueue(db, req, id, rowid, cfg.defaultTtl, e.now).0
    case ClaimOp(id) => if id in db.rows then Claim(db, id) else db
    case CompleteOp(id, status) => if id in db.rows then Complete(db, id, status, e.now) else db
    case RequeueOp(id, status, attempt, next) => if id in db.rows then Requeue(db, id, status, attempt, next) else db
    case CancelOp(plugin, command) => db.(rows := CancelledRows(db.rows, plugin, command, e.now))
    case PruneOp => if pruning then Prune(db, cfg.retention, e.now) else db
  }

  /** What the callers of Enqueue are told along a sequence of events. */
  function Answers(db: Db, es: seq<Event>, cfg: Settings, pruning: bool): seq<EnqueueResult>
    decreases es
  {
    if es == [] then []
    else
      var op := es[0].op;
      (if op.EnqueueOp? then [Enqueue(db, op.req, op.id, op.rowid, cfg.defaultTtl, es[0].now).1] else []) +
      Answers(Do(db, es[0], cfg, pruning), es[1..], cfg, pruning)
  }

  /** A terminal row that no lookup reaching back to the cutoff can find. */
  predicate Forgettable(row: Row, cutoff: int) {
    row.status.Terminal() && (Prunable(row, cutoff) || row.status != Succeeded || row.dedupeKey.None?)
  }

  /** The pruned table is the full one without some rows that no lookup can find. */
  ghost predicate Mirrors(p: Db, f: Db, cfg: Settings, now: int) {
    p.rows.Keys <= f.rows.Keys &&
    (forall j :: j in p.rows ==> p.rows[j] == f.rows[j]) &&
    (forall j :: j in f.rows && j !in p.rows ==> cfg.retention > 0 && Forgettable(f.rows[j], now - cfg.retention))
  }

  /** The pruning engine has forgotten this row. */
  ghost predicate Pruned(p: Db, f: Db, id: JobId) {
    id in f.rows && id !in p.rows
  }

  /** What every event keeps to: ids are fresh, the time to live does not exceed the retention, a
      source event has a name, and a pruned row is neither started again nor given a late success
      under a dedupe key. */
  ghost predicate WithinRetention(p: Db, f: Db, e: Event, cfg: Settings) {
    match e.op
    case EnqueueOp(req, id, _) =>
      id !in f.rows && (cfg.retention > 0 ==> EffectiveTtl(req, cfg.defaultTtl) <= cfg.retention) &&
      (req.sourceEvent.Some? ==> Trim(req.sourceEvent.value) != "")
    case ClaimOp(id) => !Pruned(p, f, id)
    case CompleteOp(id, status) =>
      Pruned(p, f, id) ==> status.Terminal() && (status == Succeeded ==> f.rows[id].dedupeKey.None?)
    case RequeueOp(id, _, _, _) => !Pruned(p, f, id)
    case _ => true
  }

  /** An event is routed again to a target whose child row was pruned. */
  ghost predicate Redelivers(p: Db, f: Db, e: Event, cfg: Settings) {
    e.op.EnqueueOp? && var req := e.op.req;
    req.plugin != "" && req.command != "" && req.submittedBy != "" &&
    !Dropped(f.rows, req, cfg.defaultTtl, e.now) && !Clash(p.rows, req) &&
    exists j :: Pruned(p, f, j) && SameSource(f.rows[j], req)
  }

  /** The events keep within the retention, at nondecreasing times, up to the first redelivery. */
  ghost predicate AllWithinRetention(p: Db, f: Db, es: seq<Event>, cfg: Settings, now: int)
    decreases es
  {
    es == [] ||
    (now <= es[0].now && WithinRetention(p, f, es[0], cfg) &&
     (Redelivers(p, f, es[0], cfg) ||
      AllWithinRetention(Do(p, es[0], cfg, true), Do(f, es[0], cfg, false), es[1..], cfg, es[0].now)))
  }

  ghost predicate NoRedelivery(p: Db, f: Db, es: seq<Event>, cfg: Settings)
    decreases es
  {
    es == [] ||
    (!Redelivers(p, f, es[0], cfg) &&
     NoRedelivery(Do(p, es[0], cfg, true), Do(f, es[0], cfg, false), es[1..], cfg))
  }

  // ---------------------------------------------------------------- both engines see the same queue

  /** The recent-success lookup finds a match on the pruned table iff it does on the full one. */
  lemma LookupAgrees(p: Db, f: Db, cfg: Settings, now: int, plugin: string, command: string, key: string, ttl: int)
    requires Mirrors(p, f, cfg, now) && (cfg.retention > 0 ==> ttl <= cfg.retention)
    ensures RecentSuccess(p.rows, plugin, command, key, ttl, now) <==>
            RecentSuccess(f.rows, plugin, command, key, ttl, now)
  {
    if RecentSuccess(f.rows, plugin, command, key, ttl, now) {
      var j :| j in f.rows && IsRecentSuccess(f.rows[j], plugin, command, key, now - ttl);
      assert j in p.rows;
    }
    if RecentSuccess(p.rows, plugin, command, key, ttl, now) {
      var j :| j in p.rows && IsRecentSuccess(p.rows[j], plugin, command, key, now - ttl);
      assert j in f.rows && IsRecentSuccess(f.rows[j], plugin, command, key, now - ttl);
    }
  }

  /** A table with one succeeded job of a key. */
  function OneSuccess(key: string, completedAt: int): Db {
    Db(map[1 := Row("p", "c", Succeeded, 1, 1, "api", Some(key), 0, 1, Some(completedAt), None, None, None)],
       [], {}, map[])
  }

  /** The lookup agrees on every pair of tables exactly when pruning is off or the time to live is at
      most the retention. */
  lemma LookupAgreesIff(cfg: Settings, ttl: int)
    ensures (forall p, f, now, plugin, command, key ::
               Mirrors(p, f, cfg, now) ==>
                 (RecentSuccess(p.rows, plugin, command, key, ttl, now) <==>
                  RecentSuccess(f.rows, plugin, command, key, ttl, now)))
            <==> cfg.retention <= 0 || ttl <= cfg.retention
  {
    if cfg.retention <= 0 || ttl <= cfg.retention {
      forall p, f, now, plugin, command, key | Mirrors(p, f, cfg, now)
        ensures RecentSuccess(p.rows, plugin, command, key, ttl, now) <==>
                RecentSuccess(f.rows, plugin, command, key, ttl, now)
      {
        LookupAgrees(p, f, cfg, now, plugin, command, key, ttl);
      }
    } else {
      var p, f := Db(map[], [], {}, map[]), OneSuccess("k", -ttl);
      assert IsRecentSuccess(f.rows[1], "p", "c", "k", 0 - ttl);
      assert Mirrors(p, f, cfg, 0) && RecentSuccess(f.rows, "p", "c", "k", ttl, 0);
      assert !RecentSuccess(p.rows, "p", "c", "k", ttl, 0);
    }
  }

  lemma OutstandingAgrees(p: Db, f: Db, cfg: Settings, now: int, plugin: string, command: string, key: string)
    requires Mirrors(p, f, cfg, now)
    ensures OutstandingKey(p.rows, plugin, command, key) <==> OutstandingKey(f.rows, plugin, command, key)
  {
    if OutstandingKey(p.rows, plugin, command, key) {
      var j :| j in p.rows && IsOutstandingKey(p.rows[j], plugin, command, key);
      assert j in f.rows && f.rows[j] == p.rows[j];
    }
  }

  lemma KeyBusyAgrees(p: Db, f: Db, cfg: Settings, now: int, row: Row)
    requires Mirrors(p, f, cfg, now)
    ensures KeyBusy(p.rows, row) <==> KeyBusy(f.rows, row)
  {
    if KeyBusy(p.rows, row) {
      var j :| j in p.rows && SameKeyRunning(p.rows[j], row);
      assert j in f.rows && f.rows[j] == p.rows[j];
    }
  }

  /** A dequeue takes the same job from both tables. */
  lemma DequeueAgrees(p: Db, f: Db, cfg: Settings, now: int, id: JobId, skip: set<string>, keys: set<string>)
    requires Mirrors(p, f, cfg, now)
    ensures IsNext(p.rows, id, skip, keys, now) <==> IsNext(f.rows, id, skip, keys, now)
  {
    forall j
      ensures Eligible(p.rows, j, skip, keys, now) <==> Eligible(f.rows, j, skip, keys, now)
    {
      if j in p.rows {
        KeyBusyAgrees(p, f, cfg, now, p.rows[j]);
      }
    }
  }

  // ---------------------------------------------------------------- lockstep

  lemma DropAgrees(p: Db, f: Db, e: Event, cfg: Settings)
    requires Mirrors(p, f, cfg, e.now) && e.op.EnqueueOp? && WithinRetention(p, f, e, cfg)
    ensures Dropped(p.rows, e.op.req, cfg.defaultTtl, e.now) == Dropped(f.rows, e.op.req, cfg.defaultTtl, e.now)
  {
    var req := e.op.req;
    if req.dedupeKey.Some? {
      var key := Trim(req.dedupeKey.value);
      LookupAgrees(p, f, cfg, e.now, req.plugin, req.command, key, EffectiveTtl(req, cfg.defaultTtl));
      OutstandingAgrees(p, f, cfg, e.now, req.plugin, req.command, key);
    }
  }

  /** The full table has a clash that the pruned one lacks exactly when the clashing rows are pruned. */
  lemma ClashLostIff(p: Db, f: Db, cfg: Settings, now: int, req: Request)
    requires Mirrors(p, f, cfg, now)
    ensures Clash(p.rows, req) ==> Clash(f.rows, req)
    ensures Clash(f.rows, req) && !Clash(p.rows, req) <==>
            !Clash(p.rows, req) && exists j :: Pruned(p, f, j) && SameSource(f.rows[j], req)
  {
    if Clash(p.rows, req) {
      var j :| j in p.rows && SameSource(p.rows[j], req);
      assert j in f.rows && SameSource(f.rows[j], req);
    } else if Clash(f.rows, req) {
      var j :| j in f.rows && SameSource(f.rows[j], req);
      assert Pruned(p, f, j);
    }
  }

  /** The caller of one enqueue is told the same by both engines exactly when it is no redelivery. */
  lemma EnqueueAgreesIff(p: Db, f: Db, e: Event, cfg: Settings)
    requires Mirrors(p, f, cfg, e.now) && e.op.EnqueueOp? && WithinRetention(p, f, e, cfg)
    ensures (Enqueue(p, e.op.req, e.op.id, e.op.rowid, cfg.defaultTtl, e.now).1 ==
             Enqueue(f, e.op.req, e.op.id, e.op.rowid, cfg.defaultTtl, e.now).1) <==> !Redelivers(p, f, e, cfg)
    ensures !Redelivers(p, f, e, cfg) ==> Mirrors(Do(p, e, cfg, true), Do(f, e, cfg, false), cfg, e.now)
  {
    DropAgrees(p, f, e, cfg);
    ClashLostIff(p, f, cfg, e.now, e.op.req);
  }

  lemma EventAgrees(p: Db, f: Db, e: Event, cfg: Settings)
    requires Mirrors(p, f, cfg, e.now) && WithinRetention(p, f, e, cfg) && !Redelivers(p, f, e, cfg)
    ensures Mirrors(Do(p, e, cfg, true), Do(f, e, cfg, false), cfg, e.now)
  {
    if e.op.EnqueueOp? {
      EnqueueAgreesIff(p, f, e, cfg);
    }
  }

  /** Over any interleaving of queue operations within the retention, both engines tell every caller
      of Enqueue the same exactly when no event is redelivered to a pruned child. */
  lemma {:induction false} PruneIsInvisibleIff(p: Db, f: Db, es: seq<Event>, cfg: Settings, now: int)
    requires Mirrors(p, f, cfg, now) && AllWithinRetention(p, f, es, cfg, now)
    ensures Answers(p, es, cfg, true) == Answers(f, es, cfg, false) <==> NoRedelivery(p, f, es, cfg)
    decreases es
  {
    if es != [] {
      if es[0].op.EnqueueOp? {
        EnqueueAgreesIff(p, f, es[0], cfg);
        HeadDecides(p, f, es, cfg);
      } else {
        OthersAreSilent(p, es, cfg, true);
        OthersAreSilent(f, es, cfg, false);
      }
      if !Redelivers(p, f, es[0], cfg) {
        EventAgrees(p, f, es[0], cfg);
        PruneIsInvisibleIff(Do(p, es[0], cfg, true), Do(f, es[0], cfg, false), es[1..], cfg, es[0].now);
      }
    }
  }

  lemma OthersAreSilent(db: Db, es: seq<Event>, cfg: Settings, pruning: bool)
    requires es != [] && !es[0].op.EnqueueOp?
    ensures Answers(db, es, cfg, pruning) == Answers(Do(db, es[0], cfg, pruning), es[1..], cfg, pruning)
  {
  }

  /** Answers to a first enqueue come first. */
  lemma HeadDecides(p: Db, f: Db, es: seq<Event>, cfg: Settings)
    requires es != [] && es[0].op.EnqueueOp?
    ensures var op := es[0].op;
            Answers(p, es, cfg, true) == Answers(f, es, cfg, false) <==>
            Enqueue(p, op.req, op.id, op.rowid, cfg.defaultTtl, es[0].now).1 ==
            Enqueue(f, op.req, op.id, op.rowid, cfg.defaultTtl, es[0].now).1 &&
            Answers(Do(p, es[0], cfg, true), es[1..], cfg, true) ==
            Answers(Do(f, es[0], cfg, false), es[1..], cfg, false)
  {
    var op := es[0].op;
    var a := Enqueue(p, op.req, op.id, op.rowid, cfg.defaultTtl, es[0].now).1;
    var b := Enqueue(f, op.req, op.id, op.rowid, cfg.defaultTtl, es[0].now).1;
    SameHead(a, Answers(Do(p, es[0], cfg, true), es[1..], cfg, true),
             b, Answers(Do(f, es[0], cfg, false), es[1..], cfg, false));
  }

  lemma SameHead<T>(a: T, s: seq<T>, b: T, t: seq<T>)
    ensures [a] + s == [b] + t <==> a == b && s == t
  {
    if [a] + s == [b] + t {
      assert ([a] + s)[0] == a && ([b] + t)[0] == b && ([a] + s)[1..] == s && ([b] + t)[1..] == t;
    }
  }

  // ---------------------------------------------------------------- the conditions are needed

  function Empty(): Db {
    Db(map[], [], {}, map[])
  }

  function Keyed(ttl: Option<int>): Request {
    Request("p", "c", 1, "api", Some("k"), ttl, None, None)
  }

  const CHILD := Request("p", "c", 1, "route", None, None, Some(9), Some("e"))

  /** The tables after a sequence of events. */
  function After(db: Db, es: seq<Event>, cfg: Settings, pruning: bool): Db {
    if es == [] then db else Do(After(db, es[..|es| - 1], cfg, pruning), es[|es| - 1], cfg, pruning)
  }

  /** What the last of a sequence of events, an enqueue, is told. */
  function LastAnswer(es: seq<Event>, cfg: Settings, pruning: bool): EnqueueResult
    requires es != [] && es[|es| - 1].op.EnqueueOp?
  {
    var e := es[|es| - 1];
    Enqueue(After(Empty(), es[..|es| - 1], cfg, pruning), e.op.req, e.op.id, e.op.rowid, cfg.defaultTtl, e.now).1
  }

  lemma AfterOne(db: Db, es: seq<Event>, e: Event, cfg: Settings, pruning: bool)
    ensures After(db, es + [e], cfg, pruning) == Do(After(db, es, cfg, pruning), e, cfg, pruning)
  {
    assert (es + [e])[..|es|] == es;
  }

  /** Job 1 of the request, finished at time zero by the given operation, and the prune that comes as
      soon as the retention is over. */
  function Story(req: Request, end: Op, cfg: Settings): seq<Event> {
    [Event(EnqueueOp(req, 1, 1), 0)] + [Event(ClaimOp(1), 0)] + [Event(end, 0)] + [Event(PruneOp, cfg.retention + 1)]
  }

  lemma StoryEnds(req: Request, end: Op, cfg: Settings)
    requires cfg.retention > 0 && req.plugin == "p" && req.command == "c" && req.submittedBy != ""
    requires end == CancelOp("p", "c") || (end.CompleteOp? && end.id == 1 && end.status.Terminal())
    ensures After(Empty(), Story(req, end, cfg), cfg, true).rows == map[]
    ensures After(Empty(), Story(req, end, cfg), cfg, false).rows ==
            map[1 := NewRow(req, 1, 0).(completedAt := Some(0),
                                        status := if end.CompleteOp? then end.status else Dead)]
  {
    var e0, e1, e2, e3 := Event(EnqueueOp(req, 1, 1), 0), Event(ClaimOp(1), 0), Event(end, 0),
                          Event(PruneOp, cfg.retention + 1);
    forall pruning: bool
      ensures After(Empty(), [e0] + [e1] + [e2], cfg, pruning).rows ==
              map[1 := NewRow(req, 1, 0).(completedAt := Some(0),
                                          status := if end.CompleteOp? then end.status else Dead)]
    {
      StoryFinishes(req, end, cfg, pruning);
    }
    AfterOne(Empty(), [e0] + [e1] + [e2], e3, cfg, true);
    AfterOne(Empty(), [e0] + [e1] + [e2], e3, cfg, false);
  }

  lemma StoryFinishes(req: Request, end: Op, cfg: Settings, pruning: bool)
    requires req.plugin == "p" && req.command == "c" && req.submittedBy != ""
    requires end == CancelOp("p", "c") || (end.CompleteOp? && end.id == 1 && end.status.Terminal())
    ensures var es := [Event(EnqueueOp(req, 1, 1), 0)] + [Event(ClaimOp(1), 0)] + [Event(end, 0)];
            After(Empty(), es, cfg, pruning).rows ==
            map[1 := NewRow(req, 1, 0).(completedAt := Some(0),
                                        status := if end.CompleteOp? then end.status else Dead)]
  {
    var e0, e1, e2 := Event(EnqueueOp(req, 1, 1), 0), Event(ClaimOp(1), 0), Event(end, 0);
    AfterOne(Empty(), [], e0, cfg, pruning);
    AfterOne(Empty(), [e0], e1, cfg, pruning);
    AfterOne(Empty(), [e0] + [e1], e2, cfg, pruning);
    assert [] + [e0] == [e0];
    assert After(Empty(), [e0], cfg, pruning).rows == map[1 := NewRow(req, 1, 0)];
  }

  lemma TrimK()
    ensures Trim("k") == "k" && Trim("e") == "e"
  {
    TrimIsTrimmed("k");
    TrimIsTrimmed("e");
  }

  /** Any request whose time to live exceeds the retention can be told different things: the pruning
      engine runs a job again that the other one drops. */
  lemma LongTtlIsVisible(cfg: Settings, ttl: int)
    requires 0 < cfg.retention < ttl
    ensures var es := Story(Keyed(Some(ttl)), CompleteOp(1, Succeeded), cfg) +
                      [Event(EnqueueOp(Keyed(Some(ttl)), 2, 2), cfg.retention + 1)];
            LastAnswer(es, cfg, true) == Enqueued(2) && LastAnswer(es, cfg, false) == DedupeDrop
  {
    var req, end := Keyed(Some(ttl)), CompleteOp(1, Succeeded);
    var story := Story(req, end, cfg);
    var last := Event(EnqueueOp(req, 2, 2), cfg.retention + 1);
    assert (story + [last])[..|story|] == story;
    StoryEnds(req, end, cfg);
    TrimK();
    var full := After(Empty(), story, cfg, false);
    assert IsRecentSuccess(full.rows[1], "p", "c", "k", cfg.retention + 1 - ttl);
  }

  /** An event routed again after its child was pruned makes a second job; the full table refuses it. */
  lemma RedeliveryIsVisible(cfg: Settings)
    requires cfg.retention > 0
    ensures var es := Story(CHILD, CompleteOp(1, Succeeded), cfg) +
                      [Event(EnqueueOp(CHILD, 2, 2), cfg.retention + 1)];
            LastAnswer(es, cfg, true) == Enqueued(2) && LastAnswer(es, cfg, false) == SourceEventConflict
  {
    var end := CompleteOp(1, Succeeded);
    var story := Story(CHILD, end, cfg);
    var last := Event(EnqueueOp(CHILD, 2, 2), cfg.retention + 1);
    assert (story + [last])[..|story|] == story;
    StoryEnds(CHILD, end, cfg);
    TrimK();
    var full := After(Empty(), story, cfg, false);
    assert SameSource(full.rows[1], CHILD) && Clash(full.rows, CHILD);
  }

  /** A result for a cancelled job whose row is already pruned leaves no success behind, however the
      time to live and the retention are chosen. */
  lemma LateResultIsVisible(cfg: Settings)
    requires cfg.retention > 0 && cfg.defaultTtl > 0
    ensures var es := Story(Keyed(None), CancelOp("p", "c"), cfg) +
                      [Event(CompleteOp(1, Succeeded), cfg.retention + 1)] +
                      [Event(EnqueueOp(Keyed(None), 2, 2), cfg.retention + 1)];
            LastAnswer(es, cfg, true) == Enqueued(2) && LastAnswer(es, cfg, false) == DedupeDrop
  {
    var req, end, now := Keyed(None), CancelOp("p", "c"), cfg.retention + 1;
    var story := Story(req, end, cfg);
    var late, last := Event(CompleteOp(1, Succeeded), now), Event(EnqueueOp(req, 2, 2), now);
    assert (story + [late] + [last])[..|story| + 1] == story + [late];
    StoryEnds(req, end, cfg);
    AfterOne(Empty(), story, late, cfg, true);
    AfterOne(Empty(), story, late, cfg, false);
    TrimK();
    var full := After(Empty(), story + [late], cfg, false);
    assert IsRecentSuccess(full.rows[1], "p", "c", "k", now - cfg.defaultTtl);
  }

  /** A retry of a cancelled job whose row is already pruned finds no row to queue again. */
  lemma LateRetryIsVisible(cfg: Settings, ttl: int)
    requires cfg.retention > 0
    ensures var req := Keyed(Some(ttl));
            var es := Story(req, CancelOp("p", "c"), cfg) +
                      [Event(RequeueOp(1, Queued, 2, None), cfg.retention + 1)] +
                      [Event(EnqueueOp(req, 2, 2), cfg.retention + 1)];
            LastAnswer(es, cfg, true) == Enqueued(2) && LastAnswer(es, cfg, false) == DedupeDrop
  {
    var req, end, now := Keyed(Some(ttl)), CancelOp("p", "c"), cfg.retention + 1;
    var story := Story(req, end, cfg);
    var late, last := Event(RequeueOp(1, Queued, 2, None), now), Event(EnqueueOp(req, 2, 2), now);
    assert (story + [late] + [last])[..|story| + 1] == story + [late];
    StoryEnds(req, end, cfg);
    AfterOne(Empty(), story, late, cfg, true);
    AfterOne(Empty(), story, late, cfg, false);
    TrimK();
    var full := After(Empty(), story + [late], cfg, false);
    assert IsOutstandingKey(full.rows[1], "p", "c", "k");
  }
}
