/** Routing an event again never duplicates a child job. */
module RoutedChildren {
  import opened JobTables
  import opened JobFacts
  import opened Protocol
  import opened JobSafety

  /** The rows that already serve this routed request. */
  ghost function Children(rows: map<JobId, Row>, req: Request): set<JobId> {
    set j | j in rows && Serves(rows[j], req)
  }

  /** The row is the child of this parent for this event and target. */
  predicate Serves(row: Row, req: Request) {
    row.parent.Some? && row.parent == req.parent && row.sourceEvent.Some? && row.sourceEvent == req.sourceEvent &&
    row.plugin == req.plugin && row.command == req.command
  }

  predicate Routed(req: Request) {
    req.parent.Some? && req.sourceEvent.Some?
  }

  lemma AtMostOneChild(rows: map<JobId, Row>, req: Request)
    requires KeysOk(rows)
    ensures |Children(rows, req)| <= 1
  {
    if i :| i in Children(rows, req) {
      forall j | j in Children(rows, req)
        ensures j == i
      {
        assert i != j ==> Apart(rows, i, j);
      }
      assert Children(rows, req) == {i};
    }
  }

  lemma ExactlyOneChild(rows: map<JobId, Row>, req: Request, j: JobId)
    requires KeysOk(rows) && j in Children(rows, req)
    ensures |Children(rows, req)| == 1
  {
    AtMostOneChild(rows, req);
    assert Children(rows, req) != {};
  }

  // ---------------------------------------------------------------- one routing pass, repeated at will

  /** A request of the router for an event with an id and without a dedupe key. */
  predicate Deliverable(req: Request) {
    req.plugin != "" && req.command != "" && req.submittedBy != "" && req.dedupeKey.None? && Routed(req)
  }

  /** The router's enqueues one after the other; ids and row ids are fresh from id on. */
  function Deliver(db: Db, reqs: seq<Request>, id: nat, defaultTtl: int, now: int): Db
    decreases reqs
  {
    if reqs == [] then db
    else Deliver(Enqueue(db, reqs[0], id, id, defaultTtl, now).0, reqs[1..], id + 1, defaultTtl, now)
  }

  lemma DeliverStep(db: Db, req: Request, id: nat, defaultTtl: int, now: int)
    requires KeysOk(db.rows) && (forall j :: j in db.rows ==> j < id && db.rows[j].rowid < id) && Deliverable(req)
    ensures var rows' := Enqueue(db, req, id, id, defaultTtl, now).0.rows;
            KeysOk(rows') && |Children(rows', req)| == 1 &&
            (forall j :: j in rows' ==> j <= id && rows'[j].rowid <= id) &&
            (forall r :: Routed(r) && Children(db.rows, r) != {} ==> Children(rows', r) == Children(db.rows, r))
  {
    var rows' := Enqueue(db, req, id, id, defaultTtl, now).0.rows;
    if Clash(db.rows, req) {
      var j :| j in db.rows && SameSource(db.rows[j], req);
      ExactlyOneChild(rows', req, j);
    } else {
      InsertKeepsKeys(db.rows, req, id, id, now);
      ExactlyOneChild(rows', req, id);
      forall r | Routed(r) && Children(db.rows, r) != {}
        ensures Children(rows', r) == Children(db.rows, r)
      {
        var i :| i in Children(db.rows, r);
        assert SameSource(db.rows[i], r) && !SameSource(db.rows[i], req);
      }
    }
  }

  /** However often each target of an event occurs in the passes, it ends up with exactly one
      child row, and rows that were there before keep serving their requests alone. */
  lemma {:induction false} DeliveredOnce(db: Db, reqs: seq<Request>, id: nat, defaultTtl: int, now: int)
    requires KeysOk(db.rows) && forall j :: j in db.rows ==> j < id && db.rows[j].rowid < id
    requires forall r :: r in reqs ==> Deliverable(r)
    ensures var rows' := Deliver(db, reqs, id, defaultTtl, now).rows;
            (forall r :: r in reqs ==> |Children(rows', r)| == 1) &&
            (forall r :: Routed(r) && Children(db.rows, r) != {} ==> Children(rows', r) == Children(db.rows, r))
    decreases reqs
  {
    if reqs != [] {
      var db1 := Enqueue(db, reqs[0], id, id, defaultTtl, now).0;
      DeliverStep(db, reqs[0], id, defaultTtl, now);
      DeliveredOnce(db1, reqs[1..], id + 1, defaultTtl, now);
      assert Children(db1.rows, reqs[0]) != {};
      assert forall r :: r in reqs ==> r == reqs[0] || r in reqs[1..];
    }
  }

  // ---------------------------------------------------------------- over runs

  /** The rows agree on what an insert fixes for good. */
  predicate SameIdentity(a: Row, b: Row) {
    a.parent == b.parent && a.sourceEvent == b.sourceEvent && a.plugin == b.plugin && a.command == b.command &&
    a.submittedBy == b.submittedBy && a.dedupeKey == b.dedupeKey && a.maxAttempts == b.maxAttempts &&
    a.createdAt == b.createdAt && a.rowid == b.rowid
  }

  /** A row keeps its target, key, limit, age and place in the tree as long as it is there. */
  lemma IdentityStays(s: State, step: Step, j: JobId)
    requires Enabled(s, step) && j in s.db.rows && j in NextDb(s, step).rows
    ensures SameIdentity(s.db.rows[j], NextDb(s, step).rows[j])
  {
    if Writes(s, step, j) {
      match step
      case _ =>
    } else {
      OtherRowsStay(s, step, j);
    }
  }

  /** Only a prune removes rows, and it adds none. */
  lemma OnlyPruneRemoves(s: State, step: Step)
    requires Enabled(s, step)
    ensures if step.PruneJobs? then NextDb(s, step).rows.Keys <= s.db.rows.Keys
            else s.db.rows.Keys <= NextDb(s, step).rows.Keys
  {
    match step
    case _ =>
  }

  /** The step leaves the child row of this request in the table. */
  ghost predicate KeepsChild(s: State, step: Step, req: Request)
    requires Enabled(s, step)
  {
    Children(s.db.rows, req) <= NextDb(s, step).rows.Keys
  }

  /** A served request stops being served exactly by a prune of its child row. */
  lemma ChildLostIff(s: State, step: Step, req: Request)
    requires KeysOk(s.db.rows) && Enabled(s, step) && Children(s.db.rows, req) != {}
    ensures Children(NextDb(s, step).rows, req) == {} <==> !KeepsChild(s, step, req)
    ensures !KeepsChild(s, step, req) ==> step.PruneJobs?
  {
    OnlyPruneRemoves(s, step);
    AtMostOneChild(s.db.rows, req);
    var j :| j in Children(s.db.rows, req);
    ExactlyOneChild(s.db.rows, req, j);
    OnlyElement(Children(s.db.rows, req), j);
    var rows' := NextDb(s, step).rows;
    if j in rows' {
      IdentityStays(s, step, j);
      assert j in Children(rows', req);
    } else {
      forall i | i in Children(rows', req)
        ensures i in Children(s.db.rows, req)
      {
        IdentityStays(s, step, i);
      }
    }
  }

  lemma OnlyElement(ids: set<JobId>, j: JobId)
    requires |ids| == 1 && j in ids
    ensures ids == {j}
  {
    assert |ids - {j}| == 0;
  }

  lemma RouteMakesChild(s: State, step: Step)
    requires Enabled(s, step) && step.Route? && Routed(step.req) && s.db.rows.Keys <= s.past.Keys
    ensures Children(NextDb(s, step).rows, step.req) != {}
  {
    var rows' := NextDb(s, step).rows;
    if Clash(s.db.rows, step.req) {
      var j :| j in s.db.rows && SameSource(s.db.rows[j], step.req);
      assert j in Children(rows', step.req);
    } else {
      assert step.id in Children(rows', step.req);
    }
  }

  lemma NextHasChild(states: seq<State>, steps: seq<Step>, i: nat)
    requires IsRunFromInit(states, steps) && i < |steps| && steps[i].Route? && Routed(steps[i].req)
    ensures Children(states[i + 1].db.rows, steps[i].req) != {}
  {
    ReachableInv(states, steps, i);
    RouteMakesChild(states[i], steps[i]);
  }

  lemma NextKeepsChild(states: seq<State>, steps: seq<Step>, i: nat, req: Request)
    requires IsRunFromInit(states, steps) && i < |steps| && Children(states[i].db.rows, req) != {}
    requires KeepsChild(states[i], steps[i], req)
    ensures Children(states[i + 1].db.rows, req) != {}
  {
    ReachableInv(states, steps, i);
    ChildLostIff(states[i], steps[i], req);
  }

  lemma {:induction false} ChildPersists(states: seq<State>, steps: seq<Step>, i: nat, k: nat)
    requires IsRunFromInit(states, steps) && i < k < |states| && steps[i].Route? && Routed(steps[i].req)
    requires forall m :: i < m < k ==> KeepsChild(states[m], steps[m], steps[i].req)
    ensures Children(states[k].db.rows, steps[i].req) != {}
  {
    var j := k - 1;
    if j == i {
      NextHasChild(states, steps, i);
    } else {
      ChildPersists(states, steps, i, j);
      NextKeepsChild(states, steps, j, steps[i].req);
    }
    assert j + 1 == k;
  }

  /** In any run, from the step that routed it on, a (parent, event, target) has exactly one child
      row until that row is pruned, even if the event is routed again after a crash. Prunes of other
      rows do not matter, and by ChildLostIff a prune of this one does. */
  lemma RoutedExactlyOnce(states: seq<State>, steps: seq<Step>, i: nat, k: nat)
    requires IsRunFromInit(states, steps) && i < k < |states| && steps[i].Route? && Routed(steps[i].req)
    requires forall m :: i < m < k ==> KeepsChild(states[m], steps[m], steps[i].req)
    ensures |Children(states[k].db.rows, steps[i].req)| == 1
  {
    ReachableInv(states, steps, k);
    ChildPersists(states, steps, i, k);
    AtMostOneChild(states[k].db.rows, steps[i].req);
    assert |Children(states[k].db.rows, steps[i].req)| != 0;
  }
}
