/** When a job tree that looks complete is final. */
module TreeFinality {
  import opened Base
  import opened JobTables
  import opened JobFacts
  import opened JobTree
  import opened Protocol
  import opened ProtocolInvariant
  import opened JobSafety

  /** The step prunes no row of the tree. */
  ghost predicate KeepsTree(s: State, step: Step, root: JobId)
    requires Enabled(s, step)
  {
    Tree(s.db.rows, root) <= NextDb(s, step).rows.Keys
  }

  /** The step neither prunes nor cancels a job of the tree. */
  ghost predicate Spares(s: State, step: Step, root: JobId)
    requires Enabled(s, step)
  {
    KeepsTree(s, step, root) && (step.CancelJobs? ==> forall id :: id in step.order ==> id !in Tree(s.db.rows, root))
  }

  predicate Inserts(step: Step) {
    step.Submit? || step.Route?
  }

  lemma RowsKeepParents(s: State, step: Step)
    requires Enabled(s, step) && !Inserts(step)
    ensures NextDb(s, step).rows.Keys <= s.db.rows.Keys
    ensures forall j :: j in NextDb(s, step).rows ==> NextDb(s, step).rows[j].parent == s.db.rows[j].parent
  {
    match step
    case _ =>
  }

  lemma InsertIsChildless(s: State, step: Step)
    requires HistoryOk(s.db.rows, s.past) && WorkersOk(s.db, s.past, s.workers) && Enabled(s, step) && Inserts(step)
    ensures Childless(s.db.rows, step.id, NewRow(step.req, step.rowid, s.now))
    ensures NextDb(s, step).rows == s.db.rows ||
            NextDb(s, step).rows == s.db.rows[step.id := NewRow(step.req, step.rowid, s.now)]
  {
    if step.Route? {
      assert WorkerOk(s.db, s.past, s.workers[step.w]);
    }
  }

  /** A tree grows only by a child that a worker of one of its jobs inserts, or by its root. */
  lemma TreeStep(s: State, step: Step, root: JobId)
    requires HistoryOk(s.db.rows, s.past) && WorkersOk(s.db, s.past, s.workers)
    requires Enabled(s, step) && KeepsTree(s, step, root)
    ensures var tree, tree' := Tree(s.db.rows, root), Tree(NextDb(s, step).rows, root);
            tree <= tree' &&
            forall id :: id in tree' && id !in tree ==>
                           Inserts(step) && id == step.id && id !in s.past &&
                           (id == root || (step.Route? && s.workers[step.w].job in tree))
  {
    if Inserts(step) {
      InsertIsChildless(s, step);
      TreeAfterInsert(s.db.rows, root, step.id, NewRow(step.req, step.rowid, s.now));
    } else {
      RowsKeepParents(s, step);
      TreeStays(s.db.rows, NextDb(s, step).rows, root);
    }
  }

  // ---------------------------------------------------------------- cancel-free trees are quiet

  /** Every job of the tree in execution has a running row. */
  ghost predicate Quiet(s: State, root: JobId) {
    forall w, id :: Executes(s.workers, w, id) && id in Tree(s.db.rows, root) ==> s.db.rows[id].status == Running
  }

  /** A running row is written by its own worker's last write, by a cancel or by recovery. */
  lemma RunningStays(s: State, step: Step, w: WorkerId, id: JobId)
    requires EngineOk(s) && Enabled(s, step) && Executes(s.workers, w, id) && Executes(Control(s, step).workers, w, id)
    requires id in s.db.rows && s.db.rows[id].status == Running
    requires step.CancelJobs? ==> id !in step.order
    ensures id in NextDb(s, step).rows && NextDb(s, step).rows[id].status == Running
  {
    ExecutedBefore(s, step, w, id);
    if Writes(s, step, id) {
      assert step.Finish? || step.Retry? ==> Executes(s.workers, step.w, id);
    } else {
      OtherRowsStay(s, step, id);
    }
  }

  lemma ClaimedRuns(s: State, step: Step)
    requires Enabled(s, step) && step.ClaimNext? && (step.id, s.db.rows[step.id].attempt) !in s.db.attempts
    ensures NextDb(s, step).rows[step.id].status == Running
  {
  }

  lemma QuietStep(s: State, step: Step, root: JobId)
    requires Inv(s) && Enabled(s, step) && Spares(s, step, root) && Quiet(s, root)
    ensures Quiet(Apply(s, step), root)
  {
    StepKeepsInv(s, step);
    TreeStep(s, step, root);
    var s' := Apply(s, step);
    forall w, id | Executes(s'.workers, w, id) && id in Tree(s'.db.rows, root)
      ensures s'.db.rows[id].status == Running
    {
      ExecutedBefore(s, step, w, id);
      if ClaimsJob(step, id) {
        ClaimedRuns(s, step);
      } else {
        assert WorkerOk(s.db, s.past, s.workers[w]);
        RunningStays(s, step, w, id);
      }
    }
  }

  // ---------------------------------------------------------------- finality

  /** All rows are terminal and none of them is still in execution. */
  ghost predicate TreeDone(s: State, root: JobId) {
    root in s.db.rows && TreeComplete(s.db.rows, root) &&
    forall w, id :: Executes(s.workers, w, id) ==> id !in Tree(s.db.rows, root)
  }

  lemma TerminalStays(s: State, step: Step, id: JobId)
    requires PhaseOk(s) && Enabled(s, step) && id in s.db.rows && s.db.rows[id].status.Terminal()
    requires forall w :: !Executes(s.workers, w, id)
    requires id in NextDb(s, step).rows
    ensures NextDb(s, step).rows[id].status == s.db.rows[id].status
  {
    if Writes(s, step, id) {
      assert step.Finish? || step.Retry? ==> Executes(s.workers, step.w, id);
    } else {
      OtherRowsStay(s, step, id);
    }
  }

  lemma DoneTreeStays(s: State, step: Step, root: JobId)
    requires HistoryOk(s.db.rows, s.past) && WorkersOk(s.db, s.past, s.workers)
    requires Enabled(s, step) && KeepsTree(s, step, root) && TreeDone(s, root)
    ensures Tree(NextDb(s, step).rows, root) == Tree(s.db.rows, root)
  {
    RootInTree(s.db.rows, root);
    TreeStep(s, step, root);
    if step.Route? {
      assert Executes(s.workers, step.w, s.workers[step.w].job);
    }
  }

  /** A tree that is done stays done, with the same jobs and statuses, under every step that does
      not prune it: cancels, crashes and recovery included. */
  lemma DoneStep(s: State, step: Step, root: JobId)
    requires Inv(s) && Enabled(s, step) && KeepsTree(s, step, root) && TreeDone(s, root)
    ensures TreeDone(Apply(s, step), root)
    ensures Tree(Apply(s, step).db.rows, root) == Tree(s.db.rows, root)
    ensures forall id :: id in Tree(s.db.rows, root) ==> NextDb(s, step).rows[id].status == s.db.rows[id].status
  {
    var tree := Tree(s.db.rows, root);
    RootInTree(s.db.rows, root);
    DoneTreeStays(s, step, root);
    forall id | id in tree
      ensures NextDb(s, step).rows[id].status == s.db.rows[id].status
    {
      TerminalStays(s, step, id);
    }
    forall w, id | Executes(Control(s, step).workers, w, id)
      ensures id !in tree
    {
      ExecutedBefore(s, step, w, id);
    }
  }

  /** Without cancels in the tree so far, a complete tree is done. */
  lemma CompleteIsDone(s: State, root: JobId)
    requires Quiet(s, root) && root in s.db.rows && TreeComplete(s.db.rows, root)
    ensures TreeDone(s, root)
  {
  }

  lemma NextQuiet(states: seq<State>, steps: seq<Step>, i: nat, root: JobId)
    requires IsRunFromInit(states, steps) && i < |steps| && Spares(states[i], steps[i], root) && Quiet(states[i], root)
    ensures Quiet(states[i + 1], root)
  {
    ReachableInv(states, steps, i);
    QuietStep(states[i], steps[i], root);
  }

  lemma {:induction false} RunQuiet(states: seq<State>, steps: seq<Step>, i: nat, root: JobId)
    requires IsRunFromInit(states, steps) && i < |states|
    requires forall m :: 0 <= m < i ==> Spares(states[m], steps[m], root)
    ensures Quiet(states[i], root)
  {
    if i > 0 {
      var j := i - 1;
      RunQuiet(states, steps, j, root);
      NextQuiet(states, steps, j, root);
      assert j + 1 == i;
    }
  }

  lemma NextDone(states: seq<State>, steps: seq<Step>, i: nat, root: JobId)
    requires IsRunFromInit(states, steps) && i < |steps| && TreeDone(states[i], root)
    requires KeepsTree(states[i], steps[i], root)
    ensures TreeDone(states[i + 1], root) && Tree(states[i + 1].db.rows, root) == Tree(states[i].db.rows, root)
    ensures forall id :: id in Tree(states[i].db.rows, root) ==>
                           states[i + 1].db.rows[id].status == states[i].db.rows[id].status
  {
    ReachableInv(states, steps, i);
    DoneStep(states[i], steps[i], root);
  }

  lemma {:induction false} DoneForever(states: seq<State>, steps: seq<Step>, i: nat, k: nat, root: JobId)
    requires IsRunFromInit(states, steps) && i <= k < |states| && TreeDone(states[i], root)
    requires forall m :: i <= m < k ==> KeepsTree(states[m], steps[m], root)
    ensures TreeDone(states[k], root) && Tree(states[k].db.rows, root) == Tree(states[i].db.rows, root)
    ensures forall id :: id in Tree(states[i].db.rows, root) ==>
                           states[k].db.rows[id].status == states[i].db.rows[id].status
  {
    if i < k {
      var j := k - 1;
      DoneForever(states, steps, i, j, root);
      NextDone(states, steps, j, root);
      assert j + 1 == k;
    }
  }

  /** A tree snapshot whose rows are all terminal is final: if no job of the tree was cancelled or
      pruned before and none is pruned after, every later snapshot has the same ids and statuses. */
  lemma CompleteTreeIsFinal(states: seq<State>, steps: seq<Step>, i: nat, k: nat, root: JobId)
    requires IsRunFromInit(states, steps) && i <= k < |states|
    requires forall m :: 0 <= m < i ==> Spares(states[m], steps[m], root)
    requires forall m :: i <= m < k ==> KeepsTree(states[m], steps[m], root)
    requires root in states[i].db.rows && TreeComplete(states[i].db.rows, root)
    ensures Tree(states[k].db.rows, root) == Tree(states[i].db.rows, root)
    ensures forall id :: id in Tree(states[i].db.rows, root) ==>
                           states[k].db.rows[id].status == states[i].db.rows[id].status
  {
    RunQuiet(states, steps, i, root);
    CompleteIsDone(states[i], root);
    DoneForever(states, steps, i, k, root);
  }

  // ---------------------------------------------------------------- the converse

  ghost function Above(ids: set<nat>): (n: nat)
    ensures forall i :: i in ids ==> i < n
  {
    if ids == {} then 0
    else
      var i :| i in ids;
      var n := Above(ids - {i});
      assert forall j :: j in ids ==> j == i || j in ids - {i};
      if i < n then n else i + 1
  }

  /** A complete tree with a job still in execution, as a cancel leaves it, is not final: that
      job's worker can route one more child into it. */
  lemma BusyTreeCanGrow(s: State, root: JobId, w: WorkerId) returns (step: Step)
    requires Inv(s) && IsAt(s, w, Executing) && s.workers[w].job in Tree(s.db.rows, root)
    ensures Enabled(s, step) && step.Route? && step.w == w
    ensures step.id !in Tree(s.db.rows, root) && step.id in Tree(Apply(s, step).db.rows, root)
    ensures !TreeComplete(Apply(s, step).db.rows, root)
  {
    var parent := s.workers[w].job;
    var id := Above(s.past.Keys);
    var rowids := set j | j in s.db.rows :: s.db.rows[j].rowid;
    var rowid := Above(rowids);
    var req := Request("p", "handle", 0, "route", None, None, Some(parent), None);
    step := Route(w, req, id, rowid);
    forall j | j in s.db.rows
      ensures s.db.rows[j].rowid < rowid
    {
      assert s.db.rows[j].rowid in rowids;
    }
    assert Fresh(s, id, rowid) && !Clash(s.db.rows, req);
    InsertIsChildless(s, step);
    var row := NewRow(req, rowid, s.now);
    TreeAfterInsert(s.db.rows, root, id, row);
    assert NextDb(s, step).rows == s.db.rows[id := row];
  }
}
