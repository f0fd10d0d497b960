/** Synchronous waiters never sleep through the end of their job tree. */
module Wakeup {
  import opened JobTables
  import opened JobTree
  import opened Protocol
  import opened ProtocolInvariant
  import opened JobSafety
  import opened TreeFinality

  /** Some worker has written its result and has yet to tell the waiters. */
  ghost predicate NotifyDue(s: State) {
    exists w :: IsAt(s, w, Notifying)
  }

  /** The waiter still has something to wait for. */
  ghost predicate Pending(s: State, root: JobId) {
    root in s.db.rows && (!TreeComplete(s.db.rows, root) || NotifyDue(s))
  }

  /** A waiter about to confirm has seen the tree that is there, and that tree is done. */
  ghost predicate WaiterOk(s: State, wt: WaiterId)
    requires wt in s.waiters
  {
    var waiter := s.waiters[wt];
    waiter.pc.Confirming? ==> TreeDone(s, waiter.root) && waiter.pc.seen == |Tree(s.db.rows, waiter.root)|
  }

  ghost predicate WaitersOk(s: State, root: JobId) {
    forall wt :: wt in s.waiters && s.waiters[wt].root == root ==> WaiterOk(s, wt)
  }

  /** The step moves this waiter. */
  predicate Moves(step: Step, wt: WaiterId) {
    WaiterStep(step) && step.wt == wt
  }

  /** What a step may do to a waiter that it does not move: a notify may fill its channel. */
  ghost predicate OnlySignals(s: State, step: Step, s': State, wt: WaiterId) {
    wt in s.waiters && wt in s'.waiters && !step.Crash? &&
    s'.waiters[wt].(signalled := s.waiters[wt].signalled) == s.waiters[wt] &&
    (Registered(s', wt) ==> Registered(s, wt)) &&
    s'.waiters[wt].signalled == (s.waiters[wt].signalled || (step.Notify? && Registered(s, wt)))
  }

  lemma WaiterStepSparesOthers(s: State, step: Step, wt: WaiterId)
    requires Enabled(s, step) && WaiterStep(step) && wt != step.wt && wt in Control(s, step).waiters
    ensures OnlySignals(s, step, Control(s, step), wt)
  {
    match step
    case Look(_) =>
    case Confirm(_) =>
    case _ =>
  }

  lemma OtherWaitersStay(s: State, step: Step, wt: WaiterId)
    requires Enabled(s, step) && wt in Control(s, step).waiters && !Moves(step, wt)
    ensures OnlySignals(s, step, Control(s, step), wt)
  {
    if WaiterStep(step) {
      WaiterStepSparesOthers(s, step, wt);
    } else if !step.Notify? {
      match step
      case _ =>
    }
  }

  lemma NotifyStaysDue(s: State, step: Step)
    requires Enabled(s, step) && NotifyDue(s) && !step.Notify? && !step.Crash?
    ensures NotifyDue(Control(s, step))
  {
    var w :| IsAt(s, w, Notifying);
    assert IsAt(Control(s, step), w, Notifying) by {
      match step
      case _ =>
    }
  }

  /** A cancel that takes every outstanding job of the tree while nobody is about to notify. */
  ghost predicate Wipes(s: State, step: Step, root: JobId) {
    step.CancelJobs? && !NotifyDue(s) &&
    forall id :: id in Tree(s.db.rows, root) && s.db.rows[id].status.Outstanding() ==> id in step.order
  }

  /** An outstanding job of the tree stays outstanding, or its worker is about to notify. */
  lemma OutstandingStays(s: State, step: Step, root: JobId, id: JobId)
    requires !s.recovering && Enabled(s, step) && KeepsTree(s, step, root)
    requires id in Tree(s.db.rows, root) && s.db.rows[id].status.Outstanding()
    requires step.CancelJobs? ==> id !in step.order
    ensures NextDb(s, step).rows[id].status.Outstanding() || NotifyDue(Control(s, step))
  {
    if !Writes(s, step, id) {
      OtherRowsStay(s, step, id);
    } else if step.Finish? {
      assert IsAt(Control(s, step), step.w, Notifying);
    }
  }

  lemma OutstandingPends(s: State, step: Step, root: JobId, id: JobId)
    requires Inv(s) && !s.recovering && Enabled(s, step) && KeepsTree(s, step, root)
    requires id in Tree(s.db.rows, root) && s.db.rows[id].status.Outstanding() && root in s.db.rows
    requires step.CancelJobs? ==> id !in step.order
    ensures Pending(Apply(s, step), root)
  {
    RootInTree(s.db.rows, root);
    TreeStep(s, step, root);
    OutstandingStays(s, step, root, id);
    if NotifyDue(Control(s, step)) {
      var w :| IsAt(Control(s, step), w, Notifying);
      assert IsAt(Apply(s, step), w, Notifying);
    }
  }

  /** While the tree is kept, what a waiter waits for stays until a notify, unless a cancel wipes it. */
  lemma PendingStays(s: State, step: Step, root: JobId)
    requires Inv(s) && !s.recovering && Enabled(s, step) && KeepsTree(s, step, root) && !Wipes(s, step, root)
    requires Pending(s, root) && !step.Notify? && !step.Crash?
    ensures Pending(Apply(s, step), root)
  {
    if NotifyDue(s) {
      RootInTree(s.db.rows, root);
      NotifyStaysDue(s, step);
      var w :| IsAt(Control(s, step), w, Notifying);
      assert IsAt(Apply(s, step), w, Notifying);
    } else {
      var id :| id in Tree(s.db.rows, root) && !s.db.rows[id].status.Terminal() &&
                (step.CancelJobs? ==> id !in step.order);
      OutstandingPends(s, step, root, id);
    }
  }

  lemma WipedIsComplete(s: State, step: Step, root: JobId)
    requires Enabled(s, step) && Wipes(s, step, root)
    ensures TreeComplete(NextDb(s, step).rows, root) && !NotifyDue(Apply(s, step))
  {
    var rows' := NextDb(s, step).rows;
    TreeStays(s.db.rows, rows', root);
    forall id | id in Tree(rows', root)
      ensures rows'[id].status.Terminal()
    {
    }
    forall w
      ensures !IsAt(Apply(s, step), w, Notifying)
    {
      assert !IsAt(s, w, Notifying);
    }
  }

  /** And such a cancel does lose it: the exact condition of one step. */
  lemma PendingLostIff(s: State, step: Step, root: JobId)
    requires Inv(s) && !s.recovering && Enabled(s, step) && KeepsTree(s, step, root)
    requires Pending(s, root) && !step.Notify? && !step.Crash?
    ensures !Pending(Apply(s, step), root) <==> Wipes(s, step, root)
  {
    if Wipes(s, step, root) {
      WipedIsComplete(s, step, root);
    } else {
      PendingStays(s, step, root);
    }
  }

  /** The tree is complete and has this size. */
  ghost predicate CompleteAt(s: State, root: JobId, size: nat) {
    root in s.db.rows && TreeComplete(s.db.rows, root) && |Tree(s.db.rows, root)| == size
  }

  /** A complete tree keeps its size until it has an outstanding job again. */
  lemma CompleteStays(s: State, step: Step, root: JobId, size: nat)
    requires Inv(s) && Enabled(s, step) && KeepsTree(s, step, root) && CompleteAt(s, root, size)
    ensures CompleteAt(Apply(s, step), root, size) || Pending(Apply(s, step), root)
  {
    RootInTree(s.db.rows, root);
    TreeStep(s, step, root);
    var rows' := NextDb(s, step).rows;
    if TreeComplete(rows', root) {
      forall id | id in Tree(rows', root)
        ensures id in Tree(s.db.rows, root)
      {
        if id !in Tree(s.db.rows, root) {
          NewRowIsQueued(s, step, id);
        }
      }
      assert Tree(rows', root) == Tree(s.db.rows, root);
    }
  }

  lemma NewRowIsQueued(s: State, step: Step, id: JobId)
    requires Enabled(s, step) && Inserts(step) && id == step.id && id !in s.past && s.db.rows.Keys <= s.past.Keys
    requires id in NextDb(s, step).rows
    ensures NextDb(s, step).rows[id].status == Queued
  {
  }

  lemma LookedWaiterOk(s: State, wt: WaiterId)
    requires wt in s.waiters && s.waiters[wt].pc.Looking? && Quiet(s, s.waiters[wt].root)
    requires wt in Looked(s, wt).waiters
    ensures WaiterOk(Looked(s, wt), wt)
  {
    RootInTree(s.db.rows, s.waiters[wt].root);
  }

  lemma ConfirmedWaiterOk(s: State, wt: WaiterId)
    requires wt in s.waiters && s.waiters[wt].pc.Confirming? && WaiterOk(s, wt)
    ensures wt !in Confirmed(s, wt).waiters
  {
    RootInTree(s.db.rows, s.waiters[wt].root);
  }

  /** A waiter that takes a step itself only blocks on an incomplete tree. */
  lemma MovedWaiterOk(s: State, step: Step, wt: WaiterId)
    requires Enabled(s, step) && Moves(step, wt) && wt in Control(s, step).waiters
    requires wt in s.waiters ==> WaiterOk(s, wt) && Quiet(s, s.waiters[wt].root)
    ensures WaiterOk(Control(s, step), wt)
  {
    match step
    case Register(_, _) =>
    case Look(_) => LookedWaiterOk(s, wt);
    case Confirm(_) => ConfirmedWaiterOk(s, wt);
    case Wake(_) =>
    case GiveUp(_) =>
  }

  /** What waiters of one root rely on survives the step. */
  lemma TreeFactsStay(s: State, step: Step, root: JobId)
    requires Inv(s) && Enabled(s, step) && Spares(s, step, root) && !step.Crash?
    ensures TreeDone(s, root) ==>
              TreeDone(Apply(s, step), root) && Tree(Apply(s, step).db.rows, root) == Tree(s.db.rows, root)
  {
    if TreeDone(s, root) {
      DoneStep(s, step, root);
    }
  }

  lemma OtherWaiterOk(s: State, step: Step, s': State, wt: WaiterId)
    requires OnlySignals(s, step, s', wt) && WaiterOk(s, wt)
    requires var root := s.waiters[wt].root;
             TreeDone(s, root) ==> TreeDone(s', root) && Tree(s'.db.rows, root) == Tree(s.db.rows, root)
    ensures WaiterOk(s', wt)
  {
  }

  lemma OtherWaiterStep(s: State, step: Step, wt: WaiterId)
    requires Inv(s) && Enabled(s, step) && wt in Control(s, step).waiters && !Moves(step, wt)
    requires wt in s.waiters ==> WaiterOk(s, wt) && Spares(s, step, s.waiters[wt].root)
    ensures wt in s.waiters && Control(s, step).waiters[wt].root == s.waiters[wt].root
    ensures WaiterOk(Apply(s, step), wt)
  {
    OtherWaitersStay(s, step, wt);
    TreeFactsStay(s, step, s.waiters[wt].root);
    OtherWaiterOk(s, step, Apply(s, step), wt);
  }

  lemma MovedWaiterStep(s: State, step: Step, wt: WaiterId)
    requires Enabled(s, step) && Moves(step, wt) && wt in Control(s, step).waiters
    requires wt in s.waiters ==> WaiterOk(s, wt) && Quiet(s, s.waiters[wt].root)
    ensures WaiterOk(Apply(s, step), wt)
  {
    WaiterFrame(s, step);
    MovedWaiterOk(s, step, wt);
  }

  /** A moving waiter keeps its root, unless it has just arrived. */
  lemma RootsStay(s: State, step: Step, wt: WaiterId)
    requires Enabled(s, step) && wt in Control(s, step).waiters && wt in s.waiters
    ensures Control(s, step).waiters[wt].root == s.waiters[wt].root
  {
    match step
    case _ =>
  }

  lemma WaitersStep(s: State, step: Step, root: JobId)
    requires Inv(s) && Enabled(s, step) && Spares(s, step, root) && Quiet(s, root) && WaitersOk(s, root)
    ensures WaitersOk(Apply(s, step), root)
  {
    forall wt | wt in Control(s, step).waiters && Control(s, step).waiters[wt].root == root
      ensures WaiterOk(Apply(s, step), wt)
    {
      if wt in s.waiters {
        RootsStay(s, step, wt);
      }
      if Moves(step, wt) {
        MovedWaiterStep(s, step, wt);
      } else {
        OtherWaiterStep(s, step, wt);
      }
    }
  }

  lemma NextWaitersOk(states: seq<State>, steps: seq<Step>, i: nat, root: JobId)
    requires IsRunFromInit(states, steps) && i < |steps| && Spares(states[i], steps[i], root)
    requires Quiet(states[i], root) && WaitersOk(states[i], root)
    ensures WaitersOk(states[i + 1], root)
  {
    ReachableInv(states, steps, i);
    WaitersStep(states[i], steps[i], root);
  }

  lemma {:induction false} RunWaitersOk(states: seq<State>, steps: seq<Step>, i: nat, root: JobId)
    requires IsRunFromInit(states, steps) && i < |states|
    requires forall m :: 0 <= m < i ==> Spares(states[m], steps[m], root)
    ensures WaitersOk(states[i], root)
  {
    if i > 0 {
      var j := i - 1;
      RunWaitersOk(states, steps, j, root);
      RunQuiet(states, steps, j, root);
      NextWaitersOk(states, steps, j, root);
      assert j + 1 == i;
    }
  }

  // ---------------------------------------------------------------- who stays registered

  /** Another waiter of the same root registers in this waiter's place, or returns and takes the
      map entry of the root away. */
  ghost predicate Displaces(s: State, step: Step, wt: WaiterId)
    requires Enabled(s, step) && wt in s.waiters
  {
    WaiterStep(step) && step.wt != wt &&
    if step.Register? then step.root == s.waiters[wt].root
    else s.waiters[step.wt].root == s.waiters[wt].root && step.wt !in Control(s, step).waiters
  }

  /** Steps of the engine leave the map alone, and so do the waiter's own until it returns. */
  lemma EngineKeepsRegistered(s: State, step: Step, wt: WaiterId)
    requires Enabled(s, step) && wt in s.waiters && wt in Control(s, step).waiters && !WaiterStep(step)
    ensures Registered(Control(s, step), wt) <==> Registered(s, wt)
  {
    match step
    case Notify(_) =>
    case _ =>
  }

  lemma OwnStepKeepsRegistered(s: State, step: Step, wt: WaiterId)
    requires Enabled(s, step) && wt in s.waiters && wt in Control(s, step).waiters && Moves(step, wt)
    ensures Registered(Control(s, step), wt) <==> Registered(s, wt)
  {
    match step
    case _ =>
  }

  lemma ReturnDisplacesIff(s: State, v: WaiterId, wt: WaiterId)
    requires v in s.waiters && wt in s.waiters && v != wt
    ensures Registered(Returned(s, v), wt) <==> Registered(s, wt) && s.waiters[v].root != s.waiters[wt].root
  {
  }

  lemma ProceedDisplacesNone(s: State, v: WaiterId, pc: WaiterPc, wt: WaiterId)
    requires v in s.waiters && wt in s.waiters && v != wt
    ensures Registered(Proceed(s, v, pc), wt) <==> Registered(s, wt)
  {
  }

  lemma LookDisplacesIff(s: State, step: Step, wt: WaiterId)
    requires Enabled(s, step) && (step.Look? || step.Confirm?) && wt in s.waiters && step.wt != wt
    ensures Registered(Control(s, step), wt) <==> Registered(s, wt) && !Displaces(s, step, wt)
  {
    var s' := Control(s, step);
    ReturnDisplacesIff(s, step.wt, wt);
    if step.wt in s'.waiters {
      ProceedDisplacesNone(s, step.wt, s'.waiters[step.wt].pc, wt);
    }
  }

  lemma OtherWaiterDisplacesIff(s: State, step: Step, wt: WaiterId)
    requires Enabled(s, step) && wt in s.waiters && wt in Control(s, step).waiters && WaiterStep(step) && step.wt != wt
    ensures Registered(Control(s, step), wt) <==> Registered(s, wt) && !Displaces(s, step, wt)
  {
    match step
    case Register(_, _) =>
    case Look(_) => LookDisplacesIff(s, step, wt);
    case Confirm(_) => LookDisplacesIff(s, step, wt);
    case Wake(_) =>
    case GiveUp(v) => ReturnDisplacesIff(s, v, wt);
  }

  /** Registration is lost exactly to a displacing step, and never comes back. */
  lemma RegisteredIff(s: State, step: Step, wt: WaiterId)
    requires Enabled(s, step) && wt in s.waiters && wt in Control(s, step).waiters
    ensures Registered(Control(s, step), wt) <==> Registered(s, wt) && !Displaces(s, step, wt)
  {
    if !WaiterStep(step) {
      EngineKeepsRegistered(s, step, wt);
    } else if step.wt == wt {
      OwnStepKeepsRegistered(s, step, wt);
    } else {
      OtherWaiterDisplacesIff(s, step, wt);
    }
  }

  lemma NextRegisteredIff(states: seq<State>, steps: seq<Step>, i: nat, wt: WaiterId)
    requires IsRun(states, steps) && i < |steps| && wt in states[i].waiters && wt in states[i + 1].waiters
    ensures Registered(states[i + 1], wt) <==> Registered(states[i], wt) && !Displaces(states[i], steps[i], wt)
    ensures states[i + 1].waiters[wt].root == states[i].waiters[wt].root
  {
    RegisteredIff(states[i], steps[i], wt);
    RootsStay(states[i], steps[i], wt);
  }

  /** Waiter wt came with step r and has been there from then until state i. */
  ghost predicate Stays(states: seq<State>, steps: seq<Step>, r: nat, i: nat, wt: WaiterId) {
    IsRun(states, steps) && r < i < |states| && steps[r].Register? && steps[r].wt == wt &&
    forall m :: r < m <= i ==> wt in states[m].waiters
  }

  /** No step since its own registration displaced the waiter. */
  ghost predicate Undisplaced(states: seq<State>, steps: seq<Step>, r: nat, i: nat, wt: WaiterId)
    requires Stays(states, steps, r, i, wt)
  {
    forall m :: r < m < i ==> !Displaces(states[m], steps[m], wt)
  }

  lemma JustRegistered(s: State, step: Step)
    requires Enabled(s, step) && step.Register?
    ensures Registered(Apply(s, step), step.wt) && Apply(s, step).waiters[step.wt].root == step.root
  {
  }

  lemma NextJustRegistered(states: seq<State>, steps: seq<Step>, r: nat)
    requires IsRun(states, steps) && r < |steps| && steps[r].Register?
    ensures Registered(states[r + 1], steps[r].wt) && states[r + 1].waiters[steps[r].wt].root == steps[r].root
  {
    JustRegistered(states[r], steps[r]);
  }

  lemma UndisplacedStep(states: seq<State>, steps: seq<Step>, r: nat, i: nat, wt: WaiterId)
    requires r < i < |steps| && Stays(states, steps, r, i, wt) && Stays(states, steps, r, i + 1, wt)
    ensures Undisplaced(states, steps, r, i + 1, wt) <==>
            Undisplaced(states, steps, r, i, wt) && !Displaces(states[i], steps[i], wt)
  {
  }

  /** The entry of the completions map belongs to the waiter exactly if nobody displaced it. */
  lemma {:induction false} RegisteredIffUndisplaced(states: seq<State>, steps: seq<Step>, r: nat, i: nat, wt: WaiterId)
    requires Stays(states, steps, r, i, wt)
    ensures Registered(states[i], wt) <==> Undisplaced(states, steps, r, i, wt)
    ensures states[i].waiters[wt].root == steps[r].root
    decreases i
  {
    if i == r + 1 {
      NextJustRegistered(states, steps, r);
    } else {
      var j := i - 1;
      RegisteredIffUndisplaced(states, steps, r, j, wt);
      NextRegisteredIff(states, steps, j, wt);
      UndisplacedStep(states, steps, r, j, wt);
      assert j + 1 == i;
    }
  }

  /** A waiter that is the only one of its root the whole time is not displaced. */
  lemma AloneIsUndisplaced(states: seq<State>, steps: seq<Step>, r: nat, i: nat, wt: WaiterId)
    requires Stays(states, steps, r, i, wt)
    requires forall m, v :: r < m <= i && v in states[m].waiters && states[m].waiters[v].root == steps[r].root ==>
                              v == wt
    ensures Undisplaced(states, steps, r, i, wt)
  {
    forall m | r < m < i
      ensures !Displaces(states[m], steps[m], wt)
    {
      RegisteredIffUndisplaced(states, steps, r, m, wt);
      if steps[m].Register? && steps[m].wt != wt {
        JustRegistered(states[m], steps[m]);
        assert steps[m].wt in states[m + 1].waiters;
      }
    }
  }

  /** Blocked on an empty channel that nobody knows any more. */
  ghost predicate Stuck(s: State, wt: WaiterId) {
    wt in s.waiters && s.waiters[wt].pc.Blocked? && !s.waiters[wt].signalled && !Registered(s, wt)
  }

  lemma StuckStep(s: State, step: Step, wt: WaiterId)
    requires Enabled(s, step) && Stuck(s, wt) && wt in Control(s, step).waiters
    ensures Stuck(Control(s, step), wt)
  {
    RegisteredIff(s, step, wt);
    if !Moves(step, wt) {
      OtherWaitersStay(s, step, wt);
    }
  }

  lemma NextStuck(states: seq<State>, steps: seq<Step>, i: nat, wt: WaiterId)
    requires IsRun(states, steps) && i < |steps| && Stuck(states[i], wt) && wt in states[i + 1].waiters
    ensures Stuck(states[i + 1], wt)
  {
    StuckStep(states[i], steps[i], wt);
  }

  /** A displaced waiter that is blocked on an empty channel sleeps in every continuation, until its
      caller gives up or the engine stops. */
  lemma {:induction false} SleepsOn(states: seq<State>, steps: seq<Step>, i: nat, k: nat, wt: WaiterId)
    requires IsRun(states, steps) && i <= k < |states| && Stuck(states[i], wt)
    requires forall m :: i <= m <= k ==> wt in states[m].waiters
    ensures Stuck(states[k], wt)
    decreases k
  {
    if i < k {
      var j := k - 1;
      SleepsOn(states, steps, i, j, wt);
      NextStuck(states, steps, j, wt);
      assert j + 1 == k;
    }
  }

  // ---------------------------------------------------------------- no lost wakeup

  /** The step neither prunes a job of the tree nor wipes it. */
  ghost predicate Calm(s: State, step: Step, root: JobId)
    requires Enabled(s, step)
  {
    KeepsTree(s, step, root) && !Wipes(s, step, root)
  }

  /** Unless a signal is in its channel, a registered waiter that is blocked has something to wait
      for, and so has one about to confirm, or its tree is complete as it saw it. */
  ghost predicate Alert(s: State, wt: WaiterId)
    requires wt in s.waiters
  {
    var waiter := s.waiters[wt];
    Registered(s, wt) && !waiter.signalled ==>
      (waiter.pc.Blocked? ==> Pending(s, waiter.root)) &&
      (waiter.pc.Confirming? ==> Pending(s, waiter.root) || CompleteAt(s, waiter.root, waiter.pc.seen))
  }

  lemma LookedIsAlert(s: State, wt: WaiterId)
    requires wt in s.waiters && wt in Looked(s, wt).waiters
    ensures Alert(Looked(s, wt), wt)
  {
    RootInTree(s.db.rows, s.waiters[wt].root);
  }

  lemma ConfirmedIsAlert(s: State, wt: WaiterId)
    requires wt in s.waiters && s.waiters[wt].pc.Confirming? && Alert(s, wt) && wt in Confirmed(s, wt).waiters
    ensures Alert(Confirmed(s, wt), wt)
  {
    var s', root := Confirmed(s, wt), s.waiters[wt].root;
    RootInTree(s.db.rows, root);
    if Pending(s, root) && NotifyDue(s) {
      var w :| IsAt(s, w, Notifying);
      assert IsAt(s', w, Notifying);
    }
  }

  lemma MovedIsAlert(s: State, step: Step, wt: WaiterId)
    requires Enabled(s, step) && Moves(step, wt) && wt in Control(s, step).waiters
    requires wt in s.waiters ==> Alert(s, wt)
    ensures Alert(Control(s, step), wt)
  {
    match step
    case Register(_, _) =>
    case Look(_) => LookedIsAlert(s, wt);
    case Confirm(_) => ConfirmedIsAlert(s, wt);
    case Wake(_) =>
    case GiveUp(_) =>
  }

  lemma MovedStepIsAlert(s: State, step: Step, wt: WaiterId)
    requires Enabled(s, step) && Moves(step, wt) && wt in Control(s, step).waiters
    requires wt in s.waiters ==> Alert(s, wt)
    ensures Alert(Apply(s, step), wt)
  {
    WaiterFrame(s, step);
    MovedIsAlert(s, step, wt);
  }

  /** What an alert waiter waits for survives every calm step but a notify. */
  lemma CalmFactsStay(s: State, step: Step, root: JobId, size: nat)
    requires Inv(s) && !s.recovering && Enabled(s, step) && Calm(s, step, root) && !step.Crash? && !step.Notify?
    ensures Pending(s, root) ==> Pending(Apply(s, step), root)
    ensures CompleteAt(s, root, size) ==> CompleteAt(Apply(s, step), root, size) || Pending(Apply(s, step), root)
  {
    if Pending(s, root) {
      PendingStays(s, step, root);
    }
    if CompleteAt(s, root, size) {
      CompleteStays(s, step, root, size);
    }
  }

  /** The facts an alert waiter relies on hold after the step as well, or a signal came. */
  ghost predicate FactsStay(s: State, step: Step, s': State, waiter: Waiter) {
    !step.Notify? ==>
      (Pending(s, waiter.root) ==> Pending(s', waiter.root)) &&
      (waiter.pc.Confirming? && CompleteAt(s, waiter.root, waiter.pc.seen) ==>
         CompleteAt(s', waiter.root, waiter.pc.seen) || Pending(s', waiter.root))
  }

  lemma CalmStepKeepsFacts(s: State, step: Step, waiter: Waiter)
    requires Inv(s) && !s.recovering && Enabled(s, step) && Calm(s, step, waiter.root) && !step.Crash?
    ensures FactsStay(s, step, Apply(s, step), waiter)
  {
    if !step.Notify? {
      CalmFactsStay(s, step, waiter.root, if waiter.pc.Confirming? then waiter.pc.seen else 0);
    }
  }

  lemma OtherIsAlert(s: State, step: Step, s': State, wt: WaiterId)
    requires OnlySignals(s, step, s', wt) && Alert(s, wt) && FactsStay(s, step, s', s.waiters[wt])
    ensures Alert(s', wt)
  {
  }

  lemma OthersOnlySignalled(s: State, step: Step, wt: WaiterId)
    requires Enabled(s, step) && wt in Control(s, step).waiters && !Moves(step, wt)
    ensures OnlySignals(s, step, Apply(s, step), wt)
  {
    OtherWaitersStay(s, step, wt);
  }

  lemma OtherStepIsAlert(s: State, step: Step, s': State, wt: WaiterId)
    requires Inv(s) && !s.recovering && Enabled(s, step) && s' == Apply(s, step)
    requires wt in s.waiters && wt in s'.waiters && !Moves(step, wt)
    requires Alert(s, wt) && Calm(s, step, s.waiters[wt].root)
    ensures Alert(s', wt)
  {
    OthersOnlySignalled(s, step, wt);
    CalmStepKeepsFacts(s, step, s.waiters[wt]);
    OtherIsAlert(s, step, s', wt);
  }

  lemma NextIsAlert(states: seq<State>, steps: seq<Step>, i: nat, wt: WaiterId)
    requires IsRunFromInit(states, steps) && i < |steps| && wt in states[i].waiters && wt in states[i + 1].waiters
    requires Alert(states[i], wt) && Calm(states[i], steps[i], states[i].waiters[wt].root)
    ensures Alert(states[i + 1], wt)
  {
    ReachableInv(states, steps, i);
    if Moves(steps[i], wt) {
      MovedStepIsAlert(states[i], steps[i], wt);
    } else {
      OtherStepIsAlert(states[i], steps[i], states[i + 1], wt);
    }
  }

  /** Since the waiter registered, no step pruned or wiped its tree. */
  ghost predicate CalmSince(states: seq<State>, steps: seq<Step>, r: nat, i: nat)
    requires IsRun(states, steps) && r < i < |states| && steps[r].Register?
  {
    forall m :: r < m < i ==> Calm(states[m], steps[m], steps[r].root)
  }

  lemma {:induction false} StaysAlert(states: seq<State>, steps: seq<Step>, r: nat, i: nat, wt: WaiterId)
    requires IsRunFromInit(states, steps) && Stays(states, steps, r, i, wt) && CalmSince(states, steps, r, i)
    ensures Alert(states[i], wt)
    decreases i
  {
    var j := i - 1;
    if j == r {
      NextJustLooking(states, steps, r);
    } else {
      StaysAlert(states, steps, r, j, wt);
      RegisteredIffUndisplaced(states, steps, r, j, wt);
      NextIsAlert(states, steps, j, wt);
    }
    assert j + 1 == i;
  }

  lemma NextJustLooking(states: seq<State>, steps: seq<Step>, r: nat)
    requires IsRun(states, steps) && r < |steps| && steps[r].Register?
    ensures steps[r].wt in states[r + 1].waiters && Alert(states[r + 1], steps[r].wt)
  {
    assert states[r + 1].waiters[steps[r].wt].pc == Looking;
  }

  /** No lost wakeup. A waiter that still owns the map entry of its root, blocked on an empty channel
      although its tree is complete, is about to be woken, if since it registered no job of the tree
      was pruned and no cancel took the last outstanding ones with nobody about to notify: some worker
      stands between its completion write and its notify, and that notify fills the channel. */
  lemma NoLostWakeup(states: seq<State>, steps: seq<Step>, r: nat, i: nat, wt: WaiterId) returns (w: WorkerId)
    requires IsRunFromInit(states, steps) && Stays(states, steps, r, i, wt) && CalmSince(states, steps, r, i)
    requires var waiter := states[i].waiters[wt];
             Registered(states[i], wt) && waiter.pc.Blocked? && !waiter.signalled &&
             TreeComplete(states[i].db.rows, waiter.root)
    ensures IsAt(states[i], w, Notifying) && Enabled(states[i], Notify(w))
    ensures Enabled(Apply(states[i], Notify(w)), Wake(wt))
  {
    StaysAlert(states, steps, r, i, wt);
    w :| IsAt(states[i], w, Notifying);
  }

  /** Some worker is about to notify, and its notify lets the waiter go on. */
  ghost predicate WakesUp(s: State, wt: WaiterId, w: WorkerId) {
    IsAt(s, w, Notifying) && Enabled(Apply(s, Notify(w)), Wake(wt))
  }

  /** Under that condition on the tree, a waiter asleep on a complete tree is about to be woken exactly
      when no other waiter of its root has registered or returned since it registered itself. */
  lemma WokenIffUndisplaced(states: seq<State>, steps: seq<Step>, r: nat, i: nat, wt: WaiterId)
    requires IsRunFromInit(states, steps) && Stays(states, steps, r, i, wt) && CalmSince(states, steps, r, i)
    requires var waiter := states[i].waiters[wt];
             waiter.pc.Blocked? && !waiter.signalled && TreeComplete(states[i].db.rows, steps[r].root)
    ensures (exists w :: WakesUp(states[i], wt, w)) <==> Undisplaced(states, steps, r, i, wt)
    ensures !Undisplaced(states, steps, r, i, wt) ==> Stuck(states[i], wt)
  {
    RegisteredIffUndisplaced(states, steps, r, i, wt);
    if Registered(states[i], wt) {
      var w := NoLostWakeup(states, steps, r, i, wt);
      assert WakesUp(states[i], wt, w);
    }
  }

  /** While no job of the tree was cancelled or pruned, the confirming read never disagrees with the
      first one, so a waiter that saw a complete tree returns, and what it returns is the final tree. */
  lemma ConfirmedTreeIsFinal(states: seq<State>, steps: seq<Step>, i: nat, k: nat, wt: WaiterId)
    requires IsRunFromInit(states, steps) && i <= k < |states|
    requires wt in states[i].waiters && states[i].waiters[wt].pc.Confirming?
    requires var root := states[i].waiters[wt].root;
             (forall m :: 0 <= m < i ==> Spares(states[m], steps[m], root)) &&
             (forall m :: i <= m < k ==> KeepsTree(states[m], steps[m], root))
    ensures wt !in Apply(states[i], Confirm(wt)).waiters
    ensures var root := states[i].waiters[wt].root;
            Tree(states[k].db.rows, root) == Tree(states[i].db.rows, root) && TreeDone(states[k], root)
  {
    var root := states[i].waiters[wt].root;
    RunWaitersOk(states, steps, i, root);
    assert WaiterOk(states[i], wt);
    RootInTree(states[i].db.rows, root);
    DoneForever(states, steps, i, k, root);
  }

  /** A waiter returns exactly when its root is gone, when it confirms a complete tree of the size it
      saw before, or when its caller gives up; otherwise it blocks on a tree that is not complete, and
      confirms one that is. */
  lemma ReturnsIff(s: State, step: Step)
    requires Enabled(s, step) && (step.Look? || step.Confirm?)
    ensures var waiter, s' := s.waiters[step.wt], Control(s, step);
            var gone, complete, size :=
              waiter.root !in s.db.rows, TreeComplete(s.db.rows, waiter.root), |Tree(s.db.rows, waiter.root)|;
            (step.wt !in s'.waiters <==> gone || (step.Confirm? && complete && size == waiter.pc.seen)) &&
            (step.wt in s'.waiters ==>
               s'.waiters[step.wt].pc == if step.Look? && complete then Confirming(size) else Blocked)
  {
    RootInTree(s.db.rows, s.waiters[step.wt].root);
  }

  /** A channel holds a signal after a step exactly if a notify filled it now, or if it did before and
      the waiter has not just come or taken it out. */
  lemma ChannelIs(s: State, step: Step, wt: WaiterId)
    requires Enabled(s, step) && wt in Control(s, step).waiters
    ensures Control(s, step).waiters[wt].signalled <==>
            wt in s.waiters && step != Wake(wt) && (s.waiters[wt].signalled || (step.Notify? && Registered(s, wt)))
  {
    if Moves(step, wt) {
      match step
      case _ =>
    } else {
      OtherWaitersStay(s, step, wt);
    }
  }

  lemma NextChannel(states: seq<State>, steps: seq<Step>, i: nat, wt: WaiterId)
    requires IsRun(states, steps) && i < |steps| && wt in states[i + 1].waiters && states[i + 1].waiters[wt].signalled
    ensures wt in states[i].waiters && steps[i] != Wake(wt)
    ensures states[i].waiters[wt].signalled || (steps[i].Notify? && Registered(states[i], wt))
  {
    ChannelIs(states[i], steps[i], wt);
  }

  /** Step j is a notify that fills the channel; since then the waiter has been there, unwoken. */
  ghost predicate FilledBy(states: seq<State>, steps: seq<Step>, j: nat, k: nat, wt: WaiterId) {
    j < k < |states| && k <= |steps| && steps[j].Notify? && Registered(states[j], wt) &&
    forall m :: j < m < k ==> wt in states[m].waiters && steps[m] != Wake(wt)
  }

  lemma NextFilled(states: seq<State>, steps: seq<Step>, j: nat, i: nat, wt: WaiterId)
    requires FilledBy(states, steps, j, i, wt) && i < |steps| && i + 1 < |states|
    requires wt in states[i].waiters && steps[i] != Wake(wt)
    ensures FilledBy(states, steps, j, i + 1, wt)
  {
  }

  /** Every signal is a notify of its own. */
  lemma {:induction false} SignalledByNotify(states: seq<State>, steps: seq<Step>, k: nat, wt: WaiterId)
    returns (j: nat)
    requires IsRunFromInit(states, steps) && k < |states| && wt in states[k].waiters && states[k].waiters[wt].signalled
    ensures FilledBy(states, steps, j, k, wt)
  {
    assert Init(states[0]) && k > 0;
    var i := k - 1;
    j := i;
    NextChannel(states, steps, i, wt);
    if states[i].waiters[wt].signalled {
      j := SignalledByNotify(states, steps, i, wt);
      NextFilled(states, steps, j, i, wt);
    }
    assert i + 1 == k;
  }
}
