/** Concrete runs showing that the conditions of the wakeup and finality theorems are needed. */
module LostWakeups {
  import opened Base
  import opened JobTables
  import opened JobFacts
  import opened JobTree
  import opened Protocol
  import opened Wakeup

  const CFG := Config(1, map[], map[])
  const REQ := Request("p", "c", 1, "api", None, None, None, None)

  function Row1(status: Status): Row {
    Row("p", "c", status, 1, 1, "api", None, 0, 1, None, None, None, None)
  }

  /** The engine is up, idle, and knows one queued job without children. */
  function OneJob(recovering: bool): State {
    State(Db(map[1 := Row1(Queued)], [Transition(1, None, Queued)], {}, map[]), map[1 := Past(1, 0)], 0, CFG,
          recovering, None, map[], 0, 0, None, map[], map[])
  }

  lemma SingleTree(rows: map<JobId, Row>)
    requires rows.Keys == {1}
    ensures Tree(rows, 1) == {1}
    ensures TreeComplete(rows, 1) <==> rows[1].status.Terminal()
  {
    RootInTree(rows, 1);
  }

  lemma Extend(states: seq<State>, steps: seq<Step>, step: Step, s: State)
    requires IsRunFromInit(states, steps) && Enabled(states[|steps|], step) && s == Apply(states[|steps|], step)
    ensures IsRunFromInit(states + [s], steps + [step])
  {
    var states', steps' := states + [s], steps + [step];
    forall i | 0 <= i < |steps'|
      ensures Enabled(states'[i], steps'[i]) && states'[i + 1] == Apply(states'[i], steps'[i])
    {
      if i < |steps| {
        assert Enabled(states[i], steps[i]) && states[i + 1] == Apply(states[i], steps[i]);
      }
    }
  }

  lemma Start() returns (states: seq<State>, steps: seq<Step>)
    ensures IsRunFromInit(states, steps) && |steps| == 2 && states[2] == OneJob(false)
    ensures steps == [Restart(CFG), Submit(REQ, 1, 1)]
  {
    var s0 := State(Db(map[], [], {}, map[]), map[], 0, CFG, true, None, map[], 0, 0, None, map[], map[]);
    var s1 := s0.(recovering := false);
    assert RunningRows(s0.db.rows) == {};
    assert Enabled(s0, Restart(CFG)) && Apply(s0, Restart(CFG)) == s1;
    Extend([s0], [], Restart(CFG), s1);
    var step := Submit(REQ, 1, 1);
    assert Enabled(s1, step) && Apply(s1, step) == OneJob(false);
    Extend([s0, s1], [Restart(CFG)], step, OneJob(false));
    states, steps := [s0, s1, OneJob(false)], [Restart(CFG), step];
  }

  /** The first waiter of job 1, blocked on an empty channel. */
  function Sleeping(s: State): State {
    s.(waiters := map[7 := Waiter(1, false, Blocked)], completions := map[1 := 7])
  }

  lemma LookStep(s: State)
    requires s == OneJob(false).(waiters := map[7 := Waiter(1, false, Looking)], completions := map[1 := 7])
    ensures Enabled(s, Look(7)) && Apply(s, Look(7)) == Sleeping(OneJob(false))
  {
    SingleTree(s.db.rows);
  }

  lemma WaiterBlocks(states: seq<State>, steps: seq<Step>) returns (states': seq<State>, steps': seq<Step>)
    requires IsRunFromInit(states, steps) && |steps| == 2 && states[2] == OneJob(false)
    ensures IsRunFromInit(states', steps') && |steps'| == 4 && states'[4] == Sleeping(OneJob(false))
    ensures steps' == steps + [Register(7, 1), Look(7)]
  {
    var s2 := states[2];
    var s3 := s2.(waiters := map[7 := Waiter(1, false, Looking)], completions := map[1 := 7]);
    assert Enabled(s2, Register(7, 1)) && Apply(s2, Register(7, 1)) == s3;
    Extend(states, steps, Register(7, 1), s3);
    LookStep(s3);
    Extend(states + [s3], steps + [Register(7, 1)], Look(7), Sleeping(s2));
    states', steps' := states + [s3] + [Sleeping(s2)], steps + [Register(7, 1)] + [Look(7)];
  }

  /** A cancel notifies nobody: a registered waiter sleeps on although its whole tree is dead and
      no worker is left. */
  lemma CancelLosesWakeup() returns (states: seq<State>, steps: seq<Step>)
    ensures IsRunFromInit(states, steps)
    ensures var s := states[|steps|];
            Registered(s, 7) && s.waiters[7] == Waiter(1, false, Blocked) && TreeComplete(s.db.rows, 1) &&
            s.workers == map[]
  {
    states, steps := Start();
    states, steps := WaiterBlocks(states, steps);
    var s, step := states[4], CancelJobs("p", "c", [1]);
    assert CancelOrder(s.db.rows, [1], "p", "c");
    SingleTree(NextDb(s, step).rows);
    Extend(states, steps, step, Apply(s, step));
    states, steps := states + [Apply(s, step)], steps + [step];
  }

  /** Job 1 in execution by worker 0. */
  function Claimed(s: State): State {
    s.(db := Db(map[1 := Row1(Running)], [Transition(1, None, Queued), Transition(1, Some(Queued), Running)],
                {(1, 1)}, map[]),
       past := map[1 := Past(1, 1)], active := 1, workers := map[0 := Worker(1, 1, 1, Executing)])
  }

  lemma ClaimStep(s: State)
    requires s == OneJob(false).(waiters := s.waiters, completions := s.completions, filling := Some({}))
    ensures Enabled(s, ClaimNext(0, 1)) && Apply(s, ClaimNext(0, 1)) == Claimed(s.(filling := None))
  {
    assert IsNext(s.db.rows, 1, {}, {}, 0);
  }

  lemma WorkerClaims(states: seq<State>, steps: seq<Step>, s: State) returns (states': seq<State>, steps': seq<Step>)
    requires IsRunFromInit(states, steps) && states[|steps|] == s
    requires s == OneJob(false).(waiters := s.waiters, completions := s.completions)
    ensures IsRunFromInit(states', steps') && states'[|steps'|] == Claimed(s)
    ensures steps' == steps + [CountLanes, ClaimNext(0, 1)]
  {
    var s1 := s.(filling := Some({}));
    assert FullLanes(s.db.rows, s.cfg) == {};
    assert Enabled(s, CountLanes) && Apply(s, CountLanes) == s1;
    Extend(states, steps, CountLanes, s1);
    ClaimStep(s1);
    Extend(states + [s1], steps + [CountLanes], ClaimNext(0, 1), Claimed(s));
    states', steps' := states + [s1] + [Claimed(s)], steps + [CountLanes] + [ClaimNext(0, 1)];
  }

  /** Two waiters for job 1, the second in the first one's place. */
  function Overwritten(s: State): State {
    s.(waiters := map[7 := Waiter(1, false, Blocked), 8 := Waiter(1, false, Looking)], completions := map[1 := 8])
  }

  lemma SecondRegisters(states: seq<State>, steps: seq<Step>) returns (states': seq<State>, steps': seq<Step>)
    requires IsRunFromInit(states, steps) && |steps| == 4 && states[4] == Sleeping(OneJob(false))
    ensures IsRunFromInit(states', steps') && states'[|steps'|] == Claimed(Overwritten(OneJob(false)))
    ensures steps' == steps + [Register(8, 1), CountLanes, ClaimNext(0, 1)]
  {
    var s4, s5 := states[4], Overwritten(OneJob(false));
    assert Enabled(s4, Register(8, 1)) && Apply(s4, Register(8, 1)) == s5;
    Extend(states, steps, Register(8, 1), s5);
    states', steps' := WorkerClaims(states + [s5], steps + [Register(8, 1)], s5);
  }

  /** Job 1 has succeeded and its worker is about to notify. */
  function Ended(s: State): State {
    s.(db := Db(map[1 := Row1(Succeeded).(completedAt := Some(0))],
                [Transition(1, None, Queued), Transition(1, Some(Queued), Running),
                 Transition(1, Some(Running), Succeeded)],
                {(1, 1)}, map[(1, 1) := Succeeded]),
       past := map[1 := Past(1, 1)], active := 1, workers := map[0 := Worker(1, 1, 1, Notifying)])
  }

  lemma FinishStep(s: State)
    requires s == Claimed(Overwritten(OneJob(false)))
    ensures Enabled(s, Finish(0, Succeeded)) && Apply(s, Finish(0, Succeeded)) == Ended(s)
  {
  }

  lemma NotifyStep(s: State)
    requires s == Ended(Claimed(Overwritten(OneJob(false))))
    ensures Enabled(s, Notify(0))
    ensures var s' := Apply(s, Notify(0));
            Stuck(s', 7) && TreeComplete(s'.db.rows, 1) && !NotifyDue(s')
  {
    assert !Registered(s, 7);
    SingleTree(s.db.rows);
  }

  lemma JobEnds(states: seq<State>, steps: seq<Step>) returns (states': seq<State>, steps': seq<Step>)
    requires IsRunFromInit(states, steps) && states[|steps|] == Claimed(Overwritten(OneJob(false)))
    ensures IsRunFromInit(states', steps') && steps' == steps + [Finish(0, Succeeded), Notify(0)]
    ensures var s := states'[|steps'|];
            Stuck(s, 7) && TreeComplete(s.db.rows, 1) && !NotifyDue(s)
  {
    var s, finish := states[|steps|], Finish(0, Succeeded);
    FinishStep(s);
    var s1 := Ended(s);
    Extend(states, steps, finish, s1);
    NotifyStep(s1);
    var s2 := Apply(s1, Notify(0));
    Extend(states + [s1], steps + [finish], Notify(0), s2);
    states', steps' := states + [s1] + [s2], steps + [finish] + [Notify(0)];
  }

  /** A second waiter for the same root takes over its map entry. The first one is then stuck on a
      complete tree, even without any cancel, and by SleepsOn it sleeps in every continuation. */
  lemma SecondWaiterLosesWakeup() returns (states: seq<State>, steps: seq<Step>)
    ensures IsRunFromInit(states, steps)
    ensures forall i :: 0 <= i < |steps| ==> !steps[i].CancelJobs? && !steps[i].PruneJobs?
    ensures var s := states[|steps|];
            Stuck(s, 7) && TreeComplete(s.db.rows, 1) && !NotifyDue(s)
  {
    states, steps := Start();
    states, steps := WaiterBlocks(states, steps);
    states, steps := SecondRegisters(states, steps);
    states, steps := JobEnds(states, steps);
  }

  ghost predicate Cancelled(s: State) {
    s.workers == map[0 := Worker(1, 1, 1, Executing)] && s.past.Keys == {1} && s.db.rows.Keys == {1} &&
    s.db.rows[1].rowid == 1 && s.db.rows[1].status == Dead && s.db.rows[1].parent.None?
  }

  lemma CancelStep(s: State)
    requires s == Claimed(OneJob(false))
    ensures Enabled(s, CancelJobs("p", "c", [1])) && Cancelled(Apply(s, CancelJobs("p", "c", [1])))
  {
    assert CancelOrder(s.db.rows, [1], "p", "c");
  }

  lemma RouteStep(s: State)
    requires Cancelled(s)
    ensures TreeComplete(s.db.rows, 1)
    ensures var route := Route(0, REQ.(parent := Some(1)), 2, 2);
            Enabled(s, route) && Tree(Apply(s, route).db.rows, 1) != Tree(s.db.rows, 1)
  {
    SingleTree(s.db.rows);
    var route := Route(0, REQ.(parent := Some(1)), 2, 2);
    var row := NewRow(route.req, 2, s.now);
    assert NextDb(s, route).rows == s.db.rows[2 := row];
    TreeAfterInsert(s.db.rows, 1, 2, row);
  }

  /** The run in which job 1 is cancelled while its worker executes it. */
  lemma CancelRun() returns (states: seq<State>, steps: seq<Step>)
    ensures IsRunFromInit(states, steps) && |steps| > 0 && Cancelled(states[|steps|])
  {
    states, steps := Start();
    states, steps := WorkerClaims(states, steps, states[2]);
    var s, cancel := states[|steps|], CancelJobs("p", "c", [1]);
    CancelStep(s);
    Extend(states, steps, cancel, Apply(s, cancel));
    states, steps := states + [Apply(s, cancel)], steps + [cancel];
  }

  /** A cancelled tree looks complete but can still grow: its running worker routes a child. */
  lemma CancelledTreeGrows() returns (states: seq<State>, steps: seq<Step>)
    ensures IsRunFromInit(states, steps) && |steps| > 1
    ensures var n := |steps| - 1;
            TreeComplete(states[n].db.rows, 1) && 1 in states[n].db.rows &&
            Tree(states[n + 1].db.rows, 1) != Tree(states[n].db.rows, 1)
  {
    states, steps := CancelRun();
    var s, route := states[|steps|], Route(0, REQ.(parent := Some(1)), 2, 2);
    RouteStep(s);
    Extend(states, steps, route, Apply(s, route));
    states, steps := states + [Apply(s, route)], steps + [route];
  }
}
