/** Concrete runs in which a dead row is left and in which a pruned child is routed again. */
module WitnessRuns {
  import opened Base
  import opened JobTables
  import opened Protocol
  import opened ProtocolInvariant
  import opened JobSafety
  import opened LostWakeups

  /** Dead is not final: the worker of a cancelled job still writes its success. */
  lemma DeadRowIsLeft() returns (states: seq<State>, steps: seq<Step>)
    ensures IsRunFromInit(states, steps) && |steps| > 1
    ensures var n := |steps| - 1;
            1 in states[n].db.rows && states[n].db.rows[1].status == Dead &&
            1 in states[n + 1].db.rows && states[n + 1].db.rows[1].status == Succeeded
  {
    states, steps := CancelRun();
    var s, finish := states[|steps|], Finish(0, Succeeded);
    ReachableInv(states, steps, |steps|);
    assert Executes(s.workers, 0, 1);
    WorkerLeavesDead(s, 0, 1);
    Extend(states, steps, finish, Apply(s, finish));
    states, steps := states + [Apply(s, finish)], steps + [finish];
  }

  // ---------------------------------------------------------------- a pruned child

  const CHILD := Request("q", "d", 1, "route", None, None, Some(1), Some("e"))

  /** Worker 0 executes job 1, whose row runs; the issued ids are given. */
  ghost predicate Working(s: State, issued: set<JobId>) {
    !s.recovering && s.workers == map[0 := Worker(1, 1, 1, Executing)] && s.past.Keys == issued &&
    1 in s.db.rows && s.db.rows[1] == Row1(Running)
  }

  lemma RouteChild(s: State, id: JobId)
    requires Working(s, s.past.Keys) && s.db.rows.Keys == {1} && id !in s.past && id > 1
    ensures var s' := Apply(s, Route(0, CHILD, id, id));
            Enabled(s, Route(0, CHILD, id, id)) && Working(s', s.past.Keys + {id}) && s'.now == s.now &&
            s'.db.rows.Keys == {1, id} && s'.db.rows[id] == NewRow(CHILD, id, s.now)
  {
  }

  lemma CancelChild(s: State)
    requires Working(s, {1, 2}) && s.db.rows.Keys == {1, 2} && s.db.rows[2] == NewRow(CHILD, 2, s.now)
    ensures var s' := Apply(s, CancelJobs("q", "d", [2]));
            Enabled(s, CancelJobs("q", "d", [2])) && Working(s', {1, 2}) && s'.now == s.now &&
            s'.db.rows.Keys == {1, 2} && s'.db.rows[2].status == Dead && s'.db.rows[2].completedAt == Some(s.now)
  {
    assert CancelOrder(s.db.rows, [2], "q", "d");
  }

  lemma PruneChild(s: State)
    requires Working(s, {1, 2}) && s.db.rows.Keys == {1, 2}
    requires s.db.rows[2].status == Dead && s.db.rows[2].completedAt == Some(s.now - 30)
    ensures var s' := Apply(s, PruneJobs(24));
            Enabled(s, PruneJobs(24)) && Working(s', {1, 2}) && s'.db.rows.Keys == {1}
  {
  }

  lemma ChildRun() returns (states: seq<State>, steps: seq<Step>)
    ensures IsRunFromInit(states, steps) && |steps| > 0 && steps[|steps| - 1] == Route(0, CHILD, 2, 2)
    ensures var s := states[|steps|];
            Working(s, {1, 2}) && s.db.rows.Keys == {1, 2} && s.db.rows[2] == NewRow(CHILD, 2, s.now)
  {
    states, steps := Start();
    states, steps := WorkerClaims(states, steps, states[2]);
    var s, route := states[|steps|], Route(0, CHILD, 2, 2);
    RouteChild(s, 2);
    Extend(states, steps, route, Apply(s, route));
    states, steps := states + [Apply(s, route)], steps + [route];
  }

  lemma PruneRun() returns (states: seq<State>, steps: seq<Step>, i: nat)
    ensures IsRunFromInit(states, steps) && i < |steps| && steps[i] == Route(0, CHILD, 2, 2)
    ensures 2 in states[i + 1].db.rows && Working(states[|steps|], {1, 2}) && states[|steps|].db.rows.Keys == {1}
  {
    states, steps := ChildRun();
    i := |steps| - 1;
    var s := states[|steps|];
    var s1 := Apply(s, CancelJobs("q", "d", [2]));
    CancelChild(s);
    Extend(states, steps, CancelJobs("q", "d", [2]), s1);
    states, steps := states + [s1], steps + [CancelJobs("q", "d", [2])];
    var s2 := s1.(now := s1.now + 30);
    Extend(states, steps, Elapse(30), s2);
    states, steps := states + [s2], steps + [Elapse(30)];
    PruneChild(s2);
    Extend(states, steps, PruneJobs(24), Apply(s2, PruneJobs(24)));
    states, steps := states + [Apply(s2, PruneJobs(24))], steps + [PruneJobs(24)];
  }

  /** Once the child row of an event is pruned, routing the same event again makes a second job:
      the same request is inserted under two ids in one run. */
  lemma PrunedChildReturns() returns (states: seq<State>, steps: seq<Step>, i: nat)
    ensures IsRunFromInit(states, steps) && i < |steps| - 1
    ensures steps[i] == Route(0, CHILD, 2, 2) && steps[|steps| - 1] == Route(0, CHILD, 3, 3)
    ensures 2 in states[i + 1].db.rows && 2 !in states[|steps|].db.rows && 3 in states[|steps|].db.rows
  {
    states, steps, i := PruneRun();
    var s, route := states[|steps|], Route(0, CHILD, 3, 3);
    RouteChild(s, 3);
    Extend(states, steps, route, Apply(s, route));
    states, steps := states + [Apply(s, route)], steps + [route];
  }
}
