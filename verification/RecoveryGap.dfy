/** A kill by crash recovery takes two transactions; what a crash between them leaves behind. */
module RecoveryGap {
  import opened Base
  import opened JobTables
  import opened JobFacts
  import opened Protocol
  import opened ProtocolInvariant
  import opened JobSafety
  import opened LostWakeups

  /** A terminal row without completion time, which no prune can remove. */
  ghost predicate Unfinished(s: State, id: JobId) {
    id in s.db.rows && s.db.rows[id].status.Terminal() && s.db.rows[id].completedAt.None?
  }

  /** Recovery gives up on this job, which was never cancelled before. */
  ghost predicate Kills(s: State, step: Step, id: JobId) {
    step.Recover? && step.id == id && id in s.db.rows && RecoveryStatus(s.db.rows[id]) == Dead &&
    s.db.rows[id].completedAt.None?
  }

  /** The second transaction of the kill is still to come. */
  ghost predicate Killing(s: State, id: JobId) {
    Unfinished(s, id) && s.killing == Some(id) && (id, s.db.rows[id].attempt) !in s.db.jobLog
  }

  /** The kill was cut short: nothing is left that would complete the row. */
  ghost predicate Stranded(s: State, id: JobId) {
    Unfinished(s, id) && s.killing != Some(id) && (id, s.db.rows[id].attempt) !in s.db.jobLog &&
    forall w :: !Executes(s.workers, w, id)
  }

  lemma WrittenUnfinished(s: State, step: Step, id: JobId)
    requires Enabled(s, step) && id in s.db.rows && Writes(s, step, id) && !Unfinished(s, id)
    ensures Unfinished(Apply(s, step), id) <==> Kills(s, step, id)
  {
    match step
    case _ =>
  }

  lemma KillStarts(s: State, step: Step, id: JobId)
    requires JobLogOk(s.db.jobLog, s.db.rows, s.past) && Enabled(s, step) && Kills(s, step, id)
    ensures Killing(Apply(s, step), id)
  {
  }

  /** An unfinished row arises exactly from the first transaction of a kill. */
  lemma UnfinishedArisesIff(s: State, step: Step, id: JobId)
    requires JobLogOk(s.db.jobLog, s.db.rows, s.past) && Enabled(s, step) && !Unfinished(s, id)
    ensures Unfinished(Apply(s, step), id) <==> Kills(s, step, id)
    ensures Kills(s, step, id) ==> Killing(Apply(s, step), id)
  {
    if Kills(s, step, id) {
      KillStarts(s, step, id);
    } else if id !in s.db.rows {
      if id in NextDb(s, step).rows {
        NotBornTerminal(s, step, id);
      }
    } else if Writes(s, step, id) {
      WrittenUnfinished(s, step, id);
    } else {
      OtherRowsStay(s, step, id);
    }
  }

  lemma NotBornTerminal(s: State, step: Step, id: JobId)
    requires Enabled(s, step) && id !in s.db.rows && id in NextDb(s, step).rows
    ensures NextDb(s, step).rows[id].status == Queued
  {
    match step
    case _ =>
  }

  /** The log row of an attempt comes only from a write of its job. */
  lemma LogStays(s: State, step: Step, id: JobId, attempt: int)
    requires Enabled(s, step) && !Writes(s, step, id)
    ensures (id, attempt) in NextDb(s, step).jobLog <==> (id, attempt) in s.db.jobLog
  {
    match step
    case _ =>
  }

  lemma KillFinishes(s: State, id: JobId)
    requires Enabled(s, FinishKill) && Killing(s, id)
    ensures var s' := Apply(s, FinishKill);
            !Unfinished(s', id) && id in s'.db.rows && (id, s'.db.rows[id].attempt) in s'.db.jobLog
  {
  }

  lemma KillingIsNotWritten(s: State, step: Step, id: JobId)
    requires PhaseOk(s) && Enabled(s, step) && Killing(s, id) && !step.FinishKill?
    ensures !Writes(s, step, id) && id in NextDb(s, step).rows
    ensures s.recovering && s.workers == map[] && (!step.Crash? ==> Control(s, step).killing == s.killing)
  {
    match step
    case _ =>
  }

  /** The second transaction completes the row and its log; a crash strands it; nothing else matters. */
  lemma KillingStep(s: State, step: Step, id: JobId)
    requires PhaseOk(s) && Enabled(s, step) && Killing(s, id)
    ensures var s' := Apply(s, step);
            if step.FinishKill? then
              !Unfinished(s', id) && id in s'.db.rows && (id, s'.db.rows[id].attempt) in s'.db.jobLog
            else if step.Crash? then Stranded(s', id)
            else Killing(s', id)
  {
    if step.FinishKill? {
      KillFinishes(s, id);
    } else {
      KillingIsNotWritten(s, step, id);
      OtherRowsStay(s, step, id);
      LogStays(s, step, id, s.db.rows[id].attempt);
    }
  }

  lemma StrandedIsNotWritten(s: State, step: Step, id: JobId)
    requires PhaseOk(s) && Enabled(s, step) && Stranded(s, id)
    ensures !Writes(s, step, id) && !(step.PruneJobs? && id !in NextDb(s, step).rows)
  {
    assert (step.Finish? || step.Retry?) && s.workers[step.w].job == id ==> Executes(s.workers, step.w, id);
  }

  lemma StrandedStaysAlone(s: State, step: Step, id: JobId, w: WorkerId)
    requires Enabled(s, step) && Stranded(s, id)
    ensures !Executes(Control(s, step).workers, w, id) && Control(s, step).killing != Some(id)
  {
    if Executes(Control(s, step).workers, w, id) {
      ExecutedBefore(s, step, w, id);
    }
    StrandedIsNotKilled(s, step, id);
  }

  lemma StrandedIsNotKilled(s: State, step: Step, id: JobId)
    requires Enabled(s, step) && Stranded(s, id)
    ensures Control(s, step).killing != Some(id)
  {
    match step
    case _ =>
  }

  /** A stranded row is never written, completed or pruned again. */
  lemma StrandedStep(s: State, step: Step, id: JobId)
    requires PhaseOk(s) && Enabled(s, step) && Stranded(s, id)
    ensures Stranded(Apply(s, step), id) && Apply(s, step).db.rows[id] == s.db.rows[id]
  {
    StrandedIsNotWritten(s, step, id);
    OtherRowsStay(s, step, id);
    LogStays(s, step, id, s.db.rows[id].attempt);
    forall w
      ensures !Executes(Control(s, step).workers, w, id) && Control(s, step).killing != Some(id)
    {
      StrandedStaysAlone(s, step, id, w);
    }
  }

  lemma NextStranded(states: seq<State>, steps: seq<Step>, i: nat, id: JobId)
    requires IsRunFromInit(states, steps) && i < |steps| && Stranded(states[i], id)
    ensures Stranded(states[i + 1], id) && states[i + 1].db.rows[id] == states[i].db.rows[id]
  {
    ReachableInv(states, steps, i);
    StrandedStep(states[i], steps[i], id);
  }

  /** It stays in the table for ever, without completion time and without a log row. */
  lemma {:induction false} StrandedForever(states: seq<State>, steps: seq<Step>, i: nat, k: nat, id: JobId)
    requires IsRunFromInit(states, steps) && i <= k < |states| && Stranded(states[i], id)
    ensures Stranded(states[k], id) && states[k].db.rows[id] == states[i].db.rows[id]
    decreases k
  {
    if i < k {
      var j := k - 1;
      StrandedForever(states, steps, i, j, id);
      NextStranded(states, steps, j, id);
      assert j + 1 == k;
    }
  }

  /** Every unfinished row of a reachable state is being killed or stranded. */
  lemma {:induction false} UnfinishedIsKilled(states: seq<State>, steps: seq<Step>, i: nat, id: JobId)
    requires IsRunFromInit(states, steps) && i < |states| && Unfinished(states[i], id)
    ensures Killing(states[i], id) || Stranded(states[i], id)
  {
    assert i > 0;
    var j := i - 1;
    if Unfinished(states[j], id) {
      UnfinishedIsKilled(states, steps, j, id);
    }
    NextUnfinished(states, steps, j, id);
    assert j + 1 == i;
  }

  lemma NextUnfinished(states: seq<State>, steps: seq<Step>, i: nat, id: JobId)
    requires IsRunFromInit(states, steps) && i < |steps| && Unfinished(states[i + 1], id)
    requires Unfinished(states[i], id) ==> Killing(states[i], id) || Stranded(states[i], id)
    ensures Killing(states[i + 1], id) || Stranded(states[i + 1], id)
  {
    ReachableInv(states, steps, i);
    if !Unfinished(states[i], id) {
      UnfinishedArisesIff(states[i], steps[i], id);
    } else if Killing(states[i], id) {
      KillingStep(states[i], steps[i], id);
    } else {
      StrandedStep(states[i], steps[i], id);
    }
  }

  // ---------------------------------------------------------------- a run that strands a row

  lemma CrashStep(s: State)
    requires s == Claimed(OneJob(false))
    ensures var s' := Apply(s, Crash); Kills(s', Recover(1), 1) && Enabled(s', Recover(1))
  {
  }

  /** The worker's only attempt is cut off by a crash, and recovery by another one. */
  lemma StrandedRow() returns (states: seq<State>, steps: seq<Step>)
    ensures IsRunFromInit(states, steps) && Stranded(states[|steps|], 1)
  {
    states, steps := Start();
    states, steps := WorkerClaims(states, steps, states[2]);
    var s := states[|steps|];
    CrashStep(s);
    Extend(states, steps, Crash, Apply(s, Crash));
    states, steps := states + [Apply(s, Crash)], steps + [Crash];
    var s1 := states[|steps|];
    ReachableInv(states, steps, |steps|);
    UnfinishedArisesIff(s1, Recover(1), 1);
    Extend(states, steps, Recover(1), Apply(s1, Recover(1)));
    states, steps := states + [Apply(s1, Recover(1))], steps + [Recover(1)];
    var s2 := states[|steps|];
    ReachableInv(states, steps, |steps|);
    KillingStep(s2, Crash, 1);
    Extend(states, steps, Crash, Apply(s2, Crash));
    states, steps := states + [Apply(s2, Crash)], steps + [Crash];
  }
}
