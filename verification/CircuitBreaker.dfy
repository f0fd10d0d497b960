/** The circuit breaker of one scheduled command and its transition log. */
module CircuitBreaker {
  import opened Base
  import opened JobTables

  datatype CircuitState = Closed | Open | HalfOpen
  datatype Reason = Success | FailureThreshold | CooldownElapsed | ManualReset

  datatype Breaker = Breaker(
    state: CircuitState, failures: nat, openedAt: Option<int>, lastFailure: Option<int>, lastJob: Option<JobId>)

  datatype Change = Change(
    from: Option<CircuitState>, to: CircuitState, failures: nat, reason: Reason, job: Option<JobId>)

  /** The stored breaker row, if any, and the append-only log of its changes. */
  datatype Circuit = Circuit(row: Option<Breaker>, log: seq<Change>)

  /** The latest completed job of the command: succeeded, failed, timed out or dead. */
  datatype Result = Result(job: JobId, succeeded: bool, completedAt: int)

  function Current(c: Circuit): Breaker {
    if c.row.Some? then c.row.value else Breaker(Closed, 0, None, None, None)
  }

  function AfterSuccess(b: Breaker, r: Result): Breaker {
    Breaker(Closed, 0, None, None, Some(r.job))
  }

  function AfterFailure(b: Breaker, r: Result, threshold: int): Breaker {
    if b.failures + 1 >= threshold
    then Breaker(Open, b.failures + 1, Some(r.completedAt), Some(r.completedAt), Some(r.job))
    else Breaker(Closed, b.failures + 1, None, Some(r.completedAt), Some(r.job))
  }

  /** The result is one this breaker has not counted last. */
  predicate IsNews(b: Breaker, r: Result) {
    b.lastJob != Some(r.job)
  }

  /** reconcileCircuitBreaker. */
  function Reconcile(c: Circuit, latest: Option<Result>, threshold: int): Circuit {
    var b := Current(c);
    if latest.None? || !IsNews(b, latest.value) then c
    else
      var r := latest.value;
      var b' := if r.succeeded then AfterSuccess(b, r) else AfterFailure(b, r, threshold);
      Circuit(Some(b'),
              if b'.state == b.state then c.log
              else c.log + [Change(Some(b.state), b'.state, b'.failures,
                                   if b'.state == Open then FailureThreshold else Success, Some(r.job))])
  }

  predicate CooldownOver(b: Breaker, resetAfter: int, now: int) {
    b.openedAt.None? || now >= b.openedAt.value + resetAfter
  }

  /** The breaker part of canSchedule: an open breaker lets one job through after its cooldown. */
  function TrySchedule(c: Circuit, resetAfter: int, now: int): Circuit {
    var b := Current(c);
    if b.state != Open || !CooldownOver(b, resetAfter, now) then c
    else Circuit(Some(b.(state := HalfOpen)),
                 c.log + [Change(Some(Open), HalfOpen, b.failures, CooldownElapsed, b.lastJob)])
  }

  predicate Admits(c: Circuit, resetAfter: int, now: int) {
    Current(c).state != Open || CooldownOver(Current(c), resetAfter, now)
  }

  /** ResetCircuitBreaker. */
  function Reset(c: Circuit): Circuit {
    Circuit(Some(Breaker(Closed, 0, None, None, None)),
            c.log + [Change(if c.row.Some? then Some(c.row.value.state) else None, Closed, 0, ManualReset, None)])
  }

  class BreakerStore {
    var row: Option<Breaker>
    var log: seq<Change>

    function Value(): Circuit
      reads this
    {
      Circuit(row, log)
    }

    method ReconcileCircuitBreaker(latest: Option<Result>, threshold: int)
      modifies this
      ensures Value() == Reconcile(old(Value()), latest, threshold)
    {
      var cb := Current(Value());
      if latest.None? || cb.lastJob == Some(latest.value.job) {
        return;
      }
      var previous, r := cb.state, latest.value;
      if r.succeeded {
        cb := cb.(state := Closed, failures := 0, openedAt := None, lastFailure := None);
      } else {
        cb := cb.(failures := cb.failures + 1, lastFailure := Some(r.completedAt));
        if cb.failures >= threshold {
          cb := cb.(state := Open, openedAt := Some(r.completedAt));
        } else {
          cb := cb.(state := Closed, openedAt := None);
        }
      }
      cb := cb.(lastJob := Some(r.job));
      row := Some(cb);
      if cb.state != previous {
        var reason := Success;
        if cb.state == Open {
          reason := FailureThreshold;
        }
        log := log + [Change(Some(previous), cb.state, cb.failures, reason, Some(r.job))];
      }
    }

    method CanSchedule(resetAfter: int, now: int) returns (allowed: bool)
      modifies this
      ensures allowed == Admits(old(Value()), resetAfter, now)
      ensures allowed <==> old(row).None? || old(row).value.state != Open || old(row).value.openedAt.None? ||
                           now - old(row).value.openedAt.value >= resetAfter
      ensures Value() == TrySchedule(old(Value()), resetAfter, now)
    {
      var cb := Current(Value());
      if cb.state == Open {
        if !CooldownOver(cb, resetAfter, now) {
          return false;
        }
        row := Some(cb.(state := HalfOpen));
        log := log + [Change(Some(Open), HalfOpen, cb.failures, CooldownElapsed, cb.lastJob)];
      }
      allowed := true;
    }

    method ResetCircuitBreaker()
      modifies this
      ensures Value() == Reset(old(Value()))
      ensures forall threshold, rs :: threshold > 0 && BreakerOk(old(Value()), rs, threshold) ==>
                                        BreakerOk(Value(), [], threshold)
    {
      forall threshold, rs | threshold > 0 && BreakerOk(Value(), rs, threshold)
        ensures BreakerOk(Reset(Value()), [], threshold)
      {
        ResetKeeps(Value(), rs, threshold);
      }
      var previous := row;
      row := Some(Breaker(Closed, 0, None, None, None));
      log := log + [Change(if previous.Some? then Some(previous.value.state) else None, Closed, 0, ManualReset, None)];
    }
  }

  // ---------------------------------------------------------------- runs

  datatype Event = Observe(latest: Option<Result>) | Schedule(now: int) | ResetByHand

  function Next(c: Circuit, e: Event, threshold: int, resetAfter: int): Circuit {
    match e
    case Observe(latest) => Reconcile(c, latest, threshold)
    case Schedule(now) => TrySchedule(c, resetAfter, now)
    case ResetByHand => Reset(c)
  }

  function Run(es: seq<Event>, threshold: int, resetAfter: int): Circuit {
    if es == [] then Circuit(None, [])
    else Next(Run(es[..|es| - 1], threshold, resetAfter), es[|es| - 1], threshold, resetAfter)
  }

  /** A result counts unless it is that of the job counted last. */
  predicate Counts(rs: seq<Result>, latest: Option<Result>) {
    latest.Some? && (rs == [] || rs[|rs| - 1].job != latest.value.job)
  }

  /** The results counted since the last manual reset. */
  function Counted(es: seq<Event>): seq<Result> {
    if es == [] then []
    else
      var before := Counted(es[..|es| - 1]);
      match es[|es| - 1]
      case ResetByHand => []
      case Schedule(_) => before
      case Observe(latest) => if Counts(before, latest) then before + [latest.value] else before
  }

  /** How many results at the end of the sequence are failures. */
  function TrailingFailures(rs: seq<Result>): nat {
    if rs == [] || rs[|rs| - 1].succeeded then 0 else 1 + TrailingFailures(rs[..|rs| - 1])
  }

  /** The state that the log leads to. */
  function Replay(log: seq<Change>): CircuitState {
    if log == [] then Closed else log[|log| - 1].to
  }

  /** Each change starts from the state the log had reached; a reset may find no row at all. */
  ghost predicate Connected(log: seq<Change>) {
    forall i :: 0 <= i < |log| ==>
      log[i].from == Some(Replay(log[..i])) ||
      (log[i].from.None? && log[i].reason == ManualReset && Replay(log[..i]) == Closed)
  }

  lemma ConnectedAppend(log: seq<Change>, change: Change)
    requires Connected(log)
    requires change.from == Some(Replay(log)) ||
             (change.from.None? && change.reason == ManualReset && Replay(log) == Closed)
    ensures Connected(log + [change])
  {
    var log' := log + [change];
    forall i | 0 <= i < |log'|
      ensures log'[i].from == Some(Replay(log'[..i])) ||
              (log'[i].from.None? && log'[i].reason == ManualReset && Replay(log'[..i]) == Closed)
    {
      assert log'[..i] == log[..i];
    }
  }

  /** The breaker row says what the counted results say. */
  ghost predicate RowOk(b: Breaker, rs: seq<Result>, threshold: int)
    requires threshold > 0
  {
    b.failures == TrailingFailures(rs) && (b.state == Closed <==> b.failures < threshold) &&
    b.lastJob == (if rs == [] then None else Some(rs[|rs| - 1].job)) &&
    b.lastFailure == (if b.failures == 0 then None else Some(rs[|rs| - 1].completedAt)) &&
    b.openedAt == if b.failures < threshold then None else Some(rs[|rs| - 1].completedAt)
  }

  ghost predicate BreakerOk(c: Circuit, rs: seq<Result>, threshold: int)
    requires threshold > 0
  {
    RowOk(Current(c), rs, threshold) && Replay(c.log) == Current(c).state && Connected(c.log)
  }

  lemma ObserveKeeps(c: Circuit, rs: seq<Result>, latest: Option<Result>, threshold: int)
    requires threshold > 0 && BreakerOk(c, rs, threshold)
    ensures var rs' := if Counts(rs, latest) then rs + [latest.value] else rs;
            BreakerOk(Reconcile(c, latest, threshold), rs', threshold)
  {
    var c' := Reconcile(c, latest, threshold);
    if Counts(rs, latest) {
      assert (rs + [latest.value])[..|rs|] == rs;
      if c'.log != c.log {
        ConnectedAppend(c.log, c'.log[|c.log|]);
      }
    }
  }

  lemma TryKeeps(c: Circuit, rs: seq<Result>, threshold: int, resetAfter: int, now: int)
    requires threshold > 0 && BreakerOk(c, rs, threshold)
    ensures BreakerOk(TrySchedule(c, resetAfter, now), rs, threshold)
  {
    var c' := TrySchedule(c, resetAfter, now);
    if c' != c {
      ConnectedAppend(c.log, c'.log[|c.log|]);
    }
  }

  lemma ResetKeeps(c: Circuit, rs: seq<Result>, threshold: int)
    requires threshold > 0 && BreakerOk(c, rs, threshold)
    ensures BreakerOk(Reset(c), [], threshold)
  {
    ConnectedAppend(c.log, Reset(c).log[|c.log|]);
  }

  /** With a fixed threshold, in every reachable state: closed means fewer failures than the
      threshold, the failure count is the number of trailing failures counted since the last manual
      reset, a breaker that is not closed was opened when the last of them completed, and the log
      replays to the current state. */
  lemma {:induction false} BreakerInvariant(es: seq<Event>, threshold: int, resetAfter: int)
    requires threshold > 0
    ensures BreakerOk(Run(es, threshold, resetAfter), Counted(es), threshold)
  {
    if es != [] {
      var init, e := es[..|es| - 1], es[|es| - 1];
      BreakerInvariant(init, threshold, resetAfter);
      var c, rs := Run(init, threshold, resetAfter), Counted(init);
      match e
      case Observe(latest) => ObserveKeeps(c, rs, latest, threshold);
      case Schedule(now) => TryKeeps(c, rs, threshold, resetAfter, now);
      case ResetByHand => ResetKeeps(c, rs, threshold);
    }
  }

  /** An open breaker lets a job through, and logs that its cooldown is over, exactly from the time on
      at which the failure counted last completed plus the reset time; one that is not open always
      does, and logs nothing. */
  lemma AdmittedIff(es: seq<Event>, now: int, threshold: int, resetAfter: int)
    requires threshold > 0
    ensures var c, c', rs :=
              Run(es, threshold, resetAfter), Run(es + [Schedule(now)], threshold, resetAfter), Counted(es);
            if Current(c).state == Open then
              rs != [] && var last := rs[|rs| - 1];
              (Admits(c, resetAfter, now) <==> now >= last.completedAt + resetAfter) &&
              (if now >= last.completedAt + resetAfter
               then Current(c').state == HalfOpen &&
                    c'.log == c.log + [Change(Some(Open), HalfOpen, TrailingFailures(rs), CooldownElapsed,
                                              Some(last.job))]
               else c' == c)
            else Admits(c, resetAfter, now) && c' == c
  {
    BreakerInvariant(es, threshold, resetAfter);
    assert (es + [Schedule(now)])[..|es|] == es;
  }

  /** What an observed result does: a counted success closes the breaker, a counted failure opens it
      once there are as many in a row as the threshold says, and each change of state is logged with
      its reason, failure count and job. */
  lemma ObservedIs(es: seq<Event>, latest: Option<Result>, threshold: int, resetAfter: int)
    requires threshold > 0
    ensures var c, c', rs :=
              Run(es, threshold, resetAfter), Run(es + [Observe(latest)], threshold, resetAfter), Counted(es);
            if !Counts(rs, latest) then c' == c
            else
              var r := latest.value;
              var n := if r.succeeded then 0 else TrailingFailures(rs) + 1;
              var state := if n >= threshold then Open else Closed;
              Current(c').state == state &&
              c'.log == if state == Current(c).state then c.log
                        else c.log + [Change(Some(Current(c).state), state, n,
                                             if r.succeeded then Success else FailureThreshold, Some(r.job))]
  {
    BreakerInvariant(es, threshold, resetAfter);
    assert (es + [Observe(latest)])[..|es|] == es;
  }

  /** A manual reset closes the breaker, forgets all results, and is always logged. */
  lemma ResetIs(es: seq<Event>, threshold: int, resetAfter: int)
    requires threshold > 0
    ensures var c, c' := Run(es, threshold, resetAfter), Run(es + [ResetByHand], threshold, resetAfter);
            Current(c') == Breaker(Closed, 0, None, None, None) && |c'.log| == |c.log| + 1 && c.log <= c'.log &&
            var change := c'.log[|c.log|];
            change.to == Closed && change.reason == ManualReset && change.failures == 0 && change.job == None &&
            (change.from == None <==> c.row == None) && (change.from.Some? ==> change.from.value == Current(c).state)
  {
    assert (es + [ResetByHand])[..|es|] == es;
  }

  /** A change labelled success is written for a failed result exactly when the failure closes a
      breaker that was not closed, which takes a threshold above the failure count. */
  lemma MislabelledIff(c: Circuit, r: Result, threshold: int)
    requires !r.succeeded
    ensures var c' := Reconcile(c, Some(r), threshold);
            (|c'.log| > |c.log| && c'.log[|c.log|].reason == Success) <==>
            (IsNews(Current(c), r) && Current(c).state != Closed && Current(c).failures + 1 < threshold)
  {
  }

  /** With a fixed threshold that never happens: success is only recorded for a succeeded result. */
  lemma SuccessIsTrue(es: seq<Event>, e: Event, threshold: int, resetAfter: int)
    requires threshold > 0
    ensures var c, c' := Run(es, threshold, resetAfter), Run(es + [e], threshold, resetAfter);
            c.log <= c'.log && |c'.log| <= |c.log| + 1 &&
            (|c'.log| > |c.log| && c'.log[|c.log|].reason == Success ==>
               e.Observe? && e.latest.Some? && e.latest.value.succeeded &&
               c'.log[|c.log|].job == Some(e.latest.value.job))
  {
    BreakerInvariant(es, threshold, resetAfter);
    assert (es + [e])[..|es|] == es;
    var c := Run(es, threshold, resetAfter);
    if e.Observe? && e.latest.Some? && !e.latest.value.succeeded {
      MislabelledIff(c, e.latest.value, threshold);
    }
  }

  /** Raising the threshold while the breaker is open makes the next failure close it as a success. */
  lemma RaisedThresholdMislabels()
    ensures var tripped := Reconcile(Circuit(None, []), Some(Result(1, false, 10)), 1);
            var after := Reconcile(tripped, Some(Result(2, false, 20)), 5);
            Current(tripped).state == Open && Current(after).state == Closed &&
            after.log == tripped.log + [Change(Some(Open), Closed, 2, Success, Some(2))]
  {
  }
}
