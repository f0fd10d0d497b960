/** Catching up, at startup, on the runs that an every-interval schedule missed. */
module CatchUp {
  import opened Base

  const MAX_RUNS := 100

  /** Nanoseconds in a second, the resolution of a slot in a dedupe key. */
  const SECOND := 1_000_000_000

  datatype Policy = Skip | RunOnce | RunAll

  datatype Timing = Timing(lastFired: Option<int>, lastSuccess: Option<int>, nextRun: Option<int>)

  datatype Attempt = Inserted | DedupeHit | Failed

  /** countMissedRuns; the division is of non-negative numbers. */
  function CountMissed(last: int, now: int, interval: int): nat {
    if interval <= 0 || now <= last || now < last + interval then 0
    else (now - (last + interval)) / interval + 1
  }

  function Slot(last: int, interval: int, k: int): int {
    last + interval * k
  }

  /** The first n slots after an instant. */
  function Slots(last: int, interval: int, n: nat): seq<int> {
    seq(n, i => Slot(last, interval, i + 1))
  }

  /** The instant the next missed slot is counted from. */
  function Start(e: Timing): Option<int> {
    if e.lastFired.Some? then e.lastFired else e.lastSuccess
  }

  function Runs(policy: Policy, missed: nat): nat {
    match policy
    case Skip => 0
    case RunOnce => if missed == 0 then 0 else 1
    case RunAll => if missed > MAX_RUNS then MAX_RUNS else missed
  }

  /** How many slots one pass submits. */
  function PassRuns(policy: Policy, interval: int, e: Timing, now: int): nat {
    if Start(e).None? then 0 else Runs(policy, CountMissed(Start(e).value, now, interval))
  }

  function Submitted(policy: Policy, interval: int, e: Timing, now: int): seq<int> {
    if Start(e).None? then [] else Slots(Start(e).value, interval, PassRuns(policy, interval, e, now))
  }

  function AfterPass(policy: Policy, interval: int, e: Timing, now: int): Timing {
    var n := PassRuns(policy, interval, e, now);
    if n == 0 then e
    else
      var fired := if policy == RunOnce then now else Slot(Start(e).value, interval, n);
      e.(lastFired := Some(fired),
         nextRun := if e.nextRun.None? || e.nextRun.value < fired then Some(fired + interval) else e.nextRun)
  }

  /** The stored timing of an entry, and the slots for which a job has been submitted. */
  class CatchUpStore {
    var timing: Timing
    var submitted: seq<int>
    var inserted: nat

    /** The k-th submission of the pass ends as the outcomes say; the timing advances in any case. */
    method CatchUpSchedule(policy: Policy, interval: int, now: int, outcomes: nat -> Attempt)
      modifies this
      ensures submitted == old(submitted) + Submitted(policy, interval, old(timing), now)
      ensures timing == AfterPass(policy, interval, old(timing), now)
      ensures inserted <= old(inserted) + PassRuns(policy, interval, old(timing), now)
      ensures (forall k :: outcomes(k) == Inserted) ==>
                inserted == old(inserted) + PassRuns(policy, interval, old(timing), now)
    {
      if policy == Skip {
        return;
      }
      var entry := timing;
      if entry.lastFired.None? {
        if entry.lastSuccess.None? {
          return;
        }
        entry := entry.(lastFired := entry.lastSuccess);
      }
      var last := entry.lastFired.value;
      var missed := CountMissed(last, now, interval);
      if missed <= 0 {
        return;
      }
      var toRun := 1;
      if policy == RunAll {
        toRun := missed;
        if toRun > MAX_RUNS {
          toRun := MAX_RUNS;
        }
      }
      var i := 0;
      while i < toRun
        invariant 0 <= i <= toRun
        invariant submitted == old(submitted) + Slots(last, interval, i)
        invariant timing == old(timing)
        invariant inserted <= old(inserted) + i
        invariant (forall k :: outcomes(k) == Inserted) ==> inserted == old(inserted) + i
      {
        submitted := submitted + [last + interval * (i + 1)];
        if outcomes(i) == Inserted {
          inserted := inserted + 1;
        }
        i := i + 1;
      }
      var advanced := last;
      if policy == RunOnce {
        advanced := now;
      } else if toRun > 0 {
        advanced := last + interval * toRun;
      }
      entry := entry.(lastFired := Some(advanced));
      if entry.nextRun.None? || entry.nextRun.value < advanced {
        entry := entry.(nextRun := Some(advanced + interval));
      }
      timing := entry;
    }
  }

  // ---------------------------------------------------------------- what is missed

  lemma DivisionIff(d: int, interval: int, k: int)
    requires interval > 0 && d >= 0
    ensures interval * k <= d <==> k <= d / interval
  {
    var q := d / interval;
    assert interval * q <= d < interval * (q + 1);
    if k <= q {
      assert interval * k <= interval * q;
    } else {
      assert interval * k >= interval * (q + 1);
    }
  }

  /** countMissedRuns counts the slots that have come: the k-th one is missed exactly when k is at
      most the count. */
  lemma MissedIff(last: int, now: int, interval: int, k: int)
    requires interval > 0 && k >= 1
    ensures Slot(last, interval, k) <= now <==> k <= CountMissed(last, now, interval)
  {
    assert interval * k == interval + interval * (k - 1);
    if now >= last + interval {
      DivisionIff(now - (last + interval), interval, k - 1);
    } else {
      assert interval * (k - 1) >= 0;
    }
  }

  lemma SlotAdd(last: int, interval: int, m: int, k: int)
    ensures Slot(Slot(last, interval, m), interval, k) == Slot(last, interval, m + k)
  {
    assert interval * (m + k) == interval * m + interval * k;
  }

  /** With n slots out of the way, n fewer are missed. */
  lemma MissedAfter(last: int, mid: int, now: int, interval: int, n: nat)
    requires interval > 0 && n <= CountMissed(last, now, interval) && mid == Slot(last, interval, n)
    ensures CountMissed(mid, now, interval) == CountMissed(last, now, interval) - n
  {
    var r := CountMissed(mid, now, interval);
    SlotAdd(last, interval, n, r);
    SlotAdd(last, interval, n, r + 1);
    if r >= 1 {
      MissedIff(mid, now, interval, r);
      MissedIff(last, now, interval, n + r);
    }
    MissedIff(mid, now, interval, r + 1);
    MissedIff(last, now, interval, n + r + 1);
  }

  // ---------------------------------------------------------------- runs of passes

  function Passes(interval: int, e: Timing, nows: seq<int>): Timing {
    if nows == [] then e
    else AfterPass(RunAll, interval, Passes(interval, e, nows[..|nows| - 1]), nows[|nows| - 1])
  }

  function AllSubmitted(interval: int, e: Timing, nows: seq<int>): seq<int> {
    if nows == [] then []
    else
      var init := nows[..|nows| - 1];
      AllSubmitted(interval, e, init) + Submitted(RunAll, interval, Passes(interval, e, init), nows[|nows| - 1])
  }

  lemma SlotsJoin(last: int, mid: int, interval: int, m: nat, n: nat)
    requires mid == Slot(last, interval, m)
    ensures Slots(last, interval, m) + Slots(mid, interval, n) == Slots(last, interval, m + n)
    ensures Slot(mid, interval, n) == Slot(last, interval, m + n)
  {
    var left, right := Slots(last, interval, m) + Slots(mid, interval, n), Slots(last, interval, m + n);
    forall i | 0 <= i < m + n ensures left[i] == right[i] {
      SlotAdd(last, interval, m, i - m + 1);
    }
    SlotAdd(last, interval, m, n);
  }

  /** Any number of consecutive run_all passes, at any instants, submits the slots after the first
      last-fired instant in order, none left out and none twice, and stops counting at the last one. */
  lemma {:induction false} PassesAreConsecutive(interval: int, e: Timing, nows: seq<int>)
    requires Start(e).Some?
    ensures var all := AllSubmitted(interval, e, nows);
            all == Slots(Start(e).value, interval, |all|) &&
            Start(Passes(interval, e, nows)) == Some(Slot(Start(e).value, interval, |all|))
  {
    if nows != [] {
      var init, now := nows[..|nows| - 1], nows[|nows| - 1];
      PassesAreConsecutive(interval, e, init);
      var done, e' := AllSubmitted(interval, e, init), Passes(interval, e, init);
      SlotsJoin(Start(e).value, Start(e').value, interval, |done|, PassRuns(RunAll, interval, e', now));
    }
  }

  /** A pass submits slots that have come, at most a hundred, and leaves none behind unless there
      were more than a hundred. */
  lemma PassDrains(interval: int, e: Timing, now: int)
    requires interval > 0 && Start(e).Some?
    ensures var s, left := Submitted(RunAll, interval, e, now),
                           CountMissed(Start(AfterPass(RunAll, interval, e, now)).value, now, interval);
            |s| <= 100 && (forall slot :: slot in s ==> Start(e).value < slot <= now) &&
            |s| + left == CountMissed(Start(e).value, now, interval) && (left > 0 ==> |s| == 100)
  {
    var last, n := Start(e).value, PassRuns(RunAll, interval, e, now);
    forall i | 0 <= i < n ensures last < Slots(last, interval, n)[i] <= now {
      MissedIff(last, now, interval, i + 1);
      assert interval * (i + 1) > 0;
    }
    MissedAfter(last, Slot(last, interval, n), now, interval, n);
  }

  /** A run_once pass submits the first missed slot, if any, and leaves nothing missed. */
  lemma OnceClears(interval: int, e: Timing, now: int)
    requires interval > 0 && Start(e).Some?
    ensures var s, e' := Submitted(RunOnce, interval, e, now), AfterPass(RunOnce, interval, e, now);
            (s == [] <==> now < Slot(Start(e).value, interval, 1)) &&
            (s != [] ==> s == [Slot(Start(e).value, interval, 1)]) &&
            CountMissed(Start(e').value, now, interval) == 0
  {
    MissedIff(Start(e).value, now, interval, 1);
  }

  /** After a pass that submits something, NextRunAt is not behind the last firing: it is an instant
      stored before, or the first slot after that firing. */
  lemma NextRunNotBehind(policy: Policy, interval: int, e: Timing, now: int)
    requires interval > 0 && Submitted(policy, interval, e, now) != []
    ensures var e' := AfterPass(policy, interval, e, now);
            e'.lastFired.Some? && e'.nextRun.Some? && e'.lastSuccess == e.lastSuccess &&
            Start(e).value < e'.lastFired.value <= e'.nextRun.value && e'.lastFired.value <= now &&
            (e'.nextRun == e.nextRun || e'.nextRun.value == Slot(e'.lastFired.value, interval, 1))
  {
    var last, n := Start(e).value, PassRuns(policy, interval, e, now);
    MissedIff(last, now, interval, 1);
    MissedIff(last, now, interval, n);
    assert interval * n > 0;
  }

  // ---------------------------------------------------------------- dedupe keys

  function Key(slot: int): int {
    slot / SECOND
  }

  ghost predicate KeysDistinct(last: int, interval: int, n: nat) {
    forall j, k :: 1 <= j < k <= n ==> Key(Slot(last, interval, j)) != Key(Slot(last, interval, k))
  }

  lemma SpacedKeys(last: int, interval: int, n: nat)
    requires interval >= SECOND
    ensures KeysDistinct(last, interval, n)
  {
    forall j, k | 1 <= j < k <= n ensures Key(Slot(last, interval, j)) != Key(Slot(last, interval, k)) {
      SlotAdd(last, interval, j, k - j);
      assert interval * (k - j) >= interval;
    }
  }

  /** Submitted slots never share a dedupe key exactly when the interval is a second or more. */
  lemma KeysDistinctIff(interval: int)
    requires interval > 0
    ensures (forall last, n: nat :: KeysDistinct(last, interval, n)) <==> interval >= SECOND
  {
    if interval >= SECOND {
      forall last, n: nat ensures KeysDistinct(last, interval, n) {
        SpacedKeys(last, interval, n);
      }
    } else {
      assert Slot(-interval, interval, 1) == 0 && Slot(-interval, interval, 2) == interval;
      assert !KeysDistinct(-interval, interval, 2);
    }
  }

  /** A pass submits something exactly if the policy is not skip, there is a last firing or else a last
      success to count from, and the first slot after it has come. Otherwise it changes nothing. */
  lemma SubmitsIff(policy: Policy, interval: int, e: Timing, now: int)
    ensures var last := if e.lastFired.Some? then e.lastFired else e.lastSuccess;
            var s := Submitted(policy, interval, e, now);
            (s != [] <==> policy != Skip && interval > 0 && last.Some? && last.value + interval <= now) &&
            (s != [] ==> s[0] == last.value + interval) && (s == [] ==> AfterPass(policy, interval, e, now) == e)
  {
    if Start(e).Some? && interval > 0 {
      MissedIff(Start(e).value, now, interval, 1);
    }
  }
}
