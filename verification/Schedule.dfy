/** Cron and one-shot schedule entries: what a tick does to the stored entry, and when jobs are fired. */
module Schedule {
  import opened Base

  /** Instants are nanoseconds; a slot is a minute number. */
  const MINUTE := 60_000_000_000

  function Minute(t: int): int {
    t / MINUTE
  }

  /** A parsed expression read in its time zone, and the calendar's "five years later". */
  datatype Cron = Cron(matches: int -> bool, deadline: int -> int)

  datatype Status = Active | PausedInvalid | PausedManual | Exhausted

  datatype Entry = Entry(status: Status, nextRun: Option<int>, lastFired: Option<int>)

  const FRESH := Entry(Active, None, None)

  datatype Attempt = Inserted | DedupeHit | Failed

  /** One pass over an entry: the instants at which the clock is read, whether the time zone is found
      when the entry is evaluated and when it is advanced, whether the first run time can be noted,
      whether the constraints and the circuit breaker allow a job, how the enqueue ends, and whether
      the write after it is made. */
  datatype Tick = Tick(
    start: int, at: int, fired: int, advanced: int, zone: bool, zoneAgain: bool, noted: bool, allowed: bool,
    attempt: Attempt, saved: bool)

  ghost predicate Clock(ts: seq<Tick>) {
    (forall i :: 0 <= i < |ts| ==> ts[i].start <= ts[i].at <= ts[i].fired <= ts[i].advanced) &&
    (forall i, j :: 0 <= i < j < |ts| ==> ts[i].advanced <= ts[j].start)
  }

  predicate Live(e: Entry) {
    e.status == Active || e.status == PausedInvalid
  }

  // ---------------------------------------------------------------- the next slot

  function Search(c: Cron, candidate: int, deadline: int): Option<int>
    decreases deadline - candidate + 1
  {
    if candidate > deadline then None
    else if c.matches(candidate) then Some(candidate)
    else Search(c, candidate + 1, deadline)
  }

  function NextAfter(c: Cron, minute: int): Option<int> {
    Search(c, minute + 1, c.deadline(minute + 1))
  }

  ghost predicate NoneBetween(c: Cron, low: int, high: int) {
    forall m :: low < m <= high ==> !c.matches(m)
  }

  ghost predicate IsLeastAfter(c: Cron, low: int, m: int) {
    low < m && c.matches(m) && NoneBetween(c, low, m - 1)
  }

  lemma {:induction false} SearchIsLeast(c: Cron, candidate: int, deadline: int)
    ensures match Search(c, candidate, deadline)
            case Some(m) => IsLeastAfter(c, candidate - 1, m) && m <= deadline
            case None => NoneBetween(c, candidate - 1, deadline)
    decreases deadline - candidate + 1
  {
    if candidate <= deadline && !c.matches(candidate) {
      SearchIsLeast(c, candidate + 1, deadline);
    }
  }

  /** NextAfter answers the least matching minute strictly after its argument, and fails exactly
      when there is none up to the deadline. */
  lemma NextAfterIff(c: Cron, minute: int, m: int)
    ensures NextAfter(c, minute) == Some(m) <==> IsLeastAfter(c, minute, m) && m <= c.deadline(minute + 1)
    ensures NextAfter(c, minute) == None <==> NoneBetween(c, minute, c.deadline(minute + 1))
  {
    SearchIsLeast(c, minute + 1, c.deadline(minute + 1));
  }

  method FindNextAfter(c: Cron, from: int) returns (r: Option<int>)
    ensures r == NextAfter(c, Minute(from))
  {
    var candidate := Minute(from) + 1;
    var deadline := c.deadline(candidate);
    while candidate <= deadline
      invariant NextAfter(c, Minute(from)) == Search(c, candidate, deadline)
    {
      if c.matches(candidate) {
        return Some(candidate);
      }
      candidate := candidate + 1;
    }
    r := None;
  }

  // ---------------------------------------------------------------- one tick

  predicate Due(c: Cron, e: Entry, at: int) {
    if e.nextRun.None? then c.matches(Minute(at)) else Minute(e.nextRun.value) <= Minute(at)
  }

  /** The tick gets past the enqueue: a job was inserted, or one with the same key is already there. */
  predicate CronFires(c: Cron, e: Entry, t: Tick) {
    Live(e) && t.zone && Due(c, e, t.at) && t.allowed && t.attempt != Failed
  }

  /** The firing is recorded: the time zone and the next slot are found and the entry is written. */
  predicate Recorded(c: Cron, t: Tick) {
    t.zoneAgain && t.saved && NextAfter(c, Minute(t.advanced)).Some?
  }

  function CronTick(c: Cron, e: Entry, t: Tick): Entry {
    if !Live(e) then e
    else if !t.zone then e.(status := PausedInvalid)
    else if !Due(c, e, t.at) then
      if e.nextRun.Some? then e.(status := Active)
      else
        match NextAfter(c, Minute(t.at) - 1)
        case Some(m) => if t.noted then Entry(Active, Some(m * MINUTE), e.lastFired) else e.(status := Active)
        case None => e.(status := PausedInvalid)
    else if CronFires(c, e, t) && Recorded(c, t) then
      Entry(Active, Some(NextAfter(c, Minute(t.advanced)).value * MINUTE), Some(t.fired))
    else e.(status := Active)
  }

  datatype When = At(instant: int) | After(delay: int)

  function RunAt(w: When, e: Entry, t: Tick): int {
    if e.nextRun.Some? then e.nextRun.value else match w case At(i) => i case After(d) => t.start + d
  }

  predicate OneShotFires(w: When, e: Entry, t: Tick) {
    Live(e) && (e.nextRun.Some? || t.noted) && RunAt(w, e, t) <= t.at && t.allowed && t.attempt != Failed
  }

  function OneShotTick(w: When, e: Entry, t: Tick): Entry {
    if !Live(e) then e
    else if e.nextRun.None? && !t.noted then e.(status := Active)
    else if OneShotFires(w, e, t) && t.saved then Entry(Exhausted, None, Some(t.fired))
    else Entry(Active, Some(RunAt(w, e, t)), e.lastFired)
  }

  /** The stored row of one schedule entry. */
  class EntryStore {
    var row: Entry

    constructor ()
      ensures row == FRESH
    {
      row := FRESH;
    }

    method EvaluateCronDue(c: Cron, now: int) returns (due: bool, next: Option<int>, failed: bool)
      ensures due == Due(c, row, now)
      ensures failed == (!due && row.nextRun.None? && NextAfter(c, Minute(now) - 1).None?)
      ensures next == (if due || row.nextRun.Some? then None else NextAfter(c, Minute(now) - 1))
    {
      var slot := Minute(now);
      if row.nextRun.None? {
        if c.matches(slot) {
          return true, None, false;
        }
        next := FindNextAfter(c, now - MINUTE);
        return false, next, next.None?;
      }
      return slot >= Minute(row.nextRun.value), None, false;
    }

    method ProcessCron(c: Cron, t: Tick) returns (inserted: bool)
      modifies this
      ensures row == CronTick(c, old(row), t)
      ensures inserted == (CronFires(c, old(row), t) && t.attempt == Inserted)
    {
      inserted := false;
      if row.status == PausedManual || row.status == Exhausted {
        return;
      }
      if row.status == PausedInvalid {
        row := row.(status := Active);
      }
      if !t.zone {
        row := row.(status := PausedInvalid);
        return;
      }
      var due, next, failed := EvaluateCronDue(c, t.at);
      if failed {
        row := row.(status := PausedInvalid);
        return;
      }
      if next.Some? {
        if !t.noted {
          return;
        }
        row := row.(nextRun := Some(next.value * MINUTE));
      }
      if !due || !t.allowed || t.attempt == Failed {
        return;
      }
      inserted := t.attempt == Inserted;
      if !t.zoneAgain {
        return;
      }
      var slot := FindNextAfter(c, t.advanced);
      if t.saved && slot.Some? {
        row := row.(lastFired := Some(t.fired), nextRun := Some(slot.value * MINUTE));
      }
    }

    method ProcessOneShot(w: When, t: Tick) returns (inserted: bool)
      modifies this
      ensures row == OneShotTick(w, old(row), t)
      ensures inserted == (OneShotFires(w, old(row), t) && t.attempt == Inserted)
    {
      inserted := false;
      if row.status == PausedManual || row.status == Exhausted {
        return;
      }
      if row.status == PausedInvalid {
        row := row.(status := Active);
      }
      var runAt := match w case At(i) => i case After(d) => t.start + d;
      if row.nextRun.None? {
        if !t.noted {
          return;
        }
        row := row.(nextRun := Some(runAt));
      } else {
        runAt := row.nextRun.value;
      }
      if t.at < runAt || !t.allowed || t.attempt == Failed {
        return;
      }
      inserted := t.attempt == Inserted;
      if t.saved {
        row := Entry(Exhausted, None, Some(t.fired));
      }
    }
  }

  // ---------------------------------------------------------------- runs of a cron entry

  function CronRun(c: Cron, ts: seq<Tick>): Entry {
    if ts == [] then FRESH else CronTick(c, CronRun(c, ts[..|ts| - 1]), ts[|ts| - 1])
  }

  predicate FiresAt(c: Cron, ts: seq<Tick>, i: nat)
    requires i < |ts|
  {
    CronFires(c, CronRun(c, ts[..i]), ts[i])
  }

  /** The minute up to which matching minutes have been dealt with, once there is one: that of the
      latest recorded firing, or the one before the first minute found not to match. */
  function DoneUpTo(c: Cron, ts: seq<Tick>): Option<int> {
    if ts == [] then None
    else
      var init, t := ts[..|ts| - 1], ts[|ts| - 1];
      var e := CronRun(c, init);
      if CronFires(c, e, t) && Recorded(c, t) then Some(Minute(t.advanced))
      else if e.nextRun.None? && CronTick(c, e, t).nextRun.Some? then Some(Minute(t.at) - 1)
      else DoneUpTo(c, init)
  }

  ghost predicate WaitsForNextSlot(c: Cron, e: Entry, done: Option<int>) {
    match e.nextRun
    case None => done == None
    case Some(n) => done.Some? && n == Minute(n) * MINUTE && IsLeastAfter(c, done.value, Minute(n))
  }

  /** In every reachable state the stored NextRunAt is a whole matching minute, the least one after
      the minutes dealt with. */
  lemma {:induction false} NextRunIsNextSlot(c: Cron, ts: seq<Tick>)
    ensures WaitsForNextSlot(c, CronRun(c, ts), DoneUpTo(c, ts))
  {
    if ts != [] {
      var init, t := ts[..|ts| - 1], ts[|ts| - 1];
      NextRunIsNextSlot(c, init);
      SearchIsLeast(c, Minute(t.at), c.deadline(Minute(t.at)));
      SearchIsLeast(c, Minute(t.advanced) + 1, c.deadline(Minute(t.advanced) + 1));
    }
  }

  /** So a live entry with a stored slot is due exactly when some matching minute has come since the
      minutes dealt with: no slot is missed and none is served twice. */
  lemma DueIffSlotCame(c: Cron, ts: seq<Tick>, at: int)
    requires DoneUpTo(c, ts).Some?
    ensures Due(c, CronRun(c, ts), at) <==> !NoneBetween(c, DoneUpTo(c, ts).value, Minute(at))
  {
    NextRunIsNextSlot(c, ts);
    var n := Minute(CronRun(c, ts).nextRun.value);
    assert n <= Minute(at) ==> c.matches(n);
  }

  /** What has been dealt with only grows, and covers the minute of every recorded firing. */
  lemma {:induction false} DoneGrows(c: Cron, ts: seq<Tick>, i: nat)
    requires Clock(ts) && i < |ts| && FiresAt(c, ts, i) && Recorded(c, ts[i])
    ensures DoneUpTo(c, ts).Some? && DoneUpTo(c, ts).value >= Minute(ts[i].at)
    decreases |ts|
  {
    var init, t := ts[..|ts| - 1], ts[|ts| - 1];
    if i < |init| {
      assert init[..i] == ts[..i];
      DoneGrows(c, init, i);
      NextRunIsNextSlot(c, init);
      assert ts[i].at <= t.advanced;
    }
  }

  /** Cron firings happen in strictly increasing minutes, after each firing that was recorded, and
      a matching minute lies in between or at the later one. */
  lemma FiringsIncrease(c: Cron, ts: seq<Tick>, i: nat, j: nat)
    requires Clock(ts) && i < j < |ts| && FiresAt(c, ts, i) && FiresAt(c, ts, j) && Recorded(c, ts[i])
    ensures Minute(ts[i].at) < Minute(ts[j].at)
    ensures !NoneBetween(c, Minute(ts[i].at), Minute(ts[j].at))
  {
    var before := ts[..j];
    assert before[..i] == ts[..i];
    DoneGrows(c, before, i);
    DueIffSlotCame(c, before, ts[j].at);
  }

  /** A firing takes the entry off its minute exactly when it is recorded; otherwise the entry is
      still due, and keeps being due at every later instant if it has a stored slot. */
  lemma FiringLeavesMinuteIff(c: Cron, e: Entry, t: Tick)
    requires CronFires(c, e, t) && t.at <= t.advanced
    ensures Recorded(c, t) <==>
            t.zoneAgain && t.saved && !NoneBetween(c, Minute(t.advanced), c.deadline(Minute(t.advanced) + 1))
    ensures Due(c, CronTick(c, e, t), t.at) <==> !Recorded(c, t)
    ensures CronTick(c, e, t).lastFired == if Recorded(c, t) then Some(t.fired) else e.lastFired
    ensures !Recorded(c, t) && e.nextRun.Some? ==> forall later :: t.at <= later ==> Due(c, CronTick(c, e, t), later)
  {
    SearchIsLeast(c, Minute(t.advanced) + 1, c.deadline(Minute(t.advanced) + 1));
  }

  /** A tick fires exactly if the entry is live, the time zone is found, the constraints allow it, the
      enqueue does not fail, and a matching minute has come since the minutes dealt with; with none
      dealt with yet, the current minute must match. */
  lemma FiresIff(c: Cron, ts: seq<Tick>, i: nat)
    requires i < |ts|
    ensures var e, t, done := CronRun(c, ts[..i]), ts[i], DoneUpTo(c, ts[..i]);
            FiresAt(c, ts, i) <==>
            (e.status == Active || e.status == PausedInvalid) && t.zone && t.allowed && t.attempt != Failed &&
            if done.Some? then !NoneBetween(c, done.value, Minute(t.at)) else c.matches(Minute(t.at))
  {
    NextRunIsNextSlot(c, ts[..i]);
    if DoneUpTo(c, ts[..i]).Some? {
      DueIffSlotCame(c, ts[..i], ts[i].at);
    }
  }

  /** A tick leaves an entry that an operator paused or that is exhausted alone. Any other it makes
      active, or pauses as invalid exactly if the time zone is not found, or if no slot is stored, the
      current minute does not match, and none up to the deadline does. */
  lemma StatusIs(c: Cron, e: Entry, t: Tick)
    ensures e.status == PausedManual || e.status == Exhausted ==> CronTick(c, e, t) == e
    ensures e.status == Active || e.status == PausedInvalid ==>
              CronTick(c, e, t).status ==
              if !t.zone || (e.nextRun.None? && NoneBetween(c, Minute(t.at) - 1, c.deadline(Minute(t.at))) &&
                             !c.matches(Minute(t.at)))
              then PausedInvalid else Active
  {
    SearchIsLeast(c, Minute(t.at), c.deadline(Minute(t.at)));
  }

  function Moment(minute: int): Tick {
    var i := minute * MINUTE;
    Tick(i, i, i, i, true, true, true, true, Inserted, true)
  }

  /** A slot whose successor lies beyond the horizon, such as 29 February 2096, is fired by the tick
      that meets it and again by the next one, however much later and whether anything matches then. */
  lemma SparseSlotRepeats(c: Cron, slot: int, later: int)
    requires c.matches(slot) && NoneBetween(c, slot, c.deadline(slot + 1)) && slot < later
    requires !c.matches(slot - 1) && slot <= c.deadline(slot - 1)
    ensures var ts := [Moment(slot - 1), Moment(slot), Moment(later)];
            Clock(ts) && FiresAt(c, ts, 1) && FiresAt(c, ts, 2)
  {
    var ts := [Moment(slot - 1), Moment(slot), Moment(later)];
    assert ts[..2] == [ts[0], ts[1]] && ts[..2][..1] == [ts[0]] == ts[..1] && ts[..1][..0] == [];
    NextAfterIff(c, slot - 2, slot);
    NextAfterIff(c, slot, 0);
    assert CronRun(c, ts[..1]) == Entry(Active, Some(slot * MINUTE), None);
    FiringLeavesMinuteIff(c, CronRun(c, ts[..1]), ts[1]);
  }

  // ---------------------------------------------------------------- runs of a one-shot entry

  function OneShotRun(w: When, ts: seq<Tick>): Entry {
    if ts == [] then FRESH else OneShotTick(w, OneShotRun(w, ts[..|ts| - 1]), ts[|ts| - 1])
  }

  predicate Inserts(w: When, ts: seq<Tick>, i: nat)
    requires i < |ts|
  {
    OneShotFires(w, OneShotRun(w, ts[..i]), ts[i]) && ts[i].attempt == Inserted
  }

  function Insertions(w: When, ts: seq<Tick>): nat {
    if ts == [] then 0
    else Insertions(w, ts[..|ts| - 1]) + if Inserts(w, ts, |ts| - 1) then 1 else 0
  }

  /** Insertions after which the process stopped before the entry was marked exhausted. */
  function Cut(w: When, ts: seq<Tick>): nat {
    if ts == [] then 0
    else Cut(w, ts[..|ts| - 1]) + if Inserts(w, ts, |ts| - 1) && !ts[|ts| - 1].saved then 1 else 0
  }

  /** A one-shot schedule inserts at most one job ever, plus one for each time the process stopped
      between the insertion and marking the entry exhausted. */
  lemma {:induction false} OneShotOnce(w: When, ts: seq<Tick>)
    ensures Insertions(w, ts) <= Cut(w, ts) + (if OneShotRun(w, ts).status == Exhausted then 1 else 0)
  {
    if ts != [] {
      assert ts[..|ts| - 1] == ts[..|ts| - 1][..|ts| - 1];
      OneShotOnce(w, ts[..|ts| - 1]);
    }
  }

  /** The first tick that notes the run time, if any. */
  function FirstNoted(ts: seq<Tick>): (f: nat)
    ensures f <= |ts| && (f < |ts| ==> ts[f].noted) && forall j :: 0 <= j < f ==> !ts[j].noted
  {
    if ts == [] then 0
    else
      var n := |ts| - 1;
      var f := FirstNoted(ts[..n]);
      if f < n || ts[n].noted then f else |ts|
  }

  /** The run time is fixed by the first tick that notes it: nothing is inserted before it. */
  lemma OneShotNotEarly(w: When, ts: seq<Tick>, i: nat)
    requires Clock(ts) && i < |ts| && Inserts(w, ts, i)
    ensures FirstNoted(ts) <= i &&
            match w case At(instant) => instant <= ts[i].at case After(d) => ts[FirstNoted(ts)].start + d <= ts[i].at
  {
    OneShotFiresIff(w, ts, i);
  }

  /** A tick fires exactly if the entry is live, the run time has been noted and has come, the
      constraints allow it, and the enqueue does not fail. */
  lemma OneShotFiresIff(w: When, ts: seq<Tick>, i: nat)
    requires i < |ts|
    ensures var e, t, f := OneShotRun(w, ts[..i]), ts[i], FirstNoted(ts);
            OneShotFires(w, e, t) <==>
            (e.status == Active || e.status == PausedInvalid) && f <= i && t.allowed && t.attempt != Failed &&
            match w case At(instant) => instant <= t.at case After(d) => ts[f].start + d <= t.at
  {
    FixedRunAt(w, ts[..i]);
    assert forall j :: 0 <= j < i ==> ts[..i][j] == ts[j];
    assert FirstNoted(ts[..i]) < i ==> FirstNoted(ts) == FirstNoted(ts[..i]);
  }

  lemma {:induction false} FixedRunAt(w: When, ts: seq<Tick>)
    ensures var e := OneShotRun(w, ts);
            Live(e) ==>
              if FirstNoted(ts) == |ts| then e.nextRun == None
              else e.nextRun == Some(RunAt(w, FRESH, ts[FirstNoted(ts)]))
  {
    if ts != [] {
      FixedRunAt(w, ts[..|ts| - 1]);
    }
  }

  /** A firing exhausts the entry exactly when the write after it is made; otherwise any later tick
      that is allowed fires again. */
  lemma CutInsertsAgain(w: When, e: Entry, t: Tick, later: Tick)
    requires OneShotFires(w, e, t) && t.at <= later.at && later.allowed && later.attempt != Failed
    ensures OneShotTick(w, e, t).status == Exhausted <==> t.saved
    ensures OneShotFires(w, OneShotTick(w, e, t), later) <==> !t.saved
    ensures OneShotTick(w, e, t).lastFired == if t.saved then Some(t.fired) else e.lastFired
  {
  }
}
