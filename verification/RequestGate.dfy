/** The request pacing gate of the MusicBrainz provider (`RequestGate::wait`), for any number of
    concurrent callers. Times are whole ticks of the monotonic clock. */
module RequestPacing {
  import opened Options

  function Max(a: nat, b: nat): nat { if a < b then b else a }

  // The start handed out for `now` when the gate is free from `next` on.
  function StartFor(next: Option<nat>, now: nat): nat {
    match next
    case None => now
    case Some(scheduled) => Max(scheduled, now)
  }

  // The starts handed out to callers that hold the lock one after another.
  function Schedule(interval: nat, nows: seq<nat>): (starts: seq<nat>)
    ensures |starts| == |nows|
  {
    if nows == [] then []
    else
      var before := Schedule(interval, nows[..|nows| - 1]);
      before + [StartFor(NextStart(interval, before), nows[|nows| - 1])]
  }

  function NextStart(interval: nat, starts: seq<nat>): Option<nat> {
    if starts == [] then None else Some(starts[|starts| - 1] + interval)
  }

  class RequestGate {
    const interval: nat
    var nextStart: Option<nat>
    // The clock readings of the callers so far, in lock order.
    ghost var nows: seq<nat>

    ghost predicate Valid()
      reads this
    {
      nextStart == NextStart(interval, Schedule(interval, nows))
    }

    constructor (interval: nat)
      ensures Valid() && this.interval == interval && nows == []
    {
      this.interval := interval;
      nextStart := None;
      nows := [];
    }

    /** The critical section of `wait`: takes the next free slot at or after `now`. */
    method Reserve(now: nat) returns (start: nat)
      requires Valid()
      modifies this
      ensures Valid() && nows == old(nows) + [now]
      ensures Schedule(interval, nows) == old(Schedule(interval, nows)) + [start]
    {
      start := if nextStart.Some? then Max(nextStart.value, now) else now;
      nextStart := Some(start + interval);
      assert (nows + [now])[..|nows|] == nows;
      nows := nows + [now];
    }
  }

  // ----- the exact schedule -----

  lemma ScheduleOfPrefix(interval: nat, nows: seq<nat>, n: nat)
    requires n <= |nows|
    ensures Schedule(interval, nows[..n]) == Schedule(interval, nows)[..n]
    decreases |nows|
  {
    if n < |nows| {
      var m := |nows| - 1;
      ScheduleOfPrefix(interval, nows[..m], n);
      assert nows[..m][..n] == nows[..n];
    } else {
      assert nows[..n] == nows;
    }
  }

  lemma ScheduleAt(interval: nat, nows: seq<nat>, k: nat)
    requires k < |nows|
    ensures var starts := Schedule(interval, nows);
            starts[k] == if k == 0 then nows[0] else Max(starts[k - 1] + interval, nows[k])
  {
    ScheduleOfPrefix(interval, nows, k + 1);
    ScheduleOfPrefix(interval, nows, k);
    var before := Schedule(interval, nows[..k]);
    assert nows[..k + 1][..k] == nows[..k];
    assert Schedule(interval, nows[..k + 1])[k] == StartFor(NextStart(interval, before), nows[k]);
  }

  /** In lock order, start k is the maximum over j <= k of now j plus (k - j) intervals,
      although the clock readings need not be ordered. */
  lemma {:induction false} StartIsMaximum(interval: nat, nows: seq<nat>, k: nat) returns (peak: nat)
    requires k < |nows|
    ensures peak <= k && Schedule(interval, nows)[k] == nows[peak] + (k - peak) * interval
    ensures forall j :: 0 <= j <= k ==> nows[j] + (k - j) * interval <= Schedule(interval, nows)[k]
  {
    ScheduleAt(interval, nows, k);
    if k == 0 {
      peak := 0;
    } else {
      var before := StartIsMaximum(interval, nows, k - 1);
      var starts := Schedule(interval, nows);
      peak := if starts[k - 1] + interval < nows[k] then k else before;
      OneMore(k - 1 - before, interval);
      forall j | 0 <= j <= k ensures nows[j] + (k - j) * interval <= starts[k] {
        if j < k { OneMore(k - 1 - j, interval); }
      }
    }
  }

  lemma OneMore(n: nat, interval: nat)
    ensures (n + 1) * interval == n * interval + interval
  {
  }

  /** Starts are at least one interval apart, so j - i intervals from the i-th to the j-th. */
  lemma {:induction false} StartsAreApart(interval: nat, nows: seq<nat>, i: nat, j: nat)
    requires i <= j < |nows|
    ensures Schedule(interval, nows)[i] + (j - i) * interval <= Schedule(interval, nows)[j]
    decreases j - i
  {
    if i < j {
      StartsAreApart(interval, nows, i, j - 1);
      ScheduleAt(interval, nows, j);
      OneMore(j - 1 - i, interval);
    }
  }

  // Every admissible schedule: no start before its clock reading, and one interval between starts.
  ghost predicate Admissible(interval: nat, nows: seq<nat>, starts: seq<nat>) {
    && |starts| == |nows|
    && (forall k :: 0 <= k < |nows| ==> nows[k] <= starts[k])
    && (forall k :: 0 < k < |nows| ==> starts[k - 1] + interval <= starts[k])
  }

  lemma {:induction false} NoneStartsEarlier(interval: nat, nows: seq<nat>, other: seq<nat>, k: nat)
    requires Admissible(interval, nows, other) && k < |nows|
    ensures Schedule(interval, nows)[k] <= other[k]
  {
    ScheduleAt(interval, nows, k);
    if k > 0 { NoneStartsEarlier(interval, nows, other, k - 1); }
  }

  /** The gate delays nobody longer than pacing requires: its schedule is admissible, and the least that is. */
  lemma ScheduleIsLeast(interval: nat, nows: seq<nat>)
    ensures Admissible(interval, nows, Schedule(interval, nows))
    ensures forall other, k :: Admissible(interval, nows, other) && 0 <= k < |nows| ==>
              Schedule(interval, nows)[k] <= other[k]
  {
    forall k | 0 <= k < |nows| ensures nows[k] <= Schedule(interval, nows)[k] { ScheduleAt(interval, nows, k); }
    forall k | 0 < k < |nows| ensures Schedule(interval, nows)[k - 1] + interval <= Schedule(interval, nows)[k] {
      ScheduleAt(interval, nows, k);
    }
    forall other, k | Admissible(interval, nows, other) && 0 <= k < |nows|
      ensures Schedule(interval, nows)[k] <= other[k]
    {
      NoneStartsEarlier(interval, nows, other, k);
    }
  }

  // The starts among the first n that fall in the closed window.
  function CountIn(starts: seq<nat>, n: nat, from: nat, length: nat): nat
    requires n <= |starts|
  {
    if n == 0 then 0
    else CountIn(starts, n - 1, from, length) + if from <= starts[n - 1] <= from + length then 1 else 0
  }

  lemma {:induction false} WindowStep(interval: nat, nows: seq<nat>, n: nat, from: nat, length: nat) returns (last: nat)
    requires n <= |nows| && CountIn(Schedule(interval, nows), n, from, length) > 0
    ensures last < n && from <= Schedule(interval, nows)[last] <= from + length
    ensures (CountIn(Schedule(interval, nows), n, from, length) - 1) * interval <= Schedule(interval, nows)[last] - from
  {
    var starts := Schedule(interval, nows);
    var before := CountIn(starts, n - 1, from, length);
    if before == 0 {
      last := n - 1;
    } else {
      last := WindowStep(interval, nows, n - 1, from, length);
      if from <= starts[n - 1] <= from + length {
        StartsAreApart(interval, nows, last, n - 1);
        OneMore(before - 1, interval);
        AtLeastOne(n - 1 - last, interval);
        last := n - 1;
      }
    }
  }

  lemma AtLeastOne(n: nat, interval: nat)
    requires n > 0
    ensures interval <= n * interval
  {
    OneMore(n - 1, interval);
  }

  lemma Quotient(n: nat, interval: nat, length: nat)
    requires interval > 0 && n * interval <= length
    ensures n <= length / interval
  {
    if n > length / interval {
      var q := length / interval;
      assert length < (q + 1) * interval;
      Monotone(q + 1, n, interval);
    }
  }

  lemma Monotone(a: nat, b: nat, interval: nat)
    requires a <= b
    ensures a * interval <= b * interval
  {
  }

  /** A closed window of length L holds at most L / interval + 1 starts. */
  lemma WindowHoldsFew(interval: nat, nows: seq<nat>, from: nat, length: nat)
    requires interval > 0
    ensures CountIn(Schedule(interval, nows), |nows|, from, length) <= length / interval + 1
  {
    var count := CountIn(Schedule(interval, nows), |nows|, from, length);
    if count > 0 {
      var last := WindowStep(interval, nows, |nows|, from, length);
      Quotient(count - 1, interval, length);
    }
  }

  // ----- every interleaving of concurrent callers -----

  type CallerId = nat

  // A caller has read the clock, or holds a reserved slot, or has gone on.
  datatype Caller =
    | Stamped(now: nat)
    | Sleeping(slot: nat)
    | Released(slot: nat, at: nat)

  datatype System = System(interval: nat, clock: nat, gate: Option<nat>, callers: map<CallerId, Caller>,
                           nows: seq<nat>, starts: seq<nat>)

  datatype Step =
    | Tick(elapsed: nat)
    | ReadClock(caller: CallerId)
    | HoldLock(caller: CallerId)
    | WakeUp(caller: CallerId)

  function Initial(interval: nat): System {
    System(interval, 0, None, map[], [], [])
  }

  // A sleep never ends before its deadline, so a sleeping caller goes on once the clock reaches its start.
  predicate Enabled(s: System, step: Step) {
    match step
    case Tick(_) => true
    case ReadClock(c) => c !in s.callers
    case HoldLock(c) => c in s.callers && s.callers[c].Stamped?
    case WakeUp(c) => c in s.callers && s.callers[c].Sleeping? && s.callers[c].slot < |s.starts| &&
                      s.starts[s.callers[c].slot] <= s.clock
  }

  function Apply(s: System, step: Step): System
    requires Enabled(s, step)
  {
    match step
    case Tick(elapsed) => s.(clock := s.clock + elapsed)
    case ReadClock(c) => s.(callers := s.callers[c := Stamped(s.clock)])
    case HoldLock(c) =>
      var now := s.callers[c].now;
      var start := StartFor(s.gate, now);
      s.(gate := Some(start + s.interval), callers := s.callers[c := Sleeping(|s.starts|)],
         nows := s.nows + [now], starts := s.starts + [start])
    case WakeUp(c) => s.(callers := s.callers[c := Released(s.callers[c].slot, s.clock)])
  }

  // The system after a run, unless some step of it was not enabled.
  function Execute(s: System, steps: seq<Step>): Option<System>
    decreases |steps|
  {
    if steps == [] then Some(s)
    else if Enabled(s, steps[0]) then Execute(Apply(s, steps[0]), steps[1..])
    else None
  }

  // The log of starts is the schedule of the logged clock readings; slots are owned by one caller
  // each, and nobody goes on before the start of its slot.
  ghost predicate Consistent(s: System) {
    && s.starts == Schedule(s.interval, s.nows)
    && s.gate == NextStart(s.interval, s.starts)
    && (forall k :: 0 <= k < |s.nows| ==> s.nows[k] <= s.clock)
    && (forall c :: c in s.callers && s.callers[c].Stamped? ==> s.callers[c].now <= s.clock)
    && (forall c :: c in s.callers && !s.callers[c].Stamped? ==> s.callers[c].slot < |s.starts|)
    && (forall c :: c in s.callers && s.callers[c].Released? ==>
        s.starts[s.callers[c].slot] <= s.callers[c].at <= s.clock)
    && (forall c, d :: c in s.callers && d in s.callers && c != d ==>
          !s.callers[c].Stamped? && !s.callers[d].Stamped? ==> s.callers[c].slot != s.callers[d].slot)
  }

  lemma LockKeepsConsistent(s: System, c: CallerId)
    requires Consistent(s) && Enabled(s, HoldLock(c))
    ensures Consistent(Apply(s, HoldLock(c)))
  {
    var now := s.callers[c].now;
    assert (s.nows + [now])[..|s.nows|] == s.nows;
    assert Schedule(s.interval, s.nows + [now]) == s.starts + [StartFor(s.gate, now)];
  }

  lemma StepKeepsConsistent(s: System, step: Step)
    requires Consistent(s) && Enabled(s, step)
    ensures Consistent(Apply(s, step)) && Apply(s, step).interval == s.interval
  {
    if step.HoldLock? { LockKeepsConsistent(s, step.caller); }
  }

  /** Every interleaving keeps the exact schedule, one slot per caller, and no early release. */
  lemma {:induction false} RunsAreConsistent(s: System, steps: seq<Step>)
    requires Consistent(s)
    ensures Execute(s, steps).Some? ==>
              Consistent(Execute(s, steps).value) && Execute(s, steps).value.interval == s.interval
    decreases |steps|
  {
    if steps != [] && Enabled(s, steps[0]) {
      StepKeepsConsistent(s, steps[0]);
      RunsAreConsistent(Apply(s, steps[0]), steps[1..]);
    }
  }

  /** In every interleaving, a caller goes on at least as many intervals after an earlier caller's
      start as there are slots between them. */
  lemma ReleasesArePaced(interval: nat, steps: seq<Step>, c: CallerId, d: CallerId)
    requires Execute(Initial(interval), steps).Some?
    requires var s := Execute(Initial(interval), steps).value;
             c in s.callers && d in s.callers && c != d && !s.callers[c].Stamped? && s.callers[d].Released? &&
             s.callers[c].slot <= s.callers[d].slot
    ensures var s := Execute(Initial(interval), steps).value;
            var i, j := s.callers[c].slot, s.callers[d].slot;
            && i < j < |s.starts|
            && s.starts[i] + (j - i) * interval <= s.callers[d].at
  {
    RunsAreConsistent(Initial(interval), steps);
    var s := Execute(Initial(interval), steps).value;
    StartsAreApart(interval, s.nows, s.callers[c].slot, s.callers[d].slot);
  }

  lemma ExecuteStep(s: System, step: Step, rest: seq<Step>)
    requires Enabled(s, step)
    ensures Execute(s, [step] + rest) == Execute(Apply(s, step), rest)
  {
    assert ([step] + rest)[1..] == rest;
  }

  lemma NextCallerGetsThrough(s: System, c: CallerId)
    requires c !in s.callers
    ensures var start := StartFor(s.gate, s.clock);
            var r := Execute(s, [ReadClock(c), HoldLock(c), Tick(start - s.clock), WakeUp(c)]);
            && r.Some? && r.value.clock == start && r.value.starts == s.starts + [start]
            && r.value.callers == s.callers[c := Released(|s.starts|, start)]
  {
    var wait := StartFor(s.gate, s.clock) - s.clock;
    var stamped := Apply(s, ReadClock(c));
    var held := Apply(stamped, HoldLock(c));
    var due := Apply(held, Tick(wait));
    var wake := [WakeUp(c)] + [];
    assert [ReadClock(c), HoldLock(c), Tick(wait), WakeUp(c)] ==
           [ReadClock(c)] + ([HoldLock(c)] + ([Tick(wait)] + wake));
    ExecuteStep(s, ReadClock(c), [HoldLock(c)] + ([Tick(wait)] + wake));
    ExecuteStep(stamped, HoldLock(c), [Tick(wait)] + wake);
    ExecuteStep(held, Tick(wait), wake);
    ExecuteStep(due, WakeUp(c), []);
    assert Apply(due, WakeUp(c)).callers == s.callers[c := Released(|s.starts|, StartFor(s.gate, s.clock))];
  }

  /** In every interleaving, a caller that comes next goes on at once, or one interval after the last start if that is
      later; the others stay as they are. */
  lemma CallersGetThrough(interval: nat, steps: seq<Step>, c: CallerId)
    requires Execute(Initial(interval), steps).Some?
    requires c !in Execute(Initial(interval), steps).value.callers
    ensures var s := Execute(Initial(interval), steps).value;
            var start := if s.starts != [] && s.clock < s.starts[|s.starts| - 1] + interval
                         then s.starts[|s.starts| - 1] + interval else s.clock;
            var r := Execute(s, [ReadClock(c), HoldLock(c), Tick(start - s.clock), WakeUp(c)]);
            && r.Some? && r.value.clock == start && r.value.starts == s.starts + [start]
            && r.value.callers == s.callers[c := Released(|s.starts|, start)]
  {
    RunsAreConsistent(Initial(interval), steps);
    NextCallerGetsThrough(Execute(Initial(interval), steps).value, c);
  }

  // The callers that had gone on by time t.
  ghost function ReleasedBy(s: System, t: nat): set<CallerId> {
    set c | c in s.callers && s.callers[c].Released? && s.callers[c].at <= t
  }

  // Callers with slots of their own, all due by time t, are no more than the starts by then.
  lemma {:induction false} DueSlots(starts: seq<nat>, t: nat, n: nat, group: set<CallerId>, slot: map<CallerId, nat>)
    requires n <= |starts| && group <= slot.Keys
    requires forall c :: c in group ==> slot[c] < n && starts[slot[c]] <= t
    requires forall c, d :: c in group && d in group && c != d ==> slot[c] != slot[d]
    ensures |group| <= CountIn(starts, n, 0, t)
  {
    if n == 0 {
      assert group == {};
    } else if c :| c in group && slot[c] == n - 1 {
      forall d | d in group - {c} ensures slot[d] < n - 1 { assert slot[d] != slot[c]; }
      DueSlots(starts, t, n - 1, group - {c}, slot);
      assert |group| == |group - {c}| + 1;
    } else {
      DueSlots(starts, t, n - 1, group, slot);
    }
  }

  lemma SlotsBound(s: System, t: nat)
    requires Consistent(s)
    ensures |ReleasedBy(s, t)| <= CountIn(s.starts, |s.starts|, 0, t)
  {
    var group := ReleasedBy(s, t);
    DueSlots(s.starts, t, |s.starts|, group, map c | c in group :: s.callers[c].slot);
  }

  /** In every interleaving, at most t / interval + 1 callers have gone on by time t. */
  lemma FewCallersGoOn(interval: nat, steps: seq<Step>, t: nat)
    requires interval > 0 && Execute(Initial(interval), steps).Some?
    ensures |ReleasedBy(Execute(Initial(interval), steps).value, t)| <= t / interval + 1
  {
    RunsAreConsistent(Initial(interval), steps);
    var s := Execute(Initial(interval), steps).value;
    SlotsBound(s, t);
    WindowHoldsFew(interval, s.nows, 0, t);
  }
}
