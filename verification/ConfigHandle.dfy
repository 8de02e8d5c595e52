/** Persist, then publish (`ConfigHandle::replace_after` and `snapshot`). Validation is a parameter, and the atomic
    rename that ends persisting may fail. */
module ConfigPublication {
  import opened Options

  // What a writer changes, in the order it does.
  datatype Write<C> = ToFile(config: C) | ToMemory(config: C)

  /** One handle, used by one writer at a time. */
  class ConfigHandle<C> {
    // What `snapshot` returns, what the file holds once it was written, and all writes so far.
    var config: C
    var file: Option<C>
    var writes: seq<Write<C>>

    constructor (config: C)
      ensures this.config == config && file == None && writes == []
    {
      this.config := config;
      file := None;
      writes := [];
    }

    method Snapshot() returns (c: C)
      ensures c == config
    {
      c := config;
    }

    // The atomic rename at the end of persisting, which may fail.
    method Persist(next: C, succeeds: bool) returns (ok: bool)
      modifies this`file, this`writes
      ensures ok == succeeds
      ensures ok ==> file == Some(next) && writes == old(writes) + [ToFile(next)]
      ensures !ok ==> file == old(file) && writes == old(writes)
    {
      if succeeds { file, writes := Some(next), writes + [ToFile(next)]; }
      return succeeds;
    }

    /** Publishes a proposal only after it was validated and persisted: the file is written first, then the memory. */
    method ReplaceAfter(next: C, prepare: C -> Option<C>, succeeds: bool) returns (ok: bool)
      modifies this
      ensures ok == (prepare(next).Some? && succeeds)
      ensures ok ==> file == Some(config) == prepare(next)
      ensures ok ==> writes == old(writes) + [ToFile(config), ToMemory(config)]
      ensures !ok ==> config == old(config) && file == old(file) && writes == old(writes)
    {
      var prepared := prepare(next);
      if prepared.None? { return false; }
      var persisted := Persist(prepared.value, succeeds);
      if !persisted { return false; }
      config, writes := prepared.value, writes + [ToMemory(prepared.value)];
      return true;
    }
  }

  // ----- concurrent writers and readers -----

  type ThreadId = nat

  datatype Phase<C> =
    | Proposing(next: C)
    | Holding(next: C)
    | Prepared(next: C)
    | Persisted(next: C)
    | Published
    | Ended(ok: bool)

  // A snapshot, and how many configurations had been in memory by then.
  datatype Seen<C> = Seen(config: C, count: nat)

  datatype System<!C> = System(
    prepare: C -> Option<C>,
    lock: Option<ThreadId>,
    writers: map<ThreadId, Phase<C>>,
    memory: C,
    published: seq<C>,
    persisted: seq<C>,
    snapshots: seq<Seen<C>>)

  datatype Step<C> =
    | Propose(writer: ThreadId, next: C)
    | Acquire(writer: ThreadId)
    | Prepare(writer: ThreadId)
    | Rename(writer: ThreadId, succeeds: bool)
    | Publish(writer: ThreadId)
    | Release(writer: ThreadId)
    | Read

  function Initial<C>(prepare: C -> Option<C>, config: C): System<C> {
    System(prepare, None, map[], config, [config], [], [])
  }

  predicate Enabled<C>(s: System<C>, step: Step<C>) {
    match step
    case Propose(w, _) => w !in s.writers
    case Acquire(w) => w in s.writers && s.writers[w].Proposing? && s.lock.None?
    case Prepare(w) => w in s.writers && s.writers[w].Holding?
    case Rename(w, _) => w in s.writers && s.writers[w].Prepared?
    case Publish(w) => w in s.writers && s.writers[w].Persisted?
    case Release(w) => w in s.writers && s.writers[w].Published?
    case Read => true
  }

  function Apply<C>(s: System<C>, step: Step<C>): System<C>
    requires Enabled(s, step)
  {
    match step
    case Propose(w, next) => s.(writers := s.writers[w := Proposing(next)])
    case Acquire(w) => s.(lock := Some(w), writers := s.writers[w := Holding(s.writers[w].next)])
    case Prepare(w) =>
      var prepared := s.prepare(s.writers[w].next);
      if prepared.Some? then s.(writers := s.writers[w := Prepared(prepared.value)])
      else s.(lock := None, writers := s.writers[w := Ended(false)])
    case Rename(w, succeeds) =>
      var next := s.writers[w].next;
      if succeeds then s.(persisted := s.persisted + [next], writers := s.writers[w := Persisted(next)])
      else s.(lock := None, writers := s.writers[w := Ended(false)])
    case Publish(w) =>
      var next := s.writers[w].next;
      s.(memory := next, published := s.published + [next], writers := s.writers[w := Published])
    case Release(w) => s.(lock := None, writers := s.writers[w := Ended(true)])
    case Read => s.(snapshots := s.snapshots + [Seen(s.memory, |s.published|)])
  }

  // The system after a run, unless some step of it was not enabled.
  function Execute<C>(s: System<C>, steps: seq<Step<C>>): Option<System<C>>
    decreases |steps|
  {
    if steps == [] then Some(s)
    else if Enabled(s, steps[0]) then Execute(Apply(s, steps[0]), steps[1..])
    else None
  }

  predicate InCriticalSection<C>(p: Phase<C>) {
    p.Holding? || p.Prepared? || p.Persisted? || p.Published?
  }

  // The lock holder, and only it, is between acquiring and releasing.
  ghost predicate Exclusive<C>(s: System<C>) {
    && (forall w :: w in s.writers && InCriticalSection(s.writers[w]) ==> s.lock == Some(w))
    && (s.lock.Some? ==> s.lock.value in s.writers && InCriticalSection(s.writers[s.lock.value]))
  }

  // The one configuration that is persisted but not yet published.
  function InTransit<C>(s: System<C>): seq<C> {
    if s.lock.Some? && s.lock.value in s.writers && s.writers[s.lock.value].Persisted?
    then [s.writers[s.lock.value].next] else []
  }

  // Every snapshot is the configuration that was published last when it was taken.
  ghost predicate TruthfulSnapshots<C>(s: System<C>) {
    && (forall i :: 0 <= i < |s.snapshots| ==> Truthful(s, s.snapshots[i]))
    && (forall i, j :: 0 <= i < j < |s.snapshots| ==> s.snapshots[i].count <= s.snapshots[j].count)
  }

  ghost predicate Truthful<C>(s: System<C>, seen: Seen<C>) {
    0 < seen.count <= |s.published| && seen.config == s.published[seen.count - 1]
  }

  ghost predicate Inv<C>(s: System<C>, initial: C) {
    && Exclusive(s)
    && s.published + InTransit(s) == [initial] + s.persisted
    && |s.published| > 0
    && s.memory == s.published[|s.published| - 1]
    && TruthfulSnapshots(s)
  }

  lemma PublishKeepsInv<C>(s: System<C>, initial: C, w: ThreadId)
    requires Inv(s, initial) && Enabled(s, Publish(w))
    ensures Inv(Apply(s, Publish(w)), initial)
  {
    var t := Apply(s, Publish(w));
    assert InTransit(s) == [s.writers[w].next] && InTransit(t) == [];
    assert t.published + [] == t.published;
    forall i | 0 <= i < |t.snapshots| ensures Truthful(t, t.snapshots[i]) {
      assert Truthful(s, s.snapshots[i]);
    }
  }

  lemma RenameKeepsInv<C>(s: System<C>, initial: C, w: ThreadId, succeeds: bool)
    requires Inv(s, initial) && Enabled(s, Rename(w, succeeds))
    ensures Inv(Apply(s, Rename(w, succeeds)), initial)
  {
    var t := Apply(s, Rename(w, succeeds));
    assert InTransit(s) == [] && s.published + [] == s.published;
    if succeeds {
      assert InTransit(t) == [s.writers[w].next];
      assert [initial] + (s.persisted + [s.writers[w].next]) == ([initial] + s.persisted) + [s.writers[w].next];
    } else {
      assert InTransit(t) == [];
    }
  }

  lemma StepKeepsInv<C>(s: System<C>, initial: C, step: Step<C>)
    requires Inv(s, initial) && Enabled(s, step)
    ensures Inv(Apply(s, step), initial)
  {
    match step {
      case Publish(w) => PublishKeepsInv(s, initial, w);
      case Rename(w, succeeds) => RenameKeepsInv(s, initial, w, succeeds);
      case _ => assert InTransit(Apply(s, step)) == InTransit(s);
    }
  }

  lemma {:induction false} RunKeepsInv<C>(s: System<C>, initial: C, steps: seq<Step<C>>)
    requires Inv(s, initial)
    ensures Execute(s, steps).Some? ==> Inv(Execute(s, steps).value, initial)
    decreases |steps|
  {
    if steps != [] && Enabled(s, steps[0]) {
      StepKeepsInv(s, initial, steps[0]);
      RunKeepsInv(Apply(s, steps[0]), initial, steps[1..]);
    }
  }

  /** In every run of concurrent writers and readers, the configurations in memory after the
      initial one are a prefix of the persisted ones, at most one behind, and equal when no writer
      holds the lock. */
  lemma MemoryFollowsFile<C>(prepare: C -> Option<C>, initial: C, steps: seq<Step<C>>)
    requires Execute(Initial(prepare, initial), steps).Some?
    ensures var s := Execute(Initial(prepare, initial), steps).value;
            && |s.published| > 0 && s.published[0] == initial && s.memory == s.published[|s.published| - 1]
            && s.published[1..] <= s.persisted
            && |s.persisted| <= |s.published[1..]| + 1
            && (s.lock.None? ==> s.published[1..] == s.persisted)
  {
    assert Initial(prepare, initial).published + [] == [initial];
    RunKeepsInv(Initial(prepare, initial), initial, steps);
    var s := Execute(Initial(prepare, initial), steps).value;
    assert ([initial] + s.persisted)[1..] == s.persisted;
    assert (s.published + InTransit(s))[1..] == s.published[1..] + InTransit(s);
    assert s.lock.None? ==> s.published[1..] + [] == s.published[1..];
  }

  /** Every snapshot is the initial configuration or a persisted one, and successive snapshots never go back. */
  lemma SnapshotsArePersisted<C>(prepare: C -> Option<C>, initial: C, steps: seq<Step<C>>, i: nat)
    requires Execute(Initial(prepare, initial), steps).Some?
    requires i < |Execute(Initial(prepare, initial), steps).value.snapshots|
    ensures var s := Execute(Initial(prepare, initial), steps).value;
            && (s.snapshots[i].config == initial || s.snapshots[i].config in s.persisted)
            && forall j :: i < j < |s.snapshots| ==> s.snapshots[i].count <= s.snapshots[j].count
  {
    assert Initial(prepare, initial).published + [] == [initial];
    RunKeepsInv(Initial(prepare, initial), initial, steps);
    var s := Execute(Initial(prepare, initial), steps).value;
    assert Truthful(s, s.snapshots[i]);
    var k := s.snapshots[i].count - 1;
    assert ([initial] + s.persisted)[k] == (s.published + InTransit(s))[k] == s.snapshots[i].config;
  }

  lemma ExecuteStep<C>(s: System<C>, step: Step<C>, rest: seq<Step<C>>)
    requires Enabled(s, step)
    ensures Execute(s, [step] + rest) == Execute(Apply(s, step), rest)
  {
    assert ([step] + rest)[1..] == rest;
  }

  /** While nobody holds the lock, a new writer gets through: a valid proposal ends in the file and in memory, where the
      next reader finds it, and one that is invalid or cannot be written changes neither; the lock is free again. */
  lemma WritersGetThrough<C>(s: System<C>, w: ThreadId, next: C, succeeds: bool)
    requires s.lock.None? && w !in s.writers
    ensures var valid := s.prepare(next);
            var r := Execute(s, [Propose(w, next), Acquire(w), Prepare(w)] +
                                (if valid.None? then []
                                 else if !succeeds then [Rename(w, false)]
                                 else [Rename(w, true), Publish(w), Release(w)]) + [Read]);
            && r.Some? && r.value.lock.None?
            && r.value.writers == s.writers[w := Ended(valid.Some? && succeeds)]
            && (if valid.Some? && succeeds then
                  && r.value.memory == valid.value
                  && r.value.persisted == s.persisted + [valid.value]
                  && r.value.snapshots == s.snapshots + [Seen(valid.value, |s.published| + 1)]
                else
                  && r.value.memory == s.memory
                  && r.value.persisted == s.persisted
                  && r.value.snapshots == s.snapshots + [Seen(s.memory, |s.published|)])
  {
    var valid := s.prepare(next);
    var finish: seq<Step<C>> :=
      if valid.None? then [] else if !succeeds then [Rename(w, false)]
      else [Rename(w, true), Publish(w), Release(w)];
    var proposed := Apply(s, Propose(w, next));
    var acquired := Apply(proposed, Acquire(w));
    var prepared := Apply(acquired, Prepare(w));
    var all := [Propose(w, next), Acquire(w), Prepare(w)] + finish + [Read];
    assert all == [Propose(w, next)] + ([Acquire(w)] + ([Prepare(w)] + (finish + [Read])));
    ExecuteStep(s, Propose(w, next), [Acquire(w)] + ([Prepare(w)] + (finish + [Read])));
    ExecuteStep(proposed, Acquire(w), [Prepare(w)] + (finish + [Read]));
    ExecuteStep(acquired, Prepare(w), finish + [Read]);
    EndsAs(prepared, w, finish, succeeds);
  }

  // What a prepared writer, or one that failed to prepare, leaves to the next reader.
  lemma EndsAs<C>(s: System<C>, w: ThreadId, finish: seq<Step<C>>, succeeds: bool)
    requires w in s.writers && (s.writers[w].Prepared? || (s.writers[w] == Ended(false) && s.lock.None?))
    requires finish == (if !s.writers[w].Prepared? then [] else if !succeeds then [Rename(w, false)]
                        else [Rename(w, true), Publish(w), Release(w)])
    ensures var r := Execute(s, finish + [Read]);
            && r.Some? && r.value.lock.None?
            && r.value.writers == s.writers[w := Ended(s.writers[w].Prepared? && succeeds)]
            && (if s.writers[w].Prepared? && succeeds then
                  && r.value.memory == s.writers[w].next
                  && r.value.persisted == s.persisted + [s.writers[w].next]
                  && r.value.snapshots == s.snapshots + [Seen(s.writers[w].next, |s.published| + 1)]
                else
                  && r.value.memory == s.memory
                  && r.value.persisted == s.persisted
                  && r.value.snapshots == s.snapshots + [Seen(s.memory, |s.published|)])
  {
    var read: seq<Step<C>> := [Read];
    if !s.writers[w].Prepared? {
      assert finish + [Read] == read == read + [];
      ExecuteStep(s, Read, []);
      assert s.writers == s.writers[w := Ended(false)];
    } else if !succeeds {
      var failed := Apply(s, Rename(w, false));
      ExecuteStep(s, Rename(w, false), read);
      assert read == read + [];
      ExecuteStep(failed, Read, []);
    } else {
      var renamed := Apply(s, Rename(w, true));
      var published := Apply(renamed, Publish(w));
      var released := Apply(published, Release(w));
      assert read == read + [];
      assert finish + [Read] == [Rename(w, true)] + ([Publish(w)] + ([Release(w)] + read));
      ExecuteStep(s, Rename(w, true), [Publish(w)] + ([Release(w)] + read));
      ExecuteStep(renamed, Publish(w), [Release(w)] + read);
      ExecuteStep(published, Release(w), read);
      ExecuteStep(released, Read, []);
      assert released.writers == s.writers[w := Ended(true)];
    }
  }

  // ----- failed writers -----

  // The writer got past the rename.
  predicate Passed<C>(p: Phase<C>) {
    p.Persisted? || p.Published? || p == Ended(true)
  }

  ghost function PassedWriters<C>(s: System<C>): set<ThreadId> {
    set w | w in s.writers && Passed(s.writers[w])
  }

  lemma StepKeepsPassed<C>(s: System<C>, step: Step<C>)
    requires Enabled(s, step)
    ensures var t := Apply(s, step);
            if step.Rename? && step.succeeds then
              step.writer !in PassedWriters(s) && PassedWriters(t) == PassedWriters(s) + {step.writer}
            else PassedWriters(t) == PassedWriters(s)
  {
  }

  lemma {:induction false} RunCountsPassed<C>(s: System<C>, steps: seq<Step<C>>)
    requires |s.persisted| == |PassedWriters(s)|
    ensures Execute(s, steps).Some? ==>
              |Execute(s, steps).value.persisted| == |PassedWriters(Execute(s, steps).value)|
    decreases |steps|
  {
    if steps != [] && Enabled(s, steps[0]) {
      StepKeepsPassed(s, steps[0]);
      RunCountsPassed(Apply(s, steps[0]), steps[1..]);
    }
  }

  /** In every run the persisted configurations number exactly the writers that got past the rename: a failed writer
      contributed none. */
  lemma PersistedNumberThePassed<C>(prepare: C -> Option<C>, initial: C, steps: seq<Step<C>>)
    requires Execute(Initial(prepare, initial), steps).Some?
    ensures var s := Execute(Initial(prepare, initial), steps).value;
            |s.persisted| == |PassedWriters(s)|
  {
    assert PassedWriters(Initial(prepare, initial)) == {};
    RunCountsPassed(Initial(prepare, initial), steps);
  }

  // The run as the others made it.
  function ByOthers<C>(steps: seq<Step<C>>, w: ThreadId): seq<Step<C>> {
    if steps == [] then []
    else (if !steps[0].Read? && steps[0].writer == w then [] else [steps[0]]) + ByOthers(steps[1..], w)
  }

  // The system as if the writer had never been there.
  function Without<C>(s: System<C>, w: ThreadId): System<C> {
    s.(lock := if s.lock == Some(w) then None else s.lock, writers := s.writers - {w})
  }

  lemma {:induction false} PassingIsForGood<C>(s: System<C>, steps: seq<Step<C>>, w: ThreadId)
    requires w in s.writers && Passed(s.writers[w])
    ensures Execute(s, steps).Some? ==>
              w in Execute(s, steps).value.writers && Passed(Execute(s, steps).value.writers[w])
    decreases |steps|
  {
    if steps != [] && Enabled(s, steps[0]) { PassingIsForGood(Apply(s, steps[0]), steps[1..], w); }
  }

  lemma OwnStepLeavesNoTrace<C>(s: System<C>, step: Step<C>, w: ThreadId)
    requires Exclusive(s) && Enabled(s, step) && !step.Read? && step.writer == w
    requires w in s.writers ==> !Passed(s.writers[w])
    requires !Passed(Apply(s, step).writers[w])
    ensures Without(Apply(s, step), w) == Without(s, w)
  {
    assert Apply(s, step).writers - {w} == s.writers - {w};
  }

  lemma OtherStepIsUnaffected<C>(s: System<C>, step: Step<C>, w: ThreadId)
    requires Exclusive(s) && Enabled(s, step) && (step.Read? || step.writer != w)
    ensures Enabled(Without(s, w), step) && Apply(Without(s, w), step) == Without(Apply(s, step), w)
  {
    if !step.Read? {
      assert Apply(Without(s, w), step).writers == Apply(s, step).writers - {w};
    }
  }

  lemma {:induction false} UnpassedLeavesNoTrace<C>(s: System<C>, initial: C, steps: seq<Step<C>>, w: ThreadId)
    requires Inv(s, initial) && Execute(s, steps).Some?
    requires var t := Execute(s, steps).value; w in t.writers ==> !Passed(t.writers[w])
    ensures Execute(Without(s, w), ByOthers(steps, w)) == Some(Without(Execute(s, steps).value, w))
    decreases |steps|
  {
    if w in s.writers && Passed(s.writers[w]) {
      PassingIsForGood(s, steps, w);
    } else if steps != [] {
      var t := Apply(s, steps[0]);
      StepKeepsInv(s, initial, steps[0]);
      UnpassedLeavesNoTrace(t, initial, steps[1..], w);
      if !steps[0].Read? && steps[0].writer == w {
        if Passed(t.writers[w]) { PassingIsForGood(t, steps[1..], w); }
        OwnStepLeavesNoTrace(s, steps[0], w);
        assert [] + ByOthers(steps[1..], w) == ByOthers(steps[1..], w);
      } else {
        OtherStepIsUnaffected(s, steps[0], w);
        assert ByOthers(steps, w)[1..] == ByOthers(steps[1..], w);
      }
    }
  }

  /** A writer that failed, or has not got past the rename yet, leaves no trace: the others' steps alone make a run that
      ends with the same file, memory, publications and snapshots, and the same other writers. */
  lemma FailedWritersLeaveNoTrace<C>(prepare: C -> Option<C>, initial: C, steps: seq<Step<C>>, w: ThreadId)
    requires Execute(Initial(prepare, initial), steps).Some?
    requires var s := Execute(Initial(prepare, initial), steps).value; w in s.writers ==> !Passed(s.writers[w])
    ensures var s, r := Execute(Initial(prepare, initial), steps).value,
                        Execute(Initial(prepare, initial), ByOthers(steps, w));
            && r.Some? && r.value.persisted == s.persisted && r.value.published == s.published
            && r.value.memory == s.memory && r.value.snapshots == s.snapshots && r.value.writers == s.writers - {w}
  {
    assert Initial(prepare, initial).published + [] == [initial];
    UnpassedLeavesNoTrace(Initial(prepare, initial), initial, steps, w);
    assert Without(Initial(prepare, initial), w) == Initial(prepare, initial);
  }

  // Only validated proposals are persisted: every persisted configuration came out of `prepare`.
  ghost predicate Validated<C(!new)>(s: System<C>, c: C) {
    exists next :: s.prepare(next) == Some(c)
  }

  ghost predicate OnlyValidated<C(!new)>(s: System<C>) {
    && (forall c :: c in s.persisted ==> Validated(s, c))
    && (forall w :: w in s.writers && (s.writers[w].Prepared? || s.writers[w].Persisted?) ==>
        Validated(s, s.writers[w].next))
  }

  lemma {:induction false} PersistedWereValidated<C(!new)>(s: System<C>, steps: seq<Step<C>>)
    requires OnlyValidated(s)
    ensures Execute(s, steps).Some? ==> OnlyValidated(Execute(s, steps).value)
    decreases |steps|
  {
    if steps != [] && Enabled(s, steps[0]) {
      var t := Apply(s, steps[0]);
      forall c ensures Validated(s, c) <==> Validated(t, c) {}
      PersistedWereValidated(t, steps[1..]);
    }
  }
}
