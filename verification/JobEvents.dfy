/** The coalescing reconcile loop of the job event stream (`connectJobEvents` in `sse.ts`).
    `reconcile()` is taken to return a promise; a synchronous throw is not part of this model. */
module JobEvents {

  // What happened, oldest first. A request counts only when it is accepted: before closing.
  datatype Event = Requested | Started | Settled | Closed

  datatype Loop = Loop(closed: bool, reconciling: bool, pending: bool, log: seq<Event>)

  const INITIAL := Loop(false, false, false, [])

  // `requestReconcile`
  function Request(s: Loop): Loop {
    if s.closed then s
    else if s.reconciling then s.(pending := true, log := s.log + [Requested])
    else s.(reconciling := true, log := s.log + [Requested, Started])
  }

  // The `finally` handler of the reconcile in flight; its own request serves the pending ones.
  function Settle(s: Loop): Loop {
    var idle := s.(reconciling := false, log := s.log + [Settled]);
    if !idle.pending then idle
    else if idle.closed then idle.(pending := false)
    else idle.(pending := false, reconciling := true, log := idle.log + [Started])
  }

  function Close(s: Loop): Loop {
    if s.closed then s else s.(closed := true, log := s.log + [Closed])
  }

  /** The three flags of the closure, and the methods the event source and the promise call. */
  class JobEventConnection {
    var closed: bool
    var reconciling: bool
    var reconcilePending: bool
    ghost var log: seq<Event>

    ghost function State(): Loop
      reads this
    {
      Loop(closed, reconciling, reconcilePending, log)
    }

    constructor ()
      ensures State() == INITIAL
    {
      closed, reconciling, reconcilePending := false, false, false;
      log := [];
    }

    // Starts a reconcile unless one is in flight or the connection is closed.
    method RequestReconcile(ghost fromOutside: bool)
      modifies this
      ensures fromOutside ==> State() == Request(old(State()))
      ensures !fromOutside && !old(reconciling) ==>
                State() == if old(closed) then old(State())
                           else old(State()).(reconciling := true, log := old(log) + [Started])
    {
      if closed { return; }
      if fromOutside { log := log + [Requested]; }
      if reconciling {
        reconcilePending := true;
        return;
      }
      reconciling := true;
      log := log + [Started];
    }

    // `onopen`, `onerror` and every valid message end in a request.
    method OnEvent()
      modifies this
      ensures State() == Request(old(State()))
    {
      RequestReconcile(true);
    }

    method OnSettled()
      requires reconciling
      modifies this
      ensures State() == Settle(old(State()))
    {
      reconciling := false;
      log := log + [Settled];
      if reconcilePending {
        reconcilePending := false;
        RequestReconcile(false);
      }
    }

    method CloseConnection()
      modifies this
      ensures State() == Close(old(State()))
    {
      if closed { return; }
      closed := true;
      log := log + [Closed];
    }
  }

  // ----- runs -----

  datatype Stimulus = Signal | Finish | Shutdown

  // A promise settles only while it is in flight.
  predicate Enabled(s: Loop, stimulus: Stimulus) {
    stimulus.Finish? ==> s.reconciling
  }

  function Apply(s: Loop, stimulus: Stimulus): Loop {
    match stimulus
    case Signal => Request(s)
    case Finish => Settle(s)
    case Shutdown => Close(s)
  }

  datatype RunResult = Reached(state: Loop) | Impossible

  function Run(s: Loop, stimuli: seq<Stimulus>): RunResult
    decreases |stimuli|
  {
    if stimuli == [] then Reached(s)
    else if Enabled(s, stimuli[0]) then Run(Apply(s, stimuli[0]), stimuli[1..])
    else Impossible
  }

  function Count(log: seq<Event>, e: Event): nat {
    if log == [] then 0 else Count(log[..|log| - 1], e) + if log[|log| - 1] == e then 1 else 0
  }

  lemma CountStep(log: seq<Event>, next: Event, e: Event)
    ensures Count(log + [next], e) == Count(log, e) + if next == e then 1 else 0
  {
    assert (log + [next])[..|log|] == log;
  }

  // Every accepted request is followed by the start of a reconcile.
  ghost predicate AllServed(log: seq<Event>) {
    forall i :: 0 <= i < |log| && log[i] == Requested ==> exists j :: i < j < |log| && log[j] == Started
  }

  ghost predicate NoneAfterClose(log: seq<Event>) {
    forall i, j :: 0 <= i < j < |log| && log[i] == Closed ==> log[j] != Started && log[j] != Requested
  }

  // At most one reconcile is in flight, after every event of the log.
  ghost predicate SingleFlight(log: seq<Event>) {
    log == [] || (SingleFlight(log[..|log| - 1]) &&
                  Count(log, Settled) <= Count(log, Started) <= Count(log, Settled) + 1)
  }

  // The starts never outnumber the requests, after every event of the log.
  ghost predicate StartsAreEarned(log: seq<Event>) {
    log == [] || (StartsAreEarned(log[..|log| - 1]) && Count(log, Started) <= Count(log, Requested))
  }

  ghost predicate Inv(s: Loop) {
    && SingleFlight(s.log) && StartsAreEarned(s.log) && NoneAfterClose(s.log)
    && (s.closed <==> Closed in s.log)
    && (s.pending ==> s.reconciling)
    && Count(s.log, Started) == Count(s.log, Settled) + (if s.reconciling then 1 else 0)
    && (s.pending ==> Count(s.log, Started) < Count(s.log, Requested))
    && (!s.pending && !s.closed ==> AllServed(s.log))
  }

  lemma GrowCounts(log: seq<Event>, next: Event)
    requires SingleFlight(log) && StartsAreEarned(log)
    requires next == Started ==>
               Count(log, Started) == Count(log, Settled) && Count(log, Started) < Count(log, Requested)
    requires next == Settled ==> Count(log, Settled) < Count(log, Started)
    ensures SingleFlight(log + [next]) && StartsAreEarned(log + [next])
  {
    var after := log + [next];
    CountStep(log, next, Settled);
    CountStep(log, next, Started);
    CountStep(log, next, Requested);
    assert after[..|after| - 1] == log;
  }

  lemma GrowClosed(log: seq<Event>, next: Event)
    requires NoneAfterClose(log)
    requires next == Started || next == Requested ==> Closed !in log
    ensures NoneAfterClose(log + [next])
  {
    var after := log + [next];
    forall i, j | 0 <= i < j < |after| && after[i] == Closed ensures after[j] != Started && after[j] != Requested {
      assert log[i] == Closed;
    }
  }

  lemma GrowBy(log: seq<Event>, next: Event)
    requires SingleFlight(log) && StartsAreEarned(log) && NoneAfterClose(log)
    requires next == Started ==>
               Count(log, Started) == Count(log, Settled) && Count(log, Started) < Count(log, Requested)
    requires next == Settled ==> Count(log, Settled) < Count(log, Started)
    requires next == Started || next == Requested ==> Closed !in log
    ensures SingleFlight(log + [next]) && StartsAreEarned(log + [next]) && NoneAfterClose(log + [next])
    ensures forall e :: Count(log + [next], e) == Count(log, e) + if next == e then 1 else 0
  {
    GrowCounts(log, next);
    GrowClosed(log, next);
    forall e ensures Count(log + [next], e) == Count(log, e) + if next == e then 1 else 0 { CountStep(log, next, e); }
  }

  lemma ServedByStart(log: seq<Event>)
    ensures AllServed(log + [Started])
  {
    var after := log + [Started];
    forall i | 0 <= i < |after| && after[i] == Requested ensures exists j :: i < j < |after| && after[j] == Started {
      assert after[|log|] == Started;
    }
  }

  lemma ServedStays(log: seq<Event>, next: Event)
    requires AllServed(log) && next != Requested
    ensures AllServed(log + [next])
  {
    var after := log + [next];
    forall i | 0 <= i < |after| && after[i] == Requested ensures exists j :: i < j < |after| && after[j] == Started {
      var j :| i < j < |log| && log[j] == Started;
      assert after[j] == Started;
    }
  }

  lemma RequestKeepsInv(s: Loop)
    requires Inv(s)
    ensures Inv(Request(s))
  {
    if !s.closed {
      var asked := s.log + [Requested];
      assert s.log[..|s.log|] == s.log;
      GrowBy(s.log, Requested);
      if !s.reconciling {
        GrowBy(asked, Started);
        ServedByStart(asked);
        assert asked + [Started] == s.log + [Requested, Started];
      }
    }
  }

  lemma SettleKeepsInv(s: Loop)
    requires Inv(s) && s.reconciling
    ensures Inv(Settle(s))
  {
    var settled := s.log + [Settled];
    GrowBy(s.log, Settled);
    if !s.pending {
      if !s.closed { ServedStays(s.log, Settled); }
    } else if !s.closed {
      GrowBy(settled, Started);
      ServedByStart(settled);
    }
  }

  lemma CloseKeepsInv(s: Loop)
    requires Inv(s)
    ensures Inv(Close(s))
  {
    if !s.closed { GrowBy(s.log, Closed); }
  }

  lemma {:induction false} RunKeepsInv(s: Loop, stimuli: seq<Stimulus>)
    requires Inv(s)
    ensures Run(s, stimuli).Reached? ==> Inv(Run(s, stimuli).state)
    decreases |stimuli|
  {
    if stimuli != [] && Enabled(s, stimuli[0]) {
      match stimuli[0] {
        case Signal => RequestKeepsInv(s);
        case Finish => SettleKeepsInv(s);
        case Shutdown => CloseKeepsInv(s);
      }
      RunKeepsInv(Apply(s, stimuli[0]), stimuli[1..]);
    }
  }

  /** In every run: one reconcile in flight at most, pending only behind one in flight, no accepted
      request without a later start once idle, nothing started after closing, no unearned start. */
  lemma RunsAreSingleFlightAndLoseNothing(stimuli: seq<Stimulus>)
    ensures var r := Run(INITIAL, stimuli);
            r.Reached? ==>
              && SingleFlight(r.state.log)
              && (r.state.reconciling <==> Count(r.state.log, Started) == Count(r.state.log, Settled) + 1)
              && (r.state.pending ==> r.state.reconciling)
              && (!r.state.reconciling && !r.state.closed ==> AllServed(r.state.log))
              && NoneAfterClose(r.state.log)
              && StartsAreEarned(r.state.log)
  {
    assert Inv(INITIAL);
    RunKeepsInv(INITIAL, stimuli);
  }
}
