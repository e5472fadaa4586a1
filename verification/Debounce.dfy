/** Debouncing in the trigger engine (submitEvent in engine.go): every submission stops the
    last timer and arms a new one. Stopping a timer that has already fired does nothing, so
    any number of callbacks can be on their way. Timers are numbered like submissions. */
module Debouncing {
  import opened Options
  import opened Sequences
  import opened TriggerEvents

  // ---------------------------------------------------------------- critical sections

  /** The fields guarded by the lock: the pending submission and the last timer. */
  datatype Shared = Shared(pending: Option<nat>, timer: Option<nat>)

  /** Records submission `n` and the timer armed for it; tells which timer to stop. */
  function Arm(s: Shared, n: nat): (Shared, Option<nat>) {
    (Shared(Some(n), Some(n)), s.timer)
  }

  function Take(s: Shared): (Shared, Option<nat>) {
    (s.(pending := None), s.pending)
  }

  // -------------------------------------------------------------------- the protocol

  /** A timer is armed; or has fired, so that its callback is on its way to the lock; or its
      callback holds the event it took; or it was stopped in time or is through. */
  datatype Timer = Armed | Fired | Holding(n: nat) | Gone

  datatype State = State(
    shared: Shared,
    submitted: seq<Event>,
    timers: seq<Timer>,
    taken: seq<nat>,
    passedOn: seq<nat>)

  datatype Step = Submit(event: Event) | Fire(t: nat) | TakePending(t: nat) | PassOn(t: nat)

  const INIT := State(Shared(None, None), [], [], [], [])

  predicate Enabled(s: State, step: Step) {
    match step
    case Submit(_) => true
    case Fire(t) => t < |s.timers| && s.timers[t].Armed?
    case TakePending(t) => t < |s.timers| && s.timers[t].Fired?
    case PassOn(t) => t < |s.timers| && s.timers[t].Holding?
  }

  /** time.Timer.Stop: prevents an armed timer from firing, and nothing else. */
  function Stop(timers: seq<Timer>, t: Option<nat>): (r: seq<Timer>)
    ensures |r| == |timers|
  {
    if t.Some? && t.value < |timers| && timers[t.value].Armed? then timers[t.value := Gone] else timers
  }

  function Next(s: State, step: Step): State
    requires Enabled(s, step)
  {
    match step
    case Submit(e) =>
      var (shared, last) := Arm(s.shared, |s.submitted|);
      s.(shared := shared, submitted := s.submitted + [e], timers := Stop(s.timers, last) + [Armed])
    case Fire(t) => s.(timers := s.timers[t := Fired])
    case TakePending(t) =>
      var (shared, pending) := Take(s.shared);
      if pending.Some? then
        s.(shared := shared, timers := s.timers[t := Holding(pending.value)], taken := s.taken + [pending.value])
      else
        s.(shared := shared, timers := s.timers[t := Gone])
    case PassOn(t) =>
      s.(timers := s.timers[t := Gone], passedOn := s.passedOn + [s.timers[t].n])
  }

  predicate Path(s: State, steps: seq<Step>)
    decreases |steps|, 0
  {
    steps == []
    || (&& Path(s, steps[..|steps| - 1])
        && Enabled(After(s, steps[..|steps| - 1]), steps[|steps| - 1]))
  }

  function After(s: State, steps: seq<Step>): State
    requires Path(s, steps)
    decreases |steps|, 1
  {
    if steps == [] then s else Next(After(s, steps[..|steps| - 1]), steps[|steps| - 1])
  }

  // -------------------------------------------------------------------- the invariant

  ghost predicate Increasing(xs: seq<nat>) {
    forall i, j :: 0 <= i < j < |xs| ==> xs[i] < xs[j]
  }

  /** The pending event is the latest submission and its own timer will see to it; when
      nothing is pending, the latest submission was the last one taken. */
  ghost predicate PendingInv(s: State) {
    var n := |s.submitted|;
    && |s.timers| == n
    && s.shared.timer == (if n == 0 then None else Some(n - 1))
    && (s.shared.pending.Some? ==>
          0 < n && s.shared.pending.value == n - 1 && (s.timers[n - 1].Armed? || s.timers[n - 1].Fired?))
    && (s.shared.pending.None? && 0 < n ==> s.taken != [] && s.taken[|s.taken| - 1] == n - 1)
    && (forall t :: 0 <= t < n - 1 ==> !s.timers[t].Armed?)
    && Increasing(s.taken)
    && (s.taken != [] ==> s.taken[|s.taken| - 1] < if s.shared.pending.Some? then n - 1 else n)
  }

  ghost predicate Held(s: State, n: nat) {
    exists t :: 0 <= t < |s.timers| && s.timers[t] == Holding(n)
  }

  /** Each event taken is either held by one callback or has been passed on once. */
  ghost predicate HandoverInv(s: State) {
    && Distinct(s.passedOn)
    && (forall t, u :: 0 <= t < u < |s.timers| && s.timers[t].Holding? && s.timers[u].Holding? ==>
          s.timers[t].n != s.timers[u].n)
    && (forall n: nat :: Held(s, n) ==> n !in s.passedOn)
    && (forall n: nat :: n in s.taken <==> Held(s, n) || n in s.passedOn)
  }

  ghost predicate Inv(s: State) {
    PendingInv(s) && HandoverInv(s)
  }

  lemma PendingKept(s: State, step: Step)
    requires PendingInv(s) && Enabled(s, step)
    ensures PendingInv(Next(s, step))
  {
  }

  lemma NotTakenYet(s: State)
    requires PendingInv(s) && s.shared.pending.Some?
    ensures s.shared.pending.value !in s.taken
  {
  }

  lemma HandoverKept(s: State, step: Step)
    requires Inv(s) && Enabled(s, step)
    ensures HandoverInv(Next(s, step))
  {
    var t := Next(s, step);
    match step {
      case Submit(_) =>
        forall n: nat
          ensures Held(t, n) <==> Held(s, n)
        {
          HeldAfterSubmit(s, step, n);
        }
      case Fire(_) =>
        forall n: nat
          ensures Held(t, n) <==> Held(s, n)
        {
          HeldAfterUpdate(s, t, step.t, n);
        }
      case TakePending(_) =>
        forall n: nat
          ensures Held(t, n) <==> Held(s, n) || s.shared.pending == Some(n)
        {
          HeldAfterUpdate(s, t, step.t, n);
        }
        if s.shared.pending.Some? { NotTakenYet(s); }
      case PassOn(_) =>
        var m := s.timers[step.t].n;
        assert Held(s, m);
        forall n: nat
          ensures Held(t, n) <==> Held(s, n) && n != m
        {
          HeldAfterUpdate(s, t, step.t, n);
        }
    }
  }

  lemma HeldAfterUpdate(s: State, t: State, at: nat, n: nat)
    requires at < |s.timers| == |t.timers| && t.timers == s.timers[at := t.timers[at]]
    ensures Held(t, n) <==>
              t.timers[at] == Holding(n) || exists u :: 0 <= u < |s.timers| && u != at && s.timers[u] == Holding(n)
    ensures Held(s, n) <==>
              s.timers[at] == Holding(n) || exists u :: 0 <= u < |s.timers| && u != at && s.timers[u] == Holding(n)
  {
    forall u | 0 <= u < |s.timers| && u != at
      ensures t.timers[u] == s.timers[u]
    {
    }
  }

  lemma HeldAfterSubmit(s: State, step: Step, n: nat)
    requires PendingInv(s) && step.Submit?
    ensures Held(Next(s, step), n) <==> Held(s, n)
  {
    var t := Next(s, step);
    if Held(s, n) {
      var u :| 0 <= u < |s.timers| && s.timers[u] == Holding(n);
      assert t.timers[u] == Holding(n);
    }
    if Held(t, n) {
      var u :| 0 <= u < |t.timers| && t.timers[u] == Holding(n);
      assert s.timers[u] == Holding(n);
    }
  }

  lemma InitInv()
    ensures Inv(INIT)
  {
  }

  lemma {:induction false} InvAlways(s: State, steps: seq<Step>)
    requires Inv(s) && Path(s, steps)
    ensures Inv(After(s, steps))
  {
    if steps != [] {
      var init := steps[..|steps| - 1];
      InvAlways(s, init);
      PendingKept(After(s, init), steps[|steps| - 1]);
      HandoverKept(After(s, init), steps[|steps| - 1]);
    }
  }

  // ------------------------------------------------------------------------- theorems

  /** Debouncing over all runs, however late timers are stopped. What is pending has an armed
      timer or a callback under way. Taken events are strictly increasing submissions, so
      none is taken twice, and each is passed on at most once. A submission that is neither
      taken nor pending was superseded by a later one. */
  lemma DebounceIsSafe(steps: seq<Step>)
    requires Path(INIT, steps)
    ensures var s := After(INIT, steps);
            && (s.shared.pending.Some? ==> LookedAfter(s))
            && Increasing(s.taken)
            && (forall n: nat :: n in s.taken ==> n < |s.submitted|)
            && Distinct(s.passedOn) && (forall n: nat :: n in s.passedOn ==> n in s.taken)
            && (forall n: nat :: n < |s.submitted| && n !in s.taken && s.shared.pending != Some(n) ==>
                  n + 1 < |s.submitted|)
  {
    InitInv();
    InvAlways(INIT, steps);
    var s := After(INIT, steps);
    TakenAreSubmissions(s);
    PendingIsLookedAfter(s);
    OthersAreSuperseded(s);
  }

  /** Some timer is armed, or its callback is on its way. */
  ghost predicate LookedAfter(s: State) {
    exists t :: 0 <= t < |s.timers| && (s.timers[t].Armed? || s.timers[t].Fired?)
  }

  lemma TakenAreSubmissions(s: State)
    requires PendingInv(s)
    ensures forall n: nat :: n in s.taken ==> n < |s.submitted|
    ensures s.shared.pending.Some? ==> forall n: nat :: n in s.taken ==> n < s.shared.pending.value
  {
    forall n: nat | n in s.taken
      ensures n <= s.taken[|s.taken| - 1]
    {
      var i :| 0 <= i < |s.taken| && s.taken[i] == n;
      assert i < |s.taken| - 1 ==> s.taken[i] < s.taken[|s.taken| - 1];
    }
  }

  lemma PendingIsLookedAfter(s: State)
    requires PendingInv(s)
    ensures s.shared.pending.Some? ==> LookedAfter(s)
  {
    if s.shared.pending.Some? {
      assert s.timers[|s.submitted| - 1].Armed? || s.timers[|s.submitted| - 1].Fired?;
    }
  }

  lemma OthersAreSuperseded(s: State)
    requires PendingInv(s)
    ensures forall n: nat :: n < |s.submitted| && n !in s.taken && s.shared.pending != Some(n) ==> n + 1 < |s.submitted|
  {
  }

  ghost predicate Quiescent(s: State) {
    forall t :: 0 <= t < |s.timers| ==> s.timers[t].Gone?
  }

  /** When all timers are through, the last submission has been passed on, and so has every
      event that was ever taken. */
  lemma QuietMeansLastPassedOn(steps: seq<Step>)
    requires Path(INIT, steps) && Quiescent(After(INIT, steps))
    ensures var s := After(INIT, steps);
            && s.shared.pending.None?
            && (s.submitted != [] ==> |s.submitted| - 1 in s.passedOn)
            && (forall n: nat :: n in s.taken <==> n in s.passedOn)
  {
    InitInv();
    InvAlways(INIT, steps);
    NothingPendingWhenQuiet(After(INIT, steps));
  }

  lemma NothingPendingWhenQuiet(s: State)
    requires Inv(s) && Quiescent(s)
    ensures s.shared.pending.None?
    ensures forall n: nat :: n in s.taken <==> n in s.passedOn
    ensures s.submitted != [] ==> |s.submitted| - 1 in s.passedOn
  {
  }

  // ------------------------------------------------------------------------ liveness

  predicate NoSubmit(steps: seq<Step>) {
    forall i :: 0 <= i < |steps| ==> !steps[i].Submit?
  }

  function TimerWork(t: Timer): nat {
    match t case Armed => 3 case Fired => 2 case Holding(_) => 1 case Gone => 0
  }

  function StepsLeft(timers: seq<Timer>): nat {
    if timers == [] then 0 else StepsLeft(timers[..|timers| - 1]) + TimerWork(timers[|timers| - 1])
  }

  lemma {:induction false} WorkDrops(timers: seq<Timer>, at: nat, t: Timer)
    requires at < |timers| && TimerWork(t) < TimerWork(timers[at])
    ensures StepsLeft(timers[at := t]) < StepsLeft(timers)
  {
    var n := |timers| - 1;
    if at == n {
      assert timers[at := t][..n] == timers[..n];
    } else {
      WorkDrops(timers[..n], at, t);
      assert timers[at := t][..n] == timers[..n][at := t];
    }
  }

  lemma StepCounts(s: State, step: Step)
    requires Enabled(s, step) && !step.Submit?
    ensures StepsLeft(Next(s, step).timers) < StepsLeft(s.timers) && Next(s, step).submitted == s.submitted
  {
    WorkDrops(s.timers, step.t, Next(s, step).timers[step.t]);
  }

  lemma {:induction false} ScheduleIsBounded(s: State, steps: seq<Step>)
    requires Path(s, steps) && NoSubmit(steps)
    ensures |steps| + StepsLeft(After(s, steps).timers) <= StepsLeft(s.timers)
    ensures After(s, steps).submitted == s.submitted
  {
    if steps != [] {
      var init := steps[..|steps| - 1];
      ScheduleIsBounded(s, init);
      StepCounts(After(s, init), steps[|steps| - 1]);
    }
  }

  lemma SomeStepLeft(s: State)
    requires !Quiescent(s)
    ensures exists step :: Enabled(s, step) && !step.Submit?
  {
    var t: nat :| t < |s.timers| && !s.timers[t].Gone?;
    var step := if s.timers[t].Armed? then Fire(t) else if s.timers[t].Fired? then TakePending(t) else PassOn(t);
    assert Enabled(s, step);
  }

  /** Without new submissions everything quiets down, from every reachable state: any schedule
      is bounded by `StepsLeft`, and one that cannot go on has all timers through and the last
      submission passed on. */
  lemma QuietsDown(s: State, steps: seq<Step>)
    requires Inv(s) && Path(s, steps) && NoSubmit(steps)
    ensures |steps| <= StepsLeft(s.timers)
    ensures var t := After(s, steps);
            (forall step :: Enabled(t, step) ==> step.Submit?) ==>
              && Quiescent(t) && t.submitted == s.submitted
              && (s.submitted != [] ==> |s.submitted| - 1 in t.passedOn)
  {
    ScheduleIsBounded(s, steps);
    InvAlways(s, steps);
    var t := After(s, steps);
    if Quiescent(t) {
      NothingPendingWhenQuiet(t);
    } else {
      SomeStepLeft(t);
    }
  }

  // --------------------------------------------------------- the order of passing on

  /** Taken in order does not mean passed on in order: a callback that has let go of the lock
      can be overtaken, so the queue behind it may see two bursts the wrong way round. */
  lemma BurstsCanBeReordered(a: Event, b: Event) returns (steps: seq<Step>)
    ensures Path(INIT, steps)
    ensures After(INIT, steps).taken == [0, 1] && After(INIT, steps).passedOn == [1, 0]
  {
    steps := FirstBurstHeld(a);
    steps := Extend(INIT, steps, Submit(b));
    steps := Extend(INIT, steps, Fire(1));
    steps := Extend(INIT, steps, TakePending(1));
    steps := Extend(INIT, steps, PassOn(1));
    steps := Extend(INIT, steps, PassOn(0));
  }

  lemma FirstBurstHeld(a: Event) returns (steps: seq<Step>)
    ensures Path(INIT, steps)
    ensures After(INIT, steps) == State(Shared(None, Some(0)), [a], [Holding(0)], [0], [])
  {
    steps := Extend(INIT, [], Submit(a));
    steps := Extend(INIT, steps, Fire(0));
    steps := Extend(INIT, steps, TakePending(0));
  }

  lemma Extend(s: State, steps: seq<Step>, step: Step) returns (longer: seq<Step>)
    requires Path(s, steps) && Enabled(After(s, steps), step)
    ensures longer == steps + [step]
    ensures Path(s, longer) && After(s, longer) == Next(After(s, steps), step)
  {
    longer := steps + [step];
    assert longer[..|steps|] == steps;
  }

  predicate NoneHolding(s: State) {
    forall t :: 0 <= t < |s.timers| ==> !s.timers[t].Holding?
  }

  ghost predicate OneHolding(s: State) {
    forall t, u :: 0 <= t < u < |s.timers| ==> !(s.timers[t].Holding? && s.timers[u].Holding?)
  }

  /** At most one callback holds an event, and then none is pending and what it holds is later
      than everything passed on. */
  ghost predicate Orderly(s: State) {
    && OneHolding(s)
    && forall t :: 0 <= t < |s.timers| && s.timers[t].Holding? ==>
         s.shared.pending.None? && Latest(s.timers[t].n, s.passedOn)
  }

  ghost predicate Latest(n: nat, passedOn: seq<nat>) {
    forall i :: 0 <= i < |passedOn| ==> passedOn[i] < n
  }

  lemma PendingIsLatest(s: State)
    requires Inv(s) && s.shared.pending.Some?
    ensures Latest(s.shared.pending.value, s.passedOn)
  {
    TakenAreSubmissions(s);
    forall i | 0 <= i < |s.passedOn|
      ensures s.passedOn[i] < s.shared.pending.value
    {
      assert s.passedOn[i] in s.passedOn;
    }
  }

  lemma OrderlyKept(s: State, step: Step)
    requires Inv(s) && Orderly(s) && Increasing(s.passedOn) && Enabled(s, step)
    requires step.Submit? ==> NoneHolding(s)
    ensures Orderly(Next(s, step)) && Increasing(Next(s, step).passedOn)
  {
    if step.TakePending? && s.shared.pending.Some? {
      PendingIsLatest(s);
    }
  }

  lemma {:induction false} StaysInOrder(s: State, steps: seq<Step>)
    requires Inv(s) && Orderly(s) && Increasing(s.passedOn) && Path(s, steps) && NoSubmit(steps)
    ensures Orderly(After(s, steps)) && Increasing(After(s, steps).passedOn)
  {
    if steps != [] {
      var init := steps[..|steps| - 1];
      StaysInOrder(s, init);
      InvAlways(s, init);
      OrderlyKept(After(s, init), steps[|steps| - 1]);
    }
  }

  ghost predicate Disorder(s: State, steps: seq<Step>) {
    Path(s, steps) && NoSubmit(steps) && !Increasing(After(s, steps).passedOn)
  }

  lemma DisorderAtEnd(xs: seq<nat>, a: nat, b: nat)
    requires b <= a
    ensures !Increasing(xs + [a] + [b])
  {
    var ys := xs + [a] + [b];
    assert ys[|xs|] == a && ys[|xs| + 1] == b;
  }

  /** Two callbacks hold events: the later event can go first. */
  lemma OvertakenByHolder(s: State, t: nat, u: nat) returns (steps: seq<Step>)
    requires t < |s.timers| && u < |s.timers| && s.timers[t].Holding? && s.timers[u].Holding?
    requires s.timers[t].n < s.timers[u].n
    ensures Disorder(s, steps)
  {
    steps := Extend(s, [], PassOn(u));
    var between := After(s, steps);
    assert between.timers[t] == s.timers[t] && between.passedOn == s.passedOn + [s.timers[u].n];
    steps := Extend(s, steps, PassOn(t));
    DisorderAtEnd(s.passedOn, s.timers[u].n, s.timers[t].n);
  }

  /** An event is pending while a callback holds an earlier one: the pending one can go first. */
  lemma OvertakenByPending(s: State, t: nat) returns (steps: seq<Step>)
    requires Inv(s) && t < |s.timers| && s.timers[t].Holding? && s.shared.pending.Some?
    ensures Disorder(s, steps)
  {
    var p := |s.submitted| - 1;
    assert Held(s, s.timers[t].n);
    TakenAreSubmissions(s);
    steps := [];
    if s.timers[p].Armed? {
      steps := Extend(s, steps, Fire(p));
    }
    steps := Extend(s, steps, TakePending(p));
    steps := Extend(s, steps, PassOn(p));
    steps := Extend(s, steps, PassOn(t));
    DisorderAtEnd(s.passedOn, p, s.timers[t].n);
  }

  lemma HolderIsLate(s: State, t: nat) returns (steps: seq<Step>)
    requires t < |s.timers| && s.timers[t].Holding? && !Latest(s.timers[t].n, s.passedOn)
    ensures Disorder(s, steps)
  {
    steps := Extend(s, [], PassOn(t));
    var i :| 0 <= i < |s.passedOn| && s.timers[t].n <= s.passedOn[i];
    var after := s.passedOn + [s.timers[t].n];
    assert after[i] == s.passedOn[i] && after[|s.passedOn|] == s.timers[t].n;
  }

  lemma DisorderAhead(s: State) returns (steps: seq<Step>)
    requires Inv(s) && !Orderly(s)
    ensures Disorder(s, steps)
  {
    if !OneHolding(s) {
      var t: nat, u: nat :| t < u < |s.timers| && s.timers[t].Holding? && s.timers[u].Holding?;
      if s.timers[t].n < s.timers[u].n {
        steps := OvertakenByHolder(s, t, u);
      } else {
        steps := OvertakenByHolder(s, u, t);
      }
    } else {
      var t: nat :| t < |s.timers| && s.timers[t].Holding?
                    && !(s.shared.pending.None? && Latest(s.timers[t].n, s.passedOn));
      if s.shared.pending.Some? {
        steps := OvertakenByPending(s, t);
      } else {
        steps := HolderIsLate(s, t);
      }
    }
  }

  /** When the order is safe: from a reachable state that has passed everything on in order,
      every continuation without submissions does so exactly if the state is orderly. */
  lemma PassedOnInOrderIff(s: State)
    requires Inv(s) && Increasing(s.passedOn)
    ensures Orderly(s) <==> forall steps :: Path(s, steps) && NoSubmit(steps) ==> Increasing(After(s, steps).passedOn)
  {
    if Orderly(s) {
      forall steps | Path(s, steps) && NoSubmit(steps)
        ensures Increasing(After(s, steps).passedOn)
      {
        StaysInOrder(s, steps);
      }
    } else {
      var steps := DisorderAhead(s);
      assert Path(s, steps) && NoSubmit(steps);
    }
  }

  /** A submission keeps a state orderly exactly if no callback holds an event at that moment. */
  lemma SubmissionIsSafeIff(s: State, e: Event)
    requires Inv(s) && Orderly(s) && Increasing(s.passedOn)
    ensures Orderly(Next(s, Submit(e))) <==> NoneHolding(s)
  {
    if NoneHolding(s) {
      OrderlyKept(s, Submit(e));
    } else {
      var t :| 0 <= t < |s.timers| && s.timers[t].Holding?;
      assert Next(s, Submit(e)).timers[t] == s.timers[t];
    }
  }

  /** Every submission comes while no callback holds an event. */
  ghost predicate Calm(s: State, steps: seq<Step>)
    requires Path(s, steps)
  {
    steps == []
    || (&& Calm(s, steps[..|steps| - 1])
        && (steps[|steps| - 1].Submit? ==> NoneHolding(After(s, steps[..|steps| - 1]))))
  }

  /** Whole runs of such submissions pass everything on in the order of submission. */
  lemma {:induction false} CalmRunsKeepOrder(steps: seq<Step>)
    requires Path(INIT, steps) && Calm(INIT, steps)
    ensures Orderly(After(INIT, steps)) && Increasing(After(INIT, steps).passedOn)
  {
    if steps != [] {
      var init := steps[..|steps| - 1];
      CalmRunsKeepOrder(init);
      InitInv();
      InvAlways(INIT, init);
      OrderlyKept(After(INIT, init), steps[|steps| - 1]);
    }
  }
}
