/** Abort mode and debouncing together (submitEvent and dispatchWithConcurrency in engine.go):
    without debounce the dispatch loop is the only dispatcher; with debounce each timer
    callback is one, and what it passes on is dispatched. */
module DebouncedAbort {
  import opened TriggerEvents
  import AbortMode
  import Debouncing

  /** The callback of timer `t` is dispatcher `t`. */
  datatype State = State(debouncing: Debouncing.State, abort: AbortMode.State)

  datatype Step = Submit(event: Event) | Timer(timer: Debouncing.Step) | Handler(handler: AbortMode.Step)

  function Init(debounced: bool): State {
    State(Debouncing.INIT, AbortMode.Init(if debounced then 0 else 1))
  }

  /** The submission a callback took from the lock. */
  function HeldEvent(s: Debouncing.State, t: nat): Event
    requires t < |s.timers| && s.timers[t].Holding?
  {
    var n := s.timers[t].n;
    if n < |s.submitted| then s.submitted[n] else Event("", map[])
  }

  predicate Enabled(debounced: bool, s: State, step: Step) {
    match step
    case Submit(e) => debounced || AbortMode.Enabled(s.abort, AbortMode.Dispatch(0, e))
    case Timer(t) =>
      && debounced && !t.Submit? && Debouncing.Enabled(s.debouncing, t)
      && (t.PassOn? ==> AbortMode.Enabled(s.abort, AbortMode.Dispatch(t.t, HeldEvent(s.debouncing, t.t))))
    case Handler(h) => !h.Dispatch? && AbortMode.Enabled(s.abort, h)
  }

  function Next(debounced: bool, s: State, step: Step): State
    requires Enabled(debounced, s, step)
  {
    match step
    case Submit(e) =>
      if debounced then
        State(Debouncing.Next(s.debouncing, Debouncing.Submit(e)),
              s.abort.(dispatchers := s.abort.dispatchers + [AbortMode.Idle]))
      else s.(abort := AbortMode.Next(s.abort, AbortMode.Dispatch(0, e)))
    case Timer(t) =>
      State(Debouncing.Next(s.debouncing, t),
            if t.PassOn? then AbortMode.Next(s.abort, AbortMode.Dispatch(t.t, HeldEvent(s.debouncing, t.t)))
            else s.abort)
    case Handler(h) => s.(abort := AbortMode.Next(s.abort, h))
  }

  predicate Path(debounced: bool, s: State, steps: seq<Step>)
    decreases |steps|, 0
  {
    steps == []
    || (&& Path(debounced, s, steps[..|steps| - 1])
        && Enabled(debounced, After(debounced, s, steps[..|steps| - 1]), steps[|steps| - 1]))
  }

  function After(debounced: bool, s: State, steps: seq<Step>): State
    requires Path(debounced, s, steps)
    decreases |steps|, 1
  {
    if steps == [] then s
    else Next(debounced, After(debounced, s, steps[..|steps| - 1]), steps[|steps| - 1])
  }

  lemma Extend(s: State, steps: seq<Step>, step: Step) returns (longer: seq<Step>)
    requires Path(true, s, steps) && Enabled(true, After(true, s, steps), step)
    ensures Path(true, s, longer) && After(true, s, longer) == Next(true, After(true, s, steps), step)
  {
    longer := steps + [step];
    assert longer[..|steps|] == steps;
  }

  // ---------------------------------------------------------------- without debounce

  function AsAbort(step: Step): AbortMode.Step {
    match step
    case Submit(e) => AbortMode.Dispatch(0, e)
    case Timer(_) => AbortMode.Begin(0)
    case Handler(h) => h
  }

  function AllAsAbort(steps: seq<Step>): (r: seq<AbortMode.Step>)
    ensures |r| == |steps|
  {
    seq(|steps|, i requires 0 <= i < |steps| => AsAbort(steps[i]))
  }

  /** A run without debounce is a run of abort mode with one dispatcher. */
  lemma {:induction false} WithoutDebounce(steps: seq<Step>)
    requires Path(false, Init(false), steps)
    ensures AbortMode.Path(AbortMode.Init(1), AllAsAbort(steps))
    ensures AbortMode.After(AbortMode.Init(1), AllAsAbort(steps)) == After(false, Init(false), steps).abort
  {
    if steps != [] {
      WithoutDebounce(steps[..|steps| - 1]);
      assert AllAsAbort(steps)[..|steps| - 1] == AllAsAbort(steps[..|steps| - 1]);
    }
  }

  // ------------------------------------------------------------------- with debounce

  /** All bursts so far have been passed on. */
  ghost predicate Quiet(s: State) {
    && Debouncing.Quiescent(s.debouncing) && s.debouncing.shared.pending.None?
    && |s.debouncing.timers| == |s.debouncing.submitted| == |s.abort.dispatchers|
  }

  /** One more burst comes, its timer fires, and the callback dispatches the event. */
  lemma Burst(steps: seq<Step>, e: Event) returns (longer: seq<Step>)
    requires Path(true, Init(true), steps) && Quiet(After(true, Init(true), steps))
    ensures Path(true, Init(true), longer)
    ensures var s, t := After(true, Init(true), steps), After(true, Init(true), longer);
            var n := |s.abort.dispatchers|;
            var ready := s.abort.(dispatchers := s.abort.dispatchers + [AbortMode.Idle]);
            && Quiet(t) && AbortMode.Enabled(ready, AbortMode.Dispatch(n, e))
            && t.abort == AbortMode.Next(ready, AbortMode.Dispatch(n, e))
  {
    var n := |After(true, Init(true), steps).abort.dispatchers|;
    longer := Extend(Init(true), steps, Submit(e));
    longer := Extend(Init(true), longer, Timer(Debouncing.Fire(n)));
    longer := Extend(Init(true), longer, Timer(Debouncing.TakePending(n)));
    longer := Extend(Init(true), longer, Timer(Debouncing.PassOn(n)));
  }

  /** The callbacks of the second and third burst both wait for the handler of the first. */
  lemma ThreeBursts(e: Event) returns (steps: seq<Step>)
    ensures Path(true, Init(true), steps)
    ensures var s := After(true, Init(true), steps).abort;
            AbortMode.BothWait(s, 1, 2) && s.handlers == map[0 := AbortMode.Spawned] && s.closed == []
  {
    steps := Burst([], e);
    steps := Burst(steps, e);
    steps := Burst(steps, e);
  }

  lemma {:induction false} HandlersGoOn(steps: seq<Step>, more: seq<AbortMode.Step>) returns (longer: seq<Step>)
    requires Path(true, Init(true), steps) && AbortMode.NoDispatch(more)
    requires AbortMode.Path(After(true, Init(true), steps).abort, more)
    ensures Path(true, Init(true), longer)
    ensures After(true, Init(true), longer).abort == AbortMode.After(After(true, Init(true), steps).abort, more)
  {
    if more == [] {
      longer := steps;
    } else {
      var n := |more| - 1;
      var shorter := HandlersGoOn(steps, more[..n]);
      longer := Extend(Init(true), shorter, Handler(more[n]));
    }
  }

  /** Three bursts are enough to make two handlers of a debounced trigger overlap. */
  lemma BurstsOverlap(e: Event) returns (steps: seq<Step>)
    ensures Path(true, Init(true), steps)
    ensures !AbortMode.Exclusive(After(true, Init(true), steps).abort)
  {
    var start := ThreeBursts(e);
    var more := AbortMode.WaitersOverlap(After(true, Init(true), start).abort, [], 1, 2);
    steps := HandlersGoOn(start, more);
  }

  /** Abort mode keeps handlers exclusive in every run exactly when debounce is off. */
  lemma ExclusiveIffNotDebounced(debounced: bool)
    ensures !debounced <==> forall steps :: Path(debounced, Init(debounced), steps) ==>
                              AbortMode.Exclusive(After(debounced, Init(debounced), steps).abort)
  {
    if debounced {
      var steps := BurstsOverlap(Event("", map[]));
    } else {
      forall steps | Path(false, Init(false), steps)
        ensures AbortMode.Exclusive(After(false, Init(false), steps).abort)
      {
        WithoutDebounce(steps);
        AbortMode.AbortModeIsSafe(AllAsAbort(steps));
      }
    }
  }

  // ------------------------------------------------------ what debounce does not break

  /** The callbacks that dispatch are those whose timers are through, and the dispatched events
      are the submissions they passed on. */
  ghost predicate Handed(s: State) {
    && |s.abort.dispatchers| == |s.debouncing.timers|
    && (forall t :: 0 <= t < |s.abort.dispatchers| && !s.abort.dispatchers[t].Idle? ==> s.debouncing.timers[t].Gone?)
    && (forall t :: 0 <= t < |s.debouncing.timers| && s.debouncing.timers[t].Holding? ==>
          s.debouncing.timers[t].n < |s.debouncing.submitted|)
    && |s.abort.dispatched| == |s.debouncing.passedOn|
    && forall i :: 0 <= i < |s.abort.dispatched| ==>
         && s.debouncing.passedOn[i] < |s.debouncing.submitted|
         && s.abort.dispatched[i] == s.debouncing.submitted[s.debouncing.passedOn[i]]
  }

  ghost predicate Inv(s: State) {
    Debouncing.Inv(s.debouncing) && AbortMode.AnyInv(s.abort) && Handed(s)
  }

  lemma OneMoreDispatcher(s: AbortMode.State)
    requires AbortMode.AnyInv(s)
    ensures AbortMode.AnyInv(s.(dispatchers := s.dispatchers + [AbortMode.Idle]))
  {
    var more := s.dispatchers + [AbortMode.Idle];
    assert more[..|more| - 1] == s.dispatchers;
  }

  lemma SubmitKeepsHanded(s: State, e: Event)
    requires Inv(s)
    ensures Handed(Next(true, s, Submit(e)))
  {
  }

  lemma TimerKeepsHanded(s: State, t: Debouncing.Step)
    requires Inv(s) && Enabled(true, s, Timer(t))
    ensures Handed(Next(true, s, Timer(t)))
  {
  }

  lemma HandlerKeepsHanded(s: State, h: AbortMode.Step)
    requires Inv(s) && Enabled(true, s, Handler(h))
    ensures Handed(Next(true, s, Handler(h)))
  {
  }

  lemma InvKept(s: State, step: Step)
    requires Inv(s) && Enabled(true, s, step)
    ensures Inv(Next(true, s, step))
  {
    match step {
      case Submit(e) =>
        SubmitKeepsHanded(s, e);
        Debouncing.PendingKept(s.debouncing, Debouncing.Submit(e));
        Debouncing.HandoverKept(s.debouncing, Debouncing.Submit(e));
        OneMoreDispatcher(s.abort);
      case Timer(t) =>
        TimerKeepsHanded(s, t);
        Debouncing.PendingKept(s.debouncing, t);
        Debouncing.HandoverKept(s.debouncing, t);
        if t.PassOn? {
          AbortMode.AnyInvKept(s.abort, AbortMode.Dispatch(t.t, HeldEvent(s.debouncing, t.t)));
        }
      case Handler(h) =>
        HandlerKeepsHanded(s, h);
        AbortMode.AnyInvKept(s.abort, h);
    }
  }

  lemma {:induction false} InvAlways(steps: seq<Step>)
    requires Path(true, Init(true), steps)
    ensures Inv(After(true, Init(true), steps))
  {
    if steps == [] {
      Debouncing.InitInv();
      AbortMode.AnyInvAlways(0, []);
    } else {
      InvAlways(steps[..|steps| - 1]);
      InvKept(After(true, Init(true), steps[..|steps| - 1]), steps[|steps| - 1]);
    }
  }

  /** Exclusiveness is all that debounce costs: with or without it nothing panics, channels are
      closed once, and every dispatched event is handled once or still held. */
  lemma DebounceBreaksNothingElse(debounced: bool, steps: seq<Step>)
    requires Path(debounced, Init(debounced), steps)
    ensures AbortMode.Safe(After(debounced, Init(debounced), steps).abort)
  {
    if debounced {
      InvAlways(steps);
    } else {
      WithoutDebounce(steps);
      AbortMode.AnyInvAlways(1, AllAsAbort(steps));
    }
    AbortMode.KeptIsSafe(After(debounced, Init(debounced), steps).abort);
  }

  function StepsLeft(s: State): nat {
    7 * Debouncing.StepsLeft(s.debouncing.timers) + AbortMode.StepsLeft(s.abort)
  }

  lemma StepCounts(s: State, step: Step)
    requires Inv(s) && Enabled(true, s, step) && !step.Submit?
    ensures StepsLeft(Next(true, s, step)) < StepsLeft(s)
  {
    match step {
      case Timer(t) =>
        Debouncing.WorkDrops(s.debouncing.timers, t.t, Next(true, s, step).debouncing.timers[t.t]);
        if t.PassOn? {
          AbortMode.DispatchCounts(s.abort, t.t, HeldEvent(s.debouncing, t.t));
        }
      case Handler(h) => AbortMode.StepCounts(s.abort, h);
    }
  }

  ghost predicate Stuck(s: State) {
    forall step :: Enabled(true, s, step) ==> step.Submit?
  }

  /** All timers are through, every event passed on has been handled to the end, and the last
      submission is among them. */
  ghost predicate Done(s: State) {
    && Debouncing.Quiescent(s.debouncing) && AbortMode.AllHandled(s.abort)
    && (s.debouncing.submitted != [] ==> s.debouncing.submitted[|s.debouncing.submitted| - 1] in s.abort.installed)
  }

  lemma StuckIsDone(s: State)
    requires Inv(s) && Stuck(s)
    ensures Done(s)
  {
    forall t: nat | t < |s.debouncing.timers|
      ensures s.debouncing.timers[t].Gone?
    {
      var fire, take, pass := Debouncing.Fire(t), Debouncing.TakePending(t), Debouncing.PassOn(t);
      assert !Enabled(true, s, Timer(fire)) && !Enabled(true, s, Timer(take)) && !Enabled(true, s, Timer(pass));
    }
    forall h | AbortMode.Enabled(s.abort, h)
      ensures h.Dispatch?
    {
      assert !h.Dispatch? ==> Enabled(true, s, Handler(h));
    }
    AbortMode.StuckHasHandledAll(s.abort);
    Debouncing.NothingPendingWhenQuiet(s.debouncing);
    LastIsInstalled(s);
  }

  lemma LastIsInstalled(s: State)
    requires Handed(s) && multiset(s.abort.dispatched) == multiset(s.abort.installed)
    requires s.debouncing.submitted != [] ==> |s.debouncing.submitted| - 1 in s.debouncing.passedOn
    ensures s.debouncing.submitted != [] ==>
              s.debouncing.submitted[|s.debouncing.submitted| - 1] in s.abort.installed
  {
    if s.debouncing.submitted != [] {
      var i :| 0 <= i < |s.debouncing.passedOn| && s.debouncing.passedOn[i] == |s.debouncing.submitted| - 1;
      assert s.abort.dispatched[i] in multiset(s.abort.dispatched);
      assert s.abort.dispatched[i] in multiset(s.abort.installed);
    }
  }

  /** A debounced trigger in abort mode comes to rest after every burst: without submissions all
      schedules are bounded, and one that cannot go on has handled the last submission. */
  lemma {:induction false} BurstsAreHandled(before: seq<Step>, steps: seq<Step>)
    requires Path(true, Init(true), before) && Path(true, After(true, Init(true), before), steps)
    requires forall i :: 0 <= i < |steps| ==> !steps[i].Submit?
    ensures var start := After(true, Init(true), before);
            var s := After(true, start, steps);
            && Inv(s) && s.debouncing.submitted == start.debouncing.submitted
            && |steps| + StepsLeft(s) <= StepsLeft(start)
            && (Stuck(s) ==> Done(s))
  {
    var start := After(true, Init(true), before);
    InvAlways(before);
    if steps != [] {
      var init, last := steps[..|steps| - 1], steps[|steps| - 1];
      BurstsAreHandled(before, init);
      InvKept(After(true, start, init), last);
      StepCounts(After(true, start, init), last);
    }
    if Stuck(After(true, start, steps)) {
      StuckIsDone(After(true, start, steps));
    }
  }
}
