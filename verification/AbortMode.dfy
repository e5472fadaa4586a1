/** Abort mode of the trigger engine (dispatchWithConcurrency in engine.go) as a state
    machine. With debounce off the only dispatcher is the dispatch loop; with debounce on,
    every timer callback is one. */
module AbortMode {
  import opened Options
  import opened Sequences
  import opened TriggerEvents

  // ---------------------------------------------------------------- critical sections

  /** The fields guarded by the lock in this mode. A handler number stands for its cancel
      function and its done channel. */
  datatype Shared = Shared(running: bool, cancel: Option<nat>, done: Option<nat>)

  /** Registers handler `k` as the running one. */
  function Install(s: Shared, k: nat): Shared {
    s.(cancel := Some(k), done := Some(k), running := true)
  }

  /** What a handler goroutine does when its handler has returned. */
  function Clear(s: Shared): Shared {
    s.(running := false, cancel := None, done := None)
  }

  // -------------------------------------------------------------------- the protocol

  /** A dispatcher waits on the channel of the handler it cancelled, then takes the lock. */
  datatype Dispatcher = Idle | Waiting(event: Event, channel: nat) | Woken(event: Event)

  /** A handler goroutine before, in and after its body; `Cleared` has given up the shared
      fields and has its channel still to close. */
  datatype Stage = Spawned | Body | Finished | Cleared

  datatype Mark = Began(k: nat) | Ended(k: nat)

  datatype State = State(
    shared: Shared,
    dispatchers: seq<Dispatcher>,
    handlers: map<nat, Stage>,
    closed: seq<nat>,
    cancelled: set<nat>,
    dispatched: seq<Event>,
    installed: seq<Event>,
    log: seq<Mark>,
    panicked: bool)

  datatype Step =
    | Dispatch(d: nat, event: Event)
    | Wake(d: nat)
    | InstallAfterWait(d: nat)
    | Begin(k: nat)
    | End(k: nat)
    | Release(k: nat)
    | Close(k: nat)

  function Init(dispatchers: nat): State {
    State(Shared(false, None, None), seq(dispatchers, _ => Idle), map[], [], {}, [], [], [], false)
  }

  predicate Enabled(s: State, step: Step) {
    match step
    case Dispatch(d, _) => d < |s.dispatchers| && s.dispatchers[d].Idle?
    case Wake(d) => d < |s.dispatchers| && s.dispatchers[d].Waiting? && s.dispatchers[d].channel in s.closed
    case InstallAfterWait(d) => d < |s.dispatchers| && s.dispatchers[d].Woken?
    case Begin(k) => k in s.handlers && s.handlers[k] == Spawned
    case End(k) => k in s.handlers && s.handlers[k] == Body
    case Release(k) => k in s.handlers && s.handlers[k] == Finished
    case Close(k) => k in s.handlers && s.handlers[k] == Cleared
  }

  function InstallHandler(s: State, d: nat, event: Event): State
    requires d < |s.dispatchers|
  {
    var k := |s.installed|;
    s.(shared := Install(s.shared, k),
       handlers := s.handlers[k := Spawned],
       installed := s.installed + [event],
       dispatchers := s.dispatchers[d := Idle])
  }

  /** Calling a nil cancel function and closing a closed channel are Go panics. */
  function Next(s: State, step: Step): State
    requires Enabled(s, step)
  {
    match step
    case Dispatch(d, e) =>
      var t := s.(dispatched := s.dispatched + [e]);
      if !s.shared.running then InstallHandler(t, d, e)
      else if s.shared.cancel.None? || s.shared.done.None? then t.(panicked := true)
      else t.(cancelled := s.cancelled + {s.shared.cancel.value},
              dispatchers := s.dispatchers[d := Waiting(e, s.shared.done.value)])
    case Wake(d) => s.(dispatchers := s.dispatchers[d := Woken(s.dispatchers[d].event)])
    case InstallAfterWait(d) => InstallHandler(s, d, s.dispatchers[d].event)
    case Begin(k) => s.(handlers := s.handlers[k := Body], log := s.log + [Began(k)])
    case End(k) => s.(handlers := s.handlers[k := Finished], log := s.log + [Ended(k)])
    case Release(k) => s.(handlers := s.handlers[k := Cleared], shared := Clear(s.shared))
    case Close(k) => s.(handlers := s.handlers - {k}, closed := s.closed + [k], panicked := s.panicked || k in s.closed)
  }

  predicate Path(s: State, steps: seq<Step>)
    decreases |steps|, 0
  {
    steps == []
    || (&& Path(s, steps[..|steps| - 1])
        && Enabled(After(s, steps[..|steps| - 1]), steps[|steps| - 1]))
  }

  function After(s: State, steps: seq<Step>): State
    requires Path(s, steps)
    decreases |steps|, 1
  {
    if steps == [] then s else Next(After(s, steps[..|steps| - 1]), steps[|steps| - 1])
  }

  /** At most one handler body is live. */
  ghost predicate Exclusive(s: State) {
    forall i, j :: i in s.handlers && j in s.handlers && s.handlers[i] == Body && s.handlers[j] == Body ==> i == j
  }

  // ------------------------------------------------------- one dispatcher: invariant

  /** The log of the first `n` handlers run strictly one after another. */
  function OneByOne(n: nat): seq<Mark> {
    if n == 0 then [] else OneByOne(n - 1) + [Began(n - 1), Ended(n - 1)]
  }

  /** The log the stage of the latest handler calls for. */
  function LogOf(n: nat, handlers: map<nat, Stage>): seq<Mark> {
    if n == 0 then []
    else if n - 1 !in handlers then OneByOne(n)
    else match handlers[n - 1]
         case Spawned => OneByOne(n - 1)
         case Body => OneByOne(n - 1) + [Began(n - 1)]
         case _ => OneByOne(n)
  }

  ghost predicate HandlersInv(s: State) {
    var n := |s.installed|;
    && (forall k :: k in s.handlers ==> k < n && (k < n - 1 ==> s.handlers[k] == Cleared))
    && (s.shared.running <==> 0 < n && n - 1 in s.handlers && s.handlers[n - 1] != Cleared)
    && s.shared.cancel == s.shared.done == (if s.shared.running then Some(n - 1) else None)
    && s.log == LogOf(n, s.handlers)
  }

  ghost predicate ClosedInv(s: State) {
    && Distinct(s.closed)
    && forall k: nat :: k in s.closed <==> k < |s.installed| && k !in s.handlers
  }

  ghost predicate DispatcherInv(s: State) {
    && |s.dispatchers| == 1
    && (match s.dispatchers[0]
        case Idle => s.dispatched == s.installed
        case Waiting(e, ch) => s.dispatched == s.installed + [e] && ch == |s.installed| - 1
        case Woken(e) => s.dispatched == s.installed + [e] && !s.shared.running)
    && forall k :: k in s.cancelled ==> k + 1 < |s.dispatched|
  }

  ghost predicate Inv(s: State) {
    !s.panicked && HandlersInv(s) && ClosedInv(s) && DispatcherInv(s)
  }

  lemma HandlersKept(s: State, step: Step)
    requires Inv(s) && Enabled(s, step)
    ensures HandlersInv(Next(s, step))
  {
    var t := Next(s, step);
    if step.Begin? || step.End? {
      assert step.k == |s.installed| - 1;
      assert OneByOne(|s.installed|) == OneByOne(|s.installed| - 1) + [Began(step.k)] + [Ended(step.k)];
    }
  }

  lemma ClosedKept(s: State, step: Step)
    requires Inv(s) && Enabled(s, step)
    ensures ClosedInv(Next(s, step)) && !Next(s, step).panicked
  {
    var t := Next(s, step);
    if step.Close? {
      assert forall k :: k in t.closed <==> k in s.closed || k == step.k;
    }
  }

  lemma DispatcherKept(s: State, step: Step)
    requires Inv(s) && Enabled(s, step)
    ensures DispatcherInv(Next(s, step))
  {
  }

  lemma InvStarts()
    ensures Inv(Init(1))
  {
    assert Init(1).closed == [] && Init(1).dispatchers == [Idle];
  }

  lemma {:induction false} InvAlways(steps: seq<Step>)
    requires Path(Init(1), steps)
    ensures Inv(After(Init(1), steps))
  {
    if steps == [] {
      InvStarts();
    } else {
      var init, last := steps[..|steps| - 1], steps[|steps| - 1];
      InvAlways(init);
      HandlersKept(After(Init(1), init), last);
      ClosedKept(After(Init(1), init), last);
      DispatcherKept(After(Init(1), init), last);
    }
  }

  // ------------------------------------------------- one dispatcher: safety theorems

  lemma {:induction false} OneByOnePrefix(m: nat, n: nat)
    requires m <= n
    ensures OneByOne(m) <= OneByOne(n)
  {
    if m < n {
      OneByOnePrefix(m, n - 1);
    }
  }

  /** Abort mode with a single dispatcher, over all runs. Handler bodies are exclusive and run
      in dispatch order, each starting only after the one before has returned. Every event
      but at most the latest has its handler. The cancel function and the done channel are
      set exactly while running; no channel is closed twice and only by its own, finished
      handler; nothing panics. Only handlers superseded by a later event are cancelled. */
  lemma AbortModeIsSafe(steps: seq<Step>)
    requires Path(Init(1), steps)
    ensures var s := After(Init(1), steps);
            && Exclusive(s)
            && s.log <= OneByOne(|s.installed|)
            && s.installed <= s.dispatched && |s.dispatched| <= |s.installed| + 1
            && (s.shared.running <==> s.shared.cancel.Some?) && (s.shared.running <==> s.shared.done.Some?)
            && Distinct(s.closed) && (forall k :: k in s.closed ==> Ended(k) in s.log)
            && !s.panicked
            && forall k :: k in s.cancelled ==> k + 1 < |s.dispatched|
  {
    InvAlways(steps);
    var s := After(Init(1), steps);
    LogIsSequential(s);
    ClosedHasEnded(s);
  }

  lemma LogIsSequential(s: State)
    requires HandlersInv(s)
    ensures s.log <= OneByOne(|s.installed|)
  {
    var n := |s.installed|;
    if 0 < n {
      assert OneByOne(n) == OneByOne(n - 1) + [Began(n - 1)] + [Ended(n - 1)];
    }
  }

  lemma {:induction false} EndedInOrder(k: nat, n: nat)
    requires k < n
    ensures Ended(k) in OneByOne(n)
  {
    if k < n - 1 {
      EndedInOrder(k, n - 1);
    }
  }

  lemma ClosedHasEnded(s: State)
    requires HandlersInv(s) && ClosedInv(s)
    ensures forall k :: k in s.closed ==> Ended(k) in s.log
  {
    var n := |s.installed|;
    forall k | k in s.closed
      ensures Ended(k) in s.log
    {
      if k < n - 1 { EndedInOrder(k, n - 1); }
      EndedInOrder(k, n);
    }
  }

  /** A dispatched event cancels exactly the handler that has not yet given up the trigger. */
  lemma DispatchCancelsTheRunningOne(steps: seq<Step>, e: Event)
    requires Path(Init(1), steps) && Enabled(After(Init(1), steps), Dispatch(0, e))
    ensures var s := After(Init(1), steps);
            var t := Next(s, Dispatch(0, e));
            var last := |s.installed| - 1;
            && t.cancelled == s.cancelled + (if last in s.handlers && s.handlers[last] != Cleared then {last} else {})
            && (t.installed == s.installed + [e] <==> !s.shared.running)
  {
    InvAlways(steps);
  }

  // --------------------------------------------------------- one dispatcher: liveness

  function StageWork(stage: Stage): nat {
    match stage case Spawned => 4 case Body => 3 case Finished => 2 case Cleared => 1
  }

  /** Steps left to the handlers numbered below `n`. */
  function Work(handlers: map<nat, Stage>, n: nat): nat {
    if n == 0 then 0
    else Work(handlers, n - 1) + (if n - 1 in handlers then StageWork(handlers[n - 1]) else 0)
  }

  lemma {:induction false} WorkOfOthers(a: map<nat, Stage>, b: map<nat, Stage>, n: nat)
    requires forall k: nat :: k < n ==> ((k in a <==> k in b) && (k in a ==> a[k] == b[k]))
    ensures Work(a, n) == Work(b, n)
  {
    if n != 0 {
      WorkOfOthers(a, b, n - 1);
    }
  }

  lemma {:induction false} WorkDrops(a: map<nat, Stage>, b: map<nat, Stage>, n: nat, k: nat)
    requires k < n && k in a && (k in b ==> StageWork(b[k]) < StageWork(a[k]))
    requires forall j: nat :: j != k ==> ((j in a <==> j in b) && (j in a ==> a[j] == b[j]))
    ensures Work(b, n) < Work(a, n)
  {
    if k == n - 1 {
      WorkOfOthers(a, b, n - 1);
    } else {
      WorkDrops(a, b, n - 1, k);
    }
  }

  function DispatcherWork(d: Dispatcher): nat {
    match d case Idle => 0 case Waiting(_, _) => 6 case Woken(_) => 5
  }

  function DispatchersWork(ds: seq<Dispatcher>): nat {
    if ds == [] then 0 else DispatchersWork(ds[..|ds| - 1]) + DispatcherWork(ds[|ds| - 1])
  }

  function StepsLeft(s: State): nat {
    Work(s.handlers, |s.installed|) + DispatchersWork(s.dispatchers)
  }

  lemma {:induction false} OneDispatcherMoves(ds: seq<Dispatcher>, d: nat, to: Dispatcher)
    requires d < |ds|
    ensures DispatchersWork(ds[d := to]) + DispatcherWork(ds[d]) == DispatchersWork(ds) + DispatcherWork(to)
  {
    var n := |ds| - 1;
    if d == n {
      assert ds[d := to][..n] == ds[..n];
    } else {
      OneDispatcherMoves(ds[..n], d, to);
      assert ds[d := to][..n] == ds[..n][d := to];
    }
  }

  lemma StepCounts(s: State, step: Step)
    requires (forall k :: k in s.handlers ==> k < |s.installed|) && Enabled(s, step) && !step.Dispatch?
    ensures StepsLeft(Next(s, step)) < StepsLeft(s)
  {
    var t := Next(s, step);
    match step {
      case Wake(d) => OneDispatcherMoves(s.dispatchers, d, Woken(s.dispatchers[d].event));
      case InstallAfterWait(d) =>
        OneDispatcherMoves(s.dispatchers, d, Idle);
        WorkOfOthers(s.handlers, t.handlers, |s.installed|);
      case Begin(k) => WorkDrops(s.handlers, t.handlers, |s.installed|, k);
      case End(k) => WorkDrops(s.handlers, t.handlers, |s.installed|, k);
      case Release(k) => WorkDrops(s.handlers, t.handlers, |s.installed|, k);
      case Close(k) => WorkDrops(s.handlers, t.handlers, |s.installed|, k);
    }
  }

  lemma DispatchCounts(s: State, d: nat, e: Event)
    requires (forall k :: k in s.handlers ==> k < |s.installed|) && Enabled(s, Dispatch(d, e))
    ensures StepsLeft(Next(s, Dispatch(d, e))) <= StepsLeft(s) + 6
  {
    var t := Next(s, Dispatch(d, e));
    OneDispatcherMoves(s.dispatchers, d, t.dispatchers[d]);
    if !s.shared.running {
      WorkOfOthers(s.handlers, t.handlers, |s.installed|);
    }
  }

  /** No deadlock: as long as an event is waiting or a handler is not through, some step
      other than a new dispatch is possible; when none is, every dispatched event has been
      handled to the end, in order. */
  lemma StuckMeansDone(s: State)
    requires Inv(s) && forall step :: Enabled(s, step) ==> step.Dispatch?
    ensures s.installed == s.dispatched && s.log == OneByOne(|s.dispatched|)
    ensures s.handlers == map[] && s.dispatchers == [Idle]
  {
    if s.handlers != map[] {
      var k :| k in s.handlers;
      HandlerCanMove(s, k);
    }
    var wake, install := Wake(0), InstallAfterWait(0);
    assert !Enabled(s, wake) && !Enabled(s, install);
  }

  lemma HandlerCanMove(s: State, k: nat)
    requires k in s.handlers
    ensures exists step :: Enabled(s, step) && !step.Dispatch?
  {
    var step := match s.handlers[k]
      case Spawned => Begin(k)
      case Body => End(k)
      case Finished => Release(k)
      case Cleared => Close(k);
    assert Enabled(s, step);
  }

  /** From every reachable state, with no further events, all steps lead to the end: any
      schedule is bounded by `StepsLeft`, and one that cannot go on has handled everything. */
  lemma {:induction false} SettlesWithoutNewEvents(s: State, steps: seq<Step>)
    requires Inv(s) && Path(s, steps) && forall i :: 0 <= i < |steps| ==> !steps[i].Dispatch?
    ensures Inv(After(s, steps))
    ensures |steps| + StepsLeft(After(s, steps)) <= StepsLeft(s)
    ensures After(s, steps).dispatched == s.dispatched
  {
    if steps != [] {
      var init, last := steps[..|steps| - 1], steps[|steps| - 1];
      SettlesWithoutNewEvents(s, init);
      HandlersKept(After(s, init), last);
      ClosedKept(After(s, init), last);
      DispatcherKept(After(s, init), last);
      StepCounts(After(s, init), last);
    }
  }

  // -------------------------------------- exclusive exactly with at most one dispatcher

  lemma Extend(s: State, steps: seq<Step>, step: Step) returns (longer: seq<Step>)
    requires Path(s, steps) && Enabled(After(s, steps), step)
    ensures longer == steps + [step]
    ensures Path(s, longer) && After(s, longer) == Next(After(s, steps), step)
  {
    longer := steps + [step];
    assert longer[..|steps|] == steps;
  }

  predicate NoDispatch(steps: seq<Step>) {
    forall i :: 0 <= i < |steps| ==> !steps[i].Dispatch?
  }

  /** Two dispatchers have cancelled the first handler and wait for it. */
  ghost predicate BothWait(s: State, c: nat, d: nat) {
    && c < |s.dispatchers| && d < |s.dispatchers| && c != d && |s.installed| == 1
    && s.dispatchers[c].Waiting? && s.dispatchers[c].channel == 0
    && s.dispatchers[d].Waiting? && s.dispatchers[d].channel == 0
  }

  /** After `before` the first handler is still to run. */
  ghost predicate BothWaitAfter(s: State, before: seq<Step>, c: nat, d: nat) {
    && Path(s, before) && BothWait(After(s, before), c, d)
    && After(s, before).handlers == map[0 := Spawned] && After(s, before).closed == []
  }

  /** The handler they wait for goes through all its stages. */
  lemma FirstHandlerEnds(s: State, before: seq<Step>, c: nat, d: nat) returns (steps: seq<Step>)
    requires BothWaitAfter(s, before, c, d)
    ensures Path(s, steps) && (NoDispatch(before) ==> NoDispatch(steps))
    ensures BothWait(After(s, steps), c, d) && After(s, steps).handlers == map[] && After(s, steps).closed == [0]
  {
    steps := Extend(s, before, Begin(0));
    steps := Extend(s, steps, End(0));
    steps := Extend(s, steps, Release(0));
    steps := Extend(s, steps, Close(0));
  }

  lemma BothInstall(s: State, before: seq<Step>, c: nat, d: nat) returns (steps: seq<Step>)
    requires BothWaitAfter(s, before, c, d)
    ensures Path(s, steps) && (NoDispatch(before) ==> NoDispatch(steps))
    ensures After(s, steps).handlers == map[1 := Spawned, 2 := Spawned]
  {
    steps := FirstHandlerEnds(s, before, c, d);
    steps := Extend(s, steps, Wake(c));
    steps := Extend(s, steps, Wake(d));
    steps := Extend(s, steps, InstallAfterWait(c));
    steps := Extend(s, steps, InstallAfterWait(d));
  }

  /** Then both install a handler, and both bodies run. */
  lemma WaitersOverlap(s: State, before: seq<Step>, c: nat, d: nat) returns (steps: seq<Step>)
    requires BothWaitAfter(s, before, c, d)
    ensures Path(s, steps) && (NoDispatch(before) ==> NoDispatch(steps)) && !Exclusive(After(s, steps))
  {
    steps := BothInstall(s, before, c, d);
    steps := Extend(s, steps, Begin(1));
    steps := Extend(s, steps, Begin(2));
    var t := After(s, steps);
    assert 1 in t.handlers && 2 in t.handlers && t.handlers[1] == Body && t.handlers[2] == Body;
  }

  /** Two dispatchers are enough for two handlers at a time. */
  lemma TwoCallbacksOverlap(e: Event) returns (steps: seq<Step>)
    ensures Path(Init(2), steps) && !Exclusive(After(Init(2), steps))
  {
    steps := Extend(Init(2), [], Dispatch(0, e));
    steps := Extend(Init(2), steps, Dispatch(0, e));
    steps := Extend(Init(2), steps, Dispatch(1, e));
    steps := WaitersOverlap(Init(2), steps, 0, 1);
  }

  /** Idle dispatchers further on take no part. */
  lemma StepOfTwo(s: State, t: State, idle: seq<Dispatcher>, step: Step)
    requires |s.dispatchers| == 2 && t == s.(dispatchers := s.dispatchers + idle) && Enabled(s, step)
    ensures Enabled(t, step) && |Next(s, step).dispatchers| == 2
    ensures Next(t, step) == Next(s, step).(dispatchers := Next(s, step).dispatchers + idle)
  {
  }

  lemma {:induction false} MoreDispatchersToo(n: nat, steps: seq<Step>)
    requires 2 <= n && Path(Init(2), steps)
    ensures Path(Init(n), steps)
    ensures After(Init(n), steps)
         == After(Init(2), steps).(dispatchers := After(Init(2), steps).dispatchers + seq(n - 2, _ => Idle))
    ensures |After(Init(2), steps).dispatchers| == 2
  {
    var idle: seq<Dispatcher> := seq(n - 2, _ => Idle);
    if steps == [] {
      assert Init(n).dispatchers == Init(2).dispatchers + idle;
    } else {
      var init := steps[..|steps| - 1];
      MoreDispatchersToo(n, init);
      StepOfTwo(After(Init(2), init), After(Init(n), init), idle, steps[|steps| - 1]);
    }
  }

  /** Abort mode keeps handlers exclusive in every run exactly when at most one dispatcher
      exists. */
  lemma ExclusiveIffOneDispatcher(n: nat)
    ensures (forall steps :: Path(Init(n), steps) ==> Exclusive(After(Init(n), steps))) <==> n <= 1
  {
    if n == 0 {
      forall steps | Path(Init(0), steps)
        ensures Exclusive(After(Init(0), steps))
      {
        NobodyDispatches(steps);
      }
    } else if n == 1 {
      forall steps | Path(Init(1), steps)
        ensures Exclusive(After(Init(1), steps))
      {
        AbortModeIsSafe(steps);
      }
    } else {
      var steps := TwoCallbacksOverlap(Event("", map[]));
      MoreDispatchersToo(n, steps);
    }
  }

  lemma {:induction false} NobodyDispatches(steps: seq<Step>)
    requires Path(Init(0), steps)
    ensures After(Init(0), steps) == Init(0)
  {
    if steps != [] {
      NobodyDispatches(steps[..|steps| - 1]);
    }
  }

  // ------------------------------------- what holds for any number of dispatchers

  /** Whether a dispatcher has still to install a handler for this event. */
  predicate Holds(d: Dispatcher, e: Event) {
    !d.Idle? && d.event == e
  }

  /** How many dispatchers hold it. */
  function Holders(ds: seq<Dispatcher>, e: Event): nat {
    if ds == [] then 0 else Holders(ds[..|ds| - 1], e) + (if Holds(ds[|ds| - 1], e) then 1 else 0)
  }

  lemma {:induction false} OneHolds(ds: seq<Dispatcher>, d: nat, to: Dispatcher, e: Event)
    requires d < |ds|
    ensures Holders(ds[d := to], e)
         == Holders(ds, e) - (if Holds(ds[d], e) then 1 else 0) + (if Holds(to, e) then 1 else 0)
  {
    var n := |ds| - 1;
    if d == n {
      assert ds[d := to][..n] == ds[..n];
    } else {
      OneHolds(ds[..n], d, to, e);
      assert ds[d := to][..n] == ds[..n][d := to];
    }
  }

  lemma {:induction false} NobodyHolds(ds: seq<Dispatcher>, e: Event)
    requires forall i :: 0 <= i < |ds| ==> ds[i].Idle?
    ensures Holders(ds, e) == 0
  {
    if ds != [] {
      NobodyHolds(ds[..|ds| - 1], e);
    }
  }

  /** The shared fields name a handler that has not released the trigger. */
  ghost predicate NamesLiveHandler(s: State) {
    && s.shared.cancel == s.shared.done
    && (s.shared.running <==> s.shared.cancel.Some?)
    && (s.shared.cancel.Some? ==> s.shared.cancel.value in s.handlers && s.handlers[s.shared.cancel.value] != Cleared)
  }

  /** The handlers that have begun, and those that have ended. */
  ghost predicate BegunAre(s: State) {
    forall k: nat :: Began(k) in s.log <==> k < |s.installed| && (k in s.handlers ==> s.handlers[k] != Spawned)
  }

  ghost predicate EndedAre(s: State) {
    forall k: nat :: Ended(k) in s.log <==>
      k < |s.installed| && (k in s.handlers ==> s.handlers[k] == Finished || s.handlers[k] == Cleared)
  }

  ghost predicate WaitsForHandler(s: State) {
    forall d :: 0 <= d < |s.dispatchers| && s.dispatchers[d].Waiting? ==> s.dispatchers[d].channel < |s.installed|
  }

  ghost predicate AnyInv(s: State) {
    && !s.panicked && NamesLiveHandler(s) && ClosedInv(s) && WaitsForHandler(s)
    && Distinct(s.log) && BegunAre(s) && EndedAre(s)
    && (forall k :: k in s.handlers ==> k < |s.installed|)
    && NoneLost(s)
  }

  /** Every dispatched event has its handler or a dispatcher that holds it. */
  ghost predicate NoneLost(s: State) {
    forall e :: multiset(s.dispatched)[e] == multiset(s.installed)[e] + Holders(s.dispatchers, e)
  }

  lemma KeptIsSafe(s: State)
    requires AnyInv(s)
    ensures Safe(s)
  {
  }

  lemma FieldsKept(s: State, step: Step)
    requires AnyInv(s) && Enabled(s, step)
    ensures var t := Next(s, step);
            && !t.panicked && NamesLiveHandler(t) && ClosedInv(t) && WaitsForHandler(t)
            && forall k :: k in t.handlers ==> k < |t.installed|
  {
    var t := Next(s, step);
    if step.Close? {
      assert forall k :: k in t.closed <==> k in s.closed || k == step.k;
    }
  }

  lemma BegunKept(s: State, step: Step)
    requires AnyInv(s) && Enabled(s, step)
    ensures BegunAre(Next(s, step))
  {
  }

  lemma EndedKept(s: State, step: Step)
    requires AnyInv(s) && Enabled(s, step)
    ensures EndedAre(Next(s, step))
  {
  }

  lemma MarksKept(s: State, step: Step)
    requires AnyInv(s) && Enabled(s, step)
    ensures Distinct(Next(s, step).log)
  {
    match step {
      case Begin(k) => assert Began(k) !in s.log;
      case End(k) => assert Ended(k) !in s.log;
      case _ =>
    }
  }

  lemma EventsKept(s: State, step: Step)
    requires AnyInv(s) && Enabled(s, step)
    ensures NoneLost(Next(s, step))
  {
    var t := Next(s, step);
    if step.Dispatch? || step.Wake? || step.InstallAfterWait? {
      forall e
        ensures multiset(t.dispatched)[e] == multiset(t.installed)[e] + Holders(t.dispatchers, e)
      {
        OneHolds(s.dispatchers, step.d, t.dispatchers[step.d], e);
      }
    }
  }

  lemma AnyInvKept(s: State, step: Step)
    requires AnyInv(s) && Enabled(s, step)
    ensures AnyInv(Next(s, step))
  {
    FieldsKept(s, step);
    BegunKept(s, step);
    EndedKept(s, step);
    MarksKept(s, step);
    EventsKept(s, step);
  }

  lemma {:induction false} AnyInvAlways(n: nat, steps: seq<Step>)
    requires Path(Init(n), steps)
    ensures AnyInv(After(Init(n), steps))
  {
    if steps == [] {
      forall e ensures Holders(Init(n).dispatchers, e) == 0 { NobodyHolds(Init(n).dispatchers, e); }
      assert Init(n).closed == [] && Init(n).log == [];
    } else {
      var before, last := After(Init(n), steps[..|steps| - 1]), steps[|steps| - 1];
      AnyInvAlways(n, steps[..|steps| - 1]);
      AnyInvKept(before, last);
    }
  }

  /** Nothing panics; cancel and done are set exactly while running. Every handler begins and
      ends at most once, and a channel is closed once, after its handler has ended. Every
      dispatched event has its handler or a dispatcher that holds it: none is lost or doubled. */
  ghost predicate Safe(s: State) {
    && !s.panicked
    && (s.shared.running <==> s.shared.cancel.Some?) && (s.shared.running <==> s.shared.done.Some?)
    && Distinct(s.log) && (forall k: nat :: Ended(k) in s.log ==> Began(k) in s.log)
    && Distinct(s.closed) && (forall k :: k in s.closed ==> Ended(k) in s.log)
    && NoneLost(s)
  }

  /** What several dispatchers do not break, over all runs. */
  lemma SafeWithManyDispatchers(n: nat, steps: seq<Step>)
    requires Path(Init(n), steps)
    ensures Safe(After(Init(n), steps))
  {
    AnyInvAlways(n, steps);
  }

  /** Nor is there a deadlock: without new events every schedule is bounded, and one that cannot
      go on leaves the trigger free, with every dispatched event handled to the end. */
  lemma {:induction false} ManyDispatchersSettle(n: nat, before: seq<Step>, steps: seq<Step>)
    requires Path(Init(n), before) && Path(After(Init(n), before), steps) && NoDispatch(steps)
    ensures var s := After(After(Init(n), before), steps);
            && AnyInv(s) && s.dispatched == After(Init(n), before).dispatched
            && |steps| + StepsLeft(s) <= StepsLeft(After(Init(n), before))
            && ((forall step :: Enabled(s, step) ==> step.Dispatch?) ==> AllHandled(s))
  {
    var start := After(Init(n), before);
    AnyInvAlways(n, before);
    if steps != [] {
      var init, last := steps[..|steps| - 1], steps[|steps| - 1];
      ManyDispatchersSettle(n, before, init);
      AnyInvKept(After(start, init), last);
      StepCounts(After(start, init), last);
    }
    if forall step :: Enabled(After(start, steps), step) ==> step.Dispatch? {
      StuckHasHandledAll(After(start, steps));
    }
  }

  /** Nobody waits or handles, and every dispatched event had a handler that ended. */
  ghost predicate AllHandled(s: State) {
    && s.shared == Shared(false, None, None) && s.handlers == map[]
    && (forall d :: 0 <= d < |s.dispatchers| ==> s.dispatchers[d].Idle?)
    && multiset(s.dispatched) == multiset(s.installed)
    && forall k: nat :: Ended(k) in s.log <==> k < |s.installed|
  }

  lemma StuckHasHandledAll(s: State)
    requires AnyInv(s) && forall step :: Enabled(s, step) ==> step.Dispatch?
    ensures AllHandled(s)
  {
    if s.handlers != map[] {
      var k :| k in s.handlers;
      HandlerCanMove(s, k);
    }
    forall d | 0 <= d < |s.dispatchers|
      ensures s.dispatchers[d].Idle?
    {
      var wake, install := Wake(d), InstallAfterWait(d);
      assert !Enabled(s, wake) && !Enabled(s, install);
    }
    forall e
      ensures multiset(s.dispatched)[e] == multiset(s.installed)[e]
    {
      NobodyHolds(s.dispatchers, e);
    }
  }
}
