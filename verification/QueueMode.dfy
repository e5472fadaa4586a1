/** One event produced by a driver: src/app/recurd/triggerengine/driver.go. */
module TriggerEvents {
  datatype Event = Event(triggerType: string, context: map<string, string>)
}

/** Queue mode of the trigger engine (enqueueAndDrain in engine.go) as a state machine whose
    steps are the critical sections under the trigger's lock and the start and end of
    handlers. Any number of submitters and the draining goroutines interleave freely. */
module QueueMode {
  import opened Options
  import opened TriggerEvents

  // ---------------------------------------------------------------- critical sections

  /** The part of an active trigger that the lock guards in this mode. */
  datatype Shared = Shared(running: bool, queue: seq<Event>)

  datatype Outcome = Started | Queued | Dropped

  function Bound(maxQueueSize: int): (n: nat)
    ensures 0 < n
  {
    if maxQueueSize <= 0 then 100 else maxQueueSize
  }

  function Enqueue(s: Shared, event: Event, max: int): (Shared, Outcome) {
    if s.running then
      if |s.queue| >= Bound(max) then (s, Dropped) else (s.(queue := s.queue + [event]), Queued)
    else (s.(running := true), Started)
  }

  function Dequeue(s: Shared): (Shared, Option<Event>) {
    if |s.queue| == 0 then (s.(running := false), None)
    else (s.(queue := s.queue[1..]), Some(s.queue[0]))
  }

  // -------------------------------------------------------------------- the protocol

  /** A draining goroutine: created with its first event, inside a handler, or between a
      handler and the next critical section. */
  datatype Worker = Spawned(event: Event) | Handling(event: Event) | Looking

  datatype Submission = Submission(event: Event, outcome: Outcome)

  datatype State = State(
    shared: Shared,
    workers: map<nat, Worker>,
    nextWorker: nat,
    submissions: seq<Submission>,
    handled: seq<Event>)

  datatype Step = Submit(event: Event) | Start(w: nat) | Finish(w: nat) | Drain(w: nat)

  const INIT := State(Shared(false, []), map[], 0, [], [])

  predicate Enabled(s: State, step: Step) {
    match step
    case Submit(_) => true
    case Start(w) => w in s.workers && s.workers[w].Spawned?
    case Finish(w) => w in s.workers && s.workers[w].Handling?
    case Drain(w) => w in s.workers && s.workers[w].Looking?
  }

  function Next(max: int, s: State, step: Step): State
    requires Enabled(s, step)
  {
    match step
    case Submit(e) =>
      var (shared, outcome) := Enqueue(s.shared, e, max);
      var t := s.(shared := shared, submissions := s.submissions + [Submission(e, outcome)]);
      if outcome.Started? then t.(workers := s.workers[s.nextWorker := Spawned(e)], nextWorker := s.nextWorker + 1)
      else t
    case Start(w) =>
      s.(workers := s.workers[w := Handling(s.workers[w].event)])
    case Finish(w) =>
      s.(workers := s.workers[w := Looking], handled := s.handled + [s.workers[w].event])
    case Drain(w) =>
      var (shared, next) := Dequeue(s.shared);
      s.(shared := shared,
         workers := if next.Some? then s.workers[w := Handling(next.value)] else s.workers - {w})
  }

  /** `steps` can be taken one after another from `s`. */
  predicate Path(max: int, s: State, steps: seq<Step>)
    decreases |steps|, 0
  {
    steps == []
    || (&& Path(max, s, steps[..|steps| - 1])
        && Enabled(After(max, s, steps[..|steps| - 1]), steps[|steps| - 1]))
  }

  function After(max: int, s: State, steps: seq<Step>): State
    requires Path(max, s, steps)
    decreases |steps|, 1
  {
    if steps == [] then s else Next(max, After(max, s, steps[..|steps| - 1]), steps[|steps| - 1])
  }

  // -------------------------------------------------------------------- the invariant

  /** The events that were not dropped, in the order their critical sections ran. */
  function Accepted(submissions: seq<Submission>): seq<Event> {
    if submissions == [] then []
    else
      var last := submissions[|submissions| - 1];
      Accepted(submissions[..|submissions| - 1]) + (if last.outcome.Dropped? then [] else [last.event])
  }

  function EventOf(w: Worker): seq<Event> {
    if w.Looking? then [] else [w.event]
  }

  ghost predicate OnlyWorker(s: State, w: nat) {
    s.workers.Keys == {w} && w < s.nextWorker
  }

  /** One worker exists exactly while `running` is set; nothing accepted is ever lost,
      duplicated or reordered; the queue stays within its bound. */
  ghost predicate Inv(max: int, s: State) {
    && |s.shared.queue| <= Bound(max)
    && (!s.shared.running ==>
          && s.workers == map[] && s.shared.queue == []
          && Accepted(s.submissions) == s.handled)
    && (s.shared.running ==> exists w :: OnlyWorker(s, w) && InLine(s, w))
  }

  /** Everything accepted is handled, in flight or queued, in this order. */
  ghost predicate InLine(s: State, w: nat)
    requires w in s.workers
  {
    Accepted(s.submissions) == s.handled + EventOf(s.workers[w]) + s.shared.queue
  }

  lemma AcceptedSnoc(submissions: seq<Submission>, x: Submission)
    ensures Accepted(submissions + [x]) == Accepted(submissions) + (if x.outcome.Dropped? then [] else [x.event])
  {
    assert (submissions + [x])[..|submissions|] == submissions;
  }

  lemma InvPreserved(max: int, s: State, step: Step)
    requires Inv(max, s) && Enabled(s, step)
    ensures Inv(max, Next(max, s, step))
  {
    if s.shared.running {
      var w :| OnlyWorker(s, w) && InLine(s, w);
      match step {
        case Submit(e) => SubmitKeeps(max, s, w, e);
        case Start(v) => assert OnlyWorker(Next(max, s, step), w) && InLine(Next(max, s, step), w);
        case Finish(v) => FinishKeeps(max, s, w);
        case Drain(v) => DrainKeeps(max, s, w);
      }
    } else {
      assert step.Submit?;
      FirstSubmit(max, s, step.event);
    }
  }

  lemma SubmitKeeps(max: int, s: State, w: nat, e: Event)
    requires Inv(max, s) && s.shared.running && OnlyWorker(s, w) && InLine(s, w)
    ensures Inv(max, Next(max, s, Submit(e)))
  {
    var t := Next(max, s, Submit(e));
    AcceptedSnoc(s.submissions, t.submissions[|s.submissions|]);
    assert OnlyWorker(t, w) && InLine(t, w);
  }

  lemma FirstSubmit(max: int, s: State, e: Event)
    requires Inv(max, s) && !s.shared.running
    ensures Inv(max, Next(max, s, Submit(e)))
  {
    var t := Next(max, s, Submit(e));
    AcceptedSnoc(s.submissions, t.submissions[|s.submissions|]);
    assert OnlyWorker(t, s.nextWorker) && InLine(t, s.nextWorker);
  }

  lemma FinishKeeps(max: int, s: State, w: nat)
    requires Inv(max, s) && s.shared.running && OnlyWorker(s, w) && InLine(s, w) && s.workers[w].Handling?
    ensures Inv(max, Next(max, s, Finish(w)))
  {
    var t := Next(max, s, Finish(w));
    assert OnlyWorker(t, w) && InLine(t, w);
  }

  lemma DrainKeeps(max: int, s: State, w: nat)
    requires Inv(max, s) && s.shared.running && OnlyWorker(s, w) && InLine(s, w) && s.workers[w].Looking?
    ensures Inv(max, Next(max, s, Drain(w)))
  {
    var t := Next(max, s, Drain(w));
    if s.shared.queue != [] {
      assert s.shared.queue == [s.shared.queue[0]] + t.shared.queue;
      assert OnlyWorker(t, w) && InLine(t, w);
    } else {
      assert t.workers.Keys == {};
    }
  }

  /** Every interleaving of any number of submitters with the workers keeps the invariant. */
  lemma {:induction false} InvAlways(max: int, s: State, steps: seq<Step>)
    requires Inv(max, s) && Path(max, s, steps)
    ensures Inv(max, After(max, s, steps))
  {
    if steps != [] {
      InvAlways(max, s, steps[..|steps| - 1]);
      InvPreserved(max, After(max, s, steps[..|steps| - 1]), steps[|steps| - 1]);
    }
  }

  // ------------------------------------------------------------------ safety theorems

  lemma InitInv(max: int)
    ensures Inv(max, INIT)
  {
  }

  /** Safety of queue mode over all runs: at most one worker, and one exactly while the
      trigger is running; everything accepted has been handled, is in the worker's hands or is
      queued, in this order; the queue stays within its bound. */
  lemma QueueModeIsSafe(max: int, steps: seq<Step>)
    requires Path(max, INIT, steps)
    ensures var s := After(max, INIT, steps);
            && |s.workers| == (if s.shared.running then 1 else 0)
            && (s.workers == map[] ==> Accepted(s.submissions) == s.handled && s.shared.queue == [])
            && (forall w :: w in s.workers ==>
                  Accepted(s.submissions) == s.handled + EventOf(s.workers[w]) + s.shared.queue)
            && |s.shared.queue| <= (if max > 0 then max else 100)
  {
    InitInv(max);
    InvAlways(max, INIT, steps);
    var s := After(max, INIT, steps);
    if s.shared.running {
      var w :| OnlyWorker(s, w) && InLine(s, w);
      assert |s.workers| == |s.workers.Keys|;
    }
  }

  /** Seen from outside: what has been handled comes first, and what is queued last. */
  lemma HandledInOrder(max: int, steps: seq<Step>)
    requires Path(max, INIT, steps)
    ensures var s := After(max, INIT, steps);
            var n := |Accepted(s.submissions)|;
            && s.handled <= Accepted(s.submissions)
            && |s.handled| + |s.shared.queue| <= n <= |s.handled| + 1 + |s.shared.queue|
            && s.shared.queue == Accepted(s.submissions)[n - |s.shared.queue|..]
  {
    QueueModeIsSafe(max, steps);
    var s := After(max, INIT, steps);
    if s.workers == map[] {
      ThreeParts(Accepted(s.submissions), s.handled, [], s.shared.queue);
    } else {
      var w :| w in s.workers;
      ThreeParts(Accepted(s.submissions), s.handled, EventOf(s.workers[w]), s.shared.queue);
    }
  }

  lemma ThreeParts(all: seq<Event>, a: seq<Event>, b: seq<Event>, c: seq<Event>)
    requires all == a + b + c && |b| <= 1
    ensures a <= all && |a| + |c| <= |all| <= |a| + 1 + |c| && c == all[|all| - |c|..]
  {
  }

  /** An event is dropped exactly when a worker is running and the queue is full; every
      other event is accepted at the end of the line. */
  lemma DroppedExactlyWhenFull(max: int, steps: seq<Step>, e: Event)
    requires Path(max, INIT, steps)
    ensures var s := After(max, INIT, steps);
            var t := Next(max, s, Submit(e));
            && t.submissions == s.submissions + [Submission(e, t.submissions[|s.submissions|].outcome)]
            && (t.submissions[|s.submissions|].outcome.Dropped? <==>
                  |s.workers| == 1 && |s.shared.queue| == (if max > 0 then max else 100))
            && Accepted(t.submissions)
               == Accepted(s.submissions) + (if t.submissions[|s.submissions|].outcome.Dropped? then [] else [e])
            && t.handled == s.handled
  {
    QueueModeIsSafe(max, steps);
    var s := After(max, INIT, steps);
    AcceptedSnoc(s.submissions, Submission(e, Enqueue(s.shared, e, max).1));
  }

  // -------------------------------------------------------------------------- liveness

  function Rank(w: Worker): nat {
    match w case Spawned(_) => 3 case Handling(_) => 2 case Looking => 1
  }

  /** How many worker steps are left if nobody submits any more. */
  ghost function StepsLeft(s: State): nat {
    if s.workers == map[] then 0
    else
      var w :| w in s.workers;
      3 * |s.shared.queue| + Rank(s.workers[w])
  }

  lemma WorkerStepCounts(max: int, s: State, step: Step)
    requires Inv(max, s) && Enabled(s, step) && !step.Submit?
    ensures var t := Next(max, s, step);
            StepsLeft(t) < StepsLeft(s) && t.submissions == s.submissions
  {
    InvPreserved(max, s, step);
    var t := Next(max, s, step);
    var w :| OnlyWorker(s, w);
    assert forall v :: v in t.workers ==> v == w;
  }

  predicate NoSubmit(steps: seq<Step>) {
    forall i :: 0 <= i < |steps| ==> !steps[i].Submit?
  }

  /** Without new submissions every schedule of the worker stops after a bounded number of
      steps. */
  lemma {:induction false} DrainTerminates(max: int, s: State, steps: seq<Step>)
    requires Inv(max, s) && Path(max, s, steps) && NoSubmit(steps)
    ensures |steps| + StepsLeft(After(max, s, steps)) <= StepsLeft(s)
    ensures After(max, s, steps).submissions == s.submissions
  {
    if steps != [] {
      var init := steps[..|steps| - 1];
      DrainTerminates(max, s, init);
      InvAlways(max, s, init);
      WorkerStepCounts(max, After(max, s, init), steps[|steps| - 1]);
    }
  }

  /** A schedule can only stop once everything accepted has been handled. */
  lemma StuckMeansDone(max: int, s: State)
    requires Inv(max, s) && forall step :: Enabled(s, step) ==> step.Submit?
    ensures s.handled == Accepted(s.submissions) && !s.shared.running && s.shared.queue == []
  {
    if s.shared.running {
      var w :| OnlyWorker(s, w);
      assert w in s.workers;
      match s.workers[w] {
        case Spawned(_) => assert Enabled(s, Start(w));
        case Handling(_) => assert Enabled(s, Finish(w));
        case Looking => assert Enabled(s, Drain(w));
      }
    }
  }

  /** From every reachable state the backlog drains completely, in acceptance order. */
  lemma {:induction false} DrainsEverything(max: int, s: State) returns (steps: seq<Step>)
    requires Inv(max, s)
    ensures Path(max, s, steps) && NoSubmit(steps)
    ensures After(max, s, steps).handled == Accepted(s.submissions)
    ensures !After(max, s, steps).shared.running
    decreases StepsLeft(s)
  {
    if forall step :: Enabled(s, step) ==> step.Submit? {
      StuckMeansDone(max, s);
      steps := [];
    } else {
      var step :| Enabled(s, step) && !step.Submit?;
      WorkerStepCounts(max, s, step);
      InvPreserved(max, s, step);
      var rest := DrainsEverything(max, Next(max, s, step));
      PathCons(max, s, step, rest);
      steps := [step] + rest;
    }
  }

  lemma {:induction false} PathCons(max: int, s: State, step: Step, rest: seq<Step>)
    requires Enabled(s, step) && Path(max, Next(max, s, step), rest)
    ensures Path(max, s, [step] + rest)
    ensures After(max, s, [step] + rest) == After(max, Next(max, s, step), rest)
  {
    if rest == [] {
      assert [step] + rest == [step];
      assert Path(max, s, []) && [step][..0] == [];
    } else {
      var init := rest[..|rest| - 1];
      PathCons(max, s, step, init);
      assert ([step] + rest)[..|rest|] == [step] + init;
    }
  }
}
