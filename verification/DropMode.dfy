/** Drop mode of the trigger engine (dispatchWithConcurrency in engine.go) as a state machine:
    an event that arrives while a handler goroutine is under way is dropped. Any number of
    submitters interleave freely. */
module DropMode {
  import opened TriggerEvents

  // ---------------------------------------------------------------- critical sections

  /** The only field the lock guards in this mode. */
  datatype Shared = Shared(running: bool)

  /** Tells whether to start a handler. */
  function Enter(s: Shared): (Shared, bool) {
    (Shared(true), !s.running)
  }

  function Leave(s: Shared): Shared {
    Shared(false)
  }

  // -------------------------------------------------------------------- the protocol

  /** A handler goroutine before and in its handler, and between it and the last section. */
  datatype Worker = Spawned(event: Event) | Handling(event: Event) | Leaving

  datatype Submission = Submission(event: Event, started: bool)

  datatype State = State(
    shared: Shared,
    workers: map<nat, Worker>,
    nextWorker: nat,
    submissions: seq<Submission>,
    handled: seq<Event>)

  datatype Step = Submit(event: Event) | Begin(w: nat) | End(w: nat) | Exit(w: nat)

  const INIT := State(Shared(false), map[], 0, [], [])

  predicate Enabled(s: State, step: Step) {
    match step
    case Submit(_) => true
    case Begin(w) => w in s.workers && s.workers[w].Spawned?
    case End(w) => w in s.workers && s.workers[w].Handling?
    case Exit(w) => w in s.workers && s.workers[w].Leaving?
  }

  function Next(s: State, step: Step): State
    requires Enabled(s, step)
  {
    match step
    case Submit(e) =>
      var (shared, start) := Enter(s.shared);
      var t := s.(shared := shared, submissions := s.submissions + [Submission(e, start)]);
      if start then t.(workers := s.workers[s.nextWorker := Spawned(e)], nextWorker := s.nextWorker + 1) else t
    case Begin(w) => s.(workers := s.workers[w := Handling(s.workers[w].event)])
    case End(w) => s.(workers := s.workers[w := Leaving], handled := s.handled + [s.workers[w].event])
    case Exit(w) => s.(shared := Leave(s.shared), workers := s.workers - {w})
  }

  predicate Path(s: State, steps: seq<Step>)
    decreases |steps|, 0
  {
    steps == []
    || (&& Path(s, steps[..|steps| - 1])
        && Enabled(After(s, steps[..|steps| - 1]), steps[|steps| - 1]))
  }

  function After(s: State, steps: seq<Step>): State
    requires Path(s, steps)
    decreases |steps|, 1
  {
    if steps == [] then s else Next(After(s, steps[..|steps| - 1]), steps[|steps| - 1])
  }

  // -------------------------------------------------------------------- the invariant

  function Accepted(submissions: seq<Submission>): seq<Event> {
    if submissions == [] then []
    else
      var last := submissions[|submissions| - 1];
      Accepted(submissions[..|submissions| - 1]) + (if last.started then [last.event] else [])
  }

  function EventOf(w: Worker): seq<Event> {
    if w.Leaving? then [] else [w.event]
  }

  ghost predicate OnlyWorker(s: State, w: nat) {
    && s.workers.Keys == {w} && w < s.nextWorker
    && Accepted(s.submissions) == s.handled + EventOf(s.workers[w])
  }

  ghost predicate Inv(s: State) {
    && (!s.shared.running ==> s.workers == map[] && Accepted(s.submissions) == s.handled)
    && (s.shared.running ==> exists w :: OnlyWorker(s, w))
  }

  lemma AcceptedSnoc(submissions: seq<Submission>, x: Submission)
    ensures Accepted(submissions + [x]) == Accepted(submissions) + (if x.started then [x.event] else [])
  {
    assert (submissions + [x])[..|submissions|] == submissions;
  }

  lemma InvPreserved(s: State, step: Step)
    requires Inv(s) && Enabled(s, step)
    ensures Inv(Next(s, step))
  {
    var t := Next(s, step);
    if step.Submit? {
      AcceptedSnoc(s.submissions, t.submissions[|s.submissions|]);
    }
    if s.shared.running {
      var w :| OnlyWorker(s, w);
      if step.Exit? {
        assert t.workers.Keys == {};
      } else {
        assert OnlyWorker(t, w);
      }
    } else {
      assert OnlyWorker(t, s.nextWorker);
    }
  }

  lemma {:induction false} InvAlways(s: State, steps: seq<Step>)
    requires Inv(s) && Path(s, steps)
    ensures Inv(After(s, steps))
  {
    if steps != [] {
      InvAlways(s, steps[..|steps| - 1]);
      InvPreserved(After(s, steps[..|steps| - 1]), steps[|steps| - 1]);
    }
  }

  // ------------------------------------------------------------------------- theorems

  /** Drop mode over all runs: at most one handler goroutine, and one exactly while the trigger
      is running; what was accepted has been handled, in order, except for the event that
      this goroutine has in hand. */
  lemma DropModeIsSafe(steps: seq<Step>)
    requires Path(INIT, steps)
    ensures var s := After(INIT, steps);
            && |s.workers| == (if s.shared.running then 1 else 0)
            && (s.workers == map[] ==> Accepted(s.submissions) == s.handled)
            && (forall w :: w in s.workers ==> Accepted(s.submissions) == s.handled + EventOf(s.workers[w]))
  {
    assert Inv(INIT);
    InvAlways(INIT, steps);
    var s := After(INIT, steps);
    if s.shared.running {
      var w :| OnlyWorker(s, w);
      assert |s.workers| == |s.workers.Keys|;
    }
  }

  /** An event is dropped exactly while a handler goroutine is under way. */
  lemma DroppedExactlyWhileHandling(steps: seq<Step>, e: Event)
    requires Path(INIT, steps)
    ensures var s := After(INIT, steps);
            var t := Next(s, Submit(e));
            && Accepted(t.submissions) == Accepted(s.submissions) + (if s.workers == map[] then [e] else [])
            && t.handled == s.handled
  {
    DropModeIsSafe(steps);
    var s := After(INIT, steps);
    AcceptedSnoc(s.submissions, Submission(e, !s.shared.running));
  }

  // -------------------------------------------------------------------------- liveness

  predicate NoSubmit(steps: seq<Step>) {
    forall i :: 0 <= i < |steps| ==> !steps[i].Submit?
  }

  function Rank(w: Worker): nat {
    match w case Spawned(_) => 3 case Handling(_) => 2 case Leaving => 1
  }

  ghost function StepsLeft(s: State): nat {
    if s.workers == map[] then 0
    else
      var w :| w in s.workers;
      Rank(s.workers[w])
  }

  lemma WorkerStepCounts(s: State, step: Step)
    requires Inv(s) && Enabled(s, step) && !step.Submit?
    ensures StepsLeft(Next(s, step)) < StepsLeft(s) && Next(s, step).submissions == s.submissions
  {
    InvPreserved(s, step);
    var w :| OnlyWorker(s, w);
    assert forall v :: v in Next(s, step).workers ==> v == w;
  }

  /** Without new submissions every schedule is bounded, and one that cannot go on has handled
      everything accepted and left the trigger free. */
  lemma {:induction false} WorkerFinishes(s: State, steps: seq<Step>)
    requires Inv(s) && Path(s, steps) && NoSubmit(steps)
    ensures Inv(After(s, steps))
    ensures |steps| + StepsLeft(After(s, steps)) <= StepsLeft(s) && After(s, steps).submissions == s.submissions
    ensures (forall step :: Enabled(After(s, steps), step) ==> step.Submit?) ==>
              After(s, steps).handled == Accepted(s.submissions) && !After(s, steps).shared.running
  {
    if steps != [] {
      var init := steps[..|steps| - 1];
      WorkerFinishes(s, init);
      WorkerStepCounts(After(s, init), steps[|steps| - 1]);
      InvPreserved(After(s, init), steps[|steps| - 1]);
    }
    StuckMeansDone(After(s, steps));
  }

  lemma StuckMeansDone(s: State)
    requires Inv(s)
    ensures (forall step :: Enabled(s, step) ==> step.Submit?) ==>
              s.handled == Accepted(s.submissions) && !s.shared.running
  {
    if s.shared.running {
      var w :| OnlyWorker(s, w);
      var step := match s.workers[w] case Spawned(_) => Begin(w) case Handling(_) => End(w) case Leaving => Exit(w);
      assert Enabled(s, step);
    }
  }
}
