/** The shared state of one active trigger and the critical sections that update it in place:
    src/app/recurd/triggerengine/engine.go, lines 32-45 and 205-327. Each method is one
    section under the trigger's lock; QueueMode, AbortMode, DropMode and Debouncing interleave
    them. */
module ActiveTriggers {
  import opened Options
  import opened TriggerEvents
  import QueueMode
  import AbortMode
  import Debouncing
  import DropMode

  class ActiveTrigger {
    var running: bool
    var queue: seq<Event>
    var debounceTimer: Option<nat>
    var debouncePending: Option<nat>
    var abortCancel: Option<nat>
    var abortDone: Option<nat>

    function QueueView(): QueueMode.Shared
      reads this
    {
      QueueMode.Shared(running, queue)
    }

    function AbortView(): AbortMode.Shared
      reads this
    {
      AbortMode.Shared(running, abortCancel, abortDone)
    }

    function DropView(): DropMode.Shared
      reads this
    {
      DropMode.Shared(running)
    }

    function DebounceView(): Debouncing.Shared
      reads this
    {
      Debouncing.Shared(debouncePending, debounceTimer)
    }

    constructor ()
      ensures QueueView() == QueueMode.INIT.shared
      ensures AbortView() == AbortMode.Init(0).shared
      ensures DropView() == DropMode.INIT.shared
      ensures DebounceView() == Debouncing.INIT.shared
    {
      running, queue := false, [];
      debounceTimer, debouncePending := None, None;
      abortCancel, abortDone := None, None;
    }

    /** The first section of enqueueAndDrain. A caller that gets `Started` spawns the worker. */
    method EnqueueSection(event: Event, maxQueueSize: int) returns (outcome: QueueMode.Outcome)
      modifies this`running, this`queue
      ensures (QueueView(), outcome) == QueueMode.Enqueue(old(QueueView()), event, maxQueueSize)
    {
      var max := if maxQueueSize <= 0 then 100 else maxQueueSize;
      if running {
        if |queue| >= max {
          return QueueMode.Dropped;
        }
        queue := queue + [event];
        return QueueMode.Queued;
      }
      running := true;
      return QueueMode.Started;
    }

    /** The section of the drain loop: pops the next event or ends the worker. */
    method DrainSection() returns (next: Option<Event>)
      modifies this`running, this`queue
      ensures (QueueView(), next) == QueueMode.Dequeue(old(QueueView()))
    {
      if |queue| == 0 {
        running := false;
        return None;
      }
      next := Some(queue[0]);
      queue := queue[1..];
    }

    /** The first section of abort mode: either names the handler to cancel and the channel to
        wait for, or installs handler `k` at once. */
    method AbortEnterSection(k: nat) returns (cancel: Option<nat>, wait: Option<nat>)
      requires running ==> abortCancel.Some? && abortDone.Some?
      modifies this`running, this`abortCancel, this`abortDone
      ensures old(running) ==> AbortView() == old(AbortView()) && cancel == old(abortCancel) && wait == old(abortDone)
      ensures !old(running) ==> AbortView() == AbortMode.Install(old(AbortView()), k) && cancel == wait == None
    {
      if running {
        return abortCancel, abortDone;
      }
      AbortInstallSection(k);
      return None, None;
    }

    method AbortInstallSection(k: nat)
      modifies this`running, this`abortCancel, this`abortDone
      ensures AbortView() == AbortMode.Install(old(AbortView()), k)
    {
      abortCancel := Some(k);
      abortDone := Some(k);
      running := true;
    }

    /** The section of a handler goroutine whose handler has returned. */
    method AbortReleaseSection()
      modifies this`running, this`abortCancel, this`abortDone
      ensures AbortView() == AbortMode.Clear(old(AbortView()))
    {
      running := false;
      abortCancel := None;
      abortDone := None;
    }

    /** The section of submitEvent for a debounced trigger: `n` numbers the submission and the
        timer armed for it; the previous timer is returned to be stopped. */
    method ArmSection(n: nat) returns (stop: Option<nat>)
      modifies this`debouncePending, this`debounceTimer
      ensures (DebounceView(), stop) == Debouncing.Arm(old(DebounceView()), n)
    {
      debouncePending := Some(n);
      stop := debounceTimer;
      debounceTimer := Some(n);
    }

    /** The section of a timer callback. */
    method TakeSection() returns (pending: Option<nat>)
      modifies this`debouncePending
      ensures (DebounceView(), pending) == Debouncing.Take(old(DebounceView()))
    {
      pending := debouncePending;
      debouncePending := None;
    }

    /** The first section of drop mode: tells whether to start a handler. */
    method DropEnterSection() returns (start: bool)
      modifies this`running
      ensures (DropView(), start) == DropMode.Enter(old(DropView()))
    {
      if running {
        return false;
      }
      running := true;
      return true;
    }

    /** The section of a handler goroutine of drop mode whose handler has returned. */
    method DropLeaveSection()
      modifies this`running
      ensures DropView() == DropMode.Leave(old(DropView()))
    {
      running := false;
    }
  }
}
