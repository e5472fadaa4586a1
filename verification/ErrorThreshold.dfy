/** Error counting of actions: the execute callback of src/app/recurd/daemon/daemon.go
    (lines 258-285) and the status check of handleEvent in
    src/app/recurd/triggerengine/engine.go, seen from one action. */
module ErrorThresholds {
  import opened Options

  datatype Status = Active | Suspended | Error

  datatype Outcome = Success | Failure | Cancelled

  /** The state of an action that executing it can change, and its threshold. */
  datatype ActionState = ActionState(status: Status, errorCount: int, threshold: int, lastExecuted: Option<int>)

  // ---------------------------------------------------------------------- serial runs

  datatype Op = Fire(outcome: Outcome, now: int) | Suspend | Resume

  function Executed(a: ActionState, outcome: Outcome, now: int): ActionState {
    match outcome
    case Cancelled => a.(lastExecuted := Some(now))
    case Success => a.(lastExecuted := Some(now), errorCount := 0)
    case Failure =>
      a.(lastExecuted := Some(now), errorCount := a.errorCount + 1,
         status := if 0 < a.threshold <= a.errorCount + 1 then Error else a.status)
  }

  function After(a: ActionState, op: Op): ActionState {
    match op
    case Fire(outcome, now) => if a.status == Active then Executed(a, outcome, now) else a
    case Suspend => a.(status := Suspended)
    case Resume => a.(status := Active)
  }

  function Run(a: ActionState, ops: seq<Op>): ActionState {
    if ops == [] then a else After(Run(a, ops[..|ops| - 1]), ops[|ops| - 1])
  }

  /** The outcomes of the executions that actually took place. */
  function History(a: ActionState, ops: seq<Op>): seq<Outcome> {
    if ops == [] then []
    else
      var init, last := ops[..|ops| - 1], ops[|ops| - 1];
      History(a, init) + (if last.Fire? && Run(a, init).status == Active then [last.outcome] else [])
  }

  // ------------------------------------------------------------------ the error count

  function Uncancelled(outcomes: seq<Outcome>): seq<Outcome> {
    if outcomes == [] then []
    else
      var last := outcomes[|outcomes| - 1];
      Uncancelled(outcomes[..|outcomes| - 1]) + (if last.Cancelled? then [] else [last])
  }

  /** `n` failures end `xs`, and no more than `n`. */
  ghost predicate EndsInFailures(xs: seq<Outcome>, n: nat) {
    && n <= |xs|
    && (forall i :: |xs| - n <= i < |xs| ==> xs[i].Failure?)
    && (n < |xs| ==> !xs[|xs| - n - 1].Failure?)
  }

  lemma UncancelledSnoc(xs: seq<Outcome>, x: Outcome)
    ensures Uncancelled(xs + [x]) == Uncancelled(xs) + (if x.Cancelled? then [] else [x])
  {
    assert (xs + [x])[..|xs|] == xs;
  }

  /** Over any serial run the count is the length of the current streak of failures, cancelled
      executions left out; as long as nothing has succeeded, what was there at the start is
      added. */
  lemma {:induction false} CountIsStreak(a: ActionState, ops: seq<Op>) returns (streak: nat)
    ensures EndsInFailures(Uncancelled(History(a, ops)), streak)
    ensures Run(a, ops).errorCount
         == streak + (if Success in Uncancelled(History(a, ops)) then 0 else a.errorCount)
    ensures Run(a, ops).threshold == a.threshold
  {
    if ops == [] {
      return 0;
    }
    var init, last := ops[..|ops| - 1], ops[|ops| - 1];
    var before := History(a, init);
    streak := CountIsStreak(a, init);
    if last.Fire? && Run(a, init).status == Active {
      assert History(a, ops) == before + [last.outcome];
      UncancelledSnoc(before, last.outcome);
      StreakSnoc(Uncancelled(before), last.outcome, streak);
      streak := if last.outcome.Cancelled? then streak else if last.outcome.Success? then 0 else streak + 1;
    } else {
      assert History(a, ops) == before;
    }
  }

  lemma StreakSnoc(xs: seq<Outcome>, x: Outcome, n: nat)
    requires EndsInFailures(xs, n)
    ensures x.Success? ==> EndsInFailures(xs + [x], 0)
    ensures x.Failure? ==> EndsInFailures(xs + [x], n + 1)
    ensures Success in xs + [x] <==> Success in xs || x == Success
    ensures xs + [] == xs
  {
  }

  // ----------------------------------------------------------------- the error status

  predicate NoResume(ops: seq<Op>) {
    forall i :: 0 <= i < |ops| ==> !ops[i].Resume?
  }

  /** An action that is not active is never executed again before a resume: neither its count
      nor the time of its last execution changes, whatever events arrive. */
  lemma {:induction false} NeverExecutedBeforeResume(a: ActionState, ops: seq<Op>)
    requires a.status != Active && NoResume(ops)
    ensures History(a, ops) == [] && Run(a, ops).status != Active
    ensures Run(a, ops) == a.(status := Run(a, ops).status)
  {
    if ops != [] {
      NeverExecutedBeforeResume(a, ops[..|ops| - 1]);
    }
  }

  ghost predicate BelowThreshold(a: ActionState) {
    a.status == Active && 0 < a.threshold ==> a.errorCount < a.threshold
  }

  /** Without resumes an active action is always below its threshold: the failure that reaches
      it is the one that turns the action to error. */
  lemma {:induction false} ActiveMeansBelowThreshold(a: ActionState, ops: seq<Op>)
    requires BelowThreshold(a) && NoResume(ops)
    ensures BelowThreshold(Run(a, ops))
  {
    if ops != [] {
      ActiveMeansBelowThreshold(a, ops[..|ops| - 1]);
    }
  }

  /** An execution turns an action to error exactly when it fails, is not cancelled, and makes
      the streak reach a positive threshold. */
  lemma ErrorExactlyAtThreshold(a: ActionState, ops: seq<Op>, outcome: Outcome, now: int)
    requires Run(a, ops).status == Active
    ensures var s := Run(a, ops);
            var t := Run(a, ops + [Fire(outcome, now)]);
            && (t.status == Error <==> outcome == Failure && 0 < a.threshold <= s.errorCount + 1)
            && (t.status != Error ==> t.status == Active)
            && (outcome == Cancelled ==> t.errorCount == s.errorCount)
  {
    assert (ops + [Fire(outcome, now)])[..|ops|] == ops;
    var _ := CountIsStreak(a, ops);
  }

  /** Resuming does not reset the count: a disabled action that is resumed has no failures
      left to spend, and only an uncancelled success gives it its threshold back. */
  lemma ResumeKeepsCount(a: ActionState, cancelled: seq<Op>, now: int)
    requires a.status == Error && 0 < a.threshold <= a.errorCount
    requires forall i :: 0 <= i < |cancelled| ==> cancelled[i].Fire? && cancelled[i].outcome.Cancelled?
    ensures Run(a, [Resume] + cancelled + [Fire(Failure, now)]).status == Error
    ensures Run(a, [Resume] + cancelled + [Fire(Success, now)]).errorCount == 0
    ensures Run(a, [Resume] + cancelled + [Fire(Success, now)]).status == Active
  {
    var start := [Resume] + cancelled;
    CancelledChangeNothing(a, cancelled);
    assert (start + [Fire(Failure, now)])[..|start|] == start;
    assert (start + [Fire(Success, now)])[..|start|] == start;
  }

  lemma {:induction false} CancelledChangeNothing(a: ActionState, cancelled: seq<Op>)
    requires forall i :: 0 <= i < |cancelled| ==> cancelled[i].Fire? && cancelled[i].outcome.Cancelled?
    ensures var s := Run(a, [Resume] + cancelled);
            s.status == Active && s.errorCount == a.errorCount && s.threshold == a.threshold
  {
    var start := [Resume] + cancelled;
    if cancelled == [] {
      assert start == [Resume];
      assert [Resume][..0] == [];
    } else {
      var init := cancelled[..|cancelled| - 1];
      CancelledChangeNothing(a, init);
      assert start[..|start| - 1] == [Resume] + init;
    }
  }
}
