/** The RPC handlers and callbacks that change the registry and the trigger engine together:
    src/app/recurd/daemon/api.go and daemon.go. Requests are served one after the other, and
    activating a trigger succeeds exactly when some factory supports its type. */
module Daemons {
  import opened Options
  import opened EntityIndexes
  import opened Entities
  import opened RegistryStates
  import opened RegistryOps
  import Registries
  import ErrorThresholds

  type Support = string -> bool

  datatype Daemon = Daemon(reg: RegistryState, active: set<string>)

  /** The triggers the engine ought to run. */
  function Expected(reg: RegistryState, supported: Support): set<string> {
    set id | id in reg.triggers && reg.triggers[id].run.status.Active? && supported(reg.triggers[id].entity.typ)
  }

  /** The engine runs the active triggers of the registry that it can run, and no others. */
  predicate Agreement(d: Daemon, supported: Support) {
    d.active == Expected(d.reg, supported)
  }

  // ------------------------------------------------------------------------ the steps

  /** Lookups are recorded by what they found: `prior` is the recurfile a registration
      replaces; deregistering looks its identifier up twice. */
  datatype Op =
    | Register(f: File, prior: Option<string>)
    | Deregister(first: Option<string>, second: Option<string>)
    | SetTriggerStatus(trigger: Option<string>, resume: bool)
    | SetActionStatus(action: Option<string>, resume: bool)
    | Uninstall(plugin: string)
    | DriverError(id: string)
    | Fire(id: string, now: int)
    | Execute(id: string, outcome: ErrorThresholds.Outcome, now: int)

  function Target(resume: bool): Status {
    if resume then ErrorThresholds.Active else ErrorThresholds.Suspended
  }

  function Toggled(d: Daemon, supported: Support, id: string, resume: bool): set<string>
    requires id in d.reg.triggers
  {
    var t := d.reg.triggers[id];
    if !resume then d.active - {id}
    else if !t.run.status.Active? && supported(t.entity.typ) then d.active + {id}
    else d.active
  }

  function Step(hash: Hash, supported: Support, d: Daemon, op: Op): Daemon
    requires op.Register? ==> Known(d.reg, op.prior)
  {
    match op
    case Register(f, prior) =>
      var reg := Registered(hash, d.reg, f, prior);
      Daemon(reg,
             (d.active - TriggersOf(d.reg, prior)) + (OwnedTriggers(reg, FileID(hash, f)) * Expected(reg, supported)))
    case Deregister(first, second) =>
      Daemon(Without(d.reg, second), d.active - TriggersOf(d.reg, first))
    case SetTriggerStatus(id, resume) =>
      if id.Some? && id.value in d.reg.triggers
      then Daemon(TriggerStatus(d.reg, id, Target(resume)), Toggled(d, supported, id.value, resume)) else d
    case SetActionStatus(id, resume) =>
      d.(reg := ActionStatus(d.reg, id, Target(resume)))
    case Uninstall(plugin) =>
      Daemon(PluginSuspended(d.reg, plugin), d.active - NewlySuspended(d.reg, plugin))
    case DriverError(id) =>
      Daemon(DriverFailed(d.reg, id),
             if id in d.reg.triggers && ThresholdReached(d.reg, id) then d.active - {id} else d.active)
    case Fire(id, now) => d.(reg := Fired(d.reg, id, now))
    case Execute(id, outcome, now) => d.(reg := Executed(d.reg, id, outcome, now))
  }

  /** The steps of one trigger event: the trigger fires, then its actions are executed in
      order. `outcome` says how each execution goes. */
  function EventOps(reg: RegistryState, tid: string, outcome: string -> ErrorThresholds.Outcome, now: int): seq<Op> {
    if tid in reg.triggers && reg.triggers[tid].run.status.Active?
    then [Fire(tid, now)] + ExecuteOps(ActionsOf(reg, tid), outcome, now)
    else []
  }

  function ExecuteOps(acts: seq<Running<Action>>, outcome: string -> ErrorThresholds.Outcome, now: int): (r: seq<Op>)
    ensures |r| == |acts|
  {
    seq(|acts|, i requires 0 <= i < |acts| => Execute(acts[i].entity.id, outcome(acts[i].entity.id), now))
  }

  function Steps(hash: Hash, supported: Support, d: Daemon, ops: seq<Op>): Daemon
    requires forall i :: 0 <= i < |ops| ==> !ops[i].Register?
  {
    if ops == [] then d
    else Step(hash, supported, Steps(hash, supported, d, ops[..|ops| - 1]), ops[|ops| - 1])
  }

  lemma {:induction false} StepsAppend(hash: Hash, supported: Support, d: Daemon, ops: seq<Op>, more: seq<Op>)
    requires forall i :: 0 <= i < |ops| ==> !ops[i].Register?
    requires forall i :: 0 <= i < |more| ==> !more[i].Register?
    ensures Steps(hash, supported, d, ops + more) == Steps(hash, supported, Steps(hash, supported, d, ops), more)
  {
    if more == [] {
      assert ops + more == ops;
    } else {
      var n := |more| - 1;
      StepsAppend(hash, supported, d, ops, more[..n]);
      assert (ops + more)[..|ops| + n] == ops + more[..n];
    }
  }

  lemma StepsSnoc(hash: Hash, supported: Support, d: Daemon, ops: seq<Op>, op: Op)
    requires (forall i :: 0 <= i < |ops| ==> !ops[i].Register?) && !op.Register?
    ensures Steps(hash, supported, d, ops + [op]) == Step(hash, supported, Steps(hash, supported, d, ops), op)
  {
    assert (ops + [op])[..|ops|] == ops;
  }

  /** Registered files come from the world and the search for a previous registration is
      right; both lookups of a deregistration find the same recurfile, unless the engine runs
      no trigger of either. */
  ghost predicate Allowed(w: World, d: Daemon, op: Op) {
    match op
    case Register(f, prior) => f in w.files && Finds(w, d.reg, f.path, prior)
    case Deregister(first, second) =>
      first == second || (d.active !! TriggersOf(d.reg, first) && d.active !! TriggersOf(d.reg, second))
    case _ => true
  }

  ghost function FilesNext(w: World, d: Daemon, files: iset<File>, op: Op): iset<File> {
    match op
    case Register(f, _) => FilesAfter(w, files, f)
    case Deregister(_, second) =>
      if second.Some? && second.value in d.reg.recurfiles then FilesBut(w.hash, files, second.value) else files
    case _ => files
  }

  // ------------------------------------------------------------ one step keeps agreement

  lemma StepKeepsIntegrity(w: World, supported: Support, d: Daemon, files: iset<File>, op: Op)
    requires WorldOk(w) && Integrity(w, d.reg, files)
    requires op.Register? ==> op.f in w.files && Finds(w, d.reg, op.f.path, op.prior)
    ensures Integrity(w, Step(w.hash, supported, d, op).reg, FilesNext(w, d, files, op))
  {
    var d' := Step(w.hash, supported, d, op);
    match op {
      case Register(f, prior) => RegisterKeepsIntegrity(w, d.reg, files, f, prior);
      case Deregister(_, second) =>
        if second.Some? && second.value in d.reg.recurfiles {
          DeregisterKeepsIntegrity(w, d.reg, files, second.value);
        }
      case _ =>
        StatusKeepsEntities(w.hash, supported, d, op);
        SameEntitiesKeepIntegrity(w, d.reg, files, d'.reg);
    }
  }

  lemma StatusKeepsEntities(hash: Hash, supported: Support, d: Daemon, op: Op)
    requires !op.Register? && !op.Deregister?
    ensures SameEntities(d.reg, Step(hash, supported, d, op).reg)
  {
  }

  /** A registration leaves the triggers of other files alone, and those of the file are new. */
  lemma RegisteredTriggers(w: World, s: RegistryState, files: iset<File>, f: File, prior: Option<string>)
    requires WorldOk(w) && Integrity(w, s, files) && f in w.files && Finds(w, s, f.path, prior)
    ensures var s' := Registered(w.hash, s, f, prior);
            forall id :: id in s'.triggers && s'.triggers[id].entity.recurfileID != FileID(w.hash, f)
                    <==> id in s.triggers && id !in TriggersOf(s, prior)
    ensures var s' := Registered(w.hash, s, f, prior);
            forall id :: id in s.triggers && id !in TriggersOf(s, prior) ==> s'.triggers[id] == s.triggers[id]
  {
    var rest := iset g | g in files && !w.sameFile(g.path, f.path);
    var base := Cleared(s, prior);
    ClearedIsApart(w, s, files, f, prior);
    FileHasRoom(w, base, rest, f);
    if prior.Some? {
      DeregisterKeepsIntegrity(w, s, files, prior.value);
    }
    forall id
      ensures id in base.triggers <==> id in s.triggers && id !in TriggersOf(s, prior)
      ensures id in base.triggers ==> base.triggers[id] == s.triggers[id]
    {
    }
    forall id
      ensures id in base.triggers ==> base.triggers[id].entity.recurfileID != FileID(w.hash, f)
      ensures var s' := Registered(w.hash, s, f, prior);
              && (id in base.triggers ==> id in s'.triggers && s'.triggers[id] == base.triggers[id])
              && (id in s'.triggers && id !in base.triggers ==> s'.triggers[id].entity.recurfileID == FileID(w.hash, f))
    {
      InsertedOnTop(w.hash, base, f, Coords(f), id);
      if id in base.triggers {
        OtherOwner(w, base, rest, f, id);
      }
    }
  }

  lemma RegisterKeepsAgreement(w: World, supported: Support, d: Daemon, files: iset<File>, f: File,
                               prior: Option<string>)
    requires WorldOk(w) && Integrity(w, d.reg, files) && Agreement(d, supported)
    requires f in w.files && Finds(w, d.reg, f.path, prior)
    ensures Agreement(Step(w.hash, supported, d, Register(f, prior)), supported)
  {
    RegisteredTriggers(w, d.reg, files, f, prior);
    var d' := Step(w.hash, supported, d, Register(f, prior));
    forall id
      ensures id in d'.active <==> id in Expected(d'.reg, supported)
    {
    }
  }

  /** What deregistering does to agreement, in full: the two lookups must find the same
      recurfile, or the engine must run no trigger of either. */
  lemma DeregisterAgreesIff(w: World, supported: Support, d: Daemon, files: iset<File>, first: Option<string>,
                            second: Option<string>)
    requires WorldOk(w) && Integrity(w, d.reg, files) && Agreement(d, supported)
    ensures Agreement(Step(w.hash, supported, d, Deregister(first, second)), supported)
       <==> first == second
            || (d.active !! TriggersOf(d.reg, first) && d.active !! TriggersOf(d.reg, second))
  {
    var d' := Step(w.hash, supported, d, Deregister(first, second));
    if second.Some? && second.value in d.reg.recurfiles {
      DeregisterKeepsIntegrity(w, d.reg, files, second.value);
    }
    assert Expected(d'.reg, supported) == d.active - TriggersOf(d.reg, second);
    if first != second && Agreement(d', supported) {
      OwnersApart(d.reg, first, second);
      assert forall id :: id in d.active && id in TriggersOf(d.reg, first) ==> id in TriggersOf(d.reg, second);
      assert forall id :: id in d.active && id in TriggersOf(d.reg, second) ==> id in TriggersOf(d.reg, first);
    }
  }

  lemma OwnersApart(reg: RegistryState, first: Option<string>, second: Option<string>)
    requires first != second
    ensures TriggersOf(reg, first) !! TriggersOf(reg, second)
  {
  }

  lemma StatusKeepsAgreement(hash: Hash, supported: Support, d: Daemon, op: Op)
    requires Agreement(d, supported) && !op.Register? && !op.Deregister?
    ensures Agreement(Step(hash, supported, d, op), supported)
  {
  }

  // ---------------------------------------------------------------------- whole runs

  ghost function Run(w: World, supported: Support, start: Daemon, ops: seq<Op>): Daemon
    requires Runnable(w, supported, start, ops)
    decreases |ops|, 1
  {
    if ops == [] then start
    else Step(w.hash, supported, Run(w, supported, start, ops[..|ops| - 1]), ops[|ops| - 1])
  }

  ghost predicate Runnable(w: World, supported: Support, start: Daemon, ops: seq<Op>)
    decreases |ops|, 0
  {
    ops == [] ||
    (Runnable(w, supported, start, ops[..|ops| - 1])
     && Allowed(w, Run(w, supported, start, ops[..|ops| - 1]), ops[|ops| - 1]))
  }

  ghost function FilesRun(w: World, supported: Support, start: Daemon, files: iset<File>, ops: seq<Op>): iset<File>
    requires Runnable(w, supported, start, ops)
  {
    if ops == [] then files
    else
      var init := ops[..|ops| - 1];
      FilesNext(w, Run(w, supported, start, init), FilesRun(w, supported, start, files, init), ops[|ops| - 1])
  }

  lemma {:induction false} IntegrityAlways(w: World, supported: Support, start: Daemon, files: iset<File>, ops: seq<Op>)
    requires WorldOk(w) && Integrity(w, start.reg, files) && Runnable(w, supported, start, ops)
    ensures Integrity(w, Run(w, supported, start, ops).reg, FilesRun(w, supported, start, files, ops))
  {
    if ops != [] {
      var init := ops[..|ops| - 1];
      IntegrityAlways(w, supported, start, files, init);
      StepKeepsIntegrity(w, supported, Run(w, supported, start, init), FilesRun(w, supported, start, files, init),
                         ops[|ops| - 1]);
    }
  }

  /** After every run of requests, callbacks and events the registry holds exactly the entities
      of the registered files and the engine runs exactly the triggers it ought to. */
  lemma {:induction false} RegistryAndEngineAgree(w: World, supported: Support, start: Daemon, files: iset<File>,
                                                  ops: seq<Op>)
    requires WorldOk(w) && Integrity(w, start.reg, files) && Agreement(start, supported)
    requires Runnable(w, supported, start, ops)
    ensures Integrity(w, Run(w, supported, start, ops).reg, FilesRun(w, supported, start, files, ops))
    ensures Agreement(Run(w, supported, start, ops), supported)
  {
    IntegrityAlways(w, supported, start, files, ops);
    if ops != [] {
      var init, op := ops[..|ops| - 1], ops[|ops| - 1];
      var d, now := Run(w, supported, start, init), FilesRun(w, supported, start, files, init);
      RegistryAndEngineAgree(w, supported, start, files, init);
      match op {
        case Register(f, prior) => RegisterKeepsAgreement(w, supported, d, now, f, prior);
        case Deregister(first, second) => DeregisterAgreesIff(w, supported, d, now, first, second);
        case _ => StatusKeepsAgreement(w.hash, supported, d, op);
      }
    }
  }

  lemma EmptyHasIntegrity(w: World)
    ensures Integrity(w, EMPTY, iset{})
  {
  }

  /** In particular after every run of a daemon that starts with nothing registered: a trigger
      runs exactly if it is registered, active and of a type that some factory supports. */
  lemma AgreeFromTheStart(w: World, supported: Support, ops: seq<Op>)
    requires WorldOk(w) && Runnable(w, supported, Daemon(EMPTY, {}), ops)
    ensures var d := Run(w, supported, Daemon(EMPTY, {}), ops);
            && Integrity(w, d.reg, FilesRun(w, supported, Daemon(EMPTY, {}), iset{}, ops))
            && forall id :: id in d.active
                 <==> && id in d.reg.triggers && d.reg.triggers[id].run.status == ErrorThresholds.Active
                      && supported(d.reg.triggers[id].entity.typ)
  {
    EmptyHasIntegrity(w);
    RegistryAndEngineAgree(w, supported, Daemon(EMPTY, {}), iset{}, ops);
  }

  // ------------------------------------------------------- one action in a whole run

  /** What a step of the daemon is for one action. */
  function ActionOp(a: Action, op: Op): seq<ErrorThresholds.Op> {
    match op
    case Execute(id, outcome, now) => if id == a.id then [ErrorThresholds.Fire(outcome, now)] else []
    case SetActionStatus(id, resume) =>
      if id == Some(a.id) then [if resume then ErrorThresholds.Resume else ErrorThresholds.Suspend] else []
    case Uninstall(plugin) => if plugin == a.pluginID then [ErrorThresholds.Suspend] else []
    case _ => []
  }

  function ActionOps(a: Action, ops: seq<Op>): seq<ErrorThresholds.Op> {
    if ops == [] then [] else ActionOps(a, ops[..|ops| - 1]) + ActionOp(a, ops[|ops| - 1])
  }

  /** From `d` to `d'` the action has gone through these operations. */
  ghost predicate WentThrough(d: Daemon, d': Daemon, id: string, ops: seq<ErrorThresholds.Op>) {
    && id in d.reg.actions && id in d'.reg.actions
    && d'.reg.actions[id].entity == d.reg.actions[id].entity
    && ActionView(d'.reg.actions[id]) == ErrorThresholds.Run(ActionView(d.reg.actions[id]), ops)
  }

  /** The step leaves the registration of this recurfile alone. */
  predicate Spares(owner: string, op: Op) {
    match op
    case Register(_, prior) => prior != Some(owner)
    case Deregister(_, second) => second != Some(owner)
    case _ => true
  }

  predicate SparesAll(owner: string, ops: seq<Op>) {
    forall i :: 0 <= i < |ops| ==> Spares(owner, ops[i])
  }

  predicate StartsAfresh(hash: Hash, f: File, a: Running<Action>) {
    a.entity.recurfileID == FileID(hash, f) && a.run == FRESH
  }

  /** What a registration does to one action: those of other recurfiles go on, those of the
      file start afresh, and those of the registration it replaces are gone. */
  lemma RegisteredAction(w: World, s: RegistryState, files: iset<File>, f: File, prior: Option<string>, id: string)
    requires WorldOk(w) && Integrity(w, s, files) && f in w.files && Finds(w, s, f.path, prior)
    ensures var s' := Registered(w.hash, s, f, prior);
            if id in s.actions && Some(s.actions[id].entity.recurfileID) != prior
            then id in s'.actions && s'.actions[id] == s.actions[id]
            else id in s'.actions ==> StartsAfresh(w.hash, f, s'.actions[id])
  {
    var rest := iset g | g in files && !w.sameFile(g.path, f.path);
    var base := Cleared(s, prior);
    ClearedIsApart(w, s, files, f, prior);
    FileHasRoom(w, base, rest, f);
    if prior.Some? {
      DeregisterKeepsIntegrity(w, s, files, prior.value);
    }
    InsertedOnTop(w.hash, base, f, Coords(f), id);
  }

  lemma DeregisteredAction(w: World, s: RegistryState, files: iset<File>, r: Option<string>, id: string)
    requires WorldOk(w) && Integrity(w, s, files)
    ensures if id in s.actions && Some(s.actions[id].entity.recurfileID) != r
            then id in Without(s, r).actions && Without(s, r).actions[id] == s.actions[id]
            else id !in Without(s, r).actions
  {
    if r.Some? && r.value in s.recurfiles {
      DeregisterKeepsIntegrity(w, s, files, r.value);
    } else if id in s.actions {
      OwnerIsStored(w, s, files, id);
    }
  }

  lemma OwnerIsStored(w: World, s: RegistryState, files: iset<File>, id: string)
    requires WorldOk(w) && Integrity(w, s, files) && id in s.actions
    ensures s.actions[id].entity.recurfileID in s.recurfiles
  {
    var f, c := Source(w, s, files, OfAction(s.actions[id].entity));
    Stored(w, s, files, f, AtFile);
  }

  lemma StatusStepOfAction(hash: Hash, supported: Support, d: Daemon, op: Op, id: string)
    requires !op.Register? && !op.Deregister? && id in d.reg.actions && d.reg.actions[id].entity.id == id
    ensures WentThrough(d, Step(hash, supported, d, op), id, ActionOp(d.reg.actions[id].entity, op))
  {
    var more := ActionOp(d.reg.actions[id].entity, op);
    if more != [] {
      assert more[..0] == [];
    }
  }

  /** A step either leaves the registration of an action alone, which then goes through what
      the step is for it, or the action is not there afterwards, or it has just been
      registered and starts afresh. */
  lemma StepOfAction(w: World, supported: Support, d: Daemon, files: iset<File>, op: Op, id: string)
    requires WorldOk(w) && Integrity(w, d.reg, files) && Allowed(w, d, op)
    ensures var d' := Step(w.hash, supported, d, op);
            if id in d.reg.actions && Spares(d.reg.actions[id].entity.recurfileID, op)
            then WentThrough(d, d', id, ActionOp(d.reg.actions[id].entity, op))
            else id in d'.reg.actions ==> op.Register? && StartsAfresh(w.hash, op.f, d'.reg.actions[id])
  {
    match op {
      case Register(f, prior) => RegisteredAction(w, d.reg, files, f, prior, id);
      case Deregister(_, second) => DeregisteredAction(w, d.reg, files, second, id);
      case _ =>
        StatusKeepsEntities(w.hash, supported, d, op);
        if id in d.reg.actions {
          StatusStepOfAction(w.hash, supported, d, op, id);
        }
    }
  }

  lemma GoOn(d: Daemon, d1: Daemon, d2: Daemon, id: string, ops: seq<ErrorThresholds.Op>, more: seq<ErrorThresholds.Op>)
    requires WentThrough(d, d1, id, ops) && WentThrough(d1, d2, id, more) && |more| <= 1
    ensures WentThrough(d, d2, id, ops + more)
  {
    RunAppend(ActionView(d.reg.actions[id]), ops, more);
  }

  lemma RunAppend(a: ErrorThresholds.ActionState, ops: seq<ErrorThresholds.Op>, more: seq<ErrorThresholds.Op>)
    requires |more| <= 1
    ensures ErrorThresholds.Run(a, ops + more) == ErrorThresholds.Run(ErrorThresholds.Run(a, ops), more)
  {
    if more == [] {
      assert ops + more == ops;
    } else {
      assert (ops + more)[..|ops|] == ops;
      assert more[..0] == [];
    }
  }

  /** In a run of the daemon that leaves the registration of its recurfile alone, whatever it
      does to other recurfiles, an action goes through a serial run of its own: its executions,
      and the suspensions and resumptions that concern it. So what holds of serial runs of one
      action holds of it. */
  lemma {:induction false} ActionRunsSerially(w: World, supported: Support, start: Daemon, files: iset<File>,
                                              ops: seq<Op>, id: string)
    requires WorldOk(w) && Integrity(w, start.reg, files) && Runnable(w, supported, start, ops)
    requires id in start.reg.actions
    requires SparesAll(start.reg.actions[id].entity.recurfileID, ops)
    ensures WentThrough(start, Run(w, supported, start, ops), id, ActionOps(start.reg.actions[id].entity, ops))
  {
    if ops != [] {
      var init, op, a := ops[..|ops| - 1], ops[|ops| - 1], start.reg.actions[id].entity;
      var d := Run(w, supported, start, init);
      ActionRunsSerially(w, supported, start, files, init, id);
      IntegrityAlways(w, supported, start, files, init);
      StepOfAction(w, supported, d, FilesRun(w, supported, start, files, init), op, id);
      GoOn(start, d, Step(w.hash, supported, d, op), id, ActionOps(a, init), ActionOp(a, op));
    }
  }

  /** After the steps `before` the action is in `d`; unless there are none, the last of them has
      registered its recurfile. The steps `after` do not replace or remove the recurfile, and
      through them the action has gone through a serial run of its own. */
  ghost predicate SerialRun(hash: Hash, d: Daemon, d': Daemon, id: string, before: seq<Op>, after: seq<Op>) {
    && id in d'.reg.actions
    && WentThrough(d, d', id, ActionOps(d'.reg.actions[id].entity, after))
    && SparesAll(d'.reg.actions[id].entity.recurfileID, after)
    && (before != [] ==> before[|before| - 1].Register?
                         && StartsAfresh(hash, before[|before| - 1].f, d.reg.actions[id]))
  }

  ghost predicate SerialSince(w: World, supported: Support, start: Daemon, ops: seq<Op>, id: string, m: nat) {
    && m <= |ops| && Runnable(w, supported, start, ops) && Runnable(w, supported, start, ops[..m])
    && SerialRun(w.hash, Run(w, supported, start, ops[..m]), Run(w, supported, start, ops), id, ops[..m], ops[m..])
  }

  /** After every run, every registered action has gone through a serial run of its own since
      its recurfile was last registered. */
  lemma {:induction false} EveryActionRunsSerially(w: World, supported: Support, start: Daemon, files: iset<File>,
                                                   ops: seq<Op>, id: string) returns (m: nat)
    requires WorldOk(w) && Integrity(w, start.reg, files) && Runnable(w, supported, start, ops)
    requires id in Run(w, supported, start, ops).reg.actions
    ensures SerialSince(w, supported, start, ops, id, m)
  {
    if ops == [] {
      assert ops[..0] == ops;
      return 0;
    }
    var init, op := ops[..|ops| - 1], ops[|ops| - 1];
    var d := Run(w, supported, start, init);
    IntegrityAlways(w, supported, start, files, init);
    StepOfAction(w, supported, d, FilesRun(w, supported, start, files, init), op, id);
    if id in d.reg.actions && Spares(d.reg.actions[id].entity.recurfileID, op) {
      m := EveryActionRunsSerially(w, supported, start, files, init, id);
      CutAnywhere(ops, m);
      SerialRunGoesOn(w.hash, Run(w, supported, start, init[..m]), d, Step(w.hash, supported, d, op), id,
                      init[..m], init[m..], op);
    } else {
      assert ops[..|ops|] == ops;
      return |ops|;
    }
  }

  lemma SerialRunGoesOn(hash: Hash, d: Daemon, d1: Daemon, d2: Daemon, id: string, before: seq<Op>, after: seq<Op>,
                        op: Op)
    requires SerialRun(hash, d, d1, id, before, after) && Spares(d1.reg.actions[id].entity.recurfileID, op)
    requires WentThrough(d1, d2, id, ActionOp(d1.reg.actions[id].entity, op))
    ensures SerialRun(hash, d, d2, id, before, after + [op])
  {
    var a := d1.reg.actions[id].entity;
    assert (after + [op])[..|after|] == after;
    GoOn(d, d1, d2, id, ActionOps(a, after), ActionOp(a, op));
  }

  lemma CutAnywhere<T>(xs: seq<T>, m: nat)
    requires m < |xs|
    ensures xs[..m] == xs[..|xs| - 1][..m] && xs[m..] == xs[..|xs| - 1][m..] + [xs[|xs| - 1]]
  {
  }

  /** The error count of a registered action of the daemon is its current streak of uncancelled
      failures since its recurfile was last registered, plus, if that was before the run and
      nothing has succeeded since, what it started the run with. */
  lemma ErrorCountIsStreak(w: World, supported: Support, start: Daemon, files: iset<File>, ops: seq<Op>, id: string)
    returns (m: nat, streak: nat)
    requires WorldOk(w) && Integrity(w, start.reg, files) && Runnable(w, supported, start, ops)
    requires id in Run(w, supported, start, ops).reg.actions
    ensures SerialSince(w, supported, start, ops, id, m)
    ensures var since, a := Run(w, supported, start, ops[..m]), Run(w, supported, start, ops).reg.actions[id];
            var outcomes := ErrorThresholds.Uncancelled(
              ErrorThresholds.History(ActionView(since.reg.actions[id]), ActionOps(a.entity, ops[m..])));
            && ErrorThresholds.EndsInFailures(outcomes, streak)
            && a.run.errorCount
               == streak + (if 0 < m || ErrorThresholds.Success in outcomes then 0
                            else start.reg.actions[id].run.errorCount)
  {
    m := EveryActionRunsSerially(w, supported, start, files, ops, id);
    var since, a := Run(w, supported, start, ops[..m]), Run(w, supported, start, ops).reg.actions[id];
    streak := ErrorThresholds.CountIsStreak(ActionView(since.reg.actions[id]), ActionOps(a.entity, ops[m..]));
    assert m == 0 ==> ops[..m] == [];
  }

  // ------------------------------------------------------------ ambiguous identifiers

  /** Deregistering by an identifier keeps agreement whatever the two lookups find, exactly when
      the identifier is not a prefix that several recurfiles share, or the engine runs no
      trigger of any of those. */
  lemma DeregisterIsSafeIff(w: World, supported: Support, lower: string -> string, d: Daemon, files: iset<File>,
                            identifier: string)
    requires WorldOk(w) && Integrity(w, d.reg, files) && Agreement(d, supported)
    ensures AnyDeregistrationAgrees(w, supported, lower, d, identifier)
       <==> (Ambiguous(lower, d.reg, identifier) ==> AllIdle(d, identifier))
  {
    var live := d.reg.live;
    if !Ambiguous(lower, d.reg, identifier) {
      forall first, second |
        && MayFind(lower, live, identifier, RecurfileKind, first)
        && MayFind(lower, live, identifier, RecurfileKind, second)
        ensures Agreement(Step(w.hash, supported, d, Deregister(first, second)), supported)
      {
        FindIsReproducibleIff(lower, live, identifier, RecurfileKind);
        DeregisterAgreesIff(w, supported, d, files, first, second);
      }
    } else if AllIdle(d, identifier) {
      forall first, second |
        && MayFind(lower, live, identifier, RecurfileKind, first)
        && MayFind(lower, live, identifier, RecurfileKind, second)
        ensures Agreement(Step(w.hash, supported, d, Deregister(first, second)), supported)
      {
        OnlyCandidates(lower, live, identifier, RecurfileKind, first);
        OnlyCandidates(lower, live, identifier, RecurfileKind, second);
        DeregisterAgreesIff(w, supported, d, files, first, second);
      }
    } else {
      var x :| x in Candidates(live, identifier, RecurfileKind) && !(d.active !! TriggersOf(d.reg, Some(x.id)));
      var y := AnotherCandidate(live, identifier, x);
      AnyCandidate(lower, live, identifier, RecurfileKind, x);
      AnyCandidate(lower, live, identifier, RecurfileKind, y);
      DeregisterAgreesIff(w, supported, d, files, Some(x.id), Some(y.id));
    }
  }

  ghost predicate AnyDeregistrationAgrees(w: World, supported: Support, lower: string -> string, d: Daemon,
                                          identifier: string) {
    forall first, second ::
      && MayFind(lower, d.reg.live, identifier, RecurfileKind, first)
      && MayFind(lower, d.reg.live, identifier, RecurfileKind, second)
      ==> Agreement(Step(w.hash, supported, d, Deregister(first, second)), supported)
  }

  predicate Ambiguous(lower: string -> string, reg: RegistryState, identifier: string) {
    ByPrefix(lower, reg.live, identifier) && 1 < |Candidates(reg.live, identifier, RecurfileKind)|
  }

  predicate AllIdle(d: Daemon, identifier: string) {
    forall x :: x in Candidates(d.reg.live, identifier, RecurfileKind) ==> d.active !! TriggersOf(d.reg, Some(x.id))
  }

  lemma AnotherCandidate(live: seq<EntityRef>, identifier: string, x: EntityRef) returns (y: EntityRef)
    requires IDsDistinct(live) && 1 < |Candidates(live, identifier, RecurfileKind)|
    ensures y in Candidates(live, identifier, RecurfileKind) && y.id != x.id
  {
    var cs := Candidates(live, identifier, RecurfileKind);
    MatchingDistinct(live, Prefixed(identifier));
    MatchingDistinct(Matching(live, Prefixed(identifier)), OfKind(RecurfileKind));
    y := if cs[0].id == x.id then cs[1] else cs[0];
  }
}
