/** The handlers of src/app/recurd/daemon/api.go and the callbacks of daemon.go, working on the
    registry and the engine in place; each is one step of the daemon. */
module Services {
  import opened Options
  import opened EntityIndexes
  import opened Entities
  import opened RegistryStates
  import opened RegistryOps
  import opened Daemons
  import Engines
  import Registries
  import ErrorThresholds

  lemma ListedIsTriggersOf(w: World, reg: RegistryState, files: iset<File>, r: Option<string>)
    requires WorldOk(w) && Integrity(w, reg, files)
    ensures Elements(if r.Some? && r.value in reg.recurfiles
                     then TriggerList(reg, reg.recurfiles[r.value].groups) else [])
         == TriggersOf(reg, r)
  {
    if r.Some? && r.value in reg.recurfiles {
      ListedIsOwned(w, reg, files, r.value);
    }
  }

  class Service {
    const registry: Registries.Registry
    const engine: Engines.Engine

    ghost predicate Valid()
      reads this, registry, registry.index, engine
    {
      registry.Valid() && !engine.stopped
    }

    ghost function View(): Daemon
      reads this, registry, registry.index, engine
    {
      Daemon(registry.View(), engine.active)
    }

    constructor (registry: Registries.Registry, engine: Engines.Engine)
      requires registry.Valid() && !engine.stopped
      ensures this.registry == registry && this.engine == engine && Valid()
      ensures View() == Daemon(registry.View(), engine.active)
    {
      this.registry, this.engine := registry, engine;
    }

    method DeactivateSet(ids: set<string>)
      modifies engine`active, engine`calls
      ensures engine.active == old(engine.active) - ids
    {
      var todo := ids;
      while todo != {}
        invariant todo <= ids && engine.active == old(engine.active) - (ids - todo)
        decreases |todo|
      {
        var id :| id in todo;
        engine.Deactivate(id);
        todo := todo - {id};
      }
    }

    method DeactivateAll(ids: seq<string>)
      modifies engine`active, engine`calls
      ensures engine.active == old(engine.active) - Elements(ids)
    {
      for i := 0 to |ids|
        invariant engine.active == old(engine.active) - Elements(ids[..i])
      {
        assert ids[..i + 1] == ids[..i] + [ids[i]];
        ElementsSnoc(ids[..i], ids[i]);
        engine.Deactivate(ids[i]);
      }
      assert ids[..|ids|] == ids;
    }

    /** Activates the active triggers of one recurfile, or of all. */
    method ActivateTriggers(owner: Option<string>)
      requires Valid()
      modifies engine`active, engine`calls
      ensures engine.active == old(engine.active)
           + set id | id in Expected(registry.View(), engine.supported)
                      && (owner.Some? ==> registry.triggers[id].entity.recurfileID == owner.value)
    {
      var todo := registry.triggers.Keys;
      while todo != {}
        invariant todo <= registry.triggers.Keys
        invariant forall id :: id in engine.active <==>
                    || id in old(engine.active)
                    || (id in Expected(registry.View(), engine.supported) && id !in todo
                        && (owner.Some? ==> registry.triggers[id].entity.recurfileID == owner.value))
        decreases |todo|
      {
        var id :| id in todo;
        var t := registry.triggers[id];
        if (owner.Some? ==> t.entity.recurfileID == owner.value) && t.run.status == ErrorThresholds.Active {
          StartOrStop(id, true, false);
        }
        todo := todo - {id};
      }
    }

    /** At start-up, once the state is restored. */
    method ActivateRegisteredTriggers()
      requires Valid() && engine.active == {}
      modifies engine`active, engine`calls
      ensures Valid() && View().reg == old(View()).reg && Agreement(View(), engine.supported)
    {
      ActivateTriggers(None);
    }

    method RegisterRecurfile(f: File, ghost w: World, ghost files: iset<File>)
      returns (reloaded: bool, ghost prior: Option<string>)
      requires Valid() && WorldOk(w) && w.hash == registry.hash && w.sameFile == registry.sameFile
      requires Integrity(w, registry.View(), files) && f in w.files
      modifies registry, registry.index, engine`active, engine`calls
      ensures Valid() && reloaded == prior.Some? && Finds(w, old(registry.View()), f.path, prior)
      ensures View() == Step(w.hash, engine.supported, old(View()), Register(f, prior))
    {
      var wfID, again, oldTriggerIDs, before := registry.RegisterResolved(f, w, files);
      reloaded, prior := again, before;
      RestartTriggers(reloaded, oldTriggerIDs, wfID);
    }

    /** Stops what a reload replaced and starts the triggers of the recurfile. */
    method RestartTriggers(reloaded: bool, oldTriggerIDs: seq<string>, wfID: string)
      requires Valid()
      modifies engine`active, engine`calls
      ensures Valid()
      ensures engine.active == (old(engine.active) - (if reloaded then Elements(oldTriggerIDs) else {}))
           + (OwnedTriggers(registry.View(), wfID) * Expected(registry.View(), engine.supported))
    {
      if reloaded {
        DeactivateAll(oldTriggerIDs);
      }
      ActivateTriggers(Some(wfID));
    }

    /** The identifier is looked up twice: for the triggers to stop, then for the recurfile to
        remove. */
    method DeregisterRecurfile(identifier: string, ghost w: World, ghost files: iset<File>)
      returns (ok: bool, ghost first: Option<string>, ghost second: Option<string>)
      requires Valid() && WorldOk(w) && w.hash == registry.hash
      requires Integrity(w, registry.View(), files)
      modifies registry, registry.index, engine`active, engine`calls
      ensures Valid()
      ensures MayFind(registry.index.lower, old(registry.View()).live, identifier, RecurfileKind, first)
      ensures MayFind(registry.index.lower, old(registry.View()).live, identifier, RecurfileKind, second)
      ensures ok == (second.Some? && second.value in old(registry.recurfiles))
      ensures View() == Step(w.hash, engine.supported, old(View()), Deregister(first, second))
    {
      first := StopTriggers(identifier, w, files);
      ok, second := RemoveRecurfile(identifier);
    }

    method RemoveRecurfile(identifier: string) returns (ok: bool, ghost found: Option<string>)
      requires Valid()
      modifies registry, registry.index
      ensures Valid() && MayFind(registry.index.lower, old(View()).reg.live, identifier, RecurfileKind, found)
      ensures ok == (found.Some? && found.value in old(View()).reg.recurfiles)
      ensures View() == old(View()).(reg := Without(old(View()).reg, found))
    {
      var wf, ref := registry.DeregisterRecurfile(identifier);
      ok, found := wf.Some?, ref;
    }

    /** Stops the triggers of the recurfile that the identifier finds. */
    method StopTriggers(identifier: string, ghost w: World, ghost files: iset<File>)
      returns (ghost found: Option<string>)
      requires Valid() && WorldOk(w) && Integrity(w, registry.View(), files)
      modifies engine`active, engine`calls
      ensures Valid() && MayFind(registry.index.lower, View().reg.live, identifier, RecurfileKind, found)
      ensures View() == old(View()).(active := old(View()).active - TriggersOf(View().reg, found))
    {
      var ids, ref := registry.TriggerIDsForRecurfile(identifier);
      found := ref;
      ListedIsTriggersOf(w, registry.View(), files, found);
      DeactivateAll(ids);
    }

    /** SuspendTrigger and ResumeTrigger. */
    method ToggleTrigger(identifier: string, resume: bool)
      returns (ok: bool, already: bool, ghost found: Option<string>)
      requires Valid()
      modifies registry`triggers, engine`active, engine`calls
      ensures Valid()
      ensures MayFind(registry.index.lower, old(registry.View()).live, identifier, TriggerKind, found)
      ensures ok == (found.Some? && found.value in old(registry.triggers))
      ensures ok ==> already == (old(registry.triggers)[found.value].run.status == Target(resume))
      ensures View() == Step(registry.hash, engine.supported, old(View()), SetTriggerStatus(found, resume))
    {
      var id, was, ref := registry.SetTriggerStatus(identifier, Target(resume));
      ok, already, found := id.Some?, was, ref;
      if ok {
        StartOrStop(id.value, resume, already);
      }
    }

    method StartOrStop(id: string, resume: bool, already: bool)
      requires Valid() && id in registry.triggers
      modifies engine`active, engine`calls
      ensures Valid()
      ensures engine.active == if !resume then old(engine.active) - {id}
                               else if !already && engine.supported(registry.triggers[id].entity.typ)
                               then old(engine.active) + {id} else old(engine.active)
    {
      if !resume {
        engine.Deactivate(id);
      } else if !already {
        var _ := engine.Activate(id, engine.offers(registry.triggers[id].entity.typ));
      }
    }

    /** UninstallPlugin, once the plugin is found. */
    method UninstallPlugin(namespace: string)
      requires Valid()
      modifies registry`triggers, registry`actions, engine`active, engine`calls
      ensures Valid() && View() == Step(registry.hash, engine.supported, old(View()), Uninstall(namespace))
    {
      var suspended := registry.SuspendByPluginID(namespace);
      DeactivateSet(suspended);
    }

    /** The callback for a driver that exited unexpectedly. */
    method OnTriggerError(triggerID: string)
      requires Valid()
      modifies registry`triggers, engine`active, engine`calls
      ensures Valid() && View() == Step(registry.hash, engine.supported, old(View()), DriverError(triggerID))
    {
      if triggerID !in registry.triggers {
        return;
      }
      var reached := CountDriverError(triggerID);
      if reached {
        engine.Deactivate(triggerID);
      }
    }

    method CountDriverError(id: string) returns (reached: bool)
      requires Valid() && id in registry.triggers
      modifies registry`triggers
      ensures Valid() && registry.View() == DriverFailed(old(registry.View()), id)
      ensures reached == ThresholdReached(old(registry.View()), id)
    {
      var t := registry.triggers[id];
      var run := t.run.(errorCount := t.run.errorCount + 1);
      reached := t.entity.settings.errorThreshold > 0 && run.errorCount >= t.entity.settings.errorThreshold;
      if reached {
        run := run.(status := ErrorThresholds.Error);
      }
      registry.triggers := registry.triggers[id := t.(run := run)];
    }

    /** handleEvent: an event of an active trigger reaches its actions, in declaration order. */
    method HandleEvent(triggerID: string, outcome: string -> ErrorThresholds.Outcome, now: int)
      requires Valid()
      modifies registry`triggers, registry`actions
      ensures Valid()
      ensures View() == Steps(registry.hash, engine.supported, old(View()),
                              EventOps(old(registry.View()), triggerID, outcome, now))
    {
      if triggerID !in registry.triggers || registry.triggers[triggerID].run.status != ErrorThresholds.Active {
        return;
      }
      ghost var start := View();
      MarkFired(triggerID, now);
      var acts := registry.GetActionsForTrigger(triggerID);
      EventInTwo(registry.hash, engine.supported, start, triggerID, outcome, now);
      ExecuteAll(acts, outcome, now);
    }

    method MarkFired(id: string, now: int)
      requires Valid() && id in registry.triggers && registry.triggers[id].run.status == ErrorThresholds.Active
      modifies registry`triggers
      ensures Valid() && View() == Step(registry.hash, engine.supported, old(View()), Fire(id, now))
    {
      var current := registry.triggers[id];
      registry.triggers := registry.triggers[id := current.(run := current.run.(last := Some(now)))];
    }

    method ExecuteAll(acts: seq<Running<Action>>, outcome: string -> ErrorThresholds.Outcome, now: int)
      requires Valid()
      modifies registry`actions
      ensures Valid()
      ensures View() == Steps(registry.hash, engine.supported, old(View()), ExecuteOps(acts, outcome, now))
    {
      ghost var ops := ExecuteOps(acts, outcome, now);
      for i := 0 to |acts|
        invariant Valid() && View() == Steps(registry.hash, engine.supported, old(View()), ops[..i])
      {
        assert ops[..i + 1] == ops[..i] + [ops[i]];
        StepsSnoc(registry.hash, engine.supported, old(View()), ops[..i], ops[i]);
        ExecuteAction(acts[i].entity.id, outcome(acts[i].entity.id), now);
      }
      assert ops[..|acts|] == ops;
    }

    /** The status check of handleEvent and the execute callback. */
    method ExecuteAction(id: string, outcome: ErrorThresholds.Outcome, now: int)
      requires Valid()
      modifies registry`actions
      ensures Valid() && View() == Step(registry.hash, engine.supported, old(View()), Execute(id, outcome, now))
    {
      if id !in registry.actions || registry.actions[id].run.status != ErrorThresholds.Active {
        return;
      }
      var run := RuntimeAfter(registry.actions[id], outcome, now);
      registry.actions := registry.actions[id := registry.actions[id].(run := run)];
    }
  }

  /** The counting of the execute callback. */
  method RuntimeAfter(a: Running<Action>, outcome: ErrorThresholds.Outcome, now: int) returns (run: Runtime)
    ensures ActionView(Running(a.entity, run)) == ErrorThresholds.Executed(ActionView(a), outcome, now)
  {
    run := a.run.(last := Some(now));
    match outcome {
      case Cancelled =>
      case Success => run := run.(errorCount := 0);
      case Failure =>
        run := run.(errorCount := run.errorCount + 1);
        if a.entity.errorThreshold > 0 && run.errorCount >= a.entity.errorThreshold {
          run := run.(status := ErrorThresholds.Error);
        }
    }
  }

  lemma EventInTwo(hash: Hash, supported: Support, d: Daemon, tid: string,
                   outcome: string -> ErrorThresholds.Outcome, now: int)
    requires tid in d.reg.triggers && d.reg.triggers[tid].run.status.Active?
    ensures var fired := Step(hash, supported, d, Fire(tid, now));
            Steps(hash, supported, d, EventOps(d.reg, tid, outcome, now))
            == Steps(hash, supported, fired, ExecuteOps(ActionsOf(fired.reg, tid), outcome, now))
  {
    FiringKeepsActions(d.reg, tid, now);
    OneStep(hash, supported, d, Fire(tid, now));
    StepsAppend(hash, supported, d, [Fire(tid, now)], ExecuteOps(ActionsOf(d.reg, tid), outcome, now));
  }

  lemma OneStep(hash: Hash, supported: Support, d: Daemon, op: Daemons.Op)
    requires !op.Register?
    ensures Steps(hash, supported, d, [op]) == Step(hash, supported, d, op)
  {
    assert [] + [op] == [op];
    StepsSnoc(hash, supported, d, [], op);
  }

  lemma FiringKeepsActions(reg: RegistryState, id: string, now: int)
    ensures ActionsOf(Fired(reg, id, now), id) == ActionsOf(reg, id)
  {
    var fired := Fired(reg, id, now);
    if id in reg.triggers && reg.triggers[id].entity.groupID in reg.groups {
      SameOwnActions(fired, reg, id, reg.groups[reg.triggers[id].entity.groupID].actionIDs);
    }
  }

  lemma {:induction false} SameOwnActions(s: RegistryState, s': RegistryState, tid: string, ids: seq<string>)
    requires s.actions == s'.actions
    ensures OwnActions(s, tid, ids) == OwnActions(s', tid, ids)
  {
    if ids != [] {
      SameOwnActions(s, s', tid, ids[..|ids| - 1]);
    }
  }
}
