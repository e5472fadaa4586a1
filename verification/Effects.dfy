/** What the entities of the daemon look like, and what each request and callback of
    src/app/recurd/daemon/api.go and daemon.go does to them, seen from outside: every field of
    every entity, and which triggers run. */
module Effects {
  import opened Options
  import opened EntityIndexes
  import opened Entities
  import opened RegistryStates
  import opened RegistryOps
  import opened Daemons
  import ErrorThresholds
  import Settings

  // ---------------------------------------------------------- what is registered

  /** A registered trigger is the one its file declares, under the plugin that owns its type; its
      settings come from these five layers, the least specific first. */
  lemma TriggerIsStored(w: World, s: RegistryState, files: iset<File>, f: File, g: nat, t: nat)
    requires Integrity(w, s, files) && f in files && In(f, AtTrigger(g, t))
    ensures ID(w.hash, f, AtTrigger(g, t)) in s.triggers
    ensures var grp := f.groups[g];
            var tr := grp.triggers[t];
            var e := s.triggers[ID(w.hash, f, AtTrigger(g, t))].entity;
            && e.typ == tr.typ && e.name == tr.name && e.options == tr.options
            && e.groupID == ID(w.hash, f, AtGroup(g)) && e.groupName == grp.name
            && e.recurfileID == ID(w.hash, f, AtFile) && e.recurfilePath == f.path
            && e.pluginID == f.setup.triggerPlugin(tr.typ)
            && Settings.SettingsOf(f.setup.parse, [f.setup.daemon, f.setup.manifest(tr.typ), f.setup.override(tr.typ),
                                                   grp.options, tr.options], e.settings)
  {
    Stored(w, s, files, f, AtTrigger(g, t));
    var tr := f.groups[g].triggers[t];
    Settings.DirectIsRight(f.setup.parse, [f.setup.daemon, f.setup.manifest(tr.typ), f.setup.override(tr.typ),
                                           f.groups[g].options, tr.options]);
  }

  /** An action takes its threshold from the settings of its trigger. */
  lemma ActionIsStored(w: World, s: RegistryState, files: iset<File>, f: File, g: nat, t: nat, a: nat)
    requires Integrity(w, s, files) && f in files && In(f, AtAction(g, t, a))
    ensures ID(w.hash, f, AtAction(g, t, a)) in s.actions
    ensures var grp := f.groups[g];
            var tr := grp.triggers[t];
            var act := tr.actions[a];
            var e := s.actions[ID(w.hash, f, AtAction(g, t, a))].entity;
            && e.typ == act.typ && e.name == act.name && e.options == act.options
            && e.groupID == ID(w.hash, f, AtGroup(g)) && e.groupName == grp.name
            && e.triggerID == ID(w.hash, f, AtTrigger(g, t))
            && e.recurfileID == ID(w.hash, f, AtFile) && e.recurfilePath == f.path
            && e.pluginID == f.setup.actionPlugin(act.typ)
            && Settings.IntSetting([f.setup.daemon, f.setup.manifest(tr.typ), f.setup.override(tr.typ),
                                    grp.options, tr.options], "action_error_threshold", e.errorThreshold)
  {
    Stored(w, s, files, f, AtAction(g, t, a));
    var tr := f.groups[g].triggers[t];
    Settings.DirectIsRight(f.setup.parse, [f.setup.daemon, f.setup.manifest(tr.typ), f.setup.override(tr.typ),
                                           f.groups[g].options, tr.options]);
  }

  /** A group lists its triggers, and a recurfile its groups, in the order of the file. */
  lemma ListsAreStored(w: World, s: RegistryState, files: iset<File>, f: File, g: nat)
    requires Integrity(w, s, files) && f in files && In(f, AtGroup(g))
    ensures ID(w.hash, f, AtFile) in s.recurfiles && ID(w.hash, f, AtGroup(g)) in s.groups
    ensures var r := s.recurfiles[ID(w.hash, f, AtFile)];
            && r.filePath == f.path && |r.groups| == |f.groups| && r.groups[g] == ID(w.hash, f, AtGroup(g))
    ensures var e, grp := s.groups[ID(w.hash, f, AtGroup(g))], f.groups[g];
            && e.name == grp.name && e.recurfileID == ID(w.hash, f, AtFile)
            && e.options == grp.options && e.aliases == grp.aliases && |e.triggerIDs| == |grp.triggers|
            && forall t: nat :: t < |grp.triggers| ==> e.triggerIDs[t] == ID(w.hash, f, AtTrigger(g, t))
  {
    Stored(w, s, files, f, AtFile);
    Stored(w, s, files, f, AtGroup(g));
  }

  // ------------------------------------------------------------- what a step leaves

  /** The entities are the same ones; only this trigger may have changed its state. */
  ghost predicate OnlyTrigger(s: RegistryState, s': RegistryState, id: string) {
    && s'.recurfiles == s.recurfiles && s'.groups == s.groups && s'.live == s.live && s'.actions == s.actions
    && id in s.triggers && s'.triggers.Keys == s.triggers.Keys
    && s'.triggers[id].entity == s.triggers[id].entity
    && forall u :: u in s.triggers && u != id ==> s'.triggers[u] == s.triggers[u]
  }

  ghost predicate OnlyAction(s: RegistryState, s': RegistryState, id: string) {
    && s'.recurfiles == s.recurfiles && s'.groups == s.groups && s'.live == s.live && s'.triggers == s.triggers
    && id in s.actions && s'.actions.Keys == s.actions.Keys
    && s'.actions[id].entity == s.actions[id].entity
    && forall u :: u in s.actions && u != id ==> s'.actions[u] == s.actions[u]
  }

  /** Suspending or resuming a trigger sets its status, keeps its count and time, and stops it or
      starts it if it was not active; an identifier that finds no trigger changes nothing. */
  lemma ToggledTrigger(hash: Hash, supported: Support, d: Daemon, found: Option<string>, resume: bool)
    ensures var d' := Step(hash, supported, d, SetTriggerStatus(found, resume));
            if found.None? || found.value !in d.reg.triggers then d' == d
            else
              var id := found.value;
              var before, after := d.reg.triggers[id], d'.reg.triggers[id];
              && OnlyTrigger(d.reg, d'.reg, id)
              && after.run.status == (if resume then ErrorThresholds.Active else ErrorThresholds.Suspended)
              && after.run.errorCount == before.run.errorCount && after.run.last == before.run.last
              && (forall u :: u != id ==> (u in d'.active <==> u in d.active))
              && (id in d'.active <==>
                    resume && (id in d.active || (!before.run.status.Active? && supported(before.entity.typ))))
  {
  }

  /** The same for an action, which runs nothing. */
  lemma ToggledAction(hash: Hash, supported: Support, d: Daemon, found: Option<string>, resume: bool)
    ensures var d' := Step(hash, supported, d, SetActionStatus(found, resume));
            if found.None? || found.value !in d.reg.actions then d' == d
            else
              var before, after := d.reg.actions[found.value], d'.reg.actions[found.value];
              && OnlyAction(d.reg, d'.reg, found.value) && d'.active == d.active
              && after.run.status == (if resume then ErrorThresholds.Active else ErrorThresholds.Suspended)
              && after.run.errorCount == before.run.errorCount && after.run.last == before.run.last
  {
  }

  /** Uninstalling a plugin suspends its triggers and actions, keeps their counts and times, and
      touches no others. */
  lemma SuspendedByPlugin(s: RegistryState, plugin: string)
    ensures var s' := PluginSuspended(s, plugin);
            && s'.recurfiles == s.recurfiles && s'.groups == s.groups && s'.live == s.live
            && s'.triggers.Keys == s.triggers.Keys && s'.actions.Keys == s.actions.Keys
            && (forall id :: id in s.triggers ==>
                  var before, after := s.triggers[id], s'.triggers[id];
                  && after.entity == before.entity
                  && after.run.errorCount == before.run.errorCount && after.run.last == before.run.last
                  && after.run.status == (if before.entity.pluginID == plugin then ErrorThresholds.Suspended
                                          else before.run.status))
            && (forall id :: id in s.actions ==>
                  var before, after := s.actions[id], s'.actions[id];
                  && after.entity == before.entity
                  && after.run.errorCount == before.run.errorCount && after.run.last == before.run.last
                  && after.run.status == (if before.entity.pluginID == plugin then ErrorThresholds.Suspended
                                          else before.run.status))
    ensures forall id :: id in NewlySuspended(s, plugin)
              <==> && id in s.triggers && s.triggers[id].entity.pluginID == plugin
                   && s.triggers[id].run.status != ErrorThresholds.Suspended
  {
  }

  /** Afterwards the engine runs no trigger of the plugin, and all it ran of others. */
  lemma UninstallStops(hash: Hash, supported: Support, d: Daemon, plugin: string)
    requires Agreement(d, supported)
    ensures var d' := Step(hash, supported, d, Uninstall(plugin));
            && d'.reg == PluginSuspended(d.reg, plugin)
            && forall id :: id in d'.active
                 <==> id in d.active && d.reg.triggers[id].entity.pluginID != plugin
  {
    SuspendedByPlugin(d.reg, plugin);
  }

  /** A driver that exits adds one to the count of its trigger. The failure that makes the count
      reach a positive threshold turns the trigger to error and stops it. */
  lemma FailedDriver(hash: Hash, supported: Support, d: Daemon, id: string)
    ensures var d' := Step(hash, supported, d, DriverError(id));
            if id !in d.reg.triggers then d' == d
            else
              var before, after := d.reg.triggers[id], d'.reg.triggers[id];
              var threshold := before.entity.settings.errorThreshold;
              var reached := threshold > 0 && before.run.errorCount + 1 >= threshold;
              && OnlyTrigger(d.reg, d'.reg, id)
              && after.run.errorCount == before.run.errorCount + 1 && after.run.last == before.run.last
              && after.run.status == (if reached then ErrorThresholds.Error else before.run.status)
              && (forall u :: u in d'.active <==> u in d.active && !(u == id && reached))
  {
  }

  /** An event of an active trigger is timed, and nothing else happens to the trigger. */
  lemma FiredTrigger(hash: Hash, supported: Support, d: Daemon, id: string, now: int)
    ensures var d' := Step(hash, supported, d, Fire(id, now));
            if id !in d.reg.triggers || d.reg.triggers[id].run.status != ErrorThresholds.Active then d' == d
            else
              var before, after := d.reg.triggers[id], d'.reg.triggers[id];
              && OnlyTrigger(d.reg, d'.reg, id) && d'.active == d.active
              && after.run.last == Some(now)
              && after.run.status == before.run.status && after.run.errorCount == before.run.errorCount
  {
  }

  /** One execution of an active action: it is timed; unless it was cancelled, a success clears
      the count, and a failure adds one and disables the action at its threshold. */
  ghost predicate ExecutedOnce(before: Running<Action>, after: Running<Action>, outcome: ErrorThresholds.Outcome,
                               now: int) {
    var threshold := before.entity.errorThreshold;
    && after.entity == before.entity && after.run.last == Some(now)
    && match outcome
       case Cancelled => after.run.errorCount == before.run.errorCount && after.run.status == before.run.status
       case Success => after.run.errorCount == 0 && after.run.status == before.run.status
       case Failure =>
         && after.run.errorCount == before.run.errorCount + 1
         && after.run.status == (if threshold > 0 && before.run.errorCount + 1 >= threshold then ErrorThresholds.Error
                                 else before.run.status)
  }

  lemma ExecutedAction(hash: Hash, supported: Support, d: Daemon, id: string, outcome: ErrorThresholds.Outcome,
                       now: int)
    ensures var d' := Step(hash, supported, d, Execute(id, outcome, now));
            if id !in d.reg.actions || d.reg.actions[id].run.status != ErrorThresholds.Active then d' == d
            else
              && OnlyAction(d.reg, d'.reg, id) && d'.active == d.active
              && ExecutedOnce(d.reg.actions[id], d'.reg.actions[id], outcome, now)
  {
  }

  // ------------------------------------------------------------------ registrations

  /** After a registration the engine runs every trigger of the file that it can run, and each is
      active with nothing counted. */
  lemma RegisteredFileRuns(w: World, supported: Support, d: Daemon, files: iset<File>, f: File, prior: Option<string>,
                           g: nat, t: nat)
    requires WorldOk(w) && Integrity(w, d.reg, files) && Agreement(d, supported)
    requires f in w.files && Finds(w, d.reg, f.path, prior) && In(f, AtTrigger(g, t))
    ensures var d', id := Step(w.hash, supported, d, Register(f, prior)), ID(w.hash, f, AtTrigger(g, t));
            && id in d'.reg.triggers
            && d'.reg.triggers[id].run == Runtime(ErrorThresholds.Active, 0, None)
            && (id in d'.active <==> supported(f.groups[g].triggers[t].typ))
  {
    var d' := Step(w.hash, supported, d, Register(f, prior));
    RegisterKeepsIntegrity(w, d.reg, files, f, prior);
    RegisterKeepsAgreement(w, supported, d, files, f, prior);
    TriggerIsStored(w, d'.reg, FilesAfter(w, files, f), f, g, t);
    NewTriggerIsFresh(w, d.reg, files, f, prior, g, t);
  }

  lemma NewTriggerIsFresh(w: World, s: RegistryState, files: iset<File>, f: File, prior: Option<string>, g: nat, t: nat)
    requires WorldOk(w) && Integrity(w, s, files) && f in w.files && Finds(w, s, f.path, prior)
    requires In(f, AtTrigger(g, t))
    ensures var s', id := Registered(w.hash, s, f, prior), ID(w.hash, f, AtTrigger(g, t));
            id in s'.triggers ==> s'.triggers[id].run == Runtime(ErrorThresholds.Active, 0, None)
  {
    var rest := iset h | h in files && !w.sameFile(h.path, f.path);
    var base, id := Cleared(s, prior), ID(w.hash, f, AtTrigger(g, t));
    ClearedIsApart(w, s, files, f, prior);
    FileHasRoom(w, base, rest, f);
    InsertedOnTop(w.hash, base, f, Coords(f), id);
    if id in base.triggers {
      var h, c := Source(w, base, rest, OfTrigger(base.triggers[id].entity));
      IDIdentifies(w.hash, w.files, f, AtTrigger(g, t), h, c);
    }
  }

  lemma NewActionIsFresh(w: World, s: RegistryState, files: iset<File>, f: File, prior: Option<string>, g: nat, t: nat,
                         a: nat)
    requires WorldOk(w) && Integrity(w, s, files) && f in w.files && Finds(w, s, f.path, prior)
    requires In(f, AtAction(g, t, a))
    ensures var s', id := Registered(w.hash, s, f, prior), ID(w.hash, f, AtAction(g, t, a));
            id in s'.actions ==> s'.actions[id].run == Runtime(ErrorThresholds.Active, 0, None)
  {
    var rest := iset h | h in files && !w.sameFile(h.path, f.path);
    var base, id := Cleared(s, prior), ID(w.hash, f, AtAction(g, t, a));
    ClearedIsApart(w, s, files, f, prior);
    FileHasRoom(w, base, rest, f);
    InsertedOnTop(w.hash, base, f, Coords(f), id);
    if id in base.actions {
      var h, c := Source(w, base, rest, OfAction(base.actions[id].entity));
      IDIdentifies(w.hash, w.files, f, AtAction(g, t, a), h, c);
    }
  }

  /** A registration changes no trigger of another recurfile, and neither starts nor stops it. */
  lemma OtherFilesRunOn(w: World, supported: Support, d: Daemon, files: iset<File>, f: File, prior: Option<string>,
                        id: string)
    requires WorldOk(w) && Integrity(w, d.reg, files) && Agreement(d, supported)
    requires f in w.files && Finds(w, d.reg, f.path, prior)
    requires id in d.reg.triggers && prior != Some(d.reg.triggers[id].entity.recurfileID)
    ensures var d' := Step(w.hash, supported, d, Register(f, prior));
            && id in d'.reg.triggers && d'.reg.triggers[id] == d.reg.triggers[id]
            && (id in d'.active <==> id in d.active)
  {
    RegisteredTriggers(w, d.reg, files, f, prior);
    RegisterKeepsAgreement(w, supported, d, files, f, prior);
  }

  /** Deregistering what both lookups found removes and stops the triggers of that recurfile, and
      leaves all others as they are and running if they ran. */
  lemma DeregisteredFileStops(w: World, supported: Support, d: Daemon, files: iset<File>, r: string)
    requires WorldOk(w) && Integrity(w, d.reg, files) && r in d.reg.recurfiles
    ensures var d' := Step(w.hash, supported, d, Deregister(Some(r), Some(r)));
            && r !in d'.reg.recurfiles
            && (forall id :: id in d'.reg.triggers
                  <==> id in d.reg.triggers && d.reg.triggers[id].entity.recurfileID != r)
            && (forall id :: id in d'.reg.triggers ==> d'.reg.triggers[id] == d.reg.triggers[id])
            && (forall id :: id in d'.active
                  <==> id in d.active && (id in d.reg.triggers ==> d.reg.triggers[id].entity.recurfileID != r))
  {
    DeregisterKeepsIntegrity(w, d.reg, files, r);
  }

  // -------------------------------------------------------------------------- events

  /** An event of an active trigger times the trigger and executes each of its actions once, in
      the order of the file, with its own outcome. */
  lemma EventInFileOrder(w: World, reg: RegistryState, files: iset<File>, f: File, g: nat, t: nat,
                         outcome: string -> ErrorThresholds.Outcome, now: int)
    requires WorldOk(w) && Integrity(w, reg, files) && f in files && In(f, AtTrigger(g, t))
    ensures var tid := ID(w.hash, f, AtTrigger(g, t));
            var ops := EventOps(reg, tid, outcome, now);
            && tid in reg.triggers
            && if reg.triggers[tid].run.status != ErrorThresholds.Active then ops == []
               else
                 && |ops| == 1 + |f.groups[g].triggers[t].actions| && ops[0] == Fire(tid, now)
                 && forall a: nat :: a < |f.groups[g].triggers[t].actions| ==>
                      var id := ID(w.hash, f, AtAction(g, t, a));
                      ops[1 + a] == Execute(id, outcome(id), now)
  {
    var tid := ID(w.hash, f, AtTrigger(g, t));
    Stored(w, reg, files, f, AtTrigger(g, t));
    ActionsInDeclarationOrder(w, reg, files, f, g, t);
    EventSteps(reg, tid, outcome, now);
  }

  lemma EventSteps(reg: RegistryState, tid: string, outcome: string -> ErrorThresholds.Outcome, now: int)
    requires tid in reg.triggers
    ensures var ops, acts := EventOps(reg, tid, outcome, now), ActionsOf(reg, tid);
            if reg.triggers[tid].run.status != ErrorThresholds.Active then ops == []
            else
              && |ops| == 1 + |acts| && ops[0] == Fire(tid, now)
              && forall i: nat :: i < |acts| ==>
                   ops[1 + i] == Execute(acts[i].entity.id, outcome(acts[i].entity.id), now)
  {
  }

  ghost predicate Listed(acts: seq<Running<Action>>, id: string) {
    exists i :: 0 <= i < |acts| && acts[i].entity.id == id
  }

  ghost predicate DifferentActions(acts: seq<Running<Action>>) {
    forall i, j :: 0 <= i < j < |acts| ==> acts[i].entity.id != acts[j].entity.id
  }

  /** What an event does to one action, given whether it is one of the trigger's. */
  ghost predicate ExecutedIf(mine: bool, before: Running<Action>, after: Running<Action>,
                             outcome: ErrorThresholds.Outcome, now: int) {
    if mine && before.run.status == ErrorThresholds.Active then ExecutedOnce(before, after, outcome, now)
    else after == before
  }

  /** The same entities and the same triggers running; only states of actions may differ. */
  ghost predicate OnlyActions(d: Daemon, d': Daemon) {
    && d'.active == d.active && d'.reg.recurfiles == d.reg.recurfiles && d'.reg.groups == d.reg.groups
    && d'.reg.live == d.reg.live && d'.reg.triggers == d.reg.triggers && d'.reg.actions.Keys == d.reg.actions.Keys
  }

  lemma {:induction false} ExecuteEach(hash: Hash, supported: Support, d: Daemon, acts: seq<Running<Action>>,
                                       outcome: string -> ErrorThresholds.Outcome, now: int, id: string)
    requires DifferentActions(acts) && id in d.reg.actions
    ensures var d' := Steps(hash, supported, d, ExecuteOps(acts, outcome, now));
            OnlyActions(d, d') && ExecutedIf(Listed(acts, id), d.reg.actions[id], d'.reg.actions[id], outcome(id), now)
  {
    if acts != [] {
      var n := |acts| - 1;
      ExecuteEach(hash, supported, d, acts[..n], outcome, now, id);
      assert ExecuteOps(acts, outcome, now)[..n] == ExecuteOps(acts[..n], outcome, now);
      var before := Steps(hash, supported, d, ExecuteOps(acts[..n], outcome, now));
      var last := acts[n].entity.id;
      ExecutedAction(hash, supported, before, last, outcome(last), now);
      assert Listed(acts, id) <==> Listed(acts[..n], id) || last == id;
      assert last == id ==> !Listed(acts[..n], id);
    }
  }

  lemma TriggersActionsAre(w: World, reg: RegistryState, files: iset<File>, f: File, g: nat, t: nat)
    requires WorldOk(w) && Integrity(w, reg, files) && f in files && In(f, AtTrigger(g, t))
    ensures DifferentActions(ActionsOf(reg, ID(w.hash, f, AtTrigger(g, t))))
    ensures forall id :: id in reg.actions ==>
              (Listed(ActionsOf(reg, ID(w.hash, f, AtTrigger(g, t))), id)
               <==> reg.actions[id].entity.triggerID == ID(w.hash, f, AtTrigger(g, t)))
  {
    var tid := ID(w.hash, f, AtTrigger(g, t));
    var acts := ActionsOf(reg, tid);
    ActionsInDeclarationOrder(w, reg, files, f, g, t);
    forall i: nat, j: nat | i < j < |acts|
      ensures acts[i].entity.id != acts[j].entity.id
    {
      ActionIDsApart(w, f, g, t, i, j);
    }
    forall id | id in reg.actions
      ensures Listed(acts, id) <==> reg.actions[id].entity.triggerID == tid
    {
      if Listed(acts, id) {
        var i: nat :| i < |acts| && acts[i].entity.id == id;
        Stored(w, reg, files, f, AtAction(g, t, i));
      }
      if reg.actions[id].entity.triggerID == tid {
        var h, c := Source(w, reg, files, OfAction(reg.actions[id].entity));
        SameEntity(w, reg, files, f, AtTrigger(g, t), h, AtTrigger(c.g, c.t));
        assert acts[c.a].entity.id == id;
      }
    }
  }

  lemma ActionIDsApart(w: World, f: File, g: nat, t: nat, i: nat, j: nat)
    requires WorldOk(w) && f in w.files && In(f, AtAction(g, t, i)) && In(f, AtAction(g, t, j)) && i != j
    ensures ID(w.hash, f, AtAction(g, t, i)) != ID(w.hash, f, AtAction(g, t, j))
  {
    if ID(w.hash, f, AtAction(g, t, i)) == ID(w.hash, f, AtAction(g, t, j)) {
      IDIdentifies(w.hash, w.files, f, AtAction(g, t, i), f, AtAction(g, t, j));
    }
  }

  /** The trigger has been timed, its active actions have been executed once, each with its own
      outcome, and nothing else has changed. */
  ghost predicate EventHandled(d: Daemon, d': Daemon, tid: string, outcome: string -> ErrorThresholds.Outcome,
                               now: int) {
    && OnlyTrigger(d.reg, d'.reg.(actions := d.reg.actions), tid) && d'.active == d.active
    && d'.reg.triggers[tid].run.last == Some(now)
    && d'.reg.triggers[tid].run.status == d.reg.triggers[tid].run.status
    && d'.reg.triggers[tid].run.errorCount == d.reg.triggers[tid].run.errorCount
    && d'.reg.actions.Keys == d.reg.actions.Keys
    && forall id :: id in d.reg.actions ==>
         ExecutedIf(d.reg.actions[id].entity.triggerID == tid, d.reg.actions[id], d'.reg.actions[id], outcome(id), now)
  }

  /** Every active action of an active trigger is executed once by an event. An event of a trigger
      that is not active, or not registered, changes nothing. */
  lemma EventExecutesEachOnce(w: World, supported: Support, d: Daemon, files: iset<File>, tid: string,
                              outcome: string -> ErrorThresholds.Outcome, now: int)
    requires WorldOk(w) && Integrity(w, d.reg, files)
    ensures var d' := Steps(w.hash, supported, d, EventOps(d.reg, tid, outcome, now));
            if tid in d.reg.triggers && d.reg.triggers[tid].run.status == ErrorThresholds.Active
            then EventHandled(d, d', tid, outcome, now) else d' == d
  {
    if tid in d.reg.triggers && d.reg.triggers[tid].run.status == ErrorThresholds.Active {
      var f, c := Source(w, d.reg, files, OfTrigger(d.reg.triggers[tid].entity));
      TriggersActionsAre(w, d.reg, files, f, c.g, c.t);
      ActiveEvent(w.hash, supported, d, tid, ActionsOf(d.reg, tid), outcome, now);
    }
  }

  lemma ActiveEvent(hash: Hash, supported: Support, d: Daemon, tid: string, acts: seq<Running<Action>>,
                    outcome: string -> ErrorThresholds.Outcome, now: int)
    requires tid in d.reg.triggers && d.reg.triggers[tid].run.status == ErrorThresholds.Active
    requires DifferentActions(acts)
    requires forall id :: id in d.reg.actions ==> (Listed(acts, id) <==> d.reg.actions[id].entity.triggerID == tid)
    ensures EventHandled(d, Steps(hash, supported, d, [Fire(tid, now)] + ExecuteOps(acts, outcome, now)), tid,
                         outcome, now)
  {
    var fired := Step(hash, supported, d, Fire(tid, now));
    FiredTrigger(hash, supported, d, tid, now);
    FireFirst(hash, supported, d, tid, acts, outcome, now);
    AllExecuted(hash, supported, fired, acts, outcome, now);
    AfterFiring(d, fired, Steps(hash, supported, fired, ExecuteOps(acts, outcome, now)), tid, acts, outcome, now);
  }

  lemma AfterFiring(d: Daemon, fired: Daemon, d': Daemon, tid: string, acts: seq<Running<Action>>,
                    outcome: string -> ErrorThresholds.Outcome, now: int)
    requires OnlyTrigger(d.reg, fired.reg, tid) && fired.active == d.active
    requires fired.reg.triggers[tid].run.last == Some(now)
    requires fired.reg.triggers[tid].run.status == d.reg.triggers[tid].run.status
    requires fired.reg.triggers[tid].run.errorCount == d.reg.triggers[tid].run.errorCount
    requires EachExecuted(fired, d', acts, outcome, now)
    requires forall id :: id in d.reg.actions ==> (Listed(acts, id) <==> d.reg.actions[id].entity.triggerID == tid)
    ensures EventHandled(d, d', tid, outcome, now)
  {
  }

  /** Of the actions only the listed ones have changed, by one execution. */
  ghost predicate EachExecuted(d: Daemon, d': Daemon, acts: seq<Running<Action>>,
                               outcome: string -> ErrorThresholds.Outcome, now: int) {
    && OnlyActions(d, d')
    && forall id :: id in d.reg.actions ==>
         ExecutedIf(Listed(acts, id), d.reg.actions[id], d'.reg.actions[id], outcome(id), now)
  }

  lemma AllExecuted(hash: Hash, supported: Support, d: Daemon, acts: seq<Running<Action>>,
                    outcome: string -> ErrorThresholds.Outcome, now: int)
    requires DifferentActions(acts)
    ensures EachExecuted(d, Steps(hash, supported, d, ExecuteOps(acts, outcome, now)), acts, outcome, now)
  {
    ExecuteOnlyActions(hash, supported, d, acts, outcome, now);
    var d' := Steps(hash, supported, d, ExecuteOps(acts, outcome, now));
    forall id | id in d.reg.actions
      ensures ExecutedIf(Listed(acts, id), d.reg.actions[id], d'.reg.actions[id], outcome(id), now)
    {
      ExecuteEach(hash, supported, d, acts, outcome, now, id);
    }
  }

  lemma {:induction false} ExecuteOnlyActions(hash: Hash, supported: Support, d: Daemon, acts: seq<Running<Action>>,
                                              outcome: string -> ErrorThresholds.Outcome, now: int)
    ensures OnlyActions(d, Steps(hash, supported, d, ExecuteOps(acts, outcome, now)))
  {
    if acts != [] {
      var n := |acts| - 1;
      ExecuteOnlyActions(hash, supported, d, acts[..n], outcome, now);
      assert ExecuteOps(acts, outcome, now)[..n] == ExecuteOps(acts[..n], outcome, now);
      var last := acts[n].entity.id;
      ExecutedAction(hash, supported, Steps(hash, supported, d, ExecuteOps(acts[..n], outcome, now)), last,
                     outcome(last), now);
    }
  }

  lemma FireFirst(hash: Hash, supported: Support, d: Daemon, tid: string, acts: seq<Running<Action>>,
                  outcome: string -> ErrorThresholds.Outcome, now: int)
    ensures Steps(hash, supported, d, [Fire(tid, now)] + ExecuteOps(acts, outcome, now))
         == Steps(hash, supported, Step(hash, supported, d, Fire(tid, now)), ExecuteOps(acts, outcome, now))
  {
    StepsAppend(hash, supported, d, [Fire(tid, now)], ExecuteOps(acts, outcome, now));
    StepsSnoc(hash, supported, d, [], Fire(tid, now));
    assert [] + [Fire(tid, now)] == [Fire(tid, now)];
  }

  // ------------------------------------------------------------- one trigger in a run

  /** How often the driver of the trigger has exited. */
  function DriverErrors(ops: seq<Daemons.Op>, id: string): nat {
    if ops == [] then 0
    else DriverErrors(ops[..|ops| - 1], id) + (if ops[|ops| - 1] == DriverError(id) then 1 else 0)
  }

  lemma StepOfTrigger(w: World, supported: Support, d: Daemon, files: iset<File>, op: Daemons.Op, id: string)
    requires WorldOk(w) && Integrity(w, d.reg, files) && Allowed(w, d, op) && id in d.reg.triggers
    requires Spares(d.reg.triggers[id].entity.recurfileID, op)
    ensures var d' := Step(w.hash, supported, d, op);
            && id in d'.reg.triggers && d'.reg.triggers[id].entity == d.reg.triggers[id].entity
            && d'.reg.triggers[id].run.errorCount
               == d.reg.triggers[id].run.errorCount + (if op == DriverError(id) then 1 else 0)
  {
    match op {
      case Register(f, prior) => RegisteredTriggers(w, d.reg, files, f, prior);
      case Deregister(_, second) =>
        if second.Some? && second.value in d.reg.recurfiles {
          DeregisterKeepsIntegrity(w, d.reg, files, second.value);
        }
      case _ => StatusStepOfTrigger(w.hash, supported, d, op, id);
    }
  }

  lemma StatusStepOfTrigger(hash: Hash, supported: Support, d: Daemon, op: Daemons.Op, id: string)
    requires !op.Register? && !op.Deregister? && id in d.reg.triggers
    ensures var d' := Step(hash, supported, d, op);
            && id in d'.reg.triggers && d'.reg.triggers[id].entity == d.reg.triggers[id].entity
            && d'.reg.triggers[id].run.errorCount
               == d.reg.triggers[id].run.errorCount + (if op == DriverError(id) then 1 else 0)
  {
  }

  /** As long as its recurfile is not registered again or removed, the error count of a trigger
      goes up by one each time its driver exits, and nothing ever takes it down: not events, not
      resuming, not what happens to other recurfiles. */
  lemma {:induction false} TriggerErrorsAddUp(w: World, supported: Support, start: Daemon, files: iset<File>,
                                              ops: seq<Daemons.Op>, id: string)
    requires WorldOk(w) && Integrity(w, start.reg, files) && Daemons.Runnable(w, supported, start, ops)
    requires id in start.reg.triggers && SparesAll(start.reg.triggers[id].entity.recurfileID, ops)
    ensures var d := Daemons.Run(w, supported, start, ops);
            && id in d.reg.triggers && d.reg.triggers[id].entity == start.reg.triggers[id].entity
            && d.reg.triggers[id].run.errorCount == start.reg.triggers[id].run.errorCount + DriverErrors(ops, id)
  {
    if ops != [] {
      var init, op := ops[..|ops| - 1], ops[|ops| - 1];
      TriggerErrorsAddUp(w, supported, start, files, init, id);
      IntegrityAlways(w, supported, start, files, init);
      StepOfTrigger(w, supported, Daemons.Run(w, supported, start, init),
                    FilesRun(w, supported, start, files, init), op, id);
    }
  }
}
