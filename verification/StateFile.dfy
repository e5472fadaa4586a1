/** Saving and restoring the state: snapshot and restoreEntityStates of
    src/app/recurd/daemon/registry.go, buildState and loadState of daemon.go. A status is
    written and read as it is; times are written to the second. */
module StateFiles {
  import opened Options
  import opened Sequences
  import opened EntityIndexes
  import opened Entities
  import opened RegistryStates
  import opened RegistryOps
  import Registries

  const NANOS_PER_SECOND := 1_000_000_000

  /** `last` in seconds, None for an empty text. */
  datatype EntityState = EntityState(id: string, status: Status, errorCount: int, last: Option<int>)

  datatype RecurfileState = RecurfileState(id: string, filePath: string, triggers: seq<EntityState>,
                                           actions: seq<EntityState>)

  function StateOf(id: string, run: Runtime): EntityState {
    EntityState(id, run.status, run.errorCount,
                if run.last.Some? then Some(run.last.value / NANOS_PER_SECOND) else None)
  }

  function Restored(run: Runtime, saved: EntityState): Runtime {
    Runtime(saved.status, saved.errorCount,
            if saved.last.Some? then Some(saved.last.value * NANOS_PER_SECOND) else run.last)
  }

  // -------------------------------------------------------------------------- saving

  /** The states of the entities that exist, in the order of their IDs in the list. */
  function StatesOf<T>(m: map<string, Running<T>>, ids: seq<string>): seq<EntityState> {
    if ids == [] then []
    else
      var last := ids[|ids| - 1];
      StatesOf(m, ids[..|ids| - 1]) + (if last in m then [StateOf(last, m[last].run)] else [])
  }

  function SnapshotOf(s: RegistryState, r: string): RecurfileState
    requires r in s.recurfiles
  {
    var wf := s.recurfiles[r];
    RecurfileState(wf.id, wf.filePath, StatesOf(s.triggers, TriggerList(s, wf.groups)),
                   StatesOf(s.actions, ActionList(s, wf.groups)))
  }

  /** `state` lists the recurfiles in `order`, each once. */
  ghost predicate Lists(s: RegistryState, order: seq<string>, state: seq<RecurfileState>) {
    && Distinct(order)
    && |state| == |order|
    && forall i :: 0 <= i < |order| ==> order[i] in s.recurfiles && state[i] == SnapshotOf(s, order[i])
  }

  /** ... and leaves none out. */
  ghost predicate IsSnapshot(s: RegistryState, order: seq<string>, state: seq<RecurfileState>) {
    Lists(s, order, state) && Elements(order) == s.recurfiles.Keys
  }

  lemma ListsOneMore(s: RegistryState, order: seq<string>, state: seq<RecurfileState>, r: string)
    requires Lists(s, order, state) && r in s.recurfiles && r !in Elements(order)
    ensures Lists(s, order + [r], state + [SnapshotOf(s, r)])
    ensures Elements(order + [r]) == Elements(order) + {r}
  {
    assert r !in order;
    ElementsSnoc(order, r);
  }

  method Collect<T>(m: map<string, Running<T>>, ids: seq<string>) returns (r: seq<EntityState>)
    ensures r == StatesOf(m, ids)
  {
    r := [];
    for i := 0 to |ids|
      invariant r == StatesOf(m, ids[..i])
    {
      assert ids[..i + 1][..i] == ids[..i];
      if ids[i] in m {
        r := r + [StateOf(ids[i], m[ids[i]].run)];
      }
    }
    assert ids[..|ids|] == ids;
  }

  lemma {:induction false} StatesOfAppend<T>(m: map<string, Running<T>>, xs: seq<string>, ys: seq<string>)
    ensures StatesOf(m, xs + ys) == StatesOf(m, xs) + StatesOf(m, ys)
  {
    if ys == [] {
      assert xs + ys == xs;
    } else {
      StatesOfAppend(m, xs, ys[..|ys| - 1]);
      assert (xs + ys)[..|xs + ys| - 1] == xs + ys[..|ys| - 1];
    }
  }

  lemma NextTriggerStates(s: RegistryState, gids: seq<string>, i: nat)
    requires i < |gids|
    ensures StatesOf(s.triggers, TriggerList(s, gids[..i + 1]))
         == StatesOf(s.triggers, TriggerList(s, gids[..i]))
            + if gids[i] in s.groups then StatesOf(s.triggers, s.groups[gids[i]].triggerIDs) else []
  {
    assert gids[..i + 1][..i] == gids[..i];
    var more := if gids[i] in s.groups then s.groups[gids[i]].triggerIDs else [];
    assert TriggerList(s, gids[..i + 1]) == TriggerList(s, gids[..i]) + more;
    StatesOfAppend(s.triggers, TriggerList(s, gids[..i]), more);
  }

  lemma NextActionStates(s: RegistryState, gids: seq<string>, i: nat)
    requires i < |gids|
    ensures StatesOf(s.actions, ActionList(s, gids[..i + 1]))
         == StatesOf(s.actions, ActionList(s, gids[..i]))
            + if gids[i] in s.groups then StatesOf(s.actions, s.groups[gids[i]].actionIDs) else []
  {
    assert gids[..i + 1][..i] == gids[..i];
    var more := if gids[i] in s.groups then s.groups[gids[i]].actionIDs else [];
    assert ActionList(s, gids[..i + 1]) == ActionList(s, gids[..i]) + more;
    StatesOfAppend(s.actions, ActionList(s, gids[..i]), more);
  }

  method SnapshotRecurfile(registry: Registries.Registry, wf: Recurfile) returns (ws: RecurfileState)
    requires registry.Valid() && wf.id in registry.recurfiles && registry.recurfiles[wf.id] == wf
    ensures ws == SnapshotOf(registry.View(), wf.id)
  {
    ghost var s := registry.View();
    var ts: seq<EntityState>, acts: seq<EntityState> := [], [];
    for i := 0 to |wf.groups|
      invariant ts == StatesOf(s.triggers, TriggerList(s, wf.groups[..i]))
      invariant acts == StatesOf(s.actions, ActionList(s, wf.groups[..i]))
    {
      var gID := wf.groups[i];
      NextTriggerStates(s, wf.groups, i);
      NextActionStates(s, wf.groups, i);
      if gID in registry.groups {
        var g := registry.groups[gID];
        var more := Collect(registry.triggers, g.triggerIDs);
        var moreActs := Collect(registry.actions, g.actionIDs);
        ts, acts := ts + more, acts + moreActs;
      }
    }
    assert wf.groups[..|wf.groups|] == wf.groups;
    ws := RecurfileState(wf.id, wf.filePath, ts, acts);
  }

  ghost predicate ListsAllBut(s: RegistryState, todo: set<string>, order: seq<string>, state: seq<RecurfileState>) {
    Lists(s, order, state) && todo <= s.recurfiles.Keys && Elements(order) == s.recurfiles.Keys - todo
  }

  lemma ListsAnother(s: RegistryState, todo: set<string>, order: seq<string>, state: seq<RecurfileState>, r: string)
    requires ListsAllBut(s, todo, order, state) && r in todo
    ensures ListsAllBut(s, todo - {r}, order + [r], state + [SnapshotOf(s, r)])
  {
    ListsOneMore(s, order, state, r);
  }

  method Snapshot(registry: Registries.Registry) returns (state: seq<RecurfileState>)
    requires registry.Valid() && KeyedByID(registry.View())
    ensures exists order :: IsSnapshot(registry.View(), order, state)
  {
    state := [];
    ghost var order: seq<string> := [];
    ghost var s := registry.View();
    var todo := registry.recurfiles.Keys;
    while todo != {}
      invariant ListsAllBut(s, todo, order, state)
      decreases |todo|
    {
      var r :| r in todo;
      var ws := SnapshotRecurfile(registry, registry.recurfiles[r]);
      ListsAnother(s, todo, order, state, r);
      state, order := state + [ws], order + [r];
      todo := todo - {r};
    }
    assert IsSnapshot(registry.View(), order, state);
  }

  // ----------------------------------------------------------------------- restoring

  function ByID(states: seq<EntityState>): map<string, EntityState> {
    if states == [] then map[]
    else
      var last := states[|states| - 1];
      ByID(states[..|states| - 1])[last.id := last]
  }

  function RestoredTrigger(t: Running<Trigger>, r: string, saved: map<string, EntityState>): Running<Trigger> {
    if t.entity.recurfileID == r && t.entity.id in saved then t.(run := Restored(t.run, saved[t.entity.id])) else t
  }

  function RestoredAction(a: Running<Action>, r: string, saved: map<string, EntityState>): Running<Action> {
    if a.entity.recurfileID == r && a.entity.id in saved then a.(run := Restored(a.run, saved[a.entity.id])) else a
  }

  function RestoreStates(s: RegistryState, r: string, ts: map<string, EntityState>,
                         acts: map<string, EntityState>): RegistryState {
    s.(triggers := map id | id in s.triggers :: RestoredTrigger(s.triggers[id], r, ts),
       actions := map id | id in s.actions :: RestoredAction(s.actions[id], r, acts))
  }

  /** One turn of loadState: register the file found under the path, then restore. */
  function Load1(hash: Hash, s: RegistryState, ws: RecurfileState, f: Option<File>,
                 prior: Option<string>): RegistryState
    requires Known(s, prior)
  {
    if f.None? then s
    else RestoreStates(Registered(hash, s, f.value, prior), FileID(hash, f.value), ByID(ws.triggers), ByID(ws.actions))
  }

  method ToMap(states: seq<EntityState>) returns (m: map<string, EntityState>)
    ensures m == ByID(states)
  {
    m := map[];
    for i := 0 to |states|
      invariant m == ByID(states[..i])
    {
      assert states[..i + 1][..i] == states[..i];
      m := m[states[i].id := states[i]];
    }
    assert states[..|states|] == states;
  }

  method RestoreTriggers(registry: Registries.Registry, r: string, saved: map<string, EntityState>)
    modifies registry`triggers
    ensures registry.triggers
         == map id | id in old(registry.triggers) :: RestoredTrigger(old(registry.triggers)[id], r, saved)
  {
    var todo := registry.triggers.Keys;
    while todo != {}
      invariant todo <= registry.triggers.Keys == old(registry.triggers).Keys
      invariant forall id :: id in registry.triggers ==>
                  registry.triggers[id] == if id in todo then old(registry.triggers)[id]
                                           else RestoredTrigger(old(registry.triggers)[id], r, saved)
      decreases |todo|
    {
      var id :| id in todo;
      var t := registry.triggers[id];
      if t.entity.recurfileID == r && t.entity.id in saved {
        registry.triggers := registry.triggers[id := t.(run := Restored(t.run, saved[t.entity.id]))];
      }
      todo := todo - {id};
    }
  }

  method RestoreActions(registry: Registries.Registry, r: string, saved: map<string, EntityState>)
    modifies registry`actions
    ensures registry.actions
         == map id | id in old(registry.actions) :: RestoredAction(old(registry.actions)[id], r, saved)
  {
    var todo := registry.actions.Keys;
    while todo != {}
      invariant todo <= registry.actions.Keys == old(registry.actions).Keys
      invariant forall id :: id in registry.actions ==>
                  registry.actions[id] == if id in todo then old(registry.actions)[id]
                                          else RestoredAction(old(registry.actions)[id], r, saved)
      decreases |todo|
    {
      var id :| id in todo;
      var a := registry.actions[id];
      if a.entity.recurfileID == r && a.entity.id in saved {
        registry.actions := registry.actions[id := a.(run := Restored(a.run, saved[a.entity.id]))];
      }
      todo := todo - {id};
    }
  }

  method RestoreEntityStates(registry: Registries.Registry, r: string, ts: map<string, EntityState>,
                             acts: map<string, EntityState>)
    requires registry.Valid()
    modifies registry`triggers, registry`actions
    ensures registry.Valid() && registry.View() == RestoreStates(old(registry.View()), r, ts, acts)
  {
    RestoreTriggers(registry, r, ts);
    RestoreActions(registry, r, acts);
  }

  lemma RestoringKeepsIntegrity(w: World, s: RegistryState, files: iset<File>, r: string,
                                ts: map<string, EntityState>, acts: map<string, EntityState>)
    requires Integrity(w, s, files)
    ensures Integrity(w, RestoreStates(s, r, ts, acts), files)
  {
    SameEntitiesKeepIntegrity(w, s, files, RestoreStates(s, r, ts, acts));
  }

  /** Restoring overwrites the status and the count of the saved entities of the recurfile, and
      their times if any were saved; everything else stays. */
  ghost predicate RestoredFrom(mine: bool, before: Runtime, after: Runtime, id: string,
                               saved: map<string, EntityState>) {
    if !mine || id !in saved then after == before
    else
      && after.status == saved[id].status && after.errorCount == saved[id].errorCount
      && match saved[id].last
         case None => after.last == before.last
         case Some(seconds) => after.last == Some(seconds * 1_000_000_000)
  }

  lemma TriggersRestored(s: RegistryState, r: string, ts: map<string, EntityState>, acts: map<string, EntityState>)
    requires KeyedByID(s)
    ensures var after := RestoreStates(s, r, ts, acts).triggers;
            && after.Keys == s.triggers.Keys
            && forall id :: id in s.triggers ==>
                 && after[id].entity == s.triggers[id].entity
                 && RestoredFrom(s.triggers[id].entity.recurfileID == r, s.triggers[id].run, after[id].run, id, ts)
  {
  }

  lemma ActionsRestored(s: RegistryState, r: string, ts: map<string, EntityState>, acts: map<string, EntityState>)
    requires KeyedByID(s)
    ensures var after := RestoreStates(s, r, ts, acts).actions;
            && after.Keys == s.actions.Keys
            && forall id :: id in s.actions ==>
                 && after[id].entity == s.actions[id].entity
                 && RestoredFrom(s.actions[id].entity.recurfileID == r, s.actions[id].run, after[id].run, id, acts)
  {
  }

  lemma RestoresTheSaved(s: RegistryState, r: string, ts: map<string, EntityState>, acts: map<string, EntityState>)
    requires KeyedByID(s)
    ensures var s' := RestoreStates(s, r, ts, acts);
            && s'.recurfiles == s.recurfiles && s'.groups == s.groups && s'.live == s.live
            && s'.triggers.Keys == s.triggers.Keys && s'.actions.Keys == s.actions.Keys
            && (forall id :: id in s.triggers ==>
                  && s'.triggers[id].entity == s.triggers[id].entity
                  && RestoredFrom(s.triggers[id].entity.recurfileID == r, s.triggers[id].run, s'.triggers[id].run,
                                  id, ts))
            && (forall id :: id in s.actions ==>
                  && s'.actions[id].entity == s.actions[id].entity
                  && RestoredFrom(s.actions[id].entity.recurfileID == r, s.actions[id].run, s'.actions[id].run,
                                  id, acts))
  {
    TriggersRestored(s, r, ts, acts);
    ActionsRestored(s, r, ts, acts);
  }
}
