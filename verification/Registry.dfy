/** The in-memory registry of src/app/recurd/daemon/registry.go: four maps and the index,
    changed in place. Every method is tied to the operation on the registry value. */
module Registries {
  import opened Options
  import opened Identity
  import opened EntityIndexes
  import opened Entities
  import opened RegistryStates
  import opened RegistryOps
  import ErrorThresholds
  import Settings

  lemma UnusedMatchesNothing(live: seq<EntityRef>, id: string)
    requires Unused(live, id)
    ensures Matching(live, WithID(id)) == []
  {
    MatchingMembers(live, WithID(id));
    EmptyOrNot(Matching(live, WithID(id)));
  }

  // --------------------------------------------------- room for the rest of a file

  lemma RoomAhead(hash: Hash, s: RegistryState, f: File, all: seq<Coord>, before: seq<Coord>, block: seq<Coord>)
    requires Room(hash, s, f, all) && before + block <= all
    ensures AllIn(f, before) && AllIn(f, block)
    ensures Room(hash, InsertAll(hash, s, f, before), f, block)
  {
    PrefixAt(all, before + block);
    RoomWithin(hash, s, f, all, before + block, 0);
    RoomSplits(hash, s, f, before, block);
  }

  lemma PrefixAt(all: seq<Coord>, cs: seq<Coord>)
    requires cs <= all
    ensures forall i :: 0 <= i < |cs| ==> cs[i] == all[0 + i]
  {
  }

  lemma RoomForOne(hash: Hash, s: RegistryState, f: File, c: Coord)
    requires In(f, c) && Room(hash, s, f, [c])
    ensures Unused(s.live, ID(hash, f, c))
    ensures InsertAll(hash, s, f, [c]) == Insert(s, EntityAt(hash, f, c))
  {
    assert [c][0] == c;
    InsertAllSnoc(hash, s, f, [], c);
    assert [] + [c] == [c];
  }

  lemma {:induction false} TriggerCoordsGrow(f: File, g: nat, n: nat, m: nat)
    requires g < |f.groups| && n <= m <= |f.groups[g].triggers|
    ensures TriggerCoords(f, g, n) <= TriggerCoords(f, g, m)
  {
    if n < m {
      TriggerCoordsGrow(f, g, n, m - 1);
    }
  }

  lemma {:induction false} GroupCoordsGrow(f: File, n: nat, m: nat)
    requires n <= m <= |f.groups|
    ensures GroupCoords(f, n) <= GroupCoords(f, m)
  {
    if n < m {
      GroupCoordsGrow(f, n, m - 1);
    }
  }

  class Registry {
    const hash: Hash
    const sameFile: (string, string) -> bool
    const index: EntityIndex
    var recurfiles: map<string, Recurfile>
    var groups: map<string, Group>
    var triggers: map<string, Running<Trigger>>
    var actions: map<string, Running<Action>>

    ghost predicate Valid()
      reads this, index
    {
      index.Valid()
    }

    ghost function View(): RegistryState
      reads this, index
    {
      RegistryState(recurfiles, groups, triggers, actions, index.Refs())
    }

    constructor (hash: Hash, sameFile: (string, string) -> bool, lower: string -> string, flushAt: nat)
      requires 0 < flushAt
      ensures Valid() && View() == EMPTY && fresh(index)
      ensures this.hash == hash && this.sameFile == sameFile && index.lower == lower
    {
      this.hash, this.sameFile := hash, sameFile;
      index := new EntityIndex(lower, flushAt);
      recurfiles, groups, triggers, actions := map[], map[], map[], map[];
    }

    // ------------------------------------------------------------- registration

    method AddAction(a: Action)
      requires Valid() && Unused(View().live, a.id)
      modifies this`actions, index
      ensures Valid() && View() == Insert(old(View()), OfAction(a))
    {
      UnusedMatchesNothing(index.Refs(), a.id);
      actions := actions[a.id := Running(a, FRESH)];
      index.Add(OfAction(a).Ref());
    }

    method AddTrigger(t: Trigger)
      requires Valid() && Unused(View().live, t.id)
      modifies this`triggers, index
      ensures Valid() && View() == Insert(old(View()), OfTrigger(t))
    {
      UnusedMatchesNothing(index.Refs(), t.id);
      triggers := triggers[t.id := Running(t, FRESH)];
      index.Add(OfTrigger(t).Ref());
    }

    method AddGroup(g: Group)
      requires Valid() && Unused(View().live, g.id)
      modifies this`groups, index
      ensures Valid() && View() == Insert(old(View()), OfGroup(g))
    {
      UnusedMatchesNothing(index.Refs(), g.id);
      groups := groups[g.id := g];
      index.Add(OfGroup(g).Ref());
    }

    method AddRecurfile(r: Recurfile)
      requires Valid() && Unused(View().live, r.id)
      modifies this`recurfiles, index
      ensures Valid() && View() == Insert(old(View()), OfRecurfile(r))
    {
      UnusedMatchesNothing(index.Refs(), r.id);
      recurfiles := recurfiles[r.id := r];
      index.Add(OfRecurfile(r).Ref());
    }

    method RegisterAction(f: File, g: nat, t: nat, a: nat, wfID: string, gID: string, tID: string,
                          occurrence: nat, threshold: int) returns (aID: string)
      requires Valid() && In(f, AtAction(g, t, a))
      requires wfID == FileID(hash, f) && gID == ID(hash, f, AtGroup(g)) && tID == ID(hash, f, AtTrigger(g, t))
      requires occurrence == Occurrence(ActionTypes(f, g, t), a)
      requires threshold == SettingsAt(f, g, t).actionErrorThreshold
      requires Unused(View().live, ID(hash, f, AtAction(g, t, a)))
      modifies this`actions, index
      ensures Valid() && aID == ID(hash, f, AtAction(g, t, a))
      ensures View() == Insert(old(View()), EntityAt(hash, f, AtAction(g, t, a)))
    {
      var act := f.groups[g].triggers[t].actions[a];
      aID := hash(HashInput("action", ActionSeed(tID, act.typ, occurrence)));
      AddAction(Action(aID, act.typ, act.name, gID, f.groups[g].name, tID, wfID, f.path,
                       f.setup.actionPlugin(act.typ), act.options, threshold));
    }

    /** The innermost loop of registerResolved. */
    method RegisterActions(f: File, g: nat, t: nat, wfID: string, gID: string, tID: string, threshold: int)
      returns (ids: seq<string>)
      requires Valid() && In(f, AtTrigger(g, t))
      requires wfID == FileID(hash, f) && gID == ID(hash, f, AtGroup(g)) && tID == ID(hash, f, AtTrigger(g, t))
      requires threshold == SettingsAt(f, g, t).actionErrorThreshold
      requires Room(hash, View(), f, ActionCoords(f, g, t, |f.groups[g].triggers[t].actions|))
      modifies this`actions, index
      ensures Valid() && ids == ActionIDs(hash, f, g, t)
      ensures View() == InsertAll(hash, old(View()), f, ActionCoords(f, g, t, |f.groups[g].triggers[t].actions|))
    {
      ids := [];
      var actionTypeCount: map<string, nat> := map[];
      ghost var types := ActionTypes(f, g, t);
      for a := 0 to |f.groups[g].triggers[t].actions|
        invariant Valid() && ids == ActionIDs(hash, f, g, t)[..a]
        invariant Tallied(actionTypeCount, types, a)
        invariant View() == InsertAll(hash, old(View()), f, ActionCoords(f, g, t, a))
      {
        var typ := f.groups[g].triggers[t].actions[a].typ;
        var occurrence := Tally(actionTypeCount, typ);
        TallyNext(actionTypeCount, types, a);
        actionTypeCount := actionTypeCount[typ := occurrence + 1];
        NextAction(hash, old(View()), f, g, t, a);
        NextActionID(hash, f, g, t, a);
        var aID := RegisterAction(f, g, t, a, wfID, gID, tID, occurrence, threshold);
        ids := ids + [aID];
      }
      assert ActionIDs(hash, f, g, t)[..|f.groups[g].triggers[t].actions|] == ActionIDs(hash, f, g, t);
    }

    /** One turn of the trigger loop: the trigger, then its actions. */
    method RegisterTrigger(f: File, g: nat, t: nat, wfID: string, gID: string, occurrence: nat)
      returns (tID: string, actionIDs: seq<string>)
      requires Valid() && In(f, AtTrigger(g, t))
      requires wfID == FileID(hash, f) && gID == ID(hash, f, AtGroup(g))
      requires occurrence == Occurrence(TriggerTypes(f, g), t)
      requires Room(hash, View(), f, [AtTrigger(g, t)] + ActionCoords(f, g, t, |f.groups[g].triggers[t].actions|))
      modifies this`triggers, this`actions, index
      ensures Valid() && tID == ID(hash, f, AtTrigger(g, t)) && actionIDs == ActionIDs(hash, f, g, t)
      ensures View() == InsertAll(hash, old(View()), f,
                                  [AtTrigger(g, t)] + ActionCoords(f, g, t, |f.groups[g].triggers[t].actions|))
    {
      ghost var coords := ActionCoords(f, g, t, |f.groups[g].triggers[t].actions|);
      RoomSplits(hash, View(), f, [AtTrigger(g, t)], coords);
      RoomForOne(hash, View(), f, AtTrigger(g, t));
      InsertAllAppend(hash, View(), f, [AtTrigger(g, t)], coords);
      var tr := f.groups[g].triggers[t];
      tID := hash(HashInput("trigger", TriggerSeed(gID, tr.typ, occurrence)));
      var settings := Settings.BuildTriggerSettings(f.setup.parse, f.setup.daemon, f.setup.manifest(tr.typ),
                                                    f.setup.override(tr.typ), f.groups[g].options, tr.options);
      AddTrigger(Trigger(tID, tr.typ, tr.name, gID, f.groups[g].name, wfID, f.path,
                         f.setup.triggerPlugin(tr.typ), tr.options, settings));
      actionIDs := RegisterActions(f, g, t, wfID, gID, tID, settings.actionErrorThreshold);
    }

    /** The trigger loop of a group. */
    method RegisterTriggers(f: File, g: nat, wfID: string, gID: string)
      returns (triggerIDs: seq<string>, actionIDs: seq<string>)
      requires Valid() && In(f, AtGroup(g)) && wfID == FileID(hash, f) && gID == ID(hash, f, AtGroup(g))
      requires Room(hash, View(), f, TriggerCoords(f, g, |f.groups[g].triggers|))
      modifies this`triggers, this`actions, index
      ensures Valid()
      ensures triggerIDs == TriggerIDs(hash, f, g, |f.groups[g].triggers|)
      ensures actionIDs == GroupActionIDs(hash, f, g, |f.groups[g].triggers|)
      ensures View() == InsertAll(hash, old(View()), f, TriggerCoords(f, g, |f.groups[g].triggers|))
    {
      triggerIDs, actionIDs := [], [];
      var triggerNameCount: map<string, nat> := map[];
      ghost var types := TriggerTypes(f, g);
      for t := 0 to |f.groups[g].triggers|
        invariant Valid() && triggerIDs == TriggerIDs(hash, f, g, t) && actionIDs == GroupActionIDs(hash, f, g, t)
        invariant Tallied(triggerNameCount, types, t)
        invariant AllIn(f, TriggerCoords(f, g, t)) && View() == InsertAll(hash, old(View()), f, TriggerCoords(f, g, t))
      {
        var typ := f.groups[g].triggers[t].typ;
        var occurrence := Tally(triggerNameCount, typ);
        TallyNext(triggerNameCount, types, t);
        triggerNameCount := triggerNameCount[typ := occurrence + 1];
        NextTrigger(hash, old(View()), f, g, t);
        NextTriggerID(hash, f, g, t);
        var tID, ids := RegisterTrigger(f, g, t, wfID, gID, occurrence);
        triggerIDs := triggerIDs + [tID];
        actionIDs := actionIDs + ids;
      }
    }

    /** One turn of the group loop: the triggers, then the group itself. */
    method RegisterGroup(f: File, g: nat, wfID: string) returns (gID: string)
      requires Valid() && In(f, AtGroup(g)) && wfID == FileID(hash, f)
      requires Room(hash, View(), f, GroupBlock(f, g))
      modifies this`groups, this`triggers, this`actions, index
      ensures Valid() && gID == ID(hash, f, AtGroup(g))
      ensures View() == InsertAll(hash, old(View()), f, GroupBlock(f, g))
    {
      ghost var coords := TriggerCoords(f, g, |f.groups[g].triggers|);
      RoomSplits(hash, View(), f, coords, [AtGroup(g)]);
      RoomForOne(hash, InsertAll(hash, View(), f, coords), f, AtGroup(g));
      InsertAllAppend(hash, View(), f, coords, [AtGroup(g)]);
      var grp := f.groups[g];
      gID := hash(HashInput("group", GroupSeed(wfID, grp.name)));
      var triggerIDs, actionIDs := RegisterTriggers(f, g, wfID, gID);
      AddGroup(Group(gID, grp.name, wfID, triggerIDs, actionIDs, grp.options, grp.aliases));
    }

    /** The entities of a file that is not registered. */
    method RegisterEntities(f: File) returns (wfID: string)
      requires Valid() && Room(hash, View(), f, Coords(f))
      modifies this, index
      ensures Valid() && wfID == FileID(hash, f)
      ensures View() == InsertAll(hash, old(View()), f, Coords(f))
    {
      wfID := hash(HashInput("recurfile", f.path));
      var gIDs: seq<string> := [];
      for g := 0 to |f.groups|
        invariant Valid() && gIDs == GroupIDs(hash, f, g)
        invariant AllIn(f, GroupCoords(f, g)) && View() == InsertAll(hash, old(View()), f, GroupCoords(f, g))
      {
        NextGroup(hash, old(View()), f, g);
        NextGroupID(hash, f, g);
        var gID := RegisterGroup(f, g, wfID);
        gIDs := gIDs + [gID];
      }
      RoomAhead(hash, old(View()), f, Coords(f), GroupCoords(f, |f.groups|), [AtFile]);
      RoomForOne(hash, View(), f, AtFile);
      InsertAllAppend(hash, old(View()), f, GroupCoords(f, |f.groups|), [AtFile]);
      AddRecurfile(Recurfile(wfID, f.path, gIDs));
    }

    // ----------------------------------------------------------- deregistration

    method RemoveRef(id: string)
      requires Valid()
      modifies index
      ensures Valid() && index.Refs() == Outside(old(index.Refs()), {id})
    {
      WithoutIDIsOutside(index.Refs(), id);
      index.Remove(id);
    }

    method RemoveTriggers(ids: seq<string>)
      requires Valid()
      modifies this`triggers, index
      ensures Valid()
      ensures View() == old(View()).(triggers := old(triggers) - Elements(ids),
                                     live := Outside(old(View()).live, Elements(ids)))
    {
      OutsideNothing(index.Refs());
      for i := 0 to |ids|
        invariant Valid() && index.Refs() == Outside(old(index.Refs()), Elements(ids[..i]))
        invariant triggers == old(triggers) - Elements(ids[..i])
      {
        OneMoreOutside(old(index.Refs()), ids, i);
        triggers := triggers - {ids[i]};
        RemoveRef(ids[i]);
      }
      assert ids[..|ids|] == ids;
    }

    method RemoveActions(ids: seq<string>)
      requires Valid()
      modifies this`actions, index
      ensures Valid()
      ensures View() == old(View()).(actions := old(actions) - Elements(ids),
                                     live := Outside(old(View()).live, Elements(ids)))
    {
      OutsideNothing(index.Refs());
      for i := 0 to |ids|
        invariant Valid() && index.Refs() == Outside(old(index.Refs()), Elements(ids[..i]))
        invariant actions == old(actions) - Elements(ids[..i])
      {
        OneMoreOutside(old(index.Refs()), ids, i);
        actions := actions - {ids[i]};
        RemoveRef(ids[i]);
      }
      assert ids[..|ids|] == ids;
    }

    method RemoveGroup(gID: string)
      requires Valid()
      modifies this`groups, this`triggers, this`actions, index
      ensures Valid() && View() == DropGroup(old(View()), gID)
    {
      if gID !in groups {
        return;
      }
      var grp := groups[gID];
      RemoveTriggers(grp.triggerIDs);
      RemoveActions(grp.actionIDs);
      ForgetGroup(gID);
    }

    method ForgetGroup(gID: string)
      requires Valid()
      modifies this`groups, index
      ensures Valid()
      ensures View() == old(View()).(groups := old(groups) - {gID}, live := Outside(old(View()).live, {gID}))
    {
      groups := groups - {gID};
      RemoveRef(gID);
    }

    method UnlockedDeregisterRecurfile(wf: Recurfile)
      requires Valid()
      modifies this, index
      ensures Valid() && View() == Deregistered(old(View()), wf)
    {
      for i := 0 to |wf.groups|
        invariant Valid() && View() == DropGroups(old(View()), wf.groups[..i])
      {
        assert wf.groups[..i + 1][..i] == wf.groups[..i];
        RemoveGroup(wf.groups[i]);
      }
      assert wf.groups[..|wf.groups|] == wf.groups;
      recurfiles := recurfiles - {wf.id};
      RemoveRef(wf.id);
    }

    method UnlockedTriggerIDs(wf: Recurfile) returns (ids: seq<string>)
      ensures ids == TriggerList(View(), wf.groups)
    {
      ids := [];
      for i := 0 to |wf.groups|
        invariant ids == TriggerList(View(), wf.groups[..i])
      {
        assert wf.groups[..i + 1][..i] == wf.groups[..i];
        if wf.groups[i] in groups {
          ids := ids + groups[wf.groups[i]].triggerIDs;
        }
      }
      assert wf.groups[..|wf.groups|] == wf.groups;
    }

    // ------------------------------------------------------ registration and reload

    /** The search for a previous registration of the same physical file. */
    method FindSame(path: string, ghost w: World) returns (prior: Option<string>)
      requires w.sameFile == sameFile
      ensures Finds(w, View(), path, prior)
    {
      var todo := recurfiles.Keys;
      while todo != {}
        invariant todo <= recurfiles.Keys
        invariant forall r :: r in recurfiles && r !in todo ==> !sameFile(recurfiles[r].filePath, path)
        decreases |todo|
      {
        var r :| r in todo;
        if sameFile(recurfiles[r].filePath, path) {
          return Some(r);
        }
        todo := todo - {r};
      }
      return None;
    }

    method RegisterResolved(f: File, ghost w: World, ghost files: iset<File>)
      returns (wfID: string, reloaded: bool, oldTriggerIDs: seq<string>, ghost prior: Option<string>)
      requires Valid() && WorldOk(w) && w.hash == hash && w.sameFile == sameFile
      requires Integrity(w, View(), files) && f in w.files
      modifies this, index
      ensures Valid() && wfID == FileID(hash, f) && reloaded == prior.Some?
      ensures Finds(w, old(View()), f.path, prior) && View() == Registered(hash, old(View()), f, prior)
      ensures Elements(oldTriggerIDs) == if prior.Some? then OwnedTriggers(old(View()), prior.value) else {}
      ensures Integrity(w, View(), FilesAfter(w, files, f))
    {
      var same := FindSame(f.path, w);
      prior := same;
      reloaded, oldTriggerIDs := false, [];
      ClearedIsApart(w, View(), files, f, same);
      RegisterKeepsIntegrity(w, View(), files, f, same);
      if same.Some? {
        ListedIsOwned(w, View(), files, same.value);
        var wf := recurfiles[same.value];
        oldTriggerIDs := UnlockedTriggerIDs(wf);
        UnlockedDeregisterRecurfile(wf);
        reloaded := true;
      }
      FileHasRoom(w, View(), (iset g | g in files && !w.sameFile(g.path, f.path)), f);
      wfID := RegisterEntities(f);
    }

    // ----------------------------------------------------------------- lookups

    method FindEntityByType(identifier: string, kind: Kind) returns (found: Option<string>)
      requires Valid()
      ensures MayFind(index.lower, View().live, identifier, kind, found)
    {
      var refs := index.Lookup(identifier);
      var filtered := Filter(refs, kind);
      found := FirstID(filtered);
    }

    method Filter(refs: seq<EntityRef>, kind: Kind) returns (filtered: seq<EntityRef>)
      ensures filtered == Matching(refs, OfKind(kind))
    {
      filtered := [];
      for i := 0 to |refs|
        invariant filtered == Matching(refs[..i], OfKind(kind))
      {
        assert refs[..i + 1][..i] == refs[..i];
        if refs[i].kind == kind {
          filtered := filtered + [refs[i]];
        }
      }
      assert refs[..|refs|] == refs;
    }

    method GetActionsForTrigger(triggerID: string) returns (result: seq<Running<Action>>)
      ensures result == ActionsOf(View(), triggerID)
    {
      if triggerID !in triggers || triggers[triggerID].entity.groupID !in groups {
        return [];
      }
      var ids := groups[triggers[triggerID].entity.groupID].actionIDs;
      result := [];
      for i := 0 to |ids|
        invariant result == OwnActions(View(), triggerID, ids[..i])
      {
        assert ids[..i + 1][..i] == ids[..i];
        if ids[i] in actions && actions[ids[i]].entity.triggerID == triggerID {
          result := result + [actions[ids[i]]];
        }
      }
      assert ids[..|ids|] == ids;
    }

    method TriggerIDsForRecurfile(identifier: string) returns (ids: seq<string>, ghost found: Option<string>)
      requires Valid()
      ensures MayFind(index.lower, View().live, identifier, RecurfileKind, found)
      ensures ids == if found.Some? && found.value in recurfiles
                     then TriggerList(View(), recurfiles[found.value].groups) else []
    {
      var ref := FindEntityByType(identifier, RecurfileKind);
      found := ref;
      if ref.None? || ref.value !in recurfiles {
        return [], ref;
      }
      ids := UnlockedTriggerIDs(recurfiles[ref.value]);
    }

    method DeregisterRecurfile(identifier: string) returns (wf: Option<Recurfile>, ghost found: Option<string>)
      requires Valid()
      modifies this, index
      ensures Valid() && MayFind(index.lower, old(View()).live, identifier, RecurfileKind, found)
      ensures wf == if found.Some? && found.value in old(recurfiles) then Some(old(recurfiles)[found.value]) else None
      ensures View() == Without(old(View()), found)
    {
      var ref := FindEntityByType(identifier, RecurfileKind);
      found := ref;
      if ref.None? || ref.value !in recurfiles {
        return None, ref;
      }
      wf := Some(recurfiles[ref.value]);
      UnlockedDeregisterRecurfile(wf.value);
    }

    // ------------------------------------------------------------- status changes

    /** suspendTrigger and resumeTrigger; `already` tells that the status was `status` before. */
    method SetTriggerStatus(identifier: string, status: Status)
      returns (id: Option<string>, already: bool, ghost found: Option<string>)
      requires Valid()
      modifies this`triggers
      ensures Valid() && MayFind(index.lower, old(View()).live, identifier, TriggerKind, found)
      ensures id == if found.Some? && found.value in old(triggers) then found else None
      ensures id.Some? ==> already == (old(triggers)[id.value].run.status == status)
      ensures View() == TriggerStatus(old(View()), found, status)
    {
      var ref := FindEntityByType(identifier, TriggerKind);
      found := ref;
      if ref.None? || ref.value !in triggers {
        return None, false, ref;
      }
      id := ref;
      var t := triggers[ref.value];
      already := t.run.status == status;
      triggers := triggers[ref.value := t.(run := t.run.(status := status))];
    }

    /** suspendAction and resumeAction. */
    method SetActionStatus(identifier: string, status: Status)
      returns (id: Option<string>, already: bool, ghost found: Option<string>)
      requires Valid()
      modifies this`actions
      ensures Valid() && MayFind(index.lower, old(View()).live, identifier, ActionKind, found)
      ensures id == if found.Some? && found.value in old(actions) then found else None
      ensures id.Some? ==> already == (old(actions)[id.value].run.status == status)
      ensures View() == ActionStatus(old(View()), found, status)
    {
      var ref := FindEntityByType(identifier, ActionKind);
      found := ref;
      if ref.None? || ref.value !in actions {
        return None, false, ref;
      }
      id := ref;
      var a := actions[ref.value];
      already := a.run.status == status;
      actions := actions[ref.value := a.(run := a.run.(status := status))];
    }

    method SuspendByPluginID(pluginID: string) returns (triggerIDs: set<string>)
      requires Valid()
      modifies this`triggers, this`actions
      ensures Valid() && View() == PluginSuspended(old(View()), pluginID)
      ensures triggerIDs == NewlySuspended(old(View()), pluginID)
    {
      triggerIDs := SuspendTriggersOf(pluginID);
      SuspendActionsOf(pluginID);
    }

    method SuspendTriggersOf(pluginID: string) returns (ids: set<string>)
      modifies this`triggers
      ensures triggers == PluginSuspended(old(View()), pluginID).triggers
      ensures ids == NewlySuspended(old(View()), pluginID)
    {
      ids := {};
      var todo := triggers.Keys;
      while todo != {}
        invariant todo <= triggers.Keys == old(triggers).Keys
        invariant forall t :: t in ids <==> t in triggers && t !in todo && triggers[t] != old(triggers)[t]
        invariant forall t :: t in triggers ==>
                    triggers[t] == if t in todo then old(triggers)[t] else TriggerOff(old(triggers)[t], pluginID)
        decreases |todo|
      {
        var id :| id in todo;
        var t := triggers[id];
        if t.entity.pluginID == pluginID && t.run.status != ErrorThresholds.Suspended {
          triggers := triggers[id := t.(run := t.run.(status := ErrorThresholds.Suspended))];
          ids := ids + {id};
        }
        todo := todo - {id};
      }
    }

    method SuspendActionsOf(pluginID: string)
      modifies this`actions
      ensures actions == PluginSuspended(old(View()), pluginID).actions
    {
      var todo := actions.Keys;
      while todo != {}
        invariant todo <= actions.Keys == old(actions).Keys
        invariant forall a :: a in actions ==>
                    actions[a] == if a in todo then old(actions)[a] else ActionOff(old(actions)[a], pluginID)
        decreases |todo|
      {
        var id :| id in todo;
        var a := actions[id];
        if a.entity.pluginID == pluginID && a.run.status != ErrorThresholds.Suspended {
          actions := actions[id := a.(run := a.run.(status := ErrorThresholds.Suspended))];
        }
        todo := todo - {id};
      }
    }
  }

  lemma {:induction false} OutsideNothing(live: seq<EntityRef>)
    ensures Outside(live, Elements([])) == live
  {
    if live != [] {
      OutsideNothing(live[..|live| - 1]);
    }
  }

  lemma OneMoreOutside(live: seq<EntityRef>, ids: seq<string>, i: nat)
    requires i < |ids|
    ensures Elements(ids[..i + 1]) == Elements(ids[..i]) + {ids[i]}
    ensures Outside(Outside(live, Elements(ids[..i])), {ids[i]}) == Outside(live, Elements(ids[..i + 1]))
  {
    assert ids[..i + 1] == ids[..i] + [ids[i]];
    ElementsSnoc(ids[..i], ids[i]);
    OutsideTwice(live, Elements(ids[..i]), {ids[i]});
  }

  lemma NextActionID(hash: Hash, f: File, g: nat, t: nat, a: nat)
    requires In(f, AtAction(g, t, a))
    ensures ActionIDs(hash, f, g, t)[..a + 1] == ActionIDs(hash, f, g, t)[..a] + [ID(hash, f, AtAction(g, t, a))]
  {
  }

  lemma NextTriggerID(hash: Hash, f: File, g: nat, t: nat)
    requires In(f, AtTrigger(g, t))
    ensures TriggerIDs(hash, f, g, t + 1) == TriggerIDs(hash, f, g, t) + [ID(hash, f, AtTrigger(g, t))]
  {
  }

  lemma NextGroupID(hash: Hash, f: File, g: nat)
    requires In(f, AtGroup(g))
    ensures GroupIDs(hash, f, g + 1) == GroupIDs(hash, f, g) + [ID(hash, f, AtGroup(g))]
  {
  }

  lemma NextTrigger(hash: Hash, s: RegistryState, f: File, g: nat, t: nat)
    requires In(f, AtTrigger(g, t)) && Room(hash, s, f, TriggerCoords(f, g, |f.groups[g].triggers|))
    ensures var before := TriggerCoords(f, g, t);
            var block := [AtTrigger(g, t)] + ActionCoords(f, g, t, |f.groups[g].triggers[t].actions|);
            && AllIn(f, before) && AllIn(f, block) && AllIn(f, TriggerCoords(f, g, t + 1))
            && Room(hash, InsertAll(hash, s, f, before), f, block)
            && InsertAll(hash, s, f, TriggerCoords(f, g, t + 1))
               == InsertAll(hash, InsertAll(hash, s, f, before), f, block)
  {
    var before := TriggerCoords(f, g, t);
    var block := [AtTrigger(g, t)] + ActionCoords(f, g, t, |f.groups[g].triggers[t].actions|);
    assert TriggerCoords(f, g, t + 1) == before + block;
    TriggerCoordsGrow(f, g, t + 1, |f.groups[g].triggers|);
    RoomAhead(hash, s, f, TriggerCoords(f, g, |f.groups[g].triggers|), before, block);
    InsertAllAppend(hash, s, f, before, block);
  }

  lemma NextGroup(hash: Hash, s: RegistryState, f: File, g: nat)
    requires In(f, AtGroup(g)) && Room(hash, s, f, Coords(f))
    ensures var before := GroupCoords(f, g);
            var block := GroupBlock(f, g);
            && AllIn(f, before) && AllIn(f, block) && AllIn(f, GroupCoords(f, g + 1))
            && Room(hash, InsertAll(hash, s, f, before), f, block)
            && InsertAll(hash, s, f, GroupCoords(f, g + 1)) == InsertAll(hash, InsertAll(hash, s, f, before), f, block)
  {
    var before := GroupCoords(f, g);
    var block := GroupBlock(f, g);
    assert GroupCoords(f, g + 1) == before + block;
    GroupCoordsGrow(f, g + 1, |f.groups|);
    RoomAhead(hash, s, f, Coords(f), before, block);
    InsertAllAppend(hash, s, f, before, block);
  }

  lemma NextAction(hash: Hash, s: RegistryState, f: File, g: nat, t: nat, a: nat)
    requires In(f, AtAction(g, t, a))
    requires Room(hash, s, f, ActionCoords(f, g, t, |f.groups[g].triggers[t].actions|))
    ensures var next := InsertAll(hash, s, f, ActionCoords(f, g, t, a));
            && Unused(next.live, ID(hash, f, AtAction(g, t, a)))
            && InsertAll(hash, s, f, ActionCoords(f, g, t, a + 1)) == Insert(next, EntityAt(hash, f, AtAction(g, t, a)))
  {
    var before := ActionCoords(f, g, t, a);
    var c := AtAction(g, t, a);
    assert before + [c] == ActionCoords(f, g, t, a + 1);
    RoomAhead(hash, s, f, ActionCoords(f, g, t, |f.groups[g].triggers[t].actions|), before, [c]);
    RoomForOne(hash, InsertAll(hash, s, f, before), f, c);
    InsertAllSnoc(hash, s, f, before, c);
  }
}
