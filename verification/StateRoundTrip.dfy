/** Restarting the daemon: saving the state, registering the same files again in an empty
    registry and restoring gives a registry with the same state (loadState of
    src/app/recurd/daemon/daemon.go, lines 473-517). */
module StateRoundTrip {
  import opened Options
  import opened Identity
  import opened EntityIndexes
  import opened Entities
  import opened RegistryStates
  import opened RegistryOps
  import opened StateFiles
  import Daemons
  import Registries

  /** Reading and parsing the file at a path. */
  type Loader = string -> Option<File>

  // -------------------------------------------------------------- what loading does

  ghost function LoadAll(w: World, load: Loader, state: seq<RecurfileState>, priors: seq<Option<string>>): RegistryState
    requires Loadable(w, load, state, priors)
    decreases |state|, 1
  {
    if state == [] then EMPTY
    else
      var n := |state| - 1;
      Load1(w.hash, LoadAll(w, load, state[..n], priors[..n]), state[n], load(state[n].filePath), priors[n])
  }

  /** `priors` are the outcomes of the searches for a previous registration. */
  ghost predicate Loadable(w: World, load: Loader, state: seq<RecurfileState>, priors: seq<Option<string>>)
    decreases |state|, 0
  {
    && |priors| == |state|
    && (state == [] ||
        var n := |state| - 1;
        && Loadable(w, load, state[..n], priors[..n])
        && match load(state[n].filePath)
           case None => priors[n] == None
           case Some(f) => f in w.files && Finds(w, LoadAll(w, load, state[..n], priors[..n]), f.path, priors[n]))
  }

  ghost function FilesLoaded(w: World, load: Loader, state: seq<RecurfileState>): iset<File> {
    if state == [] then iset{}
    else
      var n := |state| - 1;
      var files := FilesLoaded(w, load, state[..n]);
      match load(state[n].filePath)
      case None => files
      case Some(f) => FilesAfter(w, files, f)
  }

  lemma {:induction false} LoadingKeepsIntegrity(w: World, load: Loader, state: seq<RecurfileState>,
                                                 priors: seq<Option<string>>)
    requires WorldOk(w) && Loadable(w, load, state, priors)
    ensures Integrity(w, LoadAll(w, load, state, priors), FilesLoaded(w, load, state))
  {
    if state != [] {
      var n := |state| - 1;
      var s, files := LoadAll(w, load, state[..n], priors[..n]), FilesLoaded(w, load, state[..n]);
      LoadingKeepsIntegrity(w, load, state[..n], priors[..n]);
      match load(state[n].filePath) {
        case None =>
        case Some(f) =>
          RegisterKeepsIntegrity(w, s, files, f, priors[n]);
          RestoringKeepsIntegrity(w, Registered(w.hash, s, f, priors[n]), FilesAfter(w, files, f),
                                  FileID(w.hash, f), ByID(state[n].triggers), ByID(state[n].actions));
      }
    }
  }

  lemma LoadSnoc(w: World, load: Loader, state: seq<RecurfileState>, priors: seq<Option<string>>, ws: RecurfileState,
                 prior: Option<string>)
    requires Loadable(w, load, state, priors)
    requires match load(ws.filePath)
             case None => prior == None
             case Some(f) => f in w.files && Finds(w, LoadAll(w, load, state, priors), f.path, prior)
    ensures Loadable(w, load, state + [ws], priors + [prior])
    ensures LoadAll(w, load, state + [ws], priors + [prior])
         == Load1(w.hash, LoadAll(w, load, state, priors), ws, load(ws.filePath), prior)
  {
    assert (state + [ws])[..|state|] == state && (priors + [prior])[..|state|] == priors;
  }

  /** One turn of loadState, after the recurfiles in `done`; a file that cannot be read is
      skipped. */
  method LoadOne(registry: Registries.Registry, ws: RecurfileState, load: Loader,
                 ghost w: World, ghost done: seq<RecurfileState>, ghost priors: seq<Option<string>>)
    returns (ghost prior: Option<string>)
    requires registry.Valid() && WorldOk(w) && w.hash == registry.hash && w.sameFile == registry.sameFile
    requires Loadable(w, load, done, priors) && registry.View() == LoadAll(w, load, done, priors)
    requires load(ws.filePath).Some? ==> load(ws.filePath).value in w.files
    modifies registry, registry.index
    ensures registry.Valid() && Loadable(w, load, done + [ws], priors + [prior])
    ensures registry.View() == LoadAll(w, load, done + [ws], priors + [prior])
  {
    var f := load(ws.filePath);
    if f.None? {
      LoadSnoc(w, load, done, priors, ws, None);
      prior := None;
      return;
    }
    LoadingKeepsIntegrity(w, load, done, priors);
    var r, _, _, before := registry.RegisterResolved(f.value, w, FilesLoaded(w, load, done));
    LoadSnoc(w, load, done, priors, ws, before);
    prior := before;
    var ts := ToMap(ws.triggers);
    var acts := ToMap(ws.actions);
    RestoreEntityStates(registry, r, ts, acts);
  }

  /** loadState on an empty registry. */
  method LoadState(registry: Registries.Registry, state: seq<RecurfileState>, load: Loader, ghost w: World)
    returns (ghost priors: seq<Option<string>>)
    requires registry.Valid() && registry.View() == EMPTY
    requires WorldOk(w) && w.hash == registry.hash && w.sameFile == registry.sameFile
    requires forall p :: load(p).Some? ==> load(p).value in w.files
    modifies registry, registry.index
    ensures registry.Valid() && Loadable(w, load, state, priors)
    ensures registry.View() == LoadAll(w, load, state, priors)
  {
    priors := [];
    ghost var done: seq<RecurfileState> := [];
    for i := 0 to |state|
      invariant registry.Valid() && done == state[..i] && Loadable(w, load, done, priors)
      invariant registry.View() == LoadAll(w, load, done, priors)
    {
      var prior := LoadOne(registry, state[i], load, w, done, priors);
      priors := priors + [prior];
      TakeOneMore(state, i);
      done := done + [state[i]];
    }
    assert done == state;
  }

  lemma TakeOneMore<T>(xs: seq<T>, i: nat)
    requires i < |xs|
    ensures xs[..i + 1] == xs[..i] + [xs[i]]
  {
  }

  // ------------------------------------------------- IDs do not depend on the setup

  ghost predicate Unchanged(f: File, f': File) {
    f'.path == f.path && f'.groups == f.groups
  }

  lemma {:induction false} SameIDs(hash: Hash, f: File, f': File, c: Coord)
    requires Unchanged(f, f') && In(f, c)
    ensures In(f', c) && ID(hash, f', c) == ID(hash, f, c)
    decreases match c case AtFile => 0 case AtGroup(_) => 1 case AtTrigger(_, _) => 2 case AtAction(_, _, _) => 3
  {
    if !c.AtFile? {
      SameIDs(hash, f, f', Parent(c));
    }
    if c.AtTrigger? {
      assert TriggerTypes(f, c.g) == TriggerTypes(f', c.g);
    }
    if c.AtAction? {
      assert ActionTypes(f, c.g, c.t) == ActionTypes(f', c.g, c.t);
    }
  }

  lemma {:induction false} SameActionIDs(hash: Hash, f: File, f': File, g: nat, n: nat)
    requires Unchanged(f, f') && g < |f.groups| && n <= |f.groups[g].triggers|
    ensures GroupActionIDs(hash, f', g, n) == GroupActionIDs(hash, f, g, n)
  {
    if n > 0 {
      SameActionIDs(hash, f, f', g, n - 1);
      forall c | In(f, c)
        ensures In(f', c) && ID(hash, f', c) == ID(hash, f, c)
      {
        SameIDs(hash, f, f', c);
      }
      assert ActionIDs(hash, f', g, n - 1) == ActionIDs(hash, f, g, n - 1);
    }
  }

  lemma SameGroup(hash: Hash, f: File, f': File, g: nat)
    requires Unchanged(f, f') && In(f, AtGroup(g))
    ensures GroupAt(hash, f', g) == GroupAt(hash, f, g)
  {
    SameIDs(hash, f, f', AtGroup(g));
    SameActionIDs(hash, f, f', g, |f.groups[g].triggers|);
    forall t: nat | In(f, AtTrigger(g, t))
      ensures ID(hash, f', AtTrigger(g, t)) == ID(hash, f, AtTrigger(g, t))
    {
      SameIDs(hash, f, f', AtTrigger(g, t));
    }
    assert TriggerIDs(hash, f', g, |f.groups[g].triggers|) == TriggerIDs(hash, f, g, |f.groups[g].triggers|);
  }

  lemma SameRecurfile(hash: Hash, f: File, f': File)
    requires Unchanged(f, f')
    ensures RecurfileAt(hash, f') == RecurfileAt(hash, f)
  {
    forall g: nat | In(f, AtGroup(g))
      ensures ID(hash, f', AtGroup(g)) == ID(hash, f, AtGroup(g))
    {
      SameIDs(hash, f, f', AtGroup(g));
    }
    assert GroupIDs(hash, f', |f.groups|) == GroupIDs(hash, f, |f.groups|);
  }

  // --------------------------------------------------------- a run read back from disk

  function Reread(run: Runtime): Runtime {
    Runtime(run.status, run.errorCount,
            if run.last.Some? then Some(run.last.value / NANOS_PER_SECOND * NANOS_PER_SECOND) else None)
  }

  lemma RereadShowsTheSame(id: string, run: Runtime)
    ensures StateOf(id, Reread(run)) == StateOf(id, run)
    ensures Restored(FRESH, StateOf(id, run)) == Reread(run)
  {
  }

  lemma ByIDSnoc(states: seq<EntityState>, x: EntityState)
    ensures ByID(states + [x]) == ByID(states)[x.id := x]
  {
    assert (states + [x])[..|states|] == states;
  }

  lemma {:induction false} SavedByID<T>(m: map<string, Running<T>>, ids: seq<string>, id: string)
    ensures id in ByID(StatesOf(m, ids)) <==> id in ids && id in m
    ensures id in ids && id in m ==> ByID(StatesOf(m, ids))[id] == StateOf(id, m[id].run)
  {
    if ids != [] {
      var init, last := ids[..|ids| - 1], ids[|ids| - 1];
      SavedByID(m, init, id);
      assert ids == init + [last];
      var states := StatesOf(m, init);
      if last in m {
        ByIDSnoc(states, StateOf(last, m[last].run));
      } else {
        assert StatesOf(m, ids) == states;
      }
    }
  }

  // ---------------------------------------------------------------- the round trip

  /** The same trigger with its run read back; plugin and settings depend on the setup. */
  predicate RereadTrigger(s': RegistryState, s: RegistryState, t: string)
    requires t in s'.triggers
  {
    && t in s.triggers && s'.triggers[t].run == Reread(s.triggers[t].run)
    && s'.triggers[t].entity.typ == s.triggers[t].entity.typ
  }

  /** Part of a registry, with its runs read back from disk. */
  ghost predicate RereadPart(s': RegistryState, s: RegistryState) {
    && (forall r :: r in s'.recurfiles ==> r in s.recurfiles && s'.recurfiles[r] == s.recurfiles[r])
    && (forall g :: g in s'.groups ==> g in s.groups && s'.groups[g] == s.groups[g])
    && (forall t :: t in s'.triggers ==> RereadTrigger(s', s, t))
    && (forall a :: a in s'.actions ==> a in s.actions && s'.actions[a].run == Reread(s.actions[a].run))
  }

  /** Every registered file can be read again and has not changed. */
  ghost predicate Unchanging(w: World, load: Loader, files: iset<File>) {
    forall f :: f in files ==> load(f.path).Some? && load(f.path).value in w.files && Unchanged(f, load(f.path).value)
  }

  lemma OneRecurfilePerFile(w: World, s: RegistryState, files: iset<File>, r: string, q: string)
    requires WorldOk(w) && Integrity(w, s, files) && r in s.recurfiles && q in s.recurfiles
    requires w.sameFile(s.recurfiles[r].filePath, s.recurfiles[q].filePath)
    ensures r == q
  {
    var f, c := Source(w, s, files, OfRecurfile(s.recurfiles[r]));
    var g, d := Source(w, s, files, OfRecurfile(s.recurfiles[q]));
  }

  /** What there is once the entities of a file are added to a part of the saved registry. */
  ghost predicate Extends(hash: Hash, f': File, s0: RegistryState, s1: RegistryState)
    requires AllIn(f', Coords(f'))
  {
    && KeyedByID(s1)
    && forall b :: Holds(s1, b) <==> Holds(s0, b) || Among(hash, f', Coords(f'), b)
  }

  /** The entities a file adds are the ones the saved registry had for it. */
  lemma AddedRecurfiles(w: World, s: RegistryState, files: iset<File>, f: File, f': File, s0: RegistryState,
                        s1: RegistryState)
    requires WorldOk(w) && Integrity(w, s, files) && f in files && f' in w.files && Unchanged(f, f')
    requires RereadPart(s0, s) && AllIn(f', Coords(f')) && Extends(w.hash, f', s0, s1)
    ensures forall r :: r in s1.recurfiles ==> r in s.recurfiles && s1.recurfiles[r] == s.recurfiles[r]
  {
    forall r | r in s1.recurfiles
      ensures r in s.recurfiles && s1.recurfiles[r] == s.recurfiles[r]
    {
      var b := OfRecurfile(s1.recurfiles[r]);
      if !Holds(s0, b) {
        var c := Added(w, s, files, f, f', b);
        SameRecurfile(w.hash, f, f');
      }
    }
  }

  lemma AddedGroups(w: World, s: RegistryState, files: iset<File>, f: File, f': File, s0: RegistryState,
                    s1: RegistryState)
    requires WorldOk(w) && Integrity(w, s, files) && f in files && f' in w.files && Unchanged(f, f')
    requires RereadPart(s0, s) && AllIn(f', Coords(f')) && Extends(w.hash, f', s0, s1)
    ensures forall g :: g in s1.groups ==> g in s.groups && s1.groups[g] == s.groups[g]
  {
    forall g | g in s1.groups
      ensures g in s.groups && s1.groups[g] == s.groups[g]
    {
      var b := OfGroup(s1.groups[g]);
      if !Holds(s0, b) {
        var c := Added(w, s, files, f, f', b);
        SameGroup(w.hash, f, f', c.g);
      }
    }
  }

  lemma AddedRunning(w: World, s: RegistryState, files: iset<File>, f: File, f': File, s0: RegistryState,
                     s1: RegistryState)
    requires WorldOk(w) && Integrity(w, s, files) && f in files && f' in w.files && Unchanged(f, f')
    requires AllIn(f', Coords(f')) && Extends(w.hash, f', s0, s1)
    ensures forall t :: t in s1.triggers && t !in s0.triggers ==>
              OwnedTrigger(s, t, FileID(w.hash, f)) && s1.triggers[t].entity.typ == s.triggers[t].entity.typ
    ensures forall a :: a in s1.actions && a !in s0.actions ==> OwnedAction(s, a, FileID(w.hash, f))
  {
    forall t | t in s1.triggers && t !in s0.triggers
      ensures OwnedTrigger(s, t, FileID(w.hash, f)) && s1.triggers[t].entity.typ == s.triggers[t].entity.typ
    {
      var c := Added(w, s, files, f, f', OfTrigger(s1.triggers[t].entity));
    }
    forall a | a in s1.actions && a !in s0.actions
      ensures OwnedAction(s, a, FileID(w.hash, f))
    {
      var c := Added(w, s, files, f, f', OfAction(s1.actions[a].entity));
    }
  }

  predicate OwnedTrigger(s: RegistryState, t: string, r: string) {
    t in s.triggers && s.triggers[t].entity.recurfileID == r
  }

  predicate OwnedAction(s: RegistryState, a: string, r: string) {
    a in s.actions && s.actions[a].entity.recurfileID == r
  }

  lemma Added(w: World, s: RegistryState, files: iset<File>, f: File, f': File, b: Entity) returns (c: Coord)
    requires WorldOk(w) && Integrity(w, s, files) && f in files && Unchanged(f, f') && AllIn(f', Coords(f'))
    requires Among(w.hash, f', Coords(f'), b)
    ensures In(f, c) && In(f', c) && EntityAt(w.hash, f', c) == b && ID(w.hash, f, c) == b.Id()
    ensures Holds(s, EntityAt(w.hash, f, c))
  {
    var i :| 0 <= i < |Coords(f')| && EntityAt(w.hash, f', Coords(f')[i]) == b;
    c := Coords(f')[i];
    SameIDs(w.hash, f', f, c);
    Stored(w, s, files, f, c);
  }

  lemma FileIsAdded(w: World, s: RegistryState, files: iset<File>, f: File, f': File, s0: RegistryState,
                    files0: iset<File>, s1: RegistryState)
    requires WorldOk(w) && Integrity(w, s, files) && Integrity(w, s0, files0) && RereadPart(s0, s)
    requires f in files && f' in w.files && Unchanged(f, f') && Apart(w, files0, f')
    requires AllIn(f', Coords(f')) && s1 == InsertAll(w.hash, s0, f', Coords(f'))
    ensures Extends(w.hash, f', s0, s1)
    ensures forall r :: r in s1.recurfiles ==> r in s.recurfiles && s1.recurfiles[r] == s.recurfiles[r]
    ensures forall g :: g in s1.groups ==> g in s.groups && s1.groups[g] == s.groups[g]
    ensures forall t :: t in s1.triggers && t !in s0.triggers ==>
              OwnedTrigger(s, t, FileID(w.hash, f)) && s1.triggers[t].entity.typ == s.triggers[t].entity.typ
    ensures forall a :: a in s1.actions && a !in s0.actions ==> OwnedAction(s, a, FileID(w.hash, f))
  {
    FileHasRoom(w, s0, files0, f');
    InsertAllKeepsIndexed(w.hash, s0, f', Coords(f'));
    AddedRecurfiles(w, s, files, f, f', s0, s1);
    AddedGroups(w, s, files, f, f', s0, s1);
    AddedRunning(w, s, files, f, f', s0, s1);
  }

  /** One more file read back: the registry stays a part of the saved one. */
  lemma OneMoreReread(w: World, s: RegistryState, files: iset<File>, r: string, s0: RegistryState,
                      files0: iset<File>, f': File)
    requires WorldOk(w) && Integrity(w, s, files) && Integrity(w, s0, files0) && RereadPart(s0, s)
    requires r in s.recurfiles && Apart(w, files0, f') && f' in w.files
    requires forall f :: f in files && FileID(w.hash, f) == r ==> Unchanged(f, f')
    ensures FileID(w.hash, f') == r
    ensures var saved := SnapshotOf(s, r);
            var s2 := Load1(w.hash, s0, saved, Some(f'), None);
            RereadPart(s2, s) && s2.recurfiles.Keys == s0.recurfiles.Keys + {r}
  {
    var f, c := Source(w, s, files, OfRecurfile(s.recurfiles[r]));
    CoordsAre(f');
    var s1 := InsertAll(w.hash, s0, f', Coords(f'));
    FileIsAdded(w, s, files, f, f', s0, files0, s1);
    var saved := SnapshotOf(s, r);
    forall t | t in s1.triggers
      ensures t in s.triggers && s1.triggers[t].entity.typ == s.triggers[t].entity.typ
      ensures RestoredTrigger(s1.triggers[t], r, ByID(saved.triggers)).run == Reread(s.triggers[t].run)
    {
      TriggerReread(w, s, files, r, s0, files0, f', s1, t);
    }
    forall a | a in s1.actions
      ensures a in s.actions && RestoredAction(s1.actions[a], r, ByID(saved.actions)).run == Reread(s.actions[a].run)
    {
      ActionReread(w, s, files, r, s0, files0, f', s1, a);
    }
    RecurfilesAfter(w, s0, f', s1, r);
    RestoringRereads(s, s1, r, ByID(saved.triggers), ByID(saved.actions));
  }

  lemma RestoringRereads(s: RegistryState, s1: RegistryState, r: string, ts: map<string, EntityState>,
                         acts: map<string, EntityState>)
    requires forall q :: q in s1.recurfiles ==> q in s.recurfiles && s1.recurfiles[q] == s.recurfiles[q]
    requires forall g :: g in s1.groups ==> g in s.groups && s1.groups[g] == s.groups[g]
    requires forall t :: t in s1.triggers ==>
               && t in s.triggers && s1.triggers[t].entity.typ == s.triggers[t].entity.typ
               && RestoredTrigger(s1.triggers[t], r, ts).run == Reread(s.triggers[t].run)
    requires forall a :: a in s1.actions ==>
               a in s.actions && RestoredAction(s1.actions[a], r, acts).run == Reread(s.actions[a].run)
    ensures RereadPart(RestoreStates(s1, r, ts, acts), s)
  {
  }

  lemma RecurfilesAfter(w: World, s0: RegistryState, f': File, s1: RegistryState, r: string)
    requires AllIn(f', Coords(f')) && KeyedByID(s0) && KeyedByID(s1) && FileID(w.hash, f') == r
    requires forall b :: Holds(s1, b) <==> Holds(s0, b) || Among(w.hash, f', Coords(f'), b)
    ensures s1.recurfiles.Keys == s0.recurfiles.Keys + {r}
  {
    CoordsAre(f');
    var i :| 0 <= i < |Coords(f')| && Coords(f')[i] == AtFile;
    assert Among(w.hash, f', Coords(f'), OfRecurfile(RecurfileAt(w.hash, f')));
    assert Holds(s1, OfRecurfile(RecurfileAt(w.hash, f')));
    forall q
      ensures q in s1.recurfiles <==> q in s0.recurfiles || q == r
    {
      if q in s0.recurfiles {
        assert Holds(s1, OfRecurfile(s0.recurfiles[q]));
      }
      if q in s1.recurfiles && q !in s0.recurfiles {
        assert Holds(s1, OfRecurfile(s1.recurfiles[q]));
      }
    }
  }

  lemma TriggerIsSaved(w: World, s: RegistryState, files: iset<File>, r: string, t: string)
    requires WorldOk(w) && Integrity(w, s, files) && r in s.recurfiles && OwnedTrigger(s, t, r)
    ensures var saved := ByID(SnapshotOf(s, r).triggers);
            t in saved && Restored(FRESH, saved[t]) == Reread(s.triggers[t].run)
  {
    ListedIsOwned(w, s, files, r);
    assert t in Elements(TriggerList(s, s.recurfiles[r].groups));
    SavedByID(s.triggers, TriggerList(s, s.recurfiles[r].groups), t);
    RereadShowsTheSame(t, s.triggers[t].run);
  }

  lemma InsertedTrigger(w: World, s0: RegistryState, files0: iset<File>, f': File, t: string)
    requires WorldOk(w) && Integrity(w, s0, files0) && Apart(w, files0, f') && f' in w.files && AllIn(f', Coords(f'))
    ensures var s1 := InsertAll(w.hash, s0, f', Coords(f'));
            if t in s0.triggers
            then t in s1.triggers && s1.triggers[t] == s0.triggers[t]
                 && s0.triggers[t].entity.recurfileID != FileID(w.hash, f')
            else t in s1.triggers ==>
                   s1.triggers[t].run == FRESH && s1.triggers[t].entity.recurfileID == FileID(w.hash, f')
  {
    FileHasRoom(w, s0, files0, f');
    InsertedOnTop(w.hash, s0, f', Coords(f'), t);
    if t in s0.triggers {
      OtherOwner(w, s0, files0, f', t);
    }
  }

  lemma TriggerReread(w: World, s: RegistryState, files: iset<File>, r: string, s0: RegistryState, files0: iset<File>,
                      f': File, s1: RegistryState, t: string)
    requires WorldOk(w) && Integrity(w, s, files) && Integrity(w, s0, files0) && RereadPart(s0, s)
    requires r in s.recurfiles && Apart(w, files0, f') && f' in w.files && FileID(w.hash, f') == r
    requires AllIn(f', Coords(f')) && s1 == InsertAll(w.hash, s0, f', Coords(f')) && KeyedByID(s1) && t in s1.triggers
    requires t !in s0.triggers ==> OwnedTrigger(s, t, r) && s1.triggers[t].entity.typ == s.triggers[t].entity.typ
    ensures t in s.triggers && s1.triggers[t].entity.typ == s.triggers[t].entity.typ
    ensures RestoredTrigger(s1.triggers[t], r, ByID(SnapshotOf(s, r).triggers)).run == Reread(s.triggers[t].run)
  {
    InsertedTrigger(w, s0, files0, f', t);
    if t !in s0.triggers {
      TriggerIsSaved(w, s, files, r, t);
    }
  }

  lemma ActionReread(w: World, s: RegistryState, files: iset<File>, r: string, s0: RegistryState, files0: iset<File>,
                     f': File, s1: RegistryState, a: string)
    requires WorldOk(w) && Integrity(w, s, files) && Integrity(w, s0, files0) && RereadPart(s0, s)
    requires r in s.recurfiles && Apart(w, files0, f') && f' in w.files && FileID(w.hash, f') == r
    requires AllIn(f', Coords(f')) && s1 == InsertAll(w.hash, s0, f', Coords(f')) && KeyedByID(s1) && a in s1.actions
    requires a !in s0.actions ==> OwnedAction(s, a, r)
    ensures a in s.actions
    ensures RestoredAction(s1.actions[a], r, ByID(SnapshotOf(s, r).actions)).run == Reread(s.actions[a].run)
  {
    FileHasRoom(w, s0, files0, f');
    InsertedOnTop(w.hash, s0, f', Coords(f'), a);
    if a in s0.actions {
      OtherActionOwner(w, s0, files0, f', a);
    } else {
      BackPointersAgree(w, s, files);
      ActionListMembers(s, s.recurfiles[r].groups, a);
      SavedByID(s.actions, ActionList(s, s.recurfiles[r].groups), a);
      RereadShowsTheSame(a, s.actions[a].run);
    }
  }

  /** Reading the listed files back one by one, in whatever order they were saved. */
  lemma {:induction false} Reloaded(w: World, s: RegistryState, files: iset<File>, load: Loader,
                                    order: seq<string>, state: seq<RecurfileState>, priors: seq<Option<string>>)
    requires WorldOk(w) && Integrity(w, s, files) && Unchanging(w, load, files)
    requires Lists(s, order, state) && Loadable(w, load, state, priors)
    ensures RereadPart(LoadAll(w, load, state, priors), s)
    ensures LoadAll(w, load, state, priors).recurfiles.Keys == Elements(order)
  {
    if state != [] {
      var n := |state| - 1;
      var s0, files0, r := LoadAll(w, load, state[..n], priors[..n]), FilesLoaded(w, load, state[..n]), order[n];
      ListsOneLess(s, order, state);
      Reloaded(w, s, files, load, order[..n], state[..n], priors[..n]);
      LoadingKeepsIntegrity(w, load, state[..n], priors[..n]);
      NextReread(w, s, files, load, order[..n], r, s0, files0, priors[n]);
    }
  }

  lemma ListsOneLess(s: RegistryState, order: seq<string>, state: seq<RecurfileState>)
    requires Lists(s, order, state) && state != []
    ensures var n := |state| - 1;
            && Lists(s, order[..n], state[..n]) && order[n] !in order[..n]
            && Elements(order) == Elements(order[..n]) + {order[n]}
  {
    var n := |state| - 1;
    assert order == order[..n] + [order[n]];
    ElementsSnoc(order[..n], order[n]);
  }

  lemma NextReread(w: World, s: RegistryState, files: iset<File>, load: Loader, before: seq<string>, r: string,
                   s0: RegistryState, files0: iset<File>, prior: Option<string>)
    requires WorldOk(w) && Integrity(w, s, files) && Unchanging(w, load, files) && Integrity(w, s0, files0)
    requires RereadPart(s0, s) && s0.recurfiles.Keys == Elements(before) && r in s.recurfiles && r !in before
    requires load(s.recurfiles[r].filePath).Some? ==> Finds(w, s0, load(s.recurfiles[r].filePath).value.path, prior)
    ensures prior == None
    ensures var s1 := Load1(w.hash, s0, SnapshotOf(s, r), load(s.recurfiles[r].filePath), prior);
            RereadPart(s1, s) && s1.recurfiles.Keys == Elements(before) + {r}
  {
    var f, c := Source(w, s, files, OfRecurfile(s.recurfiles[r]));
    var f' := load(f.path).value;
    if prior.Some? {
      OneRecurfilePerFile(w, s, files, prior.value, r);
    }
    ClearedIsApart(w, s0, files0, f', None);
    OnlyFile(w, s, files, f, r);
    OneMoreReread(w, s, files, r, s0, (iset g | g in files0 && !w.sameFile(g.path, f'.path)), f');
  }

  lemma OnlyFile(w: World, s: RegistryState, files: iset<File>, f: File, r: string)
    requires WorldOk(w) && Integrity(w, s, files) && f in files && FileID(w.hash, f) == r
    ensures forall g :: g in files && FileID(w.hash, g) == r ==> g == f
  {
    forall g | g in files && FileID(w.hash, g) == r
      ensures g == f
    {
      SameEntity(w, s, files, f, AtFile, g, AtFile);
    }
  }

  lemma {:induction false} SameStates<T>(m': map<string, Running<T>>, m: map<string, Running<T>>, ids: seq<string>)
    requires forall i :: 0 <= i < |ids| ==> ids[i] in m' && ids[i] in m && m'[ids[i]].run == Reread(m[ids[i]].run)
    ensures StatesOf(m', ids) == StatesOf(m, ids)
  {
    if ids != [] {
      SameStates(m', m, ids[..|ids| - 1]);
      RereadShowsTheSame(ids[|ids| - 1], m[ids[|ids| - 1]].run);
    }
  }

  lemma {:induction false} SameLists(s': RegistryState, s: RegistryState, gids: seq<string>)
    requires forall i :: 0 <= i < |gids| ==>
               gids[i] in s'.groups && gids[i] in s.groups && s'.groups[gids[i]] == s.groups[gids[i]]
    ensures TriggerList(s', gids) == TriggerList(s, gids) && ActionList(s', gids) == ActionList(s, gids)
  {
    if gids != [] {
      SameLists(s', s, gids[..|gids| - 1]);
    }
  }

  lemma ListsReread(w: World, s': RegistryState, files': iset<File>, s: RegistryState, r: string)
    requires WorldOk(w) && Integrity(w, s', files') && RereadPart(s', s) && r in s'.recurfiles
    ensures var gids := s.recurfiles[r].groups;
            TriggerList(s', gids) == TriggerList(s, gids) && ActionList(s', gids) == ActionList(s, gids)
  {
    BackPointersAgree(w, s', files');
    SameLists(s', s, s.recurfiles[r].groups);
  }

  lemma SameSnapshot(w: World, s': RegistryState, files': iset<File>, s: RegistryState, r: string)
    requires WorldOk(w) && Integrity(w, s', files') && RereadPart(s', s) && r in s'.recurfiles
    ensures SnapshotOf(s', r) == SnapshotOf(s, r)
  {
    var gids := s.recurfiles[r].groups;
    ListsReread(w, s', files', s, r);
    BackPointersAgree(w, s', files');
    SameTriggerStates(s', s, gids);
    SameActionStates(s', s, gids);
  }

  lemma SameTriggerStates(s': RegistryState, s: RegistryState, gids: seq<string>)
    requires RereadPart(s', s) && TriggersLinked(s')
    ensures StatesOf(s'.triggers, TriggerList(s', gids)) == StatesOf(s.triggers, TriggerList(s', gids))
  {
    forall i | 0 <= i < |TriggerList(s', gids)|
      ensures TriggerList(s', gids)[i] in s'.triggers
    {
      TriggerListMembers(s', gids, TriggerList(s', gids)[i]);
    }
    SameStates(s'.triggers, s.triggers, TriggerList(s', gids));
  }

  lemma SameActionStates(s': RegistryState, s: RegistryState, gids: seq<string>)
    requires RereadPart(s', s) && ActionsLinked(s')
    ensures StatesOf(s'.actions, ActionList(s', gids)) == StatesOf(s.actions, ActionList(s', gids))
  {
    forall i | 0 <= i < |ActionList(s', gids)|
      ensures ActionList(s', gids)[i] in s'.actions
    {
      ActionListMembers(s', gids, ActionList(s', gids)[i]);
    }
    SameStates(s'.actions, s.actions, ActionList(s', gids));
  }

  lemma TriggerIsThere(w: World, s': RegistryState, files': iset<File>, s: RegistryState, files: iset<File>, t: string)
    requires WorldOk(w) && Integrity(w, s', files') && Integrity(w, s, files) && RereadPart(s', s)
    requires s'.recurfiles.Keys == s.recurfiles.Keys && t in s.triggers
    ensures t in s'.triggers
  {
    var f, c := Source(w, s, files, OfTrigger(s.triggers[t].entity));
    Stored(w, s, files, f, AtFile);
    var r := s.triggers[t].entity.recurfileID;
    ListedIsOwned(w, s, files, r);
    ListedIsOwned(w, s', files', r);
    ListsReread(w, s', files', s, r);
    assert t in OwnedTriggers(s, r);
    assert t in OwnedTriggers(s', r);
  }

  lemma ActionIsThere(w: World, s': RegistryState, files': iset<File>, s: RegistryState, files: iset<File>, a: string)
    requires WorldOk(w) && Integrity(w, s', files') && Integrity(w, s, files) && RereadPart(s', s)
    requires s'.recurfiles.Keys == s.recurfiles.Keys && a in s.actions
    ensures a in s'.actions
  {
    var r := s.actions[a].entity.recurfileID;
    OwnActionIsListed(w, s, files, a);
    ListsReread(w, s', files', s, r);
    BackPointersAgree(w, s', files');
    ActionListMembers(s', s.recurfiles[r].groups, a);
  }

  lemma OwnActionIsListed(w: World, s: RegistryState, files: iset<File>, a: string)
    requires WorldOk(w) && Integrity(w, s, files) && a in s.actions
    ensures var r := s.actions[a].entity.recurfileID;
            r in s.recurfiles && a in ActionList(s, s.recurfiles[r].groups)
  {
    var f, c := Source(w, s, files, OfAction(s.actions[a].entity));
    Stored(w, s, files, f, AtFile);
    BackPointersAgree(w, s, files);
    ActionListMembers(s, s.recurfiles[s.actions[a].entity.recurfileID].groups, a);
  }

  lemma SameStatuses(s': RegistryState, s: RegistryState, supported: Daemons.Support)
    requires forall t :: t in s'.triggers ==> RereadTrigger(s', s, t)
    requires forall t :: t in s.triggers ==> t in s'.triggers
    ensures Daemons.Expected(s', supported) == Daemons.Expected(s, supported)
  {
  }

  /** A part with all the recurfiles has all the triggers, with the same statuses. */
  lemma SameTriggers(w: World, s': RegistryState, files': iset<File>, s: RegistryState, files: iset<File>,
                     supported: Daemons.Support)
    requires WorldOk(w) && Integrity(w, s', files') && Integrity(w, s, files) && RereadPart(s', s)
    requires s'.recurfiles.Keys == s.recurfiles.Keys
    ensures Daemons.Expected(s', supported) == Daemons.Expected(s, supported)
  {
    forall t | t in s.triggers
      ensures t in s'.triggers
    {
      TriggerIsThere(w, s', files', s, files, t);
    }
    SameStatuses(s', s, supported);
  }

  lemma SameSnapshots(w: World, s': RegistryState, files': iset<File>, s: RegistryState, order: seq<string>,
                      state: seq<RecurfileState>)
    requires WorldOk(w) && Integrity(w, s', files') && RereadPart(s', s)
    requires IsSnapshot(s, order, state) && s'.recurfiles.Keys == Elements(order)
    ensures IsSnapshot(s', order, state)
  {
    forall i | 0 <= i < |order|
      ensures order[i] in s'.recurfiles && state[i] == SnapshotOf(s', order[i])
    {
      assert order[i] in Elements(order);
      SameSnapshot(w, s', files', s, order[i]);
    }
  }

  /** Status and count are kept; a time loses what is below a second. */
  predicate ToTheSecond(run: Runtime, after: Runtime) {
    && after.status == run.status && after.errorCount == run.errorCount
    && (run.last.None? <==> after.last.None?)
    && (run.last.Some? ==> after.last.value <= run.last.value < after.last.value + 1_000_000_000
                           && after.last.value % 1_000_000_000 == 0)
  }

  lemma RereadIsToTheSecond(run: Runtime)
    ensures ToTheSecond(run, Reread(run))
  {
  }

  lemma RestartedRuns(w: World, s': RegistryState, files': iset<File>, s: RegistryState, files: iset<File>)
    requires WorldOk(w) && Integrity(w, s', files') && Integrity(w, s, files) && RereadPart(s', s)
    requires s'.recurfiles.Keys == s.recurfiles.Keys
    ensures s'.recurfiles == s.recurfiles && forall t :: t in s'.triggers <==> t in s.triggers
    ensures forall t :: t in s.triggers ==> ToTheSecond(s.triggers[t].run, s'.triggers[t].run)
    ensures forall a :: a in s'.actions <==> a in s.actions
    ensures forall a :: a in s.actions ==> ToTheSecond(s.actions[a].run, s'.actions[a].run)
  {
    forall t | t in s.triggers
      ensures t in s'.triggers && ToTheSecond(s.triggers[t].run, s'.triggers[t].run)
    {
      TriggerIsThere(w, s', files', s, files, t);
      RereadIsToTheSecond(s.triggers[t].run);
    }
    forall a | a in s.actions
      ensures a in s'.actions && ToTheSecond(s.actions[a].run, s'.actions[a].run)
    {
      ActionIsThere(w, s', files', s, files, a);
      RereadIsToTheSecond(s.actions[a].run);
    }
  }

  /** Saving any registry, registering the same files again in an empty one, in the order the
      recurfiles happen to be listed, and restoring: the new registry is saved the same way, and
      the engine has to run the same triggers. */
  lemma SaveAndRestart(w: World, s: RegistryState, files: iset<File>, load: Loader,
                       order: seq<string>, state: seq<RecurfileState>, priors: seq<Option<string>>,
                       supported: Daemons.Support)
    requires WorldOk(w) && Integrity(w, s, files) && Unchanging(w, load, files)
    requires IsSnapshot(s, order, state) && Loadable(w, load, state, priors)
    ensures Integrity(w, LoadAll(w, load, state, priors), FilesLoaded(w, load, state))
    ensures IsSnapshot(LoadAll(w, load, state, priors), order, state)
    ensures Daemons.Expected(LoadAll(w, load, state, priors), supported) == Daemons.Expected(s, supported)
    ensures var s' := LoadAll(w, load, state, priors);
            && s'.recurfiles == s.recurfiles
            && (forall t :: t in s'.triggers <==> t in s.triggers)
            && (forall t :: t in s.triggers ==> ToTheSecond(s.triggers[t].run, s'.triggers[t].run))
            && (forall a :: a in s'.actions <==> a in s.actions)
            && (forall a :: a in s.actions ==> ToTheSecond(s.actions[a].run, s'.actions[a].run))
  {
    LoadingKeepsIntegrity(w, load, state, priors);
    Reloaded(w, s, files, load, order, state, priors);
    var s', files' := LoadAll(w, load, state, priors), FilesLoaded(w, load, state);
    SameTriggers(w, s', files', s, files, supported);
    RestartedRuns(w, s', files', s, files);
    SameSnapshots(w, s', files', s, order, state);
  }

  // ------------------------------------------------------------ what a state file says

  /** What is written for one trigger or action: a time in whole seconds. */
  predicate Written(x: EntityState, id: string, run: Runtime) {
    && x.id == id && x.status == run.status && x.errorCount == run.errorCount
    && (x.last.None? <==> run.last.None?)
    && (x.last.Some? ==> x.last.value * 1_000_000_000 <= run.last.value < (x.last.value + 1) * 1_000_000_000)
  }

  lemma {:induction false} StatesAre<T>(m: map<string, Running<T>>, ids: seq<string>)
    requires forall i :: 0 <= i < |ids| ==> ids[i] in m
    ensures |StatesOf(m, ids)| == |ids|
    ensures forall i :: 0 <= i < |ids| ==> Written(StatesOf(m, ids)[i], ids[i], m[ids[i]].run)
  {
    if ids != [] {
      StatesAre(m, ids[..|ids| - 1]);
    }
  }

  /** The entry of a recurfile in a state file: its path, and the state of each of its triggers
      and actions and of no others. */
  lemma EntryIsComplete(w: World, s: RegistryState, files: iset<File>, order: seq<string>, state: seq<RecurfileState>,
                        i: nat)
    requires WorldOk(w) && Integrity(w, s, files) && IsSnapshot(s, order, state) && i < |state|
    ensures var r := state[i].id;
            && r in s.recurfiles && state[i].filePath == s.recurfiles[r].filePath
            && (forall x :: x in state[i].triggers ==>
                  OwnedTrigger(s, x.id, r) && Written(x, x.id, s.triggers[x.id].run))
            && (forall t :: OwnedTrigger(s, t, r) ==> exists x :: x in state[i].triggers && x.id == t)
            && (forall x :: x in state[i].actions ==>
                  OwnedAction(s, x.id, r) && Written(x, x.id, s.actions[x.id].run))
            && (forall a :: OwnedAction(s, a, r) ==> exists x :: x in state[i].actions && x.id == a)
  {
    TriggersWritten(w, s, files, order[i]);
    ActionsWritten(w, s, files, order[i]);
  }

  lemma TriggersWritten(w: World, s: RegistryState, files: iset<File>, r: string)
    requires WorldOk(w) && Integrity(w, s, files) && r in s.recurfiles
    ensures forall x :: x in SnapshotOf(s, r).triggers ==>
              OwnedTrigger(s, x.id, r) && Written(x, x.id, s.triggers[x.id].run)
    ensures forall t :: OwnedTrigger(s, t, r) ==> exists x :: x in SnapshotOf(s, r).triggers && x.id == t
  {
    var ids := TriggerList(s, s.recurfiles[r].groups);
    ListedIsOwned(w, s, files, r);
    assert forall t :: t in ids <==> t in Elements(ids);
    forall i | 0 <= i < |ids|
      ensures ids[i] in s.triggers && OwnedTrigger(s, ids[i], r)
    {
      assert ids[i] in ids;
    }
    StatesAre(s.triggers, ids);
    ListedStates(SnapshotOf(s, r).triggers, ids);
    forall t | OwnedTrigger(s, t, r)
      ensures exists x :: x in SnapshotOf(s, r).triggers && x.id == t
    {
      assert t in OwnedTriggers(s, r);
    }
  }

  lemma ListedStates(states: seq<EntityState>, ids: seq<string>)
    requires |states| == |ids| && forall i :: 0 <= i < |ids| ==> states[i].id == ids[i]
    ensures forall id :: id in ids ==> exists x :: x in states && x.id == id
    ensures forall x :: x in states ==> exists i :: 0 <= i < |ids| && states[i] == x && x.id == ids[i]
  {
    forall id | id in ids
      ensures exists x :: x in states && x.id == id
    {
      var i :| 0 <= i < |ids| && ids[i] == id;
      assert states[i] in states;
    }
  }

  lemma ActionsWritten(w: World, s: RegistryState, files: iset<File>, r: string)
    requires WorldOk(w) && Integrity(w, s, files) && r in s.recurfiles
    ensures forall x :: x in SnapshotOf(s, r).actions ==>
              OwnedAction(s, x.id, r) && Written(x, x.id, s.actions[x.id].run)
    ensures forall a :: OwnedAction(s, a, r) ==> exists x :: x in SnapshotOf(s, r).actions && x.id == a
  {
    var ids := ActionList(s, s.recurfiles[r].groups);
    forall i | 0 <= i < |ids|
      ensures ids[i] in s.actions && OwnedAction(s, ids[i], r)
    {
      ListedActionIsOwned(w, s, files, r, ids[i]);
    }
    StatesAre(s.actions, ids);
    ListedStates(SnapshotOf(s, r).actions, ids);
    forall a | OwnedAction(s, a, r)
      ensures exists x :: x in SnapshotOf(s, r).actions && x.id == a
    {
      OwnActionIsListed(w, s, files, a);
    }
  }

  lemma ListedActionIsOwned(w: World, s: RegistryState, files: iset<File>, r: string, a: string)
    requires WorldOk(w) && Integrity(w, s, files) && r in s.recurfiles
    requires a in ActionList(s, s.recurfiles[r].groups)
    ensures OwnedAction(s, a, r)
  {
    BackPointersAgree(w, s, files);
    ActionListMembers(s, s.recurfiles[r].groups, a);
  }
}
