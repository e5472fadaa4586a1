/** The operations of src/app/recurd/daemon/registry.go on the registry value, and what they
    keep: registration and reload, deregistration, lookups by identifier, status changes. */
module RegistryOps {
  import opened Options
  import opened EntityIndexes
  import opened Entities
  import opened RegistryStates
  import ErrorThresholds

  // --------------------------------------------------------------- deregistration

  ghost function FilesBut(hash: Hash, files: iset<File>, r: string): iset<File> {
    iset f | f in files && FileID(hash, f) != r
  }

  lemma OwnerGoneHolds(s: RegistryState, r: string, s': RegistryState, e: Entity)
    requires KeyedByID(s) && OwnerGone(s, r, s')
    ensures Holds(s', e) <==> Holds(s, e) && e.Owner() != r
  {
  }

  lemma PartOfRest(hash: Hash, files: iset<File>, r: string, e: Entity)
    ensures PartOf(hash, FilesBut(hash, files, r), e) <==> PartOf(hash, files, e) && e.Owner() != r
  {
    if PartOf(hash, files, e) && e.Owner() != r {
      var f, c :| f in files && In(f, c) && EntityAt(hash, f, c) == e;
      assert f in FilesBut(hash, files, r);
    }
    if PartOf(hash, FilesBut(hash, files, r), e) {
      var f, c :| f in FilesBut(hash, files, r) && In(f, c) && EntityAt(hash, f, c) == e;
      assert f in files;
    }
  }

  lemma DeregisterKeepsIntegrity(w: World, s: RegistryState, files: iset<File>, r: string)
    requires WorldOk(w) && Integrity(w, s, files) && r in s.recurfiles
    ensures Integrity(w, Deregistered(s, s.recurfiles[r]), FilesBut(w.hash, files, r))
    ensures OwnerGone(s, r, Deregistered(s, s.recurfiles[r]))
  {
    BackPointersAgree(w, s, files);
    DeregisteredIs(s, r);
    var s' := Deregistered(s, s.recurfiles[r]);
    forall e
      ensures Holds(s', e) <==> PartOf(w.hash, FilesBut(w.hash, files, r), e)
    {
      OwnerGoneHolds(s, r, s', e);
      PartOfRest(w.hash, files, r, e);
    }
  }

  function OwnedTriggers(s: RegistryState, r: string): set<string> {
    set t | t in s.triggers && s.triggers[t].entity.recurfileID == r
  }

  /** The triggers that the groups with these IDs list. */
  function TriggerList(s: RegistryState, gids: seq<string>): seq<string> {
    if gids == [] then []
    else
      var last := gids[|gids| - 1];
      TriggerList(s, gids[..|gids| - 1]) + (if last in s.groups then s.groups[last].triggerIDs else [])
  }

  lemma {:induction false} TriggerListMembers(s: RegistryState, gids: seq<string>, t: string)
    requires TriggersLinked(s)
    ensures t in TriggerList(s, gids) <==> t in s.triggers && s.triggers[t].entity.groupID in gids
  {
    if gids != [] {
      var init, last := gids[..|gids| - 1], gids[|gids| - 1];
      TriggerListMembers(s, init, t);
      assert gids == init + [last];
    }
  }

  /** Following the lists of a recurfile finds the triggers that point back to it. */
  lemma ListedIsOwned(w: World, s: RegistryState, files: iset<File>, r: string)
    requires WorldOk(w) && Integrity(w, s, files) && r in s.recurfiles
    ensures Elements(TriggerList(s, s.recurfiles[r].groups)) == OwnedTriggers(s, r)
  {
    BackPointersAgree(w, s, files);
    forall t
      ensures t in TriggerList(s, s.recurfiles[r].groups) <==> t in OwnedTriggers(s, r)
    {
      TriggerListMembers(s, s.recurfiles[r].groups, t);
    }
  }

  function ActionList(s: RegistryState, gids: seq<string>): seq<string> {
    if gids == [] then []
    else
      var last := gids[|gids| - 1];
      ActionList(s, gids[..|gids| - 1]) + (if last in s.groups then s.groups[last].actionIDs else [])
  }

  lemma {:induction false} ActionListMembers(s: RegistryState, gids: seq<string>, a: string)
    requires ActionsLinked(s)
    ensures a in ActionList(s, gids) <==> a in s.actions && s.actions[a].entity.groupID in gids
  {
    if gids != [] {
      var init, last := gids[..|gids| - 1], gids[|gids| - 1];
      ActionListMembers(s, init, a);
      assert gids == init + [last];
    }
  }

  /** Nothing happens for an identifier that finds no recurfile. */
  function TriggersOf(s: RegistryState, r: Option<string>): set<string> {
    if r.Some? && r.value in s.recurfiles then OwnedTriggers(s, r.value) else {}
  }

  function Without(s: RegistryState, r: Option<string>): RegistryState {
    if r.Some? && r.value in s.recurfiles then Deregistered(s, s.recurfiles[r.value]) else s
  }

  // ----------------------------------------------------------------- registration

  /** The search for a registered recurfile that is the same physical file. */
  ghost predicate Finds(w: World, s: RegistryState, path: string, prior: Option<string>) {
    match prior
    case None => forall r :: r in s.recurfiles ==> !w.sameFile(s.recurfiles[r].filePath, path)
    case Some(r) => r in s.recurfiles && w.sameFile(s.recurfiles[r].filePath, path)
  }

  predicate Known(s: RegistryState, r: Option<string>) {
    r.Some? ==> r.value in s.recurfiles
  }

  /** The registry once a previous registration of the file is gone. */
  function Cleared(s: RegistryState, prior: Option<string>): RegistryState
    requires Known(s, prior)
  {
    if prior.Some? then Deregistered(s, s.recurfiles[prior.value]) else s
  }

  function Registered(hash: Hash, s: RegistryState, f: File, prior: Option<string>): RegistryState
    requires Known(s, prior)
  {
    CoordsAre(f);
    InsertAll(hash, Cleared(s, prior), f, Coords(f))
  }

  /** Insertion starts every new trigger and action afresh and leaves the stored ones alone. */
  lemma {:induction false} InsertedOnTop(hash: Hash, s: RegistryState, f: File, cs: seq<Coord>, id: string)
    requires Room(hash, s, f, cs) && Indexed(s)
    ensures StoredOrNew(hash, s, f, InsertAll(hash, s, f, cs), id)
  {
    if cs != [] {
      var n := |cs| - 1;
      RoomForLast(hash, s, f, cs);
      InsertedOnTop(hash, s, f, cs[..n], id);
      NotHeld(InsertAll(hash, s, f, cs[..n]), ID(hash, f, cs[n]));
      OneMoreOnTop(hash, s, f, InsertAll(hash, s, f, cs[..n]), EntityAt(hash, f, cs[n]), id);
    }
  }

  lemma RoomForLast(hash: Hash, s: RegistryState, f: File, cs: seq<Coord>)
    requires Room(hash, s, f, cs) && Indexed(s) && cs != []
    ensures var n := |cs| - 1;
            && Room(hash, s, f, cs[..n]) && Indexed(InsertAll(hash, s, f, cs[..n]))
            && Unused(InsertAll(hash, s, f, cs[..n]).live, ID(hash, f, cs[n]))
  {
    var n := |cs| - 1;
    assert cs == cs[..n] + [cs[n]];
    RoomSplits(hash, s, f, cs[..n], [cs[n]]);
    InsertAllKeepsIndexed(hash, s, f, cs[..n]);
    assert [cs[n]][0] == cs[n];
  }

  predicate StoredOrNew(hash: Hash, s: RegistryState, f: File, s': RegistryState, id: string) {
    && (id in s.triggers ==> id in s'.triggers && s'.triggers[id] == s.triggers[id])
    && (id in s.actions ==> id in s'.actions && s'.actions[id] == s.actions[id])
    && (id in s'.triggers && id !in s.triggers ==>
          s'.triggers[id].entity.recurfileID == FileID(hash, f) && s'.triggers[id].run == FRESH)
    && (id in s'.actions && id !in s.actions ==>
          s'.actions[id].entity.recurfileID == FileID(hash, f) && s'.actions[id].run == FRESH)
  }

  lemma OneMoreOnTop(hash: Hash, s: RegistryState, f: File, s': RegistryState, e: Entity, id: string)
    requires StoredOrNew(hash, s, f, s', id) && e.Owner() == FileID(hash, f)
    requires e.Id() !in s'.triggers && e.Id() !in s'.actions
    ensures StoredOrNew(hash, s, f, Insert(s', e), id)
  {
  }

  ghost function FilesAfter(w: World, files: iset<File>, f: File): iset<File> {
    (iset g | g in files && !w.sameFile(g.path, f.path)) + iset{f}
  }

  ghost predicate Apart(w: World, files: iset<File>, f: File) {
    forall g :: g in files ==> !w.sameFile(g.path, f.path)
  }

  /** Clearing removes the one registered file that is the same as the new one. */
  lemma ClearedIsApart(w: World, s: RegistryState, files: iset<File>, f: File, prior: Option<string>)
    requires WorldOk(w) && Integrity(w, s, files) && f in w.files && Finds(w, s, f.path, prior)
    ensures var rest := iset g | g in files && !w.sameFile(g.path, f.path);
            Integrity(w, Cleared(s, prior), rest) && Apart(w, rest, f)
  {
    var rest := iset g | g in files && !w.sameFile(g.path, f.path);
    match prior {
      case None =>
        forall g | g in files
          ensures !w.sameFile(g.path, f.path)
        {
          Stored(w, s, files, g, AtFile);
        }
        assert rest == files;
      case Some(r) =>
        var g, c := Source(w, s, files, OfRecurfile(s.recurfiles[r]));
        DeregisterKeepsIntegrity(w, s, files, r);
        forall h | h in files
          ensures h in rest <==> FileID(w.hash, h) != r
        {
          if FileID(w.hash, h) == r {
            SameEntity(w, s, files, g, AtFile, h, AtFile);
          }
        }
        assert rest == FilesBut(w.hash, files, r);
    }
  }

  lemma RefIsOfPart(w: World, s: RegistryState, files: iset<File>, x: EntityRef) returns (f: File, c: Coord)
    requires Integrity(w, s, files) && x in s.live
    ensures f in files && In(f, c) && ID(w.hash, f, c) == x.id
  {
    assert Refers(s, x);
    match x.kind {
      case RecurfileKind => f, c := Source(w, s, files, OfRecurfile(s.recurfiles[x.id]));
      case GroupKind => f, c := Source(w, s, files, OfGroup(s.groups[x.id]));
      case TriggerKind => f, c := Source(w, s, files, OfTrigger(s.triggers[x.id].entity));
      case ActionKind => f, c := Source(w, s, files, OfAction(s.actions[x.id].entity));
    }
  }

  lemma FileHasRoom(w: World, s: RegistryState, files: iset<File>, f: File)
    requires WorldOk(w) && Integrity(w, s, files) && f in w.files && Apart(w, files, f)
    ensures Room(w.hash, s, f, Coords(f))
  {
    CoordsAre(f);
    var cs := Coords(f);
    assert AllIn(f, cs);
    forall i | 0 <= i < |cs|
      ensures Unused(s.live, ID(w.hash, f, cs[i]))
    {
      forall x | x in s.live
        ensures x.id != ID(w.hash, f, cs[i])
      {
        var g, d := RefIsOfPart(w, s, files, x);
        if x.id == ID(w.hash, f, cs[i]) {
          IDIdentifies(w.hash, w.files, f, cs[i], g, d);
        }
      }
    }
    forall i, j | 0 <= i < j < |cs|
      ensures ID(w.hash, f, cs[i]) != ID(w.hash, f, cs[j])
    {
      if ID(w.hash, f, cs[i]) == ID(w.hash, f, cs[j]) {
        IDIdentifies(w.hash, w.files, f, cs[i], f, cs[j]);
      }
    }
  }

  lemma OtherOwner(w: World, s: RegistryState, files: iset<File>, f: File, id: string)
    requires WorldOk(w) && Integrity(w, s, files) && f in w.files && Apart(w, files, f) && id in s.triggers
    ensures s.triggers[id].entity.recurfileID != FileID(w.hash, f)
  {
    var g, c := Source(w, s, files, OfTrigger(s.triggers[id].entity));
    if FileID(w.hash, g) == FileID(w.hash, f) {
      IDIdentifies(w.hash, w.files, f, AtFile, g, AtFile);
    }
  }

  lemma OtherActionOwner(w: World, s: RegistryState, files: iset<File>, f: File, id: string)
    requires WorldOk(w) && Integrity(w, s, files) && f in w.files && Apart(w, files, f) && id in s.actions
    ensures s.actions[id].entity.recurfileID != FileID(w.hash, f)
  {
    var g, c := Source(w, s, files, OfAction(s.actions[id].entity));
    if FileID(w.hash, g) == FileID(w.hash, f) {
      IDIdentifies(w.hash, w.files, f, AtFile, g, AtFile);
    }
  }

  lemma InsertedParts(w: World, files: iset<File>, f: File, e: Entity)
    requires AllIn(f, Coords(f))
    ensures PartOf(w.hash, files + iset{f}, e) <==> PartOf(w.hash, files, e) || Among(w.hash, f, Coords(f), e)
  {
    AmongIsPartOf(w.hash, f, e);
    if PartOf(w.hash, files, e) {
      var g, c :| g in files && In(g, c) && EntityAt(w.hash, g, c) == e;
      assert g in files + iset{f};
    }
    if PartOf(w.hash, iset{f}, e) {
      assert f in files + iset{f};
    }
    if PartOf(w.hash, files + iset{f}, e) {
      var g, c :| g in files + iset{f} && In(g, c) && EntityAt(w.hash, g, c) == e;
      assert g in files || g in iset{f};
    }
  }

  lemma AmongIsPartOf(hash: Hash, f: File, e: Entity)
    requires AllIn(f, Coords(f))
    ensures Among(hash, f, Coords(f), e) <==> PartOf(hash, iset{f}, e)
  {
    CoordsAre(f);
    if PartOf(hash, iset{f}, e) {
      var g, c :| g in iset{f} && In(g, c) && EntityAt(hash, g, c) == e;
      assert c in Coords(f);
    }
    if Among(hash, f, Coords(f), e) {
      assert f in iset{f};
    }
  }

  /** Registering keeps the invariant: a reload replaces the previous registration of the same
      physical file, and all other files keep their entities. */
  lemma RegisterKeepsIntegrity(w: World, s: RegistryState, files: iset<File>, f: File, prior: Option<string>)
    requires WorldOk(w) && Integrity(w, s, files) && f in w.files && Finds(w, s, f.path, prior)
    ensures Integrity(w, Registered(w.hash, s, f, prior), FilesAfter(w, files, f))
  {
    var rest := iset g | g in files && !w.sameFile(g.path, f.path);
    var base := Cleared(s, prior);
    ClearedIsApart(w, s, files, f, prior);
    FileHasRoom(w, base, rest, f);
    InsertAllKeepsIndexed(w.hash, base, f, Coords(f));
    forall e
      ensures Holds(Registered(w.hash, s, f, prior), e) <==> PartOf(w.hash, FilesAfter(w, files, f), e)
    {
      InsertedParts(w, rest, f, e);
    }
    Disjoint(w, rest, f);
  }

  lemma Disjoint(w: World, rest: iset<File>, f: File)
    requires WorldOk(w) && Apart(w, rest, f)
    requires forall g, h :: g in rest && h in rest && w.sameFile(g.path, h.path) ==> g == h
    ensures forall g, h :: g in rest + iset{f} && h in rest + iset{f} && w.sameFile(g.path, h.path) ==> g == h
  {
  }

  // ------------------------------------------------------- the actions of a trigger

  function OwnActions(s: RegistryState, tid: string, ids: seq<string>): seq<Running<Action>> {
    if ids == [] then []
    else
      var last := ids[|ids| - 1];
      OwnActions(s, tid, ids[..|ids| - 1])
      + (if last in s.actions && s.actions[last].entity.triggerID == tid then [s.actions[last]] else [])
  }

  function ActionsOf(s: RegistryState, tid: string): seq<Running<Action>> {
    if tid !in s.triggers then []
    else
      var gid := s.triggers[tid].entity.groupID;
      if gid !in s.groups then [] else OwnActions(s, tid, s.groups[gid].actionIDs)
  }

  lemma {:induction false} OwnActionsAppend(s: RegistryState, tid: string, xs: seq<string>, ys: seq<string>)
    ensures OwnActions(s, tid, xs + ys) == OwnActions(s, tid, xs) + OwnActions(s, tid, ys)
  {
    if ys == [] {
      assert xs + ys == xs;
    } else {
      OwnActionsAppend(s, tid, xs, ys[..|ys| - 1]);
      assert (xs + ys)[..|xs + ys| - 1] == xs + ys[..|ys| - 1];
    }
  }

  /** The stored actions with these IDs all point to the trigger, or none does. */
  predicate PointTo(s: RegistryState, tid: string, ids: seq<string>, yes: bool) {
    forall i :: 0 <= i < |ids| ==> ids[i] in s.actions && (s.actions[ids[i]].entity.triggerID == tid) == yes
  }

  function StoredActions(s: RegistryState, ids: seq<string>): (r: seq<Running<Action>>)
    requires forall i :: 0 <= i < |ids| ==> ids[i] in s.actions
    ensures |r| == |ids| && forall i :: 0 <= i < |r| ==> r[i] == s.actions[ids[i]]
  {
    seq(|ids|, i requires 0 <= i < |ids| => s.actions[ids[i]])
  }

  lemma {:induction false} OwnActionsOfOneTrigger(s: RegistryState, tid: string, ids: seq<string>, yes: bool)
    requires PointTo(s, tid, ids, yes)
    ensures OwnActions(s, tid, ids) == if yes then StoredActions(s, ids) else []
  {
    if ids != [] {
      OwnActionsOfOneTrigger(s, tid, ids[..|ids| - 1], yes);
    }
  }

  lemma ActionsPointTo(w: World, s: RegistryState, files: iset<File>, f: File, g: nat, t: nat, u: nat)
    requires WorldOk(w) && Integrity(w, s, files) && f in files && In(f, AtTrigger(g, t)) && In(f, AtTrigger(g, u))
    ensures PointTo(s, ID(w.hash, f, AtTrigger(g, t)), ActionIDs(w.hash, f, g, u), u == t)
  {
    var ids := ActionIDs(w.hash, f, g, u);
    forall a | 0 <= a < |ids|
      ensures ids[a] in s.actions && s.actions[ids[a]].entity.triggerID == ID(w.hash, f, AtTrigger(g, u))
    {
      Stored(w, s, files, f, AtAction(g, u, a));
    }
    TriggersDiffer(w, f, g, t, u);
  }

  lemma TriggersDiffer(w: World, f: File, g: nat, t: nat, u: nat)
    requires WorldOk(w) && f in w.files && In(f, AtTrigger(g, t)) && In(f, AtTrigger(g, u))
    ensures ID(w.hash, f, AtTrigger(g, t)) == ID(w.hash, f, AtTrigger(g, u)) ==> t == u
  {
    if ID(w.hash, f, AtTrigger(g, t)) == ID(w.hash, f, AtTrigger(g, u)) {
      IDIdentifies(w.hash, w.files, f, AtTrigger(g, t), f, AtTrigger(g, u));
    }
  }

  function Concat(lists: seq<seq<string>>, n: nat): seq<string>
    requires n <= |lists|
  {
    if n == 0 then [] else Concat(lists, n - 1) + lists[n - 1]
  }

  lemma {:induction false} OwnActionsOfLists(s: RegistryState, tid: string, lists: seq<seq<string>>, t: nat, n: nat)
    requires t < |lists| && n <= |lists| && PointTo(s, tid, lists[t], true)
    requires forall u :: 0 <= u < |lists| ==> PointTo(s, tid, lists[u], u == t)
    ensures OwnActions(s, tid, Concat(lists, n)) == if t < n then StoredActions(s, lists[t]) else []
  {
    if n > 0 {
      OwnActionsOfLists(s, tid, lists, t, n - 1);
      var below := OwnActions(s, tid, Concat(lists, n - 1));
      OneMoreList(s, tid, Concat(lists, n - 1), lists[n - 1], n - 1 == t);
      assert below + [] == below;
      assert n - 1 == t ==> below == [];
    }
  }

  lemma OneMoreList(s: RegistryState, tid: string, below: seq<string>, ids: seq<string>, yes: bool)
    requires PointTo(s, tid, ids, yes)
    ensures OwnActions(s, tid, below + ids) == OwnActions(s, tid, below) + (if yes then StoredActions(s, ids) else [])
  {
    OwnActionsAppend(s, tid, below, ids);
    OwnActionsOfOneTrigger(s, tid, ids, yes);
  }

  /** The action IDs of a group, trigger by trigger. */
  function ActionLists(hash: Hash, f: File, g: nat): (r: seq<seq<string>>)
    requires g < |f.groups|
    ensures |r| == |f.groups[g].triggers| && forall t :: 0 <= t < |r| ==> r[t] == ActionIDs(hash, f, g, t)
  {
    seq(|f.groups[g].triggers|, t requires 0 <= t < |f.groups[g].triggers| => ActionIDs(hash, f, g, t))
  }

  lemma {:induction false} GroupActionsAreLists(hash: Hash, f: File, g: nat, n: nat)
    requires g < |f.groups| && n <= |f.groups[g].triggers|
    ensures GroupActionIDs(hash, f, g, n) == Concat(ActionLists(hash, f, g), n)
  {
    if n > 0 {
      GroupActionsAreLists(hash, f, g, n - 1);
    }
  }

  lemma ActionsAreStored(w: World, s: RegistryState, files: iset<File>, f: File, g: nat, t: nat)
    requires WorldOk(w) && Integrity(w, s, files) && f in files && In(f, AtTrigger(g, t))
    requires PointTo(s, ID(w.hash, f, AtTrigger(g, t)), ActionIDs(w.hash, f, g, t), true)
    ensures ActionsOf(s, ID(w.hash, f, AtTrigger(g, t))) == StoredActions(s, ActionIDs(w.hash, f, g, t))
  {
    Stored(w, s, files, f, AtTrigger(g, t));
    Stored(w, s, files, f, AtGroup(g));
    var tid, lists := ID(w.hash, f, AtTrigger(g, t)), ActionLists(w.hash, f, g);
    forall u | 0 <= u < |lists|
      ensures PointTo(s, tid, lists[u], u == t)
    {
      ActionsPointTo(w, s, files, f, g, t, u);
    }
    GroupActionsAreLists(w.hash, f, g, |lists|);
    OwnActionsOfLists(s, tid, lists, t, |lists|);
  }

  /** The actions found for a trigger are the ones its file declares under it, in the order
      of declaration. */
  lemma ActionsInDeclarationOrder(w: World, s: RegistryState, files: iset<File>, f: File, g: nat, t: nat)
    requires WorldOk(w) && Integrity(w, s, files) && f in files && In(f, AtTrigger(g, t))
    ensures var r := ActionsOf(s, ID(w.hash, f, AtTrigger(g, t)));
            && |r| == |f.groups[g].triggers[t].actions|
            && forall a: nat :: a < |r| ==> r[a].entity == ActionAt(w.hash, f, g, t, a)
  {
    ActionsPointTo(w, s, files, f, g, t, t);
    ActionsAreStored(w, s, files, f, g, t);
    forall a: nat | a < |f.groups[g].triggers[t].actions|
      ensures s.actions[ActionIDs(w.hash, f, g, t)[a]].entity == ActionAt(w.hash, f, g, t, a)
    {
      Stored(w, s, files, f, AtAction(g, t, a));
    }
  }

  // --------------------------------------------------------- the order of the lists

  /** How many triggers the first `g` groups of a file have. */
  function TriggersBefore(f: File, g: nat): nat
    requires g <= |f.groups|
  {
    if g == 0 then 0 else TriggersBefore(f, g - 1) + |f.groups[g - 1].triggers|
  }

  ghost predicate AtPlace(hash: Hash, f: File, ids: seq<string>, g: nat, t: nat)
    requires In(f, AtTrigger(g, t))
  {
    TriggersBefore(f, g) + t < |ids| && ids[TriggersBefore(f, g) + t] == ID(hash, f, AtTrigger(g, t))
  }

  /** The list has one entry for each trigger of the first `n` groups, at the right place. */
  ghost predicate InFileOrder(hash: Hash, f: File, n: nat, ids: seq<string>)
    requires n <= |f.groups|
  {
    && |ids| == TriggersBefore(f, n)
    && forall g: nat, t: nat :: g < n && In(f, AtTrigger(g, t)) ==> AtPlace(hash, f, ids, g, t)
  }

  lemma OneMoreGroup(hash: Hash, f: File, n: nat, ids: seq<string>)
    requires n < |f.groups| && InFileOrder(hash, f, n, ids)
    ensures InFileOrder(hash, f, n + 1, ids + TriggerIDs(hash, f, n, |f.groups[n].triggers|))
  {
    var own := TriggerIDs(hash, f, n, |f.groups[n].triggers|);
    forall g: nat, t: nat | g < n + 1 && In(f, AtTrigger(g, t))
      ensures AtPlace(hash, f, ids + own, g, t)
    {
      if g < n {
        assert AtPlace(hash, f, ids, g, t);
      } else {
        assert (ids + own)[|ids| + t] == own[t];
      }
    }
  }

  lemma {:induction false} FirstLists(w: World, s: RegistryState, files: iset<File>, f: File, n: nat)
    requires WorldOk(w) && Integrity(w, s, files) && f in files && n <= |f.groups|
    ensures InFileOrder(w.hash, f, n, TriggerList(s, GroupIDs(w.hash, f, n)))
  {
    if n > 0 {
      FirstLists(w, s, files, f, n - 1);
      OneMoreGroup(w.hash, f, n - 1, TriggerList(s, GroupIDs(w.hash, f, n - 1)));
      ListOfGroup(w, s, files, f, n - 1);
      assert GroupIDs(w.hash, f, n)[..n - 1] == GroupIDs(w.hash, f, n - 1);
    }
  }

  lemma ListOfGroup(w: World, s: RegistryState, files: iset<File>, f: File, g: nat)
    requires Integrity(w, s, files) && f in files && In(f, AtGroup(g))
    ensures ID(w.hash, f, AtGroup(g)) in s.groups
    ensures s.groups[ID(w.hash, f, AtGroup(g))].triggerIDs == TriggerIDs(w.hash, f, g, |f.groups[g].triggers|)
  {
    Stored(w, s, files, f, AtGroup(g));
  }

  lemma GroupsOfFile(w: World, s: RegistryState, files: iset<File>, f: File)
    requires Integrity(w, s, files) && f in files
    ensures ID(w.hash, f, AtFile) in s.recurfiles
    ensures s.recurfiles[ID(w.hash, f, AtFile)].groups == GroupIDs(w.hash, f, |f.groups|)
  {
    Stored(w, s, files, f, AtFile);
  }

  lemma PlaceInOrder(hash: Hash, f: File, ids: seq<string>, g: nat, t: nat)
    requires InFileOrder(hash, f, |f.groups|, ids) && In(f, AtTrigger(g, t))
    ensures |ids| == TriggersBefore(f, |f.groups|) && TriggersBefore(f, g) + t < |ids|
    ensures ids[TriggersBefore(f, g) + t] == ID(hash, f, AtTrigger(g, t))
  {
    assert AtPlace(hash, f, ids, g, t);
  }

  /** The triggers listed for a recurfile stand in the order of the file. */
  lemma TriggersInFileOrder(w: World, s: RegistryState, files: iset<File>, f: File, g: nat, t: nat)
    requires WorldOk(w) && Integrity(w, s, files) && f in files && In(f, AtTrigger(g, t))
    ensures ID(w.hash, f, AtFile) in s.recurfiles
    ensures var ids := TriggerList(s, s.recurfiles[ID(w.hash, f, AtFile)].groups);
            && |ids| == TriggersBefore(f, |f.groups|) && TriggersBefore(f, g) + t < |ids|
            && ids[TriggersBefore(f, g) + t] == ID(w.hash, f, AtTrigger(g, t))
  {
    GroupsOfFile(w, s, files, f);
    FirstLists(w, s, files, f, |f.groups|);
    PlaceInOrder(w.hash, f, TriggerList(s, GroupIDs(w.hash, f, |f.groups|)), g, t);
  }

  // ------------------------------------------------------------ resolving identifiers

  function OfKind(kind: Kind): EntityRef -> bool { (x: EntityRef) => x.kind == kind }

  function FirstID(refs: seq<EntityRef>): Option<string> {
    if refs == [] then None else Some(refs[0].id)
  }

  /** What looking up an identifier among the entities of one kind can give. */
  ghost predicate MayFind(lower: string -> string, live: seq<EntityRef>, identifier: string, kind: Kind,
                          found: Option<string>) {
    exists refs :: Answers(lower, live, identifier, refs) && found == FirstID(Matching(refs, OfKind(kind)))
  }

  function Candidates(live: seq<EntityRef>, identifier: string, kind: Kind): seq<EntityRef> {
    Matching(Matching(live, Prefixed(identifier)), OfKind(kind))
  }

  /** A lookup that reaches the prefix tier can give any of the candidates. */
  lemma AnyCandidate(lower: string -> string, live: seq<EntityRef>, identifier: string, kind: Kind, x: EntityRef)
    requires ByPrefix(lower, live, identifier) && x in Candidates(live, identifier, kind)
    ensures MayFind(lower, live, identifier, kind, Some(x.id))
  {
    MatchingMembers(Matching(live, Prefixed(identifier)), OfKind(kind));
    var rest := ToFront(Matching(live, Prefixed(identifier)), x);
    SamePrefixAnswer(lower, live, identifier, [x] + rest);
    HeadStaysFirst(x, rest, OfKind(kind));
    Found(lower, live, identifier, kind, [x] + rest);
  }

  lemma Found(lower: string -> string, live: seq<EntityRef>, identifier: string, kind: Kind, refs: seq<EntityRef>)
    requires Answers(lower, live, identifier, refs)
    ensures MayFind(lower, live, identifier, kind, FirstID(Matching(refs, OfKind(kind))))
  {
  }

  lemma SamePrefixAnswer(lower: string -> string, live: seq<EntityRef>, identifier: string, refs: seq<EntityRef>)
    requires ByPrefix(lower, live, identifier) && multiset(refs) == multiset(Matching(live, Prefixed(identifier)))
    ensures Answers(lower, live, identifier, refs)
  {
  }

  lemma ToFront(m: seq<EntityRef>, x: EntityRef) returns (rest: seq<EntityRef>)
    requires x in m
    ensures multiset([x] + rest) == multiset(m)
  {
    var i :| 0 <= i < |m| && m[i] == x;
    rest := m[..i] + m[i + 1..];
    assert m == m[..i] + [m[i]] + m[i + 1..];
  }

  lemma {:induction false} HeadStaysFirst(x: EntityRef, rest: seq<EntityRef>, p: EntityRef -> bool)
    requires p(x)
    ensures Matching([x] + rest, p) != [] && Matching([x] + rest, p)[0] == x
  {
    if rest != [] {
      HeadStaysFirst(x, rest[..|rest| - 1], p);
      assert ([x] + rest)[..|rest|] == [x] + rest[..|rest| - 1];
    } else {
      assert [x] + rest == [x];
      assert [x][..0] == [];
    }
  }

  /** ... and nothing but a candidate, or nothing if there is none. */
  lemma OnlyCandidates(lower: string -> string, live: seq<EntityRef>, identifier: string, kind: Kind,
                       found: Option<string>)
    requires ByPrefix(lower, live, identifier) && MayFind(lower, live, identifier, kind, found)
    ensures found.Some? ==> exists x :: x in Candidates(live, identifier, kind) && x.id == found.value
    ensures found.None? ==> Candidates(live, identifier, kind) == []
  {
    var refs :| Answers(lower, live, identifier, refs) && found == FirstID(Matching(refs, OfKind(kind)));
    var m := Matching(live, Prefixed(identifier));
    MatchingMembers(refs, OfKind(kind));
    MatchingMembers(m, OfKind(kind));
    assert forall x :: x in refs <==> x in multiset(refs);
    assert forall x :: x in m <==> x in multiset(m);
    EmptyOrNot(Matching(refs, OfKind(kind)));
    EmptyOrNot(Candidates(live, identifier, kind));
  }

  /** An identifier always finds the same entity of a kind exactly when it is not decided by a
      prefix that two entities of that kind share. */
  lemma FindIsReproducibleIff(lower: string -> string, live: seq<EntityRef>, identifier: string, kind: Kind)
    requires IDsDistinct(live)
    ensures (forall a, b ::
               MayFind(lower, live, identifier, kind, a) && MayFind(lower, live, identifier, kind, b) ==> a == b)
       <==> (ByPrefix(lower, live, identifier) ==> |Candidates(live, identifier, kind)| <= 1)
  {
    if ByPrefix(lower, live, identifier) {
      if 1 < |Candidates(live, identifier, kind)| {
        TwoOutcomes(lower, live, identifier, kind);
      } else {
        forall a, b | MayFind(lower, live, identifier, kind, a) && MayFind(lower, live, identifier, kind, b)
          ensures a == b
        {
          OneOutcome(lower, live, identifier, kind, a, b);
        }
      }
    }
  }

  lemma TwoOutcomes(lower: string -> string, live: seq<EntityRef>, identifier: string, kind: Kind)
    requires IDsDistinct(live) && ByPrefix(lower, live, identifier) && 1 < |Candidates(live, identifier, kind)|
    ensures exists a, b ::
              a != b && MayFind(lower, live, identifier, kind, a) && MayFind(lower, live, identifier, kind, b)
  {
    var cs := Candidates(live, identifier, kind);
    MatchingDistinct(live, Prefixed(identifier));
    MatchingDistinct(Matching(live, Prefixed(identifier)), OfKind(kind));
    AnyCandidate(lower, live, identifier, kind, cs[0]);
    AnyCandidate(lower, live, identifier, kind, cs[1]);
    assert Some(cs[0].id) != Some(cs[1].id);
  }

  lemma OneOutcome(lower: string -> string, live: seq<EntityRef>, identifier: string, kind: Kind, a: Option<string>,
                   b: Option<string>)
    requires ByPrefix(lower, live, identifier) && |Candidates(live, identifier, kind)| <= 1
    requires MayFind(lower, live, identifier, kind, a) && MayFind(lower, live, identifier, kind, b)
    ensures a == b
  {
    OnlyCandidates(lower, live, identifier, kind, a);
    OnlyCandidates(lower, live, identifier, kind, b);
  }

  // -------------------------------------------------------------------- status changes

  function SetTrigger(s: RegistryState, id: string, run: Runtime): RegistryState
    requires id in s.triggers
  {
    s.(triggers := s.triggers[id := s.triggers[id].(run := run)])
  }

  function SetAction(s: RegistryState, id: string, run: Runtime): RegistryState
    requires id in s.actions
  {
    s.(actions := s.actions[id := s.actions[id].(run := run)])
  }

  function TriggerStatus(s: RegistryState, id: Option<string>, status: Status): RegistryState {
    if id.Some? && id.value in s.triggers
    then SetTrigger(s, id.value, s.triggers[id.value].run.(status := status)) else s
  }

  function ActionStatus(s: RegistryState, id: Option<string>, status: Status): RegistryState {
    if id.Some? && id.value in s.actions
    then SetAction(s, id.value, s.actions[id.value].run.(status := status)) else s
  }

  function TriggerOff(t: Running<Trigger>, plugin: string): Running<Trigger> {
    if t.entity.pluginID == plugin then t.(run := t.run.(status := ErrorThresholds.Suspended)) else t
  }

  function ActionOff(a: Running<Action>, plugin: string): Running<Action> {
    if a.entity.pluginID == plugin then a.(run := a.run.(status := ErrorThresholds.Suspended)) else a
  }

  /** Suspending everything that depends on a plugin. */
  function PluginSuspended(s: RegistryState, plugin: string): RegistryState {
    s.(triggers := map id | id in s.triggers :: TriggerOff(s.triggers[id], plugin),
       actions := map id | id in s.actions :: ActionOff(s.actions[id], plugin))
  }

  /** The triggers that changes. */
  function NewlySuspended(s: RegistryState, plugin: string): set<string> {
    set id | id in s.triggers && TriggerOff(s.triggers[id], plugin) != s.triggers[id]
  }

  /** A trigger driver exited unexpectedly. */
  function DriverFailed(s: RegistryState, id: string): RegistryState {
    if id !in s.triggers then s
    else
      var count, run := s.triggers[id].run.errorCount + 1, s.triggers[id].run;
      SetTrigger(s, id, run.(errorCount := count,
                             status := if ThresholdReached(s, id) then ErrorThresholds.Error else run.status))
  }

  predicate ThresholdReached(s: RegistryState, id: string)
    requires id in s.triggers
  {
    0 < s.triggers[id].entity.settings.errorThreshold <= s.triggers[id].run.errorCount + 1
  }

  function Fired(s: RegistryState, id: string, now: int): RegistryState {
    if id in s.triggers && s.triggers[id].run.status.Active?
    then SetTrigger(s, id, s.triggers[id].run.(last := Some(now))) else s
  }

  function ActionView(a: Running<Action>): ErrorThresholds.ActionState {
    ErrorThresholds.ActionState(a.run.status, a.run.errorCount, a.entity.errorThreshold, a.run.last)
  }

  /** An event reaches the action: the status check of handleEvent and the execute callback. */
  function Executed(s: RegistryState, id: string, outcome: ErrorThresholds.Outcome, now: int): RegistryState {
    if id in s.actions
    then
      var after := ErrorThresholds.After(ActionView(s.actions[id]), ErrorThresholds.Fire(outcome, now));
      SetAction(s, id, Runtime(after.status, after.errorCount, after.lastExecuted))
    else s
  }

  /** The same entities, in whatever state. */
  ghost predicate SameEntities(s: RegistryState, s': RegistryState) {
    && s'.recurfiles == s.recurfiles && s'.groups == s.groups && s'.live == s.live
    && s'.triggers.Keys == s.triggers.Keys && s'.actions.Keys == s.actions.Keys
    && (forall id :: id in s.triggers ==> s'.triggers[id].entity == s.triggers[id].entity)
    && (forall id :: id in s.actions ==> s'.actions[id].entity == s.actions[id].entity)
  }

  lemma SameEntitiesKeepIntegrity(w: World, s: RegistryState, files: iset<File>, s': RegistryState)
    requires Integrity(w, s, files) && SameEntities(s, s')
    ensures Integrity(w, s', files)
  {
    assert forall e :: Holds(s', e) <==> Holds(s, e);
    assert forall x :: Refers(s', x) <==> Refers(s, x);
  }
}
