/** The registry as a value: what src/app/recurd/daemon/registry.go holds in its four maps and
    its index, the effect of each operation, and the invariant that ties it to the set of
    registered files. */
module RegistryStates {
  import opened Options
  import opened Sequences
  import opened EntityIndexes
  import opened Entities
  import ErrorThresholds

  type Status = ErrorThresholds.Status

  /** The mutable part of a trigger or action; `last` is LastFired or LastExecuted in
      nanoseconds, None for the zero time. */
  datatype Runtime = Runtime(status: Status, errorCount: int, last: Option<int>)

  const FRESH := Runtime(ErrorThresholds.Active, 0, None)

  datatype Running<T> = Running(entity: T, run: Runtime)

  datatype RegistryState = RegistryState(
    recurfiles: map<string, Recurfile>,
    groups: map<string, Group>,
    triggers: map<string, Running<Trigger>>,
    actions: map<string, Running<Action>>,
    live: seq<EntityRef>)

  const EMPTY := RegistryState(map[], map[], map[], map[], [])

  // ---------------------------------------------------------------- registration

  function Insert(s: RegistryState, e: Entity): RegistryState {
    var live := s.live + [e.Ref()];
    match e
    case OfRecurfile(r) => s.(recurfiles := s.recurfiles[r.id := r], live := live)
    case OfGroup(g) => s.(groups := s.groups[g.id := g], live := live)
    case OfTrigger(t) => s.(triggers := s.triggers[t.id := Running(t, FRESH)], live := live)
    case OfAction(a) => s.(actions := s.actions[a.id := Running(a, FRESH)], live := live)
  }

  function InsertAll(hash: Hash, s: RegistryState, f: File, cs: seq<Coord>): RegistryState
    requires AllIn(f, cs)
  {
    if cs == [] then s
    else Insert(InsertAll(hash, s, f, cs[..|cs| - 1]), EntityAt(hash, f, cs[|cs| - 1]))
  }

  predicate AllIn(f: File, cs: seq<Coord>) {
    forall i :: 0 <= i < |cs| ==> In(f, cs[i])
  }

  // ------------------------------------------------------------------- removal

  function Outside(live: seq<EntityRef>, ids: set<string>): seq<EntityRef> {
    if live == [] then []
    else
      var last := live[|live| - 1];
      Outside(live[..|live| - 1], ids) + (if last.id in ids then [] else [last])
  }

  function Elements(ids: seq<string>): set<string> {
    set id | id in ids
  }

  /** Deleting one group with the triggers and actions it lists; nothing if it is unknown. */
  function DropGroup(s: RegistryState, gid: string): RegistryState {
    if gid !in s.groups then s
    else
      var ts, acts := Elements(s.groups[gid].triggerIDs), Elements(s.groups[gid].actionIDs);
      s.(groups := s.groups - {gid}, triggers := s.triggers - ts, actions := s.actions - acts,
         live := Outside(Outside(Outside(s.live, ts), acts), {gid}))
  }

  function DropGroups(s: RegistryState, gids: seq<string>): RegistryState {
    if gids == [] then s else DropGroup(DropGroups(s, gids[..|gids| - 1]), gids[|gids| - 1])
  }

  function Deregistered(s: RegistryState, wf: Recurfile): RegistryState {
    var dropped := DropGroups(s, wf.groups);
    dropped.(recurfiles := dropped.recurfiles - {wf.id}, live := Outside(dropped.live, {wf.id}))
  }

  // -------------------------------------------------------------- what is stored

  /** The registry stores the entity under its ID. */
  predicate Holds(s: RegistryState, e: Entity) {
    match e
    case OfRecurfile(r) => r.id in s.recurfiles && s.recurfiles[r.id] == r
    case OfGroup(g) => g.id in s.groups && s.groups[g.id] == g
    case OfTrigger(t) => t.id in s.triggers && s.triggers[t.id].entity == t
    case OfAction(a) => a.id in s.actions && s.actions[a.id].entity == a
  }

  /** The ref is what the index should store for some entity of the registry. */
  predicate Refers(s: RegistryState, x: EntityRef) {
    match x.kind
    case RecurfileKind => x.id in s.recurfiles && OfRecurfile(s.recurfiles[x.id]).Ref() == x
    case GroupKind => x.id in s.groups && OfGroup(s.groups[x.id]).Ref() == x
    case TriggerKind => x.id in s.triggers && OfTrigger(s.triggers[x.id].entity).Ref() == x
    case ActionKind => x.id in s.actions && OfAction(s.actions[x.id].entity).Ref() == x
  }

  /** Every entity is stored under its own ID. */
  ghost predicate KeyedByID(s: RegistryState) {
    && (forall id :: id in s.recurfiles ==> s.recurfiles[id].id == id)
    && (forall id :: id in s.groups ==> s.groups[id].id == id)
    && (forall id :: id in s.triggers ==> s.triggers[id].entity.id == id)
    && (forall id :: id in s.actions ==> s.actions[id].entity.id == id)
  }

  /** The index holds exactly one ref per entity, with its type and display name. */
  ghost predicate Indexed(s: RegistryState) {
    && KeyedByID(s)
    && IDsDistinct(s.live)
    && forall x :: x in s.live <==> Refers(s, x)
  }

  // ---------------------------------------------------------------- the invariant

  /** What does not change while the daemon runs: the hash, which paths are the same physical
      file, and the files that are ever registered. */
  datatype World = World(hash: Hash, sameFile: (string, string) -> bool, ghost files: iset<File>)

  ghost predicate WorldOk(w: World) {
    && FixedWidth(w.hash)
    && CollisionFree(w.hash, w.files)
    && (forall f :: f in w.files ==> FileOk(f))
    && (forall p :: w.sameFile(p, p))
    && (forall p, q :: w.sameFile(p, q) ==> w.sameFile(q, p))
    && (forall p, q, r :: w.sameFile(p, q) && w.sameFile(q, r) ==> w.sameFile(p, r))
  }

  /** The entity is part of one of the files. */
  ghost predicate PartOf(hash: Hash, files: iset<File>, e: Entity) {
    exists f, c :: f in files && In(f, c) && EntityAt(hash, f, c) == e
  }

  /** The registry is the disjoint union of the entities of the registered files, no two of
      which are the same physical file, and the index agrees with it. */
  ghost predicate Integrity(w: World, s: RegistryState, files: iset<File>) {
    && files <= w.files
    && (forall f, g :: f in files && g in files && w.sameFile(f.path, g.path) ==> f == g)
    && (forall e :: Holds(s, e) <==> PartOf(w.hash, files, e))
    && Indexed(s)
  }

  // ---------------------------------------------------- inserting keeps the invariant

  lemma InsertAllSnoc(hash: Hash, s: RegistryState, f: File, cs: seq<Coord>, c: Coord)
    requires AllIn(f, cs) && In(f, c)
    ensures AllIn(f, cs + [c])
    ensures InsertAll(hash, s, f, cs + [c]) == Insert(InsertAll(hash, s, f, cs), EntityAt(hash, f, c))
  {
    assert (cs + [c])[..|cs|] == cs;
  }

  lemma {:induction false} InsertAllAppend(hash: Hash, s: RegistryState, f: File, cs: seq<Coord>, ds: seq<Coord>)
    requires AllIn(f, cs) && AllIn(f, ds)
    ensures AllIn(f, cs + ds)
    ensures InsertAll(hash, s, f, cs + ds) == InsertAll(hash, InsertAll(hash, s, f, cs), f, ds)
  {
    if ds == [] {
      assert cs + ds == cs;
    } else {
      var n := |ds| - 1;
      InsertAllAppend(hash, s, f, cs, ds[..n]);
      InsertAllSnoc(hash, s, f, cs + ds[..n], ds[n]);
      assert cs + ds == cs + ds[..n] + [ds[n]];
    }
  }

  /** No live ref has the ID. */
  ghost predicate Unused(live: seq<EntityRef>, id: string) {
    forall x :: x in live ==> x.id != id
  }

  lemma InsertKeepsIndexed(s: RegistryState, e: Entity)
    requires Indexed(s) && Unused(s.live, e.Id())
    ensures Indexed(Insert(s, e))
    ensures forall b :: Holds(Insert(s, e), b) <==> Holds(s, b) || b == e
  {
    NotHeld(s, e.Id());
    InsertHolds(s, e);
    forall x
      ensures x in Insert(s, e).live <==> Refers(Insert(s, e), x)
    {
      InsertRefers(s, e, x);
    }
  }

  lemma InsertHolds(s: RegistryState, e: Entity)
    requires e.Id() !in s.recurfiles && e.Id() !in s.groups && e.Id() !in s.triggers && e.Id() !in s.actions
    ensures forall b :: Holds(Insert(s, e), b) <==> Holds(s, b) || b == e
  {
  }

  lemma InsertRefers(s: RegistryState, e: Entity, x: EntityRef)
    requires e.Id() !in s.recurfiles && e.Id() !in s.groups && e.Id() !in s.triggers && e.Id() !in s.actions
    ensures Refers(Insert(s, e), x) <==> Refers(s, x) || x == e.Ref()
  {
  }

  lemma NotHeld(s: RegistryState, id: string)
    requires Indexed(s) && Unused(s.live, id)
    ensures id !in s.recurfiles && id !in s.groups && id !in s.triggers && id !in s.actions
  {
    if id in s.recurfiles {
      assert Refers(s, OfRecurfile(s.recurfiles[id]).Ref());
    }
    if id in s.groups {
      assert Refers(s, OfGroup(s.groups[id]).Ref());
    }
    if id in s.triggers {
      assert Refers(s, OfTrigger(s.triggers[id].entity).Ref());
    }
    if id in s.actions {
      assert Refers(s, OfAction(s.actions[id].entity).Ref());
    }
  }

  /** The IDs of the positions are new and differ from each other. */
  ghost predicate Room(hash: Hash, s: RegistryState, f: File, cs: seq<Coord>) {
    && AllIn(f, cs)
    && (forall i :: 0 <= i < |cs| ==> Unused(s.live, ID(hash, f, cs[i])))
    && (forall i, j :: 0 <= i < j < |cs| ==> ID(hash, f, cs[i]) != ID(hash, f, cs[j]))
  }

  lemma InsertLive(s: RegistryState, e: Entity)
    ensures Insert(s, e).live == s.live + [e.Ref()]
  {
  }

  lemma {:induction false} UsedAfterInsertAll(hash: Hash, s: RegistryState, f: File, cs: seq<Coord>, id: string)
    requires AllIn(f, cs)
    requires Unused(s.live, id) && forall i :: 0 <= i < |cs| ==> ID(hash, f, cs[i]) != id
    ensures Unused(InsertAll(hash, s, f, cs).live, id)
  {
    if cs != [] {
      var n := |cs| - 1;
      UsedAfterInsertAll(hash, s, f, cs[..n], id);
      InsertLive(InsertAll(hash, s, f, cs[..n]), EntityAt(hash, f, cs[n]));
    }
  }

  lemma RoomSplits(hash: Hash, s: RegistryState, f: File, cs: seq<Coord>, ds: seq<Coord>)
    requires Room(hash, s, f, cs + ds)
    ensures Room(hash, s, f, cs) && Room(hash, InsertAll(hash, s, f, cs), f, ds)
  {
    var all := cs + ds;
    assert forall i :: 0 <= i < |cs| ==> cs[i] == all[i];
    assert forall i :: 0 <= i < |ds| ==> ds[i] == all[|cs| + i];
    forall i | 0 <= i < |ds|
      ensures Unused(InsertAll(hash, s, f, cs).live, ID(hash, f, ds[i]))
    {
      assert Unused(s.live, ID(hash, f, all[|cs| + i]));
      UsedAfterInsertAll(hash, s, f, cs, ID(hash, f, ds[i]));
    }
    RoomWithin(hash, s, f, all, cs, 0);
    forall i, j | 0 <= i < j < |ds|
      ensures ID(hash, f, ds[i]) != ID(hash, f, ds[j])
    {
      assert ID(hash, f, all[|cs| + i]) != ID(hash, f, all[|cs| + j]);
    }
  }

  lemma RoomWithin(hash: Hash, s: RegistryState, f: File, all: seq<Coord>, cs: seq<Coord>, at: nat)
    requires Room(hash, s, f, all) && at + |cs| <= |all| && forall i :: 0 <= i < |cs| ==> cs[i] == all[at + i]
    ensures Room(hash, s, f, cs)
  {
  }

  lemma {:induction false} InsertAllKeepsIndexed(hash: Hash, s: RegistryState, f: File, cs: seq<Coord>)
    requires Indexed(s) && Room(hash, s, f, cs)
    ensures Indexed(InsertAll(hash, s, f, cs))
    ensures forall b :: Holds(InsertAll(hash, s, f, cs), b) <==> Holds(s, b) || Among(hash, f, cs, b)
  {
    if cs != [] {
      var n := |cs| - 1;
      var init := cs[..n];
      assert cs == init + [cs[n]];
      RoomSplits(hash, s, f, init, [cs[n]]);
      InsertAllKeepsIndexed(hash, s, f, init);
      InsertKeepsIndexed(InsertAll(hash, s, f, init), EntityAt(hash, f, cs[n]));
      forall b
        ensures Among(hash, f, cs, b) <==> Among(hash, f, init, b) || b == EntityAt(hash, f, cs[n])
      {
        AmongSnoc(hash, f, init, cs[n], b);
      }
    }
  }

  ghost predicate Among(hash: Hash, f: File, cs: seq<Coord>, b: Entity)
    requires AllIn(f, cs)
  {
    exists i :: 0 <= i < |cs| && EntityAt(hash, f, cs[i]) == b
  }

  lemma AmongSnoc(hash: Hash, f: File, cs: seq<Coord>, c: Coord, b: Entity)
    requires AllIn(f, cs) && In(f, c) && AllIn(f, cs + [c])
    ensures Among(hash, f, cs + [c], b) <==> Among(hash, f, cs, b) || b == EntityAt(hash, f, c)
  {
    var all := cs + [c];
    if Among(hash, f, cs, b) {
      var i :| 0 <= i < |cs| && EntityAt(hash, f, cs[i]) == b;
      assert all[i] == cs[i];
    }
    assert all[|cs|] == c;
  }

  // ------------------------------------------------- back-pointers and parent lists

  /** Every listed ID exists and points back, and whatever points back is listed. */
  ghost predicate Linked(s: RegistryState) {
    && GroupsLinked(s) && TriggersLinked(s) && ActionsLinked(s)
  }

  ghost predicate GroupsLinked(s: RegistryState) {
    && (forall r, g :: r in s.recurfiles ==>
          (g in s.recurfiles[r].groups <==> g in s.groups && s.groups[g].recurfileID == r))
    && (forall g :: g in s.groups ==> s.groups[g].recurfileID in s.recurfiles)
  }

  ghost predicate TriggersLinked(s: RegistryState) {
    && (forall g, t :: g in s.groups ==>
          (t in s.groups[g].triggerIDs <==> t in s.triggers && s.triggers[t].entity.groupID == g))
    && (forall t :: t in s.triggers ==>
          var tr := s.triggers[t].entity;
          tr.groupID in s.groups && tr.recurfileID == s.groups[tr.groupID].recurfileID)
  }

  ghost predicate ActionsLinked(s: RegistryState) {
    && (forall g, a :: g in s.groups ==>
          (a in s.groups[g].actionIDs <==> a in s.actions && s.actions[a].entity.groupID == g))
    && (forall a :: a in s.actions ==>
          var act := s.actions[a].entity;
          && act.groupID in s.groups && act.recurfileID == s.groups[act.groupID].recurfileID
          && act.triggerID in s.triggers && s.triggers[act.triggerID].entity.groupID == act.groupID)
  }

  lemma Stored(w: World, s: RegistryState, files: iset<File>, f: File, c: Coord)
    requires Integrity(w, s, files) && f in files && In(f, c)
    ensures Holds(s, EntityAt(w.hash, f, c))
  {
    assert PartOf(w.hash, files, EntityAt(w.hash, f, c));
  }

  /** Where a stored entity comes from. */
  lemma Source(w: World, s: RegistryState, files: iset<File>, e: Entity) returns (f: File, c: Coord)
    requires Integrity(w, s, files) && Holds(s, e)
    ensures f in files && In(f, c) && EntityAt(w.hash, f, c) == e
  {
    assert PartOf(w.hash, files, e);
    f, c :| f in files && In(f, c) && EntityAt(w.hash, f, c) == e;
  }

  lemma SameEntity(w: World, s: RegistryState, files: iset<File>, f: File, c: Coord, g: File, d: Coord)
    requires WorldOk(w) && Integrity(w, s, files) && f in files && g in files && In(f, c) && In(g, d)
    requires ID(w.hash, f, c) == ID(w.hash, g, d)
    ensures f == g && c == d
  {
    IDIdentifies(w.hash, w.files, f, c, g, d);
    assert w.sameFile(f.path, g.path);
  }

  lemma GroupsAreLinked(w: World, s: RegistryState, files: iset<File>)
    requires WorldOk(w) && Integrity(w, s, files)
    ensures GroupsLinked(s)
  {
    forall r, g | r in s.recurfiles
      ensures g in s.recurfiles[r].groups <==> g in s.groups && s.groups[g].recurfileID == r
    {
      var f, c := Source(w, s, files, OfRecurfile(s.recurfiles[r]));
      if g in s.recurfiles[r].groups {
        var i: nat :| i < |s.recurfiles[r].groups| && s.recurfiles[r].groups[i] == g;
        Stored(w, s, files, f, AtGroup(i));
      }
      if g in s.groups && s.groups[g].recurfileID == r {
        var f', d := Source(w, s, files, OfGroup(s.groups[g]));
        SameEntity(w, s, files, f, AtFile, f', AtFile);
        assert GroupIDs(w.hash, f, |f.groups|)[d.g] == g;
      }
    }
    forall g | g in s.groups
      ensures s.groups[g].recurfileID in s.recurfiles
    {
      var f, c := Source(w, s, files, OfGroup(s.groups[g]));
      Stored(w, s, files, f, AtFile);
    }
  }

  lemma TriggersAreLinked(w: World, s: RegistryState, files: iset<File>)
    requires WorldOk(w) && Integrity(w, s, files)
    ensures TriggersLinked(s)
  {
    forall g, t | g in s.groups
      ensures t in s.groups[g].triggerIDs <==> t in s.triggers && s.triggers[t].entity.groupID == g
    {
      var f, c := Source(w, s, files, OfGroup(s.groups[g]));
      if t in s.groups[g].triggerIDs {
        var i: nat :| i < |s.groups[g].triggerIDs| && s.groups[g].triggerIDs[i] == t;
        Stored(w, s, files, f, AtTrigger(c.g, i));
      }
      if t in s.triggers && s.triggers[t].entity.groupID == g {
        var f', d := Source(w, s, files, OfTrigger(s.triggers[t].entity));
        SameEntity(w, s, files, f, c, f', AtGroup(d.g));
        assert TriggerIDs(w.hash, f, c.g, |f.groups[c.g].triggers|)[d.t] == t;
      }
    }
    forall t | t in s.triggers
      ensures var tr := s.triggers[t].entity;
              tr.groupID in s.groups && tr.recurfileID == s.groups[tr.groupID].recurfileID
    {
      var f, c := Source(w, s, files, OfTrigger(s.triggers[t].entity));
      Stored(w, s, files, f, AtGroup(c.g));
    }
  }

  lemma ListedActionPointsBack(w: World, s: RegistryState, files: iset<File>, g: string, a: string)
    requires WorldOk(w) && Integrity(w, s, files) && g in s.groups && a in s.groups[g].actionIDs
    ensures a in s.actions && s.actions[a].entity.groupID == g
  {
    var f, c := Source(w, s, files, OfGroup(s.groups[g]));
    GroupActionIDsAre(w.hash, f, c.g, |f.groups[c.g].triggers|, a);
    var t: nat :| t < |f.groups[c.g].triggers| && a in ActionIDs(w.hash, f, c.g, t);
    var i: nat :| i < |ActionIDs(w.hash, f, c.g, t)| && ActionIDs(w.hash, f, c.g, t)[i] == a;
    Stored(w, s, files, f, AtAction(c.g, t, i));
  }

  lemma PointingActionIsListed(w: World, s: RegistryState, files: iset<File>, g: string, a: string)
    requires WorldOk(w) && Integrity(w, s, files) && g in s.groups
    requires a in s.actions && s.actions[a].entity.groupID == g
    ensures a in s.groups[g].actionIDs
  {
    var f, c := Source(w, s, files, OfGroup(s.groups[g]));
    var f', d := Source(w, s, files, OfAction(s.actions[a].entity));
    SameEntity(w, s, files, f, c, f', AtGroup(d.g));
    GroupActionIDsAre(w.hash, f, c.g, |f.groups[c.g].triggers|, a);
    assert ActionIDs(w.hash, f, c.g, d.t)[d.a] == a;
  }

  lemma ActionsAreLinked(w: World, s: RegistryState, files: iset<File>)
    requires WorldOk(w) && Integrity(w, s, files)
    ensures ActionsLinked(s)
  {
    forall g, a | g in s.groups
      ensures a in s.groups[g].actionIDs <==> a in s.actions && s.actions[a].entity.groupID == g
    {
      if a in s.groups[g].actionIDs {
        ListedActionPointsBack(w, s, files, g, a);
      }
      if a in s.actions && s.actions[a].entity.groupID == g {
        PointingActionIsListed(w, s, files, g, a);
      }
    }
    forall a | a in s.actions
      ensures var act := s.actions[a].entity;
              && act.groupID in s.groups && act.recurfileID == s.groups[act.groupID].recurfileID
              && act.triggerID in s.triggers && s.triggers[act.triggerID].entity.groupID == act.groupID
    {
      var f, c := Source(w, s, files, OfAction(s.actions[a].entity));
      Stored(w, s, files, f, AtGroup(c.g));
      Stored(w, s, files, f, AtTrigger(c.g, c.t));
    }
  }

  lemma GroupListDiffers(hash: Hash, f: File)
    requires FixedWidth(hash) && CollisionFree(hash, iset{f}) && FileOk(f)
    ensures Distinct(GroupIDs(hash, f, |f.groups|))
  {
    IDsDistinctIff(hash, f);
    assert forall i: nat, j: nat :: i < j < |f.groups| ==>
             AtGroup(i) != AtGroup(j) && In(f, AtGroup(i)) && In(f, AtGroup(j));
  }

  lemma TriggerListDiffers(hash: Hash, f: File, g: nat)
    requires FixedWidth(hash) && CollisionFree(hash, iset{f}) && FileOk(f) && g < |f.groups|
    ensures Distinct(TriggerIDs(hash, f, g, |f.groups[g].triggers|))
  {
    IDsDistinctIff(hash, f);
    assert forall i: nat, j: nat :: i < j < |f.groups[g].triggers|
             ==> AtTrigger(g, i) != AtTrigger(g, j) && In(f, AtTrigger(g, i)) && In(f, AtTrigger(g, j));
  }

  lemma ListsHaveDistinct(w: World, s: RegistryState, files: iset<File>)
    requires WorldOk(w) && Integrity(w, s, files)
    ensures forall r :: r in s.recurfiles ==> Distinct(s.recurfiles[r].groups)
    ensures forall g :: g in s.groups ==> Distinct(s.groups[g].triggerIDs) && Distinct(s.groups[g].actionIDs)
  {
    forall r | r in s.recurfiles
      ensures Distinct(s.recurfiles[r].groups)
    {
      var f, c := Source(w, s, files, OfRecurfile(s.recurfiles[r]));
      GroupListDiffers(w.hash, f);
    }
    forall g | g in s.groups
      ensures Distinct(s.groups[g].triggerIDs) && Distinct(s.groups[g].actionIDs)
    {
      var f, c := Source(w, s, files, OfGroup(s.groups[g]));
      TriggerListDiffers(w.hash, f, c.g);
      GroupActionIDsDiffer(w.hash, f, c.g, |f.groups[c.g].triggers|);
    }
  }

  /** In a registry that holds whole files, lists and back-pointers agree, so every entity
      stands in exactly one parent list, and there only once. */
  lemma BackPointersAgree(w: World, s: RegistryState, files: iset<File>)
    requires WorldOk(w) && Integrity(w, s, files)
    ensures Linked(s)
    ensures forall r :: r in s.recurfiles ==> Distinct(s.recurfiles[r].groups)
    ensures forall g :: g in s.groups ==> Distinct(s.groups[g].triggerIDs) && Distinct(s.groups[g].actionIDs)
  {
    ListsHaveDistinct(w, s, files);
    GroupsAreLinked(w, s, files);
    TriggersAreLinked(w, s, files);
    ActionsAreLinked(w, s, files);
  }

  // --------------------------------------------------- removing keeps the invariant

  lemma {:induction false} OutsideMembers(live: seq<EntityRef>, ids: set<string>)
    ensures forall x :: x in Outside(live, ids) <==> x in live && x.id !in ids
  {
    if live != [] {
      OutsideMembers(live[..|live| - 1], ids);
      assert live == live[..|live| - 1] + [live[|live| - 1]];
    }
  }

  lemma {:induction false} OutsideDistinct(live: seq<EntityRef>, ids: set<string>)
    requires IDsDistinct(live)
    ensures IDsDistinct(Outside(live, ids))
  {
    if live != [] {
      var init := live[..|live| - 1];
      OutsideDistinct(init, ids);
      OutsideMembers(init, ids);
      forall k | 0 <= k < |Outside(init, ids)|
        ensures Outside(init, ids)[k].id != live[|live| - 1].id
      {
        assert Outside(init, ids)[k] in init;
      }
    }
  }

  lemma {:induction false} OutsideTwice(live: seq<EntityRef>, a: set<string>, b: set<string>)
    ensures Outside(Outside(live, a), b) == Outside(live, a + b)
  {
    if live != [] {
      var init, last := live[..|live| - 1], live[|live| - 1];
      OutsideTwice(init, a, b);
      var kept := Outside(init, a);
      assert (kept + [last])[..|kept|] == kept;
      assert Outside(live, a) == if last.id in a then kept else kept + [last];
    }
  }

  /** An index removal is a one-element `Outside`. */
  lemma {:induction false} WithoutIDIsOutside(live: seq<EntityRef>, id: string)
    ensures Matching(live, WithoutID(id)) == Outside(live, {id})
  {
    if live != [] {
      WithoutIDIsOutside(live[..|live| - 1], id);
    }
  }

  /** Taking out stored entities of each kind, and every ref with one of their IDs. */
  function Minus(s: RegistryState, rs: set<string>, gs: set<string>, ts: set<string>,
                 acts: set<string>): RegistryState {
    RegistryState(s.recurfiles - rs, s.groups - gs, s.triggers - ts, s.actions - acts,
                  Outside(s.live, rs + gs + ts + acts))
  }

  lemma MinusKeepsIndexed(s: RegistryState, rs: set<string>, gs: set<string>, ts: set<string>, acts: set<string>)
    requires Indexed(s)
    requires rs <= s.recurfiles.Keys && gs <= s.groups.Keys && ts <= s.triggers.Keys && acts <= s.actions.Keys
    ensures Indexed(Minus(s, rs, gs, ts, acts))
  {
    var gone := rs + gs + ts + acts;
    OutsideMembers(s.live, gone);
    OutsideDistinct(s.live, gone);
    forall x
      ensures Refers(Minus(s, rs, gs, ts, acts), x) <==> Refers(s, x) && x.id !in gone
    {
      if Refers(s, x) {
        OneKindPerID(s, x);
      }
    }
  }

  lemma OneKindPerID(s: RegistryState, x: EntityRef)
    requires Indexed(s) && Refers(s, x)
    ensures x.id in s.recurfiles ==> x.kind.RecurfileKind?
    ensures x.id in s.groups ==> x.kind.GroupKind?
    ensures x.id in s.triggers ==> x.kind.TriggerKind?
    ensures x.id in s.actions ==> x.kind.ActionKind?
  {
    if x.id in s.recurfiles {
      SameRef(s, x, OfRecurfile(s.recurfiles[x.id]).Ref());
    }
    if x.id in s.groups {
      SameRef(s, x, OfGroup(s.groups[x.id]).Ref());
    }
    if x.id in s.triggers {
      SameRef(s, x, OfTrigger(s.triggers[x.id].entity).Ref());
    }
    if x.id in s.actions {
      SameRef(s, x, OfAction(s.actions[x.id].entity).Ref());
    }
  }

  lemma SameRef(s: RegistryState, x: EntityRef, y: EntityRef)
    requires Indexed(s) && Refers(s, x) && Refers(s, y) && x.id == y.id
    ensures x == y
  {
    assert x in s.live && y in s.live;
  }

  lemma DropGroupIsMinus(s: RegistryState, gid: string)
    requires gid in s.groups
    ensures DropGroup(s, gid)
         == Minus(s, {}, {gid}, Elements(s.groups[gid].triggerIDs), Elements(s.groups[gid].actionIDs))
  {
    var ts, acts := Elements(s.groups[gid].triggerIDs), Elements(s.groups[gid].actionIDs);
    OutsideTwice(s.live, ts, acts);
    OutsideTwice(s.live, ts + acts, {gid});
    assert ts + acts + {gid} == {} + {gid} + ts + acts;
  }

  function TriggersBut(m: map<string, Running<Trigger>>, gids: set<string>): map<string, Running<Trigger>> {
    map t | t in m && m[t].entity.groupID !in gids :: m[t]
  }

  function ActionsBut(m: map<string, Running<Action>>, gids: set<string>): map<string, Running<Action>> {
    map a | a in m && m[a].entity.groupID !in gids :: m[a]
  }

  /** Some groups are gone, and everything that pointed to them. */
  ghost predicate GroupsGone(s: RegistryState, gids: set<string>, s': RegistryState) {
    && s'.recurfiles == s.recurfiles
    && s'.groups == s.groups - gids
    && s'.triggers == TriggersBut(s.triggers, gids)
    && s'.actions == ActionsBut(s.actions, gids)
  }

  lemma {:induction false} DropGroupsAre(s: RegistryState, gids: seq<string>)
    requires Indexed(s) && Linked(s)
    ensures GroupsGone(s, Elements(gids), DropGroups(s, gids)) && Indexed(DropGroups(s, gids))
  {
    if gids == [] {
      NothingGone(s);
    } else {
      var init, gid := gids[..|gids| - 1], gids[|gids| - 1];
      DropGroupsAre(s, init);
      ElementsSnoc(init, gid);
      assert gids == init + [gid];
      DropOneMore(s, Elements(init), DropGroups(s, init), gid);
    }
  }

  lemma NothingGone(s: RegistryState)
    ensures GroupsGone(s, Elements([]), s)
  {
    assert Elements([]) == {};
    assert s.groups - {} == s.groups;
  }

  lemma ElementsSnoc(ids: seq<string>, id: string)
    ensures Elements(ids + [id]) == Elements(ids) + {id}
  {
  }

  lemma DropOneMore(s: RegistryState, gids: set<string>, s': RegistryState, gid: string)
    requires GroupsLinked(s) && TriggersLinked(s) && ActionsLinked(s) && Indexed(s') && GroupsGone(s, gids, s')
    ensures GroupsGone(s, gids + {gid}, DropGroup(s', gid)) && Indexed(DropGroup(s', gid))
  {
    if gid in s'.groups {
      DropStoredGroup(s, gids, s', gid);
    } else {
      NoTriggerPointsThere(s, gids, gid);
      NoActionPointsThere(s, gids, gid);
      assert s.groups - gids == s.groups - (gids + {gid});
    }
  }

  lemma DropStoredGroup(s: RegistryState, gids: set<string>, s': RegistryState, gid: string)
    requires GroupsLinked(s) && TriggersLinked(s) && ActionsLinked(s) && Indexed(s') && GroupsGone(s, gids, s')
    requires gid in s'.groups
    ensures GroupsGone(s, gids + {gid}, DropGroup(s', gid)) && Indexed(DropGroup(s', gid))
  {
    OneGroupLessOfTriggers(s, gids, gid);
    OneGroupLessOfActions(s, gids, gid);
    DropKeepsIndexed(s', gid);
  }

  lemma DropKeepsIndexed(s: RegistryState, gid: string)
    requires Indexed(s) && gid in s.groups
    requires Elements(s.groups[gid].triggerIDs) <= s.triggers.Keys
    requires Elements(s.groups[gid].actionIDs) <= s.actions.Keys
    ensures Indexed(DropGroup(s, gid))
  {
    DropGroupIsMinus(s, gid);
    MinusKeepsIndexed(s, {}, {gid}, Elements(s.groups[gid].triggerIDs), Elements(s.groups[gid].actionIDs));
  }

  lemma OneGroupLessOfTriggers(s: RegistryState, gids: set<string>, gid: string)
    requires TriggersLinked(s) && gid in s.groups && gid !in gids
    ensures var ts := Elements(s.groups[gid].triggerIDs);
            && ts <= TriggersBut(s.triggers, gids).Keys
            && TriggersBut(s.triggers, gids) - ts == TriggersBut(s.triggers, gids + {gid})
  {
  }

  lemma OneGroupLessOfActions(s: RegistryState, gids: set<string>, gid: string)
    requires ActionsLinked(s) && gid in s.groups && gid !in gids
    ensures var acts := Elements(s.groups[gid].actionIDs);
            && acts <= ActionsBut(s.actions, gids).Keys
            && ActionsBut(s.actions, gids) - acts == ActionsBut(s.actions, gids + {gid})
  {
  }

  lemma NoTriggerPointsThere(s: RegistryState, gids: set<string>, gid: string)
    requires TriggersLinked(s) && gid !in s.groups - gids
    ensures TriggersBut(s.triggers, gids) == TriggersBut(s.triggers, gids + {gid})
  {
  }

  lemma NoActionPointsThere(s: RegistryState, gids: set<string>, gid: string)
    requires ActionsLinked(s) && gid !in s.groups - gids
    ensures ActionsBut(s.actions, gids) == ActionsBut(s.actions, gids + {gid})
  {
  }

  /** The registry without the entities of one recurfile. */
  ghost predicate OwnerGone(s: RegistryState, r: string, s': RegistryState) {
    && s'.recurfiles == s.recurfiles - {r}
    && s'.groups == (map g | g in s.groups && s.groups[g].recurfileID != r :: s.groups[g])
    && s'.triggers == (map t | t in s.triggers && s.triggers[t].entity.recurfileID != r :: s.triggers[t])
    && s'.actions == (map a | a in s.actions && s.actions[a].entity.recurfileID != r :: s.actions[a])
  }

  lemma GroupsGoneIsOwnerGone(s: RegistryState, r: string, s': RegistryState)
    requires GroupsLinked(s) && TriggersLinked(s) && ActionsLinked(s) && r in s.recurfiles
    requires GroupsGone(s, Elements(s.recurfiles[r].groups), s')
    ensures OwnerGone(s, r, s'.(recurfiles := s.recurfiles - {r}))
  {
    TriggersOfOwner(s, r);
    ActionsOfOwner(s, r);
  }

  lemma TriggersOfOwner(s: RegistryState, r: string)
    requires GroupsLinked(s) && TriggersLinked(s) && r in s.recurfiles
    ensures TriggersBut(s.triggers, Elements(s.recurfiles[r].groups))
         == map t | t in s.triggers && s.triggers[t].entity.recurfileID != r :: s.triggers[t]
  {
  }

  lemma ActionsOfOwner(s: RegistryState, r: string)
    requires GroupsLinked(s) && ActionsLinked(s) && r in s.recurfiles
    ensures ActionsBut(s.actions, Elements(s.recurfiles[r].groups))
         == map a | a in s.actions && s.actions[a].entity.recurfileID != r :: s.actions[a]
  {
  }

  /** Deregistering removes exactly the entities that name the recurfile as their owner, and
      touches nothing else. */
  lemma DeregisteredIs(s: RegistryState, r: string)
    requires Indexed(s) && Linked(s) && r in s.recurfiles
    ensures Indexed(Deregistered(s, s.recurfiles[r])) && OwnerGone(s, r, Deregistered(s, s.recurfiles[r]))
  {
    var wf := s.recurfiles[r];
    var dropped := DropGroups(s, wf.groups);
    DropGroupsAre(s, wf.groups);
    GroupsGoneIsOwnerGone(s, r, dropped);
    LastIsMinus(dropped, r);
    MinusKeepsIndexed(dropped, {r}, {}, {}, {});
  }

  lemma LastIsMinus(s: RegistryState, r: string)
    ensures s.(recurfiles := s.recurfiles - {r}, live := Outside(s.live, {r})) == Minus(s, {r}, {}, {}, {})
  {
    assert {r} + {} + {} + {} == {r};
  }
}
