/** What registering a resolved recurfile creates: the entities of registerResolved in
    src/app/recurd/daemon/registry.go (lines 107-241), their IDs and their index names. */
module Entities {
  import opened Options
  import opened Sequences
  import opened Values
  import opened Identity
  import opened EntityIndexes
  import Resolving
  import Settings

  // ------------------------------------------------------------------------- inputs

  /** What a registration reads besides the file: the plugin that owns a trigger or action
      type, and the three settings layers below the recurfile (daemon defaults, plugin
      manifest, plugin override) for a trigger type. `parse` stands for time.ParseDuration. */
  datatype Setup = Setup(
    triggerPlugin: string -> string,
    actionPlugin: string -> string,
    parse: string -> Option<int>,
    daemon: Option<Obj>,
    manifest: string -> Option<Obj>,
    override: string -> Option<Obj>)

  /** A resolved recurfile under its normalized path, with the setup it is registered under. */
  datatype File = File(path: string, groups: seq<Resolving.RawGroup>, setup: Setup)

  /** The parser lets duplicate group names through; the IDs need them distinct. */
  ghost predicate FileOk(f: File) {
    forall i, j :: 0 <= i < j < |f.groups| ==> f.groups[i].name != f.groups[j].name
  }

  // ---------------------------------------------------------- where an entity stands

  datatype Coord = AtFile | AtGroup(g: nat) | AtTrigger(g: nat, t: nat) | AtAction(g: nat, t: nat, a: nat)

  predicate In(f: File, c: Coord) {
    match c
    case AtFile => true
    case AtGroup(g) => g < |f.groups|
    case AtTrigger(g, t) => g < |f.groups| && t < |f.groups[g].triggers|
    case AtAction(g, t, a) => g < |f.groups| && t < |f.groups[g].triggers| && a < |f.groups[g].triggers[t].actions|
  }

  function TriggerTypes(f: File, g: nat): (r: seq<string>)
    requires g < |f.groups|
    ensures |r| == |f.groups[g].triggers|
  {
    var ts := f.groups[g].triggers;
    seq(|ts|, i requires 0 <= i < |ts| => ts[i].typ)
  }

  function ActionTypes(f: File, g: nat, t: nat): (r: seq<string>)
    requires In(f, AtTrigger(g, t))
    ensures |r| == |f.groups[g].triggers[t].actions|
  {
    var actions := f.groups[g].triggers[t].actions;
    seq(|actions|, i requires 0 <= i < |actions| => actions[i].typ)
  }

  // ---------------------------------------------------------------------------- IDs

  /** The hash behind EntityID: twelve hexadecimal digits of a digest. */
  type Hash = string -> string

  ghost predicate FixedWidth(hash: Hash) {
    forall x :: |hash(x)| == 12
  }

  function FileID(hash: Hash, f: File): string {
    hash(HashInput("recurfile", f.path))
  }

  /** The text whose hash is the entity's ID. */
  function Key(hash: Hash, f: File, c: Coord): string
    requires In(f, c)
    decreases match c case AtFile => 0 case AtGroup(_) => 1 case AtTrigger(_, _) => 2 case AtAction(_, _, _) => 3
  {
    match c
    case AtFile => HashInput("recurfile", f.path)
    case AtGroup(g) =>
      HashInput("group", GroupSeed(FileID(hash, f), f.groups[g].name))
    case AtTrigger(g, t) =>
      var types := TriggerTypes(f, g);
      HashInput("trigger", TriggerSeed(hash(Key(hash, f, AtGroup(g))), types[t], Occurrence(types, t)))
    case AtAction(g, t, a) =>
      var types := ActionTypes(f, g, t);
      HashInput("action", ActionSeed(hash(Key(hash, f, AtTrigger(g, t))), types[a], Occurrence(types, a)))
  }

  function ID(hash: Hash, f: File, c: Coord): string
    requires In(f, c)
  {
    hash(Key(hash, f, c))
  }

  /** A count in decimal, without leading zeros. */
  predicate CountText(s: string, n: int) {
    s != "" && (forall c :: c in s ==> '0' <= c <= '9') && Numeral(s) == n && (s[0] == '0' ==> s == "0")
  }

  lemma FileHash(hash: Hash, f: File)
    ensures ID(hash, f, AtFile) == hash("recurfile:" + f.path)
  {
    assert "recurfile" + ":" == "recurfile:";
  }

  lemma GroupHash(hash: Hash, f: File, g: nat)
    requires In(f, AtGroup(g))
    ensures ID(hash, f, AtGroup(g)) == hash("group:" + ID(hash, f, AtFile) + ":" + f.groups[g].name)
  {
    var id := ID(hash, f, AtFile);
    assert Key(hash, f, AtGroup(g)) == "group:" + id + ":" + f.groups[g].name;
  }

  /** The hashed text of a trigger: its group's ID, its type, and the number of earlier triggers of
      that type in the group. */
  lemma TriggerHash(hash: Hash, f: File, g: nat, t: nat) returns (n: string)
    requires In(f, AtTrigger(g, t))
    ensures var ts := f.groups[g].triggers;
            && CountText(n, |set j: nat | j < t && ts[j].typ == ts[t].typ|)
            && ID(hash, f, AtTrigger(g, t)) == hash("trigger:" + ID(hash, f, AtGroup(g)) + ":" + ts[t].typ + ":" + n)
  {
    var ts, types, id := f.groups[g].triggers, TriggerTypes(f, g), ID(hash, f, AtGroup(g));
    n := Decimal(Occurrence(types, t));
    DecimalIsNumeral(Occurrence(types, t));
    OccurrenceIsCount(types, t);
    assert (set j: nat | j < t && ts[j].typ == ts[t].typ) == set j: nat | j < t && types[j] == types[t];
    assert Key(hash, f, AtTrigger(g, t)) == "trigger:" + id + ":" + ts[t].typ + ":" + n;
  }

  lemma ActionHash(hash: Hash, f: File, g: nat, t: nat, a: nat) returns (n: string)
    requires In(f, AtAction(g, t, a))
    ensures var acts := f.groups[g].triggers[t].actions;
            && CountText(n, |set j: nat | j < a && acts[j].typ == acts[a].typ|)
            && ID(hash, f, AtAction(g, t, a))
               == hash("action:" + ID(hash, f, AtTrigger(g, t)) + ":" + acts[a].typ + ":" + n)
  {
    var acts, types, id := f.groups[g].triggers[t].actions, ActionTypes(f, g, t), ID(hash, f, AtTrigger(g, t));
    n := Decimal(Occurrence(types, a));
    DecimalIsNumeral(Occurrence(types, a));
    OccurrenceIsCount(types, a);
    assert (set j: nat | j < a && acts[j].typ == acts[a].typ) == set j: nat | j < a && types[j] == types[a];
    assert Key(hash, f, AtAction(g, t, a)) == "action:" + id + ":" + acts[a].typ + ":" + n;
  }

  /** Among the entities of the given files, equal IDs come from equal hash inputs. */
  ghost predicate CollisionFree(hash: Hash, files: iset<File>) {
    forall f, g, c, d :: f in files && g in files && In(f, c) && In(g, d) && ID(hash, f, c) == ID(hash, g, d)
      ==> Key(hash, f, c) == Key(hash, g, d)
  }

  lemma PrefixesDiffer(x: string, y: string)
    ensures HashInput("recurfile", x)[0] == 'r' && HashInput("group", x)[0] == 'g'
    ensures HashInput("trigger", x)[0] == 't' && HashInput("action", x)[0] == 'a'
    ensures HashInput("recurfile", x) == HashInput("recurfile", y) ==> x == y
    ensures HashInput("group", x) == HashInput("group", y) ==> x == y
    ensures HashInput("trigger", x) == HashInput("trigger", y) ==> x == y
    ensures HashInput("action", x) == HashInput("action", y) ==> x == y
  {
    assert HashInput("recurfile", x)[10..] == x && HashInput("recurfile", y)[10..] == y;
    assert HashInput("group", x)[6..] == x && HashInput("group", y)[6..] == y;
    assert HashInput("trigger", x)[8..] == x && HashInput("trigger", y)[8..] == y;
    assert HashInput("action", x)[7..] == x && HashInput("action", y)[7..] == y;
  }

  /** Equal hash inputs of two entities of one kind: the parents share their ID, and the
      entities agree in what tells siblings apart. */
  lemma SameKind(hash: Hash, f: File, c: Coord, g: File, d: Coord)
    requires FixedWidth(hash) && In(f, c) && In(g, d) && Key(hash, f, c) == Key(hash, g, d)
    ensures c.AtFile? ==> d.AtFile? && f.path == g.path
    ensures c.AtGroup? ==> d.AtGroup? && FileID(hash, f) == FileID(hash, g) && f.groups[c.g].name == g.groups[d.g].name
    ensures c.AtTrigger? ==>
              && d.AtTrigger? && ID(hash, f, AtGroup(c.g)) == ID(hash, g, AtGroup(d.g))
              && TriggerTypes(f, c.g)[c.t] == TriggerTypes(g, d.g)[d.t]
              && Occurrence(TriggerTypes(f, c.g), c.t) == Occurrence(TriggerTypes(g, d.g), d.t)
    ensures c.AtAction? ==>
              && d.AtAction? && ID(hash, f, AtTrigger(c.g, c.t)) == ID(hash, g, AtTrigger(d.g, d.t))
              && ActionTypes(f, c.g, c.t)[c.a] == ActionTypes(g, d.g, d.t)[d.a]
              && Occurrence(ActionTypes(f, c.g, c.t), c.a) == Occurrence(ActionTypes(g, d.g, d.t), d.a)
  {
    PrefixesDiffer(Seed(hash, f, c), Seed(hash, g, d));
    match c {
      case AtFile =>
      case AtGroup(_) =>
        GroupSeedInjective(FileID(hash, f), f.groups[c.g].name, FileID(hash, g), g.groups[d.g].name);
      case AtTrigger(_, _) =>
        var ts, us := TriggerTypes(f, c.g), TriggerTypes(g, d.g);
        TriggerSeedInjective(ID(hash, f, AtGroup(c.g)), ts[c.t], Occurrence(ts, c.t),
                             ID(hash, g, AtGroup(d.g)), us[d.t], Occurrence(us, d.t));
      case AtAction(_, _, _) =>
        var ts, us := ActionTypes(f, c.g, c.t), ActionTypes(g, d.g, d.t);
        ActionSeedInjective(ID(hash, f, AtTrigger(c.g, c.t)), ts[c.a], Occurrence(ts, c.a),
                            ID(hash, g, AtTrigger(d.g, d.t)), us[d.a], Occurrence(us, d.a));
    }
  }

  function Seed(hash: Hash, f: File, c: Coord): string
    requires In(f, c)
  {
    match c
    case AtFile => f.path
    case AtGroup(g) => GroupSeed(FileID(hash, f), f.groups[g].name)
    case AtTrigger(g, t) =>
      TriggerSeed(ID(hash, f, AtGroup(g)), TriggerTypes(f, g)[t], Occurrence(TriggerTypes(f, g), t))
    case AtAction(g, t, a) =>
      ActionSeed(ID(hash, f, AtTrigger(g, t)), ActionTypes(f, g, t)[a], Occurrence(ActionTypes(f, g, t), a))
  }

  function Parent(c: Coord): Coord {
    match c
    case AtFile => AtFile
    case AtGroup(_) => AtFile
    case AtTrigger(g, _) => AtGroup(g)
    case AtAction(g, t, _) => AtTrigger(g, t)
  }

  /** An ID identifies the path and, within a file, the position of the entity. */
  lemma {:induction false} IDIdentifies(hash: Hash, files: iset<File>, f: File, c: Coord, g: File, d: Coord)
    requires FixedWidth(hash) && CollisionFree(hash, files) && f in files && g in files && FileOk(f)
    requires In(f, c) && In(g, d) && ID(hash, f, c) == ID(hash, g, d)
    ensures f.path == g.path && SameKindOfCoord(c, d)
    ensures f == g ==> c == d
    decreases match c case AtFile => 0 case AtGroup(_) => 1 case AtTrigger(_, _) => 2 case AtAction(_, _, _) => 3
  {
    SameKind(hash, f, c, g, d);
    if !c.AtFile? {
      IDIdentifies(hash, files, f, Parent(c), g, Parent(d));
    }
    if f == g {
      match c {
        case AtFile =>
        case AtGroup(_) =>
        case AtTrigger(_, _) => OccurrenceDistinct(TriggerTypes(f, c.g), c.t, d.t);
        case AtAction(_, _, _) => OccurrenceDistinct(ActionTypes(f, c.g, c.t), c.a, d.a);
      }
    }
  }

  predicate SameKindOfCoord(c: Coord, d: Coord) {
    && c.AtFile? == d.AtFile? && c.AtGroup? == d.AtGroup?
    && c.AtTrigger? == d.AtTrigger? && c.AtAction? == d.AtAction?
  }

  /** Within one file all IDs differ exactly when its group names do. */
  lemma IDsDistinctIff(hash: Hash, f: File)
    requires FixedWidth(hash) && CollisionFree(hash, iset{f})
    ensures FileOk(f) <==> forall c, d :: In(f, c) && In(f, d) && ID(hash, f, c) == ID(hash, f, d) ==> c == d
  {
    if FileOk(f) {
      forall c, d | In(f, c) && In(f, d) && ID(hash, f, c) == ID(hash, f, d)
        ensures c == d
      {
        IDIdentifies(hash, iset{f}, f, c, f, d);
      }
    } else {
      var i, j :| 0 <= i < j < |f.groups| && f.groups[i].name == f.groups[j].name;
      assert In(f, AtGroup(i)) && In(f, AtGroup(j));
      assert ID(hash, f, AtGroup(i)) == ID(hash, f, AtGroup(j));
    }
  }

  // ----------------------------------------------------------------------- entities

  datatype Recurfile = Recurfile(id: string, filePath: string, groups: seq<string>)

  datatype Group = Group(id: string, name: string, recurfileID: string,
                         triggerIDs: seq<string>, actionIDs: seq<string>,
                         options: Option<Obj>, aliases: Resolving.Aliases)

  datatype Trigger = Trigger(id: string, typ: string, name: string,
                             groupID: string, groupName: string, recurfileID: string, recurfilePath: string,
                             pluginID: string, options: Option<Obj>, settings: Settings.TriggerSettings)

  datatype Action = Action(id: string, typ: string, name: string,
                           groupID: string, groupName: string, triggerID: string,
                           recurfileID: string, recurfilePath: string,
                           pluginID: string, options: Option<Obj>, errorThreshold: int)

  datatype Entity = OfRecurfile(r: Recurfile) | OfGroup(g: Group) | OfTrigger(t: Trigger) | OfAction(a: Action)
  {
    function Id(): string {
      match this case OfRecurfile(r) => r.id case OfGroup(g) => g.id case OfTrigger(t) => t.id case OfAction(a) => a.id
    }

    /** The recurfile the entity belongs to. */
    function Owner(): string {
      match this
      case OfRecurfile(r) => r.id
      case OfGroup(g) => g.recurfileID
      case OfTrigger(t) => t.recurfileID
      case OfAction(a) => a.recurfileID
    }

    /** What the index stores for the entity. */
    function Ref(): (x: EntityRef)
      ensures x.id == Id()
    {
      match this
      case OfRecurfile(r) => EntityRef(RecurfileKind, r.id, r.filePath)
      case OfGroup(g) => EntityRef(GroupKind, g.id, g.name)
      case OfTrigger(t) => EntityRef(TriggerKind, t.id, DisplayName(t.name, t.typ))
      case OfAction(a) => EntityRef(ActionKind, a.id, DisplayName(a.name, a.typ))
    }
  }

  function DisplayName(name: string, typ: string): string {
    if name != "" then name else typ
  }

  function SettingsAt(f: File, g: nat, t: nat): Settings.TriggerSettings
    requires In(f, AtTrigger(g, t))
  {
    var tr := f.groups[g].triggers[t];
    Settings.Direct(f.setup.parse, [f.setup.daemon, f.setup.manifest(tr.typ), f.setup.override(tr.typ),
                                    f.groups[g].options, tr.options])
  }

  function GroupIDs(hash: Hash, f: File, n: nat): (r: seq<string>)
    requires n <= |f.groups|
    ensures |r| == n && forall i :: 0 <= i < n ==> r[i] == ID(hash, f, AtGroup(i))
  {
    seq(n, i requires 0 <= i < n => ID(hash, f, AtGroup(i)))
  }

  function TriggerIDs(hash: Hash, f: File, g: nat, n: nat): (r: seq<string>)
    requires g < |f.groups| && n <= |f.groups[g].triggers|
    ensures |r| == n && forall i :: 0 <= i < n ==> r[i] == ID(hash, f, AtTrigger(g, i))
  {
    seq(n, i requires 0 <= i < n => ID(hash, f, AtTrigger(g, i)))
  }

  function ActionIDs(hash: Hash, f: File, g: nat, t: nat): (r: seq<string>)
    requires In(f, AtTrigger(g, t))
    ensures |r| == |f.groups[g].triggers[t].actions|
    ensures forall i :: 0 <= i < |r| ==> r[i] == ID(hash, f, AtAction(g, t, i))
  {
    seq(|f.groups[g].triggers[t].actions|,
        i requires 0 <= i < |f.groups[g].triggers[t].actions| => ID(hash, f, AtAction(g, t, i)))
  }

  /** The actions of the first `n` triggers of a group, trigger by trigger. */
  function GroupActionIDs(hash: Hash, f: File, g: nat, n: nat): seq<string>
    requires g < |f.groups| && n <= |f.groups[g].triggers|
  {
    if n == 0 then []
    else GroupActionIDs(hash, f, g, n - 1) + ActionIDs(hash, f, g, n - 1)
  }

  function GroupAt(hash: Hash, f: File, g: nat): Group
    requires In(f, AtGroup(g))
  {
    var grp := f.groups[g];
    Group(ID(hash, f, AtGroup(g)), grp.name, FileID(hash, f),
          TriggerIDs(hash, f, g, |grp.triggers|), GroupActionIDs(hash, f, g, |grp.triggers|),
          grp.options, grp.aliases)
  }

  function TriggerAt(hash: Hash, f: File, g: nat, t: nat): Trigger
    requires In(f, AtTrigger(g, t))
  {
    var tr := f.groups[g].triggers[t];
    Trigger(ID(hash, f, AtTrigger(g, t)), tr.typ, tr.name,
            ID(hash, f, AtGroup(g)), f.groups[g].name, FileID(hash, f), f.path,
            f.setup.triggerPlugin(tr.typ), tr.options, SettingsAt(f, g, t))
  }

  function ActionAt(hash: Hash, f: File, g: nat, t: nat, a: nat): Action
    requires In(f, AtAction(g, t, a))
  {
    var act := f.groups[g].triggers[t].actions[a];
    Action(ID(hash, f, AtAction(g, t, a)), act.typ, act.name,
           ID(hash, f, AtGroup(g)), f.groups[g].name, ID(hash, f, AtTrigger(g, t)),
           FileID(hash, f), f.path,
           f.setup.actionPlugin(act.typ), act.options, SettingsAt(f, g, t).actionErrorThreshold)
  }

  function RecurfileAt(hash: Hash, f: File): Recurfile {
    Recurfile(FileID(hash, f), f.path, GroupIDs(hash, f, |f.groups|))
  }

  function EntityAt(hash: Hash, f: File, c: Coord): (e: Entity)
    requires In(f, c)
    ensures e.Id() == ID(hash, f, c) && e.Owner() == FileID(hash, f)
  {
    match c
    case AtFile => OfRecurfile(RecurfileAt(hash, f))
    case AtGroup(g) => OfGroup(GroupAt(hash, f, g))
    case AtTrigger(g, t) => OfTrigger(TriggerAt(hash, f, g, t))
    case AtAction(g, t, a) => OfAction(ActionAt(hash, f, g, t, a))
  }

  // ------------------------------------------------------------ order of registration

  function ActionCoords(f: File, g: nat, t: nat, n: nat): (r: seq<Coord>)
    requires In(f, AtTrigger(g, t)) && n <= |f.groups[g].triggers[t].actions|
    ensures |r| == n && forall i :: 0 <= i < n ==> r[i] == AtAction(g, t, i)
  {
    seq(n, i requires 0 <= i < n => AtAction(g, t, i))
  }

  /** The first `n` triggers of a group, each followed by its actions. */
  function TriggerCoords(f: File, g: nat, n: nat): seq<Coord>
    requires g < |f.groups| && n <= |f.groups[g].triggers|
  {
    if n == 0 then []
    else
      TriggerCoords(f, g, n - 1) + [AtTrigger(g, n - 1)]
      + ActionCoords(f, g, n - 1, |f.groups[g].triggers[n - 1].actions|)
  }

  /** The entities of one group: its triggers, then the group itself. */
  function GroupBlock(f: File, g: nat): seq<Coord>
    requires g < |f.groups|
  {
    TriggerCoords(f, g, |f.groups[g].triggers|) + [AtGroup(g)]
  }

  function GroupCoords(f: File, n: nat): seq<Coord>
    requires n <= |f.groups|
  {
    if n == 0 then [] else GroupCoords(f, n - 1) + GroupBlock(f, n - 1)
  }

  function Coords(f: File): seq<Coord> {
    GroupCoords(f, |f.groups|) + [AtFile]
  }

  lemma {:induction false} TriggerCoordsAre(f: File, g: nat, n: nat)
    requires g < |f.groups| && n <= |f.groups[g].triggers|
    ensures Distinct(TriggerCoords(f, g, n))
    ensures forall c :: c in TriggerCoords(f, g, n)
              <==> In(f, c) && (c.AtTrigger? || c.AtAction?) && c.g == g && c.t < n
  {
    if n > 0 {
      TriggerCoordsAre(f, g, n - 1);
      var acts := ActionCoords(f, g, n - 1, |f.groups[g].triggers[n - 1].actions|);
      assert forall c :: c in acts <==> In(f, c) && c.AtAction? && c.g == g && c.t == n - 1 by {
        forall c | In(f, c) && c.AtAction? && c.g == g && c.t == n - 1
          ensures c in acts
        {
          assert acts[c.a] == c;
        }
      }
      DistinctAppend(TriggerCoords(f, g, n - 1), [AtTrigger(g, n - 1)]);
      DistinctAppend(TriggerCoords(f, g, n - 1) + [AtTrigger(g, n - 1)], acts);
    }
  }

  lemma {:induction false} GroupCoordsAre(f: File, n: nat)
    requires n <= |f.groups|
    ensures Distinct(GroupCoords(f, n))
    ensures forall c :: c in GroupCoords(f, n) <==> In(f, c) && !c.AtFile? && c.g < n
  {
    if n > 0 {
      GroupCoordsAre(f, n - 1);
      GroupBlockIs(f, n - 1);
      DistinctAppend(GroupCoords(f, n - 1), GroupBlock(f, n - 1));
      assert forall c :: c in GroupCoords(f, n) <==> c in GroupCoords(f, n - 1) || c in GroupBlock(f, n - 1);
    }
  }

  lemma GroupBlockIs(f: File, g: nat)
    requires g < |f.groups|
    ensures Distinct(GroupBlock(f, g))
    ensures forall c :: c in GroupBlock(f, g) <==> In(f, c) && !c.AtFile? && c.g == g
  {
    TriggerCoordsAre(f, g, |f.groups[g].triggers|);
    DistinctAppend(TriggerCoords(f, g, |f.groups[g].triggers|), [AtGroup(g)]);
  }

  /** Registration visits every entity of the file once. */
  lemma CoordsAre(f: File)
    ensures Distinct(Coords(f))
    ensures forall c :: c in Coords(f) <==> In(f, c)
  {
    GroupCoordsAre(f, |f.groups|);
    DistinctAppend(GroupCoords(f, |f.groups|), [AtFile]);
  }

  ghost predicate IsActionOf(hash: Hash, f: File, g: nat, n: nat, id: string)
    requires g < |f.groups| && n <= |f.groups[g].triggers|
  {
    exists t: nat :: t < n && id in ActionIDs(hash, f, g, t)
  }

  /** A group lists the actions of its triggers ... */
  lemma {:induction false} GroupActionIDsAre(hash: Hash, f: File, g: nat, n: nat, id: string)
    requires g < |f.groups| && n <= |f.groups[g].triggers|
    ensures id in GroupActionIDs(hash, f, g, n) <==> IsActionOf(hash, f, g, n, id)
  {
    if n > 0 {
      GroupActionIDsAre(hash, f, g, n - 1, id);
    }
  }

  /** ... each once. */
  lemma {:induction false} GroupActionIDsDiffer(hash: Hash, f: File, g: nat, n: nat)
    requires FixedWidth(hash) && CollisionFree(hash, iset{f}) && FileOk(f)
    requires g < |f.groups| && n <= |f.groups[g].triggers|
    ensures Distinct(GroupActionIDs(hash, f, g, n))
  {
    if n > 0 {
      GroupActionIDsDiffer(hash, f, g, n - 1);
      ActionIDsDiffer(hash, f, g, n - 1);
      DistinctAppend(GroupActionIDs(hash, f, g, n - 1), ActionIDs(hash, f, g, n - 1));
    }
  }

  lemma ActionIDsDiffer(hash: Hash, f: File, g: nat, t: nat)
    requires FixedWidth(hash) && CollisionFree(hash, iset{f}) && FileOk(f) && In(f, AtTrigger(g, t))
    ensures Distinct(ActionIDs(hash, f, g, t))
    ensures forall id :: id in ActionIDs(hash, f, g, t) ==> id !in GroupActionIDs(hash, f, g, t)
  {
    var acts := ActionIDs(hash, f, g, t);
    IDsDistinctIff(hash, f);
    forall i: nat, j: nat | i < j < |acts|
      ensures acts[i] != acts[j]
    {
      assert In(f, AtAction(g, t, i)) && In(f, AtAction(g, t, j));
    }
    forall id | id in acts
      ensures id !in GroupActionIDs(hash, f, g, t)
    {
      GroupActionIDsAre(hash, f, g, t, id);
      if IsActionOf(hash, f, g, t, id) {
        var k: nat :| k < t && id in ActionIDs(hash, f, g, k);
        OneTriggerPerAction(hash, f, g, k, t, id);
      }
    }
  }

  lemma OneTriggerPerAction(hash: Hash, f: File, g: nat, t: nat, u: nat, id: string)
    requires FixedWidth(hash) && CollisionFree(hash, iset{f}) && FileOk(f)
    requires In(f, AtTrigger(g, t)) && In(f, AtTrigger(g, u))
    requires id in ActionIDs(hash, f, g, t) && id in ActionIDs(hash, f, g, u)
    ensures t == u
  {
    IDsDistinctIff(hash, f);
    var i: nat :| i < |ActionIDs(hash, f, g, t)| && ActionIDs(hash, f, g, t)[i] == id;
    var j: nat :| j < |ActionIDs(hash, f, g, u)| && ActionIDs(hash, f, g, u)[j] == id;
    assert In(f, AtAction(g, t, i)) && In(f, AtAction(g, u, j));
  }
}
