/** What can be looked up, and what a lookup finds: the index names of registerResolved and
    findEntityByType in src/app/recurd/daemon/registry.go, seen from a registered file. */
module Lookups {
  import opened Options
  import opened EntityIndexes
  import opened Entities
  import opened RegistryStates
  import opened RegistryOps

  // ------------------------------------------------------- the refs of registered files

  /** A trigger or action is indexed under its name, or under its type if it has none; a group
      under its name and a recurfile under its path. */
  lemma IndexedUnderNames(w: World, s: RegistryState, files: iset<File>, f: File)
    requires Integrity(w, s, files) && f in files
    ensures EntityRef(RecurfileKind, ID(w.hash, f, AtFile), f.path) in s.live
    ensures forall g: nat | g < |f.groups| ::
              EntityRef(GroupKind, ID(w.hash, f, AtGroup(g)), f.groups[g].name) in s.live
    ensures forall g: nat, t: nat | g < |f.groups| && t < |f.groups[g].triggers| ::
              var tr := f.groups[g].triggers[t];
              EntityRef(TriggerKind, ID(w.hash, f, AtTrigger(g, t)), if tr.name != "" then tr.name else tr.typ)
                in s.live
    ensures forall g: nat, t: nat, a: nat |
              g < |f.groups| && t < |f.groups[g].triggers| && a < |f.groups[g].triggers[t].actions| ::
              var act := f.groups[g].triggers[t].actions[a];
              EntityRef(ActionKind, ID(w.hash, f, AtAction(g, t, a)), if act.name != "" then act.name else act.typ)
                in s.live
  {
    FileIsIndexed(w, s, files, f);
    forall g: nat | g < |f.groups|
      ensures EntityRef(GroupKind, ID(w.hash, f, AtGroup(g)), f.groups[g].name) in s.live
    {
      GroupIsIndexed(w, s, files, f, g);
    }
    forall g: nat, t: nat | g < |f.groups| && t < |f.groups[g].triggers|
      ensures var tr := f.groups[g].triggers[t];
              EntityRef(TriggerKind, ID(w.hash, f, AtTrigger(g, t)), if tr.name != "" then tr.name else tr.typ)
                in s.live
    {
      TriggerIsIndexed(w, s, files, f, g, t);
    }
    forall g: nat, t: nat, a: nat |
      g < |f.groups| && t < |f.groups[g].triggers| && a < |f.groups[g].triggers[t].actions|
      ensures var act := f.groups[g].triggers[t].actions[a];
              EntityRef(ActionKind, ID(w.hash, f, AtAction(g, t, a)), if act.name != "" then act.name else act.typ)
                in s.live
    {
      ActionIsIndexed(w, s, files, f, g, t, a);
    }
  }

  lemma FileIsIndexed(w: World, s: RegistryState, files: iset<File>, f: File)
    requires Integrity(w, s, files) && f in files
    ensures EntityRef(RecurfileKind, ID(w.hash, f, AtFile), f.path) in s.live
  {
    Stored(w, s, files, f, AtFile);
    assert Refers(s, EntityRef(RecurfileKind, ID(w.hash, f, AtFile), f.path));
  }

  lemma GroupIsIndexed(w: World, s: RegistryState, files: iset<File>, f: File, g: nat)
    requires Integrity(w, s, files) && f in files && In(f, AtGroup(g))
    ensures EntityRef(GroupKind, ID(w.hash, f, AtGroup(g)), f.groups[g].name) in s.live
  {
    Stored(w, s, files, f, AtGroup(g));
    assert Refers(s, EntityRef(GroupKind, ID(w.hash, f, AtGroup(g)), f.groups[g].name));
  }

  lemma TriggerIsIndexed(w: World, s: RegistryState, files: iset<File>, f: File, g: nat, t: nat)
    requires Integrity(w, s, files) && f in files && In(f, AtTrigger(g, t))
    ensures var tr := f.groups[g].triggers[t];
            EntityRef(TriggerKind, ID(w.hash, f, AtTrigger(g, t)), if tr.name != "" then tr.name else tr.typ) in s.live
  {
    var tr := f.groups[g].triggers[t];
    Stored(w, s, files, f, AtTrigger(g, t));
    assert Refers(s, EntityRef(TriggerKind, ID(w.hash, f, AtTrigger(g, t)), if tr.name != "" then tr.name else tr.typ));
  }

  lemma ActionIsIndexed(w: World, s: RegistryState, files: iset<File>, f: File, g: nat, t: nat, a: nat)
    requires Integrity(w, s, files) && f in files && In(f, AtAction(g, t, a))
    ensures var act := f.groups[g].triggers[t].actions[a];
            EntityRef(ActionKind, ID(w.hash, f, AtAction(g, t, a)), if act.name != "" then act.name else act.typ)
              in s.live
  {
    var act := f.groups[g].triggers[t].actions[a];
    Stored(w, s, files, f, AtAction(g, t, a));
    assert Refers(s, EntityRef(ActionKind, ID(w.hash, f, AtAction(g, t, a)),
                               if act.name != "" then act.name else act.typ));
  }

  // ------------------------------------------------------------- what a lookup finds

  function Both(p: EntityRef -> bool, q: EntityRef -> bool): EntityRef -> bool {
    (x: EntityRef) => p(x) && q(x)
  }

  lemma {:induction false} MatchingTwice(live: seq<EntityRef>, p: EntityRef -> bool, q: EntityRef -> bool)
    ensures Matching(Matching(live, p), q) == Matching(live, Both(p, q))
  {
    if live != [] {
      var init, last := live[..|live| - 1], live[|live| - 1];
      MatchingTwice(init, p, q);
      var kept := Matching(init, p);
      assert (kept + [last])[..|kept|] == kept;
      assert Matching(live, p) == if p(last) then kept + [last] else kept;
    }
  }

  /** Position `i` is the first with the property. */
  ghost predicate FirstAt(live: seq<EntityRef>, p: EntityRef -> bool, i: nat) {
    i < |live| && p(live[i]) && forall j: nat :: j < i ==> !p(live[j])
  }

  lemma {:induction false} FirstMatch(live: seq<EntityRef>, p: EntityRef -> bool)
    ensures match FirstID(Matching(live, p))
            case None => forall x :: x in live ==> !p(x)
            case Some(id) => exists i: nat :: FirstAt(live, p, i) && live[i].id == id
  {
    if live != [] {
      var init, last := live[..|live| - 1], live[|live| - 1];
      FirstMatch(init, p);
      assert live == init + [last];
      if Matching(init, p) != [] {
        var i: nat :| FirstAt(init, p, i) && init[i].id == FirstID(Matching(init, p)).value;
        assert FirstAt(live, p, i);
      } else if p(last) {
        assert FirstAt(live, p, |init|);
      }
    }
  }

  lemma SomeMatch(live: seq<EntityRef>, p: EntityRef -> bool)
    ensures Matching(live, p) != [] <==> exists x :: x in live && p(x)
  {
    MatchingMembers(live, p);
    if Matching(live, p) != [] {
      assert Matching(live, p)[0] in Matching(live, p);
    }
  }

  /** An ID finds its own entity, and nothing else. */
  lemma FoundByID(lower: string -> string, live: seq<EntityRef>, identifier: string, kind: Kind,
                  found: Option<string>)
    requires MayFind(lower, live, identifier, kind, found) && exists x :: x in live && x.id == identifier
    ensures found == if exists x :: x in live && x.id == identifier && x.kind == kind then Some(identifier) else None
  {
    SomeMatch(live, WithID(identifier));
    MatchingTwice(live, WithID(identifier), OfKind(kind));
    FirstMatch(live, Both(WithID(identifier), OfKind(kind)));
  }

  /** Otherwise a name finds the entity of the kind that was indexed first under that name,
      whatever the case of its letters. */
  lemma FoundByName(lower: string -> string, live: seq<EntityRef>, identifier: string, kind: Kind,
                    found: Option<string>)
    requires MayFind(lower, live, identifier, kind, found) && forall x :: x in live ==> x.id != identifier
    requires exists x :: x in live && lower(x.name) == lower(identifier)
    ensures match found
            case None => forall x :: x in live && lower(x.name) == lower(identifier) ==> x.kind != kind
            case Some(id) => exists i: nat ::
              && i < |live| && live[i].id == id && live[i].kind == kind && lower(live[i].name) == lower(identifier)
              && forall j: nat :: j < i ==> !(live[j].kind == kind && lower(live[j].name) == lower(identifier))
  {
    var p := Named(lower, lower(identifier));
    SomeMatch(live, WithID(identifier));
    SomeMatch(live, p);
    MatchingTwice(live, p, OfKind(kind));
    FirstMatch(live, Both(p, OfKind(kind)));
    if found.Some? {
      var i: nat :| FirstAt(live, Both(p, OfKind(kind)), i) && live[i].id == found.value;
      assert forall j: nat :: j < i ==> !Both(p, OfKind(kind))(live[j]);
    }
  }

  /** Otherwise an identifier of three characters or more finds some entity of the kind whose ID
      starts with it, if there is one; a shorter one finds nothing. */
  lemma FoundByPrefix(lower: string -> string, live: seq<EntityRef>, identifier: string, kind: Kind,
                      found: Option<string>)
    requires MayFind(lower, live, identifier, kind, found)
    requires forall x :: x in live ==> x.id != identifier && lower(x.name) != lower(identifier)
    ensures found.Some? ==>
              3 <= |identifier| && exists x :: x in live && x.id == found.value && x.kind == kind && identifier <= x.id
    ensures found.None? && 3 <= |identifier| ==> forall x :: x in live && x.kind == kind ==> !(identifier <= x.id)
  {
    SomeMatch(live, WithID(identifier));
    SomeMatch(live, Named(lower, lower(identifier)));
    if 3 <= |identifier| {
      OnlyCandidates(lower, live, identifier, kind, found);
      MatchingMembers(live, Prefixed(identifier));
      MatchingMembers(Matching(live, Prefixed(identifier)), OfKind(kind));
      if found.None? {
        forall x | x in live && x.kind == kind
          ensures !(identifier <= x.id)
        {
          assert x in Candidates(live, identifier, kind) <==> identifier <= x.id;
        }
      }
    }
  }

  /** A registered trigger is found by its name, if it is no ID and no other trigger shares it. */
  lemma NamedTriggerIsFound(w: World, s: RegistryState, files: iset<File>, f: File, g: nat, t: nat,
                            lower: string -> string, found: Option<string>)
    requires Integrity(w, s, files) && f in files && In(f, AtTrigger(g, t))
    requires var tr, id := f.groups[g].triggers[t], ID(w.hash, f, AtTrigger(g, t));
             && tr.name != ""
             && (forall x :: x in s.live ==> x.id != tr.name)
             && (forall x :: x in s.live && x.kind == TriggerKind && lower(x.name) == lower(tr.name) ==> x.id == id)
             && MayFind(lower, s.live, tr.name, TriggerKind, found)
    ensures found == Some(ID(w.hash, f, AtTrigger(g, t)))
  {
    var tr, id := f.groups[g].triggers[t], ID(w.hash, f, AtTrigger(g, t));
    TriggerIsIndexed(w, s, files, f, g, t);
    var x := EntityRef(TriggerKind, id, tr.name);
    assert x in s.live && lower(x.name) == lower(tr.name);
    FoundByName(lower, s.live, tr.name, TriggerKind, found);
  }

  lemma NamedActionIsFound(w: World, s: RegistryState, files: iset<File>, f: File, g: nat, t: nat, a: nat,
                           lower: string -> string, found: Option<string>)
    requires Integrity(w, s, files) && f in files && In(f, AtAction(g, t, a))
    requires var act, id := f.groups[g].triggers[t].actions[a], ID(w.hash, f, AtAction(g, t, a));
             && act.name != ""
             && (forall x :: x in s.live ==> x.id != act.name)
             && (forall x :: x in s.live && x.kind == ActionKind && lower(x.name) == lower(act.name) ==> x.id == id)
             && MayFind(lower, s.live, act.name, ActionKind, found)
    ensures found == Some(ID(w.hash, f, AtAction(g, t, a)))
  {
    var act, id := f.groups[g].triggers[t].actions[a], ID(w.hash, f, AtAction(g, t, a));
    ActionIsIndexed(w, s, files, f, g, t, a);
    var x := EntityRef(ActionKind, id, act.name);
    assert x in s.live && lower(x.name) == lower(act.name);
    FoundByName(lower, s.live, act.name, ActionKind, found);
  }

  /** A recurfile is found by its path and by its ID. */
  lemma RecurfileIsFound(w: World, s: RegistryState, files: iset<File>, f: File, lower: string -> string,
                         identifier: string, found: Option<string>)
    requires WorldOk(w) && Integrity(w, s, files) && f in files
    requires MayFind(lower, s.live, identifier, RecurfileKind, found)
    requires || identifier == ID(w.hash, f, AtFile)
             || (identifier == f.path && (forall x :: x in s.live ==> x.id != f.path)
                 && forall g :: g in files && lower(g.path) == lower(f.path) ==> g == f)
    ensures found == Some(ID(w.hash, f, AtFile))
  {
    FileIsIndexed(w, s, files, f);
    var x := EntityRef(RecurfileKind, ID(w.hash, f, AtFile), f.path);
    if identifier == x.id {
      FoundByID(lower, s.live, identifier, RecurfileKind, found);
    } else {
      assert x in s.live && lower(x.name) == lower(f.path);
      FoundByName(lower, s.live, f.path, RecurfileKind, found);
      forall y | y in s.live && y.kind == RecurfileKind && lower(y.name) == lower(f.path)
        ensures y.id == x.id
      {
        assert Refers(s, y);
        var g, c := Source(w, s, files, OfRecurfile(s.recurfiles[y.id]));
      }
    }
  }

  // -------------------------------------------------- the order in which names compete

  /** `c` is declared before `d`: two triggers, or two actions, of one file. */
  predicate Earlier(c: Coord, d: Coord) {
    || (c.AtTrigger? && d.AtTrigger? && (c.g < d.g || (c.g == d.g && c.t < d.t)))
    || (c.AtAction? && d.AtAction? &&
        (c.g < d.g || (c.g == d.g && (c.t < d.t || (c.t == d.t && c.a < d.a)))))
  }

  lemma SplitAt(all: seq<Coord>, before: seq<Coord>, c: Coord, d: Coord) returns (i: nat, j: nat)
    requires before <= all && c in before && d !in before && d in all
    ensures i < j < |all| && all[i] == c && all[j] == d
  {
    i :| i < |before| && before[i] == c;
    j :| j < |all| && all[j] == d;
    assert forall k: nat :: k < |before| ==> all[k] == before[k];
  }

  lemma PrefixAfter<T>(x: seq<T>, a: seq<T>, b: seq<T>)
    requires a <= b
    ensures x + a <= x + b
  {
  }

  lemma {:induction false} GroupsAreFirst(f: File, n: nat, m: nat)
    requires n <= m <= |f.groups|
    ensures GroupCoords(f, n) <= GroupCoords(f, m)
  {
    if n < m {
      GroupsAreFirst(f, n, m - 1);
    }
  }

  lemma {:induction false} TriggersAreFirst(f: File, g: nat, n: nat, m: nat)
    requires g < |f.groups| && n <= m <= |f.groups[g].triggers|
    ensures TriggerCoords(f, g, n) <= TriggerCoords(f, g, m)
  {
    if n < m {
      TriggersAreFirst(f, g, n, m - 1);
    }
  }

  /** The first triggers of group `g` end a first part of the whole list. */
  lemma FirstPart(f: File, g: nat, n: nat)
    requires g < |f.groups| && n <= |f.groups[g].triggers|
    ensures GroupCoords(f, g) + TriggerCoords(f, g, n) <= Coords(f)
  {
    TriggersAreFirst(f, g, n, |f.groups[g].triggers|);
    PrefixAfter(GroupCoords(f, g), TriggerCoords(f, g, n), GroupBlock(f, g));
    GroupsAreFirst(f, g + 1, |f.groups|);
  }

  lemma PartWithActions(f: File, g: nat, t: nat, a: nat)
    requires In(f, AtTrigger(g, t)) && a <= |f.groups[g].triggers[t].actions|
    ensures GroupCoords(f, g) + (TriggerCoords(f, g, t) + [AtTrigger(g, t)] + ActionCoords(f, g, t, a)) <= Coords(f)
  {
    FirstPart(f, g, t + 1);
    FirstActions(f, g, t, a);
    PrefixAfter(GroupCoords(f, g), TriggerCoords(f, g, t) + [AtTrigger(g, t)] + ActionCoords(f, g, t, a),
                TriggerCoords(f, g, t + 1));
  }

  lemma FirstActions(f: File, g: nat, t: nat, a: nat)
    requires In(f, AtTrigger(g, t)) && a <= |f.groups[g].triggers[t].actions|
    ensures TriggerCoords(f, g, t) + [AtTrigger(g, t)] + ActionCoords(f, g, t, a) <= TriggerCoords(f, g, t + 1)
  {
    var all := ActionCoords(f, g, t, |f.groups[g].triggers[t].actions|);
    assert ActionCoords(f, g, t, a) <= all;
    PrefixAfter(TriggerCoords(f, g, t) + [AtTrigger(g, t)], ActionCoords(f, g, t, a), all);
  }

  lemma EarlierComesFirst(f: File, c: Coord, d: Coord) returns (i: nat, j: nat)
    requires In(f, c) && In(f, d) && Earlier(c, d)
    ensures i < j < |Coords(f)| && Coords(f)[i] == c && Coords(f)[j] == d
  {
    CoordsAre(f);
    if c.AtAction? && c.g == d.g && c.t == d.t {
      i, j := EarlierAction(f, c.g, c.t, c.a, d.a);
    } else {
      i, j := EarlierTrigger(f, c, d);
    }
  }

  lemma EarlierTrigger(f: File, c: Coord, d: Coord) returns (i: nat, j: nat)
    requires In(f, c) && In(f, d) && (c.AtTrigger? || c.AtAction?) && (d.AtTrigger? || d.AtAction?)
    requires c.g < d.g || (c.g == d.g && c.t < d.t)
    ensures i < j < |Coords(f)| && Coords(f)[i] == c && Coords(f)[j] == d
  {
    CoordsAre(f);
    GroupCoordsAre(f, d.g);
    TriggerCoordsAre(f, d.g, d.t);
    FirstPart(f, d.g, d.t);
    i, j := SplitAt(Coords(f), GroupCoords(f, d.g) + TriggerCoords(f, d.g, d.t), c, d);
  }

  lemma EarlierAction(f: File, g: nat, t: nat, a: nat, b: nat) returns (i: nat, j: nat)
    requires In(f, AtAction(g, t, b)) && a < b
    ensures i < j < |Coords(f)| && Coords(f)[i] == AtAction(g, t, a) && Coords(f)[j] == AtAction(g, t, b)
  {
    CoordsAre(f);
    GroupCoordsAre(f, g);
    TriggerCoordsAre(f, g, t);
    PartWithActions(f, g, t, b);
    var own := ActionCoords(f, g, t, b);
    assert own[a] == AtAction(g, t, a);
    var before := TriggerCoords(f, g, t) + [AtTrigger(g, t)] + own;
    assert AtAction(g, t, a) in before && AtAction(g, t, b) !in before;
    i, j := SplitAt(Coords(f), GroupCoords(f, g) + before, AtAction(g, t, a), AtAction(g, t, b));
  }

  function IDs(hash: Hash, f: File, cs: seq<Coord>): (ids: seq<string>)
    requires AllIn(f, cs)
    ensures |ids| == |cs| && forall i :: 0 <= i < |cs| ==> ids[i] == ID(hash, f, cs[i])
  {
    seq(|cs|, i requires 0 <= i < |cs| => ID(hash, f, cs[i]))
  }

  /** The refs from position `n` on have these IDs. */
  ghost predicate Continues(live: seq<EntityRef>, n: nat, ids: seq<string>) {
    |live| == n + |ids| && forall i: nat :: i < |ids| ==> live[n + i].id == ids[i]
  }

  lemma InsertContinues(s: RegistryState, n: nat, ids: seq<string>, e: Entity)
    requires Continues(s.live, n, ids)
    ensures Continues(Insert(s, e).live, n, ids + [e.Id()])
  {
    assert Insert(s, e).live == s.live + [e.Ref()];
  }

  lemma IDsSnoc(hash: Hash, f: File, cs: seq<Coord>)
    requires AllIn(f, cs) && cs != []
    ensures IDs(hash, f, cs) == IDs(hash, f, cs[..|cs| - 1]) + [ID(hash, f, cs[|cs| - 1])]
  {
  }

  lemma PickTwo(live: seq<EntityRef>, n: nat, ids: seq<string>, k: nat, l: nat)
    requires Continues(live, n, ids) && k < l < |ids|
    ensures n + k < n + l < |live| && live[n + k].id == ids[k] && live[n + l].id == ids[l]
  {
  }

  lemma {:induction false} RefsInOrder(hash: Hash, s: RegistryState, f: File, cs: seq<Coord>)
    requires AllIn(f, cs)
    ensures Continues(InsertAll(hash, s, f, cs).live, |s.live|, IDs(hash, f, cs))
  {
    if cs != [] {
      var n := |cs| - 1;
      RefsInOrder(hash, s, f, cs[..n]);
      InsertContinues(InsertAll(hash, s, f, cs[..n]), |s.live|, IDs(hash, f, cs[..n]), EntityAt(hash, f, cs[n]));
      IDsSnoc(hash, f, cs);
    }
  }

  lemma EarlierID(hash: Hash, f: File, c: Coord, d: Coord, ids: seq<string>) returns (k: nat, l: nat)
    requires AllIn(f, Coords(f)) && ids == IDs(hash, f, Coords(f)) && In(f, c) && In(f, d) && Earlier(c, d)
    ensures k < l < |ids| && ids[k] == ID(hash, f, c) && ids[l] == ID(hash, f, d)
  {
    k, l := EarlierComesFirst(f, c, d);
  }

  lemma PlacesInIndex(hash: Hash, f: File, live: seq<EntityRef>, n: nat, c: Coord, d: Coord) returns (i: nat, j: nat)
    requires AllIn(f, Coords(f)) && In(f, c) && In(f, d) && Earlier(c, d)
    requires Continues(live, n, IDs(hash, f, Coords(f)))
    ensures i < j < |live| && live[i].id == ID(hash, f, c) && live[j].id == ID(hash, f, d)
  {
    var ids := IDs(hash, f, Coords(f));
    var k, l := EarlierID(hash, f, c, d, ids);
    PickTwo(live, n, ids, k, l);
    i, j := n + k, n + l;
  }

  lemma RegisteredContinues(hash: Hash, s: RegistryState, f: File, prior: Option<string>)
    requires Known(s, prior)
    ensures AllIn(f, Coords(f))
    ensures Continues(Registered(hash, s, f, prior).live, |Cleared(s, prior).live|, IDs(hash, f, Coords(f)))
  {
    CoordsAre(f);
    RefsInOrder(hash, Cleared(s, prior), f, Coords(f));
  }

  lemma KindAt(w: World, s: RegistryState, files: iset<File>, f: File, c: Coord, x: EntityRef)
    requires WorldOk(w) && Integrity(w, s, files) && f in files && In(f, c) && (c.AtTrigger? || c.AtAction?)
    requires x in s.live && x.id == ID(w.hash, f, c)
    ensures x.kind == if c.AtTrigger? then TriggerKind else ActionKind
  {
    Stored(w, s, files, f, c);
    assert Refers(s, x);
    OneKindPerID(s, x);
  }

  lemma EarlierIsPreferred(lower: string -> string, live: seq<EntityRef>, i: nat, j: nat, kind: Kind, name: string,
                           found: Option<string>)
    requires i < j < |live| && IDsDistinct(live) && live[i].kind == kind && lower(live[i].name) == lower(name)
    requires MayFind(lower, live, name, kind, found) && forall x :: x in live ==> x.id != name
    ensures found.Some? && found.value != live[j].id
  {
    assert live[i] in live;
    FoundByName(lower, live, name, kind, found);
  }

  /** Within a file the first declaration of a name wins: a lookup by a name that two of its
      triggers, or two of its actions, share never finds the later one. */
  lemma LaterNamesakeIsNotFound(w: World, s: RegistryState, files: iset<File>, f: File, prior: Option<string>,
                                c: Coord, d: Coord, lower: string -> string, name: string, found: Option<string>)
    requires WorldOk(w) && Integrity(w, s, files) && f in w.files && Finds(w, s, f.path, prior)
    requires In(f, c) && In(f, d) && Earlier(c, d)
    requires var s' := Registered(w.hash, s, f, prior);
             && (forall x :: x in s'.live ==> x.id != name)
             && (forall x :: x in s'.live && x.id == ID(w.hash, f, c) ==> lower(x.name) == lower(name))
             && MayFind(lower, s'.live, name, if c.AtTrigger? then TriggerKind else ActionKind, found)
    ensures found.Some? && found.value != ID(w.hash, f, d)
  {
    var live := Registered(w.hash, s, f, prior).live;
    RegisterKeepsIntegrity(w, s, files, f, prior);
    RegisteredContinues(w.hash, s, f, prior);
    var i, j := PlacesInIndex(w.hash, f, live, |Cleared(s, prior).live|, c, d);
    assert live[i] in live;
    KindAt(w, Registered(w.hash, s, f, prior), FilesAfter(w, files, f), f, c, live[i]);
    EarlierIsPreferred(lower, live, i, j, if c.AtTrigger? then TriggerKind else ActionKind, name, found);
  }
}
