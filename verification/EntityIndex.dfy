/** The tombstoned, lazily compacted identifier index of src/app/recurd/daemon/entity_index.go.
    Strings are byte strings here, as Go's len and slicing see them; strings.ToLower is an
    arbitrary function `lower`. */
module EntityIndexes {

  datatype Kind = TriggerKind | ActionKind | GroupKind | RecurfileKind

  datatype EntityRef = EntityRef(kind: Kind, id: string, name: string)

  // ------------------------------------------------- the simple index: a list of refs

  function Matching(live: seq<EntityRef>, p: EntityRef -> bool): seq<EntityRef> {
    if live == [] then []
    else
      var last := live[|live| - 1];
      Matching(live[..|live| - 1], p) + (if p(last) then [last] else [])
  }

  function WithID(id: string): EntityRef -> bool { (x: EntityRef) => x.id == id }

  function WithoutID(id: string): EntityRef -> bool { (x: EntityRef) => x.id != id }

  function Named(lower: string -> string, key: string): EntityRef -> bool { (x: EntityRef) => lower(x.name) == key }

  function Prefixed(prefix: string): EntityRef -> bool { (x: EntityRef) => prefix <= x.id }

  ghost predicate IDsDistinct(live: seq<EntityRef>) {
    forall i, j :: 0 <= i < j < |live| ==> live[i].id != live[j].id
  }

  /** The three tiers, most exact first. Matches of an ID prefix come in no particular order,
      because the source ranges over a map. */
  ghost predicate Answers(lower: string -> string, live: seq<EntityRef>, identifier: string, r: seq<EntityRef>) {
    var exact := Matching(live, WithID(identifier));
    var named := Matching(live, Named(lower, lower(identifier)));
    if exact != [] then r == exact
    else if named != [] then r == named
    else if 3 <= |identifier| then multiset(r) == multiset(Matching(live, Prefixed(identifier)))
    else r == []
  }

  // ------------------------------------------------------------ what the maps mean

  /** The refs that are not tombstoned, in insertion order. */
  function Live(entries: seq<EntityRef>, deleted: set<nat>): seq<EntityRef> {
    if entries == [] then []
    else
      var n := |entries| - 1;
      Live(entries[..n], deleted) + (if n in deleted then [] else [entries[n]])
  }

  /** The positions whose name folds to `key`, in order. */
  function Positions(lower: string -> string, entries: seq<EntityRef>, key: string): (r: seq<nat>)
    ensures AllBelow(r, |entries|)
  {
    if entries == [] then []
    else
      var n := |entries| - 1;
      Positions(lower, entries[..n], key) + (if lower(entries[n].name) == key then [n] else [])
  }

  predicate AllBelow(indices: seq<nat>, n: nat) {
    forall k :: 0 <= k < |indices| ==> indices[k] < n
  }

  /** The ID map points from every stored ID to its latest position, which for a live ref is
      its own. */
  ghost predicate IDsIndexed(entries: seq<EntityRef>, deleted: set<nat>, byID: map<string, nat>) {
    && (forall id :: id in byID ==> byID[id] < |entries| && entries[byID[id]].id == id)
    && (forall i :: 0 <= i < |entries| ==> entries[i].id in byID && (i !in deleted ==> byID[entries[i].id] == i))
  }

  ghost predicate NamesIndexed(lower: string -> string, entries: seq<EntityRef>, byName: map<string, seq<nat>>) {
    forall key :: Positions(lower, entries, key) == PositionsOf(byName, key)
  }

  function PositionsOf(byName: map<string, seq<nat>>, key: string): seq<nat> {
    if key in byName then byName[key] else []
  }

  class EntityIndex {
    const lower: string -> string
    const flushAt: nat
    var entries: seq<EntityRef>
    var byID: map<string, nat>
    var byName: map<string, seq<nat>>
    var deleted: set<nat>

    ghost predicate Valid()
      reads this
    {
      && 0 < flushAt
      && IDsIndexed(entries, deleted, byID)
      && NamesIndexed(lower, entries, byName)
      && (forall i :: i in deleted ==> i < |entries|)
      && |deleted| < flushAt
    }

    ghost function Refs(): seq<EntityRef>
      reads this
    {
      Live(entries, deleted)
    }

    constructor (lower: string -> string, flushAt: nat)
      requires 0 < flushAt
      ensures Valid() && Refs() == [] && this.lower == lower && this.flushAt == flushAt
    {
      this.lower := lower;
      this.flushAt := flushAt;
      entries, byID, byName, deleted := [], map[], map[], {};
    }

    method Add(r: EntityRef)
      requires Valid() && Matching(Refs(), WithID(r.id)) == []
      modifies this
      ensures Valid() && Refs() == old(Refs()) + [r]
    {
      var i, key := |entries|, lower(r.name);
      AddKeeps(r);
      entries, byID, byName :=
        entries + [r], byID[r.id := i], byName[key := PositionsOf(byName, key) + [i]];
    }

    lemma AddKeeps(r: EntityRef)
      requires Valid() && Matching(Refs(), WithID(r.id)) == []
      ensures IDsIndexed(entries + [r], deleted, byID[r.id := |entries|])
      ensures NamesIndexed(lower, entries + [r],
                           byName[lower(r.name) := PositionsOf(byName, lower(r.name)) + [|entries|]])
      ensures Live(entries + [r], deleted) == Refs() + [r]
    {
      NotLive(entries, deleted, r.id);
      LiveSnoc(entries, deleted, r);
      AppendID(entries, deleted, byID, r);
      AppendName(lower, entries, byName, r);
    }

    method Remove(id: string)
      requires Valid()
      modifies this
      ensures Valid() && Refs() == Matching(old(Refs()), WithoutID(id))
      ensures id !in old(byID) ==> entries == old(entries) && deleted == old(deleted)
      ensures id in old(byID) ==>
                var gone := old(deleted) + {old(byID)[id]};
                if |gone| >= flushAt then deleted == {} && entries == Refs()
                else deleted == gone && entries == old(entries)
    {
      if id !in byID {
        NothingToRemove(entries, deleted, id);
        return;
      }
      var i := byID[id];
      LiveWithout(entries, deleted, i, id);
      deleted := deleted + {i};
      if |deleted| >= flushAt {
        Flush();
      }
    }

    /** Compaction: keeps the live refs and forgets the tombstones. */
    method Flush()
      requires 0 < flushAt && IDsIndexed(entries, deleted, byID)
      modifies this
      ensures Valid() && deleted == {} && entries == Refs() == old(Refs())
    {
      entries, byID, byName := Rebuild();
      deleted := {};
      AllLive(entries);
    }

    /** The loop of the compaction: live entries move to new positions, in order. */
    method Rebuild() returns (newEntries: seq<EntityRef>, newByID: map<string, nat>, newByName: map<string, seq<nat>>)
      requires IDsIndexed(entries, deleted, byID)
      ensures newEntries == Live(entries, deleted)
      ensures IDsIndexed(newEntries, {}, newByID) && NamesIndexed(lower, newEntries, newByName)
    {
      newEntries, newByID, newByName := [], map[], map[];
      for i := 0 to |entries|
        invariant newEntries == Live(entries[..i], deleted)
        invariant IDsIndexed(newEntries, {}, newByID) && NamesIndexed(lower, newEntries, newByName)
      {
        var r := entries[i];
        assert entries[..i + 1] == entries[..i] + [r];
        LiveSnoc(entries[..i], deleted, r);
        if i !in deleted {
          FreshID(entries, deleted, byID, i);
          newEntries, newByID, newByName := Moved(newEntries, newByID, newByName, r);
        }
      }
      assert entries[..|entries|] == entries;
    }

    /** One turn of the compaction: the ref gets the next position. */
    method Moved(newEntries: seq<EntityRef>, newByID: map<string, nat>, newByName: map<string, seq<nat>>, r: EntityRef)
      returns (entries': seq<EntityRef>, byID': map<string, nat>, byName': map<string, seq<nat>>)
      requires IDsIndexed(newEntries, {}, newByID) && NamesIndexed(lower, newEntries, newByName)
      requires forall k :: 0 <= k < |newEntries| ==> newEntries[k].id != r.id
      ensures entries' == newEntries + [r]
      ensures IDsIndexed(entries', {}, byID') && NamesIndexed(lower, entries', byName')
    {
      AppendID(newEntries, {}, newByID, r);
      AppendName(lower, newEntries, newByName, r);
      var newIdx, key := |newEntries|, lower(r.name);
      entries' := newEntries + [r];
      byID' := newByID[r.id := newIdx];
      byName' := newByName[key := PositionsOf(newByName, key) + [newIdx]];
    }

    method Lookup(identifier: string) returns (r: seq<EntityRef>)
      requires Valid()
      ensures Answers(lower, Refs(), identifier, r)
    {
      TierFacts(identifier);
      if identifier in byID && byID[identifier] !in deleted {
        return [entries[byID[identifier]]];
      }
      var key := lower(identifier);
      if key in byName {
        assert byName[key] == Positions(lower, entries, key);
        var results := LiveAt(byName[key]);
        NamedIsLiveAt(lower, entries, deleted, key);
        if |results| > 0 { return results; }
      } else {
        NamedIsLiveAt(lower, entries, deleted, key);
      }
      if |identifier| >= 3 {
        r := PrefixScan(identifier);
        return;
      }
      return [];
    }

    /** Tier 2: the live refs at the positions stored under a name. */
    method LiveAt(indices: seq<nat>) returns (results: seq<EntityRef>)
      requires AllBelow(indices, |entries|)
      ensures results == Select(entries, deleted, indices)
    {
      results := [];
      for k := 0 to |indices|
        invariant results == Select(entries, deleted, indices[..k])
      {
        assert indices[..k + 1][..k] == indices[..k];
        if indices[k] !in deleted {
          results := results + [entries[indices[k]]];
        }
      }
      assert indices[..|indices|] == indices;
    }

    /** Tier 3: ranges over the ID map in an arbitrary order. */
    method PrefixScan(prefix: string) returns (results: seq<EntityRef>)
      requires Valid()
      ensures multiset(results) == multiset(Matching(Refs(), Prefixed(prefix)))
    {
      results := [];
      LiveMembers(entries, deleted);
      var todo := byID.Keys;
      while todo != {}
        invariant todo <= byID.Keys
        invariant IDsDistinct(results)
        invariant forall x :: x in results <==> x in Refs() && prefix <= x.id && x.id !in todo
        decreases |todo|
      {
        var id :| id in todo;
        var i := byID[id];
        assert forall x :: x in Refs() && x.id == id ==> i !in deleted && x == entries[i];
        if i !in deleted && |id| >= |prefix| && id[..|prefix|] == prefix {
          results := results + [entries[i]];
        }
        todo := todo - {id};
      }
      MatchingMembers(Refs(), Prefixed(prefix));
      LiveDistinct(entries, deleted, byID);
      MatchingDistinct(Refs(), Prefixed(prefix));
      assert forall x :: x in Refs() ==> x.id in byID;
      SameBag(results, Matching(Refs(), Prefixed(prefix)));
    }

    lemma TierFacts(identifier: string)
      requires Valid()
      ensures Matching(Refs(), WithID(identifier))
           == if identifier in byID && byID[identifier] !in deleted then [entries[byID[identifier]]] else []
    {
      LiveDistinct(entries, deleted, byID);
      LiveMembers(entries, deleted);
      var m := Matching(Refs(), WithID(identifier));
      MatchingMembers(Refs(), WithID(identifier));
      MatchingDistinct(Refs(), WithID(identifier));
      if identifier in byID && byID[identifier] !in deleted {
        assert entries[byID[identifier]] in m;
        OnlyOne(m, identifier);
      } else {
        EmptyOrNot(m);
      }
    }
  }

  // ------------------------------------------------------------------------- lemmas

  lemma PositionsSnoc(lower: string -> string, entries: seq<EntityRef>, r: EntityRef)
    ensures forall key :: Positions(lower, entries + [r], key)
                       == Positions(lower, entries, key) + (if lower(r.name) == key then [|entries|] else [])
  {
    assert (entries + [r])[..|entries|] == entries;
  }

  lemma {:induction false} MatchingMembers(live: seq<EntityRef>, p: EntityRef -> bool)
    ensures forall x :: x in Matching(live, p) <==> x in live && p(x)
  {
    if live != [] {
      MatchingMembers(live[..|live| - 1], p);
      assert live == live[..|live| - 1] + [live[|live| - 1]];
    }
  }

  lemma MatchingSnoc(live: seq<EntityRef>, x: EntityRef, p: EntityRef -> bool)
    ensures Matching(live + [x], p) == Matching(live, p) + (if p(x) then [x] else [])
  {
    assert (live + [x])[..|live|] == live;
  }

  lemma LiveSnoc(entries: seq<EntityRef>, deleted: set<nat>, r: EntityRef)
    ensures Live(entries + [r], deleted) == Live(entries, deleted) + (if |entries| in deleted then [] else [r])
  {
    assert (entries + [r])[..|entries|] == entries;
  }

  ghost predicate IsLive(entries: seq<EntityRef>, deleted: set<nat>, x: EntityRef) {
    exists i :: 0 <= i < |entries| && i !in deleted && entries[i] == x
  }

  lemma {:induction false} LiveMembers(entries: seq<EntityRef>, deleted: set<nat>)
    ensures forall x :: x in Live(entries, deleted) <==> IsLive(entries, deleted, x)
  {
    if entries != [] {
      var n := |entries| - 1;
      var init := entries[..n];
      LiveMembers(init, deleted);
      forall x
        ensures IsLive(entries, deleted, x) <==> IsLive(init, deleted, x) || (n !in deleted && entries[n] == x)
      {
        if IsLive(init, deleted, x) {
          var i :| 0 <= i < n && i !in deleted && init[i] == x;
          assert entries[i] == x;
        }
        if IsLive(entries, deleted, x) {
          var i :| 0 <= i < |entries| && i !in deleted && entries[i] == x;
          assert i < n ==> init[i] == x;
        }
      }
    }
  }

  lemma NotLive(entries: seq<EntityRef>, deleted: set<nat>, id: string)
    requires Matching(Live(entries, deleted), WithID(id)) == []
    ensures forall k :: 0 <= k < |entries| && k !in deleted ==> entries[k].id != id
  {
    LiveMembers(entries, deleted);
    MatchingMembers(Live(entries, deleted), WithID(id));
    forall k | 0 <= k < |entries| && k !in deleted
      ensures entries[k].id != id
    {
      assert IsLive(entries, deleted, entries[k]);
      assert entries[k] in Live(entries, deleted);
      assert entries[k] !in Matching(Live(entries, deleted), WithID(id));
    }
  }

  lemma EmptyOrNot(m: seq<EntityRef>)
    ensures 0 < |m| ==> m[0] in m
    ensures 1 < |m| ==> m[1] in m
  {
  }

  lemma OnlyOne(m: seq<EntityRef>, id: string)
    requires IDsDistinct(m) && m != [] && forall x :: x in m ==> x.id == id
    ensures m == [m[0]]
  {
    EmptyOrNot(m);
  }

  lemma AppendID(entries: seq<EntityRef>, deleted: set<nat>, byID: map<string, nat>, r: EntityRef)
    requires IDsIndexed(entries, deleted, byID)
    requires forall k :: 0 <= k < |entries| && k !in deleted ==> entries[k].id != r.id
    ensures IDsIndexed(entries + [r], deleted, byID[r.id := |entries|])
  {
  }

  lemma AppendName(lower: string -> string, entries: seq<EntityRef>, byName: map<string, seq<nat>>, r: EntityRef)
    requires NamesIndexed(lower, entries, byName)
    ensures NamesIndexed(lower, entries + [r],
                         byName[lower(r.name) := PositionsOf(byName, lower(r.name)) + [|entries|]])
  {
    PositionsSnoc(lower, entries, r);
  }

  lemma {:induction false} MatchingAll(live: seq<EntityRef>, p: EntityRef -> bool)
    requires forall i :: 0 <= i < |live| ==> p(live[i])
    ensures Matching(live, p) == live
  {
    if live != [] {
      MatchingAll(live[..|live| - 1], p);
    }
  }

  lemma NothingToRemove(entries: seq<EntityRef>, deleted: set<nat>, id: string)
    requires forall i :: 0 <= i < |entries| && i !in deleted ==> entries[i].id != id
    ensures Matching(Live(entries, deleted), WithoutID(id)) == Live(entries, deleted)
  {
    LiveMembers(entries, deleted);
    forall i | 0 <= i < |Live(entries, deleted)|
      ensures WithoutID(id)(Live(entries, deleted)[i])
    {
      assert Live(entries, deleted)[i] in Live(entries, deleted);
    }
    MatchingAll(Live(entries, deleted), WithoutID(id));
  }

  /** Tombstoning the only live position of an ID removes exactly that ref. */
  lemma {:induction false} LiveWithout(entries: seq<EntityRef>, deleted: set<nat>, i: nat, id: string)
    requires forall k :: 0 <= k < |entries| && k !in deleted && entries[k].id == id ==> k == i
    requires i < |entries| ==> entries[i].id == id
    ensures Live(entries, deleted + {i}) == Matching(Live(entries, deleted), WithoutID(id))
  {
    if entries != [] {
      var n := |entries| - 1;
      var below := Live(entries[..n], deleted);
      LiveWithout(entries[..n], deleted, i, id);
      MatchingSnoc(below, entries[n], WithoutID(id));
      assert Live(entries, deleted) == if n in deleted then below else below + [entries[n]];
      assert Live(entries, deleted + {i})
          == Live(entries[..n], deleted + {i}) + (if n in deleted || n == i then [] else [entries[n]]);
    }
  }

  lemma {:induction false} AllLive(entries: seq<EntityRef>)
    ensures Live(entries, {}) == entries
  {
    if entries != [] {
      AllLive(entries[..|entries| - 1]);
    }
  }

  lemma FreshID(entries: seq<EntityRef>, deleted: set<nat>, byID: map<string, nat>, i: nat)
    requires i < |entries| && i !in deleted && IDsIndexed(entries, deleted, byID)
    ensures var kept := Live(entries[..i], deleted);
            forall k :: 0 <= k < |kept| ==> kept[k].id != entries[i].id
  {
    var kept := Live(entries[..i], deleted);
    LiveMembers(entries[..i], deleted);
    forall k | 0 <= k < |kept|
      ensures kept[k].id != entries[i].id
    {
      assert kept[k] in kept;
      var p :| 0 <= p < i && p !in deleted && entries[..i][p] == kept[k];
      assert byID[entries[p].id] == p;
    }
  }

  /** Storage is what is live plus the tombstones. */
  lemma {:induction false} LiveCount(entries: seq<EntityRef>, deleted: set<nat>)
    requires forall d :: d in deleted ==> d < |entries|
    ensures |entries| == |Live(entries, deleted)| + |deleted|
  {
    if entries == [] {
      assert deleted == {};
    } else {
      var n := |entries| - 1;
      LiveCount(entries[..n], deleted - {n});
      LiveIgnores(entries[..n], deleted, n);
    }
  }

  lemma {:induction false} LiveIgnores(entries: seq<EntityRef>, deleted: set<nat>, n: nat)
    requires |entries| <= n
    ensures Live(entries, deleted - {n}) == Live(entries, deleted)
  {
    if entries != [] {
      LiveIgnores(entries[..|entries| - 1], deleted, n);
    }
  }

  lemma {:induction false} LiveDistinct(entries: seq<EntityRef>, deleted: set<nat>, byID: map<string, nat>)
    requires forall i :: 0 <= i < |entries| && i !in deleted ==> entries[i].id in byID && byID[entries[i].id] == i
    ensures IDsDistinct(Live(entries, deleted))
  {
    if entries != [] {
      var n := |entries| - 1;
      LiveDistinct(entries[..n], deleted, byID);
      if n !in deleted {
        LiveMembers(entries[..n], deleted);
        var below := Live(entries[..n], deleted);
        forall k | 0 <= k < |below|
          ensures below[k].id != entries[n].id
        {
          assert below[k] in below;
          var p :| 0 <= p < n && p !in deleted && entries[..n][p] == below[k];
        }
      }
    }
  }

  lemma {:induction false} MatchingDistinct(live: seq<EntityRef>, p: EntityRef -> bool)
    requires IDsDistinct(live)
    ensures IDsDistinct(Matching(live, p))
  {
    if live != [] {
      var init := live[..|live| - 1];
      MatchingDistinct(init, p);
      MatchingMembers(init, p);
      forall k | 0 <= k < |Matching(init, p)|
        ensures Matching(init, p)[k].id != live[|live| - 1].id
      {
        assert Matching(init, p)[k] in init;
      }
    }
  }

  lemma {:induction false} SameBag(a: seq<EntityRef>, b: seq<EntityRef>)
    requires IDsDistinct(a) && IDsDistinct(b)
    requires forall x :: x in a <==> x in b
    ensures multiset(a) == multiset(b)
  {
    forall x
      ensures multiset(a)[x] == multiset(b)[x]
    {
      AtMostOnce(a, x);
      AtMostOnce(b, x);
      assert x in multiset(a) <==> x in a;
      assert x in multiset(b) <==> x in b;
    }
  }

  lemma {:induction false} AtMostOnce(a: seq<EntityRef>, x: EntityRef)
    requires IDsDistinct(a)
    ensures multiset(a)[x] <= 1
  {
    if a != [] {
      var init := a[..|a| - 1];
      AtMostOnce(init, x);
      assert a == init + [a[|a| - 1]];
      if x == a[|a| - 1] {
        assert x !in init;
        assert x !in multiset(init);
      }
    }
  }

  /** The refs at some positions, tombstones skipped. */
  function Select(entries: seq<EntityRef>, deleted: set<nat>, indices: seq<nat>): seq<EntityRef>
    requires AllBelow(indices, |entries|)
  {
    if indices == [] then []
    else
      var k := |indices| - 1;
      Select(entries, deleted, indices[..k]) + (if indices[k] in deleted then [] else [entries[indices[k]]])
  }

  lemma {:induction false} SelectPrefix(entries: seq<EntityRef>, n: nat, deleted: set<nat>, indices: seq<nat>)
    requires n <= |entries| && AllBelow(indices, n)
    ensures Select(entries[..n], deleted, indices) == Select(entries, deleted, indices)
  {
    if indices != [] {
      SelectPrefix(entries, n, deleted, indices[..|indices| - 1]);
    }
  }

  lemma SelectSnoc(entries: seq<EntityRef>, deleted: set<nat>, indices: seq<nat>, p: nat)
    requires AllBelow(indices, |entries|) && p < |entries|
    ensures Select(entries, deleted, indices + [p])
         == Select(entries, deleted, indices) + (if p in deleted then [] else [entries[p]])
  {
    assert (indices + [p])[..|indices|] == indices;
  }

  lemma {:induction false} NamedIsLiveAt(lower: string -> string, entries: seq<EntityRef>, deleted: set<nat>,
                                         key: string)
    ensures Select(entries, deleted, Positions(lower, entries, key))
         == Matching(Live(entries, deleted), Named(lower, key))
  {
    if entries != [] {
      var n := |entries| - 1;
      var init := entries[..n];
      NamedIsLiveAt(lower, init, deleted, key);
      var ps := Positions(lower, init, key);
      SelectPrefix(entries, n, deleted, ps);
      SelectSnoc(entries, deleted, ps, n);
      MatchingSnoc(Live(init, deleted), entries[n], Named(lower, key));
      assert Positions(lower, entries, key) == if lower(entries[n].name) == key then ps + [n] else ps;
      assert Live(entries, deleted) == if n in deleted then Live(init, deleted) else Live(init, deleted) + [entries[n]];
    }
  }

  // ---------------------------------------------------------------- whole runs

  datatype Op = AddRef(r: EntityRef) | RemoveID(id: string) | Find(identifier: string)

  function Apply(live: seq<EntityRef>, op: Op): seq<EntityRef> {
    match op
    case AddRef(r) => live + [r]
    case RemoveID(id) => Matching(live, WithoutID(id))
    case Find(_) => live
  }

  function Run(ops: seq<Op>): seq<EntityRef> {
    if ops == [] then [] else Apply(Run(ops[..|ops| - 1]), ops[|ops| - 1])
  }

  /** Callers add an ID only while it is not live. */
  ghost predicate Runnable(ops: seq<Op>) {
    forall i :: 0 <= i < |ops| && ops[i].AddRef? ==> Matching(Run(ops[..i]), WithID(ops[i].r.id)) == []
  }

  /** The recorded answers are answers of the plain list at the time of the lookup. */
  ghost predicate Answered(lower: string -> string, ops: seq<Op>, answers: seq<seq<EntityRef>>) {
    && |answers| == |ops|
    && forall i :: 0 <= i < |ops| && ops[i].Find? ==> Answers(lower, Run(ops[..i]), ops[i].identifier, answers[i])
  }

  lemma AnsweredSnoc(lower: string -> string, ops: seq<Op>, answers: seq<seq<EntityRef>>, op: Op, r: seq<EntityRef>)
    requires Answered(lower, ops, answers)
    requires op.Find? ==> Answers(lower, Run(ops), op.identifier, r)
    ensures Answered(lower, ops + [op], answers + [r])
  {
    assert (ops + [op])[..|ops|] == ops;
    forall i | 0 <= i < |ops|
      ensures (ops + [op])[..i] == ops[..i]
    {
    }
  }

  method Perform(idx: EntityIndex, op: Op) returns (r: seq<EntityRef>)
    requires idx.Valid()
    requires op.AddRef? ==> Matching(idx.Refs(), WithID(op.r.id)) == []
    modifies idx
    ensures idx.Valid() && idx.Refs() == Apply(old(idx.Refs()), op)
    ensures op.Find? ==> Answers(idx.lower, old(idx.Refs()), op.identifier, r)
  {
    r := [];
    match op {
      case AddRef(x) => idx.Add(x);
      case RemoveID(id) => idx.Remove(id);
      case Find(identifier) => r := idx.Lookup(identifier);
    }
  }

  /** Over every run of additions, removals and lookups, with compactions wherever they
      happen, the index answers as the plain insertion-ordered list would, and stores fewer
      than `flushAt` refs more than are live. */
  method Replay(lower: string -> string, flushAt: nat, ops: seq<Op>)
    returns (answers: seq<seq<EntityRef>>, stored: nat)
    requires 0 < flushAt && Runnable(ops)
    ensures Answered(lower, ops, answers)
    ensures |Run(ops)| <= stored < |Run(ops)| + flushAt
  {
    var idx := new EntityIndex(lower, flushAt);
    answers := [];
    for n := 0 to |ops|
      invariant idx.Valid() && fresh(idx) && idx.lower == lower && idx.flushAt == flushAt
      invariant idx.Refs() == Run(ops[..n])
      invariant Answered(lower, ops[..n], answers)
    {
      TakeOneMore(ops, n);
      var r := Perform(idx, ops[n]);
      AnsweredSnoc(lower, ops[..n], answers, ops[n], r);
      answers := answers + [r];
    }
    assert ops[..|ops|] == ops;
    stored := |idx.entries|;
    LiveCount(idx.entries, idx.deleted);
  }

  lemma TakeOneMore(ops: seq<Op>, n: nat)
    requires n < |ops|
    ensures ops[..n + 1] == ops[..n] + [ops[n]] && Run(ops[..n + 1]) == Apply(Run(ops[..n]), ops[n])
  {
    assert ops[..n + 1][..n] == ops[..n];
  }

  lemma Swapped(m: seq<EntityRef>)
    requires IDsDistinct(m) && 1 < |m|
    ensures multiset([m[1], m[0]] + m[2..]) == multiset(m)
    ensures [m[1], m[0]] + m[2..] != m
  {
    assert m == [m[0], m[1]] + m[2..];
    assert ([m[1], m[0]] + m[2..])[0] != m[0];
  }

  /** A lookup is reproducible exactly when it is not decided by an ID prefix that two or
      more live refs share. */
  lemma ReproducibleIff(lower: string -> string, live: seq<EntityRef>, identifier: string)
    requires IDsDistinct(live)
    ensures (forall r, s :: Answers(lower, live, identifier, r) && Answers(lower, live, identifier, s) ==> r == s)
       <==> (ByPrefix(lower, live, identifier) ==> |Matching(live, Prefixed(identifier))| <= 1)
  {
    var m := Matching(live, Prefixed(identifier));
    if ByPrefix(lower, live, identifier) && 1 < |m| {
      MatchingDistinct(live, Prefixed(identifier));
      Swapped(m);
      assert Answers(lower, live, identifier, m);
      assert Answers(lower, live, identifier, [m[1], m[0]] + m[2..]);
    } else {
      forall r, s | Answers(lower, live, identifier, r) && Answers(lower, live, identifier, s)
        ensures r == s
      {
        if ByPrefix(lower, live, identifier) {
          SmallBag(m, r);
          SmallBag(m, s);
        }
      }
    }
  }

  /** The first two tiers found nothing and the identifier is long enough for the third. */
  predicate ByPrefix(lower: string -> string, live: seq<EntityRef>, identifier: string) {
    && Matching(live, WithID(identifier)) == []
    && Matching(live, Named(lower, lower(identifier))) == []
    && 3 <= |identifier|
  }

  lemma SmallBag(m: seq<EntityRef>, r: seq<EntityRef>)
    requires |m| <= 1 && multiset(r) == multiset(m)
    ensures r == m
  {
    assert |multiset(r)| == |multiset(m)|;
    if |m| == 1 {
      assert r[0] in multiset(r);
    }
  }
}
