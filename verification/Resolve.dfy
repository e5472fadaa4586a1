/** Alias expansion and option inheritance: src/domain/recurfile/aliases.go and resolve.go. */
module Resolving {
  import opened Options
  import opened Values
  import opened DottedNames
  import Overlay

  /** A nil alias map behaves like an empty one everywhere, so both are the empty map. */
  type Aliases = map<string, string>

  // ------------------------------------------------------------------ raw entities

  datatype RawAction = RawAction(typ: string, name: string, options: Option<Obj>)

  datatype RawTrigger = RawTrigger(typ: string, name: string, options: Option<Obj>, actions: seq<RawAction>)

  datatype RawGroup = RawGroup(name: string, aliases: Aliases, options: Option<Obj>,
                               triggers: seq<RawTrigger>, actions: seq<RawAction>)

  class RawFile {
    const path: string
    const aliases: Aliases
    var groups: seq<RawGroup>

    constructor (path: string, aliases: Aliases, groups: seq<RawGroup>)
      ensures this.path == path && this.aliases == aliases && this.groups == groups
    {
      this.path := path;
      this.aliases := aliases;
      this.groups := groups;
    }
  }

  // ---------------------------------------------------------------------- aliases

  function FirstSegment(name: string): string {
    name[..FirstDot(name)]
  }

  function ExpandAlias(name: string, aliases: Aliases): string {
    if |aliases| == 0 then name
    else
      var dot := FirstDot(name);
      if dot == |name| then
        if name in aliases then aliases[name] else name
      else
        var prefix := name[..dot];
        if prefix in aliases then aliases[prefix] + name[dot..] else name
  }

  method MergeAliases(fileAliases: Aliases, groupAliases: Aliases) returns (r: Aliases)
    ensures r == fileAliases + groupAliases
  {
    r := map[];
    r := CopyInto(r, fileAliases);
    r := CopyInto(r, groupAliases);
  }

  method CopyInto(base: Aliases, more: Aliases) returns (r: Aliases)
    ensures r == base + more
  {
    r := base;
    var todo := more.Keys;
    while todo != {}
      invariant todo <= more.Keys
      invariant r.Keys == base.Keys + (more.Keys - todo)
      invariant forall k :: k in r ==> r[k] == if k in more && k !in todo then more[k] else base[k]
      decreases |todo|
    {
      var k :| k in todo;
      r := r[k := more[k]];
      todo := todo - {k};
    }
  }

  /** `r` is a possible outcome of expanding the keys of `opts`. Go visits a map in an
      unspecified order, so when two keys expand to the same one, either value may win. */
  ghost predicate Expanded(opts: Option<Obj>, aliases: Aliases, r: Option<Obj>) {
    if opts.None? || opts.value == map[] || aliases == map[] then r == opts
    else
      && r.Some?
      && (forall k :: k in opts.value ==> ExpandAlias(k, aliases) in r.value)
      && (forall j :: j in r.value ==> Origin(opts.value, aliases, j, r.value[j]))
  }

  /** Some option named `j` after expansion holds `v`. */
  ghost predicate Origin(opts: Obj, aliases: Aliases, j: string, v: Value) {
    exists k :: k in opts && ExpandAlias(k, aliases) == j && opts[k] == v
  }

  method ExpandOptionAliases(opts: Option<Obj>, aliases: Aliases) returns (r: Option<Obj>)
    ensures Expanded(opts, aliases, r)
  {
    if opts.None? || |opts.value| == 0 || |aliases| == 0 {
      return opts;
    }
    var result: Obj := map[];
    var todo := opts.value.Keys;
    while todo != {}
      invariant todo <= opts.value.Keys
      invariant forall k :: k in opts.value && k !in todo ==> ExpandAlias(k, aliases) in result
      invariant forall j :: j in result ==> Origin(opts.value, aliases, j, result[j])
      decreases |todo|
    {
      var k :| k in todo;
      assert Origin(opts.value, aliases, ExpandAlias(k, aliases), opts.value[k]);
      result := result[ExpandAlias(k, aliases) := opts.value[k]];
      todo := todo - {k};
    }
    return Some(result);
  }

  // -------------------------------------------------------------------- resolving

  function ActionTypes(actions: seq<RawAction>, aliases: Aliases): (r: seq<RawAction>)
    ensures |r| == |actions|
  {
    seq(|actions|, i requires 0 <= i < |actions| => actions[i].(typ := ExpandAlias(actions[i].typ, aliases)))
  }

  function Inherit(actions: seq<RawAction>, groupOptions: Option<Obj>): (r: seq<RawAction>)
    ensures |r| == |actions|
  {
    seq(|actions|, i requires 0 <= i < |actions| =>
      actions[i].(options := Overlay.Result([groupOptions, actions[i].options])))
  }

  /** `r` is a possible outcome of resolving trigger `t` inside an already resolved group. */
  ghost predicate TriggerResolved(aliases: Aliases, group: RawGroup, t: RawTrigger, r: RawTrigger) {
    var own := if t.actions == [] then group.actions else t.actions;
    && r.name == t.name
    && r.typ == ExpandAlias(t.typ, aliases)
    && r.actions == Inherit(ActionTypes(own, aliases), group.options)
    && exists x :: Expanded(t.options, aliases, x) && r.options == Overlay.Result([group.options, x])
  }

  ghost predicate GroupResolved(fileAliases: Aliases, g: RawGroup, r: RawGroup) {
    var aliases := fileAliases + g.aliases;
    && r.name == g.name
    && r.aliases == g.aliases
    && Expanded(g.options, aliases, r.options)
    && r.actions == ActionTypes(g.actions, aliases)
    && |r.triggers| == |g.triggers|
    && forall i :: 0 <= i < |g.triggers| ==> TriggerResolved(aliases, r, g.triggers[i], r.triggers[i])
  }

  ghost predicate FileResolved(fileAliases: Aliases, groups: seq<RawGroup>, r: seq<RawGroup>) {
    && |r| == |groups|
    && forall i :: 0 <= i < |groups| ==> GroupResolved(fileAliases, groups[i], r[i])
  }

  method ExpandActionTypes(actions: seq<RawAction>, aliases: Aliases) returns (r: seq<RawAction>)
    ensures r == ActionTypes(actions, aliases)
  {
    r := actions;
    for ai := 0 to |r|
      invariant |r| == |actions|
      invariant forall i :: 0 <= i < |r| ==> r[i] == if i < ai then ActionTypes(actions, aliases)[i] else actions[i]
    {
      r := r[ai := r[ai].(typ := ExpandAlias(r[ai].typ, aliases))];
    }
  }

  method InheritOptions(actions: seq<RawAction>, aliases: Aliases, options: Option<Obj>) returns (r: seq<RawAction>)
    ensures r == Inherit(ActionTypes(actions, aliases), options)
  {
    r := actions;
    ghost var goal := Inherit(ActionTypes(actions, aliases), options);
    for ai := 0 to |r|
      invariant |r| == |actions|
      invariant forall i :: 0 <= i < |r| ==> r[i] == if i < ai then goal[i] else actions[i]
    {
      var merged := Overlay.OverlayMaps([options, r[ai].options]);
      r := r[ai := r[ai].(typ := ExpandAlias(r[ai].typ, aliases), options := merged)];
    }
  }

  method ResolveTrigger(aliases: Aliases, group: RawGroup, trigger: RawTrigger) returns (t: RawTrigger)
    ensures TriggerResolved(aliases, group, trigger, t)
  {
    t := trigger;
    var x := ExpandOptionAliases(t.options, aliases);
    var merged := Overlay.OverlayMaps([group.options, x]);
    t := t.(options := merged);
    t := t.(typ := ExpandAlias(t.typ, aliases));
    if |t.actions| == 0 && |group.actions| > 0 {
      t := t.(actions := group.actions);
    }
    var actions := InheritOptions(t.actions, aliases, group.options);
    t := t.(actions := actions);
  }

  method ResolveGroup(fileAliases: Aliases, group: RawGroup) returns (g: RawGroup)
    ensures GroupResolved(fileAliases, group, g)
  {
    g := group;
    var aliases := MergeAliases(fileAliases, g.aliases);
    var options := ExpandOptionAliases(g.options, aliases);
    var actions := ExpandActionTypes(g.actions, aliases);
    g := g.(options := options, actions := actions);
    ghost var start := g;
    for ti := 0 to |g.triggers|
      invariant |g.triggers| == |start.triggers| && g == start.(triggers := g.triggers)
      invariant forall i :: ti <= i < |g.triggers| ==> g.triggers[i] == group.triggers[i]
      invariant forall i :: 0 <= i < ti ==> TriggerResolved(aliases, start, group.triggers[i], g.triggers[i])
    {
      var t := ResolveTrigger(aliases, g, g.triggers[ti]);
      SameInherited(aliases, g, start, g.triggers[ti], t);
      g := g.(triggers := g.triggers[ti := t]);
    }
    forall i | 0 <= i < |g.triggers|
      ensures TriggerResolved(aliases, g, group.triggers[i], g.triggers[i])
    {
      SameInherited(aliases, start, g, group.triggers[i], g.triggers[i]);
    }
  }

  /** A trigger takes only options and actions from its group. */
  lemma SameInherited(aliases: Aliases, g: RawGroup, h: RawGroup, t: RawTrigger, r: RawTrigger)
    requires g.options == h.options && g.actions == h.actions && TriggerResolved(aliases, g, t, r)
    ensures TriggerResolved(aliases, h, t, r)
  {
  }

  /** Rewrites every group of the file in place. */
  method Resolve(f: RawFile)
    modifies f`groups
    ensures FileResolved(f.aliases, old(f.groups), f.groups)
  {
    for gi := 0 to |f.groups|
      invariant |f.groups| == |old(f.groups)| && f.groups[gi..] == old(f.groups)[gi..]
      invariant forall i :: 0 <= i < gi ==> GroupResolved(f.aliases, old(f.groups)[i], f.groups[i])
    {
      assert f.groups[gi] == old(f.groups)[gi] by { assert f.groups[gi..][0] == old(f.groups)[gi..][0]; }
      var g := ResolveGroup(f.aliases, f.groups[gi]);
      f.groups := f.groups[gi := g];
    }
  }

  // -------------------------------------------------------------- alias theorems

  /** Only the first segment is looked up, whether or not a dot follows it. */
  lemma ExpandsFirstSegment(name: string, aliases: Aliases)
    ensures ExpandAlias(name, aliases)
         == if FirstSegment(name) in aliases then aliases[FirstSegment(name)] + name[FirstDot(name)..] else name
  {
    if FirstDot(name) == |name| {
      assert FirstSegment(name) == name;
      assert name in aliases ==> aliases[name] + name[FirstDot(name)..] == aliases[name];
    }
  }

  /** An alias that a name can reach stands for a name whose first segment is no alias, or is
      an alias for itself. Aliases with a dot in their key cannot be reached. */
  ghost predicate Stable(aliases: Aliases) {
    forall k :: k in aliases && '.' !in k ==> Final(FirstSegment(aliases[k]), aliases)
  }

  predicate Final(segment: string, aliases: Aliases) {
    segment in aliases ==> aliases[segment] == segment
  }

  /** A name stays as it is exactly if its first segment is not replaced by something else. */
  lemma StaysIff(name: string, aliases: Aliases)
    ensures ExpandAlias(name, aliases) == name <==> Final(FirstSegment(name), aliases)
  {
    ExpandsFirstSegment(name, aliases);
    var segment, rest := FirstSegment(name), name[FirstDot(name)..];
    assert name == segment + rest;
    if segment in aliases && aliases[segment] + rest == segment + rest {
      assert (aliases[segment] + rest)[..|segment|] == segment;
      assert |aliases[segment]| == |segment|;
    }
  }

  lemma NoDotIsOneSegment(k: string)
    requires '.' !in k
    ensures FirstSegment(k) == k && FirstDot(k) == |k|
  {
  }

  /** What follows the first dot plays no part in the expansion. */
  lemma ExpandPrefixed(a: string, rest: string, aliases: Aliases)
    requires rest == "" || rest[0] == '.'
    ensures ExpandAlias(a + rest, aliases) == ExpandAlias(a, aliases) + rest
  {
    FirstDotOf(a, rest);
    assert FirstSegment(a + rest) == FirstSegment(a);
    ExpandsFirstSegment(a, aliases);
    ExpandsFirstSegment(a + rest, aliases);
    var dot := FirstDot(a);
    assert (a + rest)[dot..] == a[dot..] + rest;
    if FirstSegment(a) in aliases {
      Regroup(aliases[FirstSegment(a)], a[dot..], rest);
    }
  }

  lemma Regroup(a: string, b: string, c: string)
    ensures a + (b + c) == a + b + c
  {
  }

  lemma ExpandTwice(name: string, aliases: Aliases)
    requires Stable(aliases)
    ensures ExpandAlias(ExpandAlias(name, aliases), aliases) == ExpandAlias(name, aliases)
  {
    var k, rest := FirstSegment(name), name[FirstDot(name)..];
    ExpandsFirstSegment(name, aliases);
    if k in aliases {
      ExpandPrefixed(aliases[k], rest, aliases);
      StaysIff(aliases[k], aliases);
    }
  }

  /** An unstable alias map has an alias that needs a second expansion. */
  lemma Offender(aliases: Aliases) returns (k: string)
    requires !Stable(aliases)
    ensures k in aliases && '.' !in k && ExpandAlias(k, aliases) == aliases[k]
    ensures ExpandAlias(aliases[k], aliases) != aliases[k]
  {
    k :| k in aliases && '.' !in k && !Final(FirstSegment(aliases[k]), aliases);
    NoDotIsOneSegment(k);
    StaysIff(aliases[k], aliases);
  }

  /** Expanding twice equals expanding once, for every name, exactly when the alias map is
      stable. */
  lemma ExpandAliasIdempotentIff(aliases: Aliases)
    ensures Stable(aliases)
       <==> forall name :: ExpandAlias(ExpandAlias(name, aliases), aliases) == ExpandAlias(name, aliases)
  {
    if Stable(aliases) {
      forall name
        ensures ExpandAlias(ExpandAlias(name, aliases), aliases) == ExpandAlias(name, aliases)
      {
        ExpandTwice(name, aliases);
      }
    } else {
      var k := Offender(aliases);
      assert ExpandAlias(ExpandAlias(k, aliases), aliases) != ExpandAlias(k, aliases);
    }
  }

  ghost predicate NoCollision(opts: Obj, aliases: Aliases) {
    forall i, j :: i in opts && j in opts && ExpandAlias(i, aliases) == ExpandAlias(j, aliases) ==> i == j
  }

  /** Without colliding keys the visiting order does not matter: the outcome is unique and
      holds every option under its expanded name. */
  lemma ExpansionIsDeterministic(opts: Option<Obj>, aliases: Aliases, r: Option<Obj>, s: Option<Obj>)
    requires opts.Some? ==> NoCollision(opts.value, aliases)
    requires Expanded(opts, aliases, r) && Expanded(opts, aliases, s)
    ensures r == s
    ensures opts.Some? ==> forall k :: k in opts.value ==>
              ExpandAlias(k, aliases) in r.value && r.value[ExpandAlias(k, aliases)] == opts.value[k]
  {
    if opts.Some? && opts.value != map[] && aliases != map[] {
      forall j | j in r.value
        ensures j in s.value && r.value[j] == s.value[j]
      {
        assert Origin(opts.value, aliases, j, r.value[j]);
        assert j in s.value && Origin(opts.value, aliases, j, s.value[j]);
      }
      forall j | j in s.value
        ensures j in r.value
      {
        assert Origin(opts.value, aliases, j, s.value[j]);
      }
      assert r.value == s.value;
      forall k | k in opts.value
        ensures r.value[ExpandAlias(k, aliases)] == opts.value[k]
      {
        assert Origin(opts.value, aliases, ExpandAlias(k, aliases), r.value[ExpandAlias(k, aliases)]);
      }
    }
  }

  // ------------------------------------------------------ resolving is idempotent

  ghost predicate FullyExpanded(opts: Option<Obj>, aliases: Aliases) {
    opts.Some? ==> forall k :: k in opts.value ==> ExpandAlias(k, aliases) == k
  }

  lemma ExpandedIsFull(opts: Option<Obj>, aliases: Aliases, r: Option<Obj>)
    requires Stable(aliases) && Expanded(opts, aliases, r)
    ensures FullyExpanded(r, aliases)
  {
    if opts.Some? && opts.value != map[] && aliases != map[] {
      forall j | j in r.value
        ensures ExpandAlias(j, aliases) == j
      {
        var k :| k in opts.value && ExpandAlias(k, aliases) == j && opts.value[k] == r.value[j];
        ExpandTwice(k, aliases);
      }
    }
  }

  lemma FullStaysPut(opts: Option<Obj>, aliases: Aliases, r: Option<Obj>)
    requires FullyExpanded(opts, aliases) && Expanded(opts, aliases, r)
    ensures r == opts
  {
    if opts.Some? && opts.value != map[] && aliases != map[] {
      forall j | j in r.value
        ensures j in opts.value && r.value[j] == opts.value[j]
      {
        assert Origin(opts.value, aliases, j, r.value[j]);
      }
      forall k | k in opts.value
        ensures k in r.value
      {
        assert ExpandAlias(k, aliases) in r.value;
      }
      assert r.value == opts.value;
    }
  }

  lemma ResultOfTwo(a: Option<Obj>, b: Option<Obj>)
    ensures Overlay.Result([a, b])
         == Some(if b.None? then (if a.None? then map[] else a.value)
                 else if a.None? then b.value else Overlay.Pair(a.value, b.value))
  {
    Overlay.OverlaySnoc([], a);
    Overlay.OverlaySnoc([a], b);
    assert [] + [a] == [a] && [a] + [b] == [a, b];
    if a.Some? { Overlay.PairLeftUnit(a.value); }
    if b.Some? { Overlay.PairLeftUnit(b.value); }
  }

  /** Merging the group options in again changes nothing. */
  lemma InheritTwice(g: Option<Obj>, x: Option<Obj>)
    ensures Overlay.Result([g, Overlay.Result([g, x])]) == Overlay.Result([g, x])
  {
    var once := Overlay.Result([g, x]);
    ResultOfTwo(g, x);
    ResultOfTwo(g, once);
    if g.Some? {
      Overlay.MergeSelf(Node(g.value));
      if x.Some? { Overlay.PairAbsorbs(g.value, x.value); }
    }
  }

  lemma ActionsResolvedTwice(actions: seq<RawAction>, aliases: Aliases, g: Option<Obj>)
    requires Stable(aliases)
    ensures var once := Inherit(ActionTypes(actions, aliases), g);
            Inherit(ActionTypes(once, aliases), g) == once
    ensures ActionTypes(ActionTypes(actions, aliases), aliases) == ActionTypes(actions, aliases)
  {
    forall i | 0 <= i < |actions|
      ensures ExpandAlias(ExpandAlias(actions[i].typ, aliases), aliases) == ExpandAlias(actions[i].typ, aliases)
      ensures Overlay.Result([g, Overlay.Result([g, actions[i].options])]) == Overlay.Result([g, actions[i].options])
    {
      ExpandTwice(actions[i].typ, aliases);
      InheritTwice(g, actions[i].options);
    }
  }

  lemma TriggerResolvedTwice(aliases: Aliases, group: RawGroup, t: RawTrigger, t1: RawTrigger, t2: RawTrigger)
    requires Stable(aliases) && FullyExpanded(group.options, aliases)
    requires TriggerResolved(aliases, group, t, t1) && TriggerResolved(aliases, group, t1, t2)
    ensures t2 == t1
  {
    ExpandTwice(t.typ, aliases);
    var own := if t.actions == [] then group.actions else t.actions;
    ActionsResolvedTwice(own, aliases, group.options);
    var x :| Expanded(t.options, aliases, x) && t1.options == Overlay.Result([group.options, x]);
    var y :| Expanded(t1.options, aliases, y) && t2.options == Overlay.Result([group.options, y]);
    ExpandedIsFull(t.options, aliases, x);
    ResultOfTwo(group.options, x);
    assert FullyExpanded(t1.options, aliases);
    FullStaysPut(t1.options, aliases, y);
    InheritTwice(group.options, x);
  }

  lemma GroupResolvedTwice(fileAliases: Aliases, g: RawGroup, g1: RawGroup, g2: RawGroup)
    requires Stable(fileAliases + g.aliases)
    requires GroupResolved(fileAliases, g, g1) && GroupResolved(fileAliases, g1, g2)
    ensures g2 == g1
  {
    var aliases := fileAliases + g.aliases;
    ExpandedIsFull(g.options, aliases, g1.options);
    FullStaysPut(g1.options, aliases, g2.options);
    ActionsResolvedTwice(g.actions, aliases, None);
    assert g2 == g1.(triggers := g2.triggers);
    forall i | 0 <= i < |g.triggers|
      ensures g2.triggers[i] == g1.triggers[i]
    {
      var t, t1, t2 := g.triggers[i], g1.triggers[i], g2.triggers[i];
      assert TriggerResolved(aliases, g1, t, t1);
      assert TriggerResolved(aliases, g2, t1, t2);
      assert TriggerResolved(aliases, g1, t1, t2);
      TriggerResolvedTwice(aliases, g1, t, t1, t2);
    }
    assert g2.triggers == g1.triggers;
  }

  /** Resolving a resolved file changes nothing, whatever order the options were visited in
      and even if option keys collided the first time. */
  lemma ResolveIsIdempotent(fileAliases: Aliases, gs: seq<RawGroup>, gs1: seq<RawGroup>, gs2: seq<RawGroup>)
    requires forall g :: g in gs ==> Stable(fileAliases + g.aliases)
    requires FileResolved(fileAliases, gs, gs1) && FileResolved(fileAliases, gs1, gs2)
    ensures gs2 == gs1
  {
    forall i | 0 <= i < |gs|
      ensures gs2[i] == gs1[i]
    {
      assert gs[i] in gs;
      GroupResolvedTwice(fileAliases, gs[i], gs1[i], gs2[i]);
    }
  }

  // ---------------------------------------------------- and exactly then idempotent

  function OneTrigger(groupAliases: Aliases, typ: string, options: Option<Obj>): seq<RawGroup> {
    [RawGroup("g", groupAliases, None, [RawTrigger(typ, "", options, [])], [])]
  }

  lemma OneTriggerResolves(fileAliases: Aliases, groupAliases: Aliases, typ: string, options: Option<Obj>)
    requires options.None? || options == Some(map[])
    ensures FileResolved(fileAliases, OneTrigger(groupAliases, typ, options),
                         OneTrigger(groupAliases, ExpandAlias(typ, fileAliases + groupAliases), Some(map[])))
  {
    var aliases := fileAliases + groupAliases;
    var g := OneTrigger(groupAliases, typ, options)[0];
    var r := OneTrigger(groupAliases, ExpandAlias(typ, aliases), Some(map[]))[0];
    ResultOfTwo(None, options);
    assert Expanded(options, aliases, options) && r.triggers[0].options == Overlay.Result([r.options, options]);
    assert r.actions == ActionTypes(g.actions, aliases);
    assert r.triggers[0].actions == Inherit(ActionTypes([], aliases), r.options);
    assert TriggerResolved(aliases, r, g.triggers[0], r.triggers[0]);
    assert GroupResolved(fileAliases, g, r);
  }

  /** Two passes over a file with the given aliases of its own and in each group. */
  ghost predicate TwoPasses(fileAliases: Aliases, groupAliases: Aliases,
                            gs: seq<RawGroup>, gs1: seq<RawGroup>, gs2: seq<RawGroup>) {
    && (forall g :: g in gs ==> g.aliases == groupAliases)
    && FileResolved(fileAliases, gs, gs1)
    && FileResolved(fileAliases, gs1, gs2)
  }

  /** An unstable alias map breaks it: the file with one trigger whose type is the offending
      alias resolves to something else the second time. */
  lemma UnstableIsNotIdempotent(fileAliases: Aliases, groupAliases: Aliases)
    requires !Stable(fileAliases + groupAliases)
    ensures exists gs, gs1, gs2 :: TwoPasses(fileAliases, groupAliases, gs, gs1, gs2) && gs2 != gs1
  {
    var aliases := fileAliases + groupAliases;
    var k := Offender(aliases);
    var v := aliases[k];
    OneTriggerResolves(fileAliases, groupAliases, k, None);
    OneTriggerResolves(fileAliases, groupAliases, v, Some(map[]));
    var gs, gs1 := OneTrigger(groupAliases, k, None), OneTrigger(groupAliases, v, Some(map[]));
    var gs2 := OneTrigger(groupAliases, ExpandAlias(v, aliases), Some(map[]));
    assert TwoPasses(fileAliases, groupAliases, gs, gs1, gs2);
    assert gs1[0].triggers[0].typ != gs2[0].triggers[0].typ;
  }

  /** Resolving is idempotent on every file with given aliases exactly when the merged alias
      map is stable. */
  lemma ResolveIdempotentIff(fileAliases: Aliases, groupAliases: Aliases)
    ensures Stable(fileAliases + groupAliases)
       <==> (forall gs, gs1, gs2 :: TwoPasses(fileAliases, groupAliases, gs, gs1, gs2) ==> gs2 == gs1)
  {
    if Stable(fileAliases + groupAliases) {
      forall gs, gs1, gs2 | TwoPasses(fileAliases, groupAliases, gs, gs1, gs2)
        ensures gs2 == gs1
      {
        ResolveIsIdempotent(fileAliases, gs, gs1, gs2);
      }
    } else {
      UnstableIsNotIdempotent(fileAliases, groupAliases);
    }
  }

  // ------------------------------------------------- what actions miss or get twice

  /** The actions a trigger ends up with, before they are resolved. */
  function OwnActions(g: RawGroup, i: nat): seq<RawAction>
    requires i < |g.triggers|
  {
    if g.triggers[i].actions == [] then g.actions else g.triggers[i].actions
  }

  lemma MergedIsFullIff(a: Option<Obj>, b: Option<Obj>, aliases: Aliases)
    ensures FullyExpanded(Overlay.Result([a, b]), aliases) <==> FullyExpanded(a, aliases) && FullyExpanded(b, aliases)
  {
    ResultOfTwo(a, b);
    var merged := Overlay.Result([a, b]).value;
    assert forall k :: k in merged <==> (a.Some? && k in a.value) || (b.Some? && k in b.value);
  }

  /** The options of a trigger are written with aliases expanded. Those of an action are so
      exactly if they were before: its own option keys are never expanded. */
  lemma ActionKeysAreLeftAlone(fileAliases: Aliases, g: RawGroup, r: RawGroup, i: nat, a: nat)
    requires GroupResolved(fileAliases, g, r) && Stable(fileAliases + g.aliases)
    requires i < |g.triggers| && a < |OwnActions(g, i)|
    ensures FullyExpanded(r.triggers[i].options, fileAliases + g.aliases)
    ensures |r.triggers[i].actions| == |OwnActions(g, i)|
    ensures FullyExpanded(r.triggers[i].actions[a].options, fileAliases + g.aliases)
       <==> FullyExpanded(OwnActions(g, i)[a].options, fileAliases + g.aliases)
  {
    var aliases, t := fileAliases + g.aliases, g.triggers[i];
    assert TriggerResolved(aliases, r, t, r.triggers[i]);
    ExpandedIsFull(g.options, aliases, r.options);
    var x :| Expanded(t.options, aliases, x) && r.triggers[i].options == Overlay.Result([r.options, x]);
    ExpandedIsFull(t.options, aliases, x);
    MergedIsFullIff(r.options, x, aliases);
    MergedIsFullIff(r.options, OwnActions(g, i)[a].options, aliases);
  }

  /** One action with the option key `fs.path`, where `fs` is an alias: the key stays, although
      the same key of a trigger would become `files.path`. */
  lemma ActionKeyStaysAnAlias(v: Value) returns (aliases: Aliases, g: RawGroup, r: RawGroup)
    ensures Stable(aliases) && ExpandAlias("fs.path", aliases) == "files.path"
    ensures g.aliases == map[] && GroupResolved(aliases, g, r)
    ensures |r.triggers| == 1 && |r.triggers[0].actions| == 1
    ensures r.triggers[0].actions[0].options == Some(map["fs.path" := v])
  {
    aliases := map["fs" := "files"];
    var own := RawAction("Shell", "", Some(map["fs.path" := v]));
    OneAlias(aliases);
    DotlessExpands("Shell", aliases);
    DotlessExpands("File", aliases);
    g, r := OneActionInGroup(aliases, "File", own);
  }

  lemma OneActionInGroup(aliases: Aliases, typ: string, own: RawAction) returns (g: RawGroup, r: RawGroup)
    requires ExpandAlias(typ, aliases) == typ && ExpandAlias(own.typ, aliases) == own.typ && own.options.Some?
    ensures g.aliases == map[] && GroupResolved(aliases, g, r)
    ensures |r.triggers| == 1 && r.triggers[0].actions == [own]
  {
    g := RawGroup("g", map[], None, [RawTrigger(typ, "", None, [own])], []);
    r := RawGroup("g", map[], None, [RawTrigger(typ, "", Some(map[]), [own])], []);
    assert aliases + map[] == aliases;
    OneActionStays(own, aliases);
    ResultOfTwo(None, None);
    assert Expanded(None, aliases, None);
    assert TriggerResolved(aliases, r, g.triggers[0], r.triggers[0]);
    assert ActionTypes([], aliases) == [];
  }

  lemma DotlessExpands(name: string, aliases: Aliases)
    requires '.' !in name
    ensures ExpandAlias(name, aliases) == if name in aliases then aliases[name] else name
  {
    NoDotIsOneSegment(name);
  }

  lemma OneAlias(aliases: Aliases)
    requires aliases == map["fs" := "files"]
    ensures Stable(aliases) && ExpandAlias("fs.path", aliases) == "files.path"
  {
    NoDotIsOneSegment("files");
    DotlessExpands("fs", aliases);
    ExpandPrefixed("fs", ".path", aliases);
    assert "fs" + ".path" == "fs.path";
    assert "files" + ".path" == "files.path";
  }

  lemma OneActionStays(act: RawAction, aliases: Aliases)
    requires ExpandAlias(act.typ, aliases) == act.typ && act.options.Some?
    ensures Inherit(ActionTypes([act], aliases), None) == [act]
  {
    ResultOfTwo(None, act.options);
    assert ActionTypes([act], aliases)[0] == act;
  }

  /** A trigger without actions of its own gets those of its group, whose types are expanded a
      second time. */
  lemma InheritedTypesAreExpandedTwice(fileAliases: Aliases, g: RawGroup, r: RawGroup, i: nat, a: nat)
    requires GroupResolved(fileAliases, g, r)
    requires i < |g.triggers| && g.triggers[i].actions == [] && a < |g.actions|
    ensures |r.triggers[i].actions| == |g.actions|
    ensures var aliases := fileAliases + g.aliases;
            r.triggers[i].actions[a].typ == ExpandAlias(ExpandAlias(g.actions[a].typ, aliases), aliases)
  {
    assert TriggerResolved(fileAliases + g.aliases, r, g.triggers[i], r.triggers[i]);
  }

  /** Trigger `i` of the group inherits its actions in a resolving with these aliases. */
  ghost predicate Inherits(fileAliases: Aliases, groupAliases: Aliases, g: RawGroup, r: RawGroup, i: nat, a: nat) {
    && g.aliases == groupAliases && GroupResolved(fileAliases, g, r)
    && i < |g.triggers| && g.triggers[i].actions == [] && a < |g.actions|
    && a < |r.triggers[i].actions|
  }

  function OneInherited(groupAliases: Aliases, first: string, second: string, t: string,
                        options: Option<Obj>): RawGroup {
    RawGroup("g", groupAliases, None,
             [RawTrigger(t, "", options, if options.None? then [] else [RawAction(second, "", options)])],
             [RawAction(first, "", None)])
  }

  lemma OneInheritedResolves(fileAliases: Aliases, groupAliases: Aliases, k: string)
    returns (g: RawGroup, r: RawGroup)
    ensures Inherits(fileAliases, groupAliases, g, r, 0, 0) && g.actions[0].typ == k
  {
    var aliases := fileAliases + groupAliases;
    var once := ExpandAlias(k, aliases);
    var twice := ExpandAlias(once, aliases);
    g := OneInherited(groupAliases, k, "", "", None);
    r := OneInherited(groupAliases, once, twice, ExpandAlias("", aliases), Some(map[]));
    ResultOfTwo(None, None);
    assert r.actions == ActionTypes(g.actions, aliases);
    assert r.triggers[0].actions == Inherit(ActionTypes(r.actions, aliases), None);
    assert Expanded(None, aliases, None);
    assert TriggerResolved(aliases, r, g.triggers[0], r.triggers[0]);
  }

  /** Inherited types come out as if expanded once, in every group with given aliases, exactly
      when the merged alias map is stable. */
  lemma InheritedTypesAreRightIff(fileAliases: Aliases, groupAliases: Aliases)
    ensures Stable(fileAliases + groupAliases) <==>
              forall g, r, i: nat, a: nat :: Inherits(fileAliases, groupAliases, g, r, i, a) ==>
                r.triggers[i].actions[a].typ == ExpandAlias(g.actions[a].typ, fileAliases + groupAliases)
  {
    var aliases := fileAliases + groupAliases;
    if Stable(aliases) {
      forall g, r, i: nat, a: nat | Inherits(fileAliases, groupAliases, g, r, i, a)
        ensures r.triggers[i].actions[a].typ == ExpandAlias(g.actions[a].typ, aliases)
      {
        InheritedTypesAreExpandedTwice(fileAliases, g, r, i, a);
        ExpandTwice(g.actions[a].typ, aliases);
      }
    } else {
      var k := Offender(aliases);
      var g, r := OneInheritedResolves(fileAliases, groupAliases, k);
      InheritedTypesAreExpandedTwice(fileAliases, g, r, 0, 0);
    }
  }
}
