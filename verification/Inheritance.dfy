/** What a resolved group says about its triggers and actions (src/domain/recurfile/resolve.go),
    put without the functions that compute it: whose options win, and what names become. */
module Inheritance {
  import opened Options
  import opened Values
  import opened DottedNames
  import opened Resolving
  import Overlay

  // --------------------------------------------------------------- whose options win

  /** `r` says what `above` says, and what `below` says where `above` is silent; two maps under
      the same key are laid over each other in the same way. */
  ghost predicate LaidOver(below: Value, above: Value, r: Value)
    decreases above
  {
    if below.Node? && above.Node? then
      && r.Node? && r.m.Keys == below.m.Keys + above.m.Keys
      && (forall k :: k in below.m && k !in above.m ==> r.m[k] == below.m[k])
      && (forall k :: k in above.m && k !in below.m ==> r.m[k] == above.m[k])
      && (forall k :: k in above.m && k in below.m ==> LaidOver(below.m[k], above.m[k], r.m[k]))
    else r == above
  }

  /** The same for option maps, of which either may be missing. */
  ghost predicate OptionsOver(below: Option<Obj>, above: Option<Obj>, r: Option<Obj>) {
    && r.Some?
    && match (below, above)
       case (None, None) => r.value == map[]
       case (Some(b), None) => r.value == b
       case (None, Some(a)) => r.value == a
       case (Some(b), Some(a)) => LaidOver(Node(b), Node(a), Node(r.value))
  }

  lemma {:induction false} MergeIsLaidOver(a: Value, b: Value)
    ensures LaidOver(a, b, Overlay.Merge(a, b))
    decreases b
  {
    if a.Node? && b.Node? {
      var r := Overlay.Merge(a, b);
      forall k | k in b.m && k in a.m
        ensures LaidOver(a.m[k], b.m[k], r.m[k])
      {
        MergeIsLaidOver(a.m[k], b.m[k]);
      }
      assert r.m.Keys == a.m.Keys + b.m.Keys;
    }
  }

  lemma ResultIsOver(a: Option<Obj>, b: Option<Obj>)
    ensures OptionsOver(a, b, Overlay.Result([a, b]))
  {
    ResultOfTwo(a, b);
    if a.Some? && b.Some? {
      MergeIsLaidOver(Node(a.value), Node(b.value));
    }
  }

  /** What is laid over what determines the result. */
  lemma {:induction false} OneResult(below: Value, above: Value, r: Value, s: Value)
    requires LaidOver(below, above, r) && LaidOver(below, above, s)
    ensures r == s
    decreases above
  {
    if below.Node? && above.Node? {
      forall k | k in r.m
        ensures r.m[k] == s.m[k]
      {
        if k in below.m && k in above.m {
          OneResult(below.m[k], above.m[k], r.m[k], s.m[k]);
        }
      }
      assert r.m == s.m;
    }
  }

  /** An action of a resolved trigger is one of its own, or of the group if it has none, under
      its own name; its own options win over those of the group. */
  lemma ActionOptionsWin(fileAliases: Aliases, g: RawGroup, r: RawGroup, i: nat, a: nat)
    requires GroupResolved(fileAliases, g, r) && i < |g.triggers|
    ensures |r.triggers| == |g.triggers|
    ensures var own := if g.triggers[i].actions == [] then g.actions else g.triggers[i].actions;
            && |r.triggers[i].actions| == |own|
            && (a < |own| ==>
                  && r.triggers[i].actions[a].name == own[a].name
                  && OptionsOver(r.options, own[a].options, r.triggers[i].actions[a].options))
  {
    var own := if g.triggers[i].actions == [] then g.actions else g.triggers[i].actions;
    assert TriggerResolved(fileAliases + g.aliases, r, g.triggers[i], r.triggers[i]);
    if a < |own| {
      ResultIsOver(r.options, own[a].options);
    }
  }

  /** The options of a trigger, their keys expanded, win over those of its group. */
  lemma TriggerOptionsWin(fileAliases: Aliases, g: RawGroup, r: RawGroup, i: nat) returns (expanded: Option<Obj>)
    requires GroupResolved(fileAliases, g, r) && i < |g.triggers|
    ensures Expanded(g.triggers[i].options, fileAliases + g.aliases, expanded)
    ensures OptionsOver(r.options, expanded, r.triggers[i].options)
  {
    assert TriggerResolved(fileAliases + g.aliases, r, g.triggers[i], r.triggers[i]);
    expanded :| Expanded(g.triggers[i].options, fileAliases + g.aliases, expanded)
                && r.triggers[i].options == Overlay.Result([r.options, expanded]);
    ResultIsOver(r.options, expanded);
  }

  // ------------------------------------------------------------- what names become

  /** `name` is this segment, with what follows it from the first dot on. */
  predicate Starts(name: string, segment: string, rest: string) {
    name == segment + rest && '.' !in segment && (rest == "" || rest[0] == '.')
  }

  /** The aliases of a group come before those of the file, and only the first segment is
      replaced. */
  ghost predicate Renamed(fileAliases: Aliases, groupAliases: Aliases, name: string, r: string) {
    forall segment, rest :: Starts(name, segment, rest) ==>
      r == (if segment in groupAliases then groupAliases[segment]
            else if segment in fileAliases then fileAliases[segment] else segment) + rest
  }

  lemma ExpandRenames(fileAliases: Aliases, groupAliases: Aliases, name: string)
    ensures Renamed(fileAliases, groupAliases, name, ExpandAlias(name, fileAliases + groupAliases))
  {
    forall segment, rest | Starts(name, segment, rest)
      ensures ExpandAlias(name, fileAliases + groupAliases)
           == (if segment in groupAliases then groupAliases[segment]
               else if segment in fileAliases then fileAliases[segment] else segment) + rest
    {
      ExpandStarted(name, segment, rest, fileAliases + groupAliases);
    }
  }

  lemma ExpandStarted(name: string, segment: string, rest: string, aliases: Aliases)
    requires Starts(name, segment, rest)
    ensures ExpandAlias(name, aliases) == (if segment in aliases then aliases[segment] else segment) + rest
  {
    ExpandsFirstSegment(name, aliases);
    assert FirstDot(name) == |segment| by {
      assert forall k :: 0 <= k < |segment| ==> name[k] == segment[k];
      assert rest != "" ==> name[|segment|] == '.';
    }
    assert name[..|segment|] == segment && name[|segment|..] == rest;
  }

  /** Triggers keep their names and their order; their types, the types of their own actions and
      the option keys of the group are renamed. */
  lemma NamesAreResolved(fileAliases: Aliases, g: RawGroup, r: RawGroup)
    requires GroupResolved(fileAliases, g, r)
    ensures r.name == g.name && |r.triggers| == |g.triggers|
    ensures forall i: nat | i < |g.triggers| ::
              && r.triggers[i].name == g.triggers[i].name
              && Renamed(fileAliases, g.aliases, g.triggers[i].typ, r.triggers[i].typ)
    ensures forall i: nat, a: nat | i < |g.triggers| && a < |g.triggers[i].actions| ::
              && a < |r.triggers[i].actions|
              && Renamed(fileAliases, g.aliases, g.triggers[i].actions[a].typ, r.triggers[i].actions[a].typ)
    ensures g.options.None? ==> r.options.None?
    ensures g.options.Some? ==> r.options.Some?
  {
    forall i: nat | i < |g.triggers|
      ensures r.triggers[i].name == g.triggers[i].name
      ensures Renamed(fileAliases, g.aliases, g.triggers[i].typ, r.triggers[i].typ)
    {
      assert TriggerResolved(fileAliases + g.aliases, r, g.triggers[i], r.triggers[i]);
      ExpandRenames(fileAliases, g.aliases, g.triggers[i].typ);
    }
    forall i: nat, a: nat | i < |g.triggers| && a < |g.triggers[i].actions|
      ensures a < |r.triggers[i].actions|
      ensures Renamed(fileAliases, g.aliases, g.triggers[i].actions[a].typ, r.triggers[i].actions[a].typ)
    {
      assert TriggerResolved(fileAliases + g.aliases, r, g.triggers[i], r.triggers[i]);
      ExpandRenames(fileAliases, g.aliases, g.triggers[i].actions[a].typ);
    }
  }

  lemma OptionComesOut(fileAliases: Aliases, groupAliases: Aliases, from: Obj, to: Obj, k: string)
    requires Expanded(Some(from), fileAliases + groupAliases, Some(to)) && k in from
    ensures exists j :: j in to && Renamed(fileAliases, groupAliases, k, j)
  {
    ExpandRenames(fileAliases, groupAliases, k);
    assert ExpandAlias(k, fileAliases + groupAliases) in to;
  }

  lemma OptionWentIn(fileAliases: Aliases, groupAliases: Aliases, from: Obj, to: Obj, j: string) returns (k: string)
    requires Expanded(Some(from), fileAliases + groupAliases, Some(to)) && j in to
    ensures k in from && Renamed(fileAliases, groupAliases, k, j) && to[j] == from[k]
  {
    var aliases := fileAliases + groupAliases;
    if from == map[] || aliases == map[] {
      k := j;
      assert ExpandAlias(j, aliases) == j;
    } else {
      assert Origin(from, aliases, j, to[j]);
      k :| k in from && ExpandAlias(k, aliases) == j && from[k] == to[j];
    }
    ExpandRenames(fileAliases, groupAliases, k);
  }

  /** Every option of a group comes out under its renamed key, and nothing else comes out. */
  lemma GroupOptionsAreRenamed(fileAliases: Aliases, g: RawGroup, r: RawGroup)
    requires GroupResolved(fileAliases, g, r) && g.options.Some?
    ensures r.options.Some?
    ensures forall k :: k in g.options.value ==>
              exists j :: j in r.options.value && Renamed(fileAliases, g.aliases, k, j)
    ensures forall j :: j in r.options.value ==>
              exists k :: k in g.options.value && Renamed(fileAliases, g.aliases, k, j)
                          && r.options.value[j] == g.options.value[k]
  {
    var from, to := g.options.value, r.options.value;
    forall k | k in from
      ensures exists j :: j in to && Renamed(fileAliases, g.aliases, k, j)
    {
      OptionComesOut(fileAliases, g.aliases, from, to, k);
    }
    forall j | j in to
      ensures exists k :: k in from && Renamed(fileAliases, g.aliases, k, j) && to[j] == from[k]
    {
      var k := OptionWentIn(fileAliases, g.aliases, from, to, j);
    }
  }
}
