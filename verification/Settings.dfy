/** The trigger-settings precedence chain of src/domain/recurfile/builder.go:
    daemon < plugin manifest < plugin override < group < trigger. */
module Settings {
  import opened Options
  import opened Values
  import Overlay
  import MapStores
  import Resolving

  datatype TriggerSettings = TriggerSettings(
    concurrencyMode: string,
    maxQueueSize: int,
    debounce: int,
    errorThreshold: int,
    actionErrorThreshold: int)

  const LAYERS := ["daemon", "plugin", "plugin_override", "group", "trigger"]

  // ------------------------------------------------------------ reading one value

  function ReadString(v: Option<Value>): string {
    if v.Some? && v.value.Str? then v.value.s else ""
  }

  /** Go's conversion of a float64 to int drops the fraction. */
  function Truncate(x: real): int {
    if 0.0 <= x then x.Floor else -((-x).Floor)
  }

  function ReadInt(v: Option<Value>): int {
    match v
    case Some(Int(n)) => n
    case Some(Float(x)) => Truncate(x)
    case _ => 0
  }

  /** `parse` stands for time.ParseDuration. */
  function ReadDuration(parse: string -> Option<int>, v: Option<Value>): int {
    match v
    case Some(Str(s)) => if parse(s).Some? then parse(s).value else 0
    case Some(Duration(ns)) => ns
    case _ => 0
  }

  // --------------------------------------------------------------- specification

  /** The definition of `key` in the most specific layer that has one. */
  function MostSpecific(layers: seq<Option<Obj>>, key: string): Option<Value> {
    if layers == [] then None
    else
      var top := layers[|layers| - 1];
      if top.Some? && key in top.value then Some(top.value[key])
      else MostSpecific(layers[..|layers| - 1], key)
  }

  function Direct(parse: string -> Option<int>, layers: seq<Option<Obj>>): TriggerSettings {
    TriggerSettings(
      ReadString(MostSpecific(layers, "concurrency_mode")),
      ReadInt(MostSpecific(layers, "max_queue_size")),
      ReadDuration(parse, MostSpecific(layers, "debounce")),
      ReadInt(MostSpecific(layers, "error_threshold")),
      ReadInt(MostSpecific(layers, "action_error_threshold")))
  }

  // ------------------------------------------------------ what the settings have to be

  /** Layer `i` is the most specific one that defines `key`. */
  ghost predicate Decides(layers: seq<Option<Obj>>, i: nat, key: string) {
    && i < |layers| && layers[i].Some? && key in layers[i].value
    && forall j :: i < j < |layers| && layers[j].Some? ==> key !in layers[j].value
  }

  ghost predicate Undefined(layers: seq<Option<Obj>>, key: string) {
    forall j :: 0 <= j < |layers| && layers[j].Some? ==> key !in layers[j].value
  }

  /** An integer, or a float with its fraction dropped toward zero; any other value is 0, and hides
      what less specific layers say. */
  ghost predicate IntSetting(layers: seq<Option<Obj>>, key: string, n: int) {
    && (Undefined(layers, key) ==> n == 0)
    && forall i: nat :: Decides(layers, i, key) ==>
         match layers[i].value[key]
         case Int(m) => n == m
         case Float(x) =>
           if 0.0 <= x then n as real <= x < n as real + 1.0 else n as real - 1.0 < x <= n as real
         case _ => n == 0
  }

  ghost predicate StringSetting(layers: seq<Option<Obj>>, key: string, s: string) {
    && (Undefined(layers, key) ==> s == "")
    && forall i: nat :: Decides(layers, i, key) ==>
         match layers[i].value[key] case Str(x) => s == x case _ => s == ""
  }

  /** A duration, or a text that parses as one. */
  ghost predicate DurationSetting(parse: string -> Option<int>, layers: seq<Option<Obj>>, key: string, ns: int) {
    && (Undefined(layers, key) ==> ns == 0)
    && forall i: nat :: Decides(layers, i, key) ==>
         match layers[i].value[key]
         case Duration(d) => ns == d
         case Str(x) => ns == (match parse(x) case Some(d) => d case None => 0)
         case _ => ns == 0
  }

  /** Every setting comes from the most specific layer that defines its own key. */
  ghost predicate SettingsOf(parse: string -> Option<int>, layers: seq<Option<Obj>>, r: TriggerSettings) {
    && StringSetting(layers, "concurrency_mode", r.concurrencyMode)
    && IntSetting(layers, "max_queue_size", r.maxQueueSize)
    && DurationSetting(parse, layers, "debounce", r.debounce)
    && IntSetting(layers, "error_threshold", r.errorThreshold)
    && IntSetting(layers, "action_error_threshold", r.actionErrorThreshold)
  }

  lemma {:induction false} MostSpecificDecides(layers: seq<Option<Obj>>, key: string)
    ensures MostSpecific(layers, key).None? ==> Undefined(layers, key)
    ensures MostSpecific(layers, key).Some? ==>
              exists i: nat :: Decides(layers, i, key) && layers[i].value[key] == MostSpecific(layers, key).value
  {
    if layers != [] {
      var init, n := layers[..|layers| - 1], |layers| - 1;
      MostSpecificDecides(init, key);
      if layers[n].Some? && key in layers[n].value {
        assert Decides(layers, n, key);
      } else if MostSpecific(init, key).Some? {
        var i: nat :| Decides(init, i, key) && init[i].value[key] == MostSpecific(init, key).value;
        assert Decides(layers, i, key);
      }
    }
  }

  lemma OneLayerDecides(layers: seq<Option<Obj>>, key: string, i: nat, j: nat)
    requires Decides(layers, i, key)
    ensures !Undefined(layers, key) && (Decides(layers, j, key) ==> i == j)
  {
  }

  lemma ReadsTheDeciding(layers: seq<Option<Obj>>, key: string)
    ensures Undefined(layers, key) ==> MostSpecific(layers, key).None?
    ensures forall i: nat :: Decides(layers, i, key) ==> MostSpecific(layers, key) == Some(layers[i].value[key])
  {
    MostSpecificDecides(layers, key);
    forall i: nat | Decides(layers, i, key)
      ensures MostSpecific(layers, key) == Some(layers[i].value[key])
    {
      OneLayerDecides(layers, key, i, i);
      var k: nat :| Decides(layers, k, key) && layers[k].value[key] == MostSpecific(layers, key).value;
      OneLayerDecides(layers, key, i, k);
    }
    if MostSpecific(layers, key).Some? {
      var k: nat :| Decides(layers, k, key);
      OneLayerDecides(layers, key, k, k);
    }
  }

  lemma IntIs(layers: seq<Option<Obj>>, key: string)
    ensures IntSetting(layers, key, ReadInt(MostSpecific(layers, key)))
  {
    ReadsTheDeciding(layers, key);
  }

  lemma StringIs(layers: seq<Option<Obj>>, key: string)
    ensures StringSetting(layers, key, ReadString(MostSpecific(layers, key)))
  {
    ReadsTheDeciding(layers, key);
  }

  lemma DurationIs(parse: string -> Option<int>, layers: seq<Option<Obj>>, key: string)
    ensures DurationSetting(parse, layers, key, ReadDuration(parse, MostSpecific(layers, key)))
  {
    ReadsTheDeciding(layers, key);
  }

  lemma DirectIsRight(parse: string -> Option<int>, layers: seq<Option<Obj>>)
    ensures SettingsOf(parse, layers, Direct(parse, layers))
  {
    StringIs(layers, "concurrency_mode");
    IntIs(layers, "max_queue_size");
    DurationIs(parse, layers, "debounce");
    IntIs(layers, "error_threshold");
    IntIs(layers, "action_error_threshold");
  }

  lemma {:induction false} OtherKeysStay(layers: seq<Option<Obj>>, i: nat, obj: Obj, key: string, other: string)
    requires i < |layers| && other != key
    requires forall k :: k != key ==> (k in obj <==> layers[i].Some? && k in layers[i].value)
    requires forall k :: k != key && k in obj ==> obj[k] == layers[i].value[k]
    ensures MostSpecific(layers[i := Some(obj)], other) == MostSpecific(layers, other)
  {
    var n := |layers| - 1;
    if i == n {
      assert layers[i := Some(obj)][..n] == layers[..n];
    } else {
      OtherKeysStay(layers[..n], i, obj, key, other);
      assert layers[i := Some(obj)][..n] == layers[..n][i := Some(obj)];
    }
  }

  /** Defining, changing or removing one key in one layer changes the setting of no other key. */
  lemma OneKeyOneSetting(parse: string -> Option<int>, layers: seq<Option<Obj>>, i: nat, obj: Obj, key: string)
    requires i < |layers|
    requires forall k :: k != key ==> (k in obj <==> layers[i].Some? && k in layers[i].value)
    requires forall k :: k != key && k in obj ==> obj[k] == layers[i].value[k]
    ensures var before, after := Direct(parse, layers), Direct(parse, layers[i := Some(obj)]);
            && (key != "concurrency_mode" ==> after.concurrencyMode == before.concurrencyMode)
            && (key != "max_queue_size" ==> after.maxQueueSize == before.maxQueueSize)
            && (key != "debounce" ==> after.debounce == before.debounce)
            && (key != "error_threshold" ==> after.errorThreshold == before.errorThreshold)
            && (key != "action_error_threshold" ==> after.actionErrorThreshold == before.actionErrorThreshold)
  {
    forall other | other != key
      ensures MostSpecific(layers[i := Some(obj)], other) == MostSpecific(layers, other)
    {
      OtherKeysStay(layers, i, obj, key, other);
    }
  }

  // ---------------------------------------------- the overlay as a most-specific scan

  lemma {:induction false} MostSpecificIsLastDef(layers: seq<Option<Obj>>, key: string)
    ensures var defs := Overlay.Defs(layers, key);
            MostSpecific(layers, key) == if defs == [] then None else Some(defs[|defs| - 1])
  {
    if layers != [] {
      MostSpecificIsLastDef(layers[..|layers| - 1], key);
      assert Overlay.Defs(layers, key) != [] || Overlay.Defs(layers[..|layers| - 1], key) == [];
    }
  }

  /** A map is never a valid setting, so merging maps cannot be told from replacing them. */
  ghost predicate SameSetting(a: Option<Value>, b: Option<Value>) {
    a == b || (a.Some? && b.Some? && a.value.Node? && b.value.Node?)
  }

  function Field(all: Option<Obj>, key: string): Option<Value> {
    if all.Some? && key in all.value then Some(all.value[key]) else None
  }

  lemma OverlaidFieldIsMostSpecific(layers: seq<Option<Obj>>, key: string)
    ensures SameSetting(Field(Some(Overlay.OverlayAll(layers)), key), MostSpecific(layers, key))
  {
    Overlay.ClosedForm(layers, key);
    MostSpecificIsLastDef(layers, key);
  }

  /** The layers by position, nil where a layer was never set. */
  function ByPosition(names: seq<string>, layers: map<string, Obj>): seq<Option<Obj>> {
    seq(|names|, i requires 0 <= i < |names| => if names[i] in layers then Some(layers[names[i]]) else None)
  }

  lemma {:induction false} StackIsPresent(names: seq<string>, layers: map<string, Obj>)
    ensures MapStores.Stack(names, layers) == Overlay.Present(ByPosition(names, layers))
  {
    if names != [] {
      var init := names[..|names| - 1];
      StackIsPresent(init, layers);
      assert ByPosition(names, layers)[..|names| - 1] == ByPosition(init, layers);
    }
  }

  lemma StoredFieldIsMostSpecific(names: seq<string>, layers: map<string, Obj>, key: string)
    ensures SameSetting(Field(MapStores.Effective(names, layers), key),
                        MostSpecific(ByPosition(names, layers), key))
  {
    var stack := MapStores.Stack(names, layers);
    StackIsPresent(names, layers);
    Overlay.NilLayersVanish(ByPosition(names, layers));
    OverlaidFieldIsMostSpecific(ByPosition(names, layers), key);
    assert Field(MapStores.Effective(names, layers), key) == Field(Some(Overlay.OverlayAll(stack)), key);
  }

  // --------------------------------------------------------------- the algorithm

  function Put(layers: map<string, Obj>, name: string, obj: Option<Obj>): map<string, Obj> {
    if obj.Some? then layers[name := obj.value] else layers
  }

  function Chain(d: Option<Obj>, p: Option<Obj>, o: Option<Obj>, g: Option<Obj>, t: Option<Obj>): map<string, Obj> {
    Put(Put(Put(Put(Put(map[], "daemon", d), "plugin", p), "plugin_override", o), "group", g), "trigger", t)
  }

  lemma ChainByPosition(d: Option<Obj>, p: Option<Obj>, o: Option<Obj>, g: Option<Obj>, t: Option<Obj>)
    ensures ByPosition(LAYERS, Chain(d, p, o, g, t)) == [d, p, o, g, t]
  {
    var m := Chain(d, p, o, g, t);
    assert "daemon" in m <==> d.Some?;
    assert "plugin" in m <==> p.Some?;
    assert "plugin_override" in m <==> o.Some?;
    assert "group" in m <==> g.Some?;
    assert "trigger" in m <==> t.Some?;
  }

  method SetIfGiven(store: MapStores.MapStore, name: string, obj: Option<Obj>)
    requires store.Valid() && name in store.layerNames
    modifies store
    ensures store.Valid() && store.layers == Put(old(store.layers), name, obj)
  {
    if obj.Some? { var _ := store.Set(name, obj); }
  }

  /** The store with the layers that are given. */
  method FillStore(daemon: Option<Obj>, pluginManifest: Option<Obj>, pluginOverride: Option<Obj>,
                   group: Option<Obj>, trigger: Option<Obj>) returns (store: MapStores.MapStore)
    ensures fresh(store) && store.Valid() && store.layerNames == LAYERS
    ensures store.layers == Chain(daemon, pluginManifest, pluginOverride, group, trigger)
  {
    store := new MapStores.MapStore(LAYERS);
    SetIfGiven(store, "daemon", daemon);
    SetIfGiven(store, "plugin", pluginManifest);
    SetIfGiven(store, "plugin_override", pluginOverride);
    SetIfGiven(store, "group", group);
    SetIfGiven(store, "trigger", trigger);
  }

  method ReadSettings(parse: string -> Option<int>, store: MapStores.MapStore) returns (r: TriggerSettings)
    requires store.Valid()
    modifies store`overlayCache
    ensures store.Valid() && r == Direct(parse, ByPosition(store.layerNames, store.layers))
  {
    var mode := ReadField(store, "concurrency_mode");
    var size := ReadField(store, "max_queue_size");
    var debounce := ReadField(store, "debounce");
    var threshold := ReadField(store, "error_threshold");
    var actionThreshold := ReadField(store, "action_error_threshold");
    r := TriggerSettings(ReadString(mode), ReadInt(size), ReadDuration(parse, debounce),
                         ReadInt(threshold), ReadInt(actionThreshold));
  }

  method BuildTriggerSettings(parse: string -> Option<int>,
                              daemon: Option<Obj>, pluginManifest: Option<Obj>, pluginOverride: Option<Obj>,
                              group: Option<Obj>, trigger: Option<Obj>)
    returns (r: TriggerSettings)
    ensures r == Direct(parse, [daemon, pluginManifest, pluginOverride, group, trigger])
    ensures SettingsOf(parse, [daemon, pluginManifest, pluginOverride, group, trigger], r)
  {
    DirectIsRight(parse, [daemon, pluginManifest, pluginOverride, group, trigger]);
    var store := FillStore(daemon, pluginManifest, pluginOverride, group, trigger);
    ChainByPosition(daemon, pluginManifest, pluginOverride, group, trigger);
    r := ReadSettings(parse, store);
  }

  method ReadField(store: MapStores.MapStore, key: string) returns (v: Option<Value>)
    requires store.Valid()
    modifies store`overlayCache
    ensures store.Valid()
    ensures SameSetting(v, MostSpecific(ByPosition(store.layerNames, store.layers), key))
  {
    v := store.GetField(key);
    StoredFieldIsMostSpecific(store.layerNames, store.layers, key);
  }

  // -------------------------------------------------------------------- theorems

  /** In a resolved group, whose options have been merged into those of its triggers, the
      separate group layer of the chain is redundant: leaving it out never changes a setting of
      any trigger. */
  lemma GroupLayerIsRedundant(parse: string -> Option<int>, d: Option<Obj>, p: Option<Obj>, o: Option<Obj>,
                              fileAliases: Resolving.Aliases, g: Resolving.RawGroup, r: Resolving.RawGroup, i: nat)
    requires Resolving.GroupResolved(fileAliases, g, r) && i < |r.triggers|
    ensures Direct(parse, [d, p, o, r.options, r.triggers[i].options])
         == Direct(parse, [d, p, o, None, r.triggers[i].options])
  {
    assert Resolving.TriggerResolved(fileAliases + g.aliases, r, g.triggers[i], r.triggers[i]);
    var x :| Resolving.Expanded(g.triggers[i].options, fileAliases + g.aliases, x)
             && r.triggers[i].options == Overlay.Result([r.options, x]);
    MergedLayerIsRedundant(parse, d, p, o, r.options, x);
  }

  lemma MergedLayerIsRedundant(parse: string -> Option<int>,
                               d: Option<Obj>, p: Option<Obj>, o: Option<Obj>, g: Option<Obj>, t: Option<Obj>)
    ensures var merged := Overlay.Result([g, t]);
            Direct(parse, [d, p, o, g, merged]) == Direct(parse, [d, p, o, None, merged])
  {
    var merged := Overlay.Result([g, t]);
    forall key
      ensures MostSpecific([d, p, o, g, merged], key) == MostSpecific([d, p, o, None, merged], key)
    {
      MergedHasGroupKeys(g, t, key);
      TopTwo([d, p, o], g, merged, key);
      TopTwo([d, p, o], None, merged, key);
      assert [d, p, o] + [g, merged] == [d, p, o, g, merged];
      assert [d, p, o] + [None, merged] == [d, p, o, None, merged];
    }
  }

  lemma MergedHasGroupKeys(g: Option<Obj>, t: Option<Obj>, key: string)
    ensures g.Some? && key in g.value ==> key in Overlay.Result([g, t]).value
  {
    Overlay.KeysAreUnion([g, t], key);
    assert [g, t][0] == g;
  }

  lemma TopTwo(below: seq<Option<Obj>>, g: Option<Obj>, t: Option<Obj>, key: string)
    ensures MostSpecific(below + [g, t], key)
         == if t.Some? && key in t.value then Some(t.value[key])
            else if g.Some? && key in g.value then Some(g.value[key])
            else MostSpecific(below, key)
  {
    var all := below + [g, t];
    assert all[..|all| - 1] == below + [g];
    assert (below + [g])[..|below|] == below;
  }
}
