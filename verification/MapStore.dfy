/** The layered, cached store of dynamic maps in pkg/config/map_store.go. */
module MapStores {
  import opened Options
  import opened Values
  import Overlay

  /** One row of `Inspect`: `None` when the key is not defined at that layer. */
  datatype LayerValue = LayerValue(layer: string, value: Option<Value>)

  /** The layers that have been set, least specific first. */
  function Stack(names: seq<string>, layers: map<string, Obj>): seq<Option<Obj>> {
    if names == [] then []
    else
      var name := names[|names| - 1];
      Stack(names[..|names| - 1], layers) + (if name in layers then [Some(layers[name])] else [])
  }

  /** The effective configuration, recomputed from scratch. */
  function Effective(names: seq<string>, layers: map<string, Obj>): Option<Obj> {
    Overlay.Result(Stack(names, layers))
  }

  // ------------------------------------------------- the store without a cache

  datatype Op =
    | Set(layer: string, obj: Option<Obj>)
    | SetField(layer: string, key: string, value: Value)
    | Clear(layer: string)
    | ClearField(key: string)
    | ClearLayerField(layer: string, key: string)
    | Get

  /** What each call leaves in the layers; unknown layer names change nothing. */
  function Apply(names: seq<string>, layers: map<string, Obj>, op: Op): map<string, Obj> {
    match op
    case Set(l, obj) =>
      if l in names then layers[l := if obj.Some? then obj.value else map[]] else layers
    case SetField(l, k, v) =>
      if l in names then layers[l := (if l in layers then layers[l] else map[])[k := v]] else layers
    case Clear(l) => layers - {l}
    case ClearField(k) => map l | l in layers :: layers[l] - {k}
    case ClearLayerField(l, k) => if l in layers then layers[l := layers[l] - {k}] else layers
    case Get => layers
  }

  function Run(names: seq<string>, ops: seq<Op>): map<string, Obj> {
    if ops == [] then map[] else Apply(names, Run(names, ops[..|ops| - 1]), ops[|ops| - 1])
  }

  /** The answers a cache-free store gives to the `Get` calls of a run. */
  function Answers(names: seq<string>, ops: seq<Op>): seq<Option<Obj>> {
    if ops == [] then []
    else
      var init := ops[..|ops| - 1];
      Answers(names, init) + (if ops[|ops| - 1].Get? then [Effective(names, Run(names, init))] else [])
  }

  // ------------------------------------------------------------------- the store

  class MapStore {
    const layerNames: seq<string>
    var layers: map<string, Obj>
    var overlayCache: Option<Obj>

    /** A cached overlay is the overlay of the layers as they are now. */
    ghost predicate Valid()
      reads this
    {
      overlayCache.Some? ==> overlayCache == Effective(layerNames, layers)
    }

    constructor (names: seq<string>)
      ensures Valid() && layerNames == names && layers == map[]
    {
      layerNames := names;
      layers := map[];
      overlayCache := None;
    }

    /** A shallow copy, empty for nil. */
    static method CopyOf(obj: Option<Obj>) returns (copied: Obj)
      ensures copied == if obj.Some? then obj.value else map[]
    {
      copied := map[];
      if obj.Some? {
        var todo := obj.value.Keys;
        while todo != {}
          invariant todo <= obj.value.Keys
          invariant copied == obj.value - todo
          decreases |todo|
        {
          var k :| k in todo;
          copied := copied[k := obj.value[k]];
          todo := todo - {k};
        }
        assert copied == obj.value;
      }
    }

    method Set(layer: string, obj: Option<Obj>) returns (ok: bool)
      requires Valid()
      modifies this
      ensures Valid() && layers == Apply(layerNames, old(layers), Op.Set(layer, obj))
      ensures ok <==> layer in layerNames
    {
      if layer !in layerNames { return false; }
      var copied := CopyOf(obj);
      layers := layers[layer := copied];
      overlayCache := None;
      return true;
    }

    method SetField(layer: string, key: string, value: Value)
      requires Valid()
      modifies this
      ensures Valid() && layers == Apply(layerNames, old(layers), Op.SetField(layer, key, value))
    {
      if layer !in layerNames { return; }
      if layer !in layers {
        layers := layers[layer := map[]];
      }
      layers := layers[layer := layers[layer][key := value]];
      overlayCache := None;
    }

    method Clear(layer: string)
      requires Valid()
      modifies this
      ensures Valid() && layers == Apply(layerNames, old(layers), Op.Clear(layer))
    {
      layers := layers - {layer};
      overlayCache := None;
    }

    method ClearField(key: string)
      requires Valid()
      modifies this
      ensures Valid() && layers == Apply(layerNames, old(layers), Op.ClearField(key))
    {
      var todo := layers.Keys;
      while todo != {}
        invariant todo <= layers.Keys == old(layers).Keys
        invariant forall l :: l in layers ==>
          layers[l] == if l in todo then old(layers)[l] else old(layers)[l] - {key}
        decreases |todo|
      {
        var l :| l in todo;
        layers := layers[l := layers[l] - {key}];
        todo := todo - {l};
      }
      overlayCache := None;
    }

    method ClearLayerField(layer: string, key: string)
      requires Valid()
      modifies this
      ensures Valid() && layers == Apply(layerNames, old(layers), Op.ClearLayerField(layer, key))
    {
      if layer in layers {
        layers := layers[layer := layers[layer] - {key}];
      }
      overlayCache := None;
    }

    /** Served from the cache when there is one; the caller cannot tell. */
    method Get() returns (r: Option<Obj>)
      requires Valid()
      modifies this`overlayCache
      ensures Valid() && r == Effective(layerNames, layers)
    {
      if overlayCache.Some? {
        return overlayCache;
      }
      var present: seq<Option<Obj>> := [];
      for i := 0 to |layerNames|
        invariant present == Stack(layerNames[..i], layers)
      {
        assert layerNames[..i + 1][..i] == layerNames[..i];
        if layerNames[i] in layers {
          present := present + [Some(layers[layerNames[i]])];
        }
      }
      assert layerNames[..|layerNames|] == layerNames;
      r := Overlay.OverlayMaps(present);
      overlayCache := r;
    }

    method GetField(key: string) returns (r: Option<Value>)
      requires Valid()
      modifies this`overlayCache
      ensures Valid()
      ensures r == var all := Effective(layerNames, layers);
                   if all.Some? && key in all.value then Some(all.value[key]) else None
    {
      var all := Get();
      if all.Some? && key in all.value { return Some(all.value[key]); }
      return None;
    }

    method Inspect(key: string) returns (rows: seq<LayerValue>)
      ensures rows == Inspection(layerNames, layers, key)
    {
      rows := [];
      var i := |layerNames|;
      assert layerNames[..i] == layerNames;
      while 0 < i
        invariant 0 <= i <= |layerNames|
        invariant Inspection(layerNames, layers, key) == rows + Inspection(layerNames[..i], layers, key)
      {
        i := i - 1;
        InspectionAt(layerNames, layers, key, i);
        Regroup(rows, [Row(layers, layerNames[i], key)], Inspection(layerNames[..i], layers, key));
        rows := rows + [Row(layers, layerNames[i], key)];
      }
    }
  }

  function Row(layers: map<string, Obj>, name: string, key: string): LayerValue {
    LayerValue(name, if name in layers && key in layers[name] then Some(layers[name][key]) else None)
  }

  lemma InspectionAt(names: seq<string>, layers: map<string, Obj>, key: string, i: nat)
    requires i < |names|
    ensures Inspection(names[..i + 1], layers, key)
         == [Row(layers, names[i], key)] + Inspection(names[..i], layers, key)
  {
    assert names[..i + 1][..i] == names[..i];
  }

  lemma Regroup(a: seq<LayerValue>, b: seq<LayerValue>, c: seq<LayerValue>)
    ensures a + (b + c) == a + b + c
  {
  }

  /** All layers, most specific first, with their definition of `key`. */
  function Inspection(names: seq<string>, layers: map<string, Obj>, key: string): seq<LayerValue> {
    if names == [] then []
    else
      [Row(layers, names[|names| - 1], key)] + Inspection(names[..|names| - 1], layers, key)
  }

  function FirstDefined(rows: seq<LayerValue>): Option<Value> {
    if rows == [] then None
    else if rows[0].value.Some? then rows[0].value
    else FirstDefined(rows[1..])
  }

  // --------------------------------------------------------------------- theorems

  /** Cache coherence over whole runs: whatever mutators come between them, and whether or
      not they succeed, the cached store answers every `Get` as a store that recomputes the
      overlay each time. */
  method Replay(names: seq<string>, ops: seq<Op>) returns (answers: seq<Option<Obj>>)
    ensures answers == Answers(names, ops)
  {
    var store := new MapStore(names);
    answers := [];
    for i := 0 to |ops|
      invariant store.Valid() && fresh(store) && store.layerNames == names
      invariant store.layers == Run(names, ops[..i])
      invariant answers == Answers(names, ops[..i])
    {
      assert ops[..i + 1][..i] == ops[..i];
      match ops[i] {
        case Set(l, obj) => var _ := store.Set(l, obj);
        case SetField(l, k, v) => store.SetField(l, k, v);
        case Clear(l) => store.Clear(l);
        case ClearField(k) => store.ClearField(k);
        case ClearLayerField(l, k) => store.ClearLayerField(l, k);
        case Get =>
          var r := store.Get();
          answers := answers + [r];
      }
    }
    assert ops[..|ops|] == ops;
  }

  lemma {:induction false} StackDefs(names: seq<string>, layers: map<string, Obj>, key: string)
    ensures var defs := Overlay.Defs(Stack(names, layers), key);
            FirstDefined(Inspection(names, layers, key)) == if defs == [] then None else Some(defs[|defs| - 1])
  {
    if names != [] {
      var init, name := names[..|names| - 1], names[|names| - 1];
      StackDefs(init, layers, key);
      var rows := Inspection(names, layers, key);
      assert rows[1..] == Inspection(init, layers, key);
      var below := Stack(init, layers);
      if name in layers {
        assert (below + [Some(layers[name])])[..|below|] == below;
        assert Overlay.Defs(below + [Some(layers[name])], key)
            == Overlay.Defs(below, key) + (if key in layers[name] then [layers[name][key]] else []);
      } else {
        assert Stack(names, layers) == below;
      }
    }
  }

  /** The first defined row of `Inspect` decides what `Get` holds: no row, no key; a value
      that is not a map is the effective value; a map stands for the overlay of the run of
      maps it ends. */
  lemma InspectExplainsGet(names: seq<string>, layers: map<string, Obj>, key: string)
    ensures var all := Overlay.OverlayAll(Stack(names, layers));
            var first := FirstDefined(Inspection(names, layers, key));
            var run := Overlay.MapRun(Overlay.Defs(Stack(names, layers), key));
            && (first.None? <==> key !in all)
            && (first.Some? && !first.value.Node? ==> all[key] == first.value)
            && (first.Some? && first.value.Node? ==>
                  && run != [] && run[|run| - 1] == Some(first.value.m)
                  && all[key] == Node(Overlay.OverlayAll(run)))
  {
    StackDefs(names, layers, key);
    Overlay.ClosedForm(Stack(names, layers), key);
  }

  /** Reading a run backwards: what the last call that concerns the key of a layer left there. */
  function LastWritten(names: seq<string>, ops: seq<Op>, l: string, k: string): Option<Value> {
    if ops == [] || l !in names then None
    else
      var before := LastWritten(names, ops[..|ops| - 1], l, k);
      match ops[|ops| - 1]
      case Set(m, obj) =>
        if m != l then before else if obj.Some? && k in obj.value then Some(obj.value[k]) else None
      case SetField(m, j, v) => if m == l && j == k then Some(v) else before
      case Clear(m) => if m == l then None else before
      case ClearField(j) => if j == k then None else before
      case ClearLayerField(m, j) => if m == l && j == k then None else before
      case Get => before
  }

  function Stored(layers: map<string, Obj>, l: string, k: string): Option<Value> {
    if l in layers && k in layers[l] then Some(layers[l][k]) else None
  }

  lemma {:induction false} OnlyKnownLayers(names: seq<string>, ops: seq<Op>)
    ensures forall l :: l in Run(names, ops) ==> l in names
  {
    if ops != [] {
      OnlyKnownLayers(names, ops[..|ops| - 1]);
    }
  }

  /** After every run each key of each layer holds what was last written there. */
  lemma {:induction false} LayersHoldLastWritten(names: seq<string>, ops: seq<Op>, l: string, k: string)
    ensures Stored(Run(names, ops), l, k) == LastWritten(names, ops, l, k)
  {
    OnlyKnownLayers(names, ops);
    if ops != [] && l in names {
      LayersHoldLastWritten(names, ops[..|ops| - 1], l, k);
    }
  }

  /** One row for each layer, the most specific first, with what that layer itself says. */
  lemma {:induction false} RowsAreLayers(names: seq<string>, layers: map<string, Obj>, key: string, i: nat)
    requires i < |names|
    ensures var rows, name := Inspection(names, layers, key), names[|names| - 1 - i];
            && |rows| == |names| && rows[i].layer == name
            && rows[i].value == if name in layers && key in layers[name] then Some(layers[name][key]) else None
  {
    var init := names[..|names| - 1];
    if i > 0 {
      RowsAreLayers(init, layers, key, i - 1);
    } else if init != [] {
      RowsAreLayers(init, layers, key, 0);
    }
  }
}
