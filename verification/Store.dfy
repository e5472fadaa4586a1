/** The layered, cached store of structs in pkg/config/store.go, with the struct overlay of
    pkg/config/overlay.go. A struct is a map from the fields of a schema to their values;
    a nil pointer or nil map is `None`. */
module Stores {
  import opened Options
  import opened Values

  // ---------------------------------------------------------------- reflected structs

  datatype Data = StrData(s: string) | IntData(n: int) | MapData(m: map<string, Obj>)

  datatype DataType = StrType | IntType | MapType

  function TypeOf(d: Data): DataType {
    match d case StrData(_) => StrType case IntData(_) => IntType case MapData(_) => MapType
  }

  /** Pointer and map fields are nillable; plain scalars always hold a value. */
  datatype FieldKind = FieldKind(nillable: bool, typ: DataType)

  type Schema = map<string, FieldKind>

  type Struct = map<string, Option<Data>>

  ghost predicate WellTyped(schema: Schema, t: Struct) {
    && t.Keys == schema.Keys
    && forall f :: f in schema ==>
         if t[f].None? then schema[f].nillable else TypeOf(t[f].value) == schema[f].typ
  }

  function Zero(schema: Schema): (z: Struct)
    ensures WellTyped(schema, z)
  {
    map f | f in schema :: Reset(schema[f])
  }

  /** The zero value of a field. */
  function Reset(kind: FieldKind): Option<Data> {
    if kind.nillable then None else Some(ZeroOf(kind.typ))
  }

  function ZeroOf(t: DataType): (d: Data)
    ensures TypeOf(d) == t
  {
    match t case StrType => StrData("") case IntType => IntData(0) case MapType => MapData(map[])
  }

  /** Whether a field takes part in the overlay. */
  predicate IsDefined(kind: FieldKind, v: Option<Data>) {
    kind.nillable ==> v.Some?
  }

  // --------------------------------------------------------------- struct overlay

  function Over(schema: Schema, a: Struct, b: Struct): Struct
    requires a.Keys == b.Keys == schema.Keys
  {
    map f | f in schema :: if IsDefined(schema[f], b[f]) then b[f] else a[f]
  }

  predicate KeyedBy(schema: Schema, layers: seq<Struct>) {
    forall i :: 0 <= i < |layers| ==> layers[i].Keys == schema.Keys
  }

  function OverAll(schema: Schema, base: Struct, layers: seq<Struct>): (r: Struct)
    requires base.Keys == schema.Keys && KeyedBy(schema, layers)
    ensures r.Keys == schema.Keys
  {
    if layers == [] then base
    else Over(schema, OverAll(schema, base, layers[..|layers| - 1]), layers[|layers| - 1])
  }

  method Overlay(schema: Schema, base: Struct, layers: seq<Struct>) returns (result: Struct)
    requires base.Keys == schema.Keys && KeyedBy(schema, layers)
    ensures result == OverAll(schema, base, layers)
  {
    result := base;
    for i := 0 to |layers|
      invariant result == OverAll(schema, base, layers[..i])
    {
      assert layers[..i + 1][..i] == layers[..i];
      result := OverlayFields(schema, result, layers[i]);
    }
    assert layers[..|layers|] == layers;
  }

  method OverlayFields(schema: Schema, to: Struct, from: Struct) returns (result: Struct)
    requires to.Keys == from.Keys == schema.Keys
    ensures result == Over(schema, to, from)
  {
    result := to;
    var todo := schema.Keys;
    while todo != {}
      invariant todo <= schema.Keys == result.Keys
      invariant forall f :: f in schema ==>
        result[f] == if f !in todo && IsDefined(schema[f], from[f]) then from[f] else to[f]
      decreases |todo|
    {
      var f :| f in todo;
      if IsDefined(schema[f], from[f]) {
        result := result[f := from[f]];
      }
      todo := todo - {f};
    }
  }

  // ------------------------------------------------------------------ the layers

  type Layers = map<string, Struct>

  ghost predicate LayersTyped(schema: Schema, layers: Layers) {
    forall l :: l in layers ==> WellTyped(schema, layers[l])
  }

  function Stack(names: seq<string>, layers: Layers): seq<Struct> {
    if names == [] then []
    else
      var name := names[|names| - 1];
      Stack(names[..|names| - 1], layers) + (if name in layers then [layers[name]] else [])
  }

  lemma {:induction false} StackKeyed(schema: Schema, names: seq<string>, layers: Layers)
    requires LayersTyped(schema, layers)
    ensures KeyedBy(schema, Stack(names, layers))
  {
    if names != [] {
      StackKeyed(schema, names[..|names| - 1], layers);
    }
  }

  /** The effective struct recomputed from scratch: the first set layer is the base. */
  ghost function Effective(schema: Schema, names: seq<string>, layers: Layers): (r: Struct)
    requires LayersTyped(schema, layers)
    ensures r.Keys == schema.Keys
  {
    StackKeyed(schema, names, layers);
    var stack := Stack(names, layers);
    if stack == [] then Zero(schema) else OverAll(schema, stack[0], stack[1..])
  }

  /** The most specific defined value of a field, found by a direct scan. */
  function Top(schema: Schema, names: seq<string>, layers: Layers, f: string): Option<Option<Data>>
    requires f in schema && forall l :: l in layers ==> layers[l].Keys == schema.Keys
  {
    if names == [] then None
    else
      var name := names[|names| - 1];
      if name in layers && IsDefined(schema[f], layers[name][f]) then Some(layers[name][f])
      else Top(schema, names[..|names| - 1], layers, f)
  }

  lemma OverOneMore(schema: Schema, below: seq<Struct>, top: Struct)
    requires below != [] && KeyedBy(schema, below) && top.Keys == schema.Keys
    ensures KeyedBy(schema, below[1..]) && KeyedBy(schema, (below + [top])[1..])
    ensures OverAll(schema, below[0], (below + [top])[1..]) == Over(schema, OverAll(schema, below[0], below[1..]), top)
  {
    var rest := (below + [top])[1..];
    assert rest == below[1..] + [top];
    assert rest[..|rest| - 1] == below[1..];
  }

  lemma {:induction false} EffectiveIsTop(schema: Schema, names: seq<string>, layers: Layers, f: string)
    requires LayersTyped(schema, layers) && f in schema
    ensures Effective(schema, names, layers)[f]
         == if Top(schema, names, layers, f).Some? then Top(schema, names, layers, f).value else Zero(schema)[f]
  {
    if names != [] {
      var init, name := names[..|names| - 1], names[|names| - 1];
      EffectiveIsTop(schema, init, layers, f);
      StackKeyed(schema, init, layers);
      StackKeyed(schema, names, layers);
      var below, stack := Stack(init, layers), Stack(names, layers);
      if name in layers && below != [] {
        assert stack == below + [layers[name]];
        OverOneMore(schema, below, layers[name]);
      } else if name in layers {
        assert stack == [layers[name]];
        assert stack[1..] == [];
      } else {
        assert stack == below;
      }
    }
  }

  // ------------------------------------------------------------------- the store

  /** Field `f` has been reset in every layer, and nothing else has changed. */
  ghost predicate FieldCleared(schema: Schema, layers: Layers, f: string, cleared: Layers) {
    cleared.Keys == layers.Keys && forall l :: l in layers ==> cleared[l] == WithoutField(schema, layers[l], f)
  }

  lemma UpdateTwice(layers: Layers, l: string, a: Struct, b: Struct)
    ensures layers[l := a][l := b] == layers[l := b]
  {
  }

  lemma PutTyped(schema: Schema, t: Struct, f: string, v: Option<Data>)
    requires WellTyped(schema, t) && f in schema
    requires if v.None? then schema[f].nillable else TypeOf(v.value) == schema[f].typ
    ensures WellTyped(schema, t[f := v])
  {
  }

  lemma ClearOneMore(schema: Schema, layers: Layers, todo: set<string>, l: string, f: string, cleared: Layers)
    requires l in todo && l in layers && FieldCleared(schema, layers - todo, f, cleared)
    ensures FieldCleared(schema, layers - (todo - {l}), f, cleared[l := WithoutField(schema, layers[l], f)])
  {
  }

  lemma ClearedTyped(schema: Schema, layers: Layers, f: string, cleared: Layers)
    requires LayersTyped(schema, layers) && FieldCleared(schema, layers, f, cleared)
    ensures LayersTyped(schema, cleared)
  {
    forall l | l in cleared
      ensures WellTyped(schema, cleared[l])
    {
      ZeroTyped(schema, layers[l], f);
    }
  }

  lemma ZeroTyped(schema: Schema, t: Struct, f: string)
    requires WellTyped(schema, t)
    ensures WellTyped(schema, WithoutField(schema, t, f))
  {
  }

  datatype LayerValue = LayerValue(layer: string, value: Option<Data>, defined: bool)

  class Store {
    const schema: Schema
    const layerNames: seq<string>
    var layers: Layers
    var overlayCache: Option<Struct>

    ghost predicate Typed()
      reads this
    {
      LayersTyped(schema, layers)
    }

    ghost predicate Valid()
      reads this
    {
      && LayersTyped(schema, layers)
      && (overlayCache.Some? ==> overlayCache.value == Effective(schema, layerNames, layers))
    }

    constructor (schema: Schema, names: seq<string>)
      ensures Valid() && this.schema == schema && layerNames == names && layers == map[]
    {
      this.schema := schema;
      layerNames := names;
      layers := map[];
      overlayCache := None;
    }

    method Set(layer: string, value: Struct) returns (ok: bool)
      requires Valid() && WellTyped(schema, value)
      modifies this
      ensures Valid() && (ok <==> layer in layerNames)
      ensures layers == if ok then old(layers)[layer := value] else old(layers)
    {
      if layer !in layerNames { return false; }
      layers := layers[layer := value];
      overlayCache := None;
      return true;
    }

    /** On an unknown field or a type mismatch the layer may already have been created, empty,
        and the cache is kept. The cache stays right all the same when every field of the
        struct is nillable. */
    method SetField(layer: string, field: string, value: Data) returns (ok: bool)
      requires Valid()
      modifies this
      ensures layers == WithField(schema, layerNames, old(layers), layer, field, value)
      ensures ok <==> layer in layerNames && field in schema && TypeOf(value) == schema[field].typ
      ensures overlayCache == if ok then None else old(overlayCache)
      ensures Typed() && (ok || AllNillable(schema) ==> Valid())
    {
      if layer !in layerNames { return false; }
      CreateLayer(layer);
      if field !in schema { return false; }
      if TypeOf(value) != schema[field].typ { return false; }
      UpdateTwice(old(layers), layer, layers[layer], layers[layer][field := Some(value)]);
      PutField(layer, field, Some(value));
      return true;
    }

    /** Overwrites one field of an existing layer and drops the cache. */
    method PutField(layer: string, field: string, v: Option<Data>)
      requires Typed() && layer in layers && field in schema
      requires if v.None? then schema[field].nillable else TypeOf(v.value) == schema[field].typ
      modifies this
      ensures Valid() && layers == old(layers)[layer := old(layers)[layer][field := v]] && overlayCache == None
    {
      PutTyped(schema, layers[layer], field, v);
      layers := layers[layer := layers[layer][field := v]];
      overlayCache := None;
    }

    /** A missing layer starts out empty; the cache is left alone. */
    method CreateLayer(layer: string)
      requires Valid()
      modifies this`layers
      ensures layers == if layer in old(layers) then old(layers) else old(layers)[layer := Zero(schema)]
      ensures Typed() && (AllNillable(schema) ==> Valid())
    {
      if layer !in layers {
        EmptyLayerIsNeutral(schema, layerNames, layers, layer);
        layers := layers[layer := Zero(schema)];
      }
    }

    method Clear(layer: string)
      requires Valid()
      modifies this
      ensures Valid() && layers == old(layers) - {layer}
    {
      layers := layers - {layer};
      overlayCache := None;
    }

    method ClearField(field: string) returns (ok: bool)
      requires Valid()
      modifies this
      ensures Valid() && (ok <==> field in schema)
      ensures if ok then FieldCleared(schema, old(layers), field, layers) else layers == old(layers)
    {
      if field !in schema { return false; }
      layers := Cleared(field);
      overlayCache := None;
      return true;
    }

    method Cleared(field: string) returns (cleared: Layers)
      requires Typed() && field in schema
      ensures FieldCleared(schema, layers, field, cleared)
      ensures LayersTyped(schema, cleared)
    {
      cleared := map[];
      var todo := layers.Keys;
      while todo != {}
        invariant todo <= layers.Keys && FieldCleared(schema, layers - todo, field, cleared)
        decreases |todo|
      {
        var l :| l in todo;
        ClearOneMore(schema, layers, todo, l, field, cleared);
        cleared := cleared[l := WithoutField(schema, layers[l], field)];
        todo := todo - {l};
      }
      assert layers - todo == layers;
      ClearedTyped(schema, layers, field, cleared);
    }

    method ClearLayerField(layer: string, field: string) returns (ok: bool)
      requires Valid()
      modifies this
      ensures Valid() && (ok <==> layer in layerNames && (layer in old(layers) ==> field in schema))
      ensures layers == if ok && layer in old(layers)
                        then old(layers)[layer := WithoutField(schema, old(layers)[layer], field)] else old(layers)
    {
      if layer !in layerNames { return false; }
      if layer !in layers { return true; }
      if field !in schema { return false; }
      PutField(layer, field, Reset(schema[field]));
      return true;
    }

    /** Served from the cache when there is one; the caller cannot tell if the cache is right. */
    method Get() returns (r: Struct)
      requires Typed()
      modifies this`overlayCache
      ensures r == if old(overlayCache).Some? then old(overlayCache).value else Effective(schema, layerNames, layers)
      ensures overlayCache == Some(r) && Typed()
      ensures old(Valid()) ==> Valid() && r == Effective(schema, layerNames, layers)
    {
      if overlayCache.Some? {
        return overlayCache.value;
      }
      r := ComputeOverlay();
      overlayCache := Some(r);
    }

    method ComputeOverlay() returns (r: Struct)
      requires Typed()
      ensures r == Effective(schema, layerNames, layers)
    {
      var present: seq<Struct> := [];
      for i := 0 to |layerNames|
        invariant present == Stack(layerNames[..i], layers)
      {
        assert layerNames[..i + 1][..i] == layerNames[..i];
        if layerNames[i] in layers {
          present := present + [layers[layerNames[i]]];
        }
      }
      assert layerNames[..|layerNames|] == layerNames;
      StackKeyed(schema, layerNames, layers);
      if |present| == 0 {
        return Zero(schema);
      }
      r := Overlay(schema, present[0], present[1..]);
    }

    method Inspect(field: string) returns (rows: seq<LayerValue>)
      requires Typed()
      ensures rows == Inspection(schema, layerNames, layers, field)
    {
      rows := [];
      var i := |layerNames|;
      assert layerNames[..i] == layerNames;
      while 0 < i
        invariant 0 <= i <= |layerNames|
        invariant Inspection(schema, layerNames, layers, field)
               == rows + Inspection(schema, layerNames[..i], layers, field)
      {
        i := i - 1;
        InspectionAt(schema, layerNames, layers, field, i);
        AppendOne(rows, Row(schema, layers, layerNames[i], field), Inspection(schema, layerNames[..i], layers, field));
        rows := rows + [Row(schema, layers, layerNames[i], field)];
      }
    }
  }

  function WithoutField(schema: Schema, t: Struct, f: string): Struct
  {
    if f in schema then t[f := Reset(schema[f])] else t
  }

  /** The layers after SetField, also when it fails. */
  function WithField(schema: Schema, names: seq<string>, layers: Layers, l: string, f: string, v: Data): Layers {
    if l !in names then layers
    else
      var t := if l in layers then layers[l] else Zero(schema);
      layers[l := if f in schema && TypeOf(v) == schema[f].typ then t[f := Some(v)] else t]
  }

  function Row(schema: Schema, layers: Layers, name: string, f: string): LayerValue
    requires name in layers ==> layers[name].Keys == schema.Keys
  {
    if name in layers && f in schema
    then LayerValue(name, layers[name][f], IsDefined(schema[f], layers[name][f]))
    else LayerValue(name, None, false)
  }

  function Inspection(schema: Schema, names: seq<string>, layers: Layers, f: string): seq<LayerValue>
    requires forall l :: l in layers ==> layers[l].Keys == schema.Keys
  {
    if names == [] then []
    else [Row(schema, layers, names[|names| - 1], f)] + Inspection(schema, names[..|names| - 1], layers, f)
  }

  lemma InspectionAt(schema: Schema, names: seq<string>, layers: Layers, f: string, i: nat)
    requires i < |names| && forall l :: l in layers ==> layers[l].Keys == schema.Keys
    ensures Inspection(schema, names[..i + 1], layers, f)
         == [Row(schema, layers, names[i], f)] + Inspection(schema, names[..i], layers, f)
  {
    assert names[..i + 1][..i] == names[..i];
  }

  lemma AppendOne(rows: seq<LayerValue>, row: LayerValue, rest: seq<LayerValue>)
    ensures rows + ([row] + rest) == (rows + [row]) + rest
  {
  }

  function FirstDefined(rows: seq<LayerValue>): Option<Option<Data>> {
    if rows == [] then None
    else if rows[0].defined then Some(rows[0].value)
    else FirstDefined(rows[1..])
  }

  /** The first defined row of `Inspect` is the effective value, and without one the field has
      its zero value. */
  lemma {:induction false} InspectShowsEffective(schema: Schema, names: seq<string>, layers: Layers, f: string)
    requires LayersTyped(schema, layers) && f in schema
    ensures var first := FirstDefined(Inspection(schema, names, layers, f));
            Effective(schema, names, layers)[f] == if first.Some? then first.value else Zero(schema)[f]
  {
    EffectiveIsTop(schema, names, layers, f);
    FirstDefinedIsTop(schema, names, layers, f);
  }

  lemma {:induction false} FirstDefinedIsTop(schema: Schema, names: seq<string>, layers: Layers, f: string)
    requires LayersTyped(schema, layers) && f in schema
    ensures FirstDefined(Inspection(schema, names, layers, f)) == Top(schema, names, layers, f)
  {
    if names != [] {
      FirstDefinedIsTop(schema, names[..|names| - 1], layers, f);
      var rows := Inspection(schema, names, layers, f);
      assert rows[1..] == Inspection(schema, names[..|names| - 1], layers, f);
    }
  }

  // ------------------------------------------------------ empty layers and the cache

  ghost predicate AllNillable(schema: Schema) {
    forall f :: f in schema ==> schema[f].nillable
  }

  lemma {:induction false} TopIgnoresEmpty(schema: Schema, names: seq<string>, layers: Layers, l: string, f: string)
    requires LayersTyped(schema, layers) && f in schema && schema[f].nillable && l !in layers
    ensures Top(schema, names, layers[l := Zero(schema)], f) == Top(schema, names, layers, f)
  {
    if names != [] {
      TopIgnoresEmpty(schema, names[..|names| - 1], layers, l, f);
    }
  }

  /** Creating an empty layer does not change the effective struct if every field is nillable. */
  lemma EmptyLayerIsNeutral(schema: Schema, names: seq<string>, layers: Layers, l: string)
    requires LayersTyped(schema, layers) && l !in layers
    ensures LayersTyped(schema, layers[l := Zero(schema)])
    ensures AllNillable(schema) ==>
              Effective(schema, names, layers[l := Zero(schema)]) == Effective(schema, names, layers)
  {
    if AllNillable(schema) {
      forall f | f in schema
        ensures Effective(schema, names, layers[l := Zero(schema)])[f] == Effective(schema, names, layers)[f]
      {
        TopIgnoresEmpty(schema, names, layers, l, f);
        EffectiveIsTop(schema, names, layers, f);
        EffectiveIsTop(schema, names, layers[l := Zero(schema)], f);
      }
    }
  }

  ghost predicate NeutralHere(schema: Schema, names: seq<string>, layers: Layers, l: string)
    requires LayersTyped(schema, layers)
  {
    Effective(schema, names, layers[l := Zero(schema)]) == Effective(schema, names, layers)
  }

  /** The failing path of SetField, which creates a layer and keeps the cache, is harmless
      exactly for structs all of whose fields are nillable. Otherwise a plain scalar set in a
      lower layer is hidden by the empty one, and the cache no longer tells the truth. */
  lemma EmptyLayersNeutralIff(schema: Schema)
    ensures AllNillable(schema) <==>
              forall names, layers, l :: LayersTyped(schema, layers) && l !in layers ==>
                NeutralHere(schema, names, layers, l)
  {
    if AllNillable(schema) {
      forall names, layers: Layers, l | LayersTyped(schema, layers) && l !in layers
        ensures NeutralHere(schema, names, layers, l)
      {
        EmptyLayerIsNeutral(schema, names, layers, l);
      }
    } else {
      var f :| f in schema && !schema[f].nillable;
      var other := OtherValue(schema[f].typ);
      var layers := map["file" := Zero(schema)[f := Some(other)]];
      assert LayersTyped(schema, layers) && "cli" !in layers;
      PlainFieldIsHidden(schema, f, layers);
      assert !NeutralHere(schema, ["file", "cli"], layers, "cli");
    }
  }

  function OtherValue(t: DataType): (d: Data)
    ensures TypeOf(d) == t && d != ZeroOf(t)
  {
    match t
    case StrType => StrData("x")
    case IntType => IntData(1)
    case MapType =>
      var m: map<string, Obj> := map["x" := map[]];
      assert "x" in m;
      MapData(m)
  }

  lemma PlainFieldIsHidden(schema: Schema, f: string, layers: Layers)
    requires f in schema && !schema[f].nillable && LayersTyped(schema, layers) && layers.Keys == {"file"}
    requires layers["file"][f] != Zero(schema)[f]
    ensures !NeutralHere(schema, ["file", "cli"], layers, "cli")
    ensures Effective(schema, ["file", "cli"], layers["cli" := Zero(schema)])[f] == Zero(schema)[f]
    ensures Effective(schema, ["file", "cli"], layers)[f] == layers["file"][f]
  {
    var names, more := ["file", "cli"], layers["cli" := Zero(schema)];
    assert names[..1] == ["file"];
    EffectiveIsTop(schema, names, layers, f);
    EffectiveIsTop(schema, names, more, f);
    assert Top(schema, ["file"], layers, f) == Some(layers["file"][f]);
    assert Top(schema, names, more, f) == Some(Zero(schema)[f]);
  }

  function OfAnotherType(t: DataType): (d: Data)
    ensures TypeOf(d) != t
  {
    if t == StrType then IntData(0) else StrData("")
  }

  /** For every struct with a plain field there is a run with a wrong answer: the field is set in
      one layer and read, setting it fails in the next, and reading it again is served from a
      cache that no longer fits the layers. */
  method StaleRead(schema: Schema, f: string) returns (store: Store, before: Struct, after: Struct)
    requires f in schema && !schema[f].nillable
    ensures fresh(store) && store.schema == schema && store.Typed()
    ensures after == before && f in after
    ensures after[f] != Effective(schema, store.layerNames, store.layers)[f]
  {
    store := new Store(schema, ["file", "cli"]);
    var data, wrong := OtherValue(schema[f].typ), OfAnotherType(schema[f].typ);
    PutTyped(schema, Zero(schema), f, Some(data));
    var _ := store.Set("file", Zero(schema)[f := Some(data)]);
    before := store.Get();
    PlainFieldIsHidden(schema, f, store.layers);
    var ok := store.SetField("cli", f, wrong);
    assert !ok;
    after := store.Get();
  }

  // ---------------------------------------------------------------------- whole runs

  datatype Op =
    | Set(layer: string, value: Struct)
    | SetField(layer: string, field: string, data: Data)
    | Clear(layer: string)
    | ClearField(field: string)
    | ClearLayerField(layer: string, field: string)
    | Get

  function Apply(schema: Schema, names: seq<string>, layers: Layers, op: Op): Layers {
    match op
    case Set(l, t) => if l in names then layers[l := t] else layers
    case SetField(l, f, v) => WithField(schema, names, layers, l, f, v)
    case Clear(l) => layers - {l}
    case ClearField(f) => map l | l in layers :: WithoutField(schema, layers[l], f)
    case ClearLayerField(l, f) =>
      if l in names && l in layers then layers[l := WithoutField(schema, layers[l], f)] else layers
    case Get => layers
  }

  function Run(schema: Schema, names: seq<string>, ops: seq<Op>): Layers {
    if ops == [] then map[] else Apply(schema, names, Run(schema, names, ops[..|ops| - 1]), ops[|ops| - 1])
  }

  /** Go's type system: whole layers are set to structs of the right type. */
  ghost predicate WellTypedOps(schema: Schema, ops: seq<Op>) {
    forall i :: 0 <= i < |ops| && ops[i].Set? ==> WellTyped(schema, ops[i].value)
  }

  lemma {:induction false} RunIsTyped(schema: Schema, names: seq<string>, ops: seq<Op>)
    requires WellTypedOps(schema, ops)
    ensures LayersTyped(schema, Run(schema, names, ops))
  {
    if ops != [] {
      RunIsTyped(schema, names, ops[..|ops| - 1]);
      ApplyIsTyped(schema, names, Run(schema, names, ops[..|ops| - 1]), ops[|ops| - 1]);
    }
  }

  lemma ApplyIsTyped(schema: Schema, names: seq<string>, layers: Layers, op: Op)
    requires LayersTyped(schema, layers) && (op.Set? ==> WellTyped(schema, op.value))
    ensures LayersTyped(schema, Apply(schema, names, layers, op))
  {
    match op {
      case ClearField(f) => ClearedTyped(schema, layers, f, Apply(schema, names, layers, op));
      case ClearLayerField(l, f) => if l in layers { ZeroTyped(schema, layers[l], f); }
      case _ =>
    }
  }

  /** What a store without a cache answers. */
  ghost function Answers(schema: Schema, names: seq<string>, ops: seq<Op>): seq<Struct>
    requires WellTypedOps(schema, ops)
  {
    if ops == [] then []
    else
      var n := |ops| - 1;
      RunIsTyped(schema, names, ops[..n]);
      Answers(schema, names, ops[..n])
      + (if ops[n].Get? then [Effective(schema, names, Run(schema, names, ops[..n]))] else [])
  }

  method Perform(store: Store, op: Op) returns (got: Option<Struct>)
    requires store.Valid() && AllNillable(store.schema) && (op.Set? ==> WellTyped(store.schema, op.value))
    modifies store
    ensures store.Valid() && store.layers == Apply(store.schema, store.layerNames, old(store.layers), op)
    ensures got == if op.Get? then Some(Effective(store.schema, store.layerNames, store.layers)) else None
  {
    got := None;
    match op {
      case Set(l, t) => var _ := store.Set(l, t);
      case SetField(l, f, v) => var _ := store.SetField(l, f, v);
      case Clear(l) => store.Clear(l);
      case ClearField(f) =>
        var _ := store.ClearField(f);
        ClearedEverywhere(store.schema, old(store.layers), f, store.layers);
      case ClearLayerField(l, f) => var _ := store.ClearLayerField(l, f);
      case Get =>
        var r := store.Get();
        got := Some(r);
    }
  }

  lemma ClearedEverywhere(schema: Schema, layers: Layers, f: string, after: Layers)
    requires if f in schema then FieldCleared(schema, layers, f, after) else after == layers
    ensures after == map l | l in layers :: WithoutField(schema, layers[l], f)
  {
  }

  /** Cache coherence over whole runs of a store of nillable fields: whatever mutators come
      between them, failing ones included, every `Get` is answered as if recomputed. */
  method Replay(schema: Schema, names: seq<string>, ops: seq<Op>) returns (answers: seq<Struct>)
    requires AllNillable(schema) && WellTypedOps(schema, ops)
    ensures answers == Answers(schema, names, ops)
  {
    var store := new Store(schema, names);
    answers := [];
    for i := 0 to |ops|
      invariant store.Valid() && fresh(store) && store.schema == schema && store.layerNames == names
      invariant store.layers == Run(schema, names, ops[..i])
      invariant answers == Answers(schema, names, ops[..i])
    {
      assert ops[..i + 1][..i] == ops[..i];
      var got := Perform(store, ops[i]);
      if got.Some? {
        answers := answers + [got.value];
      }
    }
    assert ops[..|ops|] == ops;
  }

  /** The value a plain field has without a definition; a pointer or map is nil. */
  lemma ZeroValues(schema: Schema, f: string)
    requires f in schema
    ensures Zero(schema)[f] == if schema[f].nillable then None
                               else Some(match schema[f].typ
                                         case StrType => StrData("") case IntType => IntData(0)
                                         case MapType => MapData(map[]))
  {
  }

  /** Reading a run backwards: what the last call that concerns a field of a layer left there. None
      if the layer is not set; setting one field of a layer that is not set creates it, even if the
      field is unknown or the value has the wrong type. */
  function LastWritten(schema: Schema, names: seq<string>, ops: seq<Op>, l: string, f: string): Option<Option<Data>>
    requires f in schema && forall i :: 0 <= i < |ops| && ops[i].Set? ==> ops[i].value.Keys == schema.Keys
  {
    if ops == [] || l !in names then None
    else
      var before := LastWritten(schema, names, ops[..|ops| - 1], l, f);
      var unset := Zero(schema)[f];
      match ops[|ops| - 1]
      case Set(m, t) => if m == l then Some(t[f]) else before
      case SetField(m, g, v) =>
        if m != l then before
        else if g == f && TypeOf(v) == schema[f].typ then Some(Some(v))
        else if before.None? then Some(unset) else before
      case Clear(m) => if m == l then None else before
      case ClearField(g) => if g == f && before.Some? then Some(unset) else before
      case ClearLayerField(m, g) => if m == l && g == f && before.Some? then Some(unset) else before
      case Get => before
  }

  lemma {:induction false} OnlyKnownLayers(schema: Schema, names: seq<string>, ops: seq<Op>)
    ensures forall l :: l in Run(schema, names, ops) ==> l in names
  {
    if ops != [] {
      OnlyKnownLayers(schema, names, ops[..|ops| - 1]);
    }
  }

  /** After every run, failing calls included, each field of each layer holds what was last
      written there. */
  lemma {:induction false} LayersHoldLastWritten(schema: Schema, names: seq<string>, ops: seq<Op>, l: string,
                                                 f: string)
    requires WellTypedOps(schema, ops) && f in schema
    ensures LayersTyped(schema, Run(schema, names, ops))
    ensures var layers := Run(schema, names, ops);
            LastWritten(schema, names, ops, l, f) == if l in layers then Some(layers[l][f]) else None
  {
    RunIsTyped(schema, names, ops);
    OnlyKnownLayers(schema, names, ops);
    if ops != [] && l in names {
      var init := ops[..|ops| - 1];
      LayersHoldLastWritten(schema, names, init, l, f);
      OneMoreWritten(schema, names, Run(schema, names, init), ops[|ops| - 1], l, f);
    }
  }

  lemma OneMoreWritten(schema: Schema, names: seq<string>, layers: Layers, op: Op, l: string, f: string)
    requires LayersTyped(schema, layers) && f in schema && l in names && (op.Set? ==> op.value.Keys == schema.Keys)
    ensures var after := Apply(schema, names, layers, op);
            var unset := Zero(schema)[f];
            match op
            case Set(m, t) => m == l ==> l in after && after[l][f] == t[f]
            case SetField(m, g, v) => m == l ==>
              && l in after && f in after[l]
              && after[l][f] == (if g == f && TypeOf(v) == schema[f].typ then Some(v)
                                 else if l in layers then layers[l][f] else unset)
            case Clear(m) => m == l ==> l !in after
            case ClearField(g) => l in layers ==>
              l in after && f in after[l] && after[l][f] == if g == f then unset else layers[l][f]
            case ClearLayerField(m, g) => m == l && l in layers ==>
              l in after && f in after[l] && after[l][f] == if g == f then unset else layers[l][f]
            case Get => true
  {
  }

  /** One row for each layer, the most specific first, with what that layer itself says. A plain
      field of a layer that is set always counts as defined. */
  lemma {:induction false} RowsAreLayers(schema: Schema, names: seq<string>, layers: Layers, f: string, i: nat)
    requires LayersTyped(schema, layers) && i < |names|
    ensures var rows, name := Inspection(schema, names, layers, f), names[|names| - 1 - i];
            && |rows| == |names| && rows[i].layer == name
            && if name !in layers || f !in schema then rows[i].value == None && !rows[i].defined
               else rows[i].value == layers[name][f] && rows[i].defined == (rows[i].value.Some? || !schema[f].nillable)
  {
    var init := names[..|names| - 1];
    if i > 0 {
      RowsAreLayers(schema, init, layers, f, i - 1);
    } else if init != [] {
      RowsAreLayers(schema, init, layers, f, 0);
    }
  }
}
