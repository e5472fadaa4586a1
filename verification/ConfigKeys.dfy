/** Reading and writing the daemon configuration by YAML key: src/domain/config/keys.go.
    strings.ToLower and strconv.Atoi are arbitrary functions `lower` and `atoi`. */
module ConfigKeys {
  import opened Options
  import opened Sequences
  import opened Values
  import opened DottedNames
  import opened Stores

  // ------------------------------------------------------------------- the schema

  /** The fields of Config: every one is a pointer or a map. */
  const CONFIG: Schema := map[
    "DefaultShell" := FieldKind(true, StrType),
    "ErrorThreshold" := FieldKind(true, IntType),
    "TriggerErrorThreshold" := FieldKind(true, IntType),
    "ActionErrorThreshold" := FieldKind(true, IntType),
    "ConcurrencyMode" := FieldKind(true, StrType),
    "MaxQueueSize" := FieldKind(true, IntType),
    "Debounce" := FieldKind(true, StrType),
    "ShutdownTimeout" := FieldKind(true, StrType),
    "LogLevel" := FieldKind(true, StrType),
    "SocketAddress" := FieldKind(true, StrType),
    "AllowedHosts" := FieldKind(true, StrType),
    "Plugins" := FieldKind(true, MapType)]

  const MODES: set<string> := {"queue", "parallel", "drop", "abort"}
  const LEVELS: set<string> := {"debug", "info", "warn", "error"}

  /** `validate` is empty when any value will do, `fallback` when there is none. */
  datatype KeyDef = KeyDef(field: string, typ: DataType, validate: set<string>, fallback: string)

  const KEYS: map<string, KeyDef> := map[
    "default_shell" := KeyDef("DefaultShell", StrType, {}, ""),
    "error_threshold" := KeyDef("ErrorThreshold", IntType, {}, ""),
    "trigger_error_threshold" := KeyDef("TriggerErrorThreshold", IntType, {}, "error_threshold"),
    "action_error_threshold" := KeyDef("ActionErrorThreshold", IntType, {}, "error_threshold"),
    "concurrency_mode" := KeyDef("ConcurrencyMode", StrType, MODES, ""),
    "max_queue_size" := KeyDef("MaxQueueSize", IntType, {}, ""),
    "debounce" := KeyDef("Debounce", StrType, {}, ""),
    "shutdown_timeout" := KeyDef("ShutdownTimeout", StrType, {}, ""),
    "log_level" := KeyDef("LogLevel", StrType, LEVELS, ""),
    "socket_address" := KeyDef("SocketAddress", StrType, {}, ""),
    "allowed_hosts" := KeyDef("AllowedHosts", StrType, {}, "")]

  /** A key table over a schema. The laws below need only what `Ok` says, so they are proved
      for every such table. */
  datatype Table = Table(schema: Schema, keys: map<string, KeyDef>) {

    ghost predicate Ok() {
      && AllNillable(schema)
      && "Plugins" in schema && schema["Plugins"].typ.MapType?
      && (forall k :: k in keys ==>
            keys[k].field in schema && schema[keys[k].field].typ == keys[k].typ && !keys[k].typ.MapType?)
      && (forall k :: k in keys && keys[k].fallback != "" ==> keys[k].fallback in keys)
      && (forall k, j :: k in keys && j in keys && keys[k].field == keys[j].field ==> k == j)
      && (forall k :: k in keys ==> keys[k].fallback != k)
    }
  }

  const DAEMON := Table(CONFIG, KEYS)

  function KeyOf(field: string): string {
    match field
    case "DefaultShell" => "default_shell"
    case "ErrorThreshold" => "error_threshold"
    case "TriggerErrorThreshold" => "trigger_error_threshold"
    case "ActionErrorThreshold" => "action_error_threshold"
    case "ConcurrencyMode" => "concurrency_mode"
    case "MaxQueueSize" => "max_queue_size"
    case "Debounce" => "debounce"
    case "ShutdownTimeout" => "shutdown_timeout"
    case "LogLevel" => "log_level"
    case "SocketAddress" => "socket_address"
    case _ => "allowed_hosts"
  }

  lemma KeysAreTyped()
    ensures forall k :: k in KEYS ==> KEYS[k].field in CONFIG && CONFIG[KEYS[k].field] == FieldKind(true, KEYS[k].typ)
    ensures forall k :: k in KEYS ==> !KEYS[k].typ.MapType?
  {
  }

  lemma FieldsTellKeys()
    ensures forall k :: k in KEYS ==> KeyOf(KEYS[k].field) == k
  {
  }

  /** The daemon's own table: every key has a field of its type, no two keys share one, and
      the fallbacks are keys. */
  lemma DaemonOk()
    ensures DAEMON.Ok()
  {
    KeysAreTyped();
    FallbacksAreKeys();
    OneKeyPerField(KEYS);
    ConfigIsNillable();
  }

  lemma ConfigIsNillable()
    ensures AllNillable(CONFIG) && "Plugins" in CONFIG && CONFIG["Plugins"].typ.MapType?
  {
  }

  lemma FallbacksAreKeys()
    ensures forall k :: k in KEYS && KEYS[k].fallback != "" ==> KEYS[k].fallback in KEYS
    ensures forall k :: k in KEYS ==> KEYS[k].fallback != k
  {
  }

  lemma OneKeyPerField(keys: map<string, KeyDef>)
    requires keys == KEYS
    ensures forall k, j :: k in keys && j in keys && keys[k].field == keys[j].field ==> k == j
  {
    FieldsTellKeys();
    forall k, j | k in keys && j in keys && keys[k].field == keys[j].field
      ensures k == j
    {
      SameKey(keys, k, j);
    }
  }

  lemma SameKey(keys: map<string, KeyDef>, k: string, j: string)
    requires k in keys && j in keys && keys[k].field == keys[j].field
    requires KeyOf(keys[k].field) == k && KeyOf(keys[j].field) == j
    ensures k == j
  {
  }

  // --------------------------------------------------------------- plugin key paths

  const PREFIX := "plugins."

  /** Position of the last dot, or -1. */
  function LastDot(s: string): (i: int)
    ensures -1 <= i < |s|
    ensures 0 <= i ==> s[i] == '.' && '.' !in s[i + 1..]
    ensures i < 0 ==> '.' !in s
  {
    if s == "" then -1
    else if s[|s| - 1] == '.' then |s| - 1
    else LastDot(s[..|s| - 1])
  }

  function SplitPluginKey(key: string): Option<(string, string)> {
    var dot := FirstDot(key);
    if dot == |key| || dot + 1 == |key| then None
    else
      var rest := key[dot + 1..];
      var last := LastDot(rest);
      if last < 1 then None else Some((rest[..last], rest[last + 1..]))
  }

  // -------------------------------------------------------------------- reading

  datatype ReadResult = Found(d: Option<Data>) | FoundPlugin(v: Value) | NotFound

  /** A daemon key read from the effective configuration; a threshold that is not set falls
      back to the general one. */
  function ReadKey(k: Table, c: Struct, key: string): ReadResult
    requires k.Ok() && c.Keys == k.schema.Keys
  {
    if key !in k.keys then NotFound
    else
      var def := k.keys[key];
      if def.fallback != "" && c[def.field].None? then Found(c[k.keys[def.fallback].field])
      else Found(c[def.field])
  }

  function ReadPlugin(k: Table, c: Struct, key: string): ReadResult
    requires k.Ok() && c.Keys == k.schema.Keys
  {
    match SplitPluginKey(key)
    case None => NotFound
    case Some((ns, field)) => LookUp(PluginsOf(c), ns, field)
  }

  function LookUp(plugins: map<string, Obj>, ns: string, field: string): ReadResult {
    if ns in plugins && field in plugins[ns] then FoundPlugin(plugins[ns][field]) else NotFound
  }

  function Read(k: Table, c: Struct, key: string): ReadResult
    requires k.Ok() && c.Keys == k.schema.Keys
  {
    if PREFIX <= key then ReadPlugin(k, c, key) else ReadKey(k, c, key)
  }

  method GetByKey(k: Table, store: Store, key: string) returns (r: ReadResult)
    requires k.Ok() && store.Valid() && store.schema == k.schema
    modifies store`overlayCache
    ensures store.Valid() && r == Read(k, Effective(k.schema, store.layerNames, store.layers), key)
  {
    var c := store.Get();
    if PREFIX <= key {
      return ReadPlugin(k, c, key);
    }
    if key !in k.keys { return NotFound; }
    var def := k.keys[key];
    var val := c[def.field];
    if def.fallback != "" && val.None? {
      if def.fallback in k.keys {
        val := c[k.keys[def.fallback].field];
      }
    }
    return Found(val);
  }

  // -------------------------------------------------------------------- writing

  /** The value a key takes from its text, if the text is allowed. */
  function Parse(lower: string -> string, atoi: string -> Option<int>, def: KeyDef, text: string): Option<Data> {
    if def.validate != {} && lower(text) !in def.validate then None
    else
      var v := if def.validate != {} then lower(text) else text;
      if def.typ.IntType? then
        if atoi(v).None? then None else Some(IntData(atoi(v).value))
      else Some(StrData(v))
  }

  function PluginsOf(t: Struct): map<string, Obj>
    requires "Plugins" in t
  {
    if t["Plugins"].Some? && t["Plugins"].value.MapData? then t["Plugins"].value.m else map[]
  }

  function WithPlugin(t: Struct, ns: string, field: string, text: string): Struct
    requires "Plugins" in t
  {
    var plugins := PluginsOf(t);
    var fields := if ns in plugins then plugins[ns] else map[];
    t["Plugins" := Some(MapData(plugins[ns := fields[field := Str(text)]]))]
  }

  /** The layers after SetByKey on a daemon key, also when it fails. */
  function AfterSet(k: Table, lower: string -> string, atoi: string -> Option<int>, names: seq<string>, layers: Layers,
                    layer: string, key: string, text: string): Layers {
    if key !in k.keys || Parse(lower, atoi, k.keys[key], text).None? then layers
    else WithField(k.schema, names, layers, layer, k.keys[key].field, Parse(lower, atoi, k.keys[key], text).value)
  }

  function AfterDelete(k: Table, names: seq<string>, layers: Layers, layer: string, key: string): Layers {
    if layer in names && layer in layers && key in k.keys
    then layers[layer := WithoutField(k.schema, layers[layer], k.keys[key].field)]
    else layers
  }

  function AfterSetPlugin(k: Table, names: seq<string>, layers: Layers, layer: string, key: string,
                          text: string): Layers
    requires k.Ok() && forall l :: l in layers ==> layers[l].Keys == k.schema.Keys
  {
    match SplitPluginKey(key)
    case None => layers
    case Some((ns, field)) =>
      if layer in names
      then layers[layer := WithPlugin(if layer in layers then layers[layer] else Zero(k.schema), ns, field, text)]
      else layers
  }

  function WithoutPlugin(t: Struct, ns: string, field: string): Struct
    requires "Plugins" in t
  {
    var plugins := PluginsOf(t);
    if t["Plugins"].None? || ns !in plugins then t
    else
      var fields := plugins[ns] - {field};
      t["Plugins" := Some(MapData(if fields == map[] then plugins - {ns} else plugins[ns := fields]))]
  }

  function AfterDeletePlugin(k: Table, names: seq<string>, layers: Layers, layer: string, key: string): Layers
    requires k.Ok() && forall l :: l in layers ==> layers[l].Keys == k.schema.Keys
  {
    match SplitPluginKey(key)
    case None => layers
    case Some((ns, field)) =>
      if layer in names && layer in layers then layers[layer := WithoutPlugin(layers[layer], ns, field)] else layers
  }

  method SetByKey(k: Table, store: Store, lower: string -> string, atoi: string -> Option<int>,
                  layer: string, key: string, text: string) returns (ok: bool)
    requires k.Ok() && store.Valid() && store.schema == k.schema
    modifies store
    ensures store.Valid()
    ensures PREFIX <= key ==>
      && (ok <==> SplitPluginKey(key).Some?)
      && store.layers == AfterSetPlugin(k, store.layerNames, old(store.layers), layer, key, text)
    ensures !(PREFIX <= key) ==>
      && (ok <==> layer in store.layerNames && key in k.keys && Parse(lower, atoi, k.keys[key], text).Some?)
      && store.layers == AfterSet(k, lower, atoi, store.layerNames, old(store.layers), layer, key, text)
  {
    if PREFIX <= key {
      ok := SetPluginByKey(k, store, layer, key, text);
      return;
    }
    if key !in k.keys { return false; }
    var def := k.keys[key];
    var v := text;
    if def.validate != {} {
      var normalized := lower(text);
      if normalized !in def.validate { return false; }
      v := normalized;
    }
    if def.typ.IntType? {
      var n := atoi(v);
      if n.None? { return false; }
      ok := store.SetField(layer, def.field, IntData(n.value));
    } else {
      ok := store.SetField(layer, def.field, StrData(v));
    }
  }

  /** An unknown layer is not reported: the store's error is discarded. */
  method SetPluginByKey(k: Table, store: Store, layer: string, key: string, text: string) returns (ok: bool)
    requires k.Ok() && store.Valid() && store.schema == k.schema
    modifies store
    ensures store.Valid() && (ok <==> SplitPluginKey(key).Some?)
    ensures store.layers == AfterSetPlugin(k, store.layerNames, old(store.layers), layer, key, text)
  {
    var split := SplitPluginKey(key);
    if split.None? { return false; }
    var (ns, field) := split.value;
    var layerVal := if layer in store.layers then store.layers[layer] else Zero(k.schema);
    PluginTyped(k, layerVal, ns, field, text);
    var _ := store.Set(layer, WithPlugin(layerVal, ns, field, text));
    return true;
  }

  method DeleteByKey(k: Table, store: Store, layer: string, key: string) returns (ok: bool)
    requires k.Ok() && store.Valid() && store.schema == k.schema
    modifies store
    ensures store.Valid()
    ensures PREFIX <= key ==>
      && (ok <==> SplitPluginKey(key).Some?)
      && store.layers == AfterDeletePlugin(k, store.layerNames, old(store.layers), layer, key)
    ensures !(PREFIX <= key) ==>
      && (ok <==> layer in store.layerNames && key in k.keys)
      && store.layers == AfterDelete(k, store.layerNames, old(store.layers), layer, key)
  {
    if PREFIX <= key {
      ok := DeletePluginByKey(k, store, layer, key);
      return;
    }
    if key !in k.keys { return false; }
    ok := store.ClearLayerField(layer, k.keys[key].field);
  }

  /** Deleting what is not there is no error. A namespace is dropped with its last field, but
      the plugin map of the layer stays, even when it is empty. */
  method DeletePluginByKey(k: Table, store: Store, layer: string, key: string) returns (ok: bool)
    requires k.Ok() && store.Valid() && store.schema == k.schema
    modifies store
    ensures store.Valid() && (ok <==> SplitPluginKey(key).Some?)
    ensures store.layers == AfterDeletePlugin(k, store.layerNames, old(store.layers), layer, key)
  {
    var split := SplitPluginKey(key);
    if split.None? { return false; }
    var (ns, field) := split.value;
    if layer !in store.layers { return true; }
    var layerVal := store.layers[layer];
    KeepLayer(store.layers, layer);
    if layerVal["Plugins"].None? { return true; }
    var plugins := layerVal["Plugins"].value.m;
    if ns !in plugins { return true; }
    var nsConfig := plugins[ns] - {field};
    plugins := if nsConfig == map[] then plugins - {ns} else plugins[ns := nsConfig];
    PutTyped(k.schema, layerVal, "Plugins", Some(MapData(plugins)));
    var _ := store.Set(layer, layerVal["Plugins" := Some(MapData(plugins))]);
    return true;
  }

  lemma KeepLayer(layers: Layers, l: string)
    requires l in layers
    ensures layers[l := layers[l]] == layers
  {
  }

  // ------------------------------------------------------------------------- lemmas

  lemma PluginTyped(k: Table, t: Struct, ns: string, field: string, text: string)
    requires k.Ok() && WellTyped(k.schema, t)
    ensures WellTyped(k.schema, WithPlugin(t, ns, field, text))
  {
    PutTyped(k.schema, t, "Plugins", WithPlugin(t, ns, field, text)["Plugins"]);
  }

  /** No layer more specific than layer `i` sets field `f`. */
  ghost predicate NoneAbove(schema: Schema, names: seq<string>, layers: Layers, i: nat, f: string)
    requires LayersTyped(schema, layers) && f in schema
  {
    forall j :: i < j < |names| && names[j] in layers ==> layers[names[j]][f].None?
  }

  lemma {:induction false} TopSame(schema: Schema, names: seq<string>, layers: Layers, more: Layers, f: string)
    requires LayersTyped(schema, layers) && LayersTyped(schema, more) && f in schema
    requires forall i :: 0 <= i < |names| ==> (names[i] in more <==> names[i] in layers)
    requires forall i :: 0 <= i < |names| && names[i] in layers ==> more[names[i]][f] == layers[names[i]][f]
    ensures Top(schema, names, more, f) == Top(schema, names, layers, f)
  {
    if names != [] {
      TopSame(schema, names[..|names| - 1], layers, more, f);
    }
  }

  lemma NoneAboveInit(schema: Schema, names: seq<string>, layers: Layers, i: nat, f: string)
    requires LayersTyped(schema, layers) && f in schema && i < |names| - 1
    ensures var n := |names| - 1;
            NoneAbove(schema, names, layers, i, f) <==>
              NoneAbove(schema, names[..n], layers, i, f) && (names[n] in layers ==> layers[names[n]][f].None?)
  {
    var n := |names| - 1;
    assert forall j :: 0 <= j < n ==> names[..n][j] == names[j];
  }

  /** A layer replaced by one that sets `f` decides it unless a more specific layer does. */
  lemma LayerReplaced(schema: Schema, names: seq<string>, layers: Layers, i: nat, t: Struct, f: string)
    requires LayersTyped(schema, layers) && WellTyped(schema, t) && f in schema && schema[f].nillable && t[f].Some?
    requires Distinct(names) && i < |names|
    ensures LayersTyped(schema, layers[names[i] := t])
    ensures Effective(schema, names, layers[names[i] := t])[f]
         == if NoneAbove(schema, names, layers, i, f) then t[f] else Effective(schema, names, layers)[f]
  {
    var more := layers[names[i] := t];
    TopWithLayer(schema, names, layers, more, i, f);
    EffectiveIsTop(schema, names, layers, f);
    EffectiveIsTop(schema, names, more, f);
  }

  /** How changing only layer `i` changes the most specific definition of a nillable field. */
  lemma {:induction false} TopWithLayer(schema: Schema, names: seq<string>, layers: Layers, more: Layers, i: nat,
                                        f: string)
    requires LayersTyped(schema, layers) && LayersTyped(schema, more) && f in schema && schema[f].nillable
    requires Distinct(names) && i < |names| && names[i] in more
    requires forall l :: l != names[i] ==> (l in more <==> l in layers) && (l in layers ==> more[l] == layers[l])
    ensures Top(schema, names, more, f)
         == if !NoneAbove(schema, names, layers, i, f) then Top(schema, names, layers, f)
            else if more[names[i]][f].Some? then Some(more[names[i]][f])
            else Top(schema, names[..i], layers, f)
  {
    var n := |names| - 1;
    var init := names[..n];
    if i == n {
      TopWithLastLayer(schema, names, layers, more, f);
    } else {
      TopWithLayer(schema, init, layers, more, i, f);
      NoneAboveInit(schema, names, layers, i, f);
      assert init[i] == names[i] && init[..i] == names[..i];
    }
  }

  lemma TopWithLastLayer(schema: Schema, names: seq<string>, layers: Layers, more: Layers, f: string)
    requires LayersTyped(schema, layers) && LayersTyped(schema, more) && f in schema && schema[f].nillable
    requires Distinct(names) && names != [] && names[|names| - 1] in more
    requires forall l :: l != names[|names| - 1] ==>
               (l in more <==> l in layers) && (l in layers ==> more[l] == layers[l])
    ensures var n := |names| - 1;
            && NoneAbove(schema, names, layers, n, f)
            && Top(schema, names, more, f)
               == if more[names[n]][f].Some? then Some(more[names[n]][f]) else Top(schema, names[..n], layers, f)
  {
    TopSame(schema, names[..|names| - 1], layers, more, f);
  }

  lemma SetTyped(schema: Schema, names: seq<string>, layers: Layers, layer: string, f: string, d: Data)
    requires LayersTyped(schema, layers)
    ensures LayersTyped(schema, WithField(schema, names, layers, layer, f, d))
  {
    var t := if layer in layers then layers[layer] else Zero(schema);
    if f in schema && TypeOf(d) == schema[f].typ { PutTyped(schema, t, f, Some(d)); }
  }

  lemma ParsedFits(k: Table, lower: string -> string, atoi: string -> Option<int>, key: string, text: string)
    requires k.Ok() && key in k.keys && Parse(lower, atoi, k.keys[key], text).Some?
    ensures TypeOf(Parse(lower, atoi, k.keys[key], text).value) == k.schema[k.keys[key].field].typ
  {
  }

  /** Writing one field of a layer leaves every other effective field as it was. */
  lemma FieldFrame(schema: Schema, names: seq<string>, layers: Layers, layer: string, f: string, d: Data, g: string)
    requires AllNillable(schema) && LayersTyped(schema, layers)
    requires f in schema && TypeOf(d) == schema[f].typ && g in schema && g != f
    ensures LayersTyped(schema, WithField(schema, names, layers, layer, f, d))
    ensures Effective(schema, names, WithField(schema, names, layers, layer, f, d))[g]
         == Effective(schema, names, layers)[g]
  {
    SetTyped(schema, names, layers, layer, f, d);
    var more := WithField(schema, names, layers, layer, f, d);
    if layer in names {
      if layer in layers {
        TopSame(schema, names, layers, more, g);
      } else {
        EmptyLayerIsNeutral(schema, names, layers, layer);
        TopIgnoresEmpty(schema, names, layers, layer, g);
        TopSame(schema, names, layers[layer := Zero(schema)], more, g);
      }
      EffectiveIsTop(schema, names, layers, g);
      EffectiveIsTop(schema, names, more, g);
    }
  }

  /** The written field takes the new value unless a more specific layer sets it. */
  lemma FieldWritten(schema: Schema, names: seq<string>, layers: Layers, i: nat, f: string, d: Data)
    requires AllNillable(schema) && LayersTyped(schema, layers) && f in schema && TypeOf(d) == schema[f].typ
    requires Distinct(names) && i < |names|
    ensures LayersTyped(schema, WithField(schema, names, layers, names[i], f, d))
    ensures Effective(schema, names, WithField(schema, names, layers, names[i], f, d))[f]
         == if NoneAbove(schema, names, layers, i, f) then Some(d) else Effective(schema, names, layers)[f]
  {
    SetTyped(schema, names, layers, names[i], f, d);
    LayerReplaced(schema, names, layers, i, WithField(schema, names, layers, names[i], f, d)[names[i]], f);
  }

  lemma {:induction false} TopIsSet(schema: Schema, names: seq<string>, layers: Layers, f: string)
    requires LayersTyped(schema, layers) && f in schema && schema[f].nillable
    ensures Top(schema, names, layers, f).Some? ==> Top(schema, names, layers, f).value.Some?
  {
    if names != [] {
      TopIsSet(schema, names[..|names| - 1], layers, f);
    }
  }

  /** Resetting a field in a layer uncovers the layers below, unless a more specific one decides. */
  lemma FieldReset(schema: Schema, names: seq<string>, layers: Layers, i: nat, f: string)
    requires AllNillable(schema) && LayersTyped(schema, layers) && f in schema
    requires Distinct(names) && i < |names| && names[i] in layers
    ensures var after := layers[names[i] := WithoutField(schema, layers[names[i]], f)];
            var below := Top(schema, names[..i], layers, f);
            && LayersTyped(schema, after)
            && Effective(schema, names, after)[f]
               == (if !NoneAbove(schema, names, layers, i, f) then Effective(schema, names, layers)[f]
                   else if below.Some? then below.value else None)
            && (below.Some? ==> below.value.Some?)
  {
    var after := layers[names[i] := WithoutField(schema, layers[names[i]], f)];
    ZeroTyped(schema, layers[names[i]], f);
    TopWithLayer(schema, names, layers, after, i, f);
    EffectiveIsTop(schema, names, layers, f);
    EffectiveIsTop(schema, names, after, f);
    TopIsSet(schema, names[..i], layers, f);
  }

  /** ... and leaves every other effective field as it was. */
  lemma ResetFrame(schema: Schema, names: seq<string>, layers: Layers, layer: string, f: string, g: string)
    requires LayersTyped(schema, layers) && f in schema && g in schema && g != f && layer in layers
    ensures var after := layers[layer := WithoutField(schema, layers[layer], f)];
            LayersTyped(schema, after) && Effective(schema, names, after)[g] == Effective(schema, names, layers)[g]
  {
    var after := layers[layer := WithoutField(schema, layers[layer], f)];
    ZeroTyped(schema, layers[layer], f);
    TopSame(schema, names, layers, after, g);
    EffectiveIsTop(schema, names, layers, g);
    EffectiveIsTop(schema, names, after, g);
  }

  // ---------------------------------------------------------------- daemon key laws

  /** A value that SetByKey accepts is what GetByKey then returns, unless a more specific layer
      sets the key, and then nothing changes for the reader. */
  lemma SetThenGet(k: Table, lower: string -> string, atoi: string -> Option<int>, names: seq<string>, layers: Layers,
                   i: nat, key: string, text: string)
    requires k.Ok() && LayersTyped(k.schema, layers) && Distinct(names) && i < |names|
    requires key in k.keys && Parse(lower, atoi, k.keys[key], text).Some?
    ensures var after := AfterSet(k, lower, atoi, names, layers, names[i], key, text);
            && LayersTyped(k.schema, after)
            && ReadKey(k, Effective(k.schema, names, after), key)
               == if NoneAbove(k.schema, names, layers, i, k.keys[key].field)
                  then Found(Some(Parse(lower, atoi, k.keys[key], text).value))
                  else ReadKey(k, Effective(k.schema, names, layers), key)
  {
    var def, d := k.keys[key], Parse(lower, atoi, k.keys[key], text).value;
    ParsedFits(k, lower, atoi, key, text);
    FieldWritten(k.schema, names, layers, i, def.field, d);
    if def.fallback != "" {
      FieldFrame(k.schema, names, layers, names[i], def.field, d, k.keys[def.fallback].field);
    }
  }

  /** What another key reads as when only the field of `key` has changed: a key that is not set
      itself and falls back to `key` follows it, and every other key stays. */
  ghost predicate OthersFollow(k: Table, before: Struct, after: Struct, key: string, other: string)
    requires k.Ok() && key in k.keys && other in k.keys && before.Keys == after.Keys == k.schema.Keys
  {
    ReadKey(k, after, other)
    == if k.keys[other].fallback == key != "" && before[k.keys[other].field].None?
       then Found(after[k.keys[key].field])
       else ReadKey(k, before, other)
  }

  lemma OneFieldChanged(k: Table, before: Struct, after: Struct, key: string, other: string)
    requires k.Ok() && key in k.keys && other in k.keys && before.Keys == after.Keys == k.schema.Keys && other != key
    requires forall f :: f in k.schema && f != k.keys[key].field ==> after[f] == before[f]
    ensures OthersFollow(k, before, after, key, other)
  {
  }

  /** Writing a key changes what no other key reads as, except thresholds that are not set
      themselves and fall back to it: they read what the key has become. */
  lemma SetChangesNoOtherKey(k: Table, lower: string -> string, atoi: string -> Option<int>, names: seq<string>,
                             layers: Layers, layer: string, key: string, text: string, other: string)
    requires k.Ok() && LayersTyped(k.schema, layers) && other != key && key in k.keys && other in k.keys
    requires Parse(lower, atoi, k.keys[key], text).Some?
    ensures var after := AfterSet(k, lower, atoi, names, layers, layer, key, text);
            && LayersTyped(k.schema, after)
            && OthersFollow(k, Effective(k.schema, names, layers), Effective(k.schema, names, after), key, other)
  {
    var def, d := k.keys[key], Parse(lower, atoi, k.keys[key], text).value;
    var after := AfterSet(k, lower, atoi, names, layers, layer, key, text);
    ParsedFits(k, lower, atoi, key, text);
    SetTyped(k.schema, names, layers, layer, def.field, d);
    forall g | g in k.schema && g != def.field
      ensures Effective(k.schema, names, after)[g] == Effective(k.schema, names, layers)[g]
    {
      FieldFrame(k.schema, names, layers, layer, def.field, d, g);
    }
    OneFieldChanged(k, Effective(k.schema, names, layers), Effective(k.schema, names, after), key, other);
  }

  /** Deleting a key from the layer that decides it uncovers the layers below, and the fallback
      once none of those sets it either. Deleting it from a layer under one that sets it, or
      that was never set, changes nothing. */
  lemma DeleteUncoversLowerLayers(k: Table, names: seq<string>, layers: Layers, i: nat, key: string)
    requires k.Ok() && LayersTyped(k.schema, layers) && Distinct(names) && i < |names| && key in k.keys
    ensures var def := k.keys[key];
            var after := AfterDelete(k, names, layers, names[i], key);
            var below := Top(k.schema, names[..i], layers, def.field);
            && LayersTyped(k.schema, after)
            && ReadKey(k, Effective(k.schema, names, after), key)
               == if names[i] !in layers || !NoneAbove(k.schema, names, layers, i, def.field)
                  then ReadKey(k, Effective(k.schema, names, layers), key)
                  else if below.Some? then Found(below.value)
                  else if def.fallback != "" then Found(Effective(k.schema, names, layers)[k.keys[def.fallback].field])
                  else Found(None)
  {
    var def := k.keys[key];
    if names[i] in layers {
      FieldReset(k.schema, names, layers, i, def.field);
      if def.fallback != "" {
        ResetFrame(k.schema, names, layers, names[i], def.field, k.keys[def.fallback].field);
      }
    }
  }

  /** Deleting a key changes other keys as little as setting it. */
  lemma DeleteChangesNoOtherKey(k: Table, names: seq<string>, layers: Layers, layer: string, key: string, other: string)
    requires k.Ok() && LayersTyped(k.schema, layers) && other != key && key in k.keys && other in k.keys
    ensures var after := AfterDelete(k, names, layers, layer, key);
            && LayersTyped(k.schema, after)
            && OthersFollow(k, Effective(k.schema, names, layers), Effective(k.schema, names, after), key, other)
  {
    var f, after := k.keys[key].field, AfterDelete(k, names, layers, layer, key);
    if layer in names && layer in layers {
      ZeroTyped(k.schema, layers[layer], f);
      forall g | g in k.schema && g != f
        ensures Effective(k.schema, names, after)[g] == Effective(k.schema, names, layers)[g]
      {
        ResetFrame(k.schema, names, layers, layer, f, g);
      }
    }
    OneFieldChanged(k, Effective(k.schema, names, layers), Effective(k.schema, names, after), key, other);
  }

  /** Setting a key in a layer that did not set it, and deleting it again, leaves every field
      as before. */
  lemma DeleteUndoesSet(k: Table, lower: string -> string, atoi: string -> Option<int>, names: seq<string>,
                        layers: Layers, layer: string, key: string, text: string)
    requires k.Ok() && LayersTyped(k.schema, layers) && layer in names && key in k.keys
    requires Parse(lower, atoi, k.keys[key], text).Some?
    requires layer in layers ==> layers[layer][k.keys[key].field].None?
    ensures var undone := AfterDelete(k, names, AfterSet(k, lower, atoi, names, layers, layer, key, text), layer, key);
            LayersTyped(k.schema, undone) && Effective(k.schema, names, undone) == Effective(k.schema, names, layers)
  {
    var t := if layer in layers then layers[layer] else Zero(k.schema);
    UndoneLayers(k, lower, atoi, names, layers, layer, key, text, t);
    if layer in layers {
      assert layers[layer := t] == layers;
    } else {
      EmptyLayerIsNeutral(k.schema, names, layers, layer);
    }
  }

  lemma UndoneLayers(k: Table, lower: string -> string, atoi: string -> Option<int>, names: seq<string>, layers: Layers,
                     layer: string, key: string, text: string, t: Struct)
    requires k.Ok() && LayersTyped(k.schema, layers) && layer in names && key in k.keys
    requires Parse(lower, atoi, k.keys[key], text).Some?
    requires t == if layer in layers then layers[layer] else Zero(k.schema)
    requires t[k.keys[key].field].None?
    ensures AfterDelete(k, names, AfterSet(k, lower, atoi, names, layers, layer, key, text), layer, key)
         == layers[layer := t]
  {
    var f, d := k.keys[key].field, Parse(lower, atoi, k.keys[key], text).value;
    ParsedFits(k, lower, atoi, key, text);
    assert t[f := Some(d)][f := None] == t;
    UpdateTwice(layers, layer, t[f := Some(d)], t);
  }

  // ---------------------------------------------------------------- plugin key laws

  function Print(ns: string, field: string): string {
    "plugins." + ns + "." + field
  }

  lemma {:induction false} LastDotOf(a: string, b: string)
    requires '.' !in b
    ensures LastDot(a + "." + b) == |a|
  {
    var s := a + "." + b;
    if b == "" {
      assert s == a + ".";
    } else {
      assert s[..|s| - 1] == a + "." + b[..|b| - 1];
      LastDotOf(a, b[..|b| - 1]);
      assert s[|s| - 1] == b[|b| - 1];
    }
  }

  lemma RestOfPrint(ns: string, field: string)
    ensures var key := Print(ns, field);
            FirstDot(key) == 7 < |key| - 1 && key[8..] == ns + "." + field
  {
    assert Print(ns, field) == "plugins" + ("." + (ns + "." + field));
    FirstDotOf("plugins", "." + (ns + "." + field));
  }

  /** SplitPluginKey takes apart what AllKeys prints exactly for a namespace that is not empty
      and a field without dots. */
  lemma SplitInvertsPrintingIff(ns: string, field: string)
    ensures SplitPluginKey(Print(ns, field)) == Some((ns, field)) <==> ns != "" && '.' !in field
  {
    var rest := ns + "." + field;
    RestOfPrint(ns, field);
    if '.' !in field {
      LastDotOf(ns, field);
      assert rest[..|ns|] == ns && rest[|ns| + 1..] == field;
    }
  }

  /** The layer's own struct, empty if it was never set. */
  function LayerOf(k: Table, layers: Layers, layer: string): Struct {
    if layer in layers then layers[layer] else Zero(k.schema)
  }

  lemma LayerTyped(k: Table, layers: Layers, layer: string)
    requires LayersTyped(k.schema, layers)
    ensures WellTyped(k.schema, LayerOf(k, layers, layer))
  {
  }

  /** What SetByKey reports as success for a plugin key is read back exactly if the layer is
      known and no more specific layer sets any plugin key; otherwise reads stay as they were. */
  lemma PluginSetThenGet(k: Table, names: seq<string>, layers: Layers, i: nat, key: string, text: string)
    requires k.Ok() && LayersTyped(k.schema, layers) && Distinct(names) && i < |names|
    requires SplitPluginKey(key).Some?
    ensures var after := AfterSetPlugin(k, names, layers, names[i], key, text);
            && LayersTyped(k.schema, after)
            && ReadPlugin(k, Effective(k.schema, names, after), key)
               == if NoneAbove(k.schema, names, layers, i, "Plugins") then FoundPlugin(Str(text))
                  else ReadPlugin(k, Effective(k.schema, names, layers), key)
    ensures forall layer :: layer !in names ==> AfterSetPlugin(k, names, layers, layer, key, text) == layers
  {
    var (ns, field) := SplitPluginKey(key).value;
    var t := LayerOf(k, layers, names[i]);
    LayerTyped(k, layers, names[i]);
    PluginTyped(k, t, ns, field, text);
    LayerReplaced(k.schema, names, layers, i, WithPlugin(t, ns, field, text), "Plugins");
  }

  /** Giving layer `i` a plugin map that says the same about `other` as its own: what is read
      stays the same exactly if a more specific layer decides, or the layer had a plugin map
      already, or nothing was to be read in the first place. */
  lemma PluginMapReplacedIff(k: Table, names: seq<string>, layers: Layers, i: nat, t: Struct, other: string)
    requires k.Ok() && LayersTyped(k.schema, layers) && Distinct(names) && i < |names|
    requires WellTyped(k.schema, t) && t["Plugins"].Some?
    requires ReadPlugin(k, t, other) == ReadPlugin(k, LayerOf(k, layers, names[i]), other)
    ensures LayersTyped(k.schema, layers[names[i] := t])
    ensures ReadPlugin(k, Effective(k.schema, names, layers[names[i] := t]), other)
            == ReadPlugin(k, Effective(k.schema, names, layers), other)
       <==> || !NoneAbove(k.schema, names, layers, i, "Plugins")
            || LayerOf(k, layers, names[i])["Plugins"].Some?
            || ReadPlugin(k, Effective(k.schema, names, layers), other) == NotFound
  {
    LayerReplaced(k.schema, names, layers, i, t, "Plugins");
    var own := LayerOf(k, layers, names[i]);
    if own["Plugins"].Some? {
      LayerReplaced(k.schema, names, layers, i, own, "Plugins");
      KeepLayer(layers, names[i]);
    }
  }

  lemma SetKeepsOtherKeys(k: Table, t: Struct, key: string, other: string, text: string)
    requires k.Ok() && WellTyped(k.schema, t) && SplitPluginKey(key).Some?
    requires SplitPluginKey(key) != SplitPluginKey(other)
    ensures var (ns, field) := SplitPluginKey(key).value;
            WellTyped(k.schema, WithPlugin(t, ns, field, text))
            && ReadPlugin(k, WithPlugin(t, ns, field, text), other) == ReadPlugin(k, t, other)
  {
    var (ns, field) := SplitPluginKey(key).value;
    PluginTyped(k, t, ns, field, text);
  }

  /** Plugin maps replace each other as a whole, so setting one plugin key can change what
      another reads as. It leaves the other alone exactly if a more specific layer decides,
      or the layer had plugin keys already, or the other could not be read anyway. */
  lemma PluginSetKeepsOtherIff(k: Table, names: seq<string>, layers: Layers, i: nat,
                               key: string, other: string, text: string)
    requires k.Ok() && LayersTyped(k.schema, layers) && Distinct(names) && i < |names|
    requires SplitPluginKey(key).Some? && SplitPluginKey(key) != SplitPluginKey(other)
    ensures var after := AfterSetPlugin(k, names, layers, names[i], key, text);
            && LayersTyped(k.schema, after)
            && (ReadPlugin(k, Effective(k.schema, names, after), other)
                == ReadPlugin(k, Effective(k.schema, names, layers), other)
                <==> || !NoneAbove(k.schema, names, layers, i, "Plugins")
                     || LayerOf(k, layers, names[i])["Plugins"].Some?
                     || ReadPlugin(k, Effective(k.schema, names, layers), other) == NotFound)
  {
    var (ns, field) := SplitPluginKey(key).value;
    var t := LayerOf(k, layers, names[i]);
    LayerTyped(k, layers, names[i]);
    SetKeepsOtherKeys(k, t, key, other, text);
    PluginMapReplacedIff(k, names, layers, i, WithPlugin(t, ns, field, text), other);
  }

  /** ... and when it does change it, the other key can no longer be read at all. */
  lemma PluginKeysHideLowerLayers(k: Table, names: seq<string>, layers: Layers, i: nat,
                                  key: string, other: string, text: string)
    requires k.Ok() && LayersTyped(k.schema, layers) && Distinct(names) && i < |names|
    requires SplitPluginKey(key).Some? && SplitPluginKey(other).Some? && SplitPluginKey(key) != SplitPluginKey(other)
    requires NoneAbove(k.schema, names, layers, i, "Plugins")
    requires names[i] in layers ==> layers[names[i]]["Plugins"].None?
    ensures var after := AfterSetPlugin(k, names, layers, names[i], key, text);
            && LayersTyped(k.schema, after)
            && ReadPlugin(k, Effective(k.schema, names, after), other) == NotFound
  {
    var (ns, field) := SplitPluginKey(key).value;
    var t := LayerOf(k, layers, names[i]);
    LayerTyped(k, layers, names[i]);
    SetKeepsOtherKeys(k, t, key, other, text);
    LayerReplaced(k.schema, names, layers, i, WithPlugin(t, ns, field, text), "Plugins");
    SameReads(k, Effective(k.schema, names, layers[names[i] := WithPlugin(t, ns, field, text)]),
              WithPlugin(t, ns, field, text), other);
  }

  lemma SameReads(k: Table, c: Struct, d: Struct, key: string)
    requires k.Ok() && c.Keys == k.schema.Keys == d.Keys && c["Plugins"] == d["Plugins"]
    ensures ReadPlugin(k, c, key) == ReadPlugin(k, d, key)
  {
  }

  lemma TwoPluginKeys()
    ensures SplitPluginKey(Print("a", "x")).Some? && SplitPluginKey(Print("b", "y")).Some?
    ensures SplitPluginKey(Print("a", "x")) != SplitPluginKey(Print("b", "y"))
  {
    SplitInvertsPrintingIff("a", "x");
    SplitInvertsPrintingIff("b", "y");
  }

  lemma FileWithPlugin(k: Table, v: Value) returns (t: Struct)
    requires k.Ok()
    ensures WellTyped(k.schema, t) && t["Plugins"].Some?
    ensures ReadPlugin(k, t, Print("a", "x")) == FoundPlugin(v)
  {
    SplitInvertsPrintingIff("a", "x");
    var plugins: map<string, Obj> := map["a" := map["x" := v]];
    t := Zero(k.schema)["Plugins" := Some(MapData(plugins))];
    PutTyped(k.schema, Zero(k.schema), "Plugins", Some(MapData(plugins)));
    assert LookUp(plugins, "a", "x") == FoundPlugin(v);
  }

  /** A readable key disappears: `plugins.a.x` from the file, once `plugins.b.y` is set on the
      command line. */
  lemma PluginKeyDisappears(k: Table, v: Value) returns (names: seq<string>, layers: Layers)
    requires k.Ok()
    ensures LayersTyped(k.schema, layers)
    ensures ReadPlugin(k, Effective(k.schema, names, layers), Print("a", "x")) == FoundPlugin(v)
    ensures var after := AfterSetPlugin(k, names, layers, "cli", Print("b", "y"), "1");
            && LayersTyped(k.schema, after)
            && ReadPlugin(k, Effective(k.schema, names, after), Print("a", "x")) == NotFound
  {
    var t := FileWithPlugin(k, v);
    TwoPluginKeys();
    names, layers := FileThenCommandLine(k, t, Print("b", "y"), Print("a", "x"), "1");
  }

  lemma FileThenCommandLine(k: Table, t: Struct, key: string, other: string, text: string)
    returns (names: seq<string>, layers: Layers)
    requires k.Ok() && WellTyped(k.schema, t) && t["Plugins"].Some?
    requires SplitPluginKey(key).Some? && SplitPluginKey(other).Some? && SplitPluginKey(key) != SplitPluginKey(other)
    ensures LayersTyped(k.schema, layers)
    ensures ReadPlugin(k, Effective(k.schema, names, layers), other) == ReadPlugin(k, t, other)
    ensures var after := AfterSetPlugin(k, names, layers, "cli", key, text);
            && LayersTyped(k.schema, after)
            && ReadPlugin(k, Effective(k.schema, names, after), other) == NotFound
  {
    names, layers := ["file", "cli"], map["file" := t];
    KeepLayer(layers, "file");
    LayerReplaced(k.schema, names, layers, 0, t, "Plugins");
    PluginKeysHideLowerLayers(k, names, layers, 1, key, other, text);
  }

  /** Deleting a plugin key makes it unreadable if its layer decides, whatever layers below it
      say; otherwise reads stay as they were. */
  lemma PluginDeleteThenGet(k: Table, names: seq<string>, layers: Layers, i: nat, key: string)
    requires k.Ok() && LayersTyped(k.schema, layers) && Distinct(names) && i < |names|
    requires SplitPluginKey(key).Some?
    ensures var after := AfterDeletePlugin(k, names, layers, names[i], key);
            && LayersTyped(k.schema, after)
            && ReadPlugin(k, Effective(k.schema, names, after), key)
               == if NoneAbove(k.schema, names, layers, i, "Plugins") && LayerOf(k, layers, names[i])["Plugins"].Some?
                  then NotFound else ReadPlugin(k, Effective(k.schema, names, layers), key)
  {
    var (ns, field) := SplitPluginKey(key).value;
    var t := LayerOf(k, layers, names[i]);
    if names[i] in layers {
      WithoutPluginTyped(k, t, ns, field);
      KeepLayer(layers, names[i]);
      if t["Plugins"].Some? {
        LayerReplaced(k.schema, names, layers, i, t, "Plugins");
        LayerReplaced(k.schema, names, layers, i, WithoutPlugin(t, ns, field), "Plugins");
      }
    }
  }

  lemma WithoutPluginTyped(k: Table, t: Struct, ns: string, field: string)
    requires k.Ok() && WellTyped(k.schema, t)
    ensures WellTyped(k.schema, WithoutPlugin(t, ns, field))
    ensures LookUp(PluginsOf(WithoutPlugin(t, ns, field)), ns, field) == NotFound
  {
    PutTyped(k.schema, t, "Plugins", WithoutPlugin(t, ns, field)["Plugins"]);
  }

  lemma SetAndDeleteRead(k: Table, t: Struct, ns: string, field: string, text: string, other: string)
    requires k.Ok() && WellTyped(k.schema, t) && LookUp(PluginsOf(t), ns, field) == NotFound
    ensures var u := WithoutPlugin(WithPlugin(t, ns, field, text), ns, field);
            && WellTyped(k.schema, u) && u["Plugins"].Some?
            && ReadPlugin(k, u, other) == ReadPlugin(k, t, other)
  {
    PluginTyped(k, t, ns, field, text);
    WithoutPluginTyped(k, WithPlugin(t, ns, field, text), ns, field);
    if SplitPluginKey(other).Some? {
      PutAndDropped(PluginsOf(t), ns, field, Str(text), SplitPluginKey(other).value.0, SplitPluginKey(other).value.1);
    }
  }

  lemma PutAndDropped(plugins: map<string, Obj>, ns: string, field: string, v: Value, otherNs: string, other: string)
    requires LookUp(plugins, ns, field) == NotFound
    ensures var fields: Obj := if ns in plugins then plugins[ns] else map[];
            var put := plugins[ns := fields[field := v]];
            var left := put[ns] - {field};
            LookUp(if left == map[] then put - {ns} else put[ns := left], otherNs, other)
            == LookUp(plugins, otherNs, other)
  {
    var fields: Obj := if ns in plugins then plugins[ns] else map[];
    assert fields[field := v] - {field} == fields;
  }

  /** Setting a plugin key that a layer did not set and deleting it again is not always undone:
      the empty plugin map stays and hides the layers below. A key reads as before exactly
      under the condition under which setting alone would have left it alone. */
  lemma PluginDeleteUndoesSetIff(k: Table, names: seq<string>, layers: Layers, i: nat,
                                 key: string, text: string, other: string)
    requires k.Ok() && LayersTyped(k.schema, layers) && Distinct(names) && i < |names|
    requires SplitPluginKey(key).Some? && ReadPlugin(k, LayerOf(k, layers, names[i]), key) == NotFound
    ensures var set_ := AfterSetPlugin(k, names, layers, names[i], key, text);
            var undone := AfterDeletePlugin(k, names, set_, names[i], key);
            && LayersTyped(k.schema, undone)
            && (ReadPlugin(k, Effective(k.schema, names, undone), other)
                == ReadPlugin(k, Effective(k.schema, names, layers), other)
                <==> || !NoneAbove(k.schema, names, layers, i, "Plugins")
                     || LayerOf(k, layers, names[i])["Plugins"].Some?
                     || ReadPlugin(k, Effective(k.schema, names, layers), other) == NotFound)
  {
    var (ns, field) := SplitPluginKey(key).value;
    var t := LayerOf(k, layers, names[i]);
    LayerTyped(k, layers, names[i]);
    SetAndDeleteRead(k, t, ns, field, text, other);
    var u := WithoutPlugin(WithPlugin(t, ns, field, text), ns, field);
    UpdateTwice(layers, names[i], WithPlugin(t, ns, field, text), u);
    PluginMapReplacedIff(k, names, layers, i, u, other);
  }

  // ------------------------------------------------------------------ the daemon's table

  /** The laws hold of the daemon's own keys, for instance: what is set is read back. */
  lemma DaemonSetThenGet(lower: string -> string, atoi: string -> Option<int>, names: seq<string>, layers: Layers,
                         i: nat, key: string, text: string)
    requires LayersTyped(CONFIG, layers) && Distinct(names) && i < |names|
    requires key in KEYS && Parse(lower, atoi, KEYS[key], text).Some?
    ensures DAEMON.Ok()
    ensures var after := AfterSet(DAEMON, lower, atoi, names, layers, names[i], key, text);
            && LayersTyped(CONFIG, after)
            && ReadKey(DAEMON, Effective(CONFIG, names, after), key)
               == if NoneAbove(CONFIG, names, layers, i, KEYS[key].field)
                  then Found(Some(Parse(lower, atoi, KEYS[key], text).value))
                  else ReadKey(DAEMON, Effective(CONFIG, names, layers), key)
  {
    DaemonOk();
    ConfigIsNillable();
    SetThenGet(DAEMON, lower, atoi, names, layers, i, key, text);
  }

  // ------------------------------------------------------ the daemon's keys, one by one

  /** A key with choices takes them in any case and stores them in lower case. */
  lemma ChoiceAccepted(lower: string -> string, atoi: string -> Option<int>, field: string, choices: set<string>,
                       text: string)
    requires choices != {}
    ensures Parse(lower, atoi, KeyDef(field, StrType, choices, ""), text)
         == if lower(text) in choices then Some(StrData(lower(text))) else None
  {
  }

  lemma ModeAndLevel()
    ensures "concurrency_mode" in KEYS && "log_level" in KEYS
    ensures KEYS["concurrency_mode"] == KeyDef("ConcurrencyMode", StrType, {"queue", "parallel", "drop", "abort"}, "")
    ensures KEYS["log_level"] == KeyDef("LogLevel", StrType, {"debug", "info", "warn", "error"}, "")
  {
  }

  /** The two daemon keys with choices accept exactly these texts, in any case. */
  lemma DaemonChoices(lower: string -> string, atoi: string -> Option<int>, text: string)
    ensures "concurrency_mode" in KEYS && "log_level" in KEYS
    ensures Parse(lower, atoi, KEYS["concurrency_mode"], text)
         == if lower(text) == "queue" || lower(text) == "parallel" || lower(text) == "drop" || lower(text) == "abort"
            then Some(StrData(lower(text))) else None
    ensures Parse(lower, atoi, KEYS["log_level"], text)
         == if lower(text) == "debug" || lower(text) == "info" || lower(text) == "warn" || lower(text) == "error"
            then Some(StrData(lower(text))) else None
  {
    ModeAndLevel();
    assert "queue" in {"queue", "parallel", "drop", "abort"} && "debug" in {"debug", "info", "warn", "error"};
    ChoiceAccepted(lower, atoi, "ConcurrencyMode", {"queue", "parallel", "drop", "abort"}, text);
    ChoiceAccepted(lower, atoi, "LogLevel", {"debug", "info", "warn", "error"}, text);
  }

  predicate Numeric(key: string) {
    || key == "error_threshold" || key == "trigger_error_threshold" || key == "action_error_threshold"
    || key == "max_queue_size"
  }

  /** Every other daemon key takes any text as it is, or as a number where it is one. */
  lemma OtherKeysAcceptAnything(lower: string -> string, atoi: string -> Option<int>, key: string, text: string)
    requires key in KEYS && key != "concurrency_mode" && key != "log_level"
    ensures Parse(lower, atoi, KEYS[key], text)
         == if !Numeric(key) then Some(StrData(text))
            else if atoi(text).Some? then Some(IntData(atoi(text).value)) else None
  {
    PlainKey(key);
  }

  lemma PlainKey(key: string)
    requires key in KEYS && key != "concurrency_mode" && key != "log_level"
    ensures KEYS[key].validate == {} && (KEYS[key].typ == if Numeric(key) then IntType else StrType)
  {
  }

  /** Which field of the configuration a key stands for, and which keys fall back to another. */
  lemma DaemonFields()
    ensures KEYS.Keys == {"default_shell", "error_threshold", "trigger_error_threshold", "action_error_threshold",
                          "concurrency_mode", "max_queue_size", "debounce", "shutdown_timeout", "log_level",
                          "socket_address", "allowed_hosts"}
    ensures KEYS["default_shell"].field == "DefaultShell" && KEYS["error_threshold"].field == "ErrorThreshold"
    ensures KEYS["trigger_error_threshold"].field == "TriggerErrorThreshold"
    ensures KEYS["action_error_threshold"].field == "ActionErrorThreshold"
    ensures KEYS["concurrency_mode"].field == "ConcurrencyMode" && KEYS["max_queue_size"].field == "MaxQueueSize"
    ensures KEYS["debounce"].field == "Debounce" && KEYS["shutdown_timeout"].field == "ShutdownTimeout"
    ensures KEYS["log_level"].field == "LogLevel" && KEYS["socket_address"].field == "SocketAddress"
    ensures KEYS["allowed_hosts"].field == "AllowedHosts"
    ensures forall k :: k in KEYS ==>
              KEYS[k].fallback == if k == "trigger_error_threshold" || k == "action_error_threshold"
                                  then "error_threshold" else ""
  {
  }

  /** Keys that start with the word plugins are read as plugin keys, and daemon keys are not. */
  lemma KeysAreTold(c: Struct, ns: string, field: string, key: string)
    requires DAEMON.Ok() && c.Keys == CONFIG.Keys && key in KEYS
    ensures Read(DAEMON, c, Print(ns, field)) == ReadPlugin(DAEMON, c, Print(ns, field))
    ensures Read(DAEMON, c, key) == ReadKey(DAEMON, c, key)
  {
    var printed := Print(ns, field);
    assert printed[..|PREFIX|] == PREFIX;
    FirstLetter(key);
    SameStart(PREFIX, key);
  }

  lemma SameStart(p: string, s: string)
    ensures p <= s && p != "" ==> s != "" && s[0] == p[0]
  {
  }

  lemma FirstLetter(key: string)
    requires key in KEYS
    ensures key != "" && key[0] != 'p'
  {
  }

  /** What a layer says about plugins: whether it has the namespace, and the fields in it. */
  predicate HasPlugin(t: Struct, ns: string, field: string)
    requires "Plugins" in t
  {
    ns in PluginsOf(t) && field in PluginsOf(t)[ns]
  }

  /** The structs differ in no field but this one of this namespace. */
  ghost predicate OnlyThisPlugin(t: Struct, t': Struct, ns: string, field: string)
    requires "Plugins" in t && "Plugins" in t'
  {
    && t'.Keys == t.Keys
    && (forall f :: f in t && f != "Plugins" ==> t'[f] == t[f])
    && (forall n :: n != ns ==> (n in PluginsOf(t') <==> n in PluginsOf(t)))
    && forall n, x :: n != ns || x != field ==>
         && (HasPlugin(t', n, x) <==> HasPlugin(t, n, x))
         && (HasPlugin(t, n, x) ==> PluginsOf(t')[n][x] == PluginsOf(t)[n][x])
  }

  lemma FieldAdded(t: Struct, ns: string, field: string, text: string)
    requires "Plugins" in t
    ensures var t' := WithPlugin(t, ns, field, text);
            && HasPlugin(t', ns, field) && PluginsOf(t')[ns][field] == Str(text)
            && OnlyThisPlugin(t, t', ns, field)
  {
  }

  lemma FieldRemoved(t: Struct, ns: string, field: string)
    requires "Plugins" in t
    ensures var t' := WithoutPlugin(t, ns, field);
            && !HasPlugin(t', ns, field) && OnlyThisPlugin(t, t', ns, field)
            && (ns in PluginsOf(t') <==> exists x :: x != field && HasPlugin(t, ns, x))
  {
    if ns in PluginsOf(t) {
      FieldsLeft(PluginsOf(t)[ns], field);
    }
  }

  /** Setting a plugin key adds that field with the text to the layer, which is created if need be,
      and touches no other field of any layer. */
  lemma PluginFieldIsSet(k: Table, names: seq<string>, layers: Layers, layer: string, key: string, ns: string,
                         field: string, text: string)
    requires k.Ok() && LayersTyped(k.schema, layers) && layer in names && SplitPluginKey(key) == Some((ns, field))
    ensures var after := AfterSetPlugin(k, names, layers, layer, key, text);
            && after.Keys == layers.Keys + {layer} && "Plugins" in after[layer]
            && (forall l :: l in layers && l != layer ==> after[l] == layers[l])
            && OnlyThisPlugin(if layer in layers then layers[layer] else Zero(k.schema), after[layer], ns, field)
            && HasPlugin(after[layer], ns, field) && PluginsOf(after[layer])[ns][field] == Str(text)
  {
    FieldAdded(if layer in layers then layers[layer] else Zero(k.schema), ns, field, text);
  }

  /** Deleting a plugin key removes that field from the layer, and its namespace with its last
      field, and touches no other field of any layer. */
  lemma PluginFieldIsDeleted(k: Table, names: seq<string>, layers: Layers, layer: string, key: string, ns: string,
                             field: string)
    requires k.Ok() && LayersTyped(k.schema, layers) && SplitPluginKey(key) == Some((ns, field))
    requires layer in names && layer in layers
    ensures var after, was := AfterDeletePlugin(k, names, layers, layer, key), layers[layer];
            && after.Keys == layers.Keys && "Plugins" in after[layer]
            && (forall l :: l in layers && l != layer ==> after[l] == layers[l])
            && OnlyThisPlugin(was, after[layer], ns, field) && !HasPlugin(after[layer], ns, field)
            && (ns in PluginsOf(after[layer]) <==> exists x :: x != field && HasPlugin(was, ns, x))
  {
    FieldRemoved(layers[layer], ns, field);
  }

  lemma FieldsLeft(fields: Obj, field: string)
    ensures fields - {field} == map[] <==> forall x :: x in fields ==> x == field
  {
    if forall x :: x in fields ==> x == field {
      assert (fields - {field}).Keys == {};
    } else {
      var x :| x in fields && x != field;
      assert x in fields - {field};
    }
  }
}
