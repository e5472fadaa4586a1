/** The recursive map overlay of pkg/config/overlay.go. */
module Overlay {
  import opened Options
  import opened Values

  // ---------------------------------------------------------------- specification

  /** One more specific value on top of an existing one: two maps merge key by key,
      anything else is replaced. */
  function Merge(older: Value, newer: Value): (r: Value)
    ensures !newer.Node? ==> r == newer
    ensures newer.Node? ==> r.Node?
    decreases newer
  {
    if older.Node? && newer.Node? then
      Node(map k | k in older.m.Keys + newer.m.Keys ::
             if k !in newer.m then older.m[k]
             else if k !in older.m then newer.m[k]
             else Merge(older.m[k], newer.m[k]))
    else newer
  }

  function Pair(a: Obj, b: Obj): (r: Obj)
    ensures r.Keys == a.Keys + b.Keys
  {
    Merge(Node(a), Node(b)).m
  }

  /** All layers folded from least to most specific; nil layers are skipped. */
  function OverlayAll(layers: seq<Option<Obj>>): Obj {
    if layers == [] then map[]
    else
      var below := OverlayAll(layers[..|layers| - 1]);
      match layers[|layers| - 1]
      case None => below
      case Some(top) => Pair(below, top)
  }

  /** What the exported function returns: nil exactly when there are no layers at all. */
  function Result(layers: seq<Option<Obj>>): Option<Obj> {
    if layers == [] then None else Some(OverlayAll(layers))
  }

  lemma PairAt(a: Obj, b: Obj, k: string)
    requires k in a || k in b
    ensures Pair(a, b)[k] == if k !in b then a[k] else if k !in a then b[k] else Merge(a[k], b[k])
  {
  }

  lemma PairLeftUnit(a: Obj)
    ensures Pair(map[], a) == a
  {
  }

  lemma OverlayTwo(a: Obj, b: Obj)
    ensures OverlayAll([Some(a), Some(b)]) == Pair(a, b)
  {
    OverlaySnoc([], Some(a));
    OverlaySnoc([Some(a)], Some(b));
    PairLeftUnit(a);
    assert [Some(a)] + [Some(b)] == [Some(a), Some(b)];
    assert [] + [Some(a)] == [Some(a)];
  }

  lemma OverlaySnoc(layers: seq<Option<Obj>>, top: Option<Obj>)
    ensures OverlayAll(layers + [top])
         == if top.None? then OverlayAll(layers) else Pair(OverlayAll(layers), top.value)
  {
    assert (layers + [top])[..|layers|] == layers;
  }

  // ------------------------------------------------------------------ the algorithm

  /** All layers are nested at most `n` deep. */
  ghost predicate Bounded(layers: seq<Option<Obj>>, n: nat) {
    forall i :: 0 <= i < |layers| && layers[i].Some? ==> DepthAtMost(Node(layers[i].value), n)
  }

  lemma {:induction false} LayersAreBounded(layers: seq<Option<Obj>>)
    ensures exists n: nat :: Bounded(layers, n)
  {
    if layers == [] {
      assert Bounded(layers, 0);
    } else {
      LayersAreBounded(layers[1..]);
      var rest: nat :| Bounded(layers[1..], rest);
      var first := 0;
      if layers[0].Some? { first := HasDepth(Node(layers[0].value)); }
      var n := if first <= rest then rest else first;
      forall i | 0 <= i < |layers| && layers[i].Some?
        ensures DepthAtMost(Node(layers[i].value), n)
      {
        assert 0 < i ==> layers[1..][i - 1] == layers[i];
        DeeperStill(Node(layers[i].value), if i == 0 then first else rest, n);
      }
      assert Bounded(layers, n);
    }
  }

  ghost function LeastBound(layers: seq<Option<Obj>>, from: nat, some: nat): (n: nat)
    requires from <= some && Bounded(layers, some)
    requires forall j: nat :: j < from ==> !Bounded(layers, j)
    ensures Bounded(layers, n)
    ensures forall j: nat :: j < n ==> !Bounded(layers, j)
    decreases some - from
  {
    if Bounded(layers, from) then from else LeastBound(layers, from + 1, some)
  }

  /** The least bound: what decreases from a call to the calls on nested maps. */
  ghost function Depth(layers: seq<Option<Obj>>): (n: nat)
    ensures Bounded(layers, n)
    ensures forall j: nat :: Bounded(layers, j) ==> n <= j
  {
    LayersAreBounded(layers);
    var some: nat :| Bounded(layers, some);
    LeastBound(layers, 0, some)
  }

  lemma {:induction false} MergeDepth(a: Value, b: Value, n: nat)
    requires DepthAtMost(a, n) && DepthAtMost(b, n)
    ensures DepthAtMost(Merge(a, b), n)
    decreases n
  {
    if a.Node? && b.Node? {
      forall k | k in a.m && k in b.m
        ensures DepthAtMost(Merge(a.m[k], b.m[k]), n - 1)
      {
        MergeDepth(a.m[k], b.m[k], n - 1);
      }
    }
  }

  /** The value the inner loop has written for `k` once it has visited `k`. */
  function Written(below: Obj, k: string, v: Value): Value {
    if k in below then Merge(below[k], v) else v
  }

  /** What the inner loop has built when only the keys in `todo` are still to come. */
  ghost predicate Partial(below: Obj, layer: Obj, todo: set<string>, result: Obj) {
    && result.Keys == below.Keys + (layer.Keys - todo)
    && (forall k :: k in result && (k !in layer || k in todo) ==> k in below && result[k] == below[k])
    && (forall k :: k in layer && k !in todo ==> result[k] == Written(below, k, layer[k]))
  }

  lemma PartialStep(below: Obj, layer: Obj, todo: set<string>, result: Obj, k: string, v: Value)
    requires todo <= layer.Keys && k in todo && Partial(below, layer, todo, result)
    requires v == Written(below, k, layer[k])
    ensures Partial(below, layer, todo - {k}, result[k := v])
  {
  }

  lemma PartialDone(below: Obj, layer: Obj, result: Obj)
    requires Partial(below, layer, {}, result)
    ensures result == Pair(below, layer)
  {
  }

  method OverlayMaps(layers: seq<Option<Obj>>) returns (r: Option<Obj>)
    ensures r == Result(layers)
    decreases Depth(layers), 1
  {
    if |layers| == 0 {
      return None;
    }
    ghost var n := Depth(layers);
    var result: Obj := map[];
    for i := 0 to |layers|
      invariant result == OverlayAll(layers[..i])
      invariant result != map[] ==> DepthAtMost(Node(result), n)
    {
      assert layers[..i + 1] == layers[..i] + [layers[i]];
      OverlaySnoc(layers[..i], layers[i]);
      if layers[i].Some? {
        result := OverlayLayer(result, layers[i].value, n);
      }
    }
    assert layers[..|layers|] == layers;
    return Some(result);
  }

  /** The inner loop: lays one layer over what has been built, visiting its keys in an
      arbitrary order. */
  method OverlayLayer(below: Obj, layer: Obj, ghost n: nat) returns (result: Obj)
    requires below != map[] ==> DepthAtMost(Node(below), n)
    requires DepthAtMost(Node(layer), n)
    ensures result == Pair(below, layer)
    ensures DepthAtMost(Node(result), n)
    decreases n, 0
  {
    result := below;
    var todo := layer.Keys;
    while todo != {}
      invariant todo <= layer.Keys
      invariant Partial(below, layer, todo, result)
      decreases |todo|
    {
      var k :| k in todo;
      var v := layer[k];
      if layer[k].Node? && k in result && result[k].Node? {
        InnerIsSmaller(result[k], layer[k], n);
        var merged := OverlayMaps([Some(result[k].m), Some(layer[k].m)]);
        v := Node(merged.value);
      }
      PartialStep(below, layer, todo, result, k, v);
      result := result[k := v];
      todo := todo - {k};
    }
    PartialDone(below, layer, result);
    MergeDepth(Node(below), Node(layer), n);
  }

  lemma InnerIsSmaller(a: Value, b: Value, n: nat)
    requires a.Node? && b.Node? && 0 < n && DepthAtMost(a, n - 1) && DepthAtMost(b, n - 1)
    ensures Depth([Some(a.m), Some(b.m)]) < n
    ensures Node(OverlayAll([Some(a.m), Some(b.m)])) == Merge(a, b)
  {
    assert Node(a.m) == a && Node(b.m) == b;
    assert Bounded([Some(a.m), Some(b.m)], n - 1);
    OverlayTwo(a.m, b.m);
  }

  // -------------------------------------------------------------------- closed form

  /** Every definition of `key`, least specific first. */
  function Defs(layers: seq<Option<Obj>>, key: string): seq<Value> {
    if layers == [] then []
    else
      var top := layers[|layers| - 1];
      Defs(layers[..|layers| - 1], key) + (if top.Some? && key in top.value then [top.value[key]] else [])
  }

  /** The maps defined since the latest definition that is not a map. */
  function MapRun(defs: seq<Value>): seq<Option<Obj>> {
    if defs == [] || !defs[|defs| - 1].Node? then []
    else MapRun(defs[..|defs| - 1]) + [Some(defs[|defs| - 1].m)]
  }

  lemma MapRunSnoc(defs: seq<Value>, m: Obj)
    ensures MapRun(defs + [Node(m)]) == MapRun(defs) + [Some(m)]
  {
    assert (defs + [Node(m)])[..|defs|] == defs;
  }

  lemma RunGrows(before: seq<Value>, m: Obj)
    ensures OverlayAll(MapRun(before + [Node(m)])) == Pair(OverlayAll(MapRun(before)), m)
    ensures before == [] || !before[|before| - 1].Node? ==> OverlayAll(MapRun(before + [Node(m)])) == m
  {
    MapRunSnoc(before, m);
    OverlaySnoc(MapRun(before), Some(m));
    PairLeftUnit(m);
  }

  /** Closed form of the overlay of any number of layers. A key is present iff some layer
      defines it. Its value is its last definition, except that a trailing run of map
      definitions is itself overlaid, so the same description applies at every depth. */
  lemma {:induction false} ClosedForm(layers: seq<Option<Obj>>, key: string)
    ensures key in OverlayAll(layers) <==> Defs(layers, key) != []
    ensures key in OverlayAll(layers) ==>
              var defs := Defs(layers, key);
              OverlayAll(layers)[key]
              == if defs[|defs| - 1].Node? then Node(OverlayAll(MapRun(defs))) else defs[|defs| - 1]
  {
    if layers != [] {
      var init, top := layers[..|layers| - 1], layers[|layers| - 1];
      ClosedForm(init, key);
      var before, defs := Defs(init, key), Defs(layers, key);
      if top.Some? && key in top.value {
        var v := top.value[key];
        assert defs == before + [v];
        PairAt(OverlayAll(init), top.value, key);
        if v.Node? {
          RunGrows(before, v.m);
          if before != [] && before[|before| - 1].Node? {
            assert OverlayAll(layers)[key] == Node(Pair(OverlayAll(MapRun(before)), v.m));
          } else {
            assert OverlayAll(layers)[key] == v;
          }
        } else {
          assert OverlayAll(layers)[key] == v;
        }
      } else {
        assert defs == before;
        assert OverlayAll(layers) == if top.None? then OverlayAll(init) else Pair(OverlayAll(init), top.value);
      }
    }
  }

  /** A key belongs to the result exactly when some layer that is not nil defines it. */
  lemma {:induction false} KeysAreUnion(layers: seq<Option<Obj>>, key: string)
    ensures key in OverlayAll(layers) <==> exists l :: l in layers && l.Some? && key in l.value
  {
    if layers != [] {
      var init, top := layers[..|layers| - 1], layers[|layers| - 1];
      KeysAreUnion(init, key);
      assert layers == init + [top];
    }
  }

  /** Nil layers vanish: dropping them all never changes the overlay. */
  function Present(layers: seq<Option<Obj>>): seq<Option<Obj>> {
    if layers == [] then []
    else Present(layers[..|layers| - 1])
         + (if layers[|layers| - 1].Some? then [layers[|layers| - 1]] else [])
  }

  lemma {:induction false} NilLayersVanish(layers: seq<Option<Obj>>)
    ensures OverlayAll(Present(layers)) == OverlayAll(layers)
  {
    if layers != [] {
      var init, top := layers[..|layers| - 1], layers[|layers| - 1];
      NilLayersVanish(init);
      OverlaySnoc(Present(init), top);
      assert Present(init) + [] == Present(init);
    }
  }

  // --------------------------------------------------------------- algebraic laws

  lemma {:induction false} MergeSelf(a: Value)
    ensures Merge(a, a) == a
  {
    if a.Node? {
      forall k | k in a.m
        ensures Merge(a.m[k], a.m[k]) == a.m[k]
      {
        MergeSelf(a.m[k]);
      }
    }
  }

  lemma {:induction false} MergeAbsorbs(a: Value, b: Value)
    ensures Merge(a, Merge(a, b)) == Merge(a, b)
    decreases b
  {
    if a.Node? && b.Node? {
      forall k | k in a.m
        ensures k in b.m ==> Merge(a.m[k], Merge(a.m[k], b.m[k])) == Merge(a.m[k], b.m[k])
        ensures Merge(a.m[k], a.m[k]) == a.m[k]
      {
        if k in b.m { MergeAbsorbs(a.m[k], b.m[k]); }
        MergeSelf(a.m[k]);
      }
    }
  }

  /** Laying the group map under a result that already contains it changes nothing,
      at any depth. */
  lemma PairAbsorbs(g: Obj, t: Obj)
    ensures Pair(g, Pair(g, t)) == Pair(g, t)
  {
    MergeAbsorbs(Node(g), Node(t));
  }

  /** All keys of `a` are keys of `c`, at every depth at which both are maps. */
  ghost predicate Within(a: Value, c: Value)
    decreases a
  {
    a.Node? && c.Node? ==>
      forall k :: k in a.m ==> k in c.m && Within(a.m[k], c.m[k])
  }

  /** A value leaves no trace under a map exactly if it is within it. */
  lemma {:induction false} VanishesIffWithin(a: Value, c: Value)
    ensures Merge(a, c) == c <==> Within(a, c)
    decreases a
  {
    if a.Node? && c.Node? {
      var m := Merge(a, c).m;
      forall k | k in a.m && k in c.m
        ensures m[k] == c.m[k] <==> Within(a.m[k], c.m[k])
      {
        VanishesIffWithin(a.m[k], c.m[k]);
      }
      if Within(a, c) {
        assert m.Keys == c.m.Keys;
        assert m == c.m;
      } else {
        var k :| k in a.m && (k !in c.m || !Within(a.m[k], c.m[k]));
        assert k in m && (k !in c.m || m[k] != c.m[k]);
      }
    }
  }

  /** Wherever a value that is not a map sits between two maps, all keys of the older map are
      keys of the newer one: the shape on which the grouping of layers does not matter. */
  ghost predicate Regroupable(a: Value, b: Value, c: Value)
    decreases b
  {
    if !a.Node? || !c.Node? then true
    else if b.Node? then
      forall k :: k in a.m && k in b.m && k in c.m ==> Regroupable(a.m[k], b.m[k], c.m[k])
    else Within(a, c)
  }

  /** The overlay is not associative; it is exactly on the triples above. */
  lemma {:induction false} AssociativeIff(a: Value, b: Value, c: Value)
    ensures Merge(Merge(a, b), c) == Merge(a, Merge(b, c)) <==> Regroupable(a, b, c)
    decreases b
  {
    if a.Node? && b.Node? && c.Node? {
      var l, r := Merge(Merge(a, b), c), Merge(a, Merge(b, c));
      forall k | k in a.m && k in b.m && k in c.m
        ensures l.m[k] == r.m[k] <==> Regroupable(a.m[k], b.m[k], c.m[k])
      {
        AssociativeIff(a.m[k], b.m[k], c.m[k]);
      }
      assert l.m.Keys == r.m.Keys;
      forall k | k in l.m && !(k in a.m && k in b.m && k in c.m)
        ensures l.m[k] == r.m[k]
      {
      }
      if forall k :: k in a.m && k in b.m && k in c.m ==> Regroupable(a.m[k], b.m[k], c.m[k]) {
        assert l.m == r.m;
      } else {
        var k :| k in a.m && k in b.m && k in c.m && !Regroupable(a.m[k], b.m[k], c.m[k]);
        assert l.m[k] != r.m[k];
      }
    } else if a.Node? && c.Node? {
      VanishesIffWithin(a, c);
    }
  }

  lemma NotAssociative()
    ensures exists a: Obj, b: Obj, c: Obj :: Pair(Pair(a, b), c) != Pair(a, Pair(b, c))
  {
    var a: Obj := map["k" := Node(map["x" := Int(1)])];
    var b: Obj := map["k" := Int(2)];
    var c: Obj := map["k" := Node(map[])];
    assert Pair(Pair(a, b), c)["k"] == Node(map[]);
    assert Pair(b, c)["k"] == Node(map[]);
    assert "x" in Pair(a, Pair(b, c))["k"].m;
    assert Pair(Pair(a, b), c) != Pair(a, Pair(b, c));
  }
}
