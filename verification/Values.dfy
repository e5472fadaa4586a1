/** The optional value used wherever the source has a nil pointer, a nil map or a
    second boolean result. */
module Options {

  datatype Option<+T> = None | Some(value: T)
}

module Sequences {
  /** No element stands twice in the sequence. */
  ghost predicate Distinct<T>(xs: seq<T>) {
    forall i, j :: 0 <= i < j < |xs| ==> xs[i] != xs[j]
  }

  lemma DistinctAppend<T>(xs: seq<T>, ys: seq<T>)
    requires Distinct(xs) && Distinct(ys) && forall x :: x in xs ==> x !in ys
    ensures Distinct(xs + ys)
  {
    var all := xs + ys;
    forall i, j | 0 <= i < j < |all|
      ensures all[i] != all[j]
    {
      if i < |xs| <= j {
        assert all[i] in xs && all[j] in ys;
      }
    }
  }
}

/** Dynamic configuration values: what a Go `any` holds after YAML decoding.
    A `map[string]any` is `Node`; everything else is replaced, never merged. */
module Values {
  import opened Options

  datatype Value =
    | Null
    | Bool(b: bool)
    | Int(n: int)
    | Float(x: real)
    | Str(s: string)
    | Duration(ns: int)
    | List(items: seq<Value>)
    | Node(m: map<string, Value>)

  /** A `map[string]any`; a nil map is `None` of `Option<Obj>`. */
  type Obj = map<string, Value>

  /** Maps are nested at most `n` deep inside `v`. */
  ghost predicate DepthAtMost(v: Value, n: nat)
    decreases n
  {
    v.Node? ==> 0 < n && forall k :: k in v.m ==> DepthAtMost(v.m[k], n - 1)
  }

  lemma {:induction false} DeeperStill(v: Value, n: nat, m: nat)
    requires DepthAtMost(v, n) && n <= m
    ensures DepthAtMost(v, m)
    decreases n
  {
    if v.Node? {
      forall k | k in v.m
        ensures DepthAtMost(v.m[k], m - 1)
      {
        DeeperStill(v.m[k], n - 1, m - 1);
      }
    }
  }

  /** Every value has a finite depth. */
  lemma {:induction false} HasDepth(v: Value) returns (n: nat)
    ensures DepthAtMost(v, n)
    decreases v, 1, 0
  {
    n := 0;
    if v.Node? {
      var inner := FieldsHaveDepth(v, v.m.Keys);
      n := inner + 1;
    }
  }

  lemma {:induction false} FieldsHaveDepth(v: Value, keys: set<string>) returns (n: nat)
    requires v.Node? && keys <= v.m.Keys
    ensures forall k :: k in keys ==> DepthAtMost(v.m[k], n)
    decreases v, 0, |keys|
  {
    n := 0;
    if keys != {} {
      var k :| k in keys;
      var a := HasDepth(v.m[k]);
      var b := FieldsHaveDepth(v, keys - {k});
      n := if a <= b then b else a;
      forall j | j in keys
        ensures DepthAtMost(v.m[j], n)
      {
        DeeperStill(v.m[j], if j == k then a else b, n);
      }
    }
  }
}

/** Dotted names. */
module DottedNames {
  /** Position of the first dot, or the length. */
  function FirstDot(s: string): (i: nat)
    ensures i <= |s| && '.' !in s[..i] && (i < |s| ==> s[i] == '.')
  {
    if s == "" || s[0] == '.' then 0 else 1 + FirstDot(s[1..])
  }

  /** What stands after the first dot plays no part. */
  lemma {:induction false} FirstDotOf(a: string, rest: string)
    requires rest == "" || rest[0] == '.'
    ensures FirstDot(a + rest) == FirstDot(a)
    ensures FirstDot(a) == |a| <==> '.' !in a
  {
    if a == "" {
      assert a + rest == rest;
    } else if a[0] != '.' {
      FirstDotOf(a[1..], rest);
      assert (a + rest)[1..] == a[1..] + rest;
    }
  }
}
