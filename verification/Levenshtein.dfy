/** Edit distance: src/app/recur/text/suggest.go, lines 58-99. A string is its sequence of
    runes; Dafny's char is exactly a Unicode scalar value. */
module EditDistance {

  // --------------------------------------------------------- edit scripts: the meaning

  datatype Edit = Keep | Substitute(c: char) | Insert(c: char) | Delete

  /** `script`, applied to `a` from left to right, produces exactly `b`. It is read from its
      last edit, which handles the last rune of `a`, of `b`, or of both. */
  ghost predicate Turns(script: seq<Edit>, a: string, b: string) {
    if script == [] then a == "" && b == ""
    else
      var init := script[..|script| - 1];
      match script[|script| - 1]
      case Keep => a != "" && b != "" && Last(a) == Last(b) && Turns(init, Init(a), Init(b))
      case Substitute(c) => a != "" && b != "" && Last(b) == c && Turns(init, Init(a), Init(b))
      case Insert(c) => b != "" && Last(b) == c && Turns(init, a, Init(b))
      case Delete => a != "" && Turns(init, Init(a), b)
  }

  function Cost(script: seq<Edit>): nat {
    if script == [] then 0
    else Cost(script[..|script| - 1]) + (if script[|script| - 1].Keep? then 0 else 1)
  }

  function Init(s: string): string requires s != "" { s[..|s| - 1] }

  function Last(s: string): char requires s != "" { s[|s| - 1] }

  // ------------------------------------------------------------- the recurrence

  function Min3(a: int, b: int, c: int): (m: int)
    ensures m <= a && m <= b && m <= c && (m == a || m == b || m == c)
  {
    var m := if b < a then b else a;
    if c < m then c else m
  }

  function Mismatch(x: char, y: char): nat { if x == y then 0 else 1 }

  function Dist(a: string, b: string): nat
    decreases |a| + |b|
  {
    if a == "" then |b|
    else if b == "" then |a|
    else
      Min3(Dist(Init(a), b) + 1,
           Dist(a, Init(b)) + 1,
           Dist(Init(a), Init(b)) + Mismatch(Last(a), Last(b)))
  }

  // ------------------------------- the recurrence is the cheapest edit script

  lemma SnocEdit(script: seq<Edit>, e: Edit)
    ensures (script + [e])[..|script + [e]| - 1] == script
    ensures Cost(script + [e]) == Cost(script) + if e.Keep? then 0 else 1
  {
  }

  /** Some script reaches the distance. */
  lemma {:induction false} CheapestScript(a: string, b: string) returns (script: seq<Edit>)
    ensures Turns(script, a, b) && Cost(script) == Dist(a, b)
    decreases |a| + |b|
  {
    if a == "" && b == "" {
      script := [];
    } else if a == "" || (b != "" && Dist(a, b) == Dist(a, Init(b)) + 1) {
      var s := CheapestScript(a, Init(b));
      script := s + [Insert(Last(b))];
      SnocEdit(s, Insert(Last(b)));
    } else if b == "" || Dist(a, b) == Dist(Init(a), b) + 1 {
      var s := CheapestScript(Init(a), b);
      script := s + [Delete];
      SnocEdit(s, Delete);
    } else {
      var s := CheapestScript(Init(a), Init(b));
      var e := if Last(a) == Last(b) then Keep else Substitute(Last(b));
      script := s + [e];
      SnocEdit(s, e);
    }
  }

  /** No script does better. */
  lemma {:induction false} NoCheaperScript(script: seq<Edit>, a: string, b: string)
    requires Turns(script, a, b)
    ensures Dist(a, b) <= Cost(script)
  {
    if script != [] {
      var init := script[..|script| - 1];
      match script[|script| - 1] {
        case Keep => NoCheaperScript(init, Init(a), Init(b));
        case Substitute(_) => NoCheaperScript(init, Init(a), Init(b));
        case Insert(_) => NoCheaperScript(init, a, Init(b));
        case Delete => NoCheaperScript(init, Init(a), b);
      }
    }
  }

  ghost predicate IsEditDistance(a: string, b: string, d: int) {
    && (exists script :: Turns(script, a, b) && Cost(script) == d)
    && (forall script :: Turns(script, a, b) ==> d <= Cost(script))
  }

  lemma DistIsEditDistance(a: string, b: string)
    ensures IsEditDistance(a, b, Dist(a, b))
  {
    var best := CheapestScript(a, b);
    forall script | Turns(script, a, b)
      ensures Dist(a, b) <= Cost(script)
    {
      NoCheaperScript(script, a, b);
    }
  }

  // ----------------------------------------------------------------- the algorithm

  /** Entry of the table for the first `i` runes of `a` and the first `j` of `b`. */
  ghost function Entry(a: string, i: nat, b: string, j: nat): nat
    requires i <= |a| && j <= |b|
  {
    Dist(a[..i], b[..j])
  }

  lemma EntryStep(a: string, i: nat, b: string, j: nat)
    requires i < |a| && j < |b|
    ensures Entry(a, i + 1, b, j + 1)
         == Min3(Entry(a, i, b, j + 1) + 1, Entry(a, i + 1, b, j) + 1, Entry(a, i, b, j) + Mismatch(a[i], b[j]))
  {
    assert Init(a[..i + 1]) == a[..i] && Init(b[..j + 1]) == b[..j];
  }

  lemma EntryEdges(a: string, b: string)
    ensures forall j :: 0 <= j <= |b| ==> Entry(a, 0, b, j) == j
    ensures forall i :: 0 <= i <= |a| ==> Entry(a, i, b, 0) == i
    ensures Entry(a, |a|, b, |b|) == Dist(a, b)
  {
    assert a[..|a|] == a && b[..|b|] == b;
  }

  /** The inner loop: row `i + 1` of the table from row `i`. */
  method FillRow(a: string, i: nat, b: string, prev: array<int>, curr: array<int>)
    requires i < |a| && prev != curr && prev.Length == curr.Length == |b| + 1
    requires forall j :: 0 <= j <= |b| ==> prev[j] == Entry(a, i, b, j)
    modifies curr
    ensures forall j :: 0 <= j <= |b| ==> curr[j] == Entry(a, i + 1, b, j)
  {
    EntryEdges(a, b);
    curr[0] := i + 1;
    for j := 1 to |b| + 1
      invariant forall k :: 0 <= k < j ==> curr[k] == Entry(a, i + 1, b, k)
    {
      var cost := 1;
      if a[i] == b[j - 1] {
        cost := 0;
      }
      EntryStep(a, i, b, j - 1);
      curr[j] := Min3(prev[j] + 1, curr[j - 1] + 1, prev[j - 1] + cost);
    }
  }

  /** Two rows of the table, swapped after each rune of `a`: the result is the cost of the
      cheapest edit script. */
  method Levenshtein(a: string, b: string) returns (d: int)
    ensures d == Dist(a, b)
    ensures IsEditDistance(a, b, d)
  {
    DistIsEditDistance(a, b);
    var la, lb := |a|, |b|;
    if la == 0 { return lb; }
    if lb == 0 { return la; }
    var prev := new int[lb + 1];
    var curr := new int[lb + 1];
    for j := 0 to lb + 1
      invariant forall k :: 0 <= k < j ==> prev[k] == k
    {
      prev[j] := j;
    }
    EntryEdges(a, b);
    for i := 0 to la
      invariant prev != curr && prev.Length == curr.Length == lb + 1
      invariant fresh(prev) && fresh(curr)
      invariant forall j :: 0 <= j <= lb ==> prev[j] == Entry(a, i, b, j)
    {
      FillRow(a, i, b, prev, curr);
      prev, curr := curr, prev;
    }
    return prev[lb];
  }

  // ------------------------------------------------------------------- it is a metric

  lemma {:induction false} LengthBounds(a: string, b: string)
    ensures |a| - |b| <= Dist(a, b) && |b| - |a| <= Dist(a, b)
    ensures Dist(a, b) <= if |a| <= |b| then |b| else |a|
    decreases |a| + |b|
  {
    if a != "" && b != "" {
      LengthBounds(Init(a), b);
      LengthBounds(a, Init(b));
      LengthBounds(Init(a), Init(b));
    }
  }

  lemma {:induction false} ZeroIffEqual(a: string, b: string)
    ensures Dist(a, b) == 0 <==> a == b
    decreases |a| + |b|
  {
    if a != "" && b != "" {
      ZeroIffEqual(Init(a), Init(b));
      assert a == Init(a) + [Last(a)] && b == Init(b) + [Last(b)];
    }
  }

  lemma {:induction false} Symmetric(a: string, b: string)
    ensures Dist(a, b) == Dist(b, a)
    decreases |a| + |b|
  {
    if a != "" && b != "" {
      Symmetric(Init(a), b);
      Symmetric(a, Init(b));
      Symmetric(Init(a), Init(b));
    }
  }

  lemma {:induction false} Triangle(a: string, b: string, c: string)
    ensures Dist(a, c) <= Dist(a, b) + Dist(b, c)
    decreases |a| + |b| + |c|
  {
    LengthBounds(a, b);
    LengthBounds(b, c);
    LengthBounds(a, c);
    if a != "" && c != "" && b != "" {
      if Dist(a, b) == Dist(Init(a), b) + 1 {
        Triangle(Init(a), b, c);
      } else if Dist(b, c) == Dist(b, Init(c)) + 1 {
        Triangle(a, b, Init(c));
      } else if Dist(a, b) == Dist(a, Init(b)) + 1 {
        if Dist(b, c) == Dist(Init(b), c) + 1 {
          Triangle(a, Init(b), c);
        } else {
          Triangle(a, Init(b), Init(c));
        }
      } else if Dist(b, c) == Dist(Init(b), c) + 1 {
        Triangle(Init(a), Init(b), c);
      } else {
        Triangle(Init(a), Init(b), Init(c));
      }
    }
  }

  /** Strings without a common rune are as far apart as their lengths allow. */
  lemma {:induction false} DisjointIsFarthest(a: string, b: string)
    requires forall i, j :: 0 <= i < |a| && 0 <= j < |b| ==> a[i] != b[j]
    ensures Dist(a, b) == if |a| <= |b| then |b| else |a|
    decreases |a| + |b|
  {
    if a != "" && b != "" {
      DisjointIsFarthest(Init(a), b);
      DisjointIsFarthest(a, Init(b));
      DisjointIsFarthest(Init(a), Init(b));
    }
  }
}
