/** Stable entity identities: src/domain/recurfile/builder.go, lines 74-105. */
module Identity {

  // ------------------------------------------------------------------------- seeds

  function Digit(d: nat): (c: char)
    requires d < 10
    ensures c != ':'
  {
    "0123456789"[d]
  }

  /** Go's %d for a count. */
  function Decimal(n: nat): (s: string)
    ensures s != "" && ':' !in s
  {
    if n < 10 then [Digit(n)] else Decimal(n / 10) + [Digit(n % 10)]
  }

  /** The text EntityID hashes. */
  function HashInput(entityType: string, seed: string): string {
    entityType + ":" + seed
  }

  function GroupSeed(recurfileID: string, groupName: string): string {
    recurfileID + ":" + groupName
  }

  function TriggerSeed(groupID: string, triggerType: string, occurrence: nat): string {
    groupID + ":" + triggerType + ":" + Decimal(occurrence)
  }

  function ActionSeed(triggerID: string, actionType: string, occurrence: nat): string {
    triggerID + ":" + actionType + ":" + Decimal(occurrence)
  }

  // --------------------------------------------------------------------- injectivity

  lemma DigitInjective(a: nat, b: nat)
    requires a < 10 && b < 10 && Digit(a) == Digit(b)
    ensures a == b
  {
  }

  lemma {:induction false} DecimalInjective(a: nat, b: nat)
    requires Decimal(a) == Decimal(b)
    ensures a == b
  {
    var s := Decimal(a);
    if a < 10 && b < 10 {
      DigitInjective(a, b);
    } else if a >= 10 && b >= 10 {
      assert s[..|s| - 1] == Decimal(a / 10) && s[..|s| - 1] == Decimal(b / 10);
      assert s[|s| - 1] == Digit(a % 10) && s[|s| - 1] == Digit(b % 10);
      DecimalInjective(a / 10, b / 10);
      DigitInjective(a % 10, b % 10);
    }
  }

  /** Texts joined by a separator can be told apart if the left parts have the same length. */
  lemma SplitAtWidth(a: string, x: string, b: string, y: string)
    requires |a| == |b| && a + ":" + x == b + ":" + y
    ensures a == b && x == y
  {
    var s := a + ":" + x;
    assert s[..|a|] == a && s[..|a|] == b;
    assert s[|a| + 1..] == x && s[|a| + 1..] == y;
  }

  /** They can also be told apart if the right parts are free of the separator. */
  lemma {:induction false} SplitAtLast(a: string, x: string, b: string, y: string)
    requires ':' !in x && ':' !in y && a + ":" + x == b + ":" + y
    ensures a == b && x == y
  {
    var s := a + ":" + x;
    assert s[|s| - 1] == if x == "" then ':' else x[|x| - 1];
    assert s[|s| - 1] == if y == "" then ':' else y[|y| - 1];
    if x == "" && y == "" {
      assert a == s[..|s| - 1] && b == s[..|s| - 1];
    } else if x != "" && y != "" {
      assert s[..|s| - 1] == a + ":" + x[..|x| - 1] && s[..|s| - 1] == b + ":" + y[..|y| - 1];
      SplitAtLast(a, x[..|x| - 1], b, y[..|y| - 1]);
    }
  }

  lemma GroupSeedInjective(r: string, n: string, s: string, m: string)
    requires |r| == |s| && GroupSeed(r, n) == GroupSeed(s, m)
    ensures r == s && n == m
  {
    SplitAtWidth(r, n, s, m);
  }

  /** Trigger seeds identify the group, the type (colons and digits and all) and the
      occurrence, given that group IDs have a fixed width. */
  lemma TriggerSeedInjective(g: string, t: string, i: nat, h: string, u: string, j: nat)
    requires |g| == |h| && TriggerSeed(g, t, i) == TriggerSeed(h, u, j)
    ensures g == h && t == u && i == j
  {
    assert TriggerSeed(g, t, i) == g + ":" + (t + ":" + Decimal(i));
    assert TriggerSeed(h, u, j) == h + ":" + (u + ":" + Decimal(j));
    SplitAtWidth(g, t + ":" + Decimal(i), h, u + ":" + Decimal(j));
    SplitAtLast(t, Decimal(i), u, Decimal(j));
    DecimalInjective(i, j);
  }

  lemma ActionSeedInjective(g: string, t: string, i: nat, h: string, u: string, j: nat)
    requires |g| == |h| && ActionSeed(g, t, i) == ActionSeed(h, u, j)
    ensures g == h && t == u && i == j
  {
    TriggerSeedInjective(g, t, i, h, u, j);
  }

  /** The fixed width is needed: with IDs of different lengths two groups could collide. */
  lemma WidthMatters()
    ensures GroupSeed("a", "b:c") == GroupSeed("a:b", "c")
  {
    assert GroupSeed("a", "b:c") == "a:b:c" && GroupSeed("a:b", "c") == "a:b:c";
  }

  /** What a decimal numeral stands for. */
  function Numeral(s: string): int {
    if s == "" then 0 else 10 * Numeral(s[..|s| - 1]) + (s[|s| - 1] as int - '0' as int)
  }

  /** Counts are written in decimal digits without leading zeros. */
  lemma {:induction false} DecimalIsNumeral(n: nat)
    ensures Numeral(Decimal(n)) == n && (forall c :: c in Decimal(n) ==> '0' <= c <= '9')
    ensures Decimal(n)[0] == '0' ==> n == 0 && Decimal(n) == "0"
  {
    var s := Decimal(n);
    if n >= 10 {
      DecimalIsNumeral(n / 10);
      assert s[..|s| - 1] == Decimal(n / 10);
    } else {
      assert s[..|s| - 1] == "";
      assert Numeral(s) == 10 * Numeral("") + (s[0] as int - '0' as int);
    }
  }

  // -------------------------------------------------------------- occurrence counts

  /** How many of the first entries have type `t`. */
  function Count(types: seq<string>, t: string): (n: nat)
    ensures n <= |types|
  {
    if types == [] then 0
    else Count(types[..|types| - 1], t) + (if types[|types| - 1] == t then 1 else 0)
  }

  /** The occurrence index of entry `i`: how many entries before it have the same type. */
  function Occurrence(types: seq<string>, i: nat): nat
    requires i < |types|
  {
    Count(types[..i], types[i])
  }

  /** The counters of the registration loop, one per type, after `i` siblings. */
  ghost predicate Tallied(counts: map<string, nat>, types: seq<string>, i: nat)
    requires i <= |types|
  {
    forall t :: Tally(counts, t) == Count(types[..i], t)
  }

  function Tally(counts: map<string, nat>, t: string): nat {
    if t in counts then counts[t] else 0
  }

  /** The counter of a sibling's type is its occurrence index; counting it in moves on. */
  lemma TallyNext(counts: map<string, nat>, types: seq<string>, i: nat)
    requires i < |types| && Tallied(counts, types, i)
    ensures Tally(counts, types[i]) == Occurrence(types, i)
    ensures Tallied(counts[types[i] := Tally(counts, types[i]) + 1], types, i + 1)
  {
    var after := counts[types[i] := Tally(counts, types[i]) + 1];
    forall t
      ensures Tally(after, t) == Count(types[..i + 1], t)
    {
      assert types[..i + 1][..i] == types[..i];
      assert Tally(counts, t) == Count(types[..i], t);
    }
  }

  lemma {:induction false} CountMonotone(types: seq<string>, t: string, i: nat, j: nat)
    requires i <= j <= |types|
    ensures Count(types[..i], t) <= Count(types[..j], t)
    ensures i < j && types[i] == t ==> Count(types[..i], t) < Count(types[..j], t)
    decreases j
  {
    if i < j {
      assert types[..j][..j - 1] == types[..j - 1];
      CountMonotone(types, t, i, j - 1);
    }
  }

  /** Siblings of the same type never share an occurrence index. */
  lemma OccurrenceDistinct(types: seq<string>, i: nat, j: nat)
    requires i < |types| && j < |types| && types[i] == types[j] && Occurrence(types, i) == Occurrence(types, j)
    ensures i == j
  {
    if i < j {
      CountMonotone(types, types[i], i, j);
    } else if j < i {
      CountMonotone(types, types[i], j, i);
    }
  }

  /** The IDs given to the entries of type `t`, in order. */
  function IDsOfType(hash: string -> string, groupID: string, types: seq<string>, t: string): seq<string> {
    if types == [] then []
    else
      var n := |types| - 1;
      IDsOfType(hash, groupID, types[..n], t)
      + (if types[n] == t then [hash(HashInput("trigger", TriggerSeed(groupID, t, Occurrence(types, n))))] else [])
  }

  /** The `k`-th entry of a type gets the ID of occurrence `k`, wherever it stands and
      whatever other types surround it. */
  lemma {:induction false} IDsAreByOccurrence(hash: string -> string, groupID: string, types: seq<string>, t: string)
    ensures |IDsOfType(hash, groupID, types, t)| == Count(types, t)
    ensures forall k :: 0 <= k < Count(types, t) ==>
              IDsOfType(hash, groupID, types, t)[k] == hash(HashInput("trigger", TriggerSeed(groupID, t, k)))
  {
    if types != [] {
      IDsAreByOccurrence(hash, groupID, types[..|types| - 1], t);
    }
  }

  /** Inserting, removing or permuting triggers of other types changes no ID of type `t`; an
      added trigger of type `t` gets a new ID and leaves the others alone. */
  lemma {:induction false} OtherTypesDoNotMatter(hash: string -> string, groupID: string, before: seq<string>,
                                                 after: seq<string>, t: string)
    requires Count(before, t) <= Count(after, t)
    ensures |IDsOfType(hash, groupID, after, t)| == Count(after, t)
    ensures IDsOfType(hash, groupID, before, t) == IDsOfType(hash, groupID, after, t)[..Count(before, t)]
  {
    IDsAreByOccurrence(hash, groupID, before, t);
    IDsAreByOccurrence(hash, groupID, after, t);
  }

  /** The positions before `n` that hold type `t`. */
  function Before(types: seq<string>, t: string, n: nat): set<nat>
    requires n <= |types|
  {
    set j: nat | j < n && types[j] == t
  }

  lemma {:induction false} CountIsSize(types: seq<string>, t: string, n: nat)
    requires n <= |types|
    ensures Count(types[..n], t) == |Before(types, t, n)|
  {
    if n == 0 {
      assert Before(types, t, 0) == {};
    } else {
      CountIsSize(types, t, n - 1);
      assert types[..n][..n - 1] == types[..n - 1];
      assert Before(types, t, n) == Before(types, t, n - 1) + (if types[n - 1] == t then {n - 1} else {});
    }
  }

  /** The occurrence index counts the earlier siblings of the same type. */
  lemma OccurrenceIsCount(types: seq<string>, i: nat)
    requires i < |types|
    ensures Occurrence(types, i) == |set j: nat | j < i && types[j] == types[i]|
  {
    CountIsSize(types, types[i], i);
    assert Before(types, types[i], i) == set j: nat | j < i && types[j] == types[i];
  }
}
