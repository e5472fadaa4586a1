/** Similarity scores and suggestions: src/app/recur/text/suggest.go, lines 12-56. Scores are
    exact rationals; strings.ToLower is an arbitrary function `lower`. */
module Suggestions {
  import opened EditDistance

  // ------------------------------------------------------------------ byte lengths

  /** Bytes of a rune in UTF-8 (section 3 of RFC 3629). */
  function Width(c: char): (w: nat)
    ensures 1 <= w <= 4
  {
    var n := c as int;
    if n < 0x80 then 1 else if n < 0x800 then 2 else if n < 0x1_0000 then 3 else 4
  }

  /** Go's len: strings are measured in bytes although distances count runes. */
  function ByteLen(s: string): (n: nat)
    ensures |s| <= n && (n == 0 <==> s == "")
  {
    if s == "" then 0 else ByteLen(s[1..]) + Width(s[0])
  }

  function Max(a: int, b: int): int { if a < b then b else a }

  // -------------------------------------------------------------------- similarity

  function Score(a: string, b: string): real {
    if a == b then 1.0
    else if a == "" || b == "" then 0.0
    else 1.0 - Dist(a, b) as real / Max(ByteLen(a), ByteLen(b)) as real
  }

  method Similarity(a: string, b: string) returns (r: real)
    ensures r == Score(a, b)
  {
    if a == b { return 1.0; }
    if ByteLen(a) == 0 || ByteLen(b) == 0 { return 0.0; }
    var d := Levenshtein(a, b);
    var maxLen := ByteLen(a);
    if maxLen < ByteLen(b) { maxLen := ByteLen(b); }
    return 1.0 - d as real / maxLen as real;
  }

  lemma Quotient(d: nat, n: nat)
    requires 0 < n && d <= n
    ensures 0.0 <= d as real / n as real <= 1.0
    ensures d as real / n as real == 0.0 <==> d == 0
    ensures d as real / n as real == 1.0 <==> d == n
  {
    var q := d as real / n as real;
    assert q * n as real == d as real;
  }

  /** Scores lie between 0 and 1, only equal strings score 1, the order of the two strings is
      irrelevant, and nothing is like the empty string. */
  lemma ScoreLaws(a: string, b: string)
    ensures 0.0 <= Score(a, b) <= 1.0
    ensures Score(a, b) == 1.0 <==> a == b
    ensures Score(a, b) == Score(b, a)
    ensures a != b && (a == "" || b == "") ==> Score(a, b) == 0.0
  {
    LengthBounds(a, b);
    ZeroIffEqual(a, b);
    Symmetric(a, b);
    if a != b && a != "" && b != "" {
      Quotient(Dist(a, b), Max(ByteLen(a), ByteLen(b)));
    }
  }

  /** The comment on Similarity says that entirely different strings score 0. Two different
      two-byte letters score one half. */
  lemma DifferentLettersScoreHalf()
    ensures Score("\U{E9}", "\U{FC}") == 0.5
  {
    DisjointIsFarthest("\U{E9}", "\U{FC}");
    assert ByteLen("\U{E9}") == 2 && ByteLen("\U{FC}") == 2;
  }

  /** The lengths of RFC 3629: one byte to U+007F, two to U+07FF, three to U+FFFF, then four. */
  lemma Widths(c: char)
    ensures ByteLen([c]) == if c as int <= 127 then 1 else if c as int <= 2047 then 2
                            else if c as int <= 65535 then 3 else 4
  {
    assert ByteLen([c][1..]) == 0;
  }

  lemma {:induction false} BytesAdd(a: string, b: string)
    ensures ByteLen(a + b) == ByteLen(a) + ByteLen(b)
  {
    if a == "" {
      assert a + b == b;
    } else {
      BytesAdd(a[1..], b);
      assert (a + b)[1..] == a[1..] + b;
    }
  }

  /** Strings with no rune in common score 0 exactly when the longer byte length is a rune
      length, that is, when nothing longer than a byte makes one of them the longest. */
  lemma DisjointScoreIsZeroIff(a: string, b: string)
    requires a != "" && b != ""
    requires forall i, j :: 0 <= i < |a| && 0 <= j < |b| ==> a[i] != b[j]
    ensures Score(a, b) == 0.0 <==> Max(ByteLen(a), ByteLen(b)) == Max(|a|, |b|)
  {
    DisjointIsFarthest(a, b);
    assert a[0] != b[0];
    Quotient(Dist(a, b), Max(ByteLen(a), ByteLen(b)));
  }

  // ------------------------------------------------------------------- suggestions

  datatype Scored = Scored(s: string, score: real)

  const THRESHOLD := 0.6

  type Scorer = string -> real

  function ScoreAgainst(lower: string -> string, target: string): Scorer {
    choice => Score(lower(target), lower(choice))
  }

  /** The choices good enough to suggest, in their given order. */
  function Qualifying(score: Scorer, choices: seq<string>): seq<string> {
    if choices == [] then []
    else
      var c := choices[|choices| - 1];
      Qualifying(score, choices[..|choices| - 1]) + (if score(c) >= THRESHOLD then [c] else [])
  }

  function Names(ranked: seq<Scored>): (names: seq<string>)
    ensures |names| == |ranked|
  {
    seq(|ranked|, i requires 0 <= i < |ranked| => ranked[i].s)
  }

  ghost predicate Descending(ranked: seq<Scored>) {
    forall i, j :: 0 <= i < j < |ranked| ==> ranked[i].score >= ranked[j].score
  }

  ghost predicate Scores(score: Scorer, ranked: seq<Scored>) {
    forall i :: 0 <= i < |ranked| ==> ranked[i].score == score(ranked[i].s)
  }

  /** Stands for sort.Slice: a permutation in descending order of score, ties in any order. */
  method SortByScore(ghost score: Scorer, ranked: seq<Scored>) returns (r: seq<Scored>)
    requires Scores(score, ranked)
    ensures multiset(Names(r)) == multiset(Names(ranked))
    ensures Descending(r) && Scores(score, r)
  {
    r := [];
    for i := 0 to |ranked|
      invariant multiset(Names(r)) == multiset(Names(ranked[..i]))
      invariant Descending(r) && Scores(score, r)
    {
      assert Names(ranked[..i + 1]) == Names(ranked[..i]) + [ranked[i].s];
      r := InsertByScore(score, r, ranked[i]);
    }
    assert ranked[..|ranked|] == ranked;
  }

  method InsertByScore(ghost score: Scorer, ranked: seq<Scored>, x: Scored) returns (r: seq<Scored>)
    requires Descending(ranked) && Scores(score, ranked) && x.score == score(x.s)
    ensures multiset(Names(r)) == multiset(Names(ranked)) + multiset{x.s}
    ensures Descending(r) && Scores(score, r)
  {
    var at := 0;
    while at < |ranked| && ranked[at].score >= x.score
      invariant 0 <= at <= |ranked|
      invariant forall k :: 0 <= k < at ==> ranked[k].score >= x.score
    {
      at := at + 1;
    }
    var high, low := ranked[..at], ranked[at..];
    assert ranked == high + low;
    InsertNames(high, x, low);
    InsertInOrder(high, x, low);
    return high + [x] + low;
  }

  lemma InsertNames(high: seq<Scored>, x: Scored, low: seq<Scored>)
    ensures multiset(Names(high + [x] + low)) == multiset(Names(high + low)) + multiset{x.s}
  {
    assert Names(high + [x] + low) == Names(high) + [x.s] + Names(low);
    assert Names(high + low) == Names(high) + Names(low);
  }

  lemma InsertInOrder(high: seq<Scored>, x: Scored, low: seq<Scored>)
    requires Descending(high) && Descending(low)
    requires forall k :: 0 <= k < |high| ==> high[k].score >= x.score
    requires low != [] ==> low[0].score < x.score
    ensures Descending(high + [x] + low)
  {
    forall k | 0 <= k < |low|
      ensures x.score >= low[k].score
    {
      assert 0 < k ==> low[0].score >= low[k].score;
    }
  }

  /** `result` is a best-first selection of at most `n` qualifying choices: as many as there
      are room for, best first, and nothing left out scores better than anything taken. */
  ghost predicate BestFirst(score: Scorer, choices: seq<string>, n: nat, result: seq<string>) {
    var all := Qualifying(score, choices);
    && |result| == (if |all| <= n then |all| else n)
    && multiset(result) <= multiset(all)
    && (forall i, j :: 0 <= i < j < |result| ==> score(result[i]) >= score(result[j]))
    && (forall left, taken :: left in multiset(all) - multiset(result) && taken in result ==>
          score(taken) >= score(left))
  }

  /** Scores every choice and keeps the good ones. */
  method Rank(lower: string -> string, target: string, choices: seq<string>) returns (ranked: seq<Scored>)
    ensures Names(ranked) == Qualifying(ScoreAgainst(lower, target), choices)
    ensures Scores(ScoreAgainst(lower, target), ranked)
  {
    ghost var score := ScoreAgainst(lower, target);
    var tl := lower(target);
    ranked := [];
    for i := 0 to |choices|
      invariant Names(ranked) == Qualifying(score, choices[..i])
      invariant Scores(score, ranked)
    {
      assert choices[..i + 1][..i] == choices[..i];
      var s := Similarity(tl, lower(choices[i]));
      assert s == score(choices[i]);
      if s >= THRESHOLD {
        ranked := ranked + [Scored(choices[i], s)];
      }
    }
    assert choices[..|choices|] == choices;
  }

  method Strings(ranked: seq<Scored>) returns (result: seq<string>)
    ensures result == Names(ranked)
  {
    result := [];
    for i := 0 to |ranked|
      invariant result == Names(ranked[..i])
    {
      result := result + [ranked[i].s];
    }
    assert ranked[..|ranked|] == ranked;
  }

  method CloseMatches(lower: string -> string, target: string, choices: seq<string>, n: nat)
    returns (result: seq<string>)
    ensures BestFirst(ScoreAgainst(lower, target), choices, n, result)
    ensures Suggested(lower, target, choices, n, result)
  {
    ghost var score := ScoreAgainst(lower, target);
    var ranked := Rank(lower, target, choices);
    ranked := SortByScore(score, ranked);
    SelectionIsBest(score, choices, n, ranked);
    if |ranked| > n {
      ranked := ranked[..n];
    }
    result := Strings(ranked);
    BestFirstIsSuggested(lower, target, choices, n, result);
  }

  lemma {:induction false} QualifyingAre(score: Scorer, choices: seq<string>)
    ensures forall c :: c in Qualifying(score, choices) <==> c in choices && score(c) >= 0.6
  {
    if choices != [] {
      QualifyingAre(score, choices[..|choices| - 1]);
      assert choices == choices[..|choices| - 1] + [choices[|choices| - 1]];
    }
  }

  lemma BestFirstMeans(score: Scorer, choices: seq<string>, n: nat, result: seq<string>)
    requires BestFirst(score, choices, n, result)
    ensures |result| <= n && forall c :: c in result ==> c in choices && score(c) >= 0.6
    ensures |result| < n ==> forall c :: c in choices && score(c) >= 0.6 ==> c in result
    ensures forall c, d :: c in choices && c !in result && d in result && score(c) >= 0.6 ==> score(d) >= score(c)
  {
    var all := Qualifying(score, choices);
    QualifyingAre(score, choices);
    assert forall c :: c in all <==> c in multiset(all);
    assert forall c :: c in result <==> c in multiset(result);
    if |result| < n {
      assert |multiset(all)| == |multiset(result)|;
      SameBag(multiset(result), multiset(all));
    }
  }

  /** Only choices that score 0.6 or more against the target, whatever the case of the letters; all
      of them if there is room, and otherwise none better than those that were taken. */
  ghost predicate Suggested(lower: string -> string, target: string, choices: seq<string>, n: nat,
                            result: seq<string>) {
    && |result| <= n
    && (forall c :: c in result ==> c in choices && Score(lower(target), lower(c)) >= 0.6)
    && (|result| < n ==> forall c :: c in choices && Score(lower(target), lower(c)) >= 0.6 ==> c in result)
    && forall c, d :: c in choices && c !in result && d in result && Score(lower(target), lower(c)) >= 0.6 ==>
         Score(lower(target), lower(d)) >= Score(lower(target), lower(c))
  }

  lemma BestFirstIsSuggested(lower: string -> string, target: string, choices: seq<string>, n: nat,
                             result: seq<string>)
    requires BestFirst(ScoreAgainst(lower, target), choices, n, result)
    ensures Suggested(lower, target, choices, n, result)
  {
    var score := ScoreAgainst(lower, target);
    assert forall c :: score(c) == Score(lower(target), lower(c));
    BestFirstMeans(score, choices, n, result);
  }

  lemma SameBag(a: multiset<string>, b: multiset<string>)
    requires a <= b && |a| == |b|
    ensures a == b
  {
    assert b == a + (b - a);
  }

  lemma SelectionIsBest(score: Scorer, choices: seq<string>, n: nat, ranked: seq<Scored>)
    requires multiset(Names(ranked)) == multiset(Qualifying(score, choices))
    requires Descending(ranked) && Scores(score, ranked)
    ensures BestFirst(score, choices, n, Names(if |ranked| > n then ranked[..n] else ranked))
  {
    if |ranked| > n {
      CutIsBest(score, choices, n, ranked[..n], ranked[n..], ranked);
    } else {
      CutIsBest(score, choices, n, ranked, [], ranked);
    }
  }

  lemma CutIsBest(score: Scorer, choices: seq<string>, n: nat, kept: seq<Scored>, rest: seq<Scored>,
                  ranked: seq<Scored>)
    requires ranked == kept + rest && |kept| <= n && (rest != [] ==> |kept| == n)
    requires multiset(Names(ranked)) == multiset(Qualifying(score, choices))
    requires Descending(ranked) && Scores(score, ranked)
    ensures BestFirst(score, choices, n, Names(kept))
  {
    assert Names(kept + rest) == Names(kept) + Names(rest);
    KeptIsBetter(score, kept, rest);
    FirstIsBest(score, choices, n, Names(kept), Names(rest));
  }

  lemma KeptIsBetter(score: Scorer, kept: seq<Scored>, rest: seq<Scored>)
    requires Descending(kept + rest) && Scores(score, kept + rest)
    ensures forall i, j :: 0 <= i < j < |kept| ==> score(Names(kept)[i]) >= score(Names(kept)[j])
    ensures forall x, y :: x in Names(kept) && y in Names(rest) ==> score(x) >= score(y)
  {
    var all := kept + rest;
    forall x, y | x in Names(kept) && y in Names(rest)
      ensures score(x) >= score(y)
    {
      var i :| 0 <= i < |kept| && Names(kept)[i] == x;
      var j :| 0 <= j < |rest| && Names(rest)[j] == y;
      assert all[i] == kept[i] && all[|kept| + j] == rest[j];
    }
    forall i, j | 0 <= i < j < |kept|
      ensures score(Names(kept)[i]) >= score(Names(kept)[j])
    {
      assert all[i] == kept[i] && all[j] == kept[j];
    }
  }

  lemma SplitBag(all: seq<string>, taken: seq<string>, rest: seq<string>)
    requires multiset(all) == multiset(taken + rest)
    ensures |all| == |taken| + |rest|
    ensures multiset(taken) <= multiset(all)
    ensures multiset(all) - multiset(taken) == multiset(rest)
  {
    assert |multiset(all)| == |multiset(taken + rest)|;
  }

  lemma FirstIsBest(score: Scorer, choices: seq<string>, n: nat, taken: seq<string>, rest: seq<string>)
    requires multiset(Qualifying(score, choices)) == multiset(taken + rest)
    requires |taken| <= n && (rest != [] ==> |taken| == n)
    requires forall i, j :: 0 <= i < j < |taken| ==> score(taken[i]) >= score(taken[j])
    requires forall x, y :: x in taken && y in rest ==> score(x) >= score(y)
    ensures BestFirst(score, choices, n, taken)
  {
    SplitBag(Qualifying(score, choices), taken, rest);
  }
}
