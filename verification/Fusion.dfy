/** Reciprocal rank fusion over any number of ranked sources. Scores are exact reals. */
module Fusion {
  import opened Basics
  import opened Ordering

  const RRF_K := 60.0

  function Share(rank0: nat): (r: real)
    ensures r > 0.0
  {
    1.0 / (RRF_K + (rank0 + 1) as real)
  }

  lemma ShareDecreases(i: nat, j: nat)
    requires i < j
    ensures Share(i) > Share(j)
  {
    var x, y := RRF_K + (i + 1) as real, RRF_K + (j + 1) as real;
    assert 0.0 < x < y;
    ReciprocalDecreases(x, y);
  }

  lemma ReciprocalDecreases(x: real, y: real)
    requires 0.0 < x < y
    ensures 1.0 / x > 1.0 / y
  {
    assert 1.0 / x - 1.0 / y == (y - x) / (x * y);
  }

  /** What one source contributes to a document: a share for each of its places in it. */
  function SourceScore(source: seq<string>, id: string): (r: real)
    ensures r >= 0.0
    ensures r > 0.0 <==> id in source
  {
    if source == [] then 0.0
    else
      var last := |source| - 1;
      assert source == source[..last] + [source[last]];
      SourceScore(source[..last], id) + (if source[last] == id then Share(last) else 0.0)
  }

  function Score(sources: seq<seq<string>>, id: string): (r: real)
    ensures r >= 0.0
  {
    if sources == [] then 0.0
    else Score(sources[..|sources| - 1], id) + SourceScore(sources[|sources| - 1], id)
  }

  function Ranked(sources: seq<seq<string>>): seq<string> {
    Dedupe(Flatten(sources))
  }

  function WithScore(sources: seq<seq<string>>): string -> Scored {
    id => Scored(Score(sources, id), id)
  }

  function IdOf(s: Scored): string {
    s.id
  }

  /** The fused ranking: every ranked document once, by fused score descending, then id ascending. */
  function Fused(sources: seq<seq<string>>): seq<string> {
    Map(IdOf, Sort(ScoredLe, Map(WithScore(sources), Ranked(sources))))
  }

  /** `out` lists the union of the sources once each, in fused order. */
  ghost predicate IsFusion(sources: seq<seq<string>>, out: seq<string>) {
    && Distinct(out)
    && (forall id :: id in out <==> exists s :: s in sources && id in s)
    && SortedBy(ScoredLe, Map(WithScore(sources), out))
  }

  lemma FlattenUnion(sources: seq<seq<string>>, id: string)
    ensures id in Flatten(sources) <==> exists s :: s in sources && id in s
  {
    FlattenMembers(sources, id);
    if s :| s in sources && id in s {
      var i :| 0 <= i < |sources| && sources[i] == s;
    }
  }

  lemma MapIds(sources: seq<seq<string>>, ids: seq<string>)
    ensures Map(IdOf, Map(WithScore(sources), ids)) == ids
  {
  }

  lemma ScoredMembers(sources: seq<seq<string>>, ids: seq<string>, x: Scored)
    ensures x in Map(WithScore(sources), ids) <==> x.id in ids && x == WithScore(sources)(x.id)
  {
    if x.id in ids && x == WithScore(sources)(x.id) {
      var i :| 0 <= i < |ids| && ids[i] == x.id;
      assert Map(WithScore(sources), ids)[i] == x;
    }
  }

  /** One entry for every ranked document, with its score. */
  ghost predicate IsScoreTable(sources: seq<seq<string>>, entries: seq<Scored>) {
    && Distinct(entries)
    && forall e :: e in entries <==> e == WithScore(sources)(e.id) && exists s :: s in sources && e.id in s
  }

  /** Such a table sorted, scores dropped, is the fusion. */
  lemma TableIsFusion(sources: seq<seq<string>>, entries: seq<Scored>)
    requires IsScoreTable(sources, entries)
    ensures IsFusion(sources, Map(IdOf, Sort(ScoredLe, entries)))
  {
    ScoredLeIsTotalOrder();
    SortSorted(ScoredLe, entries);
    SortKeeps(ScoredLe, entries);
    var sorted := Sort(ScoredLe, entries);
    var out := Map(IdOf, sorted);
    forall i | 0 <= i < |sorted|
      ensures sorted[i] == WithScore(sources)(out[i])
    {
      assert sorted[i] in entries;
    }
    assert Map(WithScore(sources), out) == sorted;
    forall id
      ensures id in out <==> exists s :: s in sources && id in s
    {
      ScoredMembers(sources, out, WithScore(sources)(id));
      assert WithScore(sources)(id) in sorted <==> WithScore(sources)(id) in entries;
    }
  }

  lemma FusedIsFusion(sources: seq<seq<string>>)
    ensures IsFusion(sources, Fused(sources))
  {
    var ranked := Ranked(sources);
    var scored := Map(WithScore(sources), ranked);
    forall x
      ensures x in scored <==> x == WithScore(sources)(x.id) && exists s :: s in sources && x.id in s
    {
      ScoredMembers(sources, ranked, x);
      FlattenUnion(sources, x.id);
    }
    assert Distinct(scored) by {
      assert forall i, j :: 0 <= i < j < |ranked| ==> ranked[i] != ranked[j];
    }
    TableIsFusion(sources, scored);
  }

  /** The fused order leaves no freedom. */
  lemma FusionIsUnique(sources: seq<seq<string>>, a: seq<string>, b: seq<string>)
    requires IsFusion(sources, a) && IsFusion(sources, b)
    ensures a == b
  {
    ScoredLeIsTotalOrder();
    var a', b' := Map(WithScore(sources), a), Map(WithScore(sources), b);
    assert Distinct(a') && Distinct(b');
    forall x
      ensures x in a' <==> x in b'
    {
      ScoredMembers(sources, a, x);
      ScoredMembers(sources, b, x);
      assert x.id in a <==> x.id in b;
    }
    DistinctSameMembers(a', b');
    SortedUnique(ScoredLe, a', b');
    MapIds(sources, a);
    MapIds(sources, b);
  }

  /** One ranked source added into the score table. */
  method AddSource(before: map<string, real>, source: seq<string>) returns (scores: map<string, real>)
    ensures forall id :: id in scores <==> id in before || id in source
    ensures forall id :: id in scores ==> scores[id] == TableScore(before, id) + SourceScore(source, id)
  {
    scores := before;
    assert source[..0] == [];
    for rank0 := 0 to |source|
      invariant forall id :: id in scores <==> id in before || id in source[..rank0]
      invariant forall id :: id in scores ==> scores[id] == TableScore(before, id) + SourceScore(source[..rank0], id)
    {
      var id := source[rank0];
      assert source[..rank0 + 1] == source[..rank0] + [id];
      assert source[..rank0 + 1][..rank0] == source[..rank0];
      scores := scores[id := TableScore(scores, id) + Share(rank0)];
    }
    assert source[..|source|] == source;
  }

  /** A document's score so far; none counts as nothing. */
  function TableScore(scores: map<string, real>, id: string): real {
    if id in scores then scores[id] else 0.0
  }

  ghost predicate TableOf(sources: seq<seq<string>>, scores: map<string, real>) {
    && (forall id :: id in scores <==> exists s :: s in sources && id in s)
    && (forall id :: TableScore(scores, id) == Score(sources, id))
  }

  lemma TableSnoc(sources: seq<seq<string>>, source: seq<string>, before: map<string, real>, scores: map<string, real>)
    requires TableOf(sources, before)
    requires forall id :: id in scores <==> id in before || id in source
    requires forall id :: id in scores ==> scores[id] == TableScore(before, id) + SourceScore(source, id)
    ensures TableOf(sources + [source], scores)
  {
    assert (sources + [source])[..|sources|] == sources;
    forall id
      ensures TableScore(scores, id) == Score(sources + [source], id)
    {
      assert TableScore(before, id) == Score(sources, id);
    }
  }

  /** The source's nested loops over a score table, then the sort. */
  method Fuse(sources: seq<seq<string>>) returns (fused: seq<string>)
    ensures fused == Fused(sources)
  {
    var scores: map<string, real> := map[];
    for i := 0 to |sources|
      invariant TableOf(sources[..i], scores)
    {
      assert sources[..i + 1] == sources[..i] + [sources[i]];
      ghost var before := scores;
      scores := AddSource(scores, sources[i]);
      TableSnoc(sources[..i], sources[i], before, scores);
    }
    assert sources[..|sources|] == sources;
    var entries := CollectEntries(scores);
    fused := Map(IdOf, Sort(ScoredLe, entries));
    EntriesAreTable(sources, scores, entries);
    TableIsFusion(sources, entries);
    FusedIsFusion(sources);
    FusionIsUnique(sources, fused, Fused(sources));
  }

  lemma EntriesAreTable(sources: seq<seq<string>>, scores: map<string, real>, entries: seq<Scored>)
    requires TableOf(sources, scores) && Distinct(entries)
    requires forall e :: e in entries <==> e.id in scores && e.score == scores[e.id]
    ensures IsScoreTable(sources, entries)
  {
    forall e
      ensures e in entries <==> e == WithScore(sources)(e.id) && exists s :: s in sources && e.id in s
    {
      assert TableScore(scores, e.id) == Score(sources, e.id);
      assert e.id in scores <==> exists s :: s in sources && e.id in s;
    }
  }

  /** The table's entries, in whatever order the table yields them. */
  method CollectEntries(scores: map<string, real>) returns (entries: seq<Scored>)
    ensures Distinct(entries)
    ensures forall e :: e in entries <==> e.id in scores && e.score == scores[e.id]
  {
    entries := [];
    var left := scores.Keys;
    while left != {}
      invariant left <= scores.Keys && Distinct(entries)
      invariant forall e :: e in entries <==> e.id in scores && e.id !in left && e.score == scores[e.id]
      decreases left
    {
      var id :| id in left;
      left := left - {id};
      entries := entries + [Scored(scores[id], id)];
    }
  }

  // -------------------------------------------------------------------------
  // What fusion promises
  // -------------------------------------------------------------------------

  /** Fused scores never increase down the ranking. */
  lemma FusedScoresDescend(sources: seq<seq<string>>, i: nat, j: nat)
    requires i <= j < |Fused(sources)|
    ensures Score(sources, Fused(sources)[i]) >= Score(sources, Fused(sources)[j])
  {
    FusedIsFusion(sources);
    var scored := Map(WithScore(sources), Fused(sources));
    if i < j {
      assert ScoredLe(scored[i], scored[j]);
    }
  }

  lemma {:induction false} ScoreOfConcat(a: seq<seq<string>>, b: seq<seq<string>>, id: string)
    ensures Score(a + b, id) == Score(a, id) + Score(b, id)
  {
    if b == [] {
      assert a + b == a;
    } else {
      assert (a + b)[..|a + b| - 1] == a + b[..|b| - 1];
      ScoreOfConcat(a, b[..|b| - 1], id);
    }
  }

  lemma ScoreWithout(sources: seq<seq<string>>, k: nat, id: string)
    requires k < |sources|
    ensures Score(sources, id) == Score(sources[..k] + sources[k + 1..], id) + SourceScore(sources[k], id)
  {
    assert sources == sources[..k] + ([sources[k]] + sources[k + 1..]);
    ScoreOfConcat(sources[..k], [sources[k]] + sources[k + 1..], id);
    ScoreOfConcat([sources[k]], sources[k + 1..], id);
    ScoreOfConcat(sources[..k], sources[k + 1..], id);
    assert [sources[k]][..0] == [];
  }

  lemma {:induction false} ScoreOfPermutation(a: seq<seq<string>>, b: seq<seq<string>>, id: string)
    requires multiset(a) == multiset(b)
    ensures Score(a, id) == Score(b, id)
    decreases |a|
  {
    SameMultisetSameMembers(a, b);
    if a != [] {
      var n := |a| - 1;
      assert a == a[..n] + [a[n]];
      assert a[n] in b;
      var k :| 0 <= k < |b| && b[k] == a[n];
      assert b == b[..k] + [b[k]] + b[k + 1..];
      ScoreWithout(b, k, id);
      assert multiset(a[..n]) == multiset(a) - multiset{a[n]};
      assert multiset(b[..k] + b[k + 1..]) == multiset(b) - multiset{b[k]};
      ScoreOfPermutation(a[..n], b[..k] + b[k + 1..], id);
    }
  }

  /** Reordering the sources changes nothing. */
  lemma FusionIgnoresSourceOrder(a: seq<seq<string>>, b: seq<seq<string>>)
    requires multiset(a) == multiset(b)
    ensures Fused(a) == Fused(b)
  {
    FusedIsFusion(a);
    FusedIsFusion(b);
    SameMultisetSameMembers(a, b);
    var out := Fused(a);
    forall i | 0 <= i < |out|
      ensures WithScore(a)(out[i]) == WithScore(b)(out[i])
    {
      ScoreOfPermutation(a, b, out[i]);
    }
    assert Map(WithScore(a), out) == Map(WithScore(b), out);
    FusionIsUnique(b, out, Fused(b));
  }

  lemma {:induction false} DistinctSourceScore(source: seq<string>, i: nat)
    requires Distinct(source) && i < |source|
    ensures SourceScore(source, source[i]) == Share(i)
  {
    var last := |source| - 1;
    if i < last {
      assert source[..last][i] == source[i];
      DistinctSourceScore(source[..last], i);
    } else {
      assert source[last] !in source[..last];
    }
  }

  /** `a` stands before `b` in the source. */
  ghost predicate Precedes(source: seq<string>, a: string, b: string) {
    exists i, j :: 0 <= i < j < |source| && source[i] == a && source[j] == b
  }

  lemma PrecedingScoresHigher(source: seq<string>, a: string, b: string)
    requires Distinct(source) && (b in source ==> Precedes(source, a, b))
    ensures SourceScore(source, a) >= SourceScore(source, b)
    ensures b in source ==> SourceScore(source, a) > SourceScore(source, b)
  {
    if b in source {
      var i, j :| 0 <= i < j < |source| && source[i] == a && source[j] == b;
      DistinctSourceScore(source, i);
      DistinctSourceScore(source, j);
      ShareDecreases(i, j);
    }
  }

  lemma {:induction false} DominanceScores(sources: seq<seq<string>>, a: string, b: string)
    requires forall s :: s in sources ==> Distinct(s) && (b in s ==> Precedes(s, a, b))
    ensures Score(sources, a) >= Score(sources, b)
    ensures (exists s :: s in sources && b in s) ==> Score(sources, a) > Score(sources, b)
  {
    if sources != [] {
      var n := |sources| - 1;
      assert sources == sources[..n] + [sources[n]];
      DominanceScores(sources[..n], a, b);
      assert sources[n] in sources;
      PrecedingScoresHigher(sources[n], a, b);
    }
  }

  /** A document that precedes another in every source ranking the other precedes it in the fusion. */
  lemma Dominance(sources: seq<seq<string>>, a: string, b: string)
    requires forall s :: s in sources ==> Distinct(s) && (b in s ==> Precedes(s, a, b))
    requires exists s :: s in sources && b in s
    ensures Precedes(Fused(sources), a, b)
  {
    DominanceScores(sources, a, b);
    FusedIsFusion(sources);
    var out := Fused(sources);
    var s :| s in sources && b in s;
    assert Precedes(s, a, b) && a in s;
    assert a in out && b in out;
    var i :| 0 <= i < |out| && out[i] == a;
    var j :| 0 <= j < |out| && out[j] == b;
    if j <= i {
      FusedScoresDescend(sources, j, i);
    }
  }

  /** A single source without repeats comes back unchanged. */
  lemma SingleSourceUnchanged(source: seq<string>)
    requires Distinct(source)
    ensures Fused([source]) == source
  {
    forall i | 0 <= i < |source|
      ensures Score([source], source[i]) == Share(i)
    {
      DistinctSourceScore(source, i);
      assert [source][..0] == [];
    }
    forall i, j | 0 <= i < j < |source|
      ensures ScoredLe(WithScore([source])(source[i]), WithScore([source])(source[j]))
    {
      ShareDecreases(i, j);
    }
    assert SortedBy(ScoredLe, Map(WithScore([source]), source));
    forall id
      ensures id in source <==> exists s :: s in [source] && id in s
    {
      assert [source][0] in [source];
    }
    FusedIsFusion([source]);
    FusionIsUnique([source], source, Fused([source]));
  }
}
