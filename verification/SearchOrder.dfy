/**
 * What a query serves, in terms of the partitions' own scores: the order inside each source, the order after fusion,
 * and what may be left out.
 */
module SearchOrder {
  import opened Basics
  import opened Ordering
  import opened TopK
  import opened Fusion
  import opened Judging
  import opened Search

  /** A member of this partition that the caller may be served. */
  predicate Servable(p: Partition, s: Scope, o: Options, id: string) {
    id in p.members && id in s.entries && (o.includeSuperseded || !s.entries[id].superseded)
  }

  ghost predicate InCorpus(e: Engine, s: Scope, o: Options, id: string) {
    exists p :: p in e.partitions && Servable(p, s, o, id)
  }

  /** Higher score first, equal scores by id. */
  predicate ComesFirst(x: real, a: string, y: real, b: string) {
    x > y || (x == y && StringLe(a, b))
  }

  lemma Restricted(s: Scope, o: Options, p: Partition, id: string)
    ensures id in Restriction(s, o, p) <==> Servable(p, s, o, id)
  {
  }

  lemma FlatMembers<T>(f: Partition -> seq<T>, partitions: seq<Partition>, x: T)
    ensures x in Flatten(Map(f, partitions)) <==> exists p :: p in partitions && x in f(p)
  {
    FlattenMembers(Map(f, partitions), x);
    if p :| p in partitions && x in f(p) {
      var i :| 0 <= i < |partitions| && partitions[i] == p;
      assert Map(f, partitions)[i] == f(p);
    }
  }

  // -------------------------------------------------------------------------
  // The vector source
  // -------------------------------------------------------------------------

  ghost predicate Live(o: Options, tokens: seq<string>) {
    o.hybrid.Some? && o.hybrid.value.cosine.Some? && tokens != []
  }

  function ScoredBy(cosine: string -> real): string -> Scored {
    (id: string) => Scored(cosine(id), id)
  }

  /** Every servable member of a partition with its similarity. */
  function AllSimilar(s: Scope, o: Options, cosine: string -> real): Partition -> seq<Scored> {
    (p: Partition) => Map(ScoredBy(cosine), Restriction(s, o, p))
  }

  lemma SimilarMembers(s: Scope, o: Options, cosine: string -> real, p: Partition, x: Scored)
    ensures x in AllSimilar(s, o, cosine)(p) <==> Servable(p, s, o, x.id) && x.score == cosine(x.id)
  {
    var ids := Restriction(s, o, p);
    Restricted(s, o, p, x.id);
    if x.id in ids && x.score == cosine(x.id) {
      var i :| 0 <= i < |ids| && ids[i] == x.id;
      assert AllSimilar(s, o, cosine)(p)[i] == x;
    }
  }

  lemma CosineHitsAreBest(s: Scope, o: Options, cosine: string -> real, p: Partition)
    ensures CosineHits(s, o, cosine)(p) == Best(ScoredLe, AllSimilar(s, o, cosine)(p), 50)
  {
    assert Map((id: string) => Scored(cosine(id), id), Restriction(s, o, p)) == AllSimilar(s, o, cosine)(p);
  }

  /** The merged hits of the vector source, sorted, before the scores are dropped. */
  function Merged(e: Engine, s: Scope, o: Options, cosine: string -> real): seq<Scored> {
    Sort(ScoredLe, Flatten(Map(CosineHits(s, o, cosine), e.partitions)))
  }

  lemma MergedMembers(e: Engine, s: Scope, o: Options, cosine: string -> real, x: Scored)
    ensures x in Merged(e, s, o, cosine) ==> InCorpus(e, s, o, x.id) && x.score == cosine(x.id)
    ensures x in Merged(e, s, o, cosine) <==> exists p :: p in e.partitions && x in CosineHits(s, o, cosine)(p)
  {
    SortKeeps(ScoredLe, Flatten(Map(CosineHits(s, o, cosine), e.partitions)));
    FlatMembers(CosineHits(s, o, cosine), e.partitions, x);
    if p :| p in e.partitions && x in CosineHits(s, o, cosine)(p) {
      CosineHitsAreBest(s, o, cosine, p);
      ScoredLeIsTotalOrder();
      BestIsBest(ScoredLe, AllSimilar(s, o, cosine)(p), 50);
      SimilarMembers(s, o, cosine, p, x);
    }
  }

  /** With a live embedder there is a second source, most similar first, of servable documents only. */
  lemma VectorSourceIsOrdered(e: Engine, s: Scope, o: Options, tokens: seq<string>, i: nat, j: nat)
    requires Live(o, tokens)
    ensures |Sources(e, s, o, tokens)| == 2
    ensures var cosine, v := o.hybrid.value.cosine.value, Sources(e, s, o, tokens)[1];
            && (i < |v| ==> InCorpus(e, s, o, v[i]))
            && (i < j < |v| ==> ComesFirst(cosine(v[i]), v[i], cosine(v[j]), v[j]))
  {
    var cosine, v := o.hybrid.value.cosine.value, Sources(e, s, o, tokens)[1];
    var merged := Merged(e, s, o, cosine);
    ScoredLeIsTotalOrder();
    SortSorted(ScoredLe, Flatten(Map(CosineHits(s, o, cosine), e.partitions)));
    assert v == Ids(merged);
    if i < |v| {
      MergedMembers(e, s, o, cosine, merged[i]);
      if i < j < |v| {
        MergedMembers(e, s, o, cosine, merged[j]);
        assert ScoredLe(merged[i], merged[j]);
      }
    }
  }

  /** Fifty servable members of a partition in the source, none of them less similar than `id`. */
  ghost predicate FiftyCloser(p: Partition, s: Scope, o: Options, cosine: string -> real, v: seq<string>, id: string,
                              closer: seq<string>)
  {
    && |closer| == 50 && Distinct(closer)
    && forall c :: c in closer ==> Servable(p, s, o, c) && c in v && ComesFirst(cosine(c), c, cosine(id), id)
  }

  lemma HitIsListed(e: Engine, s: Scope, o: Options, cosine: string -> real, p: Partition, h: Scored)
    requires p in e.partitions && h in CosineHits(s, o, cosine)(p)
    ensures h.id in VectorRanking(e, s, o, cosine) && Servable(p, s, o, h.id) && h.score == cosine(h.id)
  {
    CosineHitsAreBest(s, o, cosine, p);
    ScoredLeIsTotalOrder();
    BestIsBest(ScoredLe, AllSimilar(s, o, cosine)(p), 50);
    SimilarMembers(s, o, cosine, p, h);
    MergedMembers(e, s, o, cosine, h);
    IdListed(Merged(e, s, o, cosine), h);
  }

  /** A servable member that is no hit of its partition is beaten by fifty hits. */
  lemma BeatenByFifty(s: Scope, o: Options, cosine: string -> real, p: Partition, id: string)
    requires Servable(p, s, o, id) && Scored(cosine(id), id) !in CosineHits(s, o, cosine)(p)
    ensures |CosineHits(s, o, cosine)(p)| == 50
    ensures forall h :: h in CosineHits(s, o, cosine)(p) ==> ComesFirst(h.score, h.id, cosine(id), id)
  {
    var x, all := Scored(cosine(id), id), AllSimilar(s, o, cosine)(p);
    SimilarMembers(s, o, cosine, p, x);
    CosineHitsAreBest(s, o, cosine, p);
    ScoredLeIsTotalOrder();
    BestIsBest(ScoredLe, all, 50);
    SortKeeps(ScoredLe, all);
  }

  /** A servable document is in it, or fifty of its own partition are that come no later. */
  lemma VectorSourceCovers(e: Engine, s: Scope, o: Options, tokens: seq<string>, p: Partition, id: string)
    requires Live(o, tokens) && p in e.partitions && Servable(p, s, o, id) && Distinct(p.members)
    ensures |Sources(e, s, o, tokens)| == 2
    ensures var cosine, v := o.hybrid.value.cosine.value, Sources(e, s, o, tokens)[1];
            id in v || exists closer :: FiftyCloser(p, s, o, cosine, v, id, closer)
  {
    var cosine := o.hybrid.value.cosine.value;
    var hits, x := CosineHits(s, o, cosine)(p), Scored(cosine(id), id);
    if x in hits {
      HitIsListed(e, s, o, cosine, p, x);
    } else {
      BeatenByFifty(s, o, cosine, p, id);
      HitsDiffer(s, o, cosine, p);
      forall c | c in Ids(hits)
        ensures Servable(p, s, o, c) && c in VectorRanking(e, s, o, cosine)
                && ComesFirst(cosine(c), c, cosine(id), id)
      {
        var i :| 0 <= i < |hits| && Ids(hits)[i] == c;
        assert hits[i] in hits;
        HitIsListed(e, s, o, cosine, p, hits[i]);
      }
      assert FiftyCloser(p, s, o, cosine, VectorRanking(e, s, o, cosine), id, Ids(hits));
    }
  }

  lemma IdListed(scored: seq<Scored>, x: Scored)
    requires x in scored
    ensures x.id in Ids(scored)
  {
    var i :| 0 <= i < |scored| && scored[i] == x;
    assert Ids(scored)[i] == x.id;
  }

  lemma HitsDiffer(s: Scope, o: Options, cosine: string -> real, p: Partition)
    requires Distinct(p.members)
    ensures Distinct(Ids(CosineHits(s, o, cosine)(p)))
  {
    var all := AllSimilar(s, o, cosine)(p);
    CosineHitsAreBest(s, o, cosine, p);
    FilterDistinct(id => Serveable(s, o, id), p.members);
    assert Ids(all) == Restriction(s, o, p);
    SortedIdsDiffer(all, 50);
  }

  lemma SortedIdsDiffer(scored: seq<Scored>, k: nat)
    requires Distinct(Ids(scored))
    ensures Distinct(Ids(Best(ScoredLe, scored, k)))
  {
    var sorted := Sort(ScoredLe, scored);
    MapOfPermutation(IdOf, scored, sorted);
    PermutationKeepsDistinct(Ids(scored), Ids(sorted));
    assert forall i :: 0 <= i < |Best(ScoredLe, scored, k)| ==> Ids(Best(ScoredLe, scored, k))[i] == Ids(sorted)[i];
  }

  // -------------------------------------------------------------------------
  // Served by similarity alone
  // -------------------------------------------------------------------------

  ghost predicate NoLexicalMatch(e: Engine, s: Scope, o: Options, tokens: seq<string>) {
    forall p, id :: p in e.partitions && Servable(p, s, o, id) ==> p.bm25(tokens, id).None?
  }

  lemma NothingRanked(e: Engine, s: Scope, o: Options, tokens: seq<string>)
    requires NoLexicalMatch(e, s, o, tokens)
    ensures LexicalRanking(e, s, o, tokens) == []
  {
    var merged := Flatten(Map(Hits(s, o, tokens), e.partitions));
    if merged != [] {
      FlatMembers(Hits(s, o, tokens), e.partitions, merged[0]);
      var p :| p in e.partitions && merged[0] in Hits(s, o, tokens)(p);
      ScoredLeIsTotalOrder();
      BestIsBest(ScoredLe, Matches(p, tokens, Restriction(s, o, p)), o.k);
      MatchMembers(p, s, o, tokens, merged[0]);
    }
  }

  lemma OneSource(a: seq<string>, id: string)
    ensures Score([a], id) == SourceScore(a, id)
  {
    assert [a][..0] == [];
  }

  lemma TwoSources(a: seq<string>, b: seq<string>, id: string)
    ensures Score([a, b], id) == SourceScore(a, id) + SourceScore(b, id)
  {
    ScoreOfConcat([a], [b], id);
    assert [a] + [b] == [a, b];
    OneSource(a, id);
    OneSource(b, id);
  }

  /** An empty source adds nothing. */
  lemma EmptySourceAddsNothing(source: seq<string>)
    requires Distinct(source)
    ensures Fused([[], source]) == source
  {
    forall i | 0 <= i < |source|
      ensures Score([[], source], source[i]) == Share(i)
    {
      TwoSources([], source, source[i]);
      DistinctSourceScore(source, i);
    }
    forall i, j | 0 <= i < j < |source|
      ensures ScoredLe(WithScore([[], source])(source[i]), WithScore([[], source])(source[j]))
    {
      ShareDecreases(i, j);
    }
    assert SortedBy(ScoredLe, Map(WithScore([[], source]), source));
    forall id
      ensures id in source <==> exists x :: x in [[], source] && id in x
    {
      assert [[], source][1] == source;
    }
    FusedIsFusion([[], source]);
    FusionIsUnique([[], source], source, Fused([[], source]));
  }

  /** Cutting each partition to fifty cannot be seen in the first fifty. */
  lemma FirstOfMerged(e: Engine, s: Scope, o: Options, cosine: string -> real, k: nat)
    requires k <= 50
    ensures Take(Merged(e, s, o, cosine), k)
         == Best(ScoredLe, Flatten(Map(AllSimilar(s, o, cosine), e.partitions)), k)
  {
    var parts := Map(AllSimilar(s, o, cosine), e.partitions);
    ScoredLeIsTotalOrder();
    forall p
      ensures CosineHits(s, o, cosine)(p) == Best(ScoredLe, AllSimilar(s, o, cosine)(p), 50)
    {
      CosineHitsAreBest(s, o, cosine, p);
    }
    assert CutParts(ScoredLe, parts, 50) == Map(CosineHits(s, o, cosine), e.partitions);
    BestOfParts(ScoredLe, parts, 50);
    TakeTake(Merged(e, s, o, cosine), k, 50);
    TakeTake(Sort(ScoredLe, Flatten(parts)), k, 50);
  }

  lemma {:induction false} SimilarIds(s: Scope, o: Options, cosine: string -> real, partitions: seq<Partition>,
                                      id: string)
    ensures Count(Ids(Flatten(Map(CosineHits(s, o, cosine), partitions))), id)
         <= Count(Flatten(Map(Members, partitions)), id)
  {
    if partitions != [] {
      var p, rest, hits := partitions[0], partitions[1..], CosineHits(s, o, cosine);
      assert Map(hits, partitions)[1..] == Map(hits, rest) && Map(Members, partitions)[1..] == Map(Members, rest);
      SimilarIds(s, o, cosine, rest, id);
      CountConcat(p.members, Flatten(Map(Members, rest)), id);
      assert Ids(hits(p) + Flatten(Map(hits, rest))) == Ids(hits(p)) + Ids(Flatten(Map(hits, rest)));
      CountConcat(Ids(hits(p)), Ids(Flatten(Map(hits, rest))), id);
      CosineHitsAreBest(s, o, cosine, p);
      CutCounts(AllSimilar(s, o, cosine)(p), 50, id);
      assert Ids(AllSimilar(s, o, cosine)(p)) == Restriction(s, o, p);
      FilterCounts(id => Serveable(s, o, id), p.members, id);
    }
  }

  lemma VectorSourceIsDistinct(e: Engine, s: Scope, o: Options, cosine: string -> real)
    requires Disjoint(e.partitions)
    ensures Distinct(VectorRanking(e, s, o, cosine))
  {
    var merged := Flatten(Map(CosineHits(s, o, cosine), e.partitions));
    MapOfPermutation(IdOf, Sort(ScoredLe, merged), merged);
    forall id
      ensures multiset(VectorRanking(e, s, o, cosine))[id] <= 1
    {
      SimilarIds(s, o, cosine, e.partitions, id);
      DistinctMultiplicity(Flatten(Map(Members, e.partitions)), id);
    }
    MultiplicityDistinct(VectorRanking(e, s, o, cosine));
  }

  lemma SimilarServed(e: Engine, s: Scope, o: Options, tokens: seq<string>)
    requires Live(o, tokens) && o.judge.None? && Disjoint(e.partitions) && NoLexicalMatch(e, s, o, tokens)
    requires Answer(e, s, o, tokens).Ok?
    ensures ResultIds(Answer(e, s, o, tokens).value.results)
         == Ids(Best(ScoredLe, Flatten(Map(AllSimilar(s, o, o.hybrid.value.cosine.value), e.partitions)), o.k))
  {
    var cosine := o.hybrid.value.cosine.value;
    NothingRanked(e, s, o, tokens);
    VectorSourceIsDistinct(e, s, o, cosine);
    EmptySourceAddsNothing(VectorRanking(e, s, o, cosine));
    ServedIds(e, s, o, tokens);
    FirstOfMerged(e, s, o, cosine, o.k);
    TakeOfIds(Merged(e, s, o, cosine), o.k);
  }

  /** `r` is served, scores above what follows it, and nothing better is left out. */
  ghost predicate ServesBest(served: seq<string>, k: nat, matches: (string, real) -> bool) {
    && |served| <= k
    && (forall r :: r in served ==> exists x :: matches(r, x))
    && (forall i, j, x, y :: 0 <= i < j < |served| && matches(served[i], x) && matches(served[j], y) ==>
          ComesFirst(x, served[i], y, served[j]))
    && (forall id, y :: matches(id, y) && id !in served ==>
          |served| == k && forall r, x :: r in served && matches(r, x) ==> ComesFirst(x, r, y, id))
  }

  /** A list of scored ids whose best k are served, when every id has one score. */
  lemma BestServes(all: seq<Scored>, k: nat, matches: (string, real) -> bool)
    requires forall x :: x in all <==> matches(x.id, x.score)
    requires forall id, x, y :: matches(id, x) && matches(id, y) ==> x == y
    ensures ServesBest(Ids(Best(ScoredLe, all, k)), k, matches)
  {
    var best := Best(ScoredLe, all, k);
    var served := Ids(best);
    ScoredLeIsTotalOrder();
    BestIsBest(ScoredLe, all, k);
    forall r | r in served
      ensures exists x :: matches(r, x)
    {
      var i :| 0 <= i < |best| && served[i] == r;
      assert best[i] in best && matches(r, best[i].score);
    }
    forall i, j, x, y | 0 <= i < j < |served| && matches(served[i], x) && matches(served[j], y)
      ensures ComesFirst(x, served[i], y, served[j])
    {
      assert best[i] in best && best[j] in best && ScoredLe(best[i], best[j]);
    }
    forall id, y | matches(id, y) && id !in served
      ensures |served| == k && forall r, x :: r in served && matches(r, x) ==> ComesFirst(x, r, y, id)
    {
      LeftOut(all, k, matches, id, y);
    }
  }

  lemma LeftOut(all: seq<Scored>, k: nat, matches: (string, real) -> bool, id: string, y: real)
    requires forall x :: x in all <==> matches(x.id, x.score)
    requires forall id, x, y :: matches(id, x) && matches(id, y) ==> x == y
    requires matches(id, y) && id !in Ids(Best(ScoredLe, all, k))
    ensures var served := Ids(Best(ScoredLe, all, k));
            |served| == k && forall r, x :: r in served && matches(r, x) ==> ComesFirst(x, r, y, id)
  {
    var best, left := Best(ScoredLe, all, k), Scored(y, id);
    ScoredLeIsTotalOrder();
    BestIsBest(ScoredLe, all, k);
    SortKeeps(ScoredLe, all);
    assert left in all;
    assert left !in best by {
      if left in best {
        IdListed(best, left);
      }
    }
    forall r, x | r in Ids(best) && matches(r, x)
      ensures ComesFirst(x, r, y, id)
    {
      var i :| 0 <= i < |best| && Ids(best)[i] == r;
      assert best[i] in best && ScoredLe(best[i], left);
    }
  }

  /** Similar in the corpus: this servable document has this cosine. */
  ghost function SimilarTo(e: Engine, s: Scope, o: Options, cosine: string -> real): (string, real) -> bool {
    (id: string, x: real) => InCorpus(e, s, o, id) && x == cosine(id)
  }

  lemma AllSimilarMembers(e: Engine, s: Scope, o: Options, cosine: string -> real, x: Scored)
    ensures x in Flatten(Map(AllSimilar(s, o, cosine), e.partitions))
       <==> InCorpus(e, s, o, x.id) && x.score == cosine(x.id)
  {
    FlatMembers(AllSimilar(s, o, cosine), e.partitions, x);
    forall p
      ensures x in AllSimilar(s, o, cosine)(p) <==> Servable(p, s, o, x.id) && x.score == cosine(x.id)
    {
      SimilarMembers(s, o, cosine, p, x);
    }
  }

  /**
   * When nothing servable matches lexically, a hybrid query serves the most similar servable documents of the whole
   * corpus, most similar first: nothing left out comes before anything served.
   */
  lemma MostSimilarAreServed(e: Engine, s: Scope, o: Options, tokens: seq<string>)
    requires Live(o, tokens) && o.judge.None? && Disjoint(e.partitions) && NoLexicalMatch(e, s, o, tokens)
    requires Answer(e, s, o, tokens).Ok?
    ensures ServesBest(ResultIds(Answer(e, s, o, tokens).value.results), o.k,
                       SimilarTo(e, s, o, o.hybrid.value.cosine.value))
  {
    var cosine := o.hybrid.value.cosine.value;
    var all := Flatten(Map(AllSimilar(s, o, cosine), e.partitions));
    SimilarServed(e, s, o, tokens);
    forall x
      ensures x in all <==> SimilarTo(e, s, o, cosine)(x.id, x.score)
    {
      AllSimilarMembers(e, s, o, cosine, x);
    }
    BestServes(all, o.k, SimilarTo(e, s, o, cosine));
  }

  // -------------------------------------------------------------------------
  // Served by text alone
  // -------------------------------------------------------------------------

  /** The partition holding this servable document scores it so. */
  ghost function MatchedWith(e: Engine, s: Scope, o: Options, tokens: seq<string>): (string, real) -> bool {
    (id: string, x: real) => exists p :: p in e.partitions && Servable(p, s, o, id) && p.bm25(tokens, id) == Some(x)
  }

  lemma MatchMembers(p: Partition, s: Scope, o: Options, tokens: seq<string>, x: Scored)
    ensures x in Matches(p, tokens, Restriction(s, o, p))
       <==> Servable(p, s, o, x.id) && p.bm25(tokens, x.id) == Some(x.score)
  {
    var f := (id: string) =>
      match p.bm25(tokens, id) case Some(score) => Some(Scored(score, id)) case None => None;
    CollectMembers(f, Restriction(s, o, p), x);
    Restricted(s, o, p, x.id);
    if Servable(p, s, o, x.id) && p.bm25(tokens, x.id) == Some(x.score) {
      assert f(x.id) == Some(x);
    }
  }

  lemma {:induction false} HeldOnce(partitions: seq<Partition>, p: Partition, q: Partition, id: string)
    requires Disjoint(partitions) && p in partitions && q in partitions && id in p.members && id in q.members
    ensures p == q
  {
    var first, rest := partitions[0], partitions[1..];
    var others := Flatten(Map(Members, rest));
    assert Map(Members, partitions)[1..] == Map(Members, rest);
    assert Flatten(Map(Members, partitions)) == first.members + others;
    DistinctParts(first.members, others);
    FlatMembers(Members, rest, id);
    if p in rest && q in rest {
      HeldOnce(rest, p, q, id);
    }
  }

  lemma DistinctParts(a: seq<string>, b: seq<string>)
    requires Distinct(a + b)
    ensures Distinct(b) && forall x :: x in a ==> x !in b
  {
    forall i, j | 0 <= i < j < |b|
      ensures b[i] != b[j]
    {
      assert (a + b)[|a| + i] != (a + b)[|a| + j];
    }
    forall i, j | 0 <= i < |a| && 0 <= j < |b|
      ensures a[i] != b[j]
    {
      assert (a + b)[i] != (a + b)[|a| + j];
    }
  }

  /** A lexical query serves the best matches of the whole corpus, best score first, and leaves out nothing better. */
  lemma BestMatchesAreServed(e: Engine, s: Scope, o: Options, tokens: seq<string>)
    requires Disjoint(e.partitions) && !HybridRuns(o, tokens) && o.judge.None? && tokens != []
    requires Answer(e, s, o, tokens).Ok?
    ensures ServesBest(ResultIds(Answer(e, s, o, tokens).value.results), o.k, MatchedWith(e, s, o, tokens))
  {
    var matches, all := MatchedWith(e, s, o, tokens), AllMatches(e, s, o, tokens);
    LexicalRefinesFlat(e, s, o, tokens);
    forall x
      ensures x in all <==> matches(x.id, x.score)
    {
      FlatMembers(ServeableMatches(s, o, tokens), e.partitions, x);
      forall p | p in e.partitions
        ensures x in ServeableMatches(s, o, tokens)(p)
           <==> Servable(p, s, o, x.id) && p.bm25(tokens, x.id) == Some(x.score)
      {
        MatchMembers(p, s, o, tokens, x);
      }
    }
    forall id, x, y | matches(id, x) && matches(id, y)
      ensures x == y
    {
      var p :| p in e.partitions && Servable(p, s, o, id) && p.bm25(tokens, id) == Some(x);
      var q :| q in e.partitions && Servable(q, s, o, id) && q.bm25(tokens, id) == Some(y);
      HeldOnce(e.partitions, p, q, id);
    }
    BestServes(all, o.k, matches);
  }

  // -------------------------------------------------------------------------
  // Fusion by places
  // -------------------------------------------------------------------------

  /** A document's share of one source: a sixty-first for the first place, a sixty-second for the second, and so on. */
  function PlaceShare(source: seq<string>, id: string): real {
    var place := IndexOf(source, id);
    if place.None? then 0.0 else 1.0 / (61 + place.value) as real
  }

  lemma PlaceIsScore(source: seq<string>, id: string)
    requires Distinct(source)
    ensures SourceScore(source, id) == PlaceShare(source, id)
  {
    if id in source {
      DistinctSourceScore(source, IndexOf(source, id).value);
    }
  }

  function PlaceShares(sources: seq<seq<string>>, id: string): real {
    if sources == [] then 0.0 else PlaceShare(sources[0], id) + PlaceShares(sources[1..], id)
  }

  lemma {:induction false} PlacesAreScores(sources: seq<seq<string>>, id: string)
    requires forall source :: source in sources ==> Distinct(source)
    ensures Score(sources, id) == PlaceShares(sources, id)
  {
    if sources != [] {
      assert sources == [sources[0]] + sources[1..];
      ScoreOfConcat([sources[0]], sources[1..], id);
      OneSource(sources[0], id);
      PlaceIsScore(sources[0], id);
      PlacesAreScores(sources[1..], id);
    }
  }

  /** The fused ranking lists what the sources list, once each, by the sum of the shares of its places, then by id. */
  lemma FusedByPlaces(sources: seq<seq<string>>, i: nat, j: nat)
    requires forall source :: source in sources ==> Distinct(source)
    requires i < j < |Fused(sources)|
    ensures var a, b := Fused(sources)[i], Fused(sources)[j];
            a != b && ComesFirst(PlaceShares(sources, a), a, PlaceShares(sources, b), b)
  {
    FusedIsFusion(sources);
    var a, b, scored := Fused(sources)[i], Fused(sources)[j], Map(WithScore(sources), Fused(sources));
    assert ScoredLe(scored[i], scored[j]);
    PlacesAreScores(sources, a);
    PlacesAreScores(sources, b);
  }

  // -------------------------------------------------------------------------
  // When the judge is heard, and what is refused
  // -------------------------------------------------------------------------

  predicate Within(ratio: real, first: real, second: real) {
    first < ratio * second
  }

  /** Two candidates at least, as many as asked for, and no winner ahead of the runner-up by the ratio or more. */
  ghost predicate CloseRace(ranking: seq<string>, sources: seq<seq<string>>, minimum: nat, ratio: real) {
    && |ranking| >= 2 && |ranking| >= minimum
    && Within(ratio, PlaceShares(sources, ranking[0]), PlaceShares(sources, ranking[1]))
  }

  lemma RatioOfScores(a: real, b: real, ratio: real)
    requires b > 0.0
    ensures a / b < ratio <==> a < ratio * b
  {
    assert a == (a / b) * b;
    if a / b < ratio {
      assert (a / b) * b < ratio * b;
    } else {
      assert (a / b) * b >= ratio * b;
    }
  }

  lemma RankedScoresArePositive(sources: seq<seq<string>>, id: string)
    requires exists source :: source in sources && id in source
    ensures Score(sources, id) > 0.0
  {
    if sources[|sources| - 1] == [] || id !in sources[|sources| - 1] {
      var source :| source in sources && id in source;
      assert source in sources[..|sources| - 1];
      RankedScoresArePositive(sources[..|sources| - 1], id);
    }
  }

  lemma EligibleByProduct(scores: seq<real>, minimum: nat, ratio: real)
    requires |scores| >= 2 ==> scores[1] > 0.0
    ensures JudgeEligible(scores, minimum, ratio)
       <==> |scores| >= 2 && |scores| >= minimum && Within(ratio, scores[0], scores[1])
  {
    if |scores| >= 2 {
      RatioOfScores(scores[0], scores[1], ratio);
    }
  }

  /** The scores a query computes along its fused ranking, by places. */
  lemma FusedScoresByPlaces(sources: seq<seq<string>>, i: nat)
    requires (forall source :: source in sources ==> Distinct(source)) && i < |Fused(sources)|
    ensures |FusedScores(sources)| == |Fused(sources)| && FusedScores(sources)[i] > 0.0
    ensures FusedScores(sources)[i] == PlaceShares(sources, Fused(sources)[i])
  {
    var id := Fused(sources)[i];
    FusedIsFusion(sources);
    assert id in Fused(sources);
    RankedScoresArePositive(sources, id);
    PlacesAreScores(sources, id);
  }

  lemma EligibleIsCloseRace(sources: seq<seq<string>>, minimum: nat, ratio: real)
    requires forall source :: source in sources ==> Distinct(source)
    ensures JudgeEligible(FusedScores(sources), minimum, ratio) <==> CloseRace(Fused(sources), sources, minimum, ratio)
  {
    if |Fused(sources)| >= 2 {
      FusedScoresByPlaces(sources, 0);
      FusedScoresByPlaces(sources, 1);
    }
    EligibleByProduct(FusedScores(sources), minimum, ratio);
  }

  /** The sources of a query over disjoint partitions repeat nothing. */
  lemma SourcesAreDistinct(e: Engine, s: Scope, o: Options, tokens: seq<string>)
    requires Disjoint(e.partitions)
    ensures forall source :: source in Sources(e, s, o, tokens) ==> Distinct(source)
  {
    RankingIsDistinct(e, s, o, tokens);
    if HybridRuns(o, tokens) {
      VectorSourceIsDistinct(e, s, o, o.hybrid.value.cosine.value);
    }
  }

  /**
   * The judge's order is applied exactly when one is configured and answers, the race it is asked about is close, and
   * it names a document among the first it is shown.
   */
  lemma JudgeIsHeardExactly(e: Engine, s: Scope, o: Options, tokens: seq<string>)
    requires Disjoint(e.partitions) && Answer(e, s, o, tokens).Ok?
    ensures var sources := Sources(e, s, o, tokens);
            Answer(e, s, o, tokens).value.judgeApplied <==>
              && o.judge.Some? && o.judge.value.order.Some?
              && CloseRace(Fused(sources), sources, o.judge.value.minCandidates, o.judge.value.maxRatio)
              && exists i :: 0 <= i < |Fused(sources)| && i < o.judge.value.topK
                             && Fused(sources)[i] in o.judge.value.order.value
  {
    var sources := Sources(e, s, o, tokens);
    SourcesAreDistinct(e, s, o, tokens);
    if o.judge.Some? {
      var j := o.judge.value;
      EligibleIsCloseRace(sources, j.minCandidates, j.maxRatio);
      if j.order.Some? {
        PicksExist(Fused(sources), j.topK, j.order.value);
      }
    }
  }

  lemma PicksExist(fused: seq<string>, topK: nat, order: seq<string>)
    ensures Spliced(fused, topK, order).Some? <==> exists i :: 0 <= i < |fused| && i < topK && fused[i] in order
  {
    var head := Take(fused, topK);
    var picks := Picks(head, order);
    if picks != [] {
      assert picks[0] in picks;
      var i :| 0 <= i < |head| && head[i] == picks[0];
      assert fused[i] in order;
    }
    if i :| 0 <= i < |fused| && i < topK && fused[i] in order {
      assert head[i] in head && fused[i] in picks;
    }
  }

  /** A query is refused exactly for a length outside 1 to 50, another corpus, or vectors it asks for and lacks. */
  lemma RefusedExactly(e: Engine, s: Scope, o: Options, tokens: seq<string>)
    ensures Answer(e, s, o, tokens).Ok? <==>
              && 1 <= o.k <= 50 && s.documentsHash == e.documentsHash
              && (o.judge.Some? ==> e.vectors.Some?)
              && (o.hybrid.Some? ==> e.vectors == Some(Vectors(o.hybrid.value.modelId, o.hybrid.value.dim)))
  {
  }

  // -------------------------------------------------------------------------
  // What a result says, and what the trace says of it
  // -------------------------------------------------------------------------

  /** A result carries its document's own reasons and state, and names a successor exactly when that is in scope. */
  ghost predicate SpeaksFor(s: Scope, r: ResultEntry) {
    && r.documentId in s.entries
    && var meta := s.entries[r.documentId];
    && r.reasons == meta.reasons && r.superseded == meta.superseded
    && forall successor :: r.successor == Some(successor) <==>
         meta.superseded && meta.successor == Some(successor) && successor in s.entries
  }

  lemma EntrySpeaks(s: Scope, id: string, rank: nat)
    requires id in s.entries
    ensures SpeaksFor(s, Entry(s, id, rank))
  {
  }

  lemma ResultsSpeakForThemselves(e: Engine, s: Scope, o: Options, tokens: seq<string>, i: nat)
    requires Answer(e, s, o, tokens).Ok? && i < |Answer(e, s, o, tokens).value.results|
    ensures var envelope := Answer(e, s, o, tokens).value;
            && SpeaksFor(s, envelope.results[i]) && envelope.results[i].rank == i + 1
            && envelope.principal == s.principal && envelope.snapshot == s.snapshot
            && envelope.indexVersion == e.indexVersion
            && (envelope.mode == Hybrid <==> Live(o, tokens))
            && InCorpus(e, s, o, envelope.results[i].documentId)
  {
    var id := ServedAt(e, s, o, tokens, i);
    EntrySpeaks(s, id, i + 1);
    RankedIsInCorpus(e, s, o, tokens, id);
  }

  /** What stands at place `i` of the results. */
  lemma ServedAt(e: Engine, s: Scope, o: Options, tokens: seq<string>, i: nat) returns (id: string)
    requires Answer(e, s, o, tokens).Ok? && i < |Answer(e, s, o, tokens).value.results|
    ensures id in FinalRanking(e, s, o, tokens) && id in s.entries
    ensures Answer(e, s, o, tokens).value.results[i] == Entry(s, id, i + 1)
  {
    RankingIsAllowed(e, s, o, tokens);
    var ids := Take(FinalRanking(e, s, o, tokens), o.k);
    EntryAt(s, ids, i);
    id := ids[i];
  }

  lemma EntryAt(s: Scope, ids: seq<string>, i: nat)
    requires i < |ids| && forall id :: id in ids ==> id in s.entries
    ensures Entries(s, ids)[i] == Entry(s, ids[i], i + 1) && ids[i] in s.entries
  {
  }

  /** Whatever is ranked is a servable member of some partition. */
  lemma RankedIsInCorpus(e: Engine, s: Scope, o: Options, tokens: seq<string>, id: string)
    requires id in FinalRanking(e, s, o, tokens)
    ensures InCorpus(e, s, o, id)
  {
    var sources := Sources(e, s, o, tokens);
    FusedIsFusion(sources);
    if Judged(o, sources).Some? {
      JudgeOnlyPermutesHead(Fused(sources), o.judge.value.topK, o.judge.value.order.value);
      SameMultisetSameMembers(Judged(o, sources).value, Fused(sources));
    }
    var source :| source in sources && id in source;
    if source == LexicalRanking(e, s, o, tokens) {
      LexicalIsInCorpus(e, s, o, tokens, id);
    } else {
      var i :| 0 <= i < |source| && source[i] == id;
      VectorSourceIsOrdered(e, s, o, tokens, i, i);
    }
  }

  lemma LexicalIsInCorpus(e: Engine, s: Scope, o: Options, tokens: seq<string>, id: string)
    requires id in LexicalRanking(e, s, o, tokens)
    ensures InCorpus(e, s, o, id)
  {
    var merged := Flatten(Map(Hits(s, o, tokens), e.partitions));
    var sorted := Sort(ScoredLe, merged);
    SortKeeps(ScoredLe, merged);
    var i :| 0 <= i < |sorted| && Ids(sorted)[i] == id;
    assert sorted[i] in sorted;
    FlatMembers(Hits(s, o, tokens), e.partitions, sorted[i]);
    var p :| p in e.partitions && sorted[i] in Hits(s, o, tokens)(p);
    ScoredLeIsTotalOrder();
    BestIsBest(ScoredLe, Matches(p, tokens, Restriction(s, o, p)), o.k);
    MatchMembers(p, s, o, tokens, sorted[i]);
  }

  /** The trace names as opened exactly the partitions with something servable, and ends with what is served. */
  lemma TraceTellsTheAnswer(e: Engine, s: Scope, o: Options, tokens: seq<string>, serveable: seq<string>)
    requires Answer(e, s, o, tokens).Ok?
    ensures var trace := TraceOf(e, s, o, tokens, serveable);
            && trace.stages != [] && trace.stages[|trace.stages| - 1].name == "results"
            && trace.stages[|trace.stages| - 1].ids == ResultIds(Answer(e, s, o, tokens).value.results)
            && forall c :: c in trace.active <==>
                 tokens != [] && exists p, id :: p in e.partitions && p.class_ == c && Servable(p, s, o, id)
  {
    ServedIds(e, s, o, tokens);
    var active := Opened(e, s, o, tokens);
    forall c
      ensures c in Map(ClassOf(), active) <==>
                tokens != [] && exists p, id :: p in e.partitions && p.class_ == c && Servable(p, s, o, id)
    {
      OpenedClasses(e, s, o, tokens, c);
    }
  }

  lemma OpenedClasses(e: Engine, s: Scope, o: Options, tokens: seq<string>, c: string)
    ensures c in Map(ClassOf(), Opened(e, s, o, tokens)) <==>
              tokens != [] && exists p, id :: p in e.partitions && p.class_ == c && Servable(p, s, o, id)
  {
    var active := Opened(e, s, o, tokens);
    if c in Map(ClassOf(), active) {
      var i :| 0 <= i < |active| && active[i].class_ == c;
      assert active[i] in active;
      var id := Restriction(s, o, active[i])[0];
      assert id in Restriction(s, o, active[i]) && Servable(active[i], s, o, id);
    }
    if tokens != [] {
      if p, id :| p in e.partitions && p.class_ == c && Servable(p, s, o, id) {
        Restricted(s, o, p, id);
        assert p in active;
        var i :| 0 <= i < |active| && active[i] == p;
        assert Map(ClassOf(), active)[i] == c;
      }
    }
  }
}
