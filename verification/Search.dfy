/**
 * Governed search: the allowlist restriction inside every source, partition merge, fusion, the
 * optional judge, and the served results. BM25, cosine, the embedder and the judge are arbitrary.
 */
module Search {
  import opened Basics
  import opened Ordering
  import opened TopK
  import opened Fusion
  import opened Judging

  const TOP_K_MAX := 50
  const VECTOR_TOP_PER_PARTITION := 50

  /** One index partition: its ids in order, and its score for a query's tokens, if an id matches them. */
  datatype Partition = Partition(class_: string, members: seq<string>, bm25: (seq<string>, string) -> Option<real>)

  datatype Vectors = Vectors(modelId: string, dim: nat)

  datatype Engine = Engine(documentsHash: string, indexVersion: string, partitions: seq<Partition>,
                           vectors: Option<Vectors>)

  datatype EntryMeta = EntryMeta(reasons: seq<string>, superseded: bool, successor: Option<string>)

  datatype Scope = Scope(principal: string, snapshot: string, documentsHash: string, entries: map<string, EntryMeta>)

  /** The configured embedder; `cosine` is its verdict on this query, None when embedding failed. */
  datatype Embedder = Embedder(modelId: string, dim: nat, cosine: Option<string -> real>)

  /** The configured judge; `order` is whatever it answered, None when it failed. */
  datatype JudgeParams = JudgeParams(topK: nat, minCandidates: nat, maxRatio: real, order: Option<seq<string>>)

  datatype Options = Options(k: nat, includeSuperseded: bool, hybrid: Option<Embedder>, judge: Option<JudgeParams>)

  datatype Refusal =
    | TopKOutOfRange | CorpusMismatch | NoVectors | ModelMismatch | DimensionMismatch | JudgeNeedsVectors

  datatype Mode = LexicalOnly | Hybrid

  datatype ResultEntry = ResultEntry(documentId: string, successor: Option<string>, reasons: seq<string>,
                                     rank: nat, superseded: bool)

  datatype Envelope = Envelope(indexVersion: string, judgeApplied: bool, principal: string, results: seq<ResultEntry>,
                               mode: Mode, snapshot: string)

  // -------------------------------------------------------------------------
  // The stages as functions
  // -------------------------------------------------------------------------

  function Preflight(e: Engine, s: Scope, o: Options): Option<Refusal> {
    if o.k == 0 || o.k > TOP_K_MAX then Some(TopKOutOfRange)
    else if s.documentsHash != e.documentsHash then Some(CorpusMismatch)
    else if o.hybrid.Some? && e.vectors.None? then Some(NoVectors)
    else if o.hybrid.Some? && e.vectors.value.modelId != o.hybrid.value.modelId then Some(ModelMismatch)
    else if o.hybrid.Some? && e.vectors.value.dim != o.hybrid.value.dim then Some(DimensionMismatch)
    else if o.judge.Some? && e.vectors.None? then Some(JudgeNeedsVectors)
    else None
  }

  predicate Serveable(s: Scope, o: Options, id: string) {
    id in s.entries && (o.includeSuperseded || !s.entries[id].superseded)
  }

  function Restriction(s: Scope, o: Options, p: Partition): seq<string> {
    Filter(id => Serveable(s, o, id), p.members)
  }

  function Matches(p: Partition, tokens: seq<string>, ids: seq<string>): seq<Scored> {
    Collect((id: string) => match p.bm25(tokens, id) case Some(score) => Some(Scored(score, id)) case None => None, ids)
  }

  /** The library's partition search, taken on trust: the restriction's matches, best first, cut to k. */
  function SearchPartition(p: Partition, tokens: seq<string>, restriction: seq<string>, k: nat): seq<Scored> {
    Best(ScoredLe, Matches(p, tokens, restriction), k)
  }

  function Hits(s: Scope, o: Options, tokens: seq<string>): Partition -> seq<Scored> {
    p => SearchPartition(p, tokens, Restriction(s, o, p), o.k)
  }

  function Ids(scored: seq<Scored>): seq<string> {
    Map(IdOf, scored)
  }

  function LexicalRanking(e: Engine, s: Scope, o: Options, tokens: seq<string>): seq<string> {
    if tokens == [] then [] else Ids(Sort(ScoredLe, Flatten(Map(Hits(s, o, tokens), e.partitions))))
  }

  function CosineHits(s: Scope, o: Options, cosine: string -> real): Partition -> seq<Scored> {
    p => Best(ScoredLe, Map((id: string) => Scored(cosine(id), id), Restriction(s, o, p)), VECTOR_TOP_PER_PARTITION)
  }

  function VectorRanking(e: Engine, s: Scope, o: Options, cosine: string -> real): seq<string> {
    Ids(Sort(ScoredLe, Flatten(Map(CosineHits(s, o, cosine), e.partitions))))
  }

  predicate HybridRuns(o: Options, tokens: seq<string>) {
    o.hybrid.Some? && tokens != [] && o.hybrid.value.cosine.Some?
  }

  function Sources(e: Engine, s: Scope, o: Options, tokens: seq<string>): seq<seq<string>> {
    var lexical := LexicalRanking(e, s, o, tokens);
    if HybridRuns(o, tokens) then [lexical, VectorRanking(e, s, o, o.hybrid.value.cosine.value)] else [lexical]
  }

  function FusedScores(sources: seq<seq<string>>): seq<real> {
    Map((id: string) => Score(sources, id), Fused(sources))
  }

  /** The judge's ranking, when it was asked, eligible, answered, and named a candidate. */
  function Judged(o: Options, sources: seq<seq<string>>): Option<seq<string>> {
    if o.judge.None? then None
    else
      var j := o.judge.value;
      if !JudgeEligible(FusedScores(sources), j.minCandidates, j.maxRatio) || j.order.None? then None
      else Spliced(Fused(sources), j.topK, j.order.value)
  }

  /** The ranking a query serves the head of. */
  function FinalRanking(e: Engine, s: Scope, o: Options, tokens: seq<string>): seq<string> {
    var sources := Sources(e, s, o, tokens);
    Judged(o, sources).GetOr(Fused(sources))
  }

  function Entry(s: Scope, id: string, rank: nat): ResultEntry
    requires id in s.entries
  {
    var meta := s.entries[id];
    var successor := if meta.superseded && meta.successor.Some? && meta.successor.value in s.entries
                     then meta.successor else None;
    ResultEntry(id, successor, meta.reasons, rank, meta.superseded)
  }

  function Entries(s: Scope, ids: seq<string>): seq<ResultEntry>
    requires forall id :: id in ids ==> id in s.entries
  {
    seq(|ids|, i requires 0 <= i < |ids| => Entry(s, ids[i], i + 1))
  }

  ghost predicate AllAllowed(s: Scope, ids: seq<string>) {
    forall id :: id in ids ==> id in s.entries
  }

  /** The whole query, stage by stage. */
  function Answer(e: Engine, s: Scope, o: Options, tokens: seq<string>): Result<Envelope, Refusal> {
    var refusal := Preflight(e, s, o);
    if refusal.Some? then Err(refusal.value)
    else
      RankingIsAllowed(e, s, o, tokens);
      Ok(Envelope(e.indexVersion, Judged(o, Sources(e, s, o, tokens)).Some?, s.principal,
                  Entries(s, Take(FinalRanking(e, s, o, tokens), o.k)),
                  if HybridRuns(o, tokens) then Hybrid else LexicalOnly, s.snapshot))
  }

  // -------------------------------------------------------------------------
  // The core rule: nothing outside the allowlist at any stage
  // -------------------------------------------------------------------------

  ghost predicate ScoredServeable(s: Scope, o: Options, scored: seq<Scored>) {
    forall x :: x in scored ==> Serveable(s, o, x.id)
  }

  lemma HitsAreServeable(s: Scope, o: Options, tokens: seq<string>, p: Partition)
    ensures ScoredServeable(s, o, Hits(s, o, tokens)(p))
  {
    var restriction := Restriction(s, o, p);
    var matches := Matches(p, tokens, restriction);
    ScoredLeIsTotalOrder();
    BestIsBest(ScoredLe, matches, o.k);
    forall x | x in matches
      ensures Serveable(s, o, x.id)
    {
      CollectMembers((id: string) =>
        match p.bm25(tokens, id) case Some(score) => Some(Scored(score, id)) case None => None, restriction, x);
    }
  }

  lemma CosineHitsAreServeable(s: Scope, o: Options, cosine: string -> real, p: Partition)
    ensures ScoredServeable(s, o, CosineHits(s, o, cosine)(p))
  {
    var restriction := Restriction(s, o, p);
    var scored := Map((id: string) => Scored(cosine(id), id), restriction);
    ScoredLeIsTotalOrder();
    BestIsBest(ScoredLe, scored, VECTOR_TOP_PER_PARTITION);
    forall x | x in scored
      ensures Serveable(s, o, x.id)
    {
      var i :| 0 <= i < |scored| && scored[i] == x;
      assert restriction[i] in restriction;
    }
  }

  lemma FlattenedAreServeable(s: Scope, o: Options, lists: seq<seq<Scored>>)
    requires forall i :: 0 <= i < |lists| ==> ScoredServeable(s, o, lists[i])
    ensures ScoredServeable(s, o, Flatten(lists))
  {
    forall x: Scored | x in Flatten(lists)
      ensures Serveable(s, o, x.id)
    {
      FlattenMembers(lists, x);
    }
  }

  lemma SortedIdsAreServeable(s: Scope, o: Options, scored: seq<Scored>)
    requires ScoredServeable(s, o, scored)
    ensures forall id :: id in Ids(Sort(ScoredLe, scored)) ==> Serveable(s, o, id)
  {
    SortKeeps(ScoredLe, scored);
    var sorted := Sort(ScoredLe, scored);
    forall id | id in Ids(sorted)
      ensures Serveable(s, o, id)
    {
      var i :| 0 <= i < |sorted| && Ids(sorted)[i] == id;
      assert sorted[i] in sorted;
    }
  }

  lemma MergedAreServeable(s: Scope, o: Options, hits: Partition -> seq<Scored>, partitions: seq<Partition>)
    requires forall p :: p in partitions ==> ScoredServeable(s, o, hits(p))
    ensures ScoredServeable(s, o, Flatten(Map(hits, partitions)))
    ensures forall id :: id in Ids(Sort(ScoredLe, Flatten(Map(hits, partitions)))) ==> Serveable(s, o, id)
  {
    forall i | 0 <= i < |partitions|
      ensures ScoredServeable(s, o, Map(hits, partitions)[i])
    {
      assert partitions[i] in partitions;
    }
    FlattenedAreServeable(s, o, Map(hits, partitions));
    SortedIdsAreServeable(s, o, Flatten(Map(hits, partitions)));
  }

  /** Every ranking at every stage holds serveable documents only. */
  lemma RankingIsServeable(e: Engine, s: Scope, o: Options, tokens: seq<string>)
    ensures var sources := Sources(e, s, o, tokens);
            && (forall source, id :: source in sources && id in source ==> Serveable(s, o, id))
            && (forall id :: id in Fused(sources) ==> Serveable(s, o, id))
            && (forall id :: id in FinalRanking(e, s, o, tokens) ==> Serveable(s, o, id))
  {
    var sources := Sources(e, s, o, tokens);
    forall p | p in e.partitions
      ensures ScoredServeable(s, o, Hits(s, o, tokens)(p))
    {
      HitsAreServeable(s, o, tokens, p);
    }
    MergedAreServeable(s, o, Hits(s, o, tokens), e.partitions);
    if HybridRuns(o, tokens) {
      var cosine := o.hybrid.value.cosine.value;
      forall p | p in e.partitions
        ensures ScoredServeable(s, o, CosineHits(s, o, cosine)(p))
      {
        CosineHitsAreServeable(s, o, cosine, p);
      }
      MergedAreServeable(s, o, CosineHits(s, o, cosine), e.partitions);
    }
    FusedIsFusion(sources);
    if Judged(o, sources).Some? {
      JudgeOnlyPermutesHead(Fused(sources), o.judge.value.topK, o.judge.value.order.value);
      SameMultisetSameMembers(Judged(o, sources).value, Fused(sources));
    }
  }

  lemma RankingIsAllowed(e: Engine, s: Scope, o: Options, tokens: seq<string>)
    ensures AllAllowed(s, Take(FinalRanking(e, s, o, tokens), o.k))
  {
    RankingIsServeable(e, s, o, tokens);
    var ranking := FinalRanking(e, s, o, tokens);
    forall id | id in Take(ranking, o.k)
      ensures id in s.entries
    {
      assert id in ranking;
    }
  }

  ghost predicate Governed(s: Scope, o: Options, r: ResultEntry) {
    && r.documentId in s.entries && r.reasons == s.entries[r.documentId].reasons
    && (r.superseded ==> o.includeSuperseded)
    && (r.successor.Some? ==> r.superseded && r.successor.value in s.entries)
  }

  lemma EntriesAreGoverned(s: Scope, o: Options, ranking: seq<string>)
    requires forall id :: id in ranking ==> Serveable(s, o, id)
    requires AllAllowed(s, Take(ranking, o.k))
    ensures var results := Entries(s, Take(ranking, o.k));
            |results| <= o.k
            && forall i :: 0 <= i < |results| ==> Governed(s, o, results[i]) && results[i].rank == i + 1
  {
    var ids := Take(ranking, o.k);
    forall i | 0 <= i < |ids|
      ensures Governed(s, o, Entry(s, ids[i], i + 1))
    {
      assert ids[i] == ranking[i] && ranking[i] in ranking && Serveable(s, o, ranking[i]);
    }
  }

  /** Served results are in scope, in rank order, and never superseded unless that was asked for. */
  lemma ResultsAreGoverned(e: Engine, s: Scope, o: Options, tokens: seq<string>)
    requires Answer(e, s, o, tokens).Ok?
    ensures var results := Answer(e, s, o, tokens).value.results;
            |results| <= o.k
            && forall i :: 0 <= i < |results| ==> Governed(s, o, results[i]) && results[i].rank == i + 1
  {
    RankingIsServeable(e, s, o, tokens);
    RankingIsAllowed(e, s, o, tokens);
    EntriesAreGoverned(s, o, FinalRanking(e, s, o, tokens));
  }

  // -------------------------------------------------------------------------
  // Lexical search is the best k of the whole corpus
  // -------------------------------------------------------------------------

  /** Partitions hold no id twice, within one or across two. */
  ghost predicate Disjoint(partitions: seq<Partition>) {
    Distinct(Flatten(Map(Members, partitions)))
  }

  function Members(p: Partition): seq<string> {
    p.members
  }

  function ServeableMatches(s: Scope, o: Options, tokens: seq<string>): Partition -> seq<Scored> {
    p => Matches(p, tokens, Restriction(s, o, p))
  }

  /** Every serveable match of the corpus, with its score. */
  function AllMatches(e: Engine, s: Scope, o: Options, tokens: seq<string>): seq<Scored> {
    Flatten(Map(ServeableMatches(s, o, tokens), e.partitions))
  }

  /** The flat specification: sort all matches of the corpus, serve the first k. */
  function FlatResults(e: Engine, s: Scope, o: Options, tokens: seq<string>): seq<string> {
    if tokens == [] then [] else Ids(Best(ScoredLe, AllMatches(e, s, o, tokens), o.k))
  }

  /** Merging per-partition lists and cutting to k is sorting everything and cutting to k. */
  lemma MergeIsFlat(e: Engine, s: Scope, o: Options, tokens: seq<string>)
    ensures Take(LexicalRanking(e, s, o, tokens), o.k) == FlatResults(e, s, o, tokens)
  {
    if tokens != [] {
      ScoredLeIsTotalOrder();
      var parts := Map(ServeableMatches(s, o, tokens), e.partitions);
      BestOfParts(ScoredLe, parts, o.k);
      assert CutParts(ScoredLe, parts, o.k) == Map(Hits(s, o, tokens), e.partitions);
      TakeOfIds(Sort(ScoredLe, Flatten(Map(Hits(s, o, tokens), e.partitions))), o.k);
    }
  }

  lemma TakeOfIds(scored: seq<Scored>, k: nat)
    ensures Take(Ids(scored), k) == Ids(Take(scored, k))
  {
  }

  /** How often an id occurs. */
  ghost function Count(ids: seq<string>, id: string): nat {
    multiset(ids)[id]
  }

  lemma CountConcat(a: seq<string>, b: seq<string>, id: string)
    ensures Count(a + b, id) == Count(a, id) + Count(b, id)
  {
    assert multiset(a + b) == multiset(a) + multiset(b);
  }

  lemma {:induction false} FilterCounts(keep: string -> bool, ids: seq<string>, id: string)
    ensures Count(Filter(keep, ids), id) <= Count(ids, id)
  {
    if ids != [] {
      assert ids == [ids[0]] + ids[1..];
      FilterCounts(keep, ids[1..], id);
      CountConcat([ids[0]], ids[1..], id);
      CountConcat([ids[0]], Filter(keep, ids[1..]), id);
    }
  }

  lemma {:induction false} MatchesCount(p: Partition, tokens: seq<string>, ids: seq<string>, id: string)
    ensures Count(Ids(Matches(p, tokens, ids)), id) <= Count(ids, id)
  {
    if ids != [] {
      var n := |ids| - 1;
      assert ids == ids[..n] + [ids[n]];
      MatchesCount(p, tokens, ids[..n], id);
      CountConcat(ids[..n], [ids[n]], id);
      if p.bm25(tokens, ids[n]).Some? {
        var before := Ids(Matches(p, tokens, ids[..n]));
        assert Ids(Matches(p, tokens, ids)) == before + [ids[n]];
        CountConcat(before, [ids[n]], id);
      }
    }
  }

  lemma CutCounts(scored: seq<Scored>, k: nat, id: string)
    ensures Count(Ids(Best(ScoredLe, scored, k)), id) <= Count(Ids(scored), id)
  {
    var sorted := Sort(ScoredLe, scored);
    MapOfPermutation(IdOf, sorted, scored);
    assert Ids(sorted) == Ids(Take(sorted, k)) + Ids(sorted[|Take(sorted, k)|..]);
    CountConcat(Ids(Take(sorted, k)), Ids(sorted[|Take(sorted, k)|..]), id);
  }

  lemma {:induction false} MergedCounts(s: Scope, o: Options, tokens: seq<string>, partitions: seq<Partition>,
                                        id: string)
    ensures Count(Ids(Flatten(Map(Hits(s, o, tokens), partitions))), id)
         <= Count(Flatten(Map(Members, partitions)), id)
  {
    if partitions != [] {
      var p, rest := partitions[0], partitions[1..];
      var hits := Hits(s, o, tokens);
      assert Map(hits, partitions)[1..] == Map(hits, rest) && Map(Members, partitions)[1..] == Map(Members, rest);
      MergedCounts(s, o, tokens, rest, id);
      CountConcat(p.members, Flatten(Map(Members, rest)), id);
      assert Ids(hits(p) + Flatten(Map(hits, rest))) == Ids(hits(p)) + Ids(Flatten(Map(hits, rest)));
      CountConcat(Ids(hits(p)), Ids(Flatten(Map(hits, rest))), id);
      var restriction := Restriction(s, o, p);
      CutCounts(Matches(p, tokens, restriction), o.k, id);
      MatchesCount(p, tokens, restriction, id);
      FilterCounts(id => Serveable(s, o, id), p.members, id);
    }
  }

  /** Over disjoint partitions no document is ranked twice. */
  lemma RankingIsDistinct(e: Engine, s: Scope, o: Options, tokens: seq<string>)
    requires Disjoint(e.partitions)
    ensures Distinct(LexicalRanking(e, s, o, tokens))
  {
    if tokens != [] {
      var merged := Flatten(Map(Hits(s, o, tokens), e.partitions));
      MapOfPermutation(IdOf, Sort(ScoredLe, merged), merged);
      forall id
        ensures multiset(LexicalRanking(e, s, o, tokens))[id] <= 1
      {
        MergedCounts(s, o, tokens, e.partitions, id);
        DistinctMultiplicity(Flatten(Map(Members, e.partitions)), id);
      }
      MultiplicityDistinct(LexicalRanking(e, s, o, tokens));
    }
  }

  function ResultIds(results: seq<ResultEntry>): seq<string> {
    Map((r: ResultEntry) => r.documentId, results)
  }

  lemma EntriesKeepIds(s: Scope, ids: seq<string>)
    requires AllAllowed(s, ids)
    ensures ResultIds(Entries(s, ids)) == ids
  {
  }

  lemma ServedIds(e: Engine, s: Scope, o: Options, tokens: seq<string>)
    requires Answer(e, s, o, tokens).Ok?
    ensures ResultIds(Answer(e, s, o, tokens).value.results) == Take(FinalRanking(e, s, o, tokens), o.k)
  {
    RankingIsAllowed(e, s, o, tokens);
    EntriesKeepIds(s, Take(FinalRanking(e, s, o, tokens), o.k));
  }

  lemma LexicalIsFinal(e: Engine, s: Scope, o: Options, tokens: seq<string>)
    requires Disjoint(e.partitions) && !HybridRuns(o, tokens) && o.judge.None?
    ensures FinalRanking(e, s, o, tokens) == LexicalRanking(e, s, o, tokens)
  {
    RankingIsDistinct(e, s, o, tokens);
    SingleSourceUnchanged(LexicalRanking(e, s, o, tokens));
  }

  /** Lexical search, partitions, fusion and all, serves exactly the best k matches of the whole corpus. */
  lemma LexicalRefinesFlat(e: Engine, s: Scope, o: Options, tokens: seq<string>)
    requires Disjoint(e.partitions) && !HybridRuns(o, tokens) && o.judge.None?
    requires Answer(e, s, o, tokens).Ok?
    ensures ResultIds(Answer(e, s, o, tokens).value.results) == FlatResults(e, s, o, tokens)
  {
    LexicalIsFinal(e, s, o, tokens);
    MergeIsFlat(e, s, o, tokens);
    ServedIds(e, s, o, tokens);
  }

  /** And the flat result is the best: any serveable match left out comes no earlier than any served. */
  lemma FlatIsBest(e: Engine, s: Scope, o: Options, tokens: seq<string>, left: Scored, i: nat)
    requires tokens != [] && left in AllMatches(e, s, o, tokens) && i < |FlatResults(e, s, o, tokens)|
    requires left !in Best(ScoredLe, AllMatches(e, s, o, tokens), o.k)
    ensures |FlatResults(e, s, o, tokens)| == o.k
    ensures exists x :: x in AllMatches(e, s, o, tokens) && x.id == FlatResults(e, s, o, tokens)[i] && ScoredLe(x, left)
  {
    ScoredLeIsTotalOrder();
    var all := AllMatches(e, s, o, tokens);
    BestIsBest(ScoredLe, all, o.k);
    SortKeeps(ScoredLe, all);
    var x := Best(ScoredLe, all, o.k)[i];
    assert x in Best(ScoredLe, all, o.k);
  }

  // -------------------------------------------------------------------------
  // Degradation
  // -------------------------------------------------------------------------

  /** A hybrid query whose embedder fails, or that has no tokens, is answered with the lexical envelope. */
  lemma FailedEmbeddingIsLexical(e: Engine, s: Scope, o: Options, tokens: seq<string>)
    requires o.hybrid.Some? && (o.hybrid.value.cosine.None? || tokens == [])
    requires Answer(e, s, o, tokens).Ok?
    ensures Answer(e, s, o, tokens) == Answer(e, s, o.(hybrid := None), tokens)
  {
    var o' := o.(hybrid := None);
    forall p
      ensures Restriction(s, o, p) == Restriction(s, o', p)
    {
      SameFilter(id => Serveable(s, o, id), id => Serveable(s, o', id), p.members);
    }
    assert Map(Hits(s, o, tokens), e.partitions) == Map(Hits(s, o', tokens), e.partitions);
  }

  lemma {:induction false} SameFilter(f: string -> bool, g: string -> bool, ids: seq<string>)
    requires forall id :: f(id) == g(id)
    ensures Filter(f, ids) == Filter(g, ids)
  {
    if ids != [] {
      SameFilter(f, g, ids[1..]);
    }
  }

  /** A judge that is elided, fails, or names no candidate leaves the fused order standing. */
  lemma UnusedJudgeChangesNothing(e: Engine, s: Scope, o: Options, tokens: seq<string>)
    requires Answer(e, s, o, tokens).Ok? && !Answer(e, s, o, tokens).value.judgeApplied
    ensures Answer(e, s, o.(judge := None), tokens) == Answer(e, s, o, tokens)
  {
    var o' := o.(judge := None);
    forall p
      ensures Restriction(s, o, p) == Restriction(s, o', p)
    {
      SameFilter(id => Serveable(s, o, id), id => Serveable(s, o', id), p.members);
    }
    assert Map(Hits(s, o, tokens), e.partitions) == Map(Hits(s, o', tokens), e.partitions);
    if HybridRuns(o, tokens) {
      var cosine := o.hybrid.value.cosine.value;
      assert Map(CosineHits(s, o, cosine), e.partitions) == Map(CosineHits(s, o', cosine), e.partitions);
    }
  }

  // -------------------------------------------------------------------------
  // The trace: every stage, in order
  // -------------------------------------------------------------------------

  datatype Stage = Stage(name: string, ids: seq<string>)

  datatype Trace = Trace(stages: seq<Stage>, active: seq<string>, degraded: bool, eligible: Option<bool>,
                         judgeFaults: nat, judgeFailed: bool)

  const EMPTY_TRACE := Trace([], [], false, None, 0, false)

  /** The partitions a query opens: those with something serveable in them, none for a query without tokens. */
  predicate Opens(s: Scope, o: Options, p: Partition) {
    Restriction(s, o, p) != []
  }

  function OpenFor(s: Scope, o: Options): Partition -> bool {
    (p: Partition) => Opens(s, o, p)
  }

  function Opened(e: Engine, s: Scope, o: Options, tokens: seq<string>): seq<Partition> {
    if tokens == [] then [] else Filter(OpenFor(s, o), e.partitions)
  }

  function ClassOf(): Partition -> string {
    (p: Partition) => p.class_
  }

  function RestrictionStage(s: Scope, o: Options): Partition -> Stage {
    (p: Partition) => Stage("restriction:" + p.class_, Restriction(s, o, p))
  }

  function LexicalStage(s: Scope, o: Options, tokens: seq<string>): Partition -> Stage {
    (p: Partition) => Stage("scored:" + p.class_, Ids(Hits(s, o, tokens)(p)))
  }

  function VectorStages(s: Scope, o: Options, cosine: string -> real): Partition -> seq<Stage> {
    (p: Partition) =>
      [Stage("vector_candidates:" + p.class_, Restriction(s, o, p)),
       Stage("vector_scored:" + p.class_, Ids(CosineHits(s, o, cosine)(p)))]
  }

  function LexicalStages(e: Engine, s: Scope, o: Options, tokens: seq<string>): seq<Stage> {
    var active := Opened(e, s, o, tokens);
    Map(RestrictionStage(s, o), active) + Map(LexicalStage(s, o, tokens), active)
    + [Stage("bm25_merged", LexicalRanking(e, s, o, tokens))]
  }

  function HybridStages(e: Engine, s: Scope, o: Options, tokens: seq<string>): seq<Stage> {
    if !HybridRuns(o, tokens) then []
    else
      var cosine := o.hybrid.value.cosine.value;
      Flatten(Map(VectorStages(s, o, cosine), Opened(e, s, o, tokens)))
      + [Stage("vector_merged", VectorRanking(e, s, o, cosine))]
  }

  function Eligible(o: Options, sources: seq<seq<string>>): Option<bool> {
    if o.judge.None? then None
    else Some(JudgeEligible(FusedScores(sources), o.judge.value.minCandidates, o.judge.value.maxRatio))
  }

  /** The judge's foreign ids, when it was asked and answered. */
  function Faults(o: Options, sources: seq<seq<string>>): nat {
    if Eligible(o, sources) != Some(true) || o.judge.value.order.None? then 0
    else |Filter(NotMemberOf(Take(Fused(sources), o.judge.value.topK)), o.judge.value.order.value)|
  }

  function SourceStages(e: Engine, s: Scope, o: Options, tokens: seq<string>): seq<Stage> {
    LexicalStages(e, s, o, tokens) + HybridStages(e, s, o, tokens)
  }

  /** The judge's window before and after. */
  function JudgeStages(o: Options, sources: seq<seq<string>>): seq<Stage> {
    if Eligible(o, sources) != Some(true) then []
    else
      var topK, judged := o.judge.value.topK, Judged(o, sources);
      [Stage("judge_input", Take(Fused(sources), topK))]
      + if judged.Some? then [Stage("judge_output", Take(judged.value, topK))] else []
  }

  /** From fusion on: the fused order, the judge's window, the results. */
  function RankingStages(o: Options, sources: seq<seq<string>>): seq<Stage> {
    [Stage("fused", Fused(sources))] + JudgeStages(o, sources)
    + [Stage("results", Take(Judged(o, sources).GetOr(Fused(sources)), o.k))]
  }

  /** The whole trace, given the listing of the serveable set it starts with. */
  function TraceOf(e: Engine, s: Scope, o: Options, tokens: seq<string>, serveable: seq<string>): Trace {
    var sources := Sources(e, s, o, tokens);
    Trace([Stage("serveable_allowlist", serveable)] + SourceStages(e, s, o, tokens) + RankingStages(o, sources),
          Map(ClassOf(), Opened(e, s, o, tokens)),
          o.hybrid.Some? && tokens != [] && o.hybrid.value.cosine.None?,
          Eligible(o, sources), Faults(o, sources), Eligible(o, sources) == Some(true) && Judged(o, sources).None?)
  }

  /** The serveable documents, once each, by id. */
  ghost predicate ListsServeable(s: Scope, o: Options, ids: seq<string>) {
    && Distinct(ids) && SortedBy(StringLe, ids)
    && forall id :: id in ids <==> Serveable(s, o, id)
  }

  ghost predicate StageInScope(s: Scope, stage: Stage) {
    AllAllowed(s, stage.ids)
  }

  ghost predicate TraceInScope(s: Scope, stages: seq<Stage>) {
    forall stage :: stage in stages ==> StageInScope(s, stage)
  }

  lemma ScoredAllowed(s: Scope, o: Options, scored: seq<Scored>)
    requires ScoredServeable(s, o, scored)
    ensures AllAllowed(s, Ids(scored))
  {
    forall id | id in Ids(scored)
      ensures id in s.entries
    {
      var i :| 0 <= i < |scored| && Ids(scored)[i] == id;
      assert scored[i] in scored;
    }
  }

  lemma MappedInScope(s: Scope, stage: Partition -> Stage, active: seq<Partition>)
    requires forall p :: StageInScope(s, stage(p))
    ensures TraceInScope(s, Map(stage, active))
  {
    forall x | x in Map(stage, active)
      ensures StageInScope(s, x)
    {
      var i :| 0 <= i < |active| && Map(stage, active)[i] == x;
    }
  }

  lemma LexicalStagesInScope(e: Engine, s: Scope, o: Options, tokens: seq<string>)
    ensures TraceInScope(s, LexicalStages(e, s, o, tokens))
  {
    var active := Opened(e, s, o, tokens);
    forall p
      ensures StageInScope(s, LexicalStage(s, o, tokens)(p))
    {
      HitsAreServeable(s, o, tokens, p);
      ScoredAllowed(s, o, Hits(s, o, tokens)(p));
    }
    MappedInScope(s, RestrictionStage(s, o), active);
    MappedInScope(s, LexicalStage(s, o, tokens), active);
    RankingIsServeable(e, s, o, tokens);
    assert LexicalRanking(e, s, o, tokens) in Sources(e, s, o, tokens);
    assert StageInScope(s, Stage("bm25_merged", LexicalRanking(e, s, o, tokens)));
  }

  lemma HybridStagesInScope(e: Engine, s: Scope, o: Options, tokens: seq<string>)
    ensures TraceInScope(s, HybridStages(e, s, o, tokens))
  {
    if HybridRuns(o, tokens) {
      var cosine, active := o.hybrid.value.cosine.value, Opened(e, s, o, tokens);
      var lists := Map(VectorStages(s, o, cosine), active);
      forall stage | stage in Flatten(lists)
        ensures StageInScope(s, stage)
      {
        FlattenMembers(lists, stage);
        var i :| 0 <= i < |lists| && stage in lists[i];
        CosineHitsAreServeable(s, o, cosine, active[i]);
        ScoredAllowed(s, o, CosineHits(s, o, cosine)(active[i]));
      }
      RankingIsServeable(e, s, o, tokens);
      assert VectorRanking(e, s, o, cosine) in Sources(e, s, o, tokens);
      assert StageInScope(s, Stage("vector_merged", VectorRanking(e, s, o, cosine)));
    }
  }

  lemma TakeAllowed(s: Scope, ids: seq<string>, k: nat)
    requires AllAllowed(s, ids)
    ensures AllAllowed(s, Take(ids, k))
  {
    forall id | id in Take(ids, k)
      ensures id in ids
    {
    }
  }

  lemma JudgeStagesInScope(s: Scope, o: Options, sources: seq<seq<string>>)
    requires AllAllowed(s, Fused(sources)) && AllAllowed(s, Judged(o, sources).GetOr(Fused(sources)))
    ensures TraceInScope(s, JudgeStages(o, sources))
  {
    if Eligible(o, sources) == Some(true) {
      WindowInScope(s, "judge_input", Fused(sources), o.judge.value.topK);
      WindowInScope(s, "judge_output", Judged(o, sources).GetOr(Fused(sources)), o.judge.value.topK);
    }
  }

  lemma WindowInScope(s: Scope, name: string, ids: seq<string>, k: nat)
    requires AllAllowed(s, ids)
    ensures StageInScope(s, Stage(name, Take(ids, k)))
  {
    TakeAllowed(s, ids, k);
  }

  lemma RankingStagesInScope(e: Engine, s: Scope, o: Options, tokens: seq<string>)
    ensures TraceInScope(s, RankingStages(o, Sources(e, s, o, tokens)))
  {
    var sources := Sources(e, s, o, tokens);
    RankingsAllowed(e, s, o, tokens);
    JudgeStagesInScope(s, o, sources);
    TakeAllowed(s, FinalRanking(e, s, o, tokens), o.k);
  }

  lemma RankingsAllowed(e: Engine, s: Scope, o: Options, tokens: seq<string>)
    ensures AllAllowed(s, Fused(Sources(e, s, o, tokens))) && AllAllowed(s, FinalRanking(e, s, o, tokens))
  {
    RankingIsServeable(e, s, o, tokens);
  }

  /** The governance law: every id that any stage of any query records is in the allowlist. */
  lemma TraceStaysInScope(e: Engine, s: Scope, o: Options, tokens: seq<string>, serveable: seq<string>)
    requires ListsServeable(s, o, serveable)
    ensures TraceInScope(s, TraceOf(e, s, o, tokens, serveable).stages)
  {
    LexicalStagesInScope(e, s, o, tokens);
    HybridStagesInScope(e, s, o, tokens);
    RankingStagesInScope(e, s, o, tokens);
  }

  // -------------------------------------------------------------------------
  // The engine's search, as its loops compute it
  // -------------------------------------------------------------------------

  /** Sources over the open partitions alone: closed ones would contribute nothing. */
  lemma {:induction false} ClosedContributeNothing(s: Scope, o: Options, hits: Partition -> seq<Scored>,
                                                   partitions: seq<Partition>)
    requires forall p :: !Opens(s, o, p) ==> hits(p) == []
    ensures Flatten(Map(hits, Filter(OpenFor(s, o), partitions))) == Flatten(Map(hits, partitions))
  {
    if partitions != [] {
      var p, rest := partitions[0], partitions[1..];
      var active := Filter(OpenFor(s, o), rest);
      ClosedContributeNothing(s, o, hits, rest);
      assert Map(hits, partitions)[1..] == Map(hits, rest);
      if Opens(s, o, p) {
        assert Map(hits, [p] + active)[1..] == Map(hits, active);
      } else {
        assert Filter(OpenFor(s, o), partitions) == active;
        assert [] + Flatten(Map(hits, rest)) == Flatten(Map(hits, rest));
      }
    }
  }

  method ListServeable(s: Scope, o: Options) returns (ids: seq<string>)
    ensures ListsServeable(s, o, ids)
  {
    ids := [];
    var left := s.entries.Keys;
    while left != {}
      invariant left <= s.entries.Keys && Distinct(ids)
      invariant forall id :: id in ids <==> Serveable(s, o, id) && id !in left
      decreases left
    {
      var id :| id in left;
      left := left - {id};
      if Serveable(s, o, id) {
        ids := ids + [id];
      }
    }
    StringLeIsTotalOrder();
    SortSorted(StringLe, ids);
    SortKeeps(StringLe, ids);
    ids := Sort(StringLe, ids);
  }

  lemma OpenStep(s: Scope, o: Options, partitions: seq<Partition>, i: nat)
    requires i < |partitions|
    ensures var p, before := partitions[i], Filter(OpenFor(s, o), partitions[..i]);
            && Filter(OpenFor(s, o), partitions[..i + 1]) == (if Opens(s, o, p) then before + [p] else before)
            && Map(RestrictionStage(s, o), before + [p])
            == Map(RestrictionStage(s, o), before) + [RestrictionStage(s, o)(p)]
  {
    assert partitions[..i + 1] == partitions[..i] + [partitions[i]];
    FilterSnoc(OpenFor(s, o), partitions[..i], partitions[i]);
  }

  /** Opens the partitions that hold something serveable, in class order. */
  method OpenPartitions(e: Engine, s: Scope, o: Options, tokens: seq<string>)
    returns (active: seq<Partition>, stages: seq<Stage>)
    ensures active == Opened(e, s, o, tokens) && stages == Map(RestrictionStage(s, o), active)
  {
    active, stages := [], [];
    if tokens != [] {
      for i := 0 to |e.partitions|
        invariant active == Filter(OpenFor(s, o), e.partitions[..i])
        invariant stages == Map(RestrictionStage(s, o), active)
      {
        var p := e.partitions[i];
        OpenStep(s, o, e.partitions, i);
        var restriction := Restriction(s, o, p);
        if restriction == [] {
          continue;
        }
        stages := stages + [Stage("restriction:" + p.class_, restriction)];
        active := active + [p];
      }
      assert e.partitions[..|e.partitions|] == e.partitions;
    }
  }

  /** One source: the hits of each open partition, traced, pushed together and sorted once. */
  method RankSource(active: seq<Partition>, hits: Partition -> seq<Scored>, stagesOf: Partition -> seq<Stage>)
    returns (ranking: seq<string>, stages: seq<Stage>)
    ensures ranking == Ids(Sort(ScoredLe, Flatten(Map(hits, active))))
    ensures stages == Flatten(Map(stagesOf, active))
  {
    var scored: seq<Scored> := [];
    stages := [];
    for i := 0 to |active|
      invariant scored == Flatten(Map(hits, active[..i])) && stages == Flatten(Map(stagesOf, active[..i]))
    {
      assert Map(hits, active[..i + 1]) == Map(hits, active[..i]) + [hits(active[i])];
      assert Map(stagesOf, active[..i + 1]) == Map(stagesOf, active[..i]) + [stagesOf(active[i])];
      FlattenSnoc(Map(hits, active[..i]), hits(active[i]));
      FlattenSnoc(Map(stagesOf, active[..i]), stagesOf(active[i]));
      stages := stages + stagesOf(active[i]);
      scored := scored + hits(active[i]);
    }
    assert active[..|active|] == active;
    ranking := Ids(Sort(ScoredLe, scored));
  }

  function Single<T, U>(f: T -> U): T -> seq<U> {
    (x: T) => [f(x)]
  }

  lemma {:induction false} FlattenOfSingles<T, U>(f: T -> U, s: seq<T>)
    ensures Flatten(Map(Single(f), s)) == Map(f, s)
  {
    if s != [] {
      assert Map(Single(f), s)[1..] == Map(Single(f), s[1..]);
      FlattenOfSingles(f, s[1..]);
    }
  }

  lemma OneSource(e: Engine, s: Scope, o: Options, tokens: seq<string>, hits: Partition -> seq<Scored>)
    requires forall p :: !Opens(s, o, p) ==> hits(p) == []
    ensures tokens != [] ==> Flatten(Map(hits, Opened(e, s, o, tokens))) == Flatten(Map(hits, e.partitions))
    ensures tokens == [] ==> Ids(Sort(ScoredLe, Flatten(Map(hits, Opened(e, s, o, tokens))))) == []
  {
    ClosedContributeNothing(s, o, hits, e.partitions);
    assert Map(hits, []) == [];
  }

  method RankLexical(e: Engine, s: Scope, o: Options, tokens: seq<string>, active: seq<Partition>)
    returns (ranking: seq<string>, stages: seq<Stage>)
    requires active == Opened(e, s, o, tokens)
    ensures ranking == LexicalRanking(e, s, o, tokens)
    ensures stages == Map(LexicalStage(s, o, tokens), active)
  {
    OneSource(e, s, o, tokens, Hits(s, o, tokens));
    FlattenOfSingles(LexicalStage(s, o, tokens), active);
    ranking, stages := RankSource(active, Hits(s, o, tokens), Single(LexicalStage(s, o, tokens)));
  }

  method RankVector(e: Engine, s: Scope, o: Options, tokens: seq<string>, active: seq<Partition>)
    returns (ranking: seq<string>, stages: seq<Stage>)
    requires active == Opened(e, s, o, tokens) && HybridRuns(o, tokens)
    ensures ranking == VectorRanking(e, s, o, o.hybrid.value.cosine.value)
    ensures stages + [Stage("vector_merged", ranking)] == HybridStages(e, s, o, tokens)
  {
    var cosine := o.hybrid.value.cosine.value;
    OneSource(e, s, o, tokens, CosineHits(s, o, cosine));
    ranking, stages := RankSource(active, CosineHits(s, o, cosine), VectorStages(s, o, cosine));
  }

  /** Both sources over the open partitions, the vector one only when the embedder answers. */
  method RankSources(e: Engine, s: Scope, o: Options, tokens: seq<string>)
    returns (sources: seq<seq<string>>, active: seq<Partition>, mode: Mode, degraded: bool, stages: seq<Stage>)
    ensures sources == Sources(e, s, o, tokens) && active == Opened(e, s, o, tokens)
    ensures mode == (if HybridRuns(o, tokens) then Hybrid else LexicalOnly)
    ensures degraded <==> o.hybrid.Some? && tokens != [] && o.hybrid.value.cosine.None?
    ensures stages == SourceStages(e, s, o, tokens)
  {
    active, stages := OpenPartitions(e, s, o, tokens);
    var lexical, lexicalStages := RankLexical(e, s, o, tokens, active);
    stages := stages + lexicalStages + [Stage("bm25_merged", lexical)];
    sources, mode, degraded := [lexical], LexicalOnly, false;
    if o.hybrid.Some? && tokens != [] {
      if o.hybrid.value.cosine.None? {
        degraded := true;
      } else {
        var vector, vectorStages := RankVector(e, s, o, tokens, active);
        stages := stages + (vectorStages + [Stage("vector_merged", vector)]);
        sources, mode := sources + [vector], Hybrid;
      }
    }
  }

  /** The judge's turn: elided, failed, or spliced into the head of the fused order. */
  method AskJudge(o: Options, sources: seq<seq<string>>, fused: seq<string>)
    returns (judged: Option<seq<string>>, eligible: Option<bool>, faults: nat, failed: bool, stages: seq<Stage>)
    requires fused == Fused(sources)
    ensures judged == Judged(o, sources) && eligible == Eligible(o, sources) && faults == Faults(o, sources)
    ensures failed <==> eligible == Some(true) && judged.None?
    ensures stages == JudgeStages(o, sources)
  {
    judged, eligible, faults, failed, stages := None, None, 0, false, [];
    if o.judge.Some? {
      var j := o.judge.value;
      eligible := Some(JudgeEligible(FusedScores(sources), j.minCandidates, j.maxRatio));
      if eligible.value {
        stages := [Stage("judge_input", Take(fused, j.topK))];
        if j.order.None? {
          failed := true;
        } else {
          judged, faults := ApplyJudge(fused, j.topK, j.order.value);
          if judged.None? {
            failed := true;
          } else {
            stages := stages + [Stage("judge_output", Take(judged.value, j.topK))];
          }
        }
      }
    }
  }

  /** Builds the served entries one by one. */
  method Serve(s: Scope, ranking: seq<string>, k: nat) returns (results: seq<ResultEntry>)
    requires AllAllowed(s, Take(ranking, k))
    ensures results == Entries(s, Take(ranking, k))
  {
    results := [];
    for i := 0 to |Take(ranking, k)|
      invariant |results| == i && forall j :: 0 <= j < i ==> results[j] == Entry(s, Take(ranking, k)[j], j + 1)
    {
      var id := Take(ranking, k)[i];
      assert id in Take(ranking, k);
      results := results + [Entry(s, id, i + 1)];
    }
  }

  /** The governed search: its answer is `Answer`, its trace is `TraceOf`, and a refusal leaves no trace. */
  method Search(e: Engine, s: Scope, o: Options, tokens: seq<string>)
    returns (reply: Result<Envelope, Refusal>, trace: Trace)
    ensures reply == Answer(e, s, o, tokens)
    ensures reply.Err? ==> trace == EMPTY_TRACE
    ensures reply.Ok? ==> trace.stages != [] && ListsServeable(s, o, trace.stages[0].ids)
                          && trace == TraceOf(e, s, o, tokens, trace.stages[0].ids)
  {
    var refusal := Preflight(e, s, o);
    if refusal.Some? {
      return Err(refusal.value), EMPTY_TRACE;
    }
    var serveable := ListServeable(s, o);
    var sources, active, mode, degraded, sourceStages := RankSources(e, s, o, tokens);
    var fused := Fuse(sources);
    var judged, eligible, faults, failed, judgeStages := AskJudge(o, sources, fused);
    RankingIsAllowed(e, s, o, tokens);
    var results := Serve(s, judged.GetOr(fused), o.k);
    trace := Trace([Stage("serveable_allowlist", serveable)] + sourceStages
                   + ([Stage("fused", fused)] + judgeStages + [Stage("results", Take(judged.GetOr(fused), o.k))]),
                   Map(ClassOf(), active), degraded, eligible, faults, failed);
    reply := Ok(Envelope(e.indexVersion, judged.Some?, s.principal, results, mode, s.snapshot));
  }
}
