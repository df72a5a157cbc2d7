/**
 * The estate's inverted index: postings built once, candidates formed from the query's posting lists under the
 * tier rule, ranked by token overlap. Tokenising is an arbitrary function of the text.
 */
module Estate {
  import opened Basics
  import opened Ordering

  type Tokenizer = string -> set<string>

  datatype Entry = Entry(docId: string, title: string, body: string, sensitivity: string, source: string)

  datatype IndexedDoc = IndexedDoc(title: string, body: string, sensitivity: string, source: string,
                                   tokens: set<string>)

  datatype EstateIndex = EstateIndex(docs: map<string, IndexedDoc>, postings: map<string, seq<string>>)

  datatype Candidate = Candidate(docId: string, title: string, body: string, source: string)

  /** Tier levels of sensitivities and of the estate's agents. */
  datatype Tiers = Tiers(levels: map<string, nat>, agents: map<string, nat>)

  predicate CanRead(t: Tiers, principal: string, sensitivity: string) {
    principal in t.agents && sensitivity in t.levels && t.levels[sensitivity] <= t.agents[principal]
  }

  // -------------------------------------------------------------------------
  // The naive scan: what retrieval is for
  // -------------------------------------------------------------------------

  datatype Hit = Hit(overlap: nat, id: string)

  predicate HitLe(a: Hit, b: Hit) {
    a.overlap > b.overlap || (a.overlap == b.overlap && StringLe(a.id, b.id))
  }

  lemma HitLeIsTotalOrder()
    ensures TotalOrder(HitLe)
  {
    StringLeIsTotalOrder();
    assert forall x: Hit, y: Hit :: StringLe(x.id, y.id) || StringLe(y.id, x.id);
  }

  function EntryId(): Entry -> string {
    (e: Entry) => e.docId
  }

  /** The entry that counts for an id: the last one. */
  function LastEntry(entries: seq<Entry>, id: string): Option<Entry> {
    if entries == [] then None
    else if entries[|entries| - 1].docId == id then Some(entries[|entries| - 1])
    else LastEntry(entries[..|entries| - 1], id)
  }

  function HitFor(tokenize: Tokenizer, entries: seq<Entry>, query: set<string>, authorized: string -> bool)
    : string -> Option<Hit>
  {
    (id: string) =>
      var e := LastEntry(entries, id);
      if e.Some? && authorized(e.value.sensitivity) && query * tokenize(e.value.body) != {}
      then Some(Hit(|query * tokenize(e.value.body)|, id)) else None
  }

  /** Read every document, keep the authorised ones sharing a token with the query, sort. */
  function NaiveScan(tokenize: Tokenizer, entries: seq<Entry>, query: set<string>, authorized: string -> bool)
    : seq<Hit>
  {
    Sort(HitLe, Collect(HitFor(tokenize, entries, query, authorized), Dedupe(Map(EntryId(), entries))))
  }

  /** A document as it is shown: by the entry that counts for its id. */
  function ShownEntry(entries: seq<Entry>): Hit -> Candidate {
    (h: Hit) =>
      var e := LastEntry(entries, h.id).GetOr(Entry(h.id, "", "", "", ""));
      Candidate(e.docId, e.title, e.body, e.source)
  }

  /** What a caller is shown: the first k of the naive scan. */
  function Answers(tokenize: Tokenizer, entries: seq<Entry>, query: set<string>, k: nat, authorized: string -> bool)
    : seq<Candidate>
  {
    Map(ShownEntry(entries), Take(NaiveScan(tokenize, entries, query, authorized), k))
  }

  // -------------------------------------------------------------------------
  // Building
  // -------------------------------------------------------------------------

  function Indexed(tokenize: Tokenizer, e: Entry): IndexedDoc {
    IndexedDoc(e.title, e.body, e.sensitivity, e.source, tokenize(e.body))
  }

  function Latest(tokenize: Tokenizer, entries: seq<Entry>): map<string, IndexedDoc> {
    if entries == [] then map[]
    else
      var last := entries[|entries| - 1];
      Latest(tokenize, entries[..|entries| - 1])[last.docId := Indexed(tokenize, last)]
  }

  /** Some entry of that id, current or overwritten, holds the token. */
  ghost predicate Mentions(tokenize: Tokenizer, entries: seq<Entry>, token: string, id: string) {
    exists i :: 0 <= i < |entries| && entries[i].docId == id && token in tokenize(entries[i].body)
  }

  ghost predicate Posted(postings: map<string, seq<string>>, token: string, id: string) {
    token in postings && id in postings[token]
  }

  /** The library's `dedup`: equal neighbours collapse. */
  function DedupAdjacent(s: seq<string>): (r: seq<string>)
    ensures forall x :: x in r <==> x in s
    ensures s != [] ==> r != [] && r[0] == s[0]
  {
    if |s| < 2 then s
    else if s[0] == s[1] then DedupAdjacent(s[1..])
    else [s[0]] + DedupAdjacent(s[1..])
  }

  lemma {:induction false} DedupOfSorted(s: seq<string>)
    requires SortedBy(StringLe, s)
    ensures SortedBy(StringLe, DedupAdjacent(s)) && Distinct(DedupAdjacent(s))
  {
    if |s| >= 2 {
      DedupOfSorted(s[1..]);
      if s[0] != s[1] {
        var rest := DedupAdjacent(s[1..]);
        forall i | 0 <= i < |rest|
          ensures StringLe(s[0], rest[i]) && s[0] != rest[i]
        {
          assert rest[i] in s[1..];
          StringLeIsTotalOrder();
          assert StringLe(s[0], s[1]) && StringLe(s[1], rest[i]);
        }
      }
    }
  }

  ghost predicate CleanList(ids: seq<string>) {
    SortedBy(StringLe, ids) && Distinct(ids)
  }

  method PostTokens(tokens: set<string>, id: string, before: map<string, seq<string>>)
    returns (postings: map<string, seq<string>>)
    ensures forall t, d :: Posted(postings, t, d) <==> Posted(before, t, d) || (t in tokens && d == id)
  {
    postings := before;
    var rest := tokens;
    while rest != {}
      invariant rest <= tokens
      invariant forall t, d :: Posted(postings, t, d) <==> Posted(before, t, d) || (t in tokens - rest && d == id)
      decreases |rest|
    {
      var t :| t in rest;
      ghost var was := postings;
      postings := postings[t := (if t in postings then postings[t] else []) + [id]];
      rest := rest - {t};
      forall u, d
        ensures Posted(postings, u, d) <==> Posted(was, u, d) || (u == t && d == id)
      {
      }
    }
  }

  method CleanPostings(before: map<string, seq<string>>) returns (postings: map<string, seq<string>>)
    ensures forall t, d :: Posted(postings, t, d) <==> Posted(before, t, d)
    ensures forall t :: t in postings ==> CleanList(postings[t])
  {
    postings := before;
    var rest := before.Keys;
    while rest != {}
      invariant rest <= before.Keys && postings.Keys == before.Keys
      invariant forall t :: t in rest ==> postings[t] == before[t]
      invariant forall t, d :: Posted(postings, t, d) <==> Posted(before, t, d)
      invariant forall t :: t in postings && t !in rest ==> CleanList(postings[t])
      decreases |rest|
    {
      var t :| t in rest;
      StringLeIsTotalOrder();
      SortSorted(StringLe, postings[t]);
      SortKeeps(StringLe, postings[t]);
      DedupOfSorted(Sort(StringLe, postings[t]));
      ghost var was := postings;
      postings := postings[t := DedupAdjacent(Sort(StringLe, postings[t]))];
      rest := rest - {t};
      forall u, d
        ensures Posted(postings, u, d) <==> Posted(was, u, d)
      {
      }
    }
  }

  method Build(tokenize: Tokenizer, entries: seq<Entry>) returns (index: EstateIndex)
    ensures index.docs == Latest(tokenize, entries)
    ensures forall t, d :: Posted(index.postings, t, d) <==> Mentions(tokenize, entries, t, d)
    ensures forall t :: t in index.postings ==> CleanList(index.postings[t])
  {
    var docs: map<string, IndexedDoc>, postings: map<string, seq<string>> := map[], map[];
    for i := 0 to |entries|
      invariant docs == Latest(tokenize, entries[..i])
      invariant forall t, d :: Posted(postings, t, d) <==> Mentions(tokenize, entries[..i], t, d)
    {
      var e := entries[i];
      var tokens := tokenize(e.body);
      ghost var was := postings;
      postings := PostTokens(tokens, e.docId, postings);
      docs := docs[e.docId := IndexedDoc(e.title, e.body, e.sensitivity, e.source, tokens)];
      assert entries[..i + 1][..i] == entries[..i];
      forall t, d
        ensures Mentions(tokenize, entries[..i + 1], t, d)
           <==> Mentions(tokenize, entries[..i], t, d) || (t in tokens && d == e.docId)
      {
        MentionsSnoc(tokenize, entries[..i], e, t, d);
        assert entries[..i + 1] == entries[..i] + [e];
      }
    }
    assert entries[..|entries|] == entries;
    postings := CleanPostings(postings);
    return EstateIndex(docs, postings);
  }

  lemma MentionsSnoc(tokenize: Tokenizer, entries: seq<Entry>, e: Entry, token: string, id: string)
    ensures Mentions(tokenize, entries + [e], token, id)
       <==> Mentions(tokenize, entries, token, id) || (token in tokenize(e.body) && id == e.docId)
  {
    var all := entries + [e];
    if token in tokenize(e.body) && id == e.docId {
      assert all[|entries|] == e;
    }
    if Mentions(tokenize, entries, token, id) {
      var i :| 0 <= i < |entries| && entries[i].docId == id && token in tokenize(entries[i].body);
      assert all[i] == entries[i];
    }
  }

  // -------------------------------------------------------------------------
  // Retrieving
  // -------------------------------------------------------------------------

  /** Every posting names a known document, and every token of a document is posted. Stale postings may remain. */
  ghost predicate WellFormed(index: EstateIndex) {
    && (forall t, d :: Posted(index.postings, t, d) ==> d in index.docs)
    && (forall t, d :: d in index.docs && t in index.docs[d].tokens ==> Posted(index.postings, t, d))
  }

  predicate Qualifies(doc: IndexedDoc, query: set<string>, authorized: string -> bool) {
    authorized(doc.sensitivity) && query * doc.tokens != {}
  }

  ghost function Matches(docs: map<string, IndexedDoc>, query: set<string>, authorized: string -> bool): set<Hit> {
    set id | id in docs && Qualifies(docs[id], query, authorized) :: Hit(|query * docs[id].tokens|, id)
  }

  /** The matches in rank order: the only such list. */
  ghost predicate IsRanking(ranked: seq<Hit>, matches: set<Hit>) {
    SortedBy(HitLe, ranked) && Distinct(ranked) && Elements(ranked) == matches
  }

  function Shown(docs: map<string, IndexedDoc>, id: string): Candidate
    requires id in docs
  {
    Candidate(id, docs[id].title, docs[id].body, docs[id].source)
  }

  ghost predicate ShowsHits(docs: map<string, IndexedDoc>, hits: seq<Hit>, r: seq<Candidate>) {
    |r| == |hits| && forall i :: 0 <= i < |r| ==> hits[i].id in docs && r[i] == Shown(docs, hits[i].id)
  }

  ghost predicate Touches(index: EstateIndex, query: set<string>, id: string) {
    exists t :: t in query && Posted(index.postings, t, id)
  }

  lemma TouchesOneMore(index: EstateIndex, query: set<string>, rest: set<string>, t: string, id: string)
    requires t in rest && rest <= query
    ensures Touches(index, query - (rest - {t}), id)
       <==> Touches(index, query - rest, id) || Posted(index.postings, t, id)
  {
    assert query - (rest - {t}) == query - rest + {t};
  }

  method CandidateIds(index: EstateIndex, query: set<string>) returns (ids: set<string>)
    ensures forall id :: id in ids <==> Touches(index, query, id)
  {
    ids := {};
    var rest := query;
    while rest != {}
      invariant rest <= query
      invariant forall id :: id in ids <==> Touches(index, query - rest, id)
      decreases |rest|
    {
      var t :| t in rest;
      forall id
        ensures Touches(index, query - (rest - {t}), id)
           <==> Touches(index, query - rest, id) || Posted(index.postings, t, id)
      {
        TouchesOneMore(index, query, rest, t, id);
      }
      if t in index.postings {
        ids := ids + set id | id in index.postings[t];
      }
      rest := rest - {t};
    }
    assert query - rest == query;
  }

  lemma MatchTouches(index: EstateIndex, query: set<string>, authorized: string -> bool, id: string)
    requires WellFormed(index) && id in index.docs && Qualifies(index.docs[id], query, authorized)
    ensures Touches(index, query, id)
  {
    var t :| t in query * index.docs[id].tokens;
    assert Posted(index.postings, t, id);
  }

  method Score(index: EstateIndex, query: set<string>, authorized: string -> bool, ids: set<string>)
    returns (scored: seq<Hit>)
    requires forall id :: id in ids ==> id in index.docs
    ensures Distinct(scored)
    ensures forall h :: h in scored <==>
              (h.id in ids && Qualifies(index.docs[h.id], query, authorized)
               && h.overlap == |query * index.docs[h.id].tokens|)
  {
    scored := [];
    var rest := ids;
    while rest != {}
      invariant rest <= ids && Distinct(scored)
      invariant forall h :: h in scored <==>
                  (h.id in ids - rest && Qualifies(index.docs[h.id], query, authorized)
                   && h.overlap == |query * index.docs[h.id].tokens|)
      decreases |rest|
    {
      var id :| id in rest;
      rest := rest - {id};
      var doc := index.docs[id];
      if !authorized(doc.sensitivity) {
        continue;
      }
      var overlap := |query * doc.tokens|;
      if overlap == 0 {
        continue;
      }
      scored := scored + [Hit(overlap, id)];
    }
  }

  /** What scoring kept, sorted, is the ranking of the matches. */
  lemma ScoredIsRanking(index: EstateIndex, query: set<string>, authorized: string -> bool, ids: set<string>,
                        scored: seq<Hit>)
    requires WellFormed(index) && Distinct(scored)
    requires forall id :: id in ids <==> Touches(index, query, id)
    requires forall h :: h in scored <==>
               (h.id in ids && h.id in index.docs && Qualifies(index.docs[h.id], query, authorized)
                && h.overlap == |query * index.docs[h.id].tokens|)
    ensures IsRanking(Sort(HitLe, scored), Matches(index.docs, query, authorized))
  {
    HitLeIsTotalOrder();
    SortSorted(HitLe, scored);
    SortKeeps(HitLe, scored);
    forall h
      ensures h in scored <==> h in Matches(index.docs, query, authorized)
    {
      if h in Matches(index.docs, query, authorized) {
        MatchTouches(index, query, authorized, h.id);
      }
    }
  }

  method Rank(index: EstateIndex, query: set<string>, authorized: string -> bool) returns (ranked: seq<Hit>)
    requires WellFormed(index)
    ensures IsRanking(ranked, Matches(index.docs, query, authorized))
  {
    if query == {} {
      assert Matches(index.docs, query, authorized) == {};
      return [];
    }
    var ids := CandidateIds(index, query);
    forall id | id in ids
      ensures id in index.docs
    {
      var t :| t in query && Posted(index.postings, t, id);
    }
    var scored := Score(index, query, authorized, ids);
    ScoredIsRanking(index, query, authorized, ids, scored);
    return Sort(HitLe, scored);
  }

  method Retrieve(tokenize: Tokenizer, index: EstateIndex, text: string, k: nat, authorized: string -> bool)
    returns (r: seq<Candidate>)
    requires WellFormed(index)
    ensures exists ranked :: IsRanking(ranked, Matches(index.docs, tokenize(text), authorized))
                             && ShowsHits(index.docs, Take(ranked, k), r)
  {
    var ranked := Rank(index, tokenize(text), authorized);
    r := [];
    var top := Take(ranked, k);
    for i := 0 to |top|
      invariant ShowsHits(index.docs, top[..i], r)
    {
      assert top[i] in ranked && top[i] in Elements(ranked);
      r := r + [Shown(index.docs, top[i].id)];
    }
    assert top[..|top|] == top;
  }

  // -------------------------------------------------------------------------
  // The index is the naive scan
  // -------------------------------------------------------------------------

  lemma {:induction false} LatestIsLast(tokenize: Tokenizer, entries: seq<Entry>, id: string)
    ensures id in Latest(tokenize, entries) <==> LastEntry(entries, id).Some?
    ensures id in Latest(tokenize, entries) ==>
              Latest(tokenize, entries)[id] == Indexed(tokenize, LastEntry(entries, id).value)
    ensures LastEntry(entries, id).Some? <==> id in Map(EntryId(), entries)
    ensures LastEntry(entries, id).Some? ==>
              LastEntry(entries, id).value in entries && LastEntry(entries, id).value.docId == id
  {
    if entries != [] {
      var n := |entries| - 1;
      LatestIsLast(tokenize, entries[..n], id);
      assert Map(EntryId(), entries) == Map(EntryId(), entries[..n]) + [entries[n].docId];
    }
  }

  /** A built index is well formed, stale postings of overwritten entries and all. */
  lemma BuiltIsWellFormed(tokenize: Tokenizer, entries: seq<Entry>, index: EstateIndex)
    requires index.docs == Latest(tokenize, entries)
    requires forall t, d :: Posted(index.postings, t, d) <==> Mentions(tokenize, entries, t, d)
    ensures WellFormed(index)
  {
    forall t, d | Posted(index.postings, t, d)
      ensures d in index.docs
    {
      LatestIsLast(tokenize, entries, d);
      var i :| 0 <= i < |entries| && entries[i].docId == d && t in tokenize(entries[i].body);
      assert Map(EntryId(), entries)[i] == d;
    }
    forall t, d | d in index.docs && t in index.docs[d].tokens
      ensures Posted(index.postings, t, d)
    {
      LatestIsLast(tokenize, entries, d);
      assert Mentions(tokenize, entries, t, d);
    }
  }

  lemma CollectedHits(tokenize: Tokenizer, entries: seq<Entry>, query: set<string>, authorized: string -> bool, h: Hit)
    ensures h in Collect(HitFor(tokenize, entries, query, authorized), Dedupe(Map(EntryId(), entries)))
       <==> h in Matches(Latest(tokenize, entries), query, authorized)
  {
    var f, ids := HitFor(tokenize, entries, query, authorized), Dedupe(Map(EntryId(), entries));
    CollectMembers(f, ids, h);
    LatestIsLast(tokenize, entries, h.id);
    if h in Matches(Latest(tokenize, entries), query, authorized) {
      assert h.id in ids && f(h.id) == Some(h);
    }
  }

  lemma {:induction false} CollectDistinct(f: string -> Option<Hit>, ids: seq<string>)
    requires Distinct(ids) && forall id :: f(id).Some? ==> f(id).value.id == id
    ensures Distinct(Collect(f, ids))
  {
    if ids != [] {
      var n := |ids| - 1;
      CollectDistinct(f, ids[..n]);
      if f(ids[n]).Some? {
        var h := f(ids[n]).value;
        CollectMembers(f, ids[..n], h);
        assert forall id :: id in ids[..n] ==> id != ids[n];
      }
    }
  }

  /** The only ranking of an index's matches is the naive scan of the entries, repeated ids included. */
  lemma IndexIsTheNaiveScan(tokenize: Tokenizer, entries: seq<Entry>, query: set<string>, authorized: string -> bool,
                            ranked: seq<Hit>)
    ensures IsRanking(ranked, Matches(Latest(tokenize, entries), query, authorized))
       <==> ranked == NaiveScan(tokenize, entries, query, authorized)
  {
    var f, ids := HitFor(tokenize, entries, query, authorized), Dedupe(Map(EntryId(), entries));
    var hits, scan := Collect(f, ids), NaiveScan(tokenize, entries, query, authorized);
    var matches := Matches(Latest(tokenize, entries), query, authorized);
    forall h
      ensures h in hits <==> h in matches
    {
      CollectedHits(tokenize, entries, query, authorized, h);
    }
    CollectDistinct(f, ids);
    HitLeIsTotalOrder();
    SortSorted(HitLe, hits);
    SortKeeps(HitLe, hits);
    SameRanking(ranked, scan, matches);
  }

  lemma SameRanking(a: seq<Hit>, b: seq<Hit>, matches: set<Hit>)
    requires IsRanking(b, matches)
    ensures IsRanking(a, matches) <==> a == b
  {
    if IsRanking(a, matches) {
      forall h
        ensures h in a <==> h in b
      {
        assert h in a <==> h in Elements(a);
        assert h in b <==> h in Elements(b);
      }
      DistinctSameMembers(a, b);
      HitLeIsTotalOrder();
      SortedUnique(HitLe, a, b);
    }
  }

  /** Ingest, then ask: exactly the first k of the naive scan, shown from the current entries. */
  method BuildAndRetrieve(tokenize: Tokenizer, entries: seq<Entry>, text: string, k: nat, authorized: string -> bool)
    returns (r: seq<Candidate>)
    ensures r == Answers(tokenize, entries, tokenize(text), k, authorized)
  {
    var index := Build(tokenize, entries);
    BuiltIsWellFormed(tokenize, entries, index);
    r := Retrieve(tokenize, index, text, k, authorized);
    ghost var ranked :| IsRanking(ranked, Matches(index.docs, tokenize(text), authorized))
                        && ShowsHits(index.docs, Take(ranked, k), r);
    IndexIsTheNaiveScan(tokenize, entries, tokenize(text), authorized, ranked);
    forall i | 0 <= i < |r|
      ensures r[i] == ShownEntry(entries)(Take(ranked, k)[i])
    {
      LatestIsLast(tokenize, entries, Take(ranked, k)[i].id);
    }
  }

  // -------------------------------------------------------------------------
  // What the caller may not read does not matter
  // -------------------------------------------------------------------------

  function IsAuthorized(authorized: string -> bool): Entry -> bool {
    (e: Entry) => authorized(e.sensitivity)
  }

  /** The estate as if the unauthorised documents had never been ingested. */
  function Readable(authorized: string -> bool, entries: seq<Entry>): seq<Entry> {
    Filter(IsAuthorized(authorized), entries)
  }

  /** An id whose current entry is hidden has no readable older entry with words in it to fall back to. */
  ghost predicate NothingToFallBackTo(tokenize: Tokenizer, entries: seq<Entry>, authorized: string -> bool,
                                      id: string)
  {
    var now, before := LastEntry(entries, id), LastEntry(Readable(authorized, entries), id);
    now.Some? && !authorized(now.value.sensitivity) && before.Some? ==> tokenize(before.value.body) == {}
  }

  lemma {:induction false} LastReadable(authorized: string -> bool, entries: seq<Entry>, id: string)
    ensures var now, before := LastEntry(entries, id), LastEntry(Readable(authorized, entries), id);
            && (now.Some? && authorized(now.value.sensitivity) ==> before == now)
            && (before.Some? ==> now.Some? && authorized(before.value.sensitivity))
  {
    if entries != [] {
      var n := |entries| - 1;
      assert entries == entries[..n] + [entries[n]];
      FilterSnoc(IsAuthorized(authorized), entries[..n], entries[n]);
      LastReadable(authorized, entries[..n], id);
      var kept := Readable(authorized, entries[..n]);
      assert (kept + [entries[n]])[..|kept|] == kept;
    }
  }

  lemma MatchByEntry(tokenize: Tokenizer, entries: seq<Entry>, query: set<string>, authorized: string -> bool, h: Hit)
    ensures h in Matches(Latest(tokenize, entries), query, authorized)
       <==> HitFor(tokenize, entries, query, authorized)(h.id) == Some(h)
  {
    LatestIsLast(tokenize, entries, h.id);
  }

  lemma SameHits(tokenize: Tokenizer, entries: seq<Entry>, query: set<string>, authorized: string -> bool, id: string)
    requires NothingToFallBackTo(tokenize, entries, authorized, id)
    ensures HitFor(tokenize, entries, query, authorized)(id)
         == HitFor(tokenize, Readable(authorized, entries), query, authorized)(id)
  {
    LastReadable(authorized, entries, id);
  }

  /**
   * Deleting everything the caller may not read changes no answer, for any query and length, exactly when no hidden
   * current entry covers a readable older one with words in it. Over distinct ids that is always so.
   */
  lemma HiddenDocumentsDoNotMatter(tokenize: Tokenizer, entries: seq<Entry>, authorized: string -> bool)
    ensures (forall query, k: nat :: Answers(tokenize, entries, query, k, authorized)
                                  == Answers(tokenize, Readable(authorized, entries), query, k, authorized))
       <==> forall id :: NothingToFallBackTo(tokenize, entries, authorized, id)
  {
    if forall id :: NothingToFallBackTo(tokenize, entries, authorized, id) {
      forall query, k: nat
        ensures Answers(tokenize, entries, query, k, authorized)
             == Answers(tokenize, Readable(authorized, entries), query, k, authorized)
      {
        SameAnswers(tokenize, entries, query, k, authorized);
      }
    }
    if id :| !NothingToFallBackTo(tokenize, entries, authorized, id) {
      FallingBackShows(tokenize, entries, authorized, id);
    }
  }

  lemma SameAnswers(tokenize: Tokenizer, entries: seq<Entry>, query: set<string>, k: nat, authorized: string -> bool)
    requires forall id :: NothingToFallBackTo(tokenize, entries, authorized, id)
    ensures Answers(tokenize, entries, query, k, authorized)
         == Answers(tokenize, Readable(authorized, entries), query, k, authorized)
  {
    SameScan(tokenize, entries, query, authorized);
    var top := Take(NaiveScan(tokenize, entries, query, authorized), k);
    forall i | 0 <= i < |top|
      ensures ShownEntry(entries)(top[i]) == ShownEntry(Readable(authorized, entries))(top[i])
    {
      ScanHolds(tokenize, entries, query, authorized, top[i]);
      LastReadable(authorized, entries, top[i].id);
    }
  }

  /** What the scan lists, and nothing else, is a hit by its current entry. */
  lemma ScanHolds(tokenize: Tokenizer, entries: seq<Entry>, query: set<string>, authorized: string -> bool, h: Hit)
    ensures h in NaiveScan(tokenize, entries, query, authorized)
       <==> HitFor(tokenize, entries, query, authorized)(h.id) == Some(h)
  {
    var scan := NaiveScan(tokenize, entries, query, authorized);
    IndexIsTheNaiveScan(tokenize, entries, query, authorized, scan);
    MatchByEntry(tokenize, entries, query, authorized, h);
    assert h in scan <==> h in Elements(scan);
  }

  lemma SameScan(tokenize: Tokenizer, entries: seq<Entry>, query: set<string>, authorized: string -> bool)
    requires forall id :: NothingToFallBackTo(tokenize, entries, authorized, id)
    ensures NaiveScan(tokenize, entries, query, authorized)
         == NaiveScan(tokenize, Readable(authorized, entries), query, authorized)
  {
    var readable := Readable(authorized, entries);
    forall h
      ensures h in Matches(Latest(tokenize, entries), query, authorized)
         <==> h in Matches(Latest(tokenize, readable), query, authorized)
    {
      MatchByEntry(tokenize, entries, query, authorized, h);
      MatchByEntry(tokenize, readable, query, authorized, h);
      SameHits(tokenize, entries, query, authorized, h.id);
    }
    assert Matches(Latest(tokenize, entries), query, authorized)
        == Matches(Latest(tokenize, readable), query, authorized);
    var scan := NaiveScan(tokenize, entries, query, authorized);
    IndexIsTheNaiveScan(tokenize, entries, query, authorized, scan);
    IndexIsTheNaiveScan(tokenize, readable, query, authorized, scan);
  }

  /** Every id among the answers comes with a hit on its current entry. */
  lemma AnsweredIsHit(tokenize: Tokenizer, entries: seq<Entry>, query: set<string>, k: nat, authorized: string -> bool,
                      i: nat)
    requires i < |Answers(tokenize, entries, query, k, authorized)|
    ensures var id := Answers(tokenize, entries, query, k, authorized)[i].docId;
            HitFor(tokenize, entries, query, authorized)(id).Some?
  {
    var scan := NaiveScan(tokenize, entries, query, authorized);
    var h := Take(scan, k)[i];
    assert h in scan;
    ScanHolds(tokenize, entries, query, authorized, h);
    LatestIsLast(tokenize, entries, h.id);
  }

  /** A readable older entry under a hidden current one is an answer once the hidden one is deleted. */
  lemma FallingBackShows(tokenize: Tokenizer, entries: seq<Entry>, authorized: string -> bool, id: string)
    requires !NothingToFallBackTo(tokenize, entries, authorized, id)
    ensures exists query, k: nat :: Answers(tokenize, entries, query, k, authorized)
                                 != Answers(tokenize, Readable(authorized, entries), query, k, authorized)
  {
    var readable := Readable(authorized, entries);
    LastReadable(authorized, entries, id);
    var query := tokenize(LastEntry(readable, id).value.body);
    var h := Hit(|query|, id);
    assert query * query == query;
    ScanHolds(tokenize, readable, query, authorized, h);
    var scan := NaiveScan(tokenize, readable, query, authorized);
    var i :| 0 <= i < |scan| && scan[i] == h;
    LatestIsLast(tokenize, readable, id);
    var after := Answers(tokenize, readable, query, |scan|, authorized);
    assert after[i].docId == id;
    if Answers(tokenize, entries, query, |scan|, authorized) == after {
      AnsweredIsHit(tokenize, entries, query, |scan|, authorized, i);
    }
  }

  lemma {:induction false} OnlyEntry(entries: seq<Entry>, i: nat)
    requires Distinct(Map(EntryId(), entries)) && i < |entries|
    ensures LastEntry(entries, entries[i].docId) == Some(entries[i])
  {
    var n := |entries| - 1;
    if i < n {
      assert Map(EntryId(), entries)[i] != Map(EntryId(), entries)[n];
      forall a, b | 0 <= a < b < n
        ensures Map(EntryId(), entries[..n])[a] != Map(EntryId(), entries[..n])[b]
      {
        assert Map(EntryId(), entries)[a] != Map(EntryId(), entries)[b];
      }
      OnlyEntry(entries[..n], i);
    }
  }

  lemma DistinctIdsHideNothing(tokenize: Tokenizer, entries: seq<Entry>, query: set<string>, k: nat,
                               authorized: string -> bool)
    requires Distinct(Map(EntryId(), entries))
    ensures Answers(tokenize, entries, query, k, authorized)
         == Answers(tokenize, Readable(authorized, entries), query, k, authorized)
  {
    forall id
      ensures NothingToFallBackTo(tokenize, entries, authorized, id)
    {
      LastReadable(authorized, entries, id);
      LatestIsLast(tokenize, Readable(authorized, entries), id);
      if LastEntry(Readable(authorized, entries), id).Some? {
        var e := LastEntry(Readable(authorized, entries), id).value;
        var i :| 0 <= i < |entries| && entries[i] == e;
        OnlyEntry(entries, i);
      }
    }
    SameAnswers(tokenize, entries, query, k, authorized);
  }

  function TierRule(t: Tiers, principal: string): string -> bool {
    s => CanRead(t, principal, s)
  }

  /** The tier rule end to end: answers are at or below the agent's tier, and nobody else gets any. */
  lemma ResultsAreWithinTier(tokenize: Tokenizer, entries: seq<Entry>, query: set<string>, k: nat, t: Tiers,
                             principal: string, i: nat)
    requires i < |Answers(tokenize, entries, query, k, TierRule(t, principal))|
    ensures var id := Answers(tokenize, entries, query, k, TierRule(t, principal))[i].docId;
            && principal in t.agents && LastEntry(entries, id).Some?
            && var s := LastEntry(entries, id).value.sensitivity;
            s in t.levels && t.levels[s] <= t.agents[principal]
  {
    AnsweredIsHit(tokenize, entries, query, k, TierRule(t, principal), i);
  }
}
