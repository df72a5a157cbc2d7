/** What the estate's retrieval shows and in which order, said of the entries alone. */
module EstateOrder {
  import opened Basics
  import opened Ordering
  import opened Estate

  /** The entry at `i` counts: no later one has its id. */
  ghost predicate Current(entries: seq<Entry>, i: nat)
    requires i < |entries|
  {
    forall j :: i < j < |entries| ==> entries[j].docId != entries[i].docId
  }

  /** Current, readable, and sharing a token with the query. */
  ghost predicate Eligible(tokenize: Tokenizer, entries: seq<Entry>, query: set<string>, authorized: string -> bool,
                           i: nat)
  {
    && i < |entries| && Current(entries, i) && authorized(entries[i].sensitivity)
    && exists t :: t in query && t in tokenize(entries[i].body)
  }

  /** More shared tokens, or as many and the earlier id. */
  ghost predicate NoLater(tokenize: Tokenizer, query: set<string>, a: Entry, b: Entry) {
    var m, n := |query * tokenize(a.body)|, |query * tokenize(b.body)|;
    m > n || (m == n && StringLe(a.docId, b.docId))
  }

  /** Which entries an answer shows, place by place. */
  ghost predicate Shows(tokenize: Tokenizer, entries: seq<Entry>, query: set<string>, authorized: string -> bool,
                        r: seq<Candidate>, places: seq<nat>)
  {
    && |places| == |r| && Distinct(places)
    && (forall j :: 0 <= j < |r| ==>
          && Eligible(tokenize, entries, query, authorized, places[j])
          && var e := entries[places[j]]; r[j] == Candidate(e.docId, e.title, e.body, e.source))
    && (forall a, b :: 0 <= a < b < |r| ==> NoLater(tokenize, query, entries[places[a]], entries[places[b]]))
  }

  /** Nothing better is left out. */
  ghost predicate Best(tokenize: Tokenizer, entries: seq<Entry>, query: set<string>, k: nat,
                       authorized: string -> bool, places: seq<nat>)
  {
    forall i: nat :: Eligible(tokenize, entries, query, authorized, i) && i !in places ==>
      |places| == k && forall j :: 0 <= j < k && places[j] < |entries| ==>
                         NoLater(tokenize, query, entries[places[j]], entries[i])
  }

  // -------------------------------------------------------------------------
  // The entry that counts
  // -------------------------------------------------------------------------

  /** Where the last entry of an id stands. */
  lemma {:induction false} LastStands(entries: seq<Entry>, id: string) returns (i: nat)
    requires LastEntry(entries, id).Some?
    ensures i < |entries| && Current(entries, i) && entries[i] == LastEntry(entries, id).value
    ensures entries[i].docId == id
  {
    i := |entries| - 1;
    if entries[i].docId != id {
      var n := i;
      i := LastStands(entries[..n], id);
      assert forall j :: i < j < n ==> entries[..n][j] == entries[j];
    }
  }

  lemma {:induction false} CurrentIsLast(entries: seq<Entry>, i: nat)
    requires i < |entries| && Current(entries, i)
    ensures LastEntry(entries, entries[i].docId) == Some(entries[i])
  {
    var n := |entries| - 1;
    if i < n {
      assert Current(entries[..n], i);
      CurrentIsLast(entries[..n], i);
    }
  }

  lemma CurrentIsOnlyOne(entries: seq<Entry>, i: nat, j: nat)
    requires i < |entries| && j < |entries| && Current(entries, i) && Current(entries, j)
    requires entries[i].docId == entries[j].docId
    ensures i == j
  {
  }

  function HitOf(tokenize: Tokenizer, query: set<string>, e: Entry): Hit {
    Hit(|query * tokenize(e.body)|, e.docId)
  }

  lemma SharesAWord(query: set<string>, tokens: set<string>)
    ensures query * tokens != {} <==> exists t :: t in query && t in tokens
  {
    if t :| t in query && t in tokens {
      assert t in query * tokens;
    }
  }

  /** An entry is eligible exactly when its hit is in the scan. */
  lemma EligibleIsScanned(tokenize: Tokenizer, entries: seq<Entry>, query: set<string>, authorized: string -> bool,
                          i: nat)
    requires i < |entries| && Current(entries, i)
    ensures Eligible(tokenize, entries, query, authorized, i)
       <==> HitOf(tokenize, query, entries[i]) in NaiveScan(tokenize, entries, query, authorized)
  {
    CurrentIsLast(entries, i);
    ScanHolds(tokenize, entries, query, authorized, HitOf(tokenize, query, entries[i]));
    SharesAWord(query, tokenize(entries[i].body));
  }

  lemma ScannedStands(tokenize: Tokenizer, entries: seq<Entry>, query: set<string>, authorized: string -> bool,
                      h: Hit) returns (i: nat)
    requires h in NaiveScan(tokenize, entries, query, authorized)
    ensures Eligible(tokenize, entries, query, authorized, i) && h == HitOf(tokenize, query, entries[i])
    ensures LastEntry(entries, h.id) == Some(entries[i])
  {
    ScanHolds(tokenize, entries, query, authorized, h);
    i := LastStands(entries, h.id);
    EligibleIsScanned(tokenize, entries, query, authorized, i);
  }

  lemma ScanIsInOrder(tokenize: Tokenizer, entries: seq<Entry>, query: set<string>, authorized: string -> bool)
    ensures SortedBy(HitLe, NaiveScan(tokenize, entries, query, authorized))
    ensures Distinct(NaiveScan(tokenize, entries, query, authorized))
  {
    IndexIsTheNaiveScan(tokenize, entries, query, authorized, NaiveScan(tokenize, entries, query, authorized));
  }

  /** The places of the scan's first hits. */
  lemma {:induction false} PlacesOf(tokenize: Tokenizer, entries: seq<Entry>, query: set<string>,
                                    authorized: string -> bool, hits: seq<Hit>) returns (places: seq<nat>)
    requires forall h :: h in hits ==> h in NaiveScan(tokenize, entries, query, authorized)
    ensures |places| == |hits|
    ensures forall j :: 0 <= j < |hits| ==>
              && Eligible(tokenize, entries, query, authorized, places[j])
              && hits[j] == HitOf(tokenize, query, entries[places[j]])
              && LastEntry(entries, hits[j].id) == Some(entries[places[j]])
  {
    places := [];
    if hits != [] {
      var n := |hits| - 1;
      places := PlacesOf(tokenize, entries, query, authorized, hits[..n]);
      var i := ScannedStands(tokenize, entries, query, authorized, hits[n]);
      places := places + [i];
    }
  }

  /**
   * An answer shows current, readable entries that share a token with the query, each once and as it stands, more
   * shared tokens first and the id deciding ties; and a left-out one comes no earlier than any of k shown.
   */
  lemma AnswersAreTheBest(tokenize: Tokenizer, entries: seq<Entry>, query: set<string>, k: nat,
                          authorized: string -> bool, r: seq<Candidate>)
    requires r == Answers(tokenize, entries, query, k, authorized)
    ensures |r| <= k
    ensures exists places :: Shows(tokenize, entries, query, authorized, r, places)
                             && Best(tokenize, entries, query, k, authorized, places)
  {
    var scan := NaiveScan(tokenize, entries, query, authorized);
    var hits := Take(scan, k);
    ScanIsInOrder(tokenize, entries, query, authorized);
    assert hits <= scan;
    var places := PlacesOf(tokenize, entries, query, authorized, hits);
    PlacesShow(tokenize, entries, query, k, authorized, hits, places);
    PlacesAreBest(tokenize, entries, query, k, authorized, hits, places);
  }

  lemma PlacesShow(tokenize: Tokenizer, entries: seq<Entry>, query: set<string>, k: nat, authorized: string -> bool,
                   hits: seq<Hit>, places: seq<nat>)
    requires SortedBy(HitLe, hits) && Distinct(hits) && |places| == |hits|
    requires forall j :: 0 <= j < |hits| ==>
               && Eligible(tokenize, entries, query, authorized, places[j])
               && hits[j] == HitOf(tokenize, query, entries[places[j]])
               && LastEntry(entries, hits[j].id) == Some(entries[places[j]])
    ensures Shows(tokenize, entries, query, authorized, Map(ShownEntry(entries), hits), places)
  {
    forall a, b | 0 <= a < b < |hits|
      ensures places[a] != places[b] && NoLater(tokenize, query, entries[places[a]], entries[places[b]])
    {
      assert HitLe(hits[a], hits[b]) && hits[a] != hits[b];
    }
  }

  lemma PlacesAreBest(tokenize: Tokenizer, entries: seq<Entry>, query: set<string>, k: nat,
                      authorized: string -> bool, hits: seq<Hit>, places: seq<nat>)
    requires hits == Take(NaiveScan(tokenize, entries, query, authorized), k) && |places| == |hits|
    requires forall j :: 0 <= j < |hits| ==>
               && Eligible(tokenize, entries, query, authorized, places[j])
               && hits[j] == HitOf(tokenize, query, entries[places[j]])
    ensures Best(tokenize, entries, query, k, authorized, places)
  {
    var scan := NaiveScan(tokenize, entries, query, authorized);
    ScanIsInOrder(tokenize, entries, query, authorized);
    forall i: nat | Eligible(tokenize, entries, query, authorized, i) && i !in places
      ensures |places| == k && forall j :: 0 <= j < k && places[j] < |entries| ==>
                                 NoLater(tokenize, query, entries[places[j]], entries[i])
    {
      EligibleIsScanned(tokenize, entries, query, authorized, i);
      var m :| 0 <= m < |scan| && scan[m] == HitOf(tokenize, query, entries[i]);
      if m < |hits| {
        CurrentIsOnlyOne(entries, i, places[m]);
      }
      forall j | 0 <= j < k && places[j] < |entries|
        ensures NoLater(tokenize, query, entries[places[j]], entries[i])
      {
        assert HitLe(scan[j], scan[m]);
      }
    }
  }

  /** An entry shows up for a principal at most by the tier rule, and always by it unless k others fill the answer. */
  lemma AgentsSeeTheirTier(tokenize: Tokenizer, entries: seq<Entry>, query: set<string>, k: nat, t: Tiers,
                           principal: string, r: seq<Candidate>, i: nat)
    requires r == Answers(tokenize, entries, query, k, TierRule(t, principal))
    requires i < |entries| && Current(entries, i) && exists w :: w in query && w in tokenize(entries[i].body)
    ensures var e := entries[i];
            var mayRead := && principal in t.agents && e.sensitivity in t.levels
                           && (t.levels[e.sensitivity] < t.agents[principal]
                               || t.levels[e.sensitivity] == t.agents[principal]);
            var shown := exists j :: 0 <= j < |r| && r[j].docId == e.docId;
            && (shown ==> mayRead) && (mayRead && |r| < k ==> shown)
  {
    AnswersAreTheBest(tokenize, entries, query, k, TierRule(t, principal), r);
    var places :| Shows(tokenize, entries, query, TierRule(t, principal), r, places)
                  && Best(tokenize, entries, query, k, TierRule(t, principal), places);
    ShownIsEligible(tokenize, entries, query, TierRule(t, principal), r, places, i);
    if |r| < k && Eligible(tokenize, entries, query, TierRule(t, principal), i) {
      EligibleIsShown(tokenize, entries, query, k, TierRule(t, principal), r, places, i);
    }
  }

  lemma ShownIsEligible(tokenize: Tokenizer, entries: seq<Entry>, query: set<string>, authorized: string -> bool,
                        r: seq<Candidate>, places: seq<nat>, i: nat)
    requires i < |entries| && Current(entries, i) && Shows(tokenize, entries, query, authorized, r, places)
    ensures (exists j :: 0 <= j < |r| && r[j].docId == entries[i].docId) ==>
              Eligible(tokenize, entries, query, authorized, i)
  {
    if j :| 0 <= j < |r| && r[j].docId == entries[i].docId {
      CurrentIsOnlyOne(entries, i, places[j]);
    }
  }

  lemma EligibleIsShown(tokenize: Tokenizer, entries: seq<Entry>, query: set<string>, k: nat,
                        authorized: string -> bool, r: seq<Candidate>, places: seq<nat>, i: nat)
    requires i < |entries| && |r| < k && Eligible(tokenize, entries, query, authorized, i)
    requires Shows(tokenize, entries, query, authorized, r, places)
    requires Best(tokenize, entries, query, k, authorized, places)
    ensures exists j :: 0 <= j < |r| && r[j].docId == entries[i].docId
  {
    assert i in places;
    var j :| 0 <= j < |places| && places[j] == i;
    assert r[j].docId == entries[i].docId;
  }
}
