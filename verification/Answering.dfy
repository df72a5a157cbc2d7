/**
 * From admitted claims to an answer: the composed text, and the older gate that re-reads the text's bracketed
 * segments as citations and must agree with the claims it was composed from.
 */
module Answering {
  import opened Basics
  import opened Ordering
  import opened Generation
  import opened Grounding

  datatype CitationFault = OutOfContext | Uncited

  lemma FirstIs(before: string, c: char, after: string)
    requires c !in before
    ensures IndexOf(before + [c] + after, c) == Some(|before|)
  {
    assert (before + [c] + after)[|before|] == c;
  }

  datatype Segment = Segment(inside: string, rest: string)

  /** The first bracketed segment and the text after it; an unclosed bracket ends the reading. */
  function NextSegment(text: string): (r: Option<Segment>)
    ensures r.Some? ==> |r.value.rest| < |text|
  {
    var start := IndexOf(text, '[');
    if start.None? then None
    else
      var after := text[start.value + 1..];
      var close := IndexOf(after, ']');
      if close.None? then None else Some(Segment(after[..close.value], after[close.value + 1..]))
  }

  /** The bracketed segments of a text, in order. */
  function Segments(text: string): seq<string>
    decreases |text|
  {
    match NextSegment(text)
    case None => []
    case Some(s) => [s.inside] + Segments(s.rest)
  }

  /** The gate: every segment must name a sealed document, and there must be one. */
  function Validated(text: string, sealed: set<string>): Result<seq<string>, CitationFault> {
    Verdict(Segments(text), sealed)
  }

  function Verdict(segments: seq<string>, sealed: set<string>): Result<seq<string>, CitationFault> {
    if exists s :: s in segments && s !in sealed then Err(OutOfContext)
    else if segments == [] then Err(Uncited)
    else Ok(Dedupe(segments))
  }

  lemma HoldsMiddle(before: seq<string>, x: string, after: seq<string>)
    ensures x in before + [x] + after
  {
    assert (before + [x] + after)[|before|] == x;
  }

  lemma OneMoreSegment(text: string, seen: seq<string>, rest: string)
    requires Segments(text) == seen + Segments(rest) && NextSegment(rest).Some?
    ensures var s := NextSegment(rest).value;
            Segments(text) == seen + [s.inside] + Segments(s.rest) && s.inside in Segments(text)
  {
    var s := NextSegment(rest).value;
    Regroup(seen, [s.inside], Segments(s.rest));
    HoldsMiddle(seen, s.inside, Segments(s.rest));
  }

  lemma NoMoreSegments(text: string, seen: seq<string>, rest: string)
    requires Segments(text) == seen + Segments(rest) && NextSegment(rest).None?
    ensures Segments(text) == seen
  {
    assert seen + [] == seen;
  }

  method ValidateCitations(text: string, sealed: set<string>) returns (r: Result<seq<string>, CitationFault>)
    ensures r == Validated(text, sealed)
  {
    var citations: seq<string> := [];
    var rest := text;
    ghost var seen: seq<string> := [];
    assert [] + Segments(text) == Segments(text);
    while true
      invariant Segments(text) == seen + Segments(rest)
      invariant citations == Dedupe(seen) && forall s :: s in seen ==> s in sealed
      decreases |rest|
    {
      var next := NextSegment(rest);
      if next.None? {
        NoMoreSegments(text, seen, rest);
        break;
      }
      OneMoreSegment(text, seen, rest);
      var candidate := next.value.inside;
      if candidate !in sealed {
        return Err(OutOfContext);
      }
      DedupeSnoc(seen, candidate);
      if candidate !in citations {
        citations := citations + [candidate];
      }
      rest := next.value.rest;
      seen := seen + [candidate];
    }
    assert seen != [] ==> seen[0] in citations;
    return if citations == [] then Err(Uncited) else Ok(citations);
  }

  // -------------------------------------------------------------------------
  // Composing
  // -------------------------------------------------------------------------

  /** One sentence of the answer. */
  function Cited(claim: Claim): string {
    claim.text + " [" + claim.docId + "]"
  }

  function Composed(claims: seq<Claim>): string {
    if claims == [] then ""
    else if |claims| == 1 then Cited(claims[0])
    else Cited(claims[0]) + " " + Composed(claims[1..])
  }

  function DocIdOf(): Claim -> string {
    (c: Claim) => c.docId
  }

  lemma NextIsClosed(text: string)
    requires NextSegment(text).Some?
    ensures ']' !in NextSegment(text).value.inside
  {
  }

  /** No segment ever contains a closing bracket. */
  lemma {:induction false} SegmentsAreClosed(text: string, id: string)
    requires id in Segments(text)
    ensures ']' !in id
    decreases |text|
  {
    NextIsClosed(text);
    var next := NextSegment(text).value;
    if id != next.inside {
      SegmentsAreClosed(next.rest, id);
    }
  }

  lemma NextOfCited(text: string, id: string, rest: string)
    requires '[' !in text && ']' !in id
    ensures NextSegment(text + " [" + id + "]" + rest) == Some(Segment(id, rest))
  {
    var all := text + " [" + id + "]" + rest;
    var tail := id + "]" + rest;
    assert '[' !in text + " ";
    assert all == (text + " ") + ['['] + tail;
    FirstIs(text + " ", '[', tail);
    assert all[|text| + 2..] == tail;
    FirstIs(id, ']', rest);
    assert tail[..|id|] == id && tail[|id| + 1..] == rest;
  }

  lemma IndexAfterSpace(rest: string)
    ensures IndexOf(" " + rest, '[')
         == match IndexOf(rest, '[') case None => None case Some(k) => Some(k + 1)
  {
    var spaced := " " + rest;
    assert spaced[0] == ' ' && spaced[1..] == rest;
  }

  lemma TailAfterSpace(rest: string, k: nat)
    requires k <= |rest|
    ensures (" " + rest)[k + 1..] == rest[k..]
  {
  }

  /** A blank before the next sentence changes nothing. */
  lemma NextAfterSpace(rest: string)
    ensures NextSegment(" " + rest) == NextSegment(rest)
  {
    IndexAfterSpace(rest);
    if IndexOf(rest, '[').Some? {
      TailAfterSpace(rest, IndexOf(rest, '[').value + 1);
    }
  }

  lemma ComposedMore(claims: seq<Claim>)
    requires claims != []
    ensures var c, rest := claims[0], claims[1..];
            Composed(claims) == c.text + " [" + c.docId + "]" + if rest == [] then "" else " " + Composed(rest)
  {
    if |claims| == 1 {
      assert Cited(claims[0]) + "" == Cited(claims[0]);
    } else {
      assert Cited(claims[0]) + (" " + Composed(claims[1..])) == Cited(claims[0]) + " " + Composed(claims[1..]);
    }
  }

  lemma SegmentsMore(c: Claim, after: string)
    requires !HasBracket(c.text) && ']' !in c.docId
    ensures Segments(c.text + " [" + c.docId + "]" + after) == [c.docId] + Segments(after)
  {
    NextOfCited(c.text, c.docId, after);
  }

  lemma SegmentsAfterSpace(rest: string)
    ensures Segments(" " + rest) == Segments(rest)
  {
    NextAfterSpace(rest);
  }

  lemma SegmentsOneMore(claims: seq<Claim>, rest: seq<Claim>, after: string)
    requires claims != [] && rest == claims[1..] && after == Composed(rest)
    requires !HasBracket(claims[0].text) && ']' !in claims[0].docId
    ensures Segments(Composed(claims)) == [claims[0].docId] + Segments(after)
  {
    ComposedMore(claims);
    SegmentsAfterSpace(after);
    SegmentsMore(claims[0], if rest == [] then "" else " " + after);
  }

  lemma {:induction false} SegmentsOfComposed(claims: seq<Claim>)
    requires forall c :: c in claims ==> !HasBracket(c.text) && ']' !in c.docId
    ensures Segments(Composed(claims)) == Map(DocIdOf(), claims)
  {
    if claims == [] {
      assert Segments("") == [];
    } else {
      var rest := claims[1..];
      SegmentsOfComposed(rest);
      SegmentsOneMore(claims, rest, Composed(rest));
      assert Map(DocIdOf(), claims) == [claims[0].docId] + Map(DocIdOf(), rest);
    }
  }

  lemma ClosedIdsAgree(claims: seq<Claim>, sealed: set<string>)
    requires claims != [] && forall c :: c in claims ==> !HasBracket(c.text) && ']' !in c.docId && c.docId in sealed
    ensures Validated(Composed(claims), sealed) == Ok(Dedupe(Map(DocIdOf(), claims)))
  {
    SegmentsOfComposed(claims);
    var ids := Map(DocIdOf(), claims);
    assert ids != [];
    forall id | id in ids
      ensures id in sealed
    {
      var k :| 0 <= k < |ids| && ids[k] == id;
      assert claims[k] in claims;
    }
  }

  lemma BracketedIdsDisagree(claims: seq<Claim>, sealed: set<string>, c: Claim)
    requires c in claims && ']' in c.docId
    ensures Validated(Composed(claims), sealed) != Ok(Dedupe(Map(DocIdOf(), claims)))
  {
    IdIsCited(claims, c);
    var segments := Segments(Composed(claims));
    if c.docId in segments {
      SegmentsAreClosed(Composed(claims), c.docId);
    }
    assert c.docId !in Dedupe(segments);
  }

  /**
   * The second lock agrees with the first exactly when no cited id contains a closing bracket: then the gate
   * accepts what was composed and returns the cited ids, each once, in order of first appearance.
   */
  lemma SecondLockAgrees(claims: seq<Claim>, bodies: map<string, string>, supports: Verifier)
    requires claims != [] && forall c :: c in claims ==> Ground(c, bodies, supports).Admitted?
    ensures Validated(Composed(claims), bodies.Keys) == Ok(Dedupe(Map(DocIdOf(), claims)))
       <==> forall c :: c in claims ==> ']' !in c.docId
  {
    if c :| c in claims && ']' in c.docId {
      BracketedIdsDisagree(claims, bodies.Keys, c);
    } else {
      forall c | c in claims
        ensures !HasBracket(c.text) && c.docId in bodies
      {
        AdmittedExactly(c, bodies, supports);
      }
      ClosedIdsAgree(claims, bodies.Keys);
    }
  }

  lemma IdIsCited(claims: seq<Claim>, c: Claim)
    requires c in claims
    ensures c.docId in Dedupe(Map(DocIdOf(), claims))
  {
    var k :| 0 <= k < |claims| && claims[k] == c;
    assert Map(DocIdOf(), claims)[k] == c.docId;
  }

  lemma QuotesItself(claim: Claim, bodies: map<string, string>, supports: Verifier)
    requires !HasBracket(claim.text) && claim.docId in bodies && bodies[claim.docId] == claim.quote
    requires claim.quote != "" && Text.Trimmed(claim.quote) && supports(claim.quote, claim.text)
    ensures Ground(claim, bodies, supports).Admitted?
  {
    Text.TrimOfTrimmed(claim.quote);
    assert Text.OccursAt(claim.quote, claim.quote, 0);
    AdmittedExactly(claim, bodies, supports);
  }

  lemma OnlySegment(text: string, id: string, rest: string)
    requires '[' !in text && ']' !in id && '[' !in rest
    ensures Segments(text + " [" + id + "]" + rest) == [id] && Dedupe([id]) == [id]
  {
    NextOfCited(text, id, rest);
    assert NextSegment(rest).None?;
  }

  lemma Reassociated(text: string, id: string, tail: string)
    ensures text + " [" + (id + "]" + tail) + "]" == text + " [" + id + "]" + (tail + "]")
  {
  }

  /**
   * With such an id the gate can credit a document that no claim cited: the one named by the part before the
   * bracket, when that is sealed too. The claim is admitted all the same.
   */
  lemma ClosingBracketMiscites(claim: Claim, bodies: map<string, string>, id: string, tail: string, supports: Verifier)
    requires claim.docId == id + "]" + tail && ']' !in id && '[' !in tail
    requires id in bodies && claim.docId in bodies && bodies[claim.docId] == claim.quote
    requires claim.quote != "" && Text.Trimmed(claim.quote)
    requires !HasBracket(claim.text) && supports(claim.quote, claim.text)
    ensures Ground(claim, bodies, supports).Admitted? && id != claim.docId
    ensures Validated(Composed([claim]), bodies.Keys) == Ok([id])
  {
    QuotesItself(claim, bodies, supports);
    Reassociated(claim.text, id, tail);
    OnlySegment(claim.text, id, tail + "]");
  }

  // -------------------------------------------------------------------------
  // The answer
  // -------------------------------------------------------------------------

  datatype AnswerClaim = AnswerClaim(docId: string, locator: string, text: string)

  datatype Answer = Answer(citations: seq<string>, claims: seq<AnswerClaim>, text: string)

  /** By document, then by locator, then by text. */
  predicate AnswerClaimLe(a: AnswerClaim, b: AnswerClaim) {
    if a.docId != b.docId then StringLe(a.docId, b.docId)
    else if a.locator != b.locator then StringLe(a.locator, b.locator)
    else StringLe(a.text, b.text)
  }

  lemma AnswerClaimLeIsTotalOrder()
    ensures TotalOrder(AnswerClaimLe)
  {
    StringLeIsTotalOrder();
    forall x: AnswerClaim, y: AnswerClaim
      ensures AnswerClaimLe(x, y) || AnswerClaimLe(y, x)
    {
      assert StringLe(x.docId, y.docId) || StringLe(y.docId, x.docId);
      assert StringLe(x.locator, y.locator) || StringLe(y.locator, x.locator);
      assert StringLe(x.text, y.text) || StringLe(y.text, x.text);
    }
  }

  function ClaimOf(): ((Claim, Anchor)) -> Claim {
    (x: (Claim, Anchor)) => x.0
  }

  function ShownClaim(): ((Claim, Anchor)) -> AnswerClaim {
    (x: (Claim, Anchor)) => AnswerClaim(x.0.docId, x.1.locator, x.0.text)
  }

  /** Every id once, in id order. */
  ghost predicate SortedIds(citations: seq<string>, claims: seq<Claim>) {
    && SortedBy(StringLe, citations) && Distinct(citations)
    && forall id :: id in citations <==> id in Map(DocIdOf(), claims)
  }

  /** An answer's claims, one for each of these claims: its own document and text, and where its quote first stands. */
  ghost predicate ShowsEach(shown: seq<AnswerClaim>, claims: seq<Claim>, bodies: map<string, string>) {
    && |shown| == |claims|
    && forall i :: 0 <= i < |shown| ==>
         shown[i].docId == claims[i].docId && shown[i].text == claims[i].text
         && Locates(shown[i].locator, claims[i], bodies)
  }

  /** By document, then locator, then text. */
  ghost predicate InAnswerOrder(a: AnswerClaim, b: AnswerClaim) {
    || (a.docId != b.docId && StringLe(a.docId, b.docId))
    || (a.docId == b.docId && a.locator != b.locator && StringLe(a.locator, b.locator))
    || (a.docId == b.docId && a.locator == b.locator && StringLe(a.text, b.text))
  }

  ghost predicate ShownInOrder(shown: seq<AnswerClaim>, claims: seq<Claim>, bodies: map<string, string>) {
    && (forall i, j :: 0 <= i < j < |shown| ==> InAnswerOrder(shown[i], shown[j]))
    && exists unsorted :: multiset(unsorted) == multiset(shown) && ShowsEach(unsorted, claims, bodies)
  }

  /** The answer made of these claims. */
  ghost predicate AnswersWith(answer: Answer, claims: seq<Claim>, bodies: map<string, string>) {
    && answer.text == Composed(claims) && SortedIds(answer.citations, claims)
    && ShownInOrder(answer.claims, claims, bodies)
  }

  lemma KeptClaims(admitted: seq<(Claim, Anchor)>, passing: seq<Claim>, bodies: map<string, string>)
    requires AllAnchored(admitted, passing, bodies)
    ensures Map(ClaimOf(), admitted) == passing && ShowsEach(Map(ShownClaim(), admitted), passing, bodies)
  {
    forall i | 0 <= i < |admitted|
      ensures ClaimOf()(admitted[i]) == passing[i]
    {
      assert AnchoredBy(admitted[i], passing[i], bodies);
    }
  }

  /**
   * Ground, compose, validate, and only then answer. The answer shows each draft claim that passes the tests and no
   * other, in order of document, locator and text; the rest are counted. Over ids without a closing bracket there is
   * an answer as soon as one draft claim passes.
   */
  method AnswerFrom(draft: seq<Claim>, bodies: map<string, string>)
    returns (answer: Option<Answer>, refused: nat, fault: bool)
    ensures var passing := Filter(PassesIn(bodies), draft);
            && |passing| + refused == |draft|
            && (answer.Some? <==> passing != [] && Validated(Composed(passing), bodies.Keys).Ok?)
            && (fault <==> passing != [] && answer.None?)
            && (answer.Some? ==> AnswersWith(answer.value, passing, bodies))
            && (passing != [] && (forall id :: id in bodies ==> ']' !in id) ==> answer.Some?)
  {
    var admitted: seq<(Claim, Anchor)>;
    admitted, refused := GroundAll(draft, bodies);
    ghost var passing := Filter(PassesIn(bodies), draft);
    KeptClaims(admitted, passing, bodies);
    if forall id :: id in bodies ==> ']' !in id {
      PassingMeansAnswered(draft, bodies);
    }
    if admitted == [] {
      return None, refused, false;
    }
    var claims := Map(ClaimOf(), admitted);
    var text := Composed(claims);
    var gate := ValidateCitations(text, bodies.Keys);
    if gate.Err? {
      return None, refused, true;
    }
    var citations := SortedCitations(claims);
    var shown := SortedClaims(admitted, passing, bodies);
    return Some(Answer(citations, shown, text)), refused, false;
  }

  method SortedCitations(claims: seq<Claim>) returns (citations: seq<string>)
    ensures SortedIds(citations, claims)
  {
    var ids := Dedupe(Map(DocIdOf(), claims));
    StringLeIsTotalOrder();
    SortSorted(StringLe, ids);
    SortKeeps(StringLe, ids);
    citations := Sort(StringLe, ids);
  }

  method SortedClaims(admitted: seq<(Claim, Anchor)>, ghost passing: seq<Claim>, ghost bodies: map<string, string>)
    returns (claims: seq<AnswerClaim>)
    requires AllAnchored(admitted, passing, bodies)
    ensures ShownInOrder(claims, passing, bodies)
  {
    KeptClaims(admitted, passing, bodies);
    SortedShows(Map(ShownClaim(), admitted), passing, bodies);
    claims := Sort(AnswerClaimLe, Map(ShownClaim(), admitted));
  }

  lemma SortedShows(shown: seq<AnswerClaim>, claims: seq<Claim>, bodies: map<string, string>)
    requires ShowsEach(shown, claims, bodies)
    ensures ShownInOrder(Sort(AnswerClaimLe, shown), claims, bodies)
  {
    var sorted := SortClaims(shown);
    SortedMeansInOrder(sorted);
    AnyOrderShows(shown, sorted, claims, bodies);
  }

  lemma SortClaims(shown: seq<AnswerClaim>) returns (sorted: seq<AnswerClaim>)
    ensures sorted == Sort(AnswerClaimLe, shown)
    ensures SortedBy(AnswerClaimLe, sorted) && multiset(sorted) == multiset(shown)
  {
    AnswerClaimLeIsTotalOrder();
    SortSorted(AnswerClaimLe, shown);
    sorted := Sort(AnswerClaimLe, shown);
  }

  lemma AnyOrderShows(shown: seq<AnswerClaim>, sorted: seq<AnswerClaim>, claims: seq<Claim>,
                      bodies: map<string, string>)
    requires ShowsEach(shown, claims, bodies) && multiset(shown) == multiset(sorted)
    requires forall i, j :: 0 <= i < j < |sorted| ==> InAnswerOrder(sorted[i], sorted[j])
    ensures ShownInOrder(sorted, claims, bodies)
  {
  }

  lemma SortedMeansInOrder(sorted: seq<AnswerClaim>)
    requires SortedBy(AnswerClaimLe, sorted)
    ensures forall i, j :: 0 <= i < j < |sorted| ==> InAnswerOrder(sorted[i], sorted[j])
  {
    forall i, j | 0 <= i < j < |sorted|
      ensures InAnswerOrder(sorted[i], sorted[j])
    {
      assert AnswerClaimLe(sorted[i], sorted[j]);
    }
  }

  /** Over sealed ids without a closing bracket, the gate accepts whatever passes, with the ids it cites. */
  lemma PassingMeansAnswered(draft: seq<Claim>, bodies: map<string, string>)
    requires forall id :: id in bodies ==> ']' !in id
    ensures var passing := Filter(PassesIn(bodies), draft);
            passing != [] ==> Validated(Composed(passing), bodies.Keys) == Ok(Dedupe(Map(DocIdOf(), passing)))
  {
    var passing := Filter(PassesIn(bodies), draft);
    forall c | c in passing
      ensures !HasBracket(c.text) && ']' !in c.docId && c.docId in bodies.Keys
    {
      assert Passes(c, bodies);
    }
    if passing != [] {
      ClosedIdsAgree(passing, bodies.Keys);
    }
  }

  // -------------------------------------------------------------------------
  // What is read and what is written
  // -------------------------------------------------------------------------

  /** Where the sentence of claim `i` starts: after the earlier ones, each with its brackets and one blank. */
  function StartOf(claims: seq<Claim>, i: nat): nat
    requires i <= |claims|
  {
    if i == 0 then 0 else StartOf(claims, i - 1) + |claims[i - 1].text| + |claims[i - 1].docId| + 4
  }

  lemma {:induction false} StartOfRest(claims: seq<Claim>, i: nat)
    requires 0 < i <= |claims|
    ensures StartOf(claims, i) == |claims[0].text| + |claims[0].docId| + 4 + StartOf(claims[1..], i - 1)
  {
    if i > 1 {
      StartOfRest(claims, i - 1);
    }
  }

  lemma OccursLater(front: string, rest: string, part: string, k: nat)
    requires Text.OccursAt(rest, part, k)
    ensures Text.OccursAt(front + rest, part, |front| + k)
  {
    assert (front + rest)[|front| + k..|front| + k + |part|] == rest[k..k + |part|];
  }

  lemma ComposedSplits(claims: seq<Claim>)
    requires |claims| > 1
    ensures Composed(claims) == Cited(claims[0]) + " " + Composed(claims[1..])
    ensures |Cited(claims[0])| == |claims[0].text| + |claims[0].docId| + 3
  {
  }

  lemma {:induction false} ComposedLength(claims: seq<Claim>)
    requires claims != []
    ensures |Composed(claims)| == StartOf(claims, |claims|) - 1
  {
    StartOfRest(claims, |claims|);
    if |claims| > 1 {
      ComposedSplits(claims);
      ComposedLength(claims[1..]);
    }
  }

  lemma {:induction false} SentenceAt(claims: seq<Claim>, i: nat)
    requires i < |claims|
    ensures Text.OccursAt(Composed(claims), Cited(claims[i]), StartOf(claims, i))
  {
    if |claims| > 1 {
      ComposedSplits(claims);
      var spaced, rest := Cited(claims[0]) + " ", claims[1..];
      if i > 0 {
        SentenceAt(rest, i - 1);
        StartOfRest(claims, i);
        OccursLater(spaced, Composed(rest), Cited(rest[i - 1]), StartOf(rest, i - 1));
      } else {
        assert (spaced + Composed(rest))[..|spaced| - 1] == Cited(claims[0]);
      }
    }
  }

  lemma FurtherOn(front: string, rest: string, text: string, k: nat)
    requires text == front + rest
    ensures k < |rest| ==> text[|front| + k] == rest[k]
    ensures front != "" ==> text[|front| - 1] == front[|front| - 1]
  {
  }

  lemma {:induction false} BlankBefore(claims: seq<Claim>, i: nat)
    requires 0 < i < |claims|
    ensures 0 < StartOf(claims, i) <= |Composed(claims)| && Composed(claims)[StartOf(claims, i) - 1] == ' '
  {
    var spaced, rest := Cited(claims[0]) + " ", claims[1..];
    ComposedSplits(claims);
    StartOfRest(claims, i);
    if i == 1 {
      FurtherOn(spaced, Composed(rest), Composed(claims), 0);
    } else {
      BlankBefore(rest, i - 1);
      FurtherOn(spaced, Composed(rest), Composed(claims), StartOf(rest, i - 1) - 1);
    }
  }

  /** The composed text is each claim's text and bracketed id, in order, one blank apart and nothing else. */
  lemma ComposedText(claims: seq<Claim>, i: nat)
    requires i < |claims|
    ensures |Composed(claims)| == StartOf(claims, |claims|) - 1
    ensures Text.OccursAt(Composed(claims), claims[i].text + " [" + claims[i].docId + "]", StartOf(claims, i))
    ensures i > 0 ==> 0 < StartOf(claims, i) <= |Composed(claims)| && Composed(claims)[StartOf(claims, i) - 1] == ' '
  {
    ComposedLength(claims);
    SentenceAt(claims, i);
    if i > 0 {
      BlankBefore(claims, i);
    }
  }

  /** A text without a bracket pair is refused as uncited. */
  lemma UncitedIsRefused(text: string, sealed: set<string>)
    requires '[' !in text || (exists k :: 0 <= k < |text| && '[' !in text[..k] && text[k] == '[' && ']' !in text[k..])
    ensures Validated(text, sealed) == Err(Uncited)
  {
    NoPair(text);
    assert Segments(text) == [];
  }

  lemma NoPair(text: string)
    requires '[' !in text || (exists k :: 0 <= k < |text| && '[' !in text[..k] && text[k] == '[' && ']' !in text[k..])
    ensures NextSegment(text).None?
  {
    if '[' in text {
      var k :| 0 <= k < |text| && '[' !in text[..k] && text[k] == '[' && ']' !in text[k..];
      assert text == text[..k] + ['['] + text[k + 1..];
      FirstIs(text[..k], '[', text[k + 1..]);
      assert forall c :: c in text[k + 1..] ==> c in text[k..];
    }
  }

  /** The gate reads the first bracket pair and then the text after it: a foreign id is refused, others are listed. */
  lemma GateReadsOnward(before: string, id: string, after: string, sealed: set<string>)
    requires '[' !in before && ']' !in id
    ensures var text := before + "[" + id + "]" + after;
            && (id !in sealed ==> Validated(text, sealed) == Err(OutOfContext))
            && (id in sealed ==>
                  match Validated(after, sealed)
                  case Ok(ids) =>
                    Validated(text, sealed).Ok?
                    && forall x :: x in Validated(text, sealed).value <==> x == id || x in ids
                  case Err(Uncited) => Validated(text, sealed) == Ok([id])
                  case Err(OutOfContext) => Validated(text, sealed) == Err(OutOfContext))
  {
    FirstPair(before, id, after);
    ReadsOnward(before + "[" + id + "]" + after, id, after, sealed);
  }

  lemma FirstPair(before: string, id: string, after: string)
    requires '[' !in before && ']' !in id
    ensures Segments(before + "[" + id + "]" + after) == [id] + Segments(after)
  {
    var text, tail := before + "[" + id + "]" + after, id + "]" + after;
    assert text == before + ['['] + tail;
    FirstIs(before, '[', tail);
    assert text[|before| + 1..] == tail;
    FirstIs(id, ']', after);
    assert tail[..|id|] == id && tail[|id| + 1..] == after;
  }

  lemma ReadsOnward(text: string, id: string, after: string, sealed: set<string>)
    requires Segments(text) == [id] + Segments(after)
    ensures id !in sealed ==> Validated(text, sealed) == Err(OutOfContext)
    ensures id in sealed ==>
              match Validated(after, sealed)
              case Ok(ids) =>
                Validated(text, sealed).Ok?
                && forall x :: x in Validated(text, sealed).value <==> x == id || x in ids
              case Err(Uncited) => Validated(text, sealed) == Ok([id])
              case Err(OutOfContext) => Validated(text, sealed) == Err(OutOfContext)
  {
    VerdictOnward(id, Segments(after), sealed);
  }

  lemma VerdictOnward(id: string, rest: seq<string>, sealed: set<string>)
    ensures id !in sealed ==> Verdict([id] + rest, sealed) == Err(OutOfContext)
    ensures id in sealed ==>
              match Verdict(rest, sealed)
              case Ok(ids) =>
                Verdict([id] + rest, sealed).Ok?
                && forall x :: x in Verdict([id] + rest, sealed).value <==> x == id || x in ids
              case Err(Uncited) => Verdict([id] + rest, sealed) == Ok([id])
              case Err(OutOfContext) => Verdict([id] + rest, sealed) == Err(OutOfContext)
  {
    var all := [id] + rest;
    assert forall x :: x in all <==> x == id || x in rest;
    if rest == [] {
      assert all == [id] && Dedupe([id]) == [id];
    }
  }
}
