/** What a lane says, in terms of the graph's rows and the person's own artifact. */
module LaneFacts {
  import opened Basics
  import opened Ordering
  import opened Brm
  import opened TopK
  import opened LaneSeeds

  // -------------------------------------------------------------------------
  // The artifact
  // -------------------------------------------------------------------------

  /** Some entry of the artifact is about this document. */
  ghost predicate Seen(facts: seq<Fact>, d: string) {
    exists i :: 0 <= i < |facts| && facts[i].documentId == d
  }

  /** The last entry about this document. */
  ghost predicate Says(facts: seq<Fact>, d: string, f: Fact) {
    exists i :: 0 <= i < |facts| && facts[i] == f && f.documentId == d
                && forall j :: i < j < |facts| ==> facts[j].documentId != d
  }

  lemma {:induction false} FactsAreLast(facts: seq<Fact>, d: string)
    ensures d in FactsOf(facts) <==> Seen(facts, d)
    ensures d in FactsOf(facts) ==> Says(facts, d, FactsOf(facts)[d])
  {
    if facts != [] {
      var n := |facts| - 1;
      var before := facts[..n];
      FactsAreLast(before, d);
      if facts[n].documentId == d {
        assert facts[n] == FactsOf(facts)[d];
      } else {
        if Seen(before, d) {
          var i :| 0 <= i < |before| && before[i] == FactsOf(before)[d] && before[i].documentId == d
                   && forall j :: i < j < |before| ==> before[j].documentId != d;
          assert facts[i] == FactsOf(facts)[d];
          assert forall j :: i < j < |facts| ==> facts[j].documentId != d;
        }
        if i :| 0 <= i < |facts| && facts[i].documentId == d {
          assert before[i].documentId == d;
        }
      }
    }
  }

  // -------------------------------------------------------------------------
  // Evidence
  // -------------------------------------------------------------------------

  /** A citation: what the artifact says, with the successor exactly when the person can see that too. */
  ghost predicate CitesRightly(facts: seq<Fact>, e: Evidence) {
    exists f :: Says(facts, e.documentId, f) && e.superseded == f.superseded
                && forall x :: e.successor == Some(x) <==> f.superseded && f.successor == Some(x) && Seen(facts, x)
  }

  ghost function SeenBy(facts: seq<Fact>): string -> bool {
    (d: string) => Seen(facts, d)
  }

  /** The evidence of a capability: its visible documents in id order, each cited rightly. */
  ghost predicate EvidenceFor(facts: seq<Fact>, c: Node, evidence: seq<Evidence>) {
    && evidence != []
    && multiset(Map((e: Evidence) => e.documentId, evidence)) == multiset(Filter(SeenBy(facts), c.children))
    && (forall a, b :: 0 <= a < b < |evidence| ==> StringLe(evidence[a].documentId, evidence[b].documentId))
    && (forall e :: e in evidence ==> CitesRightly(facts, e))
  }

  lemma CiteIsRight(p: Person, d: string)
    requires d in FactsOf(p.facts)
    ensures CitesRightly(p.facts, Cite(p, d)) && Cite(p, d).documentId == d
    ensures Withdrawn(p, d) <==> Cite(p, d).superseded && Cite(p, d).successor.None?
  {
    FactsAreLast(p.facts, d);
    var f := FactsOf(p.facts)[d];
    assert Says(p.facts, d, f);
    if f.successor.Some? {
      FactsAreLast(p.facts, f.successor.value);
    }
  }

  lemma {:induction false} SameScope(p: Person, ids: seq<string>)
    ensures Filter(LaneSeeds.InScope(p), ids) == Filter(SeenBy(p.facts), ids)
  {
    if ids != [] {
      FactsAreLast(p.facts, ids[0]);
      SameScope(p, ids[1..]);
    }
  }

  lemma VisibleInOrder(p: Person, c: Node)
    ensures var visible := Sort(StringLe, Filter(LaneSeeds.InScope(p), c.children));
            && multiset(visible) == multiset(Filter(SeenBy(p.facts), c.children))
            && (forall a, b :: 0 <= a < b < |visible| ==> StringLe(visible[a], visible[b]))
            && forall d :: d in visible ==> d in FactsOf(p.facts)
  {
    SameScope(p, c.children);
    SortKeeps(StringLe, Filter(LaneSeeds.InScope(p), c.children));
    StringLeIsTotalOrder();
    SortSorted(StringLe, Filter(LaneSeeds.InScope(p), c.children));
  }

  lemma EvidenceIsFor(p: Person, c: Node, visible: seq<string>)
    requires visible == Sort(StringLe, Filter(LaneSeeds.InScope(p), c.children)) && visible != []
    ensures EvidenceFor(p.facts, c, Map(EvidenceOf(p), visible))
    ensures (exists d :: d in visible && Withdrawn(p, d))
       <==> exists e :: e in Map(EvidenceOf(p), visible) && e.superseded && e.successor.None?
  {
    VisibleInOrder(p, c);
    CitedInOrder(p, visible);
    assert Map((e: Evidence) => e.documentId, Map(EvidenceOf(p), visible)) == visible;
  }

  lemma CitedInOrder(p: Person, visible: seq<string>)
    requires forall d :: d in visible ==> d in FactsOf(p.facts)
    ensures var evidence := Map(EvidenceOf(p), visible);
            && (forall i :: 0 <= i < |visible| ==> evidence[i].documentId == visible[i])
            && (forall e :: e in evidence ==> CitesRightly(p.facts, e))
            && ((exists d :: d in visible && Withdrawn(p, d))
                <==> exists e :: e in evidence && e.superseded && e.successor.None?)
  {
    var evidence := Map(EvidenceOf(p), visible);
    forall i | 0 <= i < |visible|
      ensures evidence[i].documentId == visible[i] && CitesRightly(p.facts, evidence[i])
      ensures Withdrawn(p, visible[i]) <==> evidence[i].superseded && evidence[i].successor.None?
    {
      assert visible[i] in visible;
      CiteIsRight(p, visible[i]);
    }
    if d :| d in visible && Withdrawn(p, d) {
      var i :| 0 <= i < |visible| && visible[i] == d;
      assert evidence[i] in evidence;
    }
  }

  // -------------------------------------------------------------------------
  // A box
  // -------------------------------------------------------------------------

  /** The rows a box stands on, one of each level, each the parent of the one before. */
  ghost predicate StandsOn(g: Graph, s: Seed, c: Node, w: Node, i: Node, t: Node) {
    && c in g.capabilities && w in g.workflows && i in g.initiatives && t in g.strategies
    && c.id == s.capabilityId && w.id == s.workflowId && i.id == s.initiativeId && t.id == s.strategyId
    && c.parent == w.id && w.parent == i.id && i.parent == t.id
  }

  /** A capability of the person's department with something in it they can see. */
  ghost predicate Eligible(p: Person, docs: Departments, c: Node) {
    && (exists d :: d in c.children && d in docs && docs[d] == p.department)
    && Filter(SeenBy(p.facts), c.children) != []
  }

  /** A box tells the truth: where it stands, whose it is, what it cites, and whether it is blocked. */
  ghost predicate Honest(sha256: Sha256, p: Person, docs: Departments, g: Graph, snapshot: string, s: Seed) {
    && s.boxId == Take(sha256(p.principal + "\n" + s.capabilityId + "\n" + snapshot).hex, 16)
    && (s.blocked <==> exists e :: e in s.evidence && e.superseded && e.successor.None?)
    && exists c, w, i, t :: StandsOn(g, s, c, w, i, t) && Eligible(p, docs, c) && EvidenceFor(p.facts, c, s.evidence)
  }

  lemma {:induction false} IndexHolds(nodes: seq<Node>, id: string)
    requires id in Index(nodes)
    ensures Index(nodes)[id] in nodes && Index(nodes)[id].id == id
  {
    if nodes[|nodes| - 1].id != id {
      IndexHolds(nodes[..|nodes| - 1], id);
    }
  }

  lemma SeedStandsOn(sha256: Sha256, p: Person, g: Graph, snapshot: string, c: Candidate)
    returns (w: Node, i: Node, t: Node)
    requires c.capability in g.capabilities && SeedOf(sha256, p, g, snapshot)(c).Ok?
    ensures StandsOn(g, SeedOf(sha256, p, g, snapshot)(c).value, c.capability, w, i, t)
  {
    w := Index(g.workflows)[c.capability.parent];
    i := Index(g.initiatives)[w.parent];
    t := Index(g.strategies)[i.parent];
    IndexHolds(g.workflows, c.capability.parent);
    IndexHolds(g.initiatives, w.parent);
    IndexHolds(g.strategies, i.parent);
  }

  lemma CandidateIsEligibleFor(p: Person, docs: Departments, g: Graph, c: Candidate)
    requires c in Candidates(p, docs, g)
    ensures c.capability in g.capabilities && Eligible(p, docs, c.capability)
    ensures EvidenceFor(p.facts, c.capability, Map(EvidenceOf(p), c.visible))
    ensures (exists d :: d in c.visible && Withdrawn(p, d))
       <==> exists e :: e in Map(EvidenceOf(p), c.visible) && e.superseded && e.successor.None?
  {
    CandidateFacts(p, docs, g, c);
    EvidenceIsFor(p, c.capability, c.visible);
    SameScope(p, c.capability.children);
    SortKeeps(StringLe, Filter(LaneSeeds.InScope(p), c.capability.children));
  }

  lemma SeedIsHonest(sha256: Sha256, p: Person, docs: Departments, g: Graph, snapshot: string, c: Candidate)
    requires c in Candidates(p, docs, g) && SeedOf(sha256, p, g, snapshot)(c).Ok?
    ensures Honest(sha256, p, docs, g, snapshot, SeedOf(sha256, p, g, snapshot)(c).value)
  {
    CandidateIsEligibleFor(p, docs, g, c);
    var w, i, t := SeedStandsOn(sha256, p, g, snapshot, c);
  }

  lemma {:induction false} TraversedEach<T, U, E>(f: T -> Result<U, E>, s: seq<T>)
    requires Traverse(f, s).Ok?
    ensures |Traverse(f, s).value| == |s| && forall k :: 0 <= k < |s| ==> f(s[k]) == Ok(Traverse(f, s).value[k])
  {
    if s != [] {
      TraversedEach(f, s[..|s| - 1]);
    }
  }

  lemma JoiningKeepsHonesty(sha256: Sha256, p: Person, docs: Departments, g: Graph, snapshot: string, seeds: seq<Seed>,
                            s: Seed)
    requires Honest(sha256, p, docs, g, snapshot, s)
    ensures Honest(sha256, p, docs, g, snapshot, Joined(g, seeds, s))
  {
    var c, w, i, t :| StandsOn(g, s, c, w, i, t) && Eligible(p, docs, c) && EvidenceFor(p.facts, c, s.evidence);
    assert StandsOn(g, Joined(g, seeds, s), c, w, i, t);
  }

  /** How much of a capability the person can see. */
  ghost function Coverage(p: Person, c: Node): nat {
    |Filter(SeenBy(p.facts), c.children)|
  }

  /** More coverage first, then capability id. */
  ghost predicate CoveredFirst(p: Person, a: Node, b: Node) {
    Coverage(p, a) > Coverage(p, b) || (Coverage(p, a) == Coverage(p, b) && StringLe(a.id, b.id))
  }

  /** The lane's boxes come best covered first, and a capability left out of a full lane comes no earlier than any. */
  ghost predicate BestCovered(p: Person, docs: Departments, g: Graph, lane: seq<Seed>, rows: seq<Node>) {
    && |lane| == |rows| <= 8
    && (forall k :: 0 <= k < |rows| ==> rows[k] in g.capabilities && rows[k].id == lane[k].capabilityId)
    && (forall a, b :: 0 <= a < b < |rows| ==> CoveredFirst(p, rows[a], rows[b]))
    && (forall c, k :: c in g.capabilities && Eligible(p, docs, c) && c !in rows && 0 <= k < |rows| ==>
          CoveredFirst(p, rows[k], c))
    && (forall c :: c in g.capabilities && Eligible(p, docs, c) && c !in rows ==> |rows| == 8)
  }

  lemma CandidateCoverage(p: Person, docs: Departments, g: Graph, a: Candidate, b: Candidate)
    requires a in Candidates(p, docs, g) && CandidateOf(p, docs)(b.capability) == Some(b)
    ensures CandidateLe(a, b) <==> CoveredFirst(p, a.capability, b.capability)
  {
    CandidateFacts(p, docs, g, a);
    SameScope(p, a.capability.children);
    SameScope(p, b.capability.children);
    SortKeeps(StringLe, Filter(LaneSeeds.InScope(p), a.capability.children));
    SortKeeps(StringLe, Filter(LaneSeeds.InScope(p), b.capability.children));
  }

  lemma EligibleIsCandidate(p: Person, docs: Departments, c: Node)
    ensures CandidateOf(p, docs)(c).Some? <==> Eligible(p, docs, c)
    ensures CandidateOf(p, docs)(c).Some? ==> CandidateOf(p, docs)(c).value.capability == c
  {
    SameScope(p, c.children);
  }

  lemma CandidatesAreBestCovered(p: Person, docs: Departments, g: Graph, lane: seq<Seed>)
    requires |lane| == |Candidates(p, docs, g)|
    requires forall k :: 0 <= k < |lane| ==> lane[k].capabilityId == Candidates(p, docs, g)[k].capability.id
    ensures BestCovered(p, docs, g, lane, Map((c: Candidate) => c.capability, Candidates(p, docs, g)))
  {
    var all := Collect(CandidateOf(p, docs), g.capabilities);
    var candidates := Candidates(p, docs, g);
    var rows := Map((c: Candidate) => c.capability, candidates);
    CandidateLeIsPreorder();
    BestIsBest(CandidateLe, all, MAX_BOXES);
    forall k | 0 <= k < |rows|
      ensures rows[k] in g.capabilities && CandidateOf(p, docs)(rows[k]) == Some(candidates[k])
    {
      assert candidates[k] in candidates;
      CandidateIsEligible(p, docs, g, candidates[k]);
    }
    forall a, b | 0 <= a < b < |rows|
      ensures CoveredFirst(p, rows[a], rows[b])
    {
      assert candidates[a] in candidates && CandidateLe(candidates[a], candidates[b]);
      CandidateCoverage(p, docs, g, candidates[a], candidates[b]);
    }
    forall c | c in g.capabilities && Eligible(p, docs, c) && c !in rows
      ensures |rows| == 8 && forall k :: 0 <= k < |rows| ==> CoveredFirst(p, rows[k], c)
    {
      EligibleIsCandidate(p, docs, c);
      LeftOutIsCovered(p, docs, g, c);
    }
  }

  lemma CapabilityListed(candidates: seq<Candidate>, c: Candidate)
    ensures c in candidates ==> c.capability in Map((x: Candidate) => x.capability, candidates)
  {
    if k :| 0 <= k < |candidates| && candidates[k] == c {
      assert Map((x: Candidate) => x.capability, candidates)[k] == c.capability;
    }
  }

  lemma LeftOutIsCovered(p: Person, docs: Departments, g: Graph, c: Node)
    requires c in g.capabilities && CandidateOf(p, docs)(c).Some?
    requires c !in Map((x: Candidate) => x.capability, Candidates(p, docs, g))
    ensures |Candidates(p, docs, g)| == 8
    ensures forall k :: 0 <= k < |Candidates(p, docs, g)| ==> CoveredFirst(p, Candidates(p, docs, g)[k].capability, c)
  {
    var candidates, left := Candidates(p, docs, g), CandidateOf(p, docs)(c).value;
    var all := Collect(CandidateOf(p, docs), g.capabilities);
    EligibleIsCandidate(p, docs, c);
    CollectMembers(CandidateOf(p, docs), g.capabilities, left);
    CandidateLeIsPreorder();
    BestIsBest(CandidateLe, all, MAX_BOXES);
    SortKeeps(CandidateLe, all);
    CapabilityListed(candidates, left);
    forall k | 0 <= k < |candidates|
      ensures CoveredFirst(p, candidates[k].capability, c)
    {
      assert candidates[k] in candidates && CandidateLe(candidates[k], left);
      CandidateCoverage(p, docs, g, candidates[k], left);
    }
  }

  /** The lane of a person, told by the graph's rows and the person's artifact alone. */
  ghost predicate TellsTheTruth(sha256: Sha256, p: Person, docs: Departments, g: Graph, snapshot: string,
                                lane: seq<Seed>)
  {
    && (forall s :: s in lane ==> Honest(sha256, p, docs, g, snapshot, s))
    && exists rows :: BestCovered(p, docs, g, lane, rows)
  }

  /** Every lane that is derived and joined tells the truth. */
  lemma LaneTellsTheTruth(sha256: Sha256, p: Person, docs: Departments, g: Graph, snapshot: string, lane: seq<Seed>)
    requires Derived(sha256, p, docs, g, snapshot).Ok?
    requires var derived := Derived(sha256, p, docs, g, snapshot).value;
             |lane| == |derived| && forall k :: 0 <= k < |derived| ==> lane[k] == Joined(g, derived, derived[k])
    ensures TellsTheTruth(sha256, p, docs, g, snapshot, lane)
  {
    var derived, candidates := Derived(sha256, p, docs, g, snapshot).value, Candidates(p, docs, g);
    TraversedEach(SeedOf(sha256, p, g, snapshot), candidates);
    forall s | s in lane
      ensures Honest(sha256, p, docs, g, snapshot, s)
    {
      var k :| 0 <= k < |lane| && lane[k] == s;
      BoxIsHonest(sha256, p, docs, g, snapshot, k);
    }
    CandidatesAreBestCovered(p, docs, g, lane);
  }

  lemma BoxIsHonest(sha256: Sha256, p: Person, docs: Departments, g: Graph, snapshot: string, k: nat)
    requires Derived(sha256, p, docs, g, snapshot).Ok? && k < |Derived(sha256, p, docs, g, snapshot).value|
    ensures var derived := Derived(sha256, p, docs, g, snapshot).value;
            Honest(sha256, p, docs, g, snapshot, Joined(g, derived, derived[k]))
  {
    var derived, candidates := Derived(sha256, p, docs, g, snapshot).value, Candidates(p, docs, g);
    TraversedEach(SeedOf(sha256, p, g, snapshot), candidates);
    assert candidates[k] in candidates;
    SeedIsHonest(sha256, p, docs, g, snapshot, candidates[k]);
    JoiningKeepsHonesty(sha256, p, docs, g, snapshot, derived, derived[k]);
  }

  // -------------------------------------------------------------------------
  // The two lists
  // -------------------------------------------------------------------------

  /** `w` is the workflow right after `v`: greater, with no other between. */
  ghost predicate NextAfter(children: seq<string>, v: string, w: string) {
    && v in children && w in children && v != w && StringLe(v, w)
    && forall x :: x in children ==> StringLe(x, v) || StringLe(w, x)
  }

  lemma OneFurtherIsNext(sequence: seq<string>, v: string, w: string)
    requires Distinct(sequence) && SortedBy(StringLe, sequence) && v in sequence && w in sequence
    ensures Position(sequence, w) == Position(sequence, v) + 1 <==> NextAfter(sequence, v, w)
  {
    StringLeIsTotalOrder();
    var p, q := Position(sequence, v), Position(sequence, w);
    if q == p + 1 {
      forall x | x in sequence
        ensures StringLe(x, v) || StringLe(w, x)
      {
        var k :| 0 <= k < |sequence| && sequence[k] == x;
        assert k < p ==> StringLe(sequence[k], sequence[p]);
        assert k > q ==> StringLe(sequence[q], sequence[k]);
      }
      assert StringLe(sequence[p], sequence[q]);
    }
    assert q < p ==> StringLe(sequence[q], sequence[p]);
    assert p + 1 < q ==> StringLe(sequence[p], sequence[p + 1]) && StringLe(sequence[p + 1], sequence[q]);
    assert p + 1 < q ==> sequence[p + 1] in sequence;
  }

  /** A box blocks another exactly when that one stands at the next workflow of the same initiative. */
  lemma BlocksTheNext(g: Graph, docs: set<string>, seeds: seq<Seed>, a: nat, b: nat)
    requires LaneOver(g, docs, seeds) && a < |seeds| && b < |seeds|
    ensures seeds[b].boxId in Joined(g, seeds, seeds[a]).blocks <==>
              && seeds[a].initiativeId == seeds[b].initiativeId
              && exists i :: i in g.initiatives && i.id == seeds[a].initiativeId
                             && NextAfter(i.children, seeds[a].workflowId, seeds[b].workflowId)
  {
    var s, t := seeds[a], seeds[b];
    assert s in seeds && t in seeds;
    BlocksIsFollows(g, docs, seeds, a, b);
    if s.initiativeId == t.initiativeId {
      var sequence, row := Sequence(g, s.initiativeId), Index(g.initiatives)[s.initiativeId];
      SequenceIsDistinct(g, docs, s.initiativeId);
      StringLeIsTotalOrder();
      SortSorted(StringLe, row.children);
      OneFurtherIsNext(sequence, s.workflowId, t.workflowId);
      SameNext(sequence, row.children, s.workflowId, t.workflowId);
      IndexHolds(g.initiatives, s.initiativeId);
      OnlyRow(g, docs, s.initiativeId);
    }
  }

  lemma SameNext(a: seq<string>, b: seq<string>, v: string, w: string)
    requires forall x :: x in a <==> x in b
    ensures NextAfter(a, v, w) <==> NextAfter(b, v, w)
  {
  }

  lemma OnlyRow(g: Graph, docs: set<string>, id: string)
    requires ValidGraph(g, docs) && id in Index(g.initiatives)
    ensures forall i :: i in g.initiatives && i.id == id ==> i == Index(g.initiatives)[id]
  {
    IndexHolds(g.initiatives, id);
    forall i | i in g.initiatives && i.id == id
      ensures i == Index(g.initiatives)[id]
    {
      var a :| 0 <= a < |g.initiatives| && g.initiatives[a] == i;
      var b :| 0 <= b < |g.initiatives| && g.initiatives[b] == Index(g.initiatives)[id];
      assert NodeIds(g.initiatives)[a] == NodeIds(g.initiatives)[b];
    }
  }

  /** The lists hold nothing but ids of the lane's boxes. */
  lemma ListsHoldLaneIds(g: Graph, seeds: seq<Seed>, s: Seed, id: string)
    requires s.blocks == [] && s.blockedBy == []
    requires id in Joined(g, seeds, s).blocks || id in Joined(g, seeds, s).blockedBy
    ensures exists t :: t in seeds && t.boxId == id
  {
    var sequence := Sequence(g, s.initiativeId);
    var p := Position(sequence, s.workflowId);
    if id in Joined(g, seeds, s).blocks {
      CollectMembers(BoxAt((s.initiativeId, sequence[p + 1])), seeds, id);
    } else {
      CollectMembers(BoxAt((s.initiativeId, sequence[p - 1])), seeds, id);
    }
  }
}
