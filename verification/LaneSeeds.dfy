/**
 * One person's derived lane: up to eight capabilities of their department that they have evidence for, each a
 * box, joined into a "blocks" relation by the order of workflows within an initiative.
 */
module LaneSeeds {
  import opened Basics
  import opened Ordering
  import opened Brm
  import opened TopK

  const MAX_BOXES := 8

  /** One entry of the person's verified artifact. */
  datatype Fact = Fact(documentId: string, superseded: bool, successor: Option<string>)

  datatype Person = Person(principal: string, department: string, facts: seq<Fact>)

  datatype Evidence = Evidence(documentId: string, successor: Option<string>, superseded: bool)

  datatype Candidate = Candidate(capability: Node, visible: seq<string>)

  datatype Seed = Seed(blocked: bool, blockedBy: seq<string>, blocks: seq<string>, boxId: string, capabilityId: string,
                       workflowId: string, initiativeId: string, strategyId: string, evidence: seq<Evidence>)

  datatype Fault = UnknownDocument | UnknownWorkflow | UnknownInitiative | UnknownStrategy

  /** The artifact's entries by document; a later entry of the same document wins. */
  function FactsOf(facts: seq<Fact>): map<string, Fact> {
    if facts == [] then map[]
    else FactsOf(facts[..|facts| - 1])[facts[|facts| - 1].documentId := facts[|facts| - 1]]
  }

  function InScope(p: Person): string -> bool {
    (d: string) => d in FactsOf(p.facts)
  }

  /** The documents' departments, by document id. */
  type Departments = map<string, string>

  ghost predicate AllMapped(c: Node, docs: Departments) {
    forall d :: d in c.children ==> d in docs
  }

  predicate InDepartment(c: Node, docs: Departments, department: string) {
    exists d :: d in c.children && d in docs && docs[d] == department
  }

  function CandidateOf(p: Person, docs: Departments): Node -> Option<Candidate> {
    (c: Node) =>
      var visible := Filter(InScope(p), c.children);
      if InDepartment(c, docs, p.department) && visible != [] then Some(Candidate(c, Sort(StringLe, visible))) else None
  }

  /** More visible documents first, then capability id. */
  predicate CandidateLe(a: Candidate, b: Candidate) {
    |a.visible| > |b.visible| || (|a.visible| == |b.visible| && StringLe(a.capability.id, b.capability.id))
  }

  method MatchesDepartment(c: Node, docs: Departments, department: string) returns (r: Result<bool, Fault>)
    ensures r.Ok? <==> AllMapped(c, docs)
    ensures r.Ok? ==> r.value == InDepartment(c, docs, department)
  {
    var matched := false;
    for i := 0 to |c.children|
      invariant forall k :: 0 <= k < i ==> c.children[k] in docs
      invariant matched <==> exists k :: 0 <= k < i && c.children[k] in docs && docs[c.children[k]] == department
    {
      if c.children[i] !in docs {
        return Err(UnknownDocument);
      }
      if docs[c.children[i]] == department {
        matched := true;
      }
    }
    return Ok(matched);
  }

  method FindCandidates(p: Person, docs: Departments, g: Graph) returns (r: Result<seq<Candidate>, Fault>)
    ensures r.Ok? <==> forall i :: 0 <= i < |g.capabilities| ==> AllMapped(g.capabilities[i], docs)
    ensures r.Ok? ==>
              r.value == Take(Sort(CandidateLe, Collect(CandidateOf(p, docs), g.capabilities)), MAX_BOXES)
  {
    var candidates: seq<Candidate> := [];
    for i := 0 to |g.capabilities|
      invariant candidates == Collect(CandidateOf(p, docs), g.capabilities[..i])
      invariant forall k :: 0 <= k < i ==> AllMapped(g.capabilities[k], docs)
    {
      var c := g.capabilities[i];
      assert g.capabilities[..i + 1] == g.capabilities[..i] + [c];
      CollectSnoc(CandidateOf(p, docs), g.capabilities[..i], c);
      var matched := MatchesDepartment(c, docs, p.department);
      if matched.Err? {
        return Err(matched.error);
      }
      if !matched.value {
        continue;
      }
      var visible := Filter(InScope(p), c.children);
      if visible == [] {
        continue;
      }
      candidates := candidates + [Candidate(c, Sort(StringLe, visible))];
    }
    assert g.capabilities[..|g.capabilities|] == g.capabilities;
    return Ok(Take(Sort(CandidateLe, candidates), MAX_BOXES));
  }

  // -------------------------------------------------------------------------
  // Boxes
  // -------------------------------------------------------------------------

  /** A withdrawn procedure whose successor the person cannot see. */
  predicate Withdrawn(p: Person, d: string) {
    var facts := FactsOf(p.facts);
    d in facts && facts[d].superseded && !(facts[d].successor.Some? && facts[d].successor.value in facts)
  }

  /** A document as the box cites it: the successor only if the person can see it too. */
  function Cite(p: Person, d: string): Evidence {
    var facts := FactsOf(p.facts);
    if d !in facts then Evidence(d, None, false)
    else
      var f := facts[d];
      Evidence(d, if f.superseded && f.successor.Some? && f.successor.value in facts then f.successor else None,
               f.superseded)
  }

  function EvidenceOf(p: Person): string -> Evidence {
    (d: string) => Cite(p, d)
  }

  /** What a box id is hashed from. */
  function BoxText(principal: string, capabilityId: string, snapshot: string): string {
    principal + "\n" + capabilityId + "\n" + snapshot
  }

  function BoxId(sha256: Sha256, principal: string, capabilityId: string, snapshot: string): string {
    sha256(BoxText(principal, capabilityId, snapshot)).Short()
  }

  function SeedOf(sha256: Sha256, p: Person, g: Graph, snapshot: string): Candidate -> Result<Seed, Fault> {
    (c: Candidate) =>
      var workflows, initiatives, strategies := Index(g.workflows), Index(g.initiatives), Index(g.strategies);
      if c.capability.parent !in workflows then Err(UnknownWorkflow)
      else if workflows[c.capability.parent].parent !in initiatives then Err(UnknownInitiative)
      else if initiatives[workflows[c.capability.parent].parent].parent !in strategies then Err(UnknownStrategy)
      else
        var workflow := workflows[c.capability.parent];
        var initiative := initiatives[workflow.parent];
        var strategy := strategies[initiative.parent];
        Ok(Seed(exists d :: d in c.visible && Withdrawn(p, d), [], [],
                BoxId(sha256, p.principal, c.capability.id, snapshot), c.capability.id,
                workflow.id, initiative.id, strategy.id, Map(EvidenceOf(p), c.visible)))
  }

  method GatherEvidence(p: Person, visible: seq<string>) returns (blocked: bool, evidence: seq<Evidence>)
    requires forall d :: d in visible ==> d in FactsOf(p.facts)
    ensures blocked <==> exists d :: d in visible && Withdrawn(p, d)
    ensures evidence == Map(EvidenceOf(p), visible)
  {
    blocked, evidence := false, [];
    var facts := FactsOf(p.facts);
    for i := 0 to |visible|
      invariant blocked <==> exists k :: 0 <= k < i && Withdrawn(p, visible[k])
      invariant evidence == Map(EvidenceOf(p), visible[..i])
    {
      var d := visible[i];
      var fact := facts[d];
      var successorInScope := fact.successor.Some? && fact.successor.value in facts;
      if fact.superseded && !successorInScope {
        blocked := true;
      }
      evidence := evidence + [Evidence(d, if fact.superseded && successorInScope then fact.successor else None,
                                       fact.superseded)];
      assert evidence[i] == Cite(p, d);
    }
    assert visible[..|visible|] == visible;
  }

  method BuildSeeds(sha256: Sha256, p: Person, g: Graph, snapshot: string, candidates: seq<Candidate>)
    returns (r: Result<seq<Seed>, Fault>)
    requires forall c, d :: c in candidates && d in c.visible ==> d in FactsOf(p.facts)
    ensures r == Traverse(SeedOf(sha256, p, g, snapshot), candidates)
  {
    var seeds: seq<Seed> := [];
    var workflows, initiatives, strategies := Index(g.workflows), Index(g.initiatives), Index(g.strategies);
    for i := 0 to |candidates|
      invariant Traverse(SeedOf(sha256, p, g, snapshot), candidates[..i]) == Ok(seeds)
    {
      var c := candidates[i];
      TraverseSnoc(SeedOf(sha256, p, g, snapshot), candidates, i);
      if c.capability.parent !in workflows {
        return Err(UnknownWorkflow);
      }
      var workflow := workflows[c.capability.parent];
      if workflow.parent !in initiatives {
        return Err(UnknownInitiative);
      }
      var initiative := initiatives[workflow.parent];
      if initiative.parent !in strategies {
        return Err(UnknownStrategy);
      }
      var blocked, evidence := GatherEvidence(p, c.visible);
      seeds := seeds + [Seed(blocked, [], [], BoxId(sha256, p.principal, c.capability.id, snapshot), c.capability.id,
                             workflow.id, initiative.id, strategies[initiative.parent].id, evidence)];
    }
    assert candidates[..|candidates|] == candidates;
    return Ok(seeds);
  }

  // -------------------------------------------------------------------------
  // The join
  // -------------------------------------------------------------------------

  /** Where a box stands: its initiative and its workflow. */
  function Place(s: Seed): (string, string) {
    (s.initiativeId, s.workflowId)
  }

  function BoxAt(place: (string, string)): Seed -> Option<string> {
    (s: Seed) => if Place(s) == place then Some(s.boxId) else None
  }

  function BoxesAt(seeds: seq<Seed>, place: (string, string)): seq<string> {
    Collect(BoxAt(place), seeds)
  }

  /** An initiative's workflows in the order they are worked through. */
  function Sequence(g: Graph, initiative: string): seq<string> {
    if initiative in Index(g.initiatives) then Sort(StringLe, Index(g.initiatives)[initiative].children) else []
  }

  /** First place of `w`, or 0 when it is not there. */
  function Position(sequence: seq<string>, w: string): (p: nat)
    ensures w in sequence ==> p < |sequence| && sequence[p] == w
  {
    IndexOf(sequence, w).GetOr(0)
  }

  function Joined(g: Graph, seeds: seq<Seed>, s: Seed): Seed {
    var sequence := Sequence(g, s.initiativeId);
    var p := Position(sequence, s.workflowId);
    s.(blockedBy := if 0 < p <= |sequence| then BoxesAt(seeds, (s.initiativeId, sequence[p - 1])) else s.blockedBy,
       blocks := if p + 1 < |sequence| then BoxesAt(seeds, (s.initiativeId, sequence[p + 1])) else s.blocks)
  }

  /** The table of boxes by place, as grouped. */
  ghost predicate Groups(derived: seq<Seed>, boxes: map<(string, string), seq<string>>) {
    && (forall place :: place in boxes <==> BoxesAt(derived, place) != [])
    && (forall place :: place in boxes ==> boxes[place] == BoxesAt(derived, place))
  }

  /** Box ids by place, in seed order; places without a box have no entry. */
  method GroupBoxes(seeds: seq<Seed>) returns (boxes: map<(string, string), seq<string>>)
    ensures Groups(seeds, boxes)
  {
    boxes := map[];
    for i := 0 to |seeds|
      invariant Groups(seeds[..i], boxes)
    {
      var s := seeds[i];
      assert seeds[..i + 1] == seeds[..i] + [s];
      forall place
        ensures BoxesAt(seeds[..i + 1], place)
             == if Place(s) == place then BoxesAt(seeds[..i], place) + [s.boxId] else BoxesAt(seeds[..i], place)
      {
        CollectSnoc(BoxAt(place), seeds[..i], s);
      }
      boxes := boxes[Place(s) := (if Place(s) in boxes then boxes[Place(s)] else []) + [s.boxId]];
    }
    assert seeds[..|seeds|] == seeds;
  }

  /** The boxes at a place; one without boxes has no entry and leaves the list empty. */
  method Listed(derived: seq<Seed>, boxes: map<(string, string), seq<string>>, place: (string, string))
    returns (ids: seq<string>)
    requires Groups(derived, boxes)
    ensures ids == BoxesAt(derived, place)
  {
    ids := if place in boxes then boxes[place] else [];
  }

  /** One box's two lists. */
  method Link(g: Graph, derived: seq<Seed>, boxes: map<(string, string), seq<string>>, seed: Seed) returns (s: Seed)
    requires Groups(derived, boxes)
    ensures s == Joined(g, derived, seed)
  {
    s := seed;
    var sequence := Sequence(g, s.initiativeId);
    var p := Position(sequence, s.workflowId);
    if 0 < p <= |sequence| {
      var before := Listed(derived, boxes, (s.initiativeId, sequence[p - 1]));
      s := s.(blockedBy := before);
    }
    if p + 1 < |sequence| {
      var after := Listed(derived, boxes, (s.initiativeId, sequence[p + 1]));
      s := s.(blocks := after);
    }
  }

  ghost predicate Unlinked(seeds: seq<Seed>) {
    forall s :: s in seeds ==> s.blocks == [] && s.blockedBy == []
  }

  /** Fills every box's lists in place. */
  method Join(g: Graph, derived: seq<Seed>) returns (seeds: seq<Seed>)
    requires Unlinked(derived)
    ensures |seeds| == |derived|
    ensures forall k :: 0 <= k < |seeds| ==> seeds[k] == Joined(g, derived, derived[k])
  {
    seeds := derived;
    var boxes := GroupBoxes(derived);
    for k := 0 to |derived|
      invariant |seeds| == |derived|
      invariant forall i :: 0 <= i < k ==> seeds[i] == Joined(g, derived, derived[i])
      invariant forall i :: k <= i < |derived| ==> seeds[i] == derived[i]
    {
      assert derived[k] in derived;
      var linked := Link(g, derived, boxes, seeds[k]);
      seeds := seeds[k := linked];
    }
  }

  // -------------------------------------------------------------------------
  // The whole derivation
  // -------------------------------------------------------------------------

  function Candidates(p: Person, docs: Departments, g: Graph): seq<Candidate> {
    Best(CandidateLe, Collect(CandidateOf(p, docs), g.capabilities), MAX_BOXES)
  }

  /** The boxes before they are joined. */
  function Derived(sha256: Sha256, p: Person, docs: Departments, g: Graph, snapshot: string): Result<seq<Seed>, Fault> {
    Traverse(SeedOf(sha256, p, g, snapshot), Candidates(p, docs, g))
  }

  ghost predicate AllCapabilitiesMapped(g: Graph, docs: Departments) {
    forall i :: 0 <= i < |g.capabilities| ==> AllMapped(g.capabilities[i], docs)
  }

  lemma CandidateIsEligible(p: Person, docs: Departments, g: Graph, c: Candidate)
    requires c in Candidates(p, docs, g)
    ensures c.capability in g.capabilities && CandidateOf(p, docs)(c.capability) == Some(c)
  {
    var all := Collect(CandidateOf(p, docs), g.capabilities);
    SortKeeps(CandidateLe, all);
    assert c in Sort(CandidateLe, all);
    CollectMembers(CandidateOf(p, docs), g.capabilities, c);
  }

  /** A box is drawn only from the person's department, on evidence they can see. */
  lemma CandidateFacts(p: Person, docs: Departments, g: Graph, c: Candidate)
    requires c in Candidates(p, docs, g)
    ensures c.capability in g.capabilities && InDepartment(c.capability, docs, p.department)
    ensures c.visible == Sort(StringLe, Filter(InScope(p), c.capability.children)) && c.visible != []
    ensures forall d :: d in c.visible ==> d in FactsOf(p.facts)
  {
    CandidateIsEligible(p, docs, g, c);
    SortKeeps(StringLe, Filter(InScope(p), c.capability.children));
  }

  lemma CandidateLeIsPreorder()
    ensures TotalPreorder(CandidateLe)
  {
    StringLeIsTotalOrder();
    assert forall a: Candidate, b: Candidate :: StringLe(a.capability.id, b.capability.id)
                                                || StringLe(b.capability.id, a.capability.id);
  }

  /** The eight are the best covered: an eligible capability left out comes no earlier than any that is in. */
  lemma CandidatesAreBest(p: Person, docs: Departments, g: Graph, chosen: Candidate, capability: Node)
    requires chosen in Candidates(p, docs, g) && capability in g.capabilities
    requires CandidateOf(p, docs)(capability).Some?
    requires CandidateOf(p, docs)(capability).value !in Candidates(p, docs, g)
    ensures |Candidates(p, docs, g)| == MAX_BOXES
    ensures CandidateLe(chosen, CandidateOf(p, docs)(capability).value)
  {
    var all, left := Collect(CandidateOf(p, docs), g.capabilities), CandidateOf(p, docs)(capability).value;
    CollectMembers(CandidateOf(p, docs), g.capabilities, left);
    CandidateLeIsPreorder();
    BestIsBest(CandidateLe, all, MAX_BOXES);
    SortKeeps(CandidateLe, all);
  }

  lemma {:induction false} FreshSeeds(sha256: Sha256, p: Person, g: Graph, snapshot: string, candidates: seq<Candidate>)
    requires Traverse(SeedOf(sha256, p, g, snapshot), candidates).Ok?
    ensures Unlinked(Traverse(SeedOf(sha256, p, g, snapshot), candidates).value)
  {
    if candidates != [] {
      FreshSeeds(sha256, p, g, snapshot, candidates[..|candidates| - 1]);
    }
  }

  method SeedsForHuman(sha256: Sha256, p: Person, docs: Departments, g: Graph, snapshot: string)
    returns (r: Result<seq<Seed>, Fault>)
    ensures r.Ok? <==> AllCapabilitiesMapped(g, docs) && Derived(sha256, p, docs, g, snapshot).Ok?
    ensures r.Ok? ==>
              var derived := Derived(sha256, p, docs, g, snapshot).value;
              |r.value| == |derived| && forall k :: 0 <= k < |derived| ==> r.value[k] == Joined(g, derived, derived[k])
  {
    var candidates := FindCandidates(p, docs, g);
    if candidates.Err? {
      return Err(candidates.error);
    }
    forall c | c in candidates.value
      ensures forall d :: d in c.visible ==> d in FactsOf(p.facts)
    {
      CandidateFacts(p, docs, g, c);
    }
    var derived := BuildSeeds(sha256, p, g, snapshot, candidates.value);
    if derived.Err? {
      return derived;
    }
    FreshSeeds(sha256, p, g, snapshot, candidates.value);
    var seeds := Join(g, derived.value);
    return Ok(seeds);
  }

  // -------------------------------------------------------------------------
  // Over a valid graph
  // -------------------------------------------------------------------------

  /** A box stands at a workflow that its initiative lists. */
  ghost predicate InGraph(g: Graph, s: Seed) {
    s.initiativeId in Index(g.initiatives) && s.workflowId in Index(g.initiatives)[s.initiativeId].children
  }

  /** A valid graph gives every row of a level its parent row, which lists it. */
  lemma ParentRow(parents: seq<Node>, children: seq<Node>, j: nat)
    requires Distinct(NodeIds(parents)) && Distinct(NodeIds(children)) && j < |children|
    requires IsPartition(parents, ParentOf(children))
    ensures children[j].parent in Index(parents) && Index(parents)[children[j].parent] in parents
    ensures children[j].id in Index(parents)[children[j].parent].children
    ensures Index(parents)[children[j].parent].id == children[j].parent
  {
    ChildListsInvertParents(parents, children, j);
    IndexFinds(parents);
    var i :| 0 <= i < |parents| && children[j].parent == parents[i].id;
    assert parents[i].id in Index(parents) && Index(parents)[parents[i].id] == parents[i];
  }

  /** Deriving a box from a capability of a valid graph succeeds, and the box stands in the graph. */
  lemma SeedStands(sha256: Sha256, p: Person, g: Graph, snapshot: string, docs: set<string>, c: Candidate)
    requires ValidGraph(g, docs) && c.capability in g.capabilities
    ensures SeedOf(sha256, p, g, snapshot)(c).Ok?
    ensures InGraph(g, SeedOf(sha256, p, g, snapshot)(c).value)
  {
    var j :| 0 <= j < |g.capabilities| && g.capabilities[j] == c.capability;
    ParentRow(g.workflows, g.capabilities, j);
    var w :| 0 <= w < |g.workflows| && g.workflows[w] == Index(g.workflows)[c.capability.parent];
    ParentRow(g.initiatives, g.workflows, w);
    var i :| 0 <= i < |g.initiatives| && g.initiatives[i] == Index(g.initiatives)[g.workflows[w].parent];
    ParentRow(g.strategies, g.initiatives, i);
  }

  /** Over a validated graph every person's lane derives, with at most eight boxes, all standing in the graph. */
  lemma LanesDerive(sha256: Sha256, p: Person, docs: Departments, g: Graph, snapshot: string)
    requires ValidGraph(g, docs.Keys)
    ensures AllCapabilitiesMapped(g, docs) && Derived(sha256, p, docs, g, snapshot).Ok?
    ensures var derived := Derived(sha256, p, docs, g, snapshot).value;
            |derived| <= MAX_BOXES && forall s :: s in derived ==> InGraph(g, s)
  {
    var candidates := Candidates(p, docs, g);
    forall i | 0 <= i < |g.capabilities|
      ensures AllMapped(g.capabilities[i], docs)
    {
      assert MapsCorpus(g.capabilities[i], docs.Keys);
    }
    forall c | c in candidates
      ensures SeedOf(sha256, p, g, snapshot)(c).Ok? && InGraph(g, SeedOf(sha256, p, g, snapshot)(c).value)
    {
      CandidateFacts(p, docs, g, c);
      SeedStands(sha256, p, g, snapshot, docs.Keys, c);
    }
    TraverseAll(SeedOf(sha256, p, g, snapshot), candidates);
    var derived := Derived(sha256, p, docs, g, snapshot).value;
    forall s | s in derived
      ensures InGraph(g, s)
    {
      var k :| 0 <= k < |derived| && derived[k] == s;
      assert candidates[k] in candidates;
    }
  }

  lemma ChildrenAreDistinct(parents: seq<Node>, i: nat)
    requires Distinct(Claims(parents)) && i < |parents|
    ensures Distinct(parents[i].children)
  {
    ClaimsSplit(parents, i);
    var n, own := |Claims(parents[..i])|, parents[i].children;
    forall a, b | 0 <= a < b < |own|
      ensures own[a] != own[b]
    {
      assert Claims(parents)[n + a] != Claims(parents)[n + b];
    }
  }

  /** The sequence of an initiative of a valid graph holds each of its workflows once. */
  lemma SequenceIsDistinct(g: Graph, docs: set<string>, initiative: string)
    requires ValidGraph(g, docs) && initiative in Index(g.initiatives)
    ensures Distinct(Sequence(g, initiative))
    ensures forall w :: w in Sequence(g, initiative) <==> w in Index(g.initiatives)[initiative].children
  {
    IndexKeys(g.initiatives, initiative);
    var i :| 0 <= i < |g.initiatives| && g.initiatives[i] == Index(g.initiatives)[initiative];
    ChildrenAreDistinct(g.initiatives, i);
    SortKeeps(StringLe, g.initiatives[i].children);
  }

  lemma PositionOf(sequence: seq<string>, k: nat)
    requires Distinct(sequence) && k < |sequence|
    ensures Position(sequence, sequence[k]) == k
  {
    assert sequence[k] in sequence;
  }

  function BoxIdOf(): Seed -> string {
    (s: Seed) => s.boxId
  }

  lemma BoxIsAt(seeds: seq<Seed>, place: (string, string), b: nat)
    requires Distinct(Map(BoxIdOf(), seeds)) && b < |seeds|
    ensures seeds[b].boxId in BoxesAt(seeds, place) <==> Place(seeds[b]) == place
  {
    CollectMembers(BoxAt(place), seeds, seeds[b].boxId);
    if s :| s in seeds && BoxAt(place)(s) == Some(seeds[b].boxId) {
      var k :| 0 <= k < |seeds| && seeds[k] == s;
      assert Map(BoxIdOf(), seeds)[k] == Map(BoxIdOf(), seeds)[b];
    }
    assert seeds[b] in seeds;
  }

  /** Box `b` stands at the workflow right after box `a`'s, in the same initiative. */
  ghost predicate Follows(g: Graph, a: Seed, b: Seed) {
    && a.initiativeId == b.initiativeId
    && Position(Sequence(g, b.initiativeId), b.workflowId) == Position(Sequence(g, a.initiativeId), a.workflowId) + 1
  }

  /** In a sequence without repeats, being one further and being the next element are the same. */
  lemma OneFurther(sequence: seq<string>, v: string, w: string)
    requires Distinct(sequence) && v in sequence && w in sequence
    ensures var p, q := Position(sequence, v), Position(sequence, w);
            && (q == p + 1 <==> p + 1 < |sequence| && w == sequence[p + 1])
            && (q == p + 1 <==> 0 < q < |sequence| && v == sequence[q - 1])
  {
    var p, q := Position(sequence, v), Position(sequence, w);
    if p + 1 < |sequence| {
      PositionOf(sequence, p + 1);
    }
    if 0 < q {
      PositionOf(sequence, q - 1);
    }
  }

  lemma NextIsPlaced(g: Graph, docs: set<string>, a: Seed, b: Seed)
    requires ValidGraph(g, docs) && InGraph(g, a) && InGraph(g, b)
    ensures var sequence := Sequence(g, a.initiativeId);
            var p := Position(sequence, a.workflowId);
            Follows(g, a, b) <==> p + 1 < |sequence| && Place(b) == (a.initiativeId, sequence[p + 1])
  {
    SequenceIsDistinct(g, docs, a.initiativeId);
    if a.initiativeId == b.initiativeId {
      OneFurther(Sequence(g, a.initiativeId), a.workflowId, b.workflowId);
    }
  }

  lemma PreviousIsPlaced(g: Graph, docs: set<string>, a: Seed, b: Seed)
    requires ValidGraph(g, docs) && InGraph(g, a) && InGraph(g, b)
    ensures var sequence := Sequence(g, b.initiativeId);
            var p := Position(sequence, b.workflowId);
            Follows(g, a, b) <==> 0 < p < |sequence| && Place(a) == (b.initiativeId, sequence[p - 1])
    ensures Position(Sequence(g, b.initiativeId), b.workflowId) < |Sequence(g, b.initiativeId)|
  {
    SequenceIsDistinct(g, docs, b.initiativeId);
    if a.initiativeId == b.initiativeId {
      OneFurther(Sequence(g, b.initiativeId), a.workflowId, b.workflowId);
    }
  }

  ghost predicate LaneOver(g: Graph, docs: set<string>, seeds: seq<Seed>) {
    && ValidGraph(g, docs) && Unlinked(seeds) && Distinct(Map(BoxIdOf(), seeds))
    && forall s :: s in seeds ==> InGraph(g, s)
  }

  lemma ListedAfter(g: Graph, seeds: seq<Seed>, s: Seed, id: string)
    requires s.blocks == []
    ensures var sequence := Sequence(g, s.initiativeId);
            var p := Position(sequence, s.workflowId);
            id in Joined(g, seeds, s).blocks <==>
              p + 1 < |sequence| && id in BoxesAt(seeds, (s.initiativeId, sequence[p + 1]))
  {
  }

  lemma ListedBefore(g: Graph, seeds: seq<Seed>, s: Seed, id: string)
    requires s.blockedBy == []
    ensures var sequence := Sequence(g, s.initiativeId);
            var p := Position(sequence, s.workflowId);
            id in Joined(g, seeds, s).blockedBy <==>
              0 < p <= |sequence| && id in BoxesAt(seeds, (s.initiativeId, sequence[p - 1]))
  {
  }

  lemma BlocksIsFollows(g: Graph, docs: set<string>, seeds: seq<Seed>, a: nat, b: nat)
    requires LaneOver(g, docs, seeds) && a < |seeds| && b < |seeds|
    ensures seeds[b].boxId in Joined(g, seeds, seeds[a]).blocks <==> Follows(g, seeds[a], seeds[b])
  {
    var s := seeds[a];
    assert s in seeds && seeds[b] in seeds;
    NextIsPlaced(g, docs, s, seeds[b]);
    ListedAfter(g, seeds, s, seeds[b].boxId);
    var sequence, p := Sequence(g, s.initiativeId), Position(Sequence(g, s.initiativeId), s.workflowId);
    if p + 1 < |sequence| {
      BoxIsAt(seeds, (s.initiativeId, sequence[p + 1]), b);
    }
  }

  lemma BlockedByIsFollows(g: Graph, docs: set<string>, seeds: seq<Seed>, a: nat, b: nat)
    requires LaneOver(g, docs, seeds) && a < |seeds| && b < |seeds|
    ensures seeds[a].boxId in Joined(g, seeds, seeds[b]).blockedBy <==> Follows(g, seeds[a], seeds[b])
  {
    var s := seeds[b];
    assert s in seeds && seeds[a] in seeds;
    PreviousIsPlaced(g, docs, seeds[a], s);
    ListedBefore(g, seeds, s, seeds[a].boxId);
    var sequence, p := Sequence(g, s.initiativeId), Position(Sequence(g, s.initiativeId), s.workflowId);
    if 0 < p <= |sequence| {
      BoxIsAt(seeds, (s.initiativeId, sequence[p - 1]), a);
    }
  }

  /** Over a valid graph, with distinct box ids, `blocks` and `blocked_by` are converses of each other. */
  lemma BlocksIsTheConverse(g: Graph, docs: set<string>, seeds: seq<Seed>, a: nat, b: nat)
    requires LaneOver(g, docs, seeds) && a < |seeds| && b < |seeds|
    ensures seeds[b].boxId in Joined(g, seeds, seeds[a]).blocks
       <==> seeds[a].boxId in Joined(g, seeds, seeds[b]).blockedBy
  {
    BlocksIsFollows(g, docs, seeds, a, b);
    BlockedByIsFollows(g, docs, seeds, a, b);
  }

  // -------------------------------------------------------------------------
  // Box ids
  // -------------------------------------------------------------------------

  function CapabilityIdOf(): Candidate -> string {
    (c: Candidate) => c.capability.id
  }

  lemma {:induction false} EligibleIdsDiffer(p: Person, docs: Departments, nodes: seq<Node>)
    requires Distinct(NodeIds(nodes))
    ensures Distinct(Map(CapabilityIdOf(), Collect(CandidateOf(p, docs), nodes)))
    ensures forall id :: id in Map(CapabilityIdOf(), Collect(CandidateOf(p, docs), nodes)) ==> id in NodeIds(nodes)
  {
    if nodes != [] {
      var before, n := nodes[..|nodes| - 1], nodes[|nodes| - 1];
      assert NodeIds(nodes) == NodeIds(before) + [n.id];
      DistinctSnoc(NodeIds(before), n.id);
      EligibleIdsDiffer(p, docs, before);
      var found := Collect(CandidateOf(p, docs), before);
      if CandidateOf(p, docs)(n).Some? {
        var c := CandidateOf(p, docs)(n).value;
        assert Map(CapabilityIdOf(), found + [c]) == Map(CapabilityIdOf(), found) + [n.id];
        DistinctSnoc(Map(CapabilityIdOf(), found), n.id);
      }
    }
  }

  /** No capability is drawn twice. */
  lemma CandidateIdsDiffer(p: Person, docs: Departments, g: Graph)
    requires Distinct(NodeIds(g.capabilities))
    ensures Distinct(Map(CapabilityIdOf(), Candidates(p, docs, g)))
  {
    var all := Collect(CandidateOf(p, docs), g.capabilities);
    var sorted := Map(CapabilityIdOf(), Sort(CandidateLe, all));
    EligibleIdsDiffer(p, docs, g.capabilities);
    MapOfPermutation(CapabilityIdOf(), all, Sort(CandidateLe, all));
    PermutationKeepsDistinct(Map(CapabilityIdOf(), all), sorted);
    forall i, j | 0 <= i < j < |Candidates(p, docs, g)|
      ensures CapabilityIdOf()(Candidates(p, docs, g)[i]) != CapabilityIdOf()(Candidates(p, docs, g)[j])
    {
      assert sorted[i] != sorted[j];
    }
  }

  lemma TextsDiffer(principal: string, a: string, b: string, snapshot: string)
    requires BoxText(principal, a, snapshot) == BoxText(principal, b, snapshot)
    ensures a == b
  {
    var x, y := BoxText(principal, a, snapshot), BoxText(principal, b, snapshot);
    var n := |principal| + 1;
    assert |a| == |b|;
    assert x[n..n + |a|] == a && y[n..n + |b|] == b;
  }

  function BoxTextOf(p: Person, snapshot: string): Candidate -> string {
    (c: Candidate) => BoxText(p.principal, c.capability.id, snapshot)
  }

  /** The texts a lane's box ids are hashed from. */
  function BoxTexts(p: Person, docs: Departments, g: Graph, snapshot: string): seq<string> {
    Map(BoxTextOf(p, snapshot), Candidates(p, docs, g))
  }

  /** The first sixteen digits of the hash tell these texts apart. */
  ghost predicate ShortHashTellsApart(sha256: Sha256, texts: seq<string>) {
    forall x, y :: x in texts && y in texts && sha256(x).Short() == sha256(y).Short() ==> x == y
  }

  lemma BoxTextsDiffer(p: Person, docs: Departments, g: Graph, snapshot: string)
    requires Distinct(NodeIds(g.capabilities))
    ensures Distinct(BoxTexts(p, docs, g, snapshot)) && |BoxTexts(p, docs, g, snapshot)| <= MAX_BOXES
  {
    var ids, texts := Map(CapabilityIdOf(), Candidates(p, docs, g)), BoxTexts(p, docs, g, snapshot);
    CandidateIdsDiffer(p, docs, g);
    forall i, j | 0 <= i < j < |texts|
      ensures texts[i] != texts[j]
    {
      assert ids[i] != ids[j];
      if texts[i] == texts[j] {
        TextsDiffer(p.principal, ids[i], ids[j], snapshot);
      }
    }
  }

  lemma HashedIdsDiffer(sha256: Sha256, texts: seq<string>, ids: seq<string>)
    requires Distinct(texts) && |ids| == |texts| && forall i :: 0 <= i < |ids| ==> ids[i] == sha256(texts[i]).Short()
    ensures Distinct(ids) <==> ShortHashTellsApart(sha256, texts)
  {
    if Distinct(ids) {
      forall x, y | x in texts && y in texts && sha256(x).Short() == sha256(y).Short()
        ensures x == y
      {
        var i :| 0 <= i < |texts| && texts[i] == x;
        var j :| 0 <= j < |texts| && texts[j] == y;
        assert ids[i] == ids[j];
      }
    }
  }

  /** A lane's box ids differ exactly when the truncated hash does not collide on its own eight texts at most. */
  lemma BoxIdsDiffer(sha256: Sha256, p: Person, docs: Departments, g: Graph, snapshot: string)
    requires ValidGraph(g, docs.Keys) && Derived(sha256, p, docs, g, snapshot).Ok?
    ensures Distinct(Map(BoxIdOf(), Derived(sha256, p, docs, g, snapshot).value))
       <==> ShortHashTellsApart(sha256, BoxTexts(p, docs, g, snapshot))
  {
    var candidates, derived := Candidates(p, docs, g), Derived(sha256, p, docs, g, snapshot).value;
    forall c | c in candidates
      ensures SeedOf(sha256, p, g, snapshot)(c).Ok?
    {
      CandidateFacts(p, docs, g, c);
      SeedStands(sha256, p, g, snapshot, docs.Keys, c);
    }
    TraverseAll(SeedOf(sha256, p, g, snapshot), candidates);
    BoxTextsDiffer(p, docs, g, snapshot);
    HashedIdsDiffer(sha256, BoxTexts(p, docs, g, snapshot), Map(BoxIdOf(), derived));
  }

  /** The lane a person is given: unless the truncated hash collides on it, its two lists tell the same story. */
  lemma LaneListsAgree(sha256: Sha256, p: Person, docs: Departments, g: Graph, snapshot: string, a: nat, b: nat)
    requires ValidGraph(g, docs.Keys) && Derived(sha256, p, docs, g, snapshot).Ok?
    requires ShortHashTellsApart(sha256, BoxTexts(p, docs, g, snapshot))
    requires var n := |Derived(sha256, p, docs, g, snapshot).value|; a < n && b < n
    ensures var derived := Derived(sha256, p, docs, g, snapshot).value;
            var lane := Map((s: Seed) => Joined(g, derived, s), derived);
            lane[b].boxId in lane[a].blocks <==> lane[a].boxId in lane[b].blockedBy
  {
    LanesDerive(sha256, p, docs, g, snapshot);
    BoxIdsDiffer(sha256, p, docs, g, snapshot);
    FreshSeeds(sha256, p, g, snapshot, Candidates(p, docs, g));
    BlocksIsTheConverse(g, docs.Keys, Derived(sha256, p, docs, g, snapshot).value, a, b);
  }

  /** A walk along `blocks`: every box's id is in the list of the one before. */
  ghost predicate BlocksPath(g: Graph, seeds: seq<Seed>, path: seq<nat>) {
    && (forall i :: 0 <= i < |path| ==> path[i] < |seeds|)
    && (forall i :: 0 <= i < |path| - 1 ==>
          seeds[path[i + 1]].boxId in Joined(g, seeds, seeds[path[i]]).blocks)
  }

  /** How far along its initiative a box stands. */
  function Rank(g: Graph, s: Seed): nat {
    Position(Sequence(g, s.initiativeId), s.workflowId)
  }

  /** One step of a walk goes one workflow further in the same initiative. */
  ghost predicate Climbs(g: Graph, seeds: seq<Seed>, path: seq<nat>, n: nat)
    requires n + 1 < |path| && path[n] < |seeds| && path[n + 1] < |seeds|
  {
    && seeds[path[n + 1]].initiativeId == seeds[path[n]].initiativeId
    && Rank(g, seeds[path[n + 1]]) == Rank(g, seeds[path[n]]) + 1
  }

  lemma EveryStepClimbs(g: Graph, docs: set<string>, seeds: seq<Seed>, path: seq<nat>, n: nat)
    requires LaneOver(g, docs, seeds) && BlocksPath(g, seeds, path) && n + 1 < |path|
    ensures path[n] < |seeds| && path[n + 1] < |seeds| && Climbs(g, seeds, path, n)
  {
    BlocksIsFollows(g, docs, seeds, path[n], path[n + 1]);
  }

  lemma {:induction false} ClimbingAddsUp(g: Graph, seeds: seq<Seed>, path: seq<nat>, n: nat)
    requires n < |path| && forall i :: 0 <= i < |path| ==> path[i] < |seeds|
    requires forall i :: 0 <= i < n ==> Climbs(g, seeds, path, i)
    ensures seeds[path[n]].initiativeId == seeds[path[0]].initiativeId
    ensures Rank(g, seeds[path[n]]) == Rank(g, seeds[path[0]]) + n
  {
    if n > 0 {
      ClimbingAddsUp(g, seeds, path, n - 1);
      assert Climbs(g, seeds, path, n - 1);
    }
  }

  /** Nothing blocks itself, however long the walk: each step is one workflow further in the same initiative. */
  lemma BlocksIsAcyclic(g: Graph, docs: set<string>, seeds: seq<Seed>, path: seq<nat>, n: nat)
    requires LaneOver(g, docs, seeds) && BlocksPath(g, seeds, path) && n < |path|
    ensures path[0] < |seeds| && path[n] < |seeds|
    ensures seeds[path[n]].initiativeId == seeds[path[0]].initiativeId
    ensures Rank(g, seeds[path[n]]) == Rank(g, seeds[path[0]]) + n
    ensures n > 0 ==> path[n] != path[0]
  {
    forall i | 0 <= i < n
      ensures Climbs(g, seeds, path, i)
    {
      EveryStepClimbs(g, docs, seeds, path, i);
    }
    ClimbingAddsUp(g, seeds, path, n);
  }
}
