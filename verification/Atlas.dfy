/**
 * The atlas: the whole capability graph, sorted at every level, with each capability's documents filtered to
 * the viewer's allowlist. The structure is the same for everybody; only the documents are governed.
 */
module Atlas {
  import opened Basics
  import opened Ordering
  import opened Brm

  datatype Entry = Entry(superseded: bool, successor: Option<string>)

  datatype DocMeta = DocMeta(sensitivity: string, title: string)

  /** The viewer's verified artifact, and the corpus. */
  datatype Viewer = Viewer(entries: map<string, Entry>, allow: set<string>, docs: map<string, DocMeta>)

  datatype AtlasDoc = AtlasDoc(documentId: string, successor: Option<string>, sensitivity: string, superseded: bool,
                               title: string)

  datatype AtlasCapability = AtlasCapability(docs: seq<AtlasDoc>, id: string, name: string)

  datatype AtlasWorkflow = AtlasWorkflow(capabilities: seq<AtlasCapability>, id: string, name: string)

  datatype AtlasInitiative = AtlasInitiative(id: string, name: string, workflows: seq<AtlasWorkflow>)

  datatype AtlasStrategy = AtlasStrategy(id: string, initiatives: seq<AtlasInitiative>, name: string)

  datatype Bail = NoInitiative | NoWorkflow | NoCapability | NoDocument | NoEntry

  // -------------------------------------------------------------------------
  // What is shown
  // -------------------------------------------------------------------------

  function ShowDoc(v: Viewer, id: string): Result<AtlasDoc, Bail> {
    if id !in v.docs then Err(NoDocument)
    else if id !in v.entries then Err(NoEntry)
    else
      var e := v.entries[id];
      var successor := if e.superseded && e.successor.Some? && e.successor.value in v.allow then e.successor else None;
      Ok(AtlasDoc(id, successor, v.docs[id].sensitivity, e.superseded, v.docs[id].title))
  }

  function DocShown(v: Viewer): string -> Result<AtlasDoc, Bail> {
    (id: string) => ShowDoc(v, id)
  }

  function Allowed(v: Viewer): string -> bool {
    (id: string) => id in v.allow
  }

  function ShowDocs(v: Viewer, ids: seq<string>): Result<seq<AtlasDoc>, Bail> {
    Traverse(DocShown(v), Filter(Allowed(v), Sort(StringLe, ids)))
  }

  function ShowCapability(g: Graph, v: Viewer, id: string): Result<AtlasCapability, Bail> {
    var rows := Index(g.capabilities);
    if id !in rows then Err(NoCapability)
    else match ShowDocs(v, rows[id].children)
      case Err(e) => Err(e)
      case Ok(docs) => Ok(AtlasCapability(docs, rows[id].id, rows[id].name))
  }

  function CapabilityShown(g: Graph, v: Viewer): string -> Result<AtlasCapability, Bail> {
    (id: string) => ShowCapability(g, v, id)
  }

  function ShowWorkflow(g: Graph, v: Viewer, id: string): Result<AtlasWorkflow, Bail> {
    var rows := Index(g.workflows);
    if id !in rows then Err(NoWorkflow)
    else match Traverse(CapabilityShown(g, v), Sort(StringLe, rows[id].children))
      case Err(e) => Err(e)
      case Ok(capabilities) => Ok(AtlasWorkflow(capabilities, rows[id].id, rows[id].name))
  }

  function WorkflowShown(g: Graph, v: Viewer): string -> Result<AtlasWorkflow, Bail> {
    (id: string) => ShowWorkflow(g, v, id)
  }

  function ShowInitiative(g: Graph, v: Viewer, id: string): Result<AtlasInitiative, Bail> {
    var rows := Index(g.initiatives);
    if id !in rows then Err(NoInitiative)
    else match Traverse(WorkflowShown(g, v), Sort(StringLe, rows[id].children))
      case Err(e) => Err(e)
      case Ok(workflows) => Ok(AtlasInitiative(rows[id].id, rows[id].name, workflows))
  }

  function InitiativeShown(g: Graph, v: Viewer): string -> Result<AtlasInitiative, Bail> {
    (id: string) => ShowInitiative(g, v, id)
  }

  function ShowStrategy(g: Graph, v: Viewer, s: Node): Result<AtlasStrategy, Bail> {
    match Traverse(InitiativeShown(g, v), Sort(StringLe, s.children))
    case Err(e) => Err(e)
    case Ok(initiatives) => Ok(AtlasStrategy(s.id, initiatives, s.name))
  }

  function StrategyShown(g: Graph, v: Viewer): Node -> Result<AtlasStrategy, Bail> {
    (s: Node) => ShowStrategy(g, v, s)
  }

  predicate NodeLe(a: Node, b: Node) {
    StringLe(a.id, b.id)
  }

  /** The atlas body: what the nested loops of the source build, level by level. */
  function Structure(g: Graph, v: Viewer): Result<seq<AtlasStrategy>, Bail> {
    Traverse(StrategyShown(g, v), Sort(NodeLe, g.strategies))
  }

  // -------------------------------------------------------------------------
  // The loops
  // -------------------------------------------------------------------------

  lemma FilterStep<T(!new)>(keep: T -> bool, s: seq<T>, i: nat)
    requires i < |s|
    ensures var all, n := Filter(keep, s), |Filter(keep, s[..i])|;
            && n <= |all| && all[..n] == Filter(keep, s[..i])
            && (keep(s[i]) ==> n < |all| && all[n] == s[i] && all[..n + 1] == Filter(keep, s[..i + 1]))
            && (!keep(s[i]) ==> Filter(keep, s[..i + 1]) == Filter(keep, s[..i]))
  {
    assert s[..i + 1] == s[..i] + [s[i]];
    FilterSnoc(keep, s[..i], s[i]);
    assert s == s[..i + 1] + s[i + 1..];
    FilterConcat(keep, s[..i + 1], s[i + 1..]);
  }

  lemma PushStep<T, U, E>(f: T -> Result<U, E>, s: seq<T>, done: seq<T>, longer: seq<T>, x: T, before: seq<U>)
    requires |done| < |s| && s[..|done|] == done && s[|done|] == x && s[..|done| + 1] == longer
    requires Traverse(f, done) == Ok(before)
    ensures f(x).Ok? ==> Traverse(f, longer) == Ok(before + [f(x).value])
    ensures f(x).Err? ==> Traverse(f, s) == Err(f(x).error)
  {
    TraverseSnoc(f, s, |done|);
  }

  /** One turn of the document loop: skip, stop, or push. */
  lemma DocsStep(v: Viewer, ids: seq<string>, i: nat, before: seq<AtlasDoc>)
    requires i < |ids| && Traverse(DocShown(v), Filter(Allowed(v), ids[..i])) == Ok(before)
    ensures ids[i] !in v.allow ==> Traverse(DocShown(v), Filter(Allowed(v), ids[..i + 1])) == Ok(before)
    ensures ids[i] in v.allow && ShowDoc(v, ids[i]).Ok? ==>
              Traverse(DocShown(v), Filter(Allowed(v), ids[..i + 1])) == Ok(before + [ShowDoc(v, ids[i]).value])
    ensures ids[i] in v.allow && ShowDoc(v, ids[i]).Err? ==>
              Traverse(DocShown(v), Filter(Allowed(v), ids)) == Err(ShowDoc(v, ids[i]).error)
  {
    FilterStep(Allowed(v), ids, i);
    if ids[i] in v.allow {
      PushStep(DocShown(v), Filter(Allowed(v), ids), Filter(Allowed(v), ids[..i]), Filter(Allowed(v), ids[..i + 1]),
               ids[i], before);
    }
  }

  method BuildDocs(v: Viewer, ids: seq<string>) returns (r: Result<seq<AtlasDoc>, Bail>)
    ensures r == ShowDocs(v, ids)
  {
    var sorted := Sort(StringLe, ids);
    var out: seq<AtlasDoc> := [];
    for i := 0 to |sorted|
      invariant Traverse(DocShown(v), Filter(Allowed(v), sorted[..i])) == Ok(out)
    {
      DocsStep(v, sorted, i, out);
      if sorted[i] !in v.allow {
        continue;
      }
      var shown := ShowDoc(v, sorted[i]);
      if shown.Err? {
        return Err(shown.error);
      }
      out := out + [shown.value];
    }
    assert sorted[..|sorted|] == sorted;
    return Ok(out);
  }

  method BuildCapability(g: Graph, v: Viewer, id: string) returns (r: Result<AtlasCapability, Bail>)
    ensures r == ShowCapability(g, v, id)
  {
    var rows := Index(g.capabilities);
    if id !in rows {
      return Err(NoCapability);
    }
    var docs := BuildDocs(v, rows[id].children);
    return if docs.Err? then Err(docs.error) else Ok(AtlasCapability(docs.value, rows[id].id, rows[id].name));
  }

  method BuildWorkflow(g: Graph, v: Viewer, id: string) returns (r: Result<AtlasWorkflow, Bail>)
    ensures r == ShowWorkflow(g, v, id)
  {
    var rows := Index(g.workflows);
    if id !in rows {
      return Err(NoWorkflow);
    }
    var ids := Sort(StringLe, rows[id].children);
    var out: seq<AtlasCapability> := [];
    for i := 0 to |ids|
      invariant Traverse(CapabilityShown(g, v), ids[..i]) == Ok(out)
    {
      TraverseSnoc(CapabilityShown(g, v), ids, i);
      var shown := BuildCapability(g, v, ids[i]);
      if shown.Err? {
        return Err(shown.error);
      }
      out := out + [shown.value];
    }
    assert ids[..|ids|] == ids;
    return Ok(AtlasWorkflow(out, rows[id].id, rows[id].name));
  }

  method BuildInitiative(g: Graph, v: Viewer, id: string) returns (r: Result<AtlasInitiative, Bail>)
    ensures r == ShowInitiative(g, v, id)
  {
    var rows := Index(g.initiatives);
    if id !in rows {
      return Err(NoInitiative);
    }
    var ids := Sort(StringLe, rows[id].children);
    var out: seq<AtlasWorkflow> := [];
    for i := 0 to |ids|
      invariant Traverse(WorkflowShown(g, v), ids[..i]) == Ok(out)
    {
      TraverseSnoc(WorkflowShown(g, v), ids, i);
      var shown := BuildWorkflow(g, v, ids[i]);
      if shown.Err? {
        return Err(shown.error);
      }
      out := out + [shown.value];
    }
    assert ids[..|ids|] == ids;
    return Ok(AtlasInitiative(rows[id].id, rows[id].name, out));
  }

  method BuildStrategy(g: Graph, v: Viewer, s: Node) returns (r: Result<AtlasStrategy, Bail>)
    ensures r == ShowStrategy(g, v, s)
  {
    var ids := Sort(StringLe, s.children);
    var out: seq<AtlasInitiative> := [];
    for i := 0 to |ids|
      invariant Traverse(InitiativeShown(g, v), ids[..i]) == Ok(out)
    {
      TraverseSnoc(InitiativeShown(g, v), ids, i);
      var shown := BuildInitiative(g, v, ids[i]);
      if shown.Err? {
        return Err(shown.error);
      }
      out := out + [shown.value];
    }
    assert ids[..|ids|] == ids;
    return Ok(AtlasStrategy(s.id, out, s.name));
  }

  method BuildStructure(g: Graph, v: Viewer) returns (r: Result<seq<AtlasStrategy>, Bail>)
    ensures r == Structure(g, v)
  {
    var sorted := Sort(NodeLe, g.strategies);
    var out: seq<AtlasStrategy> := [];
    for i := 0 to |sorted|
      invariant Traverse(StrategyShown(g, v), sorted[..i]) == Ok(out)
    {
      TraverseSnoc(StrategyShown(g, v), sorted, i);
      var shown := BuildStrategy(g, v, sorted[i]);
      if shown.Err? {
        return Err(shown.error);
      }
      out := out + [shown.value];
    }
    assert sorted[..|sorted|] == sorted;
    return Ok(out);
  }

  // -------------------------------------------------------------------------
  // A validated graph never bails
  // -------------------------------------------------------------------------

  /** The viewer's allowlist is the set of documents their artifact has entries for. */
  ghost predicate ViewerAgrees(v: Viewer) {
    v.allow == v.entries.Keys
  }

  ghost predicate AllKnown(ids: seq<string>, rows: map<string, Node>) {
    forall id :: id in ids ==> id in rows
  }

  /** Every child a row of a valid level lists has a row of its own. */
  lemma ChildrenAreRows(parents: seq<Node>, children: seq<Node>, id: string)
    requires Distinct(NodeIds(parents)) && Distinct(NodeIds(children)) && IsPartition(parents, ParentOf(children))
    requires id in Index(parents)
    ensures AllKnown(Index(parents)[id].children, Index(children))
    ensures Index(parents)[id].id == id && Index(parents)[id] in parents
  {
    IndexFinds(children);
    IndexKeys(parents, id);
    ParentOfRecords(children);
    var i :| 0 <= i < |parents| && parents[i] == Index(parents)[id];
    assert ClaimsAgree(parents[i], ParentOf(children));
    forall c | c in parents[i].children
      ensures c in Index(children)
    {
      assert c in NodeIds(children);
      var j :| 0 <= j < |children| && NodeIds(children)[j] == c;
      assert children[j].id in Index(children);
    }
  }

  /** Output rows that are what the graph's row of that id renders to. */
  ghost function CapabilityMade(g: Graph, v: Viewer): AtlasCapability -> bool {
    (c: AtlasCapability) => ShowCapability(g, v, c.id) == Ok(c)
  }

  ghost function WorkflowMade(g: Graph, v: Viewer): AtlasWorkflow -> bool {
    (w: AtlasWorkflow) => ShowWorkflow(g, v, w.id) == Ok(w)
  }

  ghost function InitiativeMade(g: Graph, v: Viewer): AtlasInitiative -> bool {
    (i: AtlasInitiative) => ShowInitiative(g, v, i.id) == Ok(i)
  }

  lemma CapabilityIsShown(g: Graph, v: Viewer, id: string)
    requires ValidGraph(g, v.docs.Keys) && ViewerAgrees(v) && id in Index(g.capabilities)
    ensures ShowCapability(g, v, id).Ok? && ShowCapability(g, v, id).value.id == id
  {
    IndexKeys(g.capabilities, id);
    var row := Index(g.capabilities)[id];
    var i :| 0 <= i < |g.capabilities| && g.capabilities[i] == row;
    assert MapsCorpus(g.capabilities[i], v.docs.Keys);
    SortKeeps(StringLe, row.children);
    var shown := Filter(Allowed(v), Sort(StringLe, row.children));
    forall d | d in shown
      ensures DocShown(v)(d).Ok?
    {
      assert d in row.children;
    }
    TraverseAll(DocShown(v), shown);
  }

  lemma WorkflowIsShown(g: Graph, v: Viewer, id: string)
    requires ValidGraph(g, v.docs.Keys) && ViewerAgrees(v) && id in Index(g.workflows)
    ensures ShowWorkflow(g, v, id).Ok? && ShowWorkflow(g, v, id).value.id == id
    ensures Map(CapabilityId(), ShowWorkflow(g, v, id).value.capabilities)
         == Sort(StringLe, Index(g.workflows)[id].children)
    ensures forall c :: c in ShowWorkflow(g, v, id).value.capabilities ==> CapabilityMade(g, v)(c)
  {
    ChildrenAreRows(g.workflows, g.capabilities, id);
    var ids := Sort(StringLe, Index(g.workflows)[id].children);
    SortKeeps(StringLe, Index(g.workflows)[id].children);
    forall c | c in ids
      ensures CapabilityShown(g, v)(c).Ok? && CapabilityShown(g, v)(c).value.id == c
    {
      CapabilityIsShown(g, v, c);
    }
    TraverseAll(CapabilityShown(g, v), ids);
    ShownInOrder(CapabilityShown(g, v), CapabilityId(), ids);
  }

  lemma InitiativeIsShown(g: Graph, v: Viewer, id: string)
    requires ValidGraph(g, v.docs.Keys) && ViewerAgrees(v) && id in Index(g.initiatives)
    ensures ShowInitiative(g, v, id).Ok? && ShowInitiative(g, v, id).value.id == id
    ensures Map(WorkflowId(), ShowInitiative(g, v, id).value.workflows)
         == Sort(StringLe, Index(g.initiatives)[id].children)
    ensures forall w :: w in ShowInitiative(g, v, id).value.workflows ==> WorkflowMade(g, v)(w)
  {
    ChildrenAreRows(g.initiatives, g.workflows, id);
    var ids := Sort(StringLe, Index(g.initiatives)[id].children);
    SortKeeps(StringLe, Index(g.initiatives)[id].children);
    forall c | c in ids
      ensures WorkflowShown(g, v)(c).Ok? && WorkflowShown(g, v)(c).value.id == c
    {
      WorkflowIsShown(g, v, c);
    }
    TraverseAll(WorkflowShown(g, v), ids);
    ShownInOrder(WorkflowShown(g, v), WorkflowId(), ids);
  }

  lemma StrategyIsShown(g: Graph, v: Viewer, s: Node)
    requires ValidGraph(g, v.docs.Keys) && ViewerAgrees(v) && s in g.strategies
    ensures ShowStrategy(g, v, s).Ok? && ShowStrategy(g, v, s).value.id == s.id
    ensures Map(InitiativeId(), ShowStrategy(g, v, s).value.initiatives) == Sort(StringLe, s.children)
    ensures forall i :: i in ShowStrategy(g, v, s).value.initiatives ==> InitiativeMade(g, v)(i)
  {
    IndexFinds(g.strategies);
    ChildrenAreRows(g.strategies, g.initiatives, s.id);
    var ids := Sort(StringLe, s.children);
    SortKeeps(StringLe, s.children);
    forall c | c in ids
      ensures InitiativeShown(g, v)(c).Ok? && InitiativeShown(g, v)(c).value.id == c
    {
      InitiativeIsShown(g, v, c);
    }
    TraverseAll(InitiativeShown(g, v), ids);
    ShownInOrder(InitiativeShown(g, v), InitiativeId(), ids);
  }

  lemma ShownInOrder<U>(f: string -> Result<U, Bail>, idOf: U -> string, ids: seq<string>)
    requires forall c :: c in ids ==> f(c).Ok? && idOf(f(c).value) == c
    ensures Traverse(f, ids).Ok? && Map(idOf, Traverse(f, ids).value) == ids
    ensures forall u :: u in Traverse(f, ids).value ==> f(idOf(u)) == Ok(u)
  {
    TraverseAll(f, ids);
    forall i | 0 <= i < |ids|
      ensures idOf(Traverse(f, ids).value[i]) == ids[i] && f(ids[i]) == Ok(Traverse(f, ids).value[i])
    {
      assert ids[i] in ids;
    }
  }

  lemma StrategyNeverBails(g: Graph, v: Viewer, s: Node)
    requires ValidGraph(g, v.docs.Keys) && ViewerAgrees(v) && s in g.strategies
    ensures StrategyShown(g, v)(s).Ok?
  {
    StrategyIsShown(g, v, s);
  }

  // -------------------------------------------------------------------------
  // Everything once
  // -------------------------------------------------------------------------

  function CapabilityId(): AtlasCapability -> string {
    (c: AtlasCapability) => c.id
  }

  function WorkflowId(): AtlasWorkflow -> string {
    (w: AtlasWorkflow) => w.id
  }

  function InitiativeId(): AtlasInitiative -> string {
    (i: AtlasInitiative) => i.id
  }

  function StrategyId(): AtlasStrategy -> string {
    (s: AtlasStrategy) => s.id
  }

  function InitiativesOf(): AtlasStrategy -> seq<AtlasInitiative> {
    (s: AtlasStrategy) => s.initiatives
  }

  function WorkflowsOf(): AtlasInitiative -> seq<AtlasWorkflow> {
    (i: AtlasInitiative) => i.workflows
  }

  function CapabilitiesOf(): AtlasWorkflow -> seq<AtlasCapability> {
    (w: AtlasWorkflow) => w.capabilities
  }

  function Initiatives(body: seq<AtlasStrategy>): seq<AtlasInitiative> {
    Flatten(Map(InitiativesOf(), body))
  }

  function Workflows(body: seq<AtlasStrategy>): seq<AtlasWorkflow> {
    Flatten(Map(WorkflowsOf(), Initiatives(body)))
  }

  function Capabilities(body: seq<AtlasStrategy>): seq<AtlasCapability> {
    Flatten(Map(CapabilitiesOf(), Workflows(body)))
  }

  /** The union, with multiplicities, of what `f` gives for each element. */
  ghost function Bag<T, U>(f: T -> multiset<U>, s: seq<T>): multiset<U> {
    if s == [] then multiset{} else f(s[0]) + Bag(f, s[1..])
  }

  lemma {:induction false} BagWithout<T, U>(f: T -> multiset<U>, s: seq<T>, k: nat)
    requires k < |s|
    ensures Bag(f, s) == f(s[k]) + Bag(f, s[..k] + s[k + 1..])
  {
    if k == 0 {
      assert s[..k] + s[k + 1..] == s[1..];
    } else {
      BagWithout(f, s[1..], k - 1);
      assert (s[..k] + s[k + 1..])[1..] == s[1..][..k - 1] + s[1..][k..];
    }
  }

  lemma {:induction false} BagOfPermutation<T, U>(f: T -> multiset<U>, a: seq<T>, b: seq<T>)
    requires multiset(a) == multiset(b)
    ensures Bag(f, a) == Bag(f, b)
    decreases |a|
  {
    SameMultisetSameMembers(a, b);
    if a != [] {
      assert a[0] in b;
      var k :| 0 <= k < |b| && b[k] == a[0];
      BagOfPermutation(f, Without(a, 0), Without(b, k));
      BagWithout(f, a, 0);
      BagWithout(f, b, k);
      assert Without(a, 0) == a[..0] + a[1..] && Without(b, k) == b[..k] + b[k + 1..];
    }
  }

  ghost function ChildBag(parents: seq<Node>): string -> multiset<string> {
    (id: string) => if id in Index(parents) then multiset(Index(parents)[id].children) else multiset{}
  }

  lemma {:induction false} ClaimsAreABag(parents: seq<Node>, nodes: seq<Node>)
    requires forall i :: 0 <= i < |nodes| ==> nodes[i].id in Index(parents) && Index(parents)[nodes[i].id] == nodes[i]
    ensures multiset(Claims(nodes)) == Bag(ChildBag(parents), NodeIds(nodes))
  {
    if nodes != [] {
      ClaimsAreABag(parents, nodes[1..]);
      assert Map(ChildrenOf(), nodes)[1..] == Map(ChildrenOf(), nodes[1..]);
      assert NodeIds(nodes)[1..] == NodeIds(nodes[1..]);
      assert nodes[0].id in Index(parents);
    }
  }

  /** Output rows whose children are the sorted lists of the graph's rows of the same ids. */
  ghost predicate ShowsChildren<R, U>(rows: seq<R>, idOf: R -> string, kids: R -> seq<U>, kidId: U -> string,
                                      parents: seq<Node>)
  {
    forall i :: 0 <= i < |rows| ==>
      (idOf(rows[i]) in Index(parents)
       && Map(kidId, kids(rows[i])) == Sort(StringLe, Index(parents)[idOf(rows[i])].children))
  }

  lemma {:induction false} ShownAreABag<R, U>(rows: seq<R>, idOf: R -> string, kids: R -> seq<U>, kidId: U -> string,
                                              parents: seq<Node>)
    requires ShowsChildren(rows, idOf, kids, kidId, parents)
    ensures multiset(Map(kidId, Flatten(Map(kids, rows)))) == Bag(ChildBag(parents), Map(idOf, rows))
  {
    if rows != [] {
      ShownAreABag(rows[1..], idOf, kids, kidId, parents);
      assert Map(idOf, rows)[1..] == Map(idOf, rows[1..]);
      MapOfFlatten(rows, kids, kidId);
      assert multiset(Map(kidId, kids(rows[0]))) == ChildBag(parents)(idOf(rows[0]));
    }
  }

  lemma MapOfFlatten<R, U>(rows: seq<R>, kids: R -> seq<U>, kidId: U -> string)
    requires rows != []
    ensures Map(kidId, Flatten(Map(kids, rows)))
         == Map(kidId, kids(rows[0])) + Map(kidId, Flatten(Map(kids, rows[1..])))
  {
    assert Map(kids, rows)[1..] == Map(kids, rows[1..]);
  }

  /** If a level shows each of its rows once, so does the level below. */
  lemma NextLevelOnce<R, U>(rows: seq<R>, idOf: R -> string, kids: R -> seq<U>, kidId: U -> string,
                            parents: seq<Node>, children: seq<Node>)
    requires Distinct(NodeIds(parents)) && Distinct(NodeIds(children)) && IsPartition(parents, ParentOf(children))
    requires ShowsChildren(rows, idOf, kids, kidId, parents)
    requires multiset(Map(idOf, rows)) == multiset(NodeIds(parents))
    ensures multiset(Map(kidId, Flatten(Map(kids, rows)))) == multiset(NodeIds(children))
  {
    ShownAreABag(rows, idOf, kids, kidId, parents);
    BagOfPermutation(ChildBag(parents), Map(idOf, rows), NodeIds(parents));
    IndexFinds(parents);
    ClaimsAreABag(parents, parents);
    ClaimsAreTheRows(parents, children);
  }

  lemma {:induction false} FlattenMade<R, U>(rows: seq<R>, kids: R -> seq<U>, made: U -> bool)
    requires forall r :: r in rows ==> forall u :: u in kids(r) ==> made(u)
    ensures forall u :: u in Flatten(Map(kids, rows)) ==> made(u)
  {
    if rows != [] {
      FlattenMade(rows[1..], kids, made);
      assert Map(kids, rows)[1..] == Map(kids, rows[1..]);
      assert rows[0] in rows;
    }
  }

  lemma SameIdsSorted(nodes: seq<Node>)
    ensures multiset(NodeIds(Sort(NodeLe, nodes))) == multiset(NodeIds(nodes))
  {
    MapOfPermutation(IdOf(), Sort(NodeLe, nodes), nodes);
  }

  /** Over a validated graph the build never bails, and its rows are the sorted strategies, rendered. */
  lemma BodyIsStrategies(g: Graph, v: Viewer)
    requires ValidGraph(g, v.docs.Keys) && ViewerAgrees(v)
    ensures Structure(g, v).Ok?
    ensures var body, sorted := Structure(g, v).value, Sort(NodeLe, g.strategies);
            && |body| == |sorted|
            && forall k :: 0 <= k < |body| ==> sorted[k] in g.strategies && ShowStrategy(g, v, sorted[k]) == Ok(body[k])
  {
    var sorted := Sort(NodeLe, g.strategies);
    SortKeeps(NodeLe, g.strategies);
    forall s | s in sorted
      ensures StrategyShown(g, v)(s).Ok?
    {
      StrategyNeverBails(g, v, s);
    }
    TraverseAll(StrategyShown(g, v), sorted);
    assert forall k :: 0 <= k < |sorted| ==> sorted[k] in sorted;
  }

  lemma StrategyRow(g: Graph, v: Viewer, s: Node, row: AtlasStrategy)
    requires ValidGraph(g, v.docs.Keys) && ViewerAgrees(v) && s in g.strategies && ShowStrategy(g, v, s) == Ok(row)
    ensures row.id == s.id && row.id in Index(g.strategies)
    ensures Map(InitiativeId(), row.initiatives) == Sort(StringLe, Index(g.strategies)[row.id].children)
    ensures forall i :: i in InitiativesOf()(row) ==> InitiativeMade(g, v)(i)
  {
    StrategyIsShown(g, v, s);
    IndexFinds(g.strategies);
  }

  lemma BodyRows(g: Graph, v: Viewer)
    requires ValidGraph(g, v.docs.Keys) && ViewerAgrees(v)
    ensures Structure(g, v).Ok?
    ensures var body := Structure(g, v).value;
            && multiset(Map(StrategyId(), body)) == multiset(NodeIds(g.strategies))
            && ShowsChildren(body, StrategyId(), InitiativesOf(), InitiativeId(), g.strategies)
            && (forall i :: i in Initiatives(body) ==> InitiativeMade(g, v)(i))
  {
    BodyIsStrategies(g, v);
    SameIdsSorted(g.strategies);
    var body, sorted := Structure(g, v).value, Sort(NodeLe, g.strategies);
    forall k | 0 <= k < |body|
      ensures body[k].id == sorted[k].id && body[k].id in Index(g.strategies)
      ensures Map(InitiativeId(), body[k].initiatives) == Sort(StringLe, Index(g.strategies)[body[k].id].children)
      ensures forall i :: i in InitiativesOf()(body[k]) ==> InitiativeMade(g, v)(i)
    {
      StrategyRow(g, v, sorted[k], body[k]);
    }
    assert Map(StrategyId(), body) == NodeIds(sorted);
    FlattenMade(body, InitiativesOf(), InitiativeMade(g, v));
  }

  lemma InitiativeRows(g: Graph, v: Viewer, rows: seq<AtlasInitiative>)
    requires ValidGraph(g, v.docs.Keys) && ViewerAgrees(v)
    requires forall i :: i in rows ==> InitiativeMade(g, v)(i)
    ensures ShowsChildren(rows, InitiativeId(), WorkflowsOf(), WorkflowId(), g.initiatives)
    ensures forall w :: w in Flatten(Map(WorkflowsOf(), rows)) ==> WorkflowMade(g, v)(w)
  {
    forall k | 0 <= k < |rows|
      ensures rows[k].id in Index(g.initiatives)
      ensures Map(WorkflowId(), rows[k].workflows) == Sort(StringLe, Index(g.initiatives)[rows[k].id].children)
      ensures forall w :: w in WorkflowsOf()(rows[k]) ==> WorkflowMade(g, v)(w)
    {
      assert InitiativeMade(g, v)(rows[k]);
      InitiativeIsShown(g, v, rows[k].id);
    }
    FlattenMade(rows, WorkflowsOf(), WorkflowMade(g, v));
  }

  lemma WorkflowRows(g: Graph, v: Viewer, rows: seq<AtlasWorkflow>)
    requires ValidGraph(g, v.docs.Keys) && ViewerAgrees(v)
    requires forall w :: w in rows ==> WorkflowMade(g, v)(w)
    ensures ShowsChildren(rows, WorkflowId(), CapabilitiesOf(), CapabilityId(), g.workflows)
    ensures forall c :: c in Flatten(Map(CapabilitiesOf(), rows)) ==> CapabilityMade(g, v)(c)
  {
    forall k | 0 <= k < |rows|
      ensures rows[k].id in Index(g.workflows)
      ensures Map(CapabilityId(), rows[k].capabilities) == Sort(StringLe, Index(g.workflows)[rows[k].id].children)
      ensures forall c :: c in CapabilitiesOf()(rows[k]) ==> CapabilityMade(g, v)(c)
    {
      assert WorkflowMade(g, v)(rows[k]);
      WorkflowIsShown(g, v, rows[k].id);
    }
    FlattenMade(rows, CapabilitiesOf(), CapabilityMade(g, v));
  }

  /** The body holds every strategy, initiative, workflow and capability of a validated graph exactly once. */
  lemma EverythingOnce(g: Graph, v: Viewer)
    requires ValidGraph(g, v.docs.Keys) && ViewerAgrees(v)
    ensures Structure(g, v).Ok?
    ensures var body := Structure(g, v).value;
            && multiset(Map(StrategyId(), body)) == multiset(NodeIds(g.strategies))
            && multiset(Map(InitiativeId(), Initiatives(body))) == multiset(NodeIds(g.initiatives))
            && multiset(Map(WorkflowId(), Workflows(body))) == multiset(NodeIds(g.workflows))
            && multiset(Map(CapabilityId(), Capabilities(body))) == multiset(NodeIds(g.capabilities))
            && (forall c :: c in Capabilities(body) ==> CapabilityMade(g, v)(c))
  {
    BodyRows(g, v);
    var body := Structure(g, v).value;
    NextLevelOnce(body, StrategyId(), InitiativesOf(), InitiativeId(), g.strategies, g.initiatives);
    InitiativeRows(g, v, Initiatives(body));
    NextLevelOnce(Initiatives(body), InitiativeId(), WorkflowsOf(), WorkflowId(), g.initiatives, g.workflows);
    WorkflowRows(g, v, Workflows(body));
    NextLevelOnce(Workflows(body), WorkflowId(), CapabilitiesOf(), CapabilityId(), g.workflows, g.capabilities);
  }

  /** Under each capability: exactly its documents in the viewer's allowlist, by id, and no successor outside it. */
  lemma EvidenceIsGoverned(g: Graph, v: Viewer, c: AtlasCapability)
    requires ValidGraph(g, v.docs.Keys) && ViewerAgrees(v)
    requires Structure(g, v).Ok? && c in Capabilities(Structure(g, v).value)
    ensures c.id in Index(g.capabilities)
    ensures Map((d: AtlasDoc) => d.documentId, c.docs)
         == Filter(Allowed(v), Sort(StringLe, Index(g.capabilities)[c.id].children))
    ensures forall d :: d in c.docs ==>
              d.documentId in v.allow && (d.successor.Some? ==> d.superseded && d.successor.value in v.allow)
  {
    EverythingOnce(g, v);
    assert CapabilityMade(g, v)(c);
    var ids := Filter(Allowed(v), Sort(StringLe, Index(g.capabilities)[c.id].children));
    CapabilityDocs(v, ids, c.docs);
  }

  lemma {:induction false} CapabilityDocs(v: Viewer, ids: seq<string>, docs: seq<AtlasDoc>)
    requires Traverse(DocShown(v), ids) == Ok(docs) && forall d :: d in ids ==> d in v.allow
    ensures Map((d: AtlasDoc) => d.documentId, docs) == ids
    ensures forall d :: d in docs ==>
              d.documentId in v.allow && (d.successor.Some? ==> d.superseded && d.successor.value in v.allow)
  {
    if ids != [] {
      var n := |ids| - 1;
      CapabilityDocs(v, ids[..n], Traverse(DocShown(v), ids[..n]).value);
      assert ids[n] in ids;
    }
  }

  // -------------------------------------------------------------------------
  // The structure is the same for everybody
  // -------------------------------------------------------------------------

  function BareCapability(): AtlasCapability -> AtlasCapability {
    (c: AtlasCapability) => c.(docs := [])
  }

  function BareWorkflow(): AtlasWorkflow -> AtlasWorkflow {
    (w: AtlasWorkflow) => w.(capabilities := Map(BareCapability(), w.capabilities))
  }

  function BareInitiative(): AtlasInitiative -> AtlasInitiative {
    (i: AtlasInitiative) => i.(workflows := Map(BareWorkflow(), i.workflows))
  }

  function BareStrategy(): AtlasStrategy -> AtlasStrategy {
    (s: AtlasStrategy) => s.(initiatives := Map(BareInitiative(), s.initiatives))
  }

  lemma SameBare<K, U>(f: K -> Result<U, Bail>, f': K -> Result<U, Bail>, bare: U -> U, keys: seq<K>)
    requires forall k :: k in keys ==> f(k).Ok? && f'(k).Ok? && bare(f(k).value) == bare(f'(k).value)
    ensures Traverse(f, keys).Ok? && Traverse(f', keys).Ok?
    ensures Map(bare, Traverse(f, keys).value) == Map(bare, Traverse(f', keys).value)
  {
    TraverseAll(f, keys);
    TraverseAll(f', keys);
    forall i | 0 <= i < |keys|
      ensures bare(Traverse(f, keys).value[i]) == bare(Traverse(f', keys).value[i])
    {
      assert keys[i] in keys;
    }
  }

  ghost predicate TwoViewers(g: Graph, v: Viewer, v': Viewer) {
    ValidGraph(g, v.docs.Keys) && ViewerAgrees(v) && ValidGraph(g, v'.docs.Keys) && ViewerAgrees(v')
  }

  lemma SameWorkflow(g: Graph, v: Viewer, v': Viewer, id: string)
    requires TwoViewers(g, v, v') && id in Index(g.workflows)
    ensures ShowWorkflow(g, v, id).Ok? && ShowWorkflow(g, v', id).Ok?
    ensures BareWorkflow()(ShowWorkflow(g, v, id).value) == BareWorkflow()(ShowWorkflow(g, v', id).value)
  {
    ChildrenAreRows(g.workflows, g.capabilities, id);
    SortKeeps(StringLe, Index(g.workflows)[id].children);
    var ids := Sort(StringLe, Index(g.workflows)[id].children);
    forall c | c in ids
      ensures CapabilityShown(g, v)(c).Ok? && CapabilityShown(g, v')(c).Ok?
      ensures BareCapability()(CapabilityShown(g, v)(c).value) == BareCapability()(CapabilityShown(g, v')(c).value)
    {
      CapabilityIsShown(g, v, c);
      CapabilityIsShown(g, v', c);
    }
    SameBare(CapabilityShown(g, v), CapabilityShown(g, v'), BareCapability(), ids);
  }

  lemma SameInitiative(g: Graph, v: Viewer, v': Viewer, id: string)
    requires TwoViewers(g, v, v') && id in Index(g.initiatives)
    ensures ShowInitiative(g, v, id).Ok? && ShowInitiative(g, v', id).Ok?
    ensures BareInitiative()(ShowInitiative(g, v, id).value) == BareInitiative()(ShowInitiative(g, v', id).value)
  {
    ChildrenAreRows(g.initiatives, g.workflows, id);
    SortKeeps(StringLe, Index(g.initiatives)[id].children);
    var ids := Sort(StringLe, Index(g.initiatives)[id].children);
    forall w | w in ids
      ensures WorkflowShown(g, v)(w).Ok? && WorkflowShown(g, v')(w).Ok?
      ensures BareWorkflow()(WorkflowShown(g, v)(w).value) == BareWorkflow()(WorkflowShown(g, v')(w).value)
    {
      SameWorkflow(g, v, v', w);
    }
    SameBare(WorkflowShown(g, v), WorkflowShown(g, v'), BareWorkflow(), ids);
  }

  lemma SameStrategy(g: Graph, v: Viewer, v': Viewer, s: Node)
    requires TwoViewers(g, v, v') && s in g.strategies
    ensures ShowStrategy(g, v, s).Ok? && ShowStrategy(g, v', s).Ok?
    ensures BareStrategy()(ShowStrategy(g, v, s).value) == BareStrategy()(ShowStrategy(g, v', s).value)
  {
    IndexFinds(g.strategies);
    ChildrenAreRows(g.strategies, g.initiatives, s.id);
    SortKeeps(StringLe, s.children);
    var ids := Sort(StringLe, s.children);
    forall i | i in ids
      ensures InitiativeShown(g, v)(i).Ok? && InitiativeShown(g, v')(i).Ok?
      ensures BareInitiative()(InitiativeShown(g, v)(i).value) == BareInitiative()(InitiativeShown(g, v')(i).value)
    {
      SameInitiative(g, v, v', i);
    }
    SameBare(InitiativeShown(g, v), InitiativeShown(g, v'), BareInitiative(), ids);
  }

  /** Any two viewers' bodies differ in nothing but the capabilities' documents. */
  lemma StructureIsTheSameForEverybody(g: Graph, v: Viewer, v': Viewer)
    requires TwoViewers(g, v, v')
    ensures Structure(g, v).Ok? && Structure(g, v').Ok?
    ensures Map(BareStrategy(), Structure(g, v).value) == Map(BareStrategy(), Structure(g, v').value)
  {
    var sorted := Sort(NodeLe, g.strategies);
    SortKeeps(NodeLe, g.strategies);
    forall s | s in sorted
      ensures StrategyShown(g, v)(s).Ok? && StrategyShown(g, v')(s).Ok?
      ensures BareStrategy()(StrategyShown(g, v)(s).value) == BareStrategy()(StrategyShown(g, v')(s).value)
    {
      SameStrategy(g, v, v', s);
    }
    SameBare(StrategyShown(g, v), StrategyShown(g, v'), BareStrategy(), sorted);
  }
}
