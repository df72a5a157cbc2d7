/** What an atlas body says, row by row, against the graph and the viewer's own artifact. */
module AtlasFacts {
  import opened Basics
  import opened Ordering
  import opened Brm
  import opened Atlas

  /** The ids are some row's children, sorted; the row has this id and name. */
  ghost predicate RowOf(nodes: seq<Node>, id: string, name: string, childIds: seq<string>) {
    exists n :: n in nodes && n.id == id && n.name == name && Arranged(childIds, n.children)
  }

  ghost predicate Arranged(ids: seq<string>, of: seq<string>) {
    SortedBy(StringLe, ids) && multiset(ids) == multiset(of)
  }

  /** A document as the corpus and the artifact have it, its successor only where the viewer may see it. */
  ghost predicate TellsOf(v: Viewer, d: AtlasDoc) {
    && d.documentId in v.docs && d.documentId in v.entries
    && var e, m := v.entries[d.documentId], v.docs[d.documentId];
    && d.title == m.title && d.sensitivity == m.sensitivity && d.superseded == e.superseded
    && (forall s :: d.successor == Some(s) <==> e.superseded && e.successor == Some(s) && s in v.allow)
  }

  /** The row's documents that the viewer may see, by id, each told truly. */
  ghost predicate CapabilityHolds(g: Graph, v: Viewer, c: AtlasCapability) {
    && (exists n :: n in g.capabilities && n.id == c.id && n.name == c.name && Evidence(v, n.children, c.docs))
    && forall i :: 0 <= i < |c.docs| ==> TellsOf(v, c.docs[i])
  }

  /** Sorted, without repeats, and exactly the children that the viewer may see. */
  ghost predicate Evidence(v: Viewer, children: seq<string>, docs: seq<AtlasDoc>) {
    && (forall i, j :: 0 <= i < j < |docs| ==>
          StringLe(docs[i].documentId, docs[j].documentId) && docs[i].documentId != docs[j].documentId)
    && (forall id :: id in children && id in v.allow <==> exists i :: 0 <= i < |docs| && docs[i].documentId == id)
  }

  ghost predicate WorkflowHolds(g: Graph, v: Viewer, w: AtlasWorkflow) {
    && RowOf(g.workflows, w.id, w.name, Map(CapabilityId(), w.capabilities))
    && forall i :: 0 <= i < |w.capabilities| ==> CapabilityHolds(g, v, w.capabilities[i])
  }

  ghost predicate InitiativeHolds(g: Graph, v: Viewer, n: AtlasInitiative) {
    && RowOf(g.initiatives, n.id, n.name, Map(WorkflowId(), n.workflows))
    && forall i :: 0 <= i < |n.workflows| ==> WorkflowHolds(g, v, n.workflows[i])
  }

  ghost predicate StrategyHolds(g: Graph, v: Viewer, s: AtlasStrategy) {
    && RowOf(g.strategies, s.id, s.name, Map(InitiativeId(), s.initiatives))
    && forall i :: 0 <= i < |s.initiatives| ==> InitiativeHolds(g, v, s.initiatives[i])
  }

  lemma ArrangedChildren(ids: seq<string>)
    ensures Arranged(Sort(StringLe, ids), ids)
  {
    StringLeIsTotalOrder();
    SortSorted(StringLe, ids);
  }

  lemma DocTells(v: Viewer, id: string)
    ensures ShowDoc(v, id).Ok? ==> TellsOf(v, ShowDoc(v, id).value) && ShowDoc(v, id).value.documentId == id
  {
  }

  lemma {:induction false} DocsTell(v: Viewer, ids: seq<string>, docs: seq<AtlasDoc>)
    requires Traverse(DocShown(v), ids) == Ok(docs)
    ensures |docs| == |ids|
    ensures forall i :: 0 <= i < |docs| ==> docs[i].documentId == ids[i] && TellsOf(v, docs[i])
  {
    if ids != [] {
      var n := |ids| - 1;
      DocsTell(v, ids[..n], Traverse(DocShown(v), ids[..n]).value);
      DocTells(v, ids[n]);
    }
  }

  lemma {:induction false} FilterSorted(keep: string -> bool, s: seq<string>)
    requires SortedBy(StringLe, s)
    ensures SortedBy(StringLe, Filter(keep, s))
  {
    if s != [] {
      FilterSorted(keep, s[1..]);
      var rest := Filter(keep, s[1..]);
      forall i | 0 <= i < |rest|
        ensures StringLe(s[0], rest[i])
      {
        assert rest[i] in rest;
      }
    }
  }

  lemma AllowedInOrder(v: Viewer, children: seq<string>)
    requires Distinct(children)
    ensures var ids := Filter(Allowed(v), Sort(StringLe, children));
            && Distinct(ids) && SortedBy(StringLe, ids)
            && forall id :: id in ids <==> id in children && id in v.allow
  {
    ArrangedChildren(children);
    SortKeeps(StringLe, children);
    FilterSorted(Allowed(v), Sort(StringLe, children));
    FilterDistinct(Allowed(v), Sort(StringLe, children));
  }

  lemma EvidenceInOrder(v: Viewer, children: seq<string>, ids: seq<string>, docs: seq<AtlasDoc>)
    requires Distinct(ids) && SortedBy(StringLe, ids) && |docs| == |ids|
    requires forall id :: id in ids <==> id in children && id in v.allow
    requires forall i :: 0 <= i < |docs| ==> docs[i].documentId == ids[i]
    ensures Evidence(v, children, docs)
  {
    forall id
      ensures id in ids <==> exists i :: 0 <= i < |docs| && docs[i].documentId == id
    {
      if id in ids {
        var i :| 0 <= i < |ids| && ids[i] == id;
        assert docs[i].documentId == id;
      }
    }
  }

  lemma CapabilityTold(g: Graph, v: Viewer, c: AtlasCapability)
    requires ValidGraph(g, v.docs.Keys) && ShowCapability(g, v, c.id) == Ok(c)
    ensures CapabilityHolds(g, v, c)
  {
    IndexKeys(g.capabilities, c.id);
    var n := Index(g.capabilities)[c.id];
    var i :| 0 <= i < |g.capabilities| && g.capabilities[i] == n;
    assert MapsCorpus(g.capabilities[i], v.docs.Keys);
    var ids := Filter(Allowed(v), Sort(StringLe, n.children));
    AllowedInOrder(v, n.children);
    DocsTell(v, ids, c.docs);
    EvidenceInOrder(v, n.children, ids, c.docs);
  }

  lemma FoundIsRow(nodes: seq<Node>, id: string, childIds: seq<string>)
    requires id in Index(nodes) && childIds == Sort(StringLe, Index(nodes)[id].children)
    ensures RowOf(nodes, id, Index(nodes)[id].name, childIds)
  {
    IndexKeys(nodes, id);
    ArrangedChildren(Index(nodes)[id].children);
  }

  lemma WorkflowTold(g: Graph, v: Viewer, w: AtlasWorkflow)
    requires ValidGraph(g, v.docs.Keys) && ViewerAgrees(v) && WorkflowMade(g, v)(w)
    ensures WorkflowHolds(g, v, w)
  {
    WorkflowIsShown(g, v, w.id);
    FoundIsRow(g.workflows, w.id, Map(CapabilityId(), w.capabilities));
    forall i | 0 <= i < |w.capabilities|
      ensures CapabilityHolds(g, v, w.capabilities[i])
    {
      assert CapabilityMade(g, v)(w.capabilities[i]);
      CapabilityTold(g, v, w.capabilities[i]);
    }
  }

  lemma InitiativeTold(g: Graph, v: Viewer, n: AtlasInitiative)
    requires ValidGraph(g, v.docs.Keys) && ViewerAgrees(v) && InitiativeMade(g, v)(n)
    ensures InitiativeHolds(g, v, n)
  {
    InitiativeIsShown(g, v, n.id);
    FoundIsRow(g.initiatives, n.id, Map(WorkflowId(), n.workflows));
    forall i | 0 <= i < |n.workflows|
      ensures WorkflowHolds(g, v, n.workflows[i])
    {
      assert WorkflowMade(g, v)(n.workflows[i]);
      WorkflowTold(g, v, n.workflows[i]);
    }
  }

  lemma StrategyTold(g: Graph, v: Viewer, n: Node, s: AtlasStrategy)
    requires ValidGraph(g, v.docs.Keys) && ViewerAgrees(v) && n in g.strategies && ShowStrategy(g, v, n) == Ok(s)
    ensures StrategyHolds(g, v, s) && s.id == n.id
  {
    StrategyIsShown(g, v, n);
    ArrangedChildren(n.children);
    assert RowOf(g.strategies, s.id, s.name, Map(InitiativeId(), s.initiatives));
    forall i | 0 <= i < |s.initiatives|
      ensures InitiativeHolds(g, v, s.initiatives[i])
    {
      assert InitiativeMade(g, v)(s.initiatives[i]);
      InitiativeTold(g, v, s.initiatives[i]);
    }
  }

  /**
   * The body is the graph: every strategy in id order, and below each row, level by level, the sorted children its
   * row lists, with their own names; under a capability, the documents the viewer may see, as they are recorded.
   */
  lemma BodyIsTheGraph(g: Graph, v: Viewer, body: seq<AtlasStrategy>)
    requires ValidGraph(g, v.docs.Keys) && ViewerAgrees(v) && Structure(g, v) == Ok(body)
    ensures Arranged(Map(StrategyId(), body), NodeIds(g.strategies))
    ensures forall i :: 0 <= i < |body| ==> StrategyHolds(g, v, body[i])
  {
    BodyIsStrategies(g, v);
    RowsTold(g, v, Sort(NodeLe, g.strategies), body);
    SortedById(g.strategies);
    SameIdsSorted(g.strategies);
  }

  lemma RowsTold(g: Graph, v: Viewer, rows: seq<Node>, body: seq<AtlasStrategy>)
    requires ValidGraph(g, v.docs.Keys) && ViewerAgrees(v) && |body| == |rows|
    requires forall k :: 0 <= k < |rows| ==> rows[k] in g.strategies && ShowStrategy(g, v, rows[k]) == Ok(body[k])
    ensures forall i :: 0 <= i < |body| ==> StrategyHolds(g, v, body[i])
    ensures Map(StrategyId(), body) == NodeIds(rows)
  {
    forall i | 0 <= i < |body|
      ensures StrategyHolds(g, v, body[i]) && body[i].id == rows[i].id
    {
      StrategyTold(g, v, rows[i], body[i]);
    }
  }

  lemma SortedById(nodes: seq<Node>)
    ensures SortedBy(StringLe, NodeIds(Sort(NodeLe, nodes)))
  {
    NodeLeIsTotal();
    SortSorted(NodeLe, nodes);
  }

  lemma NodeLeIsTotal()
    ensures TotalPreorder(NodeLe)
  {
    StringLeIsTotalOrder();
    forall a, b
      ensures NodeLe(a, b) || NodeLe(b, a)
    {
      StringLeTotal(a.id, b.id);
    }
    forall a, b, c | NodeLe(a, b) && NodeLe(b, c)
      ensures NodeLe(a, c)
    {
      StringLeTransitive(a.id, b.id, c.id);
    }
  }
}
