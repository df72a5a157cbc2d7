/**
 * The capability graph: strategies, initiatives, workflows, capabilities, each level listing its children
 * and each child recording its parent. Start-up accepts only a graph whose two records agree.
 */
module Brm {
  import opened Basics

  /** A row of any level. A strategy has no parent to record; a capability's children are documents. */
  datatype Node = Node(id: string, name: string, parent: string, children: seq<string>)

  datatype Graph = Graph(strategies: seq<Node>, initiatives: seq<Node>, workflows: seq<Node>, capabilities: seq<Node>)

  datatype Fault = DuplicateId | ClaimedTwice | Disagrees | UnknownChild | Orphaned | DocumentTwice | DocumentUnknown

  function IdOf(): Node -> string {
    (n: Node) => n.id
  }

  function ChildrenOf(): Node -> seq<string> {
    (n: Node) => n.children
  }

  function NodeIds(nodes: seq<Node>): seq<string> {
    Map(IdOf(), nodes)
  }

  /** Everything a level's rows claim as children, in order. */
  function Claims(parents: seq<Node>): seq<string> {
    Flatten(Map(ChildrenOf(), parents))
  }

  /** What the child rows themselves record. */
  function ParentOf(children: seq<Node>): map<string, string> {
    if children == [] then map[]
    else
      var last := children[|children| - 1];
      ParentOf(children[..|children| - 1])[last.id := last.parent]
  }

  /** Rows by id; with repeated ids the last row wins. */
  function Index(nodes: seq<Node>): map<string, Node> {
    if nodes == [] then map[]
    else Index(nodes[..|nodes| - 1])[nodes[|nodes| - 1].id := nodes[|nodes| - 1]]
  }

  ghost predicate ClaimsAgree(p: Node, parentOf: map<string, string>) {
    forall c :: c in p.children ==> c in parentOf && parentOf[c] == p.id
  }

  /** The children are split among the parents, as the children themselves say. */
  ghost predicate IsPartition(parents: seq<Node>, parentOf: map<string, string>) {
    && (forall i :: 0 <= i < |parents| ==> ClaimsAgree(parents[i], parentOf))
    && Distinct(Claims(parents))
    && (forall c :: c in parentOf ==> c in Claims(parents))
  }

  ghost predicate MapsCorpus(c: Node, docs: set<string>) {
    Distinct(c.children) && forall d :: d in c.children ==> d in docs
  }

  ghost predicate ValidGraph(g: Graph, docs: set<string>) {
    && Distinct(NodeIds(g.strategies)) && Distinct(NodeIds(g.initiatives))
    && Distinct(NodeIds(g.workflows)) && Distinct(NodeIds(g.capabilities))
    && IsPartition(g.strategies, ParentOf(g.initiatives))
    && IsPartition(g.initiatives, ParentOf(g.workflows))
    && IsPartition(g.workflows, ParentOf(g.capabilities))
    && (forall i :: 0 <= i < |g.capabilities| ==> MapsCorpus(g.capabilities[i], docs))
  }

  // -------------------------------------------------------------------------
  // The checks as the source runs them
  // -------------------------------------------------------------------------

  method UniqueIds(ids: seq<string>) returns (fault: Option<Fault>)
    ensures fault.None? <==> Distinct(ids)
  {
    var seen: set<string> := {};
    for i := 0 to |ids|
      invariant seen == Elements(ids[..i]) && Distinct(ids[..i])
    {
      if ids[i] in seen {
        var k :| 0 <= k < i && ids[k] == ids[i];
        return Some(DuplicateId);
      }
      assert ids[..i + 1] == ids[..i] + [ids[i]];
      seen := seen + {ids[i]};
    }
    assert ids[..|ids|] == ids;
    return None;
  }

  lemma ClaimsSplit(parents: seq<Node>, i: nat)
    requires i < |parents|
    ensures Claims(parents) == Claims(parents[..i]) + parents[i].children + Claims(parents[i + 1..])
    ensures Claims(parents[..i + 1]) == Claims(parents[..i]) + parents[i].children
  {
    var lists := Map(ChildrenOf(), parents);
    var before, after := Map(ChildrenOf(), parents[..i]), Map(ChildrenOf(), parents[i + 1..]);
    assert lists == (before + [parents[i].children]) + after;
    FlattenConcat(before + [parents[i].children], after);
    FlattenSnoc(before, parents[i].children);
    assert Map(ChildrenOf(), parents[..i + 1]) == before + [parents[i].children];
  }

  /** A child met twice while scanning makes the whole claim list repeat. */
  lemma RepeatedClaim(parents: seq<Node>, i: nat, j: nat)
    requires i < |parents| && j < |parents[i].children|
    requires parents[i].children[j] in Claims(parents[..i]) + parents[i].children[..j]
    ensures !Distinct(Claims(parents))
  {
    ClaimsSplit(parents, i);
    var all, seen := Claims(parents), Claims(parents[..i]) + parents[i].children[..j];
    var k :| 0 <= k < |seen| && seen[k] == parents[i].children[j];
    assert all[k] == all[|seen|];
  }

  lemma SubsetOfSameSize<T>(a: set<T>, b: set<T>)
    requires a <= b
    ensures |a| == |b| <==> a == b
    ensures |a| <= |b|
  {
    assert b == a + (b - a);
    assert |b| == |a| + |b - a|;
  }

  /** Where the scan stands: distinct claims so far, each known and agreed. */
  ghost predicate Scanned(claims: seq<string>, claimed: set<string>, parentOf: map<string, string>) {
    claimed == Elements(claims) && Distinct(claims) && claimed <= parentOf.Keys
  }

  lemma ScannedSnoc(claims: seq<string>, claimed: set<string>, parentOf: map<string, string>, c: string)
    requires Scanned(claims, claimed, parentOf) && c !in claimed && c in parentOf
    ensures Scanned(claims + [c], claimed + {c}, parentOf)
  {
    ElementsSnoc(claims, c);
  }

  ghost predicate AgreesUpTo(p: Node, parentOf: map<string, string>, j: nat)
    requires j <= |p.children|
  {
    forall k :: 0 <= k < j ==> p.children[k] in parentOf && parentOf[p.children[k]] == p.id
  }

  lemma AgreesToTheEnd(p: Node, parentOf: map<string, string>)
    ensures AgreesUpTo(p, parentOf, |p.children|) <==> ClaimsAgree(p, parentOf)
  {
    if ClaimsAgree(p, parentOf) {
      forall k | 0 <= k < |p.children|
        ensures p.children[k] in parentOf && parentOf[p.children[k]] == p.id
      {
        assert p.children[k] in p.children;
      }
    }
  }

  /** One parent's claims. */
  method CheckClaims(parents: seq<Node>, i: nat, parentOf: map<string, string>, before: set<string>)
    returns (fault: Option<Fault>, claimed: set<string>)
    requires i < |parents| && Scanned(Claims(parents[..i]), before, parentOf)
    ensures fault.None? ==> Scanned(Claims(parents[..i + 1]), claimed, parentOf) && ClaimsAgree(parents[i], parentOf)
    ensures fault.Some? ==> !Distinct(Claims(parents)) || !ClaimsAgree(parents[i], parentOf)
  {
    var p := parents[i];
    claimed := before;
    AgreesToTheEnd(p, parentOf);
    ClaimsSplit(parents, i);
    for j := 0 to |p.children|
      invariant Scanned(Claims(parents[..i]) + p.children[..j], claimed, parentOf)
      invariant AgreesUpTo(p, parentOf, j)
    {
      var child := p.children[j];
      if child in claimed {
        RepeatedClaim(parents, i, j);
        return Some(ClaimedTwice), claimed;
      }
      assert child in p.children;
      if child !in parentOf {
        return Some(UnknownChild), claimed;
      }
      if parentOf[child] != p.id {
        return Some(Disagrees), claimed;
      }
      ScannedSnoc(Claims(parents[..i]) + p.children[..j], claimed, parentOf, child);
      assert Claims(parents[..i]) + p.children[..j + 1] == Claims(parents[..i]) + p.children[..j] + [child];
      claimed := claimed + {child};
    }
    assert p.children[..|p.children|] == p.children;
    return None, claimed;
  }

  method CheckPartition(parents: seq<Node>, parentOf: map<string, string>) returns (fault: Option<Fault>)
    ensures fault.None? <==> IsPartition(parents, parentOf)
  {
    var claimed: set<string> := {};
    for i := 0 to |parents|
      invariant Scanned(Claims(parents[..i]), claimed, parentOf)
      invariant forall k :: 0 <= k < i ==> ClaimsAgree(parents[k], parentOf)
    {
      fault, claimed := CheckClaims(parents, i, parentOf, claimed);
      if fault.Some? {
        return;
      }
    }
    assert parents[..|parents|] == parents;
    SubsetOfSameSize(claimed, parentOf.Keys);
    EveryChildClaimed(parents, parentOf, claimed);
    return if |claimed| != |parentOf| then Some(Orphaned) else None;
  }

  lemma EveryChildClaimed(parents: seq<Node>, parentOf: map<string, string>, claimed: set<string>)
    requires Scanned(Claims(parents), claimed, parentOf)
    ensures claimed == parentOf.Keys <==> forall c :: c in parentOf ==> c in Claims(parents)
  {
  }

  method CheckDocuments(c: Node, docs: set<string>) returns (fault: Option<Fault>)
    ensures fault.None? <==> MapsCorpus(c, docs)
  {
    var seen: set<string> := {};
    for i := 0 to |c.children|
      invariant seen == Elements(c.children[..i]) && Distinct(c.children[..i])
      invariant forall k :: 0 <= k < i ==> c.children[k] in docs
    {
      if c.children[i] in seen {
        var k :| 0 <= k < i && c.children[k] == c.children[i];
        return Some(DocumentTwice);
      }
      if c.children[i] !in docs {
        return Some(DocumentUnknown);
      }
      assert c.children[..i + 1] == c.children[..i] + [c.children[i]];
      seen := seen + {c.children[i]};
    }
    assert c.children[..|c.children|] == c.children;
    return None;
  }

  method CheckLevels(g: Graph) returns (fault: Option<Fault>)
    ensures fault.None? <==>
              (IsPartition(g.strategies, ParentOf(g.initiatives)) && IsPartition(g.initiatives, ParentOf(g.workflows))
               && IsPartition(g.workflows, ParentOf(g.capabilities)))
  {
    fault := CheckPartition(g.strategies, ParentOf(g.initiatives));
    if fault.None? {
      fault := CheckPartition(g.initiatives, ParentOf(g.workflows));
      if fault.None? {
        fault := CheckPartition(g.workflows, ParentOf(g.capabilities));
      }
    }
  }

  method CheckIds(g: Graph) returns (fault: Option<Fault>)
    ensures fault.None? <==>
              (Distinct(NodeIds(g.strategies)) && Distinct(NodeIds(g.initiatives))
               && Distinct(NodeIds(g.workflows)) && Distinct(NodeIds(g.capabilities)))
  {
    fault := UniqueIds(NodeIds(g.strategies));
    if fault.None? {
      fault := UniqueIds(NodeIds(g.initiatives));
      if fault.None? {
        fault := UniqueIds(NodeIds(g.workflows));
        if fault.None? {
          fault := UniqueIds(NodeIds(g.capabilities));
        }
      }
    }
  }

  /** Start-up accepts exactly the valid graphs. */
  method ValidateBrm(g: Graph, docs: set<string>) returns (fault: Option<Fault>)
    ensures fault.None? <==> ValidGraph(g, docs)
  {
    fault := CheckIds(g);
    if fault.Some? {
      return;
    }
    fault := CheckLevels(g);
    if fault.Some? {
      return;
    }
    for i := 0 to |g.capabilities|
      invariant forall k :: 0 <= k < i ==> MapsCorpus(g.capabilities[k], docs)
    {
      fault := CheckDocuments(g.capabilities[i], docs);
      if fault.Some? {
        return;
      }
    }
    return None;
  }

  // -------------------------------------------------------------------------
  // What a valid level means
  // -------------------------------------------------------------------------

  lemma {:induction false} ParentOfRecords(children: seq<Node>)
    requires Distinct(NodeIds(children))
    ensures forall i :: 0 <= i < |children| ==>
              children[i].id in ParentOf(children) && ParentOf(children)[children[i].id] == children[i].parent
    ensures forall c :: c in ParentOf(children) <==> c in NodeIds(children)
  {
    if children != [] {
      var init := children[..|children| - 1];
      forall i, j | 0 <= i < j < |init|
        ensures NodeIds(init)[i] != NodeIds(init)[j]
      {
        assert NodeIds(children)[i] != NodeIds(children)[j];
      }
      ParentOfRecords(init);
      assert NodeIds(children) == NodeIds(init) + [children[|children| - 1].id];
      forall i | 0 <= i < |init|
        ensures children[i].id != children[|init|].id
      {
        assert NodeIds(children)[i] != NodeIds(children)[|init|];
      }
    }
  }

  lemma {:induction false} IndexFinds(nodes: seq<Node>)
    requires Distinct(NodeIds(nodes))
    ensures forall i :: 0 <= i < |nodes| ==> nodes[i].id in Index(nodes) && Index(nodes)[nodes[i].id] == nodes[i]
  {
    if nodes != [] {
      var init := nodes[..|nodes| - 1];
      forall i, j | 0 <= i < j < |init|
        ensures NodeIds(init)[i] != NodeIds(init)[j]
      {
        assert NodeIds(nodes)[i] != NodeIds(nodes)[j];
      }
      IndexFinds(init);
      forall i | 0 <= i < |init|
        ensures nodes[i].id != nodes[|init|].id
      {
        assert NodeIds(nodes)[i] != NodeIds(nodes)[|init|];
      }
    }
  }

  lemma {:induction false} IndexKeys(nodes: seq<Node>, id: string)
    requires id in Index(nodes)
    ensures Index(nodes)[id] in nodes && Index(nodes)[id].id == id
  {
    if nodes[|nodes| - 1].id != id {
      IndexKeys(nodes[..|nodes| - 1], id);
    }
  }

  lemma ClaimedBySome(parents: seq<Node>, c: string)
    requires c in Claims(parents)
    ensures exists i :: 0 <= i < |parents| && c in parents[i].children
  {
    var lists := Map(ChildrenOf(), parents);
    FlattenMembers(lists, c);
    var i :| 0 <= i < |lists| && c in lists[i];
    assert c in parents[i].children;
  }

  lemma ClaimIsRecorded(parents: seq<Node>, children: seq<Node>, i: nat, j: nat)
    requires Distinct(NodeIds(children)) && IsPartition(parents, ParentOf(children))
    requires i < |parents| && j < |children| && children[j].id in parents[i].children
    ensures children[j].parent == parents[i].id
  {
    ParentOfRecords(children);
    assert ClaimsAgree(parents[i], ParentOf(children));
  }

  lemma RowIsClaimed(parents: seq<Node>, children: seq<Node>, j: nat)
    requires Distinct(NodeIds(children)) && IsPartition(parents, ParentOf(children)) && j < |children|
    ensures exists i :: 0 <= i < |parents| && children[j].id in parents[i].children
  {
    ParentOfRecords(children);
    ClaimedBySome(parents, children[j].id);
  }

  lemma OneClaimant(parents: seq<Node>, child: Node)
    requires Distinct(NodeIds(parents))
    requires exists i :: 0 <= i < |parents| && child.id in parents[i].children
    requires forall i :: 0 <= i < |parents| && child.id in parents[i].children ==> child.parent == parents[i].id
    ensures forall i :: 0 <= i < |parents| ==> (child.id in parents[i].children <==> child.parent == parents[i].id)
    ensures exists i :: 0 <= i < |parents| && child.parent == parents[i].id
  {
    var k :| 0 <= k < |parents| && child.id in parents[k].children;
    forall i | 0 <= i < |parents| && child.parent == parents[i].id
      ensures i == k
    {
      assert NodeIds(parents)[i] == NodeIds(parents)[k];
    }
  }

  /**
   * On every level of a valid graph the child lists are exactly the inverse of the parent fields, and every
   * child has one and only one parent row.
   */
  lemma ChildListsInvertParents(parents: seq<Node>, children: seq<Node>, j: nat)
    requires Distinct(NodeIds(parents)) && Distinct(NodeIds(children)) && j < |children|
    requires IsPartition(parents, ParentOf(children))
    ensures forall i :: 0 <= i < |parents| ==>
              (children[j].id in parents[i].children <==> children[j].parent == parents[i].id)
    ensures exists i :: 0 <= i < |parents| && children[j].parent == parents[i].id
  {
    RowIsClaimed(parents, children, j);
    forall i | 0 <= i < |parents| && children[j].id in parents[i].children
      ensures children[j].parent == parents[i].id
    {
      ClaimIsRecorded(parents, children, i, j);
    }
    OneClaimant(parents, children[j]);
  }

  /** The rows of a level are exactly what the level above claims, each once. */
  lemma ClaimsAreTheRows(parents: seq<Node>, children: seq<Node>)
    requires Distinct(NodeIds(children)) && IsPartition(parents, ParentOf(children))
    ensures multiset(Claims(parents)) == multiset(NodeIds(children))
  {
    ParentOfRecords(children);
    forall c
      ensures c in Claims(parents) <==> c in NodeIds(children)
    {
      if c in Claims(parents) {
        ClaimedBySome(parents, c);
        var i :| 0 <= i < |parents| && c in parents[i].children;
        assert ClaimsAgree(parents[i], ParentOf(children));
      }
    }
    DistinctSameMembers(Claims(parents), NodeIds(children));
  }

  /** No cycles: climbing from any capability reaches a strategy in three steps, by rows that exist. */
  lemma ForestOverTheStrategies(g: Graph, docs: set<string>, j: nat)
    requires ValidGraph(g, docs) && j < |g.capabilities|
    ensures exists w, i, s ::
              && 0 <= w < |g.workflows| && 0 <= i < |g.initiatives| && 0 <= s < |g.strategies|
              && g.capabilities[j].parent == g.workflows[w].id && g.workflows[w].parent == g.initiatives[i].id
              && g.initiatives[i].parent == g.strategies[s].id
              && g.capabilities[j].id in g.workflows[w].children && g.workflows[w].id in g.initiatives[i].children
              && g.initiatives[i].id in g.strategies[s].children
  {
    ChildListsInvertParents(g.workflows, g.capabilities, j);
    var w :| 0 <= w < |g.workflows| && g.capabilities[j].parent == g.workflows[w].id;
    ChildListsInvertParents(g.initiatives, g.workflows, w);
    var i :| 0 <= i < |g.initiatives| && g.workflows[w].parent == g.initiatives[i].id;
    ChildListsInvertParents(g.strategies, g.initiatives, i);
    var s :| 0 <= s < |g.strategies| && g.initiatives[i].parent == g.strategies[s].id;
  }
}
