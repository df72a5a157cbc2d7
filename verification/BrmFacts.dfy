/** Which capability graphs start-up accepts, said of the rows alone. */
module BrmFacts {
  import opened Basics
  import opened Brm

  ghost predicate NoIdTwice(nodes: seq<Node>) {
    forall i, j :: 0 <= i < j < |nodes| ==> nodes[i].id != nodes[j].id
  }

  /** Row `i` lists `c` as its child number `k`. */
  ghost predicate Lists(parents: seq<Node>, i: nat, k: nat, c: string) {
    i < |parents| && k < |parents[i].children| && parents[i].children[k] == c
  }

  /** Some row of that id records that parent. */
  ghost predicate Recorded(children: seq<Node>, c: string, parent: string) {
    exists j :: 0 <= j < |children| && children[j].id == c && children[j].parent == parent
  }

  ghost predicate ListedOnce(parents: seq<Node>) {
    forall i: nat, k: nat, i': nat, k': nat, c :: Lists(parents, i, k, c) && Lists(parents, i', k', c) ==>
                                                    i == i' && k == k'
  }

  /** Every child listed is a row that records the lister. */
  ghost predicate ListsItsOwn(parents: seq<Node>, children: seq<Node>) {
    forall i: nat, k: nat, c :: Lists(parents, i, k, c) ==> Recorded(children, c, parents[i].id)
  }

  ghost predicate Listed(parents: seq<Node>, c: string) {
    exists i: nat, k: nat :: Lists(parents, i, k, c)
  }

  /** Nothing is listed that does not record it, every row is listed, and nothing is listed twice. */
  ghost predicate Inverse(parents: seq<Node>, children: seq<Node>) {
    && ListsItsOwn(parents, children) && ListedOnce(parents)
    && (forall j :: 0 <= j < |children| ==> Listed(parents, children[j].id))
  }

  /** A capability maps documents of the corpus, each once. */
  ghost predicate MapsEachOnce(c: Node, docs: set<string>) {
    && (forall k :: 0 <= k < |c.children| ==> c.children[k] in docs)
    && (forall k, l :: 0 <= k < l < |c.children| ==> c.children[k] != c.children[l])
  }

  lemma DistinctConcat<T>(a: seq<T>, b: seq<T>)
    ensures Distinct(a + b) <==> Distinct(a) && Distinct(b) && forall x :: x in a ==> x !in b
  {
    var all := a + b;
    if Distinct(all) {
      assert forall i :: 0 <= i < |a| ==> a[i] == all[i];
      forall i, j | 0 <= i < |a| && 0 <= j < |b|
        ensures a[i] != b[j]
      {
        assert all[i] != all[|a| + j];
      }
      forall i, j | 0 <= i < j < |b|
        ensures b[i] != b[j]
      {
        assert all[|a| + i] != all[|a| + j];
      }
    }
    if Distinct(a) && Distinct(b) && forall x :: x in a ==> x !in b {
      forall i, j | 0 <= i < j < |all|
        ensures all[i] != all[j]
      {
        if i < |a| <= j {
          assert a[i] in a && b[j - |a|] in b;
        }
      }
    }
  }

  lemma ClaimsOfHead(parents: seq<Node>)
    requires parents != []
    ensures Claims(parents) == parents[0].children + Claims(parents[1..])
  {
    assert Map(ChildrenOf(), parents)[1..] == Map(ChildrenOf(), parents[1..]);
  }

  lemma {:induction false} ClaimedIsListed(parents: seq<Node>, c: string)
    ensures c in Claims(parents) <==> Listed(parents, c)
  {
    if parents != [] {
      ClaimsOfHead(parents);
      ClaimedIsListed(parents[1..], c);
      if i: nat, k: nat :| Lists(parents[1..], i, k, c) {
        assert Lists(parents, i + 1, k, c);
      }
      if k: nat :| k < |parents[0].children| && parents[0].children[k] == c {
        assert Lists(parents, 0, k, c);
      }
      if i: nat, k: nat :| Lists(parents, i, k, c) && i > 0 {
        assert Lists(parents[1..], i - 1, k, c);
      }
    }
  }

  /** Listing once over all rows: once in the first, once in the rest, and nothing in both. */
  lemma ListedOnceByHead(parents: seq<Node>)
    requires parents != []
    ensures ListedOnce(parents)
       <==> && Distinct(parents[0].children) && ListedOnce(parents[1..])
            && forall c :: c in parents[0].children ==> c !in Claims(parents[1..])
  {
    var first, rest := parents[0].children, parents[1..];
    if ListedOnce(parents) {
      HeadListsOnce(parents);
      forall c | c in first
        ensures c !in Claims(rest)
      {
        ClaimedIsListed(rest, c);
        var k: nat :| k < |first| && first[k] == c;
        assert Lists(parents, 0, k, c);
        assert forall i: nat, l: nat :: Lists(rest, i, l, c) ==> Lists(parents, i + 1, l, c);
      }
    }
    if Distinct(first) && ListedOnce(rest) && forall c :: c in first ==> c !in Claims(rest) {
      forall i: nat, k: nat, i': nat, k': nat, c | Lists(parents, i, k, c) && Lists(parents, i', k', c)
        ensures i == i' && k == k'
      {
        ClaimedIsListed(rest, c);
        assert i > 0 ==> Lists(rest, i - 1, k, c);
        assert i' > 0 ==> Lists(rest, i' - 1, k', c);
        assert i == 0 || i' == 0 ==> c in first;
      }
    }
  }

  lemma HeadListsOnce(parents: seq<Node>)
    requires parents != [] && ListedOnce(parents)
    ensures Distinct(parents[0].children) && ListedOnce(parents[1..])
  {
    var first, rest := parents[0].children, parents[1..];
    forall k, l | 0 <= k < l < |first|
      ensures first[k] != first[l]
    {
      assert Lists(parents, 0, k, first[k]) && Lists(parents, 0, l, first[l]);
    }
    forall i: nat, k: nat, i': nat, k': nat, c | Lists(rest, i, k, c) && Lists(rest, i', k', c)
      ensures i == i' && k == k'
    {
      assert Lists(parents, i + 1, k, c) && Lists(parents, i' + 1, k', c);
    }
  }

  lemma {:induction false} DistinctIsListedOnce(parents: seq<Node>)
    ensures Distinct(Claims(parents)) <==> ListedOnce(parents)
  {
    if parents != [] {
      ClaimsOfHead(parents);
      DistinctConcat(parents[0].children, Claims(parents[1..]));
      DistinctIsListedOnce(parents[1..]);
      ListedOnceByHead(parents);
    }
  }

  lemma RecordedIsParent(children: seq<Node>, c: string, parent: string)
    requires Distinct(NodeIds(children))
    ensures Recorded(children, c, parent) <==> c in ParentOf(children) && ParentOf(children)[c] == parent
  {
    ParentOfRecords(children);
    if c in ParentOf(children) {
      var j :| 0 <= j < |NodeIds(children)| && NodeIds(children)[j] == c;
      assert children[j].id == c;
    }
  }

  lemma AgreeingIsRecorded(parents: seq<Node>, children: seq<Node>)
    requires Distinct(NodeIds(children))
    ensures (forall i :: 0 <= i < |parents| ==> ClaimsAgree(parents[i], ParentOf(children)))
       <==> ListsItsOwn(parents, children)
  {
    forall c, p
      ensures Recorded(children, c, p) <==> c in ParentOf(children) && ParentOf(children)[c] == p
    {
      RecordedIsParent(children, c, p);
    }
    if ListsItsOwn(parents, children) {
      forall i, c | 0 <= i < |parents| && c in parents[i].children
        ensures Recorded(children, c, parents[i].id)
      {
        var k :| 0 <= k < |parents[i].children| && parents[i].children[k] == c;
        assert Lists(parents, i, k, c);
      }
    }
  }

  lemma RowNumber(children: seq<Node>, c: string) returns (j: nat)
    requires c in NodeIds(children)
    ensures j < |children| && children[j].id == c
  {
    j :| 0 <= j < |NodeIds(children)| && NodeIds(children)[j] == c;
  }

  lemma EveryRowListed(parents: seq<Node>, children: seq<Node>)
    ensures (forall c :: c in NodeIds(children) ==> c in Claims(parents))
       <==> forall j :: 0 <= j < |children| ==> Listed(parents, children[j].id)
  {
    if forall c :: c in NodeIds(children) ==> c in Claims(parents) {
      forall j | 0 <= j < |children|
        ensures Listed(parents, children[j].id)
      {
        assert NodeIds(children)[j] == children[j].id;
        ClaimedIsListed(parents, children[j].id);
      }
    }
    if forall j :: 0 <= j < |children| ==> Listed(parents, children[j].id) {
      forall c | c in NodeIds(children)
        ensures c in Claims(parents)
      {
        ClaimedIsListed(parents, c);
        var j := RowNumber(children, c);
      }
    }
  }

  /** A level is accepted exactly when its two records of who belongs to whom are inverse. */
  lemma PartitionExactly(parents: seq<Node>, children: seq<Node>)
    ensures NoIdTwice(children) ==> (IsPartition(parents, ParentOf(children)) <==> Inverse(parents, children))
  {
    if NoIdTwice(children) {
      NamesApart(children);
      AgreeingIsRecorded(parents, children);
      ParentOfRecords(children);
      EveryRowListed(parents, children);
      DistinctIsListedOnce(parents);
    }
  }

  lemma DocumentsExactly(capabilities: seq<Node>, docs: set<string>)
    ensures (forall i :: 0 <= i < |capabilities| ==> MapsCorpus(capabilities[i], docs))
       <==> forall i :: 0 <= i < |capabilities| ==> MapsEachOnce(capabilities[i], docs)
  {
    forall i | 0 <= i < |capabilities|
      ensures MapsCorpus(capabilities[i], docs) <==> MapsEachOnce(capabilities[i], docs)
    {
      MapsExactly(capabilities[i], docs);
    }
  }

  /** Start-up accepts a graph exactly when ids are unique, each level's records are inverse, and documents exist. */
  lemma AcceptedExactly(g: Graph, docs: set<string>)
    ensures ValidGraph(g, docs)
       <==> && NoIdTwice(g.strategies) && NoIdTwice(g.initiatives) && NoIdTwice(g.workflows)
            && NoIdTwice(g.capabilities)
            && Inverse(g.strategies, g.initiatives) && Inverse(g.initiatives, g.workflows)
            && Inverse(g.workflows, g.capabilities)
            && forall i :: 0 <= i < |g.capabilities| ==> MapsEachOnce(g.capabilities[i], docs)
  {
    NamesApart(g.strategies);
    NamesApart(g.initiatives);
    NamesApart(g.workflows);
    NamesApart(g.capabilities);
    PartitionExactly(g.strategies, g.initiatives);
    PartitionExactly(g.initiatives, g.workflows);
    PartitionExactly(g.workflows, g.capabilities);
    DocumentsExactly(g.capabilities, docs);
  }

  lemma NamesApart(nodes: seq<Node>)
    ensures NoIdTwice(nodes) <==> Distinct(NodeIds(nodes))
  {
    if Distinct(NodeIds(nodes)) {
      forall i, j | 0 <= i < j < |nodes|
        ensures nodes[i].id != nodes[j].id
      {
        assert NodeIds(nodes)[i] != NodeIds(nodes)[j];
      }
    }
  }

  lemma MapsExactly(c: Node, docs: set<string>)
    ensures MapsCorpus(c, docs) <==> MapsEachOnce(c, docs)
  {
    assert forall k :: 0 <= k < |c.children| ==> c.children[k] in c.children;
  }
}
