/** Document succession: what the validator checks of it, and the chain walk that relies on those checks. */
module Supersedes {
  import opened Basics
  import opened Ordering

  datatype Doc = Doc(id: string, supersedes: Option<string>)

  /** `old -> the document that supersedes it`; of several claims on one document the last one stays. */
  function SuccessorMap(docs: seq<Doc>): map<string, string> {
    if docs == [] then map[]
    else
      var last := docs[|docs| - 1];
      var before := SuccessorMap(docs[..|docs| - 1]);
      if last.supersedes.Some? then before[last.supersedes.value := last.id] else before
  }

  /** `n` steps along the map. */
  function Walk(m: map<string, string>, x: string, n: nat): Option<string> {
    if n == 0 then Some(x)
    else
      var y := Walk(m, x, n - 1);
      if y.Some? && y.value in m then Some(m[y.value]) else None
  }

  ghost predicate CycleAt(m: map<string, string>, x: string, n: nat) {
    n > 0 && Walk(m, x, n) == Some(x)
  }

  ghost predicate HasCycle(m: map<string, string>) {
    exists x, n: nat :: CycleAt(m, x, n)
  }

  /** The walk from `x` never reaches an end. */
  ghost predicate Endless(m: map<string, string>, x: string) {
    forall n: nat :: Walk(m, x, n).Some?
  }

  lemma {:induction false} WalkAdds(m: map<string, string>, x: string, a: nat, b: nat)
    ensures Walk(m, x, a + b) == if Walk(m, x, a).None? then None else Walk(m, Walk(m, x, a).value, b)
    decreases b
  {
    if b > 0 {
      WalkAdds(m, x, a, b - 1);
    }
  }

  /** A walk that comes back to where it has been goes round for ever. */
  lemma {:induction false} RevisitIsEndless(m: map<string, string>, x: string, i: nat, j: nat, n: nat)
    requires i < j && Walk(m, x, j).Some? && Walk(m, x, i) == Walk(m, x, j)
    ensures Walk(m, x, n).Some?
    decreases n
  {
    if n <= j {
      WalkAdds(m, x, n, j - n);
    } else {
      RevisitIsEndless(m, x, i, j, n - (j - i));
      WalkAdds(m, x, j, n - j);
      WalkAdds(m, x, i, n - j);
      assert i + (n - j) == n - (j - i);
    }
  }

  lemma RevisitIsCycle(m: map<string, string>, x: string, i: nat, j: nat)
    requires i < j && Walk(m, x, j).Some? && Walk(m, x, i) == Walk(m, x, j)
    ensures HasCycle(m) && Endless(m, x)
  {
    WalkAdds(m, x, i, j - i);
    assert CycleAt(m, Walk(m, x, i).value, j - i);
    forall n: nat
      ensures Walk(m, x, n).Some?
    {
      RevisitIsEndless(m, x, i, j, n);
    }
  }

  /** The first `n` places of a walk. */
  ghost function Visited(m: map<string, string>, x: string, n: nat): set<string> {
    set i | 0 <= i < n && Walk(m, x, i).Some? :: Walk(m, x, i).value
  }

  lemma VisitedGrows(m: map<string, string>, x: string, n: nat)
    requires Walk(m, x, n).Some?
    ensures Visited(m, x, n + 1) == Visited(m, x, n) + {Walk(m, x, n).value}
  {
    forall y | y in Visited(m, x, n + 1)
      ensures y in Visited(m, x, n) + {Walk(m, x, n).value}
    {
      var i :| 0 <= i < n + 1 && Walk(m, x, i).Some? && Walk(m, x, i).value == y;
    }
  }

  /** The inner loop of the check: follow the map from `start` until it ends or returns. */
  method WalkReturns(m: map<string, string>, start: string) returns (cyclic: bool)
    ensures cyclic <==> Endless(m, start)
    ensures cyclic ==> HasCycle(m)
  {
    var visited: set<string>, current := {}, start;
    ghost var n := 0;
    while current in m
      invariant Walk(m, start, n) == Some(current)
      invariant visited == Visited(m, start, n) && visited <= m.Keys
      decreases m.Keys - visited
    {
      if current in visited {
        ghost var i :| 0 <= i < n && Walk(m, start, i) == Some(current);
        RevisitIsCycle(m, start, i, n);
        return true;
      }
      VisitedGrows(m, start, n);
      visited := visited + {current};
      current := m[current];
      n := n + 1;
    }
    assert Walk(m, start, n + 1).None?;
    return false;
  }

  /** The validator's check: an error for each start whose walk is endless, so one exactly when there is a cycle. */
  method CheckCycles(m: map<string, string>) returns (errors: seq<string>)
    ensures forall x :: x in errors <==> x in m && Endless(m, x)
    ensures errors != [] <==> HasCycle(m)
  {
    errors := [];
    var starts := m.Keys;
    while starts != {}
      invariant starts <= m.Keys
      invariant forall x :: x in errors <==> x in m && x !in starts && Endless(m, x)
      invariant errors != [] ==> HasCycle(m)
      decreases starts
    {
      var start :| start in starts;
      starts := starts - {start};
      var cyclic := WalkReturns(m, start);
      if cyclic {
        errors := errors + [start];
      }
    }
    if HasCycle(m) {
      ghost var x, n: nat :| CycleAt(m, x, n);
      RevisitIsCycle(m, x, 0, n);
      WalkAdds(m, x, 1, n - 1);
      assert Walk(m, x, 1).Some?;
      assert x in errors;
    }
  }

  /** The walk of a clean map terminates at a document the map does not lead on from. */
  method EffectiveSuccessor(m: map<string, string>, id: string) returns (r: Option<string>)
    requires !HasCycle(m)
    ensures r.None? <==> id !in m
    ensures r.Some? ==> r.value !in m && exists n: nat :: n > 0 && Walk(m, id, n) == r
  {
    if id !in m {
      return None;
    }
    var current := m[id];
    ghost var n := 1;
    assert Walk(m, id, 0) == Some(id) && Walk(m, id, 1) == Some(current);
    while current in m
      invariant n > 0 && Walk(m, id, n) == Some(current)
      invariant Visited(m, id, n) <= m.Keys
      decreases m.Keys - Visited(m, id, n)
    {
      ghost var again := exists i :: 0 <= i < n && Walk(m, id, i) == Some(current);
      if again {
        ghost var i :| 0 <= i < n && Walk(m, id, i) == Some(current);
        RevisitIsCycle(m, id, i, n);
      }
      VisitedGrows(m, id, n);
      current := m[current];
      n := n + 1;
    }
    return Some(current);
  }

  /** A walk has one end: nothing lies past it. */
  lemma {:induction false} NothingPastTheEnd(m: map<string, string>, x: string, end: nat, n: nat)
    requires Walk(m, x, end).Some? && Walk(m, x, end).value !in m && end < n
    ensures Walk(m, x, n).None?
    decreases n
  {
    if n > end + 1 {
      NothingPastTheEnd(m, x, end, n - 1);
    }
  }

  // -------------------------------------------------------------------------
  // What the map says about the documents
  // -------------------------------------------------------------------------

  ghost predicate UniqueIds(docs: seq<Doc>) {
    forall i, j :: 0 <= i < j < |docs| ==> docs[i].id != docs[j].id
  }

  /** At most one document supersedes any other. */
  ghost predicate NoFanIn(docs: seq<Doc>) {
    forall i, j :: 0 <= i < j < |docs| && docs[i].supersedes.Some? ==> docs[i].supersedes != docs[j].supersedes
  }

  lemma {:induction false} MapKeys(docs: seq<Doc>, prior: string)
    ensures prior in SuccessorMap(docs) <==> exists d :: d in docs && d.supersedes == Some(prior)
    ensures prior in SuccessorMap(docs) ==>
              exists d :: d in docs && d.supersedes == Some(prior) && d.id == SuccessorMap(docs)[prior]
  {
    if docs != [] {
      assert docs == docs[..|docs| - 1] + [docs[|docs| - 1]];
      MapKeys(docs[..|docs| - 1], prior);
    }
  }

  /** Without fan-in no claim is lost: the map is exactly the documents' own `supersedes` fields. */
  lemma NoClaimIsLost(docs: seq<Doc>, d: Doc)
    requires NoFanIn(docs) && d in docs && d.supersedes.Some?
    ensures d.supersedes.value in SuccessorMap(docs) && SuccessorMap(docs)[d.supersedes.value] == d.id
  {
    MapKeys(docs, d.supersedes.value);
  }

  /** The document that `id` supersedes. */
  function Predecessor(docs: seq<Doc>, id: string): Option<string> {
    if docs == [] then None
    else if docs[0].id == id then docs[0].supersedes
    else Predecessor(docs[1..], id)
  }

  lemma {:induction false} PredecessorOf(docs: seq<Doc>, d: Doc)
    requires UniqueIds(docs) && d in docs
    ensures Predecessor(docs, d.id) == d.supersedes
  {
    if docs[0] != d {
      assert d in docs[1..];
      PredecessorOf(docs[1..], d);
    }
  }

  /** `n` steps back along the documents' own `supersedes` fields. */
  function BackWalk(docs: seq<Doc>, x: string, n: nat): Option<string>
    decreases n
  {
    if n == 0 then Some(x)
    else if Predecessor(docs, x).None? then None
    else BackWalk(docs, Predecessor(docs, x).value, n - 1)
  }

  /** Every forward step is undone by the successor's own `supersedes` field. */
  lemma {:induction false} WalkLeadsBack(docs: seq<Doc>, x: string, n: nat)
    requires UniqueIds(docs) && Walk(SuccessorMap(docs), x, n).Some?
    ensures BackWalk(docs, Walk(SuccessorMap(docs), x, n).value, n) == Some(x)
  {
    var m := SuccessorMap(docs);
    if n > 0 {
      var y := Walk(m, x, n - 1).value;
      WalkLeadsBack(docs, x, n - 1);
      MapKeys(docs, y);
      var d :| d in docs && d.supersedes == Some(y) && d.id == m[y];
      PredecessorOf(docs, d);
    }
  }

  // -------------------------------------------------------------------------
  // The validator
  // -------------------------------------------------------------------------

  datatype Fault =
    | Duplicate(id: string)
    | Itself(id: string)
    | Dangling(id: string, prior: string)
    | FanIn(prior: string, claimants: seq<string>)
    | Cycle(start: string)

  ghost function Ids(docs: seq<Doc>): set<string> {
    set i | 0 <= i < |docs| :: docs[i].id
  }

  ghost predicate Repeated(docs: seq<Doc>, id: string) {
    exists i, j :: 0 <= i < j < |docs| && docs[i].id == id && docs[j].id == id
  }

  /** Every claim names a document, and not its own. */
  ghost predicate ClaimsResolve(docs: seq<Doc>) {
    forall d :: d in docs && d.supersedes.Some? ==> d.supersedes.value in Ids(docs) && d.supersedes.value != d.id
  }

  ghost predicate Clean(docs: seq<Doc>) {
    UniqueIds(docs) && ClaimsResolve(docs) && NoFanIn(docs) && !HasCycle(SuccessorMap(docs))
  }

  predicate Claims(d: Doc, prior: string) {
    d.supersedes == Some(prior)
  }

  /** The ids of the documents that claim to supersede `prior`, in order. */
  function Claimants(docs: seq<Doc>, prior: string): seq<string> {
    Collect((d: Doc) => if Claims(d, prior) then Some(d.id) else None, docs)
  }

  lemma {:induction false} ClaimantsCount(docs: seq<Doc>, prior: string)
    ensures |Claimants(docs, prior)| > 0 <==> exists i :: 0 <= i < |docs| && Claims(docs[i], prior)
    ensures |Claimants(docs, prior)| > 1
       <==> exists i, j :: 0 <= i < j < |docs| && Claims(docs[i], prior) && Claims(docs[j], prior)
  {
    if docs != [] {
      ClaimantsCount(docs[..|docs| - 1], prior);
    }
  }

  method NoteDuplicates(docs: seq<Doc>) returns (faults: seq<Fault>, ids: set<string>)
    ensures ids == Ids(docs)
    ensures forall f :: f in faults <==> f.Duplicate? && Repeated(docs, f.id)
    ensures faults == [] <==> UniqueIds(docs)
  {
    faults, ids := [], {};
    for i := 0 to |docs|
      invariant ids == Ids(docs[..i])
      invariant forall f :: f in faults <==> f.Duplicate? && Repeated(docs[..i], f.id)
    {
      var id := docs[i].id;
      assert Ids(docs[..i + 1]) == Ids(docs[..i]) + {id};
      forall other
        ensures Repeated(docs[..i + 1], other) <==> Repeated(docs[..i], other) || (other == id && id in ids)
      {
        if other == id && id in ids {
          var j :| 0 <= j < i && docs[..i][j].id == id;
          assert docs[..i + 1][j].id == id && docs[..i + 1][i].id == id;
        }
        if Repeated(docs[..i], other) {
          var j, k :| 0 <= j < k < i && docs[..i][j].id == other && docs[..i][k].id == other;
          assert docs[..i + 1][j].id == other && docs[..i + 1][k].id == other;
        }
      }
      if id in ids {
        faults := faults + [Duplicate(id)];
      }
      ids := ids + {id};
    }
    assert docs[..|docs|] == docs;
    assert faults != [] ==> faults[0] in faults;
    if i, j :| 0 <= i < j < |docs| && docs[i].id == docs[j].id {
      assert Duplicate(docs[i].id) in faults;
    }
  }

  /** The faults of one document's own claim. */
  function ClaimFaults(d: Doc, ids: set<string>): seq<Fault> {
    if d.supersedes.None? then []
    else
      (if d.supersedes.value == d.id then [Itself(d.id)] else [])
      + if d.supersedes.value !in ids then [Dangling(d.id, d.supersedes.value)] else []
  }

  /** The claims that resolve, grouped by the document claimed. */
  ghost predicate Grouped(docs: seq<Doc>, ids: set<string>, groups: map<string, seq<string>>) {
    && (forall prior :: prior in groups <==> prior in ids && Claimants(docs, prior) != [])
    && (forall prior :: prior in groups ==> groups[prior] == Claimants(docs, prior))
  }

  method CollectClaims(docs: seq<Doc>, ids: set<string>) returns (faults: seq<Fault>, groups: map<string, seq<string>>)
    ensures Grouped(docs, ids, groups)
    ensures forall f :: f in faults <==> exists d :: d in docs && f in ClaimFaults(d, ids)
    ensures faults == [] <==> forall d :: d in docs ==> ClaimFaults(d, ids) == []
  {
    faults, groups := [], map[];
    for i := 0 to |docs|
      invariant Grouped(docs[..i], ids, groups)
      invariant forall f :: f in faults <==> exists d :: d in docs[..i] && f in ClaimFaults(d, ids)
    {
      var d := docs[i];
      assert docs[..i + 1] == docs[..i] + [d];
      forall prior
        ensures Claimants(docs[..i + 1], prior)
             == if Claims(d, prior) then Claimants(docs[..i], prior) + [d.id] else Claimants(docs[..i], prior)
      {
        CollectSnoc((x: Doc) => if Claims(x, prior) then Some(x.id) else None, docs[..i], d);
      }
      if d.supersedes.Some? && d.supersedes.value in ids {
        var prior := d.supersedes.value;
        groups := groups[prior := (if prior in groups then groups[prior] else []) + [d.id]];
      }
      faults := faults + ClaimFaults(d, ids);
    }
    assert docs[..|docs|] == docs;
    assert faults != [] ==> faults[0] in faults;
    if d :| d in docs && ClaimFaults(d, ids) != [] {
      assert ClaimFaults(d, ids)[0] in faults;
    }
  }

  method NoteFanIn(groups: map<string, seq<string>>) returns (faults: seq<Fault>)
    ensures forall f :: f in faults <==>
              f.FanIn? && f.prior in groups && f.claimants == groups[f.prior] && |f.claimants| > 1
    ensures faults == [] <==> forall prior :: prior in groups ==> |groups[prior]| <= 1
  {
    faults := [];
    var left := groups.Keys;
    while left != {}
      invariant left <= groups.Keys
      invariant forall f :: f in faults <==>
                  && f.FanIn? && f.prior in groups && f.prior !in left
                  && f.claimants == groups[f.prior] && |f.claimants| > 1
      decreases left
    {
      var prior :| prior in left;
      left := left - {prior};
      if |groups[prior]| > 1 {
        faults := faults + [FanIn(prior, groups[prior])];
      }
    }
    assert faults != [] ==> faults[0] in faults;
    if prior :| prior in groups && |groups[prior]| > 1 {
      assert FanIn(prior, groups[prior]) in faults;
    }
  }

  lemma FanInIsSeen(docs: seq<Doc>, groups: map<string, seq<string>>)
    requires Grouped(docs, Ids(docs), groups) && ClaimsResolve(docs)
    ensures NoFanIn(docs) <==> forall prior :: prior in groups ==> |groups[prior]| <= 1
  {
    if NoFanIn(docs) {
      forall prior | prior in groups
        ensures |groups[prior]| <= 1
      {
        ClaimantsCount(docs, prior);
      }
    } else {
      var i, j :| 0 <= i < j < |docs| && docs[i].supersedes.Some? && docs[i].supersedes == docs[j].supersedes;
      var prior := docs[i].supersedes.value;
      assert Claims(docs[i], prior) && Claims(docs[j], prior);
      ClaimantsCount(docs, prior);
      assert docs[i] in docs && prior in groups;
    }
  }

  lemma ClaimsAreSeen(docs: seq<Doc>)
    ensures ClaimsResolve(docs) <==> forall d :: d in docs ==> ClaimFaults(d, Ids(docs)) == []
  {
  }

  /** The validator's word on succession: no fault exactly when ids, claims, fan-in and chains are all in order. */
  method ValidateSupersedes(docs: seq<Doc>) returns (faults: seq<Fault>)
    ensures faults == [] <==> Clean(docs)
  {
    var duplicates, ids := NoteDuplicates(docs);
    var claims, groups := CollectClaims(docs, ids);
    var fanIn := NoteFanIn(groups);
    var cycles := CheckCycles(SuccessorMap(docs));
    ClaimsAreSeen(docs);
    if ClaimsResolve(docs) {
      FanInIsSeen(docs, groups);
    }
    faults := duplicates + claims + fanIn + Map(start => Cycle(start), cycles);
  }

  // -------------------------------------------------------------------------
  // The world
  // -------------------------------------------------------------------------

  predicate ById(a: Doc, b: Doc) {
    StringLe(a.id, b.id)
  }

  /** Without fan-in the successor map does not depend on the order of the documents. */
  lemma OrderDoesNotMatter(a: seq<Doc>, b: seq<Doc>)
    requires NoFanIn(a) && forall d :: d in a <==> d in b
    ensures SuccessorMap(a) == SuccessorMap(b)
  {
    forall prior
      ensures prior in SuccessorMap(a) <==> prior in SuccessorMap(b)
      ensures prior in SuccessorMap(b) ==> SuccessorMap(a)[prior] == SuccessorMap(b)[prior]
    {
      MapKeys(a, prior);
      MapKeys(b, prior);
      if prior in SuccessorMap(b) {
        var d :| d in b && d.supersedes == Some(prior) && d.id == SuccessorMap(b)[prior];
        NoClaimIsLost(a, d);
      }
    }
  }

  /** Validates the documents, sorts them by id and indexes their successors. */
  method Build(docs: seq<Doc>) returns (r: Result<map<string, string>, seq<Fault>>)
    ensures r.Ok? <==> Clean(docs)
    ensures r.Ok? ==> r.value == SuccessorMap(docs)
    ensures r.Err? ==> r.error != []
  {
    var faults := ValidateSupersedes(docs);
    if faults != [] {
      return Err(faults);
    }
    SortKeeps(ById, docs);
    OrderDoesNotMatter(docs, Sort(ById, docs));
    return Ok(SuccessorMap(Sort(ById, docs)));
  }

  /**
   * The effective successor in a world that was built: it exists exactly for documents somebody supersedes, is
   * superseded by nothing, and leads back to the start. A world is built exactly from clean documents.
   */
  method EffectiveSuccessorOfValidated(docs: seq<Doc>, id: string) returns (r: Result<Option<string>, seq<Fault>>)
    ensures r.Ok? <==> Clean(docs)
    ensures r.Ok? ==> (r.value.None? <==> forall d :: d in docs ==> d.supersedes != Some(id))
    ensures r.Ok? && r.value.Some? ==>
              && r.value.value in Ids(docs)
              && (forall d :: d in docs ==> d.supersedes != r.value)
              && exists n: nat :: n > 0 && BackWalk(docs, r.value.value, n) == Some(id)
  {
    var built := Build(docs);
    if built.Err? {
      return Err(built.error);
    }
    var end := EffectiveSuccessor(built.value, id);
    MapKeys(docs, id);
    if end.Some? {
      MapKeys(docs, end.value);
      ghost var n: nat :| n > 0 && Walk(SuccessorMap(docs), id, n) == end;
      WalkLeadsBack(docs, id, n);
      MapKeys(docs, Walk(SuccessorMap(docs), id, n - 1).value);
    }
    return Ok(end);
  }
}
