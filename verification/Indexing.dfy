/** The index build: a corpus split into one partition for each sensitivity class. */
module Indexing {
  import opened Basics
  import opened Ordering
  import opened Search

  datatype Class = Public | Internal | Confidential | Restricted | SpecialCategory {
    function Name(): string {
      match this
      case Public => "public"
      case Internal => "internal"
      case Confidential => "confidential"
      case Restricted => "restricted"
      case SpecialCategory => "special_category"
    }
  }

  /** The classes in partition order. */
  const CLASSES := [Public, Internal, Confidential, Restricted, SpecialCategory]

  datatype Record = Record(id: string, sensitivity: Class, title: string, body: string)

  datatype Defect = EmptyField | DuplicateId

  predicate HasEmptyField(d: Record) {
    d.id == "" || d.title == "" || d.body == ""
  }

  function RecordIds(docs: seq<Record>): seq<string> {
    Map((d: Record) => d.id, docs)
  }

  /** A corpus the build accepts. */
  ghost predicate Sound(docs: seq<Record>) {
    Distinct(RecordIds(docs)) && forall d :: d in docs ==> !HasEmptyField(d)
  }

  /** The ids of one class, in corpus order. */
  function OfClass(docs: seq<Record>, c: Class): seq<string> {
    Collect((d: Record) => if d.sensitivity == c then Some(d.id) else None, docs)
  }

  lemma OfClassSnoc(docs: seq<Record>, d: Record, c: Class)
    ensures OfClass(docs + [d], c) == OfClass(docs, c) + if d.sensitivity == c then [d.id] else []
  {
    CollectSnoc((x: Record) => if x.sensitivity == c then Some(x.id) else None, docs, d);
  }

  /** A partition's members: the ids of its class, sorted. */
  function MembersOf(docs: seq<Record>): Class -> seq<string> {
    (c: Class) => Sort(StringLe, OfClass(docs, c))
  }

  /** Some document repeats an earlier id, or has an empty field. */
  ghost predicate Defective(docs: seq<Record>, i: nat)
    requires i < |docs|
  {
    HasEmptyField(docs[i]) || docs[i].id in RecordIds(docs[..i])
  }

  lemma LastIsSound(before: seq<Record>, d: Record)
    ensures Sound(before + [d]) <==> Sound(before) && !HasEmptyField(d) && d.id !in RecordIds(before)
  {
    assert RecordIds(before + [d]) == RecordIds(before) + [d.id];
    DistinctSnoc(RecordIds(before), d.id);
    assert forall x :: x in before + [d] <==> x in before || x == d;
  }

  lemma {:induction false} SoundIsNoDefect(docs: seq<Record>)
    ensures Sound(docs) <==> forall i :: 0 <= i < |docs| ==> !Defective(docs, i)
  {
    if docs != [] {
      var n := |docs| - 1;
      assert docs == docs[..n] + [docs[n]];
      SoundIsNoDefect(docs[..n]);
      LastIsSound(docs[..n], docs[n]);
      forall i | 0 <= i < n
        ensures Defective(docs[..n], i) == Defective(docs, i)
      {
        assert docs[..n][..i] == docs[..i];
      }
      assert Sound(docs) <==> Sound(docs[..n]) && !Defective(docs, n);
    }
  }

  /** Document `i` is the first defective one, and this is what is wrong with it. */
  ghost predicate FirstDefect(docs: seq<Record>, i: nat, defect: Defect)
    requires i < |docs|
  {
    && Defective(docs, i) && (forall j :: 0 <= j < i ==> !Defective(docs, j))
    && (defect == EmptyField <==> HasEmptyField(docs[i]))
  }

  function MembersIn(byClass: map<Class, seq<string>>, c: Class): seq<string> {
    if c in byClass then byClass[c] else []
  }

  ghost predicate Grouped(docs: seq<Record>, byClass: map<Class, seq<string>>) {
    forall c :: MembersIn(byClass, c) == OfClass(docs, c)
  }

  function Appended(byClass: map<Class, seq<string>>, d: Record): map<Class, seq<string>> {
    byClass[d.sensitivity := MembersIn(byClass, d.sensitivity) + [d.id]]
  }

  lemma GroupedOneMore(docs: seq<Record>, i: nat, byClass: map<Class, seq<string>>)
    requires i < |docs| && Grouped(docs[..i], byClass)
    ensures Grouped(docs[..i + 1], Appended(byClass, docs[i]))
    ensures RecordIds(docs[..i + 1]) == RecordIds(docs[..i]) + [docs[i].id]
  {
    assert docs[..i + 1] == docs[..i] + [docs[i]];
    forall c
      ensures MembersIn(Appended(byClass, docs[i]), c) == OfClass(docs[..i + 1], c)
    {
      OfClassSnoc(docs[..i], docs[i], c);
    }
  }

  /** The scan of the corpus: refuse the first defective document, group the others by class. */
  method GroupByClass(docs: seq<Record>) returns (r: Result<map<Class, seq<string>>, Defect>)
    ensures r.Ok? <==> Sound(docs)
    ensures r.Ok? ==> Grouped(docs, r.value)
    ensures r.Err? ==> exists i :: 0 <= i < |docs| && FirstDefect(docs, i, r.error)
  {
    SoundIsNoDefect(docs);
    var byClass, seen: set<string> := map[], {};
    for i := 0 to |docs|
      invariant Grouped(docs[..i], byClass)
      invariant forall id :: id in seen <==> id in RecordIds(docs[..i])
      invariant forall j :: 0 <= j < i ==> !Defective(docs, j)
    {
      var d := docs[i];
      if HasEmptyField(d) {
        assert FirstDefect(docs, i, EmptyField);
        return Err(EmptyField);
      }
      if d.id in seen {
        assert FirstDefect(docs, i, DuplicateId);
        return Err(DuplicateId);
      }
      GroupedOneMore(docs, i, byClass);
      seen := seen + {d.id};
      byClass := Appended(byClass, d);
    }
    assert docs[..|docs|] == docs;
    return Ok(byClass);
  }

  /** The build: the sorted member list of each class, or the first defect. */
  method BuildIndex(docs: seq<Record>) returns (r: Result<seq<seq<string>>, Defect>)
    ensures r.Ok? <==> Sound(docs)
    ensures r.Ok? ==> r.value == Map(MembersOf(docs), CLASSES)
    ensures r.Err? ==> exists i :: 0 <= i < |docs| && FirstDefect(docs, i, r.error)
  {
    var grouped := GroupByClass(docs);
    if grouped.Err? {
      return Err(grouped.error);
    }
    var lists := SortGroups(docs, grouped.value, CLASSES);
    return Ok(lists);
  }

  method SortGroups(docs: seq<Record>, byClass: map<Class, seq<string>>, classes: seq<Class>)
    returns (lists: seq<seq<string>>)
    requires Grouped(docs, byClass)
    ensures lists == Map(MembersOf(docs), classes)
  {
    lists := [];
    for i := 0 to |classes|
      invariant lists == Map(MembersOf(docs), classes[..i])
    {
      assert MembersIn(byClass, classes[i]) == OfClass(docs, classes[i]);
      MapOneMore(MembersOf(docs), classes, i);
      lists := lists + [Sort(StringLe, MembersIn(byClass, classes[i]))];
    }
    assert classes[..|classes|] == classes;
  }

  // -------------------------------------------------------------------------
  // The split keeps every document once
  // -------------------------------------------------------------------------

  lemma FlattenFrom(lists: seq<seq<string>>, i: nat)
    requires i < |lists|
    ensures multiset(Flatten(lists[i..])) == multiset(lists[i]) + multiset(Flatten(lists[i + 1..]))
  {
    assert lists[i..][1..] == lists[i + 1..];
  }

  lemma FlattenFive(lists: seq<seq<string>>)
    requires |lists| == 5
    ensures multiset(Flatten(lists))
         == multiset(lists[0]) + multiset(lists[1]) + multiset(lists[2]) + multiset(lists[3]) + multiset(lists[4])
  {
    assert lists[0..] == lists;
    FlattenFrom(lists, 0);
    FlattenFrom(lists, 1);
    FlattenFrom(lists, 2);
    FlattenFrom(lists, 3);
    FlattenFrom(lists, 4);
  }

  ghost function SplitIds(docs: seq<Record>): multiset<string> {
    multiset(OfClass(docs, Public)) + multiset(OfClass(docs, Internal)) + multiset(OfClass(docs, Confidential))
    + multiset(OfClass(docs, Restricted)) + multiset(OfClass(docs, SpecialCategory))
  }

  lemma OneMoreOfClass(docs: seq<Record>, d: Record, c: Class)
    ensures multiset(OfClass(docs + [d], c))
         == multiset(OfClass(docs, c)) + if d.sensitivity == c then multiset{d.id} else multiset{}
  {
    OfClassSnoc(docs, d, c);
  }

  lemma {:induction false} EveryIdOnce(docs: seq<Record>)
    ensures SplitIds(docs) == multiset(RecordIds(docs))
  {
    if docs != [] {
      var before, d := docs[..|docs| - 1], docs[|docs| - 1];
      assert docs == before + [d];
      EveryIdOnce(before);
      assert RecordIds(docs) == RecordIds(before) + [d.id];
      OneMoreOfClass(before, d, Public);
      OneMoreOfClass(before, d, Internal);
      OneMoreOfClass(before, d, Confidential);
      OneMoreOfClass(before, d, Restricted);
      OneMoreOfClass(before, d, SpecialCategory);
    }
  }

  /** The partitions together hold exactly the corpus's ids, each as often as the corpus does. */
  lemma SplitConserves(docs: seq<Record>)
    ensures multiset(Flatten(Map(MembersOf(docs), CLASSES))) == multiset(RecordIds(docs))
  {
    FlattenFive(Map(MembersOf(docs), CLASSES));
    EveryIdOnce(docs);
  }

  lemma {:induction false} OfClassExactly(docs: seq<Record>, c: Class, id: string)
    ensures id in OfClass(docs, c) <==> exists d :: d in docs && d.id == id && d.sensitivity == c
  {
    CollectMembers((d: Record) => if d.sensitivity == c then Some(d.id) else None, docs, id);
  }

  /** Five partitions in the order of the classes: each holds, in order, the ids of its class and no others. */
  lemma PartitionsHoldTheirClass(docs: seq<Record>, lists: seq<seq<string>>, i: nat, c: Class)
    requires lists == Map(MembersOf(docs), CLASSES) && i < 5
    requires c == [Public, Internal, Confidential, Restricted, SpecialCategory][i]
    ensures |lists| == 5 && SortedBy(StringLe, lists[i])
    ensures forall id :: id in lists[i] <==> exists d :: d in docs && d.id == id && d.sensitivity == c
  {
    StringLeIsTotalOrder();
    SortSorted(StringLe, OfClass(docs, c));
    SortKeeps(StringLe, OfClass(docs, c));
    forall id
      ensures id in OfClass(docs, c) <==> exists d :: d in docs && d.id == id && d.sensitivity == c
    {
      OfClassExactly(docs, c, id);
    }
  }

  /** The engine opens one partition for each class, with the members the build listed. */
  ghost predicate OpenedFrom(docs: seq<Record>, partitions: seq<Partition>) {
    && Map(ClassOf(), partitions) == Map((c: Class) => c.Name(), CLASSES)
    && Map(Members, partitions) == Map(MembersOf(docs), CLASSES)
  }

  /** Partitions opened from a built index hold no id twice. */
  lemma BuiltIsDisjoint(docs: seq<Record>, partitions: seq<Partition>)
    requires Sound(docs) && OpenedFrom(docs, partitions)
    ensures Disjoint(partitions)
  {
    SplitConserves(docs);
    PermutationKeepsDistinct(RecordIds(docs), Flatten(Map(Members, partitions)));
  }

  /** Lexical search over any built index serves exactly the best k serveable matches of the corpus. */
  lemma BuiltLexicalRefinesFlat(docs: seq<Record>, e: Engine, s: Scope, o: Options, tokens: seq<string>)
    requires Sound(docs) && OpenedFrom(docs, e.partitions)
    requires !HybridRuns(o, tokens) && o.judge.None? && Answer(e, s, o, tokens).Ok?
    ensures ResultIds(Answer(e, s, o, tokens).value.results) == FlatResults(e, s, o, tokens)
  {
    BuiltIsDisjoint(docs, e.partitions);
    LexicalRefinesFlat(e, s, o, tokens);
  }
}
