/** Small shared vocabulary: optional values, results and facts about sequences. */
module Basics {

  datatype Option<+T> = None | Some(value: T) {
    function GetOr(default: T): T {
      if Some? then value else default
    }
  }

  datatype Result<+T, +E> = Ok(value: T) | Err(error: E)

  /** A hexadecimal SHA-256 digest. The hash itself is any function from text to digests. */
  datatype Digest = Digest(hex: string) {
    function Short(): string {
      Take(hex, 16)
    }
  }

  type Sha256 = string -> Digest

  ghost predicate Distinct<T>(s: seq<T>) {
    forall i, j :: 0 <= i < j < |s| ==> s[i] != s[j]
  }

  /** The elements of a sequence, as a set. */
  ghost function Elements<T>(s: seq<T>): set<T> {
    set x | x in s
  }

  lemma DistinctSnoc<T>(s: seq<T>, x: T)
    ensures Distinct(s + [x]) <==> Distinct(s) && x !in s
  {
    var longer := s + [x];
    if Distinct(longer) {
      assert forall i :: 0 <= i < |s| ==> s[i] == longer[i] && longer[i] != longer[|s|];
    }
  }

  lemma Regroup<T>(a: seq<T>, b: seq<T>, c: seq<T>)
    ensures a + (b + c) == a + b + c
  {
  }

  lemma ElementsSnoc<T>(s: seq<T>, x: T)
    ensures Elements(s + [x]) == Elements(s) + {x}
  {
  }

  /** Keeps the elements that satisfy `keep`, in order. */
  function Filter<T(!new)>(keep: T -> bool, s: seq<T>): (r: seq<T>)
    ensures forall x :: x in r <==> x in s && keep(x)
  {
    if s == [] then []
    else if keep(s[0]) then [s[0]] + Filter(keep, s[1..])
    else Filter(keep, s[1..])
  }

  function Map<T, U>(f: T -> U, s: seq<T>): (r: seq<U>)
    ensures |r| == |s| && forall i :: 0 <= i < |s| ==> r[i] == f(s[i])
  {
    seq(|s|, i requires 0 <= i < |s| => f(s[i]))
  }

  function Flatten<T>(ss: seq<seq<T>>): seq<T> {
    if ss == [] then [] else ss[0] + Flatten(ss[1..])
  }

  function Take<T>(s: seq<T>, k: nat): (r: seq<T>) {
    if |s| <= k then s else s[..k]
  }

  lemma {:induction false} FilterDistinct<T(!new)>(keep: T -> bool, s: seq<T>)
    requires Distinct(s)
    ensures Distinct(Filter(keep, s))
  {
    if s != [] {
      FilterDistinct(keep, s[1..]);
    }
  }

  lemma {:induction false} FilterConcat<T(!new)>(keep: T -> bool, a: seq<T>, b: seq<T>)
    ensures Filter(keep, a + b) == Filter(keep, a) + Filter(keep, b)
  {
    if a == [] {
      assert a + b == b;
    } else {
      assert (a + b)[1..] == a[1..] + b;
      FilterConcat(keep, a[1..], b);
    }
  }

  lemma FilterSnoc<T(!new)>(keep: T -> bool, s: seq<T>, x: T)
    ensures Filter(keep, s + [x]) == if keep(x) then Filter(keep, s) + [x] else Filter(keep, s)
  {
    FilterConcat(keep, s, [x]);
  }

  function MemberOf<T(==)>(s: seq<T>): T -> bool {
    x => x in s
  }

  function NotMemberOf<T(==)>(s: seq<T>): T -> bool {
    x => x !in s
  }

  lemma {:induction false} FlattenConcat<T>(a: seq<seq<T>>, b: seq<seq<T>>)
    ensures Flatten(a + b) == Flatten(a) + Flatten(b)
  {
    if a == [] {
      assert a + b == b;
    } else {
      assert (a + b)[1..] == a[1..] + b;
      FlattenConcat(a[1..], b);
    }
  }

  lemma FlattenSnoc<T>(a: seq<seq<T>>, x: seq<T>)
    ensures Flatten(a + [x]) == Flatten(a) + x
  {
    FlattenConcat(a, [x]);
    assert Flatten([x]) == x + Flatten([]);
  }

  lemma {:induction false} FlattenMembers<T>(ss: seq<seq<T>>, x: T)
    ensures x in Flatten(ss) <==> exists i :: 0 <= i < |ss| && x in ss[i]
  {
    if ss != [] {
      FlattenMembers(ss[1..], x);
      if i :| 0 <= i < |ss| && x in ss[i] {
        if i > 0 {
          assert ss[1..][i - 1] == ss[i];
        }
      }
    }
  }

  /** Equal multisets have equal membership. */
  lemma SameMultisetSameMembers<T>(a: seq<T>, b: seq<T>)
    requires multiset(a) == multiset(b)
    ensures |a| == |b|
    ensures forall x :: x in a <==> x in b
  {
    assert |multiset(a)| == |a| && |multiset(b)| == |b|;
    forall x
      ensures x in a <==> x in b
    {
      assert x in a <==> x in multiset(a);
      assert x in b <==> x in multiset(b);
    }
  }

  lemma {:induction false} DistinctMultiplicity<T>(s: seq<T>, x: T)
    requires Distinct(s)
    ensures multiset(s)[x] == if x in s then 1 else 0
  {
    if s != [] {
      assert s == [s[0]] + s[1..];
      DistinctMultiplicity(s[1..], x);
    }
  }

  lemma {:induction false} MultiplicityDistinct<T>(s: seq<T>)
    requires forall x :: multiset(s)[x] <= 1
    ensures Distinct(s)
  {
    if s != [] {
      assert s == [s[0]] + s[1..];
      forall x
        ensures multiset(s[1..])[x] <= 1
      {
        assert multiset(s)[x] <= 1;
      }
      MultiplicityDistinct(s[1..]);
      assert multiset(s)[s[0]] <= 1;
      assert s[0] !in multiset(s[1..]);
    }
  }

  lemma PermutationKeepsDistinct<T>(a: seq<T>, b: seq<T>)
    requires multiset(a) == multiset(b) && Distinct(a)
    ensures Distinct(b)
  {
    forall x
      ensures multiset(b)[x] <= 1
    {
      DistinctMultiplicity(a, x);
    }
    MultiplicityDistinct(b);
  }

  /** Two sequences without repeats and with the same members are permutations. */
  lemma DistinctSameMembers<T>(a: seq<T>, b: seq<T>)
    requires Distinct(a) && Distinct(b)
    requires forall x :: x in a <==> x in b
    ensures multiset(a) == multiset(b)
  {
    forall x
      ensures multiset(a)[x] == multiset(b)[x]
    {
      DistinctMultiplicity(a, x);
      DistinctMultiplicity(b, x);
    }
  }

  /** Where `x` first stands in `s`. */
  function IndexOf<T(==)>(s: seq<T>, x: T): (r: Option<nat>)
    ensures r.None? <==> x !in s
    ensures r.Some? ==> r.value < |s| && s[r.value] == x && forall j :: 0 <= j < r.value ==> s[j] != x
  {
    if s == [] then None
    else if s[0] == x then Some(0)
    else match IndexOf(s[1..], x) case None => None case Some(k) => Some(k + 1)
  }

  /** First occurrences only, in order. */
  function Dedupe<T(==,!new)>(s: seq<T>): (r: seq<T>)
    ensures Distinct(r)
    ensures forall x {:trigger x in r} {:trigger x in s} :: x in r <==> x in s
  {
    if s == [] then []
    else
      var before := Dedupe(s[..|s| - 1]);
      assert s == s[..|s| - 1] + [s[|s| - 1]];
      if s[|s| - 1] in before then before else before + [s[|s| - 1]]
  }

  lemma DedupeSnoc<T(!new)>(s: seq<T>, x: T)
    ensures Dedupe(s + [x]) == if x in Dedupe(s) then Dedupe(s) else Dedupe(s) + [x]
  {
    assert (s + [x])[..|s|] == s;
  }

  /** The results of `f` that exist, in order. */
  function Collect<T, U>(f: T -> Option<U>, s: seq<T>): seq<U> {
    if s == [] then []
    else
      var before := Collect(f, s[..|s| - 1]);
      if f(s[|s| - 1]).Some? then before + [f(s[|s| - 1]).value] else before
  }

  lemma CollectSnoc<T, U>(f: T -> Option<U>, s: seq<T>, x: T)
    ensures Collect(f, s + [x]) == if f(x).Some? then Collect(f, s) + [f(x).value] else Collect(f, s)
  {
    assert (s + [x])[..|s|] == s;
  }

  lemma {:induction false} CollectMembers<T, U>(f: T -> Option<U>, s: seq<T>, u: U)
    ensures u in Collect(f, s) <==> exists x :: x in s && f(x) == Some(u)
  {
    if s != [] {
      CollectMembers(f, s[..|s| - 1], u);
      assert s == s[..|s| - 1] + [s[|s| - 1]];
    }
  }

  /** `f` over every element in order, stopping at the first failure. */
  function Traverse<T, U, E>(f: T -> Result<U, E>, s: seq<T>): Result<seq<U>, E> {
    if s == [] then Ok([])
    else
      match Traverse(f, s[..|s| - 1])
      case Err(e) => Err(e)
      case Ok(us) => match f(s[|s| - 1]) case Err(e) => Err(e) case Ok(u) => Ok(us + [u])
  }

  lemma TraverseSnoc<T, U, E>(f: T -> Result<U, E>, s: seq<T>, i: nat)
    requires i < |s| && Traverse(f, s[..i]).Ok?
    ensures f(s[i]).Ok? ==> Traverse(f, s[..i + 1]) == Ok(Traverse(f, s[..i]).value + [f(s[i]).value])
    ensures f(s[i]).Err? ==> Traverse(f, s) == Err(f(s[i]).error)
  {
    assert s[..i + 1][..i] == s[..i];
    if f(s[i]).Err? {
      TraverseStays(f, s, i + 1);
    }
  }

  lemma {:induction false} TraverseStays<T, U, E>(f: T -> Result<U, E>, s: seq<T>, i: nat)
    requires i <= |s| && Traverse(f, s[..i]).Err?
    ensures Traverse(f, s) == Traverse(f, s[..i])
    decreases |s| - i
  {
    if i == |s| {
      assert s[..i] == s;
    } else {
      assert s[..i + 1][..i] == s[..i];
      TraverseStays(f, s, i + 1);
    }
  }

  lemma {:induction false} TraverseAll<T, U, E>(f: T -> Result<U, E>, s: seq<T>)
    requires forall x :: x in s ==> f(x).Ok?
    ensures Traverse(f, s).Ok? && |Traverse(f, s).value| == |s|
    ensures forall i :: 0 <= i < |s| ==> f(s[i]) == Ok(Traverse(f, s).value[i])
  {
    if s != [] {
      TraverseAll(f, s[..|s| - 1]);
    }
  }

  lemma MapOneMore<T, U>(f: T -> U, s: seq<T>, i: nat)
    requires i < |s|
    ensures Map(f, s[..i + 1]) == Map(f, s[..i]) + [f(s[i])]
  {
  }

  lemma MapWithout<T, U>(f: T -> U, s: seq<T>, k: nat)
    requires k < |s|
    ensures multiset(Map(f, s)) == multiset(Map(f, Without(s, k))) + multiset{f(s[k])}
  {
    var a, b := Map(f, s[..k]), Map(f, s[k + 1..]);
    assert Map(f, s) == a + [f(s[k])] + b;
    assert Map(f, Without(s, k)) == a + b;
  }

  /** The sequence without its element `k`. */
  ghost function Without<T>(s: seq<T>, k: nat): (r: seq<T>)
    requires k < |s|
    ensures |r| == |s| - 1
    ensures multiset(r) == multiset(s) - multiset{s[k]}
  {
    assert s == s[..k] + [s[k]] + s[k + 1..];
    s[..k] + s[k + 1..]
  }

  lemma {:induction false} MapOfPermutation<T, U>(f: T -> U, a: seq<T>, b: seq<T>)
    requires multiset(a) == multiset(b)
    ensures multiset(Map(f, a)) == multiset(Map(f, b))
    decreases |a|
  {
    SameMultisetSameMembers(a, b);
    if a != [] {
      assert a[0] in b;
      var k :| 0 <= k < |b| && b[k] == a[0];
      MapOfPermutation(f, Without(a, 0), Without(b, k));
      MapWithout(f, a, 0);
      MapWithout(f, b, k);
    }
  }
}
