/**
 * The mosaic bound: when both documents of a tagged pair would reach one generation context, the lower-ranked
 * one is left out. The ranked results themselves are untouched.
 */
module Mosaic {
  import opened Basics

  const CONTEXT_DOCS := 6

  datatype Pair = Pair(a: string, b: string)

  function Max(a: nat, b: nat): nat {
    if a < b then b else a
  }

  function Remove<T>(s: seq<T>, k: nat): seq<T>
    requires k < |s|
  {
    s[..k] + s[k + 1..]
  }

  datatype Bound = Bound(surviving: seq<string>, removed: seq<string>)

  /** What one pair does to the survivors so far. */
  function Separate(s: Bound, pair: Pair): Bound {
    var a, b := IndexOf(s.surviving, pair.a), IndexOf(s.surviving, pair.b);
    if a.Some? && b.Some? then
      var lower := Max(a.value, b.value);
      Bound(Remove(s.surviving, lower), s.removed + [s.surviving[lower]])
    else s
  }

  function SeparateAll(results: seq<string>, pairs: seq<Pair>): Bound {
    if pairs == [] then Bound(results, [])
    else Separate(SeparateAll(results, pairs[..|pairs| - 1]), pairs[|pairs| - 1])
  }

  method ApplyBound(results: seq<string>, pairs: seq<Pair>)
    returns (surviving: seq<string>, removed: seq<string>, bounded: bool, sealed: seq<string>)
    ensures Bound(surviving, removed) == SeparateAll(results, pairs)
    ensures bounded == (removed != []) && sealed == Take(surviving, 6)
  {
    surviving, removed := results, [];
    for i := 0 to |pairs|
      invariant Bound(surviving, removed) == SeparateAll(results, pairs[..i])
    {
      assert pairs[..i + 1][..i] == pairs[..i];
      var a := IndexOf(surviving, pairs[i].a);
      var b := IndexOf(surviving, pairs[i].b);
      if a.Some? && b.Some? {
        var lower := Max(a.value, b.value);
        removed := removed + [surviving[lower]];
        surviving := Remove(surviving, lower);
      }
    }
    assert pairs[..|pairs|] == pairs;
    bounded := removed != [];
    sealed := Take(surviving, CONTEXT_DOCS);
  }

  // -------------------------------------------------------------------------
  // What the bound guarantees
  // -------------------------------------------------------------------------

  /** `s` is `t` with some elements left out, in the same order. */
  ghost predicate Subsequence(s: seq<string>, t: seq<string>) {
    if s == [] then true
    else if t == [] then false
    else if s[0] == t[0] then Subsequence(s[1..], t[1..])
    else Subsequence(s, t[1..])
  }

  lemma {:induction false} SubsequenceSelf(s: seq<string>)
    ensures Subsequence(s, s)
  {
    if s != [] {
      SubsequenceSelf(s[1..]);
    }
  }

  lemma {:induction false} SubsequenceMember(s: seq<string>, t: seq<string>, x: string)
    requires Subsequence(s, t) && x in s
    ensures x in t
  {
    if s[0] == t[0] {
      if x != s[0] {
        SubsequenceMember(s[1..], t[1..], x);
      }
    } else {
      SubsequenceMember(s, t[1..], x);
    }
  }

  /** Over distinct elements, leaving one more out keeps the order. */
  lemma {:induction false} RemoveIsSubsequence(s: seq<string>, t: seq<string>, k: nat)
    requires Distinct(t) && Subsequence(s, t) && k < |s|
    ensures Subsequence(Remove(s, k), t)
    decreases |t|
  {
    if s[0] != t[0] {
      RemoveIsSubsequence(s, t[1..], k);
      assert t[0] !in t[1..];
      if Remove(s, k) != [] {
        assert Remove(s, k)[0] in s;
        SubsequenceMember(s, t[1..], Remove(s, k)[0]);
      }
    } else if k > 0 {
      RemoveIsSubsequence(s[1..], t[1..], k - 1);
      assert Remove(s, k)[1..] == Remove(s[1..], k - 1);
    } else {
      assert Remove(s, k) == s[1..];
      if s[1..] != [] {
        SubsequenceMember(s[1..], t[1..], s[1]);
        assert s[1] != t[0];
      }
    }
  }

  /** `x` is ranked before `y`. */
  ghost predicate Before(ids: seq<string>, x: string, y: string) {
    exists i, j :: 0 <= i < j < |ids| && ids[i] == x && ids[j] == y
  }

  ghost predicate Tagged(pairs: seq<Pair>, x: string, y: string) {
    Pair(x, y) in pairs || Pair(y, x) in pairs
  }

  ghost predicate Together(ids: seq<string>, pair: Pair) {
    pair.a in ids && pair.b in ids
  }

  /** What holds after any prefix of the pairs. */
  ghost predicate Separated(results: seq<string>, pairs: seq<Pair>, s: Bound) {
    && Subsequence(s.surviving, results) && Distinct(s.surviving)
    && (forall id :: id in results <==> id in s.surviving || id in s.removed)
    && (forall pair :: pair in pairs ==> !Together(s.surviving, pair))
  }

  lemma RemovedOne(ids: seq<string>, k: nat)
    requires Distinct(ids) && k < |ids|
    ensures Distinct(Remove(ids, k)) && ids[k] !in Remove(ids, k)
    ensures forall id :: id in Remove(ids, k) <==> id in ids && id != ids[k]
  {
    forall id | id in ids && id != ids[k]
      ensures id in Remove(ids, k)
    {
      var i :| 0 <= i < |ids| && ids[i] == id;
      assert Remove(ids, k)[if i < k then i else i - 1] == id;
    }
  }

  lemma SeparateKeeps(results: seq<string>, pairs: seq<Pair>, s: Bound, pair: Pair)
    requires Distinct(results) && Separated(results, pairs, s)
    ensures Separated(results, pairs + [pair], Separate(s, pair))
  {
    var a, b := IndexOf(s.surviving, pair.a), IndexOf(s.surviving, pair.b);
    if a.Some? && b.Some? {
      var lower := Max(a.value, b.value);
      RemovedOne(s.surviving, lower);
      RemoveIsSubsequence(s.surviving, results, lower);
    }
  }

  /** What a pair does to a ranking: if both are there, whichever stands later goes, and nothing else. */
  ghost predicate LowerLeaves(pair: Pair, before: Bound, after: Bound) {
    if Together(before.surviving, pair) then
      exists k :: 0 <= k < |before.surviving| && LeavesAt(pair, before, after, k)
    else after == before
  }

  ghost predicate LeavesAt(pair: Pair, before: Bound, after: Bound, k: nat)
    requires k < |before.surviving|
  {
    && (before.surviving[k] == pair.a || before.surviving[k] == pair.b)
    && (forall j :: k < j < |before.surviving| ==> before.surviving[j] != pair.a && before.surviving[j] != pair.b)
    && after.surviving == before.surviving[..k] + before.surviving[k + 1..]
    && after.removed == before.removed + [before.surviving[k]]
  }

  lemma LowerOneLeaves(s: Bound, pair: Pair)
    requires Distinct(s.surviving)
    ensures LowerLeaves(pair, s, Separate(s, pair))
  {
    var a, b := IndexOf(s.surviving, pair.a), IndexOf(s.surviving, pair.b);
    if a.Some? && b.Some? {
      assert LeavesAt(pair, s, Separate(s, pair), Max(a.value, b.value));
    }
  }

  /** The pairs are applied one after the other, in their order, each to what the ones before it left. */
  lemma {:induction false} PairByPair(results: seq<string>, pairs: seq<Pair>) returns (states: seq<Bound>)
    requires Distinct(results)
    ensures |states| == |pairs| + 1 && states[0] == Bound(results, [])
    ensures states[|pairs|] == SeparateAll(results, pairs)
    ensures forall i :: 0 <= i < |pairs| ==> LowerLeaves(pairs[i], states[i], states[i + 1])
  {
    if pairs == [] {
      states := [Bound(results, [])];
    } else {
      var n := |pairs| - 1;
      states := PairByPair(results, pairs[..n]);
      NoPairSurvives(results, pairs[..n]);
      LowerOneLeaves(states[n], pairs[n]);
      states := states + [SeparateAll(results, pairs)];
    }
  }

  /** The survivors keep rank order, account with the removed for every result, and hold no tagged pair together. */
  lemma {:induction false} NoPairSurvives(results: seq<string>, pairs: seq<Pair>)
    requires Distinct(results)
    ensures Separated(results, pairs, SeparateAll(results, pairs))
  {
    if pairs == [] {
      SubsequenceSelf(results);
    } else {
      var init, last := pairs[..|pairs| - 1], pairs[|pairs| - 1];
      assert init + [last] == pairs;
      NoPairSurvives(results, init);
      SeparateKeeps(results, init, SeparateAll(results, init), last);
    }
  }

  /** So the sealed context, the head of the survivors, holds none either. */
  lemma SealedHoldsNoPair(results: seq<string>, pairs: seq<Pair>, pair: Pair)
    requires Distinct(results) && pair in pairs
    ensures !Together(Take(SeparateAll(results, pairs).surviving, CONTEXT_DOCS), pair)
  {
    NoPairSurvives(results, pairs);
    var surviving := SeparateAll(results, pairs).surviving;
    assert !Together(surviving, pair);
    forall id | id in Take(surviving, CONTEXT_DOCS)
      ensures id in surviving
    {
    }
  }

  /** The bound is reported exactly when some pair co-appeared in the results. */
  lemma {:induction false} BoundedMeansTogether(results: seq<string>, pairs: seq<Pair>)
    requires Distinct(results)
    ensures SeparateAll(results, pairs).removed != [] <==> exists pair :: pair in pairs && Together(results, pair)
  {
    if pairs != [] {
      var init, last := pairs[..|pairs| - 1], pairs[|pairs| - 1];
      assert pairs == init + [last];
      BoundedMeansTogether(results, init);
      var before := SeparateAll(results, init);
      if before.removed == [] {
        UntouchedSoFar(results, init);
        assert Separate(before, last).removed != [] <==> Together(results, last);
      } else {
        assert Separate(before, last).removed != [];
      }
    }
  }

  lemma {:induction false} UntouchedSoFar(results: seq<string>, pairs: seq<Pair>)
    requires SeparateAll(results, pairs).removed == []
    ensures SeparateAll(results, pairs).surviving == results
  {
    if pairs != [] {
      UntouchedSoFar(results, pairs[..|pairs| - 1]);
    }
  }

  /** The top result stays, exactly when it is not tagged as a pair with itself. */
  lemma TopStays(results: seq<string>, pairs: seq<Pair>)
    requires Distinct(results) && results != []
    ensures var surviving := SeparateAll(results, pairs).surviving;
            (surviving != [] && surviving[0] == results[0]) <==> Pair(results[0], results[0]) !in pairs
  {
    if Pair(results[0], results[0]) in pairs {
      SelfPairLeaves(results, pairs, results[0]);
    } else {
      TopIsKept(results, pairs);
    }
  }

  lemma SelfPairLeaves(results: seq<string>, pairs: seq<Pair>, id: string)
    requires Distinct(results) && Pair(id, id) in pairs
    ensures id !in SeparateAll(results, pairs).surviving
  {
    NoPairSurvives(results, pairs);
    assert !Together(SeparateAll(results, pairs).surviving, Pair(id, id));
  }

  lemma {:induction false} TopIsKept(results: seq<string>, pairs: seq<Pair>)
    requires Distinct(results) && results != [] && Pair(results[0], results[0]) !in pairs
    ensures SeparateAll(results, pairs).surviving != [] && SeparateAll(results, pairs).surviving[0] == results[0]
  {
    if pairs != [] {
      var init, last := pairs[..|pairs| - 1], pairs[|pairs| - 1];
      assert last in pairs;
      TopIsKept(results, init);
      NoPairSurvives(results, init);
      TopStaysOnce(SeparateAll(results, init), last);
    }
  }

  lemma TopStaysOnce(s: Bound, pair: Pair)
    requires s.surviving != [] && pair != Pair(s.surviving[0], s.surviving[0])
    requires Distinct(s.surviving)
    ensures Separate(s, pair).surviving != [] && Separate(s, pair).surviving[0] == s.surviving[0]
  {
  }

  /** With distinct pair members, every document left out has a tagged partner ranked above it. */
  lemma {:induction false} RemovedForAPartner(results: seq<string>, pairs: seq<Pair>, id: string)
    requires Distinct(results) && id in SeparateAll(results, pairs).removed
    requires forall pair :: pair in pairs ==> pair.a != pair.b
    ensures exists partner :: Tagged(pairs, partner, id) && Before(results, partner, id)
  {
    var n := |pairs| - 1;
    var before, pair := SeparateAll(results, pairs[..n]), pairs[n];
    NoPairSurvives(results, pairs[..n]);
    if id in before.removed {
      RemovedForAPartner(results, pairs[..n], id);
      var partner :| Tagged(pairs[..n], partner, id) && Before(results, partner, id);
      assert Tagged(pairs, partner, id);
    } else {
      var a, b := IndexOf(before.surviving, pair.a).value, IndexOf(before.surviving, pair.b).value;
      var partner := if a < b then pair.a else pair.b;
      assert pair in pairs;
      assert Before(before.surviving, partner, id);
      SubsequenceOrder(before.surviving, results, partner, id);
    }
  }

  lemma {:induction false} SubsequenceOrder(s: seq<string>, t: seq<string>, x: string, y: string)
    requires Subsequence(s, t) && Before(s, x, y)
    ensures Before(t, x, y)
    decreases |t|
  {
    var i, j :| 0 <= i < j < |s| && s[i] == x && s[j] == y;
    if s[0] != t[0] {
      SubsequenceOrder(s, t[1..], x, y);
      BeforeInTail(t, x, y);
    } else if i > 0 {
      assert s[1..][i - 1] == x && s[1..][j - 1] == y;
      SubsequenceOrder(s[1..], t[1..], x, y);
      BeforeInTail(t, x, y);
    } else {
      assert s[1..][j - 1] == y;
      SubsequenceMember(s[1..], t[1..], y);
      var k :| 0 <= k < |t[1..]| && t[1..][k] == y;
      assert t[0] == x && t[k + 1] == y;
    }
  }

  lemma BeforeInTail(t: seq<string>, x: string, y: string)
    requires t != [] && Before(t[1..], x, y)
    ensures Before(t, x, y)
  {
    var i, j :| 0 <= i < j < |t[1..]| && t[1..][i] == x && t[1..][j] == y;
    assert t[i + 1] == x && t[j + 1] == y;
  }
}
