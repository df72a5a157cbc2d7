/** The optional judge: when it runs, and how its untrusted order is spliced into a ranking. */
module Judging {
  import opened Basics

  /** The judge runs only on enough candidates and only without a clear winner. */
  function JudgeEligible(scores: seq<real>, minCandidates: nat, maxRatio: real): bool {
    if |scores| < (if minCandidates < 2 then 2 else minCandidates) then false
    else if scores[1] <= 0.0 then false
    else scores[0] / scores[1] < maxRatio
  }

  function Picks<T(==,!new)>(head: seq<T>, order: seq<T>): seq<T> {
    Dedupe(Filter(MemberOf(head), order))
  }

  /** The new ranking, or None when the judge named no candidate at all. */
  function Spliced<T(==,!new)>(fused: seq<T>, topK: nat, order: seq<T>): Option<seq<T>> {
    var head := Take(fused, topK);
    var picks := Picks(head, order);
    if picks == [] then None
    else Some(picks + Filter(NotMemberOf(picks), head) + fused[|head|..])
  }

  /** The source's loops: discard and count foreign ids, take the rest once, then complete from the head. */
  method ApplyJudge<T(==,!new)>(fused: seq<T>, topK: nat, order: seq<T>)
    returns (spliced: Option<seq<T>>, faults: nat)
    ensures spliced == Spliced(fused, topK, order)
    ensures faults == |Filter(NotMemberOf(Take(fused, topK)), order)|
  {
    var head := Take(fused, topK);
    var reordered: seq<T> := [];
    faults := 0;
    for i := 0 to |order|
      invariant reordered == Picks(head, order[..i])
      invariant faults == |Filter(NotMemberOf(head), order[..i])|
    {
      assert order[..i + 1] == order[..i] + [order[i]];
      FilterSnoc(MemberOf(head), order[..i], order[i]);
      FilterSnoc(NotMemberOf(head), order[..i], order[i]);
      if order[i] !in head {
        faults := faults + 1;
      } else {
        DedupeSnoc(Filter(MemberOf(head), order[..i]), order[i]);
        if order[i] !in reordered {
          reordered := reordered + [order[i]];
        }
      }
    }
    assert order[..|order|] == order;
    if reordered == [] {
      return None, faults;
    }
    var completed := Complete(reordered, head);
    return Some(completed + fused[|head|..]), faults;
  }

  /** Unmentioned candidates follow the picks in their own order. */
  method Complete<T(==,!new)>(picks: seq<T>, head: seq<T>) returns (completed: seq<T>)
    ensures completed == picks + Filter(NotMemberOf(picks), head)
  {
    completed := picks;
    for i := 0 to |head|
      invariant completed == picks + Filter(NotMemberOf(picks), head[..i])
    {
      assert head[..i + 1] == head[..i] + [head[i]];
      FilterSnoc(NotMemberOf(picks), head[..i], head[i]);
      if head[i] !in picks {
        completed := completed + [head[i]];
      }
    }
    assert head[..|head|] == head;
  }

  // -------------------------------------------------------------------------
  // What survives of an arbitrary judge output
  // -------------------------------------------------------------------------

  /** Where `x` first stands in `s`; the length if it does not. */
  function FirstIndex<T(==)>(s: seq<T>, x: T): nat {
    IndexOf(s, x).GetOr(|s|)
  }

  lemma FirstIndexCons<T>(h: T, t: seq<T>, x: T)
    ensures FirstIndex([h] + t, x) == if h == x then 0 else 1 + FirstIndex(t, x)
  {
  }

  lemma FirstIndexConcat<T>(s: seq<T>, t: seq<T>, x: T)
    requires x in s
    ensures FirstIndex(s + t, x) == FirstIndex(s, x)
  {
    assert (s + t)[FirstIndex(s, x)] == x;
  }

  lemma DistinctIndex<T>(s: seq<T>, i: nat)
    requires Distinct(s) && i < |s|
    ensures FirstIndex(s, s[i]) == i
  {
    assert s[i] in s;
  }

  lemma FirstIndexLast<T>(s: seq<T>, x: T)
    requires x !in s
    ensures FirstIndex(s + [x], x) == |s|
  {
    assert (s + [x])[|s|] == x;
  }

  lemma {:induction false} DedupeKeepsFirstOrder<T(!new)>(s: seq<T>, i: nat, j: nat)
    requires i < j < |Dedupe(s)|
    ensures FirstIndex(s, Dedupe(s)[i]) < FirstIndex(s, Dedupe(s)[j])
  {
    var n := |s| - 1;
    assert s == s[..n] + [s[n]];
    DedupeSnoc(s[..n], s[n]);
    if j < |Dedupe(s[..n])| {
      DedupeKeepsFirstOrder(s[..n], i, j);
      FirstIndexConcat(s[..n], [s[n]], Dedupe(s)[i]);
      FirstIndexConcat(s[..n], [s[n]], Dedupe(s)[j]);
    } else {
      FirstIndexConcat(s[..n], [s[n]], Dedupe(s)[i]);
      FirstIndexLast(s[..n], s[n]);
    }
  }

  lemma {:induction false} FilterKeepsFirstOrder<T(!new)>(keep: T -> bool, s: seq<T>, x: T, y: T)
    requires keep(x) && keep(y) && x in s && y in s
    ensures FirstIndex(Filter(keep, s), x) < FirstIndex(Filter(keep, s), y) <==> FirstIndex(s, x) < FirstIndex(s, y)
  {
    var rest := Filter(keep, s[1..]);
    if keep(s[0]) {
      assert Filter(keep, s) == [s[0]] + rest;
      FirstIndexCons(s[0], rest, x);
      FirstIndexCons(s[0], rest, y);
    } else {
      assert Filter(keep, s) == rest;
    }
    if s[0] != x && s[0] != y {
      FilterKeepsFirstOrder(keep, s[1..], x, y);
    }
  }

  /** `a` comes before `b` by the judge's word where it has one, and by the fused order where it has none. */
  ghost predicate JudgeBefore<T>(fused: seq<T>, order: seq<T>, a: T, b: T) {
    if a in order && b in order then FirstIndex(order, a) < FirstIndex(order, b)
    else if a in order || b in order then a in order
    else FirstIndex(fused, a) < FirstIndex(fused, b)
  }

  lemma {:induction false} SplitByFilter<T(!new)>(keep: T -> bool, drop: T -> bool, s: seq<T>)
    requires forall x :: x in s ==> keep(x) != drop(x)
    ensures multiset(s) == multiset(Filter(keep, s)) + multiset(Filter(drop, s))
  {
    if s != [] {
      assert s == [s[0]] + s[1..];
      SplitByFilter(keep, drop, s[1..]);
      assert keep(s[0]) != drop(s[0]);
    }
  }

  lemma HeadIsPermuted<T(!new)>(head: seq<T>, order: seq<T>)
    requires Distinct(head)
    ensures var picks := Picks(head, order);
            multiset(picks + Filter(NotMemberOf(picks), head)) == multiset(head)
  {
    var picks := Picks(head, order);
    SplitByFilter(MemberOf(picks), NotMemberOf(picks), head);
    FilterDistinct(MemberOf(picks), head);
    DistinctSameMembers(picks, Filter(MemberOf(picks), head));
    assert multiset(picks + Filter(NotMemberOf(picks), head))
        == multiset(picks) + multiset(Filter(NotMemberOf(picks), head));
  }

  /** Whatever the judge says, the result is the fused ranking permuted within its head. */
  lemma JudgeOnlyPermutesHead<T(!new)>(fused: seq<T>, topK: nat, order: seq<T>)
    requires Distinct(fused) && Spliced(fused, topK, order).Some?
    ensures var out := Spliced(fused, topK, order).value;
            var n := |Take(fused, topK)|;
            && multiset(out) == multiset(fused) && |out| == |fused| && Distinct(out)
            && out[n..] == fused[n..] && multiset(out[..n]) == multiset(fused[..n])
  {
    var head := Take(fused, topK);
    var picks := Picks(head, order);
    var front := picks + Filter(NotMemberOf(picks), head);
    var out := Spliced(fused, topK, order).value;
    HeadIsPermuted(head, order);
    SameMultisetSameMembers(front, head);
    assert out == front + fused[|head|..] && fused == head + fused[|head|..];
    assert out[|head|..] == fused[|head|..] && out[..|head|] == front && fused[..|head|] == head;
    PermutationKeepsDistinct(fused, out);
  }

  lemma PicksInJudgeOrder<T(!new)>(head: seq<T>, order: seq<T>, i: nat, j: nat)
    requires i < j < |Picks(head, order)|
    ensures var picks := Picks(head, order);
            picks[i] in order && picks[j] in order && FirstIndex(order, picks[i]) < FirstIndex(order, picks[j])
  {
    var picks := Picks(head, order);
    DedupeKeepsFirstOrder(Filter(MemberOf(head), order), i, j);
    assert picks[i] in picks && picks[j] in picks;
    FilterKeepsFirstOrder(MemberOf(head), order, picks[i], picks[j]);
  }

  lemma RestInFusedOrder<T(!new)>(head: seq<T>, picks: seq<T>, i: nat, j: nat)
    requires Distinct(head) && i < j < |Filter(NotMemberOf(picks), head)|
    ensures var rest := Filter(NotMemberOf(picks), head);
            rest[i] in head && rest[j] in head && FirstIndex(head, rest[i]) < FirstIndex(head, rest[j])
  {
    var rest := Filter(NotMemberOf(picks), head);
    FilterDistinct(NotMemberOf(picks), head);
    DistinctIndex(rest, i);
    DistinctIndex(rest, j);
    assert rest[i] in rest && rest[j] in rest;
    FilterKeepsFirstOrder(NotMemberOf(picks), head, rest[i], rest[j]);
  }

  lemma PickBeforeRest<T(!new)>(fused: seq<T>, head: seq<T>, order: seq<T>, a: T, b: T)
    requires a in Picks(head, order) && b in Filter(NotMemberOf(Picks(head, order)), head)
    ensures JudgeBefore(fused, order, a, b)
  {
    var mentioned := Filter(MemberOf(head), order);
    assert a in mentioned && a in order;
    assert b in order ==> b in mentioned;
  }

  lemma RestBeforeRest<T(!new)>(fused: seq<T>, head: seq<T>, order: seq<T>, i: nat, j: nat)
    requires head <= fused && Distinct(head) && i < j < |Filter(NotMemberOf(Picks(head, order)), head)|
    ensures var rest := Filter(NotMemberOf(Picks(head, order)), head);
            JudgeBefore(fused, order, rest[i], rest[j])
  {
    var picks := Picks(head, order);
    var rest := Filter(NotMemberOf(picks), head);
    RestInFusedOrder(head, picks, i, j);
    NotPickedNotMentioned(head, order, rest[i]);
    NotPickedNotMentioned(head, order, rest[j]);
    assert fused == head + fused[|head|..];
    FirstIndexConcat(head, fused[|head|..], rest[i]);
    FirstIndexConcat(head, fused[|head|..], rest[j]);
  }

  lemma NotPickedNotMentioned<T(!new)>(head: seq<T>, order: seq<T>, x: T)
    requires x in Filter(NotMemberOf(Picks(head, order)), head)
    ensures x !in order
  {
    assert x in order ==> x in Filter(MemberOf(head), order);
  }

  lemma SplicedHead<T(!new)>(fused: seq<T>, topK: nat, order: seq<T>, i: nat)
    requires Distinct(fused) && Spliced(fused, topK, order).Some? && i < |Take(fused, topK)|
    ensures var head := Take(fused, topK);
            var picks := Picks(head, order);
            var rest := Filter(NotMemberOf(picks), head);
            |picks| + |rest| == |head| && i < |Spliced(fused, topK, order).value|
            && Spliced(fused, topK, order).value[i] == if i < |picks| then picks[i] else rest[i - |picks|]
  {
    var head := Take(fused, topK);
    HeadIsPermuted(head, order);
    SameMultisetSameMembers(Picks(head, order) + Filter(NotMemberOf(Picks(head, order)), head), head);
  }

  /** Within the head, mentioned ids come first in first-mention order and the rest keep their fused order. */
  lemma JudgeOrderIsHonoured<T(!new)>(fused: seq<T>, topK: nat, order: seq<T>, i: nat, j: nat)
    requires Distinct(fused) && Spliced(fused, topK, order).Some?
    requires i < j < |Take(fused, topK)|
    ensures j < |Spliced(fused, topK, order).value|
    ensures JudgeBefore(fused, order, Spliced(fused, topK, order).value[i], Spliced(fused, topK, order).value[j])
  {
    var head := Take(fused, topK);
    var picks := Picks(head, order);
    SplicedHead(fused, topK, order, i);
    SplicedHead(fused, topK, order, j);
    if j < |picks| {
      PicksInJudgeOrder(head, order, i, j);
    } else if i < |picks| {
      PickBeforeRest(fused, head, order, picks[i], Filter(NotMemberOf(picks), head)[j - |picks|]);
    } else {
      RestBeforeRest(fused, head, order, i - |picks|, j - |picks|);
    }
  }
}
