/** Taking the best k of a whole from the best k of its parts. */
module TopK {
  import opened Basics
  import opened Ordering

  /** Merges two sorted lists. */
  ghost function Merge<T>(le: (T, T) -> bool, a: seq<T>, b: seq<T>): (r: seq<T>)
    ensures multiset(r) == multiset(a) + multiset(b)
  {
    if a == [] then b
    else if b == [] then a
    else if le(a[0], b[0]) then
      assert a == [a[0]] + a[1..];
      [a[0]] + Merge(le, a[1..], b)
    else
      assert b == [b[0]] + b[1..];
      [b[0]] + Merge(le, a, b[1..])
  }

  lemma {:induction false} MergeSorted<T(!new)>(le: (T, T) -> bool, a: seq<T>, b: seq<T>)
    requires TotalPreorder(le) && SortedBy(le, a) && SortedBy(le, b)
    ensures SortedBy(le, Merge(le, a, b))
  {
    if a != [] && b != [] {
      if le(a[0], b[0]) {
        MergeSorted(le, a[1..], b);
        HeadBelow(le, a[0], a[1..], b);
      } else {
        MergeSorted(le, a, b[1..]);
        HeadBelow(le, b[0], a, b[1..]);
      }
    }
  }

  lemma HeadBelow<T(!new)>(le: (T, T) -> bool, x: T, a: seq<T>, b: seq<T>)
    requires TotalPreorder(le) && SortedBy(le, a) && SortedBy(le, b)
    requires a != [] ==> le(x, a[0])
    requires b != [] ==> le(x, b[0])
    ensures forall y :: y in Merge(le, a, b) ==> le(x, y)
  {
    forall y | y in Merge(le, a, b)
      ensures le(x, y)
    {
      assert y in multiset(Merge(le, a, b));
      assert y in multiset(a) || y in multiset(b);
      assert y in a || y in b;
    }
  }

  lemma TakeOfMergeLeft<T>(le: (T, T) -> bool, a: seq<T>, b: seq<T>, k: nat)
    requires k > 0 && a != [] && b != [] && le(a[0], b[0])
    requires Take(Merge(le, a[1..], b), k - 1) == Take(Merge(le, Take(a[1..], k - 1), b), k - 1)
    ensures Take(Merge(le, a, b), k) == Take(Merge(le, Take(a, k), b), k)
  {
    var a' := Take(a, k);
    assert a'[0] == a[0] && a'[1..] == Take(a[1..], k - 1);
    TakeCons(a[0], Merge(le, a[1..], b), k);
    TakeCons(a[0], Merge(le, a'[1..], b), k);
  }

  lemma TakeOfMergeRight<T>(le: (T, T) -> bool, a: seq<T>, b: seq<T>, k: nat)
    requires k > 0 && a != [] && b != [] && !le(a[0], b[0])
    requires Take(Merge(le, a, b[1..]), k - 1) == Take(Merge(le, Take(a, k), b[1..]), k - 1)
    ensures Take(Merge(le, a, b), k) == Take(Merge(le, Take(a, k), b), k)
  {
    assert Take(a, k)[0] == a[0];
    TakeCons(b[0], Merge(le, a, b[1..]), k);
    TakeCons(b[0], Merge(le, Take(a, k), b[1..]), k);
  }

  lemma TakeTake<T>(s: seq<T>, n: nat, k: nat)
    requires n <= k
    ensures Take(Take(s, k), n) == Take(s, n)
  {
  }

  /** Only the first k of one side can reach the first k of a merge. */
  lemma {:induction false} TakeOfMerge<T>(le: (T, T) -> bool, a: seq<T>, b: seq<T>, k: nat)
    ensures Take(Merge(le, a, b), k) == Take(Merge(le, Take(a, k), b), k)
    decreases |a| + |b|
  {
    if k == 0 {
      assert Take(Merge(le, a, b), 0) == [] == Take(Merge(le, Take(a, 0), b), 0);
    } else if a == [] {
      assert Take(a, k) == a;
    } else if b == [] {
      TakeTake(a, k, k);
    } else if le(a[0], b[0]) {
      TakeOfMerge(le, a[1..], b, k - 1);
      TakeOfMergeLeft(le, a, b, k);
    } else {
      TakeOfMerge(le, a, b[1..], k - 1);
      TakeOfMerge(le, Take(a, k), b[1..], k - 1);
      TakeTake(a, k - 1, k);
      TakeOfMergeRight(le, a, b, k);
    }
  }

  lemma TakeCons<T>(x: T, s: seq<T>, k: nat)
    requires k > 0
    ensures Take([x] + s, k) == [x] + Take(s, k - 1)
  {
  }

  lemma SortOfConcat<T(!new)>(le: (T, T) -> bool, a: seq<T>, b: seq<T>)
    requires TotalOrder(le)
    ensures Sort(le, a + b) == Merge(le, Sort(le, a), Sort(le, b))
  {
    SortSorted(le, a);
    SortSorted(le, b);
    SortSorted(le, a + b);
    MergeSorted(le, Sort(le, a), Sort(le, b));
    assert multiset(a + b) == multiset(a) + multiset(b);
    SortedUnique(le, Sort(le, a + b), Merge(le, Sort(le, a), Sort(le, b)));
  }

  /** The best k, in order. */
  function Best<T>(le: (T, T) -> bool, s: seq<T>, k: nat): seq<T> {
    Take(Sort(le, s), k)
  }

  lemma SortOfBest<T(!new)>(le: (T, T) -> bool, s: seq<T>, k: nat)
    requires TotalOrder(le)
    ensures Sort(le, Best(le, s, k)) == Best(le, s, k)
  {
    SortSorted(le, s);
    SortOfSorted(le, Best(le, s, k));
  }

  /** Cutting one part to its own best k first does not change the best k of the whole. */
  lemma BestOfCutPart<T(!new)>(le: (T, T) -> bool, a: seq<T>, b: seq<T>, k: nat)
    requires TotalOrder(le)
    ensures Best(le, a + b, k) == Best(le, Best(le, a, k) + b, k)
  {
    SortOfConcat(le, a, b);
    SortOfConcat(le, Best(le, a, k), b);
    SortOfBest(le, a, k);
    TakeOfMerge(le, Sort(le, a), Sort(le, b), k);
  }

  /** The per-part lists cut to their best k. */
  ghost function CutParts<T>(le: (T, T) -> bool, parts: seq<seq<T>>, k: nat): seq<seq<T>> {
    Map(p => Best(le, p, k), parts)
  }

  /** The best k of all parts is the best k of the parts' own best k. */
  lemma {:induction false} BestOfParts<T(!new)>(le: (T, T) -> bool, parts: seq<seq<T>>, k: nat)
    requires TotalOrder(le)
    ensures Best(le, Flatten(parts), k) == Best(le, Flatten(CutParts(le, parts, k)), k)
  {
    if parts != [] {
      var a, rest := parts[0], parts[1..];
      var cut := CutParts(le, rest, k);
      assert CutParts(le, parts, k)[1..] == cut;
      BestOfParts(le, rest, k);
      BestOfCutPart(le, a, Flatten(rest), k);
      BestSwaps(le, Best(le, a, k), Flatten(rest), k);
      BestOfCutPart(le, Flatten(rest), Best(le, a, k), k);
      BestOfCutPart(le, Flatten(cut), Best(le, a, k), k);
      BestSwaps(le, Best(le, a, k), Flatten(cut), k);
    }
  }

  lemma BestSwaps<T(!new)>(le: (T, T) -> bool, a: seq<T>, b: seq<T>, k: nat)
    requires TotalOrder(le)
    ensures Best(le, a + b, k) == Best(le, b + a, k)
  {
    assert multiset(a + b) == multiset(b + a);
    SortOfPermutation(le, a + b, b + a);
  }

  /** What being the best k means: sorted, k of them if there are k, and everything left out comes no earlier. */
  lemma BestIsBest<T(!new)>(le: (T, T) -> bool, s: seq<T>, k: nat)
    requires TotalPreorder(le)
    ensures SortedBy(le, Best(le, s, k))
    ensures |Best(le, s, k)| == if |s| < k then |s| else k
    ensures forall x :: x in Best(le, s, k) ==> x in s
    ensures forall x, y :: x in s && x !in Best(le, s, k) && y in Best(le, s, k) ==> le(y, x)
  {
    SortSorted(le, s);
    SortKeeps(le, s);
    var sorted := Sort(le, s);
    forall x, y | x in s && x !in Best(le, s, k) && y in Best(le, s, k)
      ensures le(y, x)
    {
      assert x in sorted;
      var i :| 0 <= i < |sorted| && sorted[i] == x;
      var j :| 0 <= j < |Best(le, s, k)| && Best(le, s, k)[j] == y;
      assert i >= k || |sorted| <= k;
    }
  }
}
