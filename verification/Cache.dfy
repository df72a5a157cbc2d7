/** The answer cache: a map, an order of use with the least recently used first, and eviction from the front. */
module Cache {
  import opened Basics

  const CACHE_CAPACITY := 256

  datatype Key = Key(queryHash: string, hybrid: bool, judge: bool)

  type Bytes = seq<nat>

  function Not(k: Key): Key -> bool {
    (x: Key) => x != k
  }

  /** The distinct keys of a sequence of touches, ordered by last touch. */
  function Recency(touched: seq<Key>): seq<Key> {
    if touched == [] then []
    else
      var k := touched[|touched| - 1];
      Filter(Not(k), Recency(touched[..|touched| - 1])) + [k]
  }

  function LastN<T>(s: seq<T>, n: nat): seq<T> {
    if |s| <= n then s else s[|s| - n..]
  }

  /** What the cache is for: the most recently touched keys. */
  function Recent(touched: seq<Key>): seq<Key> {
    LastN(Recency(touched), CACHE_CAPACITY)
  }

  // -------------------------------------------------------------------------
  // Recency, declaratively
  // -------------------------------------------------------------------------

  lemma {:induction false} RecencyIsDistinct(touched: seq<Key>)
    ensures Distinct(Recency(touched))
    ensures forall k :: k in Recency(touched) <==> k in touched
  {
    if touched != [] {
      var before, k := touched[..|touched| - 1], touched[|touched| - 1];
      RecencyIsDistinct(before);
      FilterDistinct(Not(k), Recency(before));
      assert touched == before + [k];
      assert !Not(k)(k);
    }
  }

  /** `k` was touched at `i` and not since. */
  ghost predicate LastTouched(touched: seq<Key>, k: Key, i: nat) {
    i < |touched| && touched[i] == k && k !in touched[i + 1..]
  }

  lemma FilterOneOf(a: seq<Key>, k: Key, b: seq<Key>, last: Key)
    requires k != last
    ensures Filter(Not(last), a + [k] + b) == Filter(Not(last), a) + [k] + Filter(Not(last), b)
    ensures Elements(Filter(Not(last), b) + [last]) == Elements(b) + {last}
  {
    FilterConcat(Not(last), a + [k], b);
    FilterSnoc(Not(last), a, k);
  }

  /** Where a key stands in the recency list: before exactly the keys touched after it. */
  lemma {:induction false} RecencySplits(touched: seq<Key>, k: Key, i: nat) returns (a: seq<Key>, b: seq<Key>)
    requires LastTouched(touched, k, i)
    ensures Recency(touched) == a + [k] + b && Elements(b) == Elements(touched[i + 1..])
  {
    var n := |touched| - 1;
    var before, last := touched[..n], touched[n];
    if i == n {
      a, b := Filter(Not(last), Recency(before)), [];
      assert a + [k] + b == a + [k];
    } else {
      assert touched[i + 1..] == before[i + 1..] + [last];
      var c, d := RecencySplits(before, k, i);
      FilterOneOf(c, k, d, last);
      a, b := Filter(Not(last), c), Filter(Not(last), d) + [last];
      assert a + [k] + Filter(Not(last), d) + [last] == a + [k] + b;
      ElementsSnoc(before[i + 1..], last);
    }
  }

  lemma {:induction false} DistinctSize<T>(s: seq<T>)
    requires Distinct(s)
    ensures |Elements(s)| == |s|
  {
    if s != [] {
      DistinctSize(s[1..]);
      assert Elements(s) == {s[0]} + Elements(s[1..]);
    }
  }

  /** A touched key is among the recent ones exactly when fewer than 256 other keys were touched after it. */
  lemma RecentMeansFewSince(touched: seq<Key>, k: Key, i: nat)
    requires LastTouched(touched, k, i)
    ensures k in Recent(touched) <==> |Elements(touched[i + 1..])| < 256
  {
    var a, b := RecencySplits(touched, k, i);
    RecencyIsDistinct(touched);
    SuffixHas(a, k, b, CACHE_CAPACITY);
  }

  lemma SuffixHas(a: seq<Key>, k: Key, b: seq<Key>, n: nat)
    requires Distinct(a + [k] + b)
    ensures k in LastN(a + [k] + b, n) <==> |Elements(b)| < n
  {
    var all := a + [k] + b;
    forall i, j | 0 <= i < j < |b|
      ensures b[i] != b[j]
    {
      assert all[|a| + 1 + i] == b[i] && all[|a| + 1 + j] == b[j];
    }
    DistinctSize(b);
    var from := if |all| <= n then 0 else |all| - n;
    assert LastN(all, n) == all[from..];
    assert all[|a|] == k;
    if |a| >= from {
      assert all[from..][|a| - from] == k;
    }
  }

  // -------------------------------------------------------------------------
  // One touch
  // -------------------------------------------------------------------------

  lemma {:induction false} FilterAbsent(k: Key, s: seq<Key>)
    requires k !in s
    ensures Filter(Not(k), s) == s
  {
    if s != [] {
      FilterAbsent(k, s[1..]);
    }
  }

  /** Removing a key at its only position. */
  lemma FilterAt(k: Key, s: seq<Key>, p: nat)
    requires Distinct(s) && p < |s| && s[p] == k
    ensures Filter(Not(k), s) == s[..p] + s[p + 1..]
  {
    assert s == s[..p] + [k] + s[p + 1..];
    FilterConcat(Not(k), s[..p] + [k], s[p + 1..]);
    FilterSnoc(Not(k), s[..p], k);
    FilterAbsent(k, s[..p]);
    FilterAbsent(k, s[p + 1..]);
  }

  lemma RecencySnoc(touched: seq<Key>, k: Key)
    ensures Recency(touched + [k]) == Filter(Not(k), Recency(touched)) + [k]
  {
    assert (touched + [k])[..|touched|] == touched;
  }

  lemma LastNOfLonger<T>(a: seq<T>, b: seq<T>, n: nat)
    requires |b| >= n
    ensures LastN(a + b, n) == LastN(b, n)
  {
  }

  lemma CutOut(all: seq<Key>, from: nat, p: nat)
    requires from + p < |all|
    ensures all[..from + p] + all[from + p + 1..] == all[..from] + (all[from..][..p] + all[from..][p + 1..])
  {
  }

  /** Touching a recent key moves it to the back. */
  lemma TouchRecent(touched: seq<Key>, k: Key, p: nat)
    requires p < |Recent(touched)| && Recent(touched)[p] == k
    ensures Recent(touched + [k]) == Recent(touched)[..p] + Recent(touched)[p + 1..] + [k]
  {
    RecencyIsDistinct(touched);
    RecencySnoc(touched, k);
    var all, recent := Recency(touched), Recent(touched);
    var from := |all| - |recent|;
    assert recent == all[from..];
    FilterAt(k, all, from + p);
    CutOut(all, from, p);
    var moved := recent[..p] + recent[p + 1..] + [k];
    assert all[..from] + (recent[..p] + recent[p + 1..]) + [k] == all[..from] + moved;
    if from > 0 {
      LastNOfLonger(all[..from], moved, CACHE_CAPACITY);
    } else {
      assert all[..from] + moved == moved;
    }
  }

  /** What forgetting an old key and appending it leaves at the end. */
  lemma AppendedTail(all: seq<Key>, recent: seq<Key>, k: Key, rest: seq<Key>)
    requires recent == LastN(all, CACHE_CAPACITY)
    requires rest == all
             || (|all| > CACHE_CAPACITY && |rest| >= CACHE_CAPACITY && rest[|rest| - CACHE_CAPACITY..] == recent)
    ensures LastN(rest + [k], CACHE_CAPACITY) == LastN(recent + [k], CACHE_CAPACITY)
  {
    if rest != recent {
      var before := rest[..|rest| - |recent|];
      assert rest == before + recent;
      assert before + recent + [k] == before + (recent + [k]);
      LastNOfLonger(before, recent + [k], CACHE_CAPACITY);
    }
  }

  /** Touching any other key appends it, and drops the oldest if that makes one too many. */
  lemma TouchOther(touched: seq<Key>, k: Key)
    requires k !in Recent(touched)
    ensures Recent(touched + [k]) == LastN(Recent(touched) + [k], CACHE_CAPACITY)
  {
    RecencyIsDistinct(touched);
    RecencySnoc(touched, k);
    var all, recent := Recency(touched), Recent(touched);
    if k in all {
      var p :| 0 <= p < |all| && all[p] == k;
      FilterAt(k, all, p);
      OldKeyIsBefore(all, recent, k, p);
      AppendedTail(all, recent, k, all[..p] + all[p + 1..]);
    } else {
      FilterAbsent(k, all);
      AppendedTail(all, recent, k, all);
    }
  }

  lemma OldKeyIsBefore(all: seq<Key>, recent: seq<Key>, k: Key, p: nat)
    requires recent == LastN(all, CACHE_CAPACITY) && p < |all| && all[p] == k && k !in recent
    ensures |all| > CACHE_CAPACITY
    ensures var rest := all[..p] + all[p + 1..];
            |rest| >= CACHE_CAPACITY && rest[|rest| - CACHE_CAPACITY..] == recent
  {
    var from := |all| - |recent|;
    assert recent == all[from..];
    forall q | from <= q < |all|
      ensures all[q] in recent
    {
      assert recent[q - from] == all[q];
    }
  }

  // -------------------------------------------------------------------------
  // The cache
  // -------------------------------------------------------------------------

  method Position(order: seq<Key>, key: Key) returns (p: nat)
    requires key in order
    ensures p < |order| && order[p] == key
  {
    p := 0;
    while order[p] != key
      invariant p < |order| && key in order[p..]
      decreases |order| - p
    {
      assert order[p..] == [order[p]] + order[p + 1..];
      p := p + 1;
    }
  }

  lemma SameAfterMove(order: seq<Key>, p: nat)
    requires p < |order|
    ensures Elements(order[..p] + order[p + 1..] + [order[p]]) == Elements(order)
  {
    assert order == order[..p] + [order[p]] + order[p + 1..];
  }

  class AnswerCache {
    var entries: map<Key, Bytes>
    var order: seq<Key>
    /** Every put and every hit, in order, and the bytes last put under each key. */
    ghost var touched: seq<Key>
    ghost var lastPut: map<Key, Bytes>

    /** Map and order agree, and hold exactly the most recently touched keys with their last-put bytes. */
    ghost predicate Valid()
      reads this
    {
      && order == Recent(touched)
      && entries.Keys == Elements(order)
      && LastPuts(entries, lastPut)
    }

    constructor ()
      ensures Valid() && entries == map[] && touched == [] && lastPut == map[]
    {
      entries, order := map[], [];
      touched, lastPut := [], map[];
    }

    method MoveToBack(key: Key)
      requires order == Recent(touched) && key in order
      modifies `order, `touched
      ensures touched == old(touched) + [key] && order == Recent(touched)
      ensures Elements(order) == old(Elements(order))
    {
      var p := Position(order, key);
      TouchRecent(touched, key, p);
      SameAfterMove(order, p);
      order := order[..p] + order[p + 1..] + [key];
      touched := touched + [key];
    }

    method Get(key: Key) returns (r: Option<Bytes>)
      requires Valid()
      modifies `order, `touched
      ensures Valid()
      ensures r == if key in old(Recent(touched)) then Some(lastPut[key]) else None
      ensures touched == if r.Some? then old(touched) + [key] else old(touched)
    {
      if key !in entries {
        return None;
      }
      MoveToBack(key);
      return Some(entries[key]);
    }

    method Append(key: Key, bytes: Bytes)
      requires order == Recent(touched) && entries.Keys == Elements(order) && key !in entries
      requires LastPuts(entries, lastPut) && key in lastPut && lastPut[key] == bytes
      modifies `entries, `order, `touched
      ensures touched == old(touched) + [key] && Fits(entries, order, Recent(touched)) && LastPuts(entries, lastPut)
    {
      RecentIsDistinct(touched);
      TouchOther(touched, key);
      entries := entries[key := bytes];
      order := order + [key];
      touched := touched + [key];
      ElementsSnoc(old(order), key);
    }

    method Refresh(key: Key, bytes: Bytes)
      requires order == Recent(touched) && entries.Keys == Elements(order) && key in entries
      requires LastPuts(entries[key := bytes], lastPut)
      modifies `entries, `order, `touched
      ensures touched == old(touched) + [key] && Fits(entries, order, Recent(touched)) && LastPuts(entries, lastPut)
    {
      entries := entries[key := bytes];
      MoveToBack(key);
      RecentFits(entries, order, touched);
    }

    method Put(key: Key, bytes: Bytes)
      requires Valid()
      modifies this
      ensures Valid()
      ensures touched == old(touched) + [key] && lastPut == old(lastPut)[key := bytes]
    {
      lastPut := lastPut[key := bytes];
      if key in entries {
        Refresh(key, bytes);
      } else {
        Append(key, bytes);
      }
      entries, order := Evict(entries, order, Recent(touched), lastPut);
    }
  }

  /** Drops keys from the front until the map fits. */
  method Evict(before: map<Key, Bytes>, oldest: seq<Key>, ghost recent: seq<Key>, ghost lastPut: map<Key, Bytes>)
    returns (entries: map<Key, Bytes>, order: seq<Key>)
    requires Fits(before, oldest, recent) && LastPuts(before, lastPut)
    ensures order == recent && entries.Keys == Elements(order) && LastPuts(entries, lastPut)
  {
    entries, order := before, oldest;
    FitsSizes(entries, order, recent);
    while |entries| > CACHE_CAPACITY
      invariant Fits(entries, order, recent) && LastPuts(entries, lastPut) && |entries| == |order|
      decreases |order|
    {
      if order == [] {
        break;
      }
      DropOldest(entries, order, recent);
      var evicted := order[0];
      order := order[1..];
      entries := entries - {evicted};
    }
  }

  ghost predicate LastPuts(entries: map<Key, Bytes>, lastPut: map<Key, Bytes>) {
    forall k :: k in entries ==> k in lastPut && entries[k] == lastPut[k]
  }

  /** The state between an insertion and its eviction: right, but for one key too many perhaps. */
  ghost predicate Fits(entries: map<Key, Bytes>, order: seq<Key>, recent: seq<Key>) {
    && entries.Keys == Elements(order) && Distinct(order) && |order| <= CACHE_CAPACITY + 1
    && recent == LastN(order, CACHE_CAPACITY)
  }

  lemma FitsSizes(entries: map<Key, Bytes>, order: seq<Key>, recent: seq<Key>)
    requires Fits(entries, order, recent)
    ensures |entries| == |order|
  {
    DistinctSize(order);
    assert |entries| == |entries.Keys|;
  }

  lemma RecentFits(entries: map<Key, Bytes>, order: seq<Key>, touched: seq<Key>)
    requires order == Recent(touched) && entries.Keys == Elements(order)
    ensures Fits(entries, order, Recent(touched))
  {
    RecentIsDistinct(touched);
  }

  lemma RecentIsDistinct(touched: seq<Key>)
    ensures Distinct(Recent(touched)) && |Recent(touched)| <= CACHE_CAPACITY
  {
    RecencyIsDistinct(touched);
  }

  lemma DropOldest(entries: map<Key, Bytes>, order: seq<Key>, recent: seq<Key>)
    requires Fits(entries, order, recent) && |order| > CACHE_CAPACITY
    ensures Fits(entries - {order[0]}, order[1..], recent)
    ensures |entries - {order[0]}| == |order| - 1
  {
    assert order == [order[0]] + order[1..];
    LastNOfLonger([order[0]], order[1..], CACHE_CAPACITY);
    assert Elements(order) == {order[0]} + Elements(order[1..]);
    assert order[0] !in order[1..];
    FitsSizes(entries - {order[0]}, order[1..], recent);
  }
}
