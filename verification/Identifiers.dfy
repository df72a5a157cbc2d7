/** What the hashed identifiers stand for: as long as the hash does not collide on them, exactly their fields. */
module Identifiers {
  import opened Basics
  import opened Text
  import Requests = AccessRequests
  import Grants = AccessGrants
  import Proposals
  import LaneSeeds

  /** Their first sixteen hexadecimal digits tell these two texts apart. */
  ghost predicate ToldApart(sha256: Sha256, x: string, y: string) {
    sha256(x).Short() == sha256(y).Short() ==> x == y
  }

  lemma TwoLines(a: string, b: string)
    ensures JoinLines([a, b]) == a + "\n" + b
  {
    assert [a, b][1..] == [b];
  }

  lemma ThreeLines(a: string, b: string, c: string)
    ensures JoinLines([a, b, c]) == a + "\n" + (b + "\n" + c)
  {
    TwoLines(b, c);
    assert [a, b, c][1..] == [b, c];
  }

  lemma FiveLines(a: string, b: string, c: string, d: string, e: string)
    ensures JoinLines([a, b, c, d, e]) == a + "\n" + (b + "\n" + (c + "\n" + (d + "\n" + e)))
  {
    ThreeLines(c, d, e);
    assert [a, b, c, d, e][1..] == [b, c, d, e] && [b, c, d, e][1..] == [c, d, e];
  }

  lemma SamePrefix(prefix: string, x: string, y: string)
    ensures prefix + x == prefix + y <==> x == y
  {
    assert (prefix + x)[|prefix|..] == x && (prefix + y)[|prefix|..] == y;
  }

  /** Two requests share a key exactly when one requester asks for one target. */
  lemma KeysTellApart(sha256: Sha256, a: string, x: Requests.Target, b: string, y: Requests.Target)
    requires '\n' !in a && '\n' !in b
    requires var p, q := JoinLines([a, x.Kind(), x.capabilityId]), JoinLines([b, y.Kind(), y.capabilityId]);
             sha256(p).hex == sha256(q).hex ==> p == q
    ensures Requests.RequestKey(sha256, a, x) == Requests.RequestKey(sha256, b, y) <==> a == b && x == y
  {
    ThreeLines(a, x.Kind(), x.capabilityId);
    ThreeLines(b, y.Kind(), y.capabilityId);
    if Requests.RequestKey(sha256, a, x) == Requests.RequestKey(sha256, b, y) {
      SplitsOnce(a, x.Kind() + "\n" + x.capabilityId, b, y.Kind() + "\n" + y.capabilityId);
      SplitsOnce(x.Kind(), x.capabilityId, y.Kind(), y.capabilityId);
    }
  }

  /** Two request ids are the same exactly when key and snapshot are. */
  lemma RequestIdsTellApart(sha256: Sha256, key: string, snapshot: string, key': string, snapshot': string)
    requires '\n' !in key && '\n' !in key'
    requires ToldApart(sha256, key + "\n" + snapshot, key' + "\n" + snapshot')
    ensures Requests.RequestId(sha256, key, snapshot) == Requests.RequestId(sha256, key', snapshot')
       <==> key == key' && snapshot == snapshot'
  {
    TwoLines(key, snapshot);
    TwoLines(key', snapshot');
    SamePrefix("ar_", sha256(key + "\n" + snapshot).Short(), sha256(key' + "\n" + snapshot').Short());
    if key + "\n" + snapshot == key' + "\n" + snapshot' {
      SplitsOnce(key, snapshot, key', snapshot');
    }
  }

  /** Two grant ids are the same exactly when request and snapshot are. */
  lemma GrantIdsTellApart(sha256: Sha256, p: Requests.Request, q: Requests.Request)
    requires '\n' !in p.id && '\n' !in q.id
    requires ToldApart(sha256, p.id + "\n" + ("read" + "\n" + p.snapshot),
                       q.id + "\n" + ("read" + "\n" + q.snapshot))
    ensures Grants.GrantId(sha256, p) == Grants.GrantId(sha256, q) <==> p.id == q.id && p.snapshot == q.snapshot
  {
    var read := "read";
    ThreeLines(p.id, read, p.snapshot);
    ThreeLines(q.id, read, q.snapshot);
    var x, y := p.id + "\n" + (read + "\n" + p.snapshot), q.id + "\n" + (read + "\n" + q.snapshot);
    SamePrefix("ag_", sha256(x).Short(), sha256(y).Short());
    if x == y {
      SplitsOnce(p.id, read + "\n" + p.snapshot, q.id, read + "\n" + q.snapshot);
      SamePrefix(read + "\n", p.snapshot, q.snapshot);
    }
  }

  /** What a proposal id is hashed from; a goal may run over several lines. */
  function ProposalText(d: Proposals.Draft, ordinal: string): string {
    d.proposer + "\n" + (d.capability + "\n" + (d.title + "\n" + (d.goal + "\n" + ordinal)))
  }

  /** Two proposal ids are the same exactly when proposer, capability, title, goal and ordinal are. */
  lemma ProposalIdsTellApart(sha256: Sha256, c: Proposals.Draft, m: nat, d: Proposals.Draft, n: nat)
    requires '\n' !in c.proposer && '\n' !in c.capability && '\n' !in c.title
    requires '\n' !in d.proposer && '\n' !in d.capability && '\n' !in d.title
    requires ToldApart(sha256, ProposalText(c, Decimal(m)), ProposalText(d, Decimal(n)))
    ensures Proposals.ProposalId(sha256, c, Decimal(m)) == Proposals.ProposalId(sha256, d, Decimal(n))
       <==> && c.proposer == d.proposer && c.capability == d.capability && c.title == d.title && c.goal == d.goal
            && m == n
  {
    var x, y := ProposalText(c, Decimal(m)), ProposalText(d, Decimal(n));
    FiveLines(c.proposer, c.capability, c.title, c.goal, Decimal(m));
    FiveLines(d.proposer, d.capability, d.title, d.goal, Decimal(n));
    SamePrefix("wp_", sha256(x).Short(), sha256(y).Short());
    if x == y {
      TextsTellApart(c, m, d, n);
    }
  }

  lemma TextsTellApart(c: Proposals.Draft, m: nat, d: Proposals.Draft, n: nat)
    requires '\n' !in c.proposer && '\n' !in c.capability && '\n' !in c.title
    requires '\n' !in d.proposer && '\n' !in d.capability && '\n' !in d.title
    requires ProposalText(c, Decimal(m)) == ProposalText(d, Decimal(n))
    ensures c.proposer == d.proposer && c.capability == d.capability && c.title == d.title && c.goal == d.goal
    ensures m == n
  {
    var a, b := c.goal + "\n" + Decimal(m), d.goal + "\n" + Decimal(n);
    SplitsOnce(c.proposer, c.capability + "\n" + (c.title + "\n" + a), d.proposer,
               d.capability + "\n" + (d.title + "\n" + b));
    SplitsOnce(c.capability, c.title + "\n" + a, d.capability, d.title + "\n" + b);
    SplitsOnce(c.title, a, d.title, b);
    NoNewlineInDigits(m, 1);
    NoNewlineInDigits(n, 1);
    SplitsLast(c.goal, Decimal(m), d.goal, Decimal(n));
    DecimalTells(m, n);
  }

  lemma {:induction false} NoNewlineInDigits(n: nat, width: nat)
    ensures '\n' !in Digits(n, width)
    decreases n, width
  {
    if width > 1 || n >= 10 {
      NoNewlineInDigits(n / 10, if width <= 1 then 1 else width - 1);
    }
  }

  /** Two box ids are the same exactly when person, capability and snapshot are. */
  lemma BoxIdsTellApart(sha256: Sha256, p: string, c: string, s: string, p': string, c': string, s': string)
    requires '\n' !in p && '\n' !in p' && '\n' !in c && '\n' !in c'
    requires ToldApart(sha256, p + "\n" + (c + "\n" + s), p' + "\n" + (c' + "\n" + s'))
    ensures LaneSeeds.BoxId(sha256, p, c, s) == LaneSeeds.BoxId(sha256, p', c', s')
       <==> p == p' && c == c' && s == s'
  {
    BoxLines(p, c, s);
    BoxLines(p', c', s');
    if LaneSeeds.BoxId(sha256, p, c, s) == LaneSeeds.BoxId(sha256, p', c', s') {
      SplitsOnce(p, c + "\n" + s, p', c' + "\n" + s');
      SplitsOnce(c, s, c', s');
    }
  }

  lemma BoxLines(p: string, c: string, s: string)
    ensures LaneSeeds.BoxText(p, c, s) == p + "\n" + (c + "\n" + s)
  {
  }
}
