/** The proposal ledger told by what was asked of it: each proposal by its draft, its decision and its one effect. */
module ProposalHistory {
  import opened Basics
  import opened HashChain
  import opened ProposalRuns
  import P = Proposals

  /** The store after the first `n` operations of a run. */
  function After(h: Codec, clocked: bool, ops: seq<Op>, n: nat): Sys
    requires n <= |ops|
  {
    Run(h, Start(h, clocked), ops[..n])
  }

  function Held(h: Codec, clocked: bool, ops: seq<Op>, n: nat): map<string, P.Proposal>
    requires n <= |ops|
  {
    After(h, clocked, ops, n).memory.proposals
  }

  /** Operation `m` drafts proposal `id`, and the id is unused. */
  ghost predicate Drafts(h: Codec, clocked: bool, ops: seq<Op>, m: nat, id: string)
    requires m < |ops|
  {
    Attempt(ops[m]).Create? && Attempt(ops[m]).id == id && id !in Held(h, clocked, ops, m)
  }

  /** Operation `d` decides it: an approval or a denial while it is pending under its own snapshot. */
  ghost predicate Decides(h: Codec, clocked: bool, ops: seq<Op>, d: nat, id: string)
    requires d < |ops|
  {
    var a, held := Attempt(ops[d]), Held(h, clocked, ops, d);
    && a.Decide? && a.proposalId == id && (a.status == P.Approved || a.status == P.Denied)
    && id in held && held[id].status == P.Pending && held[id].draft.snapshot == a.current
  }

  /** Operation `k` makes it real: it is approved and was not materialized. */
  ghost predicate Makes(h: Codec, clocked: bool, ops: seq<Op>, k: nat, id: string)
    requires k < |ops|
  {
    var a, held := Attempt(ops[k]), Held(h, clocked, ops, k);
    a.Materialize? && a.proposalId == id && id in held && held[id].status == P.Approved && !held[id].materialized
  }

  /** What one operation makes of one proposal. */
  ghost predicate Moves(h: Codec, clocked: bool, ops: seq<Op>, m: nat, id: string)
    requires m < |ops|
  {
    var s, t, line := Held(h, clocked, ops, m), Held(h, clocked, ops, m + 1), |After(h, clocked, ops, m).rows|;
    if Drafts(h, clocked, ops, m, id) then
      id in t && t[id] == P.Proposal(id, Attempt(ops[m]).draft, P.Pending, line, None, None, false)
    else if Decides(h, clocked, ops, m, id) then
      id in t && t[id] == s[id].(status := Attempt(ops[m]).status, decidedOrdinal := Some(line),
                                 decidedBy := Some(Attempt(ops[m]).actor))
    else if Makes(h, clocked, ops, m, id) then
      id in t && t[id] == s[id].(materialized := true)
    else (id in s <==> id in t) && (id in s ==> t[id] == s[id])
  }

  lemma OneOperation(h: Codec, clocked: bool, ops: seq<Op>, m: nat)
    requires m < |ops|
    ensures var s, t := After(h, clocked, ops, m), After(h, clocked, ops, m + 1);
            && SameStore(t, Step(h, s, Attempt(ops[m])))
            && s.memory.next == |s.rows|
            && (Attempt(ops[m]).Reopen? ==> SameStore(t, s))
  {
    RunKeeps(h, clocked, ops[..m]);
    CrashIsAtomic(h, After(h, clocked, ops, m), ops[m]);
    assert ops[..m + 1][..m] == ops[..m];
  }

  lemma {:induction false} AttemptIsNoCrash(op: Op)
    ensures !Attempt(op).Crash?
  {
    if op.Crash? {
      AttemptIsNoCrash(op.interrupted);
    }
  }

  lemma StepMoves(h: Codec, clocked: bool, ops: seq<Op>, m: nat, id: string)
    requires m < |ops|
    ensures Moves(h, clocked, ops, m, id)
  {
    OneOperation(h, clocked, ops, m);
    AttemptIsNoCrash(ops[m]);
  }

  /** As far as the draft goes: a drafting brings it in, and nothing changes it. */
  lemma StepKeepsDraft(h: Codec, clocked: bool, ops: seq<Op>, m: nat, id: string)
    requires m < |ops|
    ensures var s, t := Held(h, clocked, ops, m), Held(h, clocked, ops, m + 1);
            && (id in t <==> id in s || Drafts(h, clocked, ops, m, id))
            && (id in s ==> SameDraft(t[id], s[id]))
            && (Drafts(h, clocked, ops, m, id) ==>
                  HoldsDraft(t[id], Attempt(ops[m]), |After(h, clocked, ops, m).rows|) && t[id].status == P.Pending
                  && !t[id].materialized)
  {
    StepMoves(h, clocked, ops, m, id);
  }

  predicate SameDraft(p: P.Proposal, q: P.Proposal) {
    p.id == q.id && p.draft == q.draft && p.createdOrdinal == q.createdOrdinal
  }

  predicate HoldsDraft(p: P.Proposal, a: Op, line: nat)
    requires a.Create?
  {
    p.id == a.id && p.draft == a.draft && p.createdOrdinal == line
  }

  /** As far as the decision goes: a decision sets it, and nothing else touches it. */
  lemma StepKeepsDecision(h: Codec, clocked: bool, ops: seq<Op>, m: nat, id: string)
    requires m < |ops| && id in Held(h, clocked, ops, m)
    ensures var s, t := Held(h, clocked, ops, m), Held(h, clocked, ops, m + 1);
            && id in t
            && if Decides(h, clocked, ops, m, id) then
                 DecidedBy(t[id], Attempt(ops[m]), |After(h, clocked, ops, m).rows|) && s[id].status == P.Pending
               else SameDecision(t[id], s[id])
  {
    StepMoves(h, clocked, ops, m, id);
  }

  predicate SameDecision(p: P.Proposal, q: P.Proposal) {
    p.status == q.status && p.decidedBy == q.decidedBy && p.decidedOrdinal == q.decidedOrdinal
  }

  /** A stored proposal is one that some operation drafted, with exactly that draft and line. */
  lemma {:induction false} ProposalsHoldTheirDrafts(h: Codec, clocked: bool, ops: seq<Op>, n: nat, id: string)
    requires n <= |ops|
    ensures id in Held(h, clocked, ops, n) <==> exists m :: 0 <= m < n && Drafts(h, clocked, ops, m, id)
    ensures forall m :: 0 <= m < n && Drafts(h, clocked, ops, m, id) ==>
              && id in Held(h, clocked, ops, n)
              && HoldsDraft(Held(h, clocked, ops, n)[id], Attempt(ops[m]), |After(h, clocked, ops, m).rows|)
  {
    if n > 0 {
      ProposalsHoldTheirDrafts(h, clocked, ops, n - 1, id);
      StepKeepsDraft(h, clocked, ops, n - 1, id);
    }
  }

  /** It is pending until an operation decides it. */
  lemma {:induction false} PendingUntilDecided(h: Codec, clocked: bool, ops: seq<Op>, n: nat, id: string)
    requires n <= |ops| && id in Held(h, clocked, ops, n)
    ensures Held(h, clocked, ops, n)[id].status == P.Pending
       <==> forall d :: 0 <= d < n ==> !Decides(h, clocked, ops, d, id)
  {
    if n > 0 {
      if id in Held(h, clocked, ops, n - 1) {
        PendingUntilDecided(h, clocked, ops, n - 1, id);
        StepKeepsDecision(h, clocked, ops, n - 1, id);
      } else {
        StepKeepsDraft(h, clocked, ops, n - 1, id);
        NothingBefore(h, clocked, ops, n - 1, id);
      }
    }
  }

  /** And from then on it carries that decision. */
  lemma {:induction false} CarriesItsDecision(h: Codec, clocked: bool, ops: seq<Op>, d: nat, n: nat, id: string)
    requires d < n <= |ops| && Decides(h, clocked, ops, d, id)
    ensures id in Held(h, clocked, ops, n)
    ensures DecidedBy(Held(h, clocked, ops, n)[id], Attempt(ops[d]), |After(h, clocked, ops, d).rows|)
  {
    if d < n - 1 {
      CarriesItsDecision(h, clocked, ops, d, n - 1, id);
    }
    StepKeepsDecision(h, clocked, ops, n - 1, id);
  }

  ghost predicate DecidedBy(p: P.Proposal, a: Op, line: nat)
    requires a.Decide?
  {
    && (a.status == P.Approved || a.status == P.Denied) && p.status == a.status
    && p.decidedBy == Some(a.actor) && p.decidedOrdinal == Some(line)
  }

  /** It is materialized exactly when an operation made it real. */
  lemma {:induction false} MaterializedByAnOperation(h: Codec, clocked: bool, ops: seq<Op>, n: nat, id: string)
    requires n <= |ops| && id in Held(h, clocked, ops, n)
    ensures Held(h, clocked, ops, n)[id].materialized <==> exists k :: 0 <= k < n && Makes(h, clocked, ops, k, id)
  {
    if n > 0 {
      StepMoves(h, clocked, ops, n - 1, id);
      if id in Held(h, clocked, ops, n - 1) {
        MaterializedByAnOperation(h, clocked, ops, n - 1, id);
      } else {
        NothingBefore(h, clocked, ops, n - 1, id);
      }
    }
  }

  lemma NothingBefore(h: Codec, clocked: bool, ops: seq<Op>, n: nat, id: string)
    requires n < |ops| && id !in Held(h, clocked, ops, n)
    ensures forall d :: 0 <= d <= n ==> !Decides(h, clocked, ops, d, id) && !Makes(h, clocked, ops, d, id)
  {
    forall d | 0 <= d <= n
      ensures id !in Held(h, clocked, ops, d)
    {
      ProposalsHoldTheirDrafts(h, clocked, ops, d, id);
      ProposalsHoldTheirDrafts(h, clocked, ops, n, id);
    }
  }

  /** Approving and then materializing a drafted proposal makes it real, once: the whole life, from the operations. */
  lemma RealExactlyWhenApprovedAndMade(h: Codec, clocked: bool, ops: seq<Op>, n: nat, id: string)
    requires n <= |ops|
    ensures id in Held(h, clocked, ops, n) && Held(h, clocked, ops, n)[id].materialized
       <==> exists k :: 0 <= k < n && Makes(h, clocked, ops, k, id)
    ensures forall k, l | 0 <= k < n && 0 <= l < n ::
              Makes(h, clocked, ops, k, id) && Makes(h, clocked, ops, l, id) ==> k == l
  {
    if id in Held(h, clocked, ops, n) {
      MaterializedByAnOperation(h, clocked, ops, n, id);
    } else if n < |ops| {
      NothingBefore(h, clocked, ops, n, id);
    } else if n > 0 {
      StepMoves(h, clocked, ops, n - 1, id);
      NothingBefore(h, clocked, ops, n - 1, id);
    }
    forall k, l | 0 <= k < l < n && Makes(h, clocked, ops, k, id)
      ensures !Makes(h, clocked, ops, l, id)
    {
      if id in Held(h, clocked, ops, l) {
        MaterializedByAnOperation(h, clocked, ops, l, id);
      }
    }
  }
}
