/**
 * The access ledgers told by what was asked of them: each request by the creation that asked for it, each decision,
 * grant and revocation by the step that made it, and the read gate by the four of them together.
 */
module AccessHistory {
  import opened Basics
  import opened Text
  import opened AccessRuns
  import R = AccessRequests
  import G = AccessGrants

  // -------------------------------------------------------------------------
  // Requests
  // -------------------------------------------------------------------------

  /** Nobody has asked under this key for this snapshot, and the id is unused. */
  ghost predicate Free(s: Sys, key: string, snapshot: string, id: string) {
    && id !in s.requests.requests
    && forall r :: r in s.requests.requests ==>
         !(s.requests.requests[r].key == key && s.requests.requests[r].snapshot == snapshot)
  }

  /** Step `m` asks for request `id`, and the store takes it. */
  ghost predicate Asks(states: seq<Sys>, ops: seq<Op>, m: nat, id: string)
    requires |states| == |ops| + 1 && m < |ops|
  {
    var a := Attempt(ops[m]);
    a.Create? && a.id == id && Free(states[m], a.key, a.snapshot, id)
  }

  /** The request is the one this creation asked for, first written on this line. */
  ghost predicate Fits(q: R.Request, a: Op, line: nat)
    requires a.Create?
  {
    && q.requester == a.requester && q.approver == a.approver && q.target == a.target
    && q.justification == a.justification && q.snapshot == a.snapshot && q.key == a.key && q.id == a.id
    && q.createdOrdinal == line
  }

  lemma FreeIsUnindexed(s: Sys, key: string, snapshot: string, id: string)
    requires Inv(s)
    ensures Free(s, key, snapshot, id) <==> (key, snapshot) !in s.requests.byKey && id !in s.requests.requests
  {
    if (key, snapshot) in s.requests.byKey {
      var r := s.requests.byKey[(key, snapshot)];
      assert r in s.requests.requests;
    }
  }

  /** A creation stores what it was asked, pending, when key and id are free; otherwise it changes nothing. */
  lemma CreateStep(states: seq<Sys>, ops: seq<Op>, m: nat)
    requires Run(states, ops) && m < |ops| && Attempt(ops[m]).Create?
    ensures var a, s, t := Attempt(ops[m]), states[m], states[m + 1];
            if Asks(states, ops, m, a.id) then
              && a.id in t.requests.requests
              && var q := t.requests.requests[a.id];
              && Fits(q, a, |s.requestFile|) && q.status == R.Pending && q.decision.None?
              && t.requests.requests == s.requests.requests[a.id := q] && t.grants == s.grants
            else t == s
  {
    var a := Attempt(ops[m]);
    RunIsSound(states, ops, m);
    CrashesLeaveBeforeOrAfter(states, ops, m);
    FreeIsUnindexed(states[m], a.key, a.snapshot, a.id);
  }

  /** Step `d` decides request `id`: an approval or a denial of a pending request under its own snapshot. */
  ghost predicate Decides(states: seq<Sys>, ops: seq<Op>, d: nat, id: string)
    requires |states| == |ops| + 1 && d < |ops|
  {
    var a := Attempt(ops[d]);
    && a.Decide? && a.requestId == id && (a.status == R.Approved || a.status == R.Denied)
    && id in states[d].requests.requests
    && states[d].requests.requests[id].status == R.Pending && states[d].requests.requests[id].snapshot == a.current
  }

  /** The request carries the decision of this step. */
  ghost predicate DecidedBy(q: R.Request, a: Op, line: nat)
    requires a.Decide?
  {
    && q.status == a.status && q.decision.Some? && q.decision.value.actor == a.actor
    && q.decision.value.decidedOrdinal == line && q.decision.value.outcome == a.status
    && q.decision.value.reason == a.reason
  }

  /** A decision is recorded exactly when the request is pending under the snapshot named; otherwise nothing changes. */
  lemma DecideStep(states: seq<Sys>, ops: seq<Op>, d: nat)
    requires Run(states, ops) && d < |ops| && Attempt(ops[d]).Decide?
    ensures var a, s, t := Attempt(ops[d]), states[d], states[d + 1];
            if Decides(states, ops, d, a.requestId) then
              && a.requestId in t.requests.requests
              && var q, was := t.requests.requests[a.requestId], s.requests.requests[a.requestId];
              && DecidedBy(q, a, |s.requestFile|) && q == was.(status := q.status, decision := q.decision)
              && t.requests.requests == s.requests.requests[a.requestId := q] && t.grants == s.grants
            else t == s
  {
    RunIsSound(states, ops, d);
    CrashesLeaveBeforeOrAfter(states, ops, d);
  }

  /** What one step makes of one request. */
  ghost predicate RequestMoves(states: seq<Sys>, ops: seq<Op>, m: nat, id: string)
    requires |states| == |ops| + 1 && m < |ops|
  {
    var s, t := states[m].requests.requests, states[m + 1].requests.requests;
    if Asks(states, ops, m, id) then
      && id !in s && id in t && Fits(t[id], Attempt(ops[m]), |states[m].requestFile|)
      && t[id].status == R.Pending && t[id].decision.None?
    else if Decides(states, ops, m, id) then
      && id in s && id in t && t[id] == s[id].(status := t[id].status, decision := t[id].decision)
      && DecidedBy(t[id], Attempt(ops[m]), |states[m].requestFile|)
    else
      (id in s <==> id in t) && (id in s ==> t[id] == s[id])
  }

  lemma StepMovesRequest(states: seq<Sys>, ops: seq<Op>, m: nat, id: string)
    requires Run(states, ops) && m < |ops|
    ensures RequestMoves(states, ops, m, id)
  {
    var a := Attempt(ops[m]);
    if a.Create? {
      CreateStep(states, ops, m);
    } else if a.Decide? {
      DecideStep(states, ops, m);
    } else {
      CrashesLeaveBeforeOrAfter(states, ops, m);
      AttemptIsNoCrash(ops[m]);
    }
  }

  /** A stored request is one that some step asked for, and holds exactly what was asked. */
  lemma {:induction false} RequestsHoldWhatWasAsked(states: seq<Sys>, ops: seq<Op>, i: nat, id: string)
    requires Run(states, ops) && i <= |ops|
    ensures id in states[i].requests.requests <==> exists m :: 0 <= m < i && Asks(states, ops, m, id)
    ensures forall m :: 0 <= m < i && Asks(states, ops, m, id) ==>
              id in states[i].requests.requests
              && Fits(states[i].requests.requests[id], Attempt(ops[m]), |states[m].requestFile|)
  {
    if i > 0 {
      RequestsHoldWhatWasAsked(states, ops, i - 1, id);
      StepMovesRequest(states, ops, i - 1, id);
    }
  }

  /** And its status is pending until the one step that decides it, whose decision it then carries. */
  lemma {:induction false} RequestsCarryTheirDecision(states: seq<Sys>, ops: seq<Op>, i: nat, id: string)
    requires Run(states, ops) && i <= |ops| && id in states[i].requests.requests
    ensures states[i].requests.requests[id].status == R.Pending <==>
              forall d :: 0 <= d < i ==> !Decides(states, ops, d, id)
    ensures forall d :: 0 <= d < i && Decides(states, ops, d, id) ==>
              DecidedBy(states[i].requests.requests[id], Attempt(ops[d]), |states[d].requestFile|)
  {
    if i > 0 {
      StepMovesRequest(states, ops, i - 1, id);
      if id in states[i - 1].requests.requests {
        RequestsCarryTheirDecision(states, ops, i - 1, id);
      } else {
        NotDecidedBefore(states, ops, i - 1, id);
      }
    }
  }

  lemma NotDecidedBefore(states: seq<Sys>, ops: seq<Op>, i: nat, id: string)
    requires Run(states, ops) && i <= |ops| && id !in states[i].requests.requests
    ensures forall d :: 0 <= d <= i && d < |ops| ==> !Decides(states, ops, d, id)
  {
    forall d | 0 <= d <= i && d < |ops|
      ensures !Decides(states, ops, d, id)
    {
      RunKeeps(states, ops, d, i);
    }
  }

  // -------------------------------------------------------------------------
  // Grants
  // -------------------------------------------------------------------------

  /** The expiry, trimmed, is this snapshot. */
  predicate ExpiryFalls(expiresAt: Option<string>, snapshot: string) {
    expiresAt.Some? && snapshot != "" && Trim(expiresAt.value) == snapshot
  }

  /** Step `m` mints grant `id`: the request is approved, has no grant, and the id is unused. */
  ghost predicate Grants(states: seq<Sys>, ops: seq<Op>, m: nat, id: string)
    requires |states| == |ops| + 1 && m < |ops|
  {
    var a, grants := Attempt(ops[m]), states[m].grants.grants;
    && a.Mint? && a.grantId == id && a.request.status == R.Approved
    && id !in grants && forall g :: g in grants ==> grants[g].requestId != a.request.id
  }

  /** The grant is the one this minting made, on this line. */
  ghost predicate MintedFrom(g: G.Grant, a: Op, line: nat)
    requires a.Mint?
  {
    var q := a.request;
    && g.id == a.grantId && g.requestId == q.id && g.grantee == q.requester && g.approver == q.approver
    && g.target == q.target && g.snapshot == q.snapshot && g.expiresAt == a.expiresAt && g.createdOrdinal == line
    && g.permission == G.Read && g.status == G.Active
    && g.revokedBy.None? && g.revokedOrdinal.None? && g.revocationReason.None?
    && g.reason == match q.decision
                   case Some(decision) => decision.reason.GetOr("approved_access_request")
                   case None => "approved_access_request"
  }

  /** A minting makes its grant when it may, and otherwise changes nothing. */
  lemma MintStep(states: seq<Sys>, ops: seq<Op>, m: nat)
    requires Run(states, ops) && m < |ops| && Attempt(ops[m]).Mint?
    ensures var a, s, t := Attempt(ops[m]), states[m], states[m + 1];
            if Grants(states, ops, m, a.grantId) then
              && a.grantId in t.grants.grants
              && MintedFrom(t.grants.grants[a.grantId], a, |s.grantFile|)
              && t.grants.grants == s.grants.grants[a.grantId := t.grants.grants[a.grantId]]
              && t.requests == s.requests
            else t == s
  {
    CrashesLeaveBeforeOrAfter(states, ops, m);
    RunUngranted(states, ops, m, Attempt(ops[m]).request.id);
    MintMoves(states[m], Attempt(ops[m]));
  }

  lemma MintMoves(s: Sys, a: Op)
    requires a.Mint? && s.grants.next == |s.grantFile|
    ensures var t := Step(s, a);
            if a.request.status == R.Approved && a.request.id !in s.grants.byRequest && a.grantId !in s.grants.grants
            then
              && a.grantId in t.grants.grants
              && MintedFrom(t.grants.grants[a.grantId], a, |s.grantFile|)
              && t.grants.grants == s.grants.grants[a.grantId := t.grants.grants[a.grantId]]
              && t.requests == s.requests
            else t == s
  {
  }

  lemma RunUngranted(states: seq<Sys>, ops: seq<Op>, m: nat, requestId: string)
    requires Run(states, ops) && m <= |ops|
    ensures states[m].grants.next == |states[m].grantFile|
    ensures requestId !in states[m].grants.byRequest
       <==> forall g :: g in states[m].grants.grants ==> states[m].grants.grants[g].requestId != requestId
  {
    RunIsSound(states, ops, m);
    UngrantedIsUnindexed(states[m], requestId);
  }

  lemma UngrantedIsUnindexed(s: Sys, requestId: string)
    requires Inv(s)
    ensures requestId !in s.grants.byRequest
       <==> forall g :: g in s.grants.grants ==> s.grants.grants[g].requestId != requestId
  {
    if requestId in s.grants.byRequest {
      assert s.grants.byRequest[requestId] in s.grants.grants;
    }
  }

  /** Step `k` revokes grant `id`: it is active and does not expire on the snapshot named. */
  ghost predicate Withdraws(states: seq<Sys>, ops: seq<Op>, k: nat, id: string)
    requires |states| == |ops| + 1 && k < |ops|
  {
    var a, grants := Attempt(ops[k]), states[k].grants.grants;
    && a.Revoke? && a.grantId == id && id in grants && grants[id].status == G.Active
    && !ExpiryFalls(grants[id].expiresAt, a.current)
  }

  /** A revocation marks the grant with who, when and why when it may, and otherwise changes nothing. */
  lemma RevokeStep(states: seq<Sys>, ops: seq<Op>, k: nat)
    requires Run(states, ops) && k < |ops| && Attempt(ops[k]).Revoke?
    ensures var a, s, t := Attempt(ops[k]), states[k], states[k + 1];
            if Withdraws(states, ops, k, a.grantId) then
              && t.grants.grants == s.grants.grants[a.grantId := s.grants.grants[a.grantId].(
                   status := G.Revoked, revokedBy := Some(a.actor), revokedOrdinal := Some(|s.grantFile|),
                   revocationReason := a.reason)]
              && t.requests == s.requests
            else t == s
  {
    CrashesLeaveBeforeOrAfter(states, ops, k);
    if Attempt(ops[k]).grantId in states[k].grants.grants {
      RunGrantsCanBeRead(states, ops, k, Attempt(ops[k]).grantId);
    }
    RevokeMoves(states[k], Attempt(ops[k]));
  }

  lemma RevokeMoves(s: Sys, a: Op)
    requires a.Revoke? && (a.grantId in s.grants.grants ==>
                             s.grants.grants[a.grantId].permission == G.Read && s.grants.next == |s.grantFile|)
    ensures var t := Step(s, a);
            if a.grantId in s.grants.grants && s.grants.grants[a.grantId].status == G.Active
               && !ExpiryFalls(s.grants.grants[a.grantId].expiresAt, a.current) then
              && t.grants.grants == s.grants.grants[a.grantId := s.grants.grants[a.grantId].(
                   status := G.Revoked, revokedBy := Some(a.actor), revokedOrdinal := Some(|s.grantFile|),
                   revocationReason := a.reason)]
              && t.requests == s.requests
            else t == s
  {
  }

  lemma RunGrantsCanBeRead(states: seq<Sys>, ops: seq<Op>, k: nat, id: string)
    requires Run(states, ops) && k <= |ops| && id in states[k].grants.grants
    ensures states[k].grants.grants[id].permission == G.Read && states[k].grants.next == |states[k].grantFile|
  {
    RunIsSound(states, ops, k);
  }

  lemma GrantsIsMints(states: seq<Sys>, ops: seq<Op>, m: nat, id: string)
    requires Run(states, ops) && m < |ops|
    ensures Mints(states[m], ops[m], id) <==> Grants(states, ops, m, id)
  {
    if Attempt(ops[m]).Mint? {
      RunUngranted(states, ops, m, Attempt(ops[m]).request.id);
    }
  }

  lemma WithdrawsIsRevokes(states: seq<Sys>, ops: seq<Op>, k: nat, id: string)
    requires Run(states, ops) && k < |ops|
    ensures Revokes(states[k], ops[k], id) <==> Withdraws(states, ops, k, id)
  {
    if id in states[k].grants.grants {
      RunGrantsCanBeRead(states, ops, k, id);
    }
  }

  // -------------------------------------------------------------------------
  // The gate
  // -------------------------------------------------------------------------

  /**
   * Step `c` asked for a request, step `d` approved it, step `m` granted it, nothing revoked that grant before
   * state `i`, and it does not expire on the snapshot.
   */
  ghost predicate AskedApprovedGranted(states: seq<Sys>, ops: seq<Op>, c: nat, d: nat, m: nat, i: nat, grantee: string,
                                       capabilityId: string, snapshot: string)
    requires |states| == |ops| + 1 && i <= |ops|
  {
    && c < d < m < i
    && var asked, decided, minted := Attempt(ops[c]), Attempt(ops[d]), Attempt(ops[m]);
    && asked.Create? && Asks(states, ops, c, asked.id)
    && asked.requester == grantee && asked.target.capabilityId == capabilityId && asked.snapshot == snapshot
    && decided.Decide? && Decides(states, ops, d, asked.id) && decided.status == R.Approved
    && minted.Mint? && minted.request.id == asked.id && Grants(states, ops, m, minted.grantId)
    && (forall k :: m < k < i ==> !Withdraws(states, ops, k, minted.grantId))
    && !ExpiryFalls(minted.expiresAt, snapshot)
  }

  lemma StandingByHistory(states: seq<Sys>, ops: seq<Op>, m: nat, i: nat, id: string)
    requires Run(states, ops) && m < i <= |ops|
    ensures Standing(states, ops, m, i, id) <==>
              Grants(states, ops, m, id) && forall k :: m < k < i ==> !Withdraws(states, ops, k, id)
  {
    GrantsIsMints(states, ops, m, id);
    forall k | m < k < i
      ensures Revokes(states[k], ops[k], id) <==> Withdraws(states, ops, k, id)
    {
      WithdrawsIsRevokes(states, ops, k, id);
    }
  }

  /** An approved request in the store was asked for and approved by earlier steps. */
  lemma ApprovalHasAHistory(states: seq<Sys>, ops: seq<Op>, m: nat, q: R.Request) returns (c: nat, d: nat)
    requires Run(states, ops) && m <= |ops| && HandedOut(states[m], q) && q.status == R.Approved
    ensures c < d < m && Asks(states, ops, c, q.id) && Fits(q, Attempt(ops[c]), |states[c].requestFile|)
    ensures Decides(states, ops, d, q.id) && Attempt(ops[d]).status == R.Approved
  {
    RequestsHoldWhatWasAsked(states, ops, m, q.id);
    RequestsCarryTheirDecision(states, ops, m, q.id);
    c :| 0 <= c < m && Asks(states, ops, c, q.id);
    d :| 0 <= d < m && Decides(states, ops, d, q.id);
    AskedBeforeDecided(states, ops, c, d, q.id);
  }

  lemma AskedBeforeDecided(states: seq<Sys>, ops: seq<Op>, c: nat, d: nat, id: string)
    requires Run(states, ops) && c < |ops| && d < |ops| && Asks(states, ops, c, id) && Decides(states, ops, d, id)
    ensures c < d
  {
    if d <= c {
      RunKeeps(states, ops, d, c);
    }
  }

  lemma OpenedHasAHistory(states: seq<Sys>, ops: seq<Op>, m: nat, i: nat, grantee: string, capabilityId: string,
                          snapshot: string)
    requires Run(states, ops) && m < i <= |ops| && Opened(states, ops, m, i, grantee, capabilityId, snapshot)
    ensures exists c, d :: AskedApprovedGranted(states, ops, c, d, m, i, grantee, capabilityId, snapshot)
  {
    var q := Attempt(ops[m]).request;
    MintingIsCurrent(states, ops, m);
    StandingByHistory(states, ops, m, i, Attempt(ops[m]).grantId);
    var c, d := ApprovalHasAHistory(states, ops, m, q);
    assert AskedApprovedGranted(states, ops, c, d, m, i, grantee, capabilityId, snapshot);
  }

  lemma HistoryOpens(states: seq<Sys>, ops: seq<Op>, c: nat, d: nat, m: nat, i: nat, grantee: string,
                     capabilityId: string, snapshot: string)
    requires Run(states, ops) && i <= |ops|
    requires AskedApprovedGranted(states, ops, c, d, m, i, grantee, capabilityId, snapshot)
    ensures Opened(states, ops, m, i, grantee, capabilityId, snapshot)
  {
    var q := Attempt(ops[m]).request;
    MintingIsCurrent(states, ops, m);
    RequestsHoldWhatWasAsked(states, ops, m, q.id);
    StandingByHistory(states, ops, m, i, Attempt(ops[m]).grantId);
    RunKeeps(states, ops, m, i);
    ApprovedStaysCurrent(states[m], states[i], q);
  }

  /**
   * The read gate by its history: it opens for a person, a capability and a snapshot exactly when that person asked
   * for that capability under that snapshot, the request was approved and granted, the grant was not revoked since,
   * and it does not expire on that snapshot.
   */
  lemma GateOpensForWhoAsked(states: seq<Sys>, ops: seq<Op>, i: nat, grantee: string, capabilityId: string,
                             snapshot: string)
    requires Run(states, ops) && i <= |ops|
    ensures G.GateOpens(states[i].grants.grants, grantee, capabilityId, snapshot)
       <==> exists c, d, m :: AskedApprovedGranted(states, ops, c, d, m, i, grantee, capabilityId, snapshot)
  {
    GateOpensExactly(states, ops, i, grantee, capabilityId, snapshot);
    if m :| 0 <= m < i && Opened(states, ops, m, i, grantee, capabilityId, snapshot) {
      OpenedHasAHistory(states, ops, m, i, grantee, capabilityId, snapshot);
    }
    if c, d, m :| AskedApprovedGranted(states, ops, c, d, m, i, grantee, capabilityId, snapshot) {
      HistoryOpens(states, ops, c, d, m, i, grantee, capabilityId, snapshot);
    }
  }
}
