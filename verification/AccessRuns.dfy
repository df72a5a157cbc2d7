/**
 * Whole runs of the request store and the grant store side by side: any interleaving of their
 * operations, with closes, reopens and crashes anywhere. Keys and ids are arbitrary strings, so
 * the results hold for every hash function, collisions included.
 */
module AccessRuns {
  import opened Basics
  import R = AccessRequests
  import G = AccessGrants
  import L = Ledger

  datatype Sys = Sys(requests: R.State, requestFile: seq<R.Event>, requestAudits: L.AuditLog,
                     grants: G.State, grantFile: seq<G.Event>, grantAudits: L.AuditLog)

  const START := Sys(R.EMPTY, [], L.NO_AUDITS, G.EMPTY, [], L.NO_AUDITS)

  datatype Op =
    | Create(key: string, id: string, requester: string, target: R.Target, justification: string,
             approver: string, snapshot: string)
    | Decide(requestId: string, status: R.Status, actor: string, reason: Option<string>, current: string)
    | Mint(grantId: string, request: R.Request, expiresAt: Option<string>)
    | Revoke(grantId: string, actor: string, reason: Option<string>, current: string)
    | AuditRequest(action: string, actor: string, outcome: string, about: string)
    | AuditGrant(action: string, actor: string, outcome: string, about: string)
    | Reopen
    | Crash(interrupted: Op)  // the row reached the file, the memory update was lost, the stores reopened

  function Rebuild(s: Sys): Sys {
    match (R.Replay(s.requestFile), G.Replay(s.grantFile))
    case (Some(r), Some(g)) =>
      s.(requests := r, requestAudits := L.Recounted(s.requestAudits), grants := g,
         grantAudits := L.Recounted(s.grantAudits))
    case _ => s
  }

  /** The files of `t` under the memory of `s`. */
  function OnDisk(s: Sys, t: Sys): Sys {
    s.(requestFile := t.requestFile, requestAudits := s.requestAudits.(file := t.requestAudits.file),
       grantFile := t.grantFile, grantAudits := s.grantAudits.(file := t.grantAudits.file))
  }

  function Step(s: Sys, op: Op): Sys {
    match op
    case Create(key, id, requester, target, justification, approver, snapshot) =>
      var f := R.CreateEffect(s.requests, key, id, requester, target, justification, approver, snapshot);
      s.(requests := f.state, requestFile := s.requestFile + f.appended)
    case Decide(id, status, actor, reason, current) =>
      var f := R.DecideEffect(s.requests, id, status, actor, reason, current);
      s.(requests := f.state, requestFile := s.requestFile + f.appended)
    case Mint(id, q, expiresAt) =>
      var f := G.CreateEffect(s.grants, id, q, expiresAt);
      s.(grants := f.state, grantFile := s.grantFile + f.appended)
    case Revoke(id, actor, reason, current) =>
      var f := G.RevokeEffect(s.grants, id, actor, reason, current);
      s.(grants := f.state, grantFile := s.grantFile + f.appended)
    case AuditRequest(action, actor, outcome, about) =>
      s.(requestAudits := L.Audited(s.requestAudits, action, actor, outcome, about))
    case AuditGrant(action, actor, outcome, about) =>
      s.(grantAudits := L.Audited(s.grantAudits, action, actor, outcome, about))
    case Reopen => Rebuild(s)
    case Crash(inner) => Rebuild(OnDisk(s, Step(s, inner)))
  }

  /** The operation a step attempts, whether or not it was interrupted. */
  function Attempt(op: Op): Op {
    if op.Crash? then Attempt(op.interrupted) else op
  }

  /** The request value `q` was readable from the store in state `s`. */
  ghost predicate HandedOut(s: Sys, q: R.Request) {
    q.id in s.requests.requests && s.requests.requests[q.id] == q
  }

  ghost predicate StepAt(states: seq<Sys>, ops: seq<Op>, i: nat)
    requires i < |ops| && |states| == |ops| + 1
  {
    states[i + 1] == Step(states[i], ops[i])
  }

  /** What is minted from is a request that the store gave out in this or an earlier state. */
  ghost predicate MintsFromReply(states: seq<Sys>, ops: seq<Op>, i: nat)
    requires i < |ops| && |states| == |ops| + 1
  {
    Attempt(ops[i]).Mint? ==> exists j :: 0 <= j <= i && HandedOut(states[j], Attempt(ops[i]).request)
  }

  /** A run: consecutive states, where every minting is handed a request the store gave out earlier. */
  ghost predicate Run(states: seq<Sys>, ops: seq<Op>) {
    && |states| == |ops| + 1 && states[0] == START
    && (forall i :: 0 <= i < |ops| ==> StepAt(states, ops, i))
    && (forall i :: 0 <= i < |ops| ==> MintsFromReply(states, ops, i))
  }

  /** Every grant is a faithful copy of an approved request. */
  ghost predicate Backed(s: Sys) {
    forall id :: id in s.grants.grants ==> BackedGrant(s.grants.grants[id], s.requests)
  }

  ghost predicate BackedGrant(g: G.Grant, r: R.State) {
    && g.requestId in r.requests
    && var q := r.requests[g.requestId];
    && q.status == R.Approved && g.grantee == q.requester && g.approver == q.approver
    && g.snapshot == q.snapshot && g.target == q.target
  }

  ghost predicate Inv(s: Sys) {
    && R.Consistent(s.requests, s.requestFile) && G.Consistent(s.grants, s.grantFile) && Backed(s)
    && L.Numbered(s.requestAudits) && L.Numbered(s.grantAudits)
  }

  /** What later states keep of earlier ones: decided requests, revoked grants and audit rows are frozen. */
  ghost predicate Keeps(s: Sys, t: Sys) {
    && R.KeepsRequests(s.requests, t.requests) && G.KeepsGrants(s.grants, t.grants)
    && s.requestAudits.file <= t.requestAudits.file && s.grantAudits.file <= t.grantAudits.file
  }

  lemma RequestStepsKeep(s: Sys, op: Op)
    requires Inv(s) && (op.Create? || op.Decide?)
    ensures var t := Step(s, op);
            R.Consistent(t.requests, t.requestFile) && R.KeepsRequests(s.requests, t.requests)
  {
    match op
    case Create(key, id, requester, target, justification, approver, snapshot) =>
      R.CreateConsistent(s.requests, s.requestFile, key, id, requester, target, justification, approver, snapshot);
      R.CreateKeeps(s.requests, key, id, requester, target, justification, approver, snapshot);
    case Decide(id, status, actor, reason, current) =>
      R.DecideConsistent(s.requests, s.requestFile, id, status, actor, reason, current);
      R.DecideKeeps(s.requests, id, status, actor, reason, current);
  }

  lemma GrantStepsKeep(s: Sys, op: Op)
    requires Inv(s) && (op.Mint? || op.Revoke?)
    ensures var t := Step(s, op);
            G.Consistent(t.grants, t.grantFile) && G.KeepsGrants(s.grants, t.grants)
  {
    match op
    case Mint(id, q, expiresAt) =>
      G.CreateConsistent(s.grants, s.grantFile, id, q, expiresAt);
      G.CreateKeeps(s.grants, id, q, expiresAt);
    case Revoke(id, actor, reason, current) =>
      G.RevokeConsistent(s.grants, s.grantFile, id, actor, reason, current);
      G.RevokeKeeps(s.grants, id, actor, reason, current);
  }

  lemma BackedSurvives(s: Sys, t: Sys)
    requires Backed(s) && s.grants == t.grants && R.KeepsRequests(s.requests, t.requests)
    ensures Backed(t)
  {
    forall id | id in t.grants.grants
      ensures BackedGrant(t.grants.grants[id], t.requests)
    {
      assert BackedGrant(s.grants.grants[id], s.requests);
    }
  }

  lemma MintedIsBacked(s: Sys, op: Op)
    requires Backed(s) && (op.Mint? || op.Revoke?)
    requires op.Mint? && op.request.status == R.Approved ==> HandedOut(s, op.request)
    ensures Backed(Step(s, op))
  {
    var t := Step(s, op);
    forall id | id in t.grants.grants
      ensures BackedGrant(t.grants.grants[id], t.requests)
    {
      if id in s.grants.grants {
        assert BackedGrant(s.grants.grants[id], s.requests);
      }
    }
  }

  lemma AuditStepsKeep(s: Sys, op: Op)
    requires Inv(s) && (op.AuditRequest? || op.AuditGrant?)
    ensures Inv(Step(s, op)) && Keeps(s, Step(s, op))
  {
    KeepsItself(s);
    BackedSurvives(s, Step(s, op));
  }

  /** One uninterrupted step keeps the invariant, provided an approved request being minted is current. */
  lemma StepKeeps(s: Sys, op: Op)
    requires Inv(s) && !op.Crash? && !op.Reopen?
    requires op.Mint? && op.request.status == R.Approved ==> HandedOut(s, op.request)
    ensures Inv(Step(s, op)) && Keeps(s, Step(s, op))
  {
    if op.Create? || op.Decide? {
      RequestStepsKeep(s, op);
      BackedSurvives(s, Step(s, op));
    } else if op.Mint? || op.Revoke? {
      GrantStepsKeep(s, op);
      MintedIsBacked(s, op);
    } else {
      AuditStepsKeep(s, op);
    }
  }

  /** Files that a consistent system left behind rebuild that system, whatever the memory was. */
  lemma RebuiltFromFiles(s: Sys, t: Sys)
    requires R.Consistent(t.requests, t.requestFile) && G.Consistent(t.grants, t.grantFile)
    requires L.Numbered(t.requestAudits) && L.Numbered(t.grantAudits)
    ensures Rebuild(OnDisk(s, t)) == t
  {
  }

  lemma CrashRebuilds(s: Sys, op: Op, t: Sys)
    requires t == Step(s, op) && Inv(t)
    ensures Step(s, Crash(op)) == t
  {
    RebuiltFromFiles(s, t);
  }

  /** Reopening changes nothing; a crash between the append and the memory update is the whole operation. */
  lemma {:induction false} CrashIsAtomic(s: Sys, op: Op)
    requires Inv(s)
    requires MintsCurrent(s, op)
    ensures Step(s, op) == Step(s, Attempt(op))
    ensures Attempt(op).Reopen? ==> Step(s, op) == s
    ensures Inv(Step(s, op)) && Keeps(s, Step(s, op))
    decreases op
  {
    if op.Crash? {
      CrashIsAtomic(s, op.interrupted);
      CrashRebuilds(s, op.interrupted, Step(s, op.interrupted));
    } else if op.Reopen? {
      RebuiltFromFiles(s, s);
      KeepsItself(s);
    } else {
      StepKeeps(s, op);
    }
  }

  lemma KeepsTransitive(s: Sys, t: Sys, u: Sys)
    requires Keeps(s, t) && Keeps(t, u)
    ensures Keeps(s, u)
  {
    forall id | id in s.grants.grants
      ensures id in u.grants.grants && G.LaterGrant(s.grants.grants[id], u.grants.grants[id])
    {
      assert G.LaterGrant(s.grants.grants[id], t.grants.grants[id]);
      assert G.LaterGrant(t.grants.grants[id], u.grants.grants[id]);
    }
    forall id | id in s.requests.requests
      ensures id in u.requests.requests && R.Later(s.requests.requests[id], u.requests.requests[id])
    {
      assert R.Later(s.requests.requests[id], t.requests.requests[id]);
      assert R.Later(t.requests.requests[id], u.requests.requests[id]);
    }
  }

  /** An approved request that was readable once is still exactly what the store holds. */
  lemma ApprovedStaysCurrent(s: Sys, t: Sys, q: R.Request)
    requires Keeps(s, t) && HandedOut(s, q) && q.status == R.Approved
    ensures HandedOut(t, q)
  {
    assert R.Later(s.requests.requests[q.id], t.requests.requests[q.id]);
  }

  ghost predicate MintsCurrent(s: Sys, op: Op) {
    Attempt(op).Mint? && Attempt(op).request.status == R.Approved ==> HandedOut(s, Attempt(op).request)
  }

  lemma KeepsItself(t: Sys)
    ensures Keeps(t, t)
  {
  }

  /** Every state of every run satisfies the invariant. */
  lemma {:induction false} RunIsSound(states: seq<Sys>, ops: seq<Op>, j: nat)
    requires Run(states, ops) && j <= |ops|
    ensures Inv(states[j])
    decreases j, 2
  {
    if j == 0 {
      EmptySystem();
    } else {
      RunSteps(states, ops, j);
    }
  }

  lemma RunSteps(states: seq<Sys>, ops: seq<Op>, j: nat)
    requires Run(states, ops) && 0 < j <= |ops|
    ensures Inv(states[j]) && Keeps(states[j - 1], states[j])
    decreases j, 1
  {
    RunIsSound(states, ops, j - 1);
    MintingIsCurrent(states, ops, j - 1);
    assert states[j] == Step(states[j - 1], ops[j - 1]) by {
      assert StepAt(states, ops, j - 1);
    }
    CrashIsAtomic(states[j - 1], ops[j - 1]);
  }

  /** Later states keep what earlier ones fixed. */
  lemma {:induction false} RunKeeps(states: seq<Sys>, ops: seq<Op>, i: nat, j: nat)
    requires Run(states, ops) && i <= j <= |ops|
    ensures Keeps(states[i], states[j])
    decreases j, 2
  {
    if i < j {
      RunKeeps(states, ops, i, j - 1);
      RunSteps(states, ops, j);
      KeepsTransitive(states[i], states[j - 1], states[j]);
    } else {
      KeepsItself(states[j]);
    }
  }

  lemma EmptySystem()
    ensures Inv(START) && Keeps(START, START)
  {
    R.EmptyConsistent();
  }

  /** A run never mints from an approval that the request store does not hold at that moment. */
  lemma {:induction false} MintingIsCurrent(states: seq<Sys>, ops: seq<Op>, i: nat)
    requires Run(states, ops) && i < |ops|
    ensures MintsCurrent(states[i], ops[i])
    decreases i + 1, 0
  {
    if Attempt(ops[i]).Mint? && Attempt(ops[i]).request.status == R.Approved {
      assert MintsFromReply(states, ops, i);
      var h :| 0 <= h <= i && HandedOut(states[h], Attempt(ops[i]).request);
      RunKeeps(states, ops, h, i);
      ApprovedStaysCurrent(states[h], states[i], Attempt(ops[i]).request);
    }
  }

  // -------------------------------------------------------------------------
  // The results a reader of the ledgers relies on
  // -------------------------------------------------------------------------

  /** Replay equivalence: in every state of every run, re-reading both files yields the live memory. */
  lemma ReplayIsTheLiveState(states: seq<Sys>, ops: seq<Op>, i: nat)
    requires Run(states, ops) && i <= |ops|
    ensures R.Replay(states[i].requestFile) == Some(states[i].requests)
    ensures G.Replay(states[i].grantFile) == Some(states[i].grants)
  {
    RunIsSound(states, ops, i);
  }

  /** The audit files too: numbered by line and counted right in every state, and never rewritten. */
  lemma AuditsStayNumbered(states: seq<Sys>, ops: seq<Op>, i: nat, j: nat)
    requires Run(states, ops) && i <= j <= |ops|
    ensures L.Numbered(states[j].requestAudits) && L.Numbered(states[j].grantAudits)
    ensures states[i].requestAudits.file <= states[j].requestAudits.file
    ensures states[i].grantAudits.file <= states[j].grantAudits.file
  {
    RunIsSound(states, ops, j);
    RunKeeps(states, ops, i, j);
  }

  /** Crash consistency over runs: an interrupted operation is the whole operation, a bare reopen is nothing. */
  lemma CrashesLeaveBeforeOrAfter(states: seq<Sys>, ops: seq<Op>, i: nat)
    requires Run(states, ops) && i < |ops|
    ensures states[i + 1] == Step(states[i], Attempt(ops[i]))
    ensures Attempt(ops[i]).Reopen? ==> states[i + 1] == states[i]
  {
    RunIsSound(states, ops, i);
    MintingIsCurrent(states, ops, i);
    assert StepAt(states, ops, i);
    CrashIsAtomic(states[i], ops[i]);
  }

  /** Step `i` of a run decided a request: its decision was accepted, acknowledged or not. */
  ghost predicate DecidedAt(states: seq<Sys>, ops: seq<Op>, i: nat)
    requires |states| == |ops| + 1 && i < |ops|
  {
    && Attempt(ops[i]).Decide?
    && var d := Attempt(ops[i]);
    R.DecideEffect(states[i].requests, d.requestId, d.status, d.actor, d.reason, d.current).appended != []
  }

  /** A decision is taken under the request's own snapshot and is what every later state records. */
  lemma DecisionIsFinal(states: seq<Sys>, ops: seq<Op>, i: nat, j: nat)
    requires Run(states, ops) && i < j <= |ops| && DecidedAt(states, ops, i)
    ensures var d := Attempt(ops[i]);
            && d.requestId in states[i].requests.requests && d.requestId in states[j].requests.requests
            && var q := states[j].requests.requests[d.requestId];
            && q.snapshot == d.current && q.status == d.status && d.status in {R.Approved, R.Denied}
            && q.decision == Some(R.Decision(d.actor, |states[i].requestFile|, d.status, d.reason))
            && states[i].requests.requests[d.requestId].status == R.Pending
  {
    CrashesLeaveBeforeOrAfter(states, ops, i);
    RunIsSound(states, ops, i);
    RunKeeps(states, ops, i + 1, j);
    var id := Attempt(ops[i]).requestId;
    assert R.Later(states[i + 1].requests.requests[id], states[j].requests.requests[id]);
  }

  /** No request is decided twice in a run. */
  lemma DecidedOnce(states: seq<Sys>, ops: seq<Op>, i: nat, j: nat)
    requires Run(states, ops) && i < |ops| && j < |ops|
    requires DecidedAt(states, ops, i) && DecidedAt(states, ops, j)
    requires Attempt(ops[i]).requestId == Attempt(ops[j]).requestId
    ensures i == j
  {
    if i < j {
      DecisionIsFinal(states, ops, i, j);
    } else if j < i {
      DecisionIsFinal(states, ops, j, i);
    }
  }

  /** A grant exists only for an approved request, copies it, and is the only one of that request. */
  lemma OneGrantPerApprovedRequest(states: seq<Sys>, ops: seq<Op>, i: nat, id: string, other: string)
    requires Run(states, ops) && i <= |ops|
    requires id in states[i].grants.grants && other in states[i].grants.grants
    ensures BackedGrant(states[i].grants.grants[id], states[i].requests)
    ensures states[i].grants.grants[id].requestId == states[i].grants.grants[other].requestId ==> id == other
    ensures var r := states[i].grants.grants[id].requestId;
            r in states[i].grants.byRequest && states[i].grants.byRequest[r] == id
  {
    RunIsSound(states, ops, i);
  }

  /** Once a grant is revoked, no later state reads any grant of its request as active, at any snapshot. */
  lemma RevokedForGood(states: seq<Sys>, ops: seq<Op>, i: nat, j: nat, id: string, other: string, snapshot: string)
    requires Run(states, ops) && i <= j <= |ops|
    requires id in states[i].grants.grants && states[i].grants.grants[id].status == G.Revoked
    requires other in states[j].grants.grants
    requires states[j].grants.grants[other].requestId == states[i].grants.grants[id].requestId
    ensures other == id && states[j].grants.grants[other] == states[i].grants.grants[id]
    ensures !G.ActiveReadAt(states[j].grants.grants[other], snapshot)
    ensures !G.ActiveReadAt(G.EffectiveFor(states[j].grants.grants[other], snapshot), snapshot)
  {
    RunIsSound(states, ops, i);
    RunIsSound(states, ops, j);
    RunKeeps(states, ops, i, j);
    assert G.LaterGrant(states[i].grants.grants[id], states[j].grants.grants[id]);
  }

  // -------------------------------------------------------------------------
  // The read gate
  // -------------------------------------------------------------------------

  /** A step from `s` minted grant `id`, acknowledged or not. */
  ghost predicate Mints(s: Sys, op: Op, id: string) {
    && Attempt(op).Mint? && Attempt(op).grantId == id
    && G.CreateEffect(s.grants, id, Attempt(op).request, Attempt(op).expiresAt).appended != []
  }

  /** A step from `s` revoked grant `id`. */
  ghost predicate Revokes(s: Sys, op: Op, id: string) {
    && Attempt(op).Revoke? && Attempt(op).grantId == id
    && G.RevokeEffect(s.grants, id, Attempt(op).actor, Attempt(op).reason, Attempt(op).current).appended != []
  }

  /** Step `m` minted `id`, and no step after it and before state `i` revoked it. */
  ghost predicate Standing(states: seq<Sys>, ops: seq<Op>, m: nat, i: nat, id: string)
    requires |states| == |ops| + 1 && m < i <= |ops|
  {
    && Mints(states[m], ops[m], id)
    && forall k :: m < k < i ==> !Revokes(states[k], ops[k], id)
  }

  ghost function MintedBy(s: Sys, op: Op): G.Grant
    requires Attempt(op).Mint?
  {
    G.NewGrant(Attempt(op).request, Attempt(op).grantId, s.grants.next, Attempt(op).expiresAt)
  }

  /** What one step makes of one grant: minted, revoked, or left as it was. */
  ghost predicate GrantMoves(s: Sys, op: Op, t: Sys, id: string) {
    if Mints(s, op, id) then id !in s.grants.grants && Has(t, id, MintedBy(s, op))
    else if Revokes(s, op, id) then id in t.grants.grants && t.grants.grants[id].status == G.Revoked
    else if id in s.grants.grants then Has(t, id, s.grants.grants[id])
    else id !in t.grants.grants
  }

  ghost predicate Has(s: Sys, id: string, g: G.Grant) {
    id in s.grants.grants && s.grants.grants[id] == g
  }

  lemma AttemptMoves(s: Sys, op: Op, id: string)
    requires !op.Crash? && !op.Reopen?
    ensures GrantMoves(s, op, Step(s, op), id)
  {
  }

  lemma {:induction false} AttemptIsNoCrash(op: Op)
    ensures !Attempt(op).Crash? && Attempt(Attempt(op)) == Attempt(op)
  {
    if op.Crash? {
      AttemptIsNoCrash(op.interrupted);
    }
  }

  lemma StepOfRun(states: seq<Sys>, ops: seq<Op>, i: nat, id: string)
    requires Run(states, ops) && i < |ops|
    ensures GrantMoves(states[i], ops[i], states[i + 1], id)
  {
    CrashesLeaveBeforeOrAfter(states, ops, i);
    AttemptIsNoCrash(ops[i]);
    if !Attempt(ops[i]).Reopen? {
      AttemptMoves(states[i], Attempt(ops[i]), id);
    }
  }

  lemma {:induction false} StandingIsStored(states: seq<Sys>, ops: seq<Op>, m: nat, i: nat, id: string)
    requires Run(states, ops) && m < i <= |ops| && Standing(states, ops, m, i, id)
    ensures Has(states[i], id, MintedBy(states[m], ops[m]))
  {
    StepOfRun(states, ops, i - 1, id);
    if m < i - 1 {
      StandingIsStored(states, ops, m, i - 1, id);
    }
  }

  lemma {:induction false} ActiveIsStanding(states: seq<Sys>, ops: seq<Op>, i: nat, id: string) returns (m: nat)
    requires Run(states, ops) && i <= |ops|
    requires id in states[i].grants.grants && states[i].grants.grants[id].status == G.Active
    ensures m < i && Standing(states, ops, m, i, id)
  {
    StepOfRun(states, ops, i - 1, id);
    if Mints(states[i - 1], ops[i - 1], id) {
      m := i - 1;
    } else {
      m := ActiveIsStanding(states, ops, i - 1, id);
    }
  }

  /** Step `m` minted a grant that opens the gate in state `i`, for a request the store still holds as approved. */
  ghost predicate Opened(states: seq<Sys>, ops: seq<Op>, m: nat, i: nat, grantee: string, capabilityId: string,
                         snapshot: string)
    requires |states| == |ops| + 1 && m < i <= |ops|
  {
    && Attempt(ops[m]).Mint?
    && var mint := Attempt(ops[m]);
    && Standing(states, ops, m, i, mint.grantId) && !G.ExpiresOn(mint.expiresAt, snapshot)
    && HandedOut(states[i], mint.request) && mint.request.status == R.Approved
    && mint.request.requester == grantee && mint.request.target.capabilityId == capabilityId
    && mint.request.snapshot == snapshot
  }

  lemma StandingOpens(states: seq<Sys>, ops: seq<Op>, m: nat, i: nat, grantee: string, capabilityId: string,
                      snapshot: string)
    requires Run(states, ops) && m < i <= |ops| && Attempt(ops[m]).Mint?
    requires Standing(states, ops, m, i, Attempt(ops[m]).grantId)
    ensures var g := MintedBy(states[m], ops[m]);
            && Has(states[i], g.id, g)
            && (G.Covers(g, grantee, capabilityId, snapshot)
                <==> Opened(states, ops, m, i, grantee, capabilityId, snapshot))
  {
    StandingIsStored(states, ops, m, i, Attempt(ops[m]).grantId);
    MintingIsCurrent(states, ops, m);
    RunKeeps(states, ops, m, i);
    ApprovedStaysCurrent(states[m], states[i], Attempt(ops[m]).request);
  }

  /**
   * The read gate, over runs: it opens exactly when an approved request of that requester, capability and snapshot
   * was given a grant that no later step revoked and that does not expire on that snapshot.
   */
  lemma GateOpensExactly(states: seq<Sys>, ops: seq<Op>, i: nat, grantee: string, capabilityId: string,
                         snapshot: string)
    requires Run(states, ops) && i <= |ops|
    ensures G.GateOpens(states[i].grants.grants, grantee, capabilityId, snapshot)
       <==> exists m :: 0 <= m < i && Opened(states, ops, m, i, grantee, capabilityId, snapshot)
  {
    if G.GateOpens(states[i].grants.grants, grantee, capabilityId, snapshot) {
      var id :| id in states[i].grants.grants
                && G.Covers(states[i].grants.grants[id], grantee, capabilityId, snapshot);
      var m := ActiveIsStanding(states, ops, i, id);
      StandingOpens(states, ops, m, i, grantee, capabilityId, snapshot);
    }
    forall m | 0 <= m < i && Opened(states, ops, m, i, grantee, capabilityId, snapshot)
      ensures G.GateOpens(states[i].grants.grants, grantee, capabilityId, snapshot)
    {
      StandingOpens(states, ops, m, i, grantee, capabilityId, snapshot);
    }
  }

  // -------------------------------------------------------------------------
  // Revoking
  // -------------------------------------------------------------------------

  /** Step `m` minted a grant that can be revoked in state `i` under snapshot `current`. */
  ghost predicate Revocable(states: seq<Sys>, ops: seq<Op>, m: nat, i: nat, id: string, current: string)
    requires |states| == |ops| + 1 && m < i <= |ops|
  {
    Standing(states, ops, m, i, id) && !G.ExpiresOn(Attempt(ops[m]).expiresAt, current)
  }

  lemma StandingRevokes(states: seq<Sys>, ops: seq<Op>, m: nat, i: nat, id: string, actor: string,
                        reason: Option<string>, current: string)
    requires Run(states, ops) && m < i <= |ops| && Standing(states, ops, m, i, id)
    ensures G.RevokeEffect(states[i].grants, id, actor, reason, current).reply.Ok?
       <==> !G.ExpiresOn(Attempt(ops[m]).expiresAt, current)
  {
    StandingIsStored(states, ops, m, i, id);
  }

  /**
   * Revocation, over runs: it is accepted exactly when some step minted the grant, no later step revoked it, and it
   * does not expire on the snapshot it is revoked under. Expiry is therefore not final: a grant that cannot be
   * revoked under the snapshot it expires on can be revoked under every other.
   */
  lemma RevocableExactly(states: seq<Sys>, ops: seq<Op>, i: nat, id: string, actor: string, reason: Option<string>,
                         current: string)
    requires Run(states, ops) && i <= |ops|
    ensures G.RevokeEffect(states[i].grants, id, actor, reason, current).reply.Ok?
       <==> exists m :: 0 <= m < i && Revocable(states, ops, m, i, id, current)
    ensures forall m, other :: 0 <= m < i && Standing(states, ops, m, i, id) && other != current ==>
              Revocable(states, ops, m, i, id, current) || Revocable(states, ops, m, i, id, other)
  {
    if G.RevokeEffect(states[i].grants, id, actor, reason, current).reply.Ok? {
      var m := ActiveIsStanding(states, ops, i, id);
      StandingRevokes(states, ops, m, i, id, actor, reason, current);
      assert Revocable(states, ops, m, i, id, current);
    }
    forall m | 0 <= m < i && Revocable(states, ops, m, i, id, current)
      ensures G.RevokeEffect(states[i].grants, id, actor, reason, current).reply.Ok?
    {
      StandingRevokes(states, ops, m, i, id, actor, reason, current);
    }
  }
}
