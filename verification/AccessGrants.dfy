/** The read-grant ledger: grants minted from approved requests, revoked at most once. */
module AccessGrants {
  import opened Basics
  import L = Ledger
  import opened Text
  import Requests = AccessRequests

  datatype Permission = Read

  datatype Status = Active | Expired | Revoked

  datatype Grant = Grant(
    approver: string, createdOrdinal: nat, expiresAt: Option<string>, id: string, grantee: string,
    permission: Permission, reason: string, requestId: string, revocationReason: Option<string>,
    revokedBy: Option<string>, revokedOrdinal: Option<nat>, snapshot: string, status: Status,
    target: Requests.Target)

  datatype Event =
    | Created(grant: Grant)
    | RevokedRow(actor: string, grantId: string, reason: Option<string>, revokedOrdinal: nat)

  datatype State = State(byRequest: map<string, string>, grants: map<string, Grant>, next: nat)

  const EMPTY := State(map[], map[], 0)

  datatype StoreError = NotApproved | Corrupt | IdCollision

  datatype CreateOutcome = New(grant: Grant) | Existing(grant: Grant)

  datatype RevokeError = AlreadyInactive | NotFound

  // -------------------------------------------------------------------------
  // Expiry: a reading of a grant at one snapshot
  // -------------------------------------------------------------------------

  /** An expiry that falls on this snapshot; blank ones fall on none. */
  predicate ExpiresOn(expiresAt: Option<string>, snapshot: string) {
    && expiresAt.Some?
    && var expires := Trim(expiresAt.value);
    expires != "" && expires == snapshot
  }

  predicate ExpiredAt(g: Grant, snapshot: string) {
    g.status == Active && ExpiresOn(g.expiresAt, snapshot)
  }

  function EffectiveFor(g: Grant, snapshot: string): Grant {
    if ExpiredAt(g, snapshot) then g.(status := Expired) else g
  }

  predicate ActiveReadAt(g: Grant, snapshot: string) {
    g.permission == Read && g.status == Active && !ExpiredAt(g, snapshot)
  }

  // -------------------------------------------------------------------------
  // Replay
  // -------------------------------------------------------------------------

  function RevokedGrant(g: Grant, actor: string, reason: Option<string>, ordinal: nat): Grant {
    g.(status := Revoked, revokedBy := Some(actor), revokedOrdinal := Some(ordinal), revocationReason := reason)
  }

  function Apply(s: State, e: Event): Option<State> {
    match e
    case Created(g) =>
      Some(State(s.byRequest[g.requestId := g.id], s.grants[g.id := g], s.next + 1))
    case RevokedRow(actor, id, reason, ordinal) =>
      if id !in s.grants then None
      else Some(State(s.byRequest, s.grants[id := RevokedGrant(s.grants[id], actor, reason, ordinal)], s.next + 1))
  }

  function Replay(file: seq<Event>): Option<State> {
    L.Replay(Apply, EMPTY, file)
  }

  lemma ReplaySnoc(file: seq<Event>, e: Event)
    ensures Replay(file + [e]) == if Replay(file).None? then None else Apply(Replay(file).value, e)
  {
    L.ReplaySnoc(Apply, EMPTY, file, e);
  }

  // -------------------------------------------------------------------------
  // The live operations
  // -------------------------------------------------------------------------

  datatype Effect<R> = Effect(state: State, appended: seq<Event>, reply: R)

  function GrantId(sha256: Sha256, q: Requests.Request): string {
    "ag_" + sha256(JoinLines([q.id, "read", q.snapshot])).Short()
  }

  function NewGrant(q: Requests.Request, id: string, ordinal: nat, expiresAt: Option<string>): Grant {
    var reason := if q.decision.Some? && q.decision.value.reason.Some? then q.decision.value.reason.value
                  else "approved_access_request";
    Grant(q.approver, ordinal, expiresAt, id, q.requester, Read, reason, q.id, None, None, None,
          q.snapshot, Active, q.target)
  }

  /** Minting once the grant id has been hashed. */
  function CreateEffect(s: State, id: string, q: Requests.Request, expiresAt: Option<string>)
    : Effect<Result<CreateOutcome, StoreError>>
  {
    if q.status != Requests.Approved then Effect(s, [], Err(NotApproved))
    else if q.id in s.byRequest then
      var existing := s.byRequest[q.id];
      Effect(s, [], if existing in s.grants then Ok(Existing(s.grants[existing])) else Err(Corrupt))
    else if id in s.grants then Effect(s, [], Err(IdCollision))
    else
      var g := NewGrant(q, id, s.next, expiresAt);
      Effect(State(s.byRequest[q.id := id], s.grants[id := g], s.next + 1), [Created(g)], Ok(New(g)))
  }

  function RevokeEffect(s: State, id: string, actor: string, reason: Option<string>, snapshot: string)
    : Effect<Result<Grant, RevokeError>>
  {
    if id !in s.grants then Effect(s, [], Err(NotFound))
    else if !ActiveReadAt(EffectiveFor(s.grants[id], snapshot), snapshot) then Effect(s, [], Err(AlreadyInactive))
    else
      var g := RevokedGrant(s.grants[id], actor, reason, s.next);
      Effect(State(s.byRequest, s.grants[id := g], s.next + 1), [RevokedRow(actor, id, reason, s.next)], Ok(g))
  }

  // -------------------------------------------------------------------------
  // What every reachable store satisfies
  // -------------------------------------------------------------------------

  /** The request index and the grants are mutually inverse. */
  ghost predicate MutuallyInverse(s: State) {
    && (forall r :: r in s.byRequest ==> (s.byRequest[r] in s.grants && s.grants[s.byRequest[r]].requestId == r))
    && (forall id :: id in s.grants ==>
          (s.grants[id].id == id && s.grants[id].requestId in s.byRequest && s.byRequest[s.grants[id].requestId] == id))
  }

  /** A grant and the file agree: its ordinals are the lines of its creation and of its revocation. */
  ghost predicate GrantOnFile(g: Grant, file: seq<Event>) {
    && g.createdOrdinal < |file|
    && file[g.createdOrdinal] == Created(g.(status := Active, revokedBy := None, revokedOrdinal := None,
                                            revocationReason := None))
    && match g.status
       case Active => g.revokedBy == None && g.revokedOrdinal == None && g.revocationReason == None
       case Expired => false
       case Revoked =>
         && g.revokedBy.Some? && g.revokedOrdinal.Some?
         && g.createdOrdinal < g.revokedOrdinal.value < |file|
         && file[g.revokedOrdinal.value]
            == RevokedRow(g.revokedBy.value, g.id, g.revocationReason, g.revokedOrdinal.value)
  }

  ghost predicate LineInMemory(file: seq<Event>, i: nat, s: State)
    requires i < |file|
  {
    match file[i]
    case Created(g) => g.createdOrdinal == i && g.id in s.grants && s.grants[g.id].createdOrdinal == i
    case RevokedRow(_, id, _, ordinal) =>
      ordinal == i && id in s.grants && s.grants[id].revokedOrdinal == Some(i)
  }

  ghost predicate GrantsOnFile(s: State, file: seq<Event>) {
    forall id :: id in s.grants ==> GrantOnFile(s.grants[id], file)
  }

  ghost predicate LinesInMemory(file: seq<Event>, s: State) {
    forall i :: 0 <= i < |file| ==> LineInMemory(file, i, s)
  }

  ghost predicate Consistent(s: State, file: seq<Event>) {
    && Replay(file) == Some(s)
    && s.next == |file|
    && MutuallyInverse(s)
    && GrantsOnFile(s, file)
    && LinesInMemory(file, s)
  }

  lemma AppendKeepsRest(s: State, file: seq<Event>, e: Event, s': State, id: string)
    requires GrantsOnFile(s, file) && LinesInMemory(file, s)
    requires id in s'.grants && s'.grants == s.grants[id := s'.grants[id]]
    requires GrantOnFile(s'.grants[id], file + [e]) && LineInMemory(file + [e], |file|, s')
    requires id in s.grants ==>
               (s'.grants[id].createdOrdinal == s.grants[id].createdOrdinal && s.grants[id].revokedOrdinal.None?)
    ensures GrantsOnFile(s', file + [e]) && LinesInMemory(file + [e], s')
  {
    var file' := file + [e];
    forall i | 0 <= i < |file'|
      ensures LineInMemory(file', i, s')
    {
      if i < |file| {
        assert file'[i] == file[i] && LineInMemory(file, i, s);
      }
    }
    forall other | other in s'.grants
      ensures GrantOnFile(s'.grants[other], file')
    {
      if other != id {
        assert GrantOnFile(s.grants[other], file);
      }
    }
  }

  /** Minting keeps the two maps inverse and the file's replay equal to the memory. */
  lemma CreateConsistent(s: State, file: seq<Event>, id: string, q: Requests.Request, expiresAt: Option<string>)
    requires Consistent(s, file)
    ensures var f := CreateEffect(s, id, q, expiresAt);
            Consistent(f.state, file + f.appended) && f.reply != Err(Corrupt)
  {
    var f := CreateEffect(s, id, q, expiresAt);
    if f.appended == [] {
      assert file + f.appended == file;
    } else {
      ReplaySnoc(file, f.appended[0]);
      AppendKeepsRest(s, file, f.appended[0], f.state, id);
      StoringKeepsInverse(s, f.appended[0].grant);
    }
  }

  lemma StoringKeepsInverse(s: State, g: Grant)
    requires MutuallyInverse(s) && g.requestId !in s.byRequest && g.id !in s.grants
    ensures MutuallyInverse(State(s.byRequest[g.requestId := g.id], s.grants[g.id := g], s.next + 1))
  {
  }

  lemma RestoringKeepsInverse(s: State, id: string, g: Grant)
    requires MutuallyInverse(s) && id in s.grants && g.id == id && g.requestId == s.grants[id].requestId
    ensures MutuallyInverse(State(s.byRequest, s.grants[id := g], s.next + 1))
  {
  }

  lemma RevokeConsistent(s: State, file: seq<Event>, id: string, actor: string, reason: Option<string>,
                         snapshot: string)
    requires Consistent(s, file)
    ensures var f := RevokeEffect(s, id, actor, reason, snapshot);
            Consistent(f.state, file + f.appended)
  {
    var f := RevokeEffect(s, id, actor, reason, snapshot);
    if f.appended == [] {
      assert file + f.appended == file;
    } else {
      ReplaySnoc(file, f.appended[0]);
      assert GrantOnFile(s.grants[id], file);
      AppendKeepsRest(s, file, f.appended[0], f.state, id);
      RestoringKeepsInverse(s, id, f.state.grants[id]);
    }
  }

  /** What a later state keeps of an earlier one: grants and the index stay, revoked grants are frozen. */
  ghost predicate KeepsGrants(s: State, t: State) {
    && (forall id :: id in s.grants ==> (id in t.grants && LaterGrant(s.grants[id], t.grants[id])))
    && (forall r :: r in s.byRequest ==> (r in t.byRequest && t.byRequest[r] == s.byRequest[r]))
  }

  ghost predicate LaterGrant(g: Grant, g': Grant) {
    && g'.requestId == g.requestId
    && (g.status == Revoked ==> g' == g)
  }

  lemma CreateKeeps(s: State, id: string, q: Requests.Request, expiresAt: Option<string>)
    ensures KeepsGrants(s, CreateEffect(s, id, q, expiresAt).state)
  {
  }

  lemma RevokeKeeps(s: State, id: string, actor: string, reason: Option<string>, snapshot: string)
    ensures KeepsGrants(s, RevokeEffect(s, id, actor, reason, snapshot).state)
  {
  }

  // -------------------------------------------------------------------------
  // The store as the source builds it
  // -------------------------------------------------------------------------

  class AccessGrantStore {
    const sha256: Sha256
    var file: seq<Event>
    var auditFile: seq<L.AuditEvent>
    var byRequest: map<string, string>
    var grants: map<string, Grant>
    var nextOrdinal: nat
    var nextAuditOrdinal: nat

    ghost function Memory(): State
      reads this
    {
      State(byRequest, grants, nextOrdinal)
    }

    ghost function Audits(): L.AuditLog
      reads this
    {
      L.AuditLog(auditFile, nextAuditOrdinal)
    }

    /** The memory is the replay of the file, and both counters are line counts. */
    ghost predicate Valid()
      reads this
    {
      Replay(file) == Some(Memory()) && nextOrdinal == |file| && L.Numbered(Audits())
    }

    constructor (sha256: Sha256)
      ensures Valid() && Memory() == EMPTY && file == [] && auditFile == []
      ensures this.sha256 == sha256
    {
      this.sha256 := sha256;
      file, auditFile := [], [];
      byRequest, grants, nextOrdinal, nextAuditOrdinal := map[], map[], 0, 0;
    }

    /** Rebuilds the memory from the files, whatever the memory held before. */
    method Open() returns (ok: bool)
      modifies this
      ensures file == old(file) && auditFile == old(auditFile)
      ensures ok == Replay(file).Some?
      ensures ok ==> Memory() == Replay(file).value && nextAuditOrdinal == |auditFile|
      ensures old(Valid()) ==> ok && Valid() && Memory() == old(Memory())
    {
      byRequest, grants, nextOrdinal, nextAuditOrdinal := map[], map[], 0, 0;
      var i := 0;
      assert file[..0] == [];
      while i < |file|
        invariant 0 <= i <= |file| && file == old(file) && auditFile == old(auditFile)
        invariant Replay(file[..i]) == Some(Memory())
      {
        assert file[..i + 1] == file[..i] + [file[i]];
        ReplaySnoc(file[..i], file[i]);
        nextOrdinal := nextOrdinal + 1;
        match file[i] {
          case Created(g) =>
            byRequest := byRequest[g.requestId := g.id];
            grants := grants[g.id := g];
          case RevokedRow(actor, id, reason, ordinal) =>
            if id !in grants {
              L.ReplayStaysCorrupt(Apply, EMPTY, file, i + 1);
              return false;
            }
            grants := grants[id := RevokedGrant(grants[id], actor, reason, ordinal)];
        }
        i := i + 1;
      }
      assert file[..i] == file;
      nextAuditOrdinal := |auditFile|;
      return true;
    }

    method CreateFromApprovedRequestWithExpiry(q: Requests.Request, expiresAt: Option<string>)
      returns (reply: Result<CreateOutcome, StoreError>)
      requires Valid()
      modifies `file, `byRequest, `grants, `nextOrdinal
      ensures var f := old(CreateEffect(Memory(), GrantId(sha256, q), q, expiresAt));
              Memory() == f.state && file == old(file) + f.appended && reply == f.reply
      ensures Valid()
      // A new grant is the approved request's; an existing one is returned; every other reply changes nothing.
      ensures reply.Ok? && reply.value.New? ==>
                var g := reply.value.grant;
                && q.status == Requests.Approved && q.id !in old(byRequest) && g.id !in old(grants)
                && g.requestId == q.id && g.grantee == q.requester && g.approver == q.approver
                && g.target == q.target && g.snapshot == q.snapshot && g.expiresAt == expiresAt
                && g.permission == Read && g.status == Active && g.createdOrdinal == |old(file)|
                && grants == old(grants)[g.id := g] && byRequest == old(byRequest)[q.id := g.id]
      ensures reply.Ok? && reply.value.Existing? ==>
                && q.id in old(byRequest) && old(byRequest)[q.id] in old(grants)
                && reply.value.grant == old(grants)[old(byRequest)[q.id]]
      ensures q.status != Requests.Approved <==> reply == Err(NotApproved)
      ensures !(reply.Ok? && reply.value.New?) ==> Memory() == old(Memory()) && file == old(file)
    {
      if q.status != Requests.Approved {
        return Err(NotApproved);
      }
      if q.id in byRequest {
        var existing := byRequest[q.id];
        if existing !in grants {
          return Err(Corrupt);
        }
        return Ok(Existing(grants[existing]));
      }
      var id := GrantId(sha256, q);
      if id in grants {
        return Err(IdCollision);
      }
      var g := NewGrant(q, id, nextOrdinal, expiresAt);
      ReplaySnoc(file, Created(g));
      file := file + [Created(g)];
      nextOrdinal := nextOrdinal + 1;
      byRequest := byRequest[g.requestId := g.id];
      grants := grants[g.id := g];
      return Ok(New(g));
    }

    method Revoke(id: string, actor: string, reason: Option<string>, snapshot: string)
      returns (reply: Result<Grant, RevokeError>)
      requires Valid()
      modifies `file, `grants, `nextOrdinal
      ensures var f := old(RevokeEffect(Memory(), id, actor, reason, snapshot));
              Memory() == f.state && file == old(file) + f.appended && reply == f.reply
      ensures Valid()
      // Revoked exactly when the grant is an active read grant that does not expire on this snapshot.
      ensures reply.Ok? <==>
                && id in old(grants) && old(grants)[id].permission == Read && old(grants)[id].status == Active
                && !(old(grants)[id].expiresAt.Some? && snapshot != ""
                     && Trim(old(grants)[id].expiresAt.value) == snapshot)
      ensures reply.Ok? ==>
                && id in grants && reply.value == grants[id] && grants == old(grants)[id := grants[id]]
                && grants[id] == old(grants)[id].(status := Revoked, revokedBy := Some(actor),
                                                  revokedOrdinal := Some(|old(file)|), revocationReason := reason)
      ensures reply == Err(NotFound) <==> id !in old(grants)
      ensures reply.Err? ==> Memory() == old(Memory()) && file == old(file)
    {
      if id !in grants {
        return Err(NotFound);
      }
      if !ActiveReadAt(EffectiveFor(grants[id], snapshot), snapshot) {
        return Err(AlreadyInactive);
      }
      var revokedOrdinal := nextOrdinal;
      ReplaySnoc(file, RevokedRow(actor, id, reason, revokedOrdinal));
      file := file + [RevokedRow(actor, id, reason, revokedOrdinal)];
      nextOrdinal := nextOrdinal + 1;
      grants := grants[id := RevokedGrant(grants[id], actor, reason, revokedOrdinal)];
      return Ok(grants[id]);
    }

    method Audit(action: string, actor: string, target: string, outcome: string) returns (ordinal: nat)
      requires Valid()
      modifies `auditFile, `nextAuditOrdinal
      ensures Valid() && ordinal == old(nextAuditOrdinal)
      ensures Audits() == L.Audited(old(Audits()), action, actor, outcome, target)
    {
      ordinal := nextAuditOrdinal;
      auditFile := auditFile + [L.AuditEvent(action, actor, ordinal, outcome, target)];
      nextAuditOrdinal := nextAuditOrdinal + 1;
    }

    /** The gate a read passes: the grants are asked one by one, in any order. */
    method HasActiveReadFor(grantee: string, capabilityId: string, snapshot: string) returns (open: bool)
      ensures open <==> GateOpens(grants, grantee, capabilityId, snapshot)
    {
      var rest := grants.Keys;
      while rest != {}
        invariant rest <= grants.Keys
        invariant forall id :: id in grants && id !in rest ==> !Covers(grants[id], grantee, capabilityId, snapshot)
      {
        var id :| id in rest;
        if Covers(grants[id], grantee, capabilityId, snapshot) {
          return true;
        }
        rest := rest - {id};
      }
      return false;
    }
  }

  ghost predicate GateOpens(grants: map<string, Grant>, grantee: string, capabilityId: string, snapshot: string) {
    exists id :: id in grants && Covers(grants[id], grantee, capabilityId, snapshot)
  }

  predicate Covers(g: Grant, grantee: string, capabilityId: string, snapshot: string) {
    && g.grantee == grantee && g.snapshot == snapshot && g.target.capabilityId == capabilityId
    && ActiveReadAt(g, snapshot)
  }
}
