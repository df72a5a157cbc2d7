/** The access-request ledger: one append-only file of events, and the maps rebuilt from it. */
module AccessRequests {
  import opened Basics
  import L = Ledger
  import opened Text

  datatype Target = Capability(capabilityId: string) | Project(capabilityId: string) {
    function Kind(): string {
      match this
      case Capability(_) => "capability"
      case Project(_) => "project"
    }
  }

  datatype Status = Pending | Approved | Denied | Cancelled | Expired

  datatype Decision = Decision(actor: string, decidedOrdinal: nat, outcome: Status, reason: Option<string>)

  datatype Request = Request(
    approver: string, createdOrdinal: nat, decision: Option<Decision>, justification: string, id: string,
    key: string, requester: string, snapshot: string, status: Status, target: Target)

  datatype Event =
    | Created(request: Request)
    | Decided(actor: string, decidedOrdinal: nat, outcome: Status, reason: Option<string>,
              requestId: string, status: Status)

  /** What the store keeps in memory. */
  datatype State = State(byKey: map<(string, string), string>, requests: map<string, Request>, next: nat)

  const EMPTY := State(map[], map[], 0)

  datatype StoreError = Corrupt | IdCollision | InvalidStatus

  datatype CreateOutcome = New(request: Request) | Existing(request: Request)

  datatype DecideError = AlreadyDecided | NotFound | Stale

  // -------------------------------------------------------------------------
  // Replay: what a file means
  // -------------------------------------------------------------------------

  /** One line of the replay loop; None is the "store corrupt" refusal. */
  function Apply(s: State, e: Event): Option<State> {
    match e
    case Created(q) =>
      Some(State(s.byKey[(q.key, q.snapshot) := q.id], s.requests[q.id := q], s.next + 1))
    case Decided(actor, ordinal, outcome, reason, id, status) =>
      if id !in s.requests then None
      else
        var decided := s.requests[id].(status := status, decision := Some(Decision(actor, ordinal, outcome, reason)));
        Some(State(s.byKey, s.requests[id := decided], s.next + 1))
  }

  function Replay(file: seq<Event>): Option<State> {
    L.Replay(Apply, EMPTY, file)
  }

  lemma ReplaySnoc(file: seq<Event>, e: Event)
    ensures Replay(file + [e]) == if Replay(file).None? then None else Apply(Replay(file).value, e)
  {
    L.ReplaySnoc(Apply, EMPTY, file, e);
  }

  // -------------------------------------------------------------------------
  // The live operations
  // -------------------------------------------------------------------------

  /** An operation's effect: the new memory, the lines it appended and its reply. */
  datatype Effect<R> = Effect(state: State, appended: seq<Event>, reply: R)

  function RequestKey(sha256: Sha256, requester: string, target: Target): string {
    sha256(JoinLines([requester, target.Kind(), target.capabilityId])).hex
  }

  function RequestId(sha256: Sha256, key: string, snapshot: string): string {
    "ar_" + sha256(JoinLines([key, snapshot])).Short()
  }

  /** Creation once the key and the id of the request have been hashed. */
  function CreateEffect(s: State, key: string, id: string, requester: string, target: Target, justification: string,
                        approver: string, snapshot: string): Effect<Result<CreateOutcome, StoreError>>
  {
    if (key, snapshot) in s.byKey then
      var existing := s.byKey[(key, snapshot)];
      Effect(s, [], if existing in s.requests then Ok(Existing(s.requests[existing])) else Err(Corrupt))
    else if id in s.requests then Effect(s, [], Err(IdCollision))
    else
      var q := Request(approver, s.next, None, justification, id, key, requester, snapshot, Pending, target);
      Effect(State(s.byKey[(key, snapshot) := id], s.requests[id := q], s.next + 1), [Created(q)], Ok(New(q)))
  }

  function DecideEffect(s: State, id: string, status: Status, actor: string, reason: Option<string>, snapshot: string)
    : Effect<Result<Result<Request, DecideError>, StoreError>>
  {
    if status != Approved && status != Denied then Effect(s, [], Err(InvalidStatus))
    else if id !in s.requests then Effect(s, [], Ok(Err(NotFound)))
    else if s.requests[id].snapshot != snapshot then Effect(s, [], Ok(Err(Stale)))
    else if s.requests[id].status != Pending then Effect(s, [], Ok(Err(AlreadyDecided)))
    else
      var decided := s.requests[id].(status := status, decision := Some(Decision(actor, s.next, status, reason)));
      Effect(State(s.byKey, s.requests[id := decided], s.next + 1),
             [Decided(actor, s.next, status, reason, id, status)], Ok(Ok(decided)))
  }

  // -------------------------------------------------------------------------
  // What every reachable store satisfies
  // -------------------------------------------------------------------------

  /** A stored request and the file agree: its two ordinals are the lines that hold its two events. */
  ghost predicate RequestOnFile(q: Request, file: seq<Event>) {
    && q.createdOrdinal < |file|
    && file[q.createdOrdinal] == Created(q.(status := Pending, decision := None))
    && (q.status == Pending <==> q.decision.None?)
    && (q.decision.Some? ==>
          var d := q.decision.value;
          && d.outcome == q.status && q.status in {Approved, Denied}
          && q.createdOrdinal < d.decidedOrdinal < |file|
          && file[d.decidedOrdinal] == Decided(d.actor, d.decidedOrdinal, d.outcome, d.reason, q.id, q.status))
  }

  /** A line of the file and the memory agree. */
  ghost predicate LineInMemory(file: seq<Event>, i: nat, s: State)
    requires i < |file|
  {
    match file[i]
    case Created(q) => q.createdOrdinal == i && q.id in s.requests && s.requests[q.id].createdOrdinal == i
    case Decided(_, ordinal, _, _, id, _) =>
      && ordinal == i && id in s.requests
      && s.requests[id].decision.Some? && s.requests[id].decision.value.decidedOrdinal == i
  }

  ghost predicate IndexesAgree(s: State) {
    && (forall k :: k in s.byKey ==>
          (s.byKey[k] in s.requests && (s.requests[s.byKey[k]].key, s.requests[s.byKey[k]].snapshot) == k))
    && (forall id :: id in s.requests ==>
          (s.requests[id].id == id && KeyOf(s.requests[id]) in s.byKey && s.byKey[KeyOf(s.requests[id])] == id))
  }

  function KeyOf(q: Request): (string, string) {
    (q.key, q.snapshot)
  }

  ghost predicate RequestsOnFile(s: State, file: seq<Event>) {
    forall id :: id in s.requests ==> RequestOnFile(s.requests[id], file)
  }

  ghost predicate LinesInMemory(file: seq<Event>, s: State) {
    forall i :: 0 <= i < |file| ==> LineInMemory(file, i, s)
  }

  ghost predicate Consistent(s: State, file: seq<Event>) {
    && Replay(file) == Some(s)
    && s.next == |file|
    && IndexesAgree(s)
    && RequestsOnFile(s, file)
    && LinesInMemory(file, s)
  }

  lemma EmptyConsistent()
    ensures Consistent(EMPTY, [])
  {
  }

  /** Keeping the old lines' and requests' agreement when one line is added and one request stored. */
  lemma AppendKeepsRest(s: State, file: seq<Event>, e: Event, s': State, id: string)
    requires RequestsOnFile(s, file) && LinesInMemory(file, s)
    requires id in s'.requests && s'.requests == s.requests[id := s'.requests[id]]
    requires RequestOnFile(s'.requests[id], file + [e]) && LineInMemory(file + [e], |file|, s')
    requires id in s.requests ==>
               (s'.requests[id].createdOrdinal == s.requests[id].createdOrdinal && s.requests[id].decision.None?)
    ensures RequestsOnFile(s', file + [e]) && LinesInMemory(file + [e], s')
  {
    var file' := file + [e];
    forall i | 0 <= i < |file'|
      ensures LineInMemory(file', i, s')
    {
      if i < |file| {
        assert file'[i] == file[i] && LineInMemory(file, i, s);
      }
    }
    forall other | other in s'.requests
      ensures RequestOnFile(s'.requests[other], file')
    {
      if other != id {
        assert RequestOnFile(s.requests[other], file);
      }
    }
  }

  lemma RestoringKeepsIndexes(s: State, id: string, q: Request)
    requires IndexesAgree(s) && id in s.requests
    requires q.id == id && KeyOf(q) == KeyOf(s.requests[id])
    ensures IndexesAgree(s.(requests := s.requests[id := q]))
  {
  }

  lemma StoringKeepsIndexes(s: State, q: Request)
    requires IndexesAgree(s) && KeyOf(q) !in s.byKey && q.id !in s.requests
    ensures IndexesAgree(s.(byKey := s.byKey[KeyOf(q) := q.id], requests := s.requests[q.id := q]))
  {
  }

  lemma CreatedConsistent(s: State, file: seq<Event>, q: Request)
    requires Consistent(s, file)
    requires KeyOf(q) !in s.byKey && q.id !in s.requests
    requires q.createdOrdinal == s.next && q.status == Pending && q.decision == None
    ensures Apply(s, Created(q)).Some? && Consistent(Apply(s, Created(q)).value, file + [Created(q)])
  {
    ReplaySnoc(file, Created(q));
    AppendKeepsRest(s, file, Created(q), Apply(s, Created(q)).value, q.id);
    StoringKeepsIndexes(s, q);
    assert IndexesAgree(Apply(s, Created(q)).value);
  }

  lemma DecidedConsistent(s: State, file: seq<Event>, id: string, status: Status, actor: string, reason: Option<string>)
    requires Consistent(s, file)
    requires id in s.requests && s.requests[id].status == Pending && status in {Approved, Denied}
    ensures var e := Decided(actor, s.next, status, reason, id, status);
            Apply(s, e).Some? && Consistent(Apply(s, e).value, file + [e])
  {
    var e := Decided(actor, s.next, status, reason, id, status);
    ReplaySnoc(file, e);
    assert RequestOnFile(s.requests[id], file);
    AppendKeepsRest(s, file, e, Apply(s, e).value, id);
    RestoringKeepsIndexes(s, id, Apply(s, e).value.requests[id]);
    assert IndexesAgree(Apply(s, e).value);
  }

  /** Creating keeps memory and file in agreement: the replay of the longer file is the new memory. */
  lemma CreateConsistent(s: State, file: seq<Event>, key: string, id: string, requester: string, target: Target,
                         justification: string, approver: string, snapshot: string)
    requires Consistent(s, file)
    ensures var f := CreateEffect(s, key, id, requester, target, justification, approver, snapshot);
            Consistent(f.state, file + f.appended) && f.reply != Err(Corrupt)
  {
    var f := CreateEffect(s, key, id, requester, target, justification, approver, snapshot);
    if f.appended == [] {
      assert file + f.appended == file;
    } else {
      CreatedConsistent(s, file, f.appended[0].request);
    }
  }

  lemma DecideConsistent(s: State, file: seq<Event>, id: string, status: Status, actor: string,
                         reason: Option<string>, snapshot: string)
    requires Consistent(s, file)
    ensures var f := DecideEffect(s, id, status, actor, reason, snapshot);
            Consistent(f.state, file + f.appended)
  {
    var f := DecideEffect(s, id, status, actor, reason, snapshot);
    if f.appended == [] {
      assert file + f.appended == file;
    } else {
      DecidedConsistent(s, file, id, status, actor, reason);
    }
  }

  /** A file holds at most one decision row for a request, after its creation row. */
  lemma DecidedAtMostOnce(s: State, file: seq<Event>, i: nat, j: nat)
    requires Consistent(s, file) && i < |file| && j < |file|
    requires file[i].Decided? && file[j].Decided? && file[i].requestId == file[j].requestId
    ensures i == j
    ensures file[i].requestId in s.requests && s.requests[file[i].requestId].createdOrdinal < i
  {
    assert LineInMemory(file, i, s) && LineInMemory(file, j, s);
    assert RequestOnFile(s.requests[file[i].requestId], file);
  }

  /** What a later state keeps of an earlier one: requests never vanish and decided ones are frozen. */
  ghost predicate KeepsRequests(s: State, t: State) {
    forall id :: id in s.requests ==>
      (id in t.requests && Later(s.requests[id], t.requests[id]))
  }

  ghost predicate Later(q: Request, q': Request) {
    && q' == q.(status := q'.status, decision := q'.decision)
    && (q.status != Pending ==> q' == q)
  }

  lemma CreateKeeps(s: State, key: string, id: string, requester: string, target: Target, justification: string,
                    approver: string, snapshot: string)
    ensures KeepsRequests(s, CreateEffect(s, key, id, requester, target, justification, approver, snapshot).state)
  {
  }

  lemma DecideKeeps(s: State, id: string, status: Status, actor: string, reason: Option<string>, snapshot: string)
    ensures KeepsRequests(s, DecideEffect(s, id, status, actor, reason, snapshot).state)
  {
  }

  // -------------------------------------------------------------------------
  // The store as the source builds it: mutable maps over two files
  // -------------------------------------------------------------------------

  class AccessRequestStore {
    const sha256: Sha256
    var file: seq<Event>
    var auditFile: seq<L.AuditEvent>
    var byKey: map<(string, string), string>
    var requests: map<string, Request>
    var nextOrdinal: nat
    var nextAuditOrdinal: nat

    ghost function Memory(): State
      reads this
    {
      State(byKey, requests, nextOrdinal)
    }

    ghost function Audits(): L.AuditLog
      reads this
    {
      L.AuditLog(auditFile, nextAuditOrdinal)
    }

    /** The memory is the replay of the file, and both counters are line counts. */
    ghost predicate Valid()
      reads this
    {
      Replay(file) == Some(Memory()) && nextOrdinal == |file| && L.Numbered(Audits())
    }

    constructor (sha256: Sha256)
      ensures Valid() && Memory() == EMPTY && file == [] && auditFile == []
      ensures this.sha256 == sha256
    {
      this.sha256 := sha256;
      file, auditFile := [], [];
      byKey, requests, nextOrdinal, nextAuditOrdinal := map[], map[], 0, 0;
    }

    /** Rebuilds the memory from the files, whatever the memory held before. */
    method Open() returns (ok: bool)
      modifies this
      ensures file == old(file) && auditFile == old(auditFile)
      ensures ok == Replay(file).Some?
      ensures ok ==> Memory() == Replay(file).value && nextAuditOrdinal == |auditFile|
      ensures old(Valid()) ==> ok && Valid() && Memory() == old(Memory())
    {
      byKey, requests, nextOrdinal, nextAuditOrdinal := map[], map[], 0, 0;
      var i := 0;
      assert file[..0] == [];
      while i < |file|
        invariant 0 <= i <= |file| && file == old(file) && auditFile == old(auditFile)
        invariant Replay(file[..i]) == Some(Memory())
      {
        assert file[..i + 1] == file[..i] + [file[i]];
        ReplaySnoc(file[..i], file[i]);
        nextOrdinal := nextOrdinal + 1;
        match file[i] {
          case Created(q) =>
            byKey := byKey[(q.key, q.snapshot) := q.id];
            requests := requests[q.id := q];
          case Decided(actor, ordinal, outcome, reason, id, status) =>
            if id !in requests {
              L.ReplayStaysCorrupt(Apply, EMPTY, file, i + 1);
              return false;
            }
            requests := requests[id := requests[id].(status := status,
                                                     decision := Some(Decision(actor, ordinal, outcome, reason)))];
        }
        i := i + 1;
      }
      assert file[..i] == file;
      nextAuditOrdinal := |auditFile|;
      return true;
    }

    method Create(requester: string, target: Target, justification: string, approver: string, snapshot: string)
      returns (reply: Result<CreateOutcome, StoreError>)
      requires Valid()
      modifies `file, `byKey, `requests, `nextOrdinal
      ensures var key := RequestKey(sha256, requester, target);
              var f := old(CreateEffect(Memory(), key, RequestId(sha256, key, snapshot),
                                        requester, target, justification, approver, snapshot));
              Memory() == f.state && file == old(file) + f.appended && reply == f.reply
      ensures Valid()
      // A new request holds what was asked, under its own key and id; every other reply leaves the store as it was.
      ensures reply.Ok? && reply.value.New? ==>
                var q := reply.value.request;
                && q.requester == requester && q.target == target && q.justification == justification
                && q.approver == approver && q.snapshot == snapshot && q.status == Pending && q.decision.None?
                && q.key == RequestKey(sha256, requester, target) && q.id == RequestId(sha256, q.key, snapshot)
                && (q.key, snapshot) !in old(byKey) && q.id !in old(requests) && q.createdOrdinal == |old(file)|
                && requests == old(requests)[q.id := q] && file == old(file) + [Created(q)]
      ensures reply.Ok? && reply.value.Existing? ==>
                var k := (RequestKey(sha256, requester, target), snapshot);
                && k in old(byKey) && old(byKey)[k] in old(requests)
                && reply.value.request == old(requests)[old(byKey)[k]]
      ensures !(reply.Ok? && reply.value.New?) ==> Memory() == old(Memory()) && file == old(file)
    {
      var key := RequestKey(sha256, requester, target);
      if (key, snapshot) in byKey {
        var existing := byKey[(key, snapshot)];
        if existing !in requests {
          return Err(Corrupt);
        }
        return Ok(Existing(requests[existing]));
      }
      var id := RequestId(sha256, key, snapshot);
      if id in requests {
        return Err(IdCollision);
      }
      var q := Request(approver, nextOrdinal, None, justification, id, key, requester, snapshot, Pending, target);
      ReplaySnoc(file, Created(q));
      file := file + [Created(q)];
      nextOrdinal := nextOrdinal + 1;
      byKey := byKey[(key, snapshot) := id];
      requests := requests[id := q];
      return Ok(New(q));
    }

    method Decide(id: string, status: Status, actor: string, reason: Option<string>, snapshot: string)
      returns (reply: Result<Result<Request, DecideError>, StoreError>)
      requires Valid()
      modifies `file, `requests, `nextOrdinal
      ensures var f := old(DecideEffect(Memory(), id, status, actor, reason, snapshot));
              Memory() == f.state && file == old(file) + f.appended && reply == f.reply
      ensures Valid()
      // Decided exactly when the status is an outcome and the request is pending under its own snapshot.
      ensures reply.Ok? && reply.value.Ok? <==>
                && (status == Approved || status == Denied) && id in old(requests)
                && old(requests)[id].snapshot == snapshot && old(requests)[id].status == Pending
      ensures reply.Ok? && reply.value.Ok? ==>
                && id in requests && reply.value.value == requests[id]
                && requests[id] == old(requests)[id].(
                     status := status, decision := Some(Decision(actor, |old(file)|, status, reason)))
      ensures reply == Ok(Err(NotFound)) <==> (status == Approved || status == Denied) && id !in old(requests)
      ensures reply == Ok(Err(Stale)) <==>
                (status == Approved || status == Denied) && id in old(requests)
                && old(requests)[id].snapshot != snapshot
      ensures !(reply.Ok? && reply.value.Ok?) ==> Memory() == old(Memory()) && file == old(file)
    {
      if status != Approved && status != Denied {
        return Err(InvalidStatus);
      }
      if id !in requests {
        return Ok(Err(NotFound));
      }
      if requests[id].snapshot != snapshot {
        return Ok(Err(Stale));
      }
      if requests[id].status != Pending {
        return Ok(Err(AlreadyDecided));
      }
      var decidedOrdinal := nextOrdinal;
      ReplaySnoc(file, Decided(actor, decidedOrdinal, status, reason, id, status));
      file := file + [Decided(actor, decidedOrdinal, status, reason, id, status)];
      nextOrdinal := nextOrdinal + 1;
      requests := requests[id := requests[id].(status := status,
                                               decision := Some(Decision(actor, decidedOrdinal, status, reason)))];
      return Ok(Ok(requests[id]));
    }

    method Audit(action: string, actor: string, target: string, outcome: string) returns (ordinal: nat)
      requires Valid()
      modifies `auditFile, `nextAuditOrdinal
      ensures Valid() && ordinal == old(nextAuditOrdinal)
      ensures Audits() == L.Audited(old(Audits()), action, actor, outcome, target)
    {
      ordinal := nextAuditOrdinal;
      auditFile := auditFile + [L.AuditEvent(action, actor, ordinal, outcome, target)];
      nextAuditOrdinal := nextAuditOrdinal + 1;
    }
  }
}
