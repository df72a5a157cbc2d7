/** The workflow-proposal ledger: drafted, decided once, materialized once, every row chained when a clock is given. */
module Proposals {
  import opened Basics
  import L = Ledger
  import opened HashChain
  import opened Ordering
  import opened Text

  datatype Anchor = Anchor(docId: string, locator: string, quote: string)

  datatype Box = Box(index: nat, stage: string, title: string, description: string, anchors: seq<Anchor>)

  datatype Grounding = Grounding(admitted: nat, refused: nat)

  datatype Status = Pending | Approved | Denied

  datatype Draft = Draft(proposer: string, capability: string, approver: string, title: string, goal: string,
                         boxes: seq<Box>, grounding: Grounding, snapshot: string)

  datatype Proposal = Proposal(
    id: string, draft: Draft, status: Status, createdOrdinal: nat, decidedOrdinal: Option<nat>,
    decidedBy: Option<string>, materialized: bool)

  datatype Event =
    | Created(proposal: Proposal)
    | Decided(actor: string, decidedOrdinal: nat, outcome: Status, proposalId: string, status: Status)
    | Materialized(proposalId: string, ordinal: nat)

  datatype State = State(proposals: map<string, Proposal>, next: nat)

  const EMPTY := State(map[], 0)

  datatype StoreError = IdCollision | InvalidStatus

  datatype DecideError = AlreadyDecided | NotFound | Stale

  // -------------------------------------------------------------------------
  // Replay
  // -------------------------------------------------------------------------

  function Apply(s: State, e: Event): Option<State> {
    match e
    case Created(p) => Some(State(s.proposals[p.id := p], s.next + 1))
    case Decided(actor, ordinal, _, id, status) =>
      if id !in s.proposals then None
      else
        var p := s.proposals[id].(status := status, decidedOrdinal := Some(ordinal), decidedBy := Some(actor));
        Some(State(s.proposals[id := p], s.next + 1))
    case Materialized(id, _) =>
      if id !in s.proposals then None
      else Some(State(s.proposals[id := s.proposals[id].(materialized := true)], s.next + 1))
  }

  /** The stamps are stripped before a row is read as an event. */
  function ApplyRow(s: State, r: Row<Event>): Option<State> {
    Apply(s, r.event)
  }

  function Replay(rows: seq<Row<Event>>): Option<State> {
    L.Replay(ApplyRow, EMPTY, rows)
  }

  lemma ReplaySnoc(rows: seq<Row<Event>>, r: Row<Event>)
    ensures Replay(rows + [r]) == if Replay(rows).None? then None else Apply(Replay(rows).value, r.event)
  {
    L.ReplaySnoc(ApplyRow, EMPTY, rows, r);
  }

  // -------------------------------------------------------------------------
  // The live operations
  // -------------------------------------------------------------------------

  /** An operation's effect: the new memory, the event it appended if any, and its reply. */
  datatype Effect<R> = Effect(state: State, appended: Option<Event>, reply: R)

  function CreateEffect(s: State, id: string, d: Draft): Effect<Result<Proposal, StoreError>> {
    if id in s.proposals then Effect(s, None, Err(IdCollision))
    else
      var p := Proposal(id, d, Pending, s.next, None, None, false);
      Effect(State(s.proposals[id := p], s.next + 1), Some(Created(p)), Ok(p))
  }

  function DecideEffect(s: State, id: string, status: Status, actor: string, snapshot: string)
    : Effect<Result<Result<Proposal, DecideError>, StoreError>>
  {
    if status != Approved && status != Denied then Effect(s, None, Err(InvalidStatus))
    else if id !in s.proposals then Effect(s, None, Ok(Err(NotFound)))
    else if s.proposals[id].draft.snapshot != snapshot then Effect(s, None, Ok(Err(Stale)))
    else if s.proposals[id].status != Pending then Effect(s, None, Ok(Err(AlreadyDecided)))
    else
      var p := s.proposals[id].(status := status, decidedOrdinal := Some(s.next), decidedBy := Some(actor));
      Effect(State(s.proposals[id := p], s.next + 1), Some(Decided(actor, s.next, status, id, status)), Ok(Ok(p)))
  }

  function MaterializeEffect(s: State, id: string): Effect<Option<Proposal>> {
    if id !in s.proposals then Effect(s, None, None)
    else if s.proposals[id].status != Approved || s.proposals[id].materialized then
      Effect(s, None, Some(s.proposals[id]))
    else
      var p := s.proposals[id].(materialized := true);
      Effect(State(s.proposals[id := p], s.next + 1), Some(Materialized(id, s.next)), Some(p))
  }

  // -------------------------------------------------------------------------
  // What every reachable store satisfies
  // -------------------------------------------------------------------------

  ghost predicate ProposalOnFile(p: Proposal, rows: seq<Row<Event>>) {
    && p.createdOrdinal < |rows|
    && rows[p.createdOrdinal].event == Created(Proposal(p.id, p.draft, Pending, p.createdOrdinal, None, None, false))
    && (p.status == Pending <==> p.decidedOrdinal.None?)
    && (p.status == Pending <==> p.decidedBy.None?)
    && (p.status != Pending ==>
          p.createdOrdinal < p.decidedOrdinal.value < |rows|
          && rows[p.decidedOrdinal.value].event
             == Decided(p.decidedBy.value, p.decidedOrdinal.value, p.status, p.id, p.status))
    && (p.materialized ==> p.status == Approved)
  }

  ghost predicate LineInMemory(rows: seq<Row<Event>>, i: nat, s: State)
    requires i < |rows|
  {
    match rows[i].event
    case Created(p) => p.createdOrdinal == i && p.id in s.proposals && s.proposals[p.id].createdOrdinal == i
    case Decided(_, ordinal, _, id, _) =>
      ordinal == i && id in s.proposals && s.proposals[id].decidedOrdinal == Some(i)
    case Materialized(id, ordinal) =>
      && ordinal == i && id in s.proposals && s.proposals[id].materialized
      && s.proposals[id].decidedOrdinal.Some? && s.proposals[id].decidedOrdinal.value < i
  }

  ghost predicate ProposalsOnFile(s: State, rows: seq<Row<Event>>) {
    forall id :: id in s.proposals ==> (s.proposals[id].id == id && ProposalOnFile(s.proposals[id], rows))
  }

  ghost predicate LinesInMemory(rows: seq<Row<Event>>, s: State) {
    forall i :: 0 <= i < |rows| ==> LineInMemory(rows, i, s)
  }

  /** A proposal has at most one materialization row, and one exactly when it is materialized. */
  ghost predicate MaterializedOnce(rows: seq<Row<Event>>, s: State) {
    && (forall i, j :: 0 <= i < |rows| && 0 <= j < |rows| && Materializes(rows, i, j) ==> i == j)
    && (forall id :: id in s.proposals && s.proposals[id].materialized ==> MaterializedSomewhere(rows, id))
  }

  /** Rows `i` and `j` both materialize one proposal. */
  ghost predicate Materializes(rows: seq<Row<Event>>, i: nat, j: nat)
    requires i < |rows| && j < |rows|
  {
    && rows[i].event.Materialized? && rows[j].event.Materialized?
    && rows[i].event.proposalId == rows[j].event.proposalId
  }

  /** Rows `i` and `j` both decide one proposal. */
  ghost predicate Decides(rows: seq<Row<Event>>, i: nat, j: nat)
    requires i < |rows| && j < |rows|
  {
    && rows[i].event.Decided? && rows[j].event.Decided?
    && rows[i].event.proposalId == rows[j].event.proposalId
  }

  ghost predicate MaterializedSomewhere(rows: seq<Row<Event>>, id: string) {
    exists i :: 0 <= i < |rows| && rows[i].event == Materialized(id, i)
  }

  ghost predicate Consistent(s: State, rows: seq<Row<Event>>) {
    && Replay(rows) == Some(s)
    && s.next == |rows|
    && ProposalsOnFile(s, rows)
    && LinesInMemory(rows, s)
    && MaterializedOnce(rows, s)
  }

  /** One more row about one proposal leaves the agreement of all the others alone. */
  lemma AppendKeepsRest(s: State, rows: seq<Row<Event>>, r: Row<Event>, s': State, id: string)
    requires ProposalsOnFile(s, rows) && LinesInMemory(rows, s)
    requires id in s'.proposals && s'.proposals == s.proposals[id := s'.proposals[id]] && s'.proposals[id].id == id
    requires ProposalOnFile(s'.proposals[id], rows + [r]) && LineInMemory(rows + [r], |rows|, s')
    requires id in s.proposals ==>
               (var p, p' := s.proposals[id], s'.proposals[id];
                && p'.createdOrdinal == p.createdOrdinal && (p.materialized ==> p'.materialized)
                && (p.decidedOrdinal.Some? ==> p'.decidedOrdinal == p.decidedOrdinal))
    ensures ProposalsOnFile(s', rows + [r]) && LinesInMemory(rows + [r], s')
  {
    var rows' := rows + [r];
    forall i | 0 <= i < |rows'|
      ensures LineInMemory(rows', i, s')
    {
      if i < |rows| {
        assert rows'[i] == rows[i] && LineInMemory(rows, i, s);
      }
    }
    forall other | other in s'.proposals
      ensures s'.proposals[other].id == other && ProposalOnFile(s'.proposals[other], rows')
    {
      if other != id {
        assert ProposalOnFile(s.proposals[other], rows);
      }
    }
  }

  /** A row that materializes nothing keeps the at-most-once law. */
  lemma AppendKeepsOnce(s: State, rows: seq<Row<Event>>, r: Row<Event>, s': State)
    requires MaterializedOnce(rows, s) && !r.event.Materialized?
    requires forall id :: id in s'.proposals && s'.proposals[id].materialized ==>
               (id in s.proposals && s.proposals[id].materialized)
    ensures MaterializedOnce(rows + [r], s')
  {
    var rows' := rows + [r];
    forall i, j | 0 <= i < |rows'| && 0 <= j < |rows'| && Materializes(rows', i, j)
      ensures i == j
    {
      assert Materializes(rows, i, j);
    }
    forall id | id in s'.proposals && s'.proposals[id].materialized
      ensures MaterializedSomewhere(rows', id)
    {
      assert MaterializedSomewhere(rows, id);
      var i :| 0 <= i < |rows| && rows[i].event == Materialized(id, i);
      assert rows'[i] == rows[i];
    }
  }

  /** The first materialization of a proposal keeps the at-most-once law. */
  lemma MaterializingOnce(s: State, rows: seq<Row<Event>>, r: Row<Event>, s': State, id: string)
    requires LinesInMemory(rows, s) && MaterializedOnce(rows, s)
    requires r.event == Materialized(id, |rows|) && id in s.proposals && !s.proposals[id].materialized
    requires s'.proposals == s.proposals[id := s.proposals[id].(materialized := true)]
    ensures MaterializedOnce(rows + [r], s')
  {
    var rows' := rows + [r];
    forall i | 0 <= i < |rows| && rows[i].event.Materialized?
      ensures rows[i].event.proposalId != id
    {
      assert LineInMemory(rows, i, s);
    }
    forall i, j | 0 <= i < |rows'| && 0 <= j < |rows'| && Materializes(rows', i, j)
      ensures i == j
    {
      if i < |rows| && j < |rows| {
        assert Materializes(rows, i, j);
      }
    }
    forall other | other in s'.proposals && s'.proposals[other].materialized
      ensures MaterializedSomewhere(rows', other)
    {
      if other == id {
        assert rows'[|rows|] == r;
      } else {
        assert MaterializedSomewhere(rows, other);
        var i :| 0 <= i < |rows| && rows[i].event == Materialized(other, i);
        assert rows'[i] == rows[i];
      }
    }
  }

  lemma CreateConsistent(s: State, rows: seq<Row<Event>>, id: string, d: Draft, r: Row<Event>)
    requires Consistent(s, rows)
    requires CreateEffect(s, id, d).appended == Some(r.event)
    ensures Consistent(CreateEffect(s, id, d).state, rows + [r])
  {
    var f := CreateEffect(s, id, d);
    ReplaySnoc(rows, r);
    AppendKeepsRest(s, rows, r, f.state, id);
    AppendKeepsOnce(s, rows, r, f.state);
  }

  lemma DecideConsistent(s: State, rows: seq<Row<Event>>, id: string, status: Status, actor: string, snapshot: string,
                         r: Row<Event>)
    requires Consistent(s, rows)
    requires DecideEffect(s, id, status, actor, snapshot).appended == Some(r.event)
    ensures Consistent(DecideEffect(s, id, status, actor, snapshot).state, rows + [r])
  {
    var f := DecideEffect(s, id, status, actor, snapshot);
    ReplaySnoc(rows, r);
    assert ProposalOnFile(s.proposals[id], rows);
    AppendKeepsRest(s, rows, r, f.state, id);
    AppendKeepsOnce(s, rows, r, f.state);
  }

  lemma MaterializeConsistent(s: State, rows: seq<Row<Event>>, id: string, r: Row<Event>)
    requires Consistent(s, rows)
    requires MaterializeEffect(s, id).appended == Some(r.event)
    ensures Consistent(MaterializeEffect(s, id).state, rows + [r])
  {
    var f := MaterializeEffect(s, id);
    ReplaySnoc(rows, r);
    assert ProposalOnFile(s.proposals[id], rows);
    AppendKeepsRest(s, rows, r, f.state, id);
    MaterializingOnce(s, rows, r, f.state, id);
  }

  /** On any reachable file: one decision row per proposal, at most one materialization, and only after approval. */
  lemma MaterializedAfterApproval(s: State, rows: seq<Row<Event>>, i: nat)
    requires Consistent(s, rows) && i < |rows| && rows[i].event.Materialized?
    ensures var id := rows[i].event.proposalId;
            && id in s.proposals && s.proposals[id].status == Approved
            && (exists k :: 0 <= k < i && rows[k].event.Decided? && rows[k].event.proposalId == id
                            && rows[k].event.status == Approved)
    ensures forall j :: 0 <= j < |rows| && Materializes(rows, i, j) ==> j == i
    ensures forall j, k :: 0 <= j < |rows| && 0 <= k < |rows| && Decides(rows, j, k) ==> j == k
  {
    assert LineInMemory(rows, i, s);
    var p := s.proposals[rows[i].event.proposalId];
    assert ProposalOnFile(p, rows);
    assert rows[p.decidedOrdinal.value].event.Decided?;
    forall j, k | 0 <= j < |rows| && 0 <= k < |rows| && Decides(rows, j, k)
      ensures j == k
    {
      assert LineInMemory(rows, j, s) && LineInMemory(rows, k, s);
    }
  }

  // -------------------------------------------------------------------------
  // The store as the source builds it
  // -------------------------------------------------------------------------

  function ProposalId(sha256: Sha256, d: Draft, ordinal: string): string {
    "wp_" + sha256(JoinLines([d.proposer, d.capability, d.title, d.goal, ordinal])).Short()
  }

  class WorkflowProposalStore {
    const sha256: Sha256
    const events: ChainedFile<Event>
    const audits: ChainedFile<L.AuditEvent>
    var clocked: bool
    var proposals: map<string, Proposal>
    var nextOrdinal: nat
    var nextAuditOrdinal: nat

    ghost function Memory(): State
      reads this
    {
      State(proposals, nextOrdinal)
    }

    /** The hash a new event row links to: of the exact bytes of the last row on disk. */
    ghost function EventTip(): string
      reads this, events
    {
      TipOf(events.sha256, events.encode, events.rows)
    }

    /** Every stamped row of either file links to the row before it. */
    ghost predicate Linked()
      reads this, events, audits
    {
      events.Linked() && audits.Linked()
    }

    /** A clocked session holds both tips; the memory is the replay of the file. */
    ghost predicate Valid()
      reads this, events, audits
    {
      && (events as object) != audits
      && events.Valid() && audits.Valid()
      && (clocked ==> events.Synced() && audits.Synced())
      && Replay(events.rows) == Some(Memory()) && nextOrdinal == |events.rows|
      && nextAuditOrdinal == |audits.rows|
    }

    constructor (sha256: Sha256, events: ChainedFile<Event>, audits: ChainedFile<L.AuditEvent>,
                 clocked: bool)
      requires (events as object) != audits && events.Valid() && audits.Valid()
      requires events.Synced() && audits.Synced() && events.rows == [] && audits.rows == []
      ensures Valid() && Memory() == EMPTY && this.clocked == clocked
      ensures this.events == events && this.audits == audits
      ensures events.Linked() && audits.Linked() ==> Linked()
    {
      this.sha256 := sha256;
      this.events, this.audits, this.clocked := events, audits, clocked;
      proposals, nextOrdinal, nextAuditOrdinal := map[], 0, 0;
    }

    /** Reopens the store over its files, with or without a clock; memory and tips are rebuilt from disk. */
    method Open(clocked: bool) returns (ok: bool)
      requires (events as object) != audits && events.Valid() && audits.Valid()
      modifies this, events`tip, audits`tip
      ensures this.clocked == clocked && events.Synced() && audits.Synced()
      ensures ok == Replay(events.rows).Some?
      ensures ok ==> Memory() == Replay(events.rows).value && nextAuditOrdinal == |audits.rows|
      ensures old(Valid()) ==> ok && Valid() && Memory() == old(Memory())
    {
      this.clocked := clocked;
      events.Open();
      audits.Open();
      nextAuditOrdinal := |audits.rows|;
      ok := LoadEvents();
    }

    method LoadEvents() returns (ok: bool)
      modifies `proposals, `nextOrdinal
      ensures ok == Replay(events.rows).Some?
      ensures ok ==> Memory() == Replay(events.rows).value
    {
      proposals, nextOrdinal := map[], 0;
      var rows := events.rows;
      var i := 0;
      assert rows[..0] == [];
      while i < |rows|
        invariant 0 <= i <= |rows| && rows == events.rows
        invariant Replay(rows[..i]) == Some(Memory())
      {
        assert rows[..i + 1] == rows[..i] + [rows[i]];
        ReplaySnoc(rows[..i], rows[i]);
        nextOrdinal := nextOrdinal + 1;
        match rows[i].event {
          case Created(p) =>
            proposals := proposals[p.id := p];
          case Decided(actor, ordinal, _, id, status) =>
            if id !in proposals {
              L.ReplayStaysCorrupt(ApplyRow, EMPTY, rows, i + 1);
              return false;
            }
            proposals := proposals[id := proposals[id].(status := status, decidedOrdinal := Some(ordinal),
                                                        decidedBy := Some(actor))];
          case Materialized(id, _) =>
            if id !in proposals {
              L.ReplayStaysCorrupt(ApplyRow, EMPTY, rows, i + 1);
              return false;
            }
            proposals := proposals[id := proposals[id].(materialized := true)];
        }
        i := i + 1;
      }
      assert rows[..i] == rows;
      return true;
    }

    method AppendEvent(e: Event, now: string)
      requires events.Valid() && (clocked ==> events.Synced()) && Replay(events.rows).Some?
      modifies events`rows, events`tip
      ensures events.Valid() && (clocked ==> events.Synced()) && (old(events.Linked()) ==> events.Linked())
      ensures Appended(old(events.rows), old(EventTip()), events.rows, Some(e), clocked, now)
      ensures Replay(events.rows) == Apply(old(Replay(events.rows)).value, e)
    {
      events.Append(e, if clocked then Some(now) else None);
      ReplaySnoc(old(events.rows), events.rows[|old(events.rows)|]);
    }

    method Create(d: Draft, now: string) returns (reply: Result<Proposal, StoreError>)
      requires Valid()
      modifies this`proposals, this`nextOrdinal, events`rows, events`tip
      ensures Valid() && (old(Linked()) ==> Linked())
      ensures var f := CreateEffect(old(Memory()), ProposalId(sha256, d, Decimal(old(nextOrdinal))), d);
              && Memory() == f.state && reply == f.reply
              && Appended(old(events.rows), old(EventTip()), events.rows, f.appended, clocked, now)
      // The new proposal is the draft, pending; it is refused exactly when its id is taken.
      ensures reply.Ok? <==> ProposalId(sha256, d, Decimal(|old(events.rows)|)) !in old(proposals)
      ensures reply.Ok? ==>
                && reply.value == Proposal(ProposalId(sha256, d, Decimal(|old(events.rows)|)), d, Pending,
                                           |old(events.rows)|, None, None, false)
                && proposals == old(proposals)[reply.value.id := reply.value]
                && |events.rows| == |old(events.rows)| + 1
                && events.rows[|old(events.rows)|].event == Created(reply.value)
      ensures reply.Err? ==> proposals == old(proposals) && events.rows == old(events.rows)
    {
      var id := ProposalId(sha256, d, Decimal(nextOrdinal));
      if id in proposals {
        return Err(IdCollision);
      }
      var p := Proposal(id, d, Pending, nextOrdinal, None, None, false);
      AppendEvent(Created(p), now);
      nextOrdinal := nextOrdinal + 1;
      proposals := proposals[id := p];
      return Ok(p);
    }

    method Decide(id: string, status: Status, actor: string, snapshot: string, now: string)
      returns (reply: Result<Result<Proposal, DecideError>, StoreError>)
      requires Valid()
      modifies this`proposals, this`nextOrdinal, events`rows, events`tip
      ensures Valid() && (old(Linked()) ==> Linked())
      ensures var f := DecideEffect(old(Memory()), id, status, actor, snapshot);
              && Memory() == f.state && reply == f.reply
              && Appended(old(events.rows), old(EventTip()), events.rows, f.appended, clocked, now)
      // Decided exactly when the status is an outcome and the proposal is pending under its own snapshot.
      ensures reply.Ok? && reply.value.Ok? <==>
                && (status == Approved || status == Denied) && id in old(proposals)
                && old(proposals)[id].draft.snapshot == snapshot && old(proposals)[id].status == Pending
      ensures reply.Ok? && reply.value.Ok? ==>
                && id in proposals && reply.value.value == proposals[id]
                && proposals == old(proposals)[id := old(proposals)[id].(
                     status := status, decidedOrdinal := Some(|old(events.rows)|), decidedBy := Some(actor))]
      ensures reply == Ok(Err(NotFound)) <==> (status == Approved || status == Denied) && id !in old(proposals)
      ensures reply == Ok(Err(Stale)) <==>
                (status == Approved || status == Denied) && id in old(proposals)
                && old(proposals)[id].draft.snapshot != snapshot
      ensures !(reply.Ok? && reply.value.Ok?) ==> proposals == old(proposals) && events.rows == old(events.rows)
    {
      if status != Approved && status != Denied {
        return Err(InvalidStatus);
      }
      if id !in proposals {
        return Ok(Err(NotFound));
      }
      if proposals[id].draft.snapshot != snapshot {
        return Ok(Err(Stale));
      }
      if proposals[id].status != Pending {
        return Ok(Err(AlreadyDecided));
      }
      var decidedOrdinal := nextOrdinal;
      AppendEvent(Decided(actor, decidedOrdinal, status, id, status), now);
      nextOrdinal := nextOrdinal + 1;
      proposals := proposals[id := proposals[id].(status := status, decidedOrdinal := Some(decidedOrdinal),
                                                  decidedBy := Some(actor))];
      return Ok(Ok(proposals[id]));
    }

    method Materialize(id: string, now: string) returns (reply: Option<Proposal>)
      requires Valid()
      modifies this`proposals, this`nextOrdinal, events`rows, events`tip
      ensures Valid() && (old(Linked()) ==> Linked())
      ensures var f := MaterializeEffect(old(Memory()), id);
              && Memory() == f.state && reply == f.reply
              && Appended(old(events.rows), old(EventTip()), events.rows, f.appended, clocked, now)
      // One row exactly for an approved proposal not yet materialized; any known proposal is handed back.
      ensures id !in old(proposals) <==> reply.None?
      ensures reply.Some? ==> id in proposals && reply.value == proposals[id]
      ensures if id in old(proposals) && old(proposals)[id].status == Approved && !old(proposals)[id].materialized then
                && proposals == old(proposals)[id := old(proposals)[id].(materialized := true)]
                && |events.rows| == |old(events.rows)| + 1
              else proposals == old(proposals) && events.rows == old(events.rows)
    {
      if id !in proposals {
        return None;
      }
      if proposals[id].status != Approved || proposals[id].materialized {
        return Some(proposals[id]);
      }
      var ordinal := nextOrdinal;
      AppendEvent(Event.Materialized(id, ordinal), now);
      nextOrdinal := nextOrdinal + 1;
      proposals := proposals[id := proposals[id].(materialized := true)];
      return Some(proposals[id]);
    }

    method Audit(action: string, actor: string, target: string, outcome: string, now: string) returns (ordinal: nat)
      requires Valid()
      modifies this`nextAuditOrdinal, audits`rows, audits`tip
      ensures Valid() && (old(Linked()) ==> Linked())
      ensures ordinal == old(nextAuditOrdinal) == |old(audits.rows)|
      ensures |audits.rows| == ordinal + 1 && audits.rows[..ordinal] == old(audits.rows)
      ensures audits.rows[ordinal].event == L.AuditEvent(action, actor, ordinal, outcome, target)
    {
      ordinal := nextAuditOrdinal;
      audits.Append(L.AuditEvent(action, actor, ordinal, outcome, target), if clocked then Some(now) else None);
      nextAuditOrdinal := nextAuditOrdinal + 1;
    }

    /** The overlay's source: each approved, materialized proposal of the capability and snapshot once, oldest first. */
    method ApprovedFor(capability: string, snapshot: string) returns (out: seq<Proposal>)
      ensures forall p :: p in out <==> ShownIn(proposals, p, capability, snapshot)
      ensures |out| == |ShownIds(proposals, capability, snapshot)|
      ensures forall i, j :: 0 <= i < j < |out| ==> out[i].createdOrdinal <= out[j].createdOrdinal
    {
      out := CollectShown(proposals, capability, snapshot);
      SortKeeps(OlderFirst, out);
      SortSorted(OlderFirst, out);
      out := Sort(OlderFirst, out);
    }
  }

  /** The filter over the map's values, in whatever order the map yields them. */
  method CollectShown(all: map<string, Proposal>, capability: string, snapshot: string) returns (out: seq<Proposal>)
    ensures forall p :: p in out <==> ShownIn(all, p, capability, snapshot)
    ensures |out| == |ShownIds(all, capability, snapshot)|
  {
    out := [];
    var left := all.Keys;
    ghost var shown: set<string> := {};
    while left != {}
      invariant left <= all.Keys
      invariant forall id :: id in shown <==> id in all && id !in left && Shown(all[id], capability, snapshot)
      invariant forall p :: p in out <==> exists id :: id in shown && all[id] == p
      invariant |out| == |shown|
      decreases left
    {
      var id :| id in left;
      left := left - {id};
      if Shown(all[id], capability, snapshot) {
        shown := shown + {id};
        out := out + [all[id]];
      }
    }
    assert shown == ShownIds(all, capability, snapshot);
  }

  ghost predicate ShownIn(proposals: map<string, Proposal>, p: Proposal, capability: string, snapshot: string) {
    && p.status == Approved && p.materialized && p.draft.capability == capability && p.draft.snapshot == snapshot
    && exists id :: id in proposals && proposals[id] == p
  }

  ghost function ShownIds(proposals: map<string, Proposal>, capability: string, snapshot: string): set<string> {
    set id | id in proposals && proposals[id].status == Approved && proposals[id].materialized
             && proposals[id].draft.capability == capability && proposals[id].draft.snapshot == snapshot
  }

  predicate Shown(p: Proposal, capability: string, snapshot: string) {
    p.draft.capability == capability && p.draft.snapshot == snapshot && p.status == Approved && p.materialized
  }

  predicate OlderFirst(p: Proposal, q: Proposal) {
    p.createdOrdinal <= q.createdOrdinal
  }

  function StampedRow<E>(e: E, clocked: bool, now: string, tip: string): Row<E> {
    Row(e, if clocked then Some(Stamp(now, tip)) else None)
  }

  /** The file after an operation: unchanged, or one row longer, linked to the row before when clocked. */
  ghost predicate Appended(before: seq<Row<Event>>, tip: string, after: seq<Row<Event>>, e: Option<Event>,
                           clocked: bool, now: string)
  {
    after == before + if e.None? then [] else [StampedRow(e.value, clocked, now, tip)]
  }
}
