/**
 * Whole runs of the proposal store: sessions with and without a clock in any order, closes,
 * reopens and crashes anywhere, and any ids the hash may produce.
 */
module ProposalRuns {
  import opened Basics
  import opened HashChain
  import P = Proposals
  import L = Ledger

  /** The hash, and the encodings of the rows of the two files. */
  datatype Codec = Codec(sha256: Bytes -> string, event: Row<P.Event> -> Bytes, audit: Row<L.AuditEvent> -> Bytes)

  datatype Sys = Sys(memory: P.State, rows: seq<Row<P.Event>>, tip: string, audits: seq<Row<L.AuditEvent>>,
                     auditTip: string, nextAudit: nat, clocked: bool)

  datatype Op =
    | Create(id: string, draft: P.Draft, now: string)
    | Decide(proposalId: string, status: P.Status, actor: string, current: string, now: string)
    | Materialize(proposalId: string, now: string)
    | Audit(action: string, actor: string, outcome: string, about: string, now: string)
    | Reopen(clocked: bool)
    | Crash(interrupted: Op, clocked: bool)  // the row reached the file; the store was reopened in some mode

  function Start(h: Codec, clocked: bool): Sys {
    Sys(P.EMPTY, [], h.sha256([]), [], h.sha256([]), 0, clocked)
  }

  function Write(h: Codec, s: Sys, memory: P.State, e: Option<P.Event>, now: string): Sys {
    if e.None? then s.(memory := memory)
    else
      var r := P.StampedRow(e.value, s.clocked, now, s.tip);
      s.(memory := memory, rows := s.rows + [r], tip := if s.clocked then h.sha256(h.event(r)) else s.tip)
  }

  function WriteAudit(h: Codec, s: Sys, e: L.AuditEvent, now: string): Sys {
    var r := P.StampedRow(e, s.clocked, now, s.auditTip);
    s.(audits := s.audits + [r], auditTip := if s.clocked then h.sha256(h.audit(r)) else s.auditTip,
       nextAudit := s.nextAudit + 1)
  }

  function Rebuild(h: Codec, s: Sys, clocked: bool): Sys {
    Sys(P.Replay(s.rows).GetOr(s.memory), s.rows, TipOf(h.sha256, h.event, s.rows),
        s.audits, TipOf(h.sha256, h.audit, s.audits), |s.audits|, clocked)
  }

  function Step(h: Codec, s: Sys, op: Op): Sys {
    match op
    case Create(id, draft, now) =>
      var f := P.CreateEffect(s.memory, id, draft);
      Write(h, s, f.state, f.appended, now)
    case Decide(id, status, actor, current, now) =>
      var f := P.DecideEffect(s.memory, id, status, actor, current);
      Write(h, s, f.state, f.appended, now)
    case Materialize(id, now) =>
      var f := P.MaterializeEffect(s.memory, id);
      Write(h, s, f.state, f.appended, now)
    case Audit(action, actor, outcome, about, now) =>
      WriteAudit(h, s, L.AuditEvent(action, actor, s.nextAudit, outcome, about), now)
    case Reopen(clocked) => Rebuild(h, s, clocked)
    case Crash(inner, clocked) =>
      var after := Step(h, s, inner);
      Rebuild(h, s.(rows := after.rows, audits := after.audits), clocked)
  }

  function Attempt(op: Op): Op {
    if op.Crash? then Attempt(op.interrupted) else op
  }

  function Run(h: Codec, s: Sys, ops: seq<Op>): Sys {
    if ops == [] then s
    else Step(h, Run(h, s, ops[..|ops| - 1]), ops[|ops| - 1])
  }

  /** Audit rows carry their line index and link up on their own; a clocked session holds their tip. */
  ghost predicate AuditsInOrder(h: Codec, s: Sys) {
    && s.nextAudit == |s.audits| && (forall i :: 0 <= i < |s.audits| ==> s.audits[i].event.ordinal == i)
    && Chained(h.sha256, h.audit, s.audits)
    && (s.clocked ==> s.auditTip == TipOf(h.sha256, h.audit, s.audits))
  }

  ghost predicate EventsInOrder(h: Codec, s: Sys) {
    && P.Consistent(s.memory, s.rows)
    && Chained(h.sha256, h.event, s.rows)
    && (s.clocked ==> s.tip == TipOf(h.sha256, h.event, s.rows))
  }

  ghost predicate Inv(h: Codec, s: Sys) {
    EventsInOrder(h, s) && AuditsInOrder(h, s)
  }

  lemma EventStep(h: Codec, s: Sys, op: Op)
    requires Inv(h, s) && (op.Create? || op.Decide? || op.Materialize?)
    ensures EventsInOrder(h, Step(h, s, op))
  {
    var t := Step(h, s, op);
    if t.rows != s.rows {
      var r := t.rows[|s.rows|];
      SnocChained(h.sha256, h.event, s.rows, r);
      match op {
        case Create(id, draft, now) => P.CreateConsistent(s.memory, s.rows, id, draft, r);
        case Decide(id, status, actor, current, now) =>
          P.DecideConsistent(s.memory, s.rows, id, status, actor, current, r);
        case Materialize(id, now) => P.MaterializeConsistent(s.memory, s.rows, id, r);
      }
    }
  }

  lemma AuditStep(h: Codec, s: Sys, op: Op)
    requires Inv(h, s) && op.Audit?
    ensures AuditsInOrder(h, Step(h, s, op))
  {
    SnocChained(h.sha256, h.audit, s.audits, Step(h, s, op).audits[|s.audits|]);
  }

  /** An uninterrupted operation keeps both files in order. */
  lemma StepKeeps(h: Codec, s: Sys, op: Op)
    requires Inv(h, s) && !op.Crash?
    ensures Inv(h, Step(h, s, op))
  {
    if op.Audit? {
      AuditStep(h, s, op);
    } else if !op.Reopen? {
      EventStep(h, s, op);
    }
  }

  ghost predicate SameStore(s: Sys, t: Sys) {
    s.memory == t.memory && s.rows == t.rows && s.audits == t.audits && s.nextAudit == t.nextAudit
  }

  /** A crash between the append and the memory update is the whole operation: same memory, same files. */
  lemma {:induction false} CrashIsAtomic(h: Codec, s: Sys, op: Op)
    requires Inv(h, s)
    ensures SameStore(Step(h, s, op), Step(h, s, Attempt(op))) && Inv(h, Step(h, s, op))
    ensures Attempt(op).Reopen? ==> SameStore(Step(h, s, op), s)
    decreases op
  {
    if op.Crash? {
      CrashIsAtomic(h, s, op.interrupted);
    } else {
      StepKeeps(h, s, op);
    }
  }

  /** In every state of every run: replay equals memory, every stamped row links to the bytes before it. */
  lemma {:induction false} RunKeeps(h: Codec, clocked: bool, ops: seq<Op>)
    ensures Inv(h, Run(h, Start(h, clocked), ops))
  {
    if ops != [] {
      RunKeeps(h, clocked, ops[..|ops| - 1]);
      CrashIsAtomic(h, Run(h, Start(h, clocked), ops[..|ops| - 1]), ops[|ops| - 1]);
    }
  }

  predicate AlwaysClocked(op: Op) {
    match op
    case Reopen(clocked) => clocked
    case Crash(inner, clocked) => clocked && AlwaysClocked(inner)
    case _ => true
  }

  /** Runs whose every session has a clock write fully chained files. */
  lemma {:induction false} ClockedRunsFullyChain(h: Codec, ops: seq<Op>)
    requires forall op :: op in ops ==> AlwaysClocked(op)
    ensures var s := Run(h, Start(h, true), ops);
            s.clocked && FullyChained(h.sha256, h.event, s.rows) && FullyChained(h.sha256, h.audit, s.audits)
  {
    RunKeeps(h, true, ops);
    if ops != [] {
      ClockedRunsFullyChain(h, ops[..|ops| - 1]);
      ClockedStep(h, Run(h, Start(h, true), ops[..|ops| - 1]), ops[|ops| - 1]);
    }
  }

  lemma {:induction false} ClockedStep(h: Codec, s: Sys, op: Op)
    requires s.clocked && AlwaysClocked(op)
    ensures var t := Step(h, s, op);
            && t.clocked && s.rows <= t.rows && s.audits <= t.audits
            && (forall i :: |s.rows| <= i < |t.rows| ==> t.rows[i].stamp.Some?)
            && (forall i :: |s.audits| <= i < |t.audits| ==> t.audits[i].stamp.Some?)
    decreases op
  {
    if op.Crash? {
      ClockedStep(h, s, op.interrupted);
    }
  }

  /** Two clocked runs that end on one tip wrote the same file, row for row, unless the hash collided on its lines. */
  lemma OneTipOneHistory(h: Codec, a: seq<Op>, b: seq<Op>, lines: set<Bytes>)
    requires LineEncoding(h.event)
    requires forall op :: op in a || op in b ==> AlwaysClocked(op)
    requires var s, t := Run(h, Start(h, true), a), Run(h, Start(h, true), b);
             && s.tip == t.tip
             && LinesOf(h.event, s.rows) <= lines && LinesOf(h.event, t.rows) <= lines
             && [] in lines && NoCollision(h.sha256, lines)
    ensures var s, t := Run(h, Start(h, true), a), Run(h, Start(h, true), b);
            s.rows == t.rows && s.memory == t.memory
  {
    var s, t := Run(h, Start(h, true), a), Run(h, Start(h, true), b);
    RunKeeps(h, true, a);
    RunKeeps(h, true, b);
    ClockedRunsFullyChain(h, a);
    ClockedRunsFullyChain(h, b);
    EqualTipsEqualChains(h.sha256, h.event, s.rows, t.rows, lines);
  }

  /** Any two runs, older bare rows and all: sessions with a clock that hold one tip vouch for the same rows. */
  lemma OneTipOneTailOverRuns(h: Codec, first: bool, a: seq<Op>, second: bool, b: seq<Op>, lines: set<Bytes>)
    requires LineEncoding(h.event)
    requires var s, t := Run(h, Start(h, first), a), Run(h, Start(h, second), b);
             && s.clocked && t.clocked
             && LinesOf(h.event, s.rows) <= lines && LinesOf(h.event, t.rows) <= lines
             && [] in lines && NoCollision(h.sha256, lines)
    ensures var s, t := Run(h, Start(h, first), a), Run(h, Start(h, second), b);
            s.tip == t.tip <==> VouchedFor(s.rows) == VouchedFor(t.rows)
  {
    RunKeeps(h, first, a);
    RunKeeps(h, second, b);
    OneTipOneTail(h.sha256, h.event, Run(h, Start(h, first), a).rows, Run(h, Start(h, second), b).rows, lines);
  }

  /** The audit files have tips of their own, which vouch for their rows in the same way. */
  lemma AuditTipsVouchToo(h: Codec, first: bool, a: seq<Op>, second: bool, b: seq<Op>, lines: set<Bytes>)
    requires LineEncoding(h.audit)
    requires var s, t := Run(h, Start(h, first), a), Run(h, Start(h, second), b);
             && s.clocked && t.clocked
             && LinesOf(h.audit, s.audits) <= lines && LinesOf(h.audit, t.audits) <= lines
             && [] in lines && NoCollision(h.sha256, lines)
    ensures var s, t := Run(h, Start(h, first), a), Run(h, Start(h, second), b);
            s.auditTip == t.auditTip <==> VouchedFor(s.audits) == VouchedFor(t.audits)
  {
    RunKeeps(h, first, a);
    RunKeeps(h, second, b);
    OneTipOneTail(h.sha256, h.audit, Run(h, Start(h, first), a).audits, Run(h, Start(h, second), b).audits, lines);
  }

  /** Over every run: each proposal is decided at most once, and materialized at most once and only after approval. */
  lemma LifecycleOverRuns(h: Codec, clocked: bool, ops: seq<Op>, i: nat, j: nat)
    ensures var rows := Run(h, Start(h, clocked), ops).rows;
            i < |rows| && j < |rows| ==>
              && (P.Decides(rows, i, j) || P.Materializes(rows, i, j) ==> i == j)
              && (rows[i].event.Materialized? ==>
                    (exists k :: 0 <= k < i && rows[k].event.Decided? && rows[k].event.status == P.Approved
                                 && rows[k].event.proposalId == rows[i].event.proposalId))
  {
    RunKeeps(h, clocked, ops);
    var s := Run(h, Start(h, clocked), ops);
    if i < |s.rows| && j < |s.rows| {
      assert P.LineInMemory(s.rows, i, s.memory) && P.LineInMemory(s.rows, j, s.memory);
      if s.rows[i].event.Materialized? {
        P.MaterializedAfterApproval(s.memory, s.rows, i);
      }
    }
  }
}
