/**
 * The lane's box ledger and the human act that moves a box: check, audit row, change row. The three are
 * separate steps under separate locks, so whole runs interleave them, with crashes and reopens anywhere.
 */
module LaneBoxes {
  import opened Basics

  datatype Status = Active | Blocked | Candidate | Dismissed | Done

  datatype AcceptedBox = AcceptedBox(
    agent: string, boxId: string, capabilityId: string, citations: seq<string>, createdOrdinal: nat,
    principal: string, proposalId: string, snapshot: string, standingQuery: string)

  datatype Event =
    | StatusChanged(boxId: string, ordinal: nat, principal: string, to: Status)
    | Accepted(record: AcceptedBox)

  datatype State = State(statuses: map<string, Status>, accepted: map<string, AcceptedBox>, next: nat)

  const EMPTY := State(map[], map[], 0)

  function Apply(s: State, e: Event): State {
    match e
    case StatusChanged(id, _, _, to) => State(s.statuses[id := to], s.accepted, s.next + 1)
    case Accepted(record) => State(s.statuses, s.accepted[record.boxId := record], s.next + 1)
  }

  function Replay(file: seq<Event>): State {
    if file == [] then EMPTY else Apply(Replay(file[..|file| - 1]), file[|file| - 1])
  }

  lemma ReplaySnoc(file: seq<Event>, e: Event)
    ensures Replay(file + [e]) == Apply(Replay(file), e)
  {
    assert (file + [e])[..|file|] == file;
  }

  // -------------------------------------------------------------------------
  // The transition law
  // -------------------------------------------------------------------------

  predicate TransitionIsLegal(from: Status, to: Status) {
    || (from == Candidate && (to == Active || to == Dismissed))
    || (from == Active && to == Done)
  }

  function EffectiveStatus(blocked: bool, stored: Option<Status>): Status {
    if blocked then Blocked else stored.GetOr(Candidate)
  }

  function Stored(s: State, box: string): Option<Status> {
    if box in s.statuses then Some(s.statuses[box]) else None
  }

  function ChangeOf(box: string): Event -> Option<Status> {
    (e: Event) => if e.StatusChanged? && e.boxId == box then Some(e.to) else None
  }

  /** The statuses a file ever gave a box, in order. */
  function History(file: seq<Event>, box: string): seq<Status> {
    Collect(ChangeOf(box), file)
  }

  /** The status a box has before change `i` of its history; a box starts as a candidate. */
  function Before(h: seq<Status>, i: nat): Status
    requires i <= |h|
  {
    if i == 0 then Candidate else h[i - 1]
  }

  predicate LegalAt(h: seq<Status>, i: nat)
    requires i < |h|
  {
    TransitionIsLegal(Before(h, i), h[i])
  }

  ghost predicate LegalPath(h: seq<Status>) {
    forall i :: 0 <= i < |h| ==> LegalAt(h, i)
  }

  /** Untouched, started, started and finished, or set aside. */
  predicate FourLives(h: seq<Status>) {
    h == [] || h == [Active] || h == [Active, Done] || h == [Dismissed]
  }

  lemma LegalPathsAreFour(h: seq<Status>)
    ensures LegalPath(h) <==> FourLives(h)
  {
    if LegalPath(h) && |h| > 0 {
      assert LegalAt(h, 0);
      assert |h| > 1 ==> LegalAt(h, 1);
      assert |h| > 2 ==> LegalAt(h, 2);
      assert h == [h[0]] || h == [h[0], h[1]];
    }
  }

  ghost predicate AllLegal(file: seq<Event>) {
    forall box :: LegalPath(History(file, box))
  }

  lemma {:induction false} StoredIsLast(file: seq<Event>, box: string)
    ensures var h := History(file, box);
            Stored(Replay(file), box) == if h == [] then None else Some(h[|h| - 1])
  {
    if file != [] {
      StoredIsLast(file[..|file| - 1], box);
    }
  }

  lemma LegalPathSnoc(h: seq<Status>, to: Status)
    ensures LegalPath(h + [to]) <==> LegalPath(h) && TransitionIsLegal(Before(h, |h|), to)
  {
    var h' := h + [to];
    assert Before(h', |h|) == Before(h, |h|);
    if LegalPath(h') {
      assert LegalAt(h', |h|);
      forall i | 0 <= i < |h|
        ensures LegalAt(h, i)
      {
        assert LegalAt(h', i);
      }
    }
    if LegalPath(h) && TransitionIsLegal(Before(h, |h|), to) {
      forall i | 0 <= i < |h'|
        ensures LegalAt(h', i)
      {
        assert i < |h| ==> LegalAt(h, i);
      }
    }
  }

  /** A row keeps every box lawful exactly when it moves its box legally from the replayed status. */
  lemma AllLegalSnoc(file: seq<Event>, e: Event)
    ensures AllLegal(file + [e])
       <==> AllLegal(file)
            && (e.StatusChanged? ==> TransitionIsLegal(Stored(Replay(file), e.boxId).GetOr(Candidate), e.to))
  {
    forall box
      ensures History(file + [e], box)
           == if e.StatusChanged? && e.boxId == box then History(file, box) + [e.to] else History(file, box)
    {
      CollectSnoc(ChangeOf(box), file, e);
    }
    if e.StatusChanged? {
      StoredIsLast(file, e.boxId);
      LegalPathSnoc(History(file, e.boxId), e.to);
      assert LegalPath(History(file + [e], e.boxId)) <==> LegalPath(History(file, e.boxId) + [e.to]);
    }
    if AllLegal(file + [e]) {
      forall box
        ensures LegalPath(History(file, box))
      {
        assert LegalPath(History(file + [e], box));
      }
    }
  }

  // -------------------------------------------------------------------------
  // The check before a change
  // -------------------------------------------------------------------------

  datatype Seed = Seed(boxId: string, blocked: bool)

  datatype EntryFact = EntryFact(documentId: string, superseded: bool, successor: Option<string>)

  /** What the derivation and the verified artifacts say now; it may differ from one call to the next. */
  datatype World = World(hasGraph: bool, hasStores: bool, seeds: map<string, seq<Seed>>,
                         entries: map<string, seq<EntryFact>>)

  function FindSeed(seeds: seq<Seed>, box: string): Option<Seed> {
    if seeds == [] then None else if seeds[0].boxId == box then Some(seeds[0]) else FindSeed(seeds[1..], box)
  }

  function FindEntry(entries: seq<EntryFact>, id: string): Option<EntryFact> {
    if entries == [] then None
    else if entries[0].documentId == id then Some(entries[0]) else FindEntry(entries[1..], id)
  }

  predicate InScope(entries: seq<EntryFact>, id: string) {
    exists i :: 0 <= i < |entries| && entries[i].documentId == id
  }

  /** A citation whose procedure was withdrawn and whose successor the actor cannot see. */
  predicate Withdrawn(entries: seq<EntryFact>, id: string) {
    var e := FindEntry(entries, id);
    e.Some? && e.value.superseded && !(e.value.successor.Some? && InScope(entries, e.value.successor.value))
  }

  /** Whether the actor's own box is blocked; None when they have no such box. */
  function OwnBox(s: State, w: World, actor: string, box: string): Option<bool> {
    var seed := FindSeed(if actor in w.seeds then w.seeds[actor] else [], box);
    if seed.Some? then Some(seed.value.blocked)
    else if box in s.accepted && s.accepted[box].principal == actor then
      var entries := if actor in w.entries then w.entries[actor] else [];
      Some(exists d :: d in s.accepted[box].citations && Withdrawn(entries, d))
    else None
  }

  datatype Outcome = Applied | NotFound | NotSettable | NoAuditStore | BoxBlocked | IllegalTransition

  function CheckChange(s: State, w: World, actor: string, box: string, to: Status): Outcome {
    if !w.hasGraph then NotFound
    else if to !in {Active, Done, Dismissed} then NotSettable
    else if !w.hasStores then NoAuditStore
    else
      match OwnBox(s, w, actor, box)
      case None => NotFound
      case Some(blocked) =>
        if blocked then BoxBlocked
        else if !TransitionIsLegal(EffectiveStatus(false, Stored(s, box)), to) then IllegalTransition
        else Applied
  }

  // -------------------------------------------------------------------------
  // Interleaved calls
  // -------------------------------------------------------------------------

  /** What a call to change a status asks for, and what its audit row and its change row both say. */
  datatype Change = Change(actor: string, box: string, to: Status)

  datatype AuditRow = BoxStatus(change: Change) | OtherRow(text: string)

  /** A call between its check and its change row. `from` is the status its check read. */
  datatype Ticket = Ticket(change: Change, from: Status, audited: bool)

  datatype Lane = Lane(boxes: State, file: seq<Event>, audit: seq<AuditRow>, tickets: map<nat, Ticket>)

  const START := Lane(EMPTY, [], [], map[])

  datatype Op =
    | Check(call: nat, world: World, change: Change)
    | WriteAudit(call: nat)
    | Record(call: nat)
    | Abandon(call: nat)
    | Accept(record: AcceptedBox)
    | OtherAudit(text: string)
    | Crash(interrupted: Op)
    | Reopen

  function Append(l: Lane, e: Event): Lane {
    l.(boxes := Apply(l.boxes, e), file := l.file + [e])
  }

  function Step(l: Lane, op: Op): Lane {
    match op
    case Check(call, w, c) =>
      if call in l.tickets || CheckChange(l.boxes, w, c.actor, c.box, c.to) != Applied then l
      else l.(tickets := l.tickets[call := Ticket(c, Stored(l.boxes, c.box).GetOr(Candidate), false)])
    case WriteAudit(call) =>
      if call !in l.tickets || l.tickets[call].audited then l
      else l.(audit := l.audit + [BoxStatus(l.tickets[call].change)],
              tickets := l.tickets[call := l.tickets[call].(audited := true)])
    case Record(call) =>
      if call !in l.tickets || !l.tickets[call].audited then l
      else
        var c := l.tickets[call].change;
        Append(l, StatusChanged(c.box, l.boxes.next, c.actor, c.to)).(tickets := l.tickets - {call})
    case Abandon(call) => l.(tickets := l.tickets - {call})
    case Accept(record) => Append(l, Accepted(record.(createdOrdinal := l.boxes.next)))
    case OtherAudit(text) => l.(audit := l.audit + [OtherRow(text)])
    case Crash(inner) =>
      var after := Step(l, inner);
      Lane(Replay(after.file), after.file, after.audit, map[])
    case Reopen => Lane(Replay(l.file), l.file, l.audit, map[])
  }

  function Attempt(op: Op): Op {
    if op.Crash? then Attempt(op.interrupted) else op
  }

  ghost predicate StepAt(states: seq<Lane>, ops: seq<Op>, i: nat)
    requires i < |ops| && |states| == |ops| + 1
  {
    states[i + 1] == Step(states[i], ops[i])
  }

  ghost predicate Run(states: seq<Lane>, ops: seq<Op>) {
    && |states| == |ops| + 1 && states[0] == START
    && forall i :: 0 <= i < |ops| ==> StepAt(states, ops, i)
  }

  // -------------------------------------------------------------------------
  // Invariants
  // -------------------------------------------------------------------------

  function OrdinalOf(e: Event): nat {
    match e
    case StatusChanged(_, ordinal, _, _) => ordinal
    case Accepted(record) => record.createdOrdinal
  }

  /** The memory is the replay of the file and every row's ordinal is its line index. */
  ghost predicate OnFile(l: Lane) {
    && l.boxes == Replay(l.file) && l.boxes.next == |l.file|
    && forall i :: 0 <= i < |l.file| ==> OrdinalOf(l.file[i]) == i
  }

  ghost predicate TicketsChecked(l: Lane) {
    forall call :: call in l.tickets ==> TransitionIsLegal(l.tickets[call].from, l.tickets[call].change.to)
  }

  function Changes(file: seq<Event>, c: Change): nat {
    if file == [] then 0
    else
      var e := file[|file| - 1];
      Changes(file[..|file| - 1], c)
      + if e.StatusChanged? && Change(e.principal, e.boxId, e.to) == c then 1 else 0
  }

  function Audits(audit: seq<AuditRow>, c: Change): nat {
    if audit == [] then 0
    else Audits(audit[..|audit| - 1], c) + if audit[|audit| - 1] == BoxStatus(c) then 1 else 0
  }

  ghost function Awaiting(tickets: map<nat, Ticket>, c: Change): set<nat> {
    set call | call in tickets && tickets[call].audited && tickets[call].change == c
  }

  /** Audit rows cover the change rows written and those about to be. */
  ghost predicate Covered(l: Lane) {
    forall c :: Changes(l.file, c) + |Awaiting(l.tickets, c)| <= Audits(l.audit, c)
  }

  lemma AppendOnFile(l: Lane, e: Event)
    requires OnFile(l) && OrdinalOf(e) == l.boxes.next
    ensures OnFile(Append(l, e))
  {
    ReplaySnoc(l.file, e);
  }

  lemma {:induction false} StepOnFile(l: Lane, op: Op)
    requires OnFile(l)
    ensures OnFile(Step(l, op))
    decreases op
  {
    match op
    case Record(call) =>
      if call in l.tickets {
        var c := l.tickets[call].change;
        AppendOnFile(l, StatusChanged(c.box, l.boxes.next, c.actor, c.to));
      }
    case Accept(record) => AppendOnFile(l, Accepted(record.(createdOrdinal := l.boxes.next)));
    case Crash(inner) => StepOnFile(l, inner);
    case _ =>
  }

  /** A crash is the interrupted operation followed by losing the calls in flight. */
  lemma CrashIsAtomic(l: Lane, op: Op)
    requires OnFile(l) && op.Crash?
    ensures Step(l, op) == Step(l, Attempt(op)).(tickets := map[])
    decreases op
  {
    StepOnFile(l, Attempt(op));
    if op.interrupted.Crash? {
      CrashIsAtomic(l, op.interrupted);
    }
  }

  lemma AwaitingWithout(tickets: map<nat, Ticket>, call: nat, c: Change)
    ensures Awaiting(tickets - {call}, c) == Awaiting(tickets, c) - {call}
    ensures call in tickets && tickets[call].audited && tickets[call].change == c ==>
              |Awaiting(tickets - {call}, c)| == |Awaiting(tickets, c)| - 1
    ensures |Awaiting(tickets - {call}, c)| <= |Awaiting(tickets, c)|
  {
    assert Awaiting(tickets - {call}, c) == Awaiting(tickets, c) - {call};
  }

  lemma AuditKeepsCovered(l: Lane, call: nat)
    requires Covered(l)
    ensures Covered(Step(l, WriteAudit(call)))
  {
    var t := Step(l, WriteAudit(call));
    forall c
      ensures Changes(t.file, c) + |Awaiting(t.tickets, c)| <= Audits(t.audit, c)
    {
      assert Changes(l.file, c) + |Awaiting(l.tickets, c)| <= Audits(l.audit, c);
      if t != l {
        assert t.audit[..|l.audit|] == l.audit;
        if l.tickets[call].change == c {
          assert Awaiting(t.tickets, c) == Awaiting(l.tickets, c) + {call};
        } else {
          assert Awaiting(t.tickets, c) == Awaiting(l.tickets, c);
        }
      }
    }
  }

  lemma RecordKeepsCovered(l: Lane, call: nat)
    requires Covered(l)
    ensures Covered(Step(l, Record(call)))
  {
    var t := Step(l, Record(call));
    forall c
      ensures Changes(t.file, c) + |Awaiting(t.tickets, c)| <= Audits(t.audit, c)
    {
      assert Changes(l.file, c) + |Awaiting(l.tickets, c)| <= Audits(l.audit, c);
      if t != l {
        AwaitingWithout(l.tickets, call, c);
        assert t.file[..|l.file|] == l.file;
      }
    }
  }

  lemma {:induction false} StepKeepsCovered(l: Lane, op: Op)
    requires Covered(l)
    ensures Covered(Step(l, op))
    decreases op
  {
    match op
    case WriteAudit(call) => AuditKeepsCovered(l, call);
    case Record(call) => RecordKeepsCovered(l, call);
    case Crash(inner) =>
      StepKeepsCovered(l, inner);
      DroppingKeepsCovered(Step(l, inner), Step(l, op));
    case Reopen => DroppingKeepsCovered(l, Step(l, op));
    case _ => OthersKeepCovered(l, op);
  }

  lemma DroppingKeepsCovered(l: Lane, t: Lane)
    requires Covered(l) && t.file == l.file && t.audit == l.audit && t.tickets == map[]
    ensures Covered(t)
  {
    forall c
      ensures Changes(t.file, c) + |Awaiting(t.tickets, c)| <= Audits(t.audit, c)
    {
      assert Changes(l.file, c) + |Awaiting(l.tickets, c)| <= Audits(l.audit, c);
      assert Awaiting(t.tickets, c) == {};
    }
  }

  lemma OthersKeepCovered(l: Lane, op: Op)
    requires Covered(l) && (op.Check? || op.Abandon? || op.Accept? || op.OtherAudit?)
    ensures Covered(Step(l, op))
  {
    var t := Step(l, op);
    forall c
      ensures Changes(t.file, c) + |Awaiting(t.tickets, c)| <= Audits(t.audit, c)
    {
      assert Changes(l.file, c) + |Awaiting(l.tickets, c)| <= Audits(l.audit, c);
      match op
      case Check(call, w, change) => assert Awaiting(t.tickets, c) == Awaiting(l.tickets, c);
      case Abandon(call) => AwaitingWithout(l.tickets, call, c);
      case Accept(record) => assert t.file[..|l.file|] == l.file;
      case OtherAudit(text) => assert t.audit[..|l.audit|] == l.audit;
    }
  }

  ghost predicate Inv(l: Lane) {
    OnFile(l) && TicketsChecked(l) && Covered(l)
  }

  lemma StepKeepsInv(l: Lane, op: Op)
    requires Inv(l)
    ensures Inv(Step(l, op))
  {
    StepOnFile(l, op);
    StepKeepsCovered(l, op);
  }

  lemma LastStep(states: seq<Lane>, ops: seq<Op>, i: nat)
    requires Run(states, ops) && 0 < i <= |ops|
    ensures states[i] == Step(states[i - 1], ops[i - 1])
  {
    assert StepAt(states, ops, i - 1);
  }

  lemma {:induction false} RunKeepsInv(states: seq<Lane>, ops: seq<Op>, i: nat)
    requires Run(states, ops) && i <= |ops|
    ensures Inv(states[i])
  {
    if i > 0 {
      RunKeepsInv(states, ops, i - 1);
      StepKeepsInv(states[i - 1], ops[i - 1]);
      LastStep(states, ops, i);
    }
  }

  // -------------------------------------------------------------------------
  // The results over whole runs
  // -------------------------------------------------------------------------

  /** Re-reading the file gives the live memory at every point, and rows are numbered by their lines. */
  lemma ReplayIsTheLiveState(states: seq<Lane>, ops: seq<Op>, i: nat)
    requires Run(states, ops) && i <= |ops|
    ensures states[i].boxes == Replay(states[i].file) && states[i].boxes.next == |states[i].file|
    ensures forall n :: 0 <= n < |states[i].file| ==> OrdinalOf(states[i].file[n]) == n
  {
    RunKeepsInv(states, ops, i);
  }

  /** Audit before effect: at no point do a person's changes of a box outnumber their audit rows for it. */
  lemma AuditedFirst(states: seq<Lane>, ops: seq<Op>, i: nat, c: Change)
    requires Run(states, ops) && i <= |ops|
    ensures Changes(states[i].file, c) <= Audits(states[i].audit, c)
  {
    RunKeepsInv(states, ops, i);
  }

  /** A step that writes a change row finds its box at the status its check had read. */
  ghost predicate Undisturbed(l: Lane, op: Op) {
    var attempt := Attempt(op);
    attempt.Record? && attempt.call in l.tickets && l.tickets[attempt.call].audited ==>
      Stored(l.boxes, l.tickets[attempt.call].change.box).GetOr(Candidate) == l.tickets[attempt.call].from
  }

  /** One step keeps the law exactly when it is undisturbed: each target status has one legal origin. */
  lemma StepKeepsLaw(l: Lane, op: Op)
    requires Inv(l)
    ensures AllLegal(Step(l, op).file) <==> AllLegal(l.file) && Undisturbed(l, op)
  {
    var attempt := Attempt(op);
    if op.Crash? {
      CrashIsAtomic(l, op);
    }
    assert Step(l, op).file == Step(l, attempt).file;
    if attempt.Record? && attempt.call in l.tickets && l.tickets[attempt.call].audited {
      var t := l.tickets[attempt.call];
      AllLegalSnoc(l.file, StatusChanged(t.change.box, l.boxes.next, t.change.actor, t.change.to));
    } else if attempt.Accept? {
      AllLegalSnoc(l.file, Accepted(attempt.record.(createdOrdinal := l.boxes.next)));
    }
  }

  /**
   * Boxes only ever go candidate to active to done, or candidate to dismissed, exactly in the runs whose
   * change rows all find their box as their check left it.
   */
  lemma {:induction false} LawfulIffUndisturbed(states: seq<Lane>, ops: seq<Op>, n: nat)
    requires Run(states, ops) && n <= |ops|
    ensures AllLegal(states[n].file) <==> forall i :: 0 <= i < n ==> Undisturbed(states[i], ops[i])
  {
    if n > 0 {
      LawfulIffUndisturbed(states, ops, n - 1);
      RunKeepsInv(states, ops, n - 1);
      StepKeepsLaw(states[n - 1], ops[n - 1]);
      LastStep(states, ops, n);
    }
  }

  // -------------------------------------------------------------------------
  // The law, read off the schedule of the calls
  // -------------------------------------------------------------------------

  /** The status a lane shows for a box. */
  function At(l: Lane, box: string): Status {
    Stored(l.boxes, box).GetOr(Candidate)
  }

  /** A step of this call writes its change row. */
  ghost predicate Records(l: Lane, op: Op, call: nat) {
    Attempt(op) == Op.Record(call) && call in l.tickets && l.tickets[call].audited
  }

  /** A step writes a change row of this box. */
  ghost predicate WritesRow(l: Lane, op: Op, box: string) {
    exists call :: Records(l, op, call) && l.tickets[call].change.box == box
  }

  ghost predicate Holds(states: seq<Lane>, m: nat, call: nat)
    requires m < |states|
  {
    call in states[m].tickets
  }

  /** A call passed its check at step `i` and was in flight from then up to state `k`. */
  ghost predicate InFlight(states: seq<Lane>, i: nat, k: nat, call: nat)
    requires k < |states|
  {
    i < k && !Holds(states, i, call) && forall m :: i < m <= k ==> Holds(states, m, call)
  }

  /** Step `k` writes the change row of a call that was checked at step `i`; step `j` between wrote its box. */
  ghost predicate Overtaken(states: seq<Lane>, ops: seq<Op>, i: nat, j: nat, k: nat, call: nat)
    requires |states| == |ops| + 1 && k < |ops|
  {
    && i < j < k && InFlight(states, i, k, call) && Records(states[k], ops[k], call)
    && WritesRow(states[j], ops[j], states[k].tickets[call].change.box)
  }

  /** A step moves a box only by writing a row of it. */
  lemma StepMoves(l: Lane, op: Op, box: string)
    requires Inv(l)
    ensures !WritesRow(l, op, box) ==> At(Step(l, op), box) == At(l, box)
    ensures forall call :: Records(l, op, call) && l.tickets[call].change.box == box ==>
              At(Step(l, op), box) == l.tickets[call].change.to
  {
    if op.Crash? {
      CrashIsAtomic(l, op);
    }
    var attempt := Attempt(op);
    if attempt.Record? && Records(l, op, attempt.call) && l.tickets[attempt.call].change.box == box {
      assert WritesRow(l, op, box);
    }
  }

  /** A ticket keeps what its check put on it. */
  lemma TicketStays(l: Lane, op: Op, call: nat)
    requires OnFile(l) && call in Step(l, op).tickets
    ensures var t := Step(l, op).tickets[call];
            if call in l.tickets then t.change == l.tickets[call].change && t.from == l.tickets[call].from
            else t.from == At(l, t.change.box) && forall box :: !WritesRow(l, op, box)
  {
  }

  /** Every call in flight was checked at some step, and its ticket says what the box's status was there. */
  lemma {:induction false} CheckOf(states: seq<Lane>, ops: seq<Op>, k: nat, call: nat) returns (i: nat)
    requires Run(states, ops) && k <= |ops| && call in states[k].tickets
    ensures InFlight(states, i, k, call)
    ensures states[k].tickets[call].from == At(states[i], states[k].tickets[call].change.box)
    ensures forall box :: !WritesRow(states[i], ops[i], box)
  {
    RunKeepsInv(states, ops, k - 1);
    LastStep(states, ops, k);
    TicketStays(states[k - 1], ops[k - 1], call);
    if call in states[k - 1].tickets {
      i := CheckOf(states, ops, k - 1, call);
    } else {
      i := k - 1;
    }
  }

  lemma UnwrittenStep(states: seq<Lane>, ops: seq<Op>, k: nat, box: string)
    requires Run(states, ops) && 0 < k <= |ops| && !WritesRow(states[k - 1], ops[k - 1], box)
    ensures At(states[k], box) == At(states[k - 1], box)
  {
    RunKeepsInv(states, ops, k - 1);
    LastStep(states, ops, k);
    StepMoves(states[k - 1], ops[k - 1], box);
  }

  /** A box that no step wrote in between is where it was. */
  lemma {:induction false} UnwrittenStays(states: seq<Lane>, ops: seq<Op>, i: nat, k: nat, box: string)
    requires Run(states, ops) && i <= k <= |ops|
    requires forall j :: i <= j < k ==> !WritesRow(states[j], ops[j], box)
    ensures At(states[k], box) == At(states[i], box)
  {
    if i < k {
      UnwrittenStays(states, ops, i, k - 1, box);
      UnwrittenStep(states, ops, k, box);
    }
  }

  /** How far along its life a status is. */
  function Stage(s: Status): nat {
    match s
    case Candidate => 0
    case Active => 1
    case _ => 2
  }

  lemma LawfulStep(states: seq<Lane>, ops: seq<Op>, k: nat, box: string)
    requires Run(states, ops) && 0 < k <= |ops| && Undisturbed(states[k - 1], ops[k - 1])
    ensures Stage(At(states[k - 1], box)) <= Stage(At(states[k], box))
    ensures WritesRow(states[k - 1], ops[k - 1], box) ==> Stage(At(states[k - 1], box)) < Stage(At(states[k], box))
  {
    RunKeepsInv(states, ops, k - 1);
    LastStep(states, ops, k);
    ClimbsOne(states[k - 1], ops[k - 1], box);
  }

  /** While steps are undisturbed, a row moves its box on, and nothing moves a box back. */
  lemma {:induction false} LawfulClimbs(states: seq<Lane>, ops: seq<Op>, i: nat, k: nat, box: string)
    requires Run(states, ops) && i <= k <= |ops| && forall m :: i <= m < k ==> Undisturbed(states[m], ops[m])
    ensures Stage(At(states[i], box)) <= Stage(At(states[k], box))
    ensures (exists j :: i <= j < k && WritesRow(states[j], ops[j], box)) ==>
              Stage(At(states[i], box)) < Stage(At(states[k], box))
  {
    if i < k {
      LawfulClimbs(states, ops, i, k - 1, box);
      LawfulStep(states, ops, k, box);
    }
  }

  lemma ClimbsOne(l: Lane, op: Op, box: string)
    requires Inv(l) && Undisturbed(l, op)
    ensures if WritesRow(l, op, box) then Stage(At(l, box)) < Stage(At(Step(l, op), box))
            else At(Step(l, op), box) == At(l, box)
  {
    StepMoves(l, op, box);
    if WritesRow(l, op, box) {
      var call :| Records(l, op, call) && l.tickets[call].change.box == box;
      assert TransitionIsLegal(l.tickets[call].from, l.tickets[call].change.to);
    }
  }

  ghost predicate SomeOvertaken(states: seq<Lane>, ops: seq<Op>, n: nat)
    requires |states| == |ops| + 1 && n <= |ops|
  {
    exists i: nat, j: nat, k: nat, call: nat :: k < n && Overtaken(states, ops, i, j, k, call)
  }

  lemma DisturbedIsOvertaken(states: seq<Lane>, ops: seq<Op>, k: nat)
    requires Run(states, ops) && k < |ops| && !Undisturbed(states[k], ops[k])
    ensures exists i: nat, j: nat, call: nat :: Overtaken(states, ops, i, j, k, call)
  {
    var call := Attempt(ops[k]).call;
    var box := states[k].tickets[call].change.box;
    var i := CheckOf(states, ops, k, call);
    if forall j :: i <= j < k ==> !WritesRow(states[j], ops[j], box) {
      UnwrittenStays(states, ops, i, k, box);
    }
    var j :| i <= j < k && WritesRow(states[j], ops[j], box);
    assert Overtaken(states, ops, i, j, k, call);
  }

  /** The check of a call in flight is the only one. */
  lemma OneCheck(states: seq<Lane>, i: nat, other: nat, k: nat, call: nat)
    requires k < |states| && InFlight(states, i, k, call) && InFlight(states, other, k, call)
    ensures i == other
  {
  }

  lemma OvertakenIsDisturbed(states: seq<Lane>, ops: seq<Op>, i: nat, j: nat, k: nat, call: nat)
    requires Run(states, ops) && k < |ops| && Overtaken(states, ops, i, j, k, call)
    ensures exists m :: 0 <= m <= k && !Undisturbed(states[m], ops[m])
  {
    var box := states[k].tickets[call].change.box;
    var i' := CheckOf(states, ops, k, call);
    OneCheck(states, i, i', k, call);
    if forall m :: 0 <= m <= k ==> Undisturbed(states[m], ops[m]) {
      assert Undisturbed(states[k], ops[k]);
      LawfulClimbs(states, ops, i, k, box);
    }
  }

  /**
   * The same law by the schedule alone: every box leads a lawful life exactly when no change row of a box was written
   * between the check of a call on it and that call's own change row.
   */
  lemma LawfulIffNotOvertaken(states: seq<Lane>, ops: seq<Op>, n: nat)
    requires Run(states, ops) && n <= |ops|
    ensures AllLegal(states[n].file) <==> !SomeOvertaken(states, ops, n)
  {
    LawfulIffUndisturbed(states, ops, n);
    if k :| 0 <= k < n && !Undisturbed(states[k], ops[k]) {
      DisturbedIsOvertaken(states, ops, k);
    }
    if SomeOvertaken(states, ops, n) {
      var i: nat, j: nat, k: nat, call: nat :| k < n && Overtaken(states, ops, i, j, k, call);
      OvertakenIsDisturbed(states, ops, i, j, k, call);
    }
  }

  /** No call checks a box while another call on the same box is still in flight. */
  ghost predicate OneCallPerBox(states: seq<Lane>, ops: seq<Op>)
    requires |states| == |ops| + 1
  {
    forall i, call :: 0 <= i < |ops| && Attempt(ops[i]).Check? && call in states[i].tickets ==>
      states[i].tickets[call].change.box != Attempt(ops[i]).change.box
  }

  /** Every box in flight is where its only call saw it. */
  ghost predicate Serial(l: Lane) {
    && (forall call :: call in l.tickets ==>
          Stored(l.boxes, l.tickets[call].change.box).GetOr(Candidate) == l.tickets[call].from)
    && (forall c, d :: c in l.tickets && d in l.tickets && c != d ==>
          l.tickets[c].change.box != l.tickets[d].change.box)
  }

  lemma SerialStep(l: Lane, op: Op)
    requires Inv(l) && Serial(l)
    requires Attempt(op).Check? ==>
               forall call :: call in l.tickets ==> l.tickets[call].change.box != Attempt(op).change.box
    ensures Serial(Step(l, op)) && Undisturbed(l, op)
  {
    if op.Crash? {
      CrashIsAtomic(l, op);
    }
  }

  /** When calls on one box do not overlap, every box leads one of the four lawful lives. */
  lemma {:induction false} SerialRunsAreLawful(states: seq<Lane>, ops: seq<Op>, n: nat)
    requires Run(states, ops) && OneCallPerBox(states, ops) && n <= |ops|
    ensures Serial(states[n])
    ensures forall box :: FourLives(History(states[n].file, box))
  {
    if n > 0 {
      SerialRunsAreLawful(states, ops, n - 1);
      RunKeepsInv(states, ops, n - 1);
      SerialStep(states[n - 1], ops[n - 1]);
      LastStep(states, ops, n);
      var before := states[n - 1].file;
      forall box
        ensures LegalPath(History(before, box))
      {
        LegalPathsAreFour(History(before, box));
      }
      StepKeepsLaw(states[n - 1], ops[n - 1]);
    }
    forall box
      ensures FourLives(History(states[n].file, box))
    {
      assert n > 0 ==> LegalPath(History(states[n].file, box));
      LegalPathsAreFour(History(states[n].file, box));
    }
  }

  lemma TwoChecksBothPass(w: World)
    requires w == World(true, true, map["ana" := [Seed("b", false)]], map[])
    ensures CheckChange(EMPTY, w, "ana", "b", Active) == Applied
    ensures CheckChange(EMPTY, w, "ana", "b", Dismissed) == Applied
  {
  }

  /** Overlapping calls do break the law: both checks see a candidate, and the box is started, then dismissed. */
  lemma OverlapBreaksTheLaw(w: World)
    requires w == World(true, true, map["ana" := [Seed("b", false)]], map[])
    ensures var started, dismissed := Change("ana", "b", Active), Change("ana", "b", Dismissed);
            var checked := Step(Step(START, Check(0, w, started)), Check(1, w, dismissed));
            var audited := Step(Step(checked, WriteAudit(0)), WriteAudit(1));
            var recorded := Step(Step(audited, Record(0)), Record(1));
            History(recorded.file, "b") == [Active, Dismissed]
  {
    TwoChecksBothPass(w);
    var started, dismissed := Change("ana", "b", Active), Change("ana", "b", Dismissed);
    var checked := Step(Step(START, Check(0, w, started)), Check(1, w, dismissed));
    assert checked.tickets == map[0 := Ticket(started, Candidate, false), 1 := Ticket(dismissed, Candidate, false)];
    var audited := Step(Step(checked, WriteAudit(0)), WriteAudit(1));
    assert audited.tickets == map[0 := Ticket(started, Candidate, true), 1 := Ticket(dismissed, Candidate, true)];
    TwoRecords(audited);
  }

  lemma TwoRecords(l: Lane)
    requires l.boxes == EMPTY && l.file == []
    requires l.tickets == map[0 := Ticket(Change("ana", "b", Active), Candidate, true),
                              1 := Ticket(Change("ana", "b", Dismissed), Candidate, true)]
    ensures History(Step(Step(l, Record(0)), Record(1)).file, "b") == [Active, Dismissed]
  {
    var one, two := StatusChanged("b", 0, "ana", Active), StatusChanged("b", 1, "ana", Dismissed);
    assert Step(l, Record(0)).file == [] + [one];
    CollectSnoc(ChangeOf("b"), [], one);
    CollectSnoc(ChangeOf("b"), [] + [one], two);
  }

  // -------------------------------------------------------------------------
  // The store and the call as the source builds them
  // -------------------------------------------------------------------------

  class BoxStore {
    var file: seq<Event>
    var statuses: map<string, Status>
    var accepted: map<string, AcceptedBox>
    var nextOrdinal: nat

    function Memory(): State
      reads this
    {
      State(statuses, accepted, nextOrdinal)
    }

    ghost predicate Valid()
      reads this
    {
      Memory() == Replay(file)
    }

    constructor ()
      ensures Valid() && file == []
    {
      file, statuses, accepted, nextOrdinal := [], map[], map[], 0;
    }

    /** Rebuilds the memory from the file, whatever the memory held. */
    method Open()
      modifies `statuses, `accepted, `nextOrdinal
      ensures Valid()
    {
      statuses, accepted, nextOrdinal := map[], map[], 0;
      for i := 0 to |file|
        invariant Memory() == Replay(file[..i])
      {
        assert file[..i + 1] == file[..i] + [file[i]];
        ReplaySnoc(file[..i], file[i]);
        nextOrdinal := nextOrdinal + 1;
        match file[i] {
          case StatusChanged(id, _, _, to) => statuses := statuses[id := to];
          case Accepted(record) => accepted := accepted[record.boxId := record];
        }
      }
      assert file[..|file|] == file;
    }

    method RecordStatus(box: string, principal: string, to: Status)
      requires Valid()
      modifies `file, `statuses, `nextOrdinal
      ensures Valid() && file == old(file) + [StatusChanged(box, old(nextOrdinal), principal, to)]
      ensures Memory() == Apply(old(Memory()), StatusChanged(box, old(nextOrdinal), principal, to))
    {
      var e := StatusChanged(box, nextOrdinal, principal, to);
      ReplaySnoc(file, e);
      file := file + [e];
      nextOrdinal := nextOrdinal + 1;
      statuses := statuses[box := to];
    }

    method RecordAccepted(record: AcceptedBox) returns (stored: AcceptedBox)
      requires Valid()
      modifies `file, `accepted, `nextOrdinal
      ensures Valid() && stored == record.(createdOrdinal := old(nextOrdinal))
      ensures file == old(file) + [Accepted(stored)] && accepted == old(accepted)[record.boxId := stored]
      ensures Memory() == Apply(old(Memory()), Accepted(stored))
    {
      stored := record.(createdOrdinal := nextOrdinal);
      ReplaySnoc(file, Accepted(stored));
      file := file + [Accepted(stored)];
      nextOrdinal := nextOrdinal + 1;
      accepted := accepted[record.boxId := stored];
    }
  }

  /** The three steps of one call in a quiet lane. */
  function WholeCall(l: Lane, w: World, c: Change): Lane {
    Step(Step(Step(l, Check(0, w, c)), WriteAudit(0)), Record(0))
  }

  lemma WholeCallWritesBothRows(l: Lane, w: World, c: Change)
    requires l.tickets == map[]
    ensures WholeCall(l, w, c)
         == if CheckChange(l.boxes, w, c.actor, c.box, c.to) != Applied then l
            else Append(l, StatusChanged(c.box, l.boxes.next, c.actor, c.to)).(audit := l.audit + [BoxStatus(c)])
  {
    var checked := Step(l, Check(0, w, c));
    if checked != l {
      assert Step(Step(checked, WriteAudit(0)), Record(0)).tickets == map[];
    }
  }

  class LaneService {
    const boxes: BoxStore
    var audit: seq<AuditRow>

    constructor (boxes: BoxStore)
      ensures this.boxes == boxes && audit == []
    {
      this.boxes := boxes;
      audit := [];
    }

    ghost function View(): Lane
      reads this, boxes
    {
      Lane(boxes.Memory(), boxes.file, audit, map[])
    }

    /** A whole call with nothing in between is the three steps in order; a refused call writes no row. */
    method StatusChange(w: World, actor: string, box: string, to: Status) returns (outcome: Outcome)
      requires boxes.Valid()
      modifies this, boxes
      ensures boxes.Valid() && outcome == CheckChange(old(boxes.Memory()), w, actor, box, to)
      ensures View() == WholeCall(old(View()), w, Change(actor, box, to))
      ensures outcome != Applied ==> View() == old(View())
      ensures outcome == Applied ==>
                && audit == old(audit) + [BoxStatus(Change(actor, box, to))]
                && boxes.file == old(boxes.file) + [StatusChanged(box, old(boxes.nextOrdinal), actor, to)]
                && boxes.statuses == old(boxes.statuses)[box := to] && boxes.accepted == old(boxes.accepted)
      ensures AllLegal(old(boxes.file)) ==> AllLegal(boxes.file)
    {
      WholeCallWritesBothRows(View(), w, Change(actor, box, to));
      if !w.hasGraph {
        return NotFound;
      }
      if to !in {Active, Done, Dismissed} {
        return NotSettable;
      }
      if !w.hasStores {
        return NoAuditStore;
      }
      var own := OwnBox(boxes.Memory(), w, actor, box);
      if own.None? {
        return NotFound;
      }
      if own.value {
        return BoxBlocked;
      }
      var current := EffectiveStatus(false, if box in boxes.statuses then Some(boxes.statuses[box]) else None);
      if !TransitionIsLegal(current, to) {
        return IllegalTransition;
      }
      AllLegalSnoc(boxes.file, StatusChanged(box, boxes.nextOrdinal, actor, to));
      audit := audit + [BoxStatus(Change(actor, box, to))];
      boxes.RecordStatus(box, actor, to);
      return Applied;
    }
  }
}
