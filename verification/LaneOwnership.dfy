/** Whose box a status change may move: the call's own conditions, and who every change row of a run belongs to. */
module LaneOwnership {
  import opened Basics
  import opened LaneBoxes

  // -------------------------------------------------------------------------
  // When a call is applied
  // -------------------------------------------------------------------------

  function SeedsOf(w: World, actor: string): seq<Seed> {
    if actor in w.seeds then w.seeds[actor] else []
  }

  function EntriesOf(w: World, actor: string): seq<EntryFact> {
    if actor in w.entries then w.entries[actor] else []
  }

  ghost predicate HasSeed(w: World, actor: string, box: string) {
    exists i :: 0 <= i < |SeedsOf(w, actor)| && SeedsOf(w, actor)[i].boxId == box
  }

  /** The first of the actor's seeds with this id, and it is not blocked. */
  ghost predicate OpenSeed(w: World, actor: string, box: string, i: nat) {
    var seeds := SeedsOf(w, actor);
    && i < |seeds| && seeds[i].boxId == box && !seeds[i].blocked
    && forall j :: 0 <= j < i ==> seeds[j].boxId != box
  }

  /** The first entry about this document says that it was superseded by nothing the actor can see. */
  ghost predicate Gone(entries: seq<EntryFact>, document: string, i: nat) {
    && i < |entries| && entries[i].documentId == document
    && (forall j :: 0 <= j < i ==> entries[j].documentId != document)
    && entries[i].superseded
    && !exists j :: 0 <= j < |entries| && entries[i].successor == Some(entries[j].documentId)
  }

  /** A box the actor accepted, none of whose citations is gone. */
  ghost predicate OpenAcceptance(s: State, w: World, actor: string, box: string) {
    && box in s.accepted && s.accepted[box].principal == actor
    && forall d, i :: d in s.accepted[box].citations ==> !Gone(EntriesOf(w, actor), d, i)
  }

  /** The box is the actor's own and open: their seed, or else, if they have no such seed, one they accepted. */
  ghost predicate OwnAndOpen(s: State, w: World, actor: string, box: string) {
    if HasSeed(w, actor, box) then exists i :: OpenSeed(w, actor, box, i) else OpenAcceptance(s, w, actor, box)
  }

  predicate LegalMove(from: Status, to: Status) {
    (from == Candidate && to == Active) || (from == Candidate && to == Dismissed) || (from == Active && to == Done)
  }

  function StatusOf(s: State, box: string): Status {
    if box in s.statuses then s.statuses[box] else Candidate
  }

  lemma {:induction false} FirstSeed(seeds: seq<Seed>, box: string)
    ensures match FindSeed(seeds, box)
            case None => forall i :: 0 <= i < |seeds| ==> seeds[i].boxId != box
            case Some(seed) => exists i :: 0 <= i < |seeds| && seeds[i] == seed && seed.boxId == box
                                           && forall j :: 0 <= j < i ==> seeds[j].boxId != box
  {
    if seeds != [] && seeds[0].boxId != box {
      FirstSeed(seeds[1..], box);
      if FindSeed(seeds, box).Some? {
        var i :| 0 <= i < |seeds[1..]| && seeds[1..][i] == FindSeed(seeds, box).value
                 && forall j :: 0 <= j < i ==> seeds[1..][j].boxId != box;
        assert seeds[i + 1] == FindSeed(seeds, box).value;
        assert forall j :: 0 <= j < i + 1 ==> seeds[j].boxId != box;
      } else {
        assert forall i :: 0 < i < |seeds| ==> seeds[i] == seeds[1..][i - 1];
      }
    }
  }

  lemma {:induction false} FirstEntry(entries: seq<EntryFact>, id: string)
    ensures match FindEntry(entries, id)
            case None => forall i :: 0 <= i < |entries| ==> entries[i].documentId != id
            case Some(e) => exists i :: 0 <= i < |entries| && entries[i] == e && e.documentId == id
                                        && forall j :: 0 <= j < i ==> entries[j].documentId != id
  {
    if entries != [] && entries[0].documentId != id {
      FirstEntry(entries[1..], id);
      if FindEntry(entries, id).Some? {
        var i :| 0 <= i < |entries[1..]| && entries[1..][i] == FindEntry(entries, id).value
                 && forall j :: 0 <= j < i ==> entries[1..][j].documentId != id;
        assert entries[i + 1] == FindEntry(entries, id).value;
        assert forall j :: 0 <= j < i + 1 ==> entries[j].documentId != id;
      } else {
        assert forall i :: 0 < i < |entries| ==> entries[i] == entries[1..][i - 1];
      }
    }
  }

  lemma WithdrawnIsGone(entries: seq<EntryFact>, d: string)
    ensures Withdrawn(entries, d) <==> exists i :: Gone(entries, d, i)
  {
    FirstEntry(entries, d);
    if FindEntry(entries, d).Some? {
      var e := FindEntry(entries, d).value;
      var i :| 0 <= i < |entries| && entries[i] == e && e.documentId == d
               && forall j :: 0 <= j < i ==> entries[j].documentId != d;
      assert Withdrawn(entries, d) <==> Gone(entries, d, i);
    }
  }

  lemma CitationsAreOpen(entries: seq<EntryFact>, citations: seq<string>)
    ensures (exists d :: d in citations && Withdrawn(entries, d))
       <==> !forall d, i :: d in citations ==> !Gone(entries, d, i)
  {
    if d :| d in citations && Withdrawn(entries, d) {
      WithdrawnIsGone(entries, d);
    }
    if d, i :| d in citations && Gone(entries, d, i) {
      WithdrawnIsGone(entries, d);
    }
  }

  lemma OwnBoxIsOpen(s: State, w: World, actor: string, box: string)
    ensures OwnBox(s, w, actor, box) == Some(false) <==> OwnAndOpen(s, w, actor, box)
  {
    FirstSeed(SeedsOf(w, actor), box);
    if FindSeed(SeedsOf(w, actor), box).Some? {
      var seed := FindSeed(SeedsOf(w, actor), box).value;
      var i :| 0 <= i < |SeedsOf(w, actor)| && SeedsOf(w, actor)[i] == seed && seed.boxId == box
               && forall j :: 0 <= j < i ==> SeedsOf(w, actor)[j].boxId != box;
      assert HasSeed(w, actor, box);
      assert !seed.blocked ==> OpenSeed(w, actor, box, i);
    } else {
      assert !HasSeed(w, actor, box);
      if box in s.accepted {
        CitationsAreOpen(EntriesOf(w, actor), s.accepted[box].citations);
      }
    }
  }

  /**
   * A call is applied exactly when the graph and the stores are there, the box is the actor's own and open, and the
   * move is legal from the status the box has. Only settable statuses are targets of legal moves.
   */
  lemma AppliedExactly(s: State, w: World, actor: string, box: string, to: Status)
    ensures CheckChange(s, w, actor, box, to) == Applied <==>
              && w.hasGraph && w.hasStores && OwnAndOpen(s, w, actor, box) && LegalMove(StatusOf(s, box), to)
  {
    OwnBoxIsOpen(s, w, actor, box);
  }

  /** The box is the actor's: a seed of theirs, or a box they accepted. */
  ghost predicate Owns(s: State, w: World, actor: string, box: string) {
    HasSeed(w, actor, box) || (box in s.accepted && s.accepted[box].principal == actor)
  }

  lemma OwnBoxIsTheirs(s: State, w: World, actor: string, box: string)
    ensures OwnBox(s, w, actor, box).Some? <==> Owns(s, w, actor, box)
  {
    FirstSeed(SeedsOf(w, actor), box);
  }

  /** Every other answer has its own reason, and the reasons come in this order. */
  lemma RefusedFor(s: State, w: World, actor: string, box: string, to: Status)
    ensures var settable := to == Active || to == Done || to == Dismissed;
            var ready := w.hasGraph && settable && w.hasStores;
            match CheckChange(s, w, actor, box, to)
            case NotFound => !w.hasGraph || (ready && !Owns(s, w, actor, box))
            case NotSettable => w.hasGraph && !settable
            case NoAuditStore => w.hasGraph && settable && !w.hasStores
            case BoxBlocked => ready && Owns(s, w, actor, box) && !OwnAndOpen(s, w, actor, box)
            case IllegalTransition => ready && OwnAndOpen(s, w, actor, box) && !LegalMove(StatusOf(s, box), to)
            case Applied => ready && OwnAndOpen(s, w, actor, box) && LegalMove(StatusOf(s, box), to)
  {
    OwnBoxIsOpen(s, w, actor, box);
    OwnBoxIsTheirs(s, w, actor, box);
  }

  // -------------------------------------------------------------------------
  // Whose rows a run writes
  // -------------------------------------------------------------------------

  /** Step `i` is the check of this change, and the box was the actor's to move. */
  ghost predicate Permitted(states: seq<Lane>, ops: seq<Op>, i: nat, c: Change)
    requires |states| == |ops| + 1 && i < |ops|
  {
    && ops[i].Check? && ops[i].change == c
    && ops[i].world.hasGraph && ops[i].world.hasStores
    && OwnAndOpen(states[i].boxes, ops[i].world, c.actor, c.box)
    && LegalMove(StatusOf(states[i].boxes, c.box), c.to)
  }

  lemma OpenedByCheck(l: Lane, op: Op, call: nat)
    requires call !in l.tickets && call in Step(l, op).tickets
    ensures op.Check? && op.change == Step(l, op).tickets[call].change
    ensures CheckChange(l.boxes, op.world, op.change.actor, op.change.box, op.change.to) == Applied
  {
  }

  lemma {:induction false} TicketWasPermitted(states: seq<Lane>, ops: seq<Op>, k: nat, call: nat) returns (i: nat)
    requires Run(states, ops) && k <= |ops| && call in states[k].tickets
    ensures i < k && Permitted(states, ops, i, states[k].tickets[call].change)
  {
    RunKeepsInv(states, ops, k - 1);
    LastStep(states, ops, k);
    TicketStays(states[k - 1], ops[k - 1], call);
    if call in states[k - 1].tickets {
      i := TicketWasPermitted(states, ops, k - 1, call);
    } else {
      i := k - 1;
      OpenedByCheck(states[i], ops[i], call);
      var c := ops[i].change;
      AppliedExactly(states[i].boxes, ops[i].world, c.actor, c.box, c.to);
    }
  }

  /** What a step adds to the file is nothing, an acceptance, or the change row of a call it records. */
  lemma RowsAdded(l: Lane, op: Op)
    requires OnFile(l)
    ensures var added := Step(l, op).file;
            && |l.file| <= |added| <= |l.file| + 1 && added[..|l.file|] == l.file
            && (|added| > |l.file| && added[|l.file|].StatusChanged? ==>
                  exists call :: Records(l, op, call)
                                 && Change(added[|l.file|].principal, added[|l.file|].boxId, added[|l.file|].to)
                                    == l.tickets[call].change)
  {
    if op.Crash? {
      CrashIsAtomic(l, op);
    }
    var attempt := Attempt(op);
    if attempt.Record? && attempt.call in l.tickets && l.tickets[attempt.call].audited {
      assert Records(l, op, attempt.call);
    }
  }

  /** Every change row of a run is of a change that a check of that person's own open box had permitted. */
  lemma {:induction false} EveryChangeWasPermitted(states: seq<Lane>, ops: seq<Op>, k: nat, n: nat) returns (i: nat)
    requires Run(states, ops) && k <= |ops| && n < |states[k].file| && states[k].file[n].StatusChanged?
    ensures var row := states[k].file[n];
            i < k && Permitted(states, ops, i, Change(row.principal, row.boxId, row.to))
  {
    RunKeepsInv(states, ops, k - 1);
    LastStep(states, ops, k);
    RowsAdded(states[k - 1], ops[k - 1]);
    if n < |states[k - 1].file| {
      assert states[k - 1].file[n] == states[k].file[n];
      i := EveryChangeWasPermitted(states, ops, k - 1, n);
    } else {
      var row := states[k].file[n];
      var call :| Records(states[k - 1], ops[k - 1], call)
                  && Change(row.principal, row.boxId, row.to) == states[k - 1].tickets[call].change;
      i := TicketWasPermitted(states, ops, k - 1, call);
    }
  }

  /** A change row of a box that is nobody's seed bears the name of the person who accepted the box. */
  lemma RowsBearTheAcceptor(states: seq<Lane>, ops: seq<Op>, k: nat, n: nat) returns (i: nat)
    requires Run(states, ops) && k <= |ops| && n < |states[k].file| && states[k].file[n].StatusChanged?
    requires forall m :: 0 <= m < k && ops[m].Check? ==>
               !HasSeed(ops[m].world, states[k].file[n].principal, states[k].file[n].boxId)
    ensures var row := states[k].file[n];
            && i < k && row.boxId in states[i].boxes.accepted
            && states[i].boxes.accepted[row.boxId].principal == row.principal
  {
    i := EveryChangeWasPermitted(states, ops, k, n);
  }
}
