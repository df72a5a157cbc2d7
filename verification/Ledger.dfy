/** What the stores' files have in common: a replay that stops at the first corrupt line, and audit rows. */
module Ledger {
  import opened Basics

  datatype AuditEvent = AuditEvent(action: string, actor: string, ordinal: nat, outcome: string, target: string)

  /** What a file means: its lines applied in order; None once a line cannot be applied. */
  function Replay<S, E>(apply: (S, E) -> Option<S>, start: S, file: seq<E>): Option<S> {
    if file == [] then Some(start)
    else
      match Replay(apply, start, file[..|file| - 1])
      case None => None
      case Some(s) => apply(s, file[|file| - 1])
  }

  lemma ReplaySnoc<S, E>(apply: (S, E) -> Option<S>, start: S, file: seq<E>, e: E)
    ensures Replay(apply, start, file + [e])
         == match Replay(apply, start, file) case None => None case Some(s) => apply(s, e)
  {
    assert (file + [e])[..|file|] == file;
  }

  /** A file with a corrupt line is refused, whatever follows. */
  lemma {:induction false} ReplayStaysCorrupt<S, E>(apply: (S, E) -> Option<S>, start: S, file: seq<E>, n: nat)
    requires n <= |file| && Replay(apply, start, file[..n]).None?
    ensures Replay(apply, start, file).None?
    decreases |file| - n
  {
    if n == |file| {
      assert file[..n] == file;
    } else {
      assert file[..n + 1] == file[..n] + [file[n]];
      ReplaySnoc(apply, start, file[..n], file[n]);
      ReplayStaysCorrupt(apply, start, file, n + 1);
    }
  }

  // -------------------------------------------------------------------------
  // Audit files
  // -------------------------------------------------------------------------

  /** An audit file and the number its next row will carry. */
  datatype AuditLog = AuditLog(file: seq<AuditEvent>, next: nat)

  const NO_AUDITS := AuditLog([], 0)

  function Audited(l: AuditLog, action: string, actor: string, outcome: string, target: string): AuditLog {
    AuditLog(l.file + [AuditEvent(action, actor, l.next, outcome, target)], l.next + 1)
  }

  /** The log as an opened store counts it. */
  function Recounted(l: AuditLog): AuditLog {
    l.(next := |l.file|)
  }

  /** Every audit row carries its line index, and the counter is the number of lines. */
  ghost predicate Numbered(l: AuditLog) {
    l.next == |l.file| && forall i :: 0 <= i < |l.file| ==> l.file[i].ordinal == i
  }
}
