/**
 * An append-only file whose rows may carry the hash of the row before them. A session that was
 * opened with a clock stamps its rows; a session without one writes bare rows.
 */
module HashChain {
  import opened Basics

  newtype Byte = b: int | 0 <= b < 256

  type Bytes = seq<Byte>

  const NEWLINE: Byte := 10

  datatype Stamp = Stamp(ts: string, prev: string)

  datatype Row<E> = Row(event: E, stamp: Option<Stamp>)

  /** Canonical row encoding: one line, newline-terminated, and no two rows alike. */
  ghost predicate LineEncoding<E(!new)>(encode: Row<E> -> Bytes) {
    && (forall r :: IsLine(encode(r)))
    && (forall r, r' :: encode(r) == encode(r') ==> r == r')
  }

  predicate IsLine(line: Bytes) {
    line != [] && line[|line| - 1] == NEWLINE && NEWLINE !in line[..|line| - 1]
  }

  /** The exact bytes of a file holding these rows. */
  function FileBytes<E>(encode: Row<E> -> Bytes, rows: seq<Row<E>>): Bytes {
    if rows == [] then [] else FileBytes(encode, rows[..|rows| - 1]) + encode(rows[|rows| - 1])
  }

  // -------------------------------------------------------------------------
  // Finding the last line of a file
  // -------------------------------------------------------------------------

  /** Bytes `start..=end` are the last newline-terminated line of `raw`. */
  ghost predicate LastLineAt(raw: Bytes, start: nat, end: nat) {
    && start <= end < |raw| && raw[end] == NEWLINE
    && (forall k :: start <= k < |raw| && k != end ==> raw[k] != NEWLINE)
    && (start == 0 || raw[start - 1] == NEWLINE)
  }

  ghost predicate IsLastLine(raw: Bytes, line: Bytes) {
    exists start: nat, end: nat :: LastLineAt(raw, start, end) && line == raw[start..end + 1]
  }

  method LastLineBytes(raw: Bytes) returns (line: Option<Bytes>)
    ensures line.None? <==> NEWLINE !in raw
    ensures line.Some? ==> IsLastLine(raw, line.value)
  {
    var i := |raw|;
    while i > 0 && raw[i - 1] != NEWLINE
      invariant 0 <= i <= |raw| && forall k :: i <= k < |raw| ==> raw[k] != NEWLINE
    {
      i := i - 1;
    }
    if i == 0 {
      return None;
    }
    var end := i - 1;
    var start := end;
    while start > 0 && raw[start - 1] != NEWLINE
      invariant 0 <= start <= end && forall k :: start <= k < end ==> raw[k] != NEWLINE
    {
      start := start - 1;
    }
    assert LastLineAt(raw, start, end);
    return Some(raw[start..end + 1]);
  }

  lemma FinishedBytes<E(!new)>(encode: Row<E> -> Bytes, rows: seq<Row<E>>)
    requires LineEncoding(encode)
    ensures FileBytes(encode, rows) == [] || FileBytes(encode, rows)[|FileBytes(encode, rows)| - 1] == NEWLINE
  {
    if rows != [] {
      assert IsLine(encode(rows[|rows| - 1]));
    }
  }

  /** After finished bytes, one more line is the last line. */
  lemma LastLineIsUnique(before: Bytes, last: Bytes, start: nat, end: nat)
    requires IsLine(last) && (before == [] || before[|before| - 1] == NEWLINE)
    requires LastLineAt(before + last, start, end)
    ensures (before + last)[start..end + 1] == last
  {
    var raw := before + last;
    assert raw[|raw| - 1] == NEWLINE;
    assert end == |raw| - 1;
    assert forall k :: |before| <= k < |raw| ==> raw[k] == last[k - |before|];
    assert forall k :: 0 <= k < |last| - 1 ==> last[k] in last[..|last| - 1];
    assert before != [] ==> raw[|before| - 1] == NEWLINE;
    assert start == |before|;
  }

  /** The last line of a file of rows is the encoding of its last row, to the byte. */
  lemma LastLineOfRows<E(!new)>(encode: Row<E> -> Bytes, rows: seq<Row<E>>, line: Bytes)
    requires LineEncoding(encode) && rows != []
    ensures NEWLINE in FileBytes(encode, rows)
    ensures IsLastLine(FileBytes(encode, rows), line) ==> line == encode(rows[|rows| - 1])
  {
    var before, last := FileBytes(encode, rows[..|rows| - 1]), encode(rows[|rows| - 1]);
    FinishedBytes(encode, rows[..|rows| - 1]);
    assert IsLine(last) && FileBytes(encode, rows) == before + last;
    assert (before + last)[|before + last| - 1] == NEWLINE;
    if start: nat, end: nat :| LastLineAt(before + last, start, end) && line == (before + last)[start..end + 1] {
      LastLineIsUnique(before, last, start, end);
    }
  }

  // -------------------------------------------------------------------------
  // The chain
  // -------------------------------------------------------------------------

  /** The hash a next row links to: of the last row's exact bytes, or of nothing. */
  function TipOf<E>(sha256: Bytes -> string, encode: Row<E> -> Bytes, rows: seq<Row<E>>): string {
    sha256(if rows == [] then [] else encode(rows[|rows| - 1]))
  }

  /** Every stamped row carries the hash of the row before it. */
  ghost predicate Chained<E>(sha256: Bytes -> string, encode: Row<E> -> Bytes, rows: seq<Row<E>>) {
    forall i :: 0 <= i < |rows| ==> LinkedAt(sha256, encode, rows, i)
  }

  predicate LinkedAt<E>(sha256: Bytes -> string, encode: Row<E> -> Bytes, rows: seq<Row<E>>, i: nat)
    requires i < |rows|
  {
    rows[i].stamp.Some? ==> rows[i].stamp.value.prev == TipOf(sha256, encode, rows[..i])
  }

  ghost predicate FullyChained<E>(sha256: Bytes -> string, encode: Row<E> -> Bytes, rows: seq<Row<E>>) {
    Chained(sha256, encode, rows) && forall i :: 0 <= i < |rows| ==> rows[i].stamp.Some?
  }

  ghost predicate NoCollision(sha256: Bytes -> string, lines: set<Bytes>) {
    forall x, y :: x in lines && y in lines && sha256(x) == sha256(y) ==> x == y
  }

  ghost function LinesOf<E>(encode: Row<E> -> Bytes, rows: seq<Row<E>>): set<Bytes> {
    set i | 0 <= i < |rows| :: encode(rows[i])
  }

  /** Equal tips mean equal last rows, or two empty files. */
  lemma EqualTipsEqualLastRows<E(!new)>(sha256: Bytes -> string, encode: Row<E> -> Bytes,
                                        a: seq<Row<E>>, b: seq<Row<E>>, lines: set<Bytes>)
    requires LineEncoding(encode)
    requires LinesOf(encode, a) <= lines && LinesOf(encode, b) <= lines && [] in lines && NoCollision(sha256, lines)
    requires TipOf(sha256, encode, a) == TipOf(sha256, encode, b)
    ensures a == [] <==> b == []
    ensures a != [] && b != [] ==> a[|a| - 1] == b[|b| - 1]
  {
    assert a != [] ==> encode(a[|a| - 1]) in lines && IsLine(encode(a[|a| - 1]));
    assert b != [] ==> encode(b[|b| - 1]) in lines && IsLine(encode(b[|b| - 1]));
  }

  /** What a tip vouches for: the stamped rows at the end, and the bare row before them if there is one. */
  function VouchedFor<E>(rows: seq<Row<E>>): seq<Row<E>> {
    if rows == [] then []
    else
      var last := rows[|rows| - 1];
      if last.stamp.None? then [last] else VouchedFor(rows[..|rows| - 1]) + [last]
  }

  ghost predicate Reaches<E>(tail: seq<Row<E>>, rows: seq<Row<E>>) {
    && |tail| <= |rows| && tail == rows[|rows| - |tail|..]
    && (forall i :: 1 <= i < |tail| ==> tail[i].stamp.Some?)
    && (tail == [] || tail[0].stamp.Some? ==> tail == rows)
  }

  lemma ReachesFurther<E>(tail: seq<Row<E>>, before: seq<Row<E>>, last: Row<E>)
    requires Reaches(tail, before) && last.stamp.Some?
    ensures Reaches(tail + [last], before + [last])
  {
  }

  /** It is the end of the file, and goes back to the last bare row, or to the start when there is none. */
  lemma {:induction false} VouchedForReaches<E>(rows: seq<Row<E>>)
    ensures Reaches(VouchedFor(rows), rows)
  {
    if rows != [] && rows[|rows| - 1].stamp.Some? {
      var before, last := rows[..|rows| - 1], rows[|rows| - 1];
      VouchedForReaches(before);
      ReachesFurther(VouchedFor(before), before, last);
      assert rows == before + [last];
    }
  }

  /** A chain without its last row is one, and a stamped last row links to its tip. */
  lemma WithoutLast<E(!new)>(sha256: Bytes -> string, encode: Row<E> -> Bytes, rows: seq<Row<E>>, lines: set<Bytes>)
    requires rows != [] && Chained(sha256, encode, rows) && LinesOf(encode, rows) <= lines
    ensures Chained(sha256, encode, rows[..|rows| - 1]) && LinesOf(encode, rows[..|rows| - 1]) <= lines
    ensures LinkedAt(sha256, encode, rows, |rows| - 1)
  {
    PrefixChained(sha256, encode, rows, |rows| - 1);
  }

  /**
   * Tamper evidence: unless the hash collides on their own lines, two chained files have one tip exactly when they
   * agree row for row back to and including the last bare row, whatever stands before it.
   */
  lemma {:induction false} OneTipOneTail<E(!new)>(sha256: Bytes -> string, encode: Row<E> -> Bytes,
                                                  a: seq<Row<E>>, b: seq<Row<E>>, lines: set<Bytes>)
    requires LineEncoding(encode) && Chained(sha256, encode, a) && Chained(sha256, encode, b)
    requires LinesOf(encode, a) <= lines && LinesOf(encode, b) <= lines && [] in lines && NoCollision(sha256, lines)
    ensures TipOf(sha256, encode, a) == TipOf(sha256, encode, b) <==> VouchedFor(a) == VouchedFor(b)
    decreases |a|
  {
    if VouchedFor(a) == VouchedFor(b) {
      SameLastRow(a, b);
    } else if TipOf(sha256, encode, a) == TipOf(sha256, encode, b) {
      EqualTipsEqualLastRows(sha256, encode, a, b, lines);
      WithoutLast(sha256, encode, a, lines);
      WithoutLast(sha256, encode, b, lines);
      OneTipOneTail(sha256, encode, a[..|a| - 1], b[..|b| - 1], lines);
    }
  }

  lemma SameLastRow<E>(a: seq<Row<E>>, b: seq<Row<E>>)
    requires VouchedFor(a) == VouchedFor(b)
    ensures a == [] <==> b == []
    ensures a != [] ==> a[|a| - 1] == b[|b| - 1]
  {
  }

  /** Two fully chained files with one tip are one file, length included. */
  lemma EqualTipsEqualChains<E(!new)>(sha256: Bytes -> string, encode: Row<E> -> Bytes,
                                      a: seq<Row<E>>, b: seq<Row<E>>, lines: set<Bytes>)
    requires LineEncoding(encode) && FullyChained(sha256, encode, a) && FullyChained(sha256, encode, b)
    requires LinesOf(encode, a) <= lines && LinesOf(encode, b) <= lines && [] in lines && NoCollision(sha256, lines)
    requires TipOf(sha256, encode, a) == TipOf(sha256, encode, b)
    ensures a == b
  {
    OneTipOneTail(sha256, encode, a, b, lines);
    VouchedForReaches(a);
    VouchedForReaches(b);
  }

  lemma PrefixChained<E>(sha256: Bytes -> string, encode: Row<E> -> Bytes, rows: seq<Row<E>>, n: nat)
    requires n <= |rows| && Chained(sha256, encode, rows)
    ensures Chained(sha256, encode, rows[..n])
    ensures LinesOf(encode, rows[..n]) <= LinesOf(encode, rows)
  {
    forall i | 0 <= i < n
      ensures LinkedAt(sha256, encode, rows[..n], i)
    {
      assert rows[..n][..i] == rows[..i];
      assert LinkedAt(sha256, encode, rows, i);
    }
    forall line | line in LinesOf(encode, rows[..n])
      ensures line in LinesOf(encode, rows)
    {
      var i :| 0 <= i < n && line == encode(rows[..n][i]);
      assert line == encode(rows[i]);
    }
  }

  lemma SnocChained<E>(sha256: Bytes -> string, encode: Row<E> -> Bytes, rows: seq<Row<E>>, r: Row<E>)
    requires Chained(sha256, encode, rows)
    requires r.stamp.Some? ==> r.stamp.value.prev == TipOf(sha256, encode, rows)
    ensures Chained(sha256, encode, rows + [r])
  {
    var rows' := rows + [r];
    forall i | 0 <= i < |rows'|
      ensures LinkedAt(sha256, encode, rows', i)
    {
      assert rows'[..i] == rows[..i];
      if i == |rows| {
        assert rows[..i] == rows;
      } else {
        assert LinkedAt(sha256, encode, rows, i);
      }
    }
  }

  /** The file together with the tip its open session holds in memory. */
  class ChainedFile<E(!new)> {
    const sha256: Bytes -> string
    const encode: Row<E> -> Bytes
    var rows: seq<Row<E>>
    var tip: string

    /** Any file of rows will do; whether its stamps link up is a separate matter. */
    ghost predicate Valid()
      reads this
    {
      LineEncoding(encode)
    }

    /** Every stamped row on disk links to the row before it. */
    ghost predicate Linked()
      reads this
    {
      Chained(sha256, encode, rows)
    }

    /** The tip is the hash of the last row on disk: true after opening, and of every chained session. */
    ghost predicate Synced()
      reads this
    {
      tip == TipOf(sha256, encode, rows)
    }

    constructor (sha256: Bytes -> string, encode: Row<E> -> Bytes)
      requires LineEncoding(encode)
      ensures Valid() && Linked() && Synced() && rows == []
      ensures this.sha256 == sha256 && this.encode == encode
    {
      this.sha256, this.encode := sha256, encode;
      rows, tip := [], sha256([]);
    }

    /** Recomputes the tip from the bytes on disk, whatever it was. */
    method Open()
      requires Valid()
      modifies `tip
      ensures Valid() && Synced()
    {
      tip := sha256([]);
      var raw := FileBytes(encode, rows);
      var last := LastLineBytes(raw);
      if rows != [] {
        LastLineOfRows(encode, rows, last.GetOr([]));
      }
      if last.Some? {
        tip := sha256(last.value);
      }
    }

    lemma StaysLinked(r: Row<E>)
      requires r.stamp.Some? ==> r.stamp.value.prev == TipOf(sha256, encode, rows)
      ensures Linked() ==> Chained(sha256, encode, rows + [r])
    {
      if Linked() {
        SnocChained(sha256, encode, rows, r);
      }
    }

    /** Appends one row: stamped and linked when the session has a clock, bare otherwise. */
    method Append(event: E, clock: Option<string>)
      requires Valid() && (clock.Some? ==> Synced())
      modifies `rows, `tip
      ensures Valid() && (old(Linked()) ==> Linked())
      ensures clock.Some? ==> Synced()
      ensures clock.Some? ==>
                rows == old(rows) + [Row(event, Some(Stamp(clock.value, old(TipOf(sha256, encode, rows)))))]
      ensures clock.None? ==> tip == old(tip) && rows == old(rows) + [Row(event, None)]
    {
      match clock {
        case None =>
          StaysLinked(Row(event, None));
          rows := rows + [Row(event, None)];
        case Some(now) =>
          var r := Row(event, Some(Stamp(now, tip)));
          StaysLinked(r);
          rows := rows + [r];
          tip := sha256(encode(r));
      }
    }
  }
}
