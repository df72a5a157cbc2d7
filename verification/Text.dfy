/** The string operations of the source's standard library that the models rely on. */
module Text {
  import opened Basics

  /** Unicode White_Space, which is what `char::is_whitespace` and `str::trim` test. */
  predicate IsWhitespace(c: char) {
    || '\t' <= c <= '\r' || c == ' ' || c == '\U{85}' || c == '\U{A0}' || c == '\U{1680}'
    || '\U{2000}' <= c <= '\U{200A}' || c == '\U{2028}' || c == '\U{2029}' || c == '\U{202F}'
    || c == '\U{205F}' || c == '\U{3000}'
  }

  function TrimStart(s: string): (r: string)
    ensures r == [] || !IsWhitespace(r[0])
    ensures |r| <= |s| && r == s[|s| - |r|..]
    ensures forall i :: 0 <= i < |s| - |r| ==> IsWhitespace(s[i])
  {
    if s != [] && IsWhitespace(s[0]) then TrimStart(s[1..]) else s
  }

  function TrimEnd(s: string): (r: string)
    ensures r == [] || !IsWhitespace(r[|r| - 1])
    ensures r <= s
    ensures forall i :: |r| <= i < |s| ==> IsWhitespace(s[i])
  {
    if s != [] && IsWhitespace(s[|s| - 1]) then TrimEnd(s[..|s| - 1]) else s
  }

  function Trim(s: string): (r: string) {
    TrimEnd(TrimStart(s))
  }

  /** A string that neither starts nor ends with white space. */
  predicate Trimmed(s: string) {
    s == [] || (!IsWhitespace(s[0]) && !IsWhitespace(s[|s| - 1]))
  }

  lemma TrimIsTrimmed(s: string)
    ensures Trimmed(Trim(s))
  {
  }

  lemma TrimOfTrimmed(s: string)
    requires Trimmed(s)
    ensures Trim(s) == s
  {
  }

  /** Lines joined by newlines, as a hash preimage is formatted. */
  function JoinLines(parts: seq<string>): string {
    if parts == [] then ""
    else if |parts| == 1 then parts[0]
    else parts[0] + "\n" + JoinLines(parts[1..])
  }

  /** A first line is told apart from the lines after it. */
  lemma SplitsOnce(a: string, rest: string, b: string, other: string)
    requires a + "\n" + rest == b + "\n" + other && '\n' !in a && '\n' !in b
    ensures a == b && rest == other
  {
    var x := a + "\n" + rest;
    assert x[|a|] == '\n' && (b + "\n" + other)[|b|] == '\n';
    assert |a| == |b|;
    assert x[..|a|] == a && (b + "\n" + other)[..|b|] == b;
    assert x[|a| + 1..] == rest && (b + "\n" + other)[|b| + 1..] == other;
  }

  /** A last line is told apart from the lines before it. */
  lemma SplitsLast(front: string, a: string, other: string, b: string)
    requires front + "\n" + a == other + "\n" + b && '\n' !in a && '\n' !in b
    ensures front == other && a == b
  {
    var x, y := front + "\n" + a, other + "\n" + b;
    assert x[|x| - |a| - 1] == '\n' && y[|y| - |b| - 1] == '\n';
    assert forall i :: |front| < i < |x| ==> x[i] == a[i - |front| - 1] && x[i] in a;
    assert forall i :: |other| < i < |y| ==> y[i] == b[i - |other| - 1] && y[i] in b;
    assert |a| == |b|;
    assert x[..|front|] == front && y[..|other|] == other;
    assert x[|front| + 1..] == a && y[|other| + 1..] == b;
  }

  predicate OccursAt(s: string, part: string, k: nat) {
    k + |part| <= |s| && s[k..k + |part|] == part
  }

  /** The first place `part` occurs in `s`. */
  function Find(s: string, part: string): (r: Option<nat>)
    ensures r.Some? ==> r.value + |part| <= |s|
  {
    if part <= s then Some(0)
    else if s == "" then None
    else match Find(s[1..], part) case None => None case Some(k) => Some(k + 1)
  }

  lemma OccursInTail(s: string, part: string, j: nat)
    requires s != ""
    ensures OccursAt(s, part, j + 1) <==> OccursAt(s[1..], part, j)
  {
    if j + 1 + |part| <= |s| {
      assert s[j + 1..j + 1 + |part|] == s[1..][j..j + |part|];
    }
  }

  lemma {:induction false} FindIsFirst(s: string, part: string)
    ensures match Find(s, part)
            case Some(k) => OccursAt(s, part, k) && forall j :: 0 <= j < k ==> !OccursAt(s, part, j)
            case None => forall j: nat :: !OccursAt(s, part, j)
  {
    if !(part <= s) && s != "" {
      FindIsFirst(s[1..], part);
      forall j: nat | j > 0
        ensures OccursAt(s, part, j) <==> OccursAt(s[1..], part, j - 1)
      {
        OccursInTail(s, part, j - 1);
      }
    }
  }

  /** The first occurrence is the only answer. */
  lemma FindsFirst(s: string, part: string, k: nat)
    requires OccursAt(s, part, k) && forall j :: 0 <= j < k ==> !OccursAt(s, part, j)
    ensures Find(s, part) == Some(k)
  {
    FindIsFirst(s, part);
  }

  /** Where a prefix holds no start of the part, only the rest counts. */
  lemma FindAfter(prefix: string, rest: string, part: string)
    requires forall q :: 0 <= q < |prefix| ==> !OccursAt(prefix + rest, part, q)
    ensures Find(prefix + rest, part)
         == (match Find(rest, part) case None => None case Some(k) => Some(|prefix| + k))
    decreases |prefix|
  {
    if prefix == "" {
      assert prefix + rest == rest;
    } else {
      var all := prefix + rest;
      assert all[1..] == prefix[1..] + rest;
      assert !OccursAt(all, part, 0);
      forall q | 0 <= q < |prefix[1..]|
        ensures !OccursAt(prefix[1..] + rest, part, q)
      {
        assert !OccursAt(all, part, q + 1);
        OccursInTail(all, part, q);
      }
      FindAfter(prefix[1..], rest, part);
    }
  }

  /** A first occurrence stays first whatever is appended. */
  lemma FindInPrefix(s: string, rest: string, part: string)
    requires Find(s, part).Some?
    ensures Find(s + rest, part) == Find(s, part)
  {
    FindIsFirst(s, part);
    var k, all := Find(s, part).value, s + rest;
    assert all[k..k + |part|] == s[k..k + |part|];
    forall j | 0 <= j < k
      ensures !OccursAt(all, part, j)
    {
      assert !OccursAt(s, part, j);
      assert all[j..j + |part|] == s[j..j + |part|];
    }
    FindsFirst(all, part, k);
  }

  // -------------------------------------------------------------------------
  // Numbers
  // -------------------------------------------------------------------------

  function Digit(n: int): char
    requires 0 <= n <= 9
  {
    '0' + n as char
  }

  /** At least `width` decimal digits, zero-padded, more when the number needs them. */
  function Digits(n: nat, width: nat): (r: string)
    ensures r != ""
  {
    if width <= 1 && n < 10 then [Digit(n)]
    else Digits(n / 10, if width <= 1 then 1 else width - 1) + [Digit(n % 10)]
  }

  function Decimal(n: nat): string {
    Digits(n, 1)
  }

  lemma {:induction false} DecimalTells(m: nat, n: nat)
    requires Decimal(m) == Decimal(n)
    ensures m == n
  {
    var a, b := Decimal(m), Decimal(n);
    assert a[|a| - 1] == Digit(m % 10) && b[|b| - 1] == Digit(n % 10);
    if m >= 10 && n >= 10 {
      assert a[..|a| - 1] == Decimal(m / 10) && b[..|b| - 1] == Decimal(n / 10);
      DecimalTells(m / 10, n / 10);
    }
  }
}
