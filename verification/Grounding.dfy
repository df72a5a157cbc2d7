/**
 * Extractive anchoring: a claim is admitted when its trimmed quote occurs verbatim in the full body of the one
 * sealed document it cites, and its text leaves the citation brackets alone.
 */
module Grounding {
  import opened Basics
  import opened Text
  import opened Generation

  datatype Anchor = Anchor(docId: string, locator: string)

  /** Where a quote stands; `offset` counts bytes of the UTF-8 body before it. */
  function Locator(docId: string, offset: nat): string {
    docId + "@" + Decimal(offset)
  }

  datatype Reason = Brackets | NotSealed | EmptyQuote | NotVerbatim | NotSupported

  datatype Grounded = Admitted(claim: Claim, anchor: Anchor) | Refused(claim: Claim, reason: Reason)

  /** The verification seam: whether a span supports a claim. */
  type Verifier = (string, string) -> bool

  function AnchorOnly(): Verifier {
    (span: string, claim: string) => true
  }

  function Utf8Width(c: char): nat {
    if c < '\U{80}' then 1 else if c < '\U{800}' then 2 else if c < '\U{10000}' then 3 else 4
  }

  function ByteLength(s: string): nat {
    if s == "" then 0 else Utf8Width(s[0]) + ByteLength(s[1..])
  }

  function Ground(claim: Claim, bodies: map<string, string>, supports: Verifier): Grounded {
    if HasBracket(claim.text) then Refused(claim, Brackets)
    else if claim.docId !in bodies then Refused(claim, NotSealed)
    else
      var quote := Trim(claim.quote);
      if quote == "" then Refused(claim, EmptyQuote)
      else match Find(bodies[claim.docId], quote)
        case None => Refused(claim, NotVerbatim)
        case Some(k) =>
          if !supports(quote, claim.text) then Refused(claim, NotSupported)
          else Admitted(claim, Anchor(claim.docId, Locator(claim.docId, ByteLength(bodies[claim.docId][..k]))))
  }

  /** A character position of a body and its byte offset. */
  ghost predicate ByteOffset(body: string, k: nat, offset: nat) {
    k <= |body| && offset == ByteLength(body[..k])
  }

  lemma {:induction false} LongerIsFurther(body: string, j: nat, k: nat)
    requires j < k <= |body|
    ensures ByteLength(body[..j]) < ByteLength(body[..k])
  {
    if j == 0 {
      assert body[..k][0] == body[0];
    } else {
      assert body[..j][1..] == body[1..][..j - 1] && body[..k][1..] == body[1..][..k - 1];
      LongerIsFurther(body[1..], j - 1, k - 1);
    }
  }

  /** A claim is admitted exactly when it keeps off the brackets and quotes, with support, what it cites. */
  lemma AdmittedExactly(claim: Claim, bodies: map<string, string>, supports: Verifier)
    ensures Ground(claim, bodies, supports).Admitted?
       <==> !HasBracket(claim.text) && claim.docId in bodies && Trim(claim.quote) != ""
            && Quotes(bodies[claim.docId], Trim(claim.quote)) && supports(Trim(claim.quote), claim.text)
  {
    if claim.docId in bodies {
      FindIsFirst(bodies[claim.docId], Trim(claim.quote));
    }
  }

  ghost predicate Quotes(body: string, quote: string) {
    exists k: nat :: OccursAt(body, quote, k)
  }

  /** The offset is that of an occurrence, and no occurrence has a smaller one. */
  ghost predicate FirstOffset(body: string, quote: string, offset: nat) {
    && (exists k: nat :: OccursAt(body, quote, k) && ByteOffset(body, k, offset))
    && (forall k: nat :: OccursAt(body, quote, k) ==> offset <= ByteLength(body[..k]))
  }

  lemma FindGivesFirstOffset(body: string, quote: string)
    requires Find(body, quote).Some?
    ensures FirstOffset(body, quote, ByteLength(body[..Find(body, quote).value]))
  {
    FindIsFirst(body, quote);
    var first := Find(body, quote).value;
    assert ByteOffset(body, first, ByteLength(body[..first]));
    forall k: nat | OccursAt(body, quote, k)
      ensures ByteLength(body[..first]) <= ByteLength(body[..k])
    {
      if first < k {
        LongerIsFurther(body, first, k);
      }
    }
  }

  /** An admitted claim's locator names its document and the one first byte offset at which the trimmed quote occurs. */
  lemma AnchorIsTheFirstPlace(claim: Claim, bodies: map<string, string>, supports: Verifier, offset: nat)
    requires Ground(claim, bodies, supports).Admitted?
    ensures var anchor := Ground(claim, bodies, supports).anchor;
            anchor.docId == claim.docId && claim.docId in bodies
            && (anchor.locator == Locator(claim.docId, offset)
                <==> FirstOffset(bodies[claim.docId], Trim(claim.quote), offset))
  {
    var body, quote := bodies[claim.docId], Trim(claim.quote);
    var first := ByteLength(body[..Find(body, quote).value]);
    FindGivesFirstOffset(body, quote);
    if FirstOffset(body, quote, offset) {
      assert first == offset;
    }
    if Locator(claim.docId, first) == Locator(claim.docId, offset) {
      SameLocator(claim.docId, first, offset);
    }
  }

  lemma SameLocator(docId: string, m: nat, n: nat)
    requires Locator(docId, m) == Locator(docId, n)
    ensures m == n
  {
    var k := |docId| + 1;
    assert Locator(docId, m)[k..] == Decimal(m) && Locator(docId, n)[k..] == Decimal(n);
    DecimalTells(m, n);
  }

  function AdmittedOf(bodies: map<string, string>): Claim -> Option<(Claim, Anchor)> {
    (c: Claim) =>
      match Ground(c, bodies, AnchorOnly())
      case Admitted(claim, anchor) => Some((claim, anchor))
      case Refused(_, _) => None
  }

  /** The loop: keep what `admit` gives, in order, and count the rest. */
  method Sift<T>(draft: seq<Claim>, admit: Claim -> Option<T>) returns (admitted: seq<T>, refused: nat)
    ensures admitted == Collect(admit, draft) && |admitted| + refused == |draft|
  {
    admitted, refused := [], 0;
    for i := 0 to |draft|
      invariant admitted == Collect(admit, draft[..i]) && |admitted| + refused == i
    {
      assert draft[..i + 1] == draft[..i] + [draft[i]];
      CollectSnoc(admit, draft[..i], draft[i]);
      match admit(draft[i]) {
        case Some(x) => admitted := admitted + [x];
        case None => refused := refused + 1;
      }
    }
    assert draft[..|draft|] == draft;
  }

  /** A claim that keeps off the brackets and quotes, verbatim, a sealed document it names. */
  ghost predicate Passes(c: Claim, bodies: map<string, string>) {
    && '[' !in c.text && ']' !in c.text && c.docId in bodies && Trim(c.quote) != ""
    && exists k: nat :: OccursAt(bodies[c.docId], Trim(c.quote), k)
  }

  ghost function PassesIn(bodies: map<string, string>): Claim -> bool {
    (c: Claim) => Passes(c, bodies)
  }

  /** The locator names the document and the first byte offset of the trimmed quote in it. */
  ghost predicate Locates(locator: string, c: Claim, bodies: map<string, string>) {
    && c.docId in bodies
    && exists offset: nat ::
         locator == c.docId + "@" + Decimal(offset) && FirstOffset(bodies[c.docId], Trim(c.quote), offset)
  }

  ghost predicate AnchoredBy(x: (Claim, Anchor), c: Claim, bodies: map<string, string>) {
    x.0 == c && x.1.docId == c.docId && Locates(x.1.locator, c, bodies)
  }

  lemma AdmittedByTests(c: Claim, bodies: map<string, string>)
    ensures AdmittedOf(bodies)(c).Some? <==> Passes(c, bodies)
    ensures AdmittedOf(bodies)(c).Some? ==> AnchoredBy(AdmittedOf(bodies)(c).value, c, bodies)
  {
    AdmittedExactly(c, bodies, AnchorOnly());
    if AdmittedOf(bodies)(c).Some? {
      var offset := ByteLength(bodies[c.docId][..Find(bodies[c.docId], Trim(c.quote)).value]);
      AnchorIsTheFirstPlace(c, bodies, AnchorOnly(), offset);
    }
  }

  ghost predicate AllAnchored(admitted: seq<(Claim, Anchor)>, passing: seq<Claim>, bodies: map<string, string>) {
    |admitted| == |passing| && forall i :: 0 <= i < |admitted| ==> AnchoredBy(admitted[i], passing[i], bodies)
  }

  /** What grounding keeps is, claim by claim, what passes. */
  lemma {:induction false} KeptIsWhatPasses(draft: seq<Claim>, bodies: map<string, string>)
    ensures AllAnchored(Collect(AdmittedOf(bodies), draft), Filter(PassesIn(bodies), draft), bodies)
  {
    if draft != [] {
      var n := |draft| - 1;
      assert draft == draft[..n] + [draft[n]];
      KeptIsWhatPasses(draft[..n], bodies);
      FilterSnoc(PassesIn(bodies), draft[..n], draft[n]);
      AdmittedByTests(draft[n], bodies);
    }
  }

  /** Refused claims are dropped and counted; the ones that pass keep their order and get their anchors. */
  method GroundAll(draft: seq<Claim>, bodies: map<string, string>)
    returns (admitted: seq<(Claim, Anchor)>, refused: nat)
    ensures admitted == Collect(AdmittedOf(bodies), draft)
    ensures AllAnchored(admitted, Filter(PassesIn(bodies), draft), bodies)
    ensures |admitted| + refused == |draft|
  {
    admitted, refused := Sift(draft, AdmittedOf(bodies));
    KeptIsWhatPasses(draft, bodies);
  }
}
