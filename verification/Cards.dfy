/**
 * Evidence cards: escaping by five whole-string replacements, the page around a card, and recovering the
 * literal payload from the page. The style sheet is any text without markup, the fonts any two strings.
 */
module Cards {
  import opened Basics
  import opened Text

  /** Every occurrence from left to right, none overlapping; no replacement here has a special meaning. */
  function ReplaceAll(s: string, what: string, with: string): string
    requires what != ""
    decreases |s|
  {
    if s == "" then ""
    else if what <= s then with + ReplaceAll(s[|what|..], what, with)
    else [s[0]] + ReplaceAll(s[1..], what, with)
  }

  function EscapeHtml(s: string): string {
    var a := ReplaceAll(s, "&", "&amp;");
    var b := ReplaceAll(a, "<", "&lt;");
    var c := ReplaceAll(b, ">", "&gt;");
    var d := ReplaceAll(c, "\"", "&quot;");
    ReplaceAll(d, "'", "&#39;")
  }

  function UnescapeHtml(s: string): string {
    var a := ReplaceAll(s, "&#39;", "'");
    var b := ReplaceAll(a, "&quot;", "\"");
    var c := ReplaceAll(b, "&gt;", ">");
    var d := ReplaceAll(c, "&lt;", "<");
    ReplaceAll(d, "&amp;", "&")
  }

  // -------------------------------------------------------------------------
  // Escaping, one character at a time
  // -------------------------------------------------------------------------

  /** The characters that are escaped, and what by. */
  function Token(c: char): string {
    match c
    case '&' => "&amp;"
    case '<' => "&lt;"
    case '>' => "&gt;"
    case '"' => "&quot;"
    case '\'' => "&#39;"
    case _ => [c]
  }

  const SPECIAL: set<char> := {'&', '<', '>', '"', '\''}

  /** The string with exactly the characters of `some` written as tokens. */
  function Encoded(s: string, some: set<char>): string {
    if s == "" then "" else (if s[0] in some then Token(s[0]) else [s[0]]) + Encoded(s[1..], some)
  }

  lemma EncodedNone(s: string)
    ensures Encoded(s, {}) == s
  {
  }

  lemma TokensStartDifferently(c: char)
    requires c in SPECIAL
    ensures |Token(c)| >= 4 && Token(c)[0] == '&' && '&' !in Token(c)[1..]
    ensures forall d :: d in SPECIAL && d != c ==> Token(d)[1] != Token(c)[1]
    ensures forall d :: d in SPECIAL && d != '&' ==> d !in Token(c)
  {
  }

  /** Text that the pattern cannot start in is copied. */
  lemma {:induction false} CopiesUnmatched(text: string, rest: string, what: string, with: string)
    requires what != "" && what[0] !in text
    ensures ReplaceAll(text + rest, what, with) == text + ReplaceAll(rest, what, with)
  {
    if text == "" {
      assert text + rest == rest;
    } else {
      assert (text + rest)[0] == text[0] && text[0] in text;
      assert (text + rest)[1..] == text[1..] + rest;
      CopiesUnmatched(text[1..], rest, what, with);
    }
  }

  /** Replacing one more character by its token. */
  lemma {:induction false} EncodeOneMore(s: string, some: set<char>, c: char, more: set<char>)
    requires some <= SPECIAL && c in SPECIAL - some && more == some + {c}
    requires c == '&' ==> some == {}
    ensures ReplaceAll(Encoded(s, some), [c], Token(c)) == Encoded(s, more)
  {
    if s != "" {
      var rest := Encoded(s[1..], some);
      EncodeOneMore(s[1..], some, c, more);
      if s[0] == c {
        assert ([c] + rest)[1..] == rest;
      } else {
        var head := if s[0] in some then Token(s[0]) else [s[0]];
        if s[0] in some {
          TokensStartDifferently(s[0]);
        }
        CopiesUnmatched(head, rest, [c], Token(c));
      }
    }
  }

  /** Replacing one token by its character: no other token, and no plain character, can be mistaken for it. */
  lemma {:induction false} DecodeOne(s: string, some: set<char>, c: char, fewer: set<char>)
    requires some <= SPECIAL && c in some && '&' in some && fewer == some - {c}
    ensures ReplaceAll(Encoded(s, some), Token(c), [c]) == Encoded(s, fewer)
  {
    if s != "" {
      var rest := Encoded(s[1..], some);
      DecodeOne(s[1..], some, c, fewer);
      TokensStartDifferently(c);
      if s[0] == c {
        assert (Token(c) + rest)[|Token(c)|..] == rest;
      } else if s[0] in some {
        SkipsOtherToken(s[0], c, rest);
      } else {
        CopiesUnmatched([s[0]], rest, Token(c), [c]);
      }
    }
  }

  lemma SkipsUnlike(text: string, rest: string, what: string, with: string)
    requires |text| >= 2 && |what| >= 2 && text[1] != what[1] && what[0] !in text[1..]
    ensures ReplaceAll(text + rest, what, with) == text + ReplaceAll(rest, what, with)
  {
    var all := text + rest;
    assert all[1] == text[1];
    assert all[1..] == text[1..] + rest;
    CopiesUnmatched(text[1..], rest, what, with);
    assert [text[0]] + (text[1..] + ReplaceAll(rest, what, with)) == text + ReplaceAll(rest, what, with);
  }

  lemma SkipsOtherToken(d: char, c: char, rest: string)
    requires d in SPECIAL && c in SPECIAL && d != c
    ensures ReplaceAll(Token(d) + rest, Token(c), [c]) == Token(d) + ReplaceAll(rest, Token(c), [c])
  {
    TokensStartDifferently(d);
    TokensStartDifferently(c);
    SkipsUnlike(Token(d), rest, Token(c), [c]);
  }

  /** Escaping writes every special character as its token, and nothing else. */
  lemma EscapeIsEncoding(s: string)
    ensures EscapeHtml(s) == Encoded(s, SPECIAL)
  {
    EncodedNone(s);
    EncodeOneMore(s, {}, '&', {'&'});
    EncodeOneMore(s, {'&'}, '<', {'&', '<'});
    EncodeOneMore(s, {'&', '<'}, '>', {'&', '<', '>'});
    EncodeOneMore(s, {'&', '<', '>'}, '"', {'&', '<', '>', '"'});
    EncodeOneMore(s, {'&', '<', '>', '"'}, '\'', SPECIAL);
  }

  /** Unescaping undoes escaping, for every string. */
  lemma UnescapeUndoesEscape(s: string)
    ensures UnescapeHtml(EscapeHtml(s)) == s
  {
    EscapeIsEncoding(s);
    DecodeOne(s, SPECIAL, '\'', {'&', '<', '>', '"'});
    DecodeOne(s, {'&', '<', '>', '"'}, '"', {'&', '<', '>'});
    DecodeOne(s, {'&', '<', '>'}, '>', {'&', '<'});
    DecodeOne(s, {'&', '<'}, '<', {'&'});
    DecodeOne(s, {'&'}, '&', {});
    EncodedNone(s);
  }

  // -------------------------------------------------------------------------
  // The page
  // -------------------------------------------------------------------------

  /** Font URLs that the style sheet embeds. */
  datatype Fonts = Fonts(chrome: string, evidence: string)

  /** The style sheet's text before, between and after the two font URLs. */
  datatype Style = Style(before: string, between: string, after: string)

  datatype CardSpec =
    | Title(text: string)
    | Numbers(text: string)
    | Close(text: string)
    | Audit(heading: string, raw: string)
    | Footer(heading: string, raw: string)

  const PAYLOAD_OPEN := "<pre " + "class=\"evidence\" " + "data-card-payload>"
  const PAYLOAD_CLOSE := "</pre>"

  const HEAD_END := "</style>" + ("</head>" + "<body>")
  const PAGE_END := "</body></html>"

  function Css(style: Style, fonts: Fonts): string {
    style.before + fonts.chrome + style.between + fonts.evidence + style.after
  }

  /** Everything of the page before the card. */
  function Head(style: Style, fonts: Fonts): string {
    "<!doctype html>"
    + ("<html>" + ("<head>" + ("<meta charset=\"utf-8\">" + (("<style>" + Css(style, fonts)) + HEAD_END))))
  }

  /** An evidence card: a heading, the literal payload in an element of its own, and a note. */
  function Evidence(heading: string, raw: string, after: string): string {
    ("<h2>" + EscapeHtml(heading))
    + ("</h2>" + (PAYLOAD_OPEN + (EscapeHtml(raw) + (PAYLOAD_CLOSE + after))))
  }

  function Note(what: string): string {
    "<p class=\"sub soft\">real " + what + " \U{2014} read at capture time, rendered verbatim</p>"
  }

  function Body(spec: CardSpec): string {
    match spec
    case Title(text) => "<h1>" + EscapeHtml(text) + "</h1>" + PAGE_END
    case Numbers(text) =>
      "<h2>The verified numbers</h2><p class=\"sub\">" + EscapeHtml(text) + "</p>" + PAGE_END
    case Close(text) => "<p class=\"sub\">" + EscapeHtml(text) + "</p>" + PAGE_END
    case Audit(heading, raw) => Evidence(heading, raw, Note("audit log rows") + PAGE_END)
    case Footer(heading, raw) => Evidence(heading, raw, Note("PDF footer") + PAGE_END)
  }

  function CardHtml(style: Style, fonts: Fonts, spec: CardSpec): string {
    Head(style, fonts) + Body(spec)
  }

  /** What follows a tag, up to the nearest `close`, unescaped. */
  function TextUpTo(rest: string, close: string): Option<string> {
    match Find(rest, close) case None => None case Some(j) => Some(UnescapeHtml(rest[..j]))
  }

  /** What follows the first occurrence of a tag. */
  function AfterTag(html: string, tag: string): Option<string> {
    var k := Find(html, tag);
    if k.Some? then Some(html[k.value + |tag|..]) else None
  }

  /** The text after the first `open`. */
  function TextBetween(html: string, open: string, close: string): Option<string> {
    match AfterTag(html, open) case None => None case Some(rest) => TextUpTo(rest, close)
  }

  function CardTextOf(html: string): Option<string> {
    TextBetween(html, PAYLOAD_OPEN, PAYLOAD_CLOSE)
  }

  predicate HasPayload(spec: CardSpec) {
    spec.Audit? || spec.Footer?
  }

  /** The style sheet holds no markup. */
  predicate PlainStyle(style: Style) {
    '<' !in style.before && '<' !in style.between && '<' !in style.after
  }

  // -------------------------------------------------------------------------
  // Where tags can start
  // -------------------------------------------------------------------------

  /** One tag: markup at its start and nowhere else. */
  predicate IsTag(tag: string) {
    |tag| >= 3 && tag[0] == '<' && '<' !in tag[1..]
  }

  lemma PayloadTags()
    ensures IsTag(PAYLOAD_OPEN) && PAYLOAD_OPEN[1] == 'p' && PAYLOAD_OPEN[2] == 'r'
    ensures IsTag(PAYLOAD_CLOSE) && |PAYLOAD_CLOSE| == 6
  {
    assert PAYLOAD_OPEN[1..] == "pre " + "class=\"evidence\" " + "data-card-payload>";
    assert PAYLOAD_CLOSE[1..] == "/pre>";
  }

  /** Text without markup, or one tag that starts unlike `open`, with text after it. */
  predicate Harmless(piece: string, open: string)
    requires IsTag(open)
  {
    '<' !in piece || (IsTag(piece) && (piece[1] != open[1] || piece[2] != open[2]))
  }

  lemma NotAt(all: string, open: string, q: nat)
    requires IsTag(open) && q < |all| && (q + 3 <= |all| ==> all[q..q + 3] != open[..3])
    ensures !OccursAt(all, open, q)
  {
    if q + |open| <= |all| {
      assert all[q..q + |open|][..3] == all[q..q + 3];
    }
  }

  /** A harmless piece before the rest does not hold the tag, not even its start. */
  lemma SkipPiece(piece: string, rest: string, open: string)
    requires IsTag(open) && Harmless(piece, open)
    ensures Find(piece + rest, open) == (match Find(rest, open) case None => None case Some(k) => Some(|piece| + k))
  {
    var all := piece + rest;
    forall q | 0 <= q < |piece|
      ensures !OccursAt(all, open, q)
    {
      assert all[q] == piece[q] && piece[q] in piece;
      assert q > 0 ==> piece[q] == piece[1..][q - 1] && piece[1..][q - 1] in piece[1..];
      assert q + 3 <= |all| ==> all[q..q + 3] == [all[q], all[q + 1], all[q + 2]];
      assert open[..3] == [open[0], open[1], open[2]];
      NotAt(all, open, q);
    }
    FindAfter(piece, rest, open);
  }

  lemma {:induction false} EncodedHasNoMarkup(s: string)
    ensures '<' !in Encoded(s, SPECIAL)
  {
    if s != "" {
      EncodedHasNoMarkup(s[1..]);
      if s[0] in SPECIAL {
        assert '<' !in Token(s[0]);
      }
    }
  }

  lemma EscapedHasNoMarkup(s: string)
    ensures '<' !in EscapeHtml(s)
  {
    EscapeIsEncoding(s);
    EncodedHasNoMarkup(s);
  }

  // -------------------------------------------------------------------------
  // The page head
  // -------------------------------------------------------------------------

  lemma EndsAlike(a: string, b: string, n: nat)
    requires n <= |b|
    ensures (a + b)[|a + b| - n..] == b[|b| - n..]
  {
  }

  lemma EndsNested(a: string, b: string, c: string, d: string, e: string, f: string, n: nat)
    requires n <= |f|
    ensures var all := a + (b + (c + (d + (e + f))));
            |all| >= |f| && all[|all| - n..] == f[|f| - n..]
  {
    EndsAlike(e, f, n);
    EndsAlike(d, e + f, n);
    EndsAlike(c, d + (e + f), n);
    EndsAlike(b, c + (d + (e + f)), n);
    EndsAlike(a, b + (c + (d + (e + f))), n);
  }

  /** Text that ends with the body tag. */
  predicate EndsInBody(h: string) {
    |h| >= 6 && h[|h| - 6] == '<' && h[|h| - 5] == 'b' && '<' !in h[|h| - 5..]
  }

  lemma HeadEnds(style: Style, fonts: Fonts)
    ensures EndsInBody(Head(style, fonts))
  {
    var end := "</style>" + ("</head>" + "<body>");
    EndsAlike("</head>", "<body>", 6);
    EndsAlike("</style>", "</head>" + "<body>", 6);
    EndsNested("<!doctype html>", "<html>", "<head>", "<meta charset=\"utf-8\">", "<style>" + Css(style, fonts), end,
               6);
    BodyTagEnds(Head(style, fonts));
  }

  lemma BodyTagEnds(h: string)
    requires |h| >= 6 && h[|h| - 6..] == "<body>"
    ensures EndsInBody(h)
  {
    var tail := h[|h| - 6..];
    assert h[|h| - 6] == tail[0] && h[|h| - 5] == tail[1] && h[|h| - 5..] == tail[1..];
    assert "<body>"[1..] == "body>";
  }

  /** No tag but a body tag reaches into, or starts in, those last six characters. */
  lemma NothingOverBodyTag(h: string, rest: string, open: string, q: nat)
    requires EndsInBody(h) && IsTag(open) && open[1] != 'b' && q < |h| && OccursAt(h + rest, open, q)
    ensures q + |open| <= |h| - 6
  {
    var all, e := h + rest, |h| - 6;
    var found := all[q..q + |open|];
    assert found == open && found[0] == all[q] == h[q] && found[1] == all[q + 1];
    assert all[e] == '<' && all[e + 1] == 'b';
    forall i | q < i < q + |open|
      ensures all[i] != '<'
    {
      assert found[i - q] == all[i] && open[1..][i - q - 1] == open[i - q] && open[1..][i - q - 1] in open[1..];
    }
    forall i | e < i < |h|
      ensures h[i] != '<'
    {
      assert h[i] == h[e + 1..][i - e - 1] && h[e + 1..][i - e - 1] in h[e + 1..];
    }
    assert q < e;
  }

  /** Appending to a head cannot complete a tag. */
  lemma HeadIsSkipped(h: string, rest: string, open: string)
    requires EndsInBody(h) && IsTag(open) && open[1] != 'b' && Find(h, open).None?
    ensures Find(h + rest, open) == (match Find(rest, open) case None => None case Some(k) => Some(|h| + k))
  {
    FindIsFirst(h, open);
    forall q | 0 <= q < |h|
      ensures !OccursAt(h + rest, open, q)
    {
      assert !OccursAt(h, open, q);
      assert q + |open| <= |h| ==> (h + rest)[q..q + |open|] == h[q..q + |open|];
      if q + |open| > |h| - 6 {
        NotOverBodyTag(h, rest, open, q);
      }
    }
    FindAfter(h, rest, open);
  }

  lemma NotOverBodyTag(h: string, rest: string, open: string, q: nat)
    requires EndsInBody(h) && IsTag(open) && open[1] != 'b' && q < |h| && q + |open| > |h| - 6
    ensures !OccursAt(h + rest, open, q)
  {
    if OccursAt(h + rest, open, q) {
      NothingOverBodyTag(h, rest, open, q);
    }
  }

  // -------------------------------------------------------------------------
  // Recovering
  // -------------------------------------------------------------------------

  /** Escaped text runs to the first tag after it. */
  lemma TextRuns(text: string, close: string, after: string)
    requires '<' !in text && IsTag(close)
    ensures Find(text + (close + after), close) == Some(|text|)
    ensures (text + (close + after))[..|text|] == text
  {
    var tail := close + after;
    forall q | 0 <= q < |text|
      ensures !OccursAt(text + tail, close, q)
    {
      assert (text + tail)[q] == text[q] && text[q] in text;
      assert q + |close| <= |text + tail| ==> (text + tail)[q..q + |close|][0] == text[q];
    }
    FindAfter(text, tail, close);
    FindsFirst(tail, close, 0);
  }

  lemma PayloadIsText(raw: string, close: string, after: string)
    requires IsTag(close)
    ensures TextUpTo(EscapeHtml(raw) + (close + after), close) == Some(raw)
  {
    EscapedHasNoMarkup(raw);
    TextRuns(EscapeHtml(raw), close, after);
    UnescapeUndoesEscape(raw);
  }

  /** After a heading and its end tag, the next tag is found where it stands. */
  lemma TagAfterHeading(lead: string, bar: string, open: string, inner: string)
    requires IsTag(open) && Harmless(lead, open) && Harmless(bar, open)
    ensures Find(lead + (bar + (open + inner)), open) == Some(|lead| + |bar|)
  {
    FindsFirst(open + inner, open, 0);
    SkipPiece(bar, open + inner, open);
    SkipPiece(lead, bar + (open + inner), open);
  }

  lemma Past(lead: string, bar: string, open: string, inner: string)
    ensures (lead + (bar + (open + inner)))[|lead| + |bar| + |open|..] == inner
  {
  }

  lemma BodyReads(lead: string, bar: string, open: string, inner: string, close: string)
    requires IsTag(open) && Harmless(lead, open) && Harmless(bar, open)
    ensures Find(lead + (bar + (open + inner)), open).Some?
    ensures TextBetween(lead + (bar + (open + inner)), open, close) == TextUpTo(inner, close)
  {
    TagAfterHeading(lead, bar, open, inner);
    Past(lead, bar, open, inner);
  }

  /** A clean head changes nothing of what is read. */
  lemma CleanHeadReads(h: string, body: string, open: string, close: string)
    requires EndsInBody(h) && Find(h, open).None? && IsTag(open) && open[1] != 'b' && Find(body, open).Some?
    ensures TextBetween(h + body, open, close) == TextBetween(body, open, close)
  {
    HeadIsSkipped(h, body, open);
    DropsPast(h, body, Find(body, open).value, |open|, Find(h + body, open).value);
    SameFromTag(h + body, body, open, close);
  }

  lemma SameFromTag(html: string, body: string, open: string, close: string)
    requires Find(html, open).Some? && Find(body, open).Some?
    requires html[Find(html, open).value + |open|..] == body[Find(body, open).value + |open|..]
    ensures TextBetween(html, open, close) == TextBetween(body, open, close)
  {
  }

  lemma DropsPast(h: string, body: string, k: nat, n: nat, at: nat)
    requires at == |h| + k && k + n <= |body|
    ensures (h + body)[at + n..] == body[k + n..]
  {
  }

  ghost predicate Recovers(style: Style, fonts: Fonts, spec: CardSpec)
    requires HasPayload(spec)
  {
    CardTextOf(CardHtml(style, fonts, spec)) == Some(spec.raw)
  }

  function After(spec: CardSpec): string {
    (if spec.Audit? then Note("audit log rows") else Note("PDF footer")) + PAGE_END
  }

  lemma HeadingIsHarmless(heading: string, open: string)
    requires IsTag(open) && open[1] == 'p'
    ensures Harmless("<h2>" + EscapeHtml(heading), open) && Harmless("</h2>", open)
  {
    EscapedHasNoMarkup(heading);
    assert ("<h2>" + EscapeHtml(heading))[1..] == "h2>" + EscapeHtml(heading);
    assert "</h2>"[1..] == "/h2>";
  }

  lemma CleanHeadRecovers(style: Style, fonts: Fonts, spec: CardSpec)
    requires Find(Head(style, fonts), PAYLOAD_OPEN).None? && HasPayload(spec)
    ensures Recovers(style, fonts, spec)
  {
    PayloadTags();
    HeadEnds(style, fonts);
    HeadingIsHarmless(spec.heading, PAYLOAD_OPEN);
    BodyReads("<h2>" + EscapeHtml(spec.heading), "</h2>", PAYLOAD_OPEN,
              EscapeHtml(spec.raw) + (PAYLOAD_CLOSE + After(spec)), PAYLOAD_CLOSE);
    CleanHeadReads(Head(style, fonts), Body(spec), PAYLOAD_OPEN, PAYLOAD_CLOSE);
    PayloadIsText(spec.raw, PAYLOAD_CLOSE, After(spec));
  }

  lemma {:induction false} ReplacingKeepsMarkup(s: string, what: string, with: string)
    requires what != "" && '<' !in what && '<' in s
    ensures '<' in ReplaceAll(s, what, with)
    decreases |s|
  {
    if what <= s {
      assert s == what + s[|what|..];
      ReplacingKeepsMarkup(s[|what|..], what, with);
    } else if s[0] != '<' {
      assert s == [s[0]] + s[1..];
      ReplacingKeepsMarkup(s[1..], what, with);
    }
  }

  lemma UnescapingKeepsMarkup(s: string)
    requires '<' in s
    ensures '<' in UnescapeHtml(s)
  {
    var a := ReplaceAll(s, "&#39;", "'");
    ReplacingKeepsMarkup(s, "&#39;", "'");
    var b := ReplaceAll(a, "&quot;", "\"");
    ReplacingKeepsMarkup(a, "&quot;", "\"");
    var c := ReplaceAll(b, "&gt;", ">");
    ReplacingKeepsMarkup(b, "&gt;", ">");
    var d := ReplaceAll(c, "&lt;", "<");
    ReplacingKeepsMarkup(c, "&lt;", "<");
    ReplacingKeepsMarkup(d, "&amp;", "&");
  }

  lemma AfterTagAt(html: string, tag: string, k: nat)
    requires Find(html, tag) == Some(k)
    ensures k + |tag| <= |html| && AfterTag(html, tag) == Some(html[k + |tag|..])
  {
  }

  lemma TailOfConcat(h: string, body: string, k: nat)
    requires k <= |h|
    ensures (h + body)[k..] == h[k..] + body
  {
  }

  /** A tag in the head is the one that is read from, whatever the card. */
  lemma HeadTagIsRead(h: string, body: string, open: string)
    requires Find(h, open).Some?
    ensures AfterTag(h + body, open) == Some(h[Find(h, open).value + |open|..] + body)
  {
    var k := Find(h, open).value;
    FindInPrefix(h, body, open);
    AfterTagAt(h + body, open, k);
    TailOfConcat(h, body, k + |open|);
  }

  lemma HeadTagLeavesBodyTag(h: string, open: string)
    requires EndsInBody(h) && IsTag(open) && open[1] != 'b' && Find(h, open).Some?
    ensures var r := h[Find(h, open).value + |open|..];
            |r| >= 6 && r[|r| - 6] == '<'
  {
    FindIsFirst(h, open);
    assert h + "" == h;
    NothingOverBodyTag(h, "", open, Find(h, open).value);
  }

  /** A closing tag in the head ends every payload at the same place. */
  lemma SameTextForAll(r: string, body: string, other: string, close: string)
    requires Find(r, close).Some?
    ensures TextUpTo(r + body, close) == TextUpTo(r + other, close)
  {
    FindInPrefix(r, body, close);
    FindInPrefix(r, other, close);
    var j := Find(r, close).value;
    assert (r + body)[..j] == r[..j] == (r + other)[..j];
  }

  /** Without one, what is read goes past the head's last tag. */
  lemma TextHoldsMarkup(r: string, body: string, close: string)
    requires |r| >= 6 && r[|r| - 6] == '<' && |close| == 6 && Find(r, close).None?
    ensures TextUpTo(r + body, close) != Some("")
  {
    if Find(r + body, close).Some? {
      var j := Find(r + body, close).value;
      EndsBeyond(r, body, close);
      assert (r + body)[..j][|r| - 6] == '<';
      UnescapingKeepsMarkup((r + body)[..j]);
    }
  }

  lemma OccursInPrefix(r: string, body: string, part: string, j: nat)
    requires OccursAt(r + body, part, j) && j + |part| <= |r|
    ensures OccursAt(r, part, j)
  {
    assert r[j..j + |part|] == (r + body)[j..j + |part|];
  }

  lemma EndsBeyond(r: string, body: string, part: string)
    requires Find(r, part).None? && Find(r + body, part).Some?
    ensures Find(r + body, part).value + |part| > |r|
  {
    FindIsFirst(r + body, part);
    FindIsFirst(r, part);
    var j := Find(r + body, part).value;
    if j + |part| <= |r| {
      OccursInPrefix(r, body, part, j);
    }
  }

  /** With a tag in the head, an empty payload, or one that is not, is not what comes back. */
  lemma HeadTagMisreads(h: string, empty: string, other: string, open: string, close: string)
    requires EndsInBody(h) && IsTag(open) && open[1] != 'b' && |close| == 6 && Find(h, open).Some?
    ensures TextBetween(h + empty, open, close) != Some("") || TextBetween(h + other, open, close) != Some("a")
  {
    HeadTagIsRead(h, empty, open);
    HeadTagIsRead(h, other, open);
    HeadTagLeavesBodyTag(h, open);
    var r := h[Find(h, open).value + |open|..];
    if Find(r, close).Some? {
      SameTextForAll(r, empty, other, close);
    } else {
      TextHoldsMarkup(r, empty, close);
    }
  }

  lemma SomePayloadIsLost(style: Style, fonts: Fonts)
    requires Find(Head(style, fonts), PAYLOAD_OPEN).Some?
    ensures !Recovers(style, fonts, Audit("", "")) || !Recovers(style, fonts, Audit("", "a"))
  {
    PayloadTags();
    HeadEnds(style, fonts);
    HeadTagMisreads(Head(style, fonts), Body(Audit("", "")), Body(Audit("", "a")), PAYLOAD_OPEN, PAYLOAD_CLOSE);
  }

  /** Every evidence card's payload comes back exactly when the page head does not hold the payload tag itself. */
  lemma PayloadsComeBack(style: Style, fonts: Fonts)
    ensures (forall spec :: HasPayload(spec) ==> Recovers(style, fonts, spec))
       <==> Find(Head(style, fonts), PAYLOAD_OPEN).None?
  {
    if Find(Head(style, fonts), PAYLOAD_OPEN).None? {
      forall spec | HasPayload(spec)
        ensures Recovers(style, fonts, spec)
      {
        CleanHeadRecovers(style, fonts, spec);
      }
    } else {
      SomePayloadIsLost(style, fonts);
    }
  }

  // -------------------------------------------------------------------------
  // Fonts without markup
  // -------------------------------------------------------------------------

  predicate IsBase64(c: char) {
    'A' <= c <= 'Z' || 'a' <= c <= 'z' || '0' <= c <= '9' || c == '+' || c == '/' || c == '='
  }

  /** The data URL the font loader makes of a file's bytes. */
  function DataUrl(base64: string): string {
    "data:font/woff2;base64," + base64
  }

  lemma DataUrlsHaveNoMarkup(base64: string)
    requires forall c :: c in base64 ==> IsBase64(c)
    ensures '<' !in DataUrl(base64)
  {
    assert !IsBase64('<');
  }

  lemma CleanBefore(piece: string, rest: string, open: string)
    requires IsTag(open) && Harmless(piece, open) && Find(rest, open).None?
    ensures Find(piece + rest, open).None?
  {
    SkipPiece(piece, rest, open);
  }

  lemma CleanNested(a: string, b: string, c: string, d: string, e: string, f: string, open: string)
    requires IsTag(open) && Harmless(a, open) && Harmless(b, open) && Harmless(c, open)
    requires Harmless(d, open) && Harmless(e, open) && Find(f, open).None?
    ensures Find(a + (b + (c + (d + (e + f)))), open).None?
  {
    CleanBefore(e, f, open);
    CleanBefore(d, e + f, open);
    CleanBefore(c, d + (e + f), open);
    CleanBefore(b, c + (d + (e + f)), open);
    CleanBefore(a, b + (c + (d + (e + f))), open);
  }

  lemma HarmlessTag(tag: string, inner: string, open: string)
    requires IsTag(open) && open[1] == 'p' && |inner| >= 2 && tag == "<" + inner && inner[0] != 'p' && '<' !in inner
    ensures Harmless(tag, open)
  {
    assert tag[1..] == inner;
  }

  lemma HeadEndIsClean(open: string)
    requires IsTag(open) && open[1] == 'p'
    ensures Find("</style>" + ("</head>" + "<body>"), open).None?
  {
    HarmlessTag("<body>", "body>", open);
    HarmlessTag("</head>", "/head>", open);
    HarmlessTag("</style>", "/style>", open);
    assert Find("", open).None?;
    CleanBefore("<body>", "", open);
    assert "<body>" + "" == "<body>";
    CleanBefore("</head>", "<body>", open);
    CleanBefore("</style>", "</head>" + "<body>", open);
  }

  lemma HeadTagsAreHarmless(css: string, open: string)
    requires IsTag(open) && open[1] == 'p' && '<' !in css
    ensures Harmless("<!doctype html>", open) && Harmless("<html>", open) && Harmless("<head>", open)
    ensures Harmless("<meta charset=\"utf-8\">", open) && Harmless("<style>" + css, open)
  {
    HarmlessTag("<!doctype html>", "!doctype html>", open);
    HarmlessTag("<html>", "html>", open);
    HarmlessTag("<head>", "head>", open);
    HarmlessTag("<meta charset=\"utf-8\">", "meta charset=\"utf-8\">", open);
    HarmlessTag("<style>" + css, "style>" + css, open);
  }

  /** Fonts and style without markup leave the head clean. */
  lemma PlainFontsAreClean(style: Style, fonts: Fonts)
    requires PlainStyle(style) && '<' !in fonts.chrome && '<' !in fonts.evidence
    ensures Find(Head(style, fonts), PAYLOAD_OPEN).None?
  {
    PayloadTags();
    HeadEndIsClean(PAYLOAD_OPEN);
    HeadTagsAreHarmless(Css(style, fonts), PAYLOAD_OPEN);
    CleanNested("<!doctype html>", "<html>", "<head>", "<meta charset=\"utf-8\">", "<style>" + Css(style, fonts),
                HEAD_END, PAYLOAD_OPEN);
  }

  /** With vendored fonts as data URLs, the payload of every evidence card comes back byte for byte. */
  lemma VendoredFontsRecover(style: Style, chrome: string, evidence: string, spec: CardSpec)
    requires PlainStyle(style) && HasPayload(spec)
    requires (forall c :: c in chrome ==> IsBase64(c)) && (forall c :: c in evidence ==> IsBase64(c))
    ensures Recovers(style, Fonts(DataUrl(chrome), DataUrl(evidence)), spec)
  {
    DataUrlsHaveNoMarkup(chrome);
    DataUrlsHaveNoMarkup(evidence);
    PlainFontsAreClean(style, Fonts(DataUrl(chrome), DataUrl(evidence)));
    CleanHeadRecovers(style, Fonts(DataUrl(chrome), DataUrl(evidence)), spec);
  }
}
