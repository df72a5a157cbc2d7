/**
 * The strict contract on generator output: blocks of claim lines, or of box lines, with blank lines between
 * them and nothing else. There is no salvage parsing: any deviation refuses the whole output.
 */
module Generation {
  import opened Basics
  import opened Text

  const DRAFT_CLAIMS_MAX := 6
  const DRAFT_BOXES_MAX := 8
  const TITLE_MAX := 80

  datatype Claim = Claim(text: string, docId: string, quote: string)

  datatype Box = Box(title: string, description: string, docId: string, quote: string)

  datatype Fault =
    | ExpectedClaim | EmptyClaim | ExpectedBox | EmptyTitle | LongTitle | BracketInTitle
    | MissingDescription | ExpectedDescription | EmptyDescription | BracketInDescription
    | MissingSource | ExpectedSource | BadSource | MissingQuote | ExpectedQuote | OpenQuote
    | TooMany | NothingParsed

  // -------------------------------------------------------------------------
  // Lines
  // -------------------------------------------------------------------------

  /** Everything before the first newline. */
  function FirstLine(s: string): (r: string)
    ensures r <= s && '\n' !in r
    ensures |r| < |s| ==> s[|r|] == '\n'
  {
    if s == "" || s[0] == '\n' then "" else [s[0]] + FirstLine(s[1..])
  }

  /** The library's line splitting: a final newline does not open another line. */
  function SplitLines(s: string): seq<string> {
    if s == "" then []
    else
      var first := FirstLine(s);
      if |first| == |s| then [first] else [first] + SplitLines(s[|first| + 1..])
  }

  function TrimCarriageReturns(line: string): (r: string)
    ensures r <= line
    ensures line == "" || line[|line| - 1] != '\r' ==> r == line
  {
    if line != "" && line[|line| - 1] == '\r' then TrimCarriageReturns(line[..|line| - 1]) else line
  }

  function Lines(text: string): seq<string> {
    Map(TrimCarriageReturns, SplitLines(text))
  }

  lemma {:induction false} FirstLineOf(line: string, rest: string)
    requires '\n' !in line && (rest == "" || rest[0] == '\n')
    ensures FirstLine(line + rest) == line
  {
    if line == "" {
      assert line + rest == rest;
    } else {
      assert (line + rest)[1..] == line[1..] + rest;
      FirstLineOf(line[1..], rest);
    }
  }

  lemma SplitOneMore(line: string, rest: string)
    requires '\n' !in line
    ensures SplitLines(line + "\n" + rest) == [line] + SplitLines(rest)
    ensures line != "" ==> SplitLines(line) == [line]
  {
    FirstLineOf(line, "\n" + rest);
    assert line + ("\n" + rest) == line + "\n" + rest;
    assert (line + "\n" + rest)[|line| + 1..] == rest;
    FirstLineOf(line, "");
    assert line + "" == line;
  }

  lemma {:induction false} NoNewlineInLines(s: string)
    ensures forall i :: 0 <= i < |SplitLines(s)| ==> '\n' !in SplitLines(s)[i]
  {
    if s != "" && |FirstLine(s)| < |s| {
      NoNewlineInLines(s[|FirstLine(s)| + 1..]);
    }
  }

  predicate Blank(line: string) {
    Trim(line) == ""
  }

  function StripPrefix(prefix: string, line: string): Option<string> {
    if prefix <= line then Some(line[|prefix|..]) else None
  }

  // -------------------------------------------------------------------------
  // One block
  // -------------------------------------------------------------------------

  predicate HasWhitespace(s: string) {
    exists c :: c in s && IsWhitespace(c)
  }

  predicate HasBracket(s: string) {
    '[' in s || ']' in s
  }

  function ParseSource(lines: seq<string>, at: nat): Result<string, Fault> {
    if at >= |lines| then Err(MissingSource)
    else match StripPrefix("SOURCE: ", lines[at])
      case None => Err(ExpectedSource)
      case Some(rest) => var id := Trim(rest); if id == "" || HasWhitespace(id) then Err(BadSource) else Ok(id)
  }

  function ParseQuote(lines: seq<string>, at: nat): Result<string, Fault> {
    if at >= |lines| then Err(MissingQuote)
    else match StripPrefix("QUOTE: \"", lines[at])
      case None => Err(ExpectedQuote)
      case Some(rest) => if rest == "" || rest[|rest| - 1] != '"' then Err(OpenQuote) else Ok(rest[..|rest| - 1])
  }

  /** The claim block at the head of `lines`. */
  function ClaimBlock(lines: seq<string>): Result<Claim, Fault> {
    if lines == [] || StripPrefix("CLAIM: ", lines[0]).None? then Err(ExpectedClaim)
    else
      var text := Trim(StripPrefix("CLAIM: ", lines[0]).value);
      if text == "" then Err(EmptyClaim)
      else match ParseSource(lines, 1)
        case Err(e) => Err(e)
        case Ok(id) => match ParseQuote(lines, 2) case Err(e) => Err(e) case Ok(quote) => Ok(Claim(text, id, quote))
  }

  function ParseDescription(lines: seq<string>): Result<string, Fault> {
    if |lines| < 2 then Err(MissingDescription)
    else match StripPrefix("DESC: ", lines[1])
      case None => Err(ExpectedDescription)
      case Some(rest) =>
        var description := Trim(rest);
        if description == "" then Err(EmptyDescription)
        else if HasBracket(description) then Err(BracketInDescription) else Ok(description)
  }

  function ParseTitle(lines: seq<string>): Result<string, Fault> {
    if lines == [] || StripPrefix("BOX: ", lines[0]).None? then Err(ExpectedBox)
    else
      var title := Trim(StripPrefix("BOX: ", lines[0]).value);
      if title == "" then Err(EmptyTitle)
      else if |title| > TITLE_MAX then Err(LongTitle)
      else if HasBracket(title) then Err(BracketInTitle) else Ok(title)
  }

  /** The box block at the head of `lines`. */
  function BoxBlock(lines: seq<string>): Result<Box, Fault> {
    match ParseTitle(lines)
    case Err(e) => Err(e)
    case Ok(title) =>
      match ParseDescription(lines)
      case Err(e) => Err(e)
      case Ok(description) =>
        match ParseSource(lines, 2)
        case Err(e) => Err(e)
        case Ok(id) =>
          match ParseQuote(lines, 3) case Err(e) => Err(e) case Ok(quote) => Ok(Box(title, description, id, quote))
  }

  // -------------------------------------------------------------------------
  // The grammar: blocks until the lines run out
  // -------------------------------------------------------------------------

  function Drop<T>(s: seq<T>, n: nat): seq<T> {
    if |s| <= n then [] else s[n..]
  }

  /** A contract on output: which lines separate, how a block reads, its height, and how many are allowed. */
  datatype Grammar<T> = Grammar(blank: string -> bool, block: seq<string> -> Result<T, Fault>, height: nat, max: nat)

  const CLAIMS: Grammar<Claim> := Grammar(Blank, ClaimBlock, 3, DRAFT_CLAIMS_MAX)
  const BOXES: Grammar<Box> := Grammar(Blank, BoxBlock, 4, DRAFT_BOXES_MAX)

  /** What the lines hold after `n` blocks have been accepted. */
  function Blocks<T>(g: Grammar<T>, lines: seq<string>, n: nat): Result<seq<T>, Fault>
    requires g.height > 0
    decreases |lines|
  {
    if lines == [] then Ok([])
    else if g.blank(lines[0]) then Blocks(g, lines[1..], n)
    else match g.block(lines)
      case Err(e) => Err(e)
      case Ok(x) =>
        if n + 1 > g.max then Err(TooMany)
        else match Blocks(g, Drop(lines, g.height), n + 1)
          case Err(e) => Err(e)
          case Ok(xs) => Ok([x] + xs)
  }

  function AtLeastOne<T>(r: Result<seq<T>, Fault>): Result<seq<T>, Fault> {
    if r == Ok([]) then Err(NothingParsed) else r
  }

  function ParsedClaims(output: string): Result<seq<Claim>, Fault> {
    AtLeastOne(Blocks(CLAIMS, Lines(output), 0))
  }

  function ParsedBoxes(output: string): Result<seq<Box>, Fault> {
    AtLeastOne(Blocks(BOXES, Lines(output), 0))
  }

  /** How a loop that has accepted `done` and is looking at `lines` will end. */
  function Ending<T>(done: seq<T>, r: Result<seq<T>, Fault>): Result<seq<T>, Fault> {
    match r case Err(e) => Err(e) case Ok(xs) => Ok(done + xs)
  }

  lemma EndingOfNone<T>(r: Result<seq<T>, Fault>)
    ensures Ending([], r) == r
  {
    if r.Ok? {
      assert [] + r.value == r.value;
    }
  }

  lemma EndingOneMore<T>(done: seq<T>, x: T, r: Result<seq<T>, Fault>)
    ensures Ending(done, match r case Err(e) => Err(e) case Ok(xs) => Ok([x] + xs)) == Ending(done + [x], r)
  {
    if r.Ok? {
      assert done + ([x] + r.value) == done + [x] + r.value;
    }
  }

  /** One turn of the parse loop on a line that is not blank. */
  lemma BlockStep<T>(g: Grammar<T>, lines: seq<string>, done: seq<T>)
    requires g.height > 0 && lines != [] && !g.blank(lines[0])
    ensures var end, next := Ending(done, Blocks(g, lines, |done|)), g.block(lines);
            if next.Err? then end == Err(next.error)
            else if |done| + 1 > g.max then end == Err(TooMany)
            else end == Ending(done + [next.value], Blocks(g, Drop(lines, g.height), |done| + 1))
  {
    if g.block(lines).Ok? && |done| + 1 <= g.max {
      EndingOneMore(done, g.block(lines).value, Blocks(g, Drop(lines, g.height), |done| + 1));
    }
  }

  lemma EndingOfAll<T>(done: seq<T>)
    ensures Ending(done, Ok([])) == Ok(done)
  {
    assert done + [] == done;
  }

  /** The loop both parsers run: skip blank lines, read a block, push it, refuse at the first fault. */
  method ParseAll<T(==)>(g: Grammar<T>, lines: seq<string>) returns (r: Result<seq<T>, Fault>)
    requires g.height > 0
    ensures r == AtLeastOne(Blocks(g, lines, 0))
  {
    var blocks: seq<T> := [];
    var rest := lines;
    EndingOfNone(Blocks(g, lines, 0));
    while rest != []
      invariant Blocks(g, lines, 0) == Ending(blocks, Blocks(g, rest, |blocks|))
      decreases |rest|
    {
      if g.blank(rest[0]) {
        rest := rest[1..];
        continue;
      }
      BlockStep(g, rest, blocks);
      var next := g.block(rest);
      if next.Err? {
        return Err(next.error);
      }
      blocks := blocks + [next.value];
      if |blocks| > g.max {
        return Err(TooMany);
      }
      rest := Drop(rest, g.height);
    }
    EndingOfAll(blocks);
    return if blocks == [] then Err(NothingParsed) else Ok(blocks);
  }

  method ParseClaims(output: string) returns (r: Result<seq<Claim>, Fault>)
    ensures r == ParsedClaims(output)
  {
    r := ParseAll(CLAIMS, Lines(output));
  }

  method ParseBoxes(output: string) returns (r: Result<seq<Box>, Fault>)
    ensures r == ParsedBoxes(output)
  {
    r := ParseAll(BOXES, Lines(output));
  }

  // -------------------------------------------------------------------------
  // Printing
  // -------------------------------------------------------------------------

  function ClaimLines(): Claim -> seq<string> {
    (c: Claim) => ["CLAIM: " + c.text, "SOURCE: " + c.docId, "QUOTE: \"" + c.quote + "\""]
  }

  function BoxLines(): Box -> seq<string> {
    (b: Box) => ["BOX: " + b.title, "DESC: " + b.description, "SOURCE: " + b.docId, "QUOTE: \"" + b.quote + "\""]
  }

  /** Blocks separated by one blank line. */
  function PrintBlocks<T>(format: T -> seq<string>, xs: seq<T>): string {
    if xs == [] then ""
    else if |xs| == 1 then JoinLines(format(xs[0]))
    else JoinLines(format(xs[0])) + "\n\n" + PrintBlocks(format, xs[1..])
  }

  function PrintedLines<T>(format: T -> seq<string>, xs: seq<T>): seq<string> {
    if xs == [] then []
    else if |xs| == 1 then format(xs[0])
    else format(xs[0]) + [""] + PrintedLines(format, xs[1..])
  }

  /** A line that line splitting gives back as it is. */
  predicate PlainLine(line: string) {
    line != "" && '\n' !in line && line[|line| - 1] != '\r'
  }

  predicate PlainLines(lines: seq<string>) {
    lines != [] && forall i :: 0 <= i < |lines| ==> PlainLine(lines[i])
  }

  lemma HeadAndTail<T>(s: seq<T>)
    requires s != []
    ensures [s[0]] + s[1..] == s
    ensures |s| == 1 ==> s == [s[0]]
  {
  }

  lemma RegroupFour(a: string, b: string, c: string, d: string)
    ensures a + b + c + d == a + (b + c + d)
  {
  }

  lemma SplitJoinedStep(line: string, tail: string, rest: string)
    requires PlainLine(line)
    ensures SplitLines(line + "\n" + tail) == [line] + SplitLines(tail)
    ensures SplitLines(line + "\n" + tail + "\n" + rest) == [line] + SplitLines(tail + "\n" + rest)
  {
    SplitOneMore(line, tail);
    SplitOneMore(line, tail + "\n" + rest);
    RegroupFour(line + "\n", tail, "\n", rest);
  }

  lemma {:induction false} SplitJoined(lines: seq<string>, rest: string)
    requires PlainLines(lines)
    ensures SplitLines(JoinLines(lines)) == lines
    ensures SplitLines(JoinLines(lines) + "\n" + rest) == lines + SplitLines(rest)
  {
    assert PlainLine(lines[0]);
    HeadAndTail(lines);
    if |lines| == 1 {
      SplitOneMore(lines[0], rest);
    } else {
      SplitJoined(lines[1..], rest);
      SplitJoinedStep(lines[0], JoinLines(lines[1..]), rest);
      Regroup([lines[0]], lines[1..], SplitLines(rest));
    }
  }

  lemma BlankBetween(text: string, rest: string)
    ensures text + "\n\n" + rest == text + "\n" + ("\n" + rest)
    ensures "" + "\n" + rest == "\n" + rest
  {
  }

  /** A block and the blank line after it. */
  lemma SplitBlock(lines: seq<string>, rest: string)
    requires PlainLines(lines)
    ensures SplitLines(JoinLines(lines) + "\n\n" + rest) == lines + [""] + SplitLines(rest)
  {
    BlankBetween(JoinLines(lines), rest);
    SplitJoined(lines, "\n" + rest);
    SplitOneMore("", rest);
    Regroup(lines, [""], SplitLines(rest));
  }

  lemma {:induction false} SplitPrinted<T(!new)>(format: T -> seq<string>, xs: seq<T>)
    requires forall x :: x in xs ==> PlainLines(format(x))
    ensures SplitLines(PrintBlocks(format, xs)) == PrintedLines(format, xs)
    ensures forall i :: 0 <= i < |PrintedLines(format, xs)| ==>
              PrintedLines(format, xs)[i] == "" || PlainLine(PrintedLines(format, xs)[i])
  {
    if xs != [] {
      assert PlainLines(format(xs[0]));
      if |xs| == 1 {
        SplitJoined(format(xs[0]), "");
      } else {
        SplitPrinted(format, xs[1..]);
        SplitBlock(format(xs[0]), PrintBlocks(format, xs[1..]));
      }
    }
  }

  lemma PrintedLinesSurvive<T(!new)>(format: T -> seq<string>, xs: seq<T>)
    requires forall x :: x in xs ==> PlainLines(format(x))
    ensures Lines(PrintBlocks(format, xs)) == PrintedLines(format, xs)
  {
    SplitPrinted(format, xs);
  }

  /** A formatter whose blocks the block parser reads back, whatever follows. */
  ghost predicate ReadsBack<T>(g: Grammar<T>, format: T -> seq<string>, x: T) {
    && |format(x)| == g.height > 0 && !g.blank(format(x)[0]) && PlainLines(format(x))
    && forall rest :: g.block(format(x) + rest) == Ok(x)
  }

  /** A block that reads back, then whatever follows. */
  lemma BlockThenRest<T>(g: Grammar<T>, format: T -> seq<string>, x: T,
                         rest: seq<string>, n: nat)
    requires ReadsBack(g, format, x) && n + 1 <= g.max
    ensures Blocks(g, format(x) + rest, n)
         == (match Blocks(g, rest, n + 1) case Err(e) => Err(e) case Ok(xs) => Ok([x] + xs))
  {
    var lines := format(x) + rest;
    assert lines[0] == format(x)[0];
    assert Drop(lines, g.height) == rest;
  }

  lemma SeparatorSkipped<T>(g: Grammar<T>, rest: seq<string>, n: nat)
    requires g.height > 0 && g.blank("")
    ensures Blocks(g, [""] + rest, n) == Blocks(g, rest, n)
  {
    assert ([""] + rest)[1..] == rest;
  }

  lemma Grouped<T>(a: seq<T>, b: seq<T>, c: seq<T>)
    ensures a + (b + c) == a + b + c
    ensures a + [] == a
  {
  }

  lemma {:induction false} BlocksOfPrinted<T(!new)>(g: Grammar<T>, format: T -> seq<string>, xs: seq<T>, n: nat)
    requires g.height > 0 && g.blank("") && n + |xs| <= g.max
    requires forall x :: x in xs ==> ReadsBack(g, format, x)
    ensures Blocks(g, PrintedLines(format, xs), n) == Ok(xs)
  {
    if |xs| == 1 {
      HeadAndTail(xs);
      Grouped(format(xs[0]), [], []);
      BlockThenRest(g, format, xs[0], [], n);
    } else if |xs| > 1 {
      var rest := PrintedLines(format, xs[1..]);
      BlocksOfPrinted(g, format, xs[1..], n + 1);
      SeparatorSkipped(g, rest, n + 1);
      BlockThenRest(g, format, xs[0], [""] + rest, n);
      HeadAndTail(xs);
      Grouped(format(xs[0]), [""], rest);
    }
  }

  /** Lines as line splitting leaves them. */
  ghost predicate NoNewlines(lines: seq<string>) {
    forall i :: 0 <= i < |lines| ==> '\n' !in lines[i]
  }

  /** Whatever the block parser reads from split lines is good. */
  ghost predicate Yields<T(!new)>(g: Grammar<T>, good: T -> bool) {
    forall lines :: NoNewlines(lines) ==> YieldsFrom(g, good, lines)
  }

  ghost predicate YieldsFrom<T>(g: Grammar<T>, good: T -> bool, lines: seq<string>) {
    g.block(lines).Ok? ==> good(g.block(lines).value)
  }

  lemma DropKeepsNoNewlines(lines: seq<string>, n: nat)
    requires NoNewlines(lines)
    ensures NoNewlines(Drop(lines, n))
  {
  }

  lemma {:induction false} BlocksCount<T>(g: Grammar<T>, lines: seq<string>, n: nat)
    requires g.height > 0 && n <= g.max && Blocks(g, lines, n).Ok?
    ensures n + |Blocks(g, lines, n).value| <= g.max
    decreases |lines|
  {
    if lines != [] {
      if g.blank(lines[0]) {
        BlocksCount(g, lines[1..], n);
      } else {
        BlocksCount(g, Drop(lines, g.height), n + 1);
      }
    }
  }

  /** Every block accepted is good when the block parser yields only good ones. */
  lemma {:induction false} BlocksAreGood<T(!new)>(g: Grammar<T>, lines: seq<string>, n: nat, good: T -> bool, x: T)
    requires g.height > 0 && NoNewlines(lines) && Yields(g, good)
    requires Blocks(g, lines, n).Ok? && x in Blocks(g, lines, n).value
    ensures good(x)
    decreases |lines|
  {
    if g.blank(lines[0]) {
      DropKeepsNoNewlines(lines, 1);
      BlocksAreGood(g, lines[1..], n, good, x);
    } else {
      assert YieldsFrom(g, good, lines);
      if x != g.block(lines).value {
        DropKeepsNoNewlines(lines, g.height);
        BlocksAreGood(g, Drop(lines, g.height), n + 1, good, x);
      }
    }
  }

  // -------------------------------------------------------------------------
  // Parsing normalises
  // -------------------------------------------------------------------------

  predicate PlainWord(id: string) {
    id != "" && !HasWhitespace(id)
  }

  predicate PlainText(s: string) {
    s != "" && Trimmed(s) && '\n' !in s
  }

  /** The claims the parser can produce. */
  predicate WellFormedClaim(c: Claim) {
    PlainText(c.text) && PlainWord(c.docId) && '\n' !in c.quote
  }

  predicate WellFormedBox(b: Box) {
    && PlainText(b.title) && |b.title| <= TITLE_MAX && !HasBracket(b.title)
    && PlainText(b.description) && !HasBracket(b.description)
    && PlainWord(b.docId) && '\n' !in b.quote
  }

  lemma TrimKeeps(s: string)
    ensures Trimmed(Trim(s)) && forall c :: c in Trim(s) ==> c in s
  {
    TrimIsTrimmed(s);
  }

  lemma WordIsPlain(id: string)
    requires PlainWord(id)
    ensures PlainText(id)
  {
    assert id[0] in id && id[|id| - 1] in id;
    assert IsWhitespace('\n');
  }

  lemma Prefixed(prefix: string, text: string)
    requires PlainText(text) && '\n' !in prefix && prefix != "" && !IsWhitespace(prefix[0])
    ensures PlainLine(prefix + text) && !Blank(prefix + text)
    ensures StripPrefix(prefix, prefix + text) == Some(text) && Trim(text) == text
  {
    TrimOfTrimmed(text);
    assert (prefix + text)[|prefix|..] == text;
    assert IsWhitespace('\r');
    assert TrimStart(prefix + text) == prefix + text;
  }

  lemma Quoted(quote: string)
    requires '\n' !in quote
    ensures PlainLine("QUOTE: \"" + quote + "\"")
    ensures StripPrefix("QUOTE: \"", "QUOTE: \"" + quote + "\"") == Some(quote + "\"")
    ensures (quote + "\"")[..|quote|] == quote
  {
    assert ("QUOTE: \"" + quote + "\"")[|"QUOTE: \""|..] == quote + "\"";
  }

  lemma SourceReads(lines: seq<string>, at: nat, id: string)
    requires at < |lines| && lines[at] == "SOURCE: " + id && PlainWord(id)
    ensures ParseSource(lines, at) == Ok(id)
  {
    WordIsPlain(id);
    Prefixed("SOURCE: ", id);
  }

  lemma QuoteReads(lines: seq<string>, at: nat, quote: string)
    requires at < |lines| && lines[at] == "QUOTE: \"" + quote + "\"" && '\n' !in quote
    ensures ParseQuote(lines, at) == Ok(quote)
  {
    Quoted(quote);
  }

  lemma ClaimLinesRead(c: Claim, lines: seq<string>)
    requires WellFormedClaim(c) && ClaimLines()(c) <= lines
    ensures ClaimBlock(lines) == Ok(c)
  {
    Prefixed("CLAIM: ", c.text);
    assert lines[0] == ClaimLines()(c)[0] && lines[1] == ClaimLines()(c)[1] && lines[2] == ClaimLines()(c)[2];
    SourceReads(lines, 1, c.docId);
    QuoteReads(lines, 2, c.quote);
  }

  lemma ClaimLinesArePlain(c: Claim)
    requires WellFormedClaim(c)
    ensures !Blank(ClaimLines()(c)[0]) && PlainLines(ClaimLines()(c))
  {
    WordIsPlain(c.docId);
    Prefixed("CLAIM: ", c.text);
    Prefixed("SOURCE: ", c.docId);
    Quoted(c.quote);
  }

  lemma ClaimReadsBack(c: Claim)
    requires WellFormedClaim(c)
    ensures ReadsBack(CLAIMS, ClaimLines(), c)
  {
    ClaimLinesArePlain(c);
    forall rest: seq<string>
      ensures ClaimBlock(ClaimLines()(c) + rest) == Ok(c)
    {
      ClaimLinesRead(c, ClaimLines()(c) + rest);
    }
  }

  lemma DescriptionReads(lines: seq<string>, description: string)
    requires |lines| >= 2 && lines[1] == "DESC: " + description && PlainText(description) && !HasBracket(description)
    ensures ParseDescription(lines) == Ok(description)
  {
    Prefixed("DESC: ", description);
  }

  lemma TitleReads(lines: seq<string>, title: string)
    requires lines != [] && lines[0] == "BOX: " + title
    requires PlainText(title) && |title| <= TITLE_MAX && !HasBracket(title)
    ensures ParseTitle(lines) == Ok(title)
  {
    Prefixed("BOX: ", title);
  }

  lemma BoxLinesRead(b: Box, lines: seq<string>)
    requires WellFormedBox(b) && BoxLines()(b) <= lines
    ensures BoxBlock(lines) == Ok(b)
  {
    assert lines[0] == BoxLines()(b)[0] && lines[1] == BoxLines()(b)[1];
    assert lines[2] == BoxLines()(b)[2] && lines[3] == BoxLines()(b)[3];
    TitleReads(lines, b.title);
    DescriptionReads(lines, b.description);
    SourceReads(lines, 2, b.docId);
    QuoteReads(lines, 3, b.quote);
  }

  lemma BoxReadsBack(b: Box)
    requires WellFormedBox(b)
    ensures ReadsBack(BOXES, BoxLines(), b)
  {
    BoxLinesArePlain(b);
    forall rest: seq<string>
      ensures BoxBlock(BoxLines()(b) + rest) == Ok(b)
    {
      BoxLinesRead(b, BoxLines()(b) + rest);
    }
  }

  lemma FourPlainLines(a: string, b: string, c: string, d: string)
    requires PlainLine(a) && PlainLine(b) && PlainLine(c) && PlainLine(d)
    ensures PlainLines([a, b, c, d])
  {
  }

  lemma BoxLinesArePlain(b: Box)
    requires WellFormedBox(b)
    ensures !Blank(BoxLines()(b)[0]) && PlainLines(BoxLines()(b))
  {
    WordIsPlain(b.docId);
    Prefixed("BOX: ", b.title);
    Prefixed("DESC: ", b.description);
    Prefixed("SOURCE: ", b.docId);
    Quoted(b.quote);
    FourPlainLines("BOX: " + b.title, "DESC: " + b.description, "SOURCE: " + b.docId, "QUOTE: \"" + b.quote + "\"");
  }

  lemma TextIsPlain(prefix: string, line: string)
    requires '\n' !in line && StripPrefix(prefix, line).Some? && Trim(StripPrefix(prefix, line).value) != ""
    ensures PlainText(Trim(StripPrefix(prefix, line).value))
  {
    TrimKeeps(StripPrefix(prefix, line).value);
  }

  lemma SourceIsWord(lines: seq<string>, at: nat)
    requires ParseSource(lines, at).Ok?
    ensures PlainWord(ParseSource(lines, at).value)
  {
  }

  lemma QuoteIsOneLine(lines: seq<string>, at: nat)
    requires NoNewlines(lines) && ParseQuote(lines, at).Ok?
    ensures '\n' !in ParseQuote(lines, at).value
  {
    var rest := StripPrefix("QUOTE: \"", lines[at]).value;
    assert forall c :: c in rest[..|rest| - 1] ==> c in lines[at];
  }

  lemma ReadClaimsAreWellFormed(lines: seq<string>)
    requires NoNewlines(lines) && ClaimBlock(lines).Ok?
    ensures WellFormedClaim(ClaimBlock(lines).value)
  {
    TextIsPlain("CLAIM: ", lines[0]);
    SourceIsWord(lines, 1);
    QuoteIsOneLine(lines, 2);
  }

  lemma DescriptionIsPlain(lines: seq<string>)
    requires NoNewlines(lines) && ParseDescription(lines).Ok?
    ensures PlainText(ParseDescription(lines).value) && !HasBracket(ParseDescription(lines).value)
  {
    TextIsPlain("DESC: ", lines[1]);
  }

  lemma TitleIsPlain(lines: seq<string>)
    requires NoNewlines(lines) && ParseTitle(lines).Ok?
    ensures var title := ParseTitle(lines).value; PlainText(title) && |title| <= TITLE_MAX && !HasBracket(title)
  {
    TextIsPlain("BOX: ", lines[0]);
  }

  lemma ReadBoxesAreWellFormed(lines: seq<string>)
    requires NoNewlines(lines) && BoxBlock(lines).Ok?
    ensures WellFormedBox(BoxBlock(lines).value)
  {
    TitleIsPlain(lines);
    DescriptionIsPlain(lines);
    SourceIsWord(lines, 2);
    QuoteIsOneLine(lines, 3);
  }

  lemma LinesHaveNoNewlines(text: string)
    ensures NoNewlines(Lines(text))
  {
    NoNewlineInLines(text);
  }

  /** What claim parsing accepts is one to six well-formed claims. */
  lemma ParsedClaimsAreWellFormed(output: string)
    requires ParsedClaims(output).Ok?
    ensures 1 <= |ParsedClaims(output).value| <= DRAFT_CLAIMS_MAX
    ensures forall c :: c in ParsedClaims(output).value ==> WellFormedClaim(c)
  {
    LinesHaveNoNewlines(output);
    forall lines: seq<string> | NoNewlines(lines)
      ensures YieldsFrom(CLAIMS, WellFormedClaim, lines)
    {
      if ClaimBlock(lines).Ok? {
        ReadClaimsAreWellFormed(lines);
      }
    }
    BlocksCount(CLAIMS, Lines(output), 0);
    forall x | x in ParsedClaims(output).value
      ensures WellFormedClaim(x)
    {
      BlocksAreGood(CLAIMS, Lines(output), 0, WellFormedClaim, x);
    }
  }

  lemma ParsedBoxesAreWellFormed(output: string)
    requires ParsedBoxes(output).Ok?
    ensures 1 <= |ParsedBoxes(output).value| <= DRAFT_BOXES_MAX
    ensures forall b :: b in ParsedBoxes(output).value ==> WellFormedBox(b)
  {
    LinesHaveNoNewlines(output);
    forall lines: seq<string> | NoNewlines(lines)
      ensures YieldsFrom(BOXES, WellFormedBox, lines)
    {
      if BoxBlock(lines).Ok? {
        ReadBoxesAreWellFormed(lines);
      }
    }
    BlocksCount(BOXES, Lines(output), 0);
    forall x | x in ParsedBoxes(output).value
      ensures WellFormedBox(x)
    {
      BlocksAreGood(BOXES, Lines(output), 0, WellFormedBox, x);
    }
  }

  lemma PrintedClaimsParse(claims: seq<Claim>)
    requires 1 <= |claims| <= DRAFT_CLAIMS_MAX && forall c :: c in claims ==> WellFormedClaim(c)
    ensures ParsedClaims(PrintBlocks(ClaimLines(), claims)) == Ok(claims)
  {
    forall c | c in claims
      ensures ReadsBack(CLAIMS, ClaimLines(), c)
    {
      ClaimReadsBack(c);
    }
    PrintedLinesSurvive(ClaimLines(), claims);
    BlocksOfPrinted(CLAIMS, ClaimLines(), claims, 0);
  }

  lemma PrintedBoxesParse(boxes: seq<Box>)
    requires 1 <= |boxes| <= DRAFT_BOXES_MAX && forall b :: b in boxes ==> WellFormedBox(b)
    ensures ParsedBoxes(PrintBlocks(BoxLines(), boxes)) == Ok(boxes)
  {
    forall b | b in boxes
      ensures ReadsBack(BOXES, BoxLines(), b)
    {
      BoxReadsBack(b);
    }
    PrintedLinesSurvive(BoxLines(), boxes);
    BlocksOfPrinted(BOXES, BoxLines(), boxes, 0);
  }

  /** Printing what any accepted text parsed to, and parsing that, gives the same claims. */
  lemma ParsingClaimsNormalises(output: string)
    requires ParsedClaims(output).Ok?
    ensures ParsedClaims(PrintBlocks(ClaimLines(), ParsedClaims(output).value)) == ParsedClaims(output)
  {
    ParsedClaimsAreWellFormed(output);
    PrintedClaimsParse(ParsedClaims(output).value);
  }

  lemma ParsingBoxesNormalises(output: string)
    requires ParsedBoxes(output).Ok?
    ensures ParsedBoxes(PrintBlocks(BoxLines(), ParsedBoxes(output).value)) == ParsedBoxes(output)
  {
    ParsedBoxesAreWellFormed(output);
    PrintedBoxesParse(ParsedBoxes(output).value);
  }

  /** A list of claims survives printing and parsing exactly when it is one the parser could have produced. */
  lemma ClaimsSurviveExactlyWhenWellFormed(claims: seq<Claim>)
    ensures ParsedClaims(PrintBlocks(ClaimLines(), claims)) == Ok(claims)
       <==> 1 <= |claims| <= DRAFT_CLAIMS_MAX && forall c :: c in claims ==> WellFormedClaim(c)
  {
    if ParsedClaims(PrintBlocks(ClaimLines(), claims)) == Ok(claims) {
      ParsedClaimsAreWellFormed(PrintBlocks(ClaimLines(), claims));
    } else if 1 <= |claims| <= DRAFT_CLAIMS_MAX && forall c :: c in claims ==> WellFormedClaim(c) {
      PrintedClaimsParse(claims);
    }
  }

  lemma BoxesSurviveExactlyWhenWellFormed(boxes: seq<Box>)
    ensures ParsedBoxes(PrintBlocks(BoxLines(), boxes)) == Ok(boxes)
       <==> 1 <= |boxes| <= DRAFT_BOXES_MAX && forall b :: b in boxes ==> WellFormedBox(b)
  {
    if ParsedBoxes(PrintBlocks(BoxLines(), boxes)) == Ok(boxes) {
      ParsedBoxesAreWellFormed(PrintBlocks(BoxLines(), boxes));
    } else if 1 <= |boxes| <= DRAFT_BOXES_MAX && forall b :: b in boxes ==> WellFormedBox(b) {
      PrintedBoxesParse(boxes);
    }
  }
}
