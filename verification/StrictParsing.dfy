/**
 * What the strict parsers accept, said of the text alone: tagged lines in consecutive blocks, blank lines between
 * them, nothing else.
 */
module StrictParsing {
  import opened Basics
  import opened Text
  import opened Generation

  // -------------------------------------------------------------------------
  // Lines of a text
  // -------------------------------------------------------------------------

  predicate White(s: string) {
    forall i :: 0 <= i < |s| ==> IsWhitespace(s[i])
  }

  predicate ReturnsFrom(s: string, n: nat) {
    forall i :: n <= i < |s| ==> s[i] == '\r'
  }

  /** The pieces with a newline after each of them. */
  function Terminated(pieces: seq<string>): string {
    if pieces == [] then "" else pieces[0] + "\n" + Terminated(pieces[1..])
  }

  /** The text with a newline supplied where the last line lacks one. */
  function Ended(text: string): string {
    if text == "" || text[|text| - 1] == '\n' then text else text + "\n"
  }

  /** The pieces a text is cut into: no newline inside, and together they are the text. */
  ghost predicate CutInto(text: string, pieces: seq<string>) {
    Ended(text) == Terminated(pieces) && forall i :: 0 <= i < |pieces| ==> '\n' !in pieces[i]
  }

  lemma EndedTail(first: string, rest: string)
    ensures Ended(first + "\n" + rest) == first + "\n" + Ended(rest)
  {
    var text := first + "\n" + rest;
    if rest != "" {
      assert text[|text| - 1] == rest[|rest| - 1];
    }
  }

  lemma HeadCut(s: string)
    requires |FirstLine(s)| < |s|
    ensures s == FirstLine(s) + "\n" + s[|FirstLine(s)| + 1..]
  {
  }

  lemma {:induction false} SplitCuts(s: string)
    ensures CutInto(s, SplitLines(s))
  {
    if s != "" {
      var first := FirstLine(s);
      if |first| < |s| {
        var rest := s[|first| + 1..];
        HeadCut(s);
        EndedTail(first, rest);
        SplitCuts(rest);
        assert SplitLines(s)[1..] == SplitLines(rest);
      } else {
        assert first == s && s[|s| - 1] in first;
        assert SplitLines(s)[1..] == [];
      }
    }
  }

  lemma {:induction false} ReturnsTrimmed(line: string)
    ensures forall i :: |TrimCarriageReturns(line)| <= i < |line| ==> line[i] == '\r'
    ensures var r := TrimCarriageReturns(line); r != "" ==> r[|r| - 1] != '\r'
  {
    if line != "" && line[|line| - 1] == '\r' {
      ReturnsTrimmed(line[..|line| - 1]);
    }
  }

  /** A piece without the carriage returns at its end. */
  ghost predicate LineOf(piece: string, line: string) {
    line <= piece && ReturnsFrom(piece, |line|) && (line == "" || line[|line| - 1] != '\r')
  }

  /** The lines of a text are the pieces between its newlines, without the carriage returns at their ends. */
  lemma LinesAreThePieces(text: string) returns (pieces: seq<string>)
    ensures CutInto(text, pieces) && |pieces| == |Lines(text)|
    ensures forall i :: 0 <= i < |pieces| ==> LineOf(pieces[i], Lines(text)[i])
  {
    pieces := SplitLines(text);
    SplitCuts(text);
    TrimmedPieces(pieces);
  }

  lemma TrimmedPieces(pieces: seq<string>)
    ensures forall i :: 0 <= i < |pieces| ==> LineOf(pieces[i], Map(TrimCarriageReturns, pieces)[i])
  {
    forall i | 0 <= i < |pieces|
      ensures LineOf(pieces[i], TrimCarriageReturns(pieces[i]))
    {
      ReturnsTrimmed(pieces[i]);
    }
  }

  // -------------------------------------------------------------------------
  // Tagged lines
  // -------------------------------------------------------------------------

  /** White space, the text, white space; the text neither starts nor ends with any. */
  ghost predicate Padded(s: string, text: string) {
    Trimmed(text) && exists i: nat :: OccursAt(s, text, i) && WhiteAround(s, i, i + |text|)
  }

  ghost predicate WhiteAround(s: string, i: nat, j: nat) {
    forall k :: 0 <= k < |s| && (k < i || j <= k) ==> IsWhitespace(s[k])
  }

  lemma TrimIsPadded(s: string)
    ensures Padded(s, Trim(s))
  {
    TrimIsTrimmed(s);
    var start := TrimStart(s);
    Stands(s, |s| - |start|, start, TrimEnd(start));
  }

  lemma Stands(s: string, i: nat, start: string, text: string)
    requires i <= |s| && start == s[i..] && text <= start && Trimmed(text)
    requires forall k :: 0 <= k < i ==> IsWhitespace(s[k])
    requires forall k :: |text| <= k < |start| ==> IsWhitespace(start[k])
    ensures Padded(s, text)
  {
    assert s[i..i + |text|] == start[..|text|];
    forall k | i + |text| <= k < |s|
      ensures IsWhitespace(s[k])
    {
      assert start[k - i] == s[k];
    }
    assert OccursAt(s, text, i) && WhiteAround(s, i, i + |text|);
  }

  /** A text standing between white space reaches no further than another that ends in none. */
  lemma StandsInside(s: string, a: string, i: nat, b: string, j: nat)
    requires Trimmed(a) && a != "" && OccursAt(s, a, i) && OccursAt(s, b, j) && WhiteAround(s, j, j + |b|)
    ensures j <= i && i + |a| <= j + |b|
  {
    assert s[i] == s[i..i + |a|][0] && s[i + |a| - 1] == s[i..i + |a|][|a| - 1];
  }

  /** Two trimmed texts standing between white space in one string are the same. */
  lemma PaddedOnce(s: string, a: string, b: string)
    requires Padded(s, a) && Padded(s, b) && a != ""
    ensures a == b
  {
    var i: nat :| OccursAt(s, a, i) && WhiteAround(s, i, i + |a|);
    var j: nat :| OccursAt(s, b, j) && WhiteAround(s, j, j + |b|);
    StandsInside(s, a, i, b, j);
    StandsInside(s, b, j, a, i);
  }

  /** Trimming finds the one text a string pads. */
  lemma TrimExactly(s: string, text: string)
    requires text != ""
    ensures Trim(s) == text <==> Padded(s, text)
  {
    TrimIsPadded(s);
    if Padded(s, text) {
      PaddedOnce(s, text, Trim(s));
    }
  }

  lemma PaddedByNothing(s: string)
    ensures Padded(s, "") <==> White(s)
  {
    if White(s) {
      assert OccursAt(s, "", 0) && WhiteAround(s, 0, 0);
    }
  }

  lemma BlankExactly(line: string)
    ensures Blank(line) <==> White(line)
  {
    TrimIsPadded(line);
    PaddedByNothing(line);
    if Padded(line, "") && Trim(line) != "" {
      PaddedOnce(line, Trim(line), "");
    }
  }

  /** The tag, then the text between white space. */
  ghost predicate Says(tag: string, line: string, text: string) {
    tag <= line && text != "" && Padded(line[|tag|..], text)
  }

  ghost predicate Quotes(line: string, quote: string) {
    line == "QUOTE: \"" + quote + "\""
  }

  ghost predicate Word(s: string) {
    forall i :: 0 <= i < |s| ==> !IsWhitespace(s[i])
  }

  ghost predicate NoBrackets(s: string) {
    forall i :: 0 <= i < |s| ==> s[i] != '[' && s[i] != ']'
  }

  /** The three lines of a claim, at the head of `lines`. */
  ghost predicate IsClaim(lines: seq<string>, c: Claim) {
    && |lines| >= 3 && Says("CLAIM: ", lines[0], c.text) && Says("SOURCE: ", lines[1], c.docId) && Word(c.docId)
    && Quotes(lines[2], c.quote)
  }

  /** The four lines of a box, at the head of `lines`. */
  ghost predicate IsBox(lines: seq<string>, b: Box) {
    && |lines| >= 4 && Says("BOX: ", lines[0], b.title) && |b.title| <= 80 && NoBrackets(b.title)
    && Says("DESC: ", lines[1], b.description) && NoBrackets(b.description)
    && Says("SOURCE: ", lines[2], b.docId) && Word(b.docId) && Quotes(lines[3], b.quote)
  }

  lemma SaysExactly(tag: string, line: string, text: string)
    ensures Says(tag, line, text)
       <==> text != "" && StripPrefix(tag, line).Some? && Trim(StripPrefix(tag, line).value) == text
  {
    if tag <= line && text != "" {
      TrimExactly(line[|tag|..], text);
    }
  }

  lemma WordExactly(s: string)
    ensures Word(s) <==> !HasWhitespace(s)
    ensures NoBrackets(s) <==> !HasBracket(s)
  {
    assert forall i :: 0 <= i < |s| ==> s[i] in s;
  }

  lemma SourceExactly(lines: seq<string>, at: nat, id: string)
    ensures ParseSource(lines, at) == Ok(id) <==> at < |lines| && Says("SOURCE: ", lines[at], id) && Word(id)
  {
    WordExactly(id);
    if at < |lines| {
      SaysExactly("SOURCE: ", lines[at], id);
    }
  }

  lemma QuoteParts(tag: string, line: string, quote: string)
    ensures line == tag + quote + "\"" <==> tag <= line && line[|tag|..] == quote + "\""
  {
    if tag <= line {
      assert line == tag + line[|tag|..];
      Regroup(tag, quote, "\"");
    }
    if line == tag + quote + "\"" {
      Regroup(tag, quote, "\"");
    }
  }

  lemma OpenOrClosed(rest: string, quote: string)
    ensures rest == quote + "\"" <==> rest != "" && rest[|rest| - 1] == '"' && rest[..|rest| - 1] == quote
  {
  }

  lemma QuoteExactly(lines: seq<string>, at: nat, quote: string)
    ensures ParseQuote(lines, at) == Ok(quote) <==> at < |lines| && Quotes(lines[at], quote)
  {
    if at < |lines| {
      var tag, line := "QUOTE: \"", lines[at];
      QuoteParts(tag, line, quote);
      if tag <= line {
        OpenOrClosed(line[|tag|..], quote);
      }
    }
  }

  lemma ClaimExactly(lines: seq<string>, c: Claim)
    ensures ClaimBlock(lines) == Ok(c) <==> IsClaim(lines, c)
  {
    SourceExactly(lines, 1, c.docId);
    QuoteExactly(lines, 2, c.quote);
    if lines != [] {
      SaysExactly("CLAIM: ", lines[0], c.text);
    }
  }

  lemma TitleExactly(lines: seq<string>, title: string)
    ensures ParseTitle(lines) == Ok(title)
       <==> lines != [] && Says("BOX: ", lines[0], title) && |title| <= 80 && NoBrackets(title)
  {
    WordExactly(title);
    if lines != [] {
      SaysExactly("BOX: ", lines[0], title);
    }
  }

  lemma DescriptionExactly(lines: seq<string>, description: string)
    ensures ParseDescription(lines) == Ok(description)
       <==> |lines| >= 2 && Says("DESC: ", lines[1], description) && NoBrackets(description)
  {
    WordExactly(description);
    if |lines| >= 2 {
      SaysExactly("DESC: ", lines[1], description);
    }
  }

  lemma BoxExactly(lines: seq<string>, b: Box)
    ensures BoxBlock(lines) == Ok(b) <==> IsBox(lines, b)
  {
    TitleExactly(lines, b.title);
    DescriptionExactly(lines, b.description);
    SourceExactly(lines, 2, b.docId);
    QuoteExactly(lines, 3, b.quote);
  }

  // -------------------------------------------------------------------------
  // Whole outputs
  // -------------------------------------------------------------------------

  ghost predicate Within(starts: seq<nat>, height: nat, k: nat) {
    exists j :: 0 <= j < |starts| && starts[j] <= k < starts[j] + height
  }

  /** Block after block at these lines, from line `i` on, each reading as its item. */
  ghost predicate InOrder<T(!new)>(reading: (seq<string>, T) -> bool, height: nat, lines: seq<string>, i: nat,
                                   xs: seq<T>, starts: seq<nat>)
  {
    && |starts| == |xs|
    && (forall j :: 0 <= j < |xs| ==>
          i <= starts[j] && starts[j] + height <= |lines| && reading(lines[starts[j]..], xs[j]))
    && (forall a, b :: 0 <= a < b < |starts| ==> starts[a] + height <= starts[b])
  }

  ghost predicate WhiteBetween(height: nat, lines: seq<string>, i: nat, starts: seq<nat>) {
    forall k :: i <= k < |lines| ==> Within(starts, height, k) || White(lines[k])
  }

  ghost predicate Placed<T(!new)>(reading: (seq<string>, T) -> bool, height: nat, lines: seq<string>, i: nat,
                                  xs: seq<T>, starts: seq<nat>)
  {
    InOrder(reading, height, lines, i, xs, starts) && WhiteBetween(height, lines, i, starts)
  }

  /** Blocks that read as these items, white lines around them, and nothing else. */
  ghost predicate LaidOut<T(!new)>(reading: (seq<string>, T) -> bool, height: nat, lines: seq<string>, xs: seq<T>) {
    exists starts: seq<nat> :: Placed(reading, height, lines, 0, xs, starts)
  }

  /** A grammar whose block parser accepts exactly what `reading` says. */
  ghost predicate Exact<T(!new)>(g: Grammar<T>, reading: (seq<string>, T) -> bool) {
    g.height > 0 && (forall line :: BlankRight(g, line)) && (forall lines, x :: BlockRight(g, reading, lines, x))
  }

  ghost predicate BlankRight<T>(g: Grammar<T>, line: string) {
    g.blank(line) <==> White(line)
  }

  ghost predicate BlockRight<T>(g: Grammar<T>, reading: (seq<string>, T) -> bool, lines: seq<string>, x: T) {
    && (g.block(lines) == Ok(x) <==> reading(lines, x))
    && (reading(lines, x) ==> 0 < g.height <= |lines| && !White(lines[0]))
  }

  lemma TailFrom<T>(s: seq<T>, i: nat, n: nat)
    requires i < |s|
    ensures s[i..] != [] && s[i..][0] == s[i] && s[i..][1..] == s[i + 1..]
    ensures n > 0 && i + n <= |s| ==> Drop(s[i..], n) == s[i + n..]
  {
  }

  lemma WhiteBefore(height: nat, lines: seq<string>, i: nat, rest: seq<nat>)
    requires WhiteBetween(height, lines, i + height, rest)
    ensures WhiteBetween(height, lines, i, [i] + rest)
  {
    var starts := [i] + rest;
    forall k | i <= k < |lines|
      ensures Within(starts, height, k) || White(lines[k])
    {
      if k < i + height {
        assert starts[0] <= k < starts[0] + height;
      } else if Within(rest, height, k) {
        var j :| 0 <= j < |rest| && rest[j] <= k < rest[j] + height;
        assert starts[j + 1] == rest[j];
      }
    }
  }

  lemma WhiteAfter(height: nat, lines: seq<string>, starts: seq<nat>)
    requires starts != [] && WhiteBetween(height, lines, starts[0], starts)
    ensures WhiteBetween(height, lines, starts[0] + height, starts[1..])
  {
    forall k | starts[0] + height <= k < |lines|
      ensures Within(starts[1..], height, k) || White(lines[k])
    {
      if Within(starts, height, k) {
        var b :| 0 <= b < |starts| && starts[b] <= k < starts[b] + height;
        assert starts[1..][b - 1] == starts[b];
      }
    }
  }

  lemma BlockInOrder<T(!new)>(reading: (seq<string>, T) -> bool, height: nat, lines: seq<string>, i: nat, x: T,
                              xs: seq<T>, rest: seq<nat>)
    requires i + height <= |lines| && reading(lines[i..], x)
    requires InOrder(reading, height, lines, i + height, xs, rest)
    ensures InOrder(reading, height, lines, i, [x] + xs, [i] + rest)
  {
    var starts, all := [i] + rest, [x] + xs;
    forall j | 0 <= j < |all|
      ensures i <= starts[j] && starts[j] + height <= |lines| && reading(lines[starts[j]..], all[j])
    {
      if j > 0 {
        assert starts[j] == rest[j - 1] && all[j] == xs[j - 1];
      }
    }
    forall a, b | 0 <= a < b < |starts|
      ensures starts[a] + height <= starts[b]
    {
      assert starts[b] == rest[b - 1];
      if a > 0 {
        assert starts[a] == rest[a - 1];
      }
    }
  }

  /** What the grammar accepts is laid out so. */
  lemma {:induction false} AcceptedIsPlaced<T(!new)>(g: Grammar<T>, reading: (seq<string>, T) -> bool,
                                                     lines: seq<string>, i: nat, n: nat) returns (starts: seq<nat>)
    requires Exact(g, reading) && i <= |lines| && Blocks(g, lines[i..], n).Ok?
    ensures Placed(reading, g.height, lines, i, Blocks(g, lines[i..], n).value, starts)
    decreases |lines| - i
  {
    if i == |lines| {
      starts := [];
    } else {
      TailFrom(lines, i, g.height);
      assert BlankRight(g, lines[i]);
      if g.blank(lines[i]) {
        starts := AcceptedIsPlaced(g, reading, lines, i + 1, n);
      } else {
        var x := g.block(lines[i..]).value;
        assert BlockRight(g, reading, lines[i..], x);
        var rest := AcceptedIsPlaced(g, reading, lines, i + g.height, n + 1);
        BlockInOrder(reading, g.height, lines, i, x, Blocks(g, lines[i + g.height..], n + 1).value, rest);
        WhiteBefore(g.height, lines, i, rest);
        starts := [i] + rest;
      }
    }
  }

  lemma WhiteIsNoStart<T(!new)>(g: Grammar<T>, reading: (seq<string>, T) -> bool, lines: seq<string>, i: nat,
                                xs: seq<T>, starts: seq<nat>)
    requires Exact(g, reading) && i < |lines| && White(lines[i]) && Placed(reading, g.height, lines, i, xs, starts)
    ensures Placed(reading, g.height, lines, i + 1, xs, starts)
  {
    forall j | 0 <= j < |xs|
      ensures starts[j] != i
    {
      assert BlockRight(g, reading, lines[starts[j]..], xs[j]);
      TailFrom(lines, starts[j], 0);
    }
  }

  lemma FirstStart(height: nat, lines: seq<string>, i: nat, starts: seq<nat>)
    requires i < |lines| && !White(lines[i]) && WhiteBetween(height, lines, i, starts)
    requires forall j :: 0 <= j < |starts| ==> i <= starts[j]
    requires forall a, b :: 0 <= a < b < |starts| ==> starts[a] + height <= starts[b]
    ensures starts != [] && starts[0] == i && height > 0
  {
    assert Within(starts, height, i);
    assert forall j :: 0 < j < |starts| ==> i + height <= starts[0] + height <= starts[j];
  }

  lemma TailInOrder<T(!new)>(reading: (seq<string>, T) -> bool, height: nat, lines: seq<string>, xs: seq<T>,
                             starts: seq<nat>)
    requires xs != [] && starts != [] && InOrder(reading, height, lines, starts[0], xs, starts)
    ensures InOrder(reading, height, lines, starts[0] + height, xs[1..], starts[1..])
    ensures starts[0] + height <= |lines| && reading(lines[starts[0]..], xs[0])
  {
    forall j | 0 <= j < |xs[1..]|
      ensures var k := starts[1..][j];
              starts[0] + height <= k && k + height <= |lines| && reading(lines[k..], xs[1..][j])
    {
      assert starts[1..][j] == starts[j + 1] && xs[1..][j] == xs[j + 1];
    }
  }

  lemma FirstAndRest<T(!new)>(reading: (seq<string>, T) -> bool, height: nat, lines: seq<string>, i: nat,
                              xs: seq<T>, starts: seq<nat>)
    requires i < |lines| && !White(lines[i]) && Placed(reading, height, lines, i, xs, starts)
    ensures xs != [] && i + height <= |lines| && reading(lines[i..], xs[0])
    ensures Placed(reading, height, lines, i + height, xs[1..], starts[1..])
  {
    FirstStart(height, lines, i, starts);
    TailInOrder(reading, height, lines, xs, starts);
    WhiteAfter(height, lines, starts);
  }

  /** What is laid out so is accepted, as long as it is not too many. */
  lemma {:induction false} PlacedIsAccepted<T(!new)>(g: Grammar<T>, reading: (seq<string>, T) -> bool,
                                                     lines: seq<string>, i: nat, n: nat, xs: seq<T>, starts: seq<nat>)
    requires Exact(g, reading) && i <= |lines| && Placed(reading, g.height, lines, i, xs, starts)
    requires n + |xs| <= g.max
    ensures Blocks(g, lines[i..], n) == Ok(xs)
    decreases |lines| - i
  {
    if i == |lines| {
      NothingPlaced(g, reading, lines, n, xs, starts);
    } else if White(lines[i]) {
      WhiteIsNoStart(g, reading, lines, i, xs, starts);
      PlacedIsAccepted(g, reading, lines, i + 1, n, xs, starts);
      SkipsOne(g, reading, lines, i, n, xs);
    } else {
      FirstAndRest(reading, g.height, lines, i, xs, starts);
      PlacedIsAccepted(g, reading, lines, i + g.height, n + 1, xs[1..], starts[1..]);
      TakesOne(g, reading, lines, i, n, xs);
    }
  }

  lemma NothingPlaced<T(!new)>(g: Grammar<T>, reading: (seq<string>, T) -> bool, lines: seq<string>, n: nat,
                               xs: seq<T>, starts: seq<nat>)
    requires g.height > 0 && InOrder(reading, g.height, lines, |lines|, xs, starts)
    ensures Blocks(g, lines[|lines|..], n) == Ok(xs)
  {
    if xs != [] {
      TailInOrder(reading, g.height, lines, xs, starts);
    }
  }

  lemma SkipsOne<T(!new)>(g: Grammar<T>, reading: (seq<string>, T) -> bool, lines: seq<string>, i: nat, n: nat,
                          xs: seq<T>)
    requires Exact(g, reading) && i < |lines| && White(lines[i]) && Blocks(g, lines[i + 1..], n) == Ok(xs)
    ensures Blocks(g, lines[i..], n) == Ok(xs)
  {
    assert BlankRight(g, lines[i]);
    TailFrom(lines, i, g.height);
  }

  lemma TakesOne<T(!new)>(g: Grammar<T>, reading: (seq<string>, T) -> bool, lines: seq<string>, i: nat, n: nat,
                          xs: seq<T>)
    requires Exact(g, reading) && i < |lines| && !White(lines[i]) && xs != [] && reading(lines[i..], xs[0])
    requires n + 1 <= g.max && i + g.height <= |lines| && Blocks(g, lines[i + g.height..], n + 1) == Ok(xs[1..])
    ensures Blocks(g, lines[i..], n) == Ok(xs)
  {
    assert BlankRight(g, lines[i]) && BlockRight(g, reading, lines[i..], xs[0]);
    TailFrom(lines, i, g.height);
    HeadAndTail(xs);
  }

  lemma AcceptedExactly<T(!new)>(g: Grammar<T>, reading: (seq<string>, T) -> bool, lines: seq<string>, xs: seq<T>)
    requires Exact(g, reading)
    ensures AtLeastOne(Blocks(g, lines, 0)) == Ok(xs)
       <==> 1 <= |xs| <= g.max && LaidOut(reading, g.height, lines, xs)
  {
    assert lines[0..] == lines;
    if AtLeastOne(Blocks(g, lines, 0)) == Ok(xs) {
      var starts := AcceptedIsPlaced(g, reading, lines, 0, 0);
      BlocksCount(g, lines, 0);
    }
    if 1 <= |xs| <= g.max && LaidOut(reading, g.height, lines, xs) {
      var starts :| Placed(reading, g.height, lines, 0, xs, starts);
      PlacedIsAccepted(g, reading, lines, 0, 0, xs, starts);
    }
  }

  lemma TagIsNotWhite(tag: string, line: string, text: string)
    requires Says(tag, line, text) && tag != "" && !IsWhitespace(tag[0])
    ensures !White(line)
  {
    assert line[0] == tag[0];
  }

  lemma ClaimsAreExact()
    ensures Exact(CLAIMS, IsClaim)
  {
    forall line
      ensures BlankRight(CLAIMS, line)
    {
      BlankExactly(line);
    }
    forall lines, x
      ensures BlockRight(CLAIMS, IsClaim, lines, x)
    {
      ClaimExactly(lines, x);
      ClaimIsNotWhite(lines, x);
    }
  }

  lemma ClaimIsNotWhite(lines: seq<string>, c: Claim)
    ensures IsClaim(lines, c) ==> |lines| >= 3 && !White(lines[0])
  {
    if IsClaim(lines, c) {
      TagIsNotWhite("CLAIM: ", lines[0], c.text);
    }
  }

  lemma BoxIsNotWhite(lines: seq<string>, b: Box)
    ensures IsBox(lines, b) ==> |lines| >= 4 && !White(lines[0])
  {
    if IsBox(lines, b) {
      TagIsNotWhite("BOX: ", lines[0], b.title);
    }
  }

  lemma BoxesAreExact()
    ensures Exact(BOXES, IsBox)
  {
    forall line
      ensures BlankRight(BOXES, line)
    {
      BlankExactly(line);
    }
    forall lines, x
      ensures BlockRight(BOXES, IsBox, lines, x)
    {
      BoxExactly(lines, x);
      BoxIsNotWhite(lines, x);
    }
  }

  /** A text is accepted as these claims exactly when it is one to six claim blocks and white lines, in this order. */
  lemma ClaimsAcceptedExactly(output: string, claims: seq<Claim>)
    ensures ParsedClaims(output) == Ok(claims)
       <==> 1 <= |claims| <= 6 && LaidOut(IsClaim, 3, Lines(output), claims)
  {
    ClaimsAreExact();
    AcceptedExactly(CLAIMS, IsClaim, Lines(output), claims);
  }

  /** A text is accepted as these boxes exactly when it is one to eight box blocks and white lines, in this order. */
  lemma BoxesAcceptedExactly(output: string, boxes: seq<Box>)
    ensures ParsedBoxes(output) == Ok(boxes)
       <==> 1 <= |boxes| <= 8 && LaidOut(IsBox, 4, Lines(output), boxes)
  {
    BoxesAreExact();
    AcceptedExactly(BOXES, IsBox, Lines(output), boxes);
  }
}
