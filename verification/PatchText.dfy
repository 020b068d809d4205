/** The patch grammar on text: round trip, coverage of the body, and positions in errors. */
module PatchText {
  import opened Prelude
  import opened Text
  import opened Replacements
  import opened PatchParser
  import opened PatchRoundTrip
  import opened FileUpdate

  // ---------- single lines ----------

  lemma PrefixStrips(prefix: string, rest: string)
    ensures StripPrefix(prefix + rest, prefix) == Some(rest)
  {
    assert (prefix + rest)[..|prefix|] == prefix;
  }

  lemma OtherPrefix(s: string, prefix: string, i: nat)
    requires i < |prefix| && i < |s| && s[i] != prefix[i]
    ensures StripPrefix(s, prefix) == None
  {
  }

  lemma DiffRead(d: DiffLine)
    ensures !IsEndOfFile(Show(d)) && LineParts(Show(d)) == Some(PartsOf(d)) && ChunkHeader(Show(d)).None?
    ensures !IsMarker(Show(d)) && MoveTarget(Show(d)).None?
  {
    var s := Show(d);
    if !d.EmptyLine? {
      assert s[1..] == d.text;
      OtherPrefix(s, CONTEXT, 0);
      OtherPrefix(s, MOVE_TO, 0);
      OtherPrefix(s, "***", 0);
    }
  }

  lemma ContextRead(c: Option<string>)
    ensures var s := ShowContext(c);
            && ChunkHeader(s) == Some(c) && !IsBlank(s) && !IsMarker(s)
            && !IsEndOfFile(s) && LineParts(s).None? && MoveTarget(s).None?
  {
    var s := ShowContext(c);
    assert s[0] == '@';
    OtherPrefix(s, "***", 0);
    OtherPrefix(s, MOVE_TO, 0);
    NotBlank(s);
    if c.Some? {
      PrefixStrips(CONTEXT, c.value);
      assert s != EMPTY_CONTEXT;
    }
  }

  lemma NotBlank(s: string)
    requires s != [] && !IsWhitespace(s[0])
    ensures !IsBlank(s)
  {
    TrimShape(s);
  }

  lemma HeaderLine(prefix: string, path: string)
    requires |prefix| >= 5 && prefix[..3] == "***" && prefix[4] != 'E' && GoodPath(path)
    ensures var s := prefix + path;
            && Trim(s) == s && !IsBlank(s) && IsMarker(s) && !IsEndOfFile(s) && LineParts(s).None? && AddedLine(s).None?
  {
    var s := prefix + path;
    assert s[|s| - 1] == path[|path| - 1];
    assert prefix[..3][0] == '*';
    assert s[0] == '*' && s[..3] == prefix[..3];
    assert s[4] != END_OF_FILE[4];
    TrimTrimmed(s);
    NotBlank(s);
    OtherPrefix(s, "+", 0);
  }

  /** The line is recognised as this header and as nothing else. */
  predicate ReadAs(s: string, h: Head) {
    HeadOf(s) == h && !IsBlank(s) && IsMarker(s) && !IsEndOfFile(s) && LineParts(s).None? && AddedLine(s).None?
  }

  lemma AddHeadRead(path: string)
    requires GoodPath(path)
    ensures ReadAs(ADD_FILE + path, AddHead(path))
  {
    HeaderLine(ADD_FILE, path);
    PrefixStrips(ADD_FILE, path);
  }

  lemma DeleteHeadRead(path: string)
    requires GoodPath(path)
    ensures ReadAs(DELETE_FILE + path, DeleteHead(path))
  {
    HeaderLine(DELETE_FILE, path);
    PrefixStrips(DELETE_FILE, path);
    OtherPrefix(DELETE_FILE + path, ADD_FILE, 4);
  }

  lemma UpdateHeadRead(path: string)
    requires GoodPath(path)
    ensures ReadAs(UPDATE_FILE + path, UpdateHead(path))
  {
    HeaderLine(UPDATE_FILE, path);
    PrefixStrips(UPDATE_FILE, path);
    OtherPrefix(UPDATE_FILE + path, ADD_FILE, 4);
    OtherPrefix(UPDATE_FILE + path, DELETE_FILE, 4);
  }

  lemma HeadRead(h: Head)
    requires GoodHead(h)
    ensures ReadAs(ShowHead(h), h)
  {
    match h
    case AddHead(path) => AddHeadRead(path);
    case DeleteHead(path) => DeleteHeadRead(path);
    case UpdateHead(path) => UpdateHeadRead(path);
  }

  lemma GrammarReadsPrinter()
    ensures Reads(PatchGrammar(), PatchPrinter())
  {
    forall d
      ensures !IsEndOfFile(Show(d)) && LineParts(Show(d)) == Some(PartsOf(d)) && ChunkHeader(Show(d)).None?
              && !IsMarker(Show(d)) && MoveTarget(Show(d)).None?
    {
      DiffRead(d);
    }
    assert ReadsDiff(PatchGrammar(), PatchPrinter());
    forall c
      ensures ChunkHeader(ShowContext(c)) == Some(c) && !IsBlank(ShowContext(c)) && !IsMarker(ShowContext(c))
              && !IsEndOfFile(ShowContext(c)) && LineParts(ShowContext(c)).None? && MoveTarget(ShowContext(c)).None?
    {
      ContextRead(c);
    }
    assert ReadsContext(PatchGrammar(), PatchPrinter());
    forall h | GoodHead(h)
      ensures HeadOf(ShowHead(h)) == h && !IsBlank(ShowHead(h)) && IsMarker(ShowHead(h)) && !IsEndOfFile(ShowHead(h))
              && LineParts(ShowHead(h)).None? && AddedLine(ShowHead(h)).None?
    {
      HeadRead(h);
    }
    forall m
      ensures MoveTarget(ShowMove(m)) == Some(m)
    {
      PrefixStrips(MOVE_TO, m);
    }
    forall l
      ensures AddedLine(ShowAdded(l)) == Some(l)
    {
      PrefixStrips("+", l);
    }
    assert ReadsHead(PatchGrammar(), PatchPrinter());
  }

  // ---------- the round trip ----------

  predicate Good(h: HunkText) { WellFormed(PatchGrammar(), PatchPrinter(), h) }

  function ShowPatch(hunks: seq<HunkText>): seq<string> {
    [BEGIN_PATCH] + ShowHunks(PatchPrinter(), hunks) + [END_PATCH]
  }

  /** Any spelling of a well-formed hunk list parses to exactly that list, in both modes. */
  lemma LinesRoundTrip(hunks: seq<HunkText>, lenient: bool)
    requires forall h :: h in hunks ==> Good(h)
    ensures ParseLines(PatchGrammar(), ShowPatch(hunks), lenient) == Ok(HunksOf(hunks))
  {
    var lines := ShowPatch(hunks);
    GrammarReadsPrinter();
    HunksRound(PatchGrammar(), PatchPrinter(), hunks, 2);
    assert lines[1..|lines| - 1] == ShowHunks(PatchPrinter(), hunks);
    assert CheckBoundaries(lines) == None;
  }

  /** A line that survives being joined with line feeds and split again. */
  predicate Whole(line: string) {
    Free(line, '\n') && (line == [] || line[|line| - 1] != '\r')
  }

  function Render(hunks: seq<HunkText>): string { Join(ShowPatch(hunks), "\n") }

  lemma StripWhole(lines: seq<string>)
    requires forall l :: l in lines ==> Whole(l)
    ensures StripAll(lines) == lines
  {
    forall i | 0 <= i < |lines|
      ensures StripCr(lines[i]) == lines[i]
    {
      assert lines[i] in lines;
    }
  }

  lemma LinesOfPieces(text: string, pieces: seq<string>)
    requires Split(text, '\n') == pieces && pieces[|pieces| - 1] != [] && forall l :: l in pieces ==> Whole(l)
    ensures Lines(text) == pieces
  {
    StripWhole(pieces[..|pieces| - 1]);
    assert pieces == pieces[..|pieces| - 1] + [pieces[|pieces| - 1]];
  }

  lemma LinesOfJoin(lines: seq<string>)
    requires lines != [] && lines[|lines| - 1] != [] && forall l :: l in lines ==> Whole(l)
    ensures Lines(Join(lines, "\n")) == lines
  {
    SplitJoin(lines, '\n');
    LinesOfPieces(Join(lines, "\n"), lines);
  }

  lemma {:induction false} JoinEnds(lines: seq<string>, sep: string)
    requires lines != [] && lines[0] != [] && lines[|lines| - 1] != []
    ensures var r := Join(lines, sep);
            var last := lines[|lines| - 1];
            r != [] && r[0] == lines[0][0] && r[|r| - 1] == last[|last| - 1]
  {
    if |lines| > 1 {
      JoinLast(lines, sep);
    }
  }

  lemma {:induction false} JoinLast(lines: seq<string>, sep: string)
    requires lines != [] && lines[|lines| - 1] != []
    ensures var r := Join(lines, sep);
            var last := lines[|lines| - 1];
            r != [] && r[|r| - 1] == last[|last| - 1]
  {
    if |lines| > 1 {
      JoinLast(lines[1..], sep);
    }
  }

  lemma MarkersWhole()
    ensures Whole(BEGIN_PATCH) && Whole(END_PATCH)
  {
  }

  /** The lines between the patch markers survive being written out as text. */
  lemma LinesOfFrame(body: seq<string>)
    requires forall l :: l in body ==> Whole(l)
    ensures var lines := [BEGIN_PATCH] + body + [END_PATCH]; Lines(Trim(Join(lines, "\n"))) == lines
  {
    var lines := [BEGIN_PATCH] + body + [END_PATCH];
    assert lines[0] == BEGIN_PATCH && lines[|lines| - 1] == END_PATCH;
    JoinEnds(lines, "\n");
    TrimTrimmed(Join(lines, "\n"));
    MarkersWhole();
    LinesOfJoin(lines);
  }

  /** On text: printing a well-formed hunk list and parsing it gives the same list back. */
  lemma TextRoundTrip(hunks: seq<HunkText>, lenient: bool)
    requires forall h :: h in hunks ==> Good(h)
    requires forall l :: l in ShowHunks(PatchPrinter(), hunks) ==> Whole(l)
    ensures ParseText(Render(hunks), lenient) == Ok(HunksOf(hunks))
  {
    LinesOfFrame(ShowHunks(PatchPrinter(), hunks));
    LinesRoundTrip(hunks, lenient);
  }

  // ---------- coverage and positions ----------

  /** How many body lines each parsed hunk takes. */
  function Spans(one: HunkParser, lines: seq<string>, at: nat): seq<nat>
    requires ParseHunks(one, lines, at).Ok?
    decreases |lines|
  {
    if lines == [] then []
    else
      var n := one(lines, at).value.1;
      [n] + Spans(one, lines[n..], at + n)
  }

  function Sum(spans: seq<nat>): nat { if spans == [] then 0 else spans[0] + Sum(spans[1..]) }

  /** A successful parse takes every body line exactly once, and every hunk takes at least one. */
  lemma {:induction false} SpansCover(one: HunkParser, lines: seq<string>, at: nat)
    requires ParseHunks(one, lines, at).Ok?
    ensures Sum(Spans(one, lines, at)) == |lines|
    ensures |Spans(one, lines, at)| == |ParseHunks(one, lines, at).value|
    ensures forall n :: n in Spans(one, lines, at) ==> n > 0
    decreases |lines|
  {
    if lines != [] {
      var n := one(lines, at).value.1;
      SpansCover(one, lines[n..], at + n);
    }
  }

  /** Where a chunk's diff lines begin: behind its header, if it has one. */
  function BodyStart(g: Grammar, lines: seq<string>): nat
    requires lines != []
  {
    if g.context(lines[0]).Some? then 1 else 0
  }

  /**
   * An error about a chunk's first diff line gives a position one behind the chunk's first line. That is where the
   * offending line stands exactly when the chunk has a header; without one the position is off by one.
   */
  lemma ChunkErrorPosition(g: Grammar, lines: seq<string>, at: nat, first: bool)
    requires lines != [] && ParseChunk(g, lines, at, first).Err?
    ensures var e := ParseChunk(g, lines, at, first).error;
            && e.InvalidHunk?
            && (e.reason.MissingContext? ==> e.lineNumber == at && e.reason.line == lines[0])
            && (e.reason.UnexpectedLine? ==>
                  BodyStart(g, lines) < |lines| && e.reason.line == lines[BodyStart(g, lines)])
            && (!e.reason.MissingContext? ==> (e.lineNumber == at + BodyStart(g, lines) <==> g.context(lines[0]).Some?))
  {
  }

  /** What is wrong with a chunk at the start of these lines. */
  predicate ChunkCause(g: Grammar, lines: seq<string>, at: nat, e: ParseError) {
    && lines != [] && e.InvalidHunk? && !g.blank(lines[0]) && !g.marker(lines[0])
    && var body := BodyStart(g, lines);
       match e.reason
       case MissingContext(line) => e.lineNumber == at && line == lines[0] && g.context(line).None?
       case NoLines => e.lineNumber == at + 1 && (body == |lines| || g.eof(lines[body]))
       case UnexpectedLine(line) =>
         e.lineNumber == at + 1 && body < |lines| && line == lines[body] && !g.eof(line) && g.parts(line).None?
       case _ => false
  }

  /** Blank lines only, up to a marker or the end. */
  predicate NothingUntil(g: Grammar, lines: seq<string>, n: nat) {
    && n <= |lines| && (forall i :: 0 <= i < n ==> g.blank(lines[i]))
    && (n < |lines| ==> !g.blank(lines[n]) && g.marker(lines[n]))
  }

  ghost predicate ChunkCauseWithin(g: Grammar, lines: seq<string>, at: nat, e: ParseError) {
    exists k :: 0 <= k < |lines| && ChunkCause(g, lines[k..], at + k, e)
  }

  /** What is wrong with a hunk at the start of these lines. */
  ghost predicate HunkCause(g: Grammar, lines: seq<string>, at: nat, e: ParseError) {
    && lines != [] && e.InvalidHunk?
    && match e.reason
       case BadHeader(line) => e.lineNumber == at && g.head(lines[0]).NoHead? && line == Trim(lines[0])
       case EmptyUpdate(path) =>
         var body := lines[if MoveOf(g, lines[1..]).Some? then 2 else 1..];
         e.lineNumber == at && g.head(lines[0]) == UpdateHead(path) && exists n :: NothingUntil(g, body, n)
       case _ => ChunkCauseWithin(g, lines, at, e)
  }

  ghost predicate HunkCauseWithin(g: Grammar, lines: seq<string>, at: nat, e: ParseError) {
    exists k :: 0 <= k < |lines| && HunkCause(g, lines[k..], at + k, e)
  }

  lemma ChunkErrorIsTrue(g: Grammar, lines: seq<string>, at: nat, first: bool)
    requires lines != [] && !g.blank(lines[0]) && !g.marker(lines[0]) && ParseChunk(g, lines, at, first).Err?
    ensures ChunkCause(g, lines, at, ParseChunk(g, lines, at, first).error)
  {
  }

  lemma ChunkCauseBehind(g: Grammar, lines: seq<string>, n: nat, at: nat, e: ParseError)
    requires n <= |lines| && ChunkCauseWithin(g, lines[n..], at + n, e)
    ensures ChunkCauseWithin(g, lines, at, e)
  {
    var k :| 0 <= k < |lines[n..]| && ChunkCause(g, lines[n..][k..], at + n + k, e);
    assert lines[n..][k..] == lines[n + k..];
    assert ChunkCause(g, lines[n + k..], at + (n + k), e);
  }

  lemma HunkCauseBehind(g: Grammar, lines: seq<string>, n: nat, at: nat, e: ParseError)
    requires n <= |lines| && HunkCauseWithin(g, lines[n..], at + n, e)
    ensures HunkCauseWithin(g, lines, at, e)
  {
    var k :| 0 <= k < |lines[n..]| && HunkCause(g, lines[n..][k..], at + n + k, e);
    assert lines[n..][k..] == lines[n + k..];
    assert HunkCause(g, lines[n + k..], at + (n + k), e);
  }

  /** What parsing chunks says of lines: a true error, or no chunk only where there is none. */
  ghost predicate ChunksTrue(g: Grammar, lines: seq<string>, at: nat, r: Result<(seq<Chunk>, nat), ParseError>) {
    && (r.Err? ==> ChunkCauseWithin(g, lines, at, r.error))
    && (r.Ok? && r.value.0 == [] ==> NothingUntil(g, lines, r.value.1))
  }

  lemma CoreErrorIsTrue(g: Grammar, parse: Reader, lines: seq<string>, at: nat, first: bool)
    requires ReadsChunks(g, parse) && lines != [] && !g.blank(lines[0]) && !g.marker(lines[0])
    requires var one := ParseChunk(g, lines, at, first);
             one.Ok? ==> ChunksTrue(g, lines[one.value.1..], at + one.value.1,
                                    parse(lines[one.value.1..], at + one.value.1, false))
    ensures ChunksTrue(g, lines, at, parse(lines, at, first))
  {
    CoreStep(g, parse, lines, at, first);
    var one := ParseChunk(g, lines, at, first);
    if one.Ok? {
      var n := one.value.1;
      var r := parse(lines[n..], at + n, false);
      if r.Err? {
        ChunkCauseBehind(g, lines, n, at, r.error);
      }
    } else {
      ChunkErrorIsTrue(g, lines, at, first);
      assert lines[0..] == lines;
      assert ChunkCause(g, lines[0..], at + 0, one.error);
    }
  }

  lemma BlankErrorIsTrue(g: Grammar, parse: Reader, lines: seq<string>, at: nat, first: bool)
    requires ReadsChunks(g, parse) && lines != [] && g.blank(lines[0])
    requires ChunksTrue(g, lines[1..], at + 1, parse(lines[1..], at + 1, first))
    ensures ChunksTrue(g, lines, at, parse(lines, at, first))
  {
    BlankStep(g, parse, lines, at, first);
    var r := parse(lines[1..], at + 1, first);
    if r.Err? {
      ChunkCauseBehind(g, lines, 1, at, r.error);
    }
  }

  lemma {:induction false} ChunksErrorIsTrue(g: Grammar, parse: Reader, lines: seq<string>, at: nat, first: bool)
    requires ReadsChunks(g, parse)
    ensures ChunksTrue(g, lines, at, parse(lines, at, first))
    decreases |lines|
  {
    if lines != [] && g.blank(lines[0]) {
      ChunksErrorIsTrue(g, parse, lines[1..], at + 1, first);
      BlankErrorIsTrue(g, parse, lines, at, first);
    } else if lines != [] && !g.marker(lines[0]) {
      var one := ParseChunk(g, lines, at, first);
      if one.Ok? {
        ChunksErrorIsTrue(g, parse, lines[one.value.1..], at + one.value.1, false);
      }
      CoreErrorIsTrue(g, parse, lines, at, first);
    } else {
      LoopEnd(g, parse, lines, at, first);
    }
  }

  ghost predicate UpdateErrorsTrue(g: Grammar, update: UpdateParser) {
    forall lines, at :: ChunksTrue(g, lines, at, update(lines, at))
  }

  lemma OwnUpdateErrorsTrue(g: Grammar)
    ensures UpdateErrorsTrue(g, UpdateParserOf(g))
  {
    var one := ChunkParserOf(g);
    forall lines, at
      ensures ChunksTrue(g, lines, at, UpdateParserOf(g)(lines, at))
    {
      ChunksErrorIsTrue(g, (l, n, f) => ParseChunks(g, one, l, n, f), lines, at, true);
    }
  }

  lemma HunkErrorIsTrue(g: Grammar, update: UpdateParser, lines: seq<string>, at: nat)
    requires UpdateErrorsTrue(g, update) && lines != [] && ParseHunk(g, update, lines, at).Err?
    ensures HunkCause(g, lines, at, ParseHunk(g, update, lines, at).error)
  {
    if g.head(lines[0]).UpdateHead? {
      var skip := if MoveOf(g, lines[1..]).Some? then 2 else 1;
      var r := update(lines[skip..], at + skip);
      if r.Err? {
        ChunkCauseBehind(g, lines, skip, at, r.error);
      }
    }
  }

  ghost predicate HunkErrorsTrue(g: Grammar, one: HunkParser) {
    forall lines, at :: lines != [] && one(lines, at).Err? ==> HunkCause(g, lines, at, one(lines, at).error)
  }

  lemma OwnHunkErrorsTrue(g: Grammar)
    ensures HunkErrorsTrue(g, HunkParserOf(g))
  {
    OwnUpdateErrorsTrue(g);
    forall lines, at | lines != [] && HunkParserOf(g)(lines, at).Err?
      ensures HunkCause(g, lines, at, HunkParserOf(g)(lines, at).error)
    {
      HunkErrorIsTrue(g, UpdateParserOf(g), lines, at);
    }
  }

  lemma {:induction false} HunksErrorIsTrue(g: Grammar, one: HunkParser, lines: seq<string>, at: nat)
    requires HunkErrorsTrue(g, one) && ParseHunks(one, lines, at).Err?
    ensures HunkCauseWithin(g, lines, at, ParseHunks(one, lines, at).error)
    decreases |lines|
  {
    if one(lines, at).Ok? {
      var n := one(lines, at).value.1;
      HunksErrorIsTrue(g, one, lines[n..], at + n);
      HunkCauseBehind(g, lines, n, at, ParseHunks(one, lines[n..], at + n).error);
    } else {
      assert lines[0..] == lines;
      assert HunkCause(g, lines[0..], at + 0, one(lines, at).error);
    }
  }

  /**
   * Every error about a body names what is wrong and a line where it is: a line that is no header, with its trimmed
   * text; the header of an update without chunks; a chunk that needs a context line; the line behind a chunk's first
   * one if the chunk has no diff line.
   */
  lemma ErrorsAreTrue(g: Grammar, lines: seq<string>, at: nat)
    requires ParseHunks(HunkParserOf(g), lines, at).Err?
    ensures HunkCauseWithin(g, lines, at, ParseHunks(HunkParserOf(g), lines, at).error)
  {
    OwnHunkErrorsTrue(g);
    HunksErrorIsTrue(g, HunkParserOf(g), lines, at);
  }

  // ---------- the grammar in words ----------

  /** A diff line is kept, added or removed by its first character; an empty one is kept. */
  lemma DiffLinesSpelled(text: string)
    ensures LineParts(" " + text) == Some(([text], [text])) && LineParts("") == Some(([""], [""]))
    ensures LineParts("+" + text) == Some(([], [text])) && LineParts("-" + text) == Some(([text], []))
  {
    assert (" " + text)[1..] == text && ("+" + text)[1..] == text && ("-" + text)[1..] == text;
  }

  // ---------- the frame of a patch ----------

  /** A patch begins and ends with its markers. */
  predicate Framed(lines: seq<string>) {
    |lines| > 0 && lines[0] == "*** Begin Patch" && lines[|lines| - 1] == "*** End Patch"
  }

  /** The lines stand in a heredoc. */
  ghost predicate InHeredoc(lines: seq<string>) {
    && |lines| >= 4
    && (lines[0] == "<<EOF" || lines[0] == "<<'EOF'" || lines[0] == "<<\"EOF\"")
    && exists p :: lines[|lines| - 1] == p + "EOF"
  }

  /** What is wrong with lines that are not framed. */
  function Complaint(lines: seq<string>): ParseError {
    if |lines| > 0 && lines[0] != "*** Begin Patch" then BadFirstLine else BadLastLine
  }

  lemma EndsWithIff(s: string)
    ensures EndsWith(s, "EOF") <==> exists p :: s == p + "EOF"
  {
    if EndsWith(s, "EOF") {
      assert s == s[..|s| - 3] + "EOF";
    }
    if p :| s == p + "EOF" {
      assert s[|s| - 3..] == "EOF";
    }
  }

  /** Which lines are the patch: framed ones, or in lenient mode framed ones in a heredoc; else what is wrong. */
  lemma FrameMeans(lines: seq<string>, lenient: bool)
    ensures Framed(lines) ==> PatchLines(lines, lenient) == Ok(lines)
    ensures !Framed(lines) && lenient && InHeredoc(lines) ==>
              var inner := lines[1..|lines| - 1];
              PatchLines(lines, lenient) == if Framed(inner) then Ok(inner) else Err(Complaint(inner))
    ensures !Framed(lines) && !(lenient && InHeredoc(lines)) ==> PatchLines(lines, lenient) == Err(Complaint(lines))
  {
    if lines != [] {
      EndsWithIff(lines[|lines| - 1]);
    }
  }

  /** In lenient mode a patch in a heredoc parses as the patch alone; in strict mode it does not parse. */
  lemma HeredocParses(hunks: seq<HunkText>, start: string, before: string)
    requires forall h :: h in hunks ==> Good(h)
    requires start == "<<EOF" || start == "<<'EOF'" || start == "<<\"EOF\""
    ensures var lines := [start] + ShowPatch(hunks) + [before + "EOF"];
            && ParseLines(PatchGrammar(), lines, true) == Ok(HunksOf(hunks))
            && ParseLines(PatchGrammar(), lines, false) == Err(BadFirstLine)
  {
    var patch := ShowPatch(hunks);
    var lines := [start] + patch + [before + "EOF"];
    assert lines[0] == start && lines[|lines| - 1] == before + "EOF" && lines[1..|lines| - 1] == patch;
    assert InHeredoc(lines) && Framed(patch);
    FrameMeans(lines, true);
    FrameMeans(lines, false);
    FrameMeans(patch, true);
    LinesRoundTrip(hunks, true);
  }

  // ---------- other line ends ----------

  lemma {:induction false} WithCrAt(lines: seq<string>)
    requires lines != []
    ensures |WithCr(lines)| == |lines| && WithCr(lines)[|lines| - 1] == lines[|lines| - 1]
    ensures forall i :: 0 <= i < |lines| - 1 ==> WithCr(lines)[i] == lines[i] + "\r"
    decreases |lines|
  {
    if |lines| > 1 {
      WithCrAt(lines[1..]);
    }
  }

  lemma StripsCr(line: string)
    ensures StripCr(line + "\r") == line
  {
    assert (line + "\r")[..|line|] == line;
  }

  /** The pieces are the lines, but for a carriage return at the end of all but the last. */
  ghost predicate Stripped(lines: seq<string>, pieces: seq<string>) {
    && lines != [] && |pieces| == |lines| && pieces[|pieces| - 1] == lines[|lines| - 1]
    && forall i :: 0 <= i < |lines| - 1 ==> StripCr(pieces[i]) == lines[i]
  }

  lemma StripsTo(lines: seq<string>, pieces: seq<string>)
    requires lines != [] && pieces == WithCr(lines)
    ensures Stripped(lines, pieces)
  {
    WithCrAt(lines);
    forall i | 0 <= i < |lines| - 1
      ensures StripCr(pieces[i]) == lines[i]
    {
      StripsCr(lines[i]);
    }
  }

  lemma LinesBySplit(text: string, pieces: seq<string>, lines: seq<string>)
    requires Split(text, '\n') == pieces && Stripped(lines, pieces) && lines[|lines| - 1] != []
    ensures Lines(text) == lines
  {
    assert StripAll(DropLast(pieces)) == DropLast(lines);
    assert lines == DropLast(lines) + [lines[|lines| - 1]];
  }

  lemma LinesOfCrLf(lines: seq<string>)
    requires lines != [] && lines[|lines| - 1] != [] && AllFree(lines)
    ensures Lines(Join(lines, CRLF)) == lines
  {
    SplitJoinCrLf(lines);
    StripsTo(lines, WithCr(lines));
    LinesBySplit(Join(lines, CRLF), WithCr(lines), lines);
  }

  /** A patch whose lines end in carriage return and line feed parses to the same hunks. */
  lemma CrLfRoundTrip(hunks: seq<HunkText>, lenient: bool)
    requires forall h :: h in hunks ==> Good(h)
    requires forall l :: l in ShowHunks(PatchPrinter(), hunks) ==> Whole(l)
    ensures ParseText(Join(ShowPatch(hunks), "\r\n"), lenient) == Ok(HunksOf(hunks))
  {
    var lines := ShowPatch(hunks);
    assert lines[0] == BEGIN_PATCH && lines[|lines| - 1] == END_PATCH;
    JoinEnds(lines, "\r\n");
    TrimTrimmed(Join(lines, "\r\n"));
    MarkersWhole();
    assert AllFree(lines);
    LinesOfCrLf(lines);
    LinesRoundTrip(hunks, lenient);
  }
}
