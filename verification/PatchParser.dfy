/** The line parser of the patch grammar (`parser.rs`). */
module PatchParser {
  import opened Prelude
  import opened Text
  import opened Replacements

  const BEGIN_PATCH := "*** Begin Patch"
  const END_PATCH := "*** End Patch"
  const ADD_FILE := "*** Add File: "
  const DELETE_FILE := "*** Delete File: "
  const UPDATE_FILE := "*** Update File: "
  const MOVE_TO := "*** Move to: "
  const END_OF_FILE := "*** End of File"
  const CONTEXT := "@@ "
  const EMPTY_CONTEXT := "@@"

  datatype Hunk =
    | AddFile(path: string, contents: string)
    | DeleteFile(path: string)
    | UpdateFile(path: string, movePath: Option<string>, chunks: seq<Chunk>)

  datatype Reason =
    | BadHeader(line: string)
    | EmptyUpdate(path: string)
    | NoLines
    | UnexpectedLine(line: string)
    | MissingContext(line: string)

  datatype ParseError = BadFirstLine | BadLastLine | InvalidHunk(reason: Reason, lineNumber: nat)

  function StripPrefix(s: string, prefix: string): Option<string> {
    if prefix <= s then Some(s[|prefix|..]) else None
  }

  // ---------- classifying single lines ----------

  /** The old and new lines a diff line contributes; `None` for any other line. */
  function LineParts(line: string): Option<(seq<string>, seq<string>)> {
    if line == [] then Some(([[]], [[]]))
    else if line[0] == ' ' then Some(([line[1..]], [line[1..]]))
    else if line[0] == '+' then Some(([], [line[1..]]))
    else if line[0] == '-' then Some(([line[1..]], []))
    else None
  }

  /** The context a chunk's first line gives. */
  function ChunkHeader(line: string): Option<Option<string>> {
    if line == EMPTY_CONTEXT then Some(None)
    else match StripPrefix(line, CONTEXT)
         case Some(context) => Some(Some(context))
         case None => None
  }

  datatype Head = AddHead(path: string) | DeleteHead(path: string) | UpdateHead(path: string) | NoHead

  /** What a hunk header says; padding around it is ignored. */
  function HeadOf(line: string): Head {
    var first := Trim(line);
    match StripPrefix(first, ADD_FILE)
    case Some(path) => AddHead(path)
    case None =>
      match StripPrefix(first, DELETE_FILE)
      case Some(path) => DeleteHead(path)
      case None =>
        match StripPrefix(first, UPDATE_FILE)
        case Some(path) => UpdateHead(path)
        case None => NoHead
  }

  predicate IsBlank(line: string) { Trim(line) == [] }

  predicate IsMarker(line: string) { "***" <= line }

  predicate IsEndOfFile(line: string) { line == END_OF_FILE }

  function MoveTarget(line: string): Option<string> { StripPrefix(line, MOVE_TO) }

  function AddedLine(line: string): Option<string> { StripPrefix(line, "+") }

  /** Everything the parser asks about a single line. */
  datatype Grammar = Grammar(
    head: string -> Head,
    move: string -> Option<string>,
    added: string -> Option<string>,
    context: string -> Option<Option<string>>,
    parts: string -> Option<(seq<string>, seq<string>)>,
    blank: string -> bool,
    marker: string -> bool,
    eof: string -> bool)

  function PatchGrammar(): Grammar {
    Grammar(HeadOf, MoveTarget, AddedLine, ChunkHeader, LineParts, IsBlank, IsMarker, IsEndOfFile)
  }

  // ---------- chunks ----------

  datatype Body = Body(oldLines: seq<string>, newLines: seq<string>, eof: bool, count: nat)

  function Before(parts: (seq<string>, seq<string>), b: Body): Body {
    Body(parts.0 + b.oldLines, parts.1 + b.newLines, b.eof, b.count + 1)
  }

  /** The diff lines up to the end-of-file marker or the first other line. */
  function BodyOf(g: Grammar, lines: seq<string>): (b: Body)
    ensures b.count <= |lines|
  {
    if lines == [] then Body([], [], false, 0)
    else if g.eof(lines[0]) then Body([], [], true, 1)
    else
      match g.parts(lines[0])
      case None => Body([], [], false, 0)
      case Some(parts) => Before(parts, BodyOf(g, lines[1..]))
  }

  /** `parse_update_file_chunk`: the chunk and the number of lines it takes. */
  function ParseChunk(g: Grammar, lines: seq<string>, lineNumber: nat, allowMissingContext: bool)
    : (r: Result<(Chunk, nat), ParseError>)
    ensures r.Ok? ==> 0 < r.value.1 <= |lines|
  {
    if lines == [] then Err(InvalidHunk(NoLines, lineNumber))
    else
      var header := g.context(lines[0]);
      if header.None? && !allowMissingContext then Err(InvalidHunk(MissingContext(lines[0]), lineNumber))
      else
        var skip := if header.Some? then 1 else 0;
        var rest := lines[skip..];
        if rest == [] || g.eof(rest[0]) then Err(InvalidHunk(NoLines, lineNumber + 1))
        else if g.parts(rest[0]).None? then Err(InvalidHunk(UnexpectedLine(rest[0]), lineNumber + 1))
        else
          var b := BodyOf(g, rest);
          Ok((Chunk(if header.Some? then header.value else None, b.oldLines, b.newLines, b.eof), skip + b.count))
  }

  // ---------- hunks ----------

  /** A chunk parser takes at least one line, and none that is not there. */
  ghost predicate ChunkProgress(f: (seq<string>, nat, bool) -> Result<(Chunk, nat), ParseError>) {
    forall lines, at, first :: f(lines, at, first).Ok? ==> 0 < f(lines, at, first).value.1 <= |lines|
  }

  type ChunkParser = f: (seq<string>, nat, bool) -> Result<(Chunk, nat), ParseError> | ChunkProgress(f)
    witness (lines, at, first) => Err(BadFirstLine)

  function ChunkParserOf(g: Grammar): ChunkParser {
    (lines, at, first) => ParseChunk(g, lines, at, first)
  }

  /** The chunks of an update, and the lines taken: blank lines between chunks are skipped. */
  function ParseChunks(g: Grammar, one: ChunkParser, lines: seq<string>, at: nat, first: bool)
    : (r: Result<(seq<Chunk>, nat), ParseError>)
    ensures r.Ok? ==> r.value.1 <= |lines|
    decreases |lines|
  {
    if lines == [] then Ok(([], 0))
    else if g.blank(lines[0]) then After([], 1, ParseChunks(g, one, lines[1..], at + 1, first))
    else if g.marker(lines[0]) then Ok(([], 0))
    else
      match one(lines, at, first)
      case Err(e) => Err(e)
      case Ok((chunk, n)) => After([chunk], n, ParseChunks(g, one, lines[n..], at + n, false))
  }

  /** The result of parsing on, after `chunks` taking `parsed` lines. */
  function After(chunks: seq<Chunk>, parsed: nat, r: Result<(seq<Chunk>, nat), ParseError>)
    : Result<(seq<Chunk>, nat), ParseError>
  {
    if r.Ok? then Ok((chunks + r.value.0, parsed + r.value.1)) else r
  }

  lemma AfterNothing(r: Result<(seq<Chunk>, nat), ParseError>)
    ensures After([], 0, r) == r
  {
    if r.Ok? {
      assert [] + r.value.0 == r.value.0;
    }
  }

  lemma AfterAll(chunks: seq<Chunk>, parsed: nat)
    ensures After(chunks, parsed, Ok(([], 0))) == Ok((chunks, parsed))
  {
    assert chunks + [] == chunks;
  }

  lemma AfterTwice(a: seq<Chunk>, m: nat, b: seq<Chunk>, n: nat, r: Result<(seq<Chunk>, nat), ParseError>)
    ensures After(a, m, After(b, n, r)) == After(a + b, m + n, r)
  {
    if r.Ok? {
      assert a + (b + r.value.0) == (a + b) + r.value.0;
    }
  }

  /** The added lines, each with its line feed, and how many there are. */
  function AddedLines(g: Grammar, lines: seq<string>): (r: (string, nat))
    ensures r.1 <= |lines|
  {
    if lines == [] then ([], 0)
    else
      match g.added(lines[0])
      case None => ([], 0)
      case Some(line) => var (text, n) := AddedLines(g, lines[1..]); (line + "\n" + text, n + 1)
  }

  function MoveOf(g: Grammar, lines: seq<string>): Option<string> {
    if lines == [] then None else g.move(lines[0])
  }

  ghost predicate UpdateProgress(f: (seq<string>, nat) -> Result<(seq<Chunk>, nat), ParseError>) {
    forall lines, at :: f(lines, at).Ok? ==> f(lines, at).value.1 <= |lines|
  }

  type UpdateParser = f: (seq<string>, nat) -> Result<(seq<Chunk>, nat), ParseError> | UpdateProgress(f)
    witness (lines, at) => Err(BadFirstLine)

  function UpdateParserOf(g: Grammar): UpdateParser {
    var one := ChunkParserOf(g);
    (lines, at) => ParseChunks(g, one, lines, at, true)
  }

  /** `parse_one_hunk`: the hunk and the number of lines it takes. */
  function ParseHunk(g: Grammar, update: UpdateParser, lines: seq<string>, at: nat)
    : (r: Result<(Hunk, nat), ParseError>)
    requires lines != []
    ensures r.Ok? ==> 0 < r.value.1 <= |lines|
  {
    match g.head(lines[0])
    case AddHead(path) => var (contents, n) := AddedLines(g, lines[1..]); Ok((AddFile(path, contents), 1 + n))
    case DeleteHead(path) => Ok((DeleteFile(path), 1))
    case UpdateHead(path) =>
      var move := MoveOf(g, lines[1..]);
      var skip := if move.Some? then 2 else 1;
      FinishUpdate(path, move, at, skip, update(lines[skip..], at + skip))
    case NoHead => Err(InvalidHunk(BadHeader(Trim(lines[0])), at))
  }

  function FinishUpdate(path: string, move: Option<string>, at: nat, skip: nat, r: Result<(seq<Chunk>, nat),
                        ParseError>)
    : Result<(Hunk, nat), ParseError>
  {
    match r
    case Err(e) => Err(e)
    case Ok((chunks, n)) =>
      if chunks == [] then Err(InvalidHunk(EmptyUpdate(path), at)) else Ok((UpdateFile(path, move, chunks), skip + n))
  }

  /** A hunk parser, asked only about a body with lines left, takes at least one of them. */
  ghost predicate HunkProgress(f: (seq<string>, nat) -> Result<(Hunk, nat), ParseError>) {
    forall lines, at :: f(lines, at).Ok? ==> 0 < f(lines, at).value.1 <= |lines|
  }

  type HunkParser = f: (seq<string>, nat) -> Result<(Hunk, nat), ParseError> | HunkProgress(f)
    witness (lines, at) => Err(BadFirstLine)

  function HunkParserOf(g: Grammar): HunkParser {
    var update := UpdateParserOf(g);
    (lines, at) => if lines == [] then Err(BadLastLine) else ParseHunk(g, update, lines, at)
  }

  function ParseHunks(one: HunkParser, lines: seq<string>, at: nat): Result<seq<Hunk>, ParseError>
    decreases |lines|
  {
    if lines == [] then Ok([])
    else
      match one(lines, at)
      case Err(e) => Err(e)
      case Ok((hunk, n)) => Prepend([hunk], ParseHunks(one, lines[n..], at + n))
  }

  function Prepend(hunks: seq<Hunk>, r: Result<seq<Hunk>, ParseError>): Result<seq<Hunk>, ParseError> {
    if r.Ok? then Ok(hunks + r.value) else r
  }

  lemma PrependTwice(a: seq<Hunk>, b: seq<Hunk>, r: Result<seq<Hunk>, ParseError>)
    ensures Prepend(a, Prepend(b, r)) == Prepend(a + b, r)
  {
    if r.Ok? {
      assert a + (b + r.value) == (a + b) + r.value;
    }
  }

  // ---------- the whole patch ----------

  function CheckBoundaries(lines: seq<string>): (r: Option<ParseError>)
    ensures r.None? ==> |lines| >= 2
  {
    if lines != [] && lines[0] == BEGIN_PATCH && lines[|lines| - 1] == END_PATCH then None
    else if lines != [] && lines[0] != BEGIN_PATCH then Some(BadFirstLine)
    else Some(BadLastLine)
  }

  predicate IsHeredocStart(line: string) { line == "<<EOF" || line == "<<'EOF'" || line == "<<\"EOF\"" }

  predicate EndsWith(s: string, suffix: string) { |s| >= |suffix| && s[|s| - |suffix|..] == suffix }

  /** The patch lines proper: in lenient mode a surrounding heredoc is taken off. */
  function PatchLines(lines: seq<string>, lenient: bool): (r: Result<seq<string>, ParseError>)
    ensures r.Ok? ==> |r.value| >= 2
  {
    match CheckBoundaries(lines)
    case None => Ok(lines)
    case Some(e) =>
      if lenient && |lines| >= 4 && IsHeredocStart(lines[0]) && EndsWith(lines[|lines| - 1], "EOF") then
        var inner := lines[1..|lines| - 1];
        match CheckBoundaries(inner)
        case None => Ok(inner)
        case Some(e2) => Err(e2)
      else Err(e)
  }

  function ParseLines(g: Grammar, lines: seq<string>, lenient: bool): Result<seq<Hunk>, ParseError> {
    match PatchLines(lines, lenient)
    case Err(e) => Err(e)
    case Ok(patch) => ParseHunks(HunkParserOf(g), patch[1..|patch| - 1], 2)
  }

  /** `str::lines`: a final empty piece is no line, and a terminated line loses one carriage return. */
  function Lines(text: string): seq<string> {
    var pieces := Split(text, '\n');
    var last := pieces[|pieces| - 1];
    StripAll(DropLast(pieces)) + if last == [] then [] else [last]
  }

  /** `parse_patch_text`. */
  function ParseText(text: string, lenient: bool): Result<seq<Hunk>, ParseError> {
    ParseLines(PatchGrammar(), Lines(Trim(text)), lenient)
  }

  // ---------- the loops ----------

  method ParseUpdateFileChunk(g: Grammar, lines: seq<string>, lineNumber: nat, allowMissingContext: bool)
    returns (r: Result<(Chunk, nat), ParseError>)
    ensures r == ParseChunk(g, lines, lineNumber, allowMissingContext)
  {
    if lines == [] {
      return Err(InvalidHunk(NoLines, lineNumber));
    }
    var header := g.context(lines[0]);
    if header.None? && !allowMissingContext {
      return Err(InvalidHunk(MissingContext(lines[0]), lineNumber));
    }
    var start := if header.Some? then 1 else 0;
    if start >= |lines| {
      return Err(InvalidHunk(NoLines, lineNumber + 1));
    }
    var rest := lines[start..];
    if g.eof(rest[0]) {
      return Err(InvalidHunk(NoLines, lineNumber + 1));
    }
    if g.parts(rest[0]).None? {
      return Err(InvalidHunk(UnexpectedLine(rest[0]), lineNumber + 1));
    }
    var b := ParseBodyLines(g, rest);
    return Ok((Chunk(if header.Some? then header.value else None, b.oldLines, b.newLines, b.eof), start + b.count));
  }

  method ParseBodyLines(g: Grammar, lines: seq<string>) returns (b: Body)
    ensures b == BodyOf(g, lines)
  {
    var before: seq<string>, after: seq<string>, remaining := [], [], lines;
    ghost var whole := BodyOf(g, lines);
    assert [] + whole.oldLines == whole.oldLines && [] + whole.newLines == whole.newLines;
    while remaining != []
      invariant |remaining| <= |lines|
      invariant whole == Continue(before, after, |lines| - |remaining|, BodyOf(g, remaining))
      decreases |remaining|
    {
      if g.eof(remaining[0]) {
        assert before + [] == before && after + [] == after;
        return Body(before, after, true, |lines| - |remaining| + 1);
      }
      var parts := g.parts(remaining[0]);
      if parts.None? {
        break;
      }
      ghost var rest := BodyOf(g, remaining[1..]);
      assert before + (parts.value.0 + rest.oldLines) == (before + parts.value.0) + rest.oldLines;
      assert after + (parts.value.1 + rest.newLines) == (after + parts.value.1) + rest.newLines;
      before, after, remaining := before + parts.value.0, after + parts.value.1, remaining[1..];
    }
    assert before + [] == before && after + [] == after;
    return Body(before, after, false, |lines| - |remaining|);
  }

  function Continue(before: seq<string>, after: seq<string>, parsed: nat, b: Body): Body {
    Body(before + b.oldLines, after + b.newLines, b.eof, parsed + b.count)
  }

  method ParseAddedLines(g: Grammar, lines: seq<string>) returns (contents: string, parsed: nat)
    ensures (contents, parsed) == AddedLines(g, lines)
  {
    contents, parsed := [], 0;
    assert lines[0..] == lines && [] + AddedLines(g, lines).0 == AddedLines(g, lines).0;
    while parsed < |lines|
      invariant 0 <= parsed <= |lines|
      invariant AddedLines(g, lines).0 == contents + AddedLines(g, lines[parsed..]).0
      invariant AddedLines(g, lines).1 == parsed + AddedLines(g, lines[parsed..]).1
    {
      var line := g.added(lines[parsed]);
      assert lines[parsed..][0] == lines[parsed] && lines[parsed..][1..] == lines[parsed + 1..];
      if line.None? {
        assert contents + [] == contents;
        return;
      }
      ghost var rest := AddedLines(g, lines[parsed + 1..]).0;
      assert contents + (line.value + "\n" + rest) == (contents + line.value + "\n") + rest;
      contents, parsed := contents + line.value + "\n", parsed + 1;
    }
    assert contents + [] == contents;
  }

  /** Marks a place a parser is asked about; the loops below know what it answers only there. */
  ghost predicate Asked(lines: seq<string>, at: nat) { true }

  type Reader = (seq<string>, nat, bool) -> Result<(seq<Chunk>, nat), ParseError>

  ghost predicate ReadsChunks(g: Grammar, parse: Reader) {
    forall lines, at, first {:trigger Asked(lines, at), parse(lines, at, first)} ::
      Asked(lines, at) ==> parse(lines, at, first) == ParseChunks(g, ChunkParserOf(g), lines, at, first)
  }

  ghost predicate ReadsHunks(g: Grammar, one: HunkParser) {
    forall lines, at {:trigger Asked(lines, at)} ::
      Asked(lines, at) && lines != [] ==> one(lines, at) == ParseHunk(g, UpdateParserOf(g), lines, at)
  }

  /** One round of the chunk loop: skips a blank line or takes one chunk. */
  method ParseNextChunk(g: Grammar, ghost parse: Reader, lines: seq<string>, at: nat, first: bool)
    returns (r: Result<(seq<Chunk>, nat), ParseError>)
    requires ReadsChunks(g, parse) && lines != [] && (g.blank(lines[0]) || !g.marker(lines[0]))
    ensures r.Err? ==> parse(lines, at, first) == Err(r.error)
    ensures r.Ok? ==> 0 < r.value.1 <= |lines|
    ensures r.Ok? ==>
              var (taken, n) := r.value;
              parse(lines, at, first) == After(taken, n, parse(lines[n..], at + n, first && taken == []))
  {
    assert Asked(lines, at);
    if g.blank(lines[0]) {
      assert Asked(lines[1..], at + 1);
      return Ok(([], 1));
    }
    var next := ParseUpdateFileChunk(g, lines, at, first);
    assert next == ChunkParserOf(g)(lines, at, first);
    if next.Err? {
      return Err(next.error);
    }
    assert Asked(lines[next.value.1..], at + next.value.1);
    return Ok(([next.value.0], next.value.1));
  }

  lemma ChunksEnd(g: Grammar, one: ChunkParser, lines: seq<string>, at: nat, first: bool)
    requires lines == [] || (!g.blank(lines[0]) && g.marker(lines[0]))
    ensures ParseChunks(g, one, lines, at, first) == Ok(([], 0))
  {
  }

  lemma LoopEnd(g: Grammar, parse: Reader, lines: seq<string>, at: nat, first: bool)
    requires ReadsChunks(g, parse) && (lines == [] || (!g.blank(lines[0]) && g.marker(lines[0])))
    ensures parse(lines, at, first) == Ok(([], 0))
  {
    assert Asked(lines, at);
    ChunksEnd(g, ChunkParserOf(g), lines, at, first);
  }

  lemma BlankStep(g: Grammar, parse: Reader, lines: seq<string>, at: nat, first: bool)
    requires ReadsChunks(g, parse) && lines != [] && g.blank(lines[0])
    ensures parse(lines, at, first) == After([], 1, parse(lines[1..], at + 1, first))
  {
    assert Asked(lines, at) && Asked(lines[1..], at + 1);
  }

  /** At a line that is neither blank nor a marker a chunk is parsed, and the rest after it. */
  lemma CoreStep(g: Grammar, parse: Reader, lines: seq<string>, at: nat, first: bool)
    requires ReadsChunks(g, parse) && lines != [] && !g.blank(lines[0]) && !g.marker(lines[0])
    ensures var one := ParseChunk(g, lines, at, first);
            if one.Err? then parse(lines, at, first) == Err(one.error)
            else
              parse(lines, at, first)
              == After([one.value.0], one.value.1, parse(lines[one.value.1..], at + one.value.1, false))
  {
    var one := ParseChunk(g, lines, at, first);
    assert one == ChunkParserOf(g)(lines, at, first);
    assert Asked(lines, at);
    if one.Ok? {
      assert Asked(lines[one.value.1..], at + one.value.1);
    }
  }

  /** The chunk loop. */
  method ParseUpdateChunks(g: Grammar, ghost parse: Reader, lines: seq<string>, at: nat)
    returns (r: Result<(seq<Chunk>, nat), ParseError>)
    requires ReadsChunks(g, parse)
    ensures r == parse(lines, at, true)
  {
    var chunks: seq<Chunk>, parsed: nat, remaining, first := [], 0, lines, true;
    ghost var whole := parse(lines, at, true);
    AfterNothing(whole);
    while remaining != [] && (g.blank(remaining[0]) || !g.marker(remaining[0]))
      invariant first == (chunks == [])
      invariant whole == After(chunks, parsed, parse(remaining, at + parsed, first))
      decreases |remaining|
    {
      var next := ParseNextChunk(g, parse, remaining, at + parsed, first);
      if next.Err? {
        return Err(next.error);
      }
      var (taken, n) := next.value;
      AfterTwice(chunks, parsed, taken, n, parse(remaining[n..], at + parsed + n, first && taken == []));
      chunks, parsed, remaining, first := chunks + taken, parsed + n, remaining[n..], first && taken == [];
    }
    LoopEnd(g, parse, remaining, at + parsed, first);
    AfterAll(chunks, parsed);
    return Ok((chunks, parsed));
  }

  method ParseOneHunk(g: Grammar, lines: seq<string>, at: nat) returns (r: Result<(Hunk, nat), ParseError>)
    requires lines != []
    ensures r == ParseHunk(g, UpdateParserOf(g), lines, at)
  {
    match g.head(lines[0])
    case AddHead(path) =>
      var contents, n := ParseAddedLines(g, lines[1..]);
      r := Ok((AddFile(path, contents), 1 + n));
    case DeleteHead(path) => r := Ok((DeleteFile(path), 1));
    case NoHead => r := Err(InvalidHunk(BadHeader(Trim(lines[0])), at));
    case UpdateHead(path) =>
      var move := MoveOf(g, lines[1..]);
      var skip := if move.Some? then 2 else 1;
      ghost var one := ChunkParserOf(g);
      var parsed := ParseUpdateChunks(g, (l, n, first) => ParseChunks(g, one, l, n, first), lines[skip..], at + skip);
      if parsed.Err? {
        return Err(parsed.error);
      }
      if parsed.value.0 == [] {
        return Err(InvalidHunk(EmptyUpdate(path), at));
      }
      r := Ok((UpdateFile(path, move, parsed.value.0), skip + parsed.value.1));
  }

  method ParseNextHunk(g: Grammar, ghost one: HunkParser, lines: seq<string>, at: nat)
    returns (r: Result<(Hunk, nat), ParseError>)
    requires ReadsHunks(g, one) && lines != []
    ensures r == one(lines, at)
  {
    r := ParseOneHunk(g, lines, at);
    assert Asked(lines, at);
  }

  method ParseBody(g: Grammar, ghost one: HunkParser, body: seq<string>, start: nat)
    returns (r: Result<seq<Hunk>, ParseError>)
    requires ReadsHunks(g, one)
    ensures r == ParseHunks(one, body, start)
  {
    var hunks: seq<Hunk>, remaining, at := [], body, start;
    ghost var whole := ParseHunks(one, body, start);
    assert whole.Ok? ==> [] + whole.value == whole.value;
    while remaining != []
      invariant whole == Prepend(hunks, ParseHunks(one, remaining, at))
      decreases |remaining|
    {
      var next := ParseNextHunk(g, one, remaining, at);
      if next.Err? {
        return Err(next.error);
      }
      var (hunk, n) := next.value;
      PrependTwice(hunks, [hunk], ParseHunks(one, remaining[n..], at + n));
      hunks, at, remaining := hunks + [hunk], at + n, remaining[n..];
    }
    assert hunks + [] == hunks;
    return Ok(hunks);
  }

  /** `parse_patch_text` after splitting: consumes the body hunk by hunk, counting lines from 2. */
  method ParsePatch(g: Grammar, lines: seq<string>, lenient: bool) returns (r: Result<seq<Hunk>, ParseError>)
    ensures r == ParseLines(g, lines, lenient)
  {
    var patch := PatchLines(lines, lenient);
    if patch.Err? {
      return Err(patch.error);
    }
    r := ParseBody(g, HunkParserOf(g), patch.value[1..|patch.value| - 1], 2);
  }
}
