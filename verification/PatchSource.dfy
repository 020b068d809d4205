/** The language the patch parser accepts: a body parses to a hunk list exactly when it is a legal source of it. */
module PatchSource {
  import opened Prelude
  import opened Text
  import opened Replacements
  import opened PatchParser
  import opened PatchRoundTrip
  import opened PatchText

  // ---------- sources ----------

  /** A chunk as it stands in a patch: blank lines, a context line, diff lines, an end-of-file marker. */
  datatype ChunkSource =
    ChunkSource(gap: seq<string>, header: Option<string>, body: seq<string>, end: Option<string>)

  datatype HunkSource =
    | AddSource(head: string, added: seq<string>)
    | DeleteSource(head: string)
    | UpdateSource(head: string, move: Option<string>, chunks: seq<ChunkSource>, trailing: seq<string>)

  function Optional(line: Option<string>): seq<string> { if line.Some? then [line.value] else [] }

  /** The lines of a chunk behind its blank ones. */
  function CoreLines(c: ChunkSource): seq<string> { Optional(c.header) + (c.body + Optional(c.end)) }

  function ChunkLines(chunks: seq<ChunkSource>): seq<string> {
    if chunks == [] then [] else chunks[0].gap + (CoreLines(chunks[0]) + ChunkLines(chunks[1..]))
  }

  function SourceLines(h: HunkSource): seq<string> {
    match h
    case AddSource(head, added) => [head] + added
    case DeleteSource(head) => [head]
    case UpdateSource(head, move, chunks, trailing) => [head] + (Optional(move) + (ChunkLines(chunks) + trailing))
  }

  function AllLines(hunks: seq<HunkSource>): seq<string> {
    if hunks == [] then [] else SourceLines(hunks[0]) + AllLines(hunks[1..])
  }

  // ---------- what they mean ----------

  function Olds(g: Grammar, body: seq<string>): seq<string>
    requires Diff(g, body)
  {
    if body == [] then [] else DiffTail(g, body); g.parts(body[0]).value.0 + Olds(g, body[1..])
  }

  function News(g: Grammar, body: seq<string>): seq<string>
    requires Diff(g, body)
  {
    if body == [] then [] else DiffTail(g, body); g.parts(body[0]).value.1 + News(g, body[1..])
  }

  lemma DiffTail(g: Grammar, body: seq<string>)
    requires Diff(g, body) && body != []
    ensures Diff(g, body[1..]) && body[0] in body
  {
  }

  function ChunkMeant(g: Grammar, c: ChunkSource): Chunk
    requires LegalCore(g, c)
  {
    Chunk(if c.header.Some? then g.context(c.header.value).value else None, Olds(g, c.body), News(g, c.body),
          c.end.Some?)
  }

  function ChunksMeant(g: Grammar, chunks: seq<ChunkSource>): seq<Chunk>
    requires forall c :: c in chunks ==> LegalCore(g, c)
  {
    if chunks == [] then [] else [ChunkMeant(g, chunks[0])] + ChunksMeant(g, chunks[1..])
  }

  /** Every added line with a line feed behind it. */
  function ContentsMeant(g: Grammar, added: seq<string>): string
    requires Added(g, added)
  {
    if added == [] then [] else AddedTail(g, added); g.added(added[0]).value + "\n" + ContentsMeant(g, added[1..])
  }

  lemma AddedTail(g: Grammar, added: seq<string>)
    requires Added(g, added) && added != []
    ensures Added(g, added[1..]) && added[0] in added
  {
  }

  // ---------- what is legal ----------

  predicate Diff(g: Grammar, body: seq<string>) { forall l :: l in body ==> !g.eof(l) && g.parts(l).Some? }

  predicate Added(g: Grammar, lines: seq<string>) { forall l :: l in lines ==> g.added(l).Some? }

  predicate AllBlank(g: Grammar, lines: seq<string>) { forall l :: l in lines ==> g.blank(l) }

  predicate LegalCore(g: Grammar, c: ChunkSource) {
    && c.body != [] && Diff(g, c.body)
    && (c.header.Some? ==> g.context(c.header.value).Some?) && (c.end.Some? ==> g.eof(c.end.value))
  }

  /**
   * A chunk in its place: only the first of an update may lack a context line; diff lines without a marker go on until
   * the first line that is none.
   */
  predicate LegalChunk(g: Grammar, c: ChunkSource, first: bool, rest: seq<string>) {
    && LegalCore(g, c) && AllBlank(g, c.gap)
    && !g.blank(CoreLines(c)[0]) && !g.marker(CoreLines(c)[0])
    && (c.header.None? ==> first && g.context(c.body[0]).None?)
    && (c.end.None? ==> rest == [] || Ends(g, rest[0]))
  }

  /** The chunks of an update, up to a marker line or the end. */
  predicate LegalChunks(g: Grammar, chunks: seq<ChunkSource>, first: bool, trailing: seq<string>, rest: seq<string>) {
    if chunks == [] then AllBlank(g, trailing) && (rest == [] || (!g.blank(rest[0]) && g.marker(rest[0])))
    else
      && LegalChunk(g, chunks[0], first, ChunkLines(chunks[1..]) + (trailing + rest))
      && LegalChunks(g, chunks[1..], false, trailing, rest)
  }

  predicate LegalHunk(g: Grammar, h: HunkSource, rest: seq<string>) {
    match h
    case AddSource(head, added) =>
      g.head(head).AddHead? && Added(g, added) && (rest == [] || g.added(rest[0]).None?)
    case DeleteSource(head) => g.head(head).DeleteHead?
    case UpdateSource(head, move, chunks, trailing) =>
      && g.head(head).UpdateHead? && chunks != [] && LegalChunks(g, chunks, true, trailing, rest)
      && if move.Some? then g.move(move.value).Some? else MoveOf(g, ChunkLines(chunks) + (trailing + rest)).None?
  }

  predicate LegalHunks(g: Grammar, hunks: seq<HunkSource>) {
    hunks == [] || (LegalHunk(g, hunks[0], AllLines(hunks[1..])) && LegalHunks(g, hunks[1..]))
  }

  lemma {:induction false} CoresLegal(g: Grammar, chunks: seq<ChunkSource>, first: bool, trailing: seq<string>,
                                      rest: seq<string>)
    requires LegalChunks(g, chunks, first, trailing, rest)
    ensures forall c :: c in chunks ==> LegalCore(g, c)
    decreases |chunks|
  {
    if chunks != [] {
      CoresLegal(g, chunks[1..], false, trailing, rest);
    }
  }

  function HunkMeant(g: Grammar, h: HunkSource, rest: seq<string>): Hunk
    requires LegalHunk(g, h, rest)
  {
    match h
    case AddSource(head, added) => AddFile(g.head(head).path, ContentsMeant(g, added))
    case DeleteSource(head) => DeleteFile(g.head(head).path)
    case UpdateSource(head, move, chunks, trailing) =>
      CoresLegal(g, chunks, true, trailing, rest);
      UpdateFile(g.head(head).path, if move.Some? then g.move(move.value) else None, ChunksMeant(g, chunks))
  }

  function HunksMeant(g: Grammar, hunks: seq<HunkSource>): seq<Hunk>
    requires LegalHunks(g, hunks)
  {
    if hunks == [] then [] else [HunkMeant(g, hunks[0], AllLines(hunks[1..]))] + HunksMeant(g, hunks[1..])
  }

  // ---------- chunks ----------

  lemma {:induction false} BodyRead(g: Grammar, body: seq<string>, end: Option<string>, rest: seq<string>)
    requires Diff(g, body) && (if end.Some? then g.eof(end.value) else rest == [] || Ends(g, rest[0]))
    ensures BodyOf(g, body + (Optional(end) + rest))
         == Body(Olds(g, body), News(g, body), end.Some?, |body| + |Optional(end)|)
  {
    var all := body + (Optional(end) + rest);
    if body == [] {
      assert all == Optional(end) + rest;
      assert end.None? ==> all == rest;
    } else {
      assert all[0] == body[0] && all[1..] == body[1..] + (Optional(end) + rest);
      DiffTail(g, body);
      BodyRead(g, body[1..], end, rest);
    }
  }

  /** Diff lines, perhaps the marker, and what ends them: any lines can be read so. */
  lemma {:induction false} BodyFound(g: Grammar, lines: seq<string>)
    returns (body: seq<string>, end: Option<string>, rest: seq<string>)
    ensures lines == body + (Optional(end) + rest) && Diff(g, body)
    ensures if end.Some? then g.eof(end.value) else rest == [] || Ends(g, rest[0])
    ensures lines != [] && !g.eof(lines[0]) && g.parts(lines[0]).Some? ==> body != []
  {
    body, end, rest := [], None, lines;
    if lines != [] && g.eof(lines[0]) {
      end, rest := Some(lines[0]), lines[1..];
    } else if lines != [] && g.parts(lines[0]).Some? {
      body, end, rest := BodyFound(g, lines[1..]);
      body := [lines[0]] + body;
    }
  }

  lemma ChunkRead(g: Grammar, c: ChunkSource, first: bool, rest: seq<string>, at: nat)
    requires LegalChunk(g, c, first, rest)
    ensures ParseChunk(g, CoreLines(c) + rest, at, first) == Ok((ChunkMeant(g, c), |CoreLines(c)|))
  {
    var body := c.body + (Optional(c.end) + rest);
    var all := CoreLines(c) + rest;
    assert all == Optional(c.header) + body && body[0] == c.body[0] && c.body[0] in c.body;
    var skip := |Optional(c.header)|;
    assert all[skip..] == body;
    BodyRead(g, c.body, c.end, rest);
    ChunkFromBody(g, all, skip, if c.header.Some? then g.context(c.header.value) else None, BodyOf(g, body), at, first);
  }

  lemma FrontCut(lines: seq<string>, front: Option<string>)
    requires front.Some? ==> lines != [] && lines[0] == front.value
    ensures lines == Optional(front) + lines[|Optional(front)|..]
  {
  }

  lemma ChunkFound(g: Grammar, lines: seq<string>, at: nat, first: bool) returns (c: ChunkSource, rest: seq<string>)
    requires ParseChunk(g, lines, at, first).Ok? && !g.blank(lines[0]) && !g.marker(lines[0])
    ensures lines == CoreLines(c) + rest && c.gap == [] && LegalChunk(g, c, first, rest)
  {
    var header := g.context(lines[0]);
    var skip := if header.Some? then 1 else 0;
    var body, end, after := BodyFound(g, lines[skip..]);
    c, rest := ChunkSource([], if header.Some? then Some(lines[0]) else None, body, end), after;
    FrontCut(lines, c.header);
    Grouped(Optional(c.header), body, Optional(end), rest);
    assert CoreLines(c)[0] == lines[0];
  }

  // ---------- updates ----------

  lemma {:induction false} GapRead(g: Grammar, parse: Reader, gap: seq<string>, rest: seq<string>, at: nat, first: bool)
    requires ReadsChunks(g, parse) && AllBlank(g, gap)
    ensures parse(gap + rest, at, first) == After([], |gap|, parse(rest, at + |gap|, first))
    decreases |gap|
  {
    var tail := parse(rest, at + |gap|, first);
    if gap == [] {
      assert gap + rest == rest;
      AfterNothing(tail);
    } else {
      var all, none: seq<Chunk> := gap + rest, [];
      assert gap[0] in gap && all[0] == gap[0] && all[1..] == gap[1..] + rest;
      BlankStep(g, parse, all, at, first);
      GapRead(g, parse, gap[1..], rest, at + 1, first);
      assert at + 1 + |gap[1..]| == at + |gap| && none + none == none;
      AfterTwice(none, 1, none, |gap| - 1, tail);
    }
  }

  lemma CoreRead(g: Grammar, parse: Reader, c: ChunkSource, first: bool, rest: seq<string>, at: nat)
    requires ReadsChunks(g, parse) && LegalChunk(g, c, first, rest)
    ensures var n := |CoreLines(c)|;
            parse(CoreLines(c) + rest, at, first) == After([ChunkMeant(g, c)], n, parse(rest, at + n, false))
  {
    var all := CoreLines(c) + rest;
    assert all[0] == CoreLines(c)[0] && all[|CoreLines(c)|..] == rest;
    ChunkRead(g, c, first, rest, at);
    CoreStep(g, parse, all, at, first);
  }

  /** A legal chunk in front of anything. */
  lemma ChunkInFrontRead(g: Grammar, parse: Reader, c: ChunkSource, first: bool, rest: seq<string>, at: nat)
    requires ReadsChunks(g, parse) && LegalChunk(g, c, first, rest)
    ensures var n := |c.gap| + |CoreLines(c)|;
            parse(c.gap + (CoreLines(c) + rest), at, first) == After([ChunkMeant(g, c)], n, parse(rest, at + n, false))
  {
    var chunk, none: seq<Chunk> := [ChunkMeant(g, c)], [];
    GapRead(g, parse, c.gap, CoreLines(c) + rest, at, first);
    CoreRead(g, parse, c, first, rest, at + |c.gap|);
    AfterTwice(none, |c.gap|, chunk, |CoreLines(c)|, parse(rest, at + |c.gap| + |CoreLines(c)|, false));
    assert none + chunk == chunk;
  }

  lemma {:induction false} ChunksRead(g: Grammar, parse: Reader, chunks: seq<ChunkSource>, first: bool,
                                      trailing: seq<string>, rest: seq<string>, at: nat)
    requires ReadsChunks(g, parse)
    requires LegalChunks(g, chunks, first, trailing, rest) && forall c :: c in chunks ==> LegalCore(g, c)
    ensures parse(ChunkLines(chunks) + (trailing + rest), at, first)
         == Ok((ChunksMeant(g, chunks), |ChunkLines(chunks)| + |trailing|))
    decreases |chunks|
  {
    var tail := trailing + rest;
    if chunks == [] {
      assert ChunkLines(chunks) + tail == tail;
      GapRead(g, parse, trailing, rest, at, first);
      LoopEnd(g, parse, rest, at + |trailing|, first);
      AfterAll([], |trailing|);
    } else {
      var c, more := chunks[0], ChunkLines(chunks[1..]);
      ChunksRead(g, parse, chunks[1..], false, trailing, rest, at + (|c.gap| + |CoreLines(c)|));
      ChunkInFrontRead(g, parse, c, first, more + tail, at);
      Grouped(c.gap, CoreLines(c), more, tail);
    }
  }

  lemma Grouped(a: seq<string>, b: seq<string>, c: seq<string>, d: seq<string>)
    ensures (a + (b + c)) + d == a + (b + (c + d))
  {
  }

  /** A blank line in front joins the first chunk, or the trailing ones if there is none. */
  lemma BlankInFront(g: Grammar, line: string, chunks: seq<ChunkSource>, first: bool, trailing: seq<string>,
                     rest: seq<string>)
    returns (more: seq<ChunkSource>, after: seq<string>)
    requires g.blank(line) && LegalChunks(g, chunks, first, trailing, rest)
    ensures LegalChunks(g, more, first, after, rest)
    ensures ChunkLines(more) + (after + rest) == [line] + (ChunkLines(chunks) + (trailing + rest))
  {
    var tail := trailing + rest;
    if chunks == [] {
      more, after := [], [line] + trailing;
      Regroup([line], trailing, rest);
      assert ChunkLines(chunks) + tail == tail && ChunkLines(more) + (after + rest) == after + rest;
    } else {
      var c := chunks[0].(gap := [line] + chunks[0].gap);
      var below := CoreLines(c) + ChunkLines(chunks[1..]);
      more, after := [c] + chunks[1..], trailing;
      assert more[1..] == chunks[1..] && CoreLines(c) == CoreLines(chunks[0]);
      assert LegalChunk(g, c, first, ChunkLines(chunks[1..]) + tail);
      Grouped([line], chunks[0].gap, below, tail);
      Regroup([line], chunks[0].gap, below);
      Regroup(chunks[0].gap, below, tail);
    }
  }

  lemma ChunkInFront(g: Grammar, c: ChunkSource, chunks: seq<ChunkSource>, first: bool, trailing: seq<string>,
                     rest: seq<string>)
    requires c.gap == [] && LegalChunk(g, c, first, ChunkLines(chunks) + (trailing + rest))
    requires LegalChunks(g, chunks, false, trailing, rest)
    ensures LegalChunks(g, [c] + chunks, first, trailing, rest)
    ensures ChunkLines([c] + chunks) + (trailing + rest) == CoreLines(c) + (ChunkLines(chunks) + (trailing + rest))
  {
    assert ([c] + chunks)[1..] == chunks;
    Grouped([], CoreLines(c), ChunkLines(chunks), trailing + rest);
  }

  lemma FirstCore(g: Grammar, parse: Reader, lines: seq<string>, at: nat, first: bool)
    returns (c: ChunkSource, rest: seq<string>)
    requires ReadsChunks(g, parse) && lines != [] && !g.blank(lines[0]) && !g.marker(lines[0])
    requires parse(lines, at, first).Ok?
    ensures lines == CoreLines(c) + rest && c.gap == [] && LegalChunk(g, c, first, rest)
    ensures |rest| < |lines| && parse(rest, at + |CoreLines(c)|, false).Ok?
  {
    CoreStep(g, parse, lines, at, first);
    c, rest := ChunkFound(g, lines, at, first);
    CoreRead(g, parse, c, first, rest, at);
  }

  /** Lines that parse as the chunks of an update are legal chunks and what follows them. */
  lemma {:induction false} ChunksFound(g: Grammar, parse: Reader, lines: seq<string>, at: nat, first: bool)
    returns (chunks: seq<ChunkSource>, trailing: seq<string>, rest: seq<string>)
    requires ReadsChunks(g, parse) && parse(lines, at, first).Ok?
    ensures LegalChunks(g, chunks, first, trailing, rest) && lines == ChunkLines(chunks) + (trailing + rest)
    decreases |lines|
  {
    if lines != [] && g.blank(lines[0]) {
      BlankStep(g, parse, lines, at, first);
      var found, after, tail := ChunksFound(g, parse, lines[1..], at + 1, first);
      chunks, trailing := BlankInFront(g, lines[0], found, first, after, tail);
      rest := tail;
      assert lines == [lines[0]] + lines[1..];
    } else if lines != [] && !g.marker(lines[0]) {
      var c, tail := FirstCore(g, parse, lines, at, first);
      var found, after, end := ChunksFound(g, parse, tail, at + |CoreLines(c)|, false);
      ChunkInFront(g, c, found, first, after, end);
      chunks, trailing, rest := [c] + found, after, end;
    } else {
      chunks, trailing, rest := [], [], lines;
      assert [] + ([] + lines) == lines;
    }
  }

  // ---------- hunks ----------

  lemma {:induction false} AddedRead(g: Grammar, added: seq<string>, rest: seq<string>)
    requires Added(g, added) && (rest == [] || g.added(rest[0]).None?)
    ensures AddedLines(g, added + rest) == (ContentsMeant(g, added), |added|)
  {
    if added == [] {
      assert added + rest == rest;
    } else {
      AddedTail(g, added);
      assert (added + rest)[0] == added[0] && (added + rest)[1..] == added[1..] + rest;
      AddedRead(g, added[1..], rest);
    }
  }

  /** Added lines and what ends them: any lines can be read so. */
  lemma {:induction false} AddedFound(g: Grammar, lines: seq<string>) returns (added: seq<string>, rest: seq<string>)
    ensures lines == added + rest && Added(g, added) && (rest == [] || g.added(rest[0]).None?)
  {
    added, rest := [], lines;
    if lines != [] && g.added(lines[0]).Some? {
      added, rest := AddedFound(g, lines[1..]);
      added := [lines[0]] + added;
    }
  }

  /** What an update parser says of the lines behind an update's header. */
  lemma UpdateRead(g: Grammar, chunks: seq<ChunkSource>, trailing: seq<string>, rest: seq<string>, at: nat)
    requires LegalChunks(g, chunks, true, trailing, rest) && forall c :: c in chunks ==> LegalCore(g, c)
    ensures UpdateParserOf(g)(ChunkLines(chunks) + (trailing + rest), at)
         == Ok((ChunksMeant(g, chunks), |ChunkLines(chunks)| + |trailing|))
  {
    var one := ChunkParserOf(g);
    ChunksRead(g, (l, n, f) => ParseChunks(g, one, l, n, f), chunks, true, trailing, rest, at);
  }

  lemma UpdateFound(g: Grammar, lines: seq<string>, at: nat)
    returns (chunks: seq<ChunkSource>, trailing: seq<string>, rest: seq<string>)
    requires UpdateParserOf(g)(lines, at).Ok?
    ensures LegalChunks(g, chunks, true, trailing, rest) && lines == ChunkLines(chunks) + (trailing + rest)
    ensures UpdateParserOf(g)(lines, at).value.0 != [] ==> chunks != []
  {
    var one := ChunkParserOf(g);
    chunks, trailing, rest := ChunksFound(g, (l, n, f) => ParseChunks(g, one, l, n, f), lines, at, true);
    CoresLegal(g, chunks, true, trailing, rest);
    UpdateRead(g, chunks, trailing, rest, at);
  }

  lemma UpdateSourceLines(h: HunkSource, rest: seq<string>)
    requires h.UpdateSource?
    ensures SourceLines(h) + rest == [h.head] + (Optional(h.move) + (ChunkLines(h.chunks) + (h.trailing + rest)))
    ensures |SourceLines(h)| == 1 + |Optional(h.move)| + |ChunkLines(h.chunks)| + |h.trailing|
  {
    Grouped([h.head], Optional(h.move), ChunkLines(h.chunks) + h.trailing, rest);
    Regroup(ChunkLines(h.chunks), h.trailing, rest);
  }

  lemma UpdateSourceRead(g: Grammar, update: UpdateParser, h: HunkSource, rest: seq<string>, at: nat,
                         meant: seq<Chunk>)
    requires h.UpdateSource? && LegalHunk(g, h, rest) && meant != []
    requires update(ChunkLines(h.chunks) + (h.trailing + rest), at + 1 + |Optional(h.move)|)
          == Ok((meant, |ChunkLines(h.chunks)| + |h.trailing|))
    ensures ParseHunk(g, update, SourceLines(h) + rest, at)
         == Ok((UpdateFile(g.head(h.head).path, if h.move.Some? then g.move(h.move.value) else None, meant),
                |SourceLines(h)|))
  {
    var body := ChunkLines(h.chunks) + (h.trailing + rest);
    assert CoreLines(h.chunks[0]) != [] && body != [];
    UpdateSourceLines(h, rest);
    UpdateStep(g, update, h.head, Optional(h.move), body, g.head(h.head).path, meant,
               |ChunkLines(h.chunks)| + |h.trailing|, at);
  }

  lemma PlainHunkRead(g: Grammar, update: UpdateParser, h: HunkSource, rest: seq<string>, at: nat)
    requires !h.UpdateSource? && LegalHunk(g, h, rest)
    ensures ParseHunk(g, update, SourceLines(h) + rest, at) == Ok((HunkMeant(g, h, rest), |SourceLines(h)|))
  {
    var all := SourceLines(h) + rest;
    match h
    case AddSource(head, added) =>
      assert all[0] == head && all[1..] == added + rest;
      AddedRead(g, added, rest);
    case DeleteSource(head) => assert all[0] == head;
  }

  lemma UpdateHunkRead(g: Grammar, h: HunkSource, rest: seq<string>, at: nat)
    requires h.UpdateSource? && LegalHunk(g, h, rest)
    ensures ParseHunk(g, UpdateParserOf(g), SourceLines(h) + rest, at) == Ok((HunkMeant(g, h, rest), |SourceLines(h)|))
  {
    CoresLegal(g, h.chunks, true, h.trailing, rest);
    UpdateRead(g, h.chunks, h.trailing, rest, at + 1 + |Optional(h.move)|);
    UpdateSourceRead(g, UpdateParserOf(g), h, rest, at, ChunksMeant(g, h.chunks));
  }

  /** A legal hunk in front of anything. */
  lemma HunkRead(g: Grammar, one: HunkParser, h: HunkSource, rest: seq<string>, at: nat)
    requires ReadsHunks(g, one) && LegalHunk(g, h, rest)
    ensures one(SourceLines(h) + rest, at) == Ok((HunkMeant(g, h, rest), |SourceLines(h)|))
  {
    assert Asked(SourceLines(h) + rest, at);
    if h.UpdateSource? {
      UpdateHunkRead(g, h, rest, at);
    } else {
      PlainHunkRead(g, UpdateParserOf(g), h, rest, at);
    }
  }

  lemma UpdateHunkFound(g: Grammar, lines: seq<string>, chunks: seq<ChunkSource>, trailing: seq<string>,
                        rest: seq<string>)
    returns (h: HunkSource)
    requires lines != [] && g.head(lines[0]).UpdateHead? && chunks != []
    requires LegalChunks(g, chunks, true, trailing, rest)
    requires lines[if MoveOf(g, lines[1..]).Some? then 2 else 1..] == ChunkLines(chunks) + (trailing + rest)
    ensures lines == SourceLines(h) + rest && LegalHunk(g, h, rest)
  {
    var move := MoveOf(g, lines[1..]);
    var skip := if move.Some? then 2 else 1;
    h := UpdateSource(lines[0], if move.Some? then Some(lines[1]) else None, chunks, trailing);
    FrontCut(lines[1..], h.move);
    assert lines == [lines[0]] + lines[1..] && lines[1..][|Optional(h.move)|..] == lines[skip..];
    UpdateSourceLines(h, rest);
  }

  lemma PlainHunkFound(g: Grammar, lines: seq<string>) returns (h: HunkSource, rest: seq<string>)
    requires lines != [] && (g.head(lines[0]).AddHead? || g.head(lines[0]).DeleteHead?)
    ensures lines == SourceLines(h) + rest && LegalHunk(g, h, rest)
  {
    if g.head(lines[0]).AddHead? {
      var added, after := AddedFound(g, lines[1..]);
      h, rest := AddSource(lines[0], added), after;
    } else {
      h, rest := DeleteSource(lines[0]), lines[1..];
    }
  }

  lemma HunkFound(g: Grammar, lines: seq<string>, at: nat) returns (h: HunkSource, rest: seq<string>)
    requires lines != [] && ParseHunk(g, UpdateParserOf(g), lines, at).Ok?
    ensures lines == SourceLines(h) + rest && LegalHunk(g, h, rest)
  {
    if g.head(lines[0]).UpdateHead? {
      var skip := if MoveOf(g, lines[1..]).Some? then 2 else 1;
      var chunks, trailing, after := UpdateFound(g, lines[skip..], at + skip);
      h := UpdateHunkFound(g, lines, chunks, trailing, after);
      rest := after;
    } else {
      h, rest := PlainHunkFound(g, lines);
    }
  }

  lemma FirstHunk(g: Grammar, one: HunkParser, lines: seq<string>, at: nat) returns (h: HunkSource, rest: seq<string>)
    requires ReadsHunks(g, one) && lines != [] && one(lines, at).Ok?
    ensures lines == SourceLines(h) + rest && LegalHunk(g, h, rest) && one(lines, at).value.1 == |SourceLines(h)|
  {
    assert Asked(lines, at);
    h, rest := HunkFound(g, lines, at);
    HunkRead(g, one, h, rest, at);
  }

  lemma {:induction false} HunksRead(g: Grammar, one: HunkParser, hunks: seq<HunkSource>, at: nat)
    requires ReadsHunks(g, one) && LegalHunks(g, hunks)
    ensures ParseHunks(one, AllLines(hunks), at) == Ok(HunksMeant(g, hunks))
    decreases |hunks|
  {
    if hunks != [] {
      var block, rest := SourceLines(hunks[0]), AllLines(hunks[1..]);
      var hunk, more := HunkMeant(g, hunks[0], rest), HunksMeant(g, hunks[1..]);
      HunkRead(g, one, hunks[0], rest, at);
      HunksRead(g, one, hunks[1..], at + |block|);
      HunksStep(one, block, rest, at, hunk, more);
    }
  }

  lemma {:induction false} HunksFound(g: Grammar, one: HunkParser, lines: seq<string>, at: nat)
    returns (hunks: seq<HunkSource>)
    requires ReadsHunks(g, one) && ParseHunks(one, lines, at).Ok?
    ensures LegalHunks(g, hunks) && AllLines(hunks) == lines
    decreases |lines|
  {
    hunks := [];
    if lines != [] {
      var h, rest := FirstHunk(g, one, lines, at);
      var n := |SourceLines(h)|;
      assert lines[n..] == rest;
      var more := HunksFound(g, one, rest, at + n);
      hunks := [h] + more;
      assert hunks[1..] == more;
    }
  }

  ghost predicate IsSource(g: Grammar, hunks: seq<HunkSource>, lines: seq<string>, meant: seq<Hunk>) {
    LegalHunks(g, hunks) && AllLines(hunks) == lines && HunksMeant(g, hunks) == meant
  }

  /** The body of a patch parses to a list of hunks exactly when it is a legal source of that list. */
  lemma BodyParsesIff(g: Grammar, lines: seq<string>, at: nat, meant: seq<Hunk>)
    ensures ParseHunks(HunkParserOf(g), lines, at) == Ok(meant) <==> exists hunks :: IsSource(g, hunks, lines, meant)
  {
    var one := HunkParserOf(g);
    if ParseHunks(one, lines, at) == Ok(meant) {
      var hunks := HunksFound(g, one, lines, at);
      HunksRead(g, one, hunks, at);
      assert IsSource(g, hunks, lines, meant);
    }
    if hunks :| IsSource(g, hunks, lines, meant) {
      HunksRead(g, one, hunks, at);
    }
  }

  // ---------- single lines ----------

  predicate Padded(line: string, pad: string, core: string, tail: string) {
    Blank(pad) && Blank(tail) && line == pad + core + tail
  }

  /** The line is the mark and the path, whatever whitespace stands around them. */
  ghost predicate Headed(line: string, mark: string, path: string) {
    GoodPath(path) && exists pad, tail :: Padded(line, pad, mark + path, tail)
  }

  /** What is left of a line by trimming stands in the line with whitespace around it. */
  lemma TrimPads(line: string) returns (pad: string, tail: string)
    ensures Padded(line, pad, Trim(line), tail)
  {
    var e := TrimEnd(line);
    TrimEndParts(line);
    pad, tail := e[..SkipBlank(e, 0)], line[|e|..];
    assert e == pad + Trim(line);
  }

  lemma GoodPathIff(mark: string, path: string)
    requires mark != [] && !IsWhitespace(mark[0]) && IsWhitespace(mark[|mark| - 1])
    ensures IsTrimmed(mark + path) <==> GoodPath(path)
  {
    var core := mark + path;
    if path == [] {
      assert core == mark;
    } else {
      assert core[|core| - 1] == path[|path| - 1];
    }
  }

  lemma HeadedTrims(line: string, mark: string, path: string)
    requires mark != [] && !IsWhitespace(mark[0]) && IsWhitespace(mark[|mark| - 1])
    ensures Headed(line, mark, path) <==> Trim(line) == mark + path
  {
    var core := mark + path;
    GoodPathIff(mark, path);
    if Headed(line, mark, path) {
      var pad, tail :| Padded(line, pad, core, tail);
      TrimIs(line, pad, core, tail);
    } else if Trim(line) == core {
      var pad, tail := TrimPads(line);
      assert Padded(line, pad, core, tail);
      TrimShape(line);
    }
  }

  lemma PrefixIff(s: string, prefix: string, rest: string)
    ensures StripPrefix(s, prefix) == Some(rest) <==> s == prefix + rest
  {
    PrefixStrips(prefix, rest);
  }

  lemma AddHeadIff(line: string, path: string)
    ensures HeadOf(line) == AddHead(path) <==> Headed(line, "*** Add File: ", path)
  {
    HeadedTrims(line, "*** Add File: ", path);
    PrefixIff(Trim(line), ADD_FILE, path);
  }

  lemma DeleteHeadIff(line: string, path: string)
    ensures HeadOf(line) == DeleteHead(path) <==> Headed(line, "*** Delete File: ", path)
  {
    var s := Trim(line);
    HeadedTrims(line, "*** Delete File: ", path);
    PrefixIff(s, DELETE_FILE, path);
    if s == DELETE_FILE + path {
      OtherPrefix(s, ADD_FILE, 4);
    }
  }

  lemma UpdateHeadIff(line: string, path: string)
    ensures HeadOf(line) == UpdateHead(path) <==> Headed(line, "*** Update File: ", path)
  {
    var s := Trim(line);
    HeadedTrims(line, "*** Update File: ", path);
    PrefixIff(s, UPDATE_FILE, path);
    if s == UPDATE_FILE + path {
      OtherPrefix(s, ADD_FILE, 4);
      OtherPrefix(s, DELETE_FILE, 4);
    }
  }

  /** Headers of hunks: nothing but the three marks with their paths, padded at will. */
  lemma HeadIff(line: string, path: string)
    ensures HeadOf(line) == AddHead(path) <==> Headed(line, "*** Add File: ", path)
    ensures HeadOf(line) == DeleteHead(path) <==> Headed(line, "*** Delete File: ", path)
    ensures HeadOf(line) == UpdateHead(path) <==> Headed(line, "*** Update File: ", path)
  {
    AddHeadIff(line, path);
    DeleteHeadIff(line, path);
    UpdateHeadIff(line, path);
  }

  /** The other lines of a patch, written out. */
  lemma LinesIff(line: string, text: string)
    ensures MoveTarget(line) == Some(text) <==> line == "*** Move to: " + text
    ensures AddedLine(line) == Some(text) <==> line == "+" + text
    ensures ChunkHeader(line) == Some(Some(text)) <==> line == "@@ " + text
    ensures ChunkHeader(line) == Some(None) <==> line == "@@"
    ensures IsEndOfFile(line) <==> line == "*** End of File"
    ensures IsBlank(line) <==> Blank(line)
    ensures IsMarker(line) <==> |line| >= 3 && line[0] == line[1] == line[2] == '*'
  {
    PrefixIff(line, MOVE_TO, text);
    PrefixIff(line, "+", text);
    PrefixIff(line, CONTEXT, text);
    TrimOfBlank(line);
    assert |line| >= 3 ==> line[..3] == [line[0], line[1], line[2]];
  }

  /** A line is a diff line exactly when it is empty or starts with a space, a plus or a minus. */
  lemma DiffIff(line: string, parts: (seq<string>, seq<string>))
    ensures LineParts(line) == Some(parts) <==> exists d :: line == Show(d) && parts == PartsOf(d)
  {
    if LineParts(line) == Some(parts) {
      var d := if line == [] then EmptyLine else if line[0] == ' ' then Keep(line[1..])
               else if line[0] == '+' then Plus(line[1..]) else Minus(line[1..]);
      assert line == Show(d) && parts == PartsOf(d);
    }
    if d :| line == Show(d) && parts == PartsOf(d) {
      DiffRead(d);
    }
  }

  // ---------- whole patches ----------

  /** The lines of a patch around its body: the two markers, in lenient mode perhaps a heredoc around them. */
  ghost predicate Encloses(lines: seq<string>, lenient: bool, body: seq<string>) {
    var patch := ["*** Begin Patch"] + body + ["*** End Patch"];
    || lines == patch
    || (lenient && exists start, before :: HeredocAround(lines, start, patch, before))
  }

  predicate HeredocAround(lines: seq<string>, start: string, patch: seq<string>, before: string) {
    (start == "<<EOF" || start == "<<'EOF'" || start == "<<\"EOF\"") && lines == [start] + patch + [before + "EOF"]
  }

  lemma FramedIs(lines: seq<string>)
    requires Framed(lines)
    ensures |lines| >= 2 && lines == ["*** Begin Patch"] + lines[1..|lines| - 1] + ["*** End Patch"]
  {
    assert lines[0] != lines[|lines| - 1];
  }

  lemma EnclosedIff(lines: seq<string>, lenient: bool, body: seq<string>)
    ensures Encloses(lines, lenient, body) <==>
            PatchLines(lines, lenient) == Ok(["*** Begin Patch"] + body + ["*** End Patch"])
  {
    var patch := ["*** Begin Patch"] + body + ["*** End Patch"];
    assert patch[0] == "*** Begin Patch" && patch[|patch| - 1] == "*** End Patch" && Framed(patch);
    FrameMeans(lines, lenient);
    if lenient && exists start, before :: HeredocAround(lines, start, patch, before) {
      var start, before :| HeredocAround(lines, start, patch, before);
      assert lines[1..|lines| - 1] == patch && lines[0] == start && lines[|lines| - 1] == before + "EOF";
    }
    if PatchLines(lines, lenient) == Ok(patch) && lines != patch {
      var before :| lines[|lines| - 1] == before + "EOF";
      assert lines == [lines[0]] + lines[1..|lines| - 1] + [lines[|lines| - 1]];
      assert HeredocAround(lines, lines[0], patch, before);
    }
  }

  /** Lines parse to a list of hunks exactly when they enclose a legal source of that list. */
  lemma PatchParsesIff(lines: seq<string>, lenient: bool, meant: seq<Hunk>)
    ensures ParseLines(PatchGrammar(), lines, lenient) == Ok(meant) <==>
            exists body, hunks :: Encloses(lines, lenient, body) && IsSource(PatchGrammar(), hunks, body, meant)
  {
    var g := PatchGrammar();
    if ParseLines(g, lines, lenient) == Ok(meant) {
      var patch := PatchLines(lines, lenient).value;
      var body := patch[1..|patch| - 1];
      FrameMeans(lines, lenient);
      FramedIs(patch);
      EnclosedIff(lines, lenient, body);
      BodyParsesIff(g, body, 2, meant);
      var hunks :| IsSource(g, hunks, body, meant);
    }
    if body, hunks :| Encloses(lines, lenient, body) && IsSource(g, hunks, body, meant) {
      EnclosedIff(lines, lenient, body);
      var patch := ["*** Begin Patch"] + body + ["*** End Patch"];
      assert patch[1..|patch| - 1] == body;
      BodyParsesIff(g, body, 2, meant);
    }
  }
}
