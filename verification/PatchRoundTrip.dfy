/** Every way of writing down a hunk list parses back to that list. */
module PatchRoundTrip {
  import opened Prelude
  import opened Text
  import opened Replacements
  import opened PatchParser

  // ---------- what a patch author writes ----------

  datatype DiffLine = Keep(text: string) | EmptyLine | Plus(text: string) | Minus(text: string)

  datatype ChunkText = ChunkText(header: Option<Option<string>>, lines: seq<DiffLine>, eof: bool)

  datatype HunkText =
    | AddText(path: string, lines: seq<string>)
    | DeleteText(path: string)
    | UpdateText(path: string, move: Option<string>, chunks: seq<ChunkText>)

  function Show(d: DiffLine): string {
    match d
    case Keep(text) => " " + text
    case EmptyLine => []
    case Plus(text) => "+" + text
    case Minus(text) => "-" + text
  }

  function ShowContext(context: Option<string>): string {
    if context.Some? then CONTEXT + context.value else EMPTY_CONTEXT
  }

  function ShowHead(h: Head): string {
    match h
    case AddHead(path) => ADD_FILE + path
    case DeleteHead(path) => DELETE_FILE + path
    case UpdateHead(path) => UPDATE_FILE + path
    case NoHead => []
  }

  function ShowMove(path: string): string { MOVE_TO + path }

  function ShowAdded(line: string): string { "+" + line }

  /** How single lines are written. */
  datatype Printer = Printer(
    diff: DiffLine -> string,
    context: Option<string> -> string,
    head: Head -> string,
    move: string -> string,
    added: string -> string,
    eof: string)

  function PatchPrinter(): Printer { Printer(Show, ShowContext, ShowHead, ShowMove, ShowAdded, END_OF_FILE) }

  function ShowLines(p: Printer, lines: seq<DiffLine>): (r: seq<string>)
    ensures |r| == |lines|
  {
    if lines == [] then [] else [p.diff(lines[0])] + ShowLines(p, lines[1..])
  }

  function EofLines(p: Printer, eof: bool): seq<string> { if eof then [p.eof] else [] }

  function ShowChunk(p: Printer, c: ChunkText): seq<string> {
    (if c.header.Some? then [p.context(c.header.value)] else []) + (ShowLines(p, c.lines) + EofLines(p, c.eof))
  }

  function ShowChunks(p: Printer, chunks: seq<ChunkText>): seq<string> {
    if chunks == [] then [] else ShowChunk(p, chunks[0]) + ShowChunks(p, chunks[1..])
  }

  function ShowAddedLines(p: Printer, lines: seq<string>): seq<string> {
    if lines == [] then [] else [p.added(lines[0])] + ShowAddedLines(p, lines[1..])
  }

  function MoveLines(p: Printer, move: Option<string>): seq<string> { if move.Some? then [p.move(move.value)] else [] }

  function ShowHunk(p: Printer, h: HunkText): seq<string> {
    match h
    case AddText(path, lines) => [p.head(AddHead(path))] + ShowAddedLines(p, lines)
    case DeleteText(path) => [p.head(DeleteHead(path))]
    case UpdateText(path, move, chunks) =>
      [p.head(UpdateHead(path))] + (MoveLines(p, move) + ShowChunks(p, chunks))
  }

  function ShowHunks(p: Printer, hunks: seq<HunkText>): seq<string> {
    if hunks == [] then [] else ShowHunk(p, hunks[0]) + ShowHunks(p, hunks[1..])
  }

  // ---------- what it means ----------

  function PartsOf(d: DiffLine): (seq<string>, seq<string>) {
    match d
    case Keep(text) => ([text], [text])
    case EmptyLine => ([[]], [[]])
    case Plus(text) => ([], [text])
    case Minus(text) => ([text], [])
  }

  function OldOf(lines: seq<DiffLine>): seq<string> {
    if lines == [] then [] else PartsOf(lines[0]).0 + OldOf(lines[1..])
  }

  function NewOf(lines: seq<DiffLine>): seq<string> {
    if lines == [] then [] else PartsOf(lines[0]).1 + NewOf(lines[1..])
  }

  function ChunkOf(c: ChunkText): Chunk {
    Chunk(if c.header.Some? then c.header.value else None, OldOf(c.lines), NewOf(c.lines), c.eof)
  }

  function ChunksOf(chunks: seq<ChunkText>): seq<Chunk> {
    if chunks == [] then [] else [ChunkOf(chunks[0])] + ChunksOf(chunks[1..])
  }

  function ContentsOf(lines: seq<string>): string {
    if lines == [] then [] else lines[0] + "\n" + ContentsOf(lines[1..])
  }

  function HunkOf(h: HunkText): Hunk {
    match h
    case AddText(path, lines) => AddFile(path, ContentsOf(lines))
    case DeleteText(path) => DeleteFile(path)
    case UpdateText(path, move, chunks) => UpdateFile(path, move, ChunksOf(chunks))
  }

  function HunksOf(hunks: seq<HunkText>): seq<Hunk> {
    if hunks == [] then [] else [HunkOf(hunks[0])] + HunksOf(hunks[1..])
  }

  // ---------- what is well formed ----------

  /** A path is not empty and does not end in whitespace. */
  predicate GoodPath(path: string) { path != [] && !IsWhitespace(path[|path| - 1]) }

  /** A chunk has at least one line; only an update's first chunk may omit its header, and then must not start blank. */
  predicate WellFormedChunk(g: Grammar, p: Printer, c: ChunkText, first: bool) {
    c.lines != [] && (c.header.None? ==> first && !g.blank(p.diff(c.lines[0])))
  }

  predicate WellFormedChunks(g: Grammar, p: Printer, chunks: seq<ChunkText>, first: bool) {
    chunks == [] || (WellFormedChunk(g, p, chunks[0], first) && WellFormedChunks(g, p, chunks[1..], false))
  }

  predicate WellFormed(g: Grammar, p: Printer, h: HunkText) {
    GoodPath(h.path) && (h.UpdateText? ==> h.chunks != [] && WellFormedChunks(g, p, h.chunks, true))
  }

  // ---------- a grammar that recognises what is shown ----------

  predicate GoodHead(h: Head) { !h.NoHead? && GoodPath(h.path) }

  /** A line at which a chunk's body ends. */
  predicate Ends(g: Grammar, line: string) { !g.eof(line) && g.parts(line).None? }

  ghost predicate ReadsDiff(g: Grammar, p: Printer) {
    && g.eof(p.eof)
    && forall d :: !g.eof(p.diff(d)) && g.parts(p.diff(d)) == Some(PartsOf(d)) && g.context(p.diff(d)).None?
                   && !g.marker(p.diff(d)) && g.move(p.diff(d)).None?
  }

  ghost predicate ReadsContext(g: Grammar, p: Printer) {
    forall c :: g.context(p.context(c)) == Some(c) && !g.blank(p.context(c)) && !g.marker(p.context(c))
                && Ends(g, p.context(c)) && g.move(p.context(c)).None?
  }

  ghost predicate ReadsHead(g: Grammar, p: Printer) {
    && (forall h :: GoodHead(h) ==>
          g.head(p.head(h)) == h && !g.blank(p.head(h)) && g.marker(p.head(h)) && Ends(g, p.head(h))
          && g.added(p.head(h)).None?)
    && (forall m :: g.move(p.move(m)) == Some(m))
    && (forall l :: g.added(p.added(l)) == Some(l))
  }

  ghost predicate Reads(g: Grammar, p: Printer) { ReadsDiff(g, p) && ReadsContext(g, p) && ReadsHead(g, p) }

  // ---------- parsing what is shown ----------

  lemma {:induction false} BodyRound(g: Grammar, p: Printer, lines: seq<DiffLine>, eof: bool, rest: seq<string>)
    requires ReadsDiff(g, p) && (eof || rest == [] || Ends(g, rest[0]))
    ensures BodyOf(g, ShowLines(p, lines) + (EofLines(p, eof) + rest))
         == Body(OldOf(lines), NewOf(lines), eof, |lines| + |EofLines(p, eof)|)
  {
    var tail := EofLines(p, eof) + rest;
    if lines == [] {
      assert ShowLines(p, lines) + tail == tail;
    } else {
      var all := ShowLines(p, lines) + tail;
      assert all[0] == p.diff(lines[0]) && all[1..] == ShowLines(p, lines[1..]) + tail;
      BodyRound(g, p, lines[1..], eof, rest);
    }
  }

  /** A chunk whose diff lines begin at `skip` parses to what its diff lines say. */
  lemma ChunkFromBody(g: Grammar, all: seq<string>, skip: nat, header: Option<Option<string>>, b: Body, at: nat,
                      first: bool)
    requires skip < |all| && skip == (if header.Some? then 1 else 0)
    requires g.context(all[0]) == header && (header.None? ==> first)
    requires !g.eof(all[skip]) && g.parts(all[skip]).Some? && BodyOf(g, all[skip..]) == b
    ensures ParseChunk(g, all, at, first)
         == Ok((Chunk(if header.Some? then header.value else None, b.oldLines, b.newLines, b.eof), skip + b.count))
  {
  }

  lemma PlainChunkRound(g: Grammar, p: Printer, c: ChunkText, rest: seq<string>, at: nat)
    requires ReadsDiff(g, p) && c.lines != [] && c.header.None? && (rest == [] || Ends(g, rest[0]))
    ensures ParseChunk(g, ShowChunk(p, c) + rest, at, true) == Ok((ChunkOf(c), |ShowChunk(p, c)|))
  {
    var body := ShowLines(p, c.lines) + (EofLines(p, c.eof) + rest);
    assert ShowChunk(p, c) + rest == body && body[0..] == body && body[0] == p.diff(c.lines[0]);
    BodyRound(g, p, c.lines, c.eof, rest);
    ChunkFromBody(g, body, 0, None, BodyOf(g, body), at, true);
  }

  lemma HeadedChunkRound(g: Grammar, p: Printer, c: ChunkText, rest: seq<string>, at: nat, first: bool)
    requires ReadsDiff(g, p) && ReadsContext(g, p) && c.lines != [] && c.header.Some?
    requires (rest == [] || Ends(g, rest[0]))
    ensures ParseChunk(g, ShowChunk(p, c) + rest, at, first) == Ok((ChunkOf(c), |ShowChunk(p, c)|))
  {
    var body := ShowLines(p, c.lines) + (EofLines(p, c.eof) + rest);
    var all := [p.context(c.header.value)] + body;
    assert ShowChunk(p, c) + rest == all && all[1..] == body && all[1] == p.diff(c.lines[0]);
    BodyRound(g, p, c.lines, c.eof, rest);
    ChunkFromBody(g, all, 1, c.header, BodyOf(g, body), at, first);
  }

  lemma ChunkRound(g: Grammar, p: Printer, c: ChunkText, rest: seq<string>, at: nat, first: bool)
    requires ReadsDiff(g, p) && ReadsContext(g, p) && c.lines != [] && (c.header.None? ==> first)
    requires rest == [] || Ends(g, rest[0])
    ensures ParseChunk(g, ShowChunk(p, c) + rest, at, first) == Ok((ChunkOf(c), |ShowChunk(p, c)|))
  {
    if c.header.Some? {
      HeadedChunkRound(g, p, c, rest, at, first);
    } else {
      PlainChunkRound(g, p, c, rest, at);
    }
  }

  /** The lines after an update: none, or another hunk's header. */
  ghost predicate NextHunk(g: Grammar, rest: seq<string>) {
    rest == [] || (Ends(g, rest[0]) && !g.blank(rest[0]) && g.marker(rest[0]) && g.added(rest[0]).None?)
  }

  lemma FirstChunkLine(g: Grammar, p: Printer, c: ChunkText, rest: seq<string>, first: bool)
    requires ReadsDiff(g, p) && ReadsContext(g, p) && WellFormedChunk(g, p, c, first)
    ensures var all := ShowChunk(p, c) + rest;
            && |all| > 0 && !g.blank(all[0]) && !g.marker(all[0]) && g.move(all[0]).None?
            && (!first ==> Ends(g, all[0]))
  {
    var all := ShowChunk(p, c) + rest;
    if c.header.Some? {
      assert all[0] == p.context(c.header.value);
    } else {
      assert all[0] == ShowLines(p, c.lines)[0] == p.diff(c.lines[0]);
    }
  }

  /** These lines parse to this chunk whatever comes next, as long as that ends a chunk's body. */
  ghost predicate Block(g: Grammar, one: ChunkParser, block: seq<string>, chunk: Chunk, first: bool) {
    && block != [] && !g.blank(block[0]) && !g.marker(block[0]) && g.move(block[0]).None?
    && (first || Ends(g, block[0]))
    && forall tail: seq<string>, at: nat {:trigger Asked(tail, at)} ::
         Asked(tail, at) && (tail == [] || Ends(g, tail[0])) ==> one(block + tail, at, first) == Ok((chunk, |block|))
  }

  lemma ShownBlock(g: Grammar, p: Printer, c: ChunkText, first: bool)
    requires ReadsDiff(g, p) && ReadsContext(g, p) && WellFormedChunk(g, p, c, first)
    ensures Block(g, ChunkParserOf(g), ShowChunk(p, c), ChunkOf(c), first)
  {
    FirstChunkLine(g, p, c, [], first);
    assert ShowChunk(p, c) + [] == ShowChunk(p, c);
    forall tail: seq<string>, at: nat | tail == [] || Ends(g, tail[0])
      ensures ChunkParserOf(g)(ShowChunk(p, c) + tail, at, first) == Ok((ChunkOf(c), |ShowChunk(p, c)|))
    {
      ChunkRound(g, p, c, tail, at, first);
    }
  }

  function Flat(blocks: seq<seq<string>>): seq<string> { if blocks == [] then [] else blocks[0] + Flat(blocks[1..]) }

  ghost predicate Blocks(g: Grammar, one: ChunkParser, blocks: seq<seq<string>>, chunks: seq<Chunk>, first: bool) {
    |blocks| == |chunks|
    && (blocks == [] || (Block(g, one, blocks[0], chunks[0], first) && Blocks(g, one, blocks[1..], chunks[1..], false)))
  }

  lemma ChunksStep(g: Grammar, one: ChunkParser, block: seq<string>, tail: seq<string>, at: nat, first: bool,
                   chunk: Chunk, more: seq<Chunk>, m: nat)
    requires block != [] && !g.blank(block[0]) && !g.marker(block[0])
    requires one(block + tail, at, first) == Ok((chunk, |block|))
    requires ParseChunks(g, one, tail, at + |block|, false) == Ok((more, m))
    ensures ParseChunks(g, one, block + tail, at, first) == Ok(([chunk] + more, |block| + m))
  {
    assert (block + tail)[|block|..] == tail;
  }

  lemma BlocksTail(g: Grammar, one: ChunkParser, blocks: seq<seq<string>>, chunks: seq<Chunk>, rest: seq<string>)
    requires Blocks(g, one, blocks, chunks, false) && NextHunk(g, rest)
    ensures var tail := Flat(blocks) + rest; tail == [] || Ends(g, tail[0])
  {
    if blocks == [] {
      assert Flat(blocks) + rest == rest;
    } else {
      assert (Flat(blocks) + rest)[0] == blocks[0][0];
    }
  }

  lemma BlockStep(g: Grammar, one: ChunkParser, block: seq<string>, chunk: Chunk, first: bool, tail: seq<string>,
                  more: seq<Chunk>, m: nat, at: nat)
    requires Block(g, one, block, chunk, first) && (tail == [] || Ends(g, tail[0]))
    requires ParseChunks(g, one, tail, at + |block|, false) == Ok((more, m))
    ensures ParseChunks(g, one, block + tail, at, first) == Ok(([chunk] + more, |block| + m))
  {
    assert Asked(tail, at);
    ChunksStep(g, one, block, tail, at, first, chunk, more, m);
  }

  lemma FlatStep(blocks: seq<seq<string>>, rest: seq<string>)
    requires blocks != []
    ensures Flat(blocks) + rest == blocks[0] + (Flat(blocks[1..]) + rest)
    ensures |Flat(blocks)| == |blocks[0]| + |Flat(blocks[1..])|
  {
    Regroup(blocks[0], Flat(blocks[1..]), rest);
  }

  lemma Regroup(a: seq<string>, b: seq<string>, c: seq<string>)
    ensures (a + b) + c == a + (b + c)
  {
  }

  lemma {:induction false} BlocksRound(g: Grammar, one: ChunkParser, blocks: seq<seq<string>>, chunks: seq<Chunk>,
                                       rest: seq<string>, at: nat, first: bool)
    requires Blocks(g, one, blocks, chunks, first) && NextHunk(g, rest)
    ensures ParseChunks(g, one, Flat(blocks) + rest, at, first) == Ok((chunks, |Flat(blocks)|))
    decreases |blocks|
  {
    if blocks == [] {
      assert Flat(blocks) + rest == rest;
      ChunksEnd(g, one, rest, at, first);
    } else {
      var block, tail := blocks[0], Flat(blocks[1..]) + rest;
      FlatStep(blocks, rest);
      BlocksTail(g, one, blocks[1..], chunks[1..], rest);
      BlocksRound(g, one, blocks[1..], chunks[1..], rest, at + |block|, false);
      BlockStep(g, one, block, chunks[0], first, tail, chunks[1..], |Flat(blocks[1..])|, at);
      assert [chunks[0]] + chunks[1..] == chunks;
    }
  }

  function BlocksOf(p: Printer, chunks: seq<ChunkText>): seq<seq<string>> {
    if chunks == [] then [] else [ShowChunk(p, chunks[0])] + BlocksOf(p, chunks[1..])
  }

  lemma {:induction false} ShownBlocks(g: Grammar, p: Printer, chunks: seq<ChunkText>, first: bool)
    requires ReadsDiff(g, p) && ReadsContext(g, p) && WellFormedChunks(g, p, chunks, first)
    ensures Blocks(g, ChunkParserOf(g), BlocksOf(p, chunks), ChunksOf(chunks), first)
    ensures Flat(BlocksOf(p, chunks)) == ShowChunks(p, chunks)
    decreases |chunks|
  {
    if chunks != [] {
      ShownBlock(g, p, chunks[0], first);
      ShownBlocks(g, p, chunks[1..], false);
      assert BlocksOf(p, chunks)[1..] == BlocksOf(p, chunks[1..]) && ChunksOf(chunks)[1..] == ChunksOf(chunks[1..]);
    }
  }

  lemma {:induction false} AddedRound(g: Grammar, p: Printer, lines: seq<string>, rest: seq<string>)
    requires ReadsHead(g, p) && NextHunk(g, rest)
    ensures AddedLines(g, ShowAddedLines(p, lines) + rest) == (ContentsOf(lines), |lines|)
    ensures |ShowAddedLines(p, lines)| == |lines|
  {
    if lines == [] {
      assert ShowAddedLines(p, lines) + rest == rest;
    } else {
      var all := ShowAddedLines(p, lines) + rest;
      assert all[0] == p.added(lines[0]) && all[1..] == ShowAddedLines(p, lines[1..]) + rest;
      AddedRound(g, p, lines[1..], rest);
    }
  }

  lemma UpdateStep(g: Grammar, update: UpdateParser, head: string, move: seq<string>, body: seq<string>, path: string,
                   chunks: seq<Chunk>, n: nat, at: nat)
    requires g.head(head) == UpdateHead(path) && chunks != []
    requires body != [] && (if move == [] then g.move(body[0]).None? else |move| == 1 && g.move(move[0]).Some?)
    requires update(body, at + 1 + |move|) == Ok((chunks, n))
    ensures ParseHunk(g, update, [head] + (move + body), at)
         == Ok((UpdateFile(path, if move == [] then None else g.move(move[0]), chunks), 1 + |move| + n))
  {
    var all := [head] + (move + body);
    assert all[0] == head && all[1..] == move + body && all[1 + |move|..] == body;
    assert MoveOf(g, move + body) == if move == [] then None else g.move(move[0]) by {
      assert move == [] ==> move + body == body;
    }
  }

  /** The chunks of a well-formed update parse back, whatever hunk follows. */
  lemma ChunksRound(g: Grammar, p: Printer, chunks: seq<ChunkText>, rest: seq<string>, at: nat)
    requires Reads(g, p) && WellFormedChunks(g, p, chunks, true) && NextHunk(g, rest)
    ensures UpdateParserOf(g)(ShowChunks(p, chunks) + rest, at) == Ok((ChunksOf(chunks), |ShowChunks(p, chunks)|))
  {
    ShownBlocks(g, p, chunks, true);
    BlocksRound(g, ChunkParserOf(g), BlocksOf(p, chunks), ChunksOf(chunks), rest, at, true);
  }

  lemma FirstChunksLine(g: Grammar, p: Printer, chunks: seq<ChunkText>, rest: seq<string>)
    requires Reads(g, p) && WellFormedChunks(g, p, chunks, true) && chunks != []
    ensures var all := ShowChunks(p, chunks) + rest; all != [] && g.move(all[0]).None?
  {
    FirstChunkLine(g, p, chunks[0], [], true);
    assert ShowChunk(p, chunks[0]) + [] == ShowChunk(p, chunks[0]);
  }

  lemma UpdateRound(g: Grammar, p: Printer, update: UpdateParser, path: string, move: Option<string>,
                    chunks: seq<ChunkText>,
                    rest: seq<string>, at: nat)
    requires Reads(g, p) && GoodPath(path) && chunks != [] && WellFormedChunks(g, p, chunks, true)
    requires update(ShowChunks(p, chunks) + rest, at + 1 + |MoveLines(p, move)|)
          == Ok((ChunksOf(chunks), |ShowChunks(p, chunks)|))
    ensures ParseHunk(g, update, ([p.head(UpdateHead(path))] + (MoveLines(p, move) + ShowChunks(p, chunks))) + rest, at)
         == Ok((UpdateFile(path, move, ChunksOf(chunks)), 1 + |MoveLines(p, move)| + |ShowChunks(p, chunks)|))
  {
    var head, shown := p.head(UpdateHead(path)), ShowChunks(p, chunks);
    assert GoodHead(UpdateHead(path));
    FirstChunksLine(g, p, chunks, rest);
    UpdateStep(g, update, head, MoveLines(p, move), shown + rest, path, ChunksOf(chunks), |shown|, at);
    ShownUpdate(head, MoveLines(p, move), shown, rest);
  }

  lemma ShownUpdate(head: string, move: seq<string>, shown: seq<string>, rest: seq<string>)
    ensures ([head] + (move + shown)) + rest == [head] + (move + (shown + rest))
  {
  }

  lemma HunkRound(g: Grammar, p: Printer, update: UpdateParser, h: HunkText, rest: seq<string>, at: nat)
    requires Reads(g, p) && WellFormed(g, p, h) && NextHunk(g, rest)
    requires h.UpdateText? ==> update(ShowChunks(p, h.chunks) + rest, at + 1 + |MoveLines(p, h.move)|)
                               == Ok((ChunksOf(h.chunks), |ShowChunks(p, h.chunks)|))
    ensures ParseHunk(g, update, ShowHunk(p, h) + rest, at) == Ok((HunkOf(h), |ShowHunk(p, h)|))
  {
    var all := ShowHunk(p, h) + rest;
    match h
    case UpdateText(path, move, chunks) => UpdateRound(g, p, update, path, move, chunks, rest, at);
    case DeleteText(path) =>
      assert GoodHead(DeleteHead(path)) && all[0] == p.head(DeleteHead(path));
    case AddText(path, lines) =>
      assert GoodHead(AddHead(path));
      AddRound(g, p, update, p.head(AddHead(path)), path, lines, rest, at);
  }

  lemma AddRound(g: Grammar, p: Printer, update: UpdateParser, head: string, path: string, lines: seq<string>,
                 rest: seq<string>, at: nat)
    requires ReadsHead(g, p) && g.head(head) == AddHead(path) && NextHunk(g, rest)
    ensures ParseHunk(g, update, ([head] + ShowAddedLines(p, lines)) + rest, at)
         == Ok((AddFile(path, ContentsOf(lines)), 1 + |ShowAddedLines(p, lines)|))
  {
    var all := ([head] + ShowAddedLines(p, lines)) + rest;
    assert all[0] == head && all[1..] == ShowAddedLines(p, lines) + rest;
    AddedRound(g, p, lines, rest);
  }

  lemma ShownHunkHead(g: Grammar, p: Printer, h: HunkText, rest: seq<string>)
    requires Reads(g, p) && WellFormed(g, p, h)
    ensures NextHunk(g, ShowHunk(p, h) + rest)
  {
    var head :=
      match h
      case AddText(q, _) => AddHead(q)
      case DeleteText(q) => DeleteHead(q)
      case UpdateText(q, _, _) => UpdateHead(q);
    assert GoodHead(head) && (ShowHunk(p, h) + rest)[0] == p.head(head);
  }

  lemma HunksStep(one: HunkParser, block: seq<string>, tail: seq<string>, at: nat, hunk: Hunk, more: seq<Hunk>)
    requires block != [] && one(block + tail, at) == Ok((hunk, |block|))
    requires ParseHunks(one, tail, at + |block|) == Ok(more)
    ensures ParseHunks(one, block + tail, at) == Ok([hunk] + more)
  {
    assert (block + tail)[|block|..] == tail;
  }

  lemma ShownHunkParses(g: Grammar, p: Printer, h: HunkText, rest: seq<string>, at: nat)
    requires Reads(g, p) && WellFormed(g, p, h) && NextHunk(g, rest)
    ensures ShowHunk(p, h) != [] && HunkParserOf(g)(ShowHunk(p, h) + rest, at) == Ok((HunkOf(h), |ShowHunk(p, h)|))
  {
    if h.UpdateText? {
      ChunksRound(g, p, h.chunks, rest, at + 1 + |MoveLines(p, h.move)|);
    }
    HunkRound(g, p, UpdateParserOf(g), h, rest, at);
  }

  lemma {:induction false} HunksRound(g: Grammar, p: Printer, hunks: seq<HunkText>, at: nat)
    requires Reads(g, p) && forall h :: h in hunks ==> WellFormed(g, p, h)
    ensures ParseHunks(HunkParserOf(g), ShowHunks(p, hunks), at) == Ok(HunksOf(hunks))
    decreases |hunks|
  {
    if hunks != [] {
      var h, more := hunks[0], hunks[1..];
      assert h in hunks && forall x :: x in more ==> x in hunks;
      var block, tail := ShowHunk(p, h), ShowHunks(p, more);
      if more != [] {
        ShownHunkHead(g, p, more[0], ShowHunks(p, more[1..]));
      }
      ShownHunkParses(g, p, h, tail, at);
      HunksRound(g, p, more, at + |block|);
      HunksStep(HunkParserOf(g), block, tail, at, HunkOf(h), HunksOf(more));
    }
  }
}
