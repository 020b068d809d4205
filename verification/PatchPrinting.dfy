/** Printing a hunk list and parsing it back. */
module PatchPrinting {
  import opened Prelude
  import opened Text
  import opened Replacements
  import opened PatchParser
  import opened PatchRoundTrip
  import opened PatchText

  // ---------- one spelling for every hunk ----------

  function Minuses(lines: seq<string>): seq<DiffLine> {
    if lines == [] then [] else [Minus(lines[0])] + Minuses(lines[1..])
  }

  function Pluses(lines: seq<string>): seq<DiffLine> {
    if lines == [] then [] else [Plus(lines[0])] + Pluses(lines[1..])
  }

  /** Old lines first, then new ones, under an explicit header. */
  function SpellChunk(c: Chunk): ChunkText {
    ChunkText(Some(c.context), Minuses(c.oldLines) + Pluses(c.newLines), c.eof)
  }

  function SpellChunks(chunks: seq<Chunk>): seq<ChunkText> {
    if chunks == [] then [] else [SpellChunk(chunks[0])] + SpellChunks(chunks[1..])
  }

  /** The lines of a text every line of which is terminated. */
  function TerminatedLines(contents: string): seq<string> { DropLast(Split(contents, '\n')) }

  function Spell(h: Hunk): HunkText {
    match h
    case AddFile(path, contents) => AddText(path, TerminatedLines(contents))
    case DeleteFile(path) => DeleteText(path)
    case UpdateFile(path, move, chunks) => UpdateText(path, move, SpellChunks(chunks))
  }

  function SpellAll(hunks: seq<Hunk>): seq<HunkText> {
    if hunks == [] then [] else [Spell(hunks[0])] + SpellAll(hunks[1..])
  }

  function Print(hunks: seq<Hunk>): string { Render(SpellAll(hunks)) }

  // ---------- spelling keeps the meaning ----------

  predicate Terminated(contents: string) { contents == [] || contents[|contents| - 1] == '\n' }

  predicate AllWhole(lines: seq<string>) { forall l :: l in lines ==> Whole(l) }

  predicate PrintableChunk(c: Chunk) {
    && (c.oldLines != [] || c.newLines != [])
    && AllWhole(c.oldLines) && AllWhole(c.newLines) && (c.context.Some? ==> Whole(c.context.value))
  }

  /**
   * What a hunk must satisfy to be written down: a path without line feeds that is not empty and ends in no whitespace,
   * terminated contents, at least one chunk and at least one line per chunk, and no line that the line splitting of the
   * parser would change.
   */
  predicate Printable(h: Hunk) {
    && GoodPath(h.path) && Free(h.path, '\n')
    && match h
       case AddFile(_, contents) => Terminated(contents) && AllWhole(TerminatedLines(contents))
       case DeleteFile(_) => true
       case UpdateFile(_, move, chunks) =>
         chunks != [] && (move.Some? ==> Whole(move.value)) && forall c :: c in chunks ==> PrintableChunk(c)
  }

  lemma {:induction false} MeaningConcat(a: seq<DiffLine>, b: seq<DiffLine>)
    ensures OldOf(a + b) == OldOf(a) + OldOf(b) && NewOf(a + b) == NewOf(a) + NewOf(b)
  {
    if a == [] {
      assert a + b == b;
    } else {
      assert (a + b)[0] == a[0] && (a + b)[1..] == a[1..] + b;
      MeaningConcat(a[1..], b);
      Regroup(PartsOf(a[0]).0, OldOf(a[1..]), OldOf(b));
      Regroup(PartsOf(a[0]).1, NewOf(a[1..]), NewOf(b));
    }
  }

  lemma {:induction false} MinusesMean(lines: seq<string>)
    ensures OldOf(Minuses(lines)) == lines && NewOf(Minuses(lines)) == []
  {
    if lines != [] {
      MinusesMean(lines[1..]);
    }
  }

  lemma {:induction false} PlusesMean(lines: seq<string>)
    ensures OldOf(Pluses(lines)) == [] && NewOf(Pluses(lines)) == lines
  {
    if lines != [] {
      PlusesMean(lines[1..]);
    }
  }

  lemma SpelledChunk(c: Chunk)
    ensures ChunkOf(SpellChunk(c)) == c
  {
    MeaningConcat(Minuses(c.oldLines), Pluses(c.newLines));
    MinusesMean(c.oldLines);
    PlusesMean(c.newLines);
  }

  lemma {:induction false} SpelledChunks(chunks: seq<Chunk>)
    ensures ChunksOf(SpellChunks(chunks)) == chunks
  {
    if chunks != [] {
      SpelledChunk(chunks[0]);
      SpelledChunks(chunks[1..]);
    }
  }

  lemma {:induction false} SplitContents(s: string)
    ensures var pieces := Split(s, '\n'); ContentsOf(DropLast(pieces)) + pieces[|pieces| - 1] == s
    decreases |s|
  {
    if s != [] {
      SplitContents(s[1..]);
      ContentsStep(s[0], Split(s[1..], '\n'));
      assert s == [s[0]] + s[1..];
    }
  }

  lemma ContentsStep(ch: char, rest: seq<string>)
    requires rest != []
    ensures var pieces := if ch == '\n' then [[]] + rest else [[ch] + rest[0]] + rest[1..];
            ContentsOf(DropLast(pieces)) + pieces[|pieces| - 1]
            == [ch] + (ContentsOf(DropLast(rest)) + rest[|rest| - 1])
  {
    if ch == '\n' {
      assert DropLast([[]] + rest) == [[]] + DropLast(rest);
    } else if |rest| > 1 {
      var tail := DropLast(rest)[1..];
      assert DropLast([[ch] + rest[0]] + rest[1..]) == [[ch] + rest[0]] + tail;
      assert DropLast(rest) == [rest[0]] + tail;
    }
  }

  lemma {:induction false} LastPiece(s: string)
    requires Terminated(s)
    ensures var pieces := Split(s, '\n'); pieces[|pieces| - 1] == []
    decreases |s|
  {
    if s != [] {
      LastPiece(s[1..]);
    }
  }

  /** The spelling of a hunk with terminated contents means that hunk. */
  lemma SpelledHunk(h: Hunk)
    requires h.AddFile? ==> Terminated(h.contents)
    ensures HunkOf(Spell(h)) == h
  {
    match h
    case AddFile(_, contents) =>
      SplitContents(contents);
      LastPiece(contents);
    case DeleteFile(_) =>
    case UpdateFile(_, _, chunks) => SpelledChunks(chunks);
  }

  lemma {:induction false} SpelledAll(hunks: seq<Hunk>)
    requires forall h :: h in hunks ==> Printable(h)
    ensures HunksOf(SpellAll(hunks)) == hunks
  {
    if hunks != [] {
      assert hunks[0] in hunks;
      SpelledHunk(hunks[0]);
      SpelledAll(hunks[1..]);
    }
  }

  // ---------- spelling is well formed ----------

  lemma {:induction false} SpelledChunksGood(chunks: seq<Chunk>, first: bool)
    requires forall c :: c in chunks ==> PrintableChunk(c)
    ensures WellFormedChunks(PatchGrammar(), PatchPrinter(), SpellChunks(chunks), first)
    decreases |chunks|
  {
    if chunks != [] {
      assert chunks[0] in chunks;
      SpelledChunksGood(chunks[1..], false);
    }
  }

  lemma SpelledGood(h: Hunk)
    requires Printable(h)
    ensures Good(Spell(h))
  {
    if h.UpdateFile? {
      SpelledChunksGood(h.chunks, true);
    }
  }

  // ---------- spelled lines survive as text ----------

  lemma WholeAfter(prefix: string, rest: string)
    requires prefix != [] && Whole(prefix) && Whole(rest)
    ensures Whole(prefix + rest)
  {
  }

  ghost predicate ShownWhole(p: Printer, lines: seq<DiffLine>) { forall d :: d in lines ==> Whole(p.diff(d)) }

  lemma {:induction false} ShowLinesWhole(p: Printer, lines: seq<DiffLine>)
    requires ShownWhole(p, lines)
    ensures AllWhole(ShowLines(p, lines))
  {
    if lines != [] {
      assert lines[0] in lines;
      ShowLinesWhole(p, lines[1..]);
    }
  }

  lemma {:induction false} MinusesWhole(lines: seq<string>)
    requires AllWhole(lines)
    ensures ShownWhole(PatchPrinter(), Minuses(lines))
  {
    if lines != [] {
      assert lines[0] in lines;
      WholeAfter("-", lines[0]);
      MinusesWhole(lines[1..]);
    }
  }

  lemma {:induction false} PlusesWhole(lines: seq<string>)
    requires AllWhole(lines)
    ensures ShownWhole(PatchPrinter(), Pluses(lines))
  {
    if lines != [] {
      assert lines[0] in lines;
      WholeAfter("+", lines[0]);
      PlusesWhole(lines[1..]);
    }
  }

  lemma ChunkWhole(c: Chunk)
    requires PrintableChunk(c)
    ensures AllWhole(ShowChunk(PatchPrinter(), SpellChunk(c)))
  {
    MinusesWhole(c.oldLines);
    PlusesWhole(c.newLines);
    ShowLinesWhole(PatchPrinter(), Minuses(c.oldLines) + Pluses(c.newLines));
    if c.context.Some? {
      WholeAfter(CONTEXT, c.context.value);
    }
    assert Whole(END_OF_FILE) && Whole(EMPTY_CONTEXT);
  }

  lemma {:induction false} ChunksWhole(chunks: seq<Chunk>)
    requires forall c :: c in chunks ==> PrintableChunk(c)
    ensures AllWhole(ShowChunks(PatchPrinter(), SpellChunks(chunks)))
  {
    if chunks != [] {
      assert chunks[0] in chunks;
      ChunkWhole(chunks[0]);
      ChunksWhole(chunks[1..]);
    }
  }

  lemma {:induction false} AddedWhole(lines: seq<string>)
    requires AllWhole(lines)
    ensures AllWhole(ShowAddedLines(PatchPrinter(), lines))
  {
    if lines != [] {
      assert lines[0] in lines;
      WholeAfter("+", lines[0]);
      AddedWhole(lines[1..]);
    }
  }

  lemma PathWhole(path: string)
    requires GoodPath(path) && Free(path, '\n')
    ensures Whole(ADD_FILE + path) && Whole(DELETE_FILE + path) && Whole(UPDATE_FILE + path)
  {
    WholeAfter(ADD_FILE, path);
    WholeAfter(DELETE_FILE, path);
    WholeAfter(UPDATE_FILE, path);
  }

  lemma UpdateWhole(path: string, move: Option<string>, chunks: seq<Chunk>)
    requires GoodPath(path) && Free(path, '\n') && (move.Some? ==> Whole(move.value))
    requires AllWhole(ShowChunks(PatchPrinter(), SpellChunks(chunks)))
    ensures AllWhole(ShowHunk(PatchPrinter(), Spell(UpdateFile(path, move, chunks))))
  {
    PathWhole(path);
    if move.Some? {
      WholeAfter(MOVE_TO, move.value);
    }
    assert AllWhole(MoveLines(PatchPrinter(), move));
  }

  lemma HunkWhole(h: Hunk)
    requires Printable(h)
    ensures AllWhole(ShowHunk(PatchPrinter(), Spell(h)))
  {
    match h
    case AddFile(path, contents) =>
      PathWhole(path);
      AddedWhole(TerminatedLines(contents));
    case DeleteFile(path) => PathWhole(path);
    case UpdateFile(path, move, chunks) =>
      ChunksWhole(chunks);
      UpdateWhole(path, move, chunks);
  }

  lemma {:induction false} AllSpelled(hunks: seq<Hunk>)
    requires forall h :: h in hunks ==> Printable(h)
    ensures forall t :: t in SpellAll(hunks) ==> Good(t)
    ensures AllWhole(ShowHunks(PatchPrinter(), SpellAll(hunks)))
  {
    if hunks != [] {
      assert hunks[0] in hunks;
      SpelledGood(hunks[0]);
      HunkWhole(hunks[0]);
      AllSpelled(hunks[1..]);
    }
  }

  /** Printing any printable hunk list and parsing the text gives the same list back, in both modes. */
  lemma PrintThenParse(hunks: seq<Hunk>, lenient: bool)
    requires forall h :: h in hunks ==> Printable(h)
    ensures ParseText(Print(hunks), lenient) == Ok(hunks)
  {
    AllSpelled(hunks);
    TextRoundTrip(SpellAll(hunks), lenient);
    SpelledAll(hunks);
  }
}
