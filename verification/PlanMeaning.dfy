/** What planning a chunk means, in terms of matching lines only. */
module PlanMeaning {
  import opened Prelude
  import opened Text
  import opened SeekSequence
  import opened Replacements

  /** The best match of the pattern from a position on. */
  ghost predicate Found(lines: seq<string>, pattern: seq<string>, from: int, p: nat) {
    exists level :: BestMatch(level, lines, pattern, from, p)
  }

  /** The pattern matches nowhere from that position on, however leniently. */
  ghost predicate Nowhere(lines: seq<string>, pattern: seq<string>, from: int) {
    forall i :: from <= i ==> !MatchesAt(Normalised, lines, pattern, i)
  }

  lemma FoundIsSomewhere(lines: seq<string>, pattern: seq<string>, from: int, p: nat)
    requires Found(lines, pattern, from, p)
    ensures !Nowhere(lines, pattern, from)
  {
    var level :| BestMatch(level, lines, pattern, from, p);
    MatchesWiden(level, Normalised, lines, pattern, p);
  }

  /** What a search has established. */
  ghost predicate Established(lines: seq<string>, pattern: seq<string>, from: int, r: Option<nat>) {
    match r
    case None => Nowhere(lines, pattern, from)
    case Some(p) => Found(lines, pattern, from, p) && !Nowhere(lines, pattern, from)
  }

  lemma SeekMeans(lines: seq<string>, pattern: seq<string>, start: nat, eof: bool)
    requires pattern != []
    ensures Established(lines, pattern, From(lines, pattern, eof, start), Seek(lines, pattern, start, eof))
  {
    SeekIsLeftmostStrictest(lines, pattern, start, eof);
    var r := Seek(lines, pattern, start, eof);
    if r.Some? {
      FoundIsSomewhere(lines, pattern, From(lines, pattern, eof, start), r.value);
    }
  }

  /** Each line without the one carriage return it may end in. */
  predicate Cleaned(raw: seq<string>, clean: seq<string>) {
    && |raw| == |clean|
    && forall i :: 0 <= i < |raw| ==>
         raw[i] == clean[i] + if raw[i] != [] && raw[i][|raw[i]| - 1] == '\r' then "\r" else ""
  }

  lemma StripCleans(raw: seq<string>)
    ensures Cleaned(raw, StripAll(raw))
  {
  }

  /** Where the search for a chunk's old lines begins: at the cursor, or behind the best match of its context. */
  ghost predicate Begins(lines: seq<string>, context: Option<string>, cursor: nat, here: nat) {
    match context
    case None => here == cursor
    case Some(line) => here > 0 && Found(lines, [line], cursor, here - 1)
  }

  function From(lines: seq<string>, pattern: seq<string>, eof: bool, here: nat): int {
    if eof then |lines| - |pattern| else here
  }

  function Init(lines: seq<string>): seq<string>
    requires lines != []
  {
    lines[..|lines| - 1]
  }

  predicate LastEmpty(lines: seq<string>) { |lines| > 0 && lines[|lines| - 1] == "" }

  /** The old lines are replaced where they match best, or else, without a final empty one, where the rest does. */
  ghost predicate Replaces(lines: seq<string>, before: seq<string>, after: seq<string>, eof: bool, here: nat, e: Edit)
    requires before != []
  {
    || (Found(lines, before, From(lines, before, eof, here), e.start) && e.oldLen == |before| && e.newLines == after)
    || (&& Nowhere(lines, before, From(lines, before, eof, here)) && LastEmpty(before)
        && (if Init(before) == [] then e.start == here
            else Found(lines, Init(before), From(lines, Init(before), eof, here), e.start))
        && e.oldLen == |before| - 1
        && e.newLines == if LastEmpty(after) then Init(after) else after)
  }

  ghost predicate Unmatched(lines: seq<string>, before: seq<string>, eof: bool, here: nat)
    requires before != []
  {
    && Nowhere(lines, before, From(lines, before, eof, here))
    && (LastEmpty(before) ==> Init(before) != [] && Nowhere(lines, Init(before), From(lines, Init(before), eof, here)))
  }

  /** What one chunk is planned to do. */
  ghost predicate Plans(lines: seq<string>, chunk: Chunk, cursor: nat, r: Result<(Planned, nat), PlanError>) {
    var before, after := StripAll(chunk.oldLines), StripAll(chunk.newLines);
    match r
    case Err(ContextNotFound(line)) => chunk.context == Some(line) && Nowhere(lines, [line], cursor)
    case Err(LinesNotFound(expected)) =>
      && before != [] && expected == before
      && exists here: nat :: Begins(lines, chunk.context, cursor, here) && Unmatched(lines, before, chunk.eof, here)
    case Ok((p, next)) =>
      exists here: nat ::
        && Begins(lines, chunk.context, cursor, here)
        && if before == [] then
             p.edit == Edit(if LastEmpty(lines) then |lines| - 1 else |lines|, 0, after) && next == here
           else
             Replaces(lines, before, after, chunk.eof, here, p.edit) && next == p.edit.start + p.edit.oldLen
  }

  /** The edit, from what searching for the old lines, and then for all but the last of them, has established. */
  lemma EditMeans(lines: seq<string>, before: seq<string>, after: seq<string>, eof: bool, here: nat,
                  first: Option<nat>, second: Option<nat>)
    requires before != [] && Established(lines, before, From(lines, before, eof, here), first)
    requires LastEmpty(before) && Init(before) != [] ==>
               Established(lines, Init(before), From(lines, Init(before), eof, here), second)
    requires LastEmpty(before) && Init(before) == [] ==> second == Some(here)
    ensures first.Some? ==> Replaces(lines, before, after, eof, here, Edit(first.value, |before|, after))
    ensures first.None? && LastEmpty(before) && second.Some? ==>
              Replaces(lines, before, after, eof, here,
                       Edit(second.value, |before| - 1, if LastEmpty(after) then Init(after) else after))
    ensures first.None? && (!LastEmpty(before) || second.None?) ==> Unmatched(lines, before, eof, here)
  {
  }

  lemma LocateMeans(lines: seq<string>, chunk: Chunk, here: nat)
    requires chunk.oldLines != []
    ensures var before, after := StripAll(chunk.oldLines), StripAll(chunk.newLines);
            match Locate(lines, chunk, here)
            case Ok(p) => Replaces(lines, before, after, chunk.eof, here, p.edit)
            case Err(e) => e == LinesNotFound(before) && Unmatched(lines, before, chunk.eof, here)
  {
    var before, after := StripAll(chunk.oldLines), StripAll(chunk.newLines);
    SeekMeans(lines, before, here, chunk.eof);
    var second := if LastEmpty(before) then Seek(lines, Init(before), here, chunk.eof) else None;
    if LastEmpty(before) && Init(before) != [] {
      SeekMeans(lines, Init(before), here, chunk.eof);
    }
    EditMeans(lines, before, after, chunk.eof, here, Seek(lines, before, here, chunk.eof), second);
  }

  lemma ContextMeans(lines: seq<string>, chunk: Chunk, cursor: nat)
    ensures match AfterContext(lines, chunk, cursor)
            case Ok(here) => Begins(lines, chunk.context, cursor, here)
            case Err(e) => chunk.context.Some? && e == ContextNotFound(chunk.context.value)
                           && Nowhere(lines, [chunk.context.value], cursor)
  {
    if chunk.context.Some? {
      SeekMeans(lines, [chunk.context.value], cursor, false);
    }
  }

  lemma ContextFound(lines: seq<string>, chunk: Chunk, cursor: nat)
    requires chunk.context.Some? && Nowhere(lines, [chunk.context.value], cursor)
    ensures AfterContext(lines, chunk, cursor) == Err(ContextNotFound(chunk.context.value))
  {
    SeekMeans(lines, [chunk.context.value], cursor, false);
  }

  /**
   * Planning a chunk: its context, if it has one, is found as the best match from the cursor, or planning fails for
   * exactly that reason; the old lines are then replaced where they match best behind it, or at the end of the file,
   * or an addition goes to the end; the new lines are the chunk's own.
   */
  lemma PlanMeans(lines: seq<string>, chunk: Chunk, cursor: nat)
    ensures Plans(lines, chunk, cursor, PlanOne(lines, chunk, cursor))
    ensures chunk.context.Some? ==>
              (PlanOne(lines, chunk, cursor) == Err(ContextNotFound(chunk.context.value))
               <==> Nowhere(lines, [chunk.context.value], cursor))
  {
    ContextMeans(lines, chunk, cursor);
    if chunk.context.Some? && Nowhere(lines, [chunk.context.value], cursor) {
      ContextFound(lines, chunk, cursor);
    }
    var begin := AfterContext(lines, chunk, cursor);
    if begin.Ok? {
      var here := begin.value;
      assert Begins(lines, chunk.context, cursor, here);
      if chunk.oldLines != [] {
        LocateMeans(lines, chunk, here);
      }
    }
  }
}
