/** Planning the edits of a file update and applying them (`compute_replacements`, `apply_replacements`). */
module Replacements {
  import opened Prelude
  import opened Text
  import opened SeekSequence
  import opened Sorting

  /** `UpdateFileChunk`. */
  datatype Chunk = Chunk(context: Option<string>, oldLines: seq<string>, newLines: seq<string>, eof: bool)

  /** Replace `oldLen` lines from `start` by `newLines`. */
  datatype Edit = Edit(start: nat, oldLen: nat, newLines: seq<string>) {
    function End(): nat { start + oldLen }
  }

  /** Where an edit's position came from: the cursor, the end of the file, or the rule for pure additions. */
  datatype Kind = AtCursor | AtEof | Addition

  datatype Planned = Planned(edit: Edit, kind: Kind)

  datatype PlanError = ContextNotFound(context: string) | LinesNotFound(expected: seq<string>)

  /** `normalize_line_ending`. */
  function StripCr(line: string): string {
    if line != [] && line[|line| - 1] == '\r' then line[..|line| - 1] else line
  }

  function StripAll(lines: seq<string>): (r: seq<string>)
    ensures |r| == |lines|
  {
    seq(|lines|, i requires 0 <= i < |lines| => StripCr(lines[i]))
  }

  predicate EndsBlank(lines: seq<string>) { lines != [] && lines[|lines| - 1] == [] }

  function DropLast(lines: seq<string>): seq<string>
    requires lines != []
  {
    lines[..|lines| - 1]
  }

  /** Pure additions go to the end, or in front of a final empty line. */
  function AdditionIndex(lines: seq<string>): nat { if EndsBlank(lines) then |lines| - 1 else |lines| }

  function AfterContext(lines: seq<string>, chunk: Chunk, cursor: nat): Result<nat, PlanError> {
    match chunk.context
    case None => Ok(cursor)
    case Some(line) =>
      var found := Seek(lines, [line], cursor, false);
      if found.Some? then Ok(found.value + 1) else Err(ContextNotFound(line))
  }

  /** Finds the old lines, retrying without a final empty line, and pairs them with the lines to put there. */
  function Locate(lines: seq<string>, chunk: Chunk, cursor: nat): Result<Planned, PlanError> {
    var before, after := StripAll(chunk.oldLines), StripAll(chunk.newLines);
    var found := Seek(lines, before, cursor, chunk.eof);
    if found.Some? then Ok(At(found.value, before, after, chunk.eof))
    else if EndsBlank(before) then
      var shorter := DropLast(before);
      var again := Seek(lines, shorter, cursor, chunk.eof);
      if again.Some? then Ok(At(again.value, shorter, if EndsBlank(after) then DropLast(after) else after, chunk.eof))
      else Err(LinesNotFound(before))
    else Err(LinesNotFound(before))
  }

  function At(start: nat, pattern: seq<string>, newLines: seq<string>, eof: bool): Planned {
    Planned(Edit(start, |pattern|, newLines), if eof && pattern != [] then AtEof else AtCursor)
  }

  /** One chunk: the planned edit and the cursor after it. */
  function PlanOne(lines: seq<string>, chunk: Chunk, cursor: nat): Result<(Planned, nat), PlanError> {
    match AfterContext(lines, chunk, cursor)
    case Err(e) => Err(e)
    case Ok(here) =>
      if chunk.oldLines == [] then
        Ok((Planned(Edit(AdditionIndex(lines), 0, StripAll(chunk.newLines)), Addition), here))
      else
        match Locate(lines, chunk, here)
        case Err(e) => Err(e)
        case Ok(p) => Ok((p, p.edit.End()))
  }

  function PlanFrom(lines: seq<string>, chunks: seq<Chunk>, cursor: nat): Result<seq<Planned>, PlanError>
    decreases |chunks|
  {
    if chunks == [] then Ok([])
    else
      match PlanOne(lines, chunks[0], cursor)
      case Err(e) => Err(e)
      case Ok((p, next)) => Append([p], PlanFrom(lines, chunks[1..], next))
  }

  function Append(done: seq<Planned>, rest: Result<seq<Planned>, PlanError>): Result<seq<Planned>, PlanError> {
    if rest.Ok? then Ok(done + rest.value) else rest
  }

  lemma AppendTwice(a: seq<Planned>, b: seq<Planned>, rest: Result<seq<Planned>, PlanError>)
    ensures Append(a, Append(b, rest)) == Append(a + b, rest)
  {
    if rest.Ok? {
      assert a + (b + rest.value) == (a + b) + rest.value;
    }
  }

  function Edits(plan: seq<Planned>): (r: seq<Edit>)
    ensures |r| == |plan|
  {
    seq(|plan|, i requires 0 <= i < |plan| => plan[i].edit)
  }

  // ---------- the stable sort by start ----------

  function ByStart(): (Edit, Edit) -> bool { (x: Edit, y: Edit) => x.start <= y.start }

  function StableSort(edits: seq<Edit>): seq<Edit> { Sort(ByStart(), edits) }

  /** `compute_replacements`. */
  function Compute(lines: seq<string>, chunks: seq<Chunk>): Result<seq<Edit>, PlanError> {
    var plan := PlanFrom(lines, chunks, 0);
    if plan.Ok? then Ok(StableSort(Edits(plan.value))) else Err(plan.error)
  }

  method LocateLines(lines: seq<string>, chunk: Chunk, cursor: nat) returns (r: Result<Planned, PlanError>)
    ensures r == Locate(lines, chunk, cursor)
  {
    var before, after := StripAll(chunk.oldLines), StripAll(chunk.newLines);
    var pattern := before;
    var found := SeekLines(lines, pattern, cursor, chunk.eof);
    if found.None? && EndsBlank(pattern) {
      pattern := DropLast(pattern);
      if EndsBlank(after) {
        after := DropLast(after);
      }
      found := SeekLines(lines, pattern, cursor, chunk.eof);
    }
    if found.None? {
      return Err(LinesNotFound(before));
    }
    return Ok(At(found.value, pattern, after, chunk.eof));
  }

  method PlanChunk(lines: seq<string>, chunk: Chunk, cursor: nat) returns (r: Result<(Planned, nat), PlanError>)
    ensures r == PlanOne(lines, chunk, cursor)
  {
    var here := cursor;
    if chunk.context.Some? {
      var found := SeekLines(lines, [chunk.context.value], cursor, false);
      if found.None? {
        return Err(ContextNotFound(chunk.context.value));
      }
      here := found.value + 1;
    }
    if chunk.oldLines == [] {
      return Ok((Planned(Edit(AdditionIndex(lines), 0, StripAll(chunk.newLines)), Addition), here));
    }
    var located := LocateLines(lines, chunk, here);
    if located.Err? {
      return Err(located.error);
    }
    return Ok((located.value, located.value.edit.End()));
  }

  method ComputeReplacements(lines: seq<string>, chunks: seq<Chunk>) returns (r: Result<seq<Edit>, PlanError>)
    ensures r == Compute(lines, chunks)
  {
    var plan: seq<Planned> := [];
    var cursor: nat := 0;
    ghost var whole := PlanFrom(lines, chunks, 0);
    assert chunks[0..] == chunks && (whole.Ok? ==> [] + whole.value == whole.value);
    for i := 0 to |chunks|
      invariant whole == Append(plan, PlanFrom(lines, chunks[i..], cursor))
    {
      assert chunks[i..][0] == chunks[i] && chunks[i..][1..] == chunks[i + 1..];
      var next := PlanChunk(lines, chunks[i], cursor);
      if next.Err? {
        return Err(next.error);
      }
      AppendTwice(plan, [next.value.0], PlanFrom(lines, chunks[i + 1..], next.value.1));
      plan, cursor := plan + [next.value.0], next.value.1;
    }
    assert plan + [] == plan;
    return Ok(StableSort(Edits(plan)));
  }

  // ---------- what the planned edits look like ----------

  predicate InBounds(edits: seq<Edit>, n: nat) {
    forall i :: 0 <= i < |edits| ==> edits[i].End() <= n
  }

  predicate SortedByStart(edits: seq<Edit>) {
    edits == [] || ((forall y :: y in edits[1..] ==> edits[0].start <= y.start) && SortedByStart(edits[1..]))
  }

  /** Each edit ends before all later ones begin. */
  predicate Disjoint(edits: seq<Edit>) {
    edits == [] || ((forall y :: y in edits[1..] ==> edits[0].End() <= y.start) && Disjoint(edits[1..]))
  }

  /** Two edits, `x` planned first, do not interfere once sorted by start. */
  predicate Apart(x: Edit, y: Edit) {
    if x.start <= y.start then x.End() <= y.start else y.End() <= x.start
  }

  lemma {:induction false} InsertKeeps(e: Edit, sorted: seq<Edit>)
    requires SortedByStart(sorted)
    ensures SortedByStart(Insert(ByStart(), e, sorted))
    ensures Disjoint(Insert(ByStart(), e, sorted)) <==> Disjoint(sorted) && forall y :: y in sorted ==> Apart(e, y)
  {
    if sorted == [] {
    } else if e.start <= sorted[0].start {
      assert ([e] + sorted)[1..] == sorted;
      assert sorted == [sorted[0]] + sorted[1..];
    } else {
      var head, tail := sorted[0], sorted[1..];
      var r := Insert(ByStart(), e, tail);
      InsertKeeps(e, tail);
      InsertMembers(ByStart(), e, tail);
      assert ([head] + r)[1..] == r;
      assert sorted == [head] + tail;
      assert Apart(e, head) <==> head.End() <= e.start;
    }
  }

  predicate PairwiseApart(edits: seq<Edit>) {
    forall i, j :: 0 <= i < j < |edits| ==> Apart(edits[i], edits[j])
  }

  /** The sorted list is disjoint exactly when the planned edits are pairwise apart. */
  lemma {:induction false} SortCorrect(edits: seq<Edit>)
    ensures SortedByStart(StableSort(edits))
    ensures Disjoint(StableSort(edits)) <==> PairwiseApart(edits)
  {
    if edits != [] {
      SortCorrect(edits[1..]);
      InsertKeeps(edits[0], StableSort(edits[1..]));
      SortSameMembers(ByStart(), edits[1..]);
      PairsSplit(edits);
    }
  }

  lemma PairsSplit(edits: seq<Edit>)
    requires edits != []
    ensures PairwiseApart(edits) <==> (forall y :: y in edits[1..] ==> Apart(edits[0], y)) && PairwiseApart(edits[1..])
  {
    var rest := edits[1..];
    assert forall i :: 0 <= i < |rest| ==> rest[i] == edits[i + 1];
    if (forall y :: y in rest ==> Apart(edits[0], y)) && PairwiseApart(rest) {
      forall i, j | 0 <= i < j < |edits|
        ensures Apart(edits[i], edits[j])
      {
        assert edits[j] == rest[j - 1];
        if i > 0 {
          assert edits[i] == rest[i - 1];
        }
      }
    }
  }
}
