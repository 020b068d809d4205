/** Rewriting the text of one file (`derive_new_contents_from_chunks`) and its line endings. */
module FileUpdate {
  import opened Prelude
  import opened Text
  import opened Sorting
  import opened Replacements
  import opened EditSafety

  const CRLF := "\r\n"

  /** `LineEnding::detect`. */
  predicate HasCrLf(text: string) {
    exists i :: 0 <= i < |text| - 1 && text[i] == '\r' && text[i + 1] == '\n'
  }

  function Joiner(text: string): string { if HasCrLf(text) then CRLF else "\n" }

  function OriginalLines(text: string): seq<string> {
    var lines := StripAll(Split(text, '\n'));
    if EndsBlank(lines) then DropLast(lines) else lines
  }

  /** The rewritten file always ends in a line terminator. */
  function Finish(lines: seq<string>): (r: seq<string>)
    ensures EndsBlank(r)
  {
    if EndsBlank(lines) then lines else lines + [""]
  }

  function NewLines(text: string, chunks: seq<Chunk>): Result<seq<string>, PlanError> {
    var lines := OriginalLines(text);
    match Compute(lines, chunks)
    case Err(e) => Err(e)
    case Ok(edits) =>
      ComputedIsApplicable(lines, chunks);
      Ok(Finish(ApplyBackwards(lines, edits)))
  }

  function NewContents(text: string, chunks: seq<Chunk>): Result<string, PlanError> {
    match NewLines(text, chunks)
    case Err(e) => Err(e)
    case Ok(lines) => Ok(Join(lines, Joiner(text)))
  }

  method DeriveNewContents(text: string, chunks: seq<Chunk>) returns (r: Result<string, PlanError>)
    ensures r == NewContents(text, chunks)
  {
    var lines := OriginalLines(text);
    var edits := ComputeReplacements(lines, chunks);
    if edits.Err? {
      return Err(edits.error);
    }
    ComputedIsApplicable(lines, chunks);
    var applied := ApplyReplacements(lines, edits.value);
    return Ok(Join(Finish(applied), Joiner(text)));
  }

  // ---------- no line holds a line feed ----------

  predicate AllFree(lines: seq<string>) { forall l :: l in lines ==> Free(l, '\n') }

  /** Chunks come from a parser that splits at line feeds. */
  predicate ChunksFree(chunks: seq<Chunk>) { forall c :: c in chunks ==> AllFree(c.newLines) }

  lemma StripFree(lines: seq<string>)
    requires AllFree(lines)
    ensures AllFree(StripAll(lines))
  {
    forall l | l in StripAll(lines)
      ensures Free(l, '\n')
    {
      var i :| 0 <= i < |lines| && StripCr(lines[i]) == l;
      assert lines[i] in lines;
    }
  }

  lemma OriginalFree(text: string)
    ensures AllFree(OriginalLines(text))
  {
    SplitPiecesFree(text, '\n');
    StripFree(Split(text, '\n'));
  }

  lemma PlanOneFree(lines: seq<string>, chunk: Chunk, cursor: nat)
    requires AllFree(chunk.newLines) && PlanOne(lines, chunk, cursor).Ok?
    ensures AllFree(PlanOne(lines, chunk, cursor).value.0.edit.newLines)
  {
    StripFree(chunk.newLines);
  }

  lemma {:induction false} PlanFree(lines: seq<string>, chunks: seq<Chunk>, cursor: nat)
    requires ChunksFree(chunks) && PlanFrom(lines, chunks, cursor).Ok?
    ensures forall p :: p in PlanFrom(lines, chunks, cursor).value ==> AllFree(p.edit.newLines)
    decreases |chunks|
  {
    if chunks != [] {
      assert chunks[0] in chunks && forall c :: c in chunks[1..] ==> c in chunks;
      PlanOneFree(lines, chunks[0], cursor);
      PlanFree(lines, chunks[1..], PlanOne(lines, chunks[0], cursor).value.1);
    }
  }

  lemma {:induction false} ApplyFree(lines: seq<string>, edits: seq<Edit>)
    requires Applicable(lines, edits) && AllFree(lines) && forall e :: e in edits ==> AllFree(e.newLines)
    ensures AllFree(ApplyBackwards(lines, edits))
  {
    if edits != [] {
      assert edits[0] in edits;
      assert forall e :: e in edits[1..] ==> e in edits;
      ApplyFree(lines, edits[1..]);
    }
  }

  lemma NewLinesFree(text: string, chunks: seq<Chunk>)
    requires ChunksFree(chunks) && NewLines(text, chunks).Ok?
    ensures AllFree(NewLines(text, chunks).value)
  {
    var lines := OriginalLines(text);
    var plan := PlanFrom(lines, chunks, 0).value;
    var edits := Compute(lines, chunks).value;
    OriginalFree(text);
    PlanFree(lines, chunks, 0);
    SortSameMembers(ByStart(), Edits(plan));
    forall e | e in edits
      ensures AllFree(e.newLines)
    {
      var i :| 0 <= i < |plan| && Edits(plan)[i] == e;
      assert plan[i] in plan;
    }
    ComputedIsApplicable(lines, chunks);
    ApplyFree(lines, edits);
  }

  // ---------- line endings ----------

  /** Every line but the last, with the carriage return that ends it. */
  function WithCr(lines: seq<string>): seq<string> {
    if |lines| <= 1 then lines else [lines[0] + "\r"] + WithCr(lines[1..])
  }

  lemma {:induction false} SplitJoinCrLf(lines: seq<string>)
    requires lines != [] && AllFree(lines)
    ensures Split(Join(lines, CRLF), '\n') == WithCr(lines)
  {
    if |lines| == 1 {
      SplitOfFree(lines[0], '\n');
    } else {
      var rest := Join(lines[1..], CRLF);
      assert lines[0] in lines && forall l :: l in lines[1..] ==> l in lines;
      assert Join(lines, CRLF) == (lines[0] + "\r") + ['\n'] + rest;
      SplitHead(lines[0] + "\r", '\n', rest);
      SplitJoinCrLf(lines[1..]);
    }
  }

  lemma {:induction false} StripWithCr(lines: seq<string>)
    requires EndsBlank(lines)
    ensures StripAll(WithCr(lines)) == lines
  {
    if |lines| > 1 {
      StripWithCr(lines[1..]);
      assert StripCr(lines[0] + "\r") == lines[0];
      assert StripAll(WithCr(lines)) == [lines[0]] + StripAll(WithCr(lines[1..]));
    }
  }

  predicate LfFollowsCr(text: string) {
    forall i :: 0 <= i < |text| && text[i] == '\n' ==> i > 0 && text[i - 1] == '\r'
  }

  predicate EndsCrLf(text: string) { |text| >= 2 && text[|text| - 2..] == CRLF }

  lemma {:induction false} JoinCrLfShape(lines: seq<string>)
    requires EndsBlank(lines) && AllFree(lines)
    ensures LfFollowsCr(Join(lines, CRLF))
    ensures |lines| == 1 ==> Join(lines, CRLF) == []
    ensures |lines| > 1 ==> EndsCrLf(Join(lines, CRLF))
  {
    if |lines| > 1 {
      var rest := Join(lines[1..], CRLF);
      var text := lines[0] + CRLF + rest;
      assert lines[0] in lines && forall l :: l in lines[1..] ==> l in lines;
      JoinCrLfShape(lines[1..]);
      forall i | 0 <= i < |text| && text[i] == '\n'
        ensures i > 0 && text[i - 1] == '\r'
      {
        var n := |lines[0]|;
        if i >= n + 2 {
          assert text[i] == rest[i - n - 2];
        }
      }
      if |lines| > 2 {
        assert text[|text| - 2..] == rest[|rest| - 2..];
      } else {
        assert text[|text| - 2..] == CRLF;
      }
    }
  }

  /**
   * A file with CRLF endings keeps them: every line feed of the rewritten text follows a carriage return, the text is
   * empty or ends in CRLF, and splitting it again yields exactly the planned lines.
   */
  lemma CrLfPreserved(text: string, chunks: seq<Chunk>)
    requires exists i :: 0 <= i < |text| - 1 && text[i] == '\r' && text[i + 1] == '\n'
    requires ChunksFree(chunks) && NewContents(text, chunks).Ok?
    ensures var r := NewContents(text, chunks).value;
            && LfFollowsCr(r)
            && (r == [] || EndsCrLf(r))
            && StripAll(Split(r, '\n')) == NewLines(text, chunks).value
  {
    var lines := NewLines(text, chunks).value;
    NewLinesFree(text, chunks);
    SplitJoinCrLf(lines);
    StripWithCr(lines);
    JoinCrLfShape(lines);
  }

  /** Any other file: the text is empty or ends in a line feed, and splitting it yields the planned lines. */
  lemma LfPreserved(text: string, chunks: seq<Chunk>)
    requires forall i :: 0 <= i < |text| - 1 && text[i] == '\r' ==> text[i + 1] != '\n'
    requires ChunksFree(chunks) && NewContents(text, chunks).Ok?
    ensures var r := NewContents(text, chunks).value;
            && Split(r, '\n') == NewLines(text, chunks).value
            && EndsBlank(Split(r, '\n'))
  {
    NewLinesFree(text, chunks);
    SplitJoin(NewLines(text, chunks).value, '\n');
  }

  // ---------- texts by their lines ----------

  /** A text with these lines, each terminated. */
  function TextOf(lines: seq<string>): string { Join(lines + [""], "\n") }

  predicate Plain(line: string) { Free(line, '\n') && Free(line, '\r') }

  ghost predicate PlainLines(lines: seq<string>) { forall l :: l in lines ==> Plain(l) }

  lemma TextOfInjective(a: seq<string>, b: seq<string>)
    requires PlainLines(a) && PlainLines(b) && TextOf(a) == TextOf(b)
    ensures a == b
  {
    SplitJoin(a + [""], '\n');
    SplitJoin(b + [""], '\n');
    assert a == (a + [""])[..|a|] && b == (b + [""])[..|b|];
  }

  lemma {:induction false} JoinFree(pieces: seq<string>, sep: string, c: char)
    requires Free(sep, c) && forall p :: p in pieces ==> Free(p, c)
    ensures Free(Join(pieces, sep), c)
  {
    if pieces != [] {
      assert pieces[0] in pieces && forall p :: p in pieces[1..] ==> p in pieces;
      JoinFree(pieces[1..], sep, c);
    }
  }

  lemma StripPlain(lines: seq<string>)
    requires PlainLines(lines)
    ensures StripAll(lines) == lines
  {
    forall i | 0 <= i < |lines|
      ensures StripCr(lines[i]) == lines[i]
    {
      assert lines[i] in lines;
    }
  }

  lemma OriginalOfText(lines: seq<string>)
    requires PlainLines(lines)
    ensures OriginalLines(TextOf(lines)) == lines && !HasCrLf(TextOf(lines))
  {
    SplitJoin(lines + [""], '\n');
    StripPlain(lines + [""]);
    assert DropLast(lines + [""]) == lines;
    JoinFree(lines + [""], "\n", '\r');
  }

  lemma OriginalOfCrLf(lines: seq<string>)
    requires PlainLines(lines) && lines != []
    ensures var text := Join(lines + [""], CRLF); OriginalLines(text) == lines && HasCrLf(text)
  {
    var all := lines + [""];
    assert AllFree(all);
    SplitJoinCrLf(all);
    StripWithCr(all);
    assert DropLast(all) == lines;
    JoinCrLfShape(all);
    var text := Join(all, CRLF);
    assert text[|text| - 2] == '\r' && text[(|text| - 2) + 1] == '\n';
  }

  lemma {:induction false} JoinEmptyLast(lines: seq<string>, sep: string)
    requires lines != []
    ensures Join(lines + [""], sep) == Join(lines, sep) + sep
    decreases |lines|
  {
    if |lines| == 1 {
      assert (lines + [""])[1..] == [""];
    } else {
      assert (lines + [""])[1..] == lines[1..] + [""];
      JoinEmptyLast(lines[1..], sep);
    }
  }

  lemma NoChunks(text: string)
    ensures NewContents(text, []) == Ok(Join(Finish(OriginalLines(text)), Joiner(text)))
  {
    var lines := OriginalLines(text);
    assert PlanFrom(lines, [], 0) == Ok([]);
    assert Edits([]) == [];
    assert Compute(lines, []) == Ok([]);
  }

  lemma UnchangedBy(lines: seq<string>, sep: string)
    requires lines != [] && sep != []
    requires var text := Join(lines + [""], sep); OriginalLines(text) == lines && Joiner(text) == sep
    ensures var text := Join(lines + [""], sep);
            && NewContents(text, []) == Ok(if lines[|lines| - 1] == "" then Join(lines, sep) else text)
            && (NewContents(text, []) == Ok(text) <==> lines[|lines| - 1] != "")
  {
    var text := Join(lines + [""], sep);
    NoChunks(text);
    JoinEmptyLast(lines, sep);
    assert |text| > |Join(lines, sep)|;
  }

  /**
   * A patch that changes nothing leaves a file of terminated lines as it is exactly when its last line is not empty;
   * an empty last line is lost, with either line ending.
   */
  lemma UnchangedIff(lines: seq<string>, crlf: bool)
    requires PlainLines(lines) && lines != []
    ensures var sep := if crlf then "\r\n" else "\n";
            var text := Join(lines + [""], sep);
            && NewContents(text, []) == Ok(if lines[|lines| - 1] == "" then Join(lines, sep) else text)
            && (NewContents(text, []) == Ok(text) <==> lines[|lines| - 1] != "")
  {
    if crlf {
      OriginalOfCrLf(lines);
      UnchangedBy(lines, "\r\n");
    } else {
      OriginalOfText(lines);
      UnchangedBy(lines, "\n");
    }
  }

  /** A file whose last line is not terminated gets it terminated. */
  lemma LastLineTerminated(lines: seq<string>)
    requires PlainLines(lines) && lines != [] && lines[|lines| - 1] != ""
    ensures NewContents(Join(lines, "\n"), []) == Ok(Join(lines, "\n") + "\n")
  {
    OriginalUnterminated(lines);
    NoChunks(Join(lines, "\n"));
    JoinEmptyLast(lines, "\n");
  }

  lemma OriginalUnterminated(lines: seq<string>)
    requires PlainLines(lines) && lines != [] && lines[|lines| - 1] != ""
    ensures var text := Join(lines, "\n"); OriginalLines(text) == lines && !HasCrLf(text)
  {
    SplitJoin(lines, '\n');
    StripPlain(lines);
    JoinFree(lines, "\n", '\r');
  }
}
