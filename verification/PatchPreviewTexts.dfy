/** Texts and an update that show where a preview and an application part. */
module PatchPreviewTexts {
  import opened Prelude
  import opened Text
  import opened SeekSequence
  import opened Sorting
  import opened Replacements
  import opened EditSafety
  import opened FileUpdate
  import opened PatchParser
  import opened PatchApply

  // ---------- an update that works once ----------

  /** Replaces a line `a` by a line `x`. */
  const SWAP := [Chunk(None, ["a"], ["x"], false)]

  lemma NormaliseTrimmed(s: string)
    requires Trim(s) == s
    ensures |Normalise(s)| == |s| && forall i :: 0 <= i < |s| ==> Normalise(s)[i] == NormaliseChar(s[i])
  {
  }

  lemma NormaliseOne(ch: char)
    requires !IsWhitespace(ch)
    ensures Normalise([ch]) == [NormaliseChar(ch)]
  {
    TrimTrimmed([ch]);
    NormaliseTrimmed([ch]);
  }

  lemma SwapFound(y: string)
    ensures Locate(["a", y], SWAP[0], 0) == Ok(At(0, ["a"], ["x"], false))
  {
    assert StripAll(["a"]) == ["a"] && StripAll(["x"]) == ["x"];
    assert MatchesBy(View(Exact), ["a", y], ["a"], 0);
    assert FirstMatch(View(Exact), ["a", y], ["a"], 0) == Some(0);
  }

  lemma SwapPlan(y: string)
    ensures Compute(["a", y], SWAP) == Ok([Edit(0, 1, ["x"])])
  {
    var p := At(0, ["a"], ["x"], false);
    SwapFound(y);
    assert SWAP[1..] == [] && [p] + [] == [p];
    assert PlanFrom(["a", y], SWAP, 0) == Ok([p]);
    assert Edits([p]) == [p.edit];
    SortOne(ByStart(), p.edit);
  }

  lemma SwapApplied(y: string)
    ensures Applicable(["a", y], [Edit(0, 1, ["x"])]) && ApplyBackwards(["a", y], [Edit(0, 1, ["x"])]) == ["x", y]
  {
    var e := Edit(0, 1, ["x"]);
    assert [e][1..] == [];
    assert ["a", y][1..] == [y] && ["a", y][..0] == [];
  }

  lemma SwapHits(y: string)
    requires Plain(y) && y != []
    ensures NewContents(TextOf(["a", y]), SWAP) == Ok(TextOf(["x", y]))
  {
    assert PlainLines(["a", y]);
    OriginalOfText(["a", y]);
    SwapPlan(y);
    SwapApplied(y);
  }

  lemma MatchedLine(lines: seq<string>, p: nat)
    requires MatchesAt(Normalised, lines, ["a"], p)
    ensures p < |lines| && lines[p] in lines && Normalise(lines[p]) == Normalise("a")
  {
    assert View(Normalised)(lines[p + 0]) == View(Normalised)(["a"][0]);
  }

  lemma NotSought(lines: seq<string>)
    requires forall l :: l in lines ==> Normalise(l) != Normalise("a")
    ensures Seek(lines, ["a"], 0, false).None?
  {
    SeekIsLeftmostStrictest(lines, ["a"], 0, false);
    if Seek(lines, ["a"], 0, false).Some? {
      var p := Seek(lines, ["a"], 0, false).value;
      var level :| BestMatch(level, lines, ["a"], 0, p);
      MatchesWiden(level, Normalised, lines, ["a"], p);
      MatchedLine(lines, p);
      assert false;
    }
  }

  lemma SwapNotFound(lines: seq<string>)
    requires forall l :: l in lines ==> Normalise(l) != Normalise("a")
    ensures Locate(lines, SWAP[0], 0).Err?
  {
    assert StripAll(["a"]) == ["a"];
    NotSought(lines);
  }

  lemma SwapMisses(lines: seq<string>)
    requires PlainLines(lines) && lines != [] && forall l :: l in lines ==> Normalise(l) != Normalise("a")
    ensures NewContents(TextOf(lines), SWAP).Err?
  {
    OriginalOfText(lines);
    SwapNotFound(lines);
    assert PlanFrom(lines, SWAP, 0).Err?;
  }

  // ---------- the cast ----------

  /** Two original texts, what the update makes of them, and an added text. */
  datatype Cast = Cast(a: string, b: string, ax: string, bx: string, added: string)

  /** They differ where it matters. */
  predicate Differ(c: Cast) { c.a != c.b && c.ax != c.bx && c.ax != c.added && c.bx != c.added }

  /** Reading the path out of the files and updating it works on the originals and on nothing else. */
  predicate Reading(files: Files, path: Path, r: Result<string, ApplyError>, c: Cast) {
    if path !in files then r == Err(NotFound(path))
    else
      && (files[path] == c.a ==> r == Ok(c.ax)) && (files[path] == c.b ==> r == Ok(c.bx))
      && (files[path] == c.ax || files[path] == c.bx || files[path] == c.added ==> r.Err?)
  }

  /** Marks files an update is read from; what it makes of them is known only there. */
  ghost predicate Read(files: Files, path: Path) { true }

  ghost predicate Swaps(c: Cast, chunks: seq<Chunk>) {
    forall files, path {:trigger Read(files, path)} ::
      Read(files, path) ==> Reading(files, path, Rewritten(files, path, chunks), c)
  }

  lemma RewrittenIs(files: Files, path: Path, chunks: seq<Chunk>, r: Result<string, PlanError>)
    requires path in files && NewContents(files[path], chunks) == r
    ensures Rewritten(files, path, chunks) == if r.Ok? then Ok(r.value) else Err(CannotUpdate(path, r.error))
  {
  }

  lemma SwapsByText(c: Cast, chunks: seq<Chunk>)
    requires NewContents(c.a, chunks) == Ok(c.ax) && NewContents(c.b, chunks) == Ok(c.bx)
    requires NewContents(c.ax, chunks).Err? && NewContents(c.bx, chunks).Err? && NewContents(c.added, chunks).Err?
    ensures Swaps(c, chunks)
  {
    forall files, path
      ensures Reading(files, path, Rewritten(files, path, chunks), c)
    {
      if path in files {
        RewrittenIs(files, path, chunks, NewContents(files[path], chunks));
      }
    }
  }

  lemma Unlike(a: seq<string>, b: seq<string>)
    requires PlainLines(a) && PlainLines(b) && a != [] && b != []
    requires |a| != |b| || a[|a| - 1] != b[|b| - 1]
    ensures TextOf(a) != TextOf(b)
  {
    if TextOf(a) == TextOf(b) {
      TextOfInjective(a, b);
    }
  }

  lemma AsciiKept(ch: char)
    requires ch < '\U{0080}'
    ensures NormaliseChar(ch) == ch
  {
  }

  lemma OtherLine(ch: char)
    requires ' ' < ch < '\U{0080}' && ch != 'a'
    ensures Normalise([ch]) != Normalise("a")
  {
    NormaliseOne('a');
    NormaliseOne(ch);
    AsciiKept('a');
    AsciiKept(ch);
  }

  lemma MissedSwapped(ch: char)
    requires ' ' < ch < '\U{0080}' && ch != 'a'
    ensures NewContents(TextOf(["x", [ch]]), SWAP).Err?
  {
    OtherLine('x');
    OtherLine(ch);
    SwapMisses(["x", [ch]]);
  }

  lemma MissedAdded()
    ensures NewContents(TextOf(["b"]), SWAP).Err?
  {
    OtherLine('b');
    SwapMisses(["b"]);
  }

  lemma SomeCast() returns (c: Cast)
    ensures Differ(c) && Swaps(c, SWAP)
  {
    var a, b, ax, bx, added := ["a", "1"], ["a", "2"], ["x", "1"], ["x", "2"], ["b"];
    assert PlainLines(a) && PlainLines(b) && PlainLines(ax) && PlainLines(bx) && PlainLines(added);
    SwapHits("1");
    SwapHits("2");
    MissedSwapped('1');
    MissedSwapped('2');
    MissedAdded();
    Unlike(a, b);
    Unlike(ax, bx);
    Unlike(ax, added);
    Unlike(bx, added);
    c := Cast(TextOf(a), TextOf(b), TextOf(ax), TextOf(bx), TextOf(added));
    SwapsByText(c, SWAP);
  }
}
