/** The condition under which previews are truthful is exact: every other pattern of paths misleads some preview. */
module PatchPreviewExact {
  import opened Prelude
  import opened Replacements
  import opened PatchParser
  import opened PatchApply
  import opened PatchPreview
  import opened PatchPreviewTexts

  // ---------- patches of one shape ----------

  /** What remains of a hunk when its contents and chunks are forgotten. */
  function Shape(h: Hunk): Hunk {
    match h
    case AddFile(path, _) => AddFile(path, "")
    case DeleteFile(path) => DeleteFile(path)
    case UpdateFile(path, move, _) => UpdateFile(path, move, [])
  }

  predicate SameShape(a: seq<Hunk>, b: seq<Hunk>) {
    |a| == |b| && forall i :: 0 <= i < |a| ==> Shape(a[i]) == Shape(b[i])
  }

  lemma ShapeKeeps(a: Hunk, b: Hunk)
    requires Shape(a) == Shape(b)
    ensures Names(a) == Names(b) && a.path == b.path && (SelfMove(a) <==> SelfMove(b)) && (Reads(a) <==> Reads(b))
    ensures forall p, st :: Next(st, a, p) == Next(st, b, p)
    ensures forall st :: ReadOk(st, a) <==> ReadOk(st, b)
  {
  }

  lemma {:induction false} ShapeReads(a: seq<Hunk>, b: seq<Hunk>)
    requires SameShape(a, b)
    ensures ReadsOk(a) <==> ReadsOk(b)
    ensures forall p :: StateOf(a, p) == StateOf(b, p)
    ensures Touched(a) == Touched(b)
  {
    if a != [] {
      var n := |a| - 1;
      ShapeReads(a[..n], b[..n]);
      ShapeKeeps(a[n], b[n]);
    }
  }

  lemma ShapeFinal(a: seq<Hunk>, b: seq<Hunk>, i: nat)
    requires SameShape(a, b) && Final(a, i)
    ensures Final(b, i) && Names(a[i]) == Names(b[i]) && (Rests(a, i) ==> Rests(b, i))
  {
    forall j | 0 <= j < |a|
      ensures Names(a[j]) == Names(b[j]) && a[j].path == b[j].path && (SelfMove(a[j]) <==> SelfMove(b[j]))
    {
      ShapeKeeps(a[j], b[j]);
    }
  }

  lemma ShapeEnds(a: seq<Hunk>, b: seq<Hunk>)
    requires SameShape(a, b) && EndOk(a)
    ensures EndOk(b)
  {
    ShapeReads(a, b);
    forall i: nat | Final(b, i)
      ensures Rests(b, i)
    {
      ShapeFinal(b, a, i);
      ShapeFinal(a, b, i);
    }
    forall p | p in Touched(b)
      ensures NamedByFinal(b, p)
    {
      var i: nat :| Final(a, i) && p in Names(a[i]);
      ShapeFinal(a, b, i);
    }
  }

  // ---------- one patch and one stage for a shape ----------

  /** The patch of the same shape whose adds write one text and whose updates all use the same chunks. */
  function Dress(h: Hunk, text: string, chunks: seq<Chunk>): Hunk {
    match h
    case AddFile(path, _) => AddFile(path, text)
    case DeleteFile(path) => DeleteFile(path)
    case UpdateFile(path, move, _) => UpdateFile(path, move, chunks)
  }

  /** A patch whose adds and updates are all alike, for a given cast of texts. */
  ghost predicate Dressed(hunks: seq<Hunk>, c: Cast) {
    forall i :: 0 <= i < |hunks| ==>
      (hunks[i].AddFile? ==> hunks[i].contents == c.added) && (hunks[i].UpdateFile? ==> Swaps(c, hunks[i].chunks))
  }

  function DressAll(hunks: seq<Hunk>, text: string, chunks: seq<Chunk>): (r: seq<Hunk>)
    ensures |r| == |hunks| && forall i :: 0 <= i < |r| ==> r[i] == Dress(hunks[i], text, chunks)
  {
    if hunks == [] then [] else [Dress(hunks[0], text, chunks)] + DressAll(hunks[1..], text, chunks)
  }

  /** The paths the patch reads. */
  function Sources(hunks: seq<Hunk>): set<Path> {
    set i | 0 <= i < |hunks| && Reads(hunks[i]) :: hunks[i].path
  }

  /** The files the patch reads; one of them holds another text than the rest. */
  function Stage(hunks: seq<Hunk>, special: Path, c: Cast): Files {
    map p | p in Sources(hunks) :: if p == special then c.a else c.b
  }

  // ---------- the preview of such a patch ----------

  lemma {:induction false} PreviewNeedsAll(files: Files, hunks: seq<Hunk>)
    ensures Preview(files, hunks).Ok? <==> forall i :: 0 <= i < |hunks| ==> ChangeOf(files, hunks[i]).Ok?
  {
    if hunks != [] {
      PreviewNeedsAll(files, hunks[..|hunks| - 1]);
      assert forall i :: 0 <= i < |hunks| - 1 ==> hunks[..|hunks| - 1][i] == hunks[i];
    }
  }

  /** What the stage's files make of a hunk. */
  lemma StageChange(files: Files, h: Hunk, special: Path, c: Cast)
    requires Reads(h) ==> h.path in files && files[h.path] == if h.path == special then c.a else c.b
    requires (h.AddFile? ==> h.contents == c.added) && (h.UpdateFile? ==> Swaps(c, h.chunks))
    requires c.a != c.b
    ensures h.AddFile? ==> ChangeOf(files, h) == Ok(Added(c.added))
    ensures h.DeleteFile? ==> ChangeOf(files, h) == Ok(Deleted(files[h.path]))
    ensures h.UpdateFile? ==> ChangeOf(files, h) == Ok(Updated(h.movePath, if h.path == special then c.ax else c.bx))
  {
    assert Read(files, h.path);
  }

  lemma StagePreviews(hunks: seq<Hunk>, special: Path, c: Cast)
    requires Dressed(hunks, c) && c.a != c.b
    ensures Preview(Stage(hunks, special, c), hunks).Ok?
  {
    var files := Stage(hunks, special, c);
    forall i | 0 <= i < |hunks|
      ensures ChangeOf(files, hunks[i]).Ok?
    {
      StageChange(files, hunks[i], special, c);
    }
    PreviewNeedsAll(files, hunks);
  }

  // ---------- a bad read misleads ----------

  lemma {:induction false} FirstBadRead(hunks: seq<Hunk>) returns (k: nat)
    requires !ReadsOk(hunks)
    ensures k < |hunks| && ReadsOk(hunks[..k]) && !ReadOk(StateOf(hunks[..k], hunks[k].path), hunks[k])
  {
    var init := hunks[..|hunks| - 1];
    if ReadsOk(init) {
      k := |hunks| - 1;
    } else {
      k := FirstBadRead(init);
      assert init[..k] == hunks[..k];
    }
  }

  lemma {:induction false} ErrorStays(files: Files, hunks: seq<Hunk>, k: nat)
    requires k < |hunks| && ApplyAll(files, hunks).Ok?
    ensures ApplyAll(files, hunks[..k]).Ok? && ApplyHunk(ApplyAll(files, hunks[..k]).value, hunks[k]).Ok?
  {
    var init := hunks[..|hunks| - 1];
    if k < |hunks| - 1 {
      ErrorStays(files, init, k);
      assert init[..k] == hunks[..k];
    }
  }

  lemma {:induction false} FreshIsUnnamed(hunks: seq<Hunk>, p: Path)
    requires StateOf(hunks, p).Fresh?
    ensures p !in Touched(hunks)
  {
    if hunks != [] {
      FreshIsUnnamed(hunks[..|hunks| - 1], p);
    }
  }

  /** What a touched path holds after hunks that read well: never an original text. */
  lemma TouchedText(files: Files, hunks: seq<Hunk>, special: Path, c: Cast, p: Path)
    requires Dressed(hunks, c) && c.a != c.b && ReadsOk(hunks) && ApplyAll(files, hunks).Ok?
    requires !StateOf(hunks, p).Fresh?
    requires forall q :: q in Sources(hunks) ==> q in files && files[q] == if q == special then c.a else c.b
    ensures var now := ApplyAll(files, hunks).value;
            p in now ==> now[p] == c.ax || now[p] == c.bx || now[p] == c.added
  {
    if p !in Touched(hunks) {
      UnnamedIsFresh(hunks, p);
    }
    var i := LastTouchOf(hunks, p);
    EndEffect(files, hunks, i, p);
    StageChange(files, hunks[i], special, c);
  }

  lemma SourcesPrefix(hunks: seq<Hunk>, k: nat)
    requires k <= |hunks|
    ensures Sources(hunks[..k]) <= Sources(hunks)
  {
    forall p | p in Sources(hunks[..k])
      ensures p in Sources(hunks)
    {
      var i :| 0 <= i < k && Reads(hunks[..k][i]) && hunks[..k][i].path == p;
      assert hunks[i] == hunks[..k][i];
    }
  }

  /** On the stage, a bad read that is no delete of a path written but not read before makes application fail. */
  lemma BadReadFails(hunks: seq<Hunk>, special: Path, c: Cast, k: nat)
    requires Dressed(hunks, c) && c.a != c.b && k < |hunks| && ReadsOk(hunks[..k])
    requires var st := StateOf(hunks[..k], hunks[k].path);
             !ReadOk(st, hunks[k]) && (hunks[k].DeleteFile? ==> st != Unknown(true))
    ensures ApplyAll(Stage(hunks, special, c), hunks).Err?
  {
    var files, init, h := Stage(hunks, special, c), hunks[..k], hunks[k];
    if ApplyAll(files, hunks).Ok? {
      ErrorStays(files, hunks, k);
      OutcomesAgree(files, init);
      var now := ApplyAll(files, init).value;
      assert Consistent(files, now, h.path, StateOf(init, h.path));
      if h.UpdateFile? {
        SourcesPrefix(hunks, k);
        TouchedText(files, init, special, c, h.path);
        assert Read(now, h.path);
      }
      assert false;
    }
  }

  lemma {:induction false} TouchedPrefix(hunks: seq<Hunk>, k: nat)
    requires k <= |hunks|
    ensures Touched(hunks[..k]) <= Touched(hunks)
  {
    if k < |hunks| {
      TouchedPrefix(hunks[..|hunks| - 1], k);
      assert hunks[..|hunks| - 1][..k] == hunks[..k];
    } else {
      assert hunks[..k] == hunks;
    }
  }

  /** Every hunk that reads the path comes after one that names it. */
  ghost predicate ReadAfterTouch(hunks: seq<Hunk>, p: Path) {
    forall i :: 0 <= i < |hunks| && Reads(hunks[i]) && hunks[i].path == p ==> p in Touched(hunks[..i])
  }

  lemma {:induction false} UnknownIsUnread(hunks: seq<Hunk>, p: Path)
    requires StateOf(hunks, p).Unknown?
    ensures ReadAfterTouch(hunks, p) && p in Touched(hunks)
  {
    var init, last := hunks[..|hunks| - 1], hunks[|hunks| - 1];
    if StateOf(init, p).Fresh? {
      FreshIsUnnamed(init, p);
      forall i | 0 <= i < |hunks| && Reads(hunks[i]) && hunks[i].path == p
        ensures false
      {
        if i < |init| {
          assert init[i] == hunks[i];
          NamedPrefix(init, i);
          TouchedPrefix(init, i + 1);
        }
      }
    } else {
      UnknownIsUnread(init, p);
      forall i | 0 <= i < |hunks| && Reads(hunks[i]) && hunks[i].path == p
        ensures p in Touched(hunks[..i])
      {
        if i < |init| {
          assert init[..i] == hunks[..i];
        }
      }
    }
  }

  lemma NamedPrefix(hunks: seq<Hunk>, i: nat)
    requires i < |hunks|
    ensures Names(hunks[i]) <= Touched(hunks[..i + 1])
  {
    assert hunks[..i + 1][i] == hunks[i];
  }

  lemma ReadAfterTouchGrows(hunks: seq<Hunk>, k: nat, p: Path)
    requires k <= |hunks| && ReadAfterTouch(hunks[..k], p) && p in Touched(hunks[..k])
    ensures ReadAfterTouch(hunks, p)
  {
    forall i | 0 <= i < |hunks| && Reads(hunks[i]) && hunks[i].path == p
      ensures p in Touched(hunks[..i])
    {
      if i < k {
        assert hunks[..k][i] == hunks[i] && hunks[..k][..i] == hunks[..i];
      } else {
        TouchedPrefix(hunks[..i], k);
        assert hunks[..i][..k] == hunks[..k];
      }
    }
  }

  ghost predicate EqualBut(x: Files, y: Files, p: Path) { forall q :: q != p ==> SameAt(x, y, q) }

  lemma StepSameAt(x: Files, y: Files, h: Hunk, q: Path)
    requires ApplyHunk(x, h).Ok? && ApplyHunk(y, h).Ok? && (SameAt(x, y, q) || q in Names(h))
    requires h.UpdateFile? ==> Rewritten(x, h.path, h.chunks) == Rewritten(y, h.path, h.chunks)
    ensures SameAt(ApplyHunk(x, h).value, ApplyHunk(y, h).value, q)
  {
    if q !in Names(h) {
      HunkLeavesOthers(x, h, q);
      HunkLeavesOthers(y, h, q);
    }
  }

  /** Files that are equal but perhaps at one path stay so, and become equal there once that path is written. */
  lemma StepSame(x: Files, y: Files, h: Hunk, p: Path)
    requires EqualBut(x, y, p) && (Reads(h) && h.path == p ==> SameAt(x, y, p)) && ApplyHunk(x, h).Ok?
    ensures ApplyHunk(y, h).Ok? && EqualBut(ApplyHunk(x, h).value, ApplyHunk(y, h).value, p)
    ensures SameAt(x, y, p) || p in Names(h) ==> SameAt(ApplyHunk(x, h).value, ApplyHunk(y, h).value, p)
  {
    if Reads(h) {
      assert SameAt(x, y, h.path);
      if h.UpdateFile? {
        SameRewrite(x, y, h.path, h.chunks);
      }
    }
    forall q | q != p || SameAt(x, y, p) || p in Names(h)
      ensures SameAt(ApplyHunk(x, h).value, ApplyHunk(y, h).value, q)
    {
      StepSameAt(x, y, h, q);
    }
  }

  lemma {:induction false} SameRun(x: Files, y: Files, hunks: seq<Hunk>, p: Path)
    requires EqualBut(x, y, p) && ReadAfterTouch(hunks, p) && ApplyAll(x, hunks).Ok?
    ensures ApplyAll(y, hunks).Ok? && EqualBut(ApplyAll(x, hunks).value, ApplyAll(y, hunks).value, p)
    ensures p in Touched(hunks) ==> SameAt(ApplyAll(x, hunks).value, ApplyAll(y, hunks).value, p)
  {
    if hunks != [] {
      var init, last := hunks[..|hunks| - 1], hunks[|hunks| - 1];
      assert ReadAfterTouch(init, p) by {
        assert forall i :: 0 <= i < |init| ==> init[i] == hunks[i] && init[..i] == hunks[..i];
      }
      SameRun(x, y, init, p);
      StepSame(ApplyAll(x, init).value, ApplyAll(y, init).value, last, p);
    }
  }

  /**
   * Deleting a path that was written but never read: without the original, the preview fails and application does
   * not.
   */
  lemma UnreadDeleteMisleads(hunks: seq<Hunk>, special: Path, c: Cast, k: nat)
    requires Dressed(hunks, c) && k < |hunks| && hunks[k].DeleteFile?
    requires StateOf(hunks[..k], hunks[k].path) == Unknown(true)
    requires ApplyAll(Stage(hunks, special, c), hunks).Ok?
    ensures !Agree(Stage(hunks, special, c) - {hunks[k].path}, hunks)
  {
    var files, p := Stage(hunks, special, c), hunks[k].path;
    UnknownIsUnread(hunks[..k], p);
    ReadAfterTouchGrows(hunks, k, p);
    SameRun(files, files - {p}, hunks, p);
    assert ChangeOf(files - {p}, hunks[k]).Err?;
    PreviewNeedsAll(files - {p}, hunks);
  }

  lemma BadReadMisleads(hunks: seq<Hunk>, c: Cast) returns (files: Files)
    requires Dressed(hunks, c) && c.a != c.b && !ReadsOk(hunks)
    ensures !Agree(files, hunks)
  {
    var k := FirstBadRead(hunks);
    var path := hunks[k].path;
    files := Stage(hunks, path, c);
    StagePreviews(hunks, path, c);
    if hunks[k].DeleteFile? && StateOf(hunks[..k], path) == Unknown(true) {
      if ApplyAll(files, hunks).Ok? {
        UnreadDeleteMisleads(hunks, path, c, k);
        files := files - {path};
      }
    } else {
      BadReadFails(hunks, path, c, k);
    }
  }

  // ---------- a bad end misleads ----------

  /** A hunk of another path leaves no text of the special one, and a moved text where it moves. */
  lemma OtherEffect(files: Files, h: Hunk, special: Path, c: Cast, p: Path)
    requires Reads(h) ==> h.path in files && files[h.path] == if h.path == special then c.a else c.b
    requires (h.AddFile? ==> h.contents == c.added) && (h.UpdateFile? ==> Swaps(c, h.chunks))
    requires Differ(c) && h.path != special && p in Names(h)
    ensures Effect(files, h, p) != Some(c.ax)
    ensures p != h.path ==> Effect(files, h, p) == Some(c.bx)
  {
    StageChange(files, h, special, c);
  }

  /** What the preview keeps of the special path's hunk is not what a later hunk leaves behind. */
  lemma NotAnnounced(files: Files, h: Hunk, later: Hunk, change: Change, after: Files, c: Cast, p: Path)
    requires Differ(c) && !SelfMove(h) && p in Names(h) && p in Names(later) && later.path != h.path
    requires Look(after, p) == Effect(files, later, p) && Effect(files, later, p) != Some(c.ax)
    requires p != later.path ==> Effect(files, later, p) == Some(c.bx)
    requires h.AddFile? ==> change == Added(c.added)
    requires h.DeleteFile? ==> change.Deleted?
    requires h.UpdateFile? ==> change == Updated(h.movePath, c.ax)
    ensures !Announced(change, after, h.path)
  {
  }

  lemma AnnouncedOne(files: Files, changes: map<Path, Change>, after: Files, p: Path)
    requires Announces(files, changes, after) && p in changes
    ensures Announced(changes[p], after, p)
  {
  }

  /** A final hunk that does not rest announces what is not there. */
  lemma UnrestMisleads(hunks: seq<Hunk>, c: Cast, i: nat)
    requires Dressed(hunks, c) && Differ(c) && ReadsOk(hunks) && Final(hunks, i) && !Rests(hunks, i)
    ensures !Agree(Stage(hunks, hunks[i].path, c), hunks)
  {
    var h := hunks[i];
    var files := Stage(hunks, h.path, c);
    StagePreviews(hunks, h.path, c);
    OutcomesAgree(files, hunks);
    PreviewFinal(files, hunks, i);
    StageChange(files, h, h.path, c);
    var changes, after := Preview(files, hunks).value, ApplyAll(files, hunks).value;
    if !SelfMove(h) {
      var p :| p in Names(h) && !LastTouch(hunks, i, p);
      var j := LaterTouch(hunks, i, p);
      EndEffect(files, hunks, j, p);
      OtherEffect(files, hunks[j], h.path, c, p);
      NotAnnounced(files, h, hunks[j], changes[h.path], after, c, p);
    }
    if Announces(files, changes, after) {
      AnnouncedOne(files, changes, after, h.path);
    }
  }

  lemma LaterTouch(hunks: seq<Hunk>, i: nat, p: Path) returns (j: nat)
    requires i < |hunks| && p in Names(hunks[i]) && !LastTouch(hunks, i, p)
    ensures i < j && LastTouch(hunks, j, p)
  {
    NamedPrefix(hunks, i);
    TouchedPrefix(hunks, i + 1);
    j := LastTouchOf(hunks, p);
  }

  /** A path that only moves of no final hunk have written is changed without being announced. */
  lemma ForgottenMisleads(hunks: seq<Hunk>, special: Path, c: Cast, p: Path)
    requires Dressed(hunks, c) && Differ(c) && ReadsOk(hunks) && p in Touched(hunks) && !NamedByFinal(hunks, p)
    ensures !Agree(Stage(hunks, special, c), hunks)
  {
    var files := Stage(hunks, special, c);
    StagePreviews(hunks, special, c);
    OutcomesAgree(files, hunks);
    var changes, after := Preview(files, hunks).value, ApplyAll(files, hunks).value;
    NoHunkWithPath(hunks, p);
    var j := LastTouchOf(hunks, p);
    EndEffect(files, hunks, j, p);
    StageChange(files, hunks[j], special, c);
    NotInPreview(files, hunks, p);
    assert !SameAt(files, after, p);
  }

  lemma NoHunkWithPath(hunks: seq<Hunk>, p: Path)
    requires !NamedByFinal(hunks, p)
    ensures forall k :: 0 <= k < |hunks| ==> hunks[k].path != p
    ensures p !in Sources(hunks)
  {
    forall k | 0 <= k < |hunks|
      ensures hunks[k].path != p
    {
      var i := FinalWithPath(hunks, k);
    }
  }

  lemma NotInPreview(files: Files, hunks: seq<Hunk>, p: Path)
    requires Preview(files, hunks).Ok? && !NamedByFinal(hunks, p)
    ensures p !in Preview(files, hunks).value && !IsMoveTarget(Preview(files, hunks).value, p)
  {
    var changes := Preview(files, hunks).value;
    if p in changes {
      var i := FinalOf(files, hunks, p);
    }
    if IsMoveTarget(changes, p) {
      var q :| q in changes && changes[q].Updated? && changes[q].move == Some(p);
      var i := FinalOf(files, hunks, q);
      PreviewFinal(files, hunks, i);
    }
  }

  lemma BadEndMisleads(hunks: seq<Hunk>, c: Cast) returns (files: Files)
    requires Dressed(hunks, c) && Differ(c) && ReadsOk(hunks) && !EndOk(hunks)
    ensures !Agree(files, hunks)
  {
    if i: nat :| Final(hunks, i) && !Rests(hunks, i) {
      UnrestMisleads(hunks, c, i);
      files := Stage(hunks, hunks[i].path, c);
    } else {
      var p :| p in Touched(hunks) && !NamedByFinal(hunks, p);
      ForgottenMisleads(hunks, p, c, p);
      files := Stage(hunks, p, c);
    }
  }

  // ---------- the exact condition ----------

  /** Whatever a patch of this shape contains and whatever the files hold, its preview tells the truth. */
  ghost predicate AlwaysAgrees(hunks: seq<Hunk>) {
    forall files, other :: SameShape(hunks, other) ==> Agree(files, other)
  }

  /**
   * The paths and kinds of the hunks decide: the previews of all patches of this shape are truthful, for all contents,
   * chunks and files, exactly when every hunk reads what the preview reads and the changes the preview keeps are the
   * last word on every touched path.
   */
  lemma TruthfulIff(hunks: seq<Hunk>)
    ensures AlwaysAgrees(hunks) <==> ReadsOk(hunks) && EndOk(hunks)
  {
    if ReadsOk(hunks) && EndOk(hunks) {
      forall files, other | SameShape(hunks, other)
        ensures Agree(files, other)
      {
        ShapeReads(hunks, other);
        ShapeEnds(hunks, other);
        PreviewAgrees(files, other);
      }
    } else {
      var c := SomeCast();
      var other := DressAll(hunks, c.added, SWAP);
      assert SameShape(hunks, other) && SameShape(other, hunks);
      ShapeReads(hunks, other);
      if ReadsOk(other) {
        if EndOk(other) {
          ShapeEnds(other, hunks);
        }
        var files := BadEndMisleads(other, c);
      } else {
        var files := BadReadMisleads(other, c);
      }
    }
  }

  // ---------- instances ----------

  /** Deleting a file the same patch adds applies to an empty directory, but does not preview. */
  lemma AddThenDelete(path: Path, contents: string)
    ensures var hunks := [AddFile(path, contents), DeleteFile(path)];
            ApplyAll(map[], hunks) == Ok(map[]) && Preview(map[], hunks) == Err(NotFound(path)) && !ReadsOk(hunks)
  {
    var a, d := AddFile(path, contents), DeleteFile(path);
    assert [a, d][..1] == [a] && [a][..0] == [];
    assert ApplyAll(map[], [a]) == Ok(map[path := contents]);
    assert Preview(map[], [a]).Ok?;
    assert map[path := contents] - {path} == map[];
    if ReadsOk([a, d]) {
      OutcomesAgree(map[], [a, d]);
    }
  }

  /** A later add makes good even a move onto the same path: the patch as a whole previews truthfully. */
  lemma SelfMoveThenAdd(files: Files, path: Path, chunks: seq<Chunk>, contents: string)
    ensures var hunks := [UpdateFile(path, Some(path), chunks), AddFile(path, contents)];
            Agree(files, hunks) && !EndOk(hunks[..1])
  {
    var u, a := UpdateFile(path, Some(path), chunks), AddFile(path, contents);
    var hunks := [u, a];
    assert hunks[..1] == [u] && [u][..0] == [];
    assert ReadsOk([u]) && ReadsOk(hunks);
    assert Names(u) == {path} && Names(a) == {path};
    assert Touched([u]) == Touched([]) + Names(u);
    assert Touched(hunks) == Touched(hunks[..1]) + Names(a) == {path};
    assert Final(hunks, 1) && !Final(hunks, 0);
    PreviewAgrees(files, hunks);
    assert Final([u], 0) && !Rests([u], 0);
  }
}
