/** When the preview of a patch tells the truth about applying it. */
module PatchPreview {
  import opened Prelude
  import opened Replacements
  import opened FileUpdate
  import opened PatchParser
  import opened PatchApply

  // ---------- what the hunks read ----------

  /**
   * What the hunks so far say about a path: nothing; that it was there originally, having been read; or that it has
   * been written without having been read. The last two know whether it is there now.
   */
  datatype PathState = Fresh | Known(there: bool) | Unknown(there: bool)

  function Put(was: PathState): PathState { if was.Fresh? then Unknown(true) else was.(there := true) }

  function Removed(was: PathState): PathState { if was.Fresh? then Known(false) else was.(there := false) }

  function Rewrote(was: PathState): PathState { if was.Fresh? then Known(true) else was.(there := true) }

  function Next(was: PathState, h: Hunk, p: Path): PathState {
    if p !in Names(h) then was
    else
      match h
      case AddFile(_, _) => Put(was)
      case DeleteFile(_) => Removed(was)
      case UpdateFile(_, None, _) => Rewrote(was)
      case UpdateFile(path, Some(_), _) => if p == path then Removed(was) else Put(was)
  }

  function StateOf(hunks: seq<Hunk>, p: Path): PathState {
    if hunks == [] then Fresh else Next(StateOf(hunks[..|hunks| - 1], p), hunks[|hunks| - 1], p)
  }

  predicate Reads(h: Hunk) { !h.AddFile? }

  /** The hunk finds its path as the original files have it: as text for an update, as mere presence for a delete. */
  predicate ReadOk(st: PathState, h: Hunk) {
    match h
    case AddFile(_, _) => true
    case DeleteFile(_) => st.Fresh? || st == Known(true)
    case UpdateFile(_, _, _) => st.Fresh?
  }

  /** Every hunk reads what the preview reads. */
  predicate ReadsOk(hunks: seq<Hunk>) {
    hunks == []
    || (var init, last := hunks[..|hunks| - 1], hunks[|hunks| - 1];
        ReadsOk(init) && ReadOk(StateOf(init, last.path), last))
  }

  /** The original files and the files now, seen at one path. */
  predicate Consistent(files: Files, now: Files, p: Path, st: PathState) {
    match st
    case Fresh => SameAt(files, now, p)
    case Known(there) => p in files && (p in now <==> there)
    case Unknown(there) => p in now <==> there
  }

  lemma SameRewrite(files: Files, now: Files, path: Path, chunks: seq<Chunk>)
    requires SameAt(files, now, path)
    ensures Rewritten(files, path, chunks) == Rewritten(now, path, chunks)
  {
  }

  /** A hunk that reads well succeeds or fails alike on the original files and on the files now. */
  lemma StepOutcome(files: Files, now: Files, h: Hunk, st: PathState)
    requires Consistent(files, now, h.path, st) && ReadOk(st, h)
    ensures ChangeOf(files, h).Ok? <==> ApplyHunk(now, h).Ok?
    ensures ChangeOf(files, h).Err? ==> ChangeOf(files, h).error == ApplyHunk(now, h).error
  {
    if h.UpdateFile? {
      SameRewrite(files, now, h.path, h.chunks);
    }
  }

  lemma StepConsistent(files: Files, now: Files, h: Hunk, st: PathState, p: Path, was: PathState)
    requires Consistent(files, now, h.path, st) && ReadOk(st, h) && ApplyHunk(now, h).Ok?
    requires Consistent(files, now, p, was) && (p == h.path ==> was == st)
    ensures Consistent(files, ApplyHunk(now, h).value, p, Next(was, h, p))
  {
  }

  /** If every hunk reads well, preview and application succeed alike and fail alike. */
  lemma {:induction false} OutcomesAgree(files: Files, hunks: seq<Hunk>)
    requires ReadsOk(hunks)
    ensures Preview(files, hunks).Ok? <==> ApplyAll(files, hunks).Ok?
    ensures Preview(files, hunks).Err? ==> Preview(files, hunks).error == ApplyAll(files, hunks).error
    ensures ApplyAll(files, hunks).Ok? ==>
              forall p :: Consistent(files, ApplyAll(files, hunks).value, p, StateOf(hunks, p))
  {
    if hunks != [] {
      var init, last := hunks[..|hunks| - 1], hunks[|hunks| - 1];
      OutcomesAgree(files, init);
      if ApplyAll(files, init).Ok? {
        var now := ApplyAll(files, init).value;
        StepOutcome(files, now, last, StateOf(init, last.path));
        if ApplyHunk(now, last).Ok? {
          forall p
            ensures Consistent(files, ApplyHunk(now, last).value, p, StateOf(hunks, p))
          {
            StepConsistent(files, now, last, StateOf(init, last.path), p, StateOf(init, p));
          }
        }
      }
    }
  }

  // ---------- what the hunks leave behind ----------

  predicate LastTouch(hunks: seq<Hunk>, i: nat, p: Path) {
    i < |hunks| && p in Names(hunks[i]) && forall j :: i < j < |hunks| ==> p !in Names(hunks[j])
  }

  /** The last hunk with its path: the one whose change the preview keeps. */
  predicate Final(hunks: seq<Hunk>, i: nat) {
    i < |hunks| && forall j :: i < j < |hunks| ==> hunks[j].path != hunks[i].path
  }

  function Look(files: Files, p: Path): Option<string> { if p in files then Some(files[p]) else None }

  /** What a hunk that succeeds on `files` leaves at a path it names. */
  function Effect(files: Files, h: Hunk, p: Path): Option<string> {
    match ChangeOf(files, h)
    case Err(_) => None
    case Ok(Added(content)) => Some(content)
    case Ok(Deleted(_)) => None
    case Ok(Updated(None, text)) => Some(text)
    case Ok(Updated(Some(_), text)) => if p == h.path then None else Some(text)
  }

  lemma StepEffect(files: Files, now: Files, h: Hunk, st: PathState, p: Path)
    requires Consistent(files, now, h.path, st) && ReadOk(st, h) && ApplyHunk(now, h).Ok? && p in Names(h)
    ensures Look(ApplyHunk(now, h).value, p) == Effect(files, h, p)
  {
    if h.UpdateFile? {
      SameRewrite(files, now, h.path, h.chunks);
    }
  }

  /** In the end a touched path holds what the hunk that touched it last makes of the original files. */
  lemma {:induction false} EndEffect(files: Files, hunks: seq<Hunk>, i: nat, p: Path)
    requires ReadsOk(hunks) && ApplyAll(files, hunks).Ok? && LastTouch(hunks, i, p)
    ensures Look(ApplyAll(files, hunks).value, p) == Effect(files, hunks[i], p)
  {
    var init, last := hunks[..|hunks| - 1], hunks[|hunks| - 1];
    var now := ApplyAll(files, init).value;
    OutcomesAgree(files, init);
    if i == |hunks| - 1 {
      StepEffect(files, now, last, StateOf(init, last.path), p);
    } else {
      EndEffect(files, init, i, p);
      HunkLeavesOthers(now, last, p);
    }
  }

  /** The preview speaks of exactly the paths of the hunks, and says what the final hunk of each would do. */
  lemma {:induction false} PreviewFinal(files: Files, hunks: seq<Hunk>, i: nat)
    requires Preview(files, hunks).Ok? && Final(hunks, i)
    ensures ChangeOf(files, hunks[i]).Ok? && hunks[i].path in Preview(files, hunks).value
    ensures Preview(files, hunks).value[hunks[i].path] == ChangeOf(files, hunks[i]).value
  {
    if i < |hunks| - 1 {
      PreviewFinal(files, hunks[..|hunks| - 1], i);
    }
  }

  lemma {:induction false} FinalWithPath(hunks: seq<Hunk>, k: nat) returns (i: nat)
    requires k < |hunks|
    ensures Final(hunks, i) && hunks[i].path == hunks[k].path
    decreases |hunks| - k
  {
    if j :| k < j < |hunks| && hunks[j].path == hunks[k].path {
      i := FinalWithPath(hunks, j);
    } else {
      i := k;
    }
  }

  lemma {:induction false} PathOf(files: Files, hunks: seq<Hunk>, p: Path) returns (k: nat)
    requires Preview(files, hunks).Ok? && p in Preview(files, hunks).value
    ensures k < |hunks| && hunks[k].path == p
  {
    if hunks[|hunks| - 1].path == p {
      k := |hunks| - 1;
    } else {
      k := PathOf(files, hunks[..|hunks| - 1], p);
    }
  }

  lemma FinalOf(files: Files, hunks: seq<Hunk>, p: Path) returns (i: nat)
    requires Preview(files, hunks).Ok? && p in Preview(files, hunks).value
    ensures Final(hunks, i) && hunks[i].path == p
  {
    var k := PathOf(files, hunks, p);
    i := FinalWithPath(hunks, k);
  }

  lemma {:induction false} LastTouchOf(hunks: seq<Hunk>, p: Path) returns (i: nat)
    requires p in Touched(hunks)
    ensures LastTouch(hunks, i, p)
  {
    if p in Names(hunks[|hunks| - 1]) {
      i := |hunks| - 1;
    } else {
      i := LastTouchOf(hunks[..|hunks| - 1], p);
    }
  }

  /** What the preview says of the final hunk's path, spelled out. */
  lemma PreviewSays(files: Files, hunks: seq<Hunk>, i: nat)
    requires Preview(files, hunks).Ok? && Final(hunks, i)
    ensures var h, changes := hunks[i], Preview(files, hunks).value;
            && h.path in changes
            && (h.AddFile? ==> changes[h.path] == Added(h.contents))
            && (h.DeleteFile? ==> h.path in files && changes[h.path] == Deleted(files[h.path]))
            && (h.UpdateFile? ==>
                  && h.path in files && NewContents(files[h.path], h.chunks).Ok?
                  && changes[h.path] == Updated(h.movePath, NewContents(files[h.path], h.chunks).value))
  {
    PreviewFinal(files, hunks, i);
  }

  predicate SelfMove(h: Hunk) { h.UpdateFile? && h.movePath == Some(h.path) }

  /** The hunk is no self-move, and nothing it names is touched after it. */
  predicate Rests(hunks: seq<Hunk>, i: nat)
    requires i < |hunks|
  {
    !SelfMove(hunks[i]) && forall p :: p in Names(hunks[i]) ==> LastTouch(hunks, i, p)
  }

  ghost predicate NamedByFinal(hunks: seq<Hunk>, p: Path) { exists i: nat :: Final(hunks, i) && p in Names(hunks[i]) }

  /** The changes the preview keeps are the last word on every path the patch touches. */
  ghost predicate EndOk(hunks: seq<Hunk>) {
    && (forall i: nat :: Final(hunks, i) ==> Rests(hunks, i))
    && (forall p :: p in Touched(hunks) ==> NamedByFinal(hunks, p))
  }

  /** Preview and application succeed alike, fail alike, and on success the change map announces the resulting files. */
  ghost predicate Agree(files: Files, hunks: seq<Hunk>) {
    var preview, applied := Preview(files, hunks), ApplyAll(files, hunks);
    && (preview.Ok? <==> applied.Ok?)
    && (preview.Err? ==> preview.error == applied.error)
    && (preview.Ok? ==> Announces(files, preview.value, applied.value))
  }

  /** What the change map says about one of its paths, seen in the files. */
  predicate Announced(change: Change, after: Files, p: Path) {
    match change
    case Added(content) => Look(after, p) == Some(content)
    case Deleted(_) => Look(after, p) == None
    case Updated(None, text) => Look(after, p) == Some(text)
    case Updated(Some(dest), text) => Look(after, p) == None && Look(after, dest) == Some(text)
  }

  lemma FinalAnnounced(files: Files, hunks: seq<Hunk>, i: nat)
    requires ReadsOk(hunks) && Preview(files, hunks).Ok? && ApplyAll(files, hunks).Ok? && Final(hunks, i)
    requires Rests(hunks, i)
    ensures var p := hunks[i].path;
            && p in Preview(files, hunks).value
            && Announced(Preview(files, hunks).value[p], ApplyAll(files, hunks).value, p)
  {
    var h := hunks[i];
    PreviewFinal(files, hunks, i);
    assert h.path in Names(h);
    EndEffect(files, hunks, i, h.path);
    if h.UpdateFile? && h.movePath.Some? {
      assert h.movePath.value in Names(h);
      EndEffect(files, hunks, i, h.movePath.value);
    }
  }

  lemma UnnamedIsSame(files: Files, hunks: seq<Hunk>, p: Path)
    requires ApplyAll(files, hunks).Ok? && Preview(files, hunks).Ok? && EndOk(hunks)
    requires p !in Preview(files, hunks).value && !IsMoveTarget(Preview(files, hunks).value, p)
    ensures SameAt(files, ApplyAll(files, hunks).value, p)
  {
    if p in Touched(hunks) {
      var i: nat :| Final(hunks, i) && p in Names(hunks[i]);
      PreviewFinal(files, hunks, i);
      assert false;
    }
    OthersUntouched(files, hunks, p);
  }

  lemma AllAnnounced(files: Files, changes: map<Path, Change>, after: Files)
    requires forall p :: p in changes ==> Announced(changes[p], after, p)
    requires forall p :: p !in changes && !IsMoveTarget(changes, p) ==> SameAt(files, after, p)
    ensures Announces(files, changes, after)
  {
  }

  lemma EndAnnounces(files: Files, hunks: seq<Hunk>)
    requires ReadsOk(hunks) && EndOk(hunks) && Preview(files, hunks).Ok? && ApplyAll(files, hunks).Ok?
    ensures Announces(files, Preview(files, hunks).value, ApplyAll(files, hunks).value)
  {
    var changes, after := Preview(files, hunks).value, ApplyAll(files, hunks).value;
    forall p | p in changes
      ensures Announced(changes[p], after, p)
    {
      var i := FinalOf(files, hunks, p);
      FinalAnnounced(files, hunks, i);
    }
    forall p | p !in changes && !IsMoveTarget(changes, p)
      ensures SameAt(files, after, p)
    {
      UnnamedIsSame(files, hunks, p);
    }
    AllAnnounced(files, changes, after);
  }

  /** If every hunk reads well and the kept changes are the last word, the preview tells the truth about any files. */
  lemma PreviewAgrees(files: Files, hunks: seq<Hunk>)
    requires ReadsOk(hunks) && EndOk(hunks)
    ensures Agree(files, hunks)
  {
    OutcomesAgree(files, hunks);
    if Preview(files, hunks).Ok? {
      EndAnnounces(files, hunks);
    }
  }

  // ---------- patches with distinct paths ----------

  /** All sources and move targets are pairwise distinct. */
  predicate Separate(hunks: seq<Hunk>) {
    && (forall i, j :: 0 <= i < j < |hunks| ==> Names(hunks[i]) !! Names(hunks[j]))
    && (forall i :: 0 <= i < |hunks| ==> !SelfMove(hunks[i]))
  }

  lemma {:induction false} NamedBySome(hunks: seq<Hunk>, p: Path) returns (i: nat)
    requires p in Touched(hunks)
    ensures i < |hunks| && p in Names(hunks[i])
  {
    i := LastTouchOf(hunks, p);
  }

  lemma {:induction false} UnnamedIsFresh(hunks: seq<Hunk>, p: Path)
    requires p !in Touched(hunks)
    ensures StateOf(hunks, p).Fresh?
  {
    if hunks != [] {
      UnnamedIsFresh(hunks[..|hunks| - 1], p);
    }
  }

  lemma {:induction false} SeparateReads(hunks: seq<Hunk>)
    requires Separate(hunks)
    ensures ReadsOk(hunks)
  {
    if hunks != [] {
      var init, last := hunks[..|hunks| - 1], hunks[|hunks| - 1];
      SeparateReads(init);
      assert last.path in Names(last);
      if last.path in Touched(init) {
        var i := NamedBySome(init, last.path);
        assert false;
      }
      UnnamedIsFresh(init, last.path);
    }
  }

  /** Patches that name each path once are among those that preview truthfully. */
  lemma SeparateIsTruthful(hunks: seq<Hunk>)
    requires Separate(hunks)
    ensures ReadsOk(hunks) && EndOk(hunks)
  {
    SeparateReads(hunks);
    forall p | p in Touched(hunks)
      ensures NamedByFinal(hunks, p)
    {
      var i := NamedBySome(hunks, p);
      assert forall j :: 0 <= j < |hunks| ==> hunks[j].path in Names(hunks[j]);
      assert Final(hunks, i);
    }
  }
}
