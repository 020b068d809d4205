/** Applying a hunk list to the file system, and the preview computed beforehand. */
module PatchApply {
  import opened Prelude
  import opened Replacements
  import opened FileUpdate
  import opened PatchParser

  type Path = string
  type Files = map<Path, string>

  datatype ApplyError = NothingModified | NotFound(path: Path) | CannotUpdate(path: Path, reason: PlanError)

  // ---------- sequential application ----------

  /** The new text of an updated file. */
  function Rewritten(files: Files, path: Path, chunks: seq<Chunk>): Result<string, ApplyError> {
    if path !in files then Err(NotFound(path))
    else
      match NewContents(files[path], chunks)
      case Err(e) => Err(CannotUpdate(path, e))
      case Ok(text) => Ok(text)
  }

  function ApplyHunk(files: Files, hunk: Hunk): Result<Files, ApplyError> {
    match hunk
    case AddFile(path, contents) => Ok(files[path := contents])
    case DeleteFile(path) => if path in files then Ok(files - {path}) else Err(NotFound(path))
    case UpdateFile(path, move, chunks) => ApplyUpdate(files, path, move, Rewritten(files, path, chunks))
  }

  function ApplyUpdate(files: Files, path: Path, move: Option<Path>, rewritten: Result<string, ApplyError>)
    : Result<Files, ApplyError>
  {
    match rewritten
    case Err(e) => Err(e)
    case Ok(text) => if move.Some? then Ok(files[move.value := text] - {path}) else Ok(files[path := text])
  }

  function ApplyAll(files: Files, hunks: seq<Hunk>): Result<Files, ApplyError> {
    if hunks == [] then Ok(files)
    else
      match ApplyAll(files, hunks[..|hunks| - 1])
      case Err(e) => Err(e)
      case Ok(before) => ApplyHunk(before, hunks[|hunks| - 1])
  }

  datatype Affected = Affected(added: seq<Path>, modified: seq<Path>, deleted: seq<Path>)

  function AffectedBy(hunks: seq<Hunk>): Affected {
    if hunks == [] then Affected([], [], [])
    else
      var a := AffectedBy(hunks[..|hunks| - 1]);
      match hunks[|hunks| - 1]
      case AddFile(path, _) => a.(added := a.added + [path])
      case DeleteFile(path) => a.(deleted := a.deleted + [path])
      case UpdateFile(path, move, _) => a.(modified := a.modified + [if move.Some? then move.value else path])
  }

  /** The file system the patch is applied to. */
  class FileSystem {
    var files: Files

    constructor (files: Files)
      ensures this.files == files
    {
      this.files := files;
    }

    method Update(path: Path, move: Option<Path>, chunks: seq<Chunk>) returns (error: Option<ApplyError>)
      modifies this
      ensures error.None? ==> ApplyHunk(old(files), UpdateFile(path, move, chunks)) == Ok(files)
      ensures error.Some? ==> ApplyHunk(old(files), UpdateFile(path, move, chunks)) == Err(error.value)
      ensures error.Some? ==> files == old(files)
    {
      if path !in files {
        return Some(NotFound(path));
      }
      var text := DeriveNewContents(files[path], chunks);
      if text.Err? {
        return Some(CannotUpdate(path, text.error));
      }
      if move.Some? {
        files := files[move.value := text.value];
        files := files - {path};
      } else {
        files := files[path := text.value];
      }
      return None;
    }

    /**
     * `apply_hunks_to_files`: on success the effect of all hunks and the affected paths; on failure exactly the effect
     * of the hunks before the one that failed.
     */
    method ApplyHunksToFiles(hunks: seq<Hunk>) returns (r: Result<Affected, ApplyError>, done: nat)
      modifies this
      ensures done <= |hunks| && ApplyAll(old(files), hunks[..done]) == Ok(files)
      ensures r.Ok? ==> hunks != [] && done == |hunks| && r.value == AffectedBy(hunks)
      ensures r.Err? && hunks == [] ==> r.error == NothingModified
      ensures r.Err? && hunks != [] ==> done < |hunks| && ApplyHunk(files, hunks[done]) == Err(r.error)
    {
      done := 0;
      if hunks == [] {
        return Err(NothingModified), 0;
      }
      var affected := Affected([], [], []);
      while done < |hunks|
        invariant 0 <= done <= |hunks|
        invariant ApplyAll(old(files), hunks[..done]) == Ok(files)
        invariant affected == AffectedBy(hunks[..done])
      {
        assert hunks[..done + 1][..done] == hunks[..done];
        match hunks[done] {
          case AddFile(path, contents) =>
            files := files[path := contents];
            affected := affected.(added := affected.added + [path]);
          case DeleteFile(path) =>
            if path !in files {
              return Err(NotFound(path)), done;
            }
            files := files - {path};
            affected := affected.(deleted := affected.deleted + [path]);
          case UpdateFile(path, move, chunks) =>
            var error := Update(path, move, chunks);
            if error.Some? {
              return Err(error.value), done;
            }
            affected := affected.(modified := affected.modified + [if move.Some? then move.value else path]);
        }
        done := done + 1;
      }
      assert hunks[..done] == hunks;
      return Ok(affected), done;
    }
  }

  // ---------- the preview ----------

  datatype Change = Added(content: string) | Deleted(content: string) | Updated(move: Option<Path>, newContent: string)

  /** What one hunk would do to the files as they are now. */
  function ChangeOf(files: Files, hunk: Hunk): Result<Change, ApplyError> {
    match hunk
    case AddFile(_, contents) => Ok(Added(contents))
    case DeleteFile(path) => if path in files then Ok(Deleted(files[path])) else Err(NotFound(path))
    case UpdateFile(path, move, chunks) => UpdateChange(move, Rewritten(files, path, chunks))
  }

  function UpdateChange(move: Option<Path>, rewritten: Result<string, ApplyError>): Result<Change, ApplyError> {
    match rewritten
    case Err(e) => Err(e)
    case Ok(text) => Ok(Updated(move, text))
  }

  /** The change map of `maybe_parse_apply_patch_verified`: every hunk is read against the untouched files. */
  function Preview(files: Files, hunks: seq<Hunk>): Result<map<Path, Change>, ApplyError> {
    if hunks == [] then Ok(map[])
    else
      match Preview(files, hunks[..|hunks| - 1])
      case Err(e) => Err(e)
      case Ok(changes) =>
        var hunk := hunks[|hunks| - 1];
        match ChangeOf(files, hunk)
        case Err(e) => Err(e)
        case Ok(change) => Ok(changes[hunk.path := change])
  }

  /** `after` is what the announced changes make of `files`. */
  ghost predicate Announces(files: Files, changes: map<Path, Change>, after: Files) {
    && (forall p :: p in changes ==>
          match changes[p]
          case Added(content) => p in after && after[p] == content
          case Deleted(_) => p !in after
          case Updated(None, text) => p in after && after[p] == text
          case Updated(Some(dest), text) => p !in after && dest in after && after[dest] == text)
    && (forall p :: p !in changes && !IsMoveTarget(changes, p) ==> SameAt(files, after, p))
  }

  ghost predicate IsMoveTarget(changes: map<Path, Change>, p: Path) {
    exists q :: q in changes && changes[q].Updated? && changes[q].move == Some(p)
  }

  predicate SameAt(a: Files, b: Files, p: Path) {
    (p in a <==> p in b) && (p in a ==> a[p] == b[p])
  }

  /** A change map announces at most one outcome. */
  lemma AnnouncedOnce(files: Files, changes: map<Path, Change>, a: Files, b: Files)
    requires Announces(files, changes, a) && Announces(files, changes, b)
    ensures a == b
  {
    forall p: Path
      ensures SameAt(a, b, p)
    {
      if p !in changes {
        if IsMoveTarget(changes, p) {
          var q :| q in changes && changes[q].Updated? && changes[q].move == Some(p);
        } else {
          assert SameAt(files, a, p) && SameAt(files, b, p);
        }
      }
    }
    assert a.Keys == b.Keys by {
      forall p: Path
        ensures p in a <==> p in b
      {
        assert SameAt(a, b, p);
      }
    }
    forall p | p in a
      ensures a[p] == b[p]
    {
      assert SameAt(a, b, p);
    }
  }

  // ---------- paths named by a patch ----------

  function Names(hunk: Hunk): set<Path> {
    {hunk.path} + if hunk.UpdateFile? && hunk.movePath.Some? then {hunk.movePath.value} else {}
  }

  function Touched(hunks: seq<Hunk>): set<Path> {
    if hunks == [] then {} else Touched(hunks[..|hunks| - 1]) + Names(hunks[|hunks| - 1])
  }

  lemma HunkLeavesOthers(files: Files, hunk: Hunk, p: Path)
    requires ApplyHunk(files, hunk).Ok? && p !in Names(hunk)
    ensures SameAt(files, ApplyHunk(files, hunk).value, p)
  {
  }

  /** Whatever the hunks, paths they do not name keep their contents. */
  lemma {:induction false} OthersUntouched(files: Files, hunks: seq<Hunk>, p: Path)
    requires ApplyAll(files, hunks).Ok? && p !in Touched(hunks)
    ensures SameAt(files, ApplyAll(files, hunks).value, p)
  {
    if hunks != [] {
      var init, last := hunks[..|hunks| - 1], hunks[|hunks| - 1];
      OthersUntouched(files, init, p);
      HunkLeavesOthers(ApplyAll(files, init).value, last, p);
    }
  }

  // ---------- where an update lands ----------

  /** Moving a file onto itself writes it and then removes it. */
  lemma SelfMoveDeletes(files: Files, path: Path, chunks: seq<Chunk>)
    requires path in files && NewContents(files[path], chunks).Ok?
    ensures ApplyHunk(files, UpdateFile(path, Some(path), chunks)) == Ok(files - {path})
  {
    var text := NewContents(files[path], chunks).value;
    assert files[path := text] - {path} == files - {path};
  }

  /** A successful update leaves its text at its destination exactly when it does not move the file onto itself. */
  lemma UpdateLandsIff(files: Files, path: Path, move: Option<Path>, chunks: seq<Chunk>)
    requires path in files && NewContents(files[path], chunks).Ok?
    ensures var r := ApplyHunk(files, UpdateFile(path, move, chunks));
            var dest := if move.Some? then move.value else path;
            && r.Ok?
            && (dest in r.value && r.value[dest] == NewContents(files[path], chunks).value <==> move != Some(path))
  {
    if move == Some(path) {
      SelfMoveDeletes(files, path, chunks);
    }
  }

  // ---------- what is reported ----------

  /** The report has one line per hunk, each path under its own heading, and no others. */
  lemma {:induction false} AffectedExactly(hunks: seq<Hunk>)
    ensures var a := AffectedBy(hunks);
            && |a.added| + |a.modified| + |a.deleted| == |hunks|
            && (forall p :: p in a.added <==> exists i :: 0 <= i < |hunks| && hunks[i].AddFile? && hunks[i].path == p)
            && (forall p :: p in a.deleted <==>
                  exists i :: 0 <= i < |hunks| && hunks[i].DeleteFile? && hunks[i].path == p)
            && (forall p :: p in a.modified <==>
                  exists i :: 0 <= i < |hunks| && hunks[i].UpdateFile?
                              && p == if hunks[i].movePath.Some? then hunks[i].movePath.value else hunks[i].path)
  {
    if hunks != [] {
      var init := hunks[..|hunks| - 1];
      AffectedExactly(init);
      assert hunks == init + [hunks[|hunks| - 1]];
    }
  }
}
