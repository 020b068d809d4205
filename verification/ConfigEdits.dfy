/** Path edits and deep merge on configuration trees (`apply_config_edits` and its helpers). */
module ConfigEdits {
  import opened Prelude
  import opened Text

  /** A TOML value; arrays count as scalars, since edits replace them whole. */
  datatype Toml = Scalar(text: string) | Table(entries: map<string, Toml>)

  function Entries(t: Toml): map<string, Toml> { if t.Table? then t.entries else map[] }

  function Child(t: Toml, key: string): Option<Toml> {
    if key in Entries(t) then Some(Entries(t)[key]) else None
  }

  function Get(t: Toml, path: seq<string>): Option<Toml>
    decreases |path|
  {
    if path == [] then Some(t)
    else if path[0] in Entries(t) then Get(Entries(t)[path[0]], path[1..])
    else None
  }

  /** `merge_toml_values`: tables merge key by key, anything else is overwritten. */
  function Merge(target: Toml, incoming: Toml): Toml
    decreases incoming
  {
    if target.Table? && incoming.Table? then
      Table(map k | k in target.entries.Keys + incoming.entries.Keys ::
              if k !in incoming.entries then target.entries[k]
              else if k !in target.entries then incoming.entries[k]
              else Merge(target.entries[k], incoming.entries[k]))
    else incoming
  }

  /** What an edit puts at its key, given what is there. */
  function Final(merge: bool, existing: Option<Toml>, value: Toml): Toml {
    if merge && existing.Some? then Merge(existing.value, value) else value
  }

  /**
   * `set_toml_path` (replace) and `upsert_toml_path` (merge): walks down, turning whatever is no table into an empty
   * table on the way.
   */
  function Edit(t: Toml, path: seq<string>, value: Toml, merge: bool): Toml
    requires path != []
    decreases |path|, 1
  {
    Table(Entries(t)[path[0] := Under(Child(t, path[0]), path, value, merge)])
  }

  /** What the edit makes of the value under its first key. */
  function Under(existing: Option<Toml>, path: seq<string>, value: Toml, merge: bool): Toml
    requires path != []
    decreases |path|, 0
  {
    if |path| == 1 then Final(merge, existing, value)
    else Edit(if existing.Some? then existing.value else Table(map[]), path[1..], value, merge)
  }

  // ---------- laws of merging ----------

  lemma {:induction false} MergeSelf(v: Toml)
    ensures Merge(v, v) == v
  {
    if v.Table? {
      forall k | k in v.entries
        ensures Merge(v.entries[k], v.entries[k]) == v.entries[k]
      {
        MergeSelf(v.entries[k]);
      }
      assert Merge(v, v).entries == v.entries;
    }
  }

  lemma {:induction false} MergeIdempotent(a: Toml, v: Toml)
    ensures Merge(Merge(a, v), v) == Merge(a, v)
    decreases v
  {
    if !a.Table? || !v.Table? {
      MergeSelf(v);
    } else {
      var once := Merge(a, v);
      var twice := Merge(once, v);
      forall k | k in v.entries
        ensures Merge(once.entries[k], v.entries[k]) == once.entries[k]
      {
        if k in a.entries {
          MergeIdempotent(a.entries[k], v.entries[k]);
        } else {
          MergeSelf(v.entries[k]);
        }
      }
      assert twice.entries == once.entries;
    }
  }

  /** `t` has a value that is no table at some proper prefix of the path. */
  predicate Shadows(t: Toml, path: seq<string>)
    decreases |path|
  {
    path != [] && (!t.Table? || (path[0] in t.entries && Shadows(t.entries[path[0]], path[1..])))
  }

  /** Deep merge path by path: the right side wins where it says something, otherwise the left is kept. */
  lemma {:induction false} MergeMeaning(a: Toml, b: Toml, path: seq<string>)
    ensures Get(Merge(a, b), path) ==
            match Get(b, path)
            case Some(y) => (match Get(a, path) case Some(x) => Some(Merge(x, y)) case None => Some(y))
            case None => if Shadows(b, path) then None else Get(a, path)
    decreases |path|
  {
    if path != [] {
      var k, rest := path[0], path[1..];
      if a.Table? && b.Table? {
        if k in a.entries && k in b.entries {
          MergeMeaning(a.entries[k], b.entries[k], rest);
        } else if k in b.entries {
          NotThere(b.entries[k], rest);
        }
      } else if b.Table? && k in b.entries {
        NotThere(b.entries[k], rest);
      }
    }
  }

  lemma {:induction false} NotThere(t: Toml, path: seq<string>)
    ensures Get(t, path).Some? ==> !Shadows(t, path)
    decreases |path|
  {
    if path != [] && t.Table? && path[0] in t.entries {
      NotThere(t.entries[path[0]], path[1..]);
    }
  }

  /** Wherever `a` says something, `c` overrides it: `c` has every key `a` has, all the way down. */
  predicate Covers(c: Toml, a: Toml)
    decreases a
  {
    !a.Table? || !c.Table? || forall k :: k in a.entries ==> k in c.entries && Covers(c.entries[k], a.entries[k])
  }

  lemma {:induction false} CoversIff(c: Toml, a: Toml)
    ensures Covers(c, a) <==> Merge(a, c) == c
    decreases a
  {
    if a.Table? && c.Table? {
      var m := Merge(a, c);
      forall k | k in a.entries && k in c.entries
        ensures Covers(c.entries[k], a.entries[k]) <==> m.entries[k] == c.entries[k]
      {
        CoversIff(c.entries[k], a.entries[k]);
      }
      if Covers(c, a) {
        assert m.entries == c.entries;
      }
    }
  }

  /**
   * What decides whether merging three trees can be bracketed either way: a value between two tables is the
   * obstacle.
   */
  predicate Associates(a: Toml, b: Toml, c: Toml)
    decreases b
  {
    || !a.Table? || !c.Table?
    || if b.Table? then
         forall k :: k in b.entries && k in a.entries && k in c.entries ==>
           Associates(a.entries[k], b.entries[k], c.entries[k])
       else Covers(c, a)
  }

  lemma MergedKey(a: Toml, b: Toml, c: Toml, k: string)
    requires a.Table? && b.Table? && c.Table?
    ensures k in Merge(Merge(a, b), c).entries <==> k in Merge(a, Merge(b, c)).entries
    ensures k in a.entries && k in b.entries && k in c.entries ==>
              && Merge(Merge(a, b), c).entries[k] == Merge(Merge(a.entries[k], b.entries[k]), c.entries[k])
              && Merge(a, Merge(b, c)).entries[k] == Merge(a.entries[k], Merge(b.entries[k], c.entries[k]))
    ensures k in Merge(Merge(a, b), c).entries && !(k in a.entries && k in b.entries && k in c.entries) ==>
              Merge(Merge(a, b), c).entries[k] == Merge(a, Merge(b, c)).entries[k]
  {
  }

  lemma SameTable(l: Toml, r: Toml)
    requires l.Table? && r.Table? && forall k :: k in l.entries <==> k in r.entries
    ensures l == r <==> forall k :: k in l.entries ==> l.entries[k] == r.entries[k]
  {
    if forall k :: k in l.entries ==> l.entries[k] == r.entries[k] {
      assert l.entries == r.entries;
    }
  }

  /**
   * Merging three trees can be bracketed either way exactly when no value between two tables hides part of the
   * first.
   */
  lemma {:induction false} MergeAssociativeIff(a: Toml, b: Toml, c: Toml)
    ensures Merge(Merge(a, b), c) == Merge(a, Merge(b, c)) <==> Associates(a, b, c)
    decreases b
  {
    if a.Table? && c.Table? {
      if b.Table? {
        var l, r := Merge(Merge(a, b), c), Merge(a, Merge(b, c));
        forall k
          ensures k in l.entries <==> k in r.entries
          ensures k in l.entries ==>
                    (l.entries[k] == r.entries[k] <==>
                     (k in a.entries && k in b.entries && k in c.entries ==>
                        Associates(a.entries[k], b.entries[k], c.entries[k])))
        {
          MergedKey(a, b, c, k);
          if k in a.entries && k in b.entries && k in c.entries {
            MergeAssociativeIff(a.entries[k], b.entries[k], c.entries[k]);
          }
        }
        SameTable(l, r);
      } else {
        CoversIff(c, a);
      }
    }
  }

  /** An instance: a scalar between two tables erases the first in one bracketing only. */
  lemma MergeNotAssociative()
    ensures var a, b, c := Table(map["x" := Scalar("1")]), Scalar("s"), Table(map["y" := Scalar("2")]);
            Merge(Merge(a, b), c) != Merge(a, Merge(b, c))
  {
    var a, b, c := Table(map["x" := Scalar("1")]), Scalar("s"), Table(map["y" := Scalar("2")]);
    assert "x" in a.entries && "x" !in c.entries;
    MergeAssociativeIff(a, b, c);
  }

  // ---------- laws of path edits ----------

  /** After an edit its path holds what the strategy says. */
  lemma {:induction false} EditThenGet(t: Toml, path: seq<string>, value: Toml, merge: bool)
    requires path != []
    ensures Get(Edit(t, path, value, merge), path) == Some(Final(merge, Get(t, path), value))
    decreases |path|
  {
    var existing := Child(t, path[0]);
    if |path| == 1 {
      assert path[1..] == [];
      assert Get(t, path) == existing;
    } else {
      EditThenGet(if existing.Some? then existing.value else Table(map[]), path[1..], value, merge);
    }
  }

  /** Writing back what is there changes nothing. */
  lemma {:induction false} ReplaceByItself(t: Toml, path: seq<string>)
    requires path != [] && Get(t, path).Some?
    ensures Edit(t, path, Get(t, path).value, false) == t
    decreases |path|
  {
    var key, here := path[0], Entries(t)[path[0]];
    if |path| == 1 {
      assert path[1..] == [];
    } else {
      ReplaceByItself(here, path[1..]);
    }
    assert t.entries[key := here] == t.entries;
  }

  lemma EditedChild(t: Toml, path: seq<string>, value: Toml, merge: bool, key: string)
    requires path != []
    ensures Child(Edit(t, path, value, merge), key) ==
            if key == path[0] then Some(Under(Child(t, key), path, value, merge)) else Child(t, key)
  {
  }

  lemma SetTwice(entries: map<string, Toml>, key: string, a: Toml, b: Toml)
    ensures entries[key := a][key := b] == entries[key := b]
  {
  }

  /** Two edits at one path act like the second alone on the first's outcome there. */
  lemma {:induction false} EditTwice(t: Toml, path: seq<string>, a: Toml, m: bool, b: Toml, n: bool)
    requires path != []
    ensures Edit(Edit(t, path, a, m), path, b, n) == Edit(t, path, Final(n, Some(Final(m, Get(t, path), a)), b), false)
    decreases |path|
  {
    var key, existing := path[0], Child(t, path[0]);
    var one := Edit(t, path, a, m);
    var both := Final(n, Some(Final(m, Get(t, path), a)), b);
    EditedChild(t, path, a, m, key);
    if |path| == 1 {
      assert path[1..] == [];
      assert Get(t, path) == existing;
    } else {
      EditTwice(if existing.Some? then existing.value else Table(map[]), path[1..], a, m, b, n);
    }
    assert Under(Child(one, key), path, b, n) == Under(existing, path, both, false);
    SetTwice(Entries(t), key, Under(existing, path, a, m), Under(existing, path, both, false));
  }

  /** Replace: the last writer wins. */
  lemma LastWriterWins(t: Toml, path: seq<string>, a: Toml, b: Toml)
    requires path != []
    ensures Edit(Edit(t, path, a, false), path, b, false) == Edit(t, path, b, false)
  {
    EditTwice(t, path, a, false, b, false);
  }

  lemma {:induction false} MergeAsReplace(t: Toml, path: seq<string>, v: Toml)
    requires path != []
    ensures Edit(t, path, v, true) == Edit(t, path, Final(true, Get(t, path), v), false)
    decreases |path|
  {
    var existing := Child(t, path[0]);
    if |path| == 1 {
      assert path[1..] == [];
      assert Get(t, path) == existing;
    } else {
      MergeAsReplace(if existing.Some? then existing.value else Table(map[]), path[1..], v);
    }
  }

  /** Upsert: doing it again changes nothing. */
  lemma UpsertIdempotent(t: Toml, path: seq<string>, v: Toml)
    requires path != []
    ensures Edit(Edit(t, path, v, true), path, v, true) == Edit(t, path, v, true)
  {
    EditTwice(t, path, v, true, v, true);
    MergeAsReplace(t, path, v);
    var x := Get(t, path);
    if x.Some? {
      MergeIdempotent(x.value, v);
    } else {
      MergeSelf(v);
    }
  }

  /** Neither path lies on the other. */
  predicate Incomparable(p: seq<string>, q: seq<string>)
    decreases |p|
  {
    p != [] && q != [] && (p[0] != q[0] || Incomparable(p[1..], q[1..]))
  }

  lemma {:induction false} IncomparableMeansNoPrefix(p: seq<string>, q: seq<string>)
    ensures Incomparable(p, q) <==> !(p <= q) && !(q <= p)
    decreases |p|
  {
    if p != [] && q != [] && p[0] == q[0] {
      IncomparableMeansNoPrefix(p[1..], q[1..]);
      assert p == [p[0]] + p[1..] && q == [q[0]] + q[1..];
    }
  }

  /** An edit leaves every incomparable path as it was. */
  lemma {:induction false} EditElsewhere(t: Toml, p: seq<string>, value: Toml, merge: bool, q: seq<string>)
    requires p != [] && Incomparable(p, q)
    ensures Get(Edit(t, p, value, merge), q) == Get(t, q)
    decreases |p|
  {
    if p[0] == q[0] {
      var existing := Child(t, p[0]);
      var below := if existing.Some? then existing.value else Table(map[]);
      EditElsewhere(below, p[1..], value, merge, q[1..]);
    }
  }

  /** Edits at incomparable paths commute. */
  lemma {:induction false} EditsCommute(t: Toml, p: seq<string>, a: Toml, m: bool, q: seq<string>, b: Toml, n: bool)
    requires p != [] && q != [] && Incomparable(p, q)
    ensures Edit(Edit(t, p, a, m), q, b, n) == Edit(Edit(t, q, b, n), p, a, m)
    decreases |p|
  {
    var j, k := p[0], q[0];
    EditedChild(t, p, a, m, k);
    EditedChild(t, q, b, n, j);
    var x, y := Under(Child(t, j), p, a, m), Under(Child(t, k), q, b, n);
    if j != k {
      assert Entries(t)[j := x][k := y] == Entries(t)[k := y][j := x];
    } else {
      var existing := Child(t, j);
      EditsCommute(if existing.Some? then existing.value else Table(map[]), p[1..], a, m, q[1..], b, n);
      var z := Under(Some(x), q, b, n);
      assert z == Under(Some(y), p, a, m);
      assert Entries(t)[j := x][j := z] == Entries(t)[j := y][j := z];
    }
  }

  // ---------- writing the configuration file ----------

  datatype ConfigEdit = ConfigEdit(keyPath: string, value: Toml, merge: bool)

  datatype WriteError = VersionConflict | Invalid | PathNotFound | Readonly | NoDirectory

  function NonEmpty(segments: seq<string>): seq<string> {
    if segments == [] then [] else (if segments[0] == [] then [] else [segments[0]]) + NonEmpty(segments[1..])
  }

  function Segments(keyPath: string): seq<string> { NonEmpty(Split(keyPath, '.')) }

  /** The tree after all edits, in order; one without a key path is passed over. */
  function AllEdits(t: Toml, edits: seq<ConfigEdit>): Toml
    decreases |edits|
  {
    if edits == [] then t
    else
      var path := Segments(edits[0].keyPath);
      AllEdits(if path == [] then t else Edit(t, path, edits[0].value, edits[0].merge), edits[1..])
  }

  /** The hash, parser and printer of the configuration file are taken as given. */
  datatype Codec = Codec(version: string -> string, parse: string -> Option<Toml>, render: Toml -> Option<string>)

  /** What the file system says: which paths are absolute or the user's own file, and whether it lets us proceed. */
  datatype Disk = Disk(absolute: string -> bool, own: string -> bool, readable: bool, directory: bool)

  function Root(codec: Codec, contents: string): Option<Toml> {
    if Trim(contents) == [] then Some(Table(map[])) else codec.parse(contents)
  }

  // ---------- key paths and lists of edits ----------

  lemma {:induction false} NonEmptyKeeps(segments: seq<string>)
    requires forall x :: x in segments ==> x != []
    ensures NonEmpty(segments) == segments
  {
    if segments != [] {
      assert segments[0] in segments && forall x :: x in segments[1..] ==> x in segments;
      NonEmptyKeeps(segments[1..]);
    }
  }

  lemma {:induction false} NonEmptyMembers(segments: seq<string>)
    ensures forall x :: x in NonEmpty(segments) <==> x in segments && x != []
  {
    if segments != [] {
      NonEmptyMembers(segments[1..]);
      assert segments == [segments[0]] + segments[1..];
    }
  }

  /** A key path written with dots between its segments means those segments. */
  lemma SegmentsOfPath(segments: seq<string>)
    requires segments != [] && forall x :: x in segments ==> x != [] && Free(x, '.')
    ensures Segments(Join(segments, ".")) == segments
  {
    SplitJoin(segments, '.');
    NonEmptyKeeps(segments);
  }

  predicate AllEmpty(pieces: seq<string>) { forall i :: 0 <= i < |pieces| ==> pieces[i] == [] }

  predicate Only(text: string, ch: char) { forall i :: 0 <= i < |text| ==> text[i] == ch }

  lemma {:induction false} SplitChars(text: string, sep: char)
    ensures AllEmpty(Split(text, sep)) <==> Only(text, sep)
    decreases |text|
  {
    if text != [] {
      var tail, rest, all := text[1..], Split(text[1..], sep), Split(text, sep);
      SplitChars(tail, sep);
      assert forall i :: 0 <= i < |tail| ==> tail[i] == text[i + 1];
      if text[0] == sep {
        assert all == [[]] + rest;
        assert forall i :: 0 <= i < |rest| ==> rest[i] == all[i + 1];
        assert Only(text, sep) <==> Only(tail, sep);
      } else {
        assert all[0] == [text[0]] + rest[0];
      }
    }
  }

  /** Only a key path of nothing but dots has no segment. */
  lemma PathlessIff(keyPath: string)
    ensures Segments(keyPath) == [] <==> Only(keyPath, '.')
  {
    var pieces := Split(keyPath, '.');
    NonEmptyMembers(pieces);
    SplitChars(keyPath, '.');
    if Segments(keyPath) != [] {
      assert Segments(keyPath)[0] in Segments(keyPath);
      var i :| 0 <= i < |pieces| && pieces[i] == Segments(keyPath)[0];
    } else {
      forall i | 0 <= i < |pieces|
        ensures pieces[i] == []
      {
        assert pieces[i] in pieces;
      }
    }
  }

  lemma {:induction false} AllEditsPush(t: Toml, edits: seq<ConfigEdit>, e: ConfigEdit)
    requires Segments(e.keyPath) != []
    ensures AllEdits(t, edits + [e]) == Edit(AllEdits(t, edits), Segments(e.keyPath), e.value, e.merge)
    decreases |edits|
  {
    if edits == [] {
      assert (edits + [e])[1..] == [];
    } else {
      assert (edits + [e])[0] == edits[0] && (edits + [e])[1..] == edits[1..] + [e];
      var path := Segments(edits[0].keyPath);
      AllEditsPush(if path == [] then t else Edit(t, path, edits[0].value, edits[0].merge), edits[1..], e);
    }
  }

  /** The last edit decides what is at its path: its value, merged into what the others left there if it says so. */
  lemma LastEditDecides(t: Toml, edits: seq<ConfigEdit>, e: ConfigEdit)
    requires Segments(e.keyPath) != []
    ensures var there := Get(AllEdits(t, edits), Segments(e.keyPath));
            Get(AllEdits(t, edits + [e]), Segments(e.keyPath))
            == Some(if e.merge && there.Some? then Merge(there.value, e.value) else e.value)
  {
    AllEditsPush(t, edits, e);
    EditThenGet(AllEdits(t, edits), Segments(e.keyPath), e.value, e.merge);
  }

  /** Paths incomparable with all edited ones keep what they held. */
  lemma {:induction false} EditsLeaveOthers(t: Toml, edits: seq<ConfigEdit>, q: seq<string>)
    requires forall e :: e in edits ==> Segments(e.keyPath) != [] && Incomparable(Segments(e.keyPath), q)
    ensures Get(AllEdits(t, edits), q) == Get(t, q)
    decreases |edits|
  {
    if edits != [] {
      var e, path := edits[0], Segments(edits[0].keyPath);
      assert e in edits;
      EditElsewhere(t, path, e.value, e.merge, q);
      EditsLeaveOthers(Edit(t, path, e.value, e.merge), edits[1..], q);
    }
  }

  /** A file of nothing but whitespace is an empty table; any other is what its parser says. */
  lemma RootMeans(codec: Codec, contents: string)
    ensures Root(codec, contents) ==
            if forall i :: 0 <= i < |contents| ==> IsWhitespace(contents[i]) then Some(Table(map[]))
            else codec.parse(contents)
  {
    TrimOfBlank(contents);
  }

  class ConfigFile {
    const codec: Codec
    var contents: Option<string>

    constructor (codec: Codec, contents: Option<string>)
      ensures this.codec == codec && this.contents == contents
    {
      this.codec, this.contents := codec, contents;
    }

    /** A missing file reads as an empty one. */
    function Text(): string
      reads this
    {
      if contents.Some? then contents.value else ""
    }

    /**
     * `apply_config_edits`: all edits or none. A stale version, an unreadable file or an empty key path leaves the
     * file as it was; success writes the edited tree and returns its version.
     */
    method ApplyConfigEdits(edits: seq<ConfigEdit>, target: Option<string>, expected: Option<string>, disk: Disk)
      returns (r: Result<string, WriteError>)
      modifies this
      ensures r.Err? ==> contents == old(contents)
      ensures r.Ok? ==> contents.Some? && r.value == codec.version(contents.value)
      ensures
        var placed := target.None? || (disk.absolute(target.value) && disk.own(target.value));
        var stale := expected.Some? && expected.value != codec.version(old(Text()));
        var current := placed && disk.readable && !stale;
        var root := Root(codec, old(Text()));
        var pathless := exists e :: e in edits && Segments(e.keyPath) == [];
        && (!placed ==> r == Err(if disk.absolute(target.value) then Readonly else Invalid))
        && (r == Err(Readonly) ==> !placed)
        && (r == Err(VersionConflict) <==> placed && disk.readable && stale)
        && (r == Err(PathNotFound) <==> current && root.Some? && pathless)
        && (placed && r == Err(Invalid) <==>
            placed && (!disk.readable
                       || (!stale && (root.None? || (!pathless && codec.render(AllEdits(root.value, edits)).None?)))))
        && (r == Err(NoDirectory) <==>
            current && root.Some? && !pathless && codec.render(AllEdits(root.value, edits)).Some? && !disk.directory)
        && (r.Ok? ==> contents == codec.render(AllEdits(root.value, edits)))
    {
      if target.Some? && !disk.absolute(target.value) {
        return Err(Invalid);
      }
      if target.Some? && !disk.own(target.value) {
        return Err(Readonly);
      }
      if !disk.readable {
        return Err(Invalid);
      }
      var text := Text();
      if expected.Some? && expected.value != codec.version(text) {
        return Err(VersionConflict);
      }
      var parsed := Root(codec, text);
      if parsed.None? {
        return Err(Invalid);
      }
      var root := parsed.value;
      for i := 0 to |edits|
        invariant AllEdits(parsed.value, edits) == AllEdits(root, edits[i..])
        invariant forall e :: e in edits[..i] ==> Segments(e.keyPath) != []
        invariant contents == old(contents)
      {
        var path := Segments(edits[i].keyPath);
        assert edits[i..][0] == edits[i] && edits[i..][1..] == edits[i + 1..];
        if path == [] {
          assert edits[i] in edits;
          return Err(PathNotFound);
        }
        root := Edit(root, path, edits[i].value, edits[i].merge);
      }
      var serialized := codec.render(root);
      if serialized.None? {
        return Err(Invalid);
      }
      if !disk.directory {
        return Err(NoDirectory);
      }
      contents := serialized;
      return Ok(codec.version(serialized.value));
    }
  }
}
