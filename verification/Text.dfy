/** The parts of Rust's `str` the patch engine and the generators rely on. */
module Text {
  import opened Prelude

  /** The Unicode White_Space property, as `char::is_whitespace` has it. */
  predicate IsWhitespace(c: char) {
    || '\U{0009}' <= c <= '\U{000D}' || c == ' ' || c == '\U{0085}' || c == '\U{00A0}' || c == '\U{1680}'
    || '\U{2000}' <= c <= '\U{200A}' || c == '\U{2028}' || c == '\U{2029}' || c == '\U{202F}' || c == '\U{205F}'
    || c == '\U{3000}'
  }

  /** The first position at or after `i` that is not whitespace. */
  function SkipBlank(s: string, i: nat): (k: nat)
    requires i <= |s|
    ensures i <= k <= |s|
    ensures forall j :: i <= j < k ==> IsWhitespace(s[j])
    ensures k < |s| ==> !IsWhitespace(s[k])
    decreases |s| - i
  {
    if i < |s| && IsWhitespace(s[i]) then SkipBlank(s, i + 1) else i
  }

  /** The end of the last non-whitespace character before `i`. */
  function SkipBlankBack(s: string, i: nat): (k: nat)
    requires i <= |s|
    ensures k <= i
    ensures forall j :: k <= j < i ==> IsWhitespace(s[j])
    ensures k > 0 ==> !IsWhitespace(s[k - 1])
  {
    if i > 0 && IsWhitespace(s[i - 1]) then SkipBlankBack(s, i - 1) else i
  }

  function TrimStart(s: string): string { s[SkipBlank(s, 0)..] }

  function TrimEnd(s: string): string { s[..SkipBlankBack(s, |s|)] }

  function Trim(s: string): string { TrimStart(TrimEnd(s)) }

  /** Nothing to trim on either side. */
  predicate IsTrimmed(s: string) {
    s == [] || (!IsWhitespace(s[0]) && !IsWhitespace(s[|s| - 1]))
  }

  /** `Trim` cuts whitespace, and all of it, off both ends. */
  lemma TrimShape(s: string)
    ensures IsTrimmed(Trim(s))
    ensures exists a, b :: 0 <= a <= b <= |s| && Trim(s) == s[a..b]
              && (forall i :: 0 <= i < a ==> IsWhitespace(s[i])) && (forall i :: b <= i < |s| ==> IsWhitespace(s[i]))
  {
    var b := SkipBlankBack(s, |s|);
    var e := s[..b];
    var a := SkipBlank(e, 0);
    assert Trim(s) == e[a..] == s[a..b];
    if a < b {
      assert s[a..b][0] == s[a] == e[a] && s[a..b][b - a - 1] == s[b - 1];
    }
    forall i | 0 <= i < a
      ensures IsWhitespace(s[i])
    {
      assert e[i] == s[i];
    }
  }

  lemma TrimTrimmed(s: string)
    requires IsTrimmed(s)
    ensures Trim(s) == s && TrimEnd(s) == s
  {
  }

  // ---------- lines ----------

  /** `str::split(sep)`: always at least one piece. */
  function Split(s: string, sep: char): (r: seq<string>)
    ensures |r| >= 1
    decreases |s|
  {
    if s == [] then [[]]
    else
      var rest := Split(s[1..], sep);
      if s[0] == sep then [[]] + rest else [[s[0]] + rest[0]] + rest[1..]
  }

  /** `[String]::join(sep)`. */
  function Join(pieces: seq<string>, sep: string): string {
    if pieces == [] then [] else if |pieces| == 1 then pieces[0] else pieces[0] + sep + Join(pieces[1..], sep)
  }

  predicate Free(s: string, c: char) { c !in s }

  lemma {:induction false} SplitPiecesFree(s: string, sep: char)
    ensures forall p :: p in Split(s, sep) ==> Free(p, sep)
    decreases |s|
  {
    if s != [] {
      SplitPiecesFree(s[1..], sep);
      var rest := Split(s[1..], sep);
      assert rest[0] in rest;
    }
  }

  lemma {:induction false} SplitOfFree(s: string, sep: char)
    requires Free(s, sep)
    ensures Split(s, sep) == [s]
    decreases |s|
  {
    if s != [] {
      assert forall c :: c in s[1..] ==> c in s;
      SplitOfFree(s[1..], sep);
      assert [s[0]] + s[1..] == s;
    }
  }

  /** Splitting after a separator-free head. */
  lemma {:induction false} SplitHead(p: string, sep: char, rest: string)
    requires Free(p, sep)
    ensures Split(p + [sep] + rest, sep) == [p] + Split(rest, sep)
    decreases |p|
  {
    var s := p + [sep] + rest;
    if p == [] {
      assert s[1..] == rest;
    } else {
      assert forall c :: c in p[1..] ==> c in p;
      assert s[1..] == p[1..] + [sep] + rest;
      SplitHead(p[1..], sep, rest);
      assert [p[0]] + p[1..] == p;
    }
  }

  /** Joining with a one-character separator that no piece contains is undone by splitting. */
  lemma {:induction false} SplitJoin(pieces: seq<string>, sep: char)
    requires pieces != [] && forall p :: p in pieces ==> Free(p, sep)
    ensures Split(Join(pieces, [sep]), sep) == pieces
  {
    if |pieces| == 1 {
      SplitOfFree(pieces[0], sep);
    } else {
      SplitHead(pieces[0], sep, Join(pieces[1..], [sep]));
      SplitJoin(pieces[1..], sep);
    }
  }

  // ---------- what is cut off ----------

  predicate Blank(s: string) { forall i :: 0 <= i < |s| ==> IsWhitespace(s[i]) }

  /** The whitespace characters one by one. */
  lemma WhitespaceExactly(c: char)
    ensures IsWhitespace(c) <==>
            c in ['\t', '\n', '\U{000B}', '\U{000C}', '\r', ' ', '\U{0085}', '\U{00A0}', '\U{1680}', '\U{2000}',
                  '\U{2001}', '\U{2002}', '\U{2003}', '\U{2004}', '\U{2005}', '\U{2006}', '\U{2007}', '\U{2008}',
                  '\U{2009}', '\U{200A}', '\U{2028}', '\U{2029}', '\U{202F}', '\U{205F}', '\U{3000}']
  {
  }

  predicate NoBlankEnd(s: string) { s == [] || !IsWhitespace(s[|s| - 1]) }

  /** Cutting at the end leaves the one core that ends in no whitespace. */
  lemma TrimEndIs(s: string, core: string, tail: string)
    requires s == core + tail && Blank(tail) && NoBlankEnd(core)
    ensures TrimEnd(s) == core
  {
    assert core != [] ==> s[|core| - 1] == core[|core| - 1];
    assert forall i :: |core| <= i < |s| ==> s[i] == tail[i - |core|];
    assert SkipBlankBack(s, |s|) == |core|;
    assert s[..|core|] == core;
  }

  lemma TrimEndParts(s: string)
    ensures s == TrimEnd(s) + s[|TrimEnd(s)|..] && Blank(s[|TrimEnd(s)|..]) && NoBlankEnd(TrimEnd(s))
  {
  }

  /** Cutting on both sides leaves the one core that neither starts nor ends in whitespace. */
  lemma TrimIs(s: string, head: string, core: string, tail: string)
    requires s == head + core + tail && Blank(head) && Blank(tail) && IsTrimmed(core) && core != []
    ensures Trim(s) == core
  {
    assert NoBlankEnd(head + core) by {
      assert (head + core)[|head + core| - 1] == core[|core| - 1];
    }
    TrimEndIs(s, head + core, tail);
    assert (head + core)[|head|] == core[0];
    assert forall i :: 0 <= i < |head| ==> (head + core)[i] == head[i];
    assert SkipBlank(head + core, 0) == |head|;
    assert (head + core)[|head|..] == core;
  }

  lemma TrimOfBlank(s: string)
    ensures Trim(s) == [] <==> Blank(s)
  {
    TrimShape(s);
    var a, b :| 0 <= a <= b <= |s| && Trim(s) == s[a..b]
                && (forall i :: 0 <= i < a ==> IsWhitespace(s[i])) && (forall i :: b <= i < |s| ==> IsWhitespace(s[i]));
    if a < b {
      assert Trim(s)[0] == s[a];
    }
  }
}
