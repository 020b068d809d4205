/** The four-level fuzzy search for a block of lines (`seek_sequence`). */
module SeekSequence {
  import opened Prelude
  import opened Text

  function NormaliseChar(c: char): char {
    if c in "\U{2010}\U{2011}\U{2012}\U{2013}\U{2014}\U{2015}\U{2212}" then '-'
    else if c in "\U{2018}\U{2019}\U{201A}\U{201B}" then '\''
    else if c in "\U{201C}\U{201D}\U{201E}\U{201F}" then '"'
    else if c == '\U{00A0}' || '\U{2002}' <= c <= '\U{200A}' || c in "\U{202F}\U{205F}\U{3000}" then ' '
    else c
  }

  function Normalise(s: string): string {
    var t := Trim(s);
    seq(|t|, i requires 0 <= i < |t| => NormaliseChar(t[i]))
  }

  /** From strict to lenient. */
  datatype Level = Exact | TrimmedEnd | Trimmed | Normalised

  /** What a level compares lines by. */
  function View(level: Level): string -> string {
    match level
    case Exact => (s: string) => s
    case TrimmedEnd => TrimEnd
    case Trimmed => Trim
    case Normalised => Normalise
  }

  function Rank(level: Level): nat {
    match level
    case Exact => 0
    case TrimmedEnd => 1
    case Trimmed => 2
    case Normalised => 3
  }

  /** The pattern matches the lines at position `i`, compared through `view`. */
  predicate MatchesBy(view: string -> string, lines: seq<string>, pattern: seq<string>, i: int) {
    && 0 <= i <= |lines| - |pattern|
    && forall j :: 0 <= j < |pattern| ==> view(lines[i + j]) == view(pattern[j])
  }

  predicate MatchesAt(level: Level, lines: seq<string>, pattern: seq<string>, i: int) {
    MatchesBy(View(level), lines, pattern, i)
  }

  lemma ViewsWiden(a: Level, b: Level, x: string, y: string)
    requires Rank(a) <= Rank(b) && View(a)(x) == View(a)(y)
    ensures View(b)(x) == View(b)(y)
  {
  }

  /** A match at some level is a match at every more lenient one. */
  lemma MatchesWiden(a: Level, b: Level, lines: seq<string>, pattern: seq<string>, i: int)
    requires Rank(a) <= Rank(b) && MatchesAt(a, lines, pattern, i)
    ensures MatchesAt(b, lines, pattern, i)
  {
    forall j | 0 <= j < |pattern|
      ensures View(b)(lines[i + j]) == View(b)(pattern[j])
    {
      ViewsWiden(a, b, lines[i + j], pattern[j]);
    }
  }

  /** Where the search starts: an end-of-file search looks at the last possible position only. */
  function SearchStart(lines: seq<string>, pattern: seq<string>, start: nat, eof: bool): int {
    if eof then |lines| - |pattern| else start
  }

  function FirstMatch(view: string -> string, lines: seq<string>, pattern: seq<string>, i: nat): (r: Option<nat>)
    ensures r.Some? ==> i <= r.value && MatchesBy(view, lines, pattern, r.value)
    ensures r.Some? ==> forall j :: i <= j < r.value ==> !MatchesBy(view, lines, pattern, j)
    ensures r.None? ==> forall j :: i <= j ==> !MatchesBy(view, lines, pattern, j)
    decreases |lines| - i
  {
    if i > |lines| - |pattern| then None
    else if MatchesBy(view, lines, pattern, i) then Some(i)
    else if i == |lines| then None
    else FirstMatch(view, lines, pattern, i + 1)
  }

  function Next(level: Level): Level
    requires !level.Normalised?
  {
    match level
    case Exact => TrimmedEnd
    case TrimmedEnd => Trimmed
    case Trimmed => Normalised
  }

  /** The passes over the search range from `level` on: the first that finds anything, and where. */
  function SeekDown(level: Level, lines: seq<string>, pattern: seq<string>, from: nat): Option<(Level, nat)>
    decreases 3 - Rank(level)
  {
    match FirstMatch(View(level), lines, pattern, from)
    case Some(p) => Some((level, p))
    case None => if level.Normalised? then None else SeekDown(Next(level), lines, pattern, from)
  }

  function Position(r: Option<(Level, nat)>): Option<nat> { if r.Some? then Some(r.value.1) else None }

  function Seek(lines: seq<string>, pattern: seq<string>, start: nat, eof: bool): Option<nat> {
    if pattern == [] then Some(start)
    else if |pattern| > |lines| then None
    else Position(SeekDown(Exact, lines, pattern, SearchStart(lines, pattern, start, eof)))
  }

  /** One search loop, with the early exit on the first differing line. */
  method Scan(view: string -> string, lines: seq<string>, pattern: seq<string>, from: nat) returns (r: Option<nat>)
    ensures r == FirstMatch(view, lines, pattern, from)
  {
    var i := from;
    while i + |pattern| <= |lines|
      invariant from <= i
      invariant FirstMatch(view, lines, pattern, i) == FirstMatch(view, lines, pattern, from)
      decreases |lines| - i
    {
      var ok, j := true, 0;
      while ok && j < |pattern|
        invariant 0 <= j <= |pattern|
        invariant ok ==> forall k :: 0 <= k < j ==> view(lines[i + k]) == view(pattern[k])
        invariant !ok ==> j < |pattern| && view(lines[i + j]) != view(pattern[j])
        decreases |pattern| - j, ok
      {
        if view(lines[i + j]) != view(pattern[j]) {
          ok := false;
        } else {
          j := j + 1;
        }
      }
      if ok {
        return Some(i);
      }
      i := i + 1;
    }
    r := None;
  }

  method SeekLines(lines: seq<string>, pattern: seq<string>, start: nat, eof: bool) returns (r: Option<nat>)
    ensures r == Seek(lines, pattern, start, eof)
  {
    if pattern == [] {
      return Some(start);
    }
    if |pattern| > |lines| {
      return None;
    }
    var from := if eof then |lines| - |pattern| else start;
    r := Scan(View(Exact), lines, pattern, from);
    if r.Some? {
      return;
    }
    assert SeekDown(Exact, lines, pattern, from) == SeekDown(TrimmedEnd, lines, pattern, from);
    r := Scan(View(TrimmedEnd), lines, pattern, from);
    if r.Some? {
      return;
    }
    assert SeekDown(TrimmedEnd, lines, pattern, from) == SeekDown(Trimmed, lines, pattern, from);
    r := Scan(View(Trimmed), lines, pattern, from);
    if r.Some? {
      return;
    }
    assert SeekDown(Trimmed, lines, pattern, from) == SeekDown(Normalised, lines, pattern, from);
    r := Scan(View(Normalised), lines, pattern, from);
  }

  lemma NoStricterMatch(level: Level, lines: seq<string>, pattern: seq<string>, from: nat)
    requires FirstMatch(View(level), lines, pattern, from).None?
    ensures forall stricter, i :: Rank(stricter) <= Rank(level) && from <= i ==> !MatchesAt(stricter, lines, pattern, i)
  {
    forall stricter, i | Rank(stricter) <= Rank(level) && from <= i
      ensures !MatchesAt(stricter, lines, pattern, i)
    {
      if MatchesAt(stricter, lines, pattern, i) {
        MatchesWiden(stricter, level, lines, pattern, i);
      }
    }
  }

  /** Leftmost in range at its level, with no match anywhere in range at a stricter level. */
  ghost predicate BestMatch(level: Level, lines: seq<string>, pattern: seq<string>, from: int, p: nat) {
    && from <= p && MatchesAt(level, lines, pattern, p)
    && (forall i :: from <= i < p ==> !MatchesAt(level, lines, pattern, i))
    && (forall stricter, i :: Rank(stricter) < Rank(level) && from <= i ==> !MatchesAt(stricter, lines, pattern, i))
  }

  lemma {:induction false} SeekDownBest(level: Level, lines: seq<string>, pattern: seq<string>, from: nat)
    requires forall stricter, i :: Rank(stricter) < Rank(level) && from <= i ==> !MatchesAt(stricter, lines, pattern, i)
    ensures match SeekDown(level, lines, pattern, from)
            case None => forall i :: from <= i ==> !MatchesAt(Normalised, lines, pattern, i)
            case Some((found, p)) => BestMatch(found, lines, pattern, from, p)
    decreases 3 - Rank(level)
  {
    if FirstMatch(View(level), lines, pattern, from).None? {
      NoStricterMatch(level, lines, pattern, from);
      if !level.Normalised? {
        SeekDownBest(Next(level), lines, pattern, from);
      }
    }
  }

  /**
   * For a non-empty pattern the search returns the leftmost position, in its range, at the strictest level that
   * matches anywhere in the range; it fails exactly when no position matches even after normalisation.
   */
  lemma SeekIsLeftmostStrictest(lines: seq<string>, pattern: seq<string>, start: nat, eof: bool)
    requires pattern != []
    ensures var from := SearchStart(lines, pattern, start, eof);
            match Seek(lines, pattern, start, eof)
            case None => forall i :: from <= i ==> !MatchesAt(Normalised, lines, pattern, i)
            case Some(p) => exists level :: BestMatch(level, lines, pattern, from, p)
  {
    if |pattern| <= |lines| {
      SeekDownBest(Exact, lines, pattern, SearchStart(lines, pattern, start, eof));
    }
  }

  /** An end-of-file search can only succeed where the pattern ends with the file, wherever the cursor is. */
  lemma EofIgnoresStart(lines: seq<string>, pattern: seq<string>, start: nat)
    requires pattern != []
    ensures var r := Seek(lines, pattern, start, true); r.Some? ==> r.value + |pattern| == |lines|
    ensures Seek(lines, pattern, start, true) == Seek(lines, pattern, 0, true)
  {
    SeekIsLeftmostStrictest(lines, pattern, start, true);
  }

  // ---------- what the levels compare ----------

  /** Which characters count as a dash, a quote or a space, by code point. */
  lemma NormaliseExactly(c: char)
    ensures NormaliseChar(c) == '-' <==> c == '-' || '\U{2010}' <= c <= '\U{2015}' || c == '\U{2212}'
    ensures NormaliseChar(c) == '\'' <==> c == '\'' || '\U{2018}' <= c <= '\U{201B}'
    ensures NormaliseChar(c) == '"' <==> c == '"' || '\U{201C}' <= c <= '\U{201F}'
    ensures NormaliseChar(c) == ' ' <==>
            || c == ' ' || c == '\U{00A0}' || c == '\U{2002}' || c == '\U{2003}' || c == '\U{2004}' || c == '\U{2005}'
            || c == '\U{2006}' || c == '\U{2007}' || c == '\U{2008}' || c == '\U{2009}' || c == '\U{200A}'
            || c == '\U{202F}' || c == '\U{205F}' || c == '\U{3000}'
    ensures NormaliseChar(c) !in "-'\" " ==> NormaliseChar(c) == c
  {
  }

  /** Up to whitespace at the end. */
  ghost predicate SameButEnd(x: string, y: string) {
    exists core, u, v :: x == core + u && y == core + v && Blank(u) && Blank(v)
  }

  /** The first level compares lines as they are, the second up to whitespace at their end. */
  lemma StrictLevels(x: string, y: string)
    ensures View(Exact)(x) == View(Exact)(y) <==> x == y
    ensures View(TrimmedEnd)(x) == View(TrimmedEnd)(y) <==> SameButEnd(x, y)
  {
    if TrimEnd(x) == TrimEnd(y) {
      TrimEndParts(x);
      TrimEndParts(y);
      assert x == TrimEnd(x) + x[|TrimEnd(x)|..] && y == TrimEnd(x) + y[|TrimEnd(x)|..];
    }
    if SameButEnd(x, y) {
      var core, u, v :| x == core + u && y == core + v && Blank(u) && Blank(v);
      CoreDecides(core, u);
      CoreDecides(core, v);
    }
  }

  lemma CoreDecides(core: string, tail: string)
    requires Blank(tail)
    ensures TrimEnd(core + tail) == TrimEnd(core)
  {
    TrimEndParts(core);
    var rest := core[|TrimEnd(core)|..] + tail;
    assert core + tail == TrimEnd(core) + rest;
    TrimEndIs(core + tail, TrimEnd(core), rest);
  }

  /** The third level compares what stands between the whitespace at both ends, the fourth that by character. */
  lemma LenientLevels(x: string, y: string)
    ensures View(Trimmed)(x) == View(Trimmed)(y) <==> Trim(x) == Trim(y)
    ensures View(Normalised)(x) == View(Normalised)(y) <==>
            |Trim(x)| == |Trim(y)|
            && forall i :: 0 <= i < |Trim(x)| ==> NormaliseChar(Trim(x)[i]) == NormaliseChar(Trim(y)[i])
  {
    var a, b := Normalise(x), Normalise(y);
    assert |a| == |Trim(x)| && |b| == |Trim(y)|;
    assert forall i :: 0 <= i < |a| ==> a[i] == NormaliseChar(Trim(x)[i]);
    assert forall i :: 0 <= i < |b| ==> b[i] == NormaliseChar(Trim(y)[i]);
  }
}
