/** Splitting generated TypeScript at top level (`ScanState`, `split_top_level_multi`) and filtering union arms. */
module TopLevelSplit {
  import opened Prelude
  import opened Text

  /** `ScanState`: nesting depths and the string literal being read, if any. */
  datatype Scan = Scan(brace: nat, bracket: nat, paren: nat, angle: nat, quote: Option<char>, escape: bool) {
    predicate Top() { quote.None? && brace == 0 && bracket == 0 && paren == 0 && angle == 0 }
  }

  const INIT := Scan(0, 0, 0, 0, None, false)

  function Less(n: nat): nat { if n == 0 then 0 else n - 1 }

  function Observe(s: Scan, ch: char): Scan {
    if s.quote.Some? then
      if s.escape then s.(escape := false)
      else if ch == '\\' then s.(escape := true)
      else if ch == s.quote.value then s.(quote := None)
      else s
    else
      match ch
      case '"' => s.(quote := Some(ch))
      case '\'' => s.(quote := Some(ch))
      case '{' => s.(brace := s.brace + 1)
      case '}' => s.(brace := Less(s.brace))
      case '[' => s.(bracket := s.bracket + 1)
      case ']' => s.(bracket := Less(s.bracket))
      case '(' => s.(paren := s.paren + 1)
      case ')' => s.(paren := Less(s.paren))
      case '<' => s.(angle := s.angle + 1)
      case '>' => s.(angle := Less(s.angle))
      case _ => s
  }

  /** Outside a string literal no escape is pending, and only quotes open one. */
  predicate Sound(s: Scan) {
    (s.escape ==> s.quote.Some?) && (s.quote.Some? ==> s.quote.value == '"' || s.quote.value == '\'')
  }

  function Run(s: Scan, text: string): Scan {
    if text == [] then s else Observe(Run(s, text[..|text| - 1]), text[|text| - 1])
  }

  function Piece(raw: string): seq<string> { if Trim(raw) == [] then [] else [Trim(raw)] }

  /** `split_top_level_multi` from scanner state `s`, with `cur` read since the last split point. */
  function SplitFrom(s: Scan, cur: string, rest: string, delimiters: set<char>): seq<string>
    decreases |rest|
  {
    if rest == [] then Piece(cur)
    else if s.Top() && rest[0] in delimiters then Piece(cur) + SplitFrom(Observe(s, rest[0]), [], rest[1..], delimiters)
    else SplitFrom(Observe(s, rest[0]), cur + [rest[0]], rest[1..], delimiters)
  }

  function SplitTop(input: string, delimiters: set<char>): seq<string> { SplitFrom(INIT, [], input, delimiters) }

  method SplitTopLevel(input: string, delimiters: set<char>) returns (parts: seq<string>)
    ensures parts == SplitTop(input, delimiters)
  {
    var state, start := INIT, 0;
    parts := [];
    ghost var todo := SplitTop(input, delimiters);
    assert input[0..] == input && input[0..0] == [] && [] + todo == todo;
    for i := 0 to |input|
      invariant 0 <= start <= i
      invariant todo == SplitFrom(state, input[start..i], input[i..], delimiters)
      invariant SplitTop(input, delimiters) == parts + todo
    {
      SplitAt(state, input, start, i, delimiters);
      if state.Top() && input[i] in delimiters {
        todo := SplitFrom(Observe(state, input[i]), input[i + 1..i + 1], input[i + 1..], delimiters);
        Regroup(parts, Piece(input[start..i]), todo);
        parts, start := parts + Piece(input[start..i]), i + 1;
      }
      state := Observe(state, input[i]);
    }
    assert input[|input|..] == [] && input[start..] == input[start..|input|];
    parts := parts + Piece(input[start..]);
  }

  lemma Regroup(a: seq<string>, b: seq<string>, c: seq<string>)
    ensures a + (b + c) == (a + b) + c
  {
  }

  lemma SplitAt(s: Scan, input: string, start: nat, i: nat, delimiters: set<char>)
    requires start <= i < |input|
    ensures SplitFrom(s, input[start..i], input[i..], delimiters) ==
            if s.Top() && input[i] in delimiters then
              Piece(input[start..i]) + SplitFrom(Observe(s, input[i]), input[i + 1..i + 1], input[i + 1..], delimiters)
            else SplitFrom(Observe(s, input[i]), input[start..i + 1], input[i + 1..], delimiters)
  {
    assert input[i..] == [input[i]] + input[i + 1..];
    assert input[i + 1..i + 1] == [] && input[start..i] + [input[i]] == input[start..i + 1];
    SplitStep(s, input[start..i], input[i], input[i + 1..], delimiters);
  }

  lemma SplitStep(s: Scan, cur: string, ch: char, rest: string, delimiters: set<char>)
    ensures SplitFrom(s, cur, [ch] + rest, delimiters) ==
            if s.Top() && ch in delimiters then Piece(cur) + SplitFrom(Observe(s, ch), [], rest, delimiters)
            else SplitFrom(Observe(s, ch), cur + [ch], rest, delimiters)
  {
    assert ([ch] + rest)[1..] == rest;
  }

  // ---------- solid parts ----------

  /** No delimiter stands at top level in `text`, read from the initial state. */
  predicate NoCut(text: string, delimiters: set<char>) {
    text == [] || (NoCut(text[..|text| - 1], delimiters)
                   && !(Run(INIT, text[..|text| - 1]).Top() && text[|text| - 1] in delimiters))
  }

  predicate Solid(part: string, delimiters: set<char>) { part != [] && IsTrimmed(part) && NoCut(part, delimiters) }

  /** The scanner is back in its initial state after the part. */
  predicate Closed(part: string) { Run(INIT, part) == INIT }

  /** Delimiters that the scanner and `trim` do not react to, such as `|`, `,` and `;`. */
  predicate Inert(delimiters: set<char>) {
    forall d :: d in delimiters ==> Observe(INIT, d) == INIT && !IsWhitespace(d)
  }

  lemma {:induction false} RunSound(text: string)
    ensures Sound(Run(INIT, text))
  {
    if text != [] {
      RunSound(text[..|text| - 1]);
    }
  }

  /** At every split point the scanner is in its initial state. */
  lemma SplitPointIsInitial(text: string)
    requires Run(INIT, text).Top()
    ensures Run(INIT, text) == INIT
  {
    RunSound(text);
  }

  lemma BlankKeepsScan(s: Scan, ch: char)
    requires IsWhitespace(ch) && Sound(s)
    ensures Observe(s, ch) == INIT ==> s == INIT
    ensures s == INIT ==> Observe(s, ch) == INIT
  {
  }

  lemma {:induction false} RunConcat(a: string, b: string)
    ensures Run(INIT, a + b) == Run(Run(INIT, a), b)
  {
    if b == [] {
      assert a + b == a;
    } else {
      assert (a + b)[..|a + b| - 1] == a + b[..|b| - 1];
      RunConcat(a, b[..|b| - 1]);
    }
  }

  lemma {:induction false} NoCutPrefix(a: string, b: string, delimiters: set<char>)
    requires NoCut(a + b, delimiters)
    ensures NoCut(a, delimiters)
  {
    if b == [] {
      assert a + b == a;
    } else {
      assert (a + b)[..|a + b| - 1] == a + b[..|b| - 1];
      NoCutPrefix(a, b[..|b| - 1], delimiters);
    }
  }

  lemma {:induction false} RunBlank(text: string)
    requires Blank(text)
    ensures Run(INIT, text) == INIT
  {
    if text != [] {
      RunBlank(text[..|text| - 1]);
      BlankKeepsScan(INIT, text[|text| - 1]);
    }
  }

  /** Whitespace before a text does not matter to the scanner. */
  lemma {:induction false} NoCutAfterBlank(w: string, text: string, delimiters: set<char>)
    requires Blank(w) && NoCut(w + text, delimiters)
    ensures NoCut(text, delimiters)
  {
    if text != [] {
      var init := text[..|text| - 1];
      assert (w + text)[..|w + text| - 1] == w + init;
      NoCutAfterBlank(w, init, delimiters);
      RunConcat(w, init);
      RunBlank(w);
    }
  }

  /** Whitespace after a text cannot have closed anything. */
  lemma {:induction false} ClosedBeforeBlank(text: string, w: string)
    requires Blank(w) && Closed(text + w)
    ensures Closed(text)
  {
    if w == [] {
      assert text + w == text;
    } else {
      var init := w[..|w| - 1];
      assert (text + w)[..|text + w| - 1] == text + init;
      RunSound(text + init);
      BlankKeepsScan(Run(INIT, text + init), w[|w| - 1]);
      ClosedBeforeBlank(text, init);
    }
  }

  lemma BlankSlice(s: string, a: nat, b: nat)
    requires a <= b <= |s| && forall i :: a <= i < b ==> IsWhitespace(s[i])
    ensures Blank(s[a..b])
  {
  }

  lemma TrimParts(raw: string) returns (w1: string, w2: string)
    ensures raw == w1 + (Trim(raw) + w2) && Blank(w1) && Blank(w2)
  {
    var b := SkipBlankBack(raw, |raw|);
    var e := TrimEnd(raw);
    var a := SkipBlank(e, 0);
    w1, w2 := e[0..a], raw[b..|raw|];
    BlankSlice(e, 0, a);
    BlankSlice(raw, b, |raw|);
    Reassemble(raw, b, a);
  }

  lemma Reassemble(s: string, b: nat, a: nat)
    requires a <= b <= |s|
    ensures s == s[..b][0..a] + (s[..b][a..] + s[b..|s|])
  {
  }

  /** Trimming a raw piece keeps it whole and, if it was closed, closed. */
  lemma TrimKeeps(raw: string, delimiters: set<char>)
    requires NoCut(raw, delimiters)
    ensures NoCut(Trim(raw), delimiters) && (Closed(raw) ==> Closed(Trim(raw)))
  {
    var w1, w2 := TrimParts(raw);
    TrimmedKeeps(w1, Trim(raw), w2, delimiters);
  }

  lemma TrimmedKeeps(w1: string, t: string, w2: string, delimiters: set<char>)
    requires Blank(w1) && Blank(w2) && NoCut(w1 + (t + w2), delimiters)
    ensures NoCut(t, delimiters) && (Closed(w1 + (t + w2)) ==> Closed(t))
  {
    NoCutAfterBlank(w1, t + w2, delimiters);
    NoCutPrefix(t, w2, delimiters);
    if Closed(w1 + (t + w2)) {
      RunConcat(w1, t + w2);
      RunBlank(w1);
      ClosedBeforeBlank(t, w2);
    }
  }

  // ---------- what splitting yields ----------

  /** Parts none of which can be split, all closed but perhaps the last. */
  ghost predicate Arms(parts: seq<string>, delimiters: set<char>) {
    parts == []
    || (Solid(parts[0], delimiters) && (parts[1..] != [] ==> Closed(parts[0])) && Arms(parts[1..], delimiters))
  }

  lemma PieceIsArm(raw: string, delimiters: set<char>)
    requires NoCut(raw, delimiters)
    ensures Arms(Piece(raw), delimiters)
    ensures Closed(raw) ==> forall p :: p in Piece(raw) ==> Closed(p)
  {
    TrimShape(raw);
    TrimKeeps(raw, delimiters);
  }

  lemma {:induction false} SplitYieldsArms(cur: string, rest: string, delimiters: set<char>)
    requires NoCut(cur, delimiters) && Inert(delimiters)
    ensures Arms(SplitFrom(Run(INIT, cur), cur, rest, delimiters), delimiters)
    decreases |rest|
  {
    var s := Run(INIT, cur);
    if rest == [] {
      PieceIsArm(cur, delimiters);
    } else {
      var ch := rest[0];
      if s.Top() && ch in delimiters {
        SplitPointIsInitial(cur);
        PieceIsArm(cur, delimiters);
        SplitYieldsArms([], rest[1..], delimiters);
        var tail := SplitFrom(INIT, [], rest[1..], delimiters);
        if Piece(cur) == [] {
          assert Piece(cur) + tail == tail;
        } else {
          assert (Piece(cur) + tail)[1..] == tail;
        }
      } else {
        assert (cur + [ch])[..|cur|] == cur;
        SplitYieldsArms(cur + [ch], rest[1..], delimiters);
      }
    }
  }

  /** Reading on through an uncut text only grows the current piece. */
  lemma {:induction false} SplitUncut(a: string, b: string, rest: string, delimiters: set<char>)
    requires NoCut(a + b, delimiters)
    ensures SplitFrom(Run(INIT, a), a, b + rest, delimiters) == SplitFrom(Run(INIT, a + b), a + b, rest, delimiters)
    decreases |b|
  {
    if b == [] {
      assert a + b == a && b + rest == rest;
    } else {
      var ch, b' := b[0], b[1..];
      assert (b + rest)[0] == ch && (b + rest)[1..] == b' + rest;
      assert a + b == (a + [ch]) + b';
      NoCutPrefix(a + [ch], b', delimiters);
      assert (a + [ch])[..|a|] == a;
      SplitUncut(a + [ch], b', rest, delimiters);
    }
  }

  /** Splitting any part again gives that part alone. */
  lemma SolidStaysWhole(part: string, delimiters: set<char>)
    requires Solid(part, delimiters)
    ensures SplitTop(part, delimiters) == [part]
  {
    assert [] + part == part && part + [] == part;
    SplitUncut([], part, [], delimiters);
    TrimTrimmed(part);
  }

  lemma ResplitIsStable(input: string, delimiters: set<char>, part: string)
    requires Inert(delimiters) && part in SplitTop(input, delimiters)
    ensures SplitTop(part, delimiters) == [part]
  {
    SplitYieldsArms([], input, delimiters);
    ArmsAreSolid(SplitTop(input, delimiters), delimiters, part);
    SolidStaysWhole(part, delimiters);
  }

  lemma {:induction false} ArmsAreSolid(parts: seq<string>, delimiters: set<char>, part: string)
    requires Arms(parts, delimiters) && part in parts
    ensures Solid(part, delimiters)
  {
    if part != parts[0] {
      ArmsAreSolid(parts[1..], delimiters, part);
    }
  }

  // ---------- joining and filtering ----------

  lemma TrimPadded(s: string)
    requires IsTrimmed(s) && s != []
    ensures Trim(s + " ") == s
  {
    var t := s + " ";
    assert t[|t| - 1] == ' ' && t[|t| - 2] == s[|s| - 1];
    assert SkipBlankBack(t, |t|) == SkipBlankBack(t, |t| - 1) == |s|;
    assert t[..|s|] == s;
  }

  lemma {:induction false} LeadingSpace(cur: string, s: Scan, rest: string, delimiters: set<char>)
    ensures SplitFrom(s, " " + cur, rest, delimiters) == SplitFrom(s, cur, rest, delimiters)
    decreases |rest|
  {
    TrimLeading(cur);
    if rest != [] && !(s.Top() && rest[0] in delimiters) {
      assert (" " + cur) + [rest[0]] == " " + (cur + [rest[0]]);
      LeadingSpace(cur + [rest[0]], Observe(s, rest[0]), rest[1..], delimiters);
    }
  }

  lemma {:induction false} SkipShifted(s: string, i: nat)
    requires i <= |s|
    ensures SkipBlank(" " + s, i + 1) == SkipBlank(s, i) + 1
    decreases |s| - i
  {
    if i < |s| {
      assert (" " + s)[i + 1] == s[i];
      SkipShifted(s, i + 1);
    }
  }

  lemma {:induction false} SkipBackShifted(s: string, i: nat)
    requires i <= |s|
    ensures SkipBlankBack(" " + s, i + 1) == if SkipBlankBack(s, i) == 0 then 0 else SkipBlankBack(s, i) + 1
  {
    if i > 0 {
      assert (" " + s)[i] == s[i - 1];
      SkipBackShifted(s, i - 1);
    }
  }

  lemma TrimLeading(s: string)
    ensures Trim(" " + s) == Trim(s)
  {
    SkipBackShifted(s, |s|);
    var e := TrimEnd(s);
    if e != [] {
      assert TrimEnd(" " + s) == " " + e;
      SkipShifted(e, 0);
      assert SkipBlank(" " + e, 0) == SkipBlank(" " + e, 1);
      assert (" " + e)[SkipBlank(e, 0) + 1..] == e[SkipBlank(e, 0)..];
    } else {
      assert TrimEnd(" " + s) == [];
    }
  }

  /** How parts are told apart and put together again: any of the delimiters splits, the mark with its spaces joins. */
  datatype Style = Style(delimiters: set<char>, pad: string, mark: char) {
    function Separator(): string { pad + [mark] + " " }
    predicate Usable() { Inert(delimiters) && mark in delimiters && (pad == "" || pad == " ") }
  }

  /** The arms of a union type, joined with ` | `. */
  const UNION := Style({'|'}, " ", '|')

  /** The fields of an object type, split at commas and semicolons, joined with `, `. */
  const FIELDS := Style({',', ';'}, "", ',')

  lemma PaddedArm(first: string, style: Style)
    requires style.Usable() && Solid(first, style.delimiters) && Closed(first)
    ensures var padded := first + style.pad;
            NoCut(padded, style.delimiters) && Closed(padded) && Piece(padded) == [first]
  {
    if style.pad == "" {
      assert first + style.pad == first;
      TrimTrimmed(first);
    } else {
      assert (first + " ")[..|first|] == first;
      TrimPadded(first);
    }
  }

  lemma SplitAtMark(padded: string, rest: string, style: Style)
    requires style.Usable() && NoCut(padded, style.delimiters) && Closed(padded)
    ensures SplitTop(padded + ([style.mark] + rest), style.delimiters)
         == Piece(padded) + SplitTop(rest, style.delimiters)
  {
    assert [] + padded == padded;
    var tail := [style.mark] + rest;
    SplitUncut([], padded, tail, style.delimiters);
    assert tail[0] == style.mark && tail[1..] == rest && Observe(INIT, style.mark) == INIT;
    assert SplitFrom(INIT, padded, tail, style.delimiters)
        == Piece(padded) + SplitFrom(INIT, [], rest, style.delimiters);
  }

  lemma SplitAfterSpace(rest: string, delimiters: set<char>)
    requires Inert(delimiters)
    ensures SplitTop(" " + rest, delimiters) == SplitTop(rest, delimiters)
  {
    assert (" " + rest)[1..] == rest && [] + [' '] == " " + [];
    LeadingSpace([], INIT, rest, delimiters);
  }

  lemma JoinedArms(first: string, rest: string, style: Style)
    ensures first + style.Separator() + rest == (first + style.pad) + ([style.mark] + (" " + rest))
  {
  }

  /** Parts that cannot be split, joined, split into exactly those parts. */
  lemma {:induction false} JoinThenSplit(arms: seq<string>, style: Style)
    requires style.Usable() && Arms(arms, style.delimiters)
    ensures SplitTop(Join(arms, style.Separator()), style.delimiters) == arms
    decreases |arms|
  {
    if arms == [] {
    } else if |arms| == 1 {
      SolidStaysWhole(arms[0], style.delimiters);
    } else {
      var first, rest := arms[0], Join(arms[1..], style.Separator());
      JoinedArms(first, rest, style);
      PaddedArm(first, style);
      SplitAtMark(first + style.pad, " " + rest, style);
      SplitAfterSpace(rest, style.delimiters);
      JoinThenSplit(arms[1..], style);
    }
  }

  function Filter(arms: seq<string>, keep: string -> bool): seq<string> {
    if arms == [] then [] else (if keep(arms[0]) then [arms[0]] else []) + Filter(arms[1..], keep)
  }

  lemma {:induction false} FilterMembers(arms: seq<string>, keep: string -> bool)
    ensures forall a :: a in Filter(arms, keep) <==> a in arms && keep(a)
  {
    if arms != [] {
      FilterMembers(arms[1..], keep);
      assert arms == [arms[0]] + arms[1..];
    }
  }

  lemma {:induction false} FilterOfKept(arms: seq<string>, keep: string -> bool)
    requires forall a :: a in arms ==> keep(a)
    ensures Filter(arms, keep) == arms
  {
    if arms != [] {
      assert arms[0] in arms;
      FilterOfKept(arms[1..], keep);
    }
  }

  lemma {:induction false} FilterKeepsArms(arms: seq<string>, keep: string -> bool, delimiters: set<char>)
    requires Arms(arms, delimiters)
    ensures Arms(Filter(arms, keep), delimiters)
  {
    if arms != [] {
      var rest := Filter(arms[1..], keep);
      FilterKeepsArms(arms[1..], keep, delimiters);
      FilterMembers(arms[1..], keep);
      if keep(arms[0]) {
        assert ([arms[0]] + rest)[1..] == rest;
        assert arms[1..] == [] ==> rest == [];
      } else {
        assert [] + rest == rest;
      }
    }
  }

  /** Splitting a body, keeping some of its parts, and joining them again. */
  function FilterParts(body: string, style: Style, keep: string -> bool): string {
    Join(Filter(SplitTop(body, style.delimiters), keep), style.Separator())
  }

  /**
   * Splitting the rejoined body gives exactly the kept parts, in order; so no part that was to go is left, and
   * filtering again changes nothing.
   */
  lemma FilterStable(body: string, style: Style, keep: string -> bool)
    requires style.Usable()
    ensures SplitTop(FilterParts(body, style, keep), style.delimiters) == Filter(SplitTop(body, style.delimiters), keep)
    ensures forall a :: a in SplitTop(FilterParts(body, style, keep), style.delimiters) <==>
                        a in SplitTop(body, style.delimiters) && keep(a)
    ensures FilterParts(FilterParts(body, style, keep), style, keep) == FilterParts(body, style, keep)
  {
    SplitYieldsArms([], body, style.delimiters);
    var arms := SplitTop(body, style.delimiters);
    FilterKeepsArms(arms, keep, style.delimiters);
    FilterMembers(arms, keep);
    FilterOfKept(Filter(arms, keep), keep);
    JoinThenSplit(Filter(arms, keep), style);
  }

  /** The filter of experimental methods works on the arms of a union, with its own `keep`. */
  lemma FilterUnionStable(body: string, keep: string -> bool)
    ensures FilterParts(body, UNION, keep) == Join(Filter(SplitTop(body, {'|'}), keep), " | ")
    ensures SplitTop(FilterParts(body, UNION, keep), {'|'}) == Filter(SplitTop(body, {'|'}), keep)
    ensures forall a :: a in SplitTop(FilterParts(body, UNION, keep), {'|'}) <==> a in SplitTop(body, {'|'}) && keep(a)
    ensures FilterParts(FilterParts(body, UNION, keep), UNION, keep) == FilterParts(body, UNION, keep)
  {
    assert UNION.Separator() == " | ";
    FilterStable(body, UNION, keep);
  }

  /** The filter of experimental fields works on the fields of an object type. */
  lemma FilterFieldsStable(body: string, keep: string -> bool)
    ensures FilterParts(body, FIELDS, keep) == Join(Filter(SplitTop(body, {',', ';'}), keep), ", ")
    ensures SplitTop(FilterParts(body, FIELDS, keep), {',', ';'}) == Filter(SplitTop(body, {',', ';'}), keep)
    ensures forall a :: a in SplitTop(FilterParts(body, FIELDS, keep), {',', ';'}) <==>
                        a in SplitTop(body, {',', ';'}) && keep(a)
    ensures FilterParts(FilterParts(body, FIELDS, keep), FIELDS, keep) == FilterParts(body, FIELDS, keep)
  {
    assert FIELDS.Separator() == ", ";
    FilterStable(body, FIELDS, keep);
  }

  // ---------- what protects a delimiter ----------

  /** The bracket pairs the scanner counts. */
  predicate Pair(open: char, close: char) {
    || (open == '{' && close == '}') || (open == '[' && close == ']')
    || (open == '(' && close == ')') || (open == '<' && close == '>')
  }

  predicate Opener(open: char) { open == '{' || open == '[' || open == '(' || open == '<' }

  /** The same state, `n` levels deeper in one kind of bracket. */
  function Deeper(s: Scan, open: char, n: nat): Scan {
    match open
    case '{' => s.(brace := s.brace + n)
    case '[' => s.(bracket := s.bracket + n)
    case '(' => s.(paren := s.paren + n)
    case _ => s.(angle := s.angle + n)
  }

  /** A text that closes no bracket it has not opened. */
  predicate Balanced(text: string) {
    text == [] || (Balanced(text[..|text| - 1]) && !Underflows(Run(INIT, text[..|text| - 1]), text[|text| - 1]))
  }

  predicate Underflows(s: Scan, ch: char) {
    && s.quote.None?
    && ((ch == '}' && s.brace == 0) || (ch == ']' && s.bracket == 0) || (ch == ')' && s.paren == 0)
        || (ch == '>' && s.angle == 0))
  }

  lemma DeeperStep(s: Scan, open: char, ch: char)
    requires Opener(open) && !Underflows(s, ch)
    ensures Observe(Deeper(s, open, 1), ch) == Deeper(Observe(s, ch), open, 1)
  {
    if s.quote.None? {
      DeeperBracket(s, open, ch);
    }
  }

  lemma DeeperBracket(s: Scan, open: char, ch: char)
    requires Opener(open) && s.quote.None? && !Underflows(s, ch)
    ensures Observe(Deeper(s, open, 1), ch) == Deeper(Observe(s, ch), open, 1)
  {
    match open
    case '{' =>
    case '[' =>
    case '(' =>
    case _ =>
  }

  lemma {:induction false} DeeperRun(open: char, text: string)
    requires Opener(open) && Balanced(text)
    ensures Run(Deeper(INIT, open, 1), text) == Deeper(Run(INIT, text), open, 1)
  {
    if text != [] {
      DeeperRun(open, text[..|text| - 1]);
      DeeperStep(Run(INIT, text[..|text| - 1]), open, text[|text| - 1]);
    }
  }

  lemma Opens(open: char, inner: string)
    requires Opener(open)
    ensures Run(INIT, [open] + inner) == Run(Deeper(INIT, open, 1), inner)
  {
    assert [open][..0] == [] && Run(INIT, [open]) == Observe(INIT, open);
    RunConcat([open], inner);
  }

  /** Inside brackets no delimiter splits, and behind the closing one the scanner is where it was. */
  lemma {:induction false} BracketsProtect(open: char, inner: string, delimiters: set<char>)
    requires Opener(open) && Balanced(inner) && Inert(delimiters)
    ensures NoCut([open] + inner, delimiters) && Run(INIT, [open] + inner) == Deeper(Run(INIT, inner), open, 1)
  {
    Opens(open, inner);
    DeeperRun(open, inner);
    var text := [open] + inner;
    if inner == [] {
      assert text[..0] == [] && open !in delimiters;
    } else {
      var n := |inner| - 1;
      BracketsProtect(open, inner[..n], delimiters);
      assert text[..|text| - 1] == [open] + inner[..n];
    }
  }

  /** A bracketed text is one part whatever it holds, as long as its own brackets and quotes match. */
  lemma BracketedIsOnePart(open: char, inner: string, close: char, delimiters: set<char>)
    requires Pair(open, close) && Balanced(inner) && Closed(inner) && Inert(delimiters)
    ensures SplitTop([open] + inner + [close], delimiters) == [[open] + inner + [close]]
  {
    BracketsProtect(open, inner, delimiters);
    var text := [open] + inner + [close];
    assert text[..|text| - 1] == [open] + inner;
    assert text[0] == open && text[|text| - 1] == close;
    SolidStaysWhole(text, delimiters);
  }

  /** In a string literal nothing counts but its end and escapes. */
  lemma {:induction false} QuotesProtect(quote: char, inner: string, delimiters: set<char>)
    requires (quote == '"' || quote == '\'') && quote !in inner && '\\' !in inner && quote !in delimiters
    ensures NoCut([quote] + inner, delimiters) && Run(INIT, [quote] + inner) == INIT.(quote := Some(quote))
  {
    var text := [quote] + inner;
    if inner == [] {
      assert text[..0] == [];
    } else {
      var n := |inner| - 1;
      assert text[..|text| - 1] == [quote] + inner[..n] && inner[n] in inner;
      QuotesProtect(quote, inner[..n], delimiters);
    }
  }

  /** A character behind a backslash never ends the literal. */
  lemma EscapesProtect(quote: char, ch: char)
    requires quote == '"' || quote == '\''
    ensures var s := INIT.(quote := Some(quote)); Observe(Observe(s, '\\'), ch) == s
  {
  }

  /** So a string literal is one part, brackets and delimiters in it or not. */
  lemma QuotedIsOnePart(quote: char, inner: string, delimiters: set<char>)
    requires (quote == '"' || quote == '\'') && quote !in inner && '\\' !in inner && Inert(delimiters)
    ensures SplitTop([quote] + inner + [quote], delimiters) == [[quote] + inner + [quote]]
  {
    QuotesProtect(quote, inner, delimiters);
    var text := [quote] + inner + [quote];
    assert text[..|text| - 1] == [quote] + inner;
    assert text[0] == quote && text[|text| - 1] == quote;
    SolidStaysWhole(text, delimiters);
  }
}
