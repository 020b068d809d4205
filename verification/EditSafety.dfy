/** When the planned edits of an update are disjoint, and what applying them backwards in place computes. */
module EditSafety {
  import opened Prelude
  import opened Text
  import opened SeekSequence
  import opened Sorting
  import opened Replacements

  // ---------- the planner ----------

  lemma SeekInBounds(lines: seq<string>, pattern: seq<string>, start: nat, eof: bool)
    requires start <= |lines| && Seek(lines, pattern, start, eof).Some?
    ensures var p := Seek(lines, pattern, start, eof).value;
            && p + |pattern| <= |lines|
            && (eof && pattern != [] ==> p + |pattern| == |lines|)
            && (!eof || pattern == [] ==> start <= p)
  {
    if pattern != [] {
      SeekIsLeftmostStrictest(lines, pattern, start, eof);
    }
  }

  /** What one chunk contributes: where its edit can lie relative to the cursor, and a cursor that never moves back. */
  lemma PlanOneShape(lines: seq<string>, chunk: Chunk, cursor: nat)
    requires cursor <= |lines| && PlanOne(lines, chunk, cursor).Ok?
    ensures var (p, next) := PlanOne(lines, chunk, cursor).value;
            && cursor <= next <= |lines|
            && p.edit.End() <= |lines|
            && match p.kind
               case AtCursor => cursor <= p.edit.start && p.edit.End() <= next
               case AtEof => p.edit.oldLen > 0 && p.edit.End() == |lines| == next
               case Addition => p.edit.start == AdditionIndex(lines) && p.edit.oldLen == 0
  {
    if chunk.context.Some? {
      SeekInBounds(lines, [chunk.context.value], cursor, false);
    }
    var here := AfterContext(lines, chunk, cursor).value;
    if chunk.oldLines != [] {
      var before := StripAll(chunk.oldLines);
      if Seek(lines, before, here, chunk.eof).Some? {
        SeekInBounds(lines, before, here, chunk.eof);
      } else {
        SeekInBounds(lines, DropLast(before), here, chunk.eof);
      }
    }
  }

  /** The edit of a plan's entry lies in the file, and a cursor edit lies behind everything already planned. */
  ghost predicate Entry(lines: seq<string>, p: Planned, cursor: nat) {
    && p.edit.End() <= |lines|
    && match p.kind
       case AtCursor => cursor <= p.edit.start
       case AtEof => p.edit.oldLen > 0 && p.edit.End() == |lines|
       case Addition => p.edit.start == AdditionIndex(lines) && p.edit.oldLen == 0
  }

  /** Every entry is in range, and a chunk found from the cursor lies behind every chunk found before it. */
  ghost predicate PlanOk(lines: seq<string>, plan: seq<Planned>, cursor: nat) {
    && (forall j :: 0 <= j < |plan| ==> Entry(lines, plan[j], cursor))
    && (forall i, j :: 0 <= i < j < |plan| && !plan[i].kind.Addition? && plan[j].kind.AtCursor? ==>
          plan[i].edit.End() <= plan[j].edit.start)
  }

  lemma PlanOkStep(lines: seq<string>, p: Planned, rest: seq<Planned>, cursor: nat, next: nat)
    requires cursor <= next && Entry(lines, p, cursor) && PlanOk(lines, rest, next)
    requires !p.kind.Addition? ==> p.edit.End() <= next
    ensures PlanOk(lines, [p] + rest, cursor)
  {
    var plan := [p] + rest;
    forall j | 0 < j < |plan|
      ensures plan[j] == rest[j - 1] && Entry(lines, plan[j], next)
    {
    }
  }

  lemma {:induction false} PlanShape(lines: seq<string>, chunks: seq<Chunk>, cursor: nat)
    requires cursor <= |lines| && PlanFrom(lines, chunks, cursor).Ok?
    ensures PlanOk(lines, PlanFrom(lines, chunks, cursor).value, cursor)
    decreases |chunks|
  {
    if chunks != [] {
      PlanOneShape(lines, chunks[0], cursor);
      var (p, next) := PlanOne(lines, chunks[0], cursor).value;
      PlanShape(lines, chunks[1..], next);
      PlanOkStep(lines, p, PlanFrom(lines, chunks[1..], next).value, cursor, next);
    }
  }

  predicate RemovesLast(lines: seq<string>, e: Edit) { e.oldLen > 0 && e.End() == |lines| }

  /** What the planner guarantees of any plan. */
  ghost predicate WellPlanned(lines: seq<string>, plan: seq<Planned>) { PlanOk(lines, plan, 0) }

  // ---------- what a caller can check chunk by chunk ----------

  /**
   * What matters about the chunks already walked: the end of the lines they replace, and whether one was an
   * addition.
   */
  datatype Walk = Walk(frontier: nat, added: bool)

  const START := Walk(0, false)

  /**
   * The next chunk is in nobody's way: an addition comes while a final empty line still stands, an end-of-file chunk
   * starts behind all lines replaced so far, and once something was added in front of a final empty line no chunk
   * removes more than that line together with it.
   */
  predicate Fits(lines: seq<string>, w: Walk, p: Planned) {
    match p.kind
    case Addition => EndsBlank(lines) ==> w.frontier < |lines|
    case AtEof => w.frontier <= |lines| - p.edit.oldLen && TailSpared(lines, w, p.edit)
    case AtCursor => TailSpared(lines, w, p.edit)
  }

  predicate TailSpared(lines: seq<string>, w: Walk, e: Edit) {
    w.added && EndsBlank(lines) && RemovesLast(lines, e) ==> e.start == |lines| - 1
  }

  function Advance(lines: seq<string>, w: Walk, p: Planned): Walk {
    if p.kind.Addition? then w.(added := true)
    else if p.edit.start < |lines| then w.(frontier := p.edit.End())
    else w
  }

  predicate AllFit(lines: seq<string>, w: Walk, plan: seq<Planned>)
    decreases |plan|
  {
    plan == [] || (Fits(lines, w, plan[0]) && AllFit(lines, Advance(lines, w, plan[0]), plan[1..]))
  }

  /** Walking the chunks with the cursor, every one fits. */
  predicate Safe(lines: seq<string>, chunks: seq<Chunk>, cursor: nat, w: Walk)
    decreases |chunks|
  {
    chunks == []
    || match PlanOne(lines, chunks[0], cursor)
       case Err(_) => true
       case Ok((p, next)) => Fits(lines, w, p) && Safe(lines, chunks[1..], next, Advance(lines, w, p))
  }

  lemma {:induction false} SafeIsAllFit(lines: seq<string>, chunks: seq<Chunk>, cursor: nat, w: Walk)
    requires PlanFrom(lines, chunks, cursor).Ok?
    ensures Safe(lines, chunks, cursor, w) <==> AllFit(lines, w, PlanFrom(lines, chunks, cursor).value)
    decreases |chunks|
  {
    if chunks != [] {
      var (p, next) := PlanOne(lines, chunks[0], cursor).value;
      SafeIsAllFit(lines, chunks[1..], next, Advance(lines, w, p));
      var rest := PlanFrom(lines, chunks[1..], next).value;
      assert ([p] + rest)[1..] == rest;
    }
  }

  /** The walk summarises the edits made so far. */
  ghost predicate Summary(lines: seq<string>, done: seq<Planned>, w: Walk) {
    && w.frontier <= |lines|
    && (forall p :: p in done && !p.kind.Addition? && p.edit.start < |lines| ==> p.edit.End() <= w.frontier)
    && (w.frontier > 0 ==>
          exists p :: p in done && !p.kind.Addition? && p.edit.start < |lines| && p.edit.End() == w.frontier)
    && (w.added <==> exists p :: p in done && p.kind.Addition?)
  }

  /** A new edit is apart from every edit made so far. */
  ghost predicate ApartFromAll(done: seq<Planned>, p: Planned) { forall x :: x in done ==> Apart(x.edit, p.edit) }

  /** The planner's guarantees for a new edit against those made so far. */
  ghost predicate Placed(lines: seq<string>, done: seq<Planned>, p: Planned) {
    && Entry(lines, p, 0)
    && (forall x :: x in done ==> Entry(lines, x, 0))
    && (forall x :: x in done && !x.kind.Addition? && p.kind.AtCursor? ==> x.edit.End() <= p.edit.start)
  }

  lemma FitsIsApart(lines: seq<string>, done: seq<Planned>, w: Walk, p: Planned)
    requires Summary(lines, done, w) && Placed(lines, done, p) && Fits(lines, w, p)
    ensures ApartFromAll(done, p)
  {
  }

  lemma ApartIsFits(lines: seq<string>, done: seq<Planned>, w: Walk, p: Planned)
    requires Summary(lines, done, w) && Placed(lines, done, p) && ApartFromAll(done, p)
    ensures Fits(lines, w, p)
  {
  }

  lemma SummaryStep(lines: seq<string>, done: seq<Planned>, w: Walk, p: Planned)
    requires Summary(lines, done, w) && Placed(lines, done, p) && Fits(lines, w, p)
    ensures Summary(lines, done + [p], Advance(lines, w, p))
  {
  }
  /** From place `k` of the plan on, every edit is apart from all before it. */
  ghost predicate LateApart(plan: seq<Planned>, k: nat) {
    forall i, j :: 0 <= i < j < |plan| && k <= j ==> Apart(plan[i].edit, plan[j].edit)
  }

  lemma LateApartStep(plan: seq<Planned>, k: nat)
    requires k < |plan|
    ensures LateApart(plan, k) <==> ApartFromAll(plan[..k], plan[k]) && LateApart(plan, k + 1)
  {
    if LateApart(plan, k) {
      forall x | x in plan[..k]
        ensures Apart(x.edit, plan[k].edit)
      {
        var i :| 0 <= i < k && plan[i] == x;
      }
    } else if ApartFromAll(plan[..k], plan[k]) {
      forall i | 0 <= i < k
        ensures Apart(plan[i].edit, plan[k].edit)
      {
        assert plan[i] in plan[..k];
      }
    }
  }

  lemma PlacedInPlan(lines: seq<string>, plan: seq<Planned>, k: nat)
    requires WellPlanned(lines, plan) && k < |plan|
    ensures Placed(lines, plan[..k], plan[k])
  {
  }

  lemma FitStep(lines: seq<string>, plan: seq<Planned>, k: nat, w: Walk)
    requires WellPlanned(lines, plan) && k < |plan| && Summary(lines, plan[..k], w)
    ensures Fits(lines, w, plan[k]) <==> ApartFromAll(plan[..k], plan[k])
    ensures Fits(lines, w, plan[k]) ==> Summary(lines, plan[..k + 1], Advance(lines, w, plan[k]))
  {
    PlacedInPlan(lines, plan, k);
    if Fits(lines, w, plan[k]) {
      FitsIsApart(lines, plan[..k], w, plan[k]);
      SummaryStep(lines, plan[..k], w, plan[k]);
      assert plan[..k] + [plan[k]] == plan[..k + 1];
    } else if ApartFromAll(plan[..k], plan[k]) {
      ApartIsFits(lines, plan[..k], w, plan[k]);
    }
  }

  lemma AllFitStep(lines: seq<string>, plan: seq<Planned>, k: nat, w: Walk)
    requires k < |plan|
    ensures AllFit(lines, w, plan[k..])
       <==> Fits(lines, w, plan[k]) && AllFit(lines, Advance(lines, w, plan[k]), plan[k + 1..])
  {
    assert plan[k..][0] == plan[k] && plan[k..][1..] == plan[k + 1..];
  }

  lemma {:induction false} FitIffApart(lines: seq<string>, plan: seq<Planned>, k: nat, w: Walk)
    requires WellPlanned(lines, plan) && k <= |plan| && Summary(lines, plan[..k], w)
    ensures AllFit(lines, w, plan[k..]) <==> LateApart(plan, k)
    decreases |plan| - k
  {
    if k < |plan| {
      FitStep(lines, plan, k, w);
      LateApartStep(plan, k);
      AllFitStep(lines, plan, k, w);
      if Fits(lines, w, plan[k]) {
        FitIffApart(lines, plan, k + 1, Advance(lines, w, plan[k]));
      }
    }
  }

  lemma PairwiseIsLate(plan: seq<Planned>)
    ensures PairwiseApart(Edits(plan)) <==> LateApart(plan, 0)
  {
    assert forall i :: 0 <= i < |plan| ==> Edits(plan)[i] == plan[i].edit;
  }

  /**
   * The computed edits are always in bounds and sorted by start, and are the planned ones. They are disjoint exactly
   * when every chunk fits as it is reached.
   */
  lemma ReplacementsDisjointIff(lines: seq<string>, chunks: seq<Chunk>)
    requires PlanFrom(lines, chunks, 0).Ok?
    ensures var plan, edits := PlanFrom(lines, chunks, 0).value, Compute(lines, chunks).value;
            && InBounds(edits, |lines|) && SortedByStart(edits)
            && multiset(edits) == multiset(Edits(plan))
            && (Disjoint(edits) <==> Safe(lines, chunks, 0, START))
  {
    var plan := PlanFrom(lines, chunks, 0).value;
    PlanShape(lines, chunks, 0);
    SortCorrect(Edits(plan));
    SortPermutes(ByStart(), Edits(plan));
    SortInBounds(lines, plan);
    SafeIsAllFit(lines, chunks, 0, START);
    assert plan[0..] == plan && plan[..0] == [];
    FitIffApart(lines, plan, 0, START);
    PairwiseIsLate(plan);
  }

  lemma SortInBounds(lines: seq<string>, plan: seq<Planned>)
    requires WellPlanned(lines, plan)
    ensures InBounds(StableSort(Edits(plan)), |lines|)
  {
    var edits := StableSort(Edits(plan));
    SortSameMembers(ByStart(), Edits(plan));
    forall i | 0 <= i < |edits|
      ensures edits[i].End() <= |lines|
    {
      assert edits[i] in Edits(plan);
      var k :| 0 <= k < |plan| && Edits(plan)[k] == edits[i];
      assert Entry(lines, plan[k], 0);
    }
  }

  // ---------- the applier ----------

  /** One edit in place: removal stops at the end of the list. */
  function Replace(lines: seq<string>, e: Edit): seq<string>
    requires e.start <= |lines|
  {
    lines[..e.start] + e.newLines + (if e.End() <= |lines| then lines[e.End()..] else [])
  }

  /** Every edit can be made where it says, once all later ones have been made. */
  predicate Applicable(lines: seq<string>, edits: seq<Edit>) {
    SortedByStart(edits) && forall e :: e in edits ==> e.start <= |lines|
  }

  /** The edits made from the last to the first. */
  function ApplyBackwards(lines: seq<string>, edits: seq<Edit>): (r: seq<string>)
    requires Applicable(lines, edits)
    ensures edits != [] ==> |r| >= edits[0].start
    ensures edits == [] ==> r == lines
  {
    if edits == [] then lines
    else
      assert edits[0] in edits;
      assert forall e :: e in edits[1..] ==> e in edits;
      assert edits[1..] != [] ==> edits[1..][0] in edits[1..];
      Replace(ApplyBackwards(lines, edits[1..]), edits[0])
  }

  method ReplaceInPlace(lines: seq<string>, e: Edit) returns (r: seq<string>)
    requires e.start <= |lines|
    ensures r == Replace(lines, e)
  {
    r := lines;
    for k := 0 to e.oldLen
      invariant |r| == if e.start + k <= |lines| then |lines| - k else e.start
      invariant r == lines[..e.start] + (if e.start + k <= |lines| then lines[e.start + k..] else [])
    {
      if e.start < |r| {
        r := r[..e.start] + r[e.start + 1..];
      }
    }
    ghost var rest := r[e.start..];
    for k := 0 to |e.newLines|
      invariant |r| == e.start + k + |rest|
      invariant r == lines[..e.start] + e.newLines[..k] + rest
    {
      r := r[..e.start + k] + [e.newLines[k]] + r[e.start + k..];
    }
  }

  /** `apply_replacements`: no insertion is ever out of range. */
  method ApplyReplacements(lines: seq<string>, edits: seq<Edit>) returns (r: seq<string>)
    requires Applicable(lines, edits)
    ensures r == ApplyBackwards(lines, edits)
  {
    r := lines;
    var k := |edits|;
    while k > 0
      invariant 0 <= k <= |edits|
      invariant Applicable(lines, edits[k..]) && r == ApplyBackwards(lines, edits[k..])
    {
      ApplicableAt(lines, edits, k - 1);
      assert edits[k - 1..][1..] == edits[k..];
      r := ReplaceInPlace(r, edits[k - 1]);
      k := k - 1;
    }
    assert edits[0..] == edits;
  }

  lemma {:induction false} ApplicableAt(lines: seq<string>, edits: seq<Edit>, k: nat)
    requires Applicable(lines, edits) && k < |edits|
    ensures Applicable(lines, edits[k..])
    ensures Applicable(lines, edits[k..][1..])
    ensures edits[k].start <= |ApplyBackwards(lines, edits[k..][1..])|
  {
    var tail := edits[k..];
    if k == 0 {
      assert tail == edits;
      assert forall e :: e in edits[1..] ==> e in edits;
      assert edits[0] in edits;
      if edits[1..] != [] {
        assert edits[1..][0] in edits[1..];
      }
    } else {
      assert edits[1..][k - 1..] == tail;
      assert forall e :: e in edits[1..] ==> e in edits;
      ApplicableAt(lines, edits[1..], k - 1);
    }
  }

  // ---------- refinement: the in-place applier is a left-to-right splice ----------

  /** Copy up to the first edit, put its new lines, go on after the lines it replaces. */
  function Splice(lines: seq<string>, edits: seq<Edit>, from: nat): seq<string>
    requires Disjoint(edits) && InBounds(edits, |lines|) && from <= |lines| && (edits != [] ==> from <= edits[0].start)
    decreases |edits|
  {
    if edits == [] then lines[from..]
    else
      TailReady(lines, edits);
      lines[from..edits[0].start] + edits[0].newLines + Splice(lines, edits[1..], edits[0].End())
  }

  lemma TailReady(lines: seq<string>, edits: seq<Edit>)
    requires Disjoint(edits) && InBounds(edits, |lines|) && edits != []
    ensures InBounds(edits[1..], |lines|) && edits[0].End() <= |lines|
    ensures edits[1..] != [] ==> edits[0].End() <= edits[1..][0].start
  {
    assert forall i :: 0 <= i < |edits[1..]| ==> edits[1..][i] == edits[i + 1];
    if edits[1..] != [] {
      assert edits[1..][0] in edits[1..];
    }
  }

  lemma {:induction false} DisjointIsApplicable(lines: seq<string>, edits: seq<Edit>)
    requires Disjoint(edits) && InBounds(edits, |lines|)
    ensures Applicable(lines, edits)
  {
    if edits != [] {
      TailReady(lines, edits);
      DisjointIsApplicable(lines, edits[1..]);
      assert edits == [edits[0]] + edits[1..];
    }
  }

  lemma {:induction false} BackwardsIsPrefixAndSplice(lines: seq<string>, edits: seq<Edit>, from: nat)
    requires Disjoint(edits) && InBounds(edits, |lines|) && from <= |lines| && (edits != [] ==> from <= edits[0].start)
    requires Applicable(lines, edits)
    ensures ApplyBackwards(lines, edits) == lines[..from] + Splice(lines, edits, from)
    decreases |edits|
  {
    if edits != [] {
      var e, rest := edits[0], edits[1..];
      TailReady(lines, edits);
      DisjointIsApplicable(lines, rest);
      BackwardsIsPrefixAndSplice(lines, rest, e.End());
      var tail := Splice(lines, rest, e.End());
      var later := ApplyBackwards(lines, rest);
      assert later == lines[..e.End()] + tail;
      assert later[..e.start] == lines[..e.start] && later[e.End()..] == tail;
      assert lines[..e.start] == lines[..from] + lines[from..e.start];
    }
  }

  function Removed(edits: seq<Edit>): nat { if edits == [] then 0 else edits[0].oldLen + Removed(edits[1..]) }

  function Inserted(edits: seq<Edit>): nat { if edits == [] then 0 else |edits[0].newLines| + Inserted(edits[1..]) }

  lemma {:induction false} SpliceLength(lines: seq<string>, edits: seq<Edit>, from: nat)
    requires Disjoint(edits) && InBounds(edits, |lines|) && from <= |lines| && (edits != [] ==> from <= edits[0].start)
    ensures |Splice(lines, edits, from)| == |lines| - from - Removed(edits) + Inserted(edits)
    decreases |edits|
  {
    if edits != [] {
      TailReady(lines, edits);
      SpliceLength(lines, edits[1..], edits[0].End());
    }
  }

  /** How far the edits in front of line `i` move it. */
  function Shift(edits: seq<Edit>, i: nat): int {
    if edits == [] || edits[0].End() > i then 0 else |edits[0].newLines| - edits[0].oldLen + Shift(edits[1..], i)
  }

  /** Line `i` is not among the replaced ones. */
  predicate Untouched(edits: seq<Edit>, i: nat) {
    forall e :: e in edits ==> i < e.start || e.End() <= i
  }

  /** The line `line` stands at position `k` of `r`. */
  predicate StandsAt(r: seq<string>, k: int, line: string) { 0 <= k < |r| && r[k] == line }

  lemma InHead(lines: seq<string>, from: nat, start: nat, inserted: seq<string>, tail: seq<string>, i: nat)
    requires from <= i < start <= |lines|
    ensures StandsAt(lines[from..start] + inserted + tail, i - from, lines[i])
  {
  }

  lemma BehindHead(lines: seq<string>, from: nat, start: nat, inserted: seq<string>, tail: seq<string>, at: int,
                   line: string)
    requires from <= start <= |lines| && StandsAt(tail, at, line)
    ensures StandsAt(lines[from..start] + inserted + tail, start - from + |inserted| + at, line)
  {
  }

  lemma UntouchedTail(edits: seq<Edit>, i: nat)
    requires edits != [] && Untouched(edits, i)
    ensures Untouched(edits[1..], i) && (i < edits[0].start || edits[0].End() <= i)
  {
    assert edits[0] in edits;
    assert forall y :: y in edits[1..] ==> y in edits;
  }

  /** `r` continues the lines from `from` on: every untouched one is there, shifted by the edits in front of it. */
  ghost predicate Keeps(lines: seq<string>, edits: seq<Edit>, from: nat, r: seq<string>) {
    forall i: nat :: from <= i < |lines| && Untouched(edits, i) ==> StandsAt(r, i - from + Shift(edits, i), lines[i])
  }

  lemma KeepsStep(lines: seq<string>, edits: seq<Edit>, from: nat, tail: seq<string>)
    requires edits != [] && from <= edits[0].start && edits[0].End() <= |lines|
    requires Keeps(lines, edits[1..], edits[0].End(), tail)
    ensures Keeps(lines, edits, from, lines[from..edits[0].start] + edits[0].newLines + tail)
  {
    var e, rest := edits[0], edits[1..];
    forall i: nat | from <= i < |lines| && Untouched(edits, i)
      ensures StandsAt(lines[from..e.start] + e.newLines + tail, i - from + Shift(edits, i), lines[i])
    {
      UntouchedTail(edits, i);
      if e.End() <= i {
        BehindHead(lines, from, e.start, e.newLines, tail, i - e.End() + Shift(rest, i), lines[i]);
      } else {
        InHead(lines, from, e.start, e.newLines, tail, i);
      }
    }
  }

  lemma {:induction false} SpliceKeeps(lines: seq<string>, edits: seq<Edit>, from: nat)
    requires Disjoint(edits) && InBounds(edits, |lines|) && from <= |lines| && (edits != [] ==> from <= edits[0].start)
    ensures Keeps(lines, edits, from, Splice(lines, edits, from))
    decreases |edits|
  {
    if edits != [] {
      TailReady(lines, edits);
      SpliceKeeps(lines, edits[1..], edits[0].End());
      KeepsStep(lines, edits, from, Splice(lines, edits[1..], edits[0].End()));
    }
  }

  /** For disjoint edits the backwards in-place applier equals the left-to-right splice, and lines are conserved. */
  lemma ApplierRefinesSplice(lines: seq<string>, edits: seq<Edit>)
    requires Disjoint(edits) && InBounds(edits, |lines|)
    ensures Applicable(lines, edits)
    ensures ApplyBackwards(lines, edits) == Splice(lines, edits, 0)
    ensures |ApplyBackwards(lines, edits)| == |lines| - Removed(edits) + Inserted(edits)
  {
    DisjointIsApplicable(lines, edits);
    BackwardsIsPrefixAndSplice(lines, edits, 0);
    assert lines[..0] + Splice(lines, edits, 0) == Splice(lines, edits, 0);
    SpliceLength(lines, edits, 0);
  }

  /** Every untouched line is kept, moved by exactly what the edits in front of it add and remove. */
  lemma UntouchedLinesKept(lines: seq<string>, edits: seq<Edit>, i: nat)
    requires Disjoint(edits) && InBounds(edits, |lines|) && Applicable(lines, edits)
    requires i < |lines| && Untouched(edits, i)
    ensures StandsAt(ApplyBackwards(lines, edits), i + Shift(edits, i), lines[i])
  {
    ApplierRefinesSplice(lines, edits);
    SpliceKeeps(lines, edits, 0);
  }

  /** Whatever was planned, applying it never goes out of range. */
  lemma ComputedIsApplicable(lines: seq<string>, chunks: seq<Chunk>)
    requires Compute(lines, chunks).Ok?
    ensures Applicable(lines, Compute(lines, chunks).value)
  {
    ReplacementsDisjointIff(lines, chunks);
    var edits := Compute(lines, chunks).value;
    forall e | e in edits
      ensures e.start <= |lines|
    {
      var i :| 0 <= i < |edits| && edits[i] == e;
    }
  }

  // ---------- what this means for a whole update ----------

  /** Exactly when every chunk fits as it is reached, the whole update is the left-to-right splice of disjoint edits. */
  lemma SafeUpdatesSplice(lines: seq<string>, chunks: seq<Chunk>)
    requires Compute(lines, chunks).Ok? && Safe(lines, chunks, 0, START)
    ensures var edits := Compute(lines, chunks).value;
            && Disjoint(edits) && InBounds(edits, |lines|) && Applicable(lines, edits)
            && ApplyBackwards(lines, edits) == Splice(lines, edits, 0)
  {
    ReplacementsDisjointIff(lines, chunks);
    ApplierRefinesSplice(lines, Compute(lines, chunks).value);
  }

  /**
   * Walking the chunks with the cursor: an end-of-file chunk has room for its old lines behind the cursor, and no
   * addition meets a file that ends in an empty line.
   */
  predicate CursorClear(lines: seq<string>, chunks: seq<Chunk>, cursor: nat)
    decreases |chunks|
  {
    chunks == []
    || match PlanOne(lines, chunks[0], cursor)
       case Err(_) => true
       case Ok((_, next)) =>
         && (chunks[0].oldLines == [] ==> !EndsBlank(lines))
         && (chunks[0].eof ==> AfterContext(lines, chunks[0], cursor).value <= |lines| - |chunks[0].oldLines|)
         && CursorClear(lines, chunks[1..], next)
  }

  lemma ClearChunkFits(lines: seq<string>, chunk: Chunk, cursor: nat, w: Walk)
    requires cursor <= |lines| && PlanOne(lines, chunk, cursor).Ok? && w.frontier <= cursor
    requires (w.added ==> !EndsBlank(lines))
    requires chunk.oldLines == [] ==> !EndsBlank(lines)
    requires chunk.eof ==> AfterContext(lines, chunk, cursor).value <= |lines| - |chunk.oldLines|
    ensures var (p, next) := PlanOne(lines, chunk, cursor).value;
            var after := Advance(lines, w, p);
            Fits(lines, w, p) && after.frontier <= next && (after.added ==> !EndsBlank(lines))
  {
    PlanOneShape(lines, chunk, cursor);
    if chunk.context.Some? {
      SeekInBounds(lines, [chunk.context.value], cursor, false);
    }
  }

  lemma {:induction false} CursorClearIsSafe(lines: seq<string>, chunks: seq<Chunk>, cursor: nat, w: Walk)
    requires cursor <= |lines| && w.frontier <= cursor && (w.added ==> !EndsBlank(lines))
    requires CursorClear(lines, chunks, cursor)
    ensures Safe(lines, chunks, cursor, w)
    decreases |chunks|
  {
    if chunks != [] && PlanOne(lines, chunks[0], cursor).Ok? {
      var (p, next) := PlanOne(lines, chunks[0], cursor).value;
      ClearChunkFits(lines, chunks[0], cursor, w);
      PlanOneShape(lines, chunks[0], cursor);
      CursorClearIsSafe(lines, chunks[1..], next, Advance(lines, w, p));
    }
  }

  /**
   * Under that guard planning and applying is the left-to-right splice of disjoint edits, end-of-file chunks
   * included.
   */
  lemma ClearUpdatesSplice(lines: seq<string>, chunks: seq<Chunk>)
    requires Compute(lines, chunks).Ok? && CursorClear(lines, chunks, 0)
    ensures var edits := Compute(lines, chunks).value;
            && Disjoint(edits) && InBounds(edits, |lines|) && Applicable(lines, edits)
            && ApplyBackwards(lines, edits) == Splice(lines, edits, 0)
  {
    CursorClearIsSafe(lines, chunks, 0, START);
    SafeUpdatesSplice(lines, chunks);
  }

  // ---------- the two ways edits can collide ----------

  /** An end-of-file chunk ignores the cursor and can land on lines the chunk before it replaced. */
  lemma EofCollision()
    ensures var chunks := [Chunk(None, ["a", "b"], ["x"], false), Chunk(None, ["b"], ["y"], true)];
            var r := Compute(["a", "b"], chunks);
            r.Ok? && !Disjoint(r.value)
  {
    var lines := ["a", "b"];
    var c1, c2 := Chunk(None, ["a", "b"], ["x"], false), Chunk(None, ["b"], ["y"], true);
    assert StripAll(["a", "b"]) == lines && StripAll(["x"]) == ["x"];
    assert StripAll(["b"]) == ["b"] && StripAll(["y"]) == ["y"];
    assert MatchesBy(View(Exact), lines, lines, 0);
    assert MatchesBy(View(Exact), lines, ["b"], 1);
    assert Locate(lines, c1, 0) == Ok(At(0, ["a", "b"], ["x"], false));
    assert Locate(lines, c2, 2) == Ok(At(1, ["b"], ["y"], true));
    var p1, p2 := At(0, ["a", "b"], ["x"], false), At(1, ["b"], ["y"], true);
    assert [c1, c2][1..] == [c2] && [c2][1..] == [] && [p2] + [] == [p2] && [p1] + [p2] == [p1, p2];
    assert PlanFrom(lines, [c2], 2) == Ok([p2]);
    assert PlanFrom(lines, [c1, c2], 0) == Ok([p1, p2]);
    ReplacementsDisjointIff(lines, [c1, c2]);
    assert [p1, p2][0] == p1 && [p1, p2][1] == p2;
  }

  /** An addition slips in front of a final empty line and is removed by the chunk that replaces that line. */
  lemma TailCollision()
    ensures var chunks := [Chunk(None, ["a", ""], ["b"], false), Chunk(None, [], ["n"], false)];
            var r := Compute(["a", ""], chunks);
            r.Ok? && !Disjoint(r.value)
  {
    var lines := ["a", ""];
    var c1, c2 := Chunk(None, ["a", ""], ["b"], false), Chunk(None, [], ["n"], false);
    assert StripAll(["a", ""]) == lines && StripAll(["b"]) == ["b"] && StripAll(["n"]) == ["n"];
    assert MatchesBy(View(Exact), lines, lines, 0);
    var p1, p2 := At(0, ["a", ""], ["b"], false), Planned(Edit(1, 0, ["n"]), Addition);
    assert Locate(lines, c1, 0) == Ok(p1);
    assert [c1, c2][1..] == [c2] && [c2][1..] == [] && [p2] + [] == [p2] && [p1] + [p2] == [p1, p2];
    assert PlanFrom(lines, [c2], 2) == Ok([p2]);
    assert PlanFrom(lines, [c1, c2], 0) == Ok([p1, p2]);
    ReplacementsDisjointIff(lines, [c1, c2]);
    assert [p1, p2][0] == p1 && [p1, p2][1] == p2;
  }
}
