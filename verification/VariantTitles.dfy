/** Titles for the variants of a schema union (`annotate_variant_list`). */
module VariantTitles {
  import opened Prelude

  /** A variant with the title it has, and the name that would be derived for it. */
  datatype Variant = Variant(title: Option<string>, proposal: Option<string>)

  /** The candidates in the order they are tried: `name`, `name2`, `name3`, and so on. */
  function Candidate(name: string, k: nat): string { if k == 0 then name else name + Decimal(k + 1) }

  lemma CandidatesDistinct(name: string, i: nat, j: nat)
    requires i != j
    ensures Candidate(name, i) != Candidate(name, j)
  {
    DecimalDigits(i + 1);
    DecimalDigits(j + 1);
    if i > 0 && j > 0 && Candidate(name, i) == Candidate(name, j) {
      assert Candidate(name, i)[|name|..] == Decimal(i + 1) && Candidate(name, j)[|name|..] == Decimal(j + 1);
      DecimalInjective(i + 1, j + 1);
    }
  }

  function Tried(name: string, k: nat): set<string> {
    if k == 0 then {} else Tried(name, k - 1) + {Candidate(name, k - 1)}
  }

  lemma {:induction false} TriedCount(name: string, k: nat)
    ensures |Tried(name, k)| == k
    ensures forall j :: j >= k ==> Candidate(name, j) !in Tried(name, k)
  {
    if k > 0 {
      TriedCount(name, k - 1);
      forall j | j >= k
        ensures Candidate(name, j) !in Tried(name, k)
      {
        CandidatesDistinct(name, j, k - 1);
      }
    }
  }

  lemma SubsetCount(a: set<string>, b: set<string>)
    requires a <= b
    ensures |a| <= |b|
  {
    assert b == a + (b - a);
  }

  lemma {:induction false} TriedMember(name: string, k: nat, j: nat)
    requires j < k
    ensures Candidate(name, j) in Tried(name, k)
  {
    if j < k - 1 {
      TriedMember(name, k - 1, j);
    }
  }

  /** Every candidate found taken uses up one of the seen titles. */
  lemma OneMoreTried(name: string, k: nat, seen: set<string>)
    requires Tried(name, k) <= seen && Candidate(name, k) in seen
    ensures Tried(name, k + 1) <= seen && k + 1 <= |seen|
  {
    TriedCount(name, k + 1);
    SubsetCount(Tried(name, k + 1), seen);
  }

  /** The search for an unused title: it stops within |seen| + 1 tries, at the first candidate not seen. */
  method FreshTitle(name: string, seen: set<string>) returns (title: string, taken: nat)
    ensures title == Candidate(name, taken) && title !in seen
    ensures taken <= |seen|
    ensures forall j: nat :: j < taken ==> Candidate(name, j) in seen
  {
    title, taken := name, 0;
    while title in seen
      invariant title == Candidate(name, taken) && taken <= |seen| && Tried(name, taken) <= seen
      decreases |seen| - taken
    {
      OneMoreTried(name, taken, seen);
      title, taken := name + Decimal(taken + 2), taken + 1;
    }
    forall j: nat | j < taken
      ensures Candidate(name, j) in seen
    {
      TriedMember(name, taken, j);
    }
  }

  predicate Generated(before: seq<Variant>, i: nat)
    requires i < |before|
  {
    before[i].title.None? && before[i].proposal.Some?
  }

  /** The variant got one of the candidates for its proposed name, and nothing else changed. */
  ghost predicate FromProposal(before: Variant, after: Variant)
    requires before.proposal.Some?
  {
    exists k: nat :: after == before.(title := Some(Candidate(before.proposal.value, k)))
  }

  predicate Apart(a: Variant, b: Variant) { a.title.Some? && b.title.Some? ==> a.title.value != b.title.value }

  /** Existing titles stay; every generated title differs from every other title in the list. */
  ghost predicate Titled(before: seq<Variant>, after: seq<Variant>) {
    && |after| == |before|
    && (forall i :: 0 <= i < |before| && !Generated(before, i) ==> after[i] == before[i])
    && (forall i :: 0 <= i < |before| && Generated(before, i) ==> FromProposal(before[i], after[i]))
    && (forall i, j :: 0 <= i < |before| && 0 <= j < |before| && i != j && Generated(before, i) ==>
          Apart(after[i], after[j]))
  }

  method AnnotateVariantList(variants: array<Variant>)
    modifies variants
    ensures Titled(old(variants[..]), variants[..])
  {
    var seen: set<string> := {};
    for i := 0 to variants.Length
      invariant variants[..] == old(variants[..])
      invariant forall j :: 0 <= j < i && variants[j].title.Some? ==> variants[j].title.value in seen
    {
      if variants[i].title.Some? {
        seen := seen + {variants[i].title.value};
      }
    }
    ghost var before := variants[..];
    for i := 0 to variants.Length
      invariant forall j :: 0 <= j < variants.Length && (j >= i || !Generated(before, j)) ==> variants[j] == before[j]
      invariant forall j :: 0 <= j < variants.Length && variants[j].title.Some? ==> variants[j].title.value in seen
      invariant forall j :: 0 <= j < i && Generated(before, j) ==> FromProposal(before[j], variants[j])
      invariant forall j, l :: 0 <= j < i && 0 <= l < variants.Length && j != l && Generated(before, j) ==>
                  Apart(variants[j], variants[l])
    {
      if variants[i].title.None? && variants[i].proposal.Some? {
        var title, taken := FreshTitle(variants[i].proposal.value, seen);
        variants[i] := variants[i].(title := Some(title));
        seen := seen + {title};
      }
    }
  }
}
