/** Canonical form of JSON schemas for fixture comparison (`canonicalize_json`). */
module CanonicalJson {
  import opened Prelude
  import opened Sorting

  /** A JSON tree; object entries are kept in their stored order, numbers in their printed form. */
  datatype Json =
    | Null
    | Bool(flag: bool)
    | Num(digits: string)
    | Str(text: string)
    | Arr(items: seq<Json>)
    | Obj(entries: seq<Entry>)

  datatype Entry = Entry(key: string, value: Json)

  // ---------- string order ----------

  /** Rust's order on strings: by code point. */
  predicate LexLe(a: string, b: string) {
    a == [] || (b != [] && (a[0] < b[0] || (a[0] == b[0] && LexLe(a[1..], b[1..]))))
  }

  lemma {:induction false} LexReflexive(a: string)
    ensures LexLe(a, a)
  {
    if a != [] {
      LexReflexive(a[1..]);
    }
  }

  lemma {:induction false} LexTotal(a: string, b: string)
    ensures LexLe(a, b) || LexLe(b, a)
  {
    if a != [] && b != [] && a[0] == b[0] {
      LexTotal(a[1..], b[1..]);
    }
  }

  lemma {:induction false} LexAntisymmetric(a: string, b: string)
    requires LexLe(a, b) && LexLe(b, a)
    ensures a == b
  {
    if a != [] && b != [] {
      LexAntisymmetric(a[1..], b[1..]);
      assert a == [a[0]] + a[1..] && b == [b[0]] + b[1..];
    }
  }

  lemma {:induction false} LexTransitive(a: string, b: string, c: string)
    requires LexLe(a, b) && LexLe(b, c)
    ensures LexLe(a, c)
  {
    if a != [] && a[0] == b[0] && b[0] == c[0] {
      LexTransitive(a[1..], b[1..], c[1..]);
    }
  }

  // ---------- canonicalisation ----------

  function Lookup(entries: seq<Entry>, key: string): Option<Json> {
    if entries == [] then None else if entries[0].key == key then Some(entries[0].value) else Lookup(entries[1..], key)
  }

  /** `schema_array_item_sort_key`. */
  function SortKey(item: Json): Option<string> {
    match item
    case Null => Some("null")
    case Bool(b) => Some("b:" + if b then "true" else "false")
    case Num(n) => Some("n:" + n)
    case Str(s) => Some("s:" + s)
    case Arr(_) => None
    case Obj(entries) =>
      var reference, title := Lookup(entries, "$ref"), Lookup(entries, "title");
      if reference.Some? && reference.value.Str? then Some("ref:" + reference.value.text)
      else if title.Some? && title.value.Str? then Some("title:" + title.value.text)
      else None
  }

  function KeyOr(item: Json): string { if SortKey(item).Some? then SortKey(item).value else "" }

  /** Items compare by sort key, then by their serialised text. */
  function ItemLe(ser: Json -> string): (Json, Json) -> bool {
    (x: Json, y: Json) => if KeyOr(x) == KeyOr(y) then LexLe(ser(x), ser(y)) else LexLe(KeyOr(x), KeyOr(y))
  }

  function EntryLe(): (Entry, Entry) -> bool {
    (x: Entry, y: Entry) => LexLe(x.key, y.key)
  }

  predicate AllKeyed(items: seq<Json>) { forall x :: x in items ==> SortKey(x).Some? }

  function Arrange(ser: Json -> string, items: seq<Json>): seq<Json> {
    if AllKeyed(items) then Sort(ItemLe(ser), items) else items
  }

  function Canon(ser: Json -> string, v: Json): Json
    decreases v, 1
  {
    match v
    case Arr(items) => Arr(Arrange(ser, CanonItems(ser, items)))
    case Obj(entries) => Obj(Sort(EntryLe(), CanonEntries(ser, entries)))
    case _ => v
  }

  function CanonItems(ser: Json -> string, items: seq<Json>): (r: seq<Json>)
    ensures |r| == |items|
    decreases items, 0
  {
    if items == [] then [] else [Canon(ser, items[0])] + CanonItems(ser, items[1..])
  }

  function CanonEntries(ser: Json -> string, entries: seq<Entry>): (r: seq<Entry>)
    ensures |r| == |entries|
    decreases entries, 0
  {
    if entries == [] then []
    else [Entry(entries[0].key, Canon(ser, entries[0].value))] + CanonEntries(ser, entries[1..])
  }

  // ---------- the orders ----------

  lemma EntryOrder()
    ensures TotalPreorder(EntryLe())
  {
    forall x: Entry, y: Entry
      ensures EntryLe()(x, y) || EntryLe()(y, x)
    {
      LexTotal(x.key, y.key);
    }
    forall x: Entry, y: Entry, z: Entry | EntryLe()(x, y) && EntryLe()(y, z)
      ensures EntryLe()(x, z)
    {
      LexTransitive(x.key, y.key, z.key);
    }
  }

  lemma ItemTransitive(ser: Json -> string, x: Json, y: Json, z: Json)
    requires ItemLe(ser)(x, y) && ItemLe(ser)(y, z)
    ensures ItemLe(ser)(x, z)
  {
    var a, b, c := KeyOr(x), KeyOr(y), KeyOr(z);
    if a == b && b == c {
      LexTransitive(ser(x), ser(y), ser(z));
    } else if a != b && b != c {
      LexTransitive(a, b, c);
      if a == c {
        LexAntisymmetric(a, b);
      }
    }
  }

  lemma ItemOrder(ser: Json -> string)
    ensures TotalPreorder(ItemLe(ser))
  {
    forall x, y
      ensures ItemLe(ser)(x, y) || ItemLe(ser)(y, x)
    {
      LexTotal(KeyOr(x), KeyOr(y));
      LexTotal(ser(x), ser(y));
    }
    forall x, y, z | ItemLe(ser)(x, y) && ItemLe(ser)(y, z)
      ensures ItemLe(ser)(x, z)
    {
      ItemTransitive(ser, x, y, z);
    }
  }

  ghost predicate Injective(ser: Json -> string) { forall x, y :: ser(x) == ser(y) ==> x == y }

  lemma ItemAntisymmetric(ser: Json -> string, x: Json, y: Json)
    requires Injective(ser) && ItemLe(ser)(x, y) && ItemLe(ser)(y, x)
    ensures x == y
  {
    if KeyOr(x) != KeyOr(y) {
      LexAntisymmetric(KeyOr(x), KeyOr(y));
    } else {
      LexAntisymmetric(ser(x), ser(y));
    }
  }

  // ---------- idempotence ----------

  lemma {:induction false} CanonItemsFixed(ser: Json -> string, items: seq<Json>)
    requires forall x :: x in items ==> Canon(ser, x) == x
    ensures CanonItems(ser, items) == items
  {
    if items != [] {
      assert items[0] in items;
      CanonItemsFixed(ser, items[1..]);
    }
  }

  lemma {:induction false} CanonEntriesFixed(ser: Json -> string, entries: seq<Entry>)
    requires forall e :: e in entries ==> Canon(ser, e.value) == e.value
    ensures CanonEntries(ser, entries) == entries
  {
    if entries != [] {
      assert entries[0] in entries;
      CanonEntriesFixed(ser, entries[1..]);
    }
  }

  lemma ArrangeFixed(ser: Json -> string, items: seq<Json>)
    ensures Arrange(ser, Arrange(ser, items)) == Arrange(ser, items)
    ensures forall y :: y in Arrange(ser, items) <==> y in items
  {
    if AllKeyed(items) {
      ItemOrder(ser);
      SortSorts(ItemLe(ser), items);
      SortSameMembers(ItemLe(ser), items);
      SortOfSorted(ItemLe(ser), Sort(ItemLe(ser), items));
    }
  }

  /** Canonicalising twice is canonicalising once, on every JSON tree. */
  lemma {:induction false} CanonIdempotent(ser: Json -> string, v: Json)
    ensures Canon(ser, Canon(ser, v)) == Canon(ser, v)
    decreases v, 1
  {
    match v
    case Arr(items) =>
      ItemsIdempotent(ser, items);
      var once := Arrange(ser, CanonItems(ser, items));
      ArrangeFixed(ser, CanonItems(ser, items));
      CanonItemsFixed(ser, once);
    case Obj(entries) =>
      EntriesIdempotent(ser, entries);
      EntryOrder();
      var inner := CanonEntries(ser, entries);
      var once := Sort(EntryLe(), inner);
      SortSorts(EntryLe(), inner);
      SortSameMembers(EntryLe(), inner);
      CanonEntriesFixed(ser, once);
      SortOfSorted(EntryLe(), once);
    case _ =>
  }

  lemma {:induction false} ItemsIdempotent(ser: Json -> string, items: seq<Json>)
    ensures forall x :: x in CanonItems(ser, items) ==> Canon(ser, x) == x
    decreases items, 0
  {
    if items != [] {
      CanonIdempotent(ser, items[0]);
      ItemsIdempotent(ser, items[1..]);
    }
  }

  lemma {:induction false} EntriesIdempotent(ser: Json -> string, entries: seq<Entry>)
    ensures forall e :: e in CanonEntries(ser, entries) ==> Canon(ser, e.value) == e.value
    decreases entries, 0
  {
    if entries != [] {
      CanonIdempotent(ser, entries[0].value);
      EntriesIdempotent(ser, entries[1..]);
    }
  }

  // ---------- sort keys survive ----------

  lemma {:induction false} LookupInserted(e: Entry, entries: seq<Entry>, key: string)
    ensures Lookup(Insert(EntryLe(), e, entries), key) == if e.key == key then Some(e.value) else Lookup(entries, key)
  {
    if entries != [] && !LexLe(e.key, entries[0].key) {
      LexReflexive(e.key);
      LookupInserted(e, entries[1..], key);
    }
  }

  /** The stable sort keeps the entry a key finds, even among several with that key. */
  lemma {:induction false} LookupSorted(entries: seq<Entry>, key: string)
    ensures Lookup(Sort(EntryLe(), entries), key) == Lookup(entries, key)
  {
    if entries != [] {
      LookupSorted(entries[1..], key);
      LookupInserted(entries[0], Sort(EntryLe(), entries[1..]), key);
    }
  }

  lemma {:induction false} LookupCanon(ser: Json -> string, entries: seq<Entry>, key: string)
    ensures var found := Lookup(entries, key);
            Lookup(CanonEntries(ser, entries), key) == if found.Some? then Some(Canon(ser, found.value)) else None
  {
    if entries != [] {
      LookupCanon(ser, entries[1..], key);
    }
  }

  /** Canonicalising an element changes neither whether it has a sort key nor which. */
  lemma CanonKeepsKey(ser: Json -> string, v: Json)
    ensures SortKey(Canon(ser, v)) == SortKey(v)
  {
    if v.Obj? {
      LookupCanon(ser, v.entries, "$ref");
      LookupCanon(ser, v.entries, "title");
      LookupSorted(CanonEntries(ser, v.entries), "$ref");
      LookupSorted(CanonEntries(ser, v.entries), "title");
    }
  }

  lemma {:induction false} CanonKeepsKeyed(ser: Json -> string, items: seq<Json>)
    ensures AllKeyed(CanonItems(ser, items)) <==> AllKeyed(items)
  {
    if items != [] {
      CanonKeepsKey(ser, items[0]);
      CanonKeepsKeyed(ser, items[1..]);
      KeyedHead(items);
      KeyedHead(CanonItems(ser, items));
    }
  }

  lemma KeyedHead(items: seq<Json>)
    requires items != []
    ensures AllKeyed(items) <==> SortKey(items[0]).Some? && AllKeyed(items[1..])
  {
    assert items == [items[0]] + items[1..];
  }

  // ---------- order does not matter ----------

  lemma {:induction false} CanonItemsConcat(ser: Json -> string, a: seq<Json>, b: seq<Json>)
    ensures CanonItems(ser, a + b) == CanonItems(ser, a) + CanonItems(ser, b)
  {
    if a == [] {
      assert a + b == b;
    } else {
      assert (a + b)[1..] == a[1..] + b;
      CanonItemsConcat(ser, a[1..], b);
    }
  }

  lemma MiddleMultiset(a: seq<Json>, x: Json, b: seq<Json>)
    ensures multiset(a + ([x] + b)) == multiset(a + b) + multiset{x}
  {
  }

  lemma CanonMiddle(ser: Json -> string, a: seq<Json>, x: Json, b: seq<Json>)
    ensures CanonItems(ser, a + ([x] + b)) == CanonItems(ser, a) + ([Canon(ser, x)] + CanonItems(ser, b))
  {
    CanonItemsConcat(ser, a, [x] + b);
    assert ([x] + b)[1..] == b;
  }

  lemma CanonRemoved(ser: Json -> string, a: seq<Json>, x: Json, b: seq<Json>)
    ensures multiset(CanonItems(ser, a + ([x] + b))) == multiset(CanonItems(ser, a + b)) + multiset{Canon(ser, x)}
  {
    CanonMiddle(ser, a, x, b);
    CanonItemsConcat(ser, a, b);
    MiddleMultiset(CanonItems(ser, a), Canon(ser, x), CanonItems(ser, b));
  }

  lemma Cancel(p: multiset<Json>, q: multiset<Json>, x: Json)
    requires p + multiset{x} == q + multiset{x}
    ensures p == q
  {
    assert (p + multiset{x}) - multiset{x} == p && (q + multiset{x}) - multiset{x} == q;
  }

  lemma CutAt(a: seq<Json>, x: Json, rest: seq<Json>) returns (before: seq<Json>, after: seq<Json>)
    requires multiset(a) == multiset(rest) + multiset{x}
    ensures a == before + ([x] + after) && multiset(before + after) == multiset(rest)
  {
    assert x in multiset(a);
    var i :| 0 <= i < |a| && a[i] == x;
    before, after := a[..i], a[i + 1..];
    assert a == before + ([x] + after);
    MiddleMultiset(before, x, after);
    Cancel(multiset(before + after), multiset(rest), x);
  }

  lemma HeadMultiset(b: seq<Json>)
    requires b != []
    ensures multiset(b) == multiset(b[1..]) + multiset{b[0]}
  {
    assert b == [b[0]] + b[1..];
  }

  /** Canonicalising the elements of an array commutes with rearranging them. */
  lemma {:induction false} CanonItemsPermute(ser: Json -> string, a: seq<Json>, b: seq<Json>)
    requires multiset(a) == multiset(b)
    ensures multiset(CanonItems(ser, a)) == multiset(CanonItems(ser, b))
    decreases |b|
  {
    if b == [] {
      assert |multiset(a)| == 0;
    } else {
      HeadMultiset(b);
      var before, after := CutAt(a, b[0], b[1..]);
      CanonItemsPermute(ser, before + after, b[1..]);
      CanonRemoved(ser, before, b[0], after);
      HeadMultiset(CanonItems(ser, b));
    }
  }

  lemma SameMembers(a: seq<Json>, b: seq<Json>)
    requires multiset(a) == multiset(b)
    ensures forall z :: z in a <==> z in b
  {
    assert forall z :: z in a <==> z in multiset(a);
    assert forall z :: z in b <==> z in multiset(b);
  }

  lemma SortIgnoresOrder(ser: Json -> string, x: seq<Json>, y: seq<Json>)
    requires Injective(ser) && multiset(x) == multiset(y)
    ensures Sort(ItemLe(ser), x) == Sort(ItemLe(ser), y)
  {
    var le := ItemLe(ser);
    ItemOrder(ser);
    SortSorts(le, x);
    SortSorts(le, y);
    SortPermutes(le, x);
    SortPermutes(le, y);
    forall p, q | le(p, q) && le(q, p)
      ensures p == q
    {
      ItemAntisymmetric(ser, p, q);
    }
    SortedUnique(le, Sort(le, x), Sort(le, y));
  }

  /** If every element has a sort key, all permutations of an array have the same canonical form. */
  lemma PermutationsAgree(ser: Json -> string, a: seq<Json>, b: seq<Json>)
    requires Injective(ser) && multiset(a) == multiset(b) && AllKeyed(a)
    ensures Canon(ser, Arr(a)) == Canon(ser, Arr(b))
  {
    CanonKeepsKeyed(ser, a);
    CanonItemsPermute(ser, a, b);
    SameMembers(CanonItems(ser, a), CanonItems(ser, b));
    SortIgnoresOrder(ser, CanonItems(ser, a), CanonItems(ser, b));
  }

  lemma UnkeyedMember(items: seq<Json>, i: nat)
    requires i < |items| && SortKey(items[i]).None?
    ensures !AllKeyed(items)
  {
    assert items[i] in items;
  }

  /** An array with an element that has no sort key keeps its order. */
  lemma UnkeyedKeepsOrder(ser: Json -> string, items: seq<Json>, i: nat)
    requires i < |items| && SortKey(items[i]).None?
    ensures Canon(ser, Arr(items)) == Arr(CanonItems(ser, items))
    ensures forall j :: 0 <= j < |items| ==> CanonItems(ser, items)[j] == Canon(ser, items[j])
  {
    CanonItemsAt(ser, items);
    CanonKeepsKey(ser, items[i]);
    UnkeyedMember(CanonItems(ser, items), i);
  }

  lemma {:induction false} CanonItemsAt(ser: Json -> string, items: seq<Json>)
    ensures forall j :: 0 <= j < |items| ==> CanonItems(ser, items)[j] == Canon(ser, items[j])
  {
    if items != [] {
      CanonItemsAt(ser, items[1..]);
    }
  }

  // ---------- what stays the same ----------

  predicate KeysSorted(entries: seq<Entry>) {
    forall i, j :: 0 <= i < j < |entries| ==> LexLe(entries[i].key, entries[j].key)
  }

  lemma {:induction false} SortedByKey(entries: seq<Entry>)
    requires Sorted(EntryLe(), entries)
    ensures KeysSorted(entries)
  {
    if entries != [] {
      SortedByKey(entries[1..]);
      forall i, j | 0 <= i < j < |entries|
        ensures LexLe(entries[i].key, entries[j].key)
      {
        assert entries[j] == entries[1..][j - 1] && entries[j] in entries[1..];
        if i == 0 {
          assert EntryLe()(entries[0], entries[j]);
        } else {
          assert entries[i] == entries[1..][i - 1];
        }
      }
    }
  }

  /** An object keeps its keys, in sorted order, and under each key has the canonical form of what was there. */
  lemma CanonObject(ser: Json -> string, entries: seq<Entry>)
    ensures var r := Canon(ser, Obj(entries));
            && r.Obj? && |r.entries| == |entries| && KeysSorted(r.entries)
            && forall key :: Lookup(r.entries, key) ==
                             var found := Lookup(entries, key);
                             if found.Some? then Some(Canon(ser, found.value)) else None
  {
    var inner := CanonEntries(ser, entries);
    EntryOrder();
    SortSorts(EntryLe(), inner);
    SortedByKey(Sort(EntryLe(), inner));
    SortPermutes(EntryLe(), inner);
    assert |multiset(Sort(EntryLe(), inner))| == |multiset(inner)|;
    forall key
      ensures Lookup(Sort(EntryLe(), inner), key) ==
              var found := Lookup(entries, key);
              if found.Some? then Some(Canon(ser, found.value)) else None
    {
      LookupSorted(inner, key);
      LookupCanon(ser, entries, key);
    }
  }

  /** An array keeps its elements, each in canonical form, whatever their order becomes. */
  lemma CanonArray(ser: Json -> string, items: seq<Json>)
    ensures var r := Canon(ser, Arr(items));
            && r.Arr? && multiset(r.items) == multiset(CanonItems(ser, items))
            && (forall j :: 0 <= j < |items| ==> CanonItems(ser, items)[j] == Canon(ser, items[j]))
  {
    SortPermutes(ItemLe(ser), CanonItems(ser, items));
    CanonItemsAt(ser, items);
  }

  /** Anything else is left as it is. */
  lemma CanonLeaf(ser: Json -> string, v: Json)
    requires !v.Arr? && !v.Obj?
    ensures Canon(ser, v) == v
  {
  }

  /** No key stands twice in the object. */
  predicate DistinctKeys(entries: seq<Entry>) {
    forall i, j :: 0 <= i < j < |entries| ==> entries[i].key != entries[j].key
  }

  lemma {:induction false} LookupIs(entries: seq<Entry>, e: Entry)
    requires DistinctKeys(entries) && e in entries
    ensures Lookup(entries, e.key) == Some(e.value)
  {
    if entries[0] != e {
      var i :| 0 <= i < |entries| && entries[i] == e;
      assert entries[1..][i - 1] == e && entries[0].key != entries[i].key;
      LookupIs(entries[1..], e);
    }
  }

  lemma {:induction false} LookupNot(entries: seq<Entry>, key: string)
    requires forall e :: e in entries ==> e.key != key
    ensures Lookup(entries, key) == None
  {
    if entries != [] {
      assert entries[0] in entries;
      LookupNot(entries[1..], key);
    }
  }

  /** A reference is what an object is sorted by; without one its title; without either it has no sort key. */
  lemma ObjectKey(entries: seq<Entry>)
    requires DistinctKeys(entries)
    ensures forall r :: Entry("$ref", Str(r)) in entries ==> SortKey(Obj(entries)) == Some("ref:" + r)
    ensures forall t :: Entry("title", Str(t)) in entries && (forall e :: e in entries ==> e.key != "$ref") ==>
              SortKey(Obj(entries)) == Some("title:" + t)
    ensures (forall e :: e in entries ==> e.key != "$ref" && e.key != "title") ==> SortKey(Obj(entries)) == None
  {
    forall r | Entry("$ref", Str(r)) in entries
      ensures Lookup(entries, "$ref") == Some(Str(r))
    {
      LookupIs(entries, Entry("$ref", Str(r)));
    }
    forall t | Entry("title", Str(t)) in entries
      ensures Lookup(entries, "title") == Some(Str(t))
    {
      LookupIs(entries, Entry("title", Str(t)));
    }
    if forall e :: e in entries ==> e.key != "$ref" {
      LookupNot(entries, "$ref");
    }
    if forall e :: e in entries ==> e.key != "title" {
      LookupNot(entries, "title");
    }
  }
}
