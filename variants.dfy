/** The variant (SNP) multi-query handler `query_snp`: the store's selection
    by chromosome and position range, then per record the removal of the
    unrequested sample fields and the `count` field "<k>/<n>". */
module Variants {
  import opened Wrappers
  import opened Records
  import opened Decimal
  import opened Store

  /** Per-sample genotype fields carry the prefix "M.". */
  predicate IsSampleField(k: string) {
    StartsWith(k, "M.")
  }

  // ---------------------------------------------------------------------
  // The store-side selection `#CHROM == sel and start <= POS <= end`.
  // The store compares numbers across int and float and never matches a
  // missing field or a non-number.

  predicate NumEquals(v: Value, n: int) {
    match v
    case Int(i) => i == n
    case Float(r) => r == n as real
    case _ => false
  }

  predicate NumBetween(v: Value, lo: int, hi: int) {
    match v
    case Int(i) => lo <= i <= hi
    case Float(r) => lo as real <= r <= hi as real
    case _ => false
  }

  /** The store's filter on one document. Nothing matches a reversed range. */
  predicate Selected(rec: Record, chrom: int, start: int, end: int)
    ensures Selected(rec, chrom, start, end) ==> start <= end
  {
    && Lookup(rec, "#CHROM").Some? && NumEquals(Lookup(rec, "#CHROM").value, chrom)
    && Lookup(rec, "POS").Some? && NumBetween(Lookup(rec, "POS").value, start, end)
  }

  /** The records the store returns for the query, in store order. */
  function SelectSnp(collection: seq<Record>, chrom: int, start: int, end: int): (r: seq<Record>)
    ensures forall i :: 0 <= i < |r| ==> Selected(r[i], chrom, start, end)
    ensures forall i :: 0 <= i < |collection| && Selected(collection[i], chrom, start, end) ==>
      collection[i] in r
    ensures forall rec ::
              multiset(r)[rec] == if Selected(rec, chrom, start, end) then multiset(collection)[rec] else 0
    ensures Subsequence(r, collection)
  {
    var matches := (rec: Record) => Selected(rec, chrom, start, end);
    assert forall rec ::
             multiset(Filter(collection, matches))[rec] == if matches(rec) then multiset(collection)[rec] else 0
    by {
      forall rec {
        FilterMultiset(collection, matches, rec);
      }
    }
    Filter(collection, matches)
  }

  /** No validation of the range: a reversed range selects nothing. */
  lemma ReversedRangeSelectsNothing(collection: seq<Record>, chrom: int, start: int, end: int)
    requires start > end
    ensures SelectSnp(collection, chrom, start, end) == []
  {
  }

  /** What `collection.find(query, {'_id': 0})` returns: the selected
      documents in store order, each without its "_id". */
  function SnpFind(collection: seq<Record>, chrom: int, start: int, end: int): (r: seq<Record>)
    ensures |r| == |SelectSnp(collection, chrom, start, end)|
    ensures forall j :: 0 <= j < |r| ==> r[j] == StoreProject(SelectSnp(collection, chrom, start, end)[j], HideId)
    ensures forall j :: 0 <= j < |r| ==> !HasKey(r[j], "_id")
  {
    var selected := SelectSnp(collection, chrom, start, end);
    seq(|selected|, j requires 0 <= j < |selected| => StoreProject(selected[j], HideId))
  }

  // ---------------------------------------------------------------------
  // Per-record shaping.

  /** The condition of the dict comprehension: an "M." field survives only
      when it was requested; every other field survives. */
  predicate KeepField(items: set<string>, k: string)
    ensures k in items ==> KeepField(items, k)
    ensures !KeepField(items, k) ==> StartsWith(k, "M.")
  {
    !(IsSampleField(k) && k !in items)
  }

  function SnpKeep(items: set<string>): string -> bool {
    k => KeepField(items, k)
  }

  function FilterSnpRecord(rec: Record, items: set<string>): Record {
    Project(rec, SnpKeep(items))
  }

  /** Python's `'1' in v`: Some(answer), or None where Python raises a
      TypeError because `v` is not a container. */
  function HasMarker(v: Value): (r: Option<bool>)
    ensures r.None? <==> !(v.Str? || v.List? || v.Dict?)
  {
    match v
    case Str(s) => Some('1' in s)
    case List(xs) => Some(Str("1") in xs)
    case Dict(fs) => Some("1" in Keys(fs))
    case _ => None
  }

  /** Some requested key is present with a value that `'1' in` rejects. */
  predicate Raises(fs: Record, items: set<string>) {
    exists k :: k in items && Lookup(fs, k).Some? && HasMarker(Lookup(fs, k).value).None?
  }

  /** The requested keys that are present and whose value contains "1". */
  function Hits(fs: Record, items: set<string>): (h: set<string>)
    ensures h <= items
  {
    set k | k in items && Lookup(fs, k).Some? && HasMarker(Lookup(fs, k).value) == Some(true)
  }

  lemma {:induction false} SubsetCard(a: set<string>, b: set<string>)
    requires a <= b
    ensures |a| <= |b|
    decreases a
  {
    if a != {} {
      var x :| x in a;
      SubsetCard(a - {x}, b - {x});
    }
  }

  /** The generator sum over the requested fields, or None where it raises. */
  function Count(fs: Record, items: set<string>): (r: Option<nat>)
    ensures r.None? <==> Raises(fs, items)
    ensures r.Some? ==> r.value <= |items|
    ensures r.Some? ==> r.value == |Hits(fs, items)|
  {
    if Raises(fs, items) then None
    else
      SubsetCard(Hits(fs, items), items);
      Some(|Hits(fs, items)|)
  }

  /** One record of the response, or None where the count raised. Its
      `count` reads back as the number of requested fields found holding a
      "1" over the number requested, and it has no key but `count` that the
      source record lacks. */
  function ShapeSnp(rec: Record, items: set<string>): (r: Option<Record>)
    ensures r.Some? ==>
      match Lookup(r.value, "count")
      case Some(Str(s)) => ParseCount(s) == Some((|Hits(FilterSnpRecord(rec, items), items)|, |items|))
      case _ => false
    ensures r.Some? ==> forall k :: HasKey(r.value, k) ==> k == "count" || HasKey(rec, k)
  {
    var filtered := FilterSnpRecord(rec, items);
    match Count(filtered, items)
    case None => None
    case Some(c) =>
      var v := Str(CountText(c, |items|));
      UpsertLookupSame(filtered, "count", v);
      CountTextRoundTrip(c, |items|);
      UpsertKeys(filtered, "count", v);
      KeysOfProject(rec, SnpKeep(items));
      Some(Upsert(filtered, "count", v))
  }

  /** Filtering never touches a requested key, so the count reads the same
      values in the filtered record as in the source record. */
  lemma FilterKeepsRequested(rec: Record, items: set<string>)
    requires DistinctKeys(rec)
    ensures forall k :: k in items ==> Lookup(FilterSnpRecord(rec, items), k) == Lookup(rec, k)
    ensures Raises(FilterSnpRecord(rec, items), items) == Raises(rec, items)
    ensures Hits(FilterSnpRecord(rec, items), items) == Hits(rec, items)
  {
    ProjectFacts(rec, SnpKeep(items));
  }

  lemma SubsequenceAppend<T>(a: seq<T>, b: seq<T>, x: T)
    requires Subsequence(a, b)
    ensures Subsequence(a, b + [x])
    ensures Subsequence(a + [x], b + [x])
    decreases |b|
  {
    if a == [] {
      if b != [] {
        SubsequenceAppend(a, b[1..], x);
        assert (b + [x])[1..] == b[1..] + [x];
      }
    } else if a[0] == b[0] {
      SubsequenceAppend(a[1..], b[1..], x);
      assert (b + [x])[1..] == b[1..] + [x];
      assert (a + [x])[1..] == a[1..] + [x];
    } else {
      SubsequenceAppend(a, b[1..], x);
      assert (b + [x])[1..] == b[1..] + [x];
    }
  }

  /** What one response record is. It is None exactly when a requested field
      holds a value `'1' in` cannot search. Otherwise the record is
      well-formed; every field other than `count` is there iff it is not an
      unrequested "M." field, with its source value; `count` is "<k>/<n>"
      with n the number of requested fields and k the number of them present
      with a "1" in their value, k <= n; and the keys keep the source order,
      `count` taking its old place or going last. */
  lemma ShapeSnpFacts(rec: Record, items: set<string>)
    requires DistinctKeys(rec)
    ensures ShapeSnp(rec, items).None? <==> Raises(rec, items)
    ensures ShapeSnp(rec, items).Some? ==>
      var out := ShapeSnp(rec, items).value;
      && DistinctKeys(out)
      && (forall k :: k != "count" ==>
            Lookup(out, k) == if IsSampleField(k) && k !in items then None else Lookup(rec, k))
      && Lookup(out, "count") == Some(Str(CountText(|Hits(rec, items)|, |items|)))
      && |Hits(rec, items)| <= |items|
      && Subsequence(Keys(out), Keys(rec) + ["count"])
  {
    var filtered := FilterSnpRecord(rec, items);
    FilterKeepsRequested(rec, items);
    ProjectFacts(rec, SnpKeep(items));
    if !Raises(rec, items) {
      var c := |Hits(rec, items)|;
      var v := Str(CountText(c, |items|));
      var out := Upsert(filtered, "count", v);
      assert ShapeSnp(rec, items) == Some(out);
      UpsertDistinct(filtered, "count", v);
      UpsertLookupSame(filtered, "count", v);
      forall k | k != "count"
        ensures Lookup(out, k) == if IsSampleField(k) && k !in items then None else Lookup(rec, k)
      {
        UpsertLookupOther(filtered, "count", v, k);
      }
      UpsertKeys(filtered, "count", v);
      SubsequenceAppend(Keys(filtered), Keys(rec), "count");
    }
  }

  /** The loop of the handler over the records the store returned: shape
      each one in order. The result is None (a server error) exactly when
      some record makes the count raise. */
  method ShapeAll(found: seq<Record>, items: set<string>) returns (out: Option<seq<Record>>)
    ensures out.None? <==> exists j :: 0 <= j < |found| && ShapeSnp(found[j], items).None?
    ensures out.Some? ==> |out.value| == |found|
    ensures out.Some? ==> forall j :: 0 <= j < |found| ==> ShapeSnp(found[j], items) == Some(out.value[j])
  {
    var results: seq<Record> := [];
    var i := 0;
    while i < |found|
      invariant 0 <= i <= |found|
      invariant |results| == i
      invariant forall j :: 0 <= j < i ==> ShapeSnp(found[j], items) == Some(results[j])
    {
      var shaped := ShapeSnp(found[i], items);
      if shaped.None? {
        return None;
      }
      results := results + [shaped.value];
      i := i + 1;
    }
    return Some(results);
  }

  /** The handler `query_snp`: the store selects and hides "_id", then each
      returned record is shaped in store order. A reversed range gives an
      empty response, and no response record has an "_id". */
  method QuerySnp(collection: seq<Record>, chrom: int, start: int, end: int, items: set<string>)
    returns (out: Option<seq<Record>>)
    ensures out.None? <==>
      exists j :: 0 <= j < |SnpFind(collection, chrom, start, end)| &&
                  ShapeSnp(SnpFind(collection, chrom, start, end)[j], items).None?
    ensures out.Some? ==> |out.value| == |SelectSnp(collection, chrom, start, end)|
    ensures out.Some? ==> forall j :: 0 <= j < |out.value| ==>
      ShapeSnp(SnpFind(collection, chrom, start, end)[j], items) == Some(out.value[j])
    ensures out.Some? ==> forall j :: 0 <= j < |out.value| ==> !HasKey(out.value[j], "_id")
    ensures start > end ==> out == Some([])
  {
    var found := SnpFind(collection, chrom, start, end);
    if start > end {
      ReversedRangeSelectsNothing(collection, chrom, start, end);
    }
    out := ShapeAll(found, items);
  }

  /** A response record against the stored document it came from: every key
      but `count` and "_id" looks up what it does in the document, unless it
      is an unrequested "M." field, and "_id" is gone. */
  lemma ShapeStoredSnp(rec: Record, items: set<string>)
    requires DistinctKeys(rec)
    ensures ShapeSnp(StoreProject(rec, HideId), items).Some? ==>
      forall k :: k != "count" ==>
        Lookup(ShapeSnp(StoreProject(rec, HideId), items).value, k) ==
        if k == "_id" || (IsSampleField(k) && k !in items) then None else Lookup(rec, k)
  {
    HideIdFacts(rec);
    ShapeSnpFacts(StoreProject(rec, HideId), items);
  }
}
