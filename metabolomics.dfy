/** The metabolomics data handler `metabolomics_data`: per record, keep the
    requested fields and the eight identity fields, then substitute NaN. */
module Metabolomics {
  import opened Wrappers
  import opened Records
  import opened NanSubstitution

  /** The identity fields every response record keeps. */
  const DefaultFields: set<string> :=
    {"ID", "Ion_mode", "Q1", "Q3", "RT", "Compound_name", "Class_I", "Class_II"}

  predicate Allowed(items: set<string>, k: string) {
    k in items || k in DefaultFields
  }

  function MetaKeep(items: set<string>): string -> bool {
    k => Allowed(items, k)
  }

  /** One response record: the dict comprehension followed by
      `replace_nan_with_dash`. */
  function MetabolomicsRow(rec: Record, items: set<string>): (r: Record)
    ensures |r| <= |rec|
    ensures forall i :: 0 <= i < |r| ==> Allowed(items, r[i].0)
    ensures NaNFree(Dict(r))
  {
    var kept := Project(rec, MetaKeep(items));
    SanitizeFieldsFacts(kept);
    SanitizeFields(kept)
  }

  /** What one response record is: well-formed; no key outside the requested
      and identity fields; every such key of the source kept, with its value
      NaN-substituted; the source order of the keys; no NaN through dicts; in
      particular every identity field the source has. */
  lemma MetabolomicsRowFacts(rec: Record, items: set<string>)
    requires DistinctKeys(rec)
    ensures var out := MetabolomicsRow(rec, items);
      && DistinctKeys(out)
      && (forall i :: 0 <= i < |out| ==> Allowed(items, out[i].0))
      && (forall k :: Allowed(items, k) && Lookup(rec, k).Some? ==>
            Lookup(out, k) == Some(SanitizeValue(Lookup(rec, k).value)))
      && Subsequence(Keys(out), Keys(rec))
      && NaNFree(Dict(out))
      && (forall d :: d in DefaultFields && HasKey(rec, d) ==> HasKey(out, d))
  {
    var kept := Project(rec, MetaKeep(items));
    var out := MetabolomicsRow(rec, items);
    ProjectFacts(rec, MetaKeep(items));
    SanitizeFieldsFacts(kept);
    forall i | 0 <= i < |out| ensures Allowed(items, out[i].0) {
      assert out[i].0 == kept[i].0;
      assert Keys(out)[i] == out[i].0;
      LookupAt(kept, i);
    }
    forall k | Allowed(items, k) && Lookup(rec, k).Some?
      ensures Lookup(out, k) == Some(SanitizeValue(Lookup(rec, k).value))
    {
      LookupSanitized(kept, k);
    }
    forall d | d in DefaultFields && HasKey(rec, d) ensures HasKey(out, d) {
      LookupSanitized(kept, d);
    }
  }

  /** The loop of the handler over the records the store returned: each
      record is filtered, then walked in a buffer of its own by
      `replace_nan_with_dash`, then appended. */
  method MetabolomicsData(found: seq<Record>, items: set<string>) returns (out: seq<Record>)
    ensures |out| == |found|
    ensures forall j :: 0 <= j < |found| ==> out[j] == MetabolomicsRow(found[j], items)
  {
    out := [];
    var i := 0;
    while i < |found|
      invariant 0 <= i <= |found|
      invariant |out| == i
      invariant forall j :: 0 <= j < i ==> out[j] == MetabolomicsRow(found[j], items)
    {
      var filtered := Project(found[i], MetaKeep(items));
      var buf := new Field[|filtered|](j requires 0 <= j < |filtered| => filtered[j]);
      assert buf[..] == filtered;
      ReplaceNanWithDash(buf);
      out := out + [buf[..]];
      i := i + 1;
    }
  }
}
