/** The transcriptome data handler `transcriptome_data`: the projection it
    hands to the store, and the NaN substitution of what comes back. */
module Transcriptome {
  import opened Wrappers
  import opened Records
  import opened NanSubstitution
  import opened Store

  /** The store projection built from the requested fields: with fields,
      each of them and "Gene ID" is included and "_id" is excluded, even
      when requested; without fields, only "_id" is excluded. */
  function BuildProjection(items: set<string>): (p: map<string, int>)
    ensures forall k :: k in p ==> p[k] == 0 || p[k] == 1
    ensures items == {} ==> p == map["_id" := 0]
    ensures items != {} ==> p.Keys == items + {"_id", "Gene ID"}
    ensures "_id" in p && p["_id"] == 0
    ensures forall k :: (k in p && p[k] == 1) <==> items != {} && k != "_id" && (k in items || k == "Gene ID")
  {
    if items != {} then (map k | k in items :: 1)["_id" := 0]["Gene ID" := 1]
    else map["_id" := 0]
  }

  /** What the store returns with the handler's projection: without
      requested fields every field but "_id"; with requested fields exactly
      "Gene ID" and the requested fields the record has, never "_id". */
  lemma ProjectionSelectsFields(rec: Record, items: set<string>)
    requires DistinctKeys(rec)
    ensures forall k ::
      Lookup(StoreProject(rec, BuildProjection(items)), k) ==
      (if k == "_id" then None
       else if items == {} || k in items || k == "Gene ID" then Lookup(rec, k)
       else None)
  {
    var p := BuildProjection(items);
    if items != {} {
      assert Includes(p, "Gene ID");
    } else {
      assert !InclusionMode(p) by {
        forall k ensures !Includes(p, k) {
        }
      }
    }
    ProjectFacts(rec, StoreKeep(p));
  }

  /** `[replace_nan_with_dash(rec) for rec in records]` over the records the
      store returns: the same records in the same order with the same keys,
      and no NaN through dicts. */
  function TranscriptomeRows(found: seq<Record>): (rows: seq<Record>)
    ensures |rows| == |found|
    ensures forall j :: 0 <= j < |found| ==> Keys(rows[j]) == Keys(found[j])
    ensures forall j :: 0 <= j < |found| ==> NaNFree(Dict(rows[j]))
    ensures forall j :: 0 <= j < |found| ==> rows[j] == SanitizeFields(found[j])
  {
    seq(|found|, j requires 0 <= j < |found| =>
      SanitizeFieldsFacts(found[j]);
      SanitizeFields(found[j]))
  }

  /** The handler: the store applies the projection to each matching
      document, then each is NaN-substituted. */
  function TranscriptomeData(matching: seq<Record>, items: set<string>): (rows: seq<Record>)
    ensures |rows| == |matching|
    ensures forall j :: 0 <= j < |matching| ==>
      Keys(rows[j]) == Keys(StoreProject(matching[j], BuildProjection(items)))
    ensures forall j :: 0 <= j < |matching| ==> NaNFree(Dict(rows[j]))
    ensures forall j :: 0 <= j < |matching| ==>
      rows[j] == SanitizeFields(StoreProject(matching[j], BuildProjection(items)))
  {
    TranscriptomeRows(seq(|matching|, j requires 0 <= j < |matching| =>
      StoreProject(matching[j], BuildProjection(items))))
  }

  /** A row of the response, field by field: "_id" never comes back; without
      requested fields every other field of the stored document does, with
      requested fields exactly "Gene ID" and the requested ones; and a field
      that comes back holds its stored value NaN-substituted. */
  lemma TranscriptomeRowLookup(matching: seq<Record>, items: set<string>, j: int, k: string)
    requires 0 <= j < |matching|
    requires DistinctKeys(matching[j])
    ensures Lookup(TranscriptomeData(matching, items)[j], k) ==
      if k == "_id" || !(items == {} || k in items || k == "Gene ID") then None
      else match Lookup(matching[j], k)
        case None => None
        case Some(v) => Some(SanitizeValue(v))
  {
    ProjectionSelectsFields(matching[j], items);
    LookupSanitized(StoreProject(matching[j], BuildProjection(items)), k);
  }
}
