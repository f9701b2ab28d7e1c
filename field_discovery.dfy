/** The field-discovery handlers: the field names of one sample record that
    the front end offers as filters. The sample is the store's `find_one()`,
    None for an empty collection; iterating it then raises, which the model
    gives as None. */
module FieldDiscovery {
  import opened Wrappers
  import opened Records
  import Variants

  const TranscriptomeBlacklist: seq<string> := ["_id", "Gene ID"]

  const MetabolomicsBlacklist: seq<string> :=
    ["_id", "Ion_mode", "Q1", "Q3", "RT", "Compound_name", "Class_I", "Class_II", "ID"]

  function KeyFilter(sample: Option<Record>, keep: string -> bool): (r: Option<seq<string>>)
    ensures r.None? <==> sample.None?
    ensures r.Some? ==> Subsequence(r.value, Keys(sample.value))
    ensures r.Some? ==> forall i :: 0 <= i < |r.value| ==> keep(r.value[i])
    ensures r.Some? ==> forall i :: 0 <= i < |sample.value| && keep(sample.value[i].0) ==>
                          sample.value[i].0 in r.value
  {
    match sample
    case None => None
    case Some(rec) => Some(Filter(Keys(rec), keep))
  }

  /** `getvairanFields`: the "M." fields of the sample, in its order. */
  function VariantFields(sample: Option<Record>): (r: Option<seq<string>>)
    ensures r.None? <==> sample.None?
    ensures r.Some? ==> Subsequence(r.value, Keys(sample.value))
    ensures r.Some? ==> forall k :: k in r.value <==> k in Keys(sample.value) && Variants.IsSampleField(k)
  {
    KeyFilter(sample, Variants.IsSampleField)
  }

  /** `gettranscriptomefields`: the sample's fields but "_id" and "Gene ID". */
  function TranscriptomeFields(sample: Option<Record>): (r: Option<seq<string>>)
    ensures r.None? <==> sample.None?
    ensures r.Some? ==> Subsequence(r.value, Keys(sample.value))
    ensures r.Some? ==> forall k :: k in r.value <==> k in Keys(sample.value) && k !in TranscriptomeBlacklist
  {
    KeyFilter(sample, k => k !in TranscriptomeBlacklist)
  }

  /** `getmetabolomicsfields`: the sample's fields but "_id" and the eight
      identity fields. */
  function MetabolomicsFields(sample: Option<Record>): (r: Option<seq<string>>)
    ensures r.None? <==> sample.None?
    ensures r.Some? ==> Subsequence(r.value, Keys(sample.value))
    ensures r.Some? ==> forall k :: k in r.value <==> k in Keys(sample.value) && k !in MetabolomicsBlacklist
  {
    KeyFilter(sample, k => k !in MetabolomicsBlacklist)
  }

  /** The three lists are order-preserving filters of the keys of one
      well-formed record, so none of them names a field twice. */
  lemma DiscoveredFieldsDistinct(rec: Record)
    requires DistinctKeys(rec)
    ensures Distinct(VariantFields(Some(rec)).value)
    ensures Distinct(TranscriptomeFields(Some(rec)).value)
    ensures Distinct(MetabolomicsFields(Some(rec)).value)
  {
    SubsequenceDistinct(VariantFields(Some(rec)).value, Keys(rec));
    SubsequenceDistinct(TranscriptomeFields(Some(rec)).value, Keys(rec));
    SubsequenceDistinct(MetabolomicsFields(Some(rec)).value, Keys(rec));
  }
}
