/** The gene handlers: the two substring searches (`search` on "GeneID",
    `search2` on "Chr ID") and the two exact lookups (`get_gene_info`,
    `get_gene_info2`). The store's regex match, its `limit(5)` and
    `find_one` are inputs: the records they return. */
module Genes {
  import opened Wrappers
  import opened Records
  import opened NanSubstitution

  /** The string value of `field`, if it has one. */
  function FieldString(rec: Record, field: string): Option<string> {
    match Lookup(rec, field)
    case Some(Str(s)) => Some(s)
    case _ => None
  }

  /** The distinct elements of `xs`: the set comprehension of the search
      handlers, listed. Python leaves the order of `list(set)` open; this one
      keeps last occurrences. */
  function Dedup(xs: seq<string>): (r: seq<string>)
    ensures Distinct(r)
    ensures forall x :: x in r <==> x in xs
    ensures |r| <= |xs|
  {
    if xs == [] then []
    else if xs[0] in xs[1..] then Dedup(xs[1..])
    else [xs[0]] + Dedup(xs[1..])
  }

  /** The value of `field` of each record, in order. */
  function FieldValues(found: seq<Record>, field: string): (vs: seq<string>)
    requires forall j :: 0 <= j < |found| ==> FieldString(found[j], field).Some?
  {
    seq(|found|, j requires 0 <= j < |found| => FieldString(found[j], field).value)
  }

  lemma FieldValuesMembers(found: seq<Record>, field: string)
    requires forall j :: 0 <= j < |found| ==> FieldString(found[j], field).Some?
    ensures forall s :: s in FieldValues(found, field) <==>
      exists j :: 0 <= j < |found| && FieldString(found[j], field) == Some(s)
  {
    var vs := FieldValues(found, field);
    forall s ensures s in vs <==> exists j :: 0 <= j < |found| && FieldString(found[j], field) == Some(s) {
      if s in vs {
        var j :| 0 <= j < |vs| && vs[j] == s;
        assert FieldString(found[j], field) == Some(s);
      }
      if exists j :: 0 <= j < |found| && FieldString(found[j], field) == Some(s) {
        var j :| 0 <= j < |found| && FieldString(found[j], field) == Some(s);
        assert vs[j] == s;
      }
    }
  }

  /** A search on `field`. The store returns at most five records, each
      matched on that field, so each holds a string there. A missing or empty
      term answers without asking the store. */
  function SearchField(term: Option<string>, found: seq<Record>, field: string): (r: seq<string>)
    requires |found| <= 5
    requires forall j :: 0 <= j < |found| ==> FieldString(found[j], field).Some?
    ensures term.None? || term == Some("") ==> r == []
    ensures Distinct(r)
    ensures |r| <= 5
    ensures term.Some? && term.value != "" ==>
      forall s :: s in r <==> exists j :: 0 <= j < |found| && FieldString(found[j], field) == Some(s)
  {
    if term.None? || term.value == "" then []
    else
      var values := FieldValues(found, field);
      FieldValuesMembers(found, field);
      Dedup(values)
  }

  /** `/search`: at most five distinct GeneIDs, exactly those of the records. */
  function Search(term: Option<string>, found: seq<Record>): (r: seq<string>)
    requires |found| <= 5
    requires forall j :: 0 <= j < |found| ==> FieldString(found[j], "GeneID").Some?
    ensures term.None? || term == Some("") ==> r == []
    ensures Distinct(r) && |r| <= 5
    ensures term.Some? && term.value != "" ==>
      forall s :: s in r <==> exists j :: 0 <= j < |found| && FieldString(found[j], "GeneID") == Some(s)
  {
    SearchField(term, found, "GeneID")
  }

  /** `/search2`: at most five distinct Chr IDs, exactly those of the records. */
  function Search2(term: Option<string>, found: seq<Record>): (r: seq<string>)
    requires |found| <= 5
    requires forall j :: 0 <= j < |found| ==> FieldString(found[j], "Chr ID").Some?
    ensures term.None? || term == Some("") ==> r == []
    ensures Distinct(r) && |r| <= 5
    ensures term.Some? && term.value != "" ==>
      forall s :: s in r <==> exists j :: 0 <= j < |found| && FieldString(found[j], "Chr ID") == Some(s)
  {
    SearchField(term, found, "Chr ID")
  }

  /** An exact lookup: an absent parameter, no record or an empty record
      answer `{}`; otherwise the record, walked by `replace_nan_with_dash` in
      a buffer of its own. */
  method GeneInfo(param: Option<string>, found: Option<Record>) returns (r: Record)
    ensures param.None? || param == Some("") || found.None? ==> r == []
    ensures param.Some? && param.value != "" && found.Some? ==> r == SanitizeFields(found.value)
    ensures param.Some? && param.value != "" && found.Some? ==>
      && Keys(r) == Keys(found.value)
      && NaNFree(Dict(r))
      && forall i :: 0 <= i < |r| && !found.value[i].1.NaN? && !found.value[i].1.Dict? ==>
           r[i] == found.value[i]
  {
    if param.None? || param.value == "" || found.None? {
      return [];
    }
    var rec := found.value;
    var buf := new Field[|rec|](j requires 0 <= j < |rec| => rec[j]);
    assert buf[..] == rec;
    ReplaceNanWithDash(buf);
    r := buf[..];
    SanitizeFieldsFacts(rec);
  }
}
