/** `replace_nan_with_dash`: every float NaN of a record becomes the string
    "-", recursively through nested dicts but not into lists. */
module NanSubstitution {
  import opened Wrappers
  import opened Records

  /** No NaN is reachable from `v` through dicts. Lists are opaque to the
      walk, so a NaN inside a list does not count against this. */
  predicate NaNFree(v: Value) {
    match v
    case NaN => false
    case Dict(fs) => forall i :: 0 <= i < |fs| ==> NaNFree(fs[i].1)
    case _ => true
  }

  /** `w` has exactly the dict structure of `v`: the same keys in the same
      order at every level reachable through dicts. */
  predicate SameShape(v: Value, w: Value) {
    match v
    case Dict(fs) =>
      && w.Dict?
      && Keys(w.fields) == Keys(fs)
      && forall i :: 0 <= i < |fs| ==> SameShape(fs[i].1, w.fields[i].1)
    case _ => !w.Dict?
  }

  /** The value the walk leaves in a slot that held `v`. */
  function SanitizeValue(v: Value): (r: Value)
    ensures NaNFree(r)
    ensures SameShape(v, r)
    ensures v.NaN? ==> r == Str("-")
    ensures !v.NaN? && !v.Dict? ==> r == v
  {
    match v
    case NaN => Str("-")
    case Dict(fs) =>
      Dict(seq(|fs|, i requires 0 <= i < |fs| => (fs[i].0, SanitizeValue(fs[i].1))))
    case _ => v
  }

  /** The record `replace_nan_with_dash(record)` leaves behind. */
  function SanitizeFields(fs: Record): (r: Record)
    ensures |r| == |fs|
    ensures forall i :: 0 <= i < |fs| ==> r[i] == (fs[i].0, SanitizeValue(fs[i].1))
  {
    SanitizeValue(Dict(fs)).fields
  }

  /** The walk changes nothing exactly when there is no NaN to replace. */
  lemma {:induction false} SanitizeFixedPoint(v: Value)
    ensures SanitizeValue(v) == v <==> NaNFree(v)
  {
    match v
    case Dict(fs) =>
      if NaNFree(v) {
        forall i | 0 <= i < |fs| ensures SanitizeValue(fs[i].1) == fs[i].1 {
          SanitizeFixedPoint(fs[i].1);
        }
        assert SanitizeValue(v).fields == fs;
      }
    case _ =>
  }

  /** Applying the walk twice is applying it once. */
  lemma SanitizeIdempotent(v: Value)
    ensures SanitizeValue(SanitizeValue(v)) == SanitizeValue(v)
  {
    SanitizeFixedPoint(SanitizeValue(v));
  }

  /** The record-level statement: the sanitized record has the same keys in
      the same order, no NaN reachable through dicts, and is a fixed point. */
  lemma SanitizeFieldsFacts(fs: Record)
    ensures Keys(SanitizeFields(fs)) == Keys(fs)
    ensures NaNFree(Dict(SanitizeFields(fs)))
    ensures SanitizeFields(SanitizeFields(fs)) == SanitizeFields(fs)
    ensures SanitizeFields(fs) == fs <==> NaNFree(Dict(fs))
  {
    SanitizeIdempotent(Dict(fs));
    SanitizeFixedPoint(Dict(fs));
  }

  /** A key of the sanitized record looks up the sanitized value of what it
      looked up before. */
  lemma {:induction false} LookupSanitized(fs: Record, k: string)
    ensures Lookup(SanitizeFields(fs), k) ==
      match Lookup(fs, k)
      case None => None
      case Some(v) => Some(SanitizeValue(v))
  {
    if fs != [] {
      var r := SanitizeFields(fs);
      assert r[1..] == SanitizeFields(fs[1..]);
      if fs[0].0 != k {
        LookupSanitized(fs[1..], k);
      }
    }
  }

  /** `replace_nan_with_dash(record)` on a record held in a buffer: the loop
      over the items rewrites a NaN slot with "-" and walks a nested dict in a
      buffer of its own before storing it back. */
  method ReplaceNanWithDash(rec: array<Field>)
    modifies rec
    ensures rec[..] == SanitizeFields(old(rec[..]))
    decreases Dict(rec[..])
  {
    ghost var start := rec[..];
    var i := 0;
    while i < rec.Length
      invariant 0 <= i <= rec.Length
      invariant forall j :: 0 <= j < i ==> rec[j] == (start[j].0, SanitizeValue(start[j].1))
      invariant forall j :: i <= j < rec.Length ==> rec[j] == start[j]
    {
      var (key, value) := rec[i];
      match value {
        case NaN =>
          rec[i] := (key, Str("-"));
        case Dict(fs) =>
          var nested := new Field[|fs|](j requires 0 <= j < |fs| => fs[j]);
          assert nested[..] == fs;
          assert start[i] in start;
          ReplaceNanWithDash(nested);
          rec[i] := (key, Dict(nested[..]));
        case _ =>
      }
      i := i + 1;
    }
  }
}
