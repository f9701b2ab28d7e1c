/** The projection rule of the document store, which the handlers hand a
    projection map to: `1` includes a top-level field, `0` excludes it. A
    projection that includes some field keeps just the included fields (and
    "_id" unless it is excluded); otherwise it drops the excluded fields. */
module Store {
  import opened Wrappers
  import opened Records

  predicate Includes(p: map<string, int>, k: string) {
    k in p && p[k] == 1
  }

  predicate Excludes(p: map<string, int>, k: string) {
    k in p && p[k] == 0
  }

  predicate InclusionMode(p: map<string, int>) {
    exists k :: k in p && Includes(p, k)
  }

  function StoreKeep(p: map<string, int>): string -> bool {
    if InclusionMode(p) then k => Includes(p, k) || (k == "_id" && !Excludes(p, k))
    else k => !Excludes(p, k)
  }

  /** The document as the store returns it under the projection `p`: no
      excluded field comes back; under an inclusion only the included fields
      and "_id" do; the fields keep their order and values. */
  function StoreProject(rec: Record, p: map<string, int>): (r: Record)
    ensures forall i :: 0 <= i < |r| ==> !Excludes(p, r[i].0)
    ensures InclusionMode(p) ==> forall i :: 0 <= i < |r| ==> Includes(p, r[i].0) || r[i].0 == "_id"
    ensures forall k :: Excludes(p, k) ==> !HasKey(r, k)
    ensures Subsequence(r, rec)
  {
    Project(rec, StoreKeep(p))
  }

  /** The projection `{'_id': 0}`. */
  const HideId: map<string, int> := map["_id" := 0]

  /** Under `{'_id': 0}` a well-formed document comes back well-formed, with
      every field but "_id" and its value. */
  lemma HideIdFacts(rec: Record)
    requires DistinctKeys(rec)
    ensures DistinctKeys(StoreProject(rec, HideId))
    ensures forall k :: Lookup(StoreProject(rec, HideId), k) == if k == "_id" then None else Lookup(rec, k)
  {
    ProjectFacts(rec, StoreKeep(HideId));
  }
}
