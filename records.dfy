/** Documents as the handlers see them once the store has returned them: an
    ordered sequence of (key, value) pairs, the order being the insertion order
    of the store's document. Values are the JSON-like shapes a document holds;
    a float "not a number" is a tag of its own, so no float arithmetic is
    involved. */
module Records {
  import opened Wrappers

  datatype Value =
    | Null
    | Bool(b: bool)
    | Int(i: int)
    | Float(r: real)   // a float that is not NaN
    | NaN              // the float "not a number"
    | Str(s: string)
    | List(items: seq<Value>)
    | Dict(fields: seq<(string, Value)>)

  type Field = (string, Value)
  type Record = seq<Field>

  /** The keys of a record, in iteration order. */
  function Keys(fs: Record): (ks: seq<string>)
    ensures |ks| == |fs|
    ensures forall i :: 0 <= i < |fs| ==> ks[i] == fs[i].0
  {
    seq(|fs|, i requires 0 <= i < |fs| => fs[i].0)
  }

  /** A well-formed record: no key occurs twice. */
  predicate DistinctKeys(fs: Record) {
    Distinct(Keys(fs))
  }

  predicate Distinct<T(==)>(s: seq<T>) {
    forall i, j :: 0 <= i < j < |s| ==> s[i] != s[j]
  }

  predicate HasKey(fs: Record, k: string) {
    k in Keys(fs)
  }

  /** `k.startswith(prefix)` */
  predicate StartsWith(k: string, prefix: string) {
    |prefix| <= |k| && k[..|prefix|] == prefix
  }

  /** `record[k]`, or None where the key is absent. */
  function Lookup(fs: Record, k: string): (r: Option<Value>)
    ensures r.Some? <==> HasKey(fs, k)
    ensures r.Some? ==> (k, r.value) in fs
  {
    if fs == [] then None
    else if fs[0].0 == k then Some(fs[0].1)
    else Lookup(fs[1..], k)
  }

  /** In a well-formed record, each key looks up its own value. */
  lemma {:induction false} LookupAt(fs: Record, i: int)
    requires DistinctKeys(fs)
    requires 0 <= i < |fs|
    ensures Lookup(fs, fs[i].0) == Some(fs[i].1)
  {
    if i > 0 {
      assert fs[0].0 != fs[i].0;
      assert fs[1..][i - 1] == fs[i];
      LookupAt(fs[1..], i - 1);
    }
  }

  /** `a` is `b` with some elements dropped: order is preserved. */
  predicate Subsequence<T(==)>(a: seq<T>, b: seq<T>)
    decreases |b|
  {
    if a == [] then true
    else if b == [] then false
    else if a[0] == b[0] then Subsequence(a[1..], b[1..])
    else Subsequence(a, b[1..])
  }

  /** The order-preserving filter that every list and dict comprehension of
      the handlers is an instance of. */
  function Filter<T(==)>(s: seq<T>, p: T -> bool): (r: seq<T>)
    ensures |r| <= |s|
    ensures forall i :: 0 <= i < |r| ==> r[i] in s && p(r[i])
    ensures forall i :: 0 <= i < |s| && p(s[i]) ==> s[i] in r
    ensures Subsequence(r, s)
  {
    if s == [] then []
    else if p(s[0]) then [s[0]] + Filter(s[1..], p)
    else Filter(s[1..], p)
  }

  /** The filter keeps every passing element as often as it occurs, and no
      failing one: as multisets, the result is the passing part of the input. */
  lemma {:induction false} FilterMultiset<T>(s: seq<T>, p: T -> bool, x: T)
    ensures multiset(Filter(s, p))[x] == if p(x) then multiset(s)[x] else 0
  {
    if s != [] {
      FilterMultiset(s[1..], p, x);
      assert s == [s[0]] + s[1..];
      if p(s[0]) {
        assert Filter(s, p) == [s[0]] + Filter(s[1..], p);
      }
    }
  }

  /** A subsequence of a sequence without repetitions has none either. */
  lemma {:induction false} SubsequenceDistinct<T>(a: seq<T>, b: seq<T>)
    requires Subsequence(a, b)
    requires Distinct(b)
    ensures Distinct(a)
    decreases |b|
  {
    if a != [] && b != [] {
      assert Distinct(b[1..]) by {
        forall i, j | 0 <= i < j < |b[1..]| ensures b[1..][i] != b[1..][j] {
          assert b[1..][i] == b[i + 1] && b[1..][j] == b[j + 1];
        }
      }
      if a[0] == b[0] {
        SubsequenceDistinct(a[1..], b[1..]);
        SubsequenceMembers(a[1..], b[1..]);
        forall j | 0 < j < |a| ensures a[0] != a[j] {
          assert a[j] == a[1..][j - 1];
          assert a[j] in b[1..];
          var m :| 0 <= m < |b[1..]| && b[1..][m] == a[j];
          assert b[m + 1] == a[j];
        }
      } else {
        SubsequenceDistinct(a, b[1..]);
      }
    }
  }

  /** Every element of a subsequence is an element of the whole. */
  lemma {:induction false} SubsequenceMembers<T>(a: seq<T>, b: seq<T>)
    requires Subsequence(a, b)
    ensures forall i :: 0 <= i < |a| ==> a[i] in b
    decreases |b|
  {
    if a != [] && b != [] {
      if a[0] == b[0] {
        SubsequenceMembers(a[1..], b[1..]);
        assert forall i :: 1 <= i < |a| ==> a[i] == a[1..][i - 1];
      } else {
        SubsequenceMembers(a, b[1..]);
      }
    }
  }

  /** The fields whose key satisfies `keep`, in source order: the shape of
      every dict comprehension over `record.items()` in the handlers. */
  function Project(fs: Record, keep: string -> bool): (r: Record)
    ensures |r| <= |fs|
    ensures forall i :: 0 <= i < |r| ==> keep(r[i].0)
    ensures Subsequence(r, fs)
  {
    Filter(fs, (f: Field) => keep(f.0))
  }

  /** Projecting the fields and then taking the keys is filtering the keys. */
  lemma {:induction false} KeysOfProject(fs: Record, keep: string -> bool)
    ensures Keys(Project(fs, keep)) == Filter(Keys(fs), keep)
  {
    if fs != [] {
      var rest := Project(fs[1..], keep);
      KeysOfProject(fs[1..], keep);
      KeysCons(fs[0], fs[1..]);
      assert fs == [fs[0]] + fs[1..];
      if keep(fs[0].0) {
        assert Project(fs, keep) == [fs[0]] + rest;
        KeysCons(fs[0], rest);
      } else {
        assert Project(fs, keep) == rest;
      }
    }
  }

  lemma KeysCons(f: Field, fs: Record)
    ensures Keys([f] + fs) == [f.0] + Keys(fs)
  {
  }

  /** Projection keeps a well-formed record well-formed, drops exactly the
      failing keys, keeps the value of every kept key, and keeps the source
      order of the keys. */
  lemma ProjectFacts(fs: Record, keep: string -> bool)
    requires DistinctKeys(fs)
    ensures DistinctKeys(Project(fs, keep))
    ensures forall k :: Lookup(Project(fs, keep), k) == if keep(k) then Lookup(fs, k) else None
    ensures Subsequence(Keys(Project(fs, keep)), Keys(fs))
  {
    var r := Project(fs, keep);
    KeysOfProject(fs, keep);
    SubsequenceDistinct(Keys(r), Keys(fs));
    forall k ensures Lookup(r, k) == if keep(k) then Lookup(fs, k) else None {
      if Lookup(r, k).Some? {
        var v := Lookup(r, k).value;
        assert (k, v) in fs && keep(k);
        var i :| 0 <= i < |fs| && fs[i] == (k, v);
        LookupAt(fs, i);
      }
    }
  }

  /** `record[k] = v`: an existing key keeps its position and takes the new
      value; a new key goes to the end. */
  function Upsert(fs: Record, k: string, v: Value): (r: Record)
    ensures (k, v) in r
    ensures |fs| <= |r| <= |fs| + 1
  {
    if fs == [] then [(k, v)]
    else if fs[0].0 == k then [(k, v)] + fs[1..]
    else [fs[0]] + Upsert(fs[1..], k, v)
  }

  /** `record[k] = v` leaves the key order alone when `k` is present and
      appends `k` otherwise. */
  lemma {:induction false} UpsertKeys(fs: Record, k: string, v: Value)
    ensures HasKey(fs, k) ==> Keys(Upsert(fs, k, v)) == Keys(fs)
    ensures !HasKey(fs, k) ==> Keys(Upsert(fs, k, v)) == Keys(fs) + [k]
  {
    if fs == [] {
      assert Upsert(fs, k, v) == [(k, v)];
    } else {
      assert fs == [fs[0]] + fs[1..];
      KeysCons(fs[0], fs[1..]);
      if fs[0].0 != k {
        var rest := Upsert(fs[1..], k, v);
        UpsertKeys(fs[1..], k, v);
        assert Upsert(fs, k, v) == [fs[0]] + rest;
        KeysCons(fs[0], rest);
        assert HasKey(fs, k) == HasKey(fs[1..], k);
      } else {
        assert Upsert(fs, k, v) == [(k, v)] + fs[1..];
        KeysCons((k, v), fs[1..]);
      }
    }
  }

  /** `record[k] = v` leaves every field with another key in its place. */
  lemma {:induction false} UpsertOthers(fs: Record, k: string, v: Value)
    ensures |Upsert(fs, k, v)| >= |fs|
    ensures forall i :: 0 <= i < |fs| && fs[i].0 != k ==> Upsert(fs, k, v)[i] == fs[i]
  {
    if fs != [] && fs[0].0 != k {
      var rest := Upsert(fs[1..], k, v);
      UpsertOthers(fs[1..], k, v);
      var r := Upsert(fs, k, v);
      assert r == [fs[0]] + rest;
      forall i | 0 <= i < |fs| && fs[i].0 != k ensures r[i] == fs[i] {
        if i > 0 {
          assert fs[i] == fs[1..][i - 1];
          assert r[i] == rest[i - 1];
        }
      }
    }
  }

  /** After `record[k] = v` the key `k` looks up `v`. */
  lemma {:induction false} UpsertLookupSame(fs: Record, k: string, v: Value)
    ensures Lookup(Upsert(fs, k, v), k) == Some(v)
  {
    if fs != [] && fs[0].0 != k {
      UpsertLookupSame(fs[1..], k, v);
    }
  }

  /** After `record[k] = v` every other key looks up what it did before. */
  lemma {:induction false} UpsertLookupOther(fs: Record, k: string, v: Value, k': string)
    requires k' != k
    ensures Lookup(Upsert(fs, k, v), k') == Lookup(fs, k')
  {
    if fs != [] && fs[0].0 != k {
      UpsertLookupOther(fs[1..], k, v, k');
    }
  }

  /** `record[k] = v` keeps a well-formed record well-formed. */
  lemma UpsertDistinct(fs: Record, k: string, v: Value)
    requires DistinctKeys(fs)
    ensures DistinctKeys(Upsert(fs, k, v))
  {
    UpsertKeys(fs, k, v);
    if !HasKey(fs, k) {
      var ks := Keys(fs) + [k];
      forall i, j | 0 <= i < j < |ks| ensures ks[i] != ks[j] {
        if j == |ks| - 1 {
          assert ks[i] == Keys(fs)[i];
        } else {
          assert ks[i] == Keys(fs)[i] && ks[j] == Keys(fs)[j];
        }
      }
    }
  }
}
