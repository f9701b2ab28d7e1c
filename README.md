# Record shaping of the genomics query backend

This project models the record-shaping layer of a small Flask/MongoDB backend
that serves gene, variant (SNP), transcriptome and metabolomics records to a
web front end, and proves properties of it. The store's queries are outside
the model: what comes back from the store is an input. The model covers what
the handlers do with those records:

- NaN substitution (`replace_nan_with_dash`). Every float NaN becomes `"-"`,
  recursively through nested dicts but not into lists.
- Variant multi-query shaping (`query_snp`). Unrequested `M.` sample fields
  are dropped. A `count` field `"<k>/<n>"` is set, where n is the number of
  requested fields and k is how many of them are present with a `"1"` in
  their value. The store's selection `#CHROM == sel and start <= POS <= end`
  is modelled as a predicate, and its `{'_id': 0}` projection is applied.
- The transcriptome projection map, and the NaN substitution of the rows.
- The metabolomics projection: requested fields plus the eight identity
  fields, then NaN substitution.
- Field discovery. These are order-preserving filters of one sample record's
  keys: by the `M.` prefix, or by a blacklist.
- The gene searches. They return the distinct values of one field from at
  most five returned records. A missing or empty term gives `[]`.
- The exact gene lookups. They return the record NaN-substituted, or `{}`.

A document is a `Records.Record`: a sequence of `(key, Value)` pairs in
insertion order, with distinct keys (`Records.DistinctKeys`). `Value` is
`Null | Bool | Int | Float | NaN | Str | List | Dict`. NaN is a tag of its
own, so no float arithmetic is involved. Python's `record[k] = v` is
`Records.Upsert`: an existing key keeps its position and a new key goes last.
Every dict comprehension `{k: v for k, v in record.items() if keep(k)}` is
`Records.Project`.

`replace_nan_with_dash` mutates its dict in place, so it is the method
`NanSubstitution.ReplaceNanWithDash`. It works on an `array<Field>`, and its
loop rewrites NaN slots and walks nested dicts in buffers of their own. That
method is proved equal to the function `NanSubstitution.SanitizeFields`, and
the properties are proved about that function. The loops of the handlers
over the store's results are the methods `Variants.ShapeAll` (the loop of
`query_snp`) and `Metabolomics.MetabolomicsData`. `Variants.QuerySnp` and
`Genes.GeneInfo` are methods without a loop of their own: the first calls
`Variants.ShapeAll`, the second copies the record into the buffer that
`NanSubstitution.ReplaceNanWithDash` mutates. The comprehensions are
functions.

The store's projection rule (`1` includes a field, `0` excludes it) is
`Store.StoreProject`. The model applies it where it also models the store's
query: the variant selection with `{'_id': 0}` and the transcriptome
projection map. The gene lookups and the metabolomics handler take the
documents as the store returns them, after its `{'_id': 0}` projection
(server.py:52, 197).

Where the documented behaviour of the system and the code differ, the model follows the code:

- The metabolomics response keeps an identity field only when the record has
  it. It does not "always include" all eight.
- The count applies Python's `'1' in v` to every requested field, not only
  to string values. A requested field holding a number, a bool, null or a
  float makes the handler raise (a server error, modelled as `None`). A list
  is searched for an element equal to `"1"`. A dict is searched for the
  key `"1"`.

## Model

| member | source | states |
|---|---|---|
| `NanSubstitution.SanitizeFields` | server.py:16-22 | The record keeps its length. Each field keeps its key and holds the walked version of its value. |
| `NanSubstitution.SanitizeValue` | server.py:16-22 | The result has no NaN reachable through dicts. It has the same keys in the same order at every dict level. A NaN becomes `"-"`. Every other non-dict value, lists included (even lists holding NaN or dicts), is unchanged. |
| `NanSubstitution.SanitizeFixedPoint` | server.py:17-21 | The walk leaves a value unchanged exactly when it already has no NaN reachable through dicts (both directions). |
| `NanSubstitution.SanitizeIdempotent` | server.py:16-22 | Applying the walk twice gives the same result as applying it once. |
| `NanSubstitution.SanitizeFieldsFacts` | server.py:16-22 | At record level: the keys and their order are unchanged, no NaN is left through dicts, the walk is idempotent, and the record is unchanged iff it had no NaN. |
| `NanSubstitution.LookupSanitized` | server.py:17-21 | After the walk, each key looks up the walked version of its old value, and absent keys stay absent. |
| `NanSubstitution.ReplaceNanWithDash` | server.py:16-22 | The in-place loop over the items leaves the buffer equal to `SanitizeFields` of its old contents. |
| `Records.FilterMultiset` | server.py:117 | As multisets, the filter's result is exactly the passing part of the input: each passing element is kept as often as it occurs, and no failing element is kept. |
| `Records.Lookup` | server.py:148 | `record[k]` gives a value exactly when the key is present, and that value is paired with `k` in the record. |
| `Records.Project` | server.py:145 | Every field of a dict comprehension over `record.items()` passes its condition. The fields keep source order, and there are no more of them than in the source. |
| `Records.KeysOfProject` | server.py:206 | The keys of a dict comprehension over `record.items()` are the source's keys filtered by the same condition. |
| `Records.Filter` | server.py:117 | The order-preserving filter behind every comprehension. The result is a subsequence of the input, holds only elements that pass, and holds every element that passes. |
| `Records.ProjectFacts` | server.py:145 | A dict comprehension over the items of a well-formed record gives a well-formed record. A key survives iff it passes the condition, and a surviving key keeps its value. The keys stay in source order. |
| `Records.LookupAt` | server.py:148 | In a record with distinct keys, each key looks up its own value. |
| `Records.Upsert` | server.py:151 | After `record[k] = v` the record holds the field `(k, v)` and has grown by at most one field. |
| `Records.UpsertKeys` | server.py:151 | `record['count'] = …` keeps the key order when `count` exists and appends `count` otherwise. |
| `Records.UpsertOthers` | server.py:151 | `record['count'] = …` leaves every field with another key in its place. |
| `Records.UpsertLookupSame` | server.py:151 | After `record[k] = v`, `k` looks up `v`, overwriting any old value. |
| `Records.UpsertLookupOther` | server.py:151 | After `record[k] = v`, every other key looks up what it did before. |
| `Records.UpsertDistinct` | server.py:151 | `record[k] = v` keeps the keys distinct. |
| `Records.SubsequenceDistinct` | server.py:117 | An order-preserving filter of a list without repetitions has no repetitions either. |
| `Decimal.NatToString` | server.py:151 | `str(n)` is a non-empty string of decimal digits with no leading zero. |
| `Decimal.ParseNatToString` | server.py:151 | Reading `str(n)` back gives `n`. |
| `Decimal.CountText` | server.py:151 | `str(k) + '/' + str(n)` has its one slash right after the digits of `k`. Every other character is a decimal digit, and it is at least three characters long. |
| `Decimal.CountTextRoundTrip` | server.py:151 | `str(k) + '/' + str(n)` splits at its first slash into exactly `k` and `n`, so the field always has the form `"<k>/<n>"`. |
| `Variants.Selected` | server.py:136-139 | A document matches the store's filter only when `start <= end`. |
| `Variants.SnpFind` | server.py:136-139 | The store returns the selected documents in store order, each under the projection `{'_id': 0}`, so none has an `_id`. |
| `Store.StoreProject` | server.py:139 | No excluded field comes back, and an excluded key is absent. Under an inclusion only included fields and `_id` come back. The fields keep their order and values. |
| `Store.HideIdFacts` | server.py:139 | Under `{'_id': 0}` a well-formed document comes back well-formed, with every field but `_id` and its value. |
| `Variants.SelectSnp` | server.py:136-139 | Every selected record matches `#CHROM == sel` and `start <= POS <= end`, and every matching record is selected, as often as it occurs in the collection (a multiset equation). The selection keeps store order. |
| `Variants.ReversedRangeSelectsNothing` | server.py:136-139 | When `start > end` (which is not validated), nothing is selected. |
| `Variants.KeepField` | server.py:145 | A requested field always survives the comprehension. A field it drops is always an `M.` field. |
| `Variants.HasMarker` | server.py:148 | Models `'1' in v`. It raises (`None`) exactly for values that are not a string, list or dict. |
| `Variants.Hits` | server.py:148 | The counted fields are a subset of the requested fields. |
| `Variants.Count` | server.py:148 | The generator sum raises exactly when some present requested field cannot be searched. Otherwise it is the number of requested fields present with a `"1"`, and it is at most the number requested. |
| `Variants.SubsetCard` | server.py:148 | A subset of the requested fields is no larger than the requested set. This gives k <= n. |
| `Variants.FilterKeepsRequested` | server.py:145-148 | Filtering never drops a requested field. So the count sees the same values, raises in the same cases, and gets the same hits as on the source record. |
| `Variants.SubsequenceAppend` | server.py:151 | Appending `count` to both key lists keeps the order relation. |
| `Variants.ShapeSnp` | server.py:145-151 | A shaped record's `count` reads back as `(k, n)`: k is the number of requested fields found holding a `"1"`, and n is the number requested. The record has no key but `count` that the source lacks. |
| `Variants.ShapeSnpFacts` | server.py:143-152 | A shaped record fails iff a requested field cannot be searched. Otherwise: its keys are distinct; a non-`M.` key keeps its value; an `M.` key is present iff requested; `count` is `"<k>/<n>"` with n the number of requested fields (`"0/0"` when none) and k <= n the number of requested fields present with a `"1"`; the keys keep source order, and `count` keeps its old place or goes last. |
| `Variants.ShapeAll` | server.py:142-154 | The loop shapes each returned record in order. It fails exactly when some record fails. |
| `Variants.QuerySnp` | server.py:135-154 | The handler shapes the documents the store returns under `{'_id': 0}`, in store order, and fails exactly when one of them fails. No response record has an `_id`. A reversed range gives `[]`. |
| `Variants.ShapeStoredSnp` | server.py:139-151 | Against the stored document: every key but `count` and `_id` of a response record looks up what it does in the document, unless it is an unrequested `M.` field. `_id` is gone. |
| `Transcriptome.BuildProjection` | server.py:165-172 | With requested fields: the projection includes exactly the requested fields and `Gene ID`, and excludes `_id` even when it is requested. Without requested fields: the projection is exactly `{_id: 0}`. Every entry is 0 or 1. |
| `Transcriptome.ProjectionSelectsFields` | server.py:165-174 | Under the store's projection rule, with no requested fields every field but `_id` comes back. With requested fields, exactly `Gene ID` and the requested fields the record has come back, never `_id`. |
| `Transcriptome.TranscriptomeRows` | server.py:175 | Each row is `SanitizeFields` of its record, in the same order. So it has the same keys and no NaN through dicts. |
| `Transcriptome.TranscriptomeData` | server.py:174-175 | Each row is the store-projected record, NaN-substituted. So it has the keys of the projected record, in its order, and no NaN through dicts. |
| `Transcriptome.TranscriptomeRowLookup` | server.py:165-175 | Field by field against the stored document: `_id` never comes back. Without requested fields every other field comes back; with requested fields exactly `Gene ID` and the requested ones. A returned field holds its stored value, NaN-substituted. |
| `Metabolomics.MetabolomicsRow` | server.py:206-207 | Every key of a response record is requested or an identity field. The record is no longer than the source and has no NaN through dicts. |
| `Metabolomics.MetabolomicsRowFacts` | server.py:200-207 | Every key of the output is requested or an identity field. Every such key of the input is kept, with its NaN-substituted value. The keys are distinct and in source order, no NaN is left, and every identity field the record has is kept. |
| `Metabolomics.MetabolomicsData` | server.py:203-209 | The loop yields one row per returned record, in order. Each row is filtered and then walked by `ReplaceNanWithDash`. |
| `FieldDiscovery.KeyFilter` | server.py:117 | The result is a subsequence of the sample's keys that holds exactly the passing keys. An empty collection raises. |
| `FieldDiscovery.VariantFields` | server.py:116-118 | Returns the sample's keys that start with `M.`, all of them and in order. An empty collection raises. |
| `FieldDiscovery.TranscriptomeFields` | server.py:122-125 | Returns the sample's keys other than `_id` and `Gene ID`, in order. An empty collection raises. |
| `FieldDiscovery.MetabolomicsFields` | server.py:182-185 | Returns the sample's keys other than the 9-entry blacklist, in order. An empty collection raises. |
| `FieldDiscovery.DiscoveredFieldsDistinct` | server.py:117 | None of the three lists names a field twice. |
| `Genes.Dedup` | server.py:32 | The set comprehension listed: no repetitions, exactly the input's values, and no longer than the input. |
| `Genes.FieldValuesMembers` | server.py:32 | The field values are exactly the values of the field in the returned records. |
| `Genes.SearchField` | server.py:27-35 | A missing or empty term gives `[]`. Otherwise the result is exactly the distinct values of the field in the at most five returned records. The values are distinct and there are at most 5. |
| `Genes.Search` | server.py:25-35 | A missing or empty term gives `[]`. Otherwise `/search` returns at most 5 distinct GeneIDs, exactly those of the returned records. |
| `Genes.Search2` | server.py:36-46 | `/search2` does the same on `Chr ID`. |
| `Genes.GeneInfo` | server.py:49-57 | A missing or empty parameter, or no record, gives `{}`. Otherwise the result is `SanitizeFields` of the returned record: the same keys, no NaN through dicts, and every non-NaN, non-dict value unchanged. |

## Left out

- Flask routing, parsing of `request.json` and `request.args`, `int(...)` conversions, `jsonify` and CORS (server.py:3-10, 129-133, 225) are framework glue. The JSON serialisation, which may reorder keys depending on configuration, is not modelled. The order statements above are about the dicts the handlers build.
- All store calls (`find`, `find_one`, `$regex`, `$in`, `.limit(5)`, `distinct`, `aggregate`) belong to the external document store. Their results are inputs. `Variants.Selected` and `Store.StoreProject` model the store's matching and projection rules for top-level fields only. Dotted paths, array-valued fields and cross-type comparisons other than int/float are not modelled.
- `searchvarian` (server.py:80-87) and `get_chart_data` (server.py:70-77) pass the store's result through unchanged, so there is nothing to model. The chart lookup key is a hard-coded constant.
- The min/max aggregation of `get_varian_option` (server.py:90-112) is computed by the store.
- The file listing and download (server.py:211-221) are filesystem I/O.
- IEEE floats are not modelled. A non-NaN float is an abstract `Float(real)` and NaN is a tag.
- `NanSubstitution.ReplaceNanWithDash` walks a nested dict in a fresh buffer and stores the result back. Python mutates the nested dict object itself, so another reference to that same object would also see the change. That aliasing is not captured.
- `rightItems` is taken as the set `set(data['rightItems'])` of strings. Non-string or unhashable items are not modelled.
- `Genes.Dedup`: Python leaves the order of `list(set)` open. The model fixes one order, and its contract states only distinctness and the set of values.
- `Genes.SearchField`: it requires each returned record to hold a string in the searched field. The store's `$regex` also matches an array field that has a matching string element. The handler would then put that list into a set and raise a `TypeError` (a server error). That error path is not modelled. A missing field cannot be matched, so the `KeyError` path does not arise.
- `Genes.GeneInfo`: a `find_one` that fails (store unavailable) is outside the model. Only "no record" is an input case.
