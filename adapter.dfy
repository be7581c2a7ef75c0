/**
 * useURLSearchParams: turns a URLSearchParams container into the plain
 * record that a z.object schema validates, coercing every value through
 * JSON.parse with the raw string as fallback.
 */
module URLSearchParamsAdapter {
  import opened Json
  import opened SearchParams

  /**
   * What the record holds under one key: `values[0]` of an empty list
   * (undefined), a single coerced value, or the list of all of them.
   * In JavaScript a List and a parsed JSON array are both arrays; the model
   * keeps them apart so that the unwrapping rule can be stated.
   */
  datatype Coerced = Undefined | Single(value: Json) | List(values: seq<Json>)

  /** The record handed to the schema. Key order of the JavaScript object is not modelled. */
  type Record = map<string, Coerced>

  /** zod's UnknownKeysParam: what a z.object does with keys its shape does not declare. */
  datatype UnknownKeys = Strip | Strict | Passthrough

  /** The two things the adapter reads from a z.object: its shape's field names, in order, and `_def.unknownKeys`. */
  datatype ObjectSchema = ObjectSchema(shape: seq<string>, unknownKeys: UnknownKeys)

  /** safeParseJSON: JSON.parse's value, or the string itself when parsing throws. It never fails. */
  function SafeParseJSON(parse: Parser, s: string): (v: Json)
    ensures parse(s).Some? ==> v == parse(s).value
    ensures parse(s).None? ==> v == JString(s)
  {
    match parse(s)
    case Some(j) => j
    case None => JString(s)
  }

  /** `values.map(safeParseJSON)`: one coerced value per raw value, in the same order. */
  function CoerceAll(parse: Parser, raw: seq<string>): (vs: seq<Json>)
    ensures |vs| == |raw|
    ensures forall i :: 0 <= i < |raw| ==> vs[i] == SafeParseJSON(parse, raw[i])
  {
    if raw == [] then [] else [SafeParseJSON(parse, raw[0])] + CoerceAll(parse, raw[1..])
  }

  /** The list of values a record entry stands for: the inverse of Unwrap. */
  function Values(c: Coerced): seq<Json>
  {
    match c
    case Undefined => []
    case Single(v) => [v]
    case List(vs) => vs
  }

  /** An entry Unwrap can produce: a List always has more than one element. */
  predicate Canonical(c: Coerced)
  {
    c.List? ==> |c.values| > 1
  }

  /**
   * `values.length > 1 ? values : values[0]`. Unwrapping loses nothing: the
   * values can be read back, the entry is Undefined, Single or List exactly
   * for zero, one or several values, and a one-element list never appears.
   */
  function Unwrap(values: seq<Json>): (c: Coerced)
    ensures Values(c) == values
    ensures Canonical(c)
    ensures c.Undefined? <==> |values| == 0
    ensures c.Single? <==> |values| == 1
    ensures c.List? <==> |values| > 1
  {
    if |values| > 1 then List(values)
    else if |values| == 1 then assert [values[0]] == values; Single(values[0])
    else Undefined
  }

  /** Every canonical entry is what Unwrap makes of its own values. */
  lemma UnwrapValues(c: Coerced)
    requires Canonical(c)
    ensures Unwrap(Values(c)) == c
  {
  }

  /**
   * The entry computed for one key: `getAll(key).map(safeParseJSON)`,
   * unwrapped, so it stands for exactly the coerced values of that key.
   */
  function Entry(parse: Parser, p: Params, key: string): (c: Coerced)
    ensures Canonical(c)
    ensures Values(c) == CoerceAll(parse, GetAll(p, key))
  {
    Unwrap(CoerceAll(parse, GetAll(p, key)))
  }

  /**
   * The reduce callback applied to each key in turn, starting from
   * `record`: `{ ...record, [key]: entry }` is `record[key := entry]`.
   * Afterwards the record holds the keys it started with and every visited
   * key; a visited key holds its entry, however often and wherever it was
   * visited, and the other keys are untouched.
   */
  function Reduce(parse: Parser, p: Params, keys: seq<string>, record: Record): (r: Record)
    ensures r.Keys == record.Keys + set k | k in keys
    ensures forall k :: k in keys ==> r[k] == Entry(parse, p, k)
    ensures forall k :: k in record && k !in keys ==> r[k] == record[k]
  {
    if keys == [] then record
    else
      assert keys == [keys[0]] + keys[1..];
      assert (set k | k in keys) == {keys[0]} + set k | k in keys[1..];
      Reduce(parse, p, keys[1..], record[keys[0] := Entry(parse, p, keys[0])])
  }

  /** `keys ?? searchParams.keys()`: an empty key list is kept, only a missing one falls back. */
  function LookupKeys(keys: Option<seq<string>>, p: Params): (ks: seq<string>)
    ensures keys.Some? ==> ks == keys.value
    ensures keys.None? ==> ks == Keys(p)
  {
    match keys
    case Some(ks) => ks
    case None => Keys(p)
  }

  /**
   * searchParamsToValues(keys)(searchParams): the record has exactly the
   * listed keys, or exactly the container's keys when no list is given;
   * a key without values holds undefined, a key with one value holds that
   * value coerced, and a key with several holds all of them coerced, in the
   * order getAll returns them.
   */
  function SearchParamsToValues(parse: Parser, keys: Option<seq<string>>, p: Params): (r: Record)
    ensures keys.Some? ==> r.Keys == set k | k in keys.value
    ensures keys.None? ==> r.Keys == set k | k in Keys(p)
    ensures forall k :: k in r && |GetAll(p, k)| == 0 ==> r[k] == Undefined
    ensures forall k :: k in r && |GetAll(p, k)| == 1 ==> r[k] == Single(SafeParseJSON(parse, GetAll(p, k)[0]))
    ensures forall k :: k in r && |GetAll(p, k)| > 1 ==>
              && r[k].List?
              && |r[k].values| == |GetAll(p, k)|
              && forall i :: 0 <= i < |GetAll(p, k)| ==> r[k].values[i] == SafeParseJSON(parse, GetAll(p, k)[i])
  {
    Reduce(parse, p, LookupKeys(keys, p), map[])
  }

  /** The key list useURLSearchParams passes: the shape's field names exactly when unknown keys are stripped. */
  function SchemaKeys(schema: ObjectSchema): (keys: Option<seq<string>>)
    ensures keys.Some? <==> schema.unknownKeys == Strip
    ensures keys.Some? ==> keys.value == schema.shape
  {
    if schema.unknownKeys == Strip then Some(schema.shape) else None
  }

  /**
   * The record that useURLSearchParams(schema) hands to `schema` for a
   * URLSearchParams input. Under 'strip' it holds exactly the declared
   * fields (extra container keys never reach the schema, and a declared
   * field with no value is present as undefined); otherwise it holds
   * exactly the container's keys, so the schema's own policy judges the extra ones.
   */
  function UseURLSearchParams(schema: ObjectSchema, parse: Parser, p: Params): (r: Record)
    ensures schema.unknownKeys == Strip ==> r.Keys == set k | k in schema.shape
    ensures schema.unknownKeys != Strip ==> r.Keys == set k | k in Keys(p)
    ensures schema.unknownKeys == Strip ==>
              forall k :: k in schema.shape && k !in Keys(p) ==> r[k] == Undefined
  {
    var r := SearchParamsToValues(parse, SchemaKeys(schema), p);
    assert schema.unknownKeys == Strip ==> forall k :: k in schema.shape && k !in Keys(p) ==> |GetAll(p, k)| == 0 by {
      forall k | k in schema.shape && k !in Keys(p) {
        GetAllNonEmpty(p, k);
      }
    }
    r
  }

  /** Two folds from `{}` over lists holding the same keys build the same record. */
  lemma SameKeysSameFold(parse: Parser, p: Params, ks1: seq<string>, ks2: seq<string>)
    requires forall k :: k in ks1 <==> k in ks2
    ensures Reduce(parse, p, ks1, map[]) == Reduce(parse, p, ks2, map[])
  {
    var r1 := Reduce(parse, p, ks1, map[]);
    var r2 := Reduce(parse, p, ks2, map[]);
    assert r1.Keys == r2.Keys;
    forall k | k in r1
      ensures r1[k] == r2[k]
    {
      assert k in ks1 && k in ks2;
    }
  }

  /**
   * Which keys are visited, in what order and how often does not matter:
   * the record depends only on the set of keys.
   */
  lemma SameKeySetSameRecord(parse: Parser, p: Params, ks1: seq<string>, ks2: seq<string>)
    requires (set k | k in ks1) == (set k | k in ks2)
    ensures SearchParamsToValues(parse, Some(ks1), p) == SearchParamsToValues(parse, Some(ks2), p)
  {
    var s1, s2 := set k | k in ks1, set k | k in ks2;
    forall k
      ensures k in ks1 <==> k in ks2
    {
      assert k in ks1 <==> k in s1;
      assert k in ks2 <==> k in s2;
    }
    SameKeysSameFold(parse, p, ks1, ks2);
  }

  /** Visiting a key once more, as keys() does for a repeated name, leaves the record as it was. */
  lemma RepeatedKeyNoEffect(parse: Parser, p: Params, ks: seq<string>, key: string)
    requires key in ks
    ensures SearchParamsToValues(parse, Some(ks + [key]), p) == SearchParamsToValues(parse, Some(ks), p)
  {
    assert (set k | k in ks + [key]) == (set k | k in ks);
    SameKeySetSameRecord(parse, p, ks + [key], ks);
  }

  /**
   * Enumerating the container's keys, repeats included, gives the same
   * record as passing any list of its distinct keys.
   */
  lemma ContainerKeysAsList(parse: Parser, p: Params, ks: seq<string>)
    requires (set k | k in ks) == (set k | k in Keys(p))
    ensures SearchParamsToValues(parse, None, p) == SearchParamsToValues(parse, Some(ks), p)
  {
    SameKeySetSameRecord(parse, p, Keys(p), ks);
  }

  /** Without a key list every key visited has a value, so no entry is undefined. */
  lemma NoUndefinedWithoutKeyList(parse: Parser, p: Params)
    ensures forall k :: k in SearchParamsToValues(parse, None, p) ==> SearchParamsToValues(parse, None, p)[k] != Undefined
  {
    var r := SearchParamsToValues(parse, None, p);
    forall k | k in r
      ensures r[k] != Undefined
    {
      assert k in Keys(p);
      GetAllNonEmpty(p, k);
    }
  }

  /** Every entry of the record is canonical and stands for exactly the coerced values of its key. */
  lemma EntriesAreCoercedValues(parse: Parser, keys: Option<seq<string>>, p: Params)
    ensures forall k :: k in SearchParamsToValues(parse, keys, p) ==>
              && Canonical(SearchParamsToValues(parse, keys, p)[k])
              && Values(SearchParamsToValues(parse, keys, p)[k]) == CoerceAll(parse, GetAll(p, k))
  {
  }
}
