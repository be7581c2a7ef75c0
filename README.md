# useURLSearchParams (zod_utilz) in Dafny

`useURLSearchParams(schema)` adapts a zod `z.object` schema so that it accepts a
`URLSearchParams` container instead of a plain object. The container's values are
coerced into a record, and the record is then validated by the original schema.
To coerce a value, the adapter asks `JSON.parse` for it and keeps the raw string
when parsing throws (`safeParseJSON`). A key with one value holds that value, a key
with several values holds the list of them, and a key with none holds `undefined`.
It picks the keys to visit from the schema's unknown-key policy. Under `'strip'` it
visits the shape's declared field names. Otherwise it visits every name the
container yields.

This model covers that transform:

- `json.dfy` (module `Json`): the values `JSON.parse` returns. The parser itself
  is a function parameter `Parser = string -> Option<Json>`. `None` means
  `JSON.parse` throws. The JSON grammar is not modelled.
- `search_params.dfy` (module `SearchParams`): the container as its ordered list
  of name/value pairs, with `keys()` and `getAll(name)`.
- `adapter.dfy` (module `URLSearchParamsAdapter`): `safeParseJSON`, the
  `reduce` fold of `searchParamsToValues`, and the key-list choice of
  `useURLSearchParams`. All of it is pure. The fold is a recursive function
  that starts from `{}` and applies `{ ...record, [key]: entry }` as a map update.
- `doc_examples.dfy` (module `DocExamples`): the two usages in the doc comment.
  They are proved from three facts about what `JSON.parse` returns for `"foo"`,
  `"42"` and `"false"`.

`searchParams.keys()` yields a name once per pair, so when no key list is given a
repeated name is visited more than once. `RepeatedKeyNoEffect` and
`ContainerKeysAsList` prove that the repeats do not change the record.

## Model

| member | source | states |
|---|---|---|
| `SearchParams.Keys` | src/useURLSearchParams.ts:57 | `keys()` yields one name per pair, in pair order, repeated names included |
| `SearchParams.GetAll` | src/useURLSearchParams.ts:58 | `getAll(name)` returns no more values than there are pairs, and each value it returns comes from a pair called `name` |
| `SearchParams.GetAllMembers` | src/useURLSearchParams.ts:58 | a fact about the container, not used by the adapter: a string is among `getAll(name)` exactly when the container has the pair (name, string) |
| `SearchParams.GetAllNonEmpty` | src/useURLSearchParams.ts:57-58 | `getAll(name)` is non-empty exactly when `keys()` yields the name |
| `SearchParams.GetAllAppend` | src/useURLSearchParams.ts:58 | `getAll` keeps insertion order: the values of later pairs follow those of earlier pairs |
| `SearchParams.AppendPair` | src/useURLSearchParams.ts:58 | a fact about the container (`URLSearchParams.append`, which the adapter never calls), not used by the adapter: an appended pair adds its value at the end of its own name's list and leaves other names' lists unchanged |
| `URLSearchParamsAdapter.SafeParseJSON` | src/useURLSearchParams.ts:50-53 | never fails: the parsed value when `JSON.parse` succeeds, the original string unchanged when it throws |
| `URLSearchParamsAdapter.CoerceAll` | src/useURLSearchParams.ts:58 | `map(safeParseJSON)` keeps the length, and element i is `safeParseJSON` of raw value i |
| `URLSearchParamsAdapter.Unwrap` | src/useURLSearchParams.ts:59 | no values gives undefined, one gives a single value and more give a list; a list of fewer than two values never appears, and the values can be recovered |
| `URLSearchParamsAdapter.UnwrapValues` | src/useURLSearchParams.ts:59 | every entry whose list, if it has one, holds more than one value is what the unwrapping rule makes of its own values |
| `URLSearchParamsAdapter.Entry` | src/useURLSearchParams.ts:58-59 | the entry for a key has no list of fewer than two values and stands for exactly the coerced `getAll` values of that key, in order |
| `URLSearchParamsAdapter.Reduce` | src/useURLSearchParams.ts:57-60 | the fold's record holds the start keys and every visited key; each visited key holds its own entry, and the other keys are unchanged |
| `URLSearchParamsAdapter.LookupKeys` | src/useURLSearchParams.ts:57 | `keys ?? searchParams.keys()`: a given key list is used as it is, even when empty, and only a missing one falls back to `keys()` |
| `URLSearchParamsAdapter.SearchParamsToValues` | src/useURLSearchParams.ts:55-61 | the key set is exactly the list's keys, or the container's keys when there is no list; zero, one or many values give undefined, the coerced value, or the coerced list in getAll order |
| `URLSearchParamsAdapter.SchemaKeys` | src/useURLSearchParams.ts:43-44 | the key list is present exactly when unknownKeys is 'strip', and it is then the shape's field names |
| `URLSearchParamsAdapter.UseURLSearchParams` | src/useURLSearchParams.ts:40-48 | under 'strip' the record has exactly the declared fields, and a declared field absent from the container holds undefined; under any other policy it has exactly the container's keys |
| `URLSearchParamsAdapter.SameKeysSameFold` | src/useURLSearchParams.ts:57-60 | two folds from `{}` over key lists holding the same keys build the same record |
| `URLSearchParamsAdapter.SameKeySetSameRecord` | src/useURLSearchParams.ts:57-59 | the record depends only on the set of keys visited, not on their order or on repeats |
| `URLSearchParamsAdapter.RepeatedKeyNoEffect` | src/useURLSearchParams.ts:57-59 | visiting a key one more time leaves the record unchanged |
| `URLSearchParamsAdapter.ContainerKeysAsList` | src/useURLSearchParams.ts:57 | enumerating `keys()` gives the same record as passing any list of the container's distinct keys |
| `URLSearchParamsAdapter.NoUndefinedWithoutKeyList` | src/useURLSearchParams.ts:57-59 | without a key list, no entry is undefined |
| `URLSearchParamsAdapter.EntriesAreCoercedValues` | src/useURLSearchParams.ts:58-59 | every entry has no list of fewer than two values and stands for exactly the coerced values of its key, in order |
| `DocExamples.ExampleRecord` | src/useURLSearchParams.ts:9-15 | for the three-field doc schema, the record holds exactly the three fields, each with its own entry |
| `DocExamples.WellTypedExample` | src/useURLSearchParams.ts:17-24 | `{string:'foo', number:'42', boolean:'false'}` becomes `{string:'foo', number:42, boolean:false}` |
| `DocExamples.MistypedExample` | src/useURLSearchParams.ts:26-37 | `{string:'42', number:'false', boolean:'foo'}` becomes `{string:42, number:false, boolean:'foo'}`, so each field arrives with the type that zod then rejects |

## Left out

- `z.instanceof(URLSearchParams)`, `.transform` and `.pipe(schema)` (src/useURLSearchParams.ts:45-47) are zod library calls whose code is not part of this model. So are the validation and the error messages of the doc example (lines 32-37). The model stops at the record handed to `schema`. The type-mismatch failure for a non-`URLSearchParams` input is not modelled.
- `JSON.parse` is a runtime built-in. It is a parameter of every operation, and its grammar is not modelled. JSON numbers are mathematical reals, not IEEE-754 doubles.
- How `URLSearchParams` splits and percent-decodes a query string (`+` handling and so on) is not part of this model. The model starts from the decoded pair list.
- The property order of the resulting JavaScript object is not modelled. The record is a `map`.
- JavaScript object semantics for special keys such as `__proto__` are not modelled.
- In JavaScript, a list of several values and a single value that parsed to a JSON array are both plain arrays. The model gives them separate constructors (`List` and `Single(JArray(..))`).
- `Object.keys(schema.shape)` is modelled as the shape's field-name sequence. The model does not reorder integer-like keys the way JavaScript does. Because the record depends only on the set of keys (`SameKeySetSameRecord`), that order does not affect the result.
