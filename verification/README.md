# bouchon-toolbox core in Dafny

This project models the two groups of logic at the heart of bouchon-toolbox,
a toolbox for bouchon, a mock-API server built on Redux:

* **The restful reducer** (`src/reducers/restful.js`). Each HTTP verb is one
  transition over an ordered collection of entities:
  * `retrieve` (GET) re-sorts the collection by id.
  * `create` (POST) assigns the next id and adds an entity.
  * `updateOrCreate` (PUT) replaces the matched entity, nulling every field
    the body does not resend, or creates one when nothing matches.
  * `update` (PATCH) merges the body into the matched entity, or does nothing
    when nothing matches.
  * `delete_` (DELETE) removes every entity that matches.

  Entities are matched by a predicate. The default predicate compares the id
  fields as numbers.
* **The row selectors** (`src/selectors/*.js`). These are read-side combinators
  over the rows a selector yields:
  * `filterRow`, `filterRows`, `selectRow` and `selectRows` look rows up by key
    and value with `_.groupBy`. Each has its own policy for zero, one or
    several matches.
  * `extendRows` is a left join. It stores the last row of a second collection
    that pairs with each row of the first under a destination key.

Modules:

| file | module | what it holds |
|---|---|---|
| `results.dfy` | `Results` | `Option` and `Result`; a thrown `Error` is a `Failure` |
| `values.dfy` | `Values` | JavaScript values, `entity[key]`, truthiness, `Number(v) === Number(w)`, `String(v)` |
| `seqs.dfy` | `Seqs` | `Array.prototype.filter` and `.pop()` on the filtered copy, with their laws |
| `sort_by.dfy` | `SortBy` | `_.sortBy(collection, idKey)` as a stable insertion sort |
| `restful.dfy` | `Restful` | the five reducer transitions, and PUT with a create branch that sorts (see Findings) |
| `selectors.dfy` | `Selectors` | argument kinds of the selectors and `_.groupBy(rows, key)[value]` |
| `helpers.dfy` | `Helpers` | `selectRow` |
| `filter_rows.dfy` | `FilterRows` | `checkInput`, `filterRow`, `filterRows` |
| `select_rows.dfy` | `SelectRows` | `selectRows`, as written and corrected |
| `extend_rows.dfy` | `ExtendRows` | `extendRows` |

Modelling choices:

* An entity is a `map<string, Value>`. A field set to `null` is present with the
  value `Null`; an absent field reads as `Undefined`.
* Numbers are integers. `NaN` is its own value.
* `Number(v)` maps `null` and `""` to 0, booleans to 0 and 1, and decimal-digit
  strings to their value. Every other value is `NaN`.
* The `SchemaObject` the reducer builds entities with is a parameter
  `schema(fields, fillNull)`. It stands for `new SchemaObject(fields).toObject()`,
  and with `fillNull` for the same call given `{setUndefined: true}`.
* The predicate is a parameter, and `DefaultPredicate` models `defaultPredicate`.
* `_.sortBy` on the id key is a stable ascending sort, ordered as lodash's
  ascending comparison orders values of one kind. Numeric ids come first, in
  numeric order, with `false` and `true` among them as 0 and 1. String ids come
  next, character by character, with objects among them as "[object Object]".
  Then come `null` ids, then missing (`undefined`) ids, and `NaN` ids come last.
* `_.groupBy(rows, key)[value]` files every row under `String(row[key])` and
  looks up `String(value)`. So the number 1 and the string "1" find the same
  rows, and an undefined value finds the rows that lack the key.
* A selector is modelled by the rows it yields. Each combinator takes those rows
  as a parameter. The selector argument matters only to the guards, through
  `SelectorArg` (undefined, a function, or something else).
* `updateOrCreate`, `update` and `delete_` copy the state with `slice(0)`. They
  then delete from the copy in place with `_.remove`. That step is the method
  `Restful.RemoveMatching`, an in-place compaction of an `array`. The null-fill
  loop of PUT is the method `Restful.NullFill`. Both are proved against the
  functions `Restful.Remaining` and `Restful.PutCandidate`. `Restful.UpdateOrCreate`,
  `Restful.Update` and `Restful.Delete` are proved equal to the functions
  `Restful.Put`, `Restful.Patch` and `Restful.Remaining`, and the properties of
  the verbs are proved about those functions.
* `selectRow` appears three times in the source: `src/selectors/helpers.js:16-33`,
  `src/selectors/filterRows.js:83-105` and `src/selectors/selectRows.js:18-40`.
  The two deprecated copies add only a console notice, so `Helpers.SelectRow`
  models all three. `extendRows` appears twice, at `src/selectors/helpers.js:47-75`
  and `src/selectors/extendRows.js:17-45`, and `ExtendRows.ExtendRows` models both.

Where the code and its documentation disagree, the model follows the code:

* `create` on an empty state computes `_.max([]) + 1`, which is `undefined + 1`,
  that is `NaN`. The model assigns `NaN` whenever no entity has a numeric id
  (`Restful.NextId`). It does not start at 1. Ids that are not numbers are
  ignored there; see the `Restful.MaxId` line under "Left out".
* `selectRow` and `extendRows` call each selector argument with no arguments
  when they build their selector (`src/selectors/helpers.js:24`,
  `src/selectors/helpers.js:63-64`, `src/selectors/extendRows.js:33-34`), and
  use the selector that call returns. `filterRow`, `filterRows` and
  `selectRows` use the argument itself as the input selector. In every
  combinator the model's rows parameter stands for what the input selector
  finally yields.
* `selectRow` with an undefined argument returns a selector that yields the
  string "Bad arguments for `selectRow`", not `undefined`.
* `extendRows` with invalid arguments returns a selector that yields the string
  "Bad arguments for `extendRows`". It does not throw.
* `selectRows` does not refuse an undefined `value` (see Findings).

## Model

| member | source | states |
|---|---|---|
| Values.NumericEqualsIsPartialEquivalence | src/reducers/restful.js:12 | `Number(a) === Number(b)` is symmetric and transitive, and holds for `a` with itself exactly when `a` is not `NaN`; `undefined` and `NaN` equal nothing |
| Values.DecimalStringEqualsNumber | src/reducers/restful.js:12 | a decimal string and the number it spells are numerically equal |
| Values.DecimalRoundTrip | src/selectors/filterRows.js:36 | reading back the digits `String(n)` writes gives `n` |
| Values.NumberStringRoundTrip | src/selectors/filterRows.js:36 | `Number(String(n))` is `n`, and `n` and its decimal string are filed under the same property name |
| Seqs.LastOfFilter | src/reducers/restful.js:89-91 | `filter(...).pop()` is `undefined` exactly when no element passes; otherwise it is an element that passes with no passing element after it |
| Seqs.FilterPartition | src/reducers/restful.js:122-123 | what a filter keeps and what the opposite filter keeps together make up the whole collection |
| Seqs.FilterIdempotent | src/reducers/restful.js:188-189 | filtering twice with the same test is filtering once |
| SortBy.SortById | src/reducers/restful.js:28 | the result is sorted by id rank and is a permutation of the input |
| SortBy.Insert | src/reducers/restful.js:28 | inserting into a sorted collection keeps it sorted and adds exactly the one entity |
| SortBy.SortByIsStable | src/reducers/restful.js:28 | entities whose ids rank equal keep their original relative order |
| SortBy.SortedIsFixpoint | src/reducers/restful.js:28 | sorting a sorted collection changes nothing |
| SortBy.SortByIdempotent | src/reducers/restful.js:19-28 | sorting twice is sorting once, so repeating a GET gives the same result |
| SortBy.RankLeIsTotalOrder | src/reducers/restful.js:28 | the id order is reflexive, total, antisymmetric on ranks and transitive |
| SortBy.SortTwo | src/reducers/restful.js:28 | two entities stay in order unless the first has the strictly larger id |
| SortBy.SortedUnique | src/reducers/restful.js:28 | two sorted collections that list the entities of every id rank in the same order are equal, so a stable sort has exactly one result |
| SortBy.SortKeepsIdsDistinct | src/reducers/restful.js:56-59 | sorting a collection whose numeric ids are pairwise distinct keeps them pairwise distinct |
| Restful.DefaultPredicate | src/reducers/restful.js:11-13 | the default predicate holds exactly when the params' id and the entity's id are numerically equal, so never when either lacks the id |
| Restful.DefaultPredicateIsNumeric | src/reducers/restful.js:11-13 | an entity without the id never matches; a `null` id matches the id 0; the string "12" matches the number 12 |
| Restful.LastMatch | src/reducers/restful.js:89-91 | no match exactly when no entity satisfies the predicate; otherwise an entity satisfying it with none after it |
| Restful.Retrieve | src/reducers/restful.js:28 | GET returns a permutation of the state, sorted by id, with equal-rank entities in their original order |
| Restful.RetrieveTwo | src/reducers/restful.js:28 | GET on two entities swaps them exactly when the first has the strictly larger id |
| Restful.RetrieveScenario | src/reducers/restful.js:28 | GET puts `{id: "a"}` before `{id: null}`, and `{id: 7}` before `{id: null}`, even when the `null` id was stored first |
| Restful.MaxId | src/reducers/restful.js:49 | absent exactly when no entity has a numeric id; otherwise it is one of the numeric ids and no numeric id exceeds it |
| Restful.NextId | src/reducers/restful.js:49 | `NaN` exactly when no entity has a numeric id; otherwise one more than an existing id and larger than every numeric id |
| Restful.Create | src/reducers/restful.js:44-60 | fails with the id-in-body error exactly when `body[idKey]` is truthy; otherwise the result is sorted and holds the old entities plus exactly the one created entity |
| Restful.CreateKeepsIdsDistinct | src/reducers/restful.js:44-60 | when the schema keeps the assigned id, POST on a state with pairwise distinct numeric ids leaves them pairwise distinct |
| Restful.CreateAppendsLargest | src/reducers/restful.js:56-59 | when the new entity already sorts last, POST appends it to the state |
| Restful.CreateScenario | src/reducers/restful.js:44-60 | POST `{title: "c"}` on entities with ids 1 and 2 yields those two followed by the entity with id 3 |
| Restful.PutCandidateFields | src/reducers/restful.js:107-118 | the entity PUT builds has the fields of the old entity and the body; body fields win, other fields are null except the id, which keeps its value |
| Restful.PutCandidateIdempotent | src/reducers/restful.js:107-118 | applying the same PUT body twice gives the same entity as applying it once |
| Restful.PlainCandidateStillMatches | src/reducers/restful.js:107-118 | when the body names no id or one numerically equal to the params id, the entity PUT builds from a match still matches under the default predicate, and resending the body to it changes nothing |
| Restful.NullFill | src/reducers/restful.js:107-118 | the spread followed by the field-by-field loop builds exactly that entity |
| Restful.Put | src/reducers/restful.js:81-129 | PUT fails with the missing-id error exactly when `params[idKey]` is falsy |
| Restful.PutWithoutMatchAppends | src/reducers/restful.js:94-104 | PUT on an id nothing matches returns the old state, unsorted, followed by one entity built from the body with the id from the params |
| Restful.PutWithMatchReplaces | src/reducers/restful.js:106-128 | PUT on a matched id succeeds; the result is sorted and holds the non-matching entities plus exactly one entity built from the last match |
| Restful.PutIsIdempotentOnMatch | src/reducers/restful.js:66-67 | PUT on a matched id sent twice leaves the state the first one produced, when the schema's entity still matches and the schema gives it back on a resend |
| Restful.PutIsIdempotentOnMatchForPlainSchema | src/reducers/restful.js:106-128 | with a schema that keeps fields and the default predicate, PUT on a matched id is idempotent whenever the body names no id or one numerically equal to the params id, as a body repeating the id does |
| Restful.PutCreateIsNotIdempotent | src/reducers/restful.js:94-104 | on `[{id: 5}]`, PUT of `{title: "x"}` at id 3 gives `[{id: 5}, {id: 3, title: "x"}]`, and the same PUT again gives `[{id: 3, title: "x"}, {id: 5}]` |
| Restful.PutSorted | src/reducers/restful.js:81-129 | the corrected PUT fails with the missing-id error exactly when `params[idKey]` is falsy, otherwise always leaves the collection sorted, and agrees with PUT whenever an entity matches |
| Restful.PutSortedIsIdempotent | src/reducers/restful.js:66-67 | the corrected PUT sent twice leaves the state the first one produced, on both branches, when the entity the schema builds in null-fill mode still matches and the schema gives it back on a resend |
| Restful.PutSortedIsIdempotentForFillingSchema | src/reducers/restful.js:81-129 | with a schema that sets its missing fields to `null` and the default predicate, the corrected PUT is idempotent whenever the params hold a numeric id and the body names no id or that same id |
| Restful.FilledCandidate | src/reducers/restful.js:107-121 | a PUT candidate filled by such a schema keeps its id, is its own fill, and is unchanged when the same body is resent to it |
| Restful.PutSortedIsIdempotentForPlainSchema | src/reducers/restful.js:81-129 | with a schema that keeps fields and the default predicate, the corrected PUT is idempotent whenever the params hold a numeric id and the body names no id or that same id |
| Restful.WrittenIsOnlyMatch | src/reducers/restful.js:122-128 | after PUT or PATCH replaced the matches with an entity that still matches, that entity is the only match and the last one |
| Restful.RewriteIsFixpoint | src/reducers/restful.js:122-128 | removing the matches again and re-inserting the same matching entity gives back the same sorted state |
| Restful.RemainingIsComplement | src/reducers/restful.js:122-123 | `_.remove` leaves exactly the entities the predicate rejects; with the removed ones they make up the old state |
| Restful.RemoveMatching | src/reducers/restful.js:122-123 | compacting the copied array in place leaves exactly the non-matching entities, in order, at its front |
| Restful.Copy | src/reducers/restful.js:122 | `slice(0)` is a fresh array with the state's contents |
| Restful.UpdateOrCreate | src/reducers/restful.js:81-129 | the imperative PUT computes exactly `Put` |
| Restful.Patch | src/reducers/restful.js:139-170 | PATCH fails with the missing-id error exactly when `params[idKey]` is falsy |
| Restful.PatchWithoutMatchIsNoop | src/reducers/restful.js:151-153 | PATCH on an id nothing matches returns the state unchanged |
| Restful.PatchWithMatchMerges | src/reducers/restful.js:155-169 | PATCH on a matched id succeeds; the result is sorted and holds the non-matching entities plus exactly one entity built from the last match merged with the body |
| Restful.PatchIsIdempotent | src/reducers/restful.js:135-137 | PATCH sent twice leaves the state the first one produced, when the schema gives its entity back on a second merge of the body whenever that entity still matches; an entity that no longer matches leaves the second PATCH nothing to change |
| Restful.WrittenMismatchLeavesNoMatch | src/reducers/restful.js:161-169 | after PATCH replaced the matches with an entity that does not match, no entity of the new state matches the request |
| Restful.PatchIsIdempotentForPlainSchema | src/reducers/restful.js:139-170 | with a schema that keeps fields, PATCH is idempotent for every body and every predicate |
| Restful.PutNullsWherePatchKeeps | src/reducers/restful.js:107-118 | on `[{num: 4, title: "t4", body: "b4"}]` at `{num: 4}` with body `{title: "t4 updated"}`, PUT gives `[{num: 4, title: "t4 updated", body: null}]` while PATCH gives `[{num: 4, title: "t4 updated", body: "b4"}]` |
| Restful.Update | src/reducers/restful.js:139-170 | the imperative PATCH computes exactly `Patch` |
| Restful.Delete | src/reducers/restful.js:184-191 | DELETE never fails and returns exactly the entities the predicate rejects, in their order |
| Restful.DeleteIsIdempotent | src/reducers/restful.js:184-191 | deleting twice is deleting once |
| Restful.DeleteOfAbsentIsNoop | src/reducers/restful.js:184-191 | deleting an id nothing matches returns the state unchanged |
| Restful.DeleteKeepsOrder | src/reducers/restful.js:184-191 | deleting from a sorted state leaves it sorted |
| Restful.DeleteScenario | src/reducers/restful.js:184-191 | deleting id 2 from entities with ids 1, 2 and 3 leaves ids 1 and 3 |
| Selectors.Matches | src/selectors/filterRows.js:68 | the rows filed under the value are rows of the input whose key has the value's string form, and every such row is among them |
| Selectors.Group | src/selectors/filterRows.js:36 | the group is absent exactly when no row is filed under the value; otherwise it is the non-empty list of matches |
| Selectors.GroupComparesStringForms | src/selectors/filterRows.js:36 | a row whose key holds any number, negative ones included, is found under that number's string form, and a row without the key is found under `undefined` |
| Helpers.SelectRow | src/selectors/helpers.js:16-33 | an undefined argument gives the bad-arguments text; a selector that is not a function fails when called; otherwise no match gives `undefined`, one gives the row, several give them all in order |
| FilterRows.CheckInput | src/selectors/filterRows.js:7-19 | passes exactly when the selector is a function, the key a string and the value defined; otherwise the first failing guard's error |
| FilterRows.FilterRow | src/selectors/filterRows.js:30-52 | argument errors first; then no match gives the empty record, one gives the row, and it fails with the more-than-one-row error exactly when several match |
| FilterRows.FilterRows | src/selectors/filterRows.js:63-70 | argument errors first; then exactly the matching rows in order, `[]` when none |
| FilterRows.FilterRowIsSingletonOfFilterRows | src/selectors/filterRows.js:30-70 | when `filterRows` yields at most one row, `filterRow` succeeds with that row |
| SelectRows.SelectRows | src/selectors/selectRows.js:52-77 | fails when the selector is not a function or the key not a string; no match gives `undefined`; one match gives the row, or a one-row array when `outputType` is `Array`; several give them all in order |
| SelectRows.SelectRowsAcceptsUndefinedValue | src/selectors/selectRows.js:57-63 | with an undefined value the lookup still succeeds, and yields the rows that lack the key |
| SelectRows.SelectRowsChecked | src/selectors/selectRows.js:52-77 | fails exactly when the selector is not a function, the key not a string or the value undefined; with a defined value it agrees with `SelectRows` |
| ExtendRows.Partner | src/selectors/extendRows.js:38-40 | the value stored under `destKey` is `undefined` exactly when no row of the second collection pairs; otherwise a pairing row with no pairing row after it |
| ExtendRows.ExtendRows | src/selectors/extendRows.js:17-45 | the bad-arguments text exactly when an argument is invalid; otherwise one output row per input row, in order, each with its original fields plus `destKey` holding the partner |
| ExtendRows.DefaultJoin | src/selectors/extendRows.js:26-30 | the default join holds exactly when `Number(row1[key1])` and `Number(row2[key2])` are equal numbers, so never when either row lacks its key |
| ExtendRows.DefaultPairingIsNumericEquality | src/selectors/extendRows.js:26-30 | without a predicate a row has a partner exactly when some row is numerically equal on the keys; a row without `key1` has none |

## Left out

* The `restful` dispatch table (`src/reducers/restful.js:206-225`) is not modelled. It only binds each verb to its transition. It takes `predicate, idKey` in the opposite order from the transitions.
* `SchemaObject` comes from the node-schema-object library and is an opaque parameter. Its type coercions are not modelled. For example, the library drops a `NaN` id.
* The memoisation of reselect's `createSelector` is not modelled. Each selector is a plain function of its input rows. An argument error at construction time and one at evaluation time are both a `Failure` of the same function.
* The `console.info` deprecation notices in the deprecated `selectRow` copies are not modelled.
* Non-integer numbers, infinities and negative zero are not modelled.
* Values.ToNumber: parses only plain decimal digit strings. Signs, whitespace, fractions, exponents and hexadecimal all give `NaN`, although JavaScript parses them.
* Restful.MaxId: considers numeric ids only. `_.max` also compares strings and other values with JavaScript's relational operators.
* SortBy.SortById: reads `idKey` as a plain field name. lodash reads a key holding `.` or `[` as a path (`"a.b"` sorts by `entity.a.b`); path reading is not modelled.
* SortBy.SortById: orders ids of one kind as lodash does, and ranks every number (and boolean) before every string (and object). lodash compares a string or a boolean with a number by JavaScript's `<`, so `{id: "3"}` sorts before `{id: 5}` there; across kinds that comparison is not a total order, and the model does not follow it. Two `NaN` ids are tied here, while lodash's comparator is inconsistent between them. Strings are compared by code point rather than by UTF-16 code unit. Symbols are not modelled.
* Restful.Retrieve: sorts with `SortBy.SortById` and inherits its order, including the mixed-kind comparisons above that it does not follow.
* Restful.NextId: integers are unbounded. In JavaScript an id of 2^53 or more gives `m + 1 === m`, so `create` would reissue an existing id, which the model's "larger than every numeric id" excludes.
* Values.PropertyKey: writes every integer in plain decimal digits. JavaScript's `String(n)` switches to exponent form from 1e21 on, so `_.groupBy` files such ids under a different name than `Values.NatToDecimal` gives.
* Helpers.SelectRow: the call `selector()` that builds the input selector is not modelled; the rows parameter stands for what the returned selector yields. A selector argument that needs the state, such as `state => state.articles`, fails in that call.
* ExtendRows.ExtendRows: the calls `selector1()` and `selector2()` that build the input selectors are not modelled; the rows parameters stand for what the returned selectors yield. The tests pass `state => state.articles` and `state => state.authors` (`src/selectors/extendRowsSpec.js:41-45`, `src/selectors/selectorsSpec.js:159-165`), which would fail in those calls with a `TypeError`.
* Entities are maps, so the order of their fields (`Object.keys`) is not modelled.
* Selectors.Matches: reads `key` as a plain field name. `_.groupBy` reads a key holding `.` or `[` as a path (`"author.id"` groups by `row.author.id`); path reading is not modelled.
* Selectors.Group: does not model `_.groupBy` finding inherited object properties (a value such as "constructor").
* Helpers.SelectRow: takes a string key or an undefined one. A key of another type, which `_.groupBy` would use as an iteratee, is not modelled.
* The selectors' tests expect `undefined` from `selectRow` with bad arguments (`src/selectors/helpersSpec.js:82-86`). They also expect `extendRows` to throw on bad arguments (`src/selectors/extendRowsSpec.js:118-122`). The code returns the bad-arguments text in both cases, and the model follows the code.
* Calling a selector that is not a function in `selectRow` throws a `TypeError`. This is `SelectorNotCallable`; its message is not modelled.

## Findings

| source | as written | input that shows it | evidently intended | confidence | as-written member | corrected member |
|---|---|---|---|---|---|---|
| src/reducers/restful.js:94-104 | PUT on an id nothing matches appends the new entity without sorting, while the replace branch sorts, so the same PUT sent twice can give two different states | state `[{id: 5}]`, params `{id: 3}`, body `{title: "x"}`, a schema that keeps fields, the default predicate | PUT is idempotent, as the comment at `src/reducers/restful.js:66-67` says: the create branch sorts like the replace branch, and builds its entity in the same null-fill mode (`{setUndefined: true}`), which the create branch at line 95 does not pass | medium, not executed | Restful.PutCreateIsNotIdempotent | Restful.PutSortedIsIdempotent |
| src/selectors/selectRows.js:61-63 | the third guard tests `_.isUndefined(key)`, which the guard before it has already ruled out, so it never fires | a function selector, a string key, and an undefined `value` | refuse an undefined `value` with "`value` should be defined.", as the message says and as `checkInput` in `src/selectors/filterRows.js:16-18` does | high, not executed | SelectRows.SelectRowsAcceptsUndefinedValue | SelectRows.SelectRowsChecked |
