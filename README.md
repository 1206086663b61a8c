# Account service core: identifier check, lookup, delete and partial update

This project models the decision logic of a small Express service that
keeps bank-style account records in memory (`src/index.ts`). Each account
has an `id` of the shape `a` + three digits, an `ownerName`, a `balance`
and a `type` from the enumeration `ACCOUNT_TYPE` (BLACK, GOLD, PLATINUM).
The routes on one account are:

- `GET /accounts/:id`: check the id's shape, then return the first account
  with that id (`find`).
- `DELETE /accounts/:id`: check the id's shape, locate the first account
  with that id (`findIndex`) and remove it from the array in place
  (`splice`).
- `PUT /accounts/:id`: check the id's shape, locate the account, check the
  body's optional `id`, `ownerName`, `balance` and `type` in that order
  with JavaScript truthiness rules that differ per field, and only when
  every check passes write the accepted fields onto the stored record.

Modules, one file each:

- `JsValues` (`js_values.dfy`): the values a JSON body field can hold
  (absent, `null`, boolean, number, string, object) and JavaScript
  truthiness over them.
- `Identifiers` (`identifiers.dfy`): the regular expression `/^a\d{3}$/`
  as a predicate, with an independent description of the valid
  identifiers as the zero-padded codes of the numbers 0 to 999 and the
  round trip between the two.
- `Accounts` (`accounts.dfy`): the account record, the error kinds the
  routes report, the owner-name regular expression `/^.{2,}$/`, and the
  record invariants (well-formed fields, unique ids).
- `UpdateMerger` (`update_merger.dfy`): the per-field checks of the update
  route, their fixed order, and the merge of a validated body into a
  record.
- `RecordStore` (`record_store.dfy`): the outcome of each route as a
  function of the collection, the class `AccountStore` whose methods
  perform the routes on its `accounts` field (with a scanning loop for
  `find`/`findIndex`), and the lemmas relating the routes to each other
  and to the invariants.

Errors are a returned `Error` kind (`InvalidId`, `NotFound`,
`InvalidNewId`, `InvalidOwnerName`, `InvalidBalance`,
`InvalidAccountType`) instead of a thrown exception.

The model keeps these details of the code, which a reader of the route
messages alone might not expect:

- An owner name must have at least two characters and contain no line
  terminator (`\n`, `\r`, U+2028, U+2029), because `.` in `/^.{2,}$/` does
  not match those.
- Every falsy value other than `0` and `""` (absent, `null`, `false`) keeps
  the old id or owner name, not only an absent field.
- A `balance` of `null` passes validation and is written through
  (`isNaN(null)` is false), so a stored balance can become `null`.
- The code never reports an "unknown" error for the modelled logic, so the
  model has no such kind.

## Model

| member | source | states |
|---|---|---|
| `JsValues.FalsyValues` | src/index.ts:116-131 | the values `if (v)` skips are exactly absent, `null`, `false`, `0` and `""` |
| `Identifiers.ValidIdIffCode` | src/index.ts:26-32 | the id regex accepts a string exactly when it is `a` followed by the three-digit zero-padded code of some number 0..999 |
| `Identifiers.IdNumberRoundTrip` | src/index.ts:26 | every accepted identifier is the code of the number it spells |
| `Identifiers.IdOfIsValid` | src/index.ts:26 | the code of every number 0..999 is accepted, and decodes back to that number |
| `Identifiers.IdOfInjective` | src/index.ts:26 | distinct numbers 0..999 have distinct identifiers |
| `Identifiers.IdExamples` | src/index.ts:58-64 | `a001`, `a123`, `a999` are accepted; `a12`, `a1234`, `b001`, `A001`, the empty string and strings with leading or trailing characters are rejected |
| `Accounts.TypeName` | src/index.ts:158 | each `ACCOUNT_TYPE` member compares equal only to a non-empty string |
| `Accounts.TypeNameInjective` | src/index.ts:158 | the three members have pairwise distinct values |
| `UpdateMerger.CheckNewId` | src/index.ts:116-131 | a new id is accepted iff it is a string of identifier shape, or absent, `null` or `false`; `0`, `""`, other strings and non-strings are rejected with `InvalidNewId` |
| `UpdateMerger.CheckOwnerName` | src/index.ts:133-146 | a new owner name is accepted iff it is a string of at least two characters without line terminators, or absent, `null` or `false`; everything else fails with `InvalidOwnerName` |
| `UpdateMerger.CheckBalance` | src/index.ts:148-154 | a new balance is accepted iff it is absent, `null` or a number that is not negative (so `0` passes); anything else fails with `InvalidBalance` |
| `UpdateMerger.TypeOf` | src/index.ts:158 | a value denotes an account type iff it is strictly equal to one member's value, and then it is that member |
| `UpdateMerger.CheckType` | src/index.ts:156-161 | a new type is accepted iff it is falsy or strictly equal to one of the three members; otherwise `InvalidAccountType` |
| `UpdateMerger.Validate` | src/index.ts:116-161 | the patch passes iff all four field checks pass, and a failure is reported as the kind of the first failing field in the order id, ownerName, balance, type |
| `UpdateMerger.NewBalance` | src/index.ts:171 | an absent balance keeps the old one, `null` writes `null`, a number writes that (non-negative) number |
| `UpdateMerger.Merge` | src/index.ts:164-172 | each truthy supplied field replaces the old value (a valid id, a valid owner name, the member the type names); falsy ones keep the old value; the balance follows the `isNaN` rule; a well-formed record stays well formed |
| `UpdateMerger.MergeIdempotent` | src/index.ts:164-172 | applying the same accepted patch twice gives the same record as applying it once |
| `UpdateMerger.MergeEmptyPatch` | src/index.ts:164-172 | a body with none of the four fields is accepted and changes nothing |
| `UpdateMerger.ValidateAccepts` | src/index.ts:116-161 | the set of accepted patches, stated field by field without the nested branches of the source |
| `UpdateMerger.FalsyAsymmetry` | src/index.ts:116-154 | `0` and `""` are rejected as id and owner name, while `{balance: 0}` is accepted and sets the balance to exactly 0, and falsy values elsewhere change nothing |
| `UpdateMerger.NullBalanceWritten` | src/index.ts:148-171 | `{balance: null}` passes validation and stores `null` as the balance |
| `RecordStore.FirstIndex` | src/index.ts:66 | `findIndex`: no index iff no account has the id; otherwise an index holding the id with no earlier account holding it |
| `RecordStore.Lookup` | src/index.ts:23-39 | `InvalidId` iff the id is malformed, whatever the store holds; `NotFound` iff the id is well formed and absent; success iff it is well formed and present, and then the result is the first account with that id |
| `RecordStore.RemoveAtShape` | src/index.ts:74 | `splice(i, 1)` shrinks the array by one, keeps the others in relative order, and removes exactly the element at i |
| `RecordStore.DeleteOutcome` | src/index.ts:55-74 | `InvalidId` iff the id is malformed; `NotFound` iff it is well formed and no account has it; success iff it is well formed and present, and then the store is one shorter |
| `RecordStore.DeleteRemovesFirstMatch` | src/index.ts:66-74 | a successful delete removes exactly the first account with the id and keeps all others in order |
| `RecordStore.DeleteThenNotFound` | src/index.ts:66-74 | when the deleted id occurred only once (other ids may be duplicated), a lookup of it afterwards reports `NotFound` |
| `RecordStore.DeletePreservesInvariants` | src/index.ts:66-74 | deletion keeps ids unique and all remaining records well formed |
| `RecordStore.UpdateOutcome` | src/index.ts:90-172 | `InvalidId` iff the path id is malformed, before any lookup; `NotFound` iff it is well formed and no account has it; for a present id, success iff `Validate` passes, and otherwise the error is `Validate`'s; success keeps the store's length |
| `RecordStore.PresentIdSucceeds` | src/index.ts:99-161 | for a well-formed id some account carries, fetch and delete succeed, and update succeeds exactly when the patch validates, failing otherwise with the first failing field's error |
| `RecordStore.UpdateChangesOnlyTarget` | src/index.ts:164-172 | a successful update replaces only the first account with the path id, by the merged record, and leaves every other position unchanged |
| `RecordStore.UpdatePreservesWellFormed` | src/index.ts:164-172 | an update keeps every record well formed |
| `RecordStore.UpdateUniqueIfFresh` | src/index.ts:116-131 | ids stay unique after an update whenever the new id is not already another account's |
| `RecordStore.UpdateThenLookup` | src/index.ts:164-172 | under that condition, fetching the updated account by its resulting id returns exactly the merged record |
| `RecordStore.UpdateCanDuplicateId` | src/index.ts:116-131 | the new id is never checked against other accounts: a store with unique ids can be updated into one with a duplicate id |
| `RecordStore.UpdateExamples` | src/index.ts:90-172 | `{ownerName: "A"}` fails with `InvalidOwnerName`; `{balance: 0}` sets the balance to 0; a patch whose type is `"SILVER"` fails with `InvalidAccountType` although its other fields are valid; a full valid patch replaces all four fields |
| `RecordStore.AccountStore.constructor` | src/index.ts:3 | the store starts as the given seed collection |
| `RecordStore.AccountStore.List` | src/index.ts:19-21 | `GET /accounts` returns the current collection in store order |
| `RecordStore.AccountStore.IndexOf` | src/index.ts:66 | the scan returns -1 iff no account has the id, otherwise the first index holding it, and agrees with `FirstIndex` |
| `RecordStore.AccountStore.Get` | src/index.ts:23-41 | the route's result is `Lookup` of the current collection, and nothing changes |
| `RecordStore.AccountStore.Delete` | src/index.ts:55-76 | on success the collection becomes `DeleteOutcome`'s; on any error it is unchanged and the error is reported |
| `RecordStore.AccountStore.Update` | src/index.ts:90-174 | every check runs before any write: on an error the collection is unchanged; on success the collection and returned account are `UpdateOutcome`'s |

## Left out

- Express set-up, CORS, JSON body parsing, `app.listen` and the `/ping`
  route: transport and process start-up.
- HTTP status codes, the response texts and the `catch` blocks (which also
  send a second response after the first): a failure is returned as an
  `Error` kind. The new-id and owner-name branches that reject `0` and `""`
  and the account-type check (src/index.ts:158-159) throw without setting
  status 400 in the source; status codes are not modelled at all.
- The two messages for a rejected new id (wrong shape, not a string) share
  the kind `InvalidNewId`, and likewise for the owner name.
- `console.log` of the found index.
- The seed data of `./database` and the definition of `ACCOUNT_TYPE` in
  `./types` are not part of this model: the store starts from any
  sequence, and the enumeration is taken to be a string enum whose values
  `TypeName` gives. The concrete strings "Black", "Gold" and "Platinum"
  are an assumption: the general lemmas use only their distinctness and
  non-emptiness, while `RecordStore.UpdateExamples` also relies on
  `"SILVER"` being none of them.
- Object identity: an account is a value, so `PUT` replaces the record at
  its position instead of assigning the fields of a shared object; the
  response of `GET` is serialized at once, so no aliasing is observable.
- JavaScript's full dynamic typing and coercion: a body field is one of
  six kinds of value. Numbers are reals; floating-point rounding is not
  modelled, and NaN cannot occur because JSON cannot carry it.
- Strings are sequences of UTF-16 code units, one `char` each; characters
  outside the Basic Multilingual Plane (two code units in JavaScript) are
  not represented.
