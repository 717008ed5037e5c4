# react-native-firebaseQL in Dafny

A model of the data-access layer of react-native-firebaseQL together with
proofs about it. The layer has three parts:

- `StoreModel` wraps one Firestore collection. Every operation resolves to a
  `QueryReturn` envelope `{status, message, data?}`.
- `UserModel` puts account operations on top of the store, using an identity
  provider.
- A few string helpers.

The modules are:

- `Datatypes` (`datatypes.dfy`) holds the shared shapes: field values,
  documents (`Record`, a map from field name to value), where-clauses, the
  `'and' | 'or' | 'andOr'` combinator and the envelope.
- `Filters` (`filters.dfy`) holds the filter tree that `findWhere` and
  `findWhereOrAnd` build from a flat clause batch. It includes the loops that
  partition the batch and an evaluator that says what the tree matches.
- `Store` (`store.dfy`) holds the class `StoreModel`. Its `docs` field is the
  collection, a map from document id to fields. Methods change it in place:
  `save`, `update`, `delete` and `incrementDecrement`.
  - `save` and `update` also strip `reference` from the caller's object. That
    object is the class `DocObject`.
  - Each operation takes a `fault` argument. It says whether the Firestore
    library throws during the call. The operation catches that throw.
  - `findAll(ids)` takes the set of positions whose single-document read
    throws.
- `Users` (`users.dfy`) holds the class `UserModel`. The source's
  `extends StoreModel` becomes a `StoreModel` held in the `users` field. What
  each provider call resolved with is an argument (`AuthResult`).
- `Helpers` (`helpers.dfy`) holds `camelToTitleCase`, `convertUnicode`,
  `generateRandomString` and the integer path of `moneyFormatter`.

Each operation follows the code as written, including these behaviours:

- Both `findWhere` and `findWhereOrAnd` fetch the bare collection. The filter
  they build is thrown away (see Findings).
- `findAll(ids)` collects whole `find` envelopes, not bare records.
- `delete` reports `success` from its catch block too.
- An omitted `isIncrement` decrements.
- With type `'or'`, `findWhereOrAnd` uses only the clauses tagged `'or'`.
  With type `'and'`, it uses only the clauses tagged `'and'`. Clauses with
  the other tag are dropped: they are not composed with the rest.
- `deleteAccount` can only fail through the provider, because the store's
  `delete` never rejects. A failed document deletion still gives "Account
  deleted successfully".
- With type `'or'` or `'and'`, `findWhereOrAnd` assigns a bare `Filter` to
  `queryRef`. A later `orderBy`, `startAfter` or `limit` on it throws, which
  gives the error envelope (`FilterUsedAsQuery`).

## Model

| member | source | states |
|---|---|---|
| `Filters.Partition` | src/StoreModel.ts:84-89 | The `forEach` loop puts each clause tagged 'and' in `andWhere` and every other clause in `orWhere`. Both keep input order (`TaggedLeaves`). |
| `Filters.TaggedLeavesAppend` | src/StoreModel.ts:84-89 | Partitioning a concatenated batch concatenates the partitions. Where a clause lands depends only on its own tag, not on its position. |
| `Filters.PartitionSizes` | src/StoreModel.ts:84-89 | Every clause lands on exactly one side. |
| `Filters.TaggedLeavesMembers` | src/StoreModel.ts:84-89 | A leaf is on side `t` exactly when some clause tagged `t` produced it. |
| `Filters.AllTaggedMeaning` | src/StoreModel.ts:93 | The conjunction of one side holds if and only if every clause with that tag holds. |
| `Filters.AnyTaggedMeaning` | src/StoreModel.ts:94 | The disjunction of one side holds if and only if some clause with that tag holds. |
| `Filters.BuildWhereOrAnd` | src/StoreModel.ts:91-101 | The filter `findWhereOrAnd` builds: its root is a disjunction only for 'or'. Under 'andOr' it is a conjunction of the 'and' leaves followed by one disjunction. |
| `Filters.BuildWhereOrAndMeaning` | src/StoreModel.ts:91-101 | 'andOr' matches when every 'and' clause holds and some 'or' clause holds. 'or' matches when some 'or'-tagged clause holds. 'and' matches when every 'and'-tagged clause holds. |
| `Filters.AndOrExample` | src/StoreModel.ts:84-96 | Under 'andOr', the batch `a=1 (and), b=2 (or), c=3 (or)` matches exactly the documents with `a=1 AND (b=2 OR c=3)`. |
| `Filters.Conjuncts` | src/StoreModel.ts:137-141 | The `forEach` loop of `findWhere` turns every clause into one leaf, in order (`Leaves`). |
| `Filters.BuildWhere` | src/StoreModel.ts:146 | The filter `findWhere` builds: a conjunction with one leaf per clause, the i-th leaf being the i-th clause. |
| `Filters.BuildWhereMeaning` | src/StoreModel.ts:146 | The conjunction `findWhere` builds holds if and only if every clause holds. |
| `Store.WithReference` | src/StoreModel.ts:27 | A read-back record has the stored fields plus `reference`, which is set to the document id. No other field changes. |
| `Store.StoreModel.constructor` | src/StoreModel.ts:12-15 | The store is bound to the named collection holding the given documents. |
| `Store.StoreModel.Find` | src/StoreModel.ts:22-37 | A stored id gives `success`, "Document found" and the fields with `reference`. A missing id gives `success`, "Document does not exist" and no data. Only a fault gives `error`. |
| `Store.StoreModel.FindAll` | src/StoreModel.ts:46-72 | With ids, the loop returns `Kept`: the `find` envelope of each id whose read succeeded and which exists, in input order. Without ids, a non-empty collection gives a listing and an empty one gives "Documents empty" with no data. A fault gives `error`. |
| `Store.StoreModel.FetchAll` | src/StoreModel.ts:58-63 | The whole-collection fetch is a listing (`IsListing`). It is empty exactly when the collection is. |
| `Store.ListingFacts` | src/StoreModel.ts:58-63 | A listing holds each document exactly once, each with its own id as `reference`. |
| `Store.EnumerationExists` | src/StoreModel.ts:58 | Every collection can be listed: some sequence holds each id exactly once. |
| `Store.Kept` | src/StoreModel.ts:48-56 | What the `findAll(ids)` loop collects: no more envelopes than ids, each a `success` envelope with a document. |
| `Store.KeptMembers` | src/StoreModel.ts:48-56 | `findAll(ids)` keeps an envelope if and only if it is the `find` envelope of an id that was read without a fault and exists. Each kept item is a whole "Document found" envelope. There are no more of them than ids. |
| `Store.KeptInOrder` | src/StoreModel.ts:48-56 | When every read succeeds and every id exists, `findAll(ids)` keeps one envelope per id, in input order. |
| `Store.KeptAppend` | src/StoreModel.ts:48-56 | What `findAll` keeps over `a + b` is what it keeps over `a`, followed by what it keeps over `b` with `b`'s own reads. So each successful read of an existing document adds its envelope, in input order, whatever the other reads do. |
| `Store.KeptFaultsLocal` | src/StoreModel.ts:48-56 | Only the reads `findAll(ids)` makes matter: faults at positions past the end of `ids` change nothing. |
| `Store.KeptSingle` | src/StoreModel.ts:50-54 | One read keeps its `find` envelope when it succeeds and the document exists, and nothing otherwise. |
| `Store.StoreModel.FindWhereOrAnd` | src/StoreModel.ts:74-130 | The result is `error` exactly on a fault or when a bare filter is used as a query. Otherwise the data is the whole collection as a listing, whatever the clauses say. An empty collection gives "No Documents found". |
| `Store.StoreModel.FindWhere` | src/StoreModel.ts:132-173 | The result is `error` exactly on a fault. Otherwise the data is the whole collection as a listing, whatever the clauses say. An empty collection gives "No Documents found". |
| `Store.FilterDiscarded` | src/StoreModel.ts:162 | Take the collection `{d1: {a: 2}}` and the clause `a == 1`. Every listing the two finders can return holds a record that the built filter rejects. |
| `Store.StoreModel.FetchMatching` | src/StoreModel.ts:119 | A fetch of a built query returns, with references, exactly the documents the filter matches, each once. It is empty exactly when none match. |
| `Store.StoreModel.FindWhereFiltered` | src/StoreModel.ts:132-173 | This is `findWhere` fetching its conjunction. It returns exactly the documents that satisfy every clause, each once, and "No Documents found" when none does. |
| `Store.StoreModel.FindWhereOrAndFiltered` | src/StoreModel.ts:74-130 | This is `findWhereOrAnd` fetching `this._table.where(<built filter>)` for every combinator. It returns exactly the documents that filter matches, each once, and "No Documents found" when none does. Only a fault gives `error`. |
| `Store.StoreModel.Save` | src/StoreModel.ts:175-190 | `reference` is stripped from the caller's object on every path. Without an id, the object is stored under a fresh id, which is returned. With an id, the document at that id is replaced. A fault changes nothing in the collection. |
| `Store.FreshIdExists` | src/StoreModel.ts:179 | An id not yet in the collection always exists for `add`. |
| `Store.ReferenceRoundTrip` | src/StoreModel.ts:176 | What `save` writes carries no `reference`. Stripping the `reference` that a read attaches gives back what was written. |
| `Store.SaveThenFind` | src/StoreModel.ts:175-180 | After `save` without an id, `find` of the returned id gives the written fields with `reference` set to that id. |
| `Store.StoreModel.Delete` | src/StoreModel.ts:192-199 | The status is `success` on both paths. Without a fault the id is absent afterwards. With a fault the collection is unchanged and the message is "Unable to delete document". |
| `Store.DeleteTwice` | src/StoreModel.ts:192-199 | Deleting twice gives `success` both times and leaves the id absent. |
| `Store.StoreModel.Update` | src/StoreModel.ts:201-209 | `reference` is stripped from the caller's object. The given fields are merged into an existing document, and other fields and documents stay the same. A missing document or a fault gives "Unable to update document" and changes nothing. |
| `Store.StoreModel.IncrementDecrement` | src/StoreModel.ts:305-314 | Only field `key` of document `dbReference` changes, by `Delta`. A missing document or a fault gives "unable to count data" and changes nothing. |
| `Store.Delta` | src/StoreModel.ts:308 | The signed step: `incrementalValue ?? 1` when `isIncrement` is `true`, its negation otherwise, so an omitted step is 1 or -1. |
| `Store.Bump` | src/StoreModel.ts:309 | A numeric field grows by the delta. A missing or non-numeric field becomes the delta. No other field changes. |
| `Store.IncrementThenDecrement` | src/StoreModel.ts:308 | An increment followed by a decrement of the same step restores a numeric field. |
| `Store.OmittedIsIncrementDecrements` | src/StoreModel.ts:308 | Omitting `isIncrement` is the same as `false`: the field drops by `incrementalValue ?? 1`. |
| `Store.BumpsCommute` | src/StoreModel.ts:309 | Two increments commute, and the final value reflects each one exactly once. |
| `Store.StoreModel.SaveBatch` | src/StoreModel.ts:293-295 | Always fails with "Method not implemented." |
| `Store.StoreModel.UpdateBatch` | src/StoreModel.ts:297-299 | Always fails with "Method not implemented." |
| `Store.StoreModel.DeleteBatch` | src/StoreModel.ts:301-303 | Always fails with "Method not implemented." |
| `Users.UserModel.constructor` | src/UserModel.ts:13-16 | Without a table name the store is bound to "Users". Otherwise it is bound to the given name. |
| `Users.UserModel.RegistrationFailure` | src/UserModel.ts:44-62 | Each rejected registration maps to an `error` envelope with no data. |
| `Users.RegistrationMessagesDistinct` | src/UserModel.ts:45-62 | For any email, the in-use, invalid-email and generic messages differ from each other. |
| `Users.UserModel.RegisterWithEmailAndPassword` | src/UserModel.ts:24-64 | Success gives "User registered successfully" with the user. `userData`, when given, is saved under the uid, and the result of that save never reaches the envelope. A rejection gives the mapped error and writes nothing. |
| `Users.UserModel.Login` | src/UserModel.ts:71-105 | The result is `success` if and only if sign-in succeeded and verification is not demanded for an unverified user. Otherwise it is "Email address needs verification" or "Invalid login credentials". |
| `Users.LoginWithoutVerification` | src/UserModel.ts:74 | An omitted `verifyEmail` acts as `false`, so any successful sign-in logs in. |
| `Users.UserModel.Logout` | src/UserModel.ts:107-117 | The result is `success` "User signout!" unless signing out fails, which gives `error` "Unable to complete process". |
| `Users.UserModel.DeleteAccount` | src/UserModel.ts:119-129 | Both deletions are attempted. The user's document is gone unless the store faults. The envelope is `error` exactly when the provider deletion fails. |
| `Helpers.Titled` | src/helpers.ts:37-57 | The title-cased key: at least as long as the key, starting with its first code unit upper-cased. |
| `Helpers.CamelToTitleCase` | src/helpers.ts:37-57 | The loop over UTF-16 code units builds `Titled(key)`: the first code unit upper-cased, then every later code unit, each preceded by a space exactly when it equals its own upper case. Each half of a surrogate pair equals its own upper case, so it gets a space. |
| `Helpers.SpacedLength` | src/helpers.ts:44-55 | The output has one extra code unit per upper-form code unit after the first. |
| `Helpers.UnspacedSpaced` | src/helpers.ts:44-55 | Removing the inserted spaces gives back the code units after the first. |
| `Helpers.TitledSurrogatePair` | src/helpers.ts:44-55 | A character outside the BMP is two code units, and the loop puts a space before each: `"a😀"` becomes `"A \uD83D \uDE00"`. |
| `Helpers.TitledRoundTrip` | src/helpers.ts:37-57 | The result starts with `key[0]` upper-cased. Its length is the key length plus the number of spaced code units. Without the spaces it is the capitalised key. |
| `Helpers.GenerateRandomString` | src/helpers.ts:8-19 | A length above 60 throws, with the message naming the length in decimal digits. Otherwise the result has `max(length, 0)` characters, each taken from the 62-character alphabet at the drawn index. |
| `Helpers.ConvertPlainPrefix` | src/helpers.ts:73-76 | Text without a backslash passes through the replace unchanged. |
| `Helpers.ConvertPlain` | src/helpers.ts:73-76 | A string without a backslash is returned unchanged. |
| `Helpers.ConvertUnicode` | src/helpers.ts:73-76 | The global replace, scanning from the left, over UTF-16 code units. It never lengthens its input and leaves a non-empty input non-empty. |
| `Helpers.ConvertNonEscape` | src/helpers.ts:74 | A maximal run of backslashes not followed by `u` and four hex digits is copied as is. |
| `Helpers.ConvertEscape` | src/helpers.ts:73-76 | One or more backslashes, `u` and four hex digits become the single code unit they spell. |
| `Helpers.ConvertEscaped` | src/helpers.ts:73-76 | Unescaping undoes `\uXXXX` escaping of any sequence of code units. |
| `Helpers.Hex4` | src/helpers.ts:75 | Every code unit has a four-digit hex spelling that `parseInt(b, 16)` reads back as that unit. |
| `Helpers.DecimalRoundTrip` | src/helpers.ts:92 | The decimal string of an integer reads back as that integer. |
| `Helpers.GroupedDigits` | src/helpers.ts:92 | The grouping replace only inserts commas. |
| `Helpers.GroupedShape` | src/helpers.ts:92 | The commas sit between groups of three digits counted from the right, and the leading group has one to three digits. |
| `Helpers.MoneyNegative` | src/helpers.ts:90-92 | A negative amount is `-` followed by its grouped digits. |
| `Helpers.MoneyNonNegative` | src/helpers.ts:90-92 | A non-negative amount is its grouped digits. |
| `Helpers.MoneyFormatter` | src/helpers.ts:84-92 | The result is "" exactly when `x` is undefined, and a negative amount starts with `-`. |
| `Helpers.MoneyFormatterMeaning` | src/helpers.ts:84-92 | Undefined gives "". Otherwise removing the commas gives the integer's decimal string with its sign, which reads back as the integer, and the digits after the sign are grouped in threes from the right. |

## Left out

- `stream` and `streamWhere` (src/StoreModel.ts:211-269) are long-lived
  `onSnapshot` subscriptions that swallow errors. They are event-driven I/O.
- `countData` (src/StoreModel.ts:271-291): its count comes from the
  library's `countFromServer`, which is not modelled.
- `orderBy`, `startAfter` and `limit` are not modelled, except that calling
  them on a bare `Filter` throws (`FilterUsedAsQuery`). Their results are
  discarded in the code, and ordering and pagination belong to Firestore. The
  offset document read is folded into `fault`. The corrected finders
  `FindWhereFiltered` and `FindWhereOrAndFiltered` take no ordering, offset
  or limit for the same reason. The order of a listing is left
  open: Firestore's order by id is not modelled.
- Where a throw comes from is not modelled. Every exception from Firestore or
  the identity provider is a boolean argument: a rejected filter or operator,
  an invalid id, a failed read or write, or a network failure.
- Firestore's operator semantics are simplified. Only integers, strings,
  booleans, null and arrays are values, with no cross-type ordering. A field
  path with dots in `update` is a plain key.
- Numbers are integers. Floating point is not modelled, and neither is the
  `incrementalValue` of `incrementDecrement` as a float.
- The concurrency of `Promise.all` in `deleteAccount` is not modelled: both
  steps run in sequence. The save issued without `await` in
  `registerWithEmailAndPassword` is modelled as completing before the
  envelope is returned.
- `getUrlParams` and `getCurrentLocation` (src/helpers.ts:27-30,
  src/helpers.ts:60-65) read `window.location`, which is I/O.
- Helpers.CamelToTitleCase: upper-casing covers ASCII letters only. Unicode
  case mapping is not modelled, so a non-ASCII lower-case letter is treated
  as its own upper case and gets a space. The key is a sequence of UTF-16
  code units, as in the source. An empty key is excluded because the source
  throws on `key[0]`.
- Helpers.GenerateRandomString: `Math.random` is replaced by the given
  indices `draws`. A non-integer `length` is not modelled. A length of 10^21
  or more appears in the message in exponent form (`1e+21`); the model
  prints every digit.
- Helpers.MoneyFormatterMeaning: covers integers within the safe-integer
  range on the path that does not abbreviate, with `decimalPlaces` omitted.
  The M/B branch and `toFixed` rounding are floating point. String inputs to
  `parseInt` are not modelled.
- Helpers.MoneyFormatter: has the same restriction as
  Helpers.MoneyFormatterMeaning.
- Store.StoreModel.FindWhereOrAnd: the partition and the built filter are
  computed but not used. Their meaning is proved in `Filters`.

## Findings

| source | as written | input that shows it | evidently intended | confidence | as-written member | corrected member |
|---|---|---|---|---|---|---|
| src/StoreModel.ts:162 | `findWhere` calls `this._table.where(...)` at line 146 and drops the new query, then fetches `this._table` | the collection `{d1: {a: 2}}` with `wh = [a == 1]` returns `d1` | fetch the query `where` built, so only documents satisfying every clause are returned | high; not executed | Store.FilterDiscarded | Store.StoreModel.FindWhereFiltered |
| src/StoreModel.ts:119 | `findWhereOrAnd` builds `queryRef` and then fetches `this._table` | the collection `{d1: {a: 2}}` with type `'and'` and the clause `a == 1` tagged `'and'` returns `d1` | fetch `this._table.where(<built filter>)` for every type, so only documents the combined filter matches are returned | high; not executed | Store.FilterDiscarded | Store.StoreModel.FindWhereOrAndFiltered |
