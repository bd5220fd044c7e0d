# Thought portal request handler, modelled in Dafny

This project models the serverless request handler of a small note ("thought")
portal. The handler answers CORS preflight requests, checks HTTP Basic
credentials against a configured pair, and then dispatches on the HTTP method
to four operations on a document store keyed by `(id, timestamp)`:

- list: the records not soft-deleted, newest first;
- create: a record with fixed defaults;
- partial update: `status`, `isAcknowledged` and `actionTaken`;
- soft delete: set `isDeleted`.

The document store is a `Table` class whose `items` field is a map from key to
record. Its methods are put, filtered scan and SET update. Each handler
operation is a method of the `Handlers` module that takes the table as a
parameter and changes it through those methods. Each is tied to a function
(`CreateResult`, `UpdateResult`, `DeleteResult`, `IsListing`) of the request
and, for list, update and delete, of the table before the call.
Lemmas state what those functions promise. The auth check, the item literal,
the sort and the method switch are pure functions.

Files, one module each:

- `wrappers.dfy`: `Option` (JavaScript's `undefined`) and `Result` (a thrown failure).
- `strings.dfy`: `split` on one character, array indexing, and lexicographic order, with round-trip and order lemmas.
- `auth.dfy`: `verifyBasicAuth`.
- `thoughts.dfy`: the record, its key, the scan filter and the failure kinds.
- `store.dfy`: the in-memory store and the meaning of a SET list.
- `handlers.dfy`: the four operations.
- `router.dfy`: `exports.handler`.

Modelling decisions:

- **Missing key on update or delete.** Neither update sets a condition, so the
  store's UpdateItem creates the record. The model does the same (upsert): the
  update starts from a record holding only the key (`Store.Stored`). A
  "not found" error would be the other choice, but nothing in the code
  produces one; the model follows the code. One consequence: a PUT on a missing key
  creates a record with no `isDeleted` attribute, and that record is listed.
- **Empty SET list.** A PUT that supplies none of the three attributes sends
  the expression `SET ` with no clause. The store rejects it, so the request
  ends in a 500 (`EmptyUpdateExpression`).
- **Undefined values.** The document client refuses to write an attribute
  whose value is `undefined`. So a POST without `content`, or a PUT or DELETE
  without `id` or `timestamp`, throws and ends in a 500 (`UndefinedValue`).
  Nothing is written in that case.
- **Empty key parts.** The store refuses a key attribute that is the empty
  string. So a PUT or DELETE whose `id` or `timestamp` is `""` ends in a 500
  (`EmptyKeyAttribute`), and nothing is written. The same check guards the
  put of a create, whose id `thought_` + timestamp is never empty.
- **The auth header.** `authorization || Authorization`: the lowercase header
  wins unless it is absent or empty.
- **The token.** It is `split(' ')[1]`: the text between the first and the
  second space, not everything after the first space.
- **The credentials.** The username is the text before the first `:` and the
  password the text between the first and second `:`. So a configured password
  containing `:` never matches, and `user:pass:anything` is accepted
  (`Auth.AcceptsIff`).
- **The body is parsed after the auth check but before the method switch.**
  So a malformed body with good credentials gets a 500 even for a method that
  would otherwise get a 405.

## Model

| member | source | states |
|---|---|---|
| `Strings.Split` | backend/index.js:24-26 | `split` on one character gives at least one piece, and no piece contains the separator |
| `Strings.JoinSplit` | backend/index.js:26 | joining the pieces of a split with the separator gives back the string |
| `Strings.SplitJoin` | backend/index.js:26 | splitting a join of separator-free pieces gives back the pieces |
| `Strings.SplitAtSeparator` | backend/index.js:26 | the first piece ends at the first separator; the remaining pieces are the split of the rest |
| `Auth.AuthorizationHeader` | backend/index.js:19 | a non-empty lowercase `authorization` header wins; when it is absent or empty, the `Authorization` value is used if present; there is no header exactly when neither spelling gives one |
| `Auth.RejectsWithoutBasicScheme` | backend/index.js:19-22 | a missing header, or one not starting with `Basic `, is refused |
| `Auth.TokenOfBasicHeader` | backend/index.js:24 | on a `Basic ` header, `split(' ')[1]` is the text after the scheme up to the next space |
| `Auth.CredentialsMatchIff` | backend/index.js:26-28 | the decoded text matches iff neither configured part contains `:` and the text is `username:password`, alone or followed by `:` and more |
| `Auth.AcceptsIff` | backend/index.js:18-29 | the guard accepts iff the header is in the `Basic ` scheme and its token decodes to the configured pair in that form |
| `Auth.PasswordWithColonNeverAccepted` | backend/index.js:26-28 | a configured password containing `:` is never accepted, whatever the headers |
| `Store.ApplyAllAppend` | backend/index.js:97 | applying a SET list in two parts is the same as applying it whole |
| `Store.ApplyAllKeepsKey` | backend/index.js:91-101 | a SET update never changes the key `(id, timestamp)`, the content or the category |
| `Store.Stored` | backend/index.js:91-96 | an update starts from the record under its key, or from a record holding only that key when none is stored |
| `Store.UpdateItem` | backend/index.js:91-104 | an UpdateItem fails exactly when a key part is empty (with `EmptyKeyAttribute`) or the SET list is empty; otherwise it returns a record under the requested key |
| `Store.Table.Put` | backend/index.js:57-62 | the result is `PutItem` of the item, and the table afterwards is the old one with that record committed under its key |
| `Store.Table.Scan` | backend/index.js:32-40 | every record passing the `isDeleted` filter, each exactly once (a multiset equal to the visible set), and nothing else |
| `Store.Table.Update` | backend/index.js:91-103 | the result is the clauses applied in order to the stored or blank record; the table afterwards holds it under its key; an empty key part or an empty list changes nothing |
| `Handlers.InsertNewestFirst` | backend/index.js:41 | inserting into a newest-first list keeps it newest first and adds exactly that record |
| `Handlers.SortNewestFirst` | backend/index.js:41 | the sorted list is newest first (each timestamp no earlier than the next) and is a permutation of the input |
| `Handlers.HandleGetThoughts` | backend/index.js:31-42 | the list is a permutation of the non-deleted records and is newest first |
| `Handlers.ListingIsVisibleRecords` | backend/index.js:34 | a record is listed iff it is stored and its `isDeleted` is absent or false; no listed record has `isDeleted` true |
| `Handlers.ListingSize` | backend/index.js:31-41 | a listing has exactly one entry per visible record |
| `Handlers.NewestFirstPairwise` | backend/index.js:41 | in a newest-first list every later record's timestamp is no later than every earlier one's |
| `Handlers.NewThought` | backend/index.js:45-55 | the new record has key `("thought_" + now, now)`, the request's content, the request's category when non-empty and `general` otherwise, status `pending`, all three flags false, and is visible |
| `Handlers.CreateResult` | backend/index.js:57-63 | a create fails exactly when the request has no content (`UndefinedValue`) or the timestamp is empty; otherwise it returns the new record |
| `Handlers.HandlePostThought` | backend/index.js:44-64 | returns exactly the record it stores; on failure the table is unchanged |
| `Handlers.CreatedIsListedOnce` | backend/index.js:44-63 | after a create, every listing holds the new record exactly once, and nothing else under its key |
| `Handlers.SetList` | backend/index.js:69-89 | the SET list has a clause for each of `status`, `isAcknowledged`, `actionTaken` that is defined, with its value, in that order, each at most once, and none for `isDeleted`; it is empty iff none is defined |
| `Handlers.BuildSetList` | backend/index.js:69-89 | the list built step by step is that SET list |
| `Handlers.SetListPatches` | backend/index.js:73-101 | applying the SET list replaces exactly the supplied attributes and keeps every other one |
| `Handlers.HandleUpdateThought` | backend/index.js:66-105 | the result and the new table are `UpdateResult` of the old table and the body, and the new table is the old one with that record committed |
| `Handlers.UpdateChangesOnlySuppliedFields` | backend/index.js:66-104 | an update succeeds iff both key parts are defined and non-empty and some attribute is supplied; it returns the post-update record, supplied attributes replaced and all others (key, content, category, `isDeleted`) kept; no other record changes |
| `Handlers.HandleDeleteThought` | backend/index.js:107-125 | the result and the new table are `DeleteResult` of the old table and the body, and the new table is the old one with that record committed |
| `Handlers.SoftDeleteSetsOnlyIsDeleted` | backend/index.js:110-124 | a soft delete fails iff a key part is undefined or empty; otherwise it returns the stored record with only `isDeleted` set to true |
| `Handlers.SoftDeleteIdempotent` | backend/index.js:107-125 | deleting a second time returns the same record and leaves the table as the first delete left it |
| `Handlers.DeletedIsNotListed` | backend/index.js:110-121 | after a soft delete, no listing holds a record under that key |
| `Router.Dispatch` | backend/index.js:127-192 | OPTIONS iff preflight; 401 iff not OPTIONS and auth fails, whatever the body; a parse failure iff auth succeeds and the body is malformed; after that, GET, POST, PUT and DELETE go to list, create, update and delete, and every other method to 405; the operations get the parsed body, or `{}` when there is none |
| `Router.UnauthorizedIgnoresBody` | backend/index.js:137-151 | the 401 decision is made before the body is parsed: changing the body does not change it |
| `Router.UnauthorizedHeaders` | backend/index.js:140-145 | the 401 headers are the CORS headers plus the Basic challenge |
| `Router.Failed` | backend/index.js:200-209 | a thrown failure gives 500 with the CORS headers and the body `{message: "Error processing request", error}` |
| `Router.Reply` | backend/index.js:162-209 | an operation's response is 200 with its record on success and, on failure, the 500 response of the `catch` block for that error, with the CORS headers |
| `Router.Handle` | backend/index.js:127-211 | every response carries the three CORS headers and a status of 200, 401, 405 or 500; for each dispatch outcome, the response and the new table are as specified, and only a successful create, update or delete changes the table |

## Left out

- The React client (`frontend/src/App.js`) is not part of this model: it is rendering, browser storage and HTTP calls.
- E-mail notification on create is not part of this model: the handler in `backend/index.js` sends none.
- The store SDK and the network are replaced by the in-memory `Table`. Update expressions are lists of typed `(attribute, value)` clauses, not parsed expression strings. The `#name` and `:value` placeholder maps are not modelled.
- Base64 decoding (`Buffer.from`) is the parameter `decode`, an arbitrary function from token to text.
- `JSON.parse` is the `Payload` datatype: absent or empty, a parsed object, or malformed. Bodies that parse to a non-object, such as `null`, are not modelled; property access on them would throw and give a 500. Body attributes have the types the client sends (strings and booleans); a value of another JSON type is not modelled.
- The clock is the parameter `now`.
- The `error.message` text of a 500 is modelled by the failure kind (`Error`), not by the message string. When a request has both an empty key part and an empty SET list, the model reports `EmptyKeyAttribute`; which of the two the store reports is not modelled (both give a 500).
- `localeCompare` is plain lexicographic order on characters (`Strings.LexLe`). This agrees for the zero-padded ISO-8601 timestamps that create writes. It may differ for arbitrary timestamp strings written by an upsert.
- `Store.Table.Scan`: returns every visible record. A single store Scan call returns at most one page, and the source does not follow further pages, so on a large table the real listing can be incomplete.
- `async`/`await`, `console.error` and the `process.env` reads are left out. The configured credentials are the `Config` parameter. Unset environment variables are not modelled.
- A request event without a `headers` object is not modelled; reading a header from it would throw.
- Concurrency between invocations is not modelled: each request runs alone against the table.
