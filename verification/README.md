# Entry handlers and route guard, modelled in Dafny

This project models the decision logic of a small data-entry web application.
Users who are signed in submit a contact-style form (name, email, message), and the
application lists the stored entries back. Authentication and storage belong to
a hosted service. Each call into that service is modelled as an input value
`Call<T> = Returned(value) | Threw(message)`, so every handler is a pure function of
the outcomes it would observe.

- `wrappers.dfy` (`Wrappers`): `Option`, standing for a JavaScript value that may be null.
- `entry.dfy` (`EntryTypes`): `User`, `Entry` and `CreateEntryRequest`. Each request field is absent or a string.
- `envelope.dfy` (`Envelope`): the `{success, data?, error?}` envelope, its well-formedness, the
  "Database error: " and "Server error: " messages, and a round trip to a tagged `Outcome`.
- `backend.dfy` (`Backend`): `Call`, the store answer `StoreResult = Ok(data) | Err(message)`, and
  `RequestContext`, which bundles client creation, the primary user lookup and the session fallback.
- `identity.dfy` (`Identity`): two-step identity resolution. Both handlers use it.
- `js_string.dfy` (`JsString`): JavaScript `.length`, which counts UTF-16 code units, and `includes`,
  which is a substring search, plus field truthiness.
- `create_entry.dfy` (`CreateEntry`): the ordered validation, the inserted row and the create handler.
- `list_entries.dfy` (`ListEntries`): the list handler. A null result set becomes an empty list.
- `route_guard.dfy` (`RouteGuard`): the three-way navigation decision.

Each handler returns a run record. The record holds the envelope plus a trace of the store
call (`inserted: Option<NewRow>` or `queried: bool`), so "no insert is attempted" and
"the store is not queried" can be stated as facts.

Two behaviours of the code worth stating:
- The name and message bounds are inclusive: `length < 2 || length > 100` rejects.
- A throw from the primary user lookup is caught by the inner handler, so it never
  becomes "Server error: ...". Of the two identity lookups, only a throw from the session
  fallback reaches the outer handler.

## Model

| member | source | states |
|---|---|---|
| Envelope.DatabaseError | server/api/entries/create.post.ts:84-90 | a store error message becomes "Database error: " followed by the store's message unchanged |
| Envelope.ServerError | server/api/entries/create.post.ts:96-101 | a caught fault becomes "Server error: " followed by the fault's message unchanged |
| Envelope.PrefixesDistinct | server/api/entries/list.get.ts:46-64 | a store error and a caught fault can never produce the same message |
| Envelope.Decode | types/entry.ts:16-20 | a well-formed envelope is exactly a success carrying data or a failure carrying an error |
| Envelope.Encode | types/entry.ts:16-20 | the envelope built from a tagged result is well-formed, and its success flag matches the tag |
| Envelope.DecodeEncode | types/entry.ts:16-20 | decoding the envelope of a tagged result gives the same result back |
| Envelope.EncodeDecode | types/entry.ts:16-20 | every well-formed envelope is the encoding of its decoding |
| Identity.Resolve | server/api/entries/create.post.ts:11-37 | a user is resolved only when the service offered one (through the session only after the primary lookup threw); no user without a throw is denied with "Not authenticated"; a throw with no session user is denied with "Not authenticated. Please log in again."; a fault comes only from the fallback |
| Identity.SessionOnlyAfterThrow | server/api/entries/list.get.ts:11-28 | the session is irrelevant unless the primary lookup threw |
| JsString.Length | server/api/entries/create.post.ts:49-63 | `.length` sums one UTF-16 code unit per character inside the Basic Multilingual Plane and two per character outside it, so it lies between the character count and twice it, and is 0 only for the empty string |
| JsString.LengthInBmp | server/api/entries/create.post.ts:49 | `.length` equals the character count exactly when every character lies inside the Basic Multilingual Plane |
| JsString.Truthy | server/api/entries/create.post.ts:42 | a field is truthy (so `!field` is false) exactly when it is present with a positive `.length`; absent and empty fields are falsy |
| JsString.Includes | server/api/entries/create.post.ts:56 | `includes` holds exactly when the needle occurs at some position of the string |
| JsString.IncludesChar | server/api/entries/create.post.ts:56-61 | with the one-character needle "@", `includes` is plain membership of '@' |
| CreateEntry.Validate | server/api/entries/create.post.ts:42-68 | an accepted request has all three fields present and unchanged, a name of length 2..100, an '@' in the email and a message of length 10..1000; a rejection carries one of the four exact messages |
| CreateEntry.FirstFailing | server/api/entries/create.post.ts:42-68 | the index returned is that of the first failing check, with every earlier check passing; none is returned exactly when all checks pass |
| CreateEntry.ValidateIsFirstFailing | server/api/entries/create.post.ts:42-71 | the validation accepts exactly when no rule in the order presence, name, email, message fails, and otherwise answers the first failing rule's message |
| CreateEntry.FalsyFieldIsMissing | server/api/entries/create.post.ts:42-47 | an absent or empty name, email or message gives the missing-fields message, before any length rule |
| CreateEntry.NameRule | server/api/entries/create.post.ts:49-54 | with all fields present, the name message is returned exactly when the name's length is outside 2..100 inclusive |
| CreateEntry.EmailRule | server/api/entries/create.post.ts:56-61 | once the name passes, the invalid-email message is returned exactly when the email has no '@' |
| CreateEntry.MessageRule | server/api/entries/create.post.ts:63-68 | once name and email pass, the message-length message is returned exactly when the message's length is outside 10..1000 inclusive |
| CreateEntry.AcceptedIff | server/api/entries/create.post.ts:42-68 | a request is accepted if and only if every rule holds |
| CreateEntry.Boundaries | server/api/entries/create.post.ts:49-68 | names of length 1 and 101 fail the name rule; messages of length 9 and 1001 fail the message rule |
| CreateEntry.Create | server/api/entries/create.post.ts:11-101 | the envelope is always well-formed; an insert happens exactly when setup, identity, body and every check pass; the row carries the resolved user's id and the three fields unchanged; success holds exactly when the store accepted the row, and the data is the store's row |
| CreateEntry.CreateSessionFallback | server/api/entries/create.post.ts:12-27 | a primary throw with no session user gives "Not authenticated. Please log in again." and no insert; a session user is the identity stamped on the row |
| CreateEntry.CreateNoUser | server/api/entries/create.post.ts:32-37 | a primary lookup with no user gives "Not authenticated" and no insert, whatever the body |
| CreateEntry.CreateRejectsInvalid | server/api/entries/create.post.ts:42-71 | a failed check is answered with that check's message and no insert |
| CreateEntry.CreateStoreMapping | server/api/entries/create.post.ts:71-95 | after the insert, a store error gives "Database error: " + message, a store success gives success with the returned row, a fault gives "Server error: " + message |
| CreateEntry.CreateFaults | server/api/entries/create.post.ts:96-101 | a fault in client setup, the session fallback or the body read gives "Server error: " + its message |
| ListEntries.List | server/api/entries/list.get.ts:11-64 | the envelope is always well-formed; the store is queried exactly when setup and identity succeed; success holds exactly when the store answered without an error; the rows are returned unchanged, and null becomes the empty list |
| ListEntries.ListSessionFallback | server/api/entries/list.get.ts:12-27 | a primary throw with no session user gives "Not authenticated. Please log in again." and no query; a session user is accepted |
| ListEntries.ListNoUser | server/api/entries/list.get.ts:32-37 | a primary lookup with no user gives "Not authenticated" and no query |
| ListEntries.ListStoreMapping | server/api/entries/list.get.ts:46-64 | a store error gives "Database error: " + message, a fault in the select "Server error: " + message, null data an empty list, rows those rows |
| ListEntries.ListFaults | server/api/entries/list.get.ts:58-64 | the outer catch turns a throw in client setup (lines 5-9) or in the session fallback (line 19) into "Server error: " + its message, and the store is not queried |
| ListEntries.ListKeepsStoreOrder | server/api/entries/list.get.ts:39-57 | for any rows the store answers, the handler returns exactly those rows in the same order; if they are newest-first, so is the answer |
| RouteGuard.Guard | middleware/auth.ts:6-16 | it redirects to "/login" exactly when there is no user and the path is not one of "/login", "/signup", "/debug"; it redirects to "/" exactly when there is a user and the path is "/login" or "/signup"; a redirect never targets the current path |
| RouteGuard.SignedOut | middleware/auth.ts:6-10 | with no user, public paths proceed and every other path redirects to "/login" |
| RouteGuard.SignedIn | middleware/auth.ts:13-16 | with a user, "/login" and "/signup" redirect to "/", and every other path, "/debug" included, proceeds |
| RouteGuard.ExactMatch | middleware/auth.ts:6-8 | public-route membership is exact: "/login/x" and "/debug/" redirect to "/login" with no user |
| RouteGuard.NoRedirectLoop | middleware/auth.ts:8-15 | after a redirect, running the guard again at the target with the same user state proceeds |

## Left out

- The hosted client, the auth calls, `readBody` and the dynamic `import("#supabase/server")` are foreign calls. Their outcomes are inputs of type `Call<T>`.
- A body that is `undefined` makes `body.name` throw. This is modelled as the body read throwing, which gives the same "Server error: " answer.
- JavaScript strings may hold unpaired UTF-16 surrogates, for example from the JSON escape `"\ud800"`. A Dafny `char` is a Unicode scalar value and cannot be a surrogate, so names, emails and messages containing a lone surrogate are outside the model.
- Fields that are not strings (numbers, arrays) are not modelled. Every field is absent or a string.
- `error.message` of a thrown value that is not an `Error` is not modelled. JavaScript gives `undefined` for most such values. For a thrown `null` or `undefined`, the catch block itself throws, so no envelope is returned. Every fault carries a string message.
- The ordering of the list by `created_at` is done by the store. It is not proved, only shown to be preserved when the input already has it (`ListEntries.ListKeepsStoreOrder`).
- The `.select().single()` contract of the store is not modelled. The store answers one row or an error.
- Console logging, async/await and the framework's handler and middleware plumbing are left out.
- `nuxt.config.ts` is framework configuration, not decision logic.
- The navigation itself (`navigateTo`) is left out. The guard returns the decision it would make.
- CreateEntry.Boundaries: stated only for text in the Basic Multilingual Plane, where `.length` is the character count. `CreateEntry.NameRule` and `CreateEntry.MessageRule` state the general case over `.length`.
