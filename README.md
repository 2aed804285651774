# A verified model of the fake_school student/user service

The service is a small Express application over MongoDB (`index.js`). It
offers CRUD routes for student records, signup and login for users, and two
routes behind a JSON Web Token gate. This project models the decisions its
request handlers make and the changes they make to the two collections. It
proves what those handlers promise.

- `Wrappers`: `Option` and `Result`.
- `JsValues`: request values as JavaScript sees them. This covers truthiness,
  `Array.isArray`, and `String.prototype.split` with a one-character separator.
  `Split` is proved to be the inverse of `Join` in both directions.
- `Store`: the "students" and "users" collections as a class `Db`. It holds a
  map from ObjectId to document and the ObjectId generator. The generator is a
  counter, and `Valid()` says every id in use is below it, so a new id is fresh.
  Filter matching is a parameter, because the store evaluates filters by its
  own rules. Of the users the email filter matches, `findOne` returns the
  earliest inserted one, which is the user with the least id.
- `Tokens`: bcrypt's `hash`/`compare` and jsonwebtoken's `sign`/`verify`. They
  are uninterpreted function values that the caller supplies. The two bcrypt
  calls may reject. This module also
  holds `generateAccessToken` and the properties the libraries promise.
- `Http`: the response that handlers fill in step by step (`res.status`, then
  `res.json`), the request the gate annotates, and the `next` callback as a
  call counter.
- `Students`: the `/students` routes. This covers the payload check shared by
  POST and PUT, the construction of the embedded subjects, the list filter,
  and the four handlers.
- `Accounts`: signup, login, the `authenticateWithJWT` gate, and `/profile`
  and `/payment`.

Facts about the code that the model keeps:
- `dateEnrolled` never falls back to the current time, because a Date object is always truthy.
- PUT replies with the document it constructed, not with the store's result.
- The subject routes exist only as commented-out code, so they are not modelled.
- The `subjects` filter is `$in` over the bare query string. It would not match the embedded `{_id, name}` entries, so it is kept as data.

## Model

| member | source | states |
|---|---|---|
| `JsValues.Split` | index.js:249 | `split(" ")` returns at least one piece, and no piece contains the separator |
| `JsValues.JoinSplit` | index.js:249 | joining the pieces of a split gives back the header |
| `JsValues.SplitJoin` | index.js:249 | splitting a join of separator-free pieces gives back exactly those pieces |
| `JsValues.SinglePieceWithoutSeparator` | index.js:249 | `split(" ")` gives a single piece exactly when the header has no space |
| `JsValues.Truthy` | index.js:97 | the `!x` tests at index.js:44, 51, 97, 105, 113 and 248 fail exactly for undefined, null, false, 0, NaN and "" |
| `JsValues.IsArray` | index.js:113 | `Array.isArray` holds only of arrays, and an array is always truthy, so the test `!subjects` or `!Array.isArray(subjects)` is the array test alone |
| `Store.Db.NewObjectIds` | index.js:124 | `count` calls of `new ObjectId()` give consecutive ids that are not in use; the store invariant holds |
| `Store.Db.InsertStudent` | index.js:129 | insertOne adds exactly one document under a fresh id, changes nothing else, and answers `{acknowledged, insertedId}` |
| `Store.Db.UpdateStudent` | index.js:180-183 | updateOne with `$set` replaces the fields of the document with that id, and does nothing when there is none |
| `Store.Db.DeleteStudent` | index.js:197-199 | deleteOne removes the document with that id if there is one, and leaves every other document unchanged |
| `Store.Selected` | index.js:60 | the documents a criteria selects are exactly the stored ones it matches, unchanged |
| `Store.Db.FindStudents` | index.js:60 | find returns the documents the criteria selects |
| `Store.Db.InsertUser` | index.js:286-289 | insertOne on users adds exactly one document under a fresh id |
| `Store.Db.FindUserByEmail` | index.js:298-301 | findOne returns the earliest user whose email the filter matches (by the store's matching rules), and returns none exactly when no user matches |
| `Http.Response.Status` | index.js:98 | `res.status(code)` sets the status |
| `Http.Response.Json` | index.js:99-101 | `res.json(body)` sets the body that is sent |
| `Http.Next.Call` | index.js:262 | calling `next` is counted once |
| `Students.FieldMessage` | index.js:97-119 | each rejected field has its own message, and the three messages differ |
| `Students.ValidateStudent` | index.js:97-119 | rejects a falsy name first, then a falsy age, then a non-array subjects; accepts exactly when all three pass and returns the array's elements |
| `Students.ValidationFollowsFieldOrder` | index.js:97-119 | the reported field is the first failing check in the fixed order name, age, subjects |
| `Students.FalsyValuesRejected` | index.js:97-119 | an absent or empty name, and an absent or zero age, are rejected; a string for subjects is rejected; an empty array is accepted |
| `Students.CheckStudentBody` | index.js:97-119 | on the first failing check it answers 400 with that field's message; otherwise it leaves the response untouched |
| `Students.NewStudent` | index.js:121-126 | the document keeps the payload's name, age and date input; its subject names are the input array, in order; every subject id is in the fresh range |
| `Students.BuildSubjects` | index.js:124 | one entry per input subject, in order, and entry i has name `subjects[i]` and id `first + i` |
| `Students.SubjectNamesRoundTrip` | index.js:124 | projecting the names of the built entries gives back the input array |
| `Students.SubjectIdsDistinctAndFresh` | index.js:124 | the subject ids are pairwise distinct, and all of them come from the fresh range |
| `Students.BuildCriteria` | index.js:42-56 | a `name` clause (`$regex`, option `i`) exactly when `name` is truthy; a `subjects` clause (`$in: [subjects]`) exactly when `subjects` is truthy; with neither, the criteria is empty |
| `Students.ListStudents` | index.js:40-67 | answers `{students: ...}` with the documents selected by the criteria built from the query |
| `Students.CreateStudent` | index.js:93-136 | an invalid payload gets a 400 with that field's message and no store change; a valid one inserts one document whose subjects get fresh ids, and answers with the insert result |
| `Students.ReplaceStudent` | index.js:145-187 | the same checks as POST; a valid payload changes only the document with that id, or nothing; the answer is the constructed document either way |
| `Students.DeleteStudent` | index.js:196-204 | removes at most the document with that id, leaves the others unchanged, and always answers `{message: "Deleted"}` |
| `Accounts.Signup` | index.js:279-293 | when bcrypt hashes the password, it stores exactly `{email, hash(password, 12)}` under a fresh id and answers with the insert result; when bcrypt rejects, the rejection is unhandled and this request stores nothing and gets no reply from the handler |
| `Tokens.GenerateAccessToken` | index.js:232-242 | the token signs `{user_id, email}` with a "3d" expiry; if jsonwebtoken keeps its promise, the token holds no space and verifies to exactly that payload |
| `Accounts.LoginAnswer` | index.js:305-326 | issues a token exactly when a user was found and compare succeeds, and the token is `generateAccessToken(user._id, user.email)`; there is no answer exactly when compare rejects; every other case gets the same 400 `Invalid login credentials` |
| `Accounts.LoginFailuresIndistinguishable` | index.js:315-326 | an unknown email and a wrong password produce identical answers |
| `Accounts.Login` | index.js:296-329 | the response is the login decision for the user findOne returns, or for no user; when the decision is no answer, the response is untouched |
| `Accounts.SignupThenLogin` | index.js:285-311 | after signing up with an email that no stored user matches, logging in with the same password yields a token for the new user; this assumes bcrypt accepts a password against its own hash and the filter matches the email itself |
| `Accounts.DuplicateSignupShadowed` | index.js:286-301 | when the email filter already matches an older account, a new signup is never the account login checks; the older account is |
| `Accounts.BearerToken` | index.js:249 | the token of `"<scheme> <token>"` is `<token>` |
| `Accounts.TokenOf` | index.js:249 | the token is undefined exactly when the header has no space; otherwise it is the second piece of `split(" ")` and holds no space |
| `Accounts.Rejection` | index.js:255-258 | every rejection answers 400; it carries `Login required to access this route` exactly when the header is missing, and the verification error otherwise |
| `Accounts.GateDecision` | index.js:246-273 | a missing or empty header means login is required; otherwise the request is authenticated with the verified payload exactly when verification succeeds, and rejected with the verification error when it fails |
| `Accounts.LoginThenAuthenticate` | index.js:232-262 | a token issued at login, sent as `Bearer <token>`, authenticates with payload `{user_id, email}` of that user, provided jwt verify accepts what jwt sign produced |
| `Accounts.Authenticate` | index.js:246-273 | on success it sets `req.payload` and calls `next` exactly once and leaves the response alone; on failure it answers 400, does not call `next` and leaves `req.payload` alone |
| `Accounts.Profile` | index.js:332-338 | the handler answers `{message, payload}` only for an authenticated request; any other request gets the gate's 400 |
| `Accounts.Payment` | index.js:340-344 | the handler answers its message only for an authenticated request; any other request gets the gate's 400 |

## Left out

- Express wiring, CORS, `express.json`, `app.listen`, dotenv, and the `MongoClient.connect`/`main` bootstrap: these are I/O and process setup.
- The internals of bcrypt and jsonwebtoken: these are foreign library calls. They are parameters of type `Crypto`. The signing secret is a parameter. The "3d" expiry is an opaque option value, and there is no clock, so expiry checking happens inside the uninterpreted `verify`. bcrypt's random salt is not modelled, because `hash` is a function.
- Tokens.TokensVerify, Tokens.HashMatches: these are assumptions about the libraries, not proofs. The lemmas that use them take them as hypotheses.
- The evaluation of MongoDB query operators (`$regex` with `i`, `$in`): the criteria are data. `find` takes the evaluator as a parameter, and its results are a map, so their order is not modelled.
- Store.Db.FindUserByEmail: filter matching is a parameter, not MongoDB's own rules. The model therefore says nothing about which users a given email filter matches: an operator object such as `{$ne: null}` sent as the login email, a stored array email matched by one element, or a missing email (sent as null) matching a stored null. `SignupThenLogin` assumes only that an email matches itself.
- `findOne`'s natural order is taken to be insertion order, which is the least id.
- The `$set` update replaces all four student fields. The model does not have documents that carry other fields.
- The serialization of an ObjectId inside the token payload (as a hex string): the payload keeps the id as it is. The `iat` and `exp` claims that jwt adds to a verified payload are not modelled.
- `new Date(dateEnrolled) || new Date()`: the Date is the opaque value `DateFrom(input)`. The fallback is never taken, because a Date is always truthy.
- JavaScript numbers are `Num(x)` plus `NaN`. Only the reals that an IEEE double can hold stand for JavaScript numbers; the model does not exclude the others. -0 is the same value as 0 here, which is falsy as in JavaScript. The infinities are absent; in JavaScript they are truthy.
- The path parameter of PUT and DELETE is the ObjectId itself. `new ObjectId(...)` throwing on a malformed id is not modelled.
- The exception paths: the 500 replies when the store fails, and the PUT catch that replies `{error: e}` without setting a status.
- Accounts.Signup, Accounts.Login, Students.DeleteStudent: these async routes have no catch, so a rejected bcrypt or store call is an unhandled rejection. What happens next depends on versions the code does not pin. Under Express 4, which ignores a handler's promise, Node 15 and later end the whole process by default, and every in-flight request is lost. Under Express 5, the default error handler sends a 500. The model keeps only the per-request outcome of a bcrypt rejection: `hash` or `compare` returns `None`, nothing is stored, and the handler sends nothing. Process termination and the Express 5 reply are not modelled. Store calls always succeed in the model, so a rejected store call is not modelled either.
- The subject routes: they are commented out and have no executable code.
- The `console.log` debugging output.
