# Sample submission core of tobaco-backend, in Dafny

This project models the decision logic of a small laboratory-sample backend:

- the sample classifier `determineUserType`, which labels a sample as `Addict`, `Regular User`, `Intermediate User` or `Non-user` from its pH and nicotine readings;
- the sample-id allocator, which gives a new sample the largest stored `sampleId` plus one, or 1 on an empty store;
- the zod schema `dataEntrySchema` that a submission is parsed against;
- the `POST /entry` handler. It allocates the id, classifies the raw body, parses the body with the computed `sampleId` and `userType` written over the client's, stamps `createdBy`, saves, and answers 201. A schema failure gives 400 and any other failure gives 500;
- the mongoose record `DataEntrySchema`: required fields, the `userType` enum, the unique `sampleId` index and the `createdAt` default;
- the role gate `authMiddleware(requiredRole)`, which answers 401, 400 or 403, or calls `next` with the verified claims.

Modules, one per source concern:

- `Wrappers` (wrappers.dfy): `Option` and `Result`.
- `Classifier` (classifier.dfy): `Classify`. JavaScript comparisons against `undefined` are modelled as always false.
- `DataEntryModel` (data_entry_model.dfy): the unsaved `Document`, the stored `DataEntry`, and `Save`. `Save` checks required paths and the enum, then the unique index.
- `SampleIds` (sample_ids.dfy): `MaxSampleId` (the descending-sort `findOne`) and `NextSampleId`.
- `EntrySchema` (entry_schema.dfy): JSON values, the zod combinators, and `Parse`. `Parse` returns the parsed submission or the set of failing keys.
- `Auth` (auth.dfy): `Authorize`. Token verification is a function parameter.
- `EntryRoute` (entry_route.dfy): `HandleEntry` is the handler as a function of the stored entries and the request. The class `SampleStore` holds the entry list. Its method `PostEntry` runs the handler step by step and is proved to agree with `HandleEntry`. The lemmas state what the handler promises.

Behaviour reproduced as the code has it:

- The schema enum omits `Intermediate User`. A sample the classifier puts in that band is refused with 400 and never stored.
- The schema lets a missing `Nicotene` through, but the stored record requires it. Such a body passes the parse, fails on save, and gets 500, not 400.
- Classification runs on the raw body, before the parse.
- The third classifier band returns `Intermediate User`; it is not folded into `Regular User`. Its nicotine range is effectively [120, 130), because 130 is already caught by the `Regular User` box.

## Model

| member | source | states |
|---|---|---|
| Classifier.Classify | routes/dataEntryRoutes.js:22-27 | Each label is described by its own region: Addict iff a nicotine reading is present, pH > 7.5 and nicotine > 150 (both strict). Regular User iff pH in [7, 7.5] and nicotine in [130, 150]. Intermediate User iff pH in [7.3, 7.5] and nicotine in [120, 130). A missing reading always gives Non-user. |
| Classifier.BoundaryCases | routes/dataEntryRoutes.js:23-25 | First match wins at the edges: (7.5, 150) is Regular User; (7.4, 130) is Regular User; (7.4, 129.9) is Intermediate User; (7.6, 150) is Non-user. Also the listed sample values. |
| DataEntryModel.Save | models/DataEntry.js:3-16 | Save succeeds iff every required path is set (strings non-empty), userType is unset or one of the three enum labels, and the sampleId is not already stored. A schema violation is reported as such. The saved entry is well-formed, keeps the index unique, and carries the document's values, including the createdAt default. |
| DataEntryModel.AppendFreshKeepsUnique | models/DataEntry.js:7 | Appending an entry whose sampleId is not stored leaves the sampleIds unique exactly when they were unique before. |
| SampleIds.MaxSampleId | routes/dataEntryRoutes.js:33 | The descending-sort lookup finds nothing iff the store is empty. Otherwise it returns a stored id that is at least every stored id. |
| SampleIds.NextSampleId | routes/dataEntryRoutes.js:33-34 | The next id is 1 on an empty store; otherwise it is one more than some stored id. It is strictly greater than every stored id, so no stored entry has it. It is positive whenever the stored ids are. |
| SampleIds.MaxAfterAppend | routes/dataEntryRoutes.js:33-34 | After appending an entry with the allocated id, that id is the new maximum and the next allocation is one higher. |
| SampleIds.NextAfterConsecutive | routes/dataEntryRoutes.js:33-34 | On a store numbered 1..n in order, the next id is n + 1. |
| EntrySchema.Parse | routes/dataEntryRoutes.js:8-19 | Parse succeeds iff every key passes its check. Otherwise it reports a non-empty set naming exactly the failing keys. On success: the three names are non-empty strings, sampleId > 0, timeMins is in [0, 60], phLevel is in [1, 14], temperature is a number, Nicotene and substanceDetected may be absent, userType is one of the three enum labels, and every value is the input's. |
| Auth.Authorize | middleware/auth.js:3-18 | There are exactly four mutually exclusive outcomes. 401 "Access Denied" iff the header is missing or empty. 400 "Invalid Token" iff verification fails. 403 "Unauthorized" iff the verified role differs from the required one. `next` is called iff the token verifies with exactly the required role, and then req.user is the verified claims. |
| EntryRoute.ClassifyBody | routes/dataEntryRoutes.js:37 | The classifier applied to the raw body before validation. A label other than Non-user needs both readings to be numbers; with numeric readings it is exactly the classifier's result. |
| EntryRoute.Spread | routes/dataEntryRoutes.js:40-44 | The object parsed carries the computed sampleId and userType in place of the client's; `ClientIdAndLabelIgnored` shows the client's values then cannot change the response. |
| EntryRoute.CreatedBy | routes/dataEntryRoutes.js:49 | The owner is never empty. A user with a non-empty id is the owner. With no user, or a user whose id is empty (falsy), it is the fixed default id. Any owner other than the default is the user's own id. |
| EntryRoute.NewDocument | routes/dataEntryRoutes.js:47-50 | The document carries every parsed value, the given owner as createdBy, and the clock reading as createdAt (the default at models/DataEntry.js:15). An absent nicotine reading stays unset, so the document fails the record's required check. |
| EntryRoute.HandleEntry | routes/dataEntryRoutes.js:30-75 | The handler as a function of the stored entries and the request. A failed max-id read gives 500. A 400 happens only after a successful read, and its issues are exactly the keys that fail the schema check. A 201 happens only without a store fault, with the allocated id (not yet stored), the classifier's label (an enum label), the createdBy fallback and the clock time. `CreatedExactlyWhen` and `ErrorStatusesExactlyWhen` give the exact condition for each status. `CreatedEntryContents` gives the full entry. |
| EntryRoute.ErrorStatusesExactlyWhen | routes/dataEntryRoutes.js:59-73 | On a well-formed store: 400 iff the store read succeeds and the body fails a schema check. 500 iff the store read fails, or the body passes the schema but lacks a nicotine reading, or the insert fails. |
| EntryRoute.SampleStore.PostEntry | routes/dataEntryRoutes.js:30-75 | The step-by-step handler answers what HandleEntry answers. The entry list grows by the created entry on a 201 and is otherwise unchanged. The store invariant is preserved. |
| EntryRoute.HandlerKeepsStoreInvariant | routes/dataEntryRoutes.js:33-52 | Whatever the request, a store whose ids are unique and positive and whose entries are well-formed stays so. In particular no duplicate sampleId is ever stored, and no stored userType is outside the enum. |
| EntryRoute.CreatedExactlyWhen | routes/dataEntryRoutes.js:30-58 | On such a store, the answer is 201 iff the store does not fail, the body passes every schema check (which excludes the Intermediate band), and a nicotine reading is present. |
| EntryRoute.CreatedEntryContents | routes/dataEntryRoutes.js:40-58 | A 201 appends exactly one entry. Its sampleId is the allocated id and its userType is the classifier applied to the stored readings, whatever the client sent. Its createdBy is the user's id or the fixed default. Its createdAt is the clock reading. All other values are the client's. |
| EntryRoute.IntermediateUserRejected | routes/dataEntryRoutes.js:37-66 | A body classified Intermediate User gets 400 "Validation error" with userType among the failing keys, and the store is unchanged. |
| EntryRoute.MissingNicotineIsServerError | routes/dataEntryRoutes.js:47-73 | A body that passes the schema but has no Nicotene is refused at save. The answer is 500 and the store is unchanged. |
| EntryRoute.OutOfRangeRejected | routes/dataEntryRoutes.js:13-14 | A pH outside [1, 14] or a duration outside [0, 60] gets 400 with that key among the issues, and nothing is stored. |
| EntryRoute.ClientIdAndLabelIgnored | routes/dataEntryRoutes.js:40-44 | The sampleId and userType the client sends have no effect on the response. |
| EntryRoute.NonNumericReadingRejected | routes/dataEntryRoutes.js:14-16 | A non-numeric pH, or a present but non-numeric Nicotene, fails the parse whatever the classifier's label was. |
| EntryRoute.BackToBackIdsConsecutive | routes/dataEntryRoutes.js:33-34 | Two successful submissions in a row get ids n and n + 1. |
| EntryRoute.SubmissionKeepsIdsConsecutive | routes/dataEntryRoutes.js:33-34 | If the stored ids are 1..n in order, they are still consecutive from 1 after any submission. So sequential submissions on an empty store number the samples 1, 2, 3, ... |

## Left out

- Concurrent submissions. Two requests can read the same maximum id and race on the unique index. Only one sequential submission is modelled.
- Store I/O. The max-id read and the insert are modelled as a `StoreFault` parameter (read fails, write fails, or no fault). The descending-sort query is modelled by `MaxSampleId`.
- SampleIds.NextSampleId: ids are unbounded integers. In JavaScript `lastEntry.sampleId + 1` is a double addition and is exact only up to 2^53. From 2^53 on it returns the stored maximum itself, so every later save would hit the unique index and get 500. Ids start at 1 and grow by one per stored sample, so that point is not reached in practice.
- Floating point. Readings are `real`. Only comparisons touch them. JSON numbers that overflow to Infinity are not modelled.
- EntryRoute.ClassifyBody: does not model JavaScript's conversion of strings to numbers in the comparisons at routes/dataEntryRoutes.js:23-25. A pH or nicotine value sent as a string or other non-number is classified as if it were absent. `NonNumericReadingRejected` shows the parse refuses such a body whatever the label, so the status is still 400 and nothing is stored. The set of failing keys can differ: with pH `"7.4"` as a string and nicotine 125, the code's conversion yields `Intermediate User`, so its error list also names `userType`, while the model reports only `phLevel`.
- Request bodies that are not JSON objects, and keys the schema does not declare. zod strips undeclared keys, so they cannot reach the record.
- The shape of zod's error list. It is reduced to the set of failing keys. Response bodies are reduced to status, message and the created entry; `err.message` and logging are left out.
- The cast of `createdBy` to an ObjectId. A user id that is not a valid ObjectId would fail at save with 500. `createdBy` is treated as an opaque string.
- `req.user` on `/entry`. No auth middleware is mounted on that route, so in the deployed server the default owner is always used. The model takes the optional user as an input and covers both cases.
- JWT signing and verification internals. Verification is the function parameter `verify`; claims are the `id` and `role` that login puts in the token.
- An exception thrown by a downstream handler through `next()` would be caught by the middleware's own catch. `next` is treated as not throwing.
- `req.user` is assigned before the role check, so it is also set on a 403. Nothing observes that, so it is not modelled.
- server.js (Express wiring, CORS, logging, database connection). routes/adminRoutes.js and routes/authRoutes.js (thin wrappers over store queries, password hashing, token issuance). models/User.js. These are not part of this model.
- Points of the code the model keeps as written:
  - the third band returns `Intermediate User` (routes/dataEntryRoutes.js:25, and the criteria comment at :83), a label the schema enum at :18 and the record enum at models/DataEntry.js:8 both leave out;
  - classification runs on the raw body (routes/dataEntryRoutes.js:37) before `parse` (:40-44);
  - `Nicotene` is optional in the schema (routes/dataEntryRoutes.js:16) but required by the record (models/DataEntry.js:11).
