# AI prompt generator: the request lifecycle, in Dafny

This project models the server core of an image-generation app. A user's short idea is
stored as a *generation request*. A request has seven fields: `id`, `user_idea`,
`expanded_prompt`, `image_url` (nullable), `status`, `created_at` and `completed_at`
(nullable). One orchestrating handler drives each request from `pending` through
`processing` to `completed` or `failed`. Four table handlers create, update, look up and
list requests.

Layout, one module per source file:

- `wrappers.dfy` (`Wrappers`): `Option` stands for null and `Result` for an operation that may throw.
- `schema.dfy` (`Schema`): the record shape, the status enum and its names, and the create and update inputs with their validators. The update input has three-state fields: absent, null or a value. It also holds the expander's and generator's replies, and the lifecycle invariant `LifecycleConsistent`.
- `db_schema.dfy` (`DbSchema`): the table. It holds the insert defaults (`ApplyDefaults`), the SET-clause semantics (`ApplyPatch`) and the primary-key invariant (`WellFormed`). The class `Store` holds the rows as a map from id to record, the serial sequence's next value and an abstract clock.
- `templates.dfy` (`Templates`): a prompt made of a fixed prefix, a body and a fixed suffix (`Fill`), its inverse (`Unfill`) and substring containment.
- `expand_prompt.dfy` (`Expander`), `create_image_request.dfy` (`CreateHandler`), `get_image_requests.dfy` (`ListHandler`), `get_image_request_by_id.dfy` (`LookupHandler`), `update_request_status.dfy` (`UpdateHandler`), `process_full_request.dfy` (`ProcessHandler`): the handlers.

Which parts take which form:

- The two read handlers are functions of the table's contents.
- The handlers that write are methods on a `Store`.
- `ProcessFullRequest` is specified by the pure function `Pipeline`. The method's postcondition is that its result, its final clock and the table it leaves are the ones `Pipeline` gives. The lemmas next to it state each path's end state.

Three things are inputs rather than behaviour:

- The expander's reply and the image generator's reply are each a `Call`: `Returned(value, took)` or `Threw(took)`.
- Which of the orchestrator's four database writes fail is a `Faults` record.
- Wall-clock time is the store's integer clock. It only moves forward, by the `took` of each remote call or through `Store.Advance`.

## Where the design description and the code differ

The model follows the code in each case.

- The design describes keyword-driven prompt expansion: style, lighting and colour picked by keywords, the input trimmed, empty or over-long input rejected. `expand_prompt.ts` is one fixed template around the idea and accepts every string. `Expander.ExpandPrompt` models the template.
- The design says `expanded_prompt` is non-empty once a request has left `pending`. When the expander throws, the code leaves the `""` it inserted: the failure write only sets `status` and `completed_at`. See `ProcessHandler.ExpansionFailurePath`.
- The design says storage faults propagate to the caller. The catch-all in `processFullRequest` swallows a failed write after the insert, so the request ends `failed`. See `ProcessHandler.StorageFaultsBecomeFailed`. Only a failed insert, or a failed failure write, reaches the caller.
- The design says status only moves forward. `updateRequestStatus` accepts any status from any status and keeps no invariant. See `UpdateHandler.UpdateCanBreakLifecycle`.

## Model

| member | source | states |
|---|---|---|
| `Schema.ParseStatus` | server/src/schema.ts:9 | the status enum accepts a string exactly when it is the name of one of the four statuses, and yields that status |
| `Schema.ParseStatusName` | server/src/schema.ts:26 | every status name is accepted as that same status (status names and the enum are inverse) |
| `Schema.ParseCreateImageRequestInput` | server/src/schema.ts:17-19 | the create input is accepted iff the idea has 1 to 500 characters; the idea is kept verbatim; too short gives "User idea cannot be empty", too long "User idea is too long" |
| `Schema.ParseUpdateImageRequestStatus` | server/src/schema.ts:24-30 | the update input is accepted iff its status is one of the four names; id and the absent/null/value state of each optional field are carried over unchanged |
| `DbSchema.EnumsAgree` | server/src/db/schema.ts:4 | the table's status enum admits exactly the names the record schema's enum admits |
| `DbSchema.ApplyDefaults` | server/src/db/schema.ts:6-14 | an insert stores the supplied idea and prompt; an omitted status becomes pending, an omitted creation time becomes now, omitted image and completion time are null |
| `DbSchema.ApplyPatch` | server/src/handlers/update_request_status.ts:27-31 | an UPDATE changes exactly the columns in its SET clause and never id, idea or creation time |
| `DbSchema.Store.Insert` | server/src/db/schema.ts:7-13 | the serial id handed out is fresh, positive and one more than the last; the new row is the defaults applied at the current clock; no other row changes |
| `DbSchema.Store.Update` | server/src/handlers/update_request_status.ts:27-35 | the row with the id becomes the patched row and is returned; no row matches an unknown id, which returns nothing and changes nothing |
| `Expander.ExpandPrompt` | server/src/handlers/expand_prompt.ts:8-10 | the prompt is the fixed prefix, the idea verbatim, then the fixed suffix: it contains the idea, is longer than it by a constant, and gives the idea back when the template is stripped |
| `Expander.ExpandPromptInjective` | server/src/handlers/expand_prompt.ts:9 | distinct ideas expand to distinct prompts |
| `CreateHandler.CreationPrompt` | server/src/handlers/create_image_request.ts:9 | the stored prompt contains the idea verbatim and the phrase "Create a detailed, high-quality artistic image", and stripping the template gives the idea back |
| `CreateHandler.CreateImageRequest` | server/src/handlers/create_image_request.ts:12-23 | a new pending row with null image and completion time, the idea verbatim, the template prompt, a fresh id and the creation time between the clock before and after; the table grows by that one row only |
| `ListHandler.SortByRecency` | server/src/handlers/get_image_requests.ts:11 | the ordering is a permutation of its input with non-increasing creation times |
| `ListHandler.GetImageRequests` | server/src/handlers/get_image_requests.ts:9-16 | the listing holds every stored row unmodified, nothing else, no id twice, most recent first |
| `ListHandler.ListEmpty` | server/src/handlers/get_image_requests.ts:9-16 | an empty table lists as the empty sequence |
| `LookupHandler.GetImageRequestById` | server/src/handlers/get_image_request_by_id.ts:9-31 | a stored id yields the stored row with all seven fields copied unchanged; a missing id yields null, not an error |
| `LookupHandler.LookupByIdColumn` | server/src/handlers/get_image_request_by_id.ts:9-18 | the lookup finds a row exactly when a stored row carries the id, and that row has the id; an id below 1 or not yet issued yields null |
| `LookupHandler.AtMostOneMatch` | server/src/db/schema.ts:7 | two stored rows with the same id are the same row |
| `UpdateHandler.Updated` | server/src/handlers/update_request_status.ts:9-24 | the status is always overwritten, from any status; each optional field takes the supplied value (null clears it) or keeps its old value when absent; id, idea and creation time never change |
| `UpdateHandler.UpdateIdempotent` | server/src/handlers/update_request_status.ts:9-24 | the same update applied twice leaves the row as it left it once |
| `UpdateHandler.UpdateCanBreakLifecycle` | server/src/handlers/update_request_status.ts:9-11 | a consistent pending row can be updated to completed with no image, because no transition is checked |
| `UpdateHandler.UpdateRequestStatus` | server/src/handlers/update_request_status.ts:6-37 | a known id: that row becomes the updated row, which is returned, and every other row is untouched; an unknown id: a not-found error and nothing changes |
| `ProcessHandler.ProcessFullRequest` | server/src/handlers/process_full_request.ts:8-73 | result, final clock and table are those of `Pipeline`: one new row under the next serial id exactly when the insert succeeds, and no other row changes |
| `ProcessHandler.CompletedPath` | server/src/handlers/process_full_request.ts:26-51 | both steps succeed: completed, with the expander's prompt, the generator's URL, created at start and completed when the generator returns |
| `ProcessHandler.GenerationFailurePath` | server/src/handlers/process_full_request.ts:29-67 | the generator throws: failed, null image, completion time set, expanded prompt as written by the processing step |
| `ProcessHandler.ExpansionFailurePath` | server/src/handlers/process_full_request.ts:13-67 | the expander throws: straight from pending to failed, completion time set, expanded prompt still "" |
| `ProcessHandler.TerminalOnceInserted` | server/src/handlers/process_full_request.ts:22-67 | after a successful insert, and if the failure write succeeds, the call returns a terminal, completed-at-stamped row (the stored one) and does not throw |
| `ProcessHandler.InsertFailureRethrows` | server/src/handlers/process_full_request.ts:57-71 | a failed insert is re-thrown, with no row created and no step run |
| `ProcessHandler.StorageFaultsBecomeFailed` | server/src/handlers/process_full_request.ts:29-67 | a failed processing or completed write is caught and the row ends failed with no image |
| `ProcessHandler.FailureWritesOnlyStatusAndTime` | server/src/handlers/process_full_request.ts:58-62 | a failed row keeps id, idea and creation time, has no image, and keeps whatever prompt was stored when the error struck |
| `ProcessHandler.FailedWriteLeavesRequestInProgress` | server/src/handlers/process_full_request.ts:57-67 | when the failure write itself fails, the error escapes and the row stays pending or processing with no completion time |
| `ProcessHandler.CreatedNotAfterCompleted` | server/src/handlers/process_full_request.ts:40-62 | any returned row has a completion time, no earlier than its creation time, equal to the clock at the end |
| `ProcessHandler.RunKeepsLifecycle` | server/src/handlers/process_full_request.ts:12-67 | every row a run leaves satisfies the lifecycle invariant and carries the issued id; a returned row is the stored row |
| `ProcessHandler.TwoSequentialRequests` | server/src/handlers/process_full_request.ts:13-23 | two runs in a row add two rows under distinct fresh ids and leave older rows as they were |

## Left out

- Transport: the tRPC router, HTTP server, CORS and port configuration in `server/src/index.ts`.
- Client: the React client (`client/src/…`), its polling and `getStatusCounts`. These are display code.
- Logging: `console.error` in the catch blocks. It has no effect on state or results.
- Image generator: `generate_image.ts` is a placeholder whose URL depends on `Date.now()`, so it is an input (`Call<GeneratedImageResponse>`). The prompt checks its tests expect (empty prompt, 2000-character limit, URL format) are not in its code.
- Expander keyword rules: the heuristics, trimming and rejection asserted in `server/src/tests/expand_prompt.test.ts` are not in `expand_prompt.ts`.
- Storage faults outside the orchestrator: `createImageRequest`, `getImageRequests`, `getImageRequestById` and `updateRequestStatus` re-throw a database error unchanged, after a statement that took no effect. They are modelled as statements that succeed.
- Thrown error values from the expander and generator: a `Threw` carries no payload, because the caught error is only logged.
- Concurrency: two calls interleaving on one id, and other async/Promise mechanics. Each handler runs to completion before the next starts.
- Time and numbers: timestamps are integers on an abstract clock, with no date parsing or `z.coerce.date()` coercion. Ids are mathematical integers, so JavaScript's fractional numbers and NaN are not modelled.
- DbSchema.Store.Insert: does not model running out of values for Postgres `serial`, which is a 32-bit integer column; ids grow without bound.
- ProcessHandler.ProcessFullRequest: a failed insert leaves the serial sequence where it was. Postgres may consume a value even when the insert fails, which leaves a gap in the ids.
- ListHandler.GetImageRequests: among rows with equal creation times, the model lists them in ascending id order. The source's ORDER BY leaves that order unspecified.
- Schema.ParseCreateImageRequestInput: counts Dafny characters. JavaScript string length counts UTF-16 code units.
- Schema.ParseUpdateImageRequestStatus: the rejection message is a fixed placeholder text, not zod's exact message.
