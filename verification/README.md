# form-store: form versioning and dynamic submissions, in Dafny

A model of the form-versioning and dynamic-submission core of form-store, an Express/TypeORM service. In this service an administrator creates a form, publishes numbered schema versions for it, and users submit answers. Each submission is checked against the schema of the version it names.

The model is written as pure functions over an immutable in-memory store (`FormStore.Store`), which holds forms, versions and submissions as sequences in insertion order. Each writing service operation (`createForm`, `addVersion`, `submitResponse`) is one atomic transition that returns `Ok(Inserted(newStore, row))` or `Err(error)`. An error carries no store, so a failed write leaves the store as it was. The reading operations (`getLatestVersion`, `getSubmissions`) take the store and return only the version or the list. The modules follow the source files:

- `Wrappers`, `Errors` (wrappers.dfy): `Option`, `Result`, the repository lookup `Find`, and the HTTP errors (`NotFound`, `Conflict`, `BadRequest`, and `InvalidRequest` for a request that fails its shape rules).
- `JsonValues` (json.dfy): JSON values as they arrive in request bodies.
- `FormTypes` (form_types.dfy): `FieldType`, `FormField`, `FormSchema` and `Answers`, from src/types/form.types.ts.
- `RequestSchema` (request_schema.dfy): the zod request rules of src/validation-schema/form.schema.ts, written as parsers from raw JSON to typed values.
- `FormStore` (store.dfy): the three tables and the store invariant `Valid`. Among other things, `Valid` covers unique slugs, the unique `(form, version)` index, and version numbers that rise strictly per form.
- `FormService` (form_service.dfy): `createForm`, `addVersion` and `getLatestVersion`.
- `DynamicValidation` (dynamic_validation.dfy): the `validateDynamicSchema` middleware.
- `SubmissionService` (submission_service.dfy): `submitResponse` and `getSubmissions`.
- `FormRoutes` (routes.dfy): the route pipelines. A submission runs the shape check, then the answer validator, then `submitResponse`. Publishing a version runs the shape check, then `addVersion`. This module also proves that every store reachable from the empty store is valid.

Row ids are naturals taken from a counter in the store. They stand in for generated UUIDs. The UUID format test on route parameters is a predicate `isUuid` that the caller supplies. Submission timestamps are supplied as naturals.

Where the code and the intended design of the system differ, the code is modelled:
- `submitResponse` writes no audit record and enqueues no notification. It also takes no submitter email, although the submit controller passes one (src/controllers/submissions.controller.ts:21 against src/services/submission.service.ts:17).
- Answers may be any JSON record: objects, arrays and null values included, not only strings, numbers and booleans.
- Field keys need not be distinct within a schema. Each copy of a repeated key is validated separately.
- A missing form id in `getSubmissions` gives an empty list, not an error.

## Model

| member | source | states |
|---|---|---|
| RequestSchema.ParseFieldType | src/validation-schema/form.schema.ts:3 | the type enum accepts exactly "text", "number", "email", "select" and "checkbox", and an accepted name is the wire name of the tag it yields |
| RequestSchema.FieldTypeRoundTrip | src/types/form.types.ts:1 | the wire name of every field-type tag parses back to that tag |
| RequestSchema.MatchesSlugPattern | src/validation-schema/form.schema.ts:16-19 | the slug pattern accepts a string exactly when it is non-empty and each character is a lower-case ASCII letter, a digit or a hyphen |
| RequestSchema.ParseStrings | src/validation-schema/form.schema.ts:10 | an options list is accepted exactly when every item is a string, and the accepted strings are the items in order |
| RequestSchema.ParseField | src/validation-schema/form.schema.ts:5-11 | a field is accepted exactly when it is an object whose key and label are non-empty strings, whose type is one of the five names, whose `required` is a boolean, and whose `options`, if present, is an array of strings; every accepted field has a non-empty key and label |
| RequestSchema.UndeclaredMemberIgnored | src/validation-schema/form.schema.ts:5-11 | adding or changing a member under any name other than the five declared ones does not change whether or how a field is accepted |
| RequestSchema.FieldRoundTrip | src/validation-schema/form.schema.ts:5-11 | a field written as JSON is read back unchanged (type, required flag and options included) exactly when its key and label are non-empty |
| RequestSchema.ParseFieldKeepsDeclaredMembers | src/validation-schema/form.schema.ts:5-11 | an accepted field is exactly the request's members under the five declared names: nothing is added, altered or dropped, and other members are ignored |
| RequestSchema.ParseFields | src/validation-schema/form.schema.ts:30 | a field list is accepted exactly when every item is an accepted field, and the parsed fields keep the list's order and length |
| RequestSchema.ParseSchema | src/validation-schema/form.schema.ts:28-31 | a version schema is accepted exactly when its `fields` member is an array of at least one item and every item is an accepted field; the result is then those parsed fields in order, so it has at least one field and every key and label is non-empty |
| RequestSchema.RepeatedKeysAccepted | src/validation-schema/form.schema.ts:28-31 | a schema with two fields that share a key is accepted, and both fields are kept |
| RequestSchema.ParseCreateFormBody | src/validation-schema/form.schema.ts:13-22 | a create-form body is accepted exactly when it is an object with a non-empty string title, a string slug that passes the slug rule, and a description that is absent or a string; the accepted title, slug and description are the body's own strings, and the description is kept exactly when it was sent |
| RequestSchema.TitleAndSlugAccepted | src/validation-schema/form.schema.ts:13-22 | a body with only a non-empty title and a valid slug is accepted as sent, with no description |
| RequestSchema.ParseAddVersionRequest | src/validation-schema/form.schema.ts:24-33 | a publish request is accepted exactly when the form id is a UUID and `body.schema` is present and an accepted schema, which is then what gets published |
| RequestSchema.ParseSubmitRequest | src/validation-schema/form.schema.ts:35-42 | a submit request is accepted exactly when the version id is a UUID and `answers` is a JSON object, whose members are passed on unchanged |
| FormStore.FormVersionIndexUnique | src/models/form-version.model.ts:8 | in a valid store, no two versions of one form share a version number |
| FormService.CreateForm | src/services/form.service.ts:17-26 | a slug already in use gives Conflict; otherwise exactly one form with the given title, slug and description is appended, and versions and submissions are untouched |
| FormService.CreateFormPreservesValid | src/services/form.service.ts:18-25 | creating a form keeps slugs and ids unique and keeps the store valid |
| FormService.MaxVersion | src/services/form.service.ts:36-42 | the result is at least every version number of the form, and it is either 0 or the number of one of the form's versions |
| FormService.AddVersion | src/services/form.service.ts:28-53 | an unknown form gives NotFound. Otherwise one version is appended with the given schema. Its number is above every earlier number of the form and is one past the form's highest number, or 1 when the form has no versions. Forms and submissions are untouched |
| FormService.AddVersionPreservesValid | src/services/form.service.ts:36-50 | publishing keeps the `(form, version)` index unique, version numbers rising per form, and the store valid |
| FormService.VersionNumbersMembers | src/services/form.service.ts:38-39 | a number is in a form's version-number list exactly when some version of that form has that number |
| FormService.ContinueNumbering | src/services/form.service.ts:36-50 | if a form's versions are numbered 1..k, then N more publishes succeed and number them 1..k+N, in order |
| FormService.SuccessiveVersionsNumberedFromOne | src/services/form.service.ts:36-50 | N successive publishes on an existing form with no versions give version numbers 1..N, in order |
| FormService.Highest | src/services/form.service.ts:56-61 | the chosen version belongs to one of the given forms and has the highest number among them; there is none exactly when those forms have no versions |
| FormService.GetLatestVersion | src/services/form.service.ts:55-66 | gives the highest-numbered version of the form with the given slug; NotFound exactly when no form has that slug or that form has no versions |
| FormService.LatestIsJustPublished | src/services/form.service.ts:28-63 | in a valid store, right after a publish, the latest version for that form's slug is the version just published |
| DynamicValidation.MessageKindsDiffer | src/middleware/dynamic-validation.middleware.ts:22-27 | a "is required" message never equals a "must be a number" message, whatever the labels |
| DynamicValidation.FieldMessages | src/middleware/dynamic-validation.middleware.ts:18-30 | one field draws at most two messages |
| DynamicValidation.Messages | src/middleware/dynamic-validation.middleware.ts:16-30 | the loop collects at most twice as many messages as there are fields, and each one is a required or number message for the label of some schema field |
| DynamicValidation.NoMessagesIffConforming | src/middleware/dynamic-validation.middleware.ts:18-36 | no message is collected exactly when every required field has an answer that is not undefined, null or "", and every number field's defined, non-null answer is a JSON number |
| DynamicValidation.MessagesOfConcat | src/middleware/dynamic-validation.middleware.ts:18-30 | messages follow schema order: the messages for a concatenation of field lists are the first list's messages followed by the second's |
| DynamicValidation.OnlyFieldKeysMatter | src/middleware/dynamic-validation.middleware.ts:18-19 | two answer maps that agree on every field key draw the same messages |
| DynamicValidation.UnknownKeyIgnored | src/middleware/dynamic-validation.middleware.ts:18-19 | adding an answer under a key that names no field changes no message |
| DynamicValidation.RequiredAndBlank | src/middleware/dynamic-validation.middleware.ts:21-29 | a required field whose answer is missing or null, or a required non-number field answered with the empty string, draws exactly one message, `Field '<label>' is required` |
| DynamicValidation.NotANumber | src/middleware/dynamic-validation.middleware.ts:21-28 | a number field whose answer is defined, not null, not "" and not a number (numeric strings such as "25" included) draws exactly one message, the "must be a number" one, and no required message |
| DynamicValidation.EmptyStringToNumberField | src/middleware/dynamic-validation.middleware.ts:21-28 | "" to a required number field draws both messages, "is required" first; "" to an optional number field draws only "must be a number" |
| DynamicValidation.OnlyNumberFieldsTypeChecked | src/middleware/dynamic-validation.middleware.ts:25-29 | a text, email, select or checkbox field never draws the "must be a number" message; at most it draws the required message |
| DynamicValidation.ValidateDynamicSchema | src/middleware/dynamic-validation.middleware.ts:6-37 | an unknown version gives NotFound, whatever the answers. The request passes exactly when the version exists and every field's answer conforms. Otherwise the rejection is BadRequest with `Validation Failed: ` and the non-empty message list joined with ", " (the join is `DynamicValidation.Join`) |
| DynamicValidation.RequiredNumberGivenEmptyString | src/middleware/dynamic-validation.middleware.ts:21-33 | a required number field "Age" answered with "" is rejected with one message holding the required message, then ", ", then the number message |
| SubmissionService.SubmitResponse | src/services/submission.service.ts:17-28 | an unknown version gives NotFound. Otherwise exactly one submission is appended, referencing that version and carrying the answers unchanged, whatever those answers are. Forms and versions are untouched |
| SubmissionService.SubmitResponsePreservesValid | src/services/submission.service.ts:22-27 | recording a submission keeps the store valid and gives the new row an id no earlier submission has |
| SubmissionService.Filter | src/services/submission.service.ts:31-37 | each submission whose version is in the given set is kept as often as it occurs; all others are dropped |
| SubmissionService.PrependNewest | src/services/submission.service.ts:38 | putting a submission no older than the head in front of a newest-first list keeps the list newest first |
| SubmissionService.Insert | src/services/submission.service.ts:38 | inserting into a newest-first list keeps it newest first and adds exactly that one submission |
| SubmissionService.SortNewestFirst | src/services/submission.service.ts:38 | the result is ordered by creation time, newest first, and is a permutation of the input |
| SubmissionService.GetSubmissions | src/services/submission.service.ts:30-46 | never fails; lists exactly the submissions whose version belongs to the form, each as often as it is stored, newest first |
| SubmissionService.UnknownFormListsNothing | src/services/submission.service.ts:41-45 | in a valid store, a form id that names no form lists nothing, rather than raising an error |
| SubmissionService.SubmissionListedUnderItsForm | src/services/submission.service.ts:22-38 | a recorded submission is listed under the form of its version, with the answers exactly as submitted |
| FormRoutes.CreateFormRoute | src/routes/form.route.ts:19-25 | a body that fails the shape rules is refused before `createForm` runs. A shape-valid body is refused with Conflict exactly when a stored form already has its slug. A created form has a non-empty title and a valid slug, carries the body's title, slug and description, and is the only row appended |
| FormRoutes.PublishVersionRoute | src/routes/form.route.ts:27-33 | a request that fails the shape rules is refused before `addVersion` runs. A shape-valid request succeeds exactly when the form exists, and is otherwise NotFound. A published version belongs to the UUID-checked form and carries the parsed schema (non-empty, every key and label non-empty). It is numbered 1 when the form had no versions, and otherwise one past an existing number and above every earlier number of the form. It is the only row appended, and the forms and submissions are unchanged |
| FormRoutes.GetFormRoute | src/routes/form.route.ts:44 | an empty slug is refused by the shape rule (`RequestSchema.GetFormRequestOk`). For a non-empty slug the result is NotFound exactly when no stored version belongs to a form with that slug; otherwise it is such a version, with the highest number among them |
| FormRoutes.ListSubmissionsRoute | src/routes/form.route.ts:35-41 | succeeds exactly when the form id is a UUID (`RequestSchema.GetSubmissionsRequestOk`); the list is then newest first and holds exactly the stored submissions to versions of that form, each as often as stored |
| FormRoutes.SubmitRoute | src/routes/form.route.ts:46-52 | a shape failure is refused first, and an unknown version gives NotFound. For a shape-valid request to a known version, the submission is recorded exactly when the answers conform to that version's schema, and otherwise the result is BadRequest with `Validation Failed: ` and the joined messages. A recorded submission references the requested version, is stamped with the request time, carries the request's answers unchanged and is the only row appended; the forms and versions are unchanged |
| FormRoutes.HandlePreservesValid | src/routes/form.route.ts:19-52 | every write request keeps the store valid, whether it succeeds or fails |
| FormRoutes.RunPreservesValid | src/routes/form.route.ts:19-52 | a sequence of write requests keeps a valid store valid |
| FormRoutes.ReachableStoresValid | src/models/form-version.model.ts:8 | every store reachable from the empty store keeps slugs unique, the `(form, version)` index unique and each form's version numbers rising |
| FormRoutes.OlderVersionStillJudgedByItsOwnSchema | src/middleware/dynamic-validation.middleware.ts:10-15 | publishing a new version leaves unchanged how answers to any existing version are judged |
| FormRoutes.SundayServiceScenario | src/routes/form.route.ts:19-52 | creating "sunday-service", publishing one required text field, then submitting {"full_name": "Dex"}: the version is numbered 1, and the submission is recorded against it with the answers as sent |

## Left out

- FormService.CreateForm: in the source the slug lookup and the save are two separate steps with no lock or transaction (src/services/form.service.ts:18-25). Two concurrent creations with the same slug can both pass the lookup, and the second then hits the unique `slug` column (src/models/form.model.ts:7), which surfaces as a database error (HTTP 500), not Conflict. The model makes `createForm` atomic, so it always answers Conflict.
- FormService.AddVersion: `version` is a 32-bit integer column (src/models/form-version.model.ts:10-11). The model numbers versions with unbounded naturals, so it does not model the insert failing past 2147483647 versions of one form.
- Concurrency: the `pessimistic_write` row lock, the transaction and lock timeouts of `addVersion` (src/services/form.service.ts:29-33) are not modelled. `addVersion` is one atomic transition, which is the effect the lock exists to give.
- The audit log (src/models/audit-log.model.ts) and the email queue and worker (src/queues/email.queue.ts) are not modelled. No code in the core writes the one or enqueues onto the other.
- Authentication and role checks (`authMiddleware`, `checkRole`), the controllers, the response wrapper and HTTP status codes are not modelled. They are plumbing around the core.
- The text of shape-rule failures (zod's joined messages behind "Validation Error: ...") is not modelled. `InvalidRequest` carries no text.
- UUIDs: ids are naturals from a counter. The UUID format check is the caller-supplied predicate `isUuid`, because it is library behaviour.
- Time: `createdAt` of a submission is supplied. `publishedAt`, `updatedAt` and form timestamps are not modelled.
- SubmissionService.GetSubmissions: when two submissions have the same `createdAt`, the database may return them in either order. The model fixes one order, so its contract states only newest-first ordering and the exact contents.
- DynamicValidation.ValidateDynamicSchema: the answer lookup `answers[field.key]` also reaches JavaScript prototype properties. For example, a field keyed `constructor` finds a function even when no answer was sent. The model treats answers as a plain map, where such a key is absent.
- JSON numbers are exact reals, with no NaN or infinities. Only "is it a number" matters to the core.
- The source stores the raw `schema` object, extra members included. The model stores the parsed typed schema, since the validator never reads extra members.
- File upload (src/middleware/uploadfile.ts), API documentation, the auth request schemas and the user model are outside this core.
