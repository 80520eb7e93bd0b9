# RHoMIS authenticator: a Dafny model of its store and route decisions

The RHoMIS authenticator is an Express service. It keeps three MongoDB
collections: users, projects and forms. Around them it runs:

- the `auth` token middleware;
- the role grants of `routes/auth.js`;
- the administrator synchronisation of `routes/makeAdmin.js`;
- the form lifecycle of `routes/forms.js` (`/new`, `/new-draft`, `/publish`);
- the metadata listing of `routes/metaData.js`.

This project models that core as pure functions over an immutable `Store`.

- Each collection is a `seq` in document order. `findOne` and `updateOne`
  act on the first matching document; `updateMany` acts on every match.
- `$addToSet` appends only values not already present (`Lists.AddToSet`,
  `Lists.AddAllToSet`), `$push` appends, and `$set` replaces.
- A route handler maps a store and a request to a `Step`: a reply plus the
  new store. A reply is one of:
  - `Sent(status, body)`;
  - `Raised(error)`, the error passed to Express's `next`;
  - `Crashed(reason)`, a rejection that escapes the handler, so nothing is sent.
- The forms gateway (ODK Central), bcrypt, JWT signing and verification, the
  clock and the database's fresh ids are parameters of the functions that
  use them.

Files:

| file | module | contents |
|---|---|---|
| lists.dfy | `Lists` | `Option`, array update operators, `distinct`, `join`, filtering, first match |
| jsnumbers.dfy | `JsNumbers` | JavaScript's `Number(...)` on version strings, `+ 1`, and `String(...)` |
| store.dfy | `Store`, `Http` | the documents, lookups, replies and errors, the error handler's status |
| tokens.dfy | `Tokens` | `validation/verifyToken.js` |
| auth.dfy | `AuthRoutes` | grants, register, login, delete of `routes/auth.js` |
| admin.dfy | `Admin` | `updateAdmins`, `initAdmin` and the grant-administrator route |
| forms.dfy | `FormRoutes` | `validateRequestQuery`, `/publish`, `/new-draft`, `/new` |
| metadata.dfy | `MetaData` | `BuildSubmissionURL`, `getSubmissionCounts`, `POST /` of the metadata router |

## Model

| member | source | states |
|---|---|---|
| Tokens.CheckToken | validation/verifyToken.js:33-82 | with a token present, the request is admitted exactly when the signature oracle accepts it and its `expiry` is not before now. A rejected signature is answered 401 with the verifier's message. An expired token is answered 401 "Token has expired". An admitted request carries the token's claims. |
| Tokens.Authenticate | validation/verifyToken.js:12-66 | the corrected middleware: admitted iff a non-empty token verifies and has not expired. A missing or empty header is answered 401 "Access Denied No token provided". Every refusal is a 401. |
| Tokens.AuthenticateAsWritten | validation/verifyToken.js:12-26 | as written, a request without a token raises a TypeError from reading `req.user._id` instead of sending the 401. With a token it agrees with the corrected middleware. |
| Tokens.NoTokenAnswered500 | validation/verifyToken.js:19-25 | without a token the written middleware ends in the error handler's 500, which differs from the corrected 401 |
| Tokens.AdmittedUntilExpiry | validation/verifyToken.js:35-50 | a verified token with expiry `t` is admitted iff `now <= t`, so the instant of expiry is still admitted |
| Tokens.NoExpiryNeverExpires | validation/verifyToken.js:35-50 | a verified token without a usable `expiry` claim is admitted at every time, because the comparison with an invalid date is false |
| Http.ErrorHandlerStatus | app.js:105-111 | an error carrying a status is answered with it; a runtime error without one gets 500 |
| AuthRoutes.GrantProjectManager | routes/auth.js:302-438 | guards in source order, each answered before any write: unknown email 400 "User does not exist"; project already managed 400; self-grant 400 "Please enter the email of another user". Otherwise the reply is 200 with the manager writes, so the grant succeeds iff all three guards pass. Every non-200 leaves the store unchanged. |
| AuthRoutes.ManagerWrites | routes/auth.js:368-430 | the first project of that name gains the target id once. Every form of the project gains it once; other forms are unchanged. The target's `projectManager` gains the project, and `dataCollector` and `analyst` gain that project's form names as set unions. `projects`, `forms` and all other accounts are untouched. |
| AuthRoutes.ProjectManagerGrantRepeatRefused | routes/auth.js:340-343 | with unique account ids, repeating a successful project-manager grant is refused as "already a project manager" without change |
| AuthRoutes.ProjectManagerGrantUncoversRoles | routes/auth.js:420-430 | a concrete grant after which a user manages a project that is not in its `projects` list: the grant keeps no "roles ⊆ visibility lists" invariant |
| AuthRoutes.GrantFormRole | routes/auth.js:440-684 | the data-collector and analyst grants. Guards in source order: unknown email 400; role already held 400 with the role's own message; self-grant 400; a missing form 400 with the caught error. Otherwise 200 with the form-role writes, so the grant succeeds iff all four guards pass. A failed guard changes nothing. |
| AuthRoutes.FormRoleWrites | routes/auth.js:509-536 | the form's owning project gains the target id once and the form gains it once; no other form changes. Only the granted role's list gains the form name. |
| AuthRoutes.FormRoleGrantKeepsOtherRole | routes/auth.js:528-536 | a data-collector grant leaves every analyst list unchanged, and an analyst grant every data-collector list |
| AuthRoutes.FormRoleGrantRepeatRefused | routes/auth.js:476-481 | with unique ids, repeating a successful form-role grant is refused as "already" holding the role |
| AuthRoutes.Register | routes/auth.js:127-230 | a validation error gives 400 with its message, and a duplicate email gives 400 "Email already exists"; neither writes. Otherwise 201 with the new id, and exactly one account is appended. That account is basic, not researcher, not administrator, with empty role, project and form lists and a single "user created" log entry. |
| AuthRoutes.RegisterTwiceRefused | routes/auth.js:146-159 | registration with an unused id keeps ids unique, and the same email registering again is refused |
| AuthRoutes.Login | routes/auth.js:234-292 | a validation error gives 400, an unknown email 400 "Email not found" and a wrong password 400 "Incorrect password". Otherwise a token for the account's id and email, expiring one hour after issue. |
| AuthRoutes.RegisterThenLogin | routes/auth.js:185-285 | a freshly registered account logs in with its own password and gets a token for its new id |
| AuthRoutes.LoginTokenLifetime | routes/auth.js:280-285 | a login token is admitted by `auth` exactly until one hour after issue, the last instant included |
| AuthRoutes.DeleteAccount | routes/auth.js:688-714 | the corrected delete: a caller missing from the store gets 400 "User does not exist in local db, cannot delete". Otherwise the caller's account is removed, returned with 200, and no project or form is touched. |
| AuthRoutes.DeleteAccountAsWritten | routes/auth.js:700-707 | as written, a caller missing from the store gets no reply at all; otherwise it behaves like the corrected delete |
| AuthRoutes.DeleteMissingCallerUnanswered | routes/auth.js:700-702 | for a missing caller the written handler sends nothing, while the corrected one sends the 400 |
| AuthRoutes.DeleteRemovesExactlyCaller | routes/auth.js:704-707 | with unique ids, delete leaves no account with the caller's id. The remaining accounts are the old ones minus exactly one (as multisets), and projects and forms keep the id. |
| AuthRoutes.RemoveAt | routes/auth.js:706 | removal keeps the order of the other documents and drops exactly one |
| Admin.AdminIdList | routes/makeAdmin.js:154-155 | the id list `updateAdmins` reads holds exactly the administrators' ids |
| Admin.SyncUsers | routes/makeAdmin.js:127-149 | the administrator `updateMany` rewrites each account alone. Administrators' ids are unaffected. |
| Admin.SyncAdmins | routes/makeAdmin.js:124-149 | every administrator's `projects` and `projectManager` become the distinct project names, and `forms`, `dataCollector` and `analyst` the distinct form names. Each administrator gets one "Admin updated" log entry. Non-administrators are unchanged. Projects and forms are untouched. |
| Admin.AddToAllProjects | routes/makeAdmin.js:159-164 | every project's `users` becomes its old users plus the given ids; old entries keep their places and none is removed |
| Admin.AddToAllForms | routes/makeAdmin.js:164-169 | every form's `users` becomes its old users plus the given ids; none is removed |
| Admin.UpdateAdmins | routes/makeAdmin.js:108-178 | `updateAdmins` as a whole: the administrator set is unchanged, administrators are synchronised as above, non-administrators are unchanged, and every project's and form's `users` gains exactly the administrator ids |
| Admin.AllProjectNamesDistinct | routes/makeAdmin.js:124 | `distinct("name")` of projects yields every project name and nothing else |
| Admin.AllFormNamesDistinct | routes/makeAdmin.js:125 | `distinct("name")` of forms yields every form name and nothing else |
| Admin.UpdateAdminsSettles | routes/makeAdmin.js:159-169 | after one `updateAdmins` the membership writes of a second are no-ops |
| Admin.UpdateAdminsIdempotentButForLog | routes/makeAdmin.js:127-169 | a second `updateAdmins` with nothing in between changes no project, no form and no account field except the log. Each administrator's log grows by exactly one entry and others' not at all. |
| Admin.UpsertAdminAccount | routes/makeAdmin.js:50-85 | the upsert keeps every existing account in place and adds one with the fresh id exactly when no account has the email. The account then carries the configured hash, basic, researcher and administrator flags, all names and the initialisation log entry. An existing account keeps its id, title and names, and its log gains the entry as by `$addToSet`. A new account's log is the entry alone. Every other account is unchanged at its index. |
| Admin.InitAdminAccount | routes/makeAdmin.js:38-101 | `initAdmin`'s own writes: the administrator account exists and is initialised, and its id is added to every project and form |
| Admin.InitAdminAccountKeepsOthers | routes/makeAdmin.js:50-85 | `initAdmin`'s own writes leave every account without the administrator email unchanged |
| Admin.InitAdminAccountCount | routes/makeAdmin.js:50-75 | `initAdmin` adds an account exactly when none has the administrator email |
| Admin.InitAdmin | routes/makeAdmin.js:22-106 | after `initAdmin` and the `updateAdmins` it starts: the account with the email exists, is an initialised administrator, sees every project and form name, and is a member of every project and form. The number of accounts grows by one only when it was missing. |
| Admin.Promote | routes/makeAdmin.js:205 | the target alone gains `administrator`; the administrator set grows by exactly the target's id |
| Admin.MakeAdmin | routes/makeAdmin.js:204-206 | the writes of a granted request: the administrator set grows by exactly the target. The target and every earlier administrator see every project and form. Every other account is unchanged, and the grown administrator set is added to every project and form. |
| Admin.GrantAdmin | routes/makeAdmin.js:180-226 | an unknown target gives 400, checked before the caller. A caller missing from the store makes the handler crash without a reply. A non-administrator caller gets 400 "Unauthorised" with no change. An administrator caller gets 200 "Success". The target becomes an administrator. It and every earlier administrator see every project and form. Every other account is unchanged. The earlier administrators and the target are added to every project and form. |
| FormRoutes.MissingKeys | routes/forms.js:814-818 | the missing keys are exactly the required keys absent from the query |
| FormRoutes.ValidateRequestQuery | routes/forms.js:812-825 | an error is raised iff some required key is absent. It is an HttpError with status 400 whose message lists the missing keys, in the order required, joined by commas. |
| FormRoutes.PublishQueryMissingBoth | routes/forms.js:819-822 | with both keys missing the message is "Request query must include the following: project_name,form_name" |
| FormRoutes.PublishQueryMissingOne | routes/forms.js:819-822 | with one key missing the message names only that key |
| FormRoutes.Publish | routes/forms.js:32-67 | the route as written: `/publish` awaits the query check, so a missing key raises a 400 before any lookup or write. Otherwise the written handler follows, with its draft check over every project. |
| FormRoutes.PublishCorrected | routes/forms.js:32-67 | the corrected route: the same query check, then the corrected publish, whose draft check looks only in the named project |
| FormRoutes.DraftNamed | routes/forms.js:66-67 | the draft lookup as written: the first draft form with that name in any project, and none iff there is none |
| FormRoutes.DraftIn | routes/forms.js:66-67 | the corrected draft lookup: the first draft form with that name in the named project, and none iff there is none. Line 66 itself has no project filter. |
| FormRoutes.PublishForm | routes/forms.js:42-169 | the corrected publish. A missing project raises 400 "Project does not exist in RHoMIS db". A missing draft in the project raises 400 "Form does not exist in RHoMIS db". A gateway failure is rethrown. All three leave the store unchanged. Otherwise 200 "Form finalized": that form alone goes live, its live version is its old draft version, and its draft version becomes null. Users and projects never change. |
| FormRoutes.PublishFormAsWritten | routes/forms.js:62-166 | as written, the draft check looks at any project. A failed gateway publish is rethrown with no write. Otherwise the reply is 200 "Form finalized". If the requested project has a form of that name, that form goes live at the draft version of the draft found, and nothing else changes. If it has none, nothing is written. |
| FormRoutes.AsWrittenAgreesOnOwnDraft | routes/forms.js:66-150 | when the first draft with that name is the project's own form, the written and corrected publish agree |
| FormRoutes.PublishCrossesProjects | routes/forms.js:66-150 | a concrete store where the written publish answers 200 and sets another project's draft version on a form that has no draft, while the corrected one refuses with 400 |
| FormRoutes.PublishTwiceRefused | routes/forms.js:66-67 | for the corrected publish, with unique (name, project) keys: publishing a form that just went live is refused |
| FormRoutes.AsWrittenAgreesWithoutForeignDrafts | routes/forms.js:66-150 | with unique (name, project) keys and no draft of that name in another project, the written publish answers and writes exactly as the corrected one |
| FormRoutes.PublishAsWrittenTwiceRefused | routes/forms.js:66-67 | as written, with unique keys and no draft of that name in another project: publishing a form that just went live is refused |
| FormRoutes.PublishAsWrittenRepeats | routes/forms.js:66-150 | as written, on the cross-project store a second publish of B's "survey" is again answered 200 and again sets A's draft version |
| FormRoutes.NextVersionIncrements | routes/forms.js:272-276 | without `form_version`, the new draft version is one more than `draftVersion ?? liveVersion` read as a number |
| FormRoutes.NextVersionExamples | routes/forms.js:272-276 | draft "3" gives "4"; no draft with live "2" gives "3"; neither gives "1"; an explicit "7" is kept |
| FormRoutes.Redrafted | routes/forms.js:360-385 | the draft `$set` leaves the form as it was exactly when it is already a draft at that version and with that draft payload |
| FormRoutes.Modified | routes/forms.js:387 | `nModified` is 1 exactly when the update changes the matched document |
| FormRoutes.DraftTarget | routes/forms.js:201-264 | `/new-draft` has a form to rewrite iff the project exists, the caller is a member of it and the project has a form with that name |
| FormRoutes.NewDraft | routes/forms.js:178-426 | guards in source order, each before any write: no project 400 "Could not find project"; a non-member 401; no such form 400 "Cannot find form to update". A failed upload and a failed draft-details request are rethrown. 200 iff all guards pass, both gateway calls succeed and the update modifies the form; an unmodified form is answered 500 "Form is sent to ODK Central, but could not update formVersion in RHoMIS database". The store changes only with a 200. |
| FormRoutes.UploadDraft | routes/forms.js:307-406 | the gateway part of `/new-draft` for the form found: a failed upload or details request is rethrown with no write. An update that would modify nothing is answered 500. Otherwise 200 "Form successfully updated", and exactly the target form is rewritten to the new draft. |
| FormRoutes.NewDraftUploads | routes/forms.js:360-408 | a successful `/new-draft` sets the target form's draft flag, version and draft payload. Its live flag, live version and all other fields are kept, every other form is unchanged, and users and projects are unchanged. |
| FormRoutes.UnchangedDraftAnswered500 | routes/forms.js:387-406 | re-uploading the draft a form already holds, at its version, is answered 500 and changes nothing |
| FormRoutes.NewDraftThenPublish | routes/forms.js:272-408 | with the corrected publish: a new draft that is then published goes live at the version `/new-draft` chose |
| FormRoutes.NewDraftThenPublishAsWritten | routes/forms.js:66-150 | the same with the written publish, when no other project holds a draft of that name. Otherwise another project's draft version may be the one that goes live. |
| FormRoutes.FirstFailure | routes/forms.js:524-640 | a failed gateway request of `/new` is reported with the message of the first failure, in the order upload, app user, role assignment, draft details |
| FormRoutes.CreateForm | routes/forms.js:645-725 | `/new`'s own writes: the form is appended, its name pushed onto the project's `forms`, and pushed onto the caller's `forms`, `dataCollector` and `analyst`. Nothing else changes and the administrator set is kept. |
| FormRoutes.NewForm | routes/forms.js:435-764 | guards in source order: no project 400 "Could not find project with this name"; a non-member 401; an existing form 400 "There is already a form with this name in the database". A failed gateway request is rethrown. 200 "Form successfully created" iff every guard passes and every request succeeds. The store changes only with a 200. |
| FormRoutes.NewFormCreatesDraft | routes/forms.js:671-727 | after `/new` exactly one form is appended. It is a draft, not live and not complete, at the requested version (1 by default), and its users are the caller and the administrators. Every older form only gains the administrators. |
| FormRoutes.NewFormPushesName | routes/forms.js:645-648 | the project's `forms` grows by exactly the pushed name (a push, not a set union); projects otherwise only gain administrators |
| FormRoutes.NewFormCallerLists | routes/forms.js:651-660 | a non-administrator caller's lists get the form name pushed. An administrator caller ends up seeing every name, the new one included. Every other non-administrator is unchanged. |
| FormRoutes.NewFormKeepsAccess | routes/forms.js:454-509 | after `/new` the caller is still a member of the project, and the form is found under its name and project |
| FormRoutes.NewFormTwiceRefused | routes/forms.js:489-509 | asking `/new` again for the same name in the same project is refused with 400 and changes nothing |
| MetaData.BuildSubmissionURL | routes/metaData.js:165-173 | the live URL is the gateway address, "/v1/projects/", the project's gateway id, "/forms/", the form's gateway id and "/submissions". The draft URL puts "/draft" before "/submissions". The two differ. |
| MetaData.SubmissionURLIdentifiesForm | routes/metaData.js:168-169 | within one project, equal live URLs or equal draft URLs mean the same gateway form id |
| MetaData.GetSubmissionCounts | routes/metaData.js:99-163 | a missing project or form raises the null-dereference TypeError. Otherwise counting succeeds iff each needed fetch succeeds. `draft` is a count only for a draft form and `live` only for a live form; both are otherwise null. A failed draft fetch is rethrown; otherwise a failed live fetch is rethrown. |
| MetaData.GetSubmissionCountsLocal | routes/metaData.js:104-160 | the counts depend on the gateway only through the form's two listing URLs |
| MetaData.AttachCountsFirstFailure | routes/metaData.js:41-58 | the forms are awaited in order, so a failed loop reports the error of the first form of the project whose counts fail |
| MetaData.AttachCounts | routes/metaData.js:41-58 | the counting loop succeeds iff every form of the requested project can be counted. Forms keep their order; forms of that project carry their counts and every other form carries none. |
| MetaData.ListMetaData | routes/metaData.js:24-96 | the listed projects and forms are exactly those whose `users` hold the caller. Counts appear only when the flag is `true` and a project name is given, and only on that project's forms, all of which get them. The caller's own lists are present iff the account exists. When counting is asked for, the route refuses exactly when the counting loop over the caller's forms fails, with that loop's error, and otherwise lists that loop's entries, each with the counts `getSubmissionCounts` gives. Without counting, the caller's forms are listed in store order with no counts. |
| JsNumbers.NatToStringRoundTrip | routes/forms.js:272-276 | `Number(String(n))` is `n` for every natural version number |
| Lists.AddToSet | routes/auth.js:368-376 | `$addToSet` of one value appends it iff it is absent, and never writes a value twice |
| Lists.AddAllToSetSettled | routes/makeAdmin.js:159-169 | `$addToSet` with `$each` leaves an array unchanged iff it already holds every value |
| Lists.Distinct | routes/makeAdmin.js:124-125 | `distinct` yields the same set of values without repeats |

## Left out

- Collections are sequences in document order, not maps keyed by name. Form names are unique only within a project, and `findOne` returns the first match, so a name-keyed map would lose both.
- I/O: logging (`log()` and the Log model), CORS, the rate limiter, Mongo connection retry, environment selection, the `/logs` page and mail are not modelled. Logging affects a reply or the store only through the evaluation of its arguments: a `log()` call whose argument reads a missing field throws, as in the first row of "## Findings", and the model keeps that throw.
- Gateway requests (ODK Central through axios) are parameters: each either succeeds with an opaque value or fails with a message. `getCentralToken` and routes/centralAuth.js are not part of this model. The status a gateway error carries to the error handler is not modelled (`Http.ErrorHandlerStatus` gives `None`).
- bcrypt hashing and comparison and JWT signing and verification are oracles (`hash`, `passwordMatches`, `verify`). The captcha check in `/register` has no effect on the outcome and is left out.
- The clock and the database's fresh ids are parameters. `AuthRoutes.RegisterTwiceRefused` requires the fresh id to be unused, as MongoDB guarantees.
- Request-stream buffering and file I/O (`converToBuffer`, `writeToFile`, `readFile`) are not modelled. The uploaded form is opaque to the store.
- The `collectionDetails` and `draftCollectionDetails` payloads are opaque strings (`collectionToken`, `draftToken`).
- Concurrency: each handler is one sequential step. In `/new`, the un-awaited `save()` and `updateAdmins()` are modelled as completing in that order before the next request.
- The `upsert: true` of `updateAdmins` when no account is an administrator is not modelled. With no administrator, the model's update changes no account.
- `FormRoutes.NewDraft`: `validateRequestQuery` is `async` and is not awaited in `/new-draft` (routes/forms.js:198). A missing key leaves a rejected promise that nothing handles, and what follows depends on the Node version: a warning before Node 15, the end of the process from Node 15 on by default. The model does not state either and takes both query keys as given strings.
- `FormRoutes.NewForm`: the same un-awaited query check (routes/forms.js:451) is not modelled, and both keys are taken as given.
- `FormRoutes.Modified`, `FormRoutes.UploadDraft`: the handler reads `formUpdate.nModified`, the result field of Mongoose 5. The model assumes Mongoose 5. Under Mongoose 6 and later the field is `modifiedCount`, `nModified` is undefined, and every `/new-draft` that reaches the update would answer 500.
- `JsNumbers.ToNumber`, `FormRoutes.NextVersionExamples`: `None` stands for a stored `null`, which `Number` maps to 0. A version field absent from the document reads as `undefined`, which `Number` maps to NaN. So "neither gives 1" holds only when the fields are explicitly null; the absent case is not modelled.
- `Lists.Distinct`, `Admin.SyncAdmins`: MongoDB's `distinct` does not specify the order of its result. The model fixes first-occurrence order, so the order of the administrators' `projects` and `forms` arrays is one possible order, not the only one.
- `FormRoutes.NextVersionIncrements`, `JsNumbers.ToNumber`: `Number(...)` is modelled exactly only for decimal digit strings, the empty string and null. The model maps every other string to NaN. JavaScript does not: it also parses decimals ("1.5"), signs ("+3"), exponents ("1e3"), hexadecimal ("0x10") and text with surrounding white space (" 7"), and only the remaining text gives NaN. So after an explicit `form_version` of "1.5", the next `/new-draft` without one stores "2.5" in JavaScript but "NaN" in the model.
- `FormRoutes.NextVersionIncrements`, `JsNumbers.ToNumber`, `JsNumbers.NatToString` and `JsNumbers.NatToStringRoundTrip` use exact integers. JavaScript numbers are IEEE doubles: above 2^53 - 1 the `+ 1` and the parse round, and from 10^21 up `String(...)` writes exponent form. The model does not state that rounding: its increment and round trip match JavaScript only for versions below 2^53 - 1.
- Database failures: the `catch` branches that answer a failed query or write are not modelled, because the store is total.
- `AuthRoutes.Login`, `AuthRoutes.LoginTokenLifetime`: the expiry is computed with `setHours(getHours() + 1)` in the server's local time zone. The model takes the clock as milliseconds and adds exactly one hour. Across a daylight-saving change the real token lives zero or two hours, and the model does not state that case.
- `AuthRoutes.Login`: the token's `role` claim (`user.role`, undefined in the schema) and the JWT header are not modelled.
- `MetaData.ListMetaData`: the user projection is modelled as the account's `projects`, `forms` and `roles` only. A failed count is answered 400 with the error object; the model returns the error itself.
- `GET /` and `/update` of the auth router are outside the core and are not modelled.

Where the code and the system's description differ, the model follows the code:

- A self-grant is answered 400, not 401.
- A project-manager grant does not add the project to the target's `projects` list (`AuthRoutes.ProjectManagerGrantUncoversRoles`).
- The grant routes check no authority of the caller.
- `updateAdmins` pushes a log entry on every run, so it is idempotent only up to the log.

## Findings

| source | as written | input that shows it | evidently intended | confidence | as-written member | corrected member |
|---|---|---|---|---|---|---|
| validation/verifyToken.js:12-25 | with no token, the log call reads `req.user._id` while `req.user` is undefined, so the middleware throws | a request without an `Authorization` header | answer 401 "Access Denied No token provided" | high, not executed | Tokens.AuthenticateAsWritten, Tokens.NoTokenAnswered500 | Tokens.Authenticate |
| routes/auth.js:702 | `res.status.apply(400)` calls `status` with 400 as its receiver, which throws, so nothing is sent | a valid token whose account was already deleted | answer 400 "User does not exist in local db, cannot delete" | high, not executed | AuthRoutes.DeleteAccountAsWritten, AuthRoutes.DeleteMissingCallerUnanswered | AuthRoutes.DeleteAccount |
| routes/forms.js:66, 138-150 | the draft check matches a draft with that name in any project, but the update targets the form with that name in the requested project | project A has draft "survey" at version 2; project B has "survey" live at version 1 with no draft; publish ("B", "survey") | refuse with 400 when the requested project has no draft of that name | medium, not executed | FormRoutes.Publish, FormRoutes.PublishFormAsWritten, FormRoutes.PublishCrossesProjects, FormRoutes.PublishAsWrittenRepeats | FormRoutes.PublishCorrected, FormRoutes.PublishForm |
