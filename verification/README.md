# Candidate login and test delivery, modelled in Dafny

This project models the decision logic of a candidate-assessment backend. It covers two handlers.

- **Candidate login** (`candidate_login`). It validates the email, asks the HR directory about it, classifies the answer, and maps the first `filteredResumes` entry to `{email, candidate_id, name}`. It then provisions the candidate in the `test_results` table by look-before-insert. Two read-side lookups of that table also belong here (`get_candidate_details`, `get_candidate_test_results`), as does the mapping the debug endpoint shows.
- **Test delivery** (`fetch_test`). It looks up a question set, gates it on its expiry time, and returns the set's questions without their answers, together with the duration and the set id.

Every handler is a pure function. Its result is a value `Outcome = Ok(body) | Err(HttpError(status, reason))`, and each `reason` is one `raise HTTPException` site. The things the code cannot see are parameters:

- the HR directory's answer (`Reply = Unreachable | Replied(status, body)`);
- whether the database insert returned a row (`insertOk`);
- the clock (`now`, an integer timestamp);
- ISO-8601 parsing (`parse: string -> Option<int>`).

Tables are sequences of rows in storage order, not maps keyed by id. So a duplicate `candidate_id` can be represented, and "no duplicate rows" is a property proved about login rather than assumed. Login also returns the list of its outward steps (`PostLookup`, `SelectRows`, `InsertRow`). This makes "rejected before any upstream call or store access" a statement about that list.

Files:

- `wrappers.dfy`: `Option`.
- `http.dfy`: outcomes, error reasons and their status codes.
- `text.dfy`: Python's `str.strip()` and its whitespace set.
- `table.dfy`: `select ... eq(...)` as a filter, the first matching row, and unique keys.
- `controller.dfy`: login, provisioning and the lookups.
- `login_properties.dfy`: properties of login and the lookups.
- `test_routes.dfy`: `fetch_test`.
- `fetch_test_properties.dfy`: properties of test delivery.

What login does, and does not do, in this code:

- A repeat login leaves the existing row exactly as it is. It fills in no empty `name` or `email`, stamps no `updated_at`, and keeps the status.
- A new row starts with status `"Logged In"`. The docstring at `routes/test_routes.py:14-17` promises `'Not Started'`, but it describes a different login controller, which is not part of this model.
- A non-200 directory status is re-raised with that same status code.
- `name` is never validated. Only `email` and `_id` are required.
- A directory timeout yields 503 (see "Left out").

## Model

| member | source | states |
|---|---|---|
| Text.Strip | controller/controller.py:68 | `strip()` yields a result no longer than the email that neither starts nor ends with whitespace, and it is empty exactly when every character is whitespace |
| Text.StripRemovesOuterWhitespace | controller/controller.py:68 | `strip()` is a contiguous piece of the email with only whitespace before and after it, so exactly the outer whitespace is removed |
| Controller.EmailRejected | controller/controller.py:67-72 | the login email check fails exactly for the empty string and for strings made only of whitespace |
| Controller.RowsFor | controller/controller.py:134-136 | selecting `test_results` by `candidate_id` returns exactly the table's rows with that id |
| Controller.MapResume | controller/controller.py:113-121 | `_id` becomes `candidate_id`, `email` stays `email`, and `name` is taken as is, becoming "Unknown" only when the key is absent |
| Controller.Identify | controller/controller.py:86-131 | a directory answer yields an identity exactly when the status is 200, the list is present and non-empty, and the first entry's `email` and `_id` are non-empty; a non-200 status is re-raised unchanged |
| Controller.NewRow | controller/controller.py:140-146 | a fresh row carries the mapped id, email and name, status "Logged In" and the current time |
| Controller.Provision | controller/controller.py:133-158 | the store step selects first; an existing row leaves the table as it was and succeeds; otherwise one row is appended if the insert returns it, else the result is 500 and nothing changes; unique ids stay unique |
| Controller.Login | controller/controller.py:58-165 | errors never change the table; success only ever appends one "Logged In" row; a table without duplicate ids keeps none; after success the candidate has a row |
| Controller.CandidateDetails | controller/controller.py:188-204 | returns the first row of the candidate exactly when one exists, otherwise 404 "Candidate not found" |
| Controller.CandidateTestResults | controller/controller.py:214-230 | returns the first row of the candidate exactly when one exists, otherwise its own 404 |
| Controller.DebugMappedData | controller/controller.py:32-42 | the debug endpoint maps an entry exactly when the status is 200 and `filteredResumes` is present and non-empty, and the mapping is the first entry's under the same rule as login (`MapResume`), even when its `email` or `_id` is missing |
| Table.WhereHeadIsFirstMatch | controller/controller.py:198-204 | `result.data[0]` is the row a left-to-right scan finds first, and the result is empty exactly when no row matches |
| LoginProperties.IdentifyFirstResume | controller/controller.py:113-131 | with a non-empty list, the identity is the first entry's `email`, `_id` and name-or-"Unknown", or 422 when `email` or `_id` is missing or empty |
| LoginProperties.BlankEmailRejectedFirst | controller/controller.py:67-81 | the result is 400 exactly for a blank email, with no directory call and no table access; any other email is posted to the directory unchanged |
| LoginProperties.UnreachableIs503 | controller/controller.py:170-175 | a directory that cannot be reached gives 503 with the table untouched and unread |
| LoginProperties.UpstreamStatusSurfaced | controller/controller.py:86-91 | any directory status other than 200 is re-raised as that status whatever the body, with the table neither read nor written |
| LoginProperties.ResumeListChecked | controller/controller.py:97-110 | a 200 body without `filteredResumes` is 422 and an empty list is 404, and neither touches the table |
| LoginProperties.EssentialFieldsChecked | controller/controller.py:125-131 | with a non-empty list, 422 occurs exactly when the first entry's `email` or `_id` is missing or empty, and the table is not touched |
| LoginProperties.NameNeverValidated | controller/controller.py:113-131 | replacing or removing the first entry's `name` never changes whether the directory step fails or which error it raises; a success differs only in the name, which becomes "Unknown" when the key is removed |
| LoginProperties.SuccessEchoesFirstResume | controller/controller.py:160-165 | a successful response is the first entry's email, `_id` and name-or-"Unknown" with "Login successful", not the stored row |
| LoginProperties.LoginInStages | controller/controller.py:74-165 | past the email check, login is the directory call followed by the store step |
| LoginProperties.ProvisionFresh | controller/controller.py:139-154 | a candidate without a row causes one select and one insert; the row is appended exactly when the insert returns it, else 500 |
| LoginProperties.NewCandidateProvisioned | controller/controller.py:139-156 | a candidate without a row gets exactly one row with "Logged In", the mapped email and name and the current time; a failed insert is 500 and changes nothing |
| LoginProperties.ExistingCandidateUntouched | controller/controller.py:133-158 | a candidate with a row logs in with no insert or update, and the table, including that row's status, stays as it was |
| LoginProperties.RepeatLoginIdempotent | controller/controller.py:133-158 | a second login with the same directory answer leaves the table and the response as after the first, so a new candidate keeps exactly one row |
| LoginProperties.LoginThenDetails | controller/controller.py:188-204 | after a successful login the details lookup finds the candidate, and for a first login it returns the fresh "Logged In" row |
| LoginProperties.LookupsAgree | controller/controller.py:194-230 | both lookups succeed on the same inputs and return the same row |
| LoginProperties.LookupOfUniqueTable | controller/controller.py:194-204 | in a table without duplicate ids, the row a lookup returns is the candidate's only row |
| LoginProperties.DebugMappingAgreesWithLogin | controller/controller.py:35-42 | the debug endpoint's mapped data equals what a successful login answers, and when it maps nothing no login succeeds |
| TestRoutes.DurationOf | routes/test_routes.py:34 | the duration is 20 only when the key is missing; null stays null; a value is kept |
| TestRoutes.QuestionsOf | routes/test_routes.py:52-58 | the served list has one `{question, options}` entry per question of the set, in table order |
| TestRoutes.ExpiryError | routes/test_routes.py:36-50 | no check without a non-empty `expires_at`; 500 when it does not parse; otherwise 410 exactly when `now` is strictly after it |
| TestRoutes.FetchTest | routes/test_routes.py:21-66 | success returns the requested id, the set's duration and its non-empty questions, and only for an existing set that passed the expiry gate; conversely, an existing set that passes the gate and has questions is always served; each error has the status of its reason |
| FetchTestProperties.UnknownSetIs404 | routes/test_routes.py:28-30 | an unknown set id is 404 whatever the questions, the parser and the clock |
| FetchTestProperties.BlankExpirySkipsCheck | routes/test_routes.py:37 | with a missing, null or empty `expires_at`, the parser and the clock make no difference, and the only possible error is "no questions" |
| FetchTestProperties.UnparseableExpiryIs500 | routes/test_routes.py:39-46 | an `expires_at` that does not parse is 500 whatever the time and the questions |
| FetchTestProperties.ExpiredIffPastExpiry | routes/test_routes.py:48-50 | with a parsed expiry, 410 occurs exactly when `now` is strictly later, before the question check |
| FetchTestProperties.ExpiryBoundary | routes/test_routes.py:48-50 | at the expiry instant the test is still served when it has questions, and one tick later it is 410 |
| FetchTestProperties.NoQuestionsIs404 | routes/test_routes.py:59-60 | an existing, unexpired set without questions is 404 |
| FetchTestProperties.ServedEarlierToo | routes/test_routes.py:48-50 | a test served at some time is served identically at every earlier time |
| FetchTestProperties.DurationDefaultsTo20 | routes/test_routes.py:62-66 | a served set without a `duration` key reports 20 minutes, the requested id and the set's questions |
| FetchTestProperties.ServedQuestionsAreTheSets | routes/test_routes.py:53-58 | an entry is served exactly when it is the projection of some question of the requested set |
| FetchTestProperties.AnswersNeverExposed | routes/test_routes.py:53-58 | two questions tables that differ only in `answer` give identical responses, so the answer never reaches the client |

## Left out

- HTTP transport, the database client, `print` diagnostics and the debug endpoint's headers, raw-response echo and error dictionary (`controller/controller.py:13-57`). The directory's answer, the insert's success and the clock are parameters instead.
- The directory timeout branch (504). `httpx.TimeoutException` is a subclass of `httpx.RequestError`, which is caught first, so the branch cannot be reached. Every transport failure is modelled as the single 503 outcome.
- Bodies and field values of other JSON types. The model's 200 body is a JSON object. Its `filteredResumes`, when present, is a list of objects with string values. The code handles other shapes as follows, and none of these is modelled:
  - A 200 body that is not JSON raises in `response.json()` (`controller/controller.py:93`) and ends in the generic `except Exception` → 500.
  - A JSON array or string body passes line 97 as an element or substring test. Without a `"filteredResumes"` element or substring it is 422. Otherwise indexing it raises → 500. A number, boolean or `null` body raises at line 97 → 500.
  - A `null`, `0` or `false` `filteredResumes` is 404 at line 105, like the empty list. A truthy value that is not a list, or a first entry that is not an object, raises → 500.
  - A `null`, `0` or `false` `email` or `_id` is 422 at line 126, like a missing or empty one.
  - A `null` `name` is kept as `None` (line 120), not replaced by "Unknown", and it is inserted at line 143.
  - A truthy `_id`, `email` or `name` that is not a string reaches the insert at line 148. If building the response then fails, the resulting 500 follows a table change. So `Login`'s "errors never change the table" is proved for string-valued answers only.
- Controller.Login: assumes that an insert which returns no row leaves the table unchanged. The code only raises 500 and does not say what the database kept.
- Error detail strings. Each error carries a reason naming its raise site instead. The details of the upstream and essential-field errors embed a formatted status and a Python dict repr.
- ISO-8601 parsing, the `"Z"` replacement, and the naive/aware datetime comparison, which can raise outside the `try` (`routes/test_routes.py:38-49`). Parsing is the parameter `parse`, and times are integers. A non-string `expires_at` (the `isinstance` else-branch) is not represented.
- Row order. The queries have no `ORDER BY`, so the database's row order is unspecified. The model takes storage order as "first".
- The select-then-insert race between concurrent logins. It is a concurrency issue. The uniqueness properties hold for one login at a time.
- The `/candidate-login` and `/submit` routes (`routes/test_routes.py:12-18,69-75`). They delegate to a controller module and a scoring engine that are not part of this model.
- Columns of `test_results` that only submission writes (score, feedback, durations, `completed_at`). Login never reads or writes them.
- The request/response schemas (`schemas/test_schemas.py`, `test_schemas.py`). They are declarations with no logic. The `answer` field they declare appears as `Question.answer`.
- The login request and response models. `controller/controller.py:5` imports `CandidateLoginRequest` and `CandidateLoginResponse`, but neither schema file defines them. `schemas/test_schemas.py:42` declares only `CandidateLogin`. They are not part of this model. The model assumes that `email` reaches line 68 as a plain, unvalidated string. A validating email type, for example, would reject a blank email with 422 before line 68. It also assumes the response model accepts the mapped strings.
