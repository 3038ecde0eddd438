# Online Exam Portal: a Dafny model of the server core

The portal is an Express server (`server.js`). Users register and log in. A session
then opens the subject quiz pages. Quiz attempts are graded and stored, and each
user reads back only their own history. This project models the logic of that
server in Dafny and proves what it promises:

- `scoring.dfy`, module `Scoring`: the grading loop of `POST /api/assessment`. `Grade`
  is a method with a loop that counts matches and pushes one detail record per
  question. It is proved equal to specification functions: the set of correctly
  answered indices (`Matches`) and the detail list (`Details`). The rounded
  percentage is `Percentage`. Lemmas cover its bounds, its monotonicity and the
  exact conditions for 0 % and 100 %.
- `routes.dfy`, module `Routes`: the login gate (`requireAuth`) and the page routes.
  It covers the root redirect, the pages only anonymous visitors may see, the
  protected pages, and the subject whitelist checked after lower-casing the name.
- `store.dfy`, module `Store`: the stored records and the queries the handlers run,
  as pure functions. These are the user lookups by id and by id-or-email, the
  owner filter, the newest-first sort (an insertion sort proved sorted and a
  permutation), the history summaries, and the lookup of one record scoped to its
  owner.
- `server.dfy`, module `Server`: class `Portal` holds the user directory, the
  assessment log and the current session. Its methods are the handlers that change
  state: register, login, logout, the profile endpoint and submit. Its functions
  are the read-only history queries. `Valid()` holds throughout. It says ids and
  emails are unique, assessment ids are their log positions, and every password
  verifies against every hash made from it. The method `Visit` is a client. It
  registers, is refused a duplicate registration, logs in, submits the two-question
  example, reads the record back, logs out, and is then redirected to the login
  page by both queries.
- `common.dfy`, module `Common`: `Option` and the handler reply `Reply`. A reply is a
  redirect, a view file, a JSON body, or an error status with its message.

Password hashing is left uninterpreted. A `Portal` is built from a `hash` function
of a password and a salt (the salt stands for the randomness bcrypt draws) and a
`verify` function. The only requirement is `verify(p, hash(p, salt))` for every
password and salt. Timestamps (`submittedAt`) and salts are parameters. Record ids
are given by the model; each is the record's position in the log.

Points where the code's behaviour is easy to misread:

- API routes without a session redirect to `/login`, like the pages
  (server.js:51-53); they do not answer 401.
- Answer and question lists of different lengths are not rejected. Grading walks
  the questions. A question without an answer compares `undefined`, so it counts
  as correct when its key is missing too.
- An empty question list gives `NaN` for the percentage. The store's number cast
  refuses `NaN`, so the save fails and the handler answers 500
  `Failed to save assessment` (server.js:148-175). `Submit` models this error path.
  `Percentage` itself requires a positive total.
- From 200 questions on, 100 % does not imply all answers correct; from 201 on,
  0 % does not imply none: `PercentageFull` and `PercentageZero` give the exact conditions, and
  `LargeQuizRoundsToExtremes` shows 199 of 200 at 100 % and 1 of 201 at 0 %.

## Model

| member | source | states |
|---|---|---|
| Scoring.Grade | server.js:133-146 | The score is the number of question indices whose submitted answer strictly equals the key. It is at most the number of questions. The detail list is the one built per question, and the number of its entries marked correct equals the score. |
| Scoring.Percentage | server.js:148 | The result p is 100·score/total rounded half up: 2·total·p ≤ 200·score + total < 2·total·(p+1). |
| Scoring.CorrectCount | server.js:144 | Counting the entries marked correct never exceeds the number of entries. |
| Scoring.MatchesBound | server.js:133-138 | At most k of the first k questions are answered correctly. |
| Scoring.CorrectCountIsScore | server.js:136-146 | Among the details of the first k questions, the number marked correct is the number of matching answers. |
| Scoring.DetailsEntries | server.js:140-145 | There is one detail entry per question. Entry i has question number i+1, the submitted answer (undefined past the end of the answers) and the key. It is marked correct exactly when the two are equal, that is exactly when i counts toward the score. |
| Scoring.AllCorrectUpTo | server.js:136-138 | The first k questions score k exactly when every one of them is answered correctly. |
| Scoring.AllCorrect | server.js:136-138 | The score equals the number of questions exactly when every answer matches its key. |
| Scoring.NoneCorrect | server.js:136-138 | The score is 0 exactly when no answer matches its key. |
| Scoring.SameAnswersSameGrade | server.js:136-137 | Two answer lists that agree at every question position give the same details and the same score. |
| Scoring.ExtraAnswersIgnored | server.js:136 | Answers past the last question change neither the details nor the score. |
| Scoring.PercentageBounds | server.js:148 | For a score of at most the total, the percentage is at most 100. |
| Scoring.PercentageMonotone | server.js:148 | A higher score never gives a lower percentage. |
| Scoring.PercentageFull | server.js:148 | The percentage is 100 exactly when 200 times the number of wrong answers is at most the total. |
| Scoring.PercentageZero | server.js:148 | The percentage is 0 exactly when 200 times the score is below the total. |
| Scoring.PercentageExtremes | server.js:148 | With at most 200 questions, 0 % means no answer correct; with fewer than 200, 100 % means all answers correct. |
| Scoring.LargeQuizRoundsToExtremes | server.js:148 | 199 of 200 rounds to 100 % and 1 of 201 rounds to 0 %. |
| Scoring.WorkedExample | server.js:133-148 | Keys A, B and answers A, C give details (1, A, A, correct) and (2, C, B, wrong), score 1 and 50 %. |
| Routes.SignedIn | server.js:52 | A session counts as signed in only when it holds a user id, never for the empty id, and always for any non-empty id. |
| Routes.RequireAuth | server.js:51-54 | Without a signed-in session the handler does not run and the reply redirects to `/login`. Otherwise the reply is the handler's, run for the session's user id. |
| Routes.AnonymousOnly | server.js:59-72 | A signed-in visitor is redirected to `/view`; an anonymous visitor gets the page's view file. |
| Routes.ToLower | server.js:79 | Lower-casing keeps the length and maps each character to its lower-case form. |
| Routes.ToLowerIdempotent | server.js:79 | Lower-casing an already lower-cased name changes nothing. |
| Routes.LookupSubject | server.js:79-84 | A subject is found exactly when its lower-cased name is one of mnst, mc, cd, cns, ml. The page found is that lower-cased name. |
| Routes.Serve | server.js:51-85 | A protected page without a session user redirects to `/login`. An anonymous-only page redirects a session user to `/view` and sends its view to an anonymous visitor. `/view` sends its view to a session user. `/` redirects to `/view` or `/home` by the session. Every file sent is the page's own view (for a subject, the view named by its lower-cased name), and only to the kind of visitor the page is for. A signed-in subject request gets its page exactly when the name is whitelisted, and otherwise a 404 with "Subject not found". |
| Routes.SubjectCaseInsensitive | server.js:79-84 | Names equal up to case get the same lookup and the same reply. |
| Routes.SubjectLowerCaseSame | server.js:79-84 | A name and its lower-cased form get the same lookup and the same reply. |
| Routes.SubjectExamples | server.js:78-85 | A signed-in `/subjects/ML` sends the ml page, the same reply as `/subjects/ml`, and `/subjects/xyz` is a 404. |
| Store.FindUser | server.js:204 | A user is found exactly when one has that id, and the one found is stored and has that id. |
| Store.FindUserByIdOrEmail | server.js:182 | A user is found exactly when one shares the id or the email, and the one found is stored and shares one of them. |
| Store.AppendKeepsUnique | server.js:182-193 | Appending a user that passed the duplicate check keeps every id and every email unique. |
| Store.FindUserUnique | server.js:204-206 | With unique ids, any stored user with the id is the one the lookup returns. |
| Store.OwnedBy | server.js:104 | The owner filter keeps exactly the owner's records, each as often as it is stored. |
| Store.NewestFirstPairwise | server.js:105 | In a newest-first sequence, an earlier record is never older than a later one. |
| Store.Insert | server.js:105 | Inserting into a newest-first sequence keeps it newest first and adds exactly that record. |
| Store.SortNewestFirst | server.js:105 | The sort gives a newest-first permutation of its input. |
| Store.Summarize | server.js:106 | A summary carries the record's id, subject, score, question count, percentage and submission time. |
| Store.History | server.js:104-106 | The owner's history has one summary per owned record. Each summary comes from an owned record, every owned record has its summary in it, and they are ordered by submission time from newest to oldest. |
| Store.FindOwned | server.js:116-119 | A record is returned exactly when one has both that id and that owner, and the one returned has both. |
| Store.OtherOwnerNotFound | server.js:116-121 | A record owned by someone else is not returned for its own id. |
| Server.Portal.Register | server.js:178-194 | If any user shares the id or the email, the directory is unchanged and the reply is 400 "User already exists". Otherwise exactly the new user, with the hashed password, is appended and the reply redirects to `/login`. The log and the session never change. |
| Server.Portal.Login | server.js:201-211 | The session becomes the given id, with a redirect to `/view`, exactly when a user with that id exists and the password verifies. Otherwise the reply is 401 "Invalid credentials" and the session is unchanged. |
| Server.Portal.Logout | server.js:218-221 | Afterwards there is no session user and the reply redirects to `/home`. |
| Server.Portal.CurrentUser | server.js:88-95 | Without a session user it redirects to `/login`. A signed-in user who exists gets the profile without the password hash. A session whose user is gone gets 404 "User not found" and is destroyed. |
| Server.Portal.Submit | server.js:130-168 | Without a session user it redirects to `/login` and stores nothing. An empty question list stores nothing and answers 500. Otherwise it appends exactly one record: owned by the session user, with the graded details, score, question count, percentage and submission time. It answers with that record's id and the figures. |
| Server.Portal.ListAssessments | server.js:102-107 | Without a session user it redirects to `/login`. Otherwise it lists summaries newest first. Each summary comes from one of the session user's records, every such record has its summary listed, and there are as many summaries as the session user has records. |
| Server.Portal.GetAssessment | server.js:114-123 | Without a session user it redirects to `/login`. A record is returned exactly when one has the id and belongs to the session user, and otherwise the reply is 404 "Assessment not found". |

## Left out

- Express middleware, static files, `sendFile` and the HTML views: a page reply names the view file it would send.
- The database connection, the schemas' required-field and type validation, casting of a malformed record id, and the unique indexes. The application's own duplicate check is modelled; the store's second enforcement of uniqueness is not.
- bcrypt's internals, salting and cost factor. Hashing is a pair of given functions with the one property above.
- The session cookie, its secret and its expiry. The session is the one optional user id of the current visitor.
- async scheduling, concurrent requests, and a store failure mapped to a 500 reply, apart from the empty-question case. Requests are modelled one at a time.
- Request bodies with missing fields or non-array `questions`. Answers and keys are modelled as undefined, null or strings; numbers, booleans and objects in answers are not.
- Request fields that are not strings. `express.json()` lets `id`, `email` and `password` be JSON objects, and `findOne` then reads an object as a query operator (`{"$gt": ""}` matches the first stored user, server.js:182, 204). The model types every field as a string, so Login's `session == Some(id)` and Register's duplicate check assume string fields.
- The users' store id `_id`, which the profile endpoint also returns (server.js:90, 95): users are keyed by `userId` only, and `Profile` carries no store id.
- Scoring.Percentage: does not model JavaScript floating point. It is the exact rounding of 100·score/total, which can differ from `Math.round` on a float quotient only at half-way values.
- Routes.ToLower: covers only ASCII letters, not the full Unicode case mapping of `toLowerCase`.
- Store.SortNewestFirst: the store leaves the order of records with equal `submittedAt` unspecified. The model fixes one order, and its contract states only newest-first order and permutation.
- The `Date.now` default for `submittedAt`: the submission time is a parameter of `Submit`.
