# EVOQFORMS intake and certification-quiz collector: a Dafny model

The collector is an Express server with two SQLite tables and a dashboard
script. Customers post a practice-intake form to `/submit`, which takes one
optional logo upload. Operators post a certification quiz to `/submit-quiz`:
a client name, ten free-text answers and a score. The dashboard fetches both
lists, filters the quiz list by client name, shows pass/fail and a score
tier, and opens detail views. In the intake view the card number, CVV and
wifi password are masked until clicked.

This project models the parts of `server.js` and `public/dashboard.js` that
carry rules, and proves what those rules promise:

- `store.dfy` (module `Store`): each table is an append-only `Table<R>`
  class. It holds a `seq` of rows in insertion order and the AUTOINCREMENT
  counter. `Insert` appends one row under a fresh id. `Lookup` is the
  `WHERE id = ?` query and `NewestFirst` is `ORDER BY id DESC`. `FindById`
  is the first-match search that the dashboard's `data.find` performs.
- `server.dfy` (module `Server`): the `/submit-quiz` handler.
  - The client-name check runs first (400).
  - Then `answers` is mapped onto the ten question columns. Falsy entries
    and entries past the end become `''`, and entries past the tenth are
    ignored.
  - Indexing an absent `answers` throws, and the framework answers 500.
  - The row is then inserted with the name and score exactly as sent.
  - The module also models the `/submit` intake insert, the two list
    queries with their ordering and the quiz lookup with its 404.
  - Intake rows are kept as an opaque column-to-value map, so the store's
    contract does not depend on the schema.
- `upload.dfy` (module `Upload`): the multer `filename` callback. It builds
  `${basename}-${Date.now()}${extname}`, using Node's POSIX `extname` and
  `basename` on a single path component.
- `dashboard.dfy` (module `Dashboard`): the score classifiers and the search
  filter. It also holds:
  - the quiz cache (class `QuizCache`);
  - the card, CVV and wifi-password masking;
  - the reveal toggle (class `SensitiveField`);
  - the intake lookup and the logo URL;
  - the per-question answer fallback of the quiz detail view.
- `scenarios.dfy` (module `Scenarios`): properties that link the server and
  the dashboard.
- `js_values.dfy` and `text.dfy`: the JavaScript values and string
  operations the rules use:
  - truthiness, `||`, `trim`, ASCII `toLowerCase`, `includes`;
  - decimal rendering of a number.

Inputs the code reads from its environment are parameters:

- the clock: `now` for `submittedAt` and for `Date.now()` in the upload name;
- whether the database reports an error on an insert: `writeFault`;
- the outcome of a dashboard `fetch`: an `Option`, where `None` means the
  fetch failed.

Facts about the code that the model keeps:

- There is no login, session or access control.
- `GET /` serves the intake form (server.js:82-85).
- The score is stored as sent, with no 0–10 range check.
- `submittedAt` comes from the column default `CURRENT_TIMESTAMP` (server.js:69).

The intake route and the dashboard use different schemas. The route writes
the columns `billingInfo` and `wifiSettings`. The detail view reads
`cardNumber`, `cardCVV` and `wifiPassword`, which only the migrated table
has. `Scenarios.SubmittedIntakeShowsNoPaymentData` shows the result: for a
row written by the route, all three sensitive fields read "N/A". Once the
table has been rebuilt by `migrate-database.js` (lines 31-53), the other
way round holds: the route's INSERT names `billingInfo` and `wifiSettings`,
which that table lacks, so SQLite refuses it, every intake submission gets
the 500 reply and no row is written. The model follows the route's own
schema.

The CVV and wifi-password placeholders are kept exactly as the dashboard's
text holds them: the bytes of "•" decoded in the wrong character set
("‚Ä¢").

## Model

| member | source | states |
|---|---|---|
| Store.Table.constructor | server.js:36-70 | a new table (`intake_form` or `certification_quiz`, both `INTEGER PRIMARY KEY AUTOINCREMENT`) has no rows and hands out id 1 first |
| Store.Table.Insert | server.js:151-182 | appends exactly one row with the data as given, returns its id, which is greater than every earlier id; earlier rows unchanged; ids stay increasing |
| Store.Table.Lookup | server.js:218-228 | yields the row carrying the id when one exists (the only one, ids being unique) and nothing exactly when no row has it |
| Store.Table.NewestFirst | server.js:188 | every stored row, in reverse insertion order, with ids strictly descending |
| Store.FirstIndexOf | public/dashboard.js:122 | the position of the first row with the id: all earlier rows carry other ids; past the end only when no row has it |
| Store.FindByIdSpec | public/dashboard.js:122-127 | the first-match search returns the earliest row with that id and fails exactly when no row carries it |
| Store.FindByIdUnique | server.js:218-220 | with distinct ids, the lookup returns the one row that has the id |
| Text.TrimStart | server.js:145 | leading whitespace removed: the rest is a suffix starting with a non-blank and all that was removed is whitespace |
| Text.TrimEnd | server.js:145 | trailing whitespace removed: the rest is a prefix ending with a non-blank and all that was removed is whitespace |
| Text.TrimEmptyIffBlank | server.js:145 | `s.trim() === ''` exactly when every character of `s` is JavaScript whitespace |
| Text.ToLower | public/dashboard.js:354-356 | same length, each ASCII capital lowered, every other character kept |
| Text.ContainsIff | public/dashboard.js:356 | `includes` is true exactly when the needle occurs at some position of the haystack |
| Text.ContainsEmpty | public/dashboard.js:354-356 | every string includes the empty term |
| Text.Decimal | server.js:23 | the rendering of `Date.now()` is non-empty decimal digits that denote the clock reading, with no leading zero |
| Text.DecimalInjective | server.js:23 | two clock readings render alike exactly when they are equal |
| Server.ClientNameRejectedIff | server.js:145-148 | the name is rejected exactly when it is missing, null, empty or whitespace only |
| Server.AnswerSlots | server.js:157-167 | exactly ten columns; column i is `answers[i]` when that entry is a non-empty string, `''` otherwise, including past the end |
| Server.AnswerSlotsIgnoreExtra | server.js:158-167 | entries after the tenth never change the stored columns |
| Server.AnswerSlotsKeepFullAnswers | server.js:158-167 | ten non-empty answers are stored exactly as given, in order |
| Server.PrepareQuiz | server.js:138-168 | 400 exactly for a missing or blank name; the 500 throw exactly for a good name without an answers array; otherwise the row holds the name untrimmed, the score as sent, the mapped answers and the insertion time; `Ok` exactly for a non-blank name with an answers array |
| Server.SubmitQuiz | server.js:134-183 | on rejection or a database error the table is unchanged and the reply says why; otherwise exactly one row is appended under the returned fresh id and the counter advances; status 200 exactly on success, 400 exactly for a rejected name |
| Server.IntakeRecord | server.js:106-122 | the written row has exactly the ten listed body columns and the logo column; each listed field is stored verbatim, a missing one as NULL, the logo as the uploaded path or NULL |
| Server.SubmitIntake | server.js:105-131 | on a database error 500 and the table unchanged; otherwise the redirect and exactly one appended row under a fresh id |
| Server.ListIntakeForms | server.js:186-196 | the same rows as the table, ids strictly descending |
| Server.SortBySubmitted | server.js:202 | a permutation of the rows ordered by submission time, newest first |
| Server.ListQuizSubmissions | server.js:199-213 | the same rows as the table, submission times non-increasing |
| Server.GetQuizSubmission | server.js:216-233 | ReadFailed (500) exactly on a database error; otherwise the row with the requested id when one exists, NotFound (404) exactly when none does |
| Upload.ExtNameIsSuffix | server.js:21 | the extension is a suffix of the name: empty, or a '.' and dot-free text, shorter than the name |
| Upload.UploadFilename | server.js:20-24 | the stored name is the original without its extension, '-', the clock digits, then the extension: `basename` drops exactly the extension |
| Upload.UploadKeepsExtension | server.js:20-24 | the stored name has the same extension as the original and contains no path separator |
| Upload.UploadNamesDiffer | server.js:20-24 | for one original name, two clock readings give the same stored name exactly when they are equal |
| Dashboard.PassFailStatus | public/dashboard.js:283-285 | 'PASS' or 'FAIL', and 'PASS' exactly when the score is at least 8 |
| Dashboard.PassFailClass | public/dashboard.js:288-290 | 'pass-badge' exactly when the status is PASS, 'fail-badge' otherwise |
| Dashboard.PassFailExamples | public/dashboard.js:283-285 | 8 and 10 pass, 7 and 0 fail |
| Dashboard.ScoreClass | public/dashboard.js:314-318 | high exactly from 8, medium exactly for 5 to 7, low exactly below 5 |
| Dashboard.ScoreTiersPartition | public/dashboard.js:314-318 | every score is in one of the three tiers and the high tier coincides with PASS |
| Dashboard.FilterByClient | public/dashboard.js:355-357 | the result holds exactly the cached rows whose lower-cased name includes the lower-cased term, and is no longer than the list |
| Dashboard.FilterKeepsOrder | public/dashboard.js:355-357 | filtering a concatenation is the concatenation of the filtered parts, so the order of the list is kept |
| Dashboard.FilterEmptyTermKeepsAll | public/dashboard.js:354-357 | an empty search term returns the whole cached list |
| Dashboard.FilterIgnoresTermCase | public/dashboard.js:354 | a term and its lower-cased form select the same rows |
| Dashboard.QuizCache.constructor | public/dashboard.js:71 | the cache starts empty |
| Dashboard.QuizCache.Load | public/dashboard.js:263-280 | a successful fetch replaces the cache with the list; a failed one leaves it unchanged |
| Dashboard.QuizCache.Search | public/dashboard.js:353-359 | the displayed rows are the filter of the cache; the cache is only read |
| Dashboard.LastFour | public/dashboard.js:197 | `slice(-4)`: the last four characters, or the whole string when shorter |
| Dashboard.CardText | public/dashboard.js:196-198 | masked text is the star prefix and the last four characters (the whole number if shorter, 'N/A' if absent); revealed text is the full number or 'N/A' |
| Dashboard.CardMaskHidesAllButLastFour | public/dashboard.js:197 | two card numbers that end alike mask to the same text |
| Dashboard.CvvText | public/dashboard.js:207-212 | masked text is the fixed placeholder; revealed text is the CVV or 'N/A' |
| Dashboard.WifiPasswordText | public/dashboard.js:229-234 | masked text is the fixed placeholder; revealed text is the password or 'N/A' |
| Dashboard.FixedMasksIgnoreValue | public/dashboard.js:207-234 | the CVV and password masks are the same whatever the value |
| Dashboard.Toggled | public/dashboard.js:129-142 | after a click exactly one span is visible, and the masked span shows exactly when the revealed one was showing |
| Dashboard.ToggleTwiceRestoresVisibility | public/dashboard.js:133-140 | two clicks restore which span is visible |
| Dashboard.ToggleInvolutionAfterFirstClick | public/dashboard.js:133-140 | after the first click, two further clicks restore the exact style values |
| Dashboard.FirstClickReveals | public/dashboard.js:196-199 | as rendered, exactly the masked span is visible, and one click reveals the value |
| Dashboard.SensitiveField.constructor | public/dashboard.js:196-199 | a field starts with the masked span unstyled and the revealed span hidden |
| Dashboard.SensitiveField.Toggle | public/dashboard.js:129-142 | one click applies the toggle rule and leaves exactly one span visible |
| Dashboard.ForwardSlashes | public/dashboard.js:250 | same length; each backslash becomes '/', every other character is kept |
| Dashboard.LogoUrl | public/dashboard.js:247-252 | no image without a path; otherwise '/' followed by the path, with every backslash turned into '/', every other character kept, and no backslash left |
| Dashboard.ForwardSlashesIdempotent | public/dashboard.js:102 | normalising twice equals once; a path without backslashes is left as it is |
| Dashboard.ViewIntakeDetails | public/dashboard.js:116-127 | a failed fetch gives the load-error alert; 'Form not found' exactly when no row has the id; otherwise the detail of the first row with the id |
| Dashboard.AnswerLines | public/dashboard.js:395-400 | ten lines in question order; each shows its stored answer when non-empty and the placeholder otherwise |
| Dashboard.ViewQuizDetails | public/dashboard.js:364-408 | a failed request, a 404 or a 500 gives the alert and nothing else does; a found row shows its name, the score tier, PASS from 8 and FAIL below, the matching badge and its answer lines |
| Scenarios.SubmitThenView | server.js:151-180 | a valid submission appends exactly one row, the prepared record under the returned fresh id, and advances the counter; afterwards the detail view shows the name as sent, the status from the score as sent, and under each question the answer sent or the placeholder |
| Scenarios.UnknownQuizIdAlerts | public/dashboard.js:366-367 | an id no stored quiz carries, or a failed read, ends in the dashboard's error alert |
| Scenarios.ListedIntakeRowFound | public/dashboard.js:104-122 | every row of the intake list is found again by the id its button passes |
| Scenarios.UploadedLogoUrl | server.js:110 | the upload path, joined with '/' or '\', links as "/uploads/" followed by the stored name |
| Scenarios.SubmittedIntakeShowsNoPaymentData | server.js:113-121 | for a row written by `/submit` the card number, CVV and wifi password show 'N/A' |

## Left out

- HTTP plumbing is not modelled: routing, `sendFile` pages (`/`, `/dashboard`, `/quiz`, `/completed`), static serving, `listen` and console logging. It is I/O and library code.
- SQLite itself is not modelled (SQL text, DDL, type affinity). The tables are sequences of rows, and `submittedAt` is an integer number of seconds rather than SQLite's timestamp text, whose text order is the same.
- Server.GetQuizSubmission: takes the id as an integer. The conversion of the URL parameter string by SQLite's type affinity is not modelled.
- Server.ListIntakeForms: does not model the 500 reply when the SELECT fails.
- Server.ListQuizSubmissions: does not model the 500 reply when the SELECT fails. Rows with equal timestamps may come in any order, as in SQLite.
- Server.PrepareQuiz: request values that are numbers, booleans or objects are not modelled. Fields are strings, `null` or missing, `answers` is an array or absent, and `score` is an integer. The body of the framework's 500 page for the thrown error is not modelled either.
- Multer's write of the file to disk is not modelled, nor the joining of "uploads/" with the stored name. `Scenarios.UploadedLogoUrl` states that join for both separators.
- Dashboard.ViewQuizDetails: the score text `${submission.score}/10` and the formatted submission date are not modelled. Only the name, the score tier, the status, the badge and the answer lines are.
- Dashboard.LastFour: counts characters as code points. JavaScript's `slice(-4)` counts UTF-16 code units, so for a number holding a character outside the Basic Multilingual Plane ("123😀") the page shows "23😀" where the model shows "123😀".
- Upload.UploadKeepsExtension: follows Node's POSIX `path` rules only. It holds only for names the multipart parser delivers: no separator, and not "." or "..".
- Text.ToLower: lowers ASCII letters only. `toLowerCase` also lowers non-ASCII letters, so a search over non-ASCII names can differ.
- DOM work is not modelled: `innerHTML` templates, the intake and quiz tables, modal open/close, navigation and the hamburger menu, event listeners. `fetch` and async/await are reduced to an `Option` result.
- Dashboard.ViewIntakeDetails: only the fields that carry a rule are modelled (card number, CVV, wifi password, logo). The other fields are printed verbatim.
- Dashboard.SensitiveField.Toggle: the `if (masked && revealed)` guard is not modelled, because every rendered sensitive field has both spans.
- `formatDate`/`toLocaleString`, the average score with `toFixed(1)` and today's count are not modelled. They depend on locale and clock and use floating point.
- Login, session and logout are not modelled. No file of the collector implements them.
- `public/js1.js` (an older DOM-only draft), `migrate-database.js` (a one-shot table rebuild) and `public/dashboard/view.js` (a console dump) are not part of this model.
