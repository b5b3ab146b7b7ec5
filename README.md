# HopeNestHub core, modelled in Dafny

HopeNestHub is a health-monitoring back end: patients, caregivers, doctors and
administrators, with wearable metrics, symptom and emotion reports, and
server-rendered admin and caregiver pages. This project models its core
request logic and proves properties of the model. The core covers:

- **Symptom and emotion intake** (controllers/symptomController.js,
  controllers/emotionController.js). One request body becomes one record.
  Each field is read from an ordered list of aliases. Category and time are
  read with `||` (truthiness). Severity, intensity and notes are read with
  `!= null`. The patient's own list comes back newest first.
- **Metrics and devices** (controllers/metricsController.js,
  controllers/deviceController.js). A metric is the body spread with the
  path's `patient_id` written over it. A sync accepts one object or an
  array. A device registration writes one audit-log entry. The lists are
  capped at 200 rows.
- **Authentication middleware** (middleware/auth.js). Covers:
  - cookie parsing;
  - token selection, in the order Bearer header, then `token` cookie, then
    `?token=`;
  - the 401/403 gates;
  - loading the current user and role;
  - the case-insensitive role checks for API routes and pages.
- **Admin and caregiver pages** (web/pages.js). Covers:
  - the `where` filters of the user, patient and report lists;
  - the patient-name filter;
  - add-patient validation;
  - the alert-settings merge;
  - message receivers;
  - the `|| 1` demo-user defaults;
  - the report CSV export.
- **Admin analytics charts** (frontend/admin-panel/charts.js). Covers the
  heart-rate health-trend buckets, the retention proxy and the emotion
  distribution.

JavaScript values are modelled by `JsValue.Value`, which has null, booleans,
integers, NaN, strings, arrays and objects. `JsValue` and `JsText` give the
operators the code is written in:

- truthiness and `!= null`;
- property reads;
- `||`;
- `String(x)`;
- `parseInt(x, 10)`;
- object spread;
- `trim`, `toLowerCase`, `indexOf`, `split`, `join`, `includes`.

An absent property reads as null. This is sound for every operator the core
applies to it.

Database queries are modelled as functions over a sequence of stored rows
(`StoredRows`). PostgreSQL sorts NULL first in a descending order, so a row
without `recorded_at` ranks newest. A list contract promises only what holds
for every order the store may choose among rows with equal `recorded_at`.

Library calls are parameters of the model:
- `decodeURIComponent` becomes `decode: string -> Option<string>`, where
  None means it throws;
- `jwt.verify` becomes `verify`;
- `User.findByPk` becomes `find`;
- the clock becomes `now`.

The modules are:
`Wrappers`, `JsText`, `JsValue`, `StoredRows`, `Observations`, `Symptoms`,
`Emotions`, `Metrics`, `Devices`, `Auth`, `Csv`, `Pages`, `Charts`.

The form each model takes follows the source:
- The cookie reduction mutates its accumulator, so it is a loop over a map.
  `loadCurrentUser` and the other middleware assign request fields, so they
  are methods of the class `Auth.Request`.
- The `where` filters are built by mutation, so they are methods. The
  heart-rate buckets are counted in a loop.
- Everything written as expressions is modelled by functions.

Where the code and its design description disagree, the model follows the
code:
- severity and intensity are not clamped to 1..10;
- there is no device registry and no ownership conflict: registration only
  writes an audit log;
- a sync reads only an array or a single object, never `items`, `symptoms`
  or `payload` wrappers;
- there is no `heartRate` alias.

## Model

| member | source | states |
|---|---|---|
| JsText.NatToTextDigits | web/pages.js:319 | The decimal text of n is a non-empty digit string whose value is n. |
| JsText.IntToTextSign | web/pages.js:319 | The decimal text of n is non-empty. It starts with '-' exactly when n is negative, and otherwise with a digit. |
| JsText.IntToText | web/pages.js:319 | Definition of `String(n)` for an integer. Its meaning is proved in NatToTextDigits, IntToTextSign and ParseIntTextOfInt. |
| JsText.IntToTextInjective | web/pages.js:319 | Different integers never print the same decimal text. So the generated patient e-mails of different clock values differ. |
| JsText.TrimStart | middleware/auth.js:13 | The result is a suffix of s with no leading white space. Everything removed is white space. |
| JsText.TrimEnd | middleware/auth.js:13 | The result is a prefix of s with no trailing white space. Everything removed is white space. |
| JsText.Trim | middleware/auth.js:13-14 | `trim()` gives a slice of s with no white space at either end. Everything before the slice and everything after it is white space, so only white space is removed. |
| JsText.TrimSpans | middleware/auth.js:13-14 | Cutting leading white space and then trailing white space leaves a slice of the text with only white space on either side. |
| JsText.TrimStartOfTrimmed | middleware/auth.js:13 | A text that starts with no space is left alone by the start trim. |
| JsText.TrimEndOfTrimmed | middleware/auth.js:13 | A text that ends with no space is left alone by the end trim. |
| JsText.TrimIdempotent | web/pages.js:317 | Trimming twice is trimming once. |
| JsText.Lower | middleware/auth.js:68 | `toLowerCase()` keeps the length and lowers each character. |
| JsText.LowerIdempotent | middleware/auth.js:68-69 | Lowering twice is lowering once. |
| JsText.IndexOf | middleware/auth.js:11 | `indexOf('=')` is None exactly when there is no '='. Otherwise it is a position holding '=' with no '=' before it. |
| JsText.Split | middleware/auth.js:10 | `split(';')` gives at least one part, and no part contains the separator. |
| JsText.JoinSplit | middleware/auth.js:10 | Joining the split parts with the separator gives back the original text. |
| JsText.DigitPrefix | controllers/symptomController.js:5 | The digit run parseInt reads is the longest all-digit prefix. |
| JsText.DigitPrefixOf | controllers/symptomController.js:5 | A digit string followed by a non-digit is exactly the digit run read. |
| JsText.ParseIntTextUnsigned | controllers/symptomController.js:5 | A text starting with a digit parses to the value of its leading digits. |
| JsText.ParseIntText | controllers/symptomController.js:5 | Definition of `parseInt(s, 10)` on a text. Its meaning is proved in ParseIntTextUnsigned, ParseIntTextNegative, ParseIntTextSkipsSpace and ParseIntTextNoDigit. |
| JsText.ParseIntTextNegative | controllers/symptomController.js:5 | "-" followed by digits parses to the negated value. |
| JsText.ParseIntTextOfInt | controllers/symptomController.js:5 | Any integer's text, followed by a non-digit or nothing, parses back to that integer, so parseInt(String(n)) is n. |
| JsText.ParseIntTextOfNat | controllers/symptomController.js:5 | The text of any natural number, followed by a non-digit or nothing, parses back to it. |
| JsText.ParseIntTextOfNegative | controllers/symptomController.js:5 | "-" and the text of m, followed by a non-digit or nothing, parse back to -m. |
| JsText.TrimStartSkipsSpace | middleware/auth.js:13 | A leading white-space character is dropped by the start trim. |
| JsText.ParseIntTextSkipsSpace | controllers/symptomController.js:5 | Leading white space never changes the parse. |
| JsText.ParseIntTextNoDigit | controllers/symptomController.js:5 | A text without any digit is NaN. |
| JsValue.FirstTruthy | controllers/symptomController.js:7 | The chain of `or` operators over the aliases is truthy exactly when some alias is truthy. It is then the first truthy alias's value; else it is the last alias's value. |
| JsValue.Truthy | controllers/symptomController.js:7 | Definition of JavaScript truthiness: null, false, 0, NaN and "" are falsy; every other value, arrays and objects included, is truthy. Its use is proved in FirstTruthy and Symptoms.EmptyCategorySkipped. |
| JsValue.ToText | web/pages.js:383 | Definition of `String(v)`. Its meaning is proved in ParseIntOfNonNumeric, ParseIntOfText and Pages.ArrayRoleReadsAsText. |
| JsValue.FirstPresent | controllers/symptomController.js:8-10 | The `!= null` chain is None exactly when no alias is present. Otherwise it is the first present alias's value, so 0 and "" count as present. |
| JsValue.SameOnAliases | controllers/symptomController.js:7-10 | Both readings depend only on the listed keys. |
| JsValue.ParseInt | controllers/symptomController.js:5 | parseInt(v, 10) is always an integer or NaN. |
| JsValue.ParseIntOfNum | controllers/symptomController.js:8 | parseInt returns every integer unchanged. It neither clamps nor rounds. |
| JsValue.ParseIntOfText | controllers/symptomController.js:5 | A path segment beginning with the text of n parses to n ("7", "7abc"). |
| JsValue.ParseIntOfNonNumeric | web/pages.js:163 | null, booleans, objects and NaN parse to NaN. |
| JsValue.Spread | controllers/metricsController.js:6 | `{...v}` copies an object's fields. It copies nothing from null, booleans or numbers. |
| JsValue.IndexEntriesAt | controllers/deviceController.js:22 | Spreading an array copies element i under the key String(i). |
| StoredRows.OwnedBy | controllers/symptomController.js:27 | The `where: { patient_id }` selection keeps exactly the table's rows of that patient. A NaN id is modelled as matching no row. |
| StoredRows.Insert | controllers/symptomController.js:27 | An insertion step of the reference order adds exactly one row. |
| StoredRows.InsertSorted | controllers/symptomController.js:27 | Inserting into a newest-first list keeps it newest first. |
| StoredRows.Sort | controllers/symptomController.js:27 | The reference order is a permutation and is newest first, with NULLS FIRST. |
| StoredRows.NewestFirst | controllers/symptomController.js:27 | The query gives a valid answer: the first `limit` rows of a newest-first permutation of the patient's rows. |
| StoredRows.AnswerRowsOwned | controllers/metricsController.js:17 | Every row of any valid answer is a row of that patient in the table. |
| StoredRows.AnswerSorted | controllers/metricsController.js:17 | Every valid answer is newest first. |
| StoredRows.AnswerComplete | controllers/symptomController.js:27 | Without a limit, a valid answer holds exactly the patient's rows, as a multiset. |
| StoredRows.AnswerHeadIsNewest | controllers/metricsController.js:27 | The head of a valid answer is at least as new as every row of the patient. |
| StoredRows.AnswerEmptyIff | controllers/metricsController.js:17 | A valid answer is empty exactly when the patient has no rows, or the limit is 0. |
| StoredRows.OwnedByEmpty | controllers/metricsController.js:27-28 | The patient has no rows exactly when no row of the table matches. |
| Observations.ChainOfThree | controllers/emotionController.js:7 | The handler's three-way `or` chain equals the alias-table reading. |
| Observations.StampOrClock | controllers/symptomController.js:11 | Definition of the fallback to `new Date()`: a truthy supplied time is kept, else the clock. Its use is proved in Emotions.SuppliedTimeKept. |
| Observations.ChainOfTwo | controllers/emotionController.js:10 | The `or` chain of recorded_at and timestamp equals the alias-table reading. |
| Symptoms.AddSymptom | controllers/symptomController.js:3-18 | A record is created exactly when some category alias is truthy; otherwise the answer is the 400 error. The record's fields are the alias-table readings: the parsed path id; the first truthy of symptom_type/type/symptom; parseInt of the first present of severity/intensity; the first present note; the supplied time or the clock. |
| Symptoms.MissingBodyRejected | controllers/symptomController.js:6-14 | A missing body reads as {} and is rejected with 400. |
| Symptoms.SameTables | controllers/symptomController.js:7-11 | Bodies that agree on the nine aliases give the same four readings. |
| Symptoms.OtherKeysIgnored | controllers/symptomController.js:7-17 | Keys outside the alias tables never change the outcome. |
| Symptoms.SeverityNotClamped | controllers/symptomController.js:8 | Any integer severity, including 0 and values outside 1..10, is stored unchanged. |
| Symptoms.SeverityBeforeIntensity | controllers/symptomController.js:8 | intensity is ignored when severity is present. |
| Symptoms.IntensityIsFallback | controllers/symptomController.js:9 | intensity is used when severity is absent. |
| Symptoms.EmptyNotesKept | controllers/symptomController.js:10 | An empty notes string is stored (it is not null) and hides `note`. |
| Symptoms.EmptyCategorySkipped | controllers/symptomController.js:7 | An empty symptom_type falls through to `type`. |
| Symptoms.ListSymptoms | controllers/symptomController.js:24-28 | The list is exactly the patient's rows as a multiset, newest first, with no limit. |
| Emotions.AddEmotion | controllers/emotionController.js:3-17 | A record is created exactly when emotion_type/mood/emotion has a truthy value; otherwise the answer is the 400 error. The fields are the alias-table readings, and intensity is read by `!= null` only. |
| Emotions.MissingBodyRejected | controllers/emotionController.js:6-13 | A missing body is rejected with 400. |
| Emotions.SameTables | controllers/emotionController.js:7-10 | Bodies that agree on the eight aliases give the same readings. |
| Emotions.OtherKeysIgnored | controllers/emotionController.js:7-16 | Keys outside the alias tables never change the outcome. |
| Emotions.SeverityNotRead | controllers/emotionController.js:8 | `severity` is not an alias for emotion intensity: intensity stays null. |
| Emotions.IntensityNotClamped | controllers/emotionController.js:8 | Any integer intensity is stored unchanged. |
| Emotions.SuppliedTimeKept | controllers/emotionController.js:10 | A non-empty recorded_at is stored in preference to timestamp and the clock. |
| Emotions.ListEmotions | controllers/emotionController.js:23-27 | The list is exactly the patient's rows as a multiset, newest first. |
| Metrics.WithPatient | controllers/metricsController.js:6 | `{...item, patient_id}` has the spread keys plus patient_id. patient_id holds the path value, and every other key is copied. |
| Metrics.AddMetrics | controllers/metricsController.js:3-7 | The payload keeps every body field except patient_id, which is the parsed path id. A non-object body adds nothing else. |
| Metrics.BodyPatientIgnored | controllers/metricsController.js:6 | A patient_id in the body never reaches the payload. |
| Metrics.ListMetrics | controllers/metricsController.js:14-18 | The list is a valid newest-first answer capped at 200 rows. Each row is the patient's own. |
| Metrics.ShortListIsComplete | controllers/metricsController.js:17 | A patient with at most 200 rows gets all of them. |
| Metrics.LatestMetrics | controllers/metricsController.js:24-28 | The answer is None exactly when the patient has no rows. Otherwise it is a row of the patient at least as new as every other. |
| Metrics.ListHeadIsLatest | controllers/metricsController.js:17-27 | The head of the list is a valid latest answer, and an empty list means there is no latest row. |
| Devices.DeviceDetails | controllers/deviceController.js:7 | The logged details hold device_type and details, each exactly when the body has it. |
| Devices.RegisterDevice | controllers/deviceController.js:3-11 | Without a body the answer is 500. Otherwise one audit entry `device_register` is created, carrying the body's user_id, the details and the clock. |
| Devices.RegisterAlwaysLogsUser | controllers/deviceController.js:6-7 | Every object body is logged, even one without user_id. |
| Devices.GetDevice | controllers/deviceController.js:14-16 | The answer is always `{message: "not_implemented"}`. |
| Devices.Batch | controllers/deviceController.js:21 | An array body is the batch; any other body is a batch of one. |
| Devices.SyncDevice | controllers/deviceController.js:18-23 | One row per batch item, each carrying the path's patient_id. `inserted` is the number of rows. |
| Devices.SyncCopiesFields | controllers/deviceController.js:22 | Every other field of an item reaches its row. |
| Devices.SingleBodyIsAddMetrics | controllers/deviceController.js:21-22 | Syncing a single object inserts exactly the row addMetrics would. |
| Devices.ArrayBodyIsAddMetricsEach | controllers/deviceController.js:21-22 | Syncing an array inserts, item by item, the rows addMetrics would. |
| Devices.DeviceMetrics | controllers/deviceController.js:29-33 | The list is a valid newest-first answer of at most 200 of the patient's rows. |
| Auth.Cut | middleware/auth.js:11-14 | A segment is skipped exactly when it has no '='. |
| Auth.Cookies | middleware/auth.js:5-18 | Definition of what parseCookies returns: {} for an empty header, else the reducer's fold, or {} when a decode throws. Its meaning is proved in ParseCookies, LastPairWins, KeysComeFromPairs and FailureEmpties. |
| Auth.Segments | middleware/auth.js:10-14 | Each segment is cut independently. |
| Auth.ParseCookies | middleware/auth.js:6-19 | The loop's map equals the reference reading of the header. |
| Auth.ReduceSegments | middleware/auth.js:10-18 | The loop over the segments computes the reference fold. A decode failure anywhere gives {}. |
| Auth.FoldNext | middleware/auth.js:10-17 | The fold of one more segment is one more step. |
| Auth.FailureEmpties | middleware/auth.js:14-18 | One undecodable value makes the whole fold fail. |
| Auth.DecodeFailureGivesNoCookies | middleware/auth.js:14-18 | A header with one undecodable value yields no cookies at all. |
| Auth.NoEqualsSkipped | middleware/auth.js:12 | A segment without '=' leaves the result unchanged. |
| Auth.CutAtFirstEquals | middleware/auth.js:11-14 | `k=v` splits at the first '='. Key and value are trimmed, and later '=' stay in the value. |
| Auth.LastPairWins | middleware/auth.js:15 | A key's value is the decoded value of its last occurrence. |
| Auth.KeysComeFromPairs | middleware/auth.js:15 | Every key in the result comes from some segment. |
| Auth.TokenFromRequest | middleware/auth.js:21-30 | A `Bearer ` header decides the token. Otherwise a non-empty `token` cookie does, then a truthy `?token=` as text, then nothing. |
| Auth.Authenticate | middleware/auth.js:32-40 | Access is denied exactly when there is no token or verification fails. The answer is 401 for a missing or empty token and 403 for an invalid one. On success the claims are the verified payload. |
| Auth.BearerHeaderDecides | middleware/auth.js:23-24 | Whatever follows `Bearer ` is the token, even when the cookie or query give another. |
| Auth.CookieBeforeQuery | middleware/auth.js:27-28 | A token cookie wins over the query. |
| Auth.UserFromToken | middleware/auth.js:42-49 | The user is replaced only by a truthy verified payload; otherwise it is unchanged. A truthy verified payload always replaces it. |
| Auth.LoadCurrent | middleware/auth.js:52-63 | Nothing changes without a user id, or when the cached user has that id. When the load is not skipped and the user is found, currentUser becomes that user and currentUserRole its role name or null. A missing user changes nothing. |
| Auth.LoadCurrentIdempotent | middleware/auth.js:55 | Loading twice is loading once, for any lookup, including one that finds user 1 for the id "1". |
| Auth.RoleList | middleware/auth.js:66 | A non-array role becomes a one-element list. |
| Auth.LoweredRoles | middleware/auth.js:69 | Each allowed role is String(x).toLowerCase(). |
| Auth.RoleAllowedIff | middleware/auth.js:68-69 | The check passes exactly when the lowered role is non-empty and equals some lowered allowed role. |
| Auth.NoRoleRefused | middleware/auth.js:69 | A null or empty role is always refused. |
| Auth.RoleCaseIgnored | middleware/auth.js:68 | The user's role case does not matter. |
| Auth.AllowedCaseIgnored | middleware/auth.js:69 | The allowed roles' case does not matter. |
| Auth.SingleRoleIsList | middleware/auth.js:66 | A single role behaves like the list holding it. |
| Auth.LoginLocation | middleware/auth.js:81 | The redirect target is never empty: it is loginPath, or '/'. |
| Auth.RolePage | middleware/auth.js:76-91 | Without a user id the gate redirects to login and changes nothing. Otherwise it loads the current user, then answers 403 or next by the role check. |
| Auth.RoleApi | middleware/auth.js:65-74 | A denied token stops the gate with the state unchanged. Otherwise the gate sets the user, loads the current user, then answers 403 `forbidden` or next by the role check. |
| Auth.RoleApiPassNeedsTokenAndRole | middleware/auth.js:65-73 | Passing the API gate needs a verified token and an allowed role. |
| Auth.Request.constructor | middleware/auth.js:21-22 | A new request has its headers and query, and no user yet. |
| Auth.Request.Token | middleware/auth.js:21-30 | The request's token is the reference selection. |
| Auth.Request.AuthenticateToken | middleware/auth.js:32-40 | The gate's answer matches Authenticate. `req.user` is set exactly on a pass. |
| Auth.Request.LoadUserFromToken | middleware/auth.js:42-49 | `req.user` becomes the reference value and nothing else changes. |
| Auth.Request.LoadCurrentUser | middleware/auth.js:52-63 | The new request state is LoadCurrent of the old one. |
| Auth.Request.RequireRoleApi | middleware/auth.js:65-74 | The answer and the new state are those of RoleApi. |
| Auth.Request.RequireRolePage | middleware/auth.js:76-91 | The answer and the new state are those of RolePage. |
| Csv.Escape | web/pages.js:383 | Escaping never shortens a field. |
| Csv.QuoteAll | web/pages.js:383 | Each field is written quoted and escaped, in order. |
| Csv.EncodeRecords | web/pages.js:383 | Each row is written as its quoted fields joined by ','. |
| Csv.ReadQuoted | web/pages.js:383 | The reader only moves forward. |
| Csv.ReadRecord | web/pages.js:383 | A record read is non-empty and moves forward. |
| Csv.ReadEscaped | web/pages.js:383 | A field is read back from its escaped, quoted form: doubled quotes are undone and the closing quote is found. |
| Csv.ReadEscapedQuote | web/pages.js:383 | A quote inside a field is written doubled and read back as one. |
| Csv.ReadEscapedOther | web/pages.js:383 | Any other character is written and read back as itself. |
| Csv.EncodedRecordShape | web/pages.js:383 | A written row is its first quoted field followed by ',' and the rest of the row. |
| Csv.ReadEncodedRecord | web/pages.js:383 | A row is read back from its written form. |
| Csv.ReadEncoded | web/pages.js:383 | Any written document of non-empty rows reads back under RFC 4180, section 2, as exactly its rows. |
| Csv.EncodeInjective | web/pages.js:383 | Different tables never give the same CSV text. |
| Pages.RoleId | web/pages.js:28-29 | A role name maps to its id. Any other role parses as an integer. |
| Pages.RoleFilter | web/pages.js:27-31 | The role_id filter applies exactly when the role and its id are truthy. The id is then never 0. |
| Pages.UsersWhere | web/pages.js:19-32 | The user filter has `$or` exactly when q is truthy, role_id exactly when the role filter applies, and status exactly when it is truthy. It has no other keys. |
| Pages.NamedRoles | web/pages.js:28 | patient, caregiver, doctor and admin filter by 3, 4, 2 and 1. |
| Pages.NumericRole | web/pages.js:29-30 | A numeric role filters by its value, except 0, which gives no filter. |
| Pages.CapitalisedRoleIgnored | web/pages.js:28-30 | "Admin" maps to no id and so gives no filter. |
| Pages.ArrayRoleReadsAsText | web/pages.js:29 | `?role[]=admin` filters like `?role=admin`. |
| Pages.PatientsWhere | web/pages.js:105-108 | The patient filter has id exactly when pid is truthy and health_status exactly when status is truthy. |
| Pages.KeepMatching | web/pages.js:116 | The filtered list is never longer than the list. |
| Pages.KeepMatchingMembers | web/pages.js:116 | The kept patients are exactly the listed ones the test accepts. |
| Pages.FilterByName | web/pages.js:114-117 | A falsy q keeps the list. Otherwise the filter keeps exactly the patients whose lowered name, or '', contains the lowered q. |
| Pages.KeepMatchingAppend | web/pages.js:116 | The filter keeps order: it distributes over concatenation. |
| Pages.KeepMatchingIdempotent | web/pages.js:116 | Filtering twice is filtering once. |
| Pages.FilterIgnoresQueryCase | web/pages.js:115 | The case of q does not matter. |
| Pages.MatchIgnoresNameCase | web/pages.js:116 | The case of the stored name does not matter. |
| Pages.NamelessPatient | web/pages.js:116 | A patient without a user name is kept only by a query that prints as ''. |
| Pages.ReportsWhere | web/pages.js:201-206 | The report filter has patient_id exactly when pid is truthy. It has created_at exactly when start or end is truthy, with `$gte`/`$lte` exactly for the truthy bound. |
| Pages.DateOf | web/pages.js:205-206 | Definition of `new Date(x)`, kept as the text it is parsed from. |
| Pages.AddPatient | web/pages.js:314-323 | No body gives 500. An empty trimmed name gives 400 before anything is created. Otherwise the user is the trimmed non-empty name, `patient_<now>@example.com`, role 3 and status active. |
| Pages.SubmittedName | web/pages.js:317 | Definition of the submitted name: `String` of patientName, or of '' when it is falsy, then trimmed. Its meaning is proved in BlankNameRejected and NameIsTrimmed. |
| Pages.BlankNameRejected | web/pages.js:317-318 | A name of only white space is rejected. |
| Pages.NameIsTrimmed | web/pages.js:317 | Surrounding white space is dropped and the rest is kept. |
| Pages.TrimStartDrops | web/pages.js:317 | Leading white space is dropped up to the first other character. |
| Pages.TrimEndDrops | web/pages.js:317 | Trailing white space is dropped back to the last other character. |
| Pages.TrimDropsSpaces | web/pages.js:317 | Trimming a name padded with white space gives back the name. |
| Pages.ActingUserId | web/pages.js:190 | The acting user id is always truthy: the user's id, else the demo user 1. |
| Pages.AlertSettingsTarget | web/pages.js:163 | The target user is never 0: it is the parsed user_id when that is non-zero, else 1. |
| Pages.AlertSettingsMissingTarget | web/pages.js:163 | A missing user_id targets user 1. |
| Pages.AlertSettingsZeroTarget | web/pages.js:163 | user_id 0 targets user 1 too. |
| Pages.CreatedSettings | web/pages.js:399 | The created row has the threshold or null, sleep and activity null, the language or 'en', and the preference or 'email'. |
| Pages.UpdatedSettings | web/pages.js:402 | Sleep and activity are kept. An empty language or preference keeps the stored one. An empty threshold clears it to null. |
| Pages.SaveSettings | web/pages.js:395-403 | No body gives 500. Otherwise settings are created when none exist, else updated. |
| Pages.SaveIdempotent | web/pages.js:397-403 | Submitting the same form twice stores what submitting it once does. |
| Pages.EmptyUpdate | web/pages.js:402 | The fallback is asymmetric: an all-empty form keeps language and preference but clears the threshold. |
| Pages.UpdateAfterCreate | web/pages.js:399-402 | Updating a just-created row with the same form changes nothing. |
| Pages.AdminMessage | web/pages.js:188-192 | The receiver is the recipient exactly when recipientType is 'individual', else null. The sender is the acting user. The message type is text. |
| Pages.GroupMessageHasNoReceiver | web/pages.js:191 | Any other type, or none, gives no receiver. groupRecipient is never stored. |
| Pages.CaregiverMessage | web/pages.js:337-340 | The receiver is null exactly when the recipient is falsy, else the recipient. |
| Pages.DemoSender | web/pages.js:188-192 | Without a signed-in user both pages send as user 1. |
| Pages.ReportRecord | web/pages.js:381 | A report row is the printed patient_id; the ISO date or "null"; the summary or ''; the details or ''. |
| Pages.Take | web/pages.js:379 | `limit: 200` keeps a prefix of at most 200 reports, and all of them when there are fewer. |
| Pages.ExportTable | web/pages.js:379-382 | The header comes first, then one four-field row per report in store order. There are at most 201 rows. |
| Pages.ExportReadsBack | web/pages.js:380-383 | The CSV text reads back under RFC 4180, section 2, as exactly the header and the report rows. |
| Pages.ExportCsv | web/pages.js:383 | Definition of the CSV text: the export table, quoted field by field and joined. Its meaning is proved in ExportReadsBack and EmptyExport. |
| Pages.EmptyExport | web/pages.js:380-383 | With no reports the export is the header line alone. |
| Pages.BareReport | web/pages.js:381 | A report without a date or text prints as `<id>, null, '', ''`. |
| Charts.Classify | frontend/admin-panel/charts.js:51 | The buckets: Critical exactly outside [60,100]; At Risk exactly in [60,65) or (90,100]; Stable exactly in [65,90]. |
| Charts.CountIn | frontend/admin-panel/charts.js:51 | A bucket's count never exceeds the series length. |
| Charts.CountSnoc | frontend/admin-panel/charts.js:51 | Counting one more value adds one to the counter of its own bucket and leaves the other two unchanged, as `dist[...]++` does. |
| Charts.HealthTrends | frontend/admin-panel/charts.js:50-52 | The loop gives labels Stable, At Risk, Critical in that order, zero counts included, and the data are the buckets' counts. |
| Charts.CountsAddUp | frontend/admin-panel/charts.js:50-51 | Every value is counted exactly once: the counts sum to the series length. |
| Charts.CountAppend | frontend/admin-panel/charts.js:51 | Counting distributes over joining series. |
| Charts.AllStable | frontend/admin-panel/charts.js:51-52 | A series within [65,90] is all Stable, and the other buckets show 0. |
| Charts.StableCount | frontend/admin-panel/charts.js:51 | Values within [65,90] are all counted as Stable. |
| Charts.Proxy | frontend/admin-panel/charts.js:46 | The proxy lies in [70,90]. It equals 90 exactly at 75, and 70 exactly at distance 20 or more. |
| Charts.ProxySymmetric | frontend/admin-panel/charts.js:46 | The proxy is symmetric about 75. |
| Charts.ProxyFalls | frontend/admin-panel/charts.js:46 | The proxy never rises as a value moves away from 75. |
| Charts.ProxySeries | frontend/admin-panel/charts.js:46 | The proxy series has the input's length and is the proxy value by value. |
| Charts.Lookup | frontend/admin-panel/charts.js:41 | A missing key reads as undefined. |
| Charts.LookupAt | frontend/admin-panel/charts.js:41 | With distinct keys, each key reads its own entry. |
| Charts.EmotionChart | frontend/admin-panel/charts.js:39-41 | A missing distribution gives empty labels and data. Otherwise the labels are the keys in order and data[i] is the value of labels[i]. |
| Charts.SliceIsLookup | frontend/admin-panel/charts.js:41 | Each slice is `distribution[labels[i]]`. |

## Left out

- Numbers are integers. Floating-point values, exponent forms and numbers from 1e21 up print differently in JavaScript; the one exception is the chart series, which is real.
- JsText.DigitsValue: the value of a digit string is exact, while `parseInt` rounds a value above 2^53 to the nearest double (`parseInt("9007199254740993")` is 9007199254740992).
- `toLowerCase` and `trim` are modelled on ASCII letters and the ECMAScript white-space set. Unicode case mapping is not modelled. A character is a Unicode scalar value, whereas a JavaScript string is a sequence of UTF-16 code units: a character outside the Basic Multilingual Plane is one position here and two in JavaScript, so positions in `indexOf` and `trim` and the keys `Spread` gives a string ("0", "1", ...) are counted per scalar value.
- Prototype keys are not modelled. In JavaScript `roleMap['constructor']` and a cookie named `__proto__` touch Object.prototype; here they are plain keys.
- The database, Sequelize models, migrations and the 500 answers of failed queries are not modelled. A query is a function of the stored rows. Beyond `where`, order and limit, only its outcome is kept.
- StoredRows.Matches: a path id that parses to NaN (`/symptoms/abc`) is modelled as selecting no row, so the lists answer `[]` or null, and as an accepted create with that id. In the source the query carries the literal NaN into SQL, or a NaN `patient_id` reaches an INTEGER NOT NULL column, and PostgreSQL rejects it, so those requests fail with 500.
- Pages.SaveSettings: the stored row is passed in. The `where: { user_id }` of the findOrCreate, with the acting user `req.user?.id || 1` (Pages.ActingUserId), is not modelled, so the model does not say whose row is written; it models the create and update merge.
- Ties among rows with equal recorded_at are left to the store. The model fixes one order, and the contracts speak of every newest-first order.
- The report list (web/pages.js:207) and the export (web/pages.js:379) order by created_at. That order is the store's: the export takes the reports in the order given.
- JWT signing and verification, bcrypt, `decodeURIComponent`, `JSON.parse` and `JSON.stringify` are parameters or left abstract. The audit entry's details are kept as the object before `JSON.stringify`.
- Pages.DateOf keeps `new Date(start)` as the text it is parsed from. Date parsing is not modelled.
- Pages.ReportRecord takes created_at as its ISO text. `toISOString` itself is not modelled.
- The PatientReport model has no summary or details columns. In practice those CSV columns are always empty.
- Charts.HealthTrends takes the heart-rate series as numbers. A null or non-numeric entry, which JavaScript compares as 0 or NaN, is not modelled.
- The admin alert-settings write (web/pages.js:164-170) is not modelled beyond its target user. It copies three thresholds through findOrCreate/update.
- Rendering, redirects after a successful write, the JSON-versus-redirect choice on content-type, and the admin list pages' `limit 100`/`limit 20` queries are not modelled.
- Async sequencing, concurrent requests and findOrCreate races are not modelled.
- Auth.ParseCookies cuts every segment before the reduction, rather than inside it. Cutting is pure, so the result is the same.
- Sequelize's operator symbols `Op.or`, `Op.iLike`, `Op.gte` and `Op.lte` are written as the string keys "$or", "$iLike", "$gte" and "$lte".
