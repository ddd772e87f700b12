# MedicReminder core decisions, modelled in Dafny

MedicReminder is a medication-reminder web application. It has:

- a React front end, where a user fills in a reminder form and uploads prescriptions;
- an Express back end with cookie/bearer authentication;
- a separate Python service that predicts likely diseases from selected symptoms.

The reminder dispatch engine (the Telegram setup imported at backend/src/index.js:4 and the schedule routes mounted in backend/src/app.js) is not part of this model. This project models the small deterministic decision and normalisation routines that surround it:

- **Reminder form** (`ScheduleForm`, `Duration`):
  - the list of medicine rows, with add, remove and update of one field. A remove is refused while only one row is left. With distinct ids the form never empties (`ScheduleForm.WithoutDistinctId`), but two rows that share an id are removed together (`ScheduleForm.DuplicateIdsEmptyTheForm`);
  - auto-fill of the rows from data extracted from a prescription scan;
  - the validation gate run on submit;
  - the payload posted to the schedule endpoint;
  - `parseDurationDays`, the free-text duration parser ("7 days", "2 weeks").
- **CORS policy** (`Cors`): the comma-separated allow-list taken from `CORS_ORIGIN`, and the decision on each request origin.
- **Authentication middleware** (`Auth`): the token comes from an `Authorization: Bearer` header, else from the `accessToken` cookie. A missing token gives 400 and a token that fails `jwt.verify` gives 401.
- **Disease metadata** (`DiseaseInfo`): the three severity tiers, the specialist table with its "General Physician" default, and the per-disease lookup in the disease list.
- **Disease prediction** (`Prediction`, `PredictionApi`, `PredictorApp`):
  - the 0/1 symptom vector;
  - the three best classes from the classifier's scores;
  - the `/predict` and `/symptoms` endpoints;
  - the interactive predictor's result table and alert styles.
- **Header** (`Header`): which navigation links are shown for the login state, the initial dark/light theme, and the toggle.

Foreign calls are parameters:

- `jwt.verify` is a function `verify(token, secret)` that returns the payload or nothing.
- The classifier's `predict_proba` and the label decoder are functions.
- `np.argsort` is a function parameter, constrained only by its contract `IsArgsort`, so the order among equal scores is left open.
- A single reading of `Date.now()` (adding a row, resetting the form) is the parameter `now`. The auto-fill reads the clock once per extracted item, so there the readings are a function `clock`, and item `i` gets the id `clock(i) + i`.
- The success flag of the schedule post is the parameter `accepted`.
- The `env` parameters of `Cors.AllowedOrigins` and `Auth.JwtSecret` are `process.env` as it stands when backend/src/app.js and backend/src/middleware/auth.middleware.js are evaluated. Both read the environment at module load (backend/src/app.js:17, backend/src/middleware/auth.middleware.js:3). ES-module imports are evaluated before the body of backend/src/index.js, which calls `dotenv.config` only at backend/src/index.js:6-8. A variable set only in `./.env` therefore reaches neither the allow-list nor the secret, although backend/src/index.js:11 then logs the `.env` value of `CORS_ORIGIN`.
- Browser storage, the media query and the root `dark` class are fields of `Header.Theme` and values passed in.

One empty string stands for every falsy value of a form or extracted field. An absent optional value (header, cookie, environment variable, stored theme) is `Option.None`.

Two behaviours of the form's gate are easy to miss, and the model states them:

- A duration of "0 days" passes the gate and is sent as 0 days (`ScheduleForm.ZeroDurationPassesGate`). Nothing clamps it to at least one day.
- The gate demands a dosage, although the payload does not carry one (`ScheduleForm.SchedulesIgnoreIdAndDosage`).

The severity list and specialist table in `diseasePred/app.py` are the same as in `diseasePred/api_server.py`. They are written once here, and the rows below cite both files.

## Model

| member | source | states |
|---|---|---|
| Text.ToLower | frontend/src/components/ScheduleSetup.jsx:108 | lower-casing keeps the length and maps each character on its own: ASCII capitals become lower case, the Kelvin sign becomes "k", and everything else is kept |
| Text.ToLowerAppend | frontend/src/components/ScheduleSetup.jsx:108 | lower-casing a concatenation is concatenating the lower-cased parts |
| Text.Trim | frontend/src/components/ScheduleSetup.jsx:108 | the trimmed text is a slice of the input; everything cut off before and after it is whitespace; it neither starts nor ends with whitespace; so exactly the maximal whitespace margins are removed |
| Text.TrimLacks | backend/src/app.js:18 | trimming cannot bring in a character that the input lacks |
| Text.StartsWith | backend/src/middleware/auth.middleware.js:7 | `startsWith`: the prefix is no longer than the text and equals its first characters |
| Text.StartsWithIffConcat | backend/src/middleware/auth.middleware.js:7 | a text starts with a prefix exactly when it is that prefix followed by some rest |
| Text.Contains | frontend/src/components/ScheduleSetup.jsx:112 | `includes`: the pattern occurs at some position of the text |
| Text.ContainsInContext | frontend/src/components/ScheduleSetup.jsx:112 | text added before and after a string keeps every pattern the string contains |
| Text.ContainsTrim | frontend/src/components/ScheduleSetup.jsx:108-112 | trimming the text never changes whether it contains a trimmed non-empty word such as "week" |
| Text.Split | backend/src/app.js:18 | splitting gives at least one piece; no piece holds the separator; joining the pieces with the separator gives back the input |
| Text.SplitJoin | backend/src/app.js:18 | splitting a join of separator-free pieces gives the pieces back |
| Text.SplitAfterWord | backend/src/middleware/auth.middleware.js:8 | text that starts with a separator-free word and a separator splits into that word followed by the split of the rest |
| Duration.FirstDigitRun | frontend/src/components/ScheduleSetup.jsx:109 | there is no run of digits exactly when the text has no digit; a run found is non-empty, all digits, and is the maximal run that starts at the first digit of the text |
| Duration.FirstDigitRunAt | frontend/src/components/ScheduleSetup.jsx:109 | whatever precedes the first digit, the run found is the longest digit prefix from that digit on |
| Duration.DecimalValue | frontend/src/components/ScheduleSetup.jsx:110 | `Number` of a digit run: the value of the digits read in base ten, leading zeros allowed; `DecimalString` is its inverse |
| Duration.DaysOfNormalised | frontend/src/components/ScheduleSetup.jsx:109-115 | on the normalised text: 1 when there is no digit; otherwise the value of the digit run starting at the first digit, times 7 exactly when the text contains "week" |
| Duration.DecimalString | frontend/src/components/ScheduleSetup.jsx:110 | the decimal rendering of a number is non-empty, all digits, and reads back as the number |
| Duration.ParseDurationDays | frontend/src/components/ScheduleSetup.jsx:106-116 | with no digit the result is 1 day; otherwise the first digit run counts weeks when the lower-cased text contains "week" (×7), and days in every other case |
| Duration.FirstRunOfTrim | frontend/src/components/ScheduleSetup.jsx:108-109 | trimming does not change the first digit run |
| Duration.NoDigitMeansOneDay | frontend/src/components/ScheduleSetup.jsx:107-111 | a text without digits, including the empty one, gives 1 |
| Duration.FirstRunSkipsNonDigits | frontend/src/components/ScheduleSetup.jsx:109 | a digit-free prefix does not change the first digit run |
| Duration.DaysRoundTrip | frontend/src/components/ScheduleSetup.jsx:109-115 | a number written after a digit-free prefix and before a unit with no "w" parses back as exactly that number of days: no clamping, a leading "-" ignored |
| Duration.WeeksRoundTrip | frontend/src/components/ScheduleSetup.jsx:112 | a number followed by a unit containing "week" parses as seven times the number |
| Duration.LoweredWeeksRoundTrip | frontend/src/components/ScheduleSetup.jsx:108-112 | the same when "week" only appears once the unit is lower-cased |
| Duration.CaseInsensitive | frontend/src/components/ScheduleSetup.jsx:108 | lower-casing the text first does not change the result |
| Duration.ToLowerIdempotent | frontend/src/components/ScheduleSetup.jsx:108 | lower-casing twice is lower-casing once |
| Duration.FirstRunWins | frontend/src/components/ScheduleSetup.jsx:109-112 | "1 week 2 days" gives 7: only the first run counts, and "week" wins over "day" |
| Duration.ExampleWeeks | frontend/src/components/ScheduleSetup.jsx:112 | "2 weeks" gives 14 |
| Duration.ExampleDays | frontend/src/components/ScheduleSetup.jsx:113 | "7 days" gives 7 |
| Duration.ExampleZeroDays | frontend/src/components/ScheduleSetup.jsx:113 | "0 days" gives 0 |
| Duration.ExampleNegative | frontend/src/components/ScheduleSetup.jsx:109-113 | "-3 days" gives 3 |
| Duration.ExampleKelvin | frontend/src/components/ScheduleSetup.jsx:108-112 | "2 wee" followed by the Kelvin sign gives 14, because lower-casing turns that sign into "k" |
| Duration.ExampleNoNumber | frontend/src/components/ScheduleSetup.jsx:110-111 | "as needed" gives 1 |
| ScheduleForm.SetField | frontend/src/components/ScheduleSetup.jsx:70 | setting a field keeps the id, gives the field the new value and leaves the other fields as they were |
| ScheduleForm.WithoutId | frontend/src/components/ScheduleSetup.jsx:64 | a row is kept exactly when it was there and its id differs; the list does not grow |
| ScheduleForm.WithoutIdAppend | frontend/src/components/ScheduleSetup.jsx:64 | removal distributes over concatenation, so the kept rows stay in their order |
| ScheduleForm.WithoutDistinctId | frontend/src/components/ScheduleSetup.jsx:62-66 | when the ids are distinct, a removal takes away at most one row, so the keep-one guard leaves the form non-empty |
| ScheduleForm.DuplicateIdsEmptyTheForm | frontend/src/components/ScheduleSetup.jsx:62-66 | two rows sharing the removed id both go, so with duplicate ids the guard does not keep a row |
| ScheduleForm.WithoutAbsentId | frontend/src/components/ScheduleSetup.jsx:64 | removing an id that no row has changes nothing |
| ScheduleForm.UpdateWhere | frontend/src/components/ScheduleSetup.jsx:68-72 | same length; each row with the id has the field set; every other row is unchanged |
| ScheduleForm.UpdateKeepsIds | frontend/src/components/ScheduleSetup.jsx:68-72 | an update never changes any row's id |
| ScheduleForm.UpdateIdempotent | frontend/src/components/ScheduleSetup.jsx:68-72 | applying the same update twice is applying it once |
| ScheduleForm.RawItems | frontend/src/components/ScheduleSetup.jsx:30-36 | the `prescription` array first, then the `medications` array, then a lone `medications` object wrapped in a list, else nothing |
| ScheduleForm.FromExtracted | frontend/src/components/ScheduleSetup.jsx:40-46 | a filled row has the given id and an empty time; its name is `medicine` or else `name`; its dosage is `dosage` or else `dose`; it keeps the item's duration |
| ScheduleForm.FormIsEmpty | frontend/src/components/ScheduleSetup.jsx:21-26 | the form is empty when it has exactly one row and that row's four fields are all empty; the id is not looked at |
| ScheduleForm.AutoFilled | frontend/src/components/ScheduleSetup.jsx:17-49 | the rows after the effect: unchanged without extracted data, for an edited form, or with no items; otherwise the normalised items; its properties are stated by AutoFillRule and AutoFillKeepsEdits |
| ScheduleForm.Normalize | frontend/src/components/ScheduleSetup.jsx:40-46 | one row per extracted item, in order; item `i` gets the id `clock(i) + i`, from the clock reading taken for it |
| ScheduleForm.NormalizedIdsIncrease | frontend/src/components/ScheduleSetup.jsx:40-41 | with a clock that never runs backwards, the filled rows' ids strictly increase, so they are distinct |
| ScheduleForm.AutoFillRule | frontend/src/components/ScheduleSetup.jsx:17-49 | the rows are replaced only when the form is a single blank row and there is at least one extracted item; a replaced form is exactly `Normalize` of the items: item `i` has the id `clock(i) + i`, an empty time, its duration and its preferred name and dosage |
| ScheduleForm.AutoFillKeepsEdits | frontend/src/components/ScheduleSetup.jsx:20-28 | a form with more rows, or with any field filled in, is never overwritten |
| ScheduleForm.EntryFor | frontend/src/components/ScheduleSetup.jsx:121-124 | the entry for one row has the row's name, its time and its parsed duration |
| ScheduleForm.Schedules | frontend/src/components/ScheduleSetup.jsx:120-125 | one entry per row, in order; entry `i` is `EntryFor` of row `i` |
| ScheduleForm.SchedulesIgnoreIdAndDosage | frontend/src/components/ScheduleSetup.jsx:120-125 | ids and dosages do not affect the payload |
| ScheduleForm.IsComplete | frontend/src/components/ScheduleSetup.jsx:82 | a row passes the gate when its name, dosage, time and duration are all non-empty |
| ScheduleForm.BuildPayload | frontend/src/components/ScheduleSetup.jsx:76-127 | it fails with MissingChatId exactly when the chat id is empty; it fails with IncompleteMedicine exactly when the chat id is set and some row lacks a field; otherwise the payload is the chat id with `Schedules` of the rows, one entry per row, each with a non-empty name and time |
| ScheduleForm.SingleCompleteRow | frontend/src/components/ScheduleSetup.jsx:76-127 | a set chat id with one complete row gives that one entry |
| ScheduleForm.ZeroDurationPassesGate | frontend/src/components/ScheduleSetup.jsx:81-125 | a complete row with duration "0 days" is sent with duration 0 |
| ScheduleForm.Scheduler.constructor | frontend/src/components/ScheduleSetup.jsx:5-14 | the form starts with no chat id and one blank row with id 1 |
| ScheduleForm.Scheduler.SetChatId | frontend/src/components/ScheduleSetup.jsx:198 | the chat id becomes the typed value; the rows are kept |
| ScheduleForm.Scheduler.AddMedicine | frontend/src/components/ScheduleSetup.jsx:51-60 | exactly one blank row with id `now` is appended; nothing else changes |
| ScheduleForm.Scheduler.RemoveMedicine | frontend/src/components/ScheduleSetup.jsx:62-66 | with one row or none nothing changes; otherwise the rows with that id are removed |
| ScheduleForm.Scheduler.UpdateMedicine | frontend/src/components/ScheduleSetup.jsx:68-72 | the rows become the update of the old rows; the chat id is kept |
| ScheduleForm.Scheduler.ApplyExtracted | frontend/src/components/ScheduleSetup.jsx:17-49 | the rows become the auto-filled form; the chat id is kept |
| ScheduleForm.Scheduler.CreateSchedule | frontend/src/components/ScheduleSetup.jsx:74-143 | a failed gate changes nothing and reports the error; a passed gate posts the payload; only an accepted post resets the form to an empty chat id and one blank row |
| Cors.TrimNonEmpty | backend/src/app.js:18 | every kept entry is non-empty and trimmed |
| Cors.TrimNonEmptyLacks | backend/src/app.js:18 | no entry holds a character that no piece holds |
| Cors.TrimNonEmptyMembers | backend/src/app.js:18 | a string is kept exactly when it is non-empty and is the trimmed form of some piece |
| Cors.AllowedOrigins | backend/src/app.js:17-19 | an unset or empty variable gives the empty list; every entry is non-empty, trimmed and free of commas; `env` is the variable as read at module load |
| Cors.AllowedOriginsMembers | backend/src/app.js:17-19 | an origin is on the list exactly when it is non-empty and is the trimmed form of a comma-separated piece of the variable |
| Cors.BlankPiecesVanish | backend/src/app.js:18 | pieces made only of whitespace leave nothing |
| Cors.CommasAndSpacesMeanUnset | backend/src/app.js:17-28 | a variable made only of commas and whitespace gives the empty list, which admits every origin |
| Cors.AllowedOriginsOfJoin | backend/src/app.js:17-19 | a list of clean origins joined with commas parses back to itself |
| Cors.OriginDecision | backend/src/app.js:23-36 | a refusal always carries "Origin not allowed by CORS" |
| Cors.NoOriginAllowed | backend/src/app.js:25 | a request without an origin (absent or empty) is always admitted |
| Cors.ListedIffAllowed | backend/src/app.js:28-35 | with a non-empty list, a non-empty origin is admitted exactly when it equals an entry |
| Cors.AdmittedIffListed | backend/src/app.js:17-35 | for a variable built from clean origins, an origin is admitted exactly when it is absent from the request, empty, or one of them |
| Cors.ExactMatchOnly | backend/src/app.js:30 | the match is case-sensitive and the origin is not trimmed |
| Auth.JwtSecret | backend/src/middleware/auth.middleware.js:3 | the secret is never empty; a set, non-empty variable is used as is; an unset or empty variable falls back to the fixed, publicly known "dev-secret" |
| Auth.HeaderToken | backend/src/middleware/auth.middleware.js:6-9 | a header token exists exactly when the header starts with "Bearer "; it contains no space |
| Auth.SelectToken | backend/src/middleware/auth.middleware.js:10 | a selected token is non-empty and is the header token or the cookie |
| Auth.Authenticate | backend/src/middleware/auth.middleware.js:5-22 | 400 "Token Not Found" exactly when there is no token; otherwise the decoded payload is passed on if `verify` accepts the token under the secret, else 401 "Invalid Token" |
| Auth.HeaderPreferred | backend/src/middleware/auth.middleware.js:6-10 | a bearer header wins over the cookie, and its token stops at the next space |
| Auth.EmptyFieldFallsBack | backend/src/middleware/auth.middleware.js:7-10 | "Bearer " alone, or followed by another space, falls back to the cookie |
| Auth.OtherPrefixIgnored | backend/src/middleware/auth.middleware.js:7-9 | a header with any other prefix is ignored |
| Auth.OtherSchemesIgnored | backend/src/middleware/auth.middleware.js:7 | "bearer abc" and "Token abc" are ignored |
| Auth.CookieFallback | backend/src/middleware/auth.middleware.js:10-11 | without a header token, a non-empty cookie is the token and anything else is no token |
| DiseaseInfo.TiersDisjoint | diseasePred/api_server.py:30-42 | no name is in both the severe and the moderate list |
| DiseaseInfo.SeverityOf | diseasePred/api_server.py:30-42 | Severe exactly when the lower-cased name is in the severe list; Moderate exactly when it is in the moderate list; Mild exactly when it is in neither; the same tiers at diseasePred/app.py:45-54 |
| DiseaseInfo.SpecialistOf | diseasePred/api_server.py:44-140 | the table's specialist for the lower-cased name when it is a key, else "General Physician"; the same table and default at diseasePred/app.py:57-179 |
| DiseaseInfo.LoadDiseaseInfo | diseasePred/api_server.py:30-140 | one row per disease name, in order, with that name's tier and specialist |
| DiseaseInfo.FindRow | diseasePred/api_server.py:161 | a found row is the first row whose name matches ignoring case; nothing is found exactly when no row matches ignoring case |
| DiseaseInfo.FindRowAt | diseasePred/api_server.py:161-162 | when row `k` is the first match, that row is the one found |
| DiseaseInfo.Describe | diseasePred/api_server.py:161-163 | the specialist and severity of the first row whose name matches ignoring case; "General Physician" and "Mild" when no row matches |
| DiseaseInfo.TablesIgnoreCase | diseasePred/api_server.py:30-140 | names equal after lower-casing get the same tier and specialist |
| DiseaseInfo.DescribeLoaded | diseasePred/api_server.py:161-163 | a predicted disease with a matching row gets its own tier and specialist; one without gets "General Physician" and "Mild" |
| DiseaseInfo.ExactKeys | diseasePred/api_server.py:37-95 | the match is exact: "arthritis of the hip" goes to an orthopedic surgeon and is mild, while "arthritis" is moderate |
| DiseaseInfo.ConstipationToGastroenterologist | diseasePred/api_server.py:132 | "chronic constipation", in any letter case, goes to a gastroenterologist and is mild |
| DiseaseInfo.MissingRowHidesSeverity | diseasePred/api_server.py:161-163 | "stroke" is severe by the tiers, yet shows as mild when the disease list has no row for it |
| Prediction.InputVector | diseasePred/api_server.py:150 | one 0/1 entry per known symptom, 1 exactly when that symptom was requested; the same vector at diseasePred/app.py:208 |
| Prediction.SameMembersSameVector | diseasePred/api_server.py:150 | two selections holding the same names give the same vector |
| Prediction.ExtraSymptomIgnored | diseasePred/api_server.py:150 | a repeated symptom or an unknown one leaves the vector unchanged |
| Prediction.Reversed | diseasePred/api_server.py:156 | reversing keeps the length and puts entry `i` at position `n-1-i` |
| Prediction.TopOf | diseasePred/api_server.py:156 | the first `k` positions of the reversed sort, as many as there are up to `k` |
| Prediction.TopOfArgsort | diseasePred/api_server.py:156 | for any sort order `np.argsort` may return, the chosen classes are as many as there are up to `k`, at distinct valid indices, in non-increasing score order, and no class left out scores above a chosen one |
| Prediction.TopCount | diseasePred/api_server.py:156 | with three or more classes exactly three are chosen; with fewer, all of them |
| Prediction.AllIndicesChosen | diseasePred/api_server.py:156 | `n` distinct indices below `n` include every index below `n` |
| PredictionApi.ItemFor | diseasePred/api_server.py:158-164 | the item carries the decoded name and its score; its specialist and severity come from the first matching row, or are "General Physician" and "Mild" when none matches |
| PredictionApi.Predict | diseasePred/api_server.py:144-166 | an empty request gets 400 "symptoms must be a non-empty list" and nothing else does; otherwise the response holds the items of a top-3 choice for the request's vector, best first, and the accuracy |
| PredictionApi.TopResults | diseasePred/api_server.py:157-164 | one item per chosen class, in the chosen order, each the `ItemFor` of that class |
| PredictionApi.GetSymptoms | diseasePred/api_server.py:169-174 | 500 "Symptoms not loaded" exactly when no symptom list is loaded; otherwise the list and the accuracy |
| PredictorApp.StyleOf | diseasePred/app.py:230-235 | an error alert exactly for Severe, a warning exactly for Moderate, success exactly for Mild |
| PredictorApp.RowFor | diseasePred/app.py:222-237 | the row carries the decoded name and the score times 100, in the alert style of its severity; specialist and severity come from the first matching row, or are the defaults |
| PredictorApp.PredictPressed | diseasePred/app.py:203-237 | no selection shows only the warning; otherwise one row per class of a top-3 choice for the selection's vector, best first |
| PredictorApp.ResultsTable | diseasePred/app.py:222-237 | one row per chosen class, in the chosen order, each the `RowFor` of that class |
| PredictorApp.AgreesWithApi | diseasePred/app.py:222-228 | the predictor and the API report the same name, specialist and severity for a class, with the score shown as a percentage |
| Header.ShownFor | frontend/src/components/header.jsx:57 | logged in, every entry not marked for guests is shown; logged out, every entry not marked as needing a login |
| Header.VisibleItems | frontend/src/components/header.jsx:55-58 | the shown entries are the declared ones with some left out, in the declared order |
| Header.VisibleNil | frontend/src/components/header.jsx:55-58 | the filter of the empty list is empty |
| Header.VisibleCons | frontend/src/components/header.jsx:55-58 | the filter equation for a non-empty list: the first entry is kept exactly when its flag allows it, and the filter goes on with the rest; with `VisibleNil` it fixes the result entry by entry, copies included |
| Header.VisibleMembers | frontend/src/components/header.jsx:55-58 | an entry is shown exactly when it is declared and its flag allows it for the login state |
| Header.UnflaggedAlwaysShown | frontend/src/components/header.jsx:55-58 | an entry without a flag is shown whether or not someone is logged in |
| Header.VisibleOfShape | frontend/src/components/header.jsx:29-58 | over a list shaped like the declared one, logged in shows the unflagged and member entries, and logged out shows the unflagged and guest entries |
| Header.LoggedInItems | frontend/src/components/header.jsx:29-58 | logged in: Home, Upload, Prescriptions, Create Schedule |
| Header.LoggedOutItems | frontend/src/components/header.jsx:29-58 | logged out: Home, Login, Register |
| Header.InitialDark | frontend/src/components/header.jsx:13-17 | a non-empty stored value decides (dark exactly when it is "dark"); otherwise the system preference decides |
| Header.ThemeName | frontend/src/components/header.jsx:26 | the stored name is "dark" exactly for the dark theme and "light" exactly for the light one |
| Header.StoredThemeWins | frontend/src/components/header.jsx:17-26 | a theme written by the toggle is the one chosen at the next load, whatever the system preference |
| Header.Toggled | frontend/src/components/header.jsx:22-27 | the flag is negated, the root class follows it, and storage holds "dark" or "light" to match |
| Header.ToggleTwice | frontend/src/components/header.jsx:13-27 | two toggles restore the flag, and storage then names the original theme; a reload after a toggle keeps the new theme |
| Header.Theme.constructor | frontend/src/components/header.jsx:9 | the flag starts false; storage and the root class are as the page has them |
| Header.Theme.Initialize | frontend/src/components/header.jsx:12-20 | the flag and the root class take the initial decision; storage is untouched |
| Header.Theme.Toggle | frontend/src/components/header.jsx:22-27 | the state becomes the toggled state |

## Left out

- The reminder dispatch engine (timers, Telegram sends, schedule controllers, persistence) is not part of this model.
- The back end's own reading of `duration` (the `parseInt` named at frontend/src/components/ScheduleSetup.jsx:123) is not part of this model.
- I/O is not modelled: `alert`, `console.log`, the HTTP post, Streamlit and JSX rendering, and the formatting of percentages with two decimals.
- Model and data loading are not modelled: the pickle and CSV files, and the model download in `diseasePred/app.py`.
- The classifier itself, `LabelEncoder.inverse_transform` and `np.argsort` are function parameters, not modelled code.
- `diseasePred/new.py` (model training) is left out.
- `backend/src/models/user.model.js` (a schema plus hashing and signing wrappers) is left out.
- The remaining plumbing (server start-up, database connection, route mounting, layout components) is left out.
- Text.ToLower: lower-cases ASCII capitals and the Kelvin sign only. JavaScript's `toLowerCase` and Python's `lower` also map other letters, some to more than one character. None of those others becomes a digit or a letter of "week", so the duration parser is not affected. Case-insensitive matching of disease names outside ASCII is.
- Duration.ParseDurationDays: the model keeps the exact integer. `Number` on a digit run of more than about 15 significant digits gives a rounded double. A run whose value exceeds the largest double (about 1.8 × 10^308), or whose value times 7 does, gives `Infinity`, which the JSON payload carries as `null`. JavaScript's `\d` matches ASCII digits only, as here.
- ScheduleForm.Normalize: every extracted item is assumed to be an object. A `null` item (as in `{"prescription": [null]}`) makes `p.medicine` throw a TypeError at frontend/src/components/ScheduleSetup.jsx:41. The effect then stops before `setMedicines` at frontend/src/components/ScheduleSetup.jsx:48, the error escapes the component, and the form stays unfilled. The model has no such item and no such error path.
- ScheduleForm.Medicine: every falsy field value (`undefined`, `null`, `0`, `""`) is the empty string, and the form's values are strings.
- ScheduleForm.UpdateWhere: the field is one of the four keys the form's inputs use. `updateMedicine` with any other key would add a property; that case is not modelled.
- ScheduleForm.Scheduler.CreateSchedule: the awaited post is modelled as one atomic step with the validation and the reset. While the real post is pending the form stays live. Edits typed in that window are wiped by a successful reset, and a second click sends the payload a second time; neither is represented. The post's result is one flag. A rejected post and a thrown error both leave the form as it was. The messages shown are not modelled.
- Auth.Authenticate: a `next()` that throws inside the `try` block would also produce the 401 answer. This is not modelled, because `next` is the rest of the server.
- DiseaseInfo.SpecialistOf: no lemma shows that a name outside the table, such as plain "arthritis", falls back to the default. That would need a non-membership proof over the 93-key table. The general fallback is stated by the contract and by DiseaseInfo.DescribeLoaded.
- Prediction: scores are exact `real` numbers. NaN and floating-point rounding of `predict_proba` are not modelled.
- Prediction.IsArgsort: this is the only property assumed of the sort. Which of several equal scores comes first is left open.
- PredictorApp.StyleOf: severities are the three tiers. A severity string outside them cannot occur, because the tiers are the table's only values.
- Header: the login state is a boolean. Redux's `state.auth.status` is read for truthiness only.
