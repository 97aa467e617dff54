# RepoLens: the analysis pipeline, modelled in Dafny

RepoLens is a small Flask backend and a browser script. Given a GitHub organisation name,
the backend's `/analyze` handler validates the request and asks GitHub for the
organisation's public repositories. It turns each repository into a summary record
(name, description, stars, language, URL, last push, a canned "AI summary" and an activity
status) and answers with a message and the report. The script guards the input field and
reads the answer. It sorts the report by stars in place and derives one card per
repository, applying JavaScript's truthiness defaults.

The model has six modules:

- `Wrappers` (wrappers.dfy): `Option`, `Result`, and `MapAll`. `MapAll` is the "apply to
  every item in order, stop at the first failure" loop that both halves use.
- `Json` (json.dfy): parsed JSON values, Python's and JavaScript's truthiness rules,
  Python `dict.get`/`or`, and JavaScript property reads and `||`.
- `Text` (text.dfy): Python `strip()` and JavaScript `trim()`, each with its own exact
  set of white-space characters. Also substring search (`in`, `includes`), ASCII
  lower-casing, and decimal numerals with their read-back.
- `Backend` (backend.dfy): the `analyze` handler. It is a specification function,
  `AnalyzeOutcome`, built from the handler's stages: validation, upstream
  classification, the normalisation loop and the message choice. The methods `Analyze`
  and `BuildReport` carry the loop and are proved equal to that function.
- `Frontend` (frontend.dfy): the input guard, the handling of the server's answer, the
  in-place sort by stars on an `array`, the card derivation, `renderCards` as a loop, and
  `displayResults`.
- `Interplay` (interplay.dfy): lemmas about the two halves together. One shows that every
  status the backend sends gets the "active" badge. Another follows a backend summary
  into its card. Others follow the name the browser sends into the backend's validation,
  including a name the browser sends that the backend then rejects.

Inputs and outputs:

- The request body is the `Json` value `request.get_json()` returns. `JNull` is Python
  `None`, the value of a literal `null` body.
- The GitHub reply is an `Upstream` value: `Answered(status, text, payload)`, or
  `RequestFailed` when `requests.get` raises. A `payload` of `None` means
  `response.json()` would raise.
- A response is `Outcome(status, body)`. Every exception the handler's `except` catches
  becomes `Outcome(500, InternalError(fault))`. The `Fault` value names where the
  exception was raised; the text of `str(e)` is not modelled.

Behaviour of the handler worth knowing:

- A list item that is not an object is not skipped. `repo.get` raises, so the whole answer
  is the catch-all 500.
- An empty list answers "No public repositories found for '<org>'."; the "Successfully
  analyzed N repositories" message is only for a non-empty report.
- A 404 carries no `suggestions` list.
- A non-OK status other than 404 and 403 always gives 500, whatever the upstream status.
- Every 403 reads as a rate limit.
- `activity_status` and `last_push` are part of every summary.

## Model

| member | source | states |
|---|---|---|
| `Backend.Analyze` | backend/app.py:41-106 | The handler's answer, for every request body and every GitHub reply, is exactly `AnalyzeOutcome`: validation first, then the status rules, then the report built by the loop. |
| `Backend.BuildReport` | backend/app.py:71-102 | The `for repo in repos` loop with `append`, then the message choice. It answers what `ReportOutcome` says: the catch-all 500 with the first item's fault, or 200 with the report. |
| `Backend.AnalyzeOutcome` | backend/app.py:41-106 | The handler as a function: validation, then the status rules, then the loop and the message. Every answer it gives has status 200, 400, 404, 429 or 500. |
| `Backend.ValidateRequest` | backend/app.py:44-50 | Validation answers only with 400, or with 500 from the catch-all. A name it accepts is non-empty and has no Python white space at either end. `Backend.ValidationAccepts` says exactly which bodies pass, and `Backend.MissingOrgRejected`, `Backend.BlankOrgRejected` and `Backend.ValidationFaults` say which 400 or 500 every other body gets. |
| `Backend.ClassifyReply` | backend/app.py:56-71 | The classification answers only with 404, 429 or 500. A request that raises, or an OK reply that is not JSON, is the catch-all 500. An OK reply that is a JSON list is handed on as that list, and a list comes from nothing else. `Backend.UpstreamStatusOrder` gives the status rules in order. |
| `Backend.NormalizeRepo` | backend/app.py:72-91 | One pass of the loop body. An item that is not an object raises. A built summary has status "Active" or "Inactive" and a Python-true description and language. `Backend.NormalizesIff` says which objects normalise, and `Backend.FieldDefaults` and `Backend.ActivityStatus` give every field. |
| `Backend.Summarize` | backend/app.py:80 | The slice `desc[:80]` in the f-string raises unless the description is a string or a list, and gives a sentence exactly for a string; `Backend.SummaryOfText` gives the sentence and `Backend.SummaryOfList` the recorded slice of a list. |
| `Backend.IsActive` | backend/app.py:90 | `stars > 0` can be evaluated exactly for a number or a boolean, and raises for any other kind of value. It holds exactly for a number above 0 or `True`. |
| `Backend.Respond` | backend/app.py:93-102 | The message choice answers 200 and carries the report unchanged; `Backend.EmptyListMessage` and `Backend.CountInMessage` give the two messages. |
| `Backend.NormalizeAllMaps` | backend/app.py:71-91 | The loop succeeds iff every item normalises. The report then has exactly one entry per upstream item, in upstream order. |
| `Backend.FirstFault` | backend/app.py:71-106 | A failing loop fails with the fault of its first raising item; every item before it normalised. |
| `Backend.MissingOrgRejected` | backend/app.py:44-46 | A falsy body (a literal `null`, `false`, `0`, `""`, `[]` or `{}`), or an object without `org`, gives 400 "Request body must include 'org' key", whatever the GitHub reply. |
| `Backend.BlankOrgRejected` | backend/app.py:48-50 | An `org` string that is empty or all Python white space gives 400 "Organization name cannot be empty", whatever the GitHub reply. |
| `Backend.ValidationAccepts` | backend/app.py:44-50 | Validation passes iff the body is an object whose `org` is a string with a character that is not white space. It then hands on that string stripped: non-empty, with no white space at either end. |
| `Backend.ValidationFaults` | backend/app.py:44-50 | A truthy number or `True` body makes `"org" in data` raise. A list or string body that contains "org" has no `get`. An `org` that is not a string has no `strip`. Each is the catch-all 500. A non-empty list or string without "org" gets the 400 "Request body must include 'org' key". |
| `Backend.ValidationIgnoresUpstream` | backend/app.py:44-56 | When validation answers, the answer is the validation's and is the same for any two GitHub replies. |
| `Backend.UpstreamStatusOrder` | backend/app.py:57-69 | After validation the rules apply in order. 404 gives 404 "not found". 403 gives 429, rate limit or not. Any other 4xx/5xx gives 500 "GitHub API error: …". An OK reply that is not JSON is the catch-all 500. An OK reply that is not a list gives 500 "Unexpected API response format". An OK list goes on to the loop and the message choice (`ReportOutcome`). A request that raises is the catch-all 500. |
| `Backend.ReportFollowsUpstream` | backend/app.py:71-102 | When every item normalises, the answer is 200. Its report has one entry per upstream item, entry i being item i's summary. Its message is the empty-list text or the count text. |
| `Backend.OkOnlyFromCleanList` | backend/app.py:57-102 | A 200 answer means: validation passed, GitHub gave an OK list, and every item normalised. |
| `Backend.FaultyItemFails` | backend/app.py:71-106 | A single raising item anywhere in the list turns the answer into the catch-all 500. |
| `Backend.NormalizesIff` | backend/app.py:73-90 | An object normalises exactly when a Python-true `description` is a string or a list (so `desc[:80]` can be taken) and a present `stargazers_count` is a number or a boolean (so `stars > 0` can be evaluated). |
| `Backend.NormalizeFaultOrder` | backend/app.py:74-90 | A description that cannot be sliced raises first. A count that cannot be compared raises only when the description can be sliced. |
| `Backend.RaisingItems` | backend/app.py:73-90 | An item that is not an object raises at `repo.get`. An item whose `stargazers_count` is null raises (at `stars > 0`). |
| `Backend.FieldDefaults` | backend/app.py:73-80 | `description` becomes "No description available." and `language` becomes "N/A" when missing or Python-false; otherwise they are kept. `name`→"N/A", `html_url`→"#", `stargazers_count`→0 and `pushed_at`→"Unknown" only when the key is absent; a present value is kept. The entry's `ai_summary` is built from the entry's own description: for a string, "This repository focuses on " + its first 80 characters + "...". |
| `Backend.PresentNullKept` | backend/app.py:73-77 | A present null `name` or `html_url` stays null. A null `description` or `language` is replaced by its default. |
| `Backend.SummaryOfText` | backend/app.py:80 | The summary of a string description is "This repository focuses on " + its first 80 characters + "...". It is at most 27+80+3 characters long, contains a description of at most 80 characters whole, and is exactly 110 characters for a longer one. |
| `Backend.SummaryOfList` | backend/app.py:80 | A list description is sliced to its first 80 items, in order, and a list of 80 items or fewer is kept whole. |
| `Backend.ActivityStatus` | backend/app.py:75-90 | `activity_status` is "Active" or "Inactive". It is "Active" iff the star count is above zero (a Python boolean counts as 0/1). An absent count gives "Inactive". |
| `Backend.EmptyListMessage` | backend/app.py:93-97 | An empty upstream list gives 200 with `report: []` and "No public repositories found for '<org>'.". |
| `Backend.CountInMessage` | backend/app.py:99-102 | A non-empty report's message is "Successfully analyzed N repositories for '<org>'.". N is written in decimal and reads back as the report's length. |
| `Frontend.StartAnalysis` | frontend/script.js:22-27 | Nothing is requested iff the field is all JavaScript white space. Otherwise the request carries exactly `trim()` of the field: non-empty, with no white space at either end. |
| `Frontend.HandleResponse` | frontend/script.js:41-44 | The script fails exactly when the answer is not JSON or is `null`. An error it raises from a non-OK answer carries a truthy value. An OK answer is always loaded: with exactly the `report` array when there is one, and otherwise (`Frontend.NonArrayReportIsEmpty`) with an empty list. |
| `Frontend.ErrorMessageChoice` | frontend/script.js:41-42 | A non-OK object answer shows its `error` when that is truthy, and "Server error occurred" otherwise. |
| `Frontend.NonObjectErrorMessage` | frontend/script.js:41-42 | A non-OK answer that is an array, string, number or boolean has no `error` property, so it shows "Server error occurred". |
| `Frontend.NonArrayReportIsEmpty` | frontend/script.js:44 | An OK answer whose `report` is missing or not an array is displayed as an empty list. |
| `Frontend.StarKey` | frontend/script.js:66 | `stars \|\| 0` as the comparator's subtraction reads it. Its contract is stated by `Frontend.StarKeyOfStars`. |
| `Frontend.StarKeyOfStars` | frontend/script.js:66 | The key is the numeric `stars` when there is one, 0 when `stars` is missing or falsy (`null`, `false`, `0`, `""`), and 1 or 0 for a boolean. |
| `Frontend.SortByStars` | frontend/script.js:66 | After the sort, the array is a permutation of its old contents and is non-increasing by `stars \|\| 0`. |
| `Frontend.InsertDown` | frontend/script.js:66 | One insertion step of the sort: the sorted prefix grows by one and keeps its entries, the entries after it stay in place, and so the whole array keeps its entries. |
| `Frontend.CardOf` | frontend/script.js:81-88 | One card. A null entry throws. A card shows only JavaScript-true name, URL, description, summary and language, a non-empty status, and the badge `StatusClass` gives that status; `Frontend.CardDefaults` (object entries), `Frontend.NonObjectCard` (other non-null entries) and `Frontend.CardFaults` give every field and every modelled throw. |
| `Frontend.StatusClass` | frontend/script.js:86 | The badge is "active" or "inactive"; `Frontend.StatusClassActiveIff` says which. |
| `Frontend.RenderCards` | frontend/script.js:78-109 | The `forEach` loop gives exactly `Cards` of the array: one card per repository, in the array's order, or the first throwing entry's fault. |
| `Frontend.CardsMaps` | frontend/script.js:80-108 | Rendering succeeds iff every entry gives a card. It then gives exactly one card per entry, card i being entry i's. |
| `Frontend.StatusClassActiveIff` | frontend/script.js:86 | The badge class is "active" iff "active" occurs in the lower-cased status, and "inactive" otherwise. |
| `Frontend.StatusClassQuirk` | frontend/script.js:86 | "Active" and "Inactive" both give "active"; "Unknown" gives "inactive". |
| `Frontend.CardDefaults` | frontend/script.js:81-88 | Each card field falls back when the value is missing or JavaScript-falsy, and is kept otherwise. The fallbacks: "Unnamed Repository", "#", "No description available.", "No AI summary available.", "Unknown", 0 and "N/A". |
| `Frontend.CardFaults` | frontend/script.js:81-86 | A null entry throws (at `repo.repo_name`). So does a truthy `activity_status` that is not a string (at `toLowerCase`). |
| `Frontend.NonObjectCard` | frontend/script.js:81-88 | An entry that is a string, number, boolean or array has none of the properties read, so its card shows every default: "Unnamed Repository", "#", "No description available.", "No AI summary available.", "Unknown" with its badge, 0 and "N/A". |
| `Frontend.DisplayResults` | frontend/script.js:55-67 | An empty report only sets "No repositories found for \"<org>\"" and is not sorted. Otherwise the header is "Analysis Report (N Repos)". The array is then sorted by stars (a permutation, non-increasing) and rendered in that order. |
| `Frontend.Header` | frontend/script.js:56-62 | "No repositories found for \"<org>\"" for an empty report, "Analysis Report (N Repos)" otherwise. Its contract is stated by `Frontend.HeaderCount` and `Frontend.DisplayResults`. |
| `Frontend.HeaderCount` | frontend/script.js:62 | The header of a non-empty report states the count in decimal, which reads back as the report's length. |
| `Interplay.SummaryJson` | backend/app.py:82-91 | A summary as `jsonify` writes it, under the keys the browser reads. Its contract is stated by `Interplay.SummaryJsonFields`. |
| `Interplay.SummaryJsonFields` | backend/app.py:82-91 | The serialised summary has `ai_summary`, `activity_status`, `repo_name`, `description`, `language`, `stars`, `github_url` and `last_push` holding the summary's values. |
| `Interplay.BackendStatusesDrawnActive` | frontend/script.js:86 | Every summary the backend builds, "Active" or "Inactive", gets the "active" badge. |
| `Interplay.CardOfSummary` | frontend/script.js:81-88 | A serialised summary with a non-empty text and a backend status becomes a card. The card shows that text and status with the "active" badge, and a Python-true description or language as it is. A null name shows as "Unnamed Repository". The link is the summary's truthy `github_url`, and "#" otherwise. A numeric star count is the sort key. |
| `Interplay.SummaryCard` | backend/app.py:73-91 | For every item the backend normalises with a text summary, the browser builds a card. The card shows the backend's `ai_summary`, description and language, never the browser's own defaults for them. |
| `Interplay.SentNameReachesBackend` | frontend/script.js:22-38 | The browser sends `trim()` of the field. The backend strips it again: "cannot be empty" when nothing is left, otherwise the stripped name, which is the sent name itself when it has no Python white space at either end. |
| `Interplay.GuardsDisagree` | frontend/script.js:22-24 | The name U+001C passes the browser's `trim()` guard and is sent. The backend's `strip()` empties it, so the answer is 400 "Organization name cannot be empty". |
| `Text.Trim` | backend/app.py:48 | The trimmed text is empty iff the input is all white space. Otherwise it starts and ends with a character that is not white space. |
| `Text.TrimIsSlice` | backend/app.py:48 | The trimmed text is the block of the input between a white-space prefix and a white-space suffix. |
| `Text.TrimKeepsTrimmed` | backend/app.py:48 | `strip()` leaves a string alone when it does not start or end with white space, as the browser's trimmed name does not. |
| `Text.ContainsAt` | frontend/script.js:86 | `includes` finds an occurrence at any position. |
| `Text.ContainsWitness` | frontend/script.js:86 | `includes` holds only for a real occurrence. |
| `Text.NatToDecimal` | backend/app.py:100 | The count is written as a non-empty string of decimal digits with no leading zero. |
| `Text.DecimalRoundTrip` | backend/app.py:100 | Reading the written count back gives the count. |
| `Wrappers.MapAllSucceeds` | backend/app.py:71-91 | A loop that stops at the first failure succeeds iff every item succeeds. It then yields one result per item, in order. |
| `Wrappers.MapAllFirstFailure` | backend/app.py:72-91 | A failure is the failure of the first failing item. |
| `Wrappers.MapAllFailureSticks` | backend/app.py:72-91 | Once a prefix has failed, every longer prefix fails with the same failure. |
| `Json.TruthinessDiffersOnEmptyContainers` | backend/app.py:74-76 | Python's `or` and JavaScript's `\|\|` disagree exactly on `[]` and `{}`, and what Python counts as true JavaScript does too; so the card keeps the backend's description and language. |

## Left out

- Flask wiring is not modelled: routing, the two `home` routes, the CORS setup and the code that fails at import (`app` used before it is defined, `CCORS`). `analyze` is modelled as if the module loaded.
- The GitHub request itself (URL, headers, token) is not modelled. The reply is an input, and `requests.get` raising is the `RequestFailed` input. This is network I/O.
- The text of `response.text` is passed through as given. The text of `str(e)` is left out, and the `Fault` value stands for it.
- `print` logging and `jsonify` are left out. `Interplay.SummaryJson` serialises only summaries whose `ai_summary` is a string.
- `request.get_json()` raising is left out. Some Flask versions raise for a body that is not JSON, or not sent as JSON, and the catch-all then answers 500. The model takes the value `get_json()` returns.
- Backend.Summarize: a description that is a non-empty JSON list is sliced, and Python's `repr` renders the slice into the f-string. The model keeps the slice (`QuotedList`, stated by `Backend.SummaryOfList`) but does not render `repr`.
- Numbers are integers. Fractional JSON numbers, and how Python and JavaScript compare and coerce them, are not modelled.
- Python strings can hold lone surrogates; Dafny characters cannot.
- Frontend is modelled without DOM updates, `fetch`, `alert`, the `finally` block or event listeners. These are UI and async I/O; each step returns what the page would show.
- The name sort (`localeCompare`) and the last-push sort and date formatting (`new Date`, `toLocaleDateString`) are left out. They depend on the locale and on date parsing. The "stars" choice of the sort menu is the same `Frontend.SortByStars`.
- Frontend.SortByStars: stability is not stated, although ECMAScript's `Array.prototype.sort` is stable. The model sorts by stable insertion but proves only order and permutation.
- Frontend.StarKey: a `stars` value that is a string, list or object is ranked as 0. JavaScript's subtraction would coerce it with `ToNumber`. That can give NaN, which makes the comparator inconsistent and the order implementation-defined. For an object whose `valueOf` and `toString` cannot be called, it throws a `TypeError` inside the comparator. The backend only sends what GitHub gives for `stargazers_count`.
- Frontend.DisplayResults: with a null entry, the model reports the `TypeError` and leaves the array as it was. It does not say how far the JavaScript engine got with the sort before the comparator threw.
- Frontend.StatusClass: `toLowerCase` is modelled on ASCII letters only. Other characters are left unchanged.
- Frontend.CardOf: the string conversion that the card's HTML template and `new Date(repo.last_push)` apply to field values is not modelled, and so neither are its throws. One example is an object value whose `toString` and `valueOf` cannot be called. In that case the model builds a card where the script throws a `TypeError`.
- Frontend.HandleResponse: the value passed to `new Error(...)` is kept as a JSON value. Its conversion to a message string, and the message shown for a script error, are not modelled.
