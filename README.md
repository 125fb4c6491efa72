# Job-launch core of the ARI control panel

The ARI web panel (`webapp/app.py`) is a Flask application. Signed-in users use it
to start the Azure Resource Inventory PowerShell script (`run_ari.ps1`) for a
tenant and a list of subscriptions. Most of the file is framework and identity
plumbing. This project models the small deterministic core inside the two
job-launch handlers:

- **`is_authenticated`**: a session is signed in when it has a `user` entry and a
  truthy `token_cache`.
- **`execute_ari`** (form handler): answers 401 when not signed in. Otherwise it
  answers 400 when the tenant field is blank. Otherwise it reads the two
  checkboxes (`== 'on'`) and parses the subscription text: split on newlines and
  commas, strip each piece, drop empty pieces. It formats the execution id
  `ari-YYYYMMDD-HHMMSS`, appends the result record to `session['executions']`
  (creating the list if needed) and returns that record.
- **`api_run_ari`** (JSON handler): answers 401 when not signed in. Otherwise it
  reads the body with defaults (`include_costs` and `include_tags` default to
  true). It builds the argument vector
  `pwsh -File <script> [-TenantID t] [-SubscriptionIDs a,b,…]`, starts the
  process, and appends an `execution_info` record with status `running`.

Modules, one per concern of that file:

| file | module | what it holds |
|---|---|---|
| `wrappers.dfy` | `Wrappers` | `Option`, `Result` |
| `text.dfy` | `Text` | Python's `str.strip`, one-character `replace`, `split`, `join`, with their laws |
| `subscriptions.dfy` | `Subscriptions` | the subscription-list parser and its properties |
| `execution_ids.dfy` | `ExecutionIds` | zero-padded digits, the execution id, reading it back |
| `launch_commands.dfy` | `LaunchCommands` | the argument vector (an imperative list build) and how a script reads it |
| `requests.dfy` | `Requests` | form validation and JSON-body defaults, as pure functions |
| `sessions.dfy` | `Sessions` | the session as a class (`user`, `tokenCache`, `executions`) and the two handlers as methods on it |

The clock, the script location and the outcome of the process start are
parameters of the handler methods. The Flask `request` becomes a `Form` map or a
`JsonRequest`, and the Flask `session` becomes a `Session` object.

What the code does and does not do, in a few facts:

- The parser keeps duplicates: `"a, b,, a"` gives `["a", "b", "a"]`
  (`DuplicatesKept`).
- Ids depend only on the UTC second, so two launches in the same second get the
  same id (`SameIdIffSameSecond`).
- There are no statuses, status updates, per-identity history or 403/404
  answers. Records only pile up in `session['executions']`, and the JSON
  handler's record stays `running`.
- In the JSON handler the tenant is neither stripped nor required. An empty
  tenant only leaves out `-TenantID`.
- The JSON handler neither strips nor splits its subscription list. It passes
  the entries, comma-joined, as they came: `["a,b", " c"]` reaches the script as
  `a,b, c`.

## Model

All source paths are under `Documents/projetos/AUTOMACAO_CUSTOS_AZURE/webapp/`.

| member | source | states |
|---|---|---|
| `Text.Strip` | Documents/projetos/AUTOMACAO_CUSTOS_AZURE/webapp/app.py:177-178 | `str.strip()`: the result has no whitespace at either end and is no longer than its input |
| `Text.TrimStartSuffix` | Documents/projetos/AUTOMACAO_CUSTOS_AZURE/webapp/app.py:177-178 | the leading part that `lstrip` removes is all whitespace, and what remains is a suffix of the input |
| `Text.TrimEndPrefix` | Documents/projetos/AUTOMACAO_CUSTOS_AZURE/webapp/app.py:177-178 | the trailing part that `rstrip` removes is all whitespace |
| `Text.StripSlice` | Documents/projetos/AUTOMACAO_CUSTOS_AZURE/webapp/app.py:177-178 | the stripped text is a contiguous slice of the input, and only whitespace lies before and after it |
| `Text.StripEmpty` | Documents/projetos/AUTOMACAO_CUSTOS_AZURE/webapp/app.py:183 | a field strips to the empty string exactly when it is all whitespace |
| `Text.StripStripped` | Documents/projetos/AUTOMACAO_CUSTOS_AZURE/webapp/app.py:189 | stripping is idempotent: a text with no whitespace at either end is unchanged |
| `Text.StripChars` | Documents/projetos/AUTOMACAO_CUSTOS_AZURE/webapp/app.py:189 | stripping introduces no character that the input lacks |
| `Text.Replace` | Documents/projetos/AUTOMACAO_CUSTOS_AZURE/webapp/app.py:189 | `replace('\n', ',')`: same length; each newline becomes a comma and every other character is kept |
| `Text.Split` | Documents/projetos/AUTOMACAO_CUSTOS_AZURE/webapp/app.py:189 | `split(',')` yields at least one piece and no piece contains the separator |
| `Text.SplitLacks` | Documents/projetos/AUTOMACAO_CUSTOS_AZURE/webapp/app.py:189 | a character missing from the text is missing from every piece |
| `Text.Join` | Documents/projetos/AUTOMACAO_CUSTOS_AZURE/webapp/app.py:306 | `sep.join(parts)`: no parts give the empty text and the first part is a prefix of the result; `JoinSplit` and `SplitJoin` make it the inverse of `Split` |
| `Text.JoinLast` | Documents/projetos/AUTOMACAO_CUSTOS_AZURE/webapp/app.py:306 | the last part is a suffix of the join |
| `Text.JoinSplit` | Documents/projetos/AUTOMACAO_CUSTOS_AZURE/webapp/app.py:189 | joining the pieces of a split with the separator gives back the text |
| `Text.SplitJoin` | Documents/projetos/AUTOMACAO_CUSTOS_AZURE/webapp/app.py:306 | splitting a join of separator-free pieces gives back the pieces |
| `Text.SplitConcat` | Documents/projetos/AUTOMACAO_CUSTOS_AZURE/webapp/app.py:189 | splitting `a + sep + b` gives the pieces of `a` followed by those of `b` |
| `Text.SplitWithoutSeparator` | Documents/projetos/AUTOMACAO_CUSTOS_AZURE/webapp/app.py:189 | a text without the separator is a single piece |
| `Text.SplitAllWhitespace` | Documents/projetos/AUTOMACAO_CUSTOS_AZURE/webapp/app.py:189 | every piece is whitespace exactly when every character is the separator or whitespace |
| `Text.JoinEnds` | Documents/projetos/AUTOMACAO_CUSTOS_AZURE/webapp/app.py:306 | a join of non-empty parts begins with the first part's first character and ends with the last part's last character |
| `Text.OnlyWhitespaceOrPadded` | Documents/projetos/AUTOMACAO_CUSTOS_AZURE/webapp/app.py:178 | whitespace around a text does not change whether it is only separators and whitespace |
| `Text.StripOnlyWhitespaceOr` | Documents/projetos/AUTOMACAO_CUSTOS_AZURE/webapp/app.py:178 | stripping the field does not change whether it is only separators and whitespace |
| `Subscriptions.StripNonEmpty` | Documents/projetos/AUTOMACAO_CUSTOS_AZURE/webapp/app.py:189 | the comprehension keeps only non-empty stripped pieces, never more than it was given |
| `Subscriptions.StripNonEmptyLacks` | Documents/projetos/AUTOMACAO_CUSTOS_AZURE/webapp/app.py:189 | a character that no piece holds appears in no entry |
| `Subscriptions.StripNonEmptyConcat` | Documents/projetos/AUTOMACAO_CUSTOS_AZURE/webapp/app.py:189 | the comprehension over `xs + ys` is the comprehension over `xs` followed by that over `ys` (order kept) |
| `Subscriptions.StripNonEmptyNone` | Documents/projetos/AUTOMACAO_CUSTOS_AZURE/webapp/app.py:189 | the comprehension is empty exactly when every piece is whitespace |
| `Subscriptions.Parse` | Documents/projetos/AUTOMACAO_CUSTOS_AZURE/webapp/app.py:189 | every parsed entry is non-empty, has no leading or trailing whitespace, and contains no `,` and no newline |
| `Subscriptions.ParseSubscriptionField` | Documents/projetos/AUTOMACAO_CUSTOS_AZURE/webapp/app.py:187-189 | the form field (stripped first, parsed only when non-empty) yields only such entries |
| `Subscriptions.ParseConcat` | Documents/projetos/AUTOMACAO_CUSTOS_AZURE/webapp/app.py:189 | a comma or a newline separates: the entries of the text before it, then those after it, nothing merged or removed |
| `Subscriptions.ParseOne` | Documents/projetos/AUTOMACAO_CUSTOS_AZURE/webapp/app.py:189 | a single well-formed entry parses to itself |
| `Subscriptions.ParseWithoutSeparator` | Documents/projetos/AUTOMACAO_CUSTOS_AZURE/webapp/app.py:189 | a text without separators yields its stripped self, or nothing when that is empty |
| `Subscriptions.ParseJoin` | Documents/projetos/AUTOMACAO_CUSTOS_AZURE/webapp/app.py:189 | parsing the comma-join of well-formed entries gives them back in order, duplicates included |
| `Subscriptions.ParseRoundTrip` | Documents/projetos/AUTOMACAO_CUSTOS_AZURE/webapp/app.py:189 | `parse(",".join(parse(s))) == parse(s)` |
| `Subscriptions.ParseEmpty` | Documents/projetos/AUTOMACAO_CUSTOS_AZURE/webapp/app.py:189 | the parse is empty exactly when the text consists only of commas and whitespace (newline included) |
| `Subscriptions.ParseSubscriptionFieldEmpty` | Documents/projetos/AUTOMACAO_CUSTOS_AZURE/webapp/app.py:178-189 | the form field yields no subscription exactly when it is only commas and whitespace, the empty field included |
| `Subscriptions.ParseStrippedField` | Documents/projetos/AUTOMACAO_CUSTOS_AZURE/webapp/app.py:178-189 | on a field with no outer whitespace, the outer strip and the emptiness test change nothing |
| `Subscriptions.ParseSubscriptionFieldJoin` | Documents/projetos/AUTOMACAO_CUSTOS_AZURE/webapp/app.py:178-189 | a comma-joined list of entries, entered in the form field, reads back as that list |
| `Subscriptions.ParseSubscriptionFieldRoundTrip` | Documents/projetos/AUTOMACAO_CUSTOS_AZURE/webapp/app.py:187-189 | what the form field yields, comma-joined and entered again, yields the same list |
| `Subscriptions.DuplicatesKept` | Documents/projetos/AUTOMACAO_CUSTOS_AZURE/webapp/app.py:189 | a field shaped `"a, b,, a"` yields `[a, b, a]`: blanks stripped, the empty piece dropped, the repeat kept |
| `ExecutionIds.Digits` | Documents/projetos/AUTOMACAO_CUSTOS_AZURE/webapp/app.py:210 | `%Y`, `%m` and the like: exactly `width` decimal digits |
| `ExecutionIds.DecimalValueDigits` | Documents/projetos/AUTOMACAO_CUSTOS_AZURE/webapp/app.py:210 | reading the zero-padded digits back gives the number |
| `ExecutionIds.FormatExecutionId` | Documents/projetos/AUTOMACAO_CUSTOS_AZURE/webapp/app.py:210 | the id is 19 characters: `ari-`, eight digits, `-`, six digits |
| `ExecutionIds.ParseFormat` | Documents/projetos/AUTOMACAO_CUSTOS_AZURE/webapp/app.py:290 | year, month, day, hour, minute and second can be read back out of the id |
| `ExecutionIds.SameIdIffSameSecond` | Documents/projetos/AUTOMACAO_CUSTOS_AZURE/webapp/app.py:290 | two launches get the same id exactly when they fall in the same UTC second, so ids collide |
| `LaunchCommands.ScriptParameters` | Documents/projetos/AUTOMACAO_CUSTOS_AZURE/webapp/app.py:302-307 | at most two named parameters are passed to the script |
| `LaunchCommands.PairsFlatten` | Documents/projetos/AUTOMACAO_CUSTOS_AZURE/webapp/app.py:302-307 | reading the extended arguments two at a time recovers the flag/value pairs |
| `LaunchCommands.ScriptParametersLookup` | Documents/projetos/AUTOMACAO_CUSTOS_AZURE/webapp/app.py:302-307 | the script finds `-TenantID` exactly when the tenant is non-empty, and `-SubscriptionIDs` with the comma-join exactly when the list is non-empty |
| `LaunchCommands.BuildCommand` | Documents/projetos/AUTOMACAO_CUSTOS_AZURE/webapp/app.py:296-307 | starts `pwsh -File <script>`, has length 3, 5 or 7, carries each optional pair iff its input is non-empty, tenant before subscriptions |
| `LaunchCommands.CommandLine` | Documents/projetos/AUTOMACAO_CUSTOS_AZURE/webapp/app.py:327 | `' '.join(command)`: the line starts with the program name |
| `LaunchCommands.CommandLineSplit` | Documents/projetos/AUTOMACAO_CUSTOS_AZURE/webapp/app.py:327 | when no argument holds a blank, splitting the command line on blanks gives the argument list back |
| `LaunchCommands.SubscriptionsSurviveLaunch` | Documents/projetos/AUTOMACAO_CUSTOS_AZURE/webapp/app.py:305-307 | a non-empty list of well-formed entries, such as the form parser yields, is passed as one `-SubscriptionIDs` value, its comma-join, which that parser reads back as the list; no handler in the code takes this path, since the form handler launches nothing and the JSON handler does not parse its list |
| `Requests.FormGet` | Documents/projetos/AUTOMACAO_CUSTOS_AZURE/webapp/app.py:177-180 | `request.form.get(key, default)`: the posted value when the key was sent, the default otherwise |
| `Requests.Checked` | Documents/projetos/AUTOMACAO_CUSTOS_AZURE/webapp/app.py:179-180 | a checkbox is on exactly when it was sent with the value `on` |
| `Requests.ValidateForm` | Documents/projetos/AUTOMACAO_CUSTOS_AZURE/webapp/app.py:172-189 | 401 when unauthenticated, whatever the form; otherwise 400 exactly when the tenant is all whitespace; on success a stripped non-empty tenant, the two flags `== 'on'` and the parsed subscription list |
| `Requests.ReadApiRequest` | Documents/projetos/AUTOMACAO_CUSTOS_AZURE/webapp/app.py:279-283 | absent keys read as `''`, `[]`, `True`, `True`; present values are taken unchanged |
| `Sessions.RequestedBy` | Documents/projetos/AUTOMACAO_CUSTOS_AZURE/webapp/app.py:69-71 | `get_user_info().get('email')`: the `email` entry when the user has one, None when there is no user or no such entry |
| `Sessions.Session.IsAuthenticated` | Documents/projetos/AUTOMACAO_CUSTOS_AZURE/webapp/app.py:73-75 | signed in only with a user entry and a token cache present |
| `Sessions.FormRecord` | Documents/projetos/AUTOMACAO_CUSTOS_AZURE/webapp/app.py:196-212 | the form handler's `result`: status `success`, the started message, the execution id, and `execution_params` carrying the validated fields, the requester and the request time |
| `Sessions.ApiRecord` | Documents/projetos/AUTOMACAO_CUSTOS_AZURE/webapp/app.py:322-332 | the JSON handler's `execution_info`: status `running`, the id, start time, requester and request fields, and the command line, which splits back into the argument list |
| `Sessions.Session.RecordExecution` | Documents/projetos/AUTOMACAO_CUSTOS_AZURE/webapp/app.py:214-217 | creates the list if absent; the history grows by exactly one, the new record last and the earlier ones unchanged; user and token untouched |
| `Sessions.Session.History` | Documents/projetos/AUTOMACAO_CUSTOS_AZURE/webapp/app.py:232 | `session.get('executions', [])`: the stored list, or the empty list when the session has none |
| `Sessions.Session.ExecuteAri` | Documents/projetos/AUTOMACAO_CUSTOS_AZURE/webapp/app.py:169-219 | 401, then 400 "Tenant ID is required", in that order and with the history untouched; otherwise 200 with the record, which is appended |
| `Sessions.Session.ApiRunAri` | Documents/projetos/AUTOMACAO_CUSTOS_AZURE/webapp/app.py:271-344 | 401 with the history untouched; 500 and no record when the process fails to start; otherwise a `running` record with the requester's email and the command line is appended and returned |

## Left out

- Sign-in with the identity provider (MSAL authorization URL, code exchange, the Microsoft Graph `/me` request) and logout, lines 91-158. These are network and protocol calls. The model takes the resulting `user` and `token_cache` as the session's state.
- Starting the process (`subprocess.Popen`, lines 314-319), its output and its completion. Only the argument vector is modelled, and the start is reduced to its outcome: the `launchError` parameter of `ApiRunAri`.
- Flask routing, templates, `flash`, redirects, the error handlers, the pages that only render, and `/health`. The executions page's `session.get('executions', [])` is `Session.History`.
- The mock import fallback, the mock subscription list and the `ARIExecutor` and `CostCollector` stubs. They have no logic.
- Configuration, environment variables and logging (lines 38-67, 193, 287, 310).
- The clock. Each `datetime.utcnow()` reading is a parameter: `idTime` for the id, and the `isoformat()` text for `request_time` and `start_time`. The `isoformat` text is not modelled.
- The script location `Path(__file__).parent.parent / "run_ari.ps1"` is the `scriptPath` parameter.
- `execute_ari`'s catch-all 500 answer (lines 221-223). Nothing modelled there can raise.
- JSON bodies outside the expected shape. The body is a `JsonRequest`: an object whose keys hold a string, a list of strings and booleans, or are absent. A body that is not an object, a non-string tenant, a string `subscription_ids` (whose characters `",".join` would join) and non-boolean flags are not modelled.
- Concurrency. Each request is modelled alone, as one call on a `Session`. Two overlapping requests on one session each read the whole session and write it back, so one of the two appends can be lost. `RecordExecution`'s "grows by exactly one" holds only for requests that do not overlap.
- Sessions.Session.IsAuthenticated: reads a token cache as truthy when it is a non-empty map. Python in general would accept any truthy value. The ensures states only the necessary part (a user entry and a token cache present).
- ExecutionIds.FormatExecutionId: pads years below 1000 to four digits. The C library's `strftime('%Y')` behind Python, on glibc, writes those years without padding. The clock never gives such years.
- Text.IsWhitespace is Python's `str.isspace()` character set. Nothing else of Unicode (normalisation, case) plays a part.
