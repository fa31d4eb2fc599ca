# Task tracker: a Dafny model

The task tracker is a web application for personal tasks with time tracking. Its
backend is a NestJS service with these parts:

- **Users** register with an e-mail and a password, then log in for a JWT.
- **Tasks** are owned by one user. Each has a status (pending, in progress,
  completed), a priority and an optional category.
- **Timers** are per task. Starting one opens a time entry. Stopping it closes the
  entry with a whole number of seconds.
- **Statistics** count the completed tasks and sum the tracked seconds for today
  and for the current week.

The React client does the following:

- It keeps the task list in a context.
- Its task cards show the running time and choose which buttons to offer.
- It exports tasks and statistics as CSV.
- It aggregates tasks for charts.

This project models the logic of that application:

- **State that changes step by step uses classes:**
  - the task and time-entry store (`TasksService.TaskStore`);
  - the user store (`UsersService.UserStore`);
  - the token signer's log (`AuthService.JwtSigner`);
  - a task card's React state (`TaskCard.Card`);
  - the task-list context (`TasksContext.Context`).
- **Calculations are pure functions with lemmas.** This covers the CSV field
  quoting and reading, the clock decomposition, and the chart aggregation.
- **The source's loops are methods with loop invariants.** This covers the
  statistics accumulation (`UsersService.WindowSeconds`,
  `UsersService.TotalWindowSeconds`) and the category-time dictionary
  (`ProductivityCharts.BuildCategoryTimes`).

Modules:

- `Common`: optional values, results carrying the thrown errors, JavaScript
  truthiness, `join`, decimal rendering, and id generation.
- `Entities`: users, tasks, time entries and the two DTOs.
- `TasksService`: the task store and its timer state machine. Each task is idle
  (no open entry) or running (exactly one open entry).
- `UsersService`: the user store and `getStats`.
- `AuthService`: `register` and `login`.
- `JwtStrategy`: `validate`, and the expiry rule applied before it.
- `ClientTypes`: the client's view of tasks and entries, and the conversion from
  the backend records.
- `CsvExport`: both exports, with a reader for comma-separated records per
  section 2 of RFC 4180 that states what the output reads back as. The task
  export (`TasksCsv`) is built from the rows as the source writes them; the
  corrected export of the Findings row (`TasksCsvCorrected`) sits beside it.
- `TaskCard`: `formatTime`, the active timer, totals, the edit form, and the
  button rule.
- `TasksContext`: the optimistic list updates and the refresh after a timer call.
- `ProductivityCharts`: the status, priority and category aggregation, and the
  axis scale.
- `Scenarios`: a timer session (a start and then a stop) on the store.

Times are integers: milliseconds since the epoch for instants, whole seconds for
durations. The current time, `todayStart` and `weekStart` are parameters. Hashing,
comparing and signing are function parameters with no cryptography modelled.
Database ids (uuids) are counter values rendered in decimal; the model proves
that task ids and user ids never repeat (time-entry ids are drawn from a
counter the same way, but their distinctness is not part of the store's
invariant).

## Model

| member | source | states |
|---|---|---|
| Common.OrElse | frontend/src/utils/csvExport.ts:30 | `o \|\| d` on an optional string is the string when it is non-empty and `d` when it is missing or `''` |
| Common.JoinSnoc | frontend/src/utils/csvExport.ts:40-43 | joining one more part appends the separator and that part |
| Common.NatToStringInjective | backend/src/tasks/time-entry.entity.ts:6-7 | distinct counters render as distinct ids |
| Common.IdOfFresh | backend/src/tasks/time-entry.entity.ts:6-7 | a newly generated id is not among the ids handed out before it |
| Common.IdSetNonEmpty | backend/src/users/user.entity.ts:6-7 | no generated id is the empty string |
| Common.KeysBelow | backend/src/tasks/tasks.service.ts:39-43 | every stored key, exactly once, in the order the ids were generated |
| TasksService.Merge | backend/src/tasks/tasks.service.ts:59-62 | each field present in the update replaces the task's field; every absent field, the id, the owner and the timestamps are kept |
| TasksService.MergeIdempotent | backend/src/tasks/tasks.service.ts:61 | applying the same update twice equals applying it once |
| TasksService.MergeNothing | backend/src/tasks/tasks.service.ts:61 | an update with no fields leaves the task unchanged |
| TasksService.EntriesFor | backend/src/tasks/tasks.service.ts:112-116 | an entry is in the result if and only if it is stored and belongs to the task |
| TasksService.WithoutTask | backend/src/tasks/time-entry.entity.ts:12 | the cascade keeps exactly the entries of other tasks |
| TasksService.FirstOpen | backend/src/tasks/tasks.service.ts:73-75 | the first open entry of the task; none exactly when the task has no open entry |
| TasksService.SecondsOfEntries | backend/src/tasks/tasks.service.ts:112-118 | the sum over the task's entries equals the per-task total over the whole entry list |
| TasksService.SumDurationsAppend | backend/src/tasks/tasks.service.ts:117 | the sum of durations distributes over concatenation |
| TasksService.EntriesForAppend | backend/src/tasks/tasks.service.ts:84-89 | a saved entry of the task joins the end of its entries; an entry of another task changes nothing |
| TasksService.OpenCountAppend | backend/src/tasks/tasks.service.ts:84-89 | a saved entry raises the task's open count by one exactly when it is open and belongs to the task |
| TasksService.FirstOpenAfterIdle | backend/src/tasks/tasks.service.ts:84-89 | on an idle task, the entry a start appends is the one the next stop finds |
| TasksService.SecondsAppend | backend/src/tasks/tasks.service.ts:84-89 | a saved entry adds its duration to its own task's total only |
| TasksService.OpenCountUpdate | backend/src/tasks/tasks.service.ts:106-109 | replacing one entry changes the open count by what that entry contributes |
| TasksService.SecondsUpdate | backend/src/tasks/tasks.service.ts:106-109 | replacing one entry changes the task's total by what that entry contributes |
| TasksService.EntriesForUpdateOther | backend/src/tasks/tasks.service.ts:106-109 | replacing another task's entry leaves this task's entries as they were |
| TasksService.OpenCountWithout | backend/src/tasks/time-entry.entity.ts:12 | after the cascade, the removed task has no open entry and other tasks keep their open count |
| TasksService.CloseEntry | backend/src/tasks/tasks.service.ts:103-107 | the stopped entry ends at `now` and keeps every other field (id, task, start time); its duration is the whole seconds since the start rounded down: `1000 * d <= now - start < 1000 * d + 1000` |
| TasksService.CloseFirstOpen | backend/src/tasks/tasks.service.ts:95-109 | closing the task's first open entry leaves it idle, keeps every entry's task stored and every open entry at duration 0, keeps at most one open entry per task, and adds the closed entry's duration to the task's seconds |
| TasksService.DropTaskEntries | backend/src/tasks/time-entry.entity.ts:12 | dropping a task's entries keeps the entry invariants for the remaining tasks, and every other task's entries are as they were |
| TasksService.AbsentTask | backend/src/tasks/tasks.service.ts:17-23 | a task no entry refers to has no entries and no open entry |
| TasksService.OpenCountSplit | backend/src/tasks/tasks.service.ts:73-75 | open counts add up over concatenation |
| TasksService.EntriesForWithout | backend/src/tasks/time-entry.entity.ts:12 | after the cascade, the removed task has no entries and other tasks keep theirs |
| TasksService.EntriesForSplit | backend/src/tasks/tasks.service.ts:41 | a task's entries distribute over concatenation |
| TasksService.InsertDesc | backend/src/tasks/tasks.service.ts:42 | inserting adds exactly that element (multiset) |
| TasksService.InsertDescBelow | backend/src/tasks/tasks.service.ts:42 | inserting an element below a bound into a list below it keeps every element below it |
| TasksService.InsertDescSorted | backend/src/tasks/tasks.service.ts:42 | inserting into a list ordered by `createdAt` descending keeps it ordered |
| TasksService.SortDesc | backend/src/tasks/tasks.service.ts:42 | a permutation of the input ordered by `createdAt` descending |
| TasksService.TaskStore.constructor | backend/src/tasks/tasks.service.ts:10-15 | an empty, valid store with the given column defaults |
| TasksService.TaskStore.RunningIsExactlyOne | backend/src/tasks/time-entry.entity.ts:19-20 | a task is running exactly when it has one open entry and idle exactly when it has none |
| TasksService.TaskStore.FindOne | backend/src/tasks/tasks.service.ts:46-56 | success if and only if the id is stored and owned by the caller, with exactly the task's entries; otherwise `NotFound('Task not found')`, the same for an absent task and another user's task |
| TasksService.TaskStore.Select | backend/src/tasks/tasks.service.ts:32-43 | among the given ids, each of the caller's tasks that passes every filter, with its entries, once |
| TasksService.TaskStore.TasksOf | backend/src/users/users.service.ts:37-40 | each of the user's tasks with its entries, once |
| TasksService.Matches | backend/src/tasks/tasks.service.ts:32-37 | the filters, AND-combined: with no truthy filter every task matches; a task matching a search has a title at least as long as it |
| TasksService.TaskStore.FindAll | backend/src/tasks/tasks.service.ts:25-44 | exactly the caller's tasks passing every supplied filter (status, category and priority equal, title contains the search; falsy filters ignored), each once, ordered by `createdAt` descending |
| TasksService.TaskStore.TotalTime | backend/src/tasks/tasks.service.ts:112-118 | the sum of the task's entry durations; 0 for a task with no entries |
| TasksService.TaskStore.Create | backend/src/tasks/tasks.service.ts:17-23 | stores a new task under a fresh id with the DTO's fields, the caller as owner, the default status and (when absent) priority, and no entries |
| TasksService.TaskStore.Update | backend/src/tasks/tasks.service.ts:59-63 | NotFound with nothing changed exactly when `findOne` fails; otherwise the merged task is saved with `updatedAt = now` and its entries are returned |
| TasksService.TaskStore.Remove | backend/src/tasks/tasks.service.ts:65-68 | NotFound with nothing changed exactly when `findOne` fails; otherwise the task and all of its entries are gone, and every other task keeps its entries |
| TasksService.TaskStore.StartTimer | backend/src/tasks/tasks.service.ts:70-90 | NotFound, or BadRequest on a running task with nothing changed; otherwise one entry `(now, null, 0)` is appended, the status becomes in progress, the task is running and its total is unchanged |
| TasksService.TaskStore.StopTimer | backend/src/tasks/tasks.service.ts:92-110 | NotFound, or BadRequest on an idle task with nothing changed; otherwise the open entry gets `endTime = now` and `duration = floor((now - start) / 1000)`, the tasks are unchanged, the task is idle and its total grows by that duration |
| UsersService.Tenths | backend/src/users/users.service.ts:77-78 | seconds to hours rounded half up to one decimal, in tenths: `s` is within half a tenth of `360 * r` |
| UsersService.TenthsMonotone | backend/src/users/users.service.ts:77-78 | the rounding preserves order |
| UsersService.StatsOf | backend/src/users/users.service.ts:52-81 | the returned object: every task counted, no more completed tasks than tasks, and each hour figure the nearest tenth of an hour to its window's seconds |
| UsersService.CompletedCountsOrdered | backend/src/users/users.service.ts:52-58 | completed today is at most completed this week, which is at most completed, which is at most all tasks |
| UsersService.EntrySecondsMonotone | backend/src/users/users.service.ts:64-71 | with non-negative durations, one task's seconds today are at most its seconds this week |
| UsersService.SecondsSinceMonotone | backend/src/users/users.service.ts:60-72 | with non-negative durations, the seconds today are at most the seconds this week |
| UsersService.StatsOrdered | backend/src/users/users.service.ts:52-80 | the ordering of the four counts, and today's hours at most the week's |
| UsersService.EarlierEntriesIgnored | backend/src/users/users.service.ts:65-70 | an entry started before the boundary adds nothing to the window |
| UsersService.WindowCoversAll | backend/src/users/users.service.ts:65-70 | when every entry starts at or after the boundary, the window is the plain sum of durations |
| UsersService.UserStore.constructor | backend/src/users/users.service.ts:9-12 | an empty, valid store |
| UsersService.UserStore.FirstWithEmail | backend/src/users/users.service.ts:24-26 | the stored user among the given ids with that e-mail; none exactly when no listed user has it |
| UsersService.UserStore.FindByEmail | backend/src/users/users.service.ts:24-26 | a user is found if and only if a stored user has that e-mail, and then it is that stored user |
| UsersService.UserStore.FindById | backend/src/users/users.service.ts:28-34 | success if and only if the id is stored, with that user; otherwise `NotFound('User not found')` |
| UsersService.UserStore.Create | backend/src/users/users.service.ts:14-22 | stores a user under a fresh id with the e-mail, the name and `hash(password)`, never the plaintext; a taken e-mail is refused by the unique column with nothing changed |
| UsersService.WindowSeconds | backend/src/users/users.service.ts:64-71 | the loop over one task's entries computes that task's seconds in each window |
| UsersService.TotalWindowSeconds | backend/src/users/users.service.ts:60-72 | the nested loops compute the seconds in each window over all tasks |
| UsersService.GetStats | backend/src/users/users.service.ts:36-82 | NotFound if and only if the user is not stored; otherwise the statistics of exactly that user's tasks |
| AuthService.WithoutPassword | backend/src/auth/auth.service.ts:22 | the returned user keeps the id, e-mail, name and creation time |
| AuthService.PasswordNeverReturned | backend/src/auth/auth.service.ts:22 | the returned user does not depend on the stored password |
| AuthService.PayloadFor | backend/src/auth/auth.service.ts:24-25 | the payload is the user's e-mail with the id as subject |
| AuthService.JwtSigner.constructor | backend/src/auth/auth.service.ts:8-13 | a signer with the given signing function and nothing signed |
| AuthService.JwtSigner.Sign | backend/src/auth/auth.service.ts:25 | the token is the signature of the payload, and the payload is logged as signed |
| AuthService.CheckCredentials | backend/src/auth/auth.service.ts:39-50 | success if and only if a stored user has the e-mail and the password compares equal to the stored hash, with that user; every failure is the same `Unauthorized('Invalid credentials')` |
| AuthService.RegisteredPasswordLogsIn | backend/src/auth/auth.service.ts:36-50 | a stored user whose hash is of the password passes the check, given a compare that accepts a password against its own hash |
| AuthService.Register | backend/src/auth/auth.service.ts:15-34 | a taken e-mail gives `Conflict('Email already exists')`, creates no user and signs nothing; otherwise the new user is stored and returned without the password, and exactly one token is signed for `{email, sub: id}` |
| AuthService.Login | backend/src/auth/auth.service.ts:36-64 | fails if and only if the credential check fails, always with the same Unauthorized and no token signed; otherwise it returns the token for `{email, sub}` of the stored user and the user without the password |
| JwtStrategy.Authenticate | backend/src/auth/jwt.strategy.ts:14-31 | with expiration not ignored, a token at or past its `exp` is refused before `validate` runs; any other token gets `validate`'s result |
| JwtStrategy.ExpiredTokenRefused | backend/src/auth/jwt.strategy.ts:16 | a token signed for a user is refused at or after its `exp`, whatever `validate` would make of it |
| JwtStrategy.FreshTokenAuthenticates | backend/src/auth/jwt.strategy.ts:16-30 | before its `exp`, a token signed for a stored user authenticates as that user's id and e-mail |
| JwtStrategy.Validate | backend/src/auth/jwt.strategy.ts:21-31 | a missing payload throws on the log line before the guard; a payload with a missing or empty `sub` is `Unauthorized('Invalid token payload')`; otherwise the identity is `{userId: sub, email}` |
| JwtStrategy.Decoded | backend/src/auth/jwt.strategy.ts:21 | the decoded claims are the signed payload's |
| JwtStrategy.StoredUserValidates | backend/src/auth/jwt.strategy.ts:26-30 | a token signed for a stored user validates to that user's id and e-mail |
| ClientTypes.DurationOrZero | frontend/src/components/TaskCard.tsx:22 | `duration \|\| 0`: the duration, or 0 when it is missing |
| ClientTypes.EntryToClient | frontend/src/types/index.ts:25-31 | the client entry carries the backend entry's id, task id, start time, end time and duration |
| ClientTypes.EntriesToClient | frontend/src/types/index.ts:41 | converts each entry, in order |
| ClientTypes.TaskToClient | frontend/src/types/index.ts:33-44 | the client task carries the backend task's fields and its converted entries |
| ClientTypes.ReduceDurations | frontend/src/components/TaskCard.tsx:22 | the `reduce` of `duration \|\| 0` from 0: 0 for no entries, and never negative when no duration is |
| ClientTypes.ReduceDurationsPrepend | frontend/src/components/TaskCard.tsx:22 | the left fold of durations splits off its first element |
| ClientTypes.ClientSumMatchesServer | frontend/src/components/TaskCard.tsx:22 | summing the converted entries on the client gives the backend's sum of durations |
| CsvExport.CalculateTotalTime | frontend/src/utils/csvExport.ts:3-6 | 0 for a missing list; never negative when no duration is |
| CsvExport.CalculateTotalTimeIsSum | frontend/src/utils/csvExport.ts:3-6 | 0 for a missing list; otherwise the sum of durations, counting a missing one as 0 |
| CsvExport.CalculateTotalTimeMatchesServer | frontend/src/utils/csvExport.ts:3-6 | for a backend task's entries it equals the backend's total time |
| CsvExport.EscapeQuotes | frontend/src/utils/csvExport.ts:29 | doubling the quotes never shortens the text |
| CsvExport.Quote | frontend/src/utils/csvExport.ts:29-30 | the field starts and ends with a double quote |
| CsvExport.ReadQuoted | frontend/src/utils/csvExport.ts:29-30 | a quoted field per section 2 rule 7 of RFC 4180; what is left is shorter than the input |
| CsvExport.ReadBare | frontend/src/utils/csvExport.ts:31-36 | an unquoted field: the longest comma-free prefix, with the rest empty or starting at the next comma |
| CsvExport.ReadField | frontend/src/utils/csvExport.ts:28-37 | reading one field consumes part of the input |
| CsvExport.ReadRecord | frontend/src/utils/csvExport.ts:42 | a record that can be read has at least one field |
| CsvExport.ReadQuotedEscaped | frontend/src/utils/csvExport.ts:29-30 | the escaped text followed by the closing quote reads back as that text |
| CsvExport.UnquoteQuote | frontend/src/utils/csvExport.ts:29-30 | decoding a quoted field gives back the original string |
| CsvExport.QuoteInjective | frontend/src/utils/csvExport.ts:29-30 | distinct strings quote to distinct fields |
| CsvExport.ReadBareSafe | frontend/src/utils/csvExport.ts:31-36 | text with no comma, quote or line break reads back as itself |
| CsvExport.Renders | frontend/src/utils/csvExport.ts:28-37 | the rendering of each cell, in order |
| CsvExport.Texts | frontend/src/utils/csvExport.ts:28-37 | the text of each cell, in order |
| CsvExport.ReadFirstQuoted | frontend/src/utils/csvExport.ts:29-30 | a quoted field followed by the end or a comma reads back as its text, leaving the rest |
| CsvExport.ReadFirstBare | frontend/src/utils/csvExport.ts:31-36 | a safe unquoted field followed by the end or a comma reads back as itself, leaving the rest |
| CsvExport.ReadFirstField | frontend/src/utils/csvExport.ts:28-37 | a quoted cell, or a bare cell with safe text, reads back as its text up to the next comma |
| CsvExport.ReadRecordRow | frontend/src/utils/csvExport.ts:42 | a row of well-formed cells joined with `,` reads back as exactly the cells' texts |
| CsvExport.JoinAppend | frontend/src/utils/csvExport.ts:42 | joining a concatenation puts one separator between the two joins |
| CsvExport.PriorityField | frontend/src/utils/csvExport.ts:32 | `'N/A'` for a missing priority, otherwise its name |
| CsvExport.HoursField | frontend/src/utils/csvExport.ts:22 | `'0.00'` for zero seconds, otherwise the formatted hours |
| CsvExport.CompletedDateField | frontend/src/utils/csvExport.ts:24-26 | `'N/A'` unless the task is completed and has `updatedAt`, and then the formatted date |
| CsvExport.TaskFields | frontend/src/utils/csvExport.ts:20-37 | eight values matching the eight headers: title, description or `''`, status, priority or `'N/A'`, category or `'N/A'`, hours, created date, completed date |
| CsvExport.TaskCellsAsWritten | frontend/src/utils/csvExport.ts:28-37 | eight cells whose texts are the task's field values |
| CsvExport.TaskCellsCorrected | frontend/src/utils/csvExport.ts:28-37 | the corrected definition of the Findings row, not lines 28-37 as written: eight cells whose texts are the task's field values, with the category quoted as well |
| CsvExport.CellLayout | frontend/src/utils/csvExport.ts:29-33 | as written only the title and the description are quoted; corrected, the category is quoted as well and nothing else changes |
| CsvExport.TaskRowCorrected | frontend/src/utils/csvExport.ts:28-37 | the corrected row of the Findings row, not the row as written: exactly as many fields as the header |
| CsvExport.TaskRowAsWritten | frontend/src/utils/csvExport.ts:28-37 | a row has exactly as many fields as the header |
| CsvExport.StatusNameSafe | frontend/src/utils/csvExport.ts:31 | a status name needs no quoting |
| CsvExport.PriorityFieldSafe | frontend/src/utils/csvExport.ts:32 | a priority field needs no quoting |
| CsvExport.TaskFieldsSafe | frontend/src/utils/csvExport.ts:31-36 | with formatters that emit no comma, quote or line break, the unquoted fields other than the category need no quoting |
| CsvExport.TaskRowReadsBack | frontend/src/utils/csvExport.ts:28-42 | the corrected row reads back as exactly the task's eight field values, whatever the title, description and category |
| CsvExport.TaskRowAsWrittenReadsBack | frontend/src/utils/csvExport.ts:28-42 | the row as written reads back as the eight values when the category needs no quoting |
| CsvExport.RendersAt | frontend/src/utils/csvExport.ts:28-37 | a row renders as the cells before a position, the cell there, and the rest |
| CsvExport.RendersBarePair | frontend/src/utils/csvExport.ts:31-36 | two unquoted cells render as their texts wherever they stand in a row |
| CsvExport.JoinSplit | frontend/src/utils/csvExport.ts:42 | a part `a,b` joins with `,` to the same text as the two parts `a` and `b` |
| CsvExport.SplitCellAtComma | frontend/src/utils/csvExport.ts:33 | a bare cell containing a comma renders the same as two cells |
| CsvExport.SplitWellFormed | frontend/src/utils/csvExport.ts:33 | splitting a cell into two safe unquoted halves keeps every unquoted cell safe |
| CsvExport.SplitRowReadsBack | frontend/src/utils/csvExport.ts:33 | a row whose cell is an unquoted `a,b` reads back with one more field, `a` and `b` where that cell was |
| CsvExport.CategoryCommaSplitsRow | frontend/src/utils/csvExport.ts:33 | as written, a category `a,b` makes the row read back as nine fields, with `a` and `b` in two columns |
| CsvExport.TaskRows | frontend/src/utils/csvExport.ts:20-38 | one row per task, in input order, each the row as written (`TaskRowAsWritten`, category unquoted) |
| CsvExport.TaskRowsCorrected | frontend/src/utils/csvExport.ts:20-38 | the corrected export's rows: one per task, in input order, each `TaskRowCorrected` |
| CsvExport.JoinRows | frontend/src/utils/csvExport.ts:42 | one line per row, in order, each the row's fields joined with `,` |
| CsvExport.CsvLines | frontend/src/utils/csvExport.ts:40-43 | the header joined with `,`, then one line per row in order, each the row joined with `,` (both exports build their lines this way, lines 70-73 as well) |
| CsvExport.JoinStartsWithFirst | frontend/src/utils/csvExport.ts:43 | a join opens with its first part, and is only that part when it is the only one |
| CsvExport.CsvContent | frontend/src/utils/csvExport.ts:40-43 | the lines joined with `\n`: the content opens with the header line, and is only that line when there are no rows (lines 70-73 as well) |
| CsvExport.CsvContentSnoc | frontend/src/utils/csvExport.ts:40-43 | one more row adds a newline and that row's line at the end of the content |
| CsvExport.TasksCsv | frontend/src/utils/csvExport.ts:8-43 | the task export's content, built from `TaskRows` (the rows as written): it opens with the header line, and is only that line for no tasks |
| CsvExport.TasksCsvSnoc | frontend/src/utils/csvExport.ts:40-43 | one more task adds a newline and its row as written at the end of the content |
| CsvExport.TasksCsvLineReadsBack | frontend/src/utils/csvExport.ts:28-43 | each task's line of the export reads back as its eight values while its category needs no quoting |
| CsvExport.TasksCsvCategoryCommaSplits | frontend/src/utils/csvExport.ts:33 | the line of the export for a task with category `a,b` reads back as nine fields, `a` and `b` in two columns |
| CsvExport.TasksCsvCorrected | frontend/src/utils/csvExport.ts:40-43 | the corrected export of the Findings row, built from `TaskRowsCorrected`: it opens with the header line, and is only that line for no tasks |
| CsvExport.TasksCsvCorrectedLineReadsBack | frontend/src/utils/csvExport.ts:28-43 | every task's line of the corrected export reads back as its eight values, whatever its text fields hold |
| CsvExport.StatsValues | frontend/src/utils/csvExport.ts:61-68 | one value per metric |
| CsvExport.StatsRows | frontend/src/utils/csvExport.ts:61-68 | six rows, each a metric's label and its value, in order |
| CsvExport.StatsCsv | frontend/src/utils/csvExport.ts:58-73 | the statistics export's content, built by `CsvContent` from `StatsRows`: it opens with `Metric,Value` |
| CsvExport.StatsLinesShape | frontend/src/utils/csvExport.ts:59-73 | the export is `Metric,Value` followed by exactly six lines, each a label, a comma and its value |
| CsvExport.MissingMetricsAreZero | frontend/src/utils/csvExport.ts:62-67 | a missing metric is written as 0, and a missing hour count as the formatting of 0 |
| CsvExport.NatToStringSafe | frontend/src/utils/csvExport.ts:62-64 | a rendered count needs no quoting |
| CsvExport.IntToStringSafe | frontend/src/utils/csvExport.ts:62-64 | a rendered integer needs no quoting |
| CsvExport.ReadPair | frontend/src/utils/csvExport.ts:72 | two safe values joined with a comma read back as those two fields |
| CsvExport.CountLabelsSafe | frontend/src/utils/csvExport.ts:62-64 | the three count labels need no quoting |
| CsvExport.HoursLabelsSafe | frontend/src/utils/csvExport.ts:65-67 | the three hour labels need no quoting |
| CsvExport.LabelsSafe | frontend/src/utils/csvExport.ts:62-67 | no metric label needs quoting |
| CsvExport.StatsLineReadsBack | frontend/src/utils/csvExport.ts:61-72 | each metric line reads back as its label and value |
| CsvExport.FromBackendStats | backend/src/users/users.service.ts:74-81 | of the backend's statistics keys, only `tasksCompletedToday` is among the keys the export reads |
| CsvExport.BackendStatsExportZeroes | frontend/src/utils/csvExport.ts:62-67 | exporting the backend's statistics object writes 0 for every metric but the first |
| TaskCard.FloorDiv | frontend/src/components/TaskCard.tsx:36 | `Math.floor(a / b)`: the greatest `r` with `b * r <= a` |
| TaskCard.JsRem | frontend/src/components/TaskCard.tsx:37-38 | JavaScript `%`: the sign of the dividend and a magnitude below the divisor; the ordinary remainder for non-negative dividends |
| TaskCard.Decompose | frontend/src/components/TaskCard.tsx:35-38 | the hours are the floor of the count in hours; minutes and seconds stay within an hour and a minute, and are non-negative for a non-negative count |
| TaskCard.FormatTime | frontend/src/components/TaskCard.tsx:35-40 | for a non-negative count, the whole hours, the leftover minutes and the leftover seconds as `Hh Mm Ss`; a leading `-` for a negative count |
| TaskCard.DecomposeExact | frontend/src/components/TaskCard.tsx:35-39 | for seconds at least 0, `hrs * 3600 + mins * 60 + secs` is the input, with minutes and seconds in `[0, 60)` |
| TaskCard.DecomposeNegative | frontend/src/components/TaskCard.tsx:35-39 | minus one second decomposes to `-1h -1m -1s` |
| TaskCard.FirstOpenIndex | frontend/src/components/TaskCard.tsx:21 | the index of the first entry with no `endTime`; none exactly when every entry is closed |
| TaskCard.ActiveTimer | frontend/src/components/TaskCard.tsx:21 | the first open entry; absent when the entries are missing or all closed |
| TaskCard.TotalTime | frontend/src/components/TaskCard.tsx:22 | 0 when the entries are missing; never negative when no duration is |
| TaskCard.TotalTimeAgrees | frontend/src/components/TaskCard.tsx:22 | the card's total is the export's `calculateTotalTime`, and 0 with no entries |
| TaskCard.TotalTimeMatchesServer | frontend/src/components/TaskCard.tsx:22 | for a task fetched from the backend, the card's total is the backend's total time |
| TaskCard.Elapsed | frontend/src/components/TaskCard.tsx:29 | `floor((now - start) / 1000)` |
| TaskCard.DisplayedTotal | frontend/src/components/TaskCard.tsx:184 | the total plus the elapsed time when a timer is active, the total otherwise |
| TaskCard.ActionsFor | frontend/src/components/TaskCard.tsx:194-216 | a completed task offers no button; any other task offers Mark Complete and exactly one timer button, which is Stop if and only if a timer is active and Start if and only if none is |
| TaskCard.MarkCompleteChangesOnlyStatus | frontend/src/components/TaskCard.tsx:78-80 | marking complete changes the status and nothing else |
| TaskCard.EditedFrom | frontend/src/components/TaskCard.tsx:12-18 | the form starts from the task's fields, with a missing description or category as `''` |
| TaskCard.ApplyChange | frontend/src/components/TaskCard.tsx:64-70 | an input change sets exactly the named field |
| TaskCard.EditToUpdate | frontend/src/components/TaskCard.tsx:48 | every form field is sent |
| TaskCard.SaveUntouchedEdit | frontend/src/components/TaskCard.tsx:46-51 | saving an untouched form leaves the task as it was, except that a missing description or category is stored as `''` |
| TaskCard.TrimStart | frontend/src/components/TaskCard.tsx:47 | removes exactly the leading white space |
| TaskCard.TrimEnd | frontend/src/components/TaskCard.tsx:47 | removes exactly the trailing white space |
| TaskCard.Trim | frontend/src/components/TaskCard.tsx:47 | `trim()`: no longer than the input, with no white space at either end |
| TaskCard.TrimEmptyIffBlank | frontend/src/components/TaskCard.tsx:47 | the trimmed title is empty if and only if every character is white space |
| TaskCard.MaySave | frontend/src/components/TaskCard.tsx:47 | the save guard holds exactly when the title has a character that is not white space |
| TaskCard.Card.constructor | frontend/src/components/TaskCard.tsx:11-19 | not editing, the form filled from the task, and no elapsed time |
| TaskCard.Card.HandleEdit | frontend/src/components/TaskCard.tsx:42-44 | edit mode is on and nothing else changes: the form keeps what it held |
| TaskCard.Card.HandleEditRefilled | frontend/src/components/TaskCard.tsx:42-44 | corrected `handleEdit`: edit mode is on and the form is refilled from the current task (missing text as `''`) |
| TaskCard.Card.ReceiveTask | frontend/src/components/TaskCard.tsx:9-18 | a new task prop replaces the task only; the form, edit mode and elapsed time made by `useState` at mount are kept |
| TaskCard.Card.HandleInputChange | frontend/src/components/TaskCard.tsx:64-70 | the form takes the change and nothing else changes |
| TaskCard.Card.HandleSaveEdit | frontend/src/components/TaskCard.tsx:46-51 | the update is sent if and only if the trimmed title is non-empty; edit mode ends only when it was sent and resolved |
| TaskCard.Card.HandleCancelEdit | frontend/src/components/TaskCard.tsx:53-62 | the form is restored from the task (missing text as `''`) and edit mode ends |
| TaskCard.Card.Tick | frontend/src/components/TaskCard.tsx:26-30 | the elapsed time becomes `floor((now - start) / 1000)` for the active timer |
| TaskCard.StaleEditAfterComplete | frontend/src/components/TaskCard.tsx:42-51 | after Mark Complete and the updated prop, Edit then Save sends the status the task had at mount, and merging it into the completed stored task restores that status |
| TaskCard.RefilledEditAfterComplete | frontend/src/components/TaskCard.tsx:42-51 | with the form refilled on Edit, the same steps send `completed` and the stored task stays completed |
| TaskCard.Card.Displayed | frontend/src/components/TaskCard.tsx:184 | the displayed seconds are the total plus the elapsed time when a timer is active, the total otherwise |
| TasksContext.ReplaceById | frontend/src/contexts/TasksContext.tsx:54 | the same length, with exactly the elements whose id matches replaced |
| TasksContext.RemoveById | frontend/src/contexts/TasksContext.tsx:60 | an element is kept if and only if it was present and its id differs |
| TasksContext.RemoveByIdAppend | frontend/src/contexts/TasksContext.tsx:60 | removal distributes over concatenation, so the kept elements stay in their order |
| TasksContext.RemoveAbsent | frontend/src/contexts/TasksContext.tsx:60 | removing an id no element has leaves the list unchanged |
| TasksContext.RemoveTwice | frontend/src/contexts/TasksContext.tsx:60 | removing an id twice equals removing it once |
| TasksContext.RemoveAfterReplace | frontend/src/contexts/TasksContext.tsx:54-60 | removing a task after updating it equals removing it |
| TasksContext.Context.constructor | frontend/src/contexts/TasksContext.tsx:26-27 | an empty list, not loading |
| TasksContext.Context.RefreshTasks | frontend/src/contexts/TasksContext.tsx:34-44 | loading ends false; the list becomes the fetched one, or stays as it was when the fetch fails |
| TasksContext.Context.CreateTask | frontend/src/contexts/TasksContext.tsx:46-50 | a created task is put in front of the list and returned; a failed call changes nothing |
| TasksContext.Context.UpdateTask | frontend/src/contexts/TasksContext.tsx:52-56 | an updated task replaces the elements with its id; a failed call changes nothing |
| TasksContext.Context.DeleteTask | frontend/src/contexts/TasksContext.tsx:58-61 | a deleted id is removed from the list; a failed call changes nothing |
| TasksContext.Context.TimerAction | frontend/src/contexts/TasksContext.tsx:63-71 | after a timer call succeeds the list is refreshed from the server, not edited; a failed call changes nothing |
| ProductivityCharts.CountStatus | frontend/src/components/ProductivityCharts.tsx:46-48 | at most the number of tasks, and 0 exactly when no task has the status |
| ProductivityCharts.CountPriority | frontend/src/components/ProductivityCharts.tsx:79-81 | at most the number of tasks, and 0 exactly when no task has the priority |
| ProductivityCharts.StatusCountsTotal | frontend/src/components/ProductivityCharts.tsx:45-49 | the three status counts add up to the number of tasks |
| ProductivityCharts.PriorityCountsTotal | frontend/src/components/ProductivityCharts.tsx:78-82 | when every task has a priority, the three priority counts add up to the number of tasks |
| ProductivityCharts.CategoryOf | frontend/src/components/ProductivityCharts.tsx:123 | the category, or `'Uncategorized'` when it is missing or empty |
| ProductivityCharts.TaskTime | frontend/src/components/ProductivityCharts.tsx:12-15 | `calculateTotalTime(task.timeEntries)`: 0 for missing entries, never negative when no duration is |
| ProductivityCharts.CategoryTime | frontend/src/components/ProductivityCharts.tsx:120-127 | the map after the `forEach`: the last task's category is a key (all keys: `CategoryKeys`; the values' total: `CategorySumOver`) |
| ProductivityCharts.AddTime | frontend/src/components/ProductivityCharts.tsx:126 | adds the time to the category's value (from 0 when new) and leaves the other categories alone |
| ProductivityCharts.CategoryOrder | frontend/src/components/ProductivityCharts.tsx:129 | each key of the map, once |
| ProductivityCharts.CategoryKeys | frontend/src/components/ProductivityCharts.tsx:120-127 | a category is a key if and only if some task falls under it |
| ProductivityCharts.UncategorizedGroup | frontend/src/components/ProductivityCharts.tsx:123 | a task with no category puts `'Uncategorized'` among the keys |
| ProductivityCharts.Times | frontend/src/components/ProductivityCharts.tsx:130 | the values of the keys, in key order |
| ProductivityCharts.SumOfTimes | frontend/src/components/ProductivityCharts.tsx:130 | the sum of the listed values is the sum taken key by key |
| ProductivityCharts.SumOverUpdate | frontend/src/components/ProductivityCharts.tsx:126 | changing a listed key's value changes the sum by the difference; an unlisted key changes nothing |
| ProductivityCharts.SumOverUnlisted | frontend/src/components/ProductivityCharts.tsx:126 | changing an unlisted key leaves the sum alone |
| ProductivityCharts.AddToListed | frontend/src/components/ProductivityCharts.tsx:126 | adding time to a known category raises the sum by that time |
| ProductivityCharts.AddToNew | frontend/src/components/ProductivityCharts.tsx:126 | adding time to a new category, listed at the end, raises the sum by that time |
| ProductivityCharts.CategorySumOver | frontend/src/components/ProductivityCharts.tsx:120-127 | the map's values, key by key, add up to the total tracked time of all tasks |
| ProductivityCharts.CategoryTimesSum | frontend/src/components/ProductivityCharts.tsx:120-130 | the values of the category map sum to the total tracked time of all tasks |
| ProductivityCharts.BuildCategoryTimes | frontend/src/components/ProductivityCharts.tsx:120-130 | the loop builds the category map and its keys in insertion order; the keys are exactly the tasks' categories, and the values sum to the total tracked time |
| ProductivityCharts.CeilDiv | frontend/src/components/ProductivityCharts.tsx:133 | `Math.ceil(a / b)`: the least `r` with `a <= b * r` |
| ProductivityCharts.MaxTens | frontend/src/components/ProductivityCharts.tsx:132-133 | the least number of ten-minute steps, at least one, covering every category's time |
| ProductivityCharts.MaxScaleValue | frontend/src/components/ProductivityCharts.tsx:132-133 | a multiple of 10, at least 10, at least every category's minutes, and the least such value |
| Scenarios.TimerSession | backend/src/tasks/tasks.service.ts:70-110 | a start and then a stop on an idle task append one closed entry of `floor((stop - start) / 1000)` seconds, and leave the task idle and in progress |
| Scenarios.DoubleStart | backend/src/tasks/tasks.service.ts:73-79 | a second start while the timer runs is refused with BadRequest and changes nothing: the entries are the old ones plus the first start's open entry begun at `first`, and the task is in progress |

## Left out

- The database: TypeORM's repositories, queries, relations and the `uuid` generator. The model replaces them with an in-memory map and an id counter. The column defaults and the `updatedAt` column of the task entity are not part of this model. The defaults are a store parameter. A saved task's `updatedAt` is taken to be the time of the save.
- `Like` matching: the search is a plain substring test. Case folding and the `%` and `_` wildcards depend on the database.
- Input validation: an empty title is accepted, since the create DTO only requires a string.
- The unique e-mail column: a second user with the same e-mail is refused with a query failure, and the message text is the model's own.
- Cryptography: bcrypt's hashing and comparison, its salt, and JWT signing and verification. These are function parameters.
- Concurrency: the check-then-act gap between a timer query and its save, and React's stale closures. Every operation runs to completion, one at a time.
- Clocks and dates: `new Date()`, local midnight, `getDay`, `Date.now`, `setInterval` and `toLocaleDateString`. Instants and formatted dates are parameters.
- Floating point:
  - `toFixed(2)` is a formatter parameter.
  - Statistics hours are exact integer tenths.
  - The charts keep seconds where the source divides by 60 for minutes.
- The DOM and the browser: Blob, the download link, Chart.js, and the delete confirmation dialog.
- `JwtStrategy.Authenticate`: of the passport pipeline it models only the expiry rule before `validate`. Reading the bearer header and checking the signature are left out. The refusal is the guard's default `Unauthorized`, whose message comes from the framework rather than this source.
- `console.log` calls, except where evaluating one throws (`JwtStrategy.Validate` on a missing payload).
- `Object.keys` order for keys that look like array indices, and category names inherited from `Object.prototype` (such as `constructor`). The model keeps insertion order and treats every category as a fresh key.
- The controllers, the module configuration, the HTTP client, and the React pages and forms.
- `TasksService.TaskStore.StopTimer`: it stores `floor((now - start) / 1000)` as computed, without clamping it at zero. This follows the code; a clock set back gives a negative duration.
- `TasksService.Merge` and `TasksService.TaskStore.Update`: an explicit JSON `null` in an update body is not modelled. The update DTO's `@IsOptional()` lets `null` through and `Object.assign` copies it, which would clear a description or category and make the save fail for a title, status or priority. In the model a field of the update is either present with a value or absent (`None`).
- `TaskCard.Card`: the card as written keeps its mount-time form when its task prop changes (`ReceiveTask`); the finding below exhibits the effect. The rest of the client model is not affected, and `HandleEditRefilled` is the corrected edit.
- `CsvExport.FromBackendStats`: the backend's statistics keys differ from the keys `exportProductivityStatsToCSV` reads. The model states what the export would then write. No caller of that export is part of this model.

## Findings

| source | as written | input that shows it | evidently intended | confidence | as-written member | corrected member |
|---|---|---|---|---|---|---|
| frontend/src/utils/csvExport.ts:33 | the category is written unquoted, unlike the title and description (lines 29-30) | a task whose category is `a,b`: its row reads back as nine fields, with `a` and `b` in separate columns | every free-text field is quoted, so each row reads back as its eight values | medium, not executed | CsvExport.TasksCsvCategoryCommaSplits | CsvExport.TasksCsvCorrectedLineReadsBack |
| frontend/src/components/TaskCard.tsx:12-18 | the edit form is filled by `useState` at mount only, and `handleEdit` (lines 42-44) does not refill it, while the list (frontend/src/pages/Dashboard.tsx:46) keeps the same card when the task updates | a pending task marked complete (line 79), then Edit and Save: the form's mount-time status `pending` is sent and the completion is undone | Edit starts from the task as it is now | medium, not executed | TaskCard.StaleEditAfterComplete | TaskCard.RefilledEditAfterComplete |
