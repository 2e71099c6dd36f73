# Log guardian: a Dafny model

This project models the logic of a small log-monitoring system. The system has two halves:

- **The backend** (FastAPI) classifies syslog lines for anomalies and stores one row per line.
  - It keeps three collections keyed by IP:
    - a 10-second burst counter of sshd authentication failures;
    - a 24-hour failure history;
    - a 5-second window of distinct accessing IPs.
  - `ingest_logs` builds a row per posted line and sends a warning for each anomalous one.
- **The frontend** (React) is a dashboard over the stored rows:
  - a log table with a regular-expression split of each line, ordering by `LineId` and 15-row pagination;
  - a CSV export;
  - a suspicious-IP table;
  - a bar chart of the ten most frequent log types;
  - an anomaly pie chart and summary counters;
  - the filter bar;
  - the notification menu and user menu;
  - the authentication context with its stored session entry;
  - the route guard.

Each module mirrors one source file:

| module | file | source |
|---|---|---|
| `Extract` | extract.dfy | timestamp and `rhost=` extractors, `strptime`, `splitlines` |
| `Classifier` | classifier.dfy | `classify_line` as functions over the three collections |
| `Ingest` | ingest.dfy | the run of `ingest_logs` |
| `Backend` | backend.dfy | a class holding the collections; its methods update them in place and are proved equal to the functions |
| `Logs` | logs.dfy | the `AnomalyLog` record |
| `Sorting` | sorting.dfy | a stable insertion sort |
| `LogsTable` | logs_table.dfy | |
| `Api` | api.dfy | |
| `SuspiciousIps` | suspicious_ips.dfy | |
| `Dashboard` | dashboard.dfy | |
| `Filters` | filters.dfy | |
| `BarChart` | bar_chart.dfy | |
| `StatsCounters` | stats_counters.dfy | |
| `PieChart` | pie_chart.dfy | |
| `Navbar` | navbar.dfy | |
| `Json` | json.dfy | the `JSON.stringify` form of the stored admin |
| `Auth` | auth.dfy | |
| `App` | app.dfy | |

`Common` (common.dfy) holds shared vocabulary.

Conventions:

- Timestamps are integer seconds since 1900-01-01, the year `strptime` assumes.
- The wall clock `datetime.utcnow()` is a parameter `now`. In `ingest_logs` it is a function from the line index to the clock reading.
- Stateful code is modelled as classes:
  - the backend collections;
  - the dashboard page and the filter panel;
  - the table's page number;
  - the e-mail busy slot;
  - the notification center;
  - the auth provider.

  The fields of each class are the state the source updates. `localStorage` is one optional string slot, and `navigate` calls are recorded in a list.
- The services `fetchLogs`, `filterLogs`, `countTotalLogs` and the admin lookup, and `bcrypt.compare`, are outside this model. Their answers are parameters.

## Model

| member | source | states |
|---|---|---|
| Extract.ExtractDatetime | backend/app.py:45-47 | a found timestamp is a prefix of the line of the shape three word characters, space, a 1-2 digit day, space, HH:MM:SS |
| Extract.ExtractDatetimeComplete | backend/app.py:45-47 | nothing is found exactly when no prefix has that shape, and what is found is the longest such prefix (greedy day) |
| Extract.ExtractIp | backend/app.py:49-51 | nothing is found exactly when no `rhost=` is followed by an address character; otherwise the result is the maximal run of `[\w.-]` after the leftmost such `rhost=`, non-empty |
| Extract.ExtractIpFrom | backend/app.py:50 | the leftmost-match search from a position: no match exactly when no `rhost=` match starts at or after it |
| Extract.MonthIndex | backend/app.py:61 | `%b` recognises a name exactly when it equals an abbreviation up to ASCII case, and gives that abbreviation's index |
| Extract.StampSeconds | backend/app.py:61 | `strptime` succeeds exactly for a valid date and time of 1900 (known month, day within the month, hour below 24, minute and second below 60); the seconds read back as the stamp's day of the year, hour, minute and second |
| Extract.MonthStart | backend/app.py:61 | in 1900 each month starts the day after the previous one ends |
| Extract.DayOrder | backend/app.py:61 | the day of the year follows the calendar order of month and day, and names one date |
| Extract.StampOrder | backend/app.py:61 | the seconds of valid stamps keep calendar order (month, day, hour, minute, second), and are equal exactly for the same moment |
| Extract.NextDay | backend/app.py:61 | the same time of day on consecutive days, across a month's end too, is 86400 s apart |
| Extract.SameMinute | backend/app.py:61 | within one minute, stamps are as many seconds apart as their second fields |
| Extract.SplitLines | backend/app.py:140 | no line of `splitlines()` holds a line boundary |
| Extract.SplitLinesJoin | backend/app.py:140 | boundary-free lines with a non-empty last one, joined by newlines, split back into themselves |
| Classifier.Parse | backend/app.py:60-62 | the line raises exactly when it starts with a timestamp `strptime` rejects; otherwise the address is `extract_ip`'s, and a time is present exactly when a timestamp was found and is then that timestamp's seconds |
| Classifier.Prune | backend/app.py:84 | the kept history holds each time at most 86400 s before the failure as often as the history does, and no other time |
| Classifier.PruneFilter | backend/app.py:84 | the pruning is an order-keeping filter: it distributes over concatenation and decides each time on its own |
| Classifier.RecentIps | backend/app.py:101-102 | the IP set is exactly the IPs of access records at or after the window start |
| Classifier.AnomalyIsYesOrNo | backend/app.py:63-108 | the anomaly is always "Yes" or "No" |
| Classifier.AnomalyExactly | backend/app.py:66-108 | the verdict is "Yes" exactly when a service issue, a burst count above 3, more than 20 failures in a day, an accepted password after more than 3 failures, or more than 5 distinct IPs in 5 s; otherwise "No" |
| Classifier.ServiceIssueOverrides | backend/app.py:106-108 | an ALERT or "exited abnormally" line is ("Yes", "Service Issue") whatever else it matches |
| Classifier.QuietLine | backend/app.py:63-110 | a line matching no rule and lacking an IP or a time is ("No", "Normal") and changes no collection |
| Classifier.AuthFailureBurst | backend/app.py:66-79 | an unseen IP gets count 1; a failure within 10 s (inclusive, either order) of the last increments the count; any other resets it to 1; last_seen is always updated, no other IP changes, and a count above 3 is anomalous |
| Classifier.AuthFailureHistory | backend/app.py:81-88 | the new history is the pruned old one, in order and with repeats, followed by the failure time; more than 20 entries is anomalous; no other IP's history changes |
| Classifier.SuccessfulLogin | backend/app.py:90-96 | an accepted password is "Successful Login"; with more than 3 recorded failures it is anomalous and the history is deleted, otherwise the histories are untouched |
| Classifier.AccessWindow | backend/app.py:98-104 | a line with an IP and a time records an access at `now`, and more than 5 distinct IPs in the last 5 s make it anomalous |
| Classifier.LogTypeOrder | backend/app.py:64-107 | the log type is that of the last matching rule: service issue, then accepted password, then auth failure, else "Normal" (each an if-and-only-if) |
| Backend.Backend.constructor | backend/app.py:33-34 | all collections, the table and the outbox start empty |
| Backend.Backend.ClassifyLine | backend/app.py:59-110 | the in-place updates produce the verdict and the collections of `Classifier.Classify`; a raising call changes nothing |
| Backend.Backend.RecordFailure | backend/app.py:66-88 | the burst record and history updates equal the failure rule |
| Backend.Backend.CheckLogin | backend/app.py:90-96 | the history lookup and deletion equal the login rule |
| Backend.Backend.RecordAccess | backend/app.py:98-104 | the access insert and window count equal the access rule |
| Backend.Backend.IngestLine | backend/app.py:142-152 | one loop iteration does what one run step does, sending the line's warning when it is anomalous |
| Backend.Backend.IngestLogs | backend/app.py:138-154 | collections and warnings follow the run over `splitlines()`; rows are inserted and counted only when no line raised |
| Ingest.PySplit | backend/app.py:145 | `split()` yields non-empty tokens |
| Ingest.StampTokens | backend/app.py:145 | a timestamp splits into month, day and clock tokens |
| Ingest.RowDateTime | backend/app.py:144-145 | as written: the row construction raises exactly when the line has no timestamp, and otherwise gives the month token and the day token |
| Ingest.MissingStampRaises | backend/app.py:144-145 | a line without a timestamp makes the row construction raise |
| Ingest.RowDateTimeIntended | backend/app.py:144-145 | intended: no date and no time exactly when there is no timestamp, otherwise the same tokens as written |
| Ingest.IngestLinesSnoc | backend/app.py:142-152 | the run over one more line is one more step |
| Ingest.StepOutcome | backend/app.py:143-150 | a step raises when classification raises or the row cannot be built, and otherwise appends the row |
| Ingest.StepAppends | backend/app.py:143-152 | a step that does not raise appends exactly the line's row, carrying its log type and the verdict `classify_line` gives it on the current collections, and a warning exactly when the row is anomalous |
| Ingest.IngestRows | backend/app.py:140-154 | a completed run has one row per line, in order, each carrying its line, address, tokens, device, log type and the verdict `classify_line` gives it on the collections the earlier lines left; the warnings are exactly those of the anomalous rows, in order |
| Ingest.StoresTraceAt | backend/app.py:142-143 | the collections a line is classified against are those the run over the earlier lines leaves |
| Ingest.ErrorSticks | backend/app.py:143-153 | once a line raises, later lines change nothing |
| Ingest.MissingStampFailsBatch | backend/app.py:145-153 | as written, one line without a timestamp anywhere fails the whole request |
| Ingest.MissingStampExample | backend/app.py:145 | the one-line request "Failed password for root" fails |
| Ingest.IntendedStepError | backend/app.py:143-145 | corrected, a step fails exactly when an earlier one did or the line's timestamp is rejected by `strptime` |
| Ingest.IntendedFailsOnlyOnBadStamp | backend/app.py:142-153 | corrected, a failed request always has a line whose timestamp `strptime` rejects; a line without a timestamp never fails it |
| Ingest.IntendedErrorSticks | backend/app.py:143-153 | corrected, once a line raises, later lines change nothing |
| Ingest.IntendedBadStampFails | backend/app.py:143-153 | corrected, a rejected timestamp anywhere still fails the request |
| Ingest.IntendedStepAppends | backend/app.py:143-152 | corrected, a step that does not raise appends the line's row, with no date and no time when the line has no timestamp, its log type and verdict, and a warning exactly when the row is anomalous |
| Ingest.IntendedRows | backend/app.py:140-154 | corrected, a completed run has one row per line, in order, each with its line, address, device, log type and verdict on the collections the earlier lines left, and no date and no time exactly for a line without a timestamp; the warnings are exactly those of the anomalous rows |
| Ingest.StoresTraceIntendedAt | backend/app.py:142-143 | corrected, the collections a line is classified against are those the run over the earlier lines leaves |
| Ingest.StepAgrees | backend/app.py:144-145 | on a line with a timestamp, the corrected step is the written one |
| Ingest.IntendedAgrees | backend/app.py:142-154 | on requests whose every line has a timestamp, the corrected endpoint does exactly what the written one does |
| Logs.AnomalyCount | frontend/project/src/components/dashboard/StatsCounters.tsx:16 | the anomaly count is at most the number of logs, equal to it exactly when every log is anomalous, and 0 exactly when none is |
| Logs.CountsPartition | frontend/project/src/components/dashboard/PieChart.tsx:16-17 | every log is counted exactly once, as normal or as anomalous |
| Sorting.SortByCorrect | frontend/project/src/components/dashboard/LogsTable.tsx:24 | the sort is a permutation, ordered by key, and stable |
| LogsTable.TimeEnd | frontend/project/src/components/dashboard/LogsTable.tsx:12 | the first group of the pattern ends in at most one place, determined by the line |
| LogsTable.Content | frontend/project/src/components/dashboard/LogsTable.tsx:12 | the content start after a colon is the one backtracking reaches first |
| LogsTable.ParseLogLineMatches | frontend/project/src/components/dashboard/LogsTable.tsx:11-16 | the pattern matches exactly when a time is returned; otherwise the whole line is the content and the other parts are empty |
| LogsTable.ParseLogLineChoice | frontend/project/src/components/dashboard/LogsTable.tsx:11-16 | on a match the three parts come from the match backtracking reaches first: time is a prefix, content runs to the end, the component is the shortest that lets the rest match |
| LogsTable.MatchOrder | frontend/project/src/components/dashboard/LogsTable.tsx:12 | every match of the pattern comes no earlier, in backtracking order, than the one reported |
| LogsTable.SortByLineIdCorrect | frontend/project/src/components/dashboard/LogsTable.tsx:23-26 | the table holds every log once, in ascending LineId, equal ids in arrival order |
| LogsTable.TotalPages | frontend/project/src/components/dashboard/LogsTable.tsx:28 | the page count is the fewest pages of 15 that hold all rows |
| LogsTable.PageSlice | frontend/project/src/components/dashboard/LogsTable.tsx:29 | a page holds at most 15 rows, those at positions (page-1)*15 up to page*15 |
| LogsTable.PagesCoverAll | frontend/project/src/components/dashboard/LogsTable.tsx:28-29 | pages 1..totalPages concatenated give back the sorted list: no row skipped or repeated |
| LogsTable.ShownRange | frontend/project/src/components/dashboard/LogsTable.tsx:215-217 | on a page in range the "Showing x to y of n" figures lie within 1..n, and y-x+1 is the number of rows on the page |
| LogsTable.StalePage | frontend/project/src/components/dashboard/LogsTable.tsx:19-29 | the page is not reset, and a page past the last one shows no row |
| LogsTable.StaleLabel | frontend/project/src/components/dashboard/LogsTable.tsx:215-216 | on a page past the last one, the 'Showing' label reads backwards, its first number above its last |
| LogsTable.NavigationInRange | frontend/project/src/components/dashboard/LogsTable.tsx:197-204 | from a page in range, previous and next land in range, clamped at the ends |
| LogsTable.Pager.constructor | frontend/project/src/components/dashboard/LogsTable.tsx:19 | the page starts at 1 |
| LogsTable.Pager.Prev | frontend/project/src/components/dashboard/LogsTable.tsx:197 | the page becomes `max(1, page-1)` and never grows |
| LogsTable.Pager.Next | frontend/project/src/components/dashboard/LogsTable.tsx:204 | the page becomes `min(totalPages, page+1)`, at most totalPages |
| LogsTable.Pager.First | frontend/project/src/components/dashboard/LogsTable.tsx:223 | the page becomes 1 |
| LogsTable.Pager.Last | frontend/project/src/components/dashboard/LogsTable.tsx:255 | the page becomes totalPages |
| LogsTable.View | frontend/project/src/components/dashboard/LogsTable.tsx:38-67 | loading first, then a non-empty error showing its message, then the empty state, then the page of the sorted logs, with pagination exactly when there are more than 15 logs |
| Api.NatToStringValue | frontend/project/src/services/api.ts:60 | the decimal text of a number denotes that number |
| Api.IntToStringValue | frontend/project/src/services/api.ts:60-69 | a printed integer is a sign and digits and denotes the integer |
| Api.ReadQuotedDoubled | frontend/project/src/services/api.ts:61 | a quote-doubled text is read back as itself up to its closing quote |
| Api.ReadFieldEncoded | frontend/project/src/services/api.ts:59-72 | a quoted field, or a plain one without delimiters or a leading quote, reads back as its text |
| Api.ReadCsvEncoded | frontend/project/src/services/api.ts:57-73 | records of safe cells joined by newlines read back as their texts |
| Api.HeadersSafe | frontend/project/src/services/api.ts:51-55 | the twelve column names are written and read back as they are |
| Api.ToCsvReadsBack | frontend/project/src/services/api.ts:50-73 | the file reads back as the header record and one record of twelve fields per log, in order, whatever the `logs` texts hold |
| Api.CsvTextReadsBack | frontend/project/src/services/api.ts:57-73 | for any safe header, the CSV text reads back as the header then the logs' fields |
| Api.FetchAdminLogsSummary | frontend/project/src/services/api.ts:18-27 | a GET of /admin/logs_summary with admin_id first and device_id after it only when non-empty; a non-ok response throws "Failed to fetch logs" |
| Api.SendWarningEmail | frontend/project/src/services/api.ts:29-47 | a POST of /send_warning with device_id then log_line; a non-ok response throws "Failed to send warning email" |
| SuspiciousIps.Trim | frontend/project/src/components/dashboard/SuspiciousIPsTable.tsx:21 | `trim()` never lengthens a string |
| SuspiciousIps.TrimEmpty | frontend/project/src/components/dashboard/SuspiciousIPsTable.tsx:21 | a string trims to empty exactly when it is all white space |
| SuspiciousIps.Qualifying | frontend/project/src/components/dashboard/SuspiciousIPsTable.tsx:21 | the filter keeps exactly the anomalous logs with a non-blank IP |
| SuspiciousIps.QualifyingFilter | frontend/project/src/components/dashboard/SuspiciousIPsTable.tsx:21 | the filter keeps the qualifying logs in order, with repeats: it distributes over concatenation and decides each log on its own |
| SuspiciousIps.DedupIps | frontend/project/src/components/dashboard/SuspiciousIPsTable.tsx:22-31 | the Map's keys are the IPs in first-insertion order, as a Set keeps them |
| SuspiciousIps.DedupFirst | frontend/project/src/components/dashboard/SuspiciousIPsTable.tsx:23-28 | each entry is built from the first log naming its IP |
| SuspiciousIps.SuspiciousIpsSpec | frontend/project/src/components/dashboard/SuspiciousIPsTable.tsx:20-31 | every qualifying IP listed exactly once, in first-appearance order, with the device of its first qualifying log ('-' when absent) |
| SuspiciousIps.SuspectsQualify | frontend/project/src/components/dashboard/SuspiciousIPsTable.tsx:21 | every row comes from an anomalous log with a non-blank IP |
| SuspiciousIps.Mailer.constructor | frontend/project/src/components/dashboard/SuspiciousIPsTable.tsx:17 | the slot starts empty |
| SuspiciousIps.Mailer.Begin | frontend/project/src/components/dashboard/SuspiciousIPsTable.tsx:35-37 | a click starts exactly when the slot does not already hold that IP; the slot then holds it |
| SuspiciousIps.Mailer.Finish | frontend/project/src/components/dashboard/SuspiciousIPsTable.tsx:41-45 | the warning is logged and the slot emptied, whatever IP it holds |
| SuspiciousIps.Mailer.HandleSendEmail | frontend/project/src/components/dashboard/SuspiciousIPsTable.tsx:33-47 | a repeated click changes nothing; any other logs the warning and ends with the slot empty |
| SuspiciousIps.View | frontend/project/src/components/dashboard/SuspiciousIPsTable.tsx:49-72 | loading first, then a non-empty error showing its message, then the empty state exactly when no log qualifies, then the derived rows |
| Dashboard.TypesSpec | frontend/project/src/pages/Dashboard.tsx:71 | each log type offered once, in first-appearance order, and nothing else |
| Dashboard.Page.constructor | frontend/project/src/pages/Dashboard.tsx:26-34 | no logs, loading, no error, no filter |
| Dashboard.Page.Load | frontend/project/src/pages/Dashboard.tsx:40-55 | a successful fetch replaces both lists; the count is set or its failure recorded; a failed fetch records its message and keeps the lists; both flags end false; an earlier error stays |
| Dashboard.Page.ApplyFilters | frontend/project/src/pages/Dashboard.tsx:57-67 | the query on the current filters replaces the filtered list or records its message; loading ends false; the rest is unchanged |
| Dashboard.Page.SetFilters | frontend/project/src/pages/Dashboard.tsx:38-141 | the new filter values are stored; when one of them changed the query reruns on them: a success replaces the filtered list, a failure records its message, loading ends false; when none changed nothing else moves; an earlier error stays, and the fetched logs, refreshing flag and total count are untouched |
| Filters.BadgeCount | frontend/project/src/components/dashboard/Filters.tsx:89 | 0 exactly when neither a non-empty event type nor an anomaly status is chosen, 2 exactly when both are, otherwise 1 |
| Filters.BadgeAndActive | frontend/project/src/components/dashboard/Filters.tsx:44-89 | a counting badge implies an active filter, but a search term alone is active with a badge of 0 |
| Filters.AnomalyFromSelect | frontend/project/src/components/dashboard/Filters.tsx:139-146 | '' is no status, and only 'true' is true |
| Filters.AnomalySelectRoundTrip | frontend/project/src/components/dashboard/Filters.tsx:138-146 | a status shown and chosen again is the same status, and each of the three options shows as itself |
| Filters.EventSelectRoundTrip | frontend/project/src/components/dashboard/Filters.tsx:118-119 | an option chosen and shown gives the option back; a chosen type shows as itself unless it is the empty string |
| Filters.Panel.constructor | frontend/project/src/components/dashboard/Filters.tsx:23-24 | the input starts from the search term and the panel is closed |
| Filters.Panel.ClearFilters | frontend/project/src/components/dashboard/Filters.tsx:37-42 | both selects, the input and the term are cleared, so no filter is active |
| Filters.Panel.ClearSearchInput | frontend/project/src/components/dashboard/Filters.tsx:68 | only the local input is emptied |
| Filters.Panel.Type | frontend/project/src/components/dashboard/Filters.tsx:62 | only the local input changes |
| Filters.Panel.ReportSearch | frontend/project/src/components/dashboard/Filters.tsx:27-35 | the input becomes the search term |
| Filters.Panel.Toggle | frontend/project/src/components/dashboard/Filters.tsx:78 | only the open flag flips |
| Filters.Panel.SelectEvent | frontend/project/src/components/dashboard/Filters.tsx:119 | the event filter becomes `value \|\| undefined`; nothing else changes |
| Filters.Panel.SelectAnomaly | frontend/project/src/components/dashboard/Filters.tsx:139-146 | the anomaly filter follows the select mapping; nothing else changes |
| BarChart.TypeKey | frontend/project/src/components/dashboard/BarChart.tsx:28 | an empty type counts as 'unknown', any other as itself |
| BarChart.RecordOfSpec | frontend/project/src/components/dashboard/BarChart.tsx:26-30 | the tally's keys are the distinct types in first-appearance order, and each key's count is its number of logs |
| BarChart.Tally | frontend/project/src/components/dashboard/BarChart.tsx:26-30 | the `forEach` loop ends with exactly that tally |
| BarChart.EntriesSpec | frontend/project/src/components/dashboard/BarChart.tsx:33 | one entry per distinct type, names distinct, each with its count |
| BarChart.EntriesComplete | frontend/project/src/components/dashboard/BarChart.tsx:33 | every type present has its entry |
| BarChart.EntriesTotal | frontend/project/src/components/dashboard/BarChart.tsx:26-33 | the entries' counts add up to the number of logs |
| BarChart.SortedDescending | frontend/project/src/components/dashboard/BarChart.tsx:34 | the ranking is non-increasing by count |
| BarChart.SortedSameBars | frontend/project/src/components/dashboard/BarChart.tsx:34 | the ranking holds the same bars as the entries |
| BarChart.TopTenShape | frontend/project/src/components/dashboard/BarChart.tsx:35 | at most ten bars, the first ones of the ranking |
| BarChart.TopTenOmitted | frontend/project/src/components/dashboard/BarChart.tsx:33-35 | a type left out means ten bars are shown, none counting less than it |
| BarChart.TopBarsRanking | frontend/project/src/components/dashboard/BarChart.tsx:26-37 | the chart shows up to ten distinct present types with their counts, non-increasing, and any omitted type counts no more than the tenth |
| BarChart.TallyEntries | frontend/project/src/components/dashboard/BarChart.tsx:33 | `Object.entries` of the loop's tally is the entry list |
| BarChart.Render | frontend/project/src/components/dashboard/BarChart.tsx:20-146 | the placeholder exactly for no logs; otherwise labels and data are the top bars and form a ranking |
| StatsCounters.LastTimestamp | frontend/project/src/components/dashboard/StatsCounters.tsx:17-19 | the last log's date and time, or the no-logs text |
| StatsCounters.Rate | frontend/project/src/components/dashboard/StatsCounters.tsx:20 | the rate lies between 0 and 100 |
| StatsCounters.Compute | frontend/project/src/components/dashboard/StatsCounters.tsx:15-27 | the total is the given count, the anomalies the number of anomalous logs, the timestamp that of the last log and the rate their percentage |
| StatsCounters.LastTimestampOfLast | frontend/project/src/components/dashboard/StatsCounters.tsx:17-19 | the label depends only on the last log |
| StatsCounters.TotalIndependent | frontend/project/src/components/dashboard/StatsCounters.tsx:23 | the total ignores the logs shown |
| StatsCounters.RateBounds | frontend/project/src/components/dashboard/StatsCounters.tsx:20 | the rate is 0 exactly when no log is anomalous, and 100 exactly when there are logs and all are anomalous |
| PieChart.ViewSpec | frontend/project/src/components/dashboard/PieChart.tsx:13-107 | the placeholder exactly for no logs; otherwise two slices labelled Normal and Anomalous, adding up to the number of logs, each zero exactly when its kind is absent |
| Navbar.MarkRead | frontend/project/src/components/layout/Navbar.tsx:40-42 | every notification keeps its id and message and is no longer new |
| Navbar.MarkReadSpec | frontend/project/src/components/layout/Navbar.tsx:40-46 | after marking, nothing is new, and marking twice is marking once |
| Navbar.NotificationCenter.constructor | frontend/project/src/components/layout/Navbar.tsx:7-33 | no notifications, menu closed |
| Navbar.NotificationCenter.Mount | frontend/project/src/components/layout/Navbar.tsx:12-15 | the two initial notifications, the first one new |
| Navbar.NotificationCenter.Tick | frontend/project/src/components/layout/Navbar.tsx:18-28 | when the coin comes up, a new notification is put first; otherwise nothing changes |
| Navbar.NotificationCenter.Toggle | frontend/project/src/components/layout/Navbar.tsx:35-44 | the menu flips; opening marks everything read, closing changes no notification |
| Navbar.NotificationCenter.ClearAll | frontend/project/src/components/layout/Navbar.tsx:110 | the list becomes empty |
| Navbar.BeforeFirst | frontend/project/src/components/layout/Navbar.tsx:123 | `split(c)[0]`: the longest prefix without `c`, ended by `c` or the end |
| Navbar.DisplayName | frontend/project/src/components/layout/Navbar.tsx:123 | the displayed name is never empty |
| Navbar.DisplayNameSpec | frontend/project/src/components/layout/Navbar.tsx:123 | the part before the first '@' when non-empty, the whole address without '@', and 'User' for no e-mail, an empty one or a leading '@' |
| Navbar.Initial | frontend/project/src/components/layout/Navbar.tsx:129 | one character: the upper-cased first character of the e-mail, or 'U' |
| Json.EscapeRead | frontend/project/src/contexts/AuthContext.tsx:34-79 | a text escaped as `JSON.stringify` does, then a quote, reads back as the text |
| Json.QuoteRead | frontend/project/src/contexts/AuthContext.tsx:34-79 | a JSON string literal reads back as its text, whatever follows |
| Json.NullableRead | frontend/project/src/contexts/AuthContext.tsx:34-79 | a string or `null` reads back as itself |
| Auth.StoredUserReadsBack | frontend/project/src/contexts/AuthContext.tsx:34-79 | what sign-in stores parses back to the same admin and is not empty |
| Auth.SignInError | frontend/project/src/contexts/AuthContext.tsx:83 | the recorded message is the thrown one, or 'Failed to sign in' when that is empty |
| Auth.AuthProvider.constructor | frontend/project/src/contexts/AuthContext.tsx:24-26 | no admin, loading, no error |
| Auth.AuthProvider.Restore | frontend/project/src/contexts/AuthContext.tsx:29-43 | a non-empty entry that parses becomes the admin; one that does not parse is removed; loading ends false |
| Auth.AuthProvider.SignIn | frontend/project/src/contexts/AuthContext.tsx:45-87 | no row: 'Email not found'; mismatch: 'Invalid password'; a compare throw: its message or the fallback; admin, entry and location then unchanged. Match: the row without password is the admin and is stored, and the app goes to /dashboard. Loading ends false, and the entry stays in step with the admin |
| Auth.AuthProvider.SignOut | frontend/project/src/contexts/AuthContext.tsx:89-102 | no admin, no entry, no error, loading false, the app goes to /login |
| Auth.AuthProvider.Reload | frontend/project/src/contexts/AuthContext.tsx:29-79 | after sign-in or sign-out, a new page load restores the same admin from the stored entry |
| Auth.UseAuth | frontend/project/src/contexts/AuthContext.tsx:111-116 | outside a provider it throws 'useAuth must be used within an AuthProvider'; inside, it returns the provider's value |
| App.Protect | frontend/project/src/App.tsx:12-24 | the loading screen while loading; without a session, a replacing redirect to /login; otherwise the children |
| App.SessionAsWritten | frontend/project/src/App.tsx:13 | as written, the session read from the context is always absent |
| App.Routes | frontend/project/src/App.tsx:28-36 | /login is unguarded, /dashboard is guarded, and every other path redirects to /dashboard in place |
| App.FollowSettles | frontend/project/src/App.tsx:19-36 | within two redirects every path settles on a page or the loading screen, and which one is stated for each case |
| App.AsWrittenLocksOut | frontend/project/src/App.tsx:13-21 | as written, once loading ends every path, even for a signed-in admin, ends on the login page |
| App.AsWrittenSignedInRedirected | frontend/project/src/App.tsx:13-21 | a concrete signed-in admin is sent from /dashboard to the login page |
| App.GuardAdmitsSignedIn | frontend/project/src/App.tsx:12-36 | with the guard reading the signed-in admin, the dashboard is shown exactly to a signed-in admin, and everyone else ends on the login page |

## Left out

- Database, mail and HTTP plumbing is not modelled:
  - the Supabase and MongoDB clients, `register_user`, `last_log_time`, `get_device_logs` and `get_user_devices`;
  - the SMTP body of `send_warning_email`, which `ingest_logs` calls as an opaque side effect recorded in an outbox;
  - the final batch insert, which is a list append.
- `datetime.utcnow()` is a parameter.
- `strptime`/`strftime` are replaced by integer seconds. History entries round-trip through `strftime`, so this loses nothing.
- `\w`, `\d` and `\s` are ASCII, except JavaScript's `\s`, which includes its Unicode spaces. Month names match ignoring ASCII case only.
- `fetch`, the `URLSearchParams` percent-encoding and the Blob/anchor download are not modelled. The requests are recorded as a verb, a path and a parameter list.
- `fetchLogs`, `filterLogs` and `countTotalLogs` are imported by the dashboard but not defined in the repository. Their answers are parameters.
- The admin lookup and `bcrypt.compare` are parameters, and console logging is omitted. A lookup error and an absent row are one case, because the source treats them alike.
- The sign-out `catch` branch is not modelled: nothing in its `try` block can throw.
- `Auth.AuthProvider.Restore`: `JSON.parse` is a parameter returning an admin or nothing, so a stored entry that parses to a value of another shape is not modelled. `Auth.ParseUser` reads only the exact text `JSON.stringify` writes: no white space, and fields in the selected order.
- Lone surrogates in `\u` escapes are not modelled, because Dafny characters are Unicode scalar values.
- Timing is not modelled:
  - the 300 ms search debounce is the separate `ReportSearch` step;
  - the 30 s random notification timer is `Tick` with the coin and the fresh id as parameters;
  - the 1 s e-mail delay splits `HandleSendEmail` into `Begin` and `Finish`.
- Floating-point formatting is not modelled:
  - `StatsCounters.Rate` is the exact rational rate; `toFixed(2)` rounding is not modelled;
  - the pie chart's percentage tooltip uses `Math.round` and is not modelled.
- `BarChart.Tally`: JavaScript enumerates integer-like object keys (such as "42") before the others, in numeric order. The model keeps every key in insertion order, so ties in the ranking between integer-like and other type names may be ordered differently.
- `Api.ToCsvReadsBack` requires every field other than `logs` to be free of commas and newlines and not to start with a quote. The export writes those fields unquoted, and a field that breaks this does not read back as written.
- JavaScript numbers are modelled as integers, and `String(n)` of a non-integer is not modelled.
- `Navbar.Initial`: `toUpperCase` is modelled for ASCII letters only.
- `StatsCounters.Compute`: the component caches the counters in state through an effect. The model computes them directly from the logs and the total.
- The dashboard's `handleLogout` calls `signOut` and then navigates to /login a second time. It is covered by `Auth.AuthProvider.SignOut`, and the extra navigation is not modelled.
- Chart.js options, theme colours, markup, the sidebar, the login page, the three.js background and the proxy configuration are presentation only.

## Findings

| source | as written | input that shows it | evidently intended | confidence | as-written member | corrected member |
|---|---|---|---|---|---|---|
| backend/app.py:145 | the conditional expression that guards against a missing timestamp binds only to the time, so the date is the first token of the split timestamp whether or not there is one | a request whose logs contain the line `Failed password for root` (no timestamp): `"".split()[0]` raises `IndexError`, and the whole batch is lost | a line without a timestamp gets no date and no time, and the batch is inserted | high (not executed) | Ingest.MissingStampFailsBatch | Ingest.IntendedRows |
| frontend/project/src/App.tsx:13,19 | `ProtectedRoute` reads `session` from `useAuth()`, but the provider's value has no `session` (contexts/AuthContext.tsx:105), so it is always undefined | a signed-in admin (`user` set, `loading` false) visiting /dashboard is redirected to /login | admit a signed-in admin, i.e. test `user` | high (not executed) | App.AsWrittenLocksOut | App.GuardAdmitsSignedIn |
