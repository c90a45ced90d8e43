# b0t automation core in Dafny

This project models and proves properties of the four parts of b0t that hold state or rules:

- **The job registry** (`src/lib/scheduler.ts`). A map from job name to a node-cron task, plus an `isInitialized` flag.
  - `register` refuses duplicate names, disabled jobs and schedules that `cron.validate` rejects. It stores each new task stopped.
  - `start` starts every task once. `stop` stops them all. `unregister` removes one.
  - Each task runs inside a wrapper that catches and logs its rejection.
  - Module `Scheduling`, file `scheduler.dfy`.
  - The operations are functions on a `RegistryState` value (`AfterRegister`, `AfterStart`, …). Lemmas about call sequences are proved over those functions.
  - The class `Scheduler` carries the same state in fields and implements each operation as a method. Each method is proved equal to its function. `start` and `stop` walk the map with a loop, as the source's `forEach` does.
- **The YouTube comment jobs** (`src/lib/jobs/youtube.ts`). Module `YouTubeJobs`, file `youtube_jobs.dfy`. The jobs work against a video table and a comment table:
  - `checkAndReplyToYouTubeComments` fetches up to 50 comment threads per tracked video. It skips malformed threads and ids already stored, inserts the rest as `pending`, then stamps the video's `lastChecked`.
  - `fetchYouTubeCommentsForAnalysis` performs the same deduplicating insert with pages of 100. It counts the new rows of each video and stamps nothing.
  - `trackYouTubeVideo` inserts a video row once.
  - Each job is a specification function, plus a method on the class `Store` that runs the source's nested loops. The method is proved to produce exactly what the function does.
  - The YouTube API is a pair of function parameters. A failed insert is decided by an `accepts` predicate, and a fetch or insert error is an error result that ends the run.
- **The input validators** (`src/lib/validations.ts`). Module `Validations`, file `validations.dfy`.
  - The zod schemas are pure parse functions returning either the parsed value or a list of issues. Lengths are counted in UTF-16 code units, as JavaScript counts them.
  - The cron-schedule regular expression becomes a field-by-field recogniser. Its relation to a list of five fields is proved, and concrete schedules are shown accepted or refused.
- **The per-job settings namespace** (`src/app/api/automation/settings/route.ts`). Module `AutomationSettings`, file `automation_settings.dfy`.
  - Setting `name` of job `j` is stored in the settings table under the key `j_name`.
  - GET collects the rows whose key starts with `j_` and strips that prefix.
  - POST validates the body and upserts one row per entry of `settings`. The class `SettingsTable` runs that loop with select, update and insert steps.
  - The session check is a boolean. `JSON.parse` and `JSON.stringify` are function parameters.

`common.dfy` (module `Common`) holds the shared vocabulary:
- `Option`;
- `indexOf`, `startsWith` and `replace` on strings;
- decimal numerals as `String(n)` prints them;
- distinctness of a list.

Three facts about the code shape the model:
- **Errors abort the run.** An insert or fetch error aborts the whole comment run and is rethrown; the failing item is not skipped. Rows inserted before the error stay, and videos after the failing one are not stamped (`YouTubeJobs.FailedRunKeepsPrefix`).
- **No overlap guard.** The scheduler has no per-job guard against overlapping runs. The task wrapper only catches errors.
- **Disabled jobs.** `register` refuses a job whose `enabled` is `false` and registers one whose `enabled` is left undefined.

The settings routes have a prefix-overlap quirk. GET filters keys by a bare `startsWith`, so GET for job `a` also returns what job `a_b` saved, under names `b_…` (`AutomationSettings.PrefixOverlap`). Setting `b_c` of job `a` and setting `c` of job `a_b` are the same row.

## Model

| member | source | states |
|---|---|---|
| Scheduling.AfterRegister | src/lib/scheduler.ts:34-68 | a name already present gives AlreadyRegistered and no change; otherwise `enabled === false` gives Disabled; otherwise an invalid schedule gives InvalidSchedule; each as an if-and-only-if; only Registered changes the state, adding exactly that name with a stopped task for its schedule, keeping every other job and the flag |
| Scheduling.SetAll | src/lib/scheduler.ts:81-84 | every task keeps its name and schedule and gets the given active flag |
| Scheduling.AfterStart | src/lib/scheduler.ts:73-88 | start when initialized changes nothing; otherwise every registered task becomes active with its schedule and the flag becomes true; no job is added or removed |
| Scheduling.AfterStop | src/lib/scheduler.ts:93-103 | every task becomes inactive with its schedule kept, the flag becomes false, no job is removed |
| Scheduling.AfterUnregister | src/lib/scheduler.ts:108-118 | an unknown name changes nothing; a known name is removed and every other entry and the flag are kept |
| Scheduling.Wrap | src/lib/scheduler.ts:50-61 | a firing is caught exactly when the task throws, with the thrown error and the job's name; a resolved task completes |
| Scheduling.ApplyKeepsQuiescent | src/lib/scheduler.ts:34-118 | every registry call keeps a stopped scheduler's tasks all stopped |
| Scheduling.RunKeepsQuiescent | src/lib/scheduler.ts:34-118 | by induction over any sequence of calls: while the scheduler is not running no task is active |
| Scheduling.InitialQuiescent | src/lib/scheduler.ts:10-12 | the fresh registry (empty map, not initialized) has no active task |
| Scheduling.StoppedWhileRunning | src/lib/scheduler.ts:63-77 | while no stop() is called, a stopped task of a running scheduler stays stopped through any calls, and the scheduler stays running |
| Scheduling.RegisteredWhileRunning | src/lib/scheduler.ts:63-77 | a job registered while the scheduler runs is not started by any later calls short of stop() |
| Scheduling.StopIdempotent | src/lib/scheduler.ts:73-103 | stop twice equals stop once, and start twice equals start once |
| Scheduling.Scheduler.constructor | src/lib/scheduler.ts:10-12 | a new scheduler has no jobs and is not initialized |
| Scheduling.Scheduler.Register | src/lib/scheduler.ts:34-68 | the new map, flag and outcome are those of AfterRegister with `cron.validate` applied to the schedule; the name is appended to the key order exactly when registered |
| Scheduling.Scheduler.Start | src/lib/scheduler.ts:73-88 | the loop over the registered names leaves exactly the state AfterStart gives |
| Scheduling.Scheduler.Stop | src/lib/scheduler.ts:93-103 | the loop over the registered names leaves exactly the state AfterStop gives |
| Scheduling.Scheduler.Unregister | src/lib/scheduler.ts:108-118 | the new state is AfterUnregister, and the key order loses exactly that name |
| Scheduling.Scheduler.GetJobs | src/lib/scheduler.ts:123-125 | the names are returned in registration order, without repetition, one per job, and a name is listed exactly when it is registered |
| Scheduling.Scheduler.IsRunning | src/lib/scheduler.ts:130-132 | the result is the initialized flag |
| Scheduling.Scheduler.Fire | src/lib/scheduler.ts:52-60 | a firing changes nothing in the registry, and is caught exactly when the task throws |
| Scheduling.Without | src/lib/scheduler.ts:116 | the key order after `delete` lists exactly the other names, stays without repetition and is no longer; an absent name changes nothing, and a present name is cut out at its one position with the other names kept in order |
| Common.DistinctCardinality | src/lib/scheduler.ts:124 | a key order without repetition has as many names as the map has keys |
| Common.StartsWith | src/app/api/automation/settings/route.ts:30 | `startsWith(p)` holds exactly when `indexOf(p)` is 0 |
| Common.ReplaceFirst | src/app/api/automation/settings/route.ts:32 | `replace(p, q)` with a string pattern leaves the string alone when `p` does not occur; otherwise it keeps everything before the first occurrence, puts `q` there, keeps everything after the occurrence, and changes the length by the difference of the two; `q` holds no `$`, so JavaScript's replacement patterns do not arise |
| Common.IndexOf | src/app/api/automation/settings/route.ts:32 | the result is the first position where the pattern occurs, or None when it occurs nowhere |
| Common.ReplacePrefix | src/app/api/automation/settings/route.ts:32 | `replace(prefix, '')` on a key that starts with the prefix leaves exactly the rest of the key |
| Common.NatToString | src/app/api/automation/settings/route.ts:70 | `String(i)` for an index is a canonical decimal numeral whose value is i |
| Common.NumeralRoundTrip | src/app/api/automation/settings/route.ts:70 | every canonical numeral is the printed form of its value, so printing indices is injective |
| Validations.Utf16Length | src/lib/validations.ts:11 | `s.length` in UTF-16 code units; a string without characters outside the Basic Multilingual Plane has one unit per character |
| Validations.Utf16LengthBounds | src/lib/validations.ts:11 | a string's JavaScript length lies between its number of characters and twice that, and is zero only for the empty string |
| Validations.LengthIssues | src/lib/validations.ts:11 | a string gets no issue exactly when its length lies within the minimum and the optional maximum |
| Validations.RequiredString | src/lib/validations.ts:11 | a required string field gets no issue exactly when it is present and its length is within bounds |
| Validations.NonEmptyIsMinOne | src/lib/validations.ts:22-36 | `min(1)` accepts a field exactly when it is present and not the empty string |
| Validations.ParseTweetStatus | src/lib/validations.ts:12 | a status parses exactly when it is the name of one of draft, posted and failed, and it parses to that status |
| Validations.ParseTweet | src/lib/validations.ts:10-14 | a tweet parses exactly when its content has length 1 to 280 and its status, if given, is a known one; the status defaults to draft; content and tweetId are kept; a refusal has issues |
| Validations.TweetContentBounds | src/lib/validations.ts:11 | parsed tweet content holds between 1 and 280 characters |
| Validations.ParseCreateTweet | src/lib/validations.ts:16-18 | the content parses exactly when present with length 1 to 280, and is kept |
| Validations.CreateTweetAgrees | src/lib/validations.ts:10-18 | the create-tweet schema accepts a content exactly when the tweet schema does for a tweet without status |
| Validations.ParseYouTubeVideo | src/lib/validations.ts:21-25 | a video parses exactly when its videoId is present and not empty, and is kept as given |
| Validations.ParseYouTubeComment | src/lib/validations.ts:27-32 | a comment parses exactly when commentId, videoId and text are present and not empty; a refusal names one to three issues |
| Validations.ParseTriggerJob | src/lib/validations.ts:35-37 | a job name parses exactly when present and not empty |
| Validations.NumberIn | src/lib/validations.ts:42 | a numeric alternative of the pattern (a digit, or two digits not starting with 0, within the field's range) is one or two digits long |
| Validations.CronField | src/lib/validations.ts:42 | one field of the pattern (`*`, a number in range, or `*/` and a number in range) is one to four characters long and holds no space |
| Validations.FieldsMatch | src/lib/validations.ts:42 | one field per range separated by single spaces, nothing before or after; such a string is between 2n-1 and 5n-1 characters long for n ranges |
| Validations.CronSchedule | src/lib/validations.ts:42 | the whole pattern with its five ranges; an accepted schedule is 9 to 24 characters long |
| Validations.FieldsMatchJoin | src/lib/validations.ts:42 | space-joined fields without spaces match a list of ranges exactly when there is one field per range and each field matches its range |
| Validations.FiveRanges | src/lib/validations.ts:42 | five fields match the cron ranges exactly when the minute is in 0-59, the hour in 0-23, the day of month in 1-31, the month in 1-12 and the weekday in 0-6 |
| Validations.CronScheduleFields | src/lib/validations.ts:42 | a schedule made of fields joined by single spaces matches the pattern exactly when there are five fields, each `*`, a number or `*/` a number within that field's range |
| Validations.NumberInIsPrinted | src/lib/validations.ts:42 | a number field is accepted exactly when it is the decimal numeral, without leading zero, of a number within the range |
| Validations.ParseCronSchedule | src/lib/validations.ts:40-46 | the settings parse exactly when the schedule matches the pattern; enabled defaults to false |
| Validations.ParsePrompt | src/lib/validations.ts:49-52 | a prompt parses exactly when its length is 10 to 2000; the model defaults to gpt-4o-mini |
| Validations.PromptLengthInCharacters | src/lib/validations.ts:50 | fewer than 5 characters is always refused and 10 to 1000 characters is always accepted, whatever the characters |
| Validations.ParseAutomationConfig | src/lib/validations.ts:55-60 | a configuration parses exactly when jobName, schedule and prompt are present and not empty and enabled is given, and is kept as given |
| Validations.EveryFewMinutesAccepted | src/components/automation/SchedulePicker.tsx:14-16 | the presets every 5, 15 and 30 minutes are accepted |
| Validations.HourlyPresetsAccepted | src/components/automation/SchedulePicker.tsx:17-18 | the presets every hour and every 4 hours are accepted |
| Validations.DailyPresetsAccepted | src/components/automation/SchedulePicker.tsx:19-20 | daily at 9, 18, 10 and 8 o'clock are accepted (the last two are the defaults at src/app/twitter/page.tsx lines 26 and 33) |
| Validations.WeeklyAccepted | src/components/automation/SchedulePicker.tsx:21 | every Monday at 9 is accepted |
| Validations.PresetsAsWritten | src/components/automation/SchedulePicker.tsx:14-21 | the strings `*/5 * * * *`, `0 */4 * * *` and `0 9 * * 1`, as written in the picker, are accepted |
| Validations.RangesAndListsRefused | src/lib/validations.ts:42 | ranges `1-5` and lists `1,2` are refused |
| Validations.MinuteOutOfPatternRefused | src/lib/validations.ts:42 | a leading zero `05` and the minute 60 are refused |
| Validations.SundayAsSevenRefused | src/lib/validations.ts:42 | weekday 7 is refused |
| Validations.HourAndMonthOutOfRange | src/lib/validations.ts:42 | hour 24 and month 13 are refused |
| Validations.DayOfMonthOutOfRange | src/lib/validations.ts:42 | day of month 0 and 32 are refused |
| Validations.ZeroStepAccepted | src/lib/validations.ts:42 | the step `*/0` is accepted for minute, hour and weekday |
| Validations.ZeroStepRefused | src/lib/validations.ts:42 | the step `*/0` is refused for day of month and month |
| Validations.FiveFieldsSingleSpaces | src/lib/validations.ts:42 | a doubled space or four fields are refused |
| Validations.ConfigScheduleIsLooser | src/lib/validations.ts:55-60 | an automation configuration accepts a schedule that the cron schedule pattern refuses |
| YouTubeJobs.WellFormed | src/lib/jobs/youtube.ts:36-40 | a thread is processed only when it has a top-level comment snippet and a non-empty comment id |
| YouTubeJobs.NewRow | src/lib/jobs/youtube.ts:61-79 | a new comment row has the thread's id, the video's id, status pending, and text `''` when the thread has no textDisplay |
| YouTubeJobs.IngestThreads | src/lib/jobs/youtube.ts:35-114 | the thread loop only appends, keeps comment ids unique, inserts only pending rows for this video, and on success leaves every well-formed thread's id stored |
| YouTubeJobs.StoredGrows | src/lib/jobs/youtube.ts:42-56 | an id stored stays stored when rows are appended |
| YouTubeJobs.AllStoredInsertsNothing | src/lib/jobs/youtube.ts:42-56 | a page whose well-formed ids are all stored inserts nothing and cannot fail |
| YouTubeJobs.NewRowsFromPage | src/lib/jobs/youtube.ts:36-79 | every inserted row is the new row of a well-formed thread of the page whose id was not stored before |
| YouTubeJobs.Stamp | src/lib/jobs/youtube.ts:116-127 | exactly the rows of that video get `lastChecked` set to now; all else is kept |
| YouTubeJobs.StampAll | src/lib/jobs/youtube.ts:116-127 | a row is stamped exactly when its video was among those processed |
| YouTubeJobs.CheckFrom | src/lib/jobs/youtube.ts:29-128 | the video loop only appends comments, keeps ids unique, stamps every processed video on success and, on error, stops at some video k: exactly the videos before k are stamped and had every well-formed id of their pages stored, and video k's page failed to fetch or holds a well-formed id that was not stored |
| YouTubeJobs.CheckAndReply | src/lib/jobs/youtube.ts:13-135 | with no tracked videos nothing changes; a successful run stamps every video |
| YouTubeJobs.FailedRunKeepsPrefix | src/lib/jobs/youtube.ts:131-134 | a failed run keeps the rows inserted before the error and stops at some video k whose page failed to fetch or holds an unstored well-formed id; exactly the videos before k, whose pages are all stored, are stamped |
| YouTubeJobs.PagesStoredGrows | src/lib/jobs/youtube.ts:42-56 | pages whose ids are stored stay so when rows are appended |
| YouTubeJobs.PagesStoredCons | src/lib/jobs/youtube.ts:29-35 | pages stored for one video and for the rest are stored for all of them |
| YouTubeJobs.SuccessStoresPages | src/lib/jobs/youtube.ts:29-128 | after a successful run every well-formed id of every fetched page is stored |
| YouTubeJobs.StoredPagesInsertNothing | src/lib/jobs/youtube.ts:29-128 | a run over pages already stored inserts nothing and succeeds |
| YouTubeJobs.RerunInsertsNothing | src/lib/jobs/youtube.ts:13-135 | running the job again over identical pages inserts no row and succeeds |
| YouTubeJobs.AnalyzeFrom | src/lib/jobs/youtube.ts:212-259 | the analysis only appends, keeps ids unique, and counts every video on success and fewer on error |
| YouTubeJobs.CountsAreInsertions | src/lib/jobs/youtube.ts:215-254 | the counts sum to the number of rows a successful analysis inserts, and to no more than a failed one inserts |
| YouTubeJobs.FirstCountIsFirstVideosRows | src/lib/jobs/youtube.ts:212-256 | the first count is the number of rows inserted for the first video: they follow the old table, carry that video's id, and each is the new row of a well-formed, previously unstored thread of its page |
| YouTubeJobs.AnalysisStoresPages | src/lib/jobs/youtube.ts:212-256 | after a successful analysis every well-formed id of every page of 100 it read is stored |
| YouTubeJobs.ReanalysisCountsNothing | src/lib/jobs/youtube.ts:199-266 | analysing again over stored pages inserts nothing, succeeds and counts zero for every video |
| YouTubeJobs.ReanalysisAfterRun | src/lib/jobs/youtube.ts:199-266 | after a successful analysis, analysing again over the same pages inserts nothing, succeeds and counts zero for every video |
| YouTubeJobs.FirstVideo | src/lib/jobs/youtube.ts:145-153 | the first row of the video table with that id, None exactly when the video is not tracked |
| YouTubeJobs.VideoFromDetails | src/lib/jobs/youtube.ts:170-186 | the new row has the id; title, channelId, channelTitle and description come from the snippet when there is one, and all are empty without it; publishedAt is the snippet's exactly when that is present and not empty; no lastChecked |
| YouTubeJobs.Track | src/lib/jobs/youtube.ts:140-194 | a tracked video is returned unchanged; missing details fail with "Video not found"; a failing details call fails with its error; a refused insert fails with an insert error; a row is appended exactly when the video is new, details exist and the insert succeeds, and that row is the one built from the details; nothing else changes the table |
| YouTubeJobs.TrackTwice | src/lib/jobs/youtube.ts:145-158 | after tracking a video, tracking it again returns the stored row and changes nothing |
| YouTubeJobs.Store.constructor | src/lib/jobs/youtube.ts:18-20 | the store holds the given tables |
| YouTubeJobs.Store.HasComment | src/lib/jobs/youtube.ts:42-53 | the lookup finds a row exactly when the id is stored |
| YouTubeJobs.Store.InsertComment | src/lib/jobs/youtube.ts:61-79 | an accepted row is appended, a refused one leaves the table as it was |
| YouTubeJobs.Store.TouchVideo | src/lib/jobs/youtube.ts:116-127 | the video table becomes Stamp of the old one; comments are kept |
| YouTubeJobs.Store.IngestPage | src/lib/jobs/youtube.ts:35-114 | the loop over a page leaves the comment table, count and error that IngestThreads gives |
| YouTubeJobs.Store.CheckVideo | src/lib/jobs/youtube.ts:31-127 | one video of the check job: a failed fetch leaves both tables; otherwise the comments are those of IngestThreads over its page of 50 and the video is stamped exactly when that succeeds |
| YouTubeJobs.Store.CheckAndReplyToYouTubeComments | src/lib/jobs/youtube.ts:13-135 | the nested loops leave both tables and the error that CheckAndReply gives |
| YouTubeJobs.Store.AnalyzeVideo | src/lib/jobs/youtube.ts:213-258 | one video of the analysis job: a failed fetch leaves the comments; otherwise the comments, count and error are those of IngestThreads over its page of 100; the video table is untouched |
| YouTubeJobs.Store.FetchYouTubeCommentsForAnalysis | src/lib/jobs/youtube.ts:199-266 | the nested loops leave the comments, counts and error that AnalyzeFrom gives, and never touch the video table |
| YouTubeJobs.Store.FindVideo | src/lib/jobs/youtube.ts:145-153 | the lookup returns FirstVideo |
| YouTubeJobs.Store.TrackYouTubeVideo | src/lib/jobs/youtube.ts:140-194 | the video table and result are those of Track; comments are kept |
| AutomationSettings.Truthy | src/app/api/automation/settings/route.ts:61 | JavaScript truthiness of a property that may be undefined: false for undefined, null, false, 0 and the empty string |
| AutomationSettings.IsObject | src/app/api/automation/settings/route.ts:61 | `typeof v === 'object'`, which holds for null, arrays and objects |
| AutomationSettings.JsText | src/app/api/automation/settings/route.ts:69 | the text `${jobName}` puts in the prefix for each kind of JSON value: a string is itself and an object `[object Object]`; None exactly when the conversion throws, that is for an object with its own `toString` member, directly or inside an array |
| AutomationSettings.Member | src/app/api/automation/settings/route.ts:59 | a property read from the body is the value of the last member with that name, as JSON.parse keeps it, and is undefined exactly when the body is not an object or has no member of that name |
| AutomationSettings.LastMember | src/app/api/automation/settings/route.ts:59 | the value of a member with that name after which no member has it (the last one), None exactly when no member has it |
| AutomationSettings.Entries | src/app/api/automation/settings/route.ts:70 | `Object.entries` of an object is its members; of an array it is the items keyed by their printed index |
| AutomationSettings.Lookup | src/app/api/automation/settings/route.ts:29-40 | a key has a value exactly when some row has it, and the value is that of the last row with the key, as the reduce overwrites earlier ones |
| AutomationSettings.Prefix | src/app/api/automation/settings/route.ts:22 | a job's keys start with its name and an underscore |
| AutomationSettings.Decode | src/app/api/automation/settings/route.ts:34-38 | a value that parses is returned parsed, otherwise as its raw string |
| AutomationSettings.Strip | src/app/api/automation/settings/route.ts:32 | the stripped name put after the prefix gives back the key |
| AutomationSettings.Collect | src/app/api/automation/settings/route.ts:29-40 | a name is returned exactly when prefix + name is a stored key, with that row's value decoded |
| AutomationSettings.Get | src/app/api/automation/settings/route.ts:9-47 | 401 exactly when there is no session; 400 exactly when the job is missing or empty; otherwise the job's settings as Collect gives them |
| AutomationSettings.SetWhere | src/app/api/automation/settings/route.ts:85-87 | every row with the key gets the new value and time, and every other row is kept |
| AutomationSettings.Upsert | src/app/api/automation/settings/route.ts:76-93 | one iteration of the save loop: update the key's rows when it is stored, insert a row otherwise |
| AutomationSettings.UpsertStores | src/app/api/automation/settings/route.ts:76-93 | an upsert stores the value under its key, keeps one row per key, leaves every other key as it was, and adds a row only for a new key |
| AutomationSettings.SetWhereFound | src/app/api/automation/settings/route.ts:85-87 | after the update a stored key reads back the new value |
| AutomationSettings.SetWhereElsewhere | src/app/api/automation/settings/route.ts:85-87 | the update leaves the value of every other key as it was |
| AutomationSettings.SaveAll | src/app/api/automation/settings/route.ts:69-94 | the save loop: one upsert per entry, in order, under the job's prefix with the stringified value |
| AutomationSettings.SaveAllKeepsOthers | src/app/api/automation/settings/route.ts:69-94 | the save loop keeps one row per key and leaves every key that no entry names as it was |
| AutomationSettings.PrefixInjective | src/app/api/automation/settings/route.ts:71 | different names give different keys under one prefix |
| AutomationSettings.PostedValuesStored | src/app/api/automation/settings/route.ts:69-94 | after the loop each posted name reads back the stringified value posted for it |
| AutomationSettings.Post | src/app/api/automation/settings/route.ts:51-101 | 401 exactly when there is no session; 500 exactly when the body is not JSON or is null, or when an otherwise valid jobName cannot be converted to a string; 400 exactly when jobName or settings is falsy or settings is not an object; so every other request is saved; the table changes only when the settings are saved, and then it is the save loop over the entries under `jobName_` |
| AutomationSettings.ToStringMemberFails | src/app/api/automation/settings/route.ts:69 | the body `{"jobName": {"toString": 1}, "settings": {"a": 1}}` gets the 500 response and leaves the table unchanged |
| AutomationSettings.PostThenGet | src/app/api/automation/settings/route.ts:22-94 | posting a job's settings and reading them back returns every posted value, when parsing inverts stringifying |
| AutomationSettings.PrefixOverlap | src/app/api/automation/settings/route.ts:30 | GET for job `a` returns a setting `c` saved by job `a_b`, under the name `b_c` |
| AutomationSettings.SharedStorageKey | src/app/api/automation/settings/route.ts:22 | setting `b_c` of job `a` and setting `c` of job `a_b` are stored under the same key |
| AutomationSettings.SettingsTable.constructor | src/app/api/automation/settings/route.ts:24-26 | the table holds the given rows |
| AutomationSettings.SettingsTable.SelectByKey | src/app/api/automation/settings/route.ts:76-80 | at most one row is returned, carrying the key, and one is returned exactly when the key is stored |
| AutomationSettings.SettingsTable.UpdateByKey | src/app/api/automation/settings/route.ts:85-87 | the rows become SetWhere of the old rows |
| AutomationSettings.SettingsTable.Insert | src/app/api/automation/settings/route.ts:91-92 | a row with the key and value is appended |
| AutomationSettings.SettingsTable.SaveSettings | src/app/api/automation/settings/route.ts:70-94 | the loop over the entries leaves the rows SaveAll gives: each prefixed key is updated when stored and inserted otherwise |
| AutomationSettings.SettingsTable.HandlePost | src/app/api/automation/settings/route.ts:51-101 | the response and the new rows are exactly those of Post, including the 500 for a jobName whose conversion to a string throws |

## Left out

- node-cron itself is not part of this model. That covers wall-clock matching, firing times and the grammar of `cron.validate`, which is a predicate parameter. The regular expression of `validations.ts` is not assumed to agree with it.
- The `replied` transition is not modelled, because the reply code in `src/lib/jobs/youtube.ts` lines 83-111 is commented out. `Replied` exists as a status, but no operation writes it.
- The scheduler has no overlap guard, and the model adds none. Concurrent firings, and a task still running after `stop()`, are not modelled. The model is sequential.
- Logging (`console` and `src/lib/logger.ts`) is not modelled, since it changes no state.
- Dates are not modelled. Every `new Date()` of one run is the single tick `now`, and `publishedAt` is kept as the API's string.
- YouTubeJobs.VideoFromDetails and AutomationSettings.SettingsTable.Insert: an inserted row has no `lastChecked` and no `updatedAt`. Whatever defaults the schema gives those columns is not part of this model.
- Insert failures are modelled for the YouTube tables only (the `accepts` parameters). A failing settings insert, select or update, and the 500 responses they cause, are not modelled; `AutomationSettings.SettingsTable.Insert` always succeeds.
- YouTubeJobs.CheckFrom: only fetch and insert errors end the run. A failing select (the video list, the per-comment lookup) or a failing `lastChecked` update, each rethrown by the source, is not modelled; such a failure can end a source run after video k's page was fully stored, which `FailedAt` does not describe.
- YouTubeJobs.FailedRunKeepsPrefix: describes runs ended by a fetch or insert error only. A run that the source ends at a failing `lastChecked` update leaves that video's page stored, an outcome this lemma does not cover.
- YouTubeJobs.AnalyzeFrom and YouTubeJobs.Track: a failing select of the video list, of a comment or of the tracked video is not modelled; only fetch and insert errors are.
- YouTubeJobs.Store.HasComment, YouTubeJobs.Store.TouchVideo and YouTubeJobs.Store.FindVideo always succeed; the database errors their source statements can raise are not modelled.
- YouTubeJobs.Store.TrackYouTubeVideo returns the row it inserted. The source returns the driver's result for the insert, and that result is not part of this model.
- The SQLite and Postgres branches are one store. `src/lib/db.ts`, `src/lib/youtube.ts` and `src/lib/openai.ts` are not part of this model: fetching comments and video details are function parameters.
- `src/lib/jobs/twitter-ai.ts`, the authentication module and the UI pages are not part of this model. The schedule presets of `SchedulePicker.tsx` and the twitter page serve only as accept examples.
- Validations: every input field is assumed to have the right JSON type when present. zod's type errors, coercions, exact messages and issue order are not modelled; a field that is present and of the wrong type is not represented.
- Common.ReplaceFirst: a replacement string containing `$` is excluded by its precondition, since JavaScript would expand `$&`, `$$` and similar patterns in it; the only use replaces with the empty string.
- Validations.Utf16Length: a character counts one code unit below U+10000 and two above; strings are sequences of Dafny characters, not raw UTF-16.
- AutomationSettings.Entries: JavaScript orders an object's integer-like keys first. The model keeps members in the order given, and a body with duplicate member names is not collapsed the way `JSON.parse` collapses it.
- AutomationSettings.Collect: the assignment `acc[settingKey] = …` loses a setting named `__proto__`, which the model returns like any other name. AutomationSettings.PostThenGet therefore does not hold in JavaScript for that name.
- AutomationSettings.Json: numbers are integers; fractional and exponent forms, and their printing by `String`, are not modelled.
- The request's `req.json()` failing is one input (None) that yields the 500 response. The 500 branch of GET is not modelled, since only a database error reaches it.
