# Enviame background workers, modelled in Dafny

Enviame is a priority messenger. Two background workers do the work behind it:

- **The delivery worker.** It polls the `messages` table for `pending` rows. For each row it sends two mails, a notification to the owner and a receipt to the submitter. It then records `sent` when both sends succeeded and `failed` otherwise.
- **The availability worker.** It fetches the owner's calendar every tick. It merges the events with the nightly quiet hours (23:00 to 08:00 local time) into blocking periods, then sorts and sweeps them into a busy/free status with its next transition. The result goes into a shared cache. The worker gives up after five failed fetches in a row.

The project models both workers, the older delivery worker they replaced, and the string helpers they share. The modules are:

- `BusyIntervals` (`intervals.dfy`): the sort and the sweep of `get_busy_status`. It also holds an order-free account of their result:
  - `Settled(b, t)`: no period that has begun by `t` is still running.
  - `Covered(b, x)`: some period is under way at `x`.
- `Availability` (`availability.dfy`):
  - `process_datetime`;
  - the event filter;
  - the quiet-hours instants;
  - `get_busy_status` as a method over the parsed feed.
- `CalendarWorker` (`calendar_worker.dfy`): `calendar_worker` over a sequence of ticks. The shared `RwLock<CalendarCache>` is a class.
  - Each tick carries the instant it ran at and the parsed feed, or nothing when the fetch or the parse failed.
  - The run is specified by the sequence of tick outcomes: how many ticks run, the cached value, and how many writes happen.
- `Mail` (`mail.dfy`): the `messages` table, the mailer and the pauses, shared by both delivery workers.
  - They form one class, `Backend`. It holds the rows, a status map that the methods update, and a ghost log of effects (status writes, sends, pauses) in order.
  - The mailer's verdicts are inputs.
- `DeliveryWorker` (`delivery_worker.dfy`): `email_worker` of `src/workers/email.rs`.
- `LegacyDeliveryWorker` (`legacy_worker.dfy`): `email_worker` of `src/worker.rs`. This older worker has no `sending` state and uses environment fallbacks for the from-addresses. Its bodies are string templates (HTML documents with a style block) whose `{{name}}` placeholders are replaced in turn.
- `Utils` (`utils.dfy`): `capitalize_first`, `escape_html` and `check_hash`.
- `MailTemplates` (`mail_templates.dfy`): those templates read as literal text and placeholders, and what one `replace` of a placeholder does to them.
- `Strings` (`strings.dfy`): Rust's `str::replace`, with a character pattern and with a string pattern.
- `Wrappers` (`wrappers.dfy`): `Option`.

**Time.** Instants are integers, in seconds since the Unix epoch. The configured time zone is a fixed offset in seconds east of UTC. An all-day date is a day number.

**The cache timestamp.** `CalendarCache.timestamp` is the string `%Y-%m-%d %H:%M` of the transition. That string names the minute and drops the seconds. The model stores the minute itself (`MinuteOf`), so two transitions within one minute compare equal, as their strings do.

**Behaviour worth noting.**

- **Sweep at a free `now`.** With periods `(1,3)`, `(2,5)`, `(7,9)` and `now = 0`, the code reports free until 1. The sweep compares the first start with `last_dt_end = now`, and 1 > 0. At `now = 2` the same periods give busy until 5. `BusyIntervals.SweepExamples` proves both answers.
- **When `sending` is written.** The newer worker writes `sending` inside the spawned task, not in the polling loop.
- **Unknown priorities.** Both workers look the from-address up in a three-entry map, and an unknown priority panics (`expect`, or indexing). There is no fallback address in that lookup. The older worker's only fallback is the environment variables, read at start-up.
- **The quiet-hours day.** The code reads the quiet-hours day from the UTC date of `now`, not from its local date; see Findings. The calendar worker therefore takes the date as a parameter, `QuietDate`. `UtcDate` is the code as written, and `LocalDate` is the correction. With no events and the local date, the status follows the clock: inside quiet hours it is busy until they end, and outside them it is free until they start.
- **Placeholders in the older worker's bodies.** The notification replaces `{{message}}` first, so a placeholder that a submitter writes in a message is replaced in turn. The receipt replaces `{{message}}` after the name and the e-mail, so a `{{name}}` or `{{email}}` written in a message reaches the submitter as written. Both bodies replace `{{version}}` last, so a `{{version}}` in a message is filled in both.

## Model

| member | source | states |
|---|---|---|
| Strings.ReplaceChar | src/utils.rs:54-60 | `replace` with a character pattern leaves a text without that character unchanged, and removes the character when the replacement text does not contain it |
| Strings.ReplaceCharAppend | src/utils.rs:54-60 | replacing a character distributes over concatenation |
| Strings.ReplaceCharBySelf | src/utils.rs:54-60 | replacing a character by itself is the identity |
| Strings.ReplaceInOrder | src/utils.rs:53-61 | a chain of character replacements leaves a text without any of the targets unchanged |
| Strings.ReplaceInOrderAppend | src/utils.rs:53-61 | the chain distributes over concatenation |
| Strings.ReplaceInOrderChar | src/utils.rs:53-61 | on one character, a chain whose replacement texts contain no later target acts as a single lookup of the first step that targets it |
| Strings.ReplaceInOrderIsLookup | src/utils.rs:53-61 | such a chain replaces every character of any text independently, at most once |
| Strings.ReplaceEmpty | src/worker.rs:207-215 | the case that makes `replace` total, although the bodies never replace an empty pattern: an empty pattern inserts the replacement before every character and at the end (the length grows by `(n+1)·|rep|`) |
| Strings.ReplaceAll | src/worker.rs:207-215 | `replace` with a string pattern leaves a text that does not contain the pattern unchanged |
| Strings.ReplaceAllOneChar | src/worker.rs:208 | with a one-character pattern, the string `replace` equals the character `replace` |
| Strings.ReplaceCharFrom | src/worker.rs:208 | every character of a character `replace` comes from the text or from the replacement |
| Strings.ReplaceAllAbsent | src/worker.rs:207-215 | a text without the pattern's first character is left unchanged |
| Strings.ReplaceAllCons | src/worker.rs:207-215 | a first character that does not start the pattern is copied, and the replacement goes on after it |
| Strings.ReplaceAllSkip | src/worker.rs:207-215 | a prefix without the pattern's first character is copied unchanged, and the replacement goes on after it |
| Strings.ReplaceAllPass | src/worker.rs:207-215 | a prefix in which no occurrence of the pattern starts is copied unchanged, and the replacement goes on after it |
| Strings.ReplaceAllFront | src/worker.rs:207-215 | a pattern at the front is replaced, and the replacement goes on after it, never rescanning the replacement text |
| Strings.ReplaceAllShort | src/worker.rs:207-215 | a text shorter than the pattern is unchanged |
| Strings.ReplaceAllWhole | src/worker.rs:207-215 | the pattern alone becomes the replacement |
| MailTemplates.ReplaceFills | src/worker.rs:207-234 | in a template of inert text and `{{name}}` placeholders whose filled placeholders hold no `{`, one `replace` of a placeholder not yet filled fills that placeholder everywhere and changes nothing else |
| MailTemplates.StyleBlockInert | src/worker.rs:18-22 | a style block as the templates write it, a doubled `{{` followed by a line break, is inert text: no placeholder begins in it |
| Strings.AsciiUpper | src/utils.rs:34 | upper-casing moves ASCII lower-case letters to their capitals, keeps every other character, and never yields a lower-case letter |
| Utils.CapitalizeFirst | src/utils.rs:31-37 | the length is kept; the first character is upper-cased and the rest is unchanged, so the result never starts with a lower-case letter; a text that does not start lower-case is unchanged |
| Utils.CapitalizeFirstIdempotent | src/utils.rs:31-37 | capitalising twice is capitalising once |
| Utils.CapitalizeFirstChanges | src/utils.rs:31-37 | capitalising changes the text exactly when it starts with a lower-case letter |
| Utils.EscapeChar | src/utils.rs:53-61 | every character has a non-empty escape, which is the character itself exactly when it is not one of the seven special characters |
| Utils.EscapeHtml | src/utils.rs:53-61 | a text without special characters is unchanged |
| Utils.EscapeHtmlAppend | src/utils.rs:53-61 | escaping distributes over concatenation |
| Utils.EscapeHtmlChar | src/utils.rs:53-61 | on one character the seven-step chain gives that character's escape: `&` is replaced first, and no later step re-escapes an earlier replacement |
| Utils.EscapeHtmlIsPerChar | src/utils.rs:53-61 | the chain equals the per-character escape (no character is escaped twice) |
| Utils.EscapeHtmlOutput | src/utils.rs:53-61 | the output contains no quote, apostrophe, slash or newline, and every `<` in it starts a `<br>` |
| Utils.EscapeHtmlRoundTrip | src/utils.rs:53-61 | unescaping the output gives back the input, so escaping loses nothing |
| Utils.CheckHash | src/utils.rs:48-51 | the check passes exactly when the provided hash equals the hash of the text under the key |
| Utils.CheckHashOfGenerated | src/utils.rs:39-51 | a hash generated with the same key always passes; a hash generated with a key that gives a different hash fails |
| BusyIntervals.Insert | src/workers/calendar.rs:102 | inserting into a sorted sequence keeps it sorted and adds exactly that element |
| BusyIntervals.SortIntervals | src/workers/calendar.rs:102 | the reference sort is sorted by `(start, end)` and a permutation of its input |
| BusyIntervals.SortedUnique | src/workers/calendar.rs:102 | two sorted permutations of the same periods are equal, so the sort's result is determined by its input |
| BusyIntervals.SortInPlace | src/workers/calendar.rs:102 | the in-place sort leaves the array sorted, a permutation of its old contents, and equal to the reference sort |
| BusyIntervals.RunningEnd | src/workers/calendar.rs:106-117 | the running end is at least `now`, at least every end seen so far, and is `now` or one of those ends |
| BusyIntervals.GapFrom | src/workers/calendar.rs:111-115 | every period before the gap starts within the chain, and the period at the gap starts after it |
| BusyIntervals.FirstGap | src/workers/calendar.rs:111-115 | the sweep breaks at the first period that starts after the running end |
| BusyIntervals.Sweep | src/workers/calendar.rs:104-120 | the sweep loop over the sorted array returns the specified busy flag and transition |
| BusyIntervals.SweepResult | src/workers/calendar.rs:104-120 | the sweep's answer; `Sweep` computes it, and `SweepFreeIff`, `SweepBusyTransition` and `SweepBusyCovers` state what it means |
| BusyIntervals.SweepFreeIff | src/workers/calendar.rs:104-120 | on sorted periods the result is free exactly when every period starts after `now`, and then the transition is the earliest start |
| BusyIntervals.SweepBusyTransition | src/workers/calendar.rs:104-120 | when busy, the transition is the first instant from `now` on at which every period begun by then has ended |
| BusyIntervals.SweepBusyCovers | src/workers/calendar.rs:104-120 | when busy and no period ended before `now`, some period is under way at every instant from `now` to the transition |
| BusyIntervals.SettledPermutation | src/workers/calendar.rs:102 | reordering the periods does not change which instants are settled |
| BusyIntervals.CoveredPermutation | src/workers/calendar.rs:102 | reordering the periods does not change which instants are covered |
| BusyIntervals.SortedSweepFree | src/workers/calendar.rs:102-120 | for periods in any order, sort then sweep is free exactly when all of them start after `now`; the transition is then later than `now` and is the earliest start |
| BusyIntervals.SortedSweepBusy | src/workers/calendar.rs:102-120 | for periods in any order, a busy answer's transition is settled, and no instant from `now` up to it is |
| BusyIntervals.SortedSweepCovers | src/workers/calendar.rs:102-120 | for periods in any order that have not ended before `now`, a busy answer is covered from `now` to its transition |
| BusyIntervals.SortSorted | src/workers/calendar.rs:102 | sorting an already sorted sequence changes nothing |
| BusyIntervals.SweepOne | src/workers/calendar.rs:104-120 | a single period: busy until `max(now, end)` once it has started, otherwise free until its start |
| BusyIntervals.SweepTwoApart | src/workers/calendar.rs:104-120 | a period under way and a later one that starts after it ends: busy until the first one ends |
| BusyIntervals.SweepIgnoresAfterGap | src/workers/calendar.rs:111-115 | after the break, whatever follows the period that opened the gap has no effect on the result |
| BusyIntervals.SweepExamples | src/workers/calendar.rs:104-120 | for `(1,3)`, `(2,5)`, `(7,9)`: busy until 5 at `now = 2`, and free until 1 at `now = 0` |
| Availability.ProcessDatetime | src/workers/calendar.rs:26-36 | a date becomes local midnight of that day; a date-time keeps its UTC instant, or nothing when it has none |
| Availability.EventInterval | src/workers/calendar.rs:55-76 | a kept event ends no earlier than `now` and starts no later than `now` plus one day |
| Availability.EventIntervalKept | src/workers/calendar.rs:55-76 | an event is skipped exactly when it is cancelled, lacks a start or an end, has an end or a start that does not convert, ends before `now` or starts after `now` plus one day; a kept event contributes its converted start and end |
| Availability.EventIntervals | src/workers/calendar.rs:53-76 | the collected periods are no more than the components, and each overlaps the next day, both bounds included |
| Availability.QuietWindows | src/workers/calendar.rs:98-101 | tonight's window is always added; last night's only while it has not ended |
| Availability.Blocking | src/workers/calendar.rs:53-101 | there is always at least one blocking period |
| Availability.CollectEvents | src/workers/calendar.rs:53-76 | the loop over the components collects exactly the kept events, in feed order |
| Availability.GetBusyStatus | src/workers/calendar.rs:38-121 | collect, sort in place and sweep give the specified status |
| Availability.BusyStatusOf | src/workers/calendar.rs:38-121 | the status `get_busy_status` reports: the sweep of the sorted blocking periods; `GetBusyStatus` computes it, and `FreeIffNothingStarted`, `BusyUntilSettled` and `BusyIsCovered` state what it means |
| Availability.FreeIffNothingStarted | src/workers/calendar.rs:98-120 | the status is free exactly when every blocking period starts after `now`; the transition is then the earliest start, later than `now` |
| Availability.BusyUntilSettled | src/workers/calendar.rs:98-120 | a busy status lasts until the first instant from `now` on at which every blocking period begun by then has ended |
| Availability.BusyIsCovered | src/workers/calendar.rs:98-120 | while tonight's quiet hours have not ended, a busy status has some period under way at every instant up to the transition |
| Availability.AsWrittenQuietInstants | src/workers/calendar.rs:78-96 | the code's four instants: each start falls at 23:00 and each end at 08:00 local time, last night's and tonight's one day apart, tonight's start fifteen hours after this morning's end (one date for both), and the local midnight they hang on is the UTC midnight at or before `now` (the UTC date) |
| Availability.QuietInstantsOn | src/workers/calendar.rs:78-96 | for either date, tonight's window starts at 23:00 and ends at 08:00 local time, one day after last night's, and starts fifteen hours after this morning's end; `UtcDate` gives the code's instants, `LocalDate` the corrected ones |
| Availability.LocalQuietInstants | src/workers/calendar.rs:78-96 | the instants from the local date: each start falls at 23:00 and each end at 08:00 local time, hung on the local midnight at or before `now`, tonight's start fifteen hours after this morning's end; tonight's window always ends after `now` |
| Availability.LocalTimeOfDay | src/workers/calendar.rs:78-90 | the local time of day lies within one day |
| Availability.LocalInstantsFromMidnight | src/workers/calendar.rs:78-96 | with local dates, the instants are 23:00 yesterday, 08:00 today, 23:00 today and 08:00 tomorrow, counted from local midnight |
| Availability.AsWrittenInstantsFromMidnight | src/workers/calendar.rs:78-96 | the code's instants are 23:00 yesterday, 08:00 today, 23:00 today and 08:00 tomorrow of the UTC date of `now`, each read as local time |
| Availability.InQuietHours | src/workers/calendar.rs:78-101 | the local time of day is 23:00 or later, or 08:00 or earlier; `QuietHoursOnly` shows that with no events the status is busy exactly then |
| Availability.QuietHoursOnly | src/workers/calendar.rs:88-120 | with no events: busy exactly inside quiet hours; until 08:00 today in the early morning, until 08:00 tomorrow late at night, and otherwise free until 23:00 today |
| Availability.AsWrittenQuietInstantsMissTonight | src/workers/calendar.rs:78-101 | at 23:00 UTC with offset +10:00, the UTC-date instants report busy until `now` although it is 09:00 local; the local-date instants report free until 13:00 UTC |
| CalendarWorker.MinuteOf | src/constants.rs:6 | the timestamp names the minute that contains the instant |
| CalendarWorker.Outcome | src/workers/calendar.rs:139-146 | a tick yields a new cache value exactly when its fetch and parse succeeded; the value is the busy flag of the status for the chosen quiet-hours date and the minute that contains its transition |
| CalendarWorker.OutcomeAt23UtcPlus10 | src/workers/calendar.rs:78-146 | at 23:00 UTC with offset +10:00 and no events, the worker as written (`UtcDate`) caches busy until 23:00 UTC; with `LocalDate` it caches free until 13:00 UTC the next day |
| CalendarWorker.Outcomes | src/workers/calendar.rs:136-146 | one outcome per tick, in order |
| CalendarWorker.TrailingFailures | src/workers/calendar.rs:131-132 | the failure count never exceeds the number of ticks seen |
| CalendarWorker.StopFrom | src/workers/calendar.rs:159-164 | the run stops at the first tick after which five failures in a row have occurred, or after the last tick |
| CalendarWorker.GivesUpAfter | src/workers/calendar.rs:159-164 | five failures in a row close the first `k` outcomes; `StopFrom` stops at the first such `k` |
| CalendarWorker.TicksRun | src/workers/calendar.rs:131-164 | the ticks run before the worker gives up; `Run` runs exactly these, and `StopsAfterFiveFailures` shows it stops right after the first five failures in a row |
| CalendarWorker.CacheAfter | src/workers/calendar.rs:148-157 | the cached value after a run of outcomes; `CacheIsLastSuccess` shows it is the last success's value, or the initial one |
| CalendarWorker.WritesDuring | src/workers/calendar.rs:148-157 | the writes during a run of outcomes; `WriteIffChanged`, `WritesAtMostSuccesses` and `SameStatusWrittenOnce` state when they happen |
| CalendarWorker.SharedCache.constructor | src/state.rs:20-30 | the cache starts with the given value and no writes |
| CalendarWorker.SharedCache.Store | src/workers/calendar.rs:154-157 | a write replaces the value and counts one write |
| CalendarWorker.Refresh | src/workers/calendar.rs:139-146 | a successful fetch computes the busy status with the quiet hours of the chosen date (the code uses the UTC date), and the minute of its transition |
| CalendarWorker.Attempt | src/workers/calendar.rs:139-146 | one tick gives its specified outcome |
| CalendarWorker.Run | src/workers/calendar.rs:123-168 | without a calendar URL nothing runs and nothing changes; otherwise the worker runs the specified number of ticks, and the cache and the write count follow the outcomes of exactly those ticks |
| CalendarWorker.Poll | src/workers/calendar.rs:131-167 | the loop stops after five failures in a row; the cache holds the result of the outcomes run, with one write per change |
| CalendarWorker.TrailingFailuresAtLeast | src/workers/calendar.rs:160-164 | at least `n` failures close the outcomes exactly when the last `n` outcomes are all failures |
| CalendarWorker.StopsAfterFiveFailures | src/workers/calendar.rs:131-164 | the worker runs every tick, or stops right after five failures in a row; no earlier five failures in a row occur |
| CalendarWorker.CacheIsLastSuccess | src/workers/calendar.rs:139-157 | the cached value is the last success's value, or the initial value when every tick failed |
| CalendarWorker.WriteIffChanged | src/workers/calendar.rs:148-157 | a tick writes exactly when the cached value changes |
| CalendarWorker.WritesAtMostSuccesses | src/workers/calendar.rs:148-157 | there are never more writes than successful ticks |
| CalendarWorker.SameStatusWrittenOnce | src/workers/calendar.rs:148-153 | the same value computed twice in a row is written at most once |
| Mail.NotificationSubject | src/workers/email.rs:89-92 | the notification subject: tag, priority, `Message from`, the name and the sender class in parentheses; see `SubjectsTagged` |
| Mail.ReceiptSubject | src/workers/email.rs:107 | the receipt subject: tag, priority and `Message Delivered`; see `SubjectsTagged` |
| Mail.SubjectsTagged | src/workers/email.rs:89-107 | both subjects start with `[Enviame] `, the priority and ` Message `; the notification goes on with `from `, the sender's name and a closing parenthesis, the receipt with `Delivered`, so the two differ |
| Mail.FinalStatus | src/workers/email.rs:126-156 | the final status is `sent` exactly when both sends succeeded, and `failed` otherwise |
| Mail.PendingMessages | src/workers/email.rs:62-65 | the poll returns exactly the table's rows whose status is `pending` |
| Mail.PendingDistinct | src/workers/email.rs:62-65 | pending rows have distinct ids when the table does |
| Mail.Dispatched | src/workers/email.rs:77-80 | the loop gets through every message before the first one whose priority has no sender, where it panics |
| Mail.StatusAfter | src/workers/email.rs:117-166 | the statuses once the batch's tasks have run; `StatusAfterFrame`, `StatusAfterSettled` and `StatusAfterOwnVerdict` state what they are |
| Mail.StatusAfterFrame | src/workers/email.rs:117-166 | a row that no task touches keeps its status |
| Mail.StatusAfterSettled | src/workers/email.rs:117-166 | every dispatched message ends `sent` or `failed`, never `pending` or `sending` |
| Mail.StatusAfterOwnVerdict | src/workers/email.rs:117-166 | with distinct ids, each dispatched message ends with its own verdict: `sent` exactly when both of its sends succeeded |
| Mail.Backend.constructor | src/state.rs:26-30 | the backend starts with the given rows and statuses and an empty log |
| Mail.Backend.SetStatus | src/workers/email.rs:158-165 | an `UPDATE` changes that row's status only and is logged |
| Mail.Backend.Send | src/utils.rs:63-80 | a send reports the mailer's verdict and is logged; the table is unchanged |
| Mail.Backend.Sleep | src/workers/email.rs:168 | a pause is logged and changes nothing else |
| DeliveryWorker.FromMap | src/workers/email.rs:56-59 | the priority-to-sender map; `BuildFromMap` builds it and `FromAddressByPriority` states its entries |
| DeliveryWorker.BuildFromMap | src/workers/email.rs:56-59 | the three inserts give the priority-to-sender map |
| DeliveryWorker.FromAddress | src/workers/email.rs:77-80 | a priority has a sender exactly when it is in the map, and it is the map's entry |
| DeliveryWorker.FromAddressByPriority | src/workers/email.rs:56-80 | each of the three priorities gets its own sender, and every other priority gets none |
| DeliveryWorker.NotificationMail | src/workers/email.rs:87-135 | the notification: from the priority's sender to the owner, replies to the submitter, its subject and the escaped message; see `MailsAddressed` |
| DeliveryWorker.ReceiptMail | src/workers/email.rs:107-149 | the receipt: from the same sender to the submitter, replies to the owner; see `MailsAddressed` |
| DeliveryWorker.MailsAddressed | src/workers/email.rs:87-148 | the notification goes to the owner with replies to the submitter, and the receipt the other way round; both come from the same sender and carry the same escaped message, which has no raw quote, slash or newline, no `<` outside a `<br>`, and unescapes to the message |
| DeliveryWorker.TaskEffects | src/workers/email.rs:117-166 | one task's effects: `sending`, both sends, the final status; `RunTask` logs exactly these and `TaskOrder` states their order |
| DeliveryWorker.RunTask | src/workers/email.rs:117-166 | a task writes `sending`, attempts both sends, then writes the final status for both verdicts; the row ends with that status |
| DeliveryWorker.Dispatch | src/workers/email.rs:72-168 | one message: its task, then the ten-second pause |
| DeliveryWorker.DispatchNext | src/workers/email.rs:72-169 | the status and the log move on by one message |
| DeliveryWorker.PollEffects | src/workers/email.rs:72-169 | each dispatched message's task, then the pause; `DispatchBatch` and `Poll` log exactly these |
| DeliveryWorker.DispatchBatch | src/workers/email.rs:72-169 | messages are handled in order until the first unknown priority panics; the statuses and the log are those of the messages dispatched |
| DeliveryWorker.Poll | src/workers/email.rs:61-170 | an empty poll only pauses; otherwise the pending messages are dispatched in table order |
| DeliveryWorker.TaskOrder | src/workers/email.rs:117-166 | a task writes `sending` before either send, attempts both sends whatever the first verdict, and writes the final status last |
| LegacyDeliveryWorker.FromMap | src/worker.rs:171-183 | the priority-to-sender map from the environment; `BuildFromMap` builds it and `FromMapFallbacks` states its fallbacks |
| LegacyDeliveryWorker.BuildFromMap | src/worker.rs:171-183 | the environment gives the priority-to-sender map |
| LegacyDeliveryWorker.FromMapFallbacks | src/worker.rs:171-183 | without `SMTP_FROM` there is no map (the worker panics); urgent and immediate mail fall back to `SMTP_FROM` when their variable is unset; no other priority has a sender |
| LegacyDeliveryWorker.MessageHtml | src/worker.rs:208 | the message as the bodies show it; `MessageHtmlNewlinesOnly` shows only newlines change, to `<br>` |
| LegacyDeliveryWorker.MessageHtmlNewlinesOnly | src/worker.rs:208 | only newlines are rewritten, to `<br>`; no newline remains, a message without one is unchanged, and every character comes from the message or from `<br>` |
| LegacyDeliveryWorker.OnlyMessagePlaceholder | src/worker.rs:230-234 | in a template whose only `{` are those of `{{message}}`, no other placeholder occurs |
| LegacyDeliveryWorker.NotificationBody | src/worker.rs:207-215 | the eight replacements in order; `NotificationBodyFills` and `PlaceholderInMessage` state what they give |
| LegacyDeliveryWorker.UserBody | src/worker.rs:230-234 | the four replacements in order; `UserBodyFills`, `PlaceholderInMessage` and `ReceiptExpandsVersion` state what they give |
| LegacyDeliveryWorker.NotificationFields | src/worker.rs:207-215 | the value each notification placeholder takes: the message with `<br>`, the priority and sender class capitalised, the name, e-mail, both times and the version |
| LegacyDeliveryWorker.UserFields | src/worker.rs:230-234 | the value each receipt placeholder takes: the name, e-mail, the message with `<br>` and the version |
| LegacyDeliveryWorker.NotificationBodyFills | src/worker.rs:71-215 | for any template of inert text (style blocks included) and `{{name}}` placeholders, with no `{` in the values filled before the version, the body is the template with each of the eight placeholders filled with its value and every other placeholder and all other text as written |
| LegacyDeliveryWorker.UserBodyFills | src/worker.rs:12-234 | for any such template, with no `{` in the name, e-mail or message, the receipt body is the template with the name, e-mail, message and version placeholders filled and every other placeholder and all other text as written |
| LegacyDeliveryWorker.PlaceholderInMessage | src/worker.rs:207-234 | with the template `{{message}}` and the message `{{name}}`, the notification body is the submitter's name, while the receipt body is `{{name}}` as written |
| LegacyDeliveryWorker.ReceiptExpandsVersion | src/worker.rs:230-234 | with the template `{{message}}` and the message `{{version}}`, the receipt body is the version: the receipt fills the version after the message |
| LegacyDeliveryWorker.NotificationMail | src/worker.rs:203-223 | the notification: from the priority's sender to the owner, no reply-to, its subject and body; see `MailsAddressed` |
| LegacyDeliveryWorker.ReceiptMail | src/worker.rs:229-236 | the receipt: from the same sender to the submitter, no reply-to; see `MailsAddressed` |
| LegacyDeliveryWorker.MailsAddressed | src/worker.rs:203-236 | the notification goes to the owner and the receipt to the submitter, both from the priority's sender and with no reply-to; recipients and subjects are those of the newer worker, which sets replies to the submitter |
| LegacyDeliveryWorker.MessageHtmlKeepsMarkup | src/worker.rs:207-215 | markup in a message reaches the older worker's body raw (a `<` outside any `<br>`), where `escape_html` leaves none |
| LegacyDeliveryWorker.HandleMessage | src/worker.rs:217-257 | both sends are attempted, then the row gets `sent` exactly when both succeeded, then a ten-second pause |
| LegacyDeliveryWorker.MessageEffects | src/worker.rs:217-257 | one message's effects: both sends, the final status, the pause; `HandleMessage` logs exactly these |
| LegacyDeliveryWorker.Handle | src/worker.rs:193-257 | one message with its two mails, as built from the templates |
| LegacyDeliveryWorker.HandleNext | src/worker.rs:193-258 | the status and the log move on by one message |
| LegacyDeliveryWorker.HandleBatch | src/worker.rs:193-258 | messages are handled in order until the first unknown priority panics; the statuses and the log are those of the messages handled |
| LegacyDeliveryWorker.BatchEffects | src/worker.rs:193-258 | each handled message's effects in order; `HandleBatch` and `Poll` log exactly these, and `NoSendingState` shows none writes `sending` |
| LegacyDeliveryWorker.Poll | src/worker.rs:187-260 | one poll handles the pending messages in table order and then pauses, unless it panicked |
| LegacyDeliveryWorker.NoSendingState | src/worker.rs:242-255 | the older worker writes only `sent` or `failed`, never `sending` |

## Left out

- Fetching the calendar over HTTP and parsing iCalendar are left out. A tick carries the parsed components, or nothing when either step failed. The 120-second interval timer is left out too: a tick is the next run of the loop.
- The configured time zone is a fixed offset. Daylight saving, and the `unwrap` panics on local times that a clock change skips or repeats, are left out.
- `get_busy_status` reads the clock twice. The model uses one reading, `now`, and takes `tomorrow_now` as `now` plus one day.
- The cache's timestamp string is modelled as its minute. The calendar formatting of year, month and day is left out.
- The newer worker renders its bodies with askama templates, which are not part of this model. A body is represented by the escaped message it displays. The notification template also shows the priority, name, e-mail, sender class, the two times and the version; the receipt template shows the name, e-mail and version. The model does not include those fields in the body.
- The older worker's template text is a parameter. The submitted and delivered times are given as already formatted strings.
- LegacyDeliveryWorker.NotificationBodyFills, LegacyDeliveryWorker.UserBodyFills: these cover field values without `{` (the version excepted). A value that holds a placeholder is filled in turn; `PlaceholderInMessage` and `ReceiptExpandsVersion` show this for particular inputs, but it is not characterised in general.
- SMTP is left out: the mailer's verdict on each send is an input. Building the `lettre` message, and address parse errors (which count as a failed send), are left out too.
- The `sqlx` queries that `unwrap` on a store error are left out, along with the panics they cause. The table is the `Backend` class.
- The newer worker spawns each task and goes on polling. The model runs a task as one step as soon as it is spawned. This leaves out two things: a message being selected again by the next poll before its task has written `sending`, and the interleaving of concurrent tasks.
- The outer `loop` of both delivery workers is modelled one poll at a time (`Poll`).
- The calendar worker is modelled over a finite sequence of ticks.
- `eprintln!` logging is left out.
- `generate_hash` (HMAC-SHA256, hex-encoded) is a function parameter of `CheckHash`.
- `generate_random_token` is left out; it uses randomness.
- `capitalize_first` upper-cases only ASCII lower-case letters. Unicode case mapping, including a first character that maps to several characters, is left out.
- The HTTP routes, the front-end scripts and `build.rs` are not part of this model.
- The Findings case is shown for one offset and one instant (`OutcomeAt23UtcPlus10`); which offsets and instants the UTC date puts a day behind in general is not characterised.
- Availability.BusyIsCovered: requires that tonight's quiet hours have not ended. The local-date instants always meet this (`LocalQuietInstants`). The UTC-date instants do not: in the Findings case a period ending before `now` makes the status busy with nothing under way.

## Findings

| source | as written | input that shows it | evidently intended | confidence | as-written member | corrected member |
|---|---|---|---|---|---|---|
| src/workers/calendar.rs:78-86 | the quiet-hours day is the UTC date of `now` (`date_naive` before `and_local_timezone`), so with a positive offset after local midnight the windows are a day behind | offset +10:00, `now` = 23:00 UTC (09:00 local, not quiet hours), no events: tonight's window is 13:00 to 22:00 UTC, already over, and the status is busy with the transition at `now` | take the day from the local date, so that the status is free until 23:00 local (13:00 UTC) | not executed | Availability.AsWrittenQuietInstantsMissTonight | Availability.QuietHoursOnly |
