# Parallel email dispatcher, modelled in Dafny

This project models the dispatch engine of a two-tenant bulk-email server
(`parallel_backend.py`). The server has two tenants, Talrn and Leadersfirst,
and each has its own work queue, its own send-time tracker and its own worker.
One activity log is shared by both.

- **Submission.** The `send` route splits the comma-separated recipient list
  and strips each entry. It queues one task per non-empty entry, on the queue
  chosen by a case-insensitive match of the brand against `leadersfirst`.
- **Worker.** Each worker peeks at the head of its queue and hands it to
  `process_email`. It removes the head only when `process_email` reports the
  task handled.
- **`process_email`.** It asks the sliding-window rate limiter first. A task
  that is turned away stays queued, and a warning is logged. An admitted task
  goes through these steps:
  - the other tenant's logo reference in the body is rewritten;
  - the logo is attached, or a warning is logged;
  - the message is handed to the mailer;
  - on success `now` is recorded in the tracker.

  The task then counts as handled whatever the mailer said. A task without a
  body fails inside the same `try` block, so it also counts as handled.
- **`add_log`.** The activity log evicts its oldest entry before an append
  whenever it holds more than 100 entries.

The model has five modules, one per file:

| file | module | what it holds |
|---|---|---|
| `text.dfy` | `Text` | Python's `strip()`, `split(sep)`, `lower()` and `replace(old, new)` over `seq<char>`, with their laws |
| `rate_limit.dfy` | `RateLimit` | `check_rate_limit` as an in-place loop on a `SendTimes` object, specified by the function `Purge` |
| `activity_log.dfy` | `ActivityLogs` | `add_log` on an `ActivityLog` object, specified by `LogAppend`, and the ring-buffer law |
| `dispatch.dfy` | `Dispatcher` | `process_email` and its specification function `Dispatch`, one `worker` iteration, the worker loop, and queue FIFO order |
| `backend.dfy` | `Backend` | the `Server` object holding the global state, `send` with its enqueue loop, the worker pairing per tenant, and `get_logs` |

**Inputs that cannot be computed become parameters.** Each of these is passed
into the model:

- the mailer's answer (`Delivery`);
- the logo file: present, missing, or failing when read (`Logo`);
- the clock reading `now`, in whole seconds, as a `nat`;
- the log's `HH:MM:SS` stamp, as an opaque string.

JSON fields reach `Send` already extracted:

- a missing `recipients` field is the empty string;
- a missing `brand` field is `"Talrn"`;
- a missing `email_body` is `None`.

## Model

| member | source | states |
|---|---|---|
| Text.Strip | parallel_backend.py:152-154 | `strip()` is never longer than its input and leaves no white space at either end |
| Text.StripSlice | parallel_backend.py:152-154 | `strip()` returns a contiguous slice of its input, and only white space lies before and after that slice |
| Text.StripEmptyIff | parallel_backend.py:152 | an entry is skipped (strips to empty) exactly when it is all white space |
| Text.StripKeepsOut | parallel_backend.py:154 | stripping never introduces a character that was not in the entry |
| Text.StripIdempotent | parallel_backend.py:154 | stripping an already stripped recipient changes nothing |
| Text.TrimStartSuffix | parallel_backend.py:152-154 | removing leading white space keeps a suffix and removes only white space |
| Text.TrimEndPrefix | parallel_backend.py:152-154 | removing trailing white space keeps a prefix and removes only white space |
| Text.Split | parallel_backend.py:147 | `split(',')` yields at least one piece, and no piece contains the separator |
| Text.JoinSplit | parallel_backend.py:147 | joining the pieces of `split` with the separator gives back the original string |
| Text.SplitJoin | parallel_backend.py:147 | splitting a join of separator-free pieces gives back the pieces |
| Text.SplitPiece | parallel_backend.py:147 | a separator-free prefix followed by the separator comes out of `split` as one whole piece |
| Text.Lower | parallel_backend.py:158 | `lower()` keeps the length and lowers each character independently |
| Text.LowerIgnoresCase | parallel_backend.py:158 | two brands that agree up to letter case lower to the same string |
| Text.ReplaceAbsent | parallel_backend.py:82-84 | `replace` leaves a body that does not contain the pattern unchanged |
| Text.ReplaceKeepsPrefix | parallel_backend.py:82-84 | text before the first possible match start is copied unchanged by `replace` |
| Text.ReplaceHead | parallel_backend.py:82-84 | when the pattern and replacement share their first character, a replaced body that starts with it still starts with it |
| Text.ClearsAfterRep | parallel_backend.py:82-84 | a replacement followed by pattern-free text contains no occurrence of the pattern |
| Text.ClearsAfterChar | parallel_backend.py:82-84 | a character copied where no match starts cannot begin a new occurrence of the pattern |
| Text.ReplaceClears | parallel_backend.py:82-84 | after a left-to-right, non-overlapping `replace` whose replacement cannot re-create the pattern, no occurrence of the pattern remains |
| Text.ReplaceProduces | parallel_backend.py:82-84 | a body that contains the pattern contains the replacement after `replace` |
| Text.NatToString | parallel_backend.py:67 | an integer renders in an f-string as a non-empty string of decimal digits |
| Text.NatToStringValue | parallel_backend.py:67 | the rendered digits read back, most significant first, as the integer itself, and a positive integer has no leading zero |
| RateLimit.SendTimes.constructor | parallel_backend.py:171 | each tenant's tracker starts empty |
| RateLimit.Purge | parallel_backend.py:58-59 | the purge never lengthens the tracker, and what remains is empty or starts at or after the cutoff |
| RateLimit.PurgeIsSuffix | parallel_backend.py:58-59 | the purge keeps a suffix of the tracker: nothing is added or reordered |
| RateLimit.PurgeDropsExpired | parallel_backend.py:58-59 | every dropped entry is strictly older than the cutoff |
| RateLimit.PurgeIsLongestFreshSuffix | parallel_backend.py:58-59 | the purge keeps exactly the longest suffix whose first entry is at or after `now - window` |
| RateLimit.RateCheckIdempotent | parallel_backend.py:57-60 | a second rate check at the same `now` removes nothing more and gives the same answer |
| RateLimit.PurgeSorted | parallel_backend.py:58-59 | purging a sorted tracker leaves it sorted |
| RateLimit.PurgeSortedAllFresh | parallel_backend.py:58-60 | on a sorted tracker every remaining send lies inside the window |
| RateLimit.CountFresh | parallel_backend.py:60 | an independent count of the sends at or after the cutoff, never more than the tracker's length |
| RateLimit.CountFreshAllFresh | parallel_backend.py:60 | when every send is recent, the count is the whole length |
| RateLimit.PurgeCountsWindow | parallel_backend.py:58-60 | on a sorted tracker the purged length equals the number of sends inside the window |
| RateLimit.AdmitsIffWindowCount | parallel_backend.py:56-60 | on a sorted tracker a send is admitted exactly when fewer than `limit` sends lie inside the window |
| RateLimit.RecordKeepsSorted | parallel_backend.py:107 | with a clock that never runs backwards, the tracker stays oldest-first and holds no future send |
| RateLimit.CheckRateLimit | parallel_backend.py:56-60 | the in-place `pop(0)` loop leaves the purged tracker and answers "fewer than `limit` remain" |
| ActivityLogs.LogAppend | parallel_backend.py:53-54 | a log within 101 entries stays within 101 entries, and the new entry is always last |
| ActivityLogs.LogAppendKeeps | parallel_backend.py:53-54 | the entries before the new one are the old log, minus exactly its oldest entry when it held more than 100 |
| ActivityLogs.NewestStep | parallel_backend.py:53-54 | appending to the newest 101 entries of a history gives the newest 101 entries of the longer history |
| ActivityLogs.LogKeepsNewest | parallel_backend.py:52-54 | any series of `add_log` calls leaves exactly the newest 101 entries, oldest first |
| ActivityLogs.LogBounded | parallel_backend.py:53-54 | the log never grows past 101 entries |
| ActivityLogs.ActivityLog.constructor | parallel_backend.py:41 | the activity log starts empty |
| ActivityLogs.ActivityLog.Add | parallel_backend.py:48-54 | `add_log` evicts first and then appends, in place, so the log becomes `LogAppend` of the old one and stays within capacity |
| Dispatcher.TaskQueue.constructor | parallel_backend.py:39-40 | each tenant's queue starts empty |
| Dispatcher.SubjectPreview | parallel_backend.py:63 | the preview is the subject when it has at most 20 characters, and otherwise its first 20 followed by `...`; it is at most 23 characters long and starts with the subject's beginning |
| Dispatcher.RewriteCids | parallel_backend.py:80-84 | a Leadersfirst body keeps no `cid:talrn_logo` and a Talrn body keeps no `cid:leaders_logo` after the rewrite; a body for a tenant named neither goes out unchanged |
| Dispatcher.TalrnToLeadersClears | parallel_backend.py:82 | `cid:leaders_logo` cannot re-create `cid:talrn_logo` when it replaces it |
| Dispatcher.LeadersToTalrnClears | parallel_backend.py:84 | `cid:talrn_logo` cannot re-create `cid:leaders_logo` when it replaces it |
| Dispatcher.LeadersCidIsConfigured | parallel_backend.py:82 | the Leadersfirst replacement `cid:` followed by its CID is `cid:leaders_logo` |
| Dispatcher.TalrnCidIsConfigured | parallel_backend.py:84 | the Talrn replacement `cid:` followed by its CID is `cid:talrn_logo` |
| Dispatcher.LeadersBodyGetsLeadersCid | parallel_backend.py:81-82 | a Leadersfirst body that referred to the Talrn logo refers to `cid:leaders_logo` after the rewrite |
| Dispatcher.TalrnBodyGetsTalrnCid | parallel_backend.py:83-84 | a Talrn body that referred to the Leadersfirst logo refers to `cid:talrn_logo` after the rewrite |
| Dispatcher.RewriteKeepsOwnBody | parallel_backend.py:80-84 | a tenant's body that holds neither logo reference goes out unchanged |
| Dispatcher.LimitRendering | parallel_backend.py:67 | both tenants' limit is 150, which renders as `150` |
| Dispatcher.RateLimitedText | parallel_backend.py:67 | either tenant's rate-limit warning reads `Rate limit hit (150/hr). Pausing...` |
| Dispatcher.LogoEvents | parallel_backend.py:89-100 | a present logo logs nothing; a missing or unreadable logo logs exactly one warning |
| Dispatcher.Handle | parallel_backend.py:70-114 | once admitted, a task is always handled; `now` is recorded exactly when it has a body and delivery succeeds; a message goes out exactly when it has a body |
| Dispatcher.Dispatch | parallel_backend.py:62-114 | a task counts as handled exactly when the rate limiter admits it; the tracker becomes the purged tracker, with `now` appended exactly when a message is delivered; a message goes out exactly when the task is admitted and has a body |
| Dispatcher.DispatchEvents | parallel_backend.py:66-114 | a turned-away task logs only the rate-limit warning; a handled task's last log line is a success when the message was delivered and an error otherwise, and every line before it is a warning |
| Dispatcher.DispatchMessage | parallel_backend.py:70-90 | the message carries the full subject (not the preview), the recipient, the tenant's name and sender address, the task's format and the rewritten body; it has a reply-to exactly when the task's reply-to is non-empty, and then it is the task's; it has an inline logo exactly when the logo file is present |
| Dispatcher.LogoOnlyWarns | parallel_backend.py:88-114 | for an admitted task with a body, the logo file changes only the warnings before the final line: the handled flag, the tracker and the final line stay the same |
| Dispatcher.TrackerStaysSorted | parallel_backend.py:107 | with a clock that never runs backwards, `process_email` keeps the tracker oldest-first and free of future sends |
| Dispatcher.TwoPerHourScenario | parallel_backend.py:56-68 | with a limit of two per hour, two sends a second apart go out; the third is turned away with the rate-limit warning and leaves the tracker alone |
| Dispatcher.Stamp | parallel_backend.py:48-50 | each log entry carries the clock stamp, the rendered message, the severity and the tenant's name, one entry per event |
| Dispatcher.ProcessEmail | parallel_backend.py:62-114 | in place, `process_email` leaves the tracker, the log and its result as `Dispatch` says, and it keeps the log within capacity |
| Dispatcher.LogRateLimited | parallel_backend.py:67 | the rate-limit branch appends exactly the warning line under the tenant's name |
| Dispatcher.HandleEmail | parallel_backend.py:70-114 | in place, the admitted part of `process_email` leaves the tracker and the log as `Handle` says, and it returns the message |
| Dispatcher.Deliver | parallel_backend.py:88-114 | in place, after the rewrite: the log gains the logo warnings and then a success line when delivered or an error line otherwise; the tracker gains `now` exactly when delivered |
| Dispatcher.AttachLogo | parallel_backend.py:88-100 | in place, the logo step appends exactly the logo warnings of `LogoEvents` to the log |
| Dispatcher.WorkerStep | parallel_backend.py:118-129 | an empty queue changes nothing; otherwise the head is processed, and it is removed exactly when `process_email` reports it handled, the queue staying unchanged otherwise |
| Dispatcher.StepConserves | parallel_backend.py:118-125 | one iteration moves at most the head of the queue to the removed tasks and keeps the log within capacity |
| Dispatcher.RunWorkerConserves | parallel_backend.py:118-129 | over any number of iterations the removed tasks followed by the queue are the original queue, at most one task goes per iteration, and the log stays within capacity |
| Dispatcher.Worker | parallel_backend.py:116-129 | in place, the loop leaves the queue, the tracker and the log as the iteration-by-iteration fold `RunWorker` says; the removed tasks followed by the queue are the original queue, and at most one task goes per iteration |
| Dispatcher.RunIsFifo | parallel_backend.py:118-125 | however submissions and worker steps interleave, tasks leave the queue in the order in which they were queued |
| Dispatcher.RunEnqueues | parallel_backend.py:158-161 | appending tasks one at a time, as `send` does, is a run of `Enqueued` events that removes nothing |
| Dispatcher.StepIsProcessed | parallel_backend.py:118-125 | one worker iteration moves the queue exactly as one `Processed` event carrying `process_email`'s answer for the head, so the worker loop is an instance of the FIFO law |
| Backend.RouteIgnoresCase | parallel_backend.py:158 | brands differing only in letter case both match `leadersfirst` or both do not, so they go to the same queue |
| Backend.Entries | parallel_backend.py:151-154 | one recipient per entry whose stripped form is non-empty, in order: never more recipients than entries, and none empty |
| Backend.CountNonBlank | parallel_backend.py:151 | an independent count of the entries whose stripped form is non-empty, never more than the entries |
| Backend.EntriesCount | parallel_backend.py:151-154 | exactly one recipient is kept per non-blank entry: the number kept equals `CountNonBlank` |
| Backend.IndexedByBlank | parallel_backend.py:151 | a blank entry adds no recipient and keeps the index map of the earlier entries |
| Backend.IndexedByKept | parallel_backend.py:151-154 | a non-blank entry adds its stripped form at its own index, after every earlier index |
| Backend.EntriesIndices | parallel_backend.py:151-154 | each recipient is the stripped form of one entry, recipients come from strictly increasing entry positions, and every non-blank entry's position is used, so nothing is dropped and the order is kept |
| Backend.Recipients | parallel_backend.py:147-154 | the recipients queued for a submission are non-empty |
| Backend.EntriesStripped | parallel_backend.py:152-154 | every recipient is already stripped |
| Backend.RecipientsClean | parallel_backend.py:147-154 | every queued recipient is stripped, non-empty and free of commas |
| Backend.EntriesOfCommaFree | parallel_backend.py:147-154 | stripped entries of a comma split contain no commas |
| Backend.BlankEntries | parallel_backend.py:151-152 | entries made only of white space queue nothing |
| Backend.EmptyRecipients | parallel_backend.py:147-152 | an empty recipient list queues nothing |
| Backend.SplitExample | parallel_backend.py:147 | `"a, ,a".split(',')` is `["a", " ", "a"]` |
| Backend.EntriesExample | parallel_backend.py:151-154 | the blank middle entry is skipped and the other two are kept |
| Backend.RecipientsExample | parallel_backend.py:147-162 | `"a, ,a"` queues two tasks, both for `a`: duplicates are kept |
| Backend.TasksFor | parallel_backend.py:153-157 | one task per recipient |
| Backend.TasksForEach | parallel_backend.py:153-157 | the k-th task has the k-th recipient and the submission's subject, body, format, reply-to and brand |
| Backend.EnqueueAll | parallel_backend.py:150-162 | the `for` loop appends, in order, one task per non-blank stripped entry and counts exactly the tasks it appended |
| Backend.Server.constructor | parallel_backend.py:171-175 | at start-up the queues and trackers are empty and distinct, and the log holds only the start-up line |
| Backend.Server.Send | parallel_backend.py:143-165 | `send` appends the submission's tasks to the Leadersfirst queue when the lowered brand is `leadersfirst` and to the Talrn queue otherwise, leaving the other queue alone; the count equals the number appended; it logs and replies `Queued N` |
| Backend.Server.Work | parallel_backend.py:116-129 | one worker iteration for a tenant acts as `WorkerStep` on that tenant's queue, tracker and configuration, and it never touches the other tenant's queue or tracker |
| Backend.Server.GetLogs | parallel_backend.py:138-141 | `get_logs` returns the log as it stands, which holds at most 101 entries |

## Left out

- SMTP and SSL transmission (parallel_backend.py:102-105): network I/O. The mailer's answer is the `Delivery` parameter. Any exception in that block, including a login failure, is one `Refused(error)`.
- MIME construction and headers (parallel_backend.py:70-77, 86, 93-96): this is library code. `Message` keeps the fields the dispatcher decides; the `From` header pair is kept as `fromName` and `fromAddress`.
- Reading the logo file (parallel_backend.py:89-100): filesystem I/O. It is the three-way `Logo` parameter.
- Threads, locks and the `running` flag (parallel_backend.py:42-44, 118, 120, 125, 150, 172-173): these only matter for concurrency. Each worker iteration and each `send` is modelled as one atomic step, and `Worker` runs one iteration per given clock tick instead of until `running` is cleared.
- `time.sleep` (parallel_backend.py:127, 129): the pause itself is not modelled. `WorkerStep` returns `Deferred` where the source sleeps 10 seconds and `Idle` where it sleeps 1.
- `time.time()` and `time.strftime` (parallel_backend.py:49, 57, 107): these become `now`, in whole seconds, and an opaque log stamp. The source reads the clock once in `check_rate_limit` and again before `tracker.append`. The model uses one reading per call for both. Likewise `add_log` formats the clock afresh for every line (parallel_backend.py:49), while the model gives every line of one `process_email` call the same stamp `time`, although the SMTP session lies between the logo warning and the success or error line.
- `print` and `logging` calls (parallel_backend.py:51, 117, 176): console output only.
- Flask routes, static files, `/stats`, JSON parsing and the credentials (parallel_backend.py:132-136, 145-146, 167-168, 16-32 passwords and servers): these are HTTP glue and configuration. `Config` keeps the name, sender address, logo file, CID, limit and window.
- A `None` subject (parallel_backend.py:63): `len` runs outside the `try` and would raise, which ends the worker thread. The model takes the subject as a string.
- Text.Lower: folds only ASCII letters, while Python's `lower()` folds every Unicode letter. Only the comparison with `leadersfirst` depends on it.
- Backend.Server.Send: `str(brand)` of a non-string brand is not modelled; the brand is a string.
- Task: `is_html` is a `bool`. A missing value, which the source renders as plain text, is `false`.
- Dispatcher.Handle: a missing body gives the `replace` error text of the two tenant configurations. For a configuration named neither Talrn nor Leadersfirst the source skips `replace`, builds an empty text part from the missing body, and on a successful SMTP session records the send and logs success. The model logs the `replace` error for every configuration. The source defines no such configuration.

Behaviours of the code worth knowing, which the model follows:

- `send` never rejects an empty recipient list with an error. It queues nothing and replies `Queued 0` (`Backend.EmptyRecipients`).
- The rate limiter drops only sends strictly older than `now - window`. A send exactly `window` seconds old still counts (`RateLimit.PurgeDropsExpired`, `RateLimit.PurgeIsLongestFreshSuffix`).
- Duplicate recipients are not merged. Each non-blank entry is queued, so `"a, ,a"` queues two tasks for `a` (`Backend.RecipientsExample`).

In the source, `send` picks the queue inside its loop, once per recipient. `Backend.Server.Send` picks it once, before the loop. The brand is the same for every recipient, so the two are equivalent.
