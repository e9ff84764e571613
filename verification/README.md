# balance_bot bookkeeping, modelled in Dafny

balance_bot drives bank web sites (TMB, IOB, KGB, IDBI, IDFC) from a
Telegram bot. `main_cloud.py` starts one worker thread per alias and lends
it one Chrome profile from a pool of ten. Operators reply to OTP and
captcha prompts in the chat, and `/active` reports which aliases have
spoken recently. `balance_bot.py` parses balance messages into a SQLite
table and answers `/balance` and `/history`.

This project models the bookkeeping around the browser automation and
proves what it promises:

- `pool.dfy` (module `Pool`): the profile pool. `_free_profiles`,
  `_profile_assignments`, `_active` and the key order of `workers` are the
  four fields of class `ProfilePool`. Each method is proved to perform a
  pure transition on a `PoolState` value, and the pool invariant is proved
  about those transitions.
- `retry.dfy` (module `Retry`): the retry counter of every worker's `run`
  loop, the five-attempt upload loops and the KGB transaction search. All
  of them run over abstract outcome sequences.
- `routing.dfy` (module `Routing`): which waiting worker receives an
  operator's 6-digit reply, in `capture_captcha` and in
  `handle_text_message`, and which of the two handlers Telegram runs.
- `activity.dfy` (module `Activity`): `last_active` and the three-minute
  `/active` window.
- `aliases.dfy` (module `Aliases`): worker selection by alias suffix and
  the `/add` field split.
- `statement.dfy` (module `Statement`): the statement date window, the
  pick of the newest downloaded file, and the TMB page count.
- `indian_format.dfy` (module `IndianFormat`): `format_indian`, with
  amounts in whole paise.
- `balance_parse.dfy` (module `BalanceParse`): `parse_balance` after its
  pattern has matched.
- `balance_queries.dfy` (module `BalanceQueries`): the `balances` table,
  the two queries and the `/balance` reply.
- `strings.dfy` (modules `Wrappers`, `Sequences` and `Strings`): `Option`,
  the no-duplicates predicate, and the Python string operations the rest
  uses (`lower`, `strip`, `split`, `join`, `replace`, `in`, `str(int)`),
  with the split/join round trips.

## Model

| member | source | states |
|---|---|---|
| Pool.Initial | main_cloud.py:112-125 | After start-up every profile is free in directory order, none is assigned or active, and nothing runs. |
| Pool.InitialInv | main_cloud.py:112-125 | The start-up state satisfies the pool invariant. Each profile is free once or assigned to one alias, never both; assigned aliases are running; `_active` marks exactly the assigned profiles. |
| Pool.AcquireStep | main_cloud.py:3350-3359 | A running alias and then an empty free list are refused, with the pool unchanged. Otherwise the head of the free list, and only it, is taken, mapped to the alias and marked active, and the alias is added to `workers` at the end of the key order unless it is already there. |
| Pool.RunAliasStep | main_cloud.py:3320-3383 | A `_kgb` alias is diverted to the date keyboard. Then an unknown alias is refused, and an alias whose suffix is not in the worker table is refused exactly when it is known and not `_kgb`; both leave the pool unchanged. Every other known alias goes through the acquire step. |
| Pool.RunKgbStep | main_cloud.py:132-172 | Refuses exactly the unknown aliases, leaving the pool unchanged; every known alias goes through the acquire step (running alias, then exhausted pool, else start). |
| Pool.AcquireInv | main_cloud.py:3356-3359 | A successful or refused acquire keeps the pool invariant, so free and assigned profiles stay disjoint. |
| Pool.RunAliasInv | main_cloud.py:3320-3383 | `/run` keeps the pool invariant. |
| Pool.RunKgbInv | main_cloud.py:132-172 | `run_kgb` keeps the pool invariant. |
| Pool.StopAliasStep | main_cloud.py:3528-3537 | Stopping an alias that is not running changes nothing. Otherwise only that alias leaves `workers` and the assignments, every other entry staying, and its profile, if any, goes back at the front of the free list, marked inactive. |
| Pool.StopAliasInv | main_cloud.py:3528-3537 | `/stop` keeps the pool invariant. |
| Pool.StopThenStartReuses | main_cloud.py:3534-3537 | After `/stop` of an alias holding a profile, the next successful start of any alias gets that same profile. |
| Pool.WorkerReleaseStep | main_cloud.py:1365-1368 | A worker's own release removes exactly its alias from the assignments (a `None` default when absent) and leaves `workers` alone. A profile that comes back is appended at the end of the free list and marked inactive; otherwise nothing changes. |
| Pool.WorkerReleaseInv | main_cloud.py:1404-1408 | A worker-side release keeps the invariant: it never puts a profile on the free list twice. |
| Pool.ReleaseAfterStopIsNoop | main_cloud.py:2157-2161 | Once `/stop` has popped the assignment, the worker's own release block changes nothing, after the written and after the corrected `/stop`. |
| Pool.StopAfterReleaseIsNoop | main_cloud.py:3533-3537 | `/stop` after the worker has released its own profile returns nothing more to the free list. |
| Pool.PopAll | main_cloud.py:3750-3753 | Popping the assignments of the stopped aliases leaves exactly the entries of the other aliases, unchanged. |
| Pool.PopAllProfiles | main_cloud.py:3750-3753 | The popped profiles are exactly those assigned to a stopped alias. |
| Pool.PopAllNoDup | main_cloud.py:3750-3753 | Popping distinct aliases' assignments yields each profile once. |
| Pool.PopAllRunning | main_cloud.py:3748-3753 | Under the invariant, stop_all empties the assignment map and pops every assigned profile exactly once. |
| Pool.StopAllStep | main_cloud.py:3740-3784 | Corrected stop_all: nothing runs any more and every assignment has been popped. |
| Pool.StopAllFree | main_cloud.py:3778-3784 | After the corrected stop_all the free list holds every profile exactly once. |
| Pool.StopAllActive | main_cloud.py:3778-3784 | After the corrected stop_all every profile is inactive. |
| Pool.StopAllFreesEverything | main_cloud.py:3740-3784 | The corrected stop_all keeps the invariant, with no assignments and every profile free. |
| Pool.StopAliasAsWrittenLeavesActive | main_cloud.py:3534-3537 | As written, stop_alias frees a profile but leaves `_active` true for it, which breaks the invariant. |
| Pool.StopAllAsWrittenLeaks | main_cloud.py:3778-3784 | As written, stop_all loses every assigned profile: it is neither free nor assigned, and the next `/run` is refused as exhausted. |
| Pool.RunAliasAsWrittenLeaks | main_cloud.py:3356-3382 | As written, `/run` on a known IDBI or IDFC alias reserves the head profile and then fails to build the worker. The profile stays assigned and active with no `workers` entry, so the invariant breaks, `/stop` answers "not running", `/run` answers "Already running", and stop_all keeps the assignment. |
| Pool.OrphanStuck | main_cloud.py:3528-3531 | An alias holding a profile without a `workers` entry breaks the invariant. `/stop` refuses it, `/run` reports it running, and stop_all's pops never reach it. |
| Pool.ProfilePool.constructor | main_cloud.py:112-125 | The mutable pool starts in the start-up state and satisfies its invariant. |
| Pool.ProfilePool.Reserve | main_cloud.py:3356-3359 | The reservation block updates the four containers in place exactly as the acquire step does, and keeps the invariant. |
| Pool.ProfilePool.RunAlias | main_cloud.py:3320-3383 | `/run` on the mutable pool performs exactly the run_alias transition and keeps the invariant. |
| Pool.ProfilePool.RunKgb | main_cloud.py:132-172 | run_kgb on the mutable pool performs exactly its transition and keeps the invariant. |
| Pool.ProfilePool.StopAlias | main_cloud.py:3520-3537 | `/stop` on the mutable pool performs the corrected stop transition and keeps the invariant. |
| Pool.ProfilePool.WorkerRelease | main_cloud.py:1365-1368 | The release block of IOBWorker.stop, IOBWorker._logout and KGBWorker.stop on the mutable pool keeps the invariant. |
| Pool.ProfilePool.StopAll | main_cloud.py:3740-3784 | stop_all on the mutable pool performs the corrected transition and keeps the invariant. |
| Pool.ProfilePool.PopRunning | main_cloud.py:3748-3753 | The `to_stop` loop clears `workers` and pops each stopped alias's profile, in stop order. |
| Pool.ProfilePool.ReturnProfiles | main_cloud.py:3778-3784 | Each popped profile is inserted at the front of the free list and marked inactive. |
| Retry.Step | main_cloud.py:452-479 | One outcome of a `run` loop. A stopped worker stays stopped, and a stop request ends the run. A login success enters the steady loop with the counter at 0. A failure either retries the login or ends the run for too many failures. |
| Retry.CounterTracksFailures | main_cloud.py:1488-1516 | While a worker runs, its counter equals the number of consecutive failures at the end of the history and never exceeds 5. In the steady loop the counter is 0. |
| Retry.GivesUpOnSixthFailure | main_cloud.py:468-477 | A failure ends the run exactly when five consecutive failures precede it, i.e. on the sixth. This holds for every worker, including IDFC, whose check comes before the increment. |
| Retry.LoginSuccessResets | main_cloud.py:457-459 | A successful login from the login phase resets the counter to 0. |
| Retry.CycleResetUnobservable | main_cloud.py:1002-1040 | The extra per-cycle reset of IOB, KGB and IDBI changes no run: their histories give the same state as TMB's. |
| Retry.StoppedIsFinal | main_cloud.py:2975-2994 | Once a run has ended, no further outcome changes it. |
| Retry.FoldAppend | main_cloud.py:2311-2347 | Running two outcome sequences one after the other is running their concatenation. |
| Retry.Run | main_cloud.py:452-479 | The loop consumes outcomes until the run ends, and the state it reaches is the fold of the whole history. |
| Retry.Upload | main_cloud.py:2040-2095 | At most 5 attempts. Every attempt before the last one failed. The upload succeeded iff the last attempt did, and a failed upload used all 5. |
| Retry.UploadDecidedByFirstSuccess | main_cloud.py:2040-2095 | Any attempt loop obeying that contract uploads iff one of the first five attempts succeeds, and it stops right after the first success. |
| Retry.AsWrittenOutcomes | main_cloud.py:859-863 | An attempt the site reports as a success counts as one iff the class defines `_send`, which the loop calls right after the success alert. |
| Retry.AsWrittenKeepsOutcomes | main_cloud.py:2076-2078 | For every class that defines `_send`, the loop acts on the site's outcomes unchanged. |
| Retry.TmbUploadAsWritten | main_cloud.py:826-879 | As written, TMB's upload never succeeds: whatever the site reports, it makes all five attempts and re-raises. |
| Retry.CycleEvent | main_cloud.py:808-813 | A steady cycle reports success iff its upload succeeded, and never a stop. |
| Retry.TmbCycleAsWritten | main_cloud.py:461-463 | As written, every steady TMB cycle fails, whether or not it reaches the upload. |
| Retry.LoginThenFail | main_cloud.py:452-479 | `n` rounds of a login that works and a cycle that fails; it never holds a stop. |
| Retry.TmbRetriesForever | main_cloud.py:452-479 | As written, a TMB worker whose login works never gives up: after any number of such rounds it is back at the login with the counter at 1. |
| Retry.Search | main_cloud.py:1793-1818 | The KGB search loop reaches exactly the end that the search function defines over the observed page states. |
| Retry.SearchOutcome | main_cloud.py:1793-1818 | A found statement takes at least one more click and no more clicks than page states observed. |
| Retry.ThreeEmptySearchesGiveUp | main_cloud.py:1805-1815 | Three "no transactions" pages in a row end the search with three clicks. |
| Retry.OtherErrorsNeverEnd | main_cloud.py:1805-1815 | An error box without the "no transactions" phrase does not count as an attempt, so the search never ends on such pages alone. |
| Routing.FirstWanting | main_cloud.py:3438-3446 | Gives the first worker, in `workers` order, that is not logged in and lacks the given code; None iff there is none. |
| Routing.CaptureTarget | main_cloud.py:3562-3582 | capture_captcha delivers to the first worker waiting for anything, into its OTP slot if it waits for one, else its captcha slot. Nothing is delivered iff no worker waits. |
| Routing.TextTarget | main_cloud.py:3398-3471 | handle_text_message's route, in this order: KGB date flow iff one is pending; refused iff the text holds "/"; delivery to the first worker wanting an OTP whenever there is one; the PIN flow iff one is pending and no worker wants an OTP; otherwise delivery to the first worker wanting a captcha; ignored iff nobody wants either code and no PIN is pending. |
| Routing.Apply | main_cloud.py:3562-3582 | A delivery sets one slot of one worker to the text. The chosen worker's other fields and every other worker are unchanged. |
| Routing.CaptureFillsOneSlot | main_cloud.py:3562-3582 | After a delivery the chosen worker no longer wants that slot, and all other workers are unchanged. |
| Routing.TwoWaitingFirstWins | main_cloud.py:3568-3582 | With two TMB workers waiting for a captcha, the first takes the reply and the second keeps waiting. |
| Routing.HandlersDisagree | main_cloud.py:3438-3471 | For a TMB worker waiting for a captcha and then an IDFC worker waiting for an OTP, the two handlers deliver the same reply to different workers. |
| Routing.HandlersAgreeWithoutOtp | main_cloud.py:3464-3471 | When no worker waits for an OTP, both handlers deliver the same reply to the same worker. |
| Routing.CaptureShadowed | main_cloud.py:3811-3818 | As registered, capture_captcha never runs: every message its filter accepts goes to handle_text_message. |
| Routing.CaptureFirstDispatch | main_cloud.py:3811-3818 | With capture_captcha registered first, it gets every 6-digit reply, and all other messages are dispatched as before. |
| Routing.Worker.constructor | main_cloud.py:348-349 | A new worker is not logged in, has no codes, and waits for its first code. |
| Routing.Worker.Recycle | main_cloud.py:2757-2759 | `_retry` clears the worker's code, the OTP for IDFC and the captcha otherwise, and marks it logged out, so it waits again. |
| Routing.Worker.LoggedIn | main_cloud.py:2805 | Logging in leaves the codes alone and ends the wait. |
| Routing.CaptureCaptcha | main_cloud.py:3556-3582 | The loop over the worker objects delivers the stripped reply exactly where CaptureTarget says, only for six digits, and writes only that worker's field. |
| Routing.HandleText | main_cloud.py:3392-3471 | The handler's loops route exactly as TextTarget says and write only the chosen worker's field. |
| Routing.Offer | main_cloud.py:3439-3446 | Each loop stops at the first worker that wants the slot, stores the text in that field only, and reports no worker when none wants it. |
| Activity.Report | main_cloud.py:3603-3613 | One flag per running alias, in `workers` order, each true iff the alias is live. |
| Activity.SendKeepsActive | main_cloud.py:3604-3612 | After a message at time t, the alias is reported live exactly until t plus three minutes. |
| Activity.StaleIsInactive | main_cloud.py:3612-3613 | An alias with no stamp, or one older than three minutes, is reported as not live. |
| Activity.SendIsPerAlias | main_cloud.py:951 | One worker's message never changes whether another alias is live. |
| Activity.InactiveStaysInactive | main_cloud.py:3604-3613 | Without a new message, an alias that is not live stays not live. |
| Activity.ActivityLog.Send | main_cloud.py:442 | `_send` stamps the alias with the current time, which makes it live. |
| Activity.ActivityLog.ActiveReport | main_cloud.py:3603-3613 | The `/active` loop computes exactly the report and changes nothing. |
| Aliases.FirstSuffixFrom | main_cloud.py:3339-3342 | Finds the first worker-table entry whose `_suffix` ends the alias, and none is skipped. |
| Aliases.SelectWorker | main_cloud.py:3339-3346 | No worker class iff no `_suffix` of the table ends the alias; otherwise the class of a matching entry. |
| Aliases.SuffixesExclusive | main_cloud.py:3006-3013 | At most one `_suffix` of the table ends an alias, so the order of the table does not matter. |
| Aliases.AddAlias | main_cloud.py:245-274 | Only a stripped message starting with "/add " is accepted, and only with three or four commas in its body. A new credential is never a known alias; a duplicate always is. |
| Aliases.AddAliasCases | main_cloud.py:245-274 | The outcome follows from the message alone. Without the "/add " prefix it is the usage reply. Otherwise, with neither 3 nor 4 commas it is the invalid-format reply. A 4- or 5-field body whose first stripped field is known is a duplicate of that field, and anything else is added under that field. |
| Aliases.AddTmbRoundTrip | main_cloud.py:256-260 | `/add` with four plain fields stores exactly those fields in the TMB layout. |
| Aliases.AddCorporateRoundTrip | main_cloud.py:261-263 | `/add` with five plain fields stores exactly those fields in the corporate layout. |
| Aliases.AddRoundTrip | main_cloud.py:246-256 | Splitting the body of "/add" at commas and stripping the pieces gives back the joined fields. |
| Statement.FromDay | main_cloud.py:2865-2870 | The statement starts yesterday iff the hour is before the bank's cut-off, else today. |
| Statement.CutoffsDifferAtFive | main_cloud.py:1149 | At 05:xx, IOB and KGB still reach back to yesterday, but IDBI and IDFC do not. |
| Statement.Candidates | main_cloud.py:794-797 | The comprehension keeps exactly the entries the worker's test accepts. |
| Statement.FirstMax | main_cloud.py:2604-2607 | `max` by ctime: the first entry of greatest ctime. |
| Statement.NewestFile | main_cloud.py:2891-2894 | None iff no entry passes the test; otherwise the name of an accepted entry that no accepted entry is newer than. |
| Statement.UpperCasePartialOnlyIdfc | main_cloud.py:2891-2894 | TMB and IDBI skip "STMT.TMP" but IDFC, which does not lower-case, picks it as newest. |
| Statement.PageCount | main_cloud.py:745-753 | The page count is a non-empty digit string, "1" when the pager never appeared. |
| Statement.PageCountWithoutPage | main_cloud.py:750-751 | Pager text without the word "Page" does not match, and the count falls back to "1". |
| Statement.PageCountReadsTotal | main_cloud.py:750-753 | "Page a of b" yields b. |
| IndianFormat.FormatIndian | balance_bot.py:40-58 | The while loop computes exactly the grouped form. |
| IndianFormat.ShortHasNoCommas | balance_bot.py:49-50 | An integer part of at most three digits is emitted unchanged. |
| IndianFormat.GroupsShape | balance_bot.py:51-57 | A longer integer part splits into a last group of 3 digits, a leading group of 1-2 digits and middle groups of exactly 2, which concatenate back to the digits. |
| IndianFormat.CommasRemoveToDigits | balance_bot.py:47-57 | Deleting the commas from the grouped part gives back `str(whole)`. |
| IndianFormat.SignAndDecimals | balance_bot.py:45-48 | A negative amount is "-" followed by the format of its absolute value; otherwise there is no "-". The text always ends with a point and two digits. |
| IndianFormat.FormatRoundTrip | balance_bot.py:40-58 | Reading the formatted text back (sign, commas removed, point) gives the original amount in paise. |
| BalanceParse.ParseBalance | balance_bot.py:68-96 | A result exists only for a match; it carries the matched alias and the lower-cased bank. |
| BalanceParse.ParseBalanceSpec | balance_bot.py:73-96 | None iff nothing matched or the amount held only commas. Otherwise the bank is lower-cased, the amount is the matched text without commas (the "cr." and "inr" substitutions never change it), and the credit flag is set iff the bank is "tmb" and the lower-cased text contains "cr.". |
| BalanceParse.SubWordNoLetters | balance_bot.py:85-88 | The case-insensitive "cr." and "inr" substitutions leave a text of digits and points unchanged. |
| BalanceParse.RawShape | balance_bot.py:60-79 | After commas are removed, a matched amount is digits with at most one point, never ".". |
| BalanceParse.CreditOnlyForTmb | balance_bot.py:81-85 | The same "Cr." line is a credit for TMB and not for IOB. |
| BalanceQueries.ChatRows | balance_bot.py:121-133 | `WHERE chat_id=?` keeps exactly this chat's rows. |
| BalanceQueries.Keys | balance_bot.py:125-128 | Every (alias, bank) pair of the rows occurs once, and each has a row. |
| BalanceQueries.PickAll | balance_bot.py:125-131 | For each pair, a row of that pair whose timestamp is the greatest of the pair. |
| BalanceQueries.SortKeysSpec | balance_bot.py:132 | Ordering the pairs by alias yields them sorted, each still once. |
| BalanceQueries.BalanceQuerySpec | balance_bot.py:121-133 | `/balance` returns rows of this chat only, one per (alias, bank) pair of the chat, each the newest of its pair, ordered by alias; empty iff the chat has no rows. |
| BalanceQueries.SortDescSorted | balance_bot.py:159 | `ORDER BY timestamp DESC` puts the rows newest first. |
| BalanceQueries.HistoryQuery | balance_bot.py:155-161 | `/history` returns min(25, number of the chat's rows) rows. |
| BalanceQueries.HistoryQuerySpec | balance_bot.py:155-161 | `/history` returns min(25, n) of the chat's rows, without repetition, newest first; no row left out is newer than a row shown. |
| BalanceQueries.CreditSuffix | balance_bot.py:142-144 | A reply line ends in " Cr." iff the row is a credit. |
| BalanceQueries.BalanceReplyLines | balance_bot.py:135-149 | With rows, the reply splits at line breaks into exactly one rendered line per row of the query, in order. Without rows it is the fixed notice. |
| BalanceQueries.HistoryCreditSuffix | balance_bot.py:169-173 | A `/history` line ends in " Cr." iff the row is a credit, and holds no line break iff neither its stamp, alias nor bank does. |
| BalanceQueries.HistoryReplyLines | balance_bot.py:164-177 | With rows, the `/history` reply splits at line breaks into exactly one rendered line per history row, newest first. Without rows it is the fixed notice. |
| BalanceQueries.BalanceStore.Record | balance_bot.py:101-115 | handle_message appends one row, with the chat, the parsed fields and the time, iff the text parses; otherwise the table is unchanged. |
| BalanceQueries.BalanceStore.Balance | balance_bot.py:117-149 | The reply loop builds exactly the `/balance` reply and changes nothing. |
| BalanceQueries.BalanceStore.History | balance_bot.py:151-178 | The rendering loop builds exactly HistoryReply from the stored rows and changes nothing. |

## Left out

- Selenium navigation (logins, scrapers, tab recycling, screenshots) is foreign browser code. Only its outcome appears, as an abstract success or failure, a page state or a file listing.
- Telegram and asyncio I/O: replies, photos, keyboards and the `_send` bodies. Only the `last_active` stamp that `_send` makes is modelled.
- The 2Captcha HTTP client, `on_startup`, the keep-alive thread, `handle_captcha_reply`, `os.execv` restart and the PIN check are network or process I/O, not bookkeeping.
- Threads, `time.sleep` polling and `stop_evt` timing: a stop request is an outcome in the history (`StopSeen`), checked where the loops check it.
- The CSV file of `add_alias` and SQLite itself are storage I/O. Only the field split and the row-selection semantics are modelled, over an in-memory row list.
- Aliases.AddAlias: the `/add` command is recognised from the message text. Telegram's own command parsing is not modelled.
- Floating point: amounts are whole paise. `format_indian`'s `x - whole` rounding, including its lost carry near .995, is not modelled.
- BalanceQueries.BalanceStore.Record: the paise value of `float(raw)` is a parameter, so its tie to the amount text is not modelled.
- Timestamps are whole numbers: seconds in the table, microseconds for `/active`, days for the date window, and whole-number file ctimes where `os.path.getctime` returns a float. ISO text, `strftime` and the KGB custom-date `strptime` are not modelled. The `/history` time text is a parameter, `stamp`.
- BalanceParse.ParseBalance: `BALANCE_RE` with its backtracking is not modelled; its three groups are an input, and `PatternGroups` states the shape they have.
- String helpers work on ASCII: `lower`, `\s` and `\d` ignore other Unicode letters, spaces and digits.
- BalanceQueries.PickAll: SQLite's `ROW_NUMBER` picks any one row among equal timestamps. The model picks the earliest stored, and `ORDER BY alias` leaves rows of one alias in whatever order the insertion sort gives.
- BalanceQueries.HistoryQuery: SQLite leaves the order of rows with equal timestamps unspecified under `ORDER BY timestamp DESC LIMIT 25` (balance_bot.py:159-160), and with it which tied rows at the 25-row boundary are shown. The model lists the earlier-stored row first and keeps it at the boundary. HistoryQuerySpec's promises (newest first, no omitted row newer than a shown one) hold for every such choice.
- The exception that IDBIWorker and IDFCWorker raise when `run_alias` builds them is modelled only by its effect on the pool, in `RunAliasAsWrittenStep` (see Findings). The pool class uses the corrected `RunAliasStep`, in which these starts succeed.
- TMB, IDBI and IDFC workers do not release their profile themselves. Only the IOB and KGB release blocks are modelled.
- Routing.CaptureCaptcha: the workers are distinct objects (they are the values of a dict). `Distinct` states this as a requirement.
- The `filters.COMMAND` test is modelled as "starts with '/'". Telegram actually checks for a command entity at offset 0.
- Retry.Search: the page states the KGB search observes are a finite input sequence. Running out of them ends the model's search as `Searching`.

## Findings

| source | as written | input that shows it | evidently intended | confidence | as-written member | corrected member |
|---|---|---|---|---|---|---|
| main_cloud.py:3534-3537 | stop_alias puts the profile back on the free list but leaves `_active[profile]` true. | Alias a_tmb runs on p1; `/stop a_tmb` leaves p1 free with `_active["p1"]` still true, so the keep-alive loop (main_cloud.py:3076) never refreshes it. | Mark the profile inactive, as every worker-side release does (main_cloud.py:1368). | not executed | Pool.StopAliasAsWrittenLeavesActive | Pool.StopAliasStep |
| main_cloud.py:3778-3784 | stop_all pops every assignment but re-inserts a profile only through a `profile_dir` or `profile` attribute. TMB and KGB workers never set one, and IOB workers set `profile` to None when they reuse a driver. | One alias a_tmb on the only profile p1; after `/stopall`, p1 is neither free nor assigned, and `/run b_iob` is refused as exhausted. | Return each popped profile to the front of the free list and mark it inactive. | not executed | Pool.StopAllAsWrittenLeaks | Pool.StopAllFreesEverything |
| main_cloud.py:3811-3818 | The general text handler is registered before capture_captcha in the same handler group. | Any 6-digit reply "123456" from the operator chat matches `filters.TEXT & ~filters.COMMAND` first, so capture_captcha never runs. | Register capture_captcha first, so it receives the 6-digit replies. | not executed; assumes the library runs only the first matching handler of a group | Routing.CaptureShadowed | Routing.CaptureFirstDispatch |
| main_cloud.py:3373-3382 | run_alias passes `driver` and `download_folder` to IDBIWorker and IDFCWorker, whose constructors (main_cloud.py:2209, 2687) do not accept them. The call raises after the profile was reserved at main_cloud.py:3356-3359, and nothing undoes the reservation. | A known alias x_idbi with a free profile p1. After `/run x_idbi`, p1 is assigned and active but `x_idbi` is not in `workers`. `/stop x_idbi` answers "not running", `/run x_idbi` answers "Already running", and `/stopall` does not free p1. | Build the worker with arguments its class accepts, so it starts and is tracked in `workers` like the other kinds. | not executed | Pool.RunAliasAsWrittenLeaks | Pool.RunAliasStep |
| main_cloud.py:861 | TMB's upload loop calls `self._send` right after the success alert, but TMBWorker (main_cloud.py:306-885) defines only `_send_msg`. The AttributeError is caught at line 863 as a failed attempt. | Any TMB cycle on which AutoBank accepts the file: all five attempts upload it, the fifth re-raises, the cycle fails (main_cloud.py:810-813), and the next login resets the counter. The worker repeats this every cycle and never stops. | Call `_send_msg`, so the first accepted upload ends the loop. | not executed | Retry.TmbUploadAsWritten | Retry.UploadDecidedByFirstSuccess |
