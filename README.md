# alert-data scraper, modelled in Dafny

This project models the core of the `scraper` package of mineroot/alert-data. The package keeps
the current air-raid alert status of each of Ukraine's 27 regions. It reads the status lines of an
alert channel. Two tasks feed a state store: one backfills a window of the channel's history,
the other follows the live feed, merges each parsed status into the store and forwards it on an
optional outbound feed. In Go the two tasks run concurrently; the model runs the backfill first
and the live loop after it.

The model has six modules:

- `Wrappers` (`wrappers.dfy`) holds `Option`, the Go pair `(value, error)` as `Result`, and the
  package's error values.
- `Clock` (`clock.dfy`) holds timestamps in the channel's single time zone, ordered as
  `time.Time.Before` orders them. It also has the Gregorian calendar arithmetic that the midnight
  rollback needs.
- `Region` (`region.dfy`) is the registry of `scraper/region/region.go`. It has the 27 IDs and
  their names, the name-to-ID table built at start-up, `Parse`, `String`, `Count` and `Iterator`.
- `AlertStore` (`alert_data.dfy`) models `scraper/alert_data.go`. `Status` is a datatype, and the
  store is a class `AlertData` whose `map` field `Set` updates in place. `Merge` is the function
  that specifies `Set`. The lemmas prove the store's invariants: it covers the registry, entries
  are filed under their own region, stored times never move backwards, and a region's stored time
  does not depend on the order of the merges (the stored entry can: of two statuses with equal
  times, the later merge wins).
- `StatusLine` (`status_line.dfy`) recognises the channel's status-line grammar, the
  `alertStatusRegexp` of `scraper/tgscraper.go`, one line at a time. It also parses the `HH:MM`
  clock.
- `Scraper` (`tgscraper.dfy`) models `scraper/tgscraper.go`:
  - `parseMessage`;
  - the backward pagination of `getMessagesForPeriod` (as a method with a loop, specified by the
    function `Backfill`);
  - the in-place `slices.Reverse`;
  - the replay loop of `history`;
  - the loop of `listenUpdates`;
  - the `Run` once-latch, the lazily created feed of `UpdatesChan`, `sendUpdate` and
    `closeUpdates`, all as methods of a class `TgScraper`.

  The module ends with the scripted client of `scraper/tgscraper_test.go` and the end state that
  test expects.

The live loop forwards every parsed status on the outbound feed, including one that `set` dropped
because it was older than the stored entry; `Scraper.ListenSendsStale` states this.

History and the live loop parse messages with `Scraper.ParseMessageAsWritten`, the model of
`parseMessage` as the code stands. `Scraper.ParseMessage` is the same parse with the midnight
rollback the code evidently intends (see "## Findings"); it is stated and proved on its own and
does not feed the pipeline.

## Model

| member | source | states |
|---|---|---|
| Clock.Latest | scraper/alert_data.go:79 | the later of two timestamps is one of them and no earlier than either |
| Clock.BeforeIsStrictTotalOrder | scraper/alert_data.go:79 | `Before` is irreflexive, transitive, asymmetric and total on distinct timestamps |
| Clock.LatestOfIsMaximum | scraper/alert_data.go:78-83 | `LatestOf` is an upper bound of its inputs and is one of them |
| Clock.LatestOfIgnoresOrder | scraper/alert_data.go:78-83 | the maximum of a collection of timestamps does not depend on their order or repetition |
| Clock.DaysIn | scraper/tgscraper.go:255-258 | a Gregorian month has 28 to 31 days |
| Clock.DayBefore | scraper/tgscraper.go:255-258 | the same time of day one calendar day earlier is strictly earlier, keeps the clock and stays a valid date |
| Clock.DayAfterDayBefore | scraper/tgscraper.go:255-258 | on valid dates, a day back then a day forward is the identity |
| Region.RangeRegistered | scraper/region/region.go:40-68 | IDs 1 to 27 are all registered |
| Region.RegisteredInRange | scraper/region/region.go:40-68 | every registered ID lies in 1 to 27 |
| Region.IsRegisteredInTable | scraper/region/region.go:40-68 | `IsRegistered` holds exactly for the IDs in the table |
| Region.RegisteredIds | scraper/region/region.go:40-68 | the registered IDs are exactly the set {1, ..., 27} |
| Region.InvalidUnregistered | scraper/region/region.go:10 | `Invalid` (0) is never a registered ID |
| Region.NamesInjective | scraper/region/region.go:40-68 | no two IDs share a name |
| Region.IdsByName | scraper/region/region.go:70-76 | the name table has exactly the registered names as keys and inverts `NamesById` in both directions |
| Region.BuildIdsByName | scraper/region/region.go:70-76 | the `init` loop builds exactly the inverse table |
| Region.Parse | scraper/region/region.go:80-85 | succeeds iff the name is registered, then with the ID of that name; otherwise `Invalid` and an unknown-name error |
| Region.Count | scraper/region/region.go:88-90 | the table holds 27 regions |
| Region.String | scraper/region/region.go:108-113 | a registered ID's name, "" for any other integer |
| Region.ParseOfString | scraper/region/region.go:80-85 | every registered ID survives the trip through its name |
| Region.StringOfParse | scraper/region/region.go:108-113 | every name `Parse` accepts is the name of the ID it returns |
| Region.StringOfUnregistered | scraper/region/region.go:108-113 | an unregistered ID's name is "", which `Parse` rejects |
| Region.ParseUnknownName | scraper/region/region_test.go:20 | the unknown name of the repository's test gives `Invalid` and an error |
| Region.Iterate | scraper/region/region.go:93-101 | in any iteration order, each (id, name) pair of the table is yielded at most once; the sequence stops at the first `false`; a `yield` that never says stop sees every pair |
| Region.IterateTable | scraper/region/region.go:95-99 | the same iteration loop, over any table |
| Region.AscendingIsIterationOrder | scraper/region/region.go:93-101 | ascending ID order is one of the orders the iterator may take |
| AlertStore.Merge | scraper/alert_data.go:78-83 | the merged table gains the status's region and keeps every other entry; the region's time becomes the later of the two times |
| AlertStore.MergeDropsOlder | scraper/alert_data.go:79-81 | a strictly older status leaves the whole table unchanged |
| AlertStore.MergeReplacesNotOlder | scraper/alert_data.go:79-83 | a status at least as new replaces its region's entry, so ties overwrite |
| AlertStore.MergeKeepsFiling | scraper/alert_data.go:83 | merging keeps each entry filed under its own region and keeps coverage of the registry |
| AlertStore.MergeAll | scraper/alert_data.go:70-84 | a sequence of `set` calls removes no key and adds exactly the submitted regions |
| AlertStore.MergeAllKeepsLatest | scraper/alert_data.go:78-83 | after any sequence of `set` calls, a region's time is the maximum of its initial time and every time submitted for it |
| AlertStore.MergeAllIgnoresOrder | scraper/alert_data.go:78-83 | the stored time after a batch of `set` calls does not depend on the batch's order |
| AlertStore.MergeAllNeverRegresses | scraper/alert_data.go:79-82 | a stored time never moves backwards |
| AlertStore.SeedingIgnoresOrder | scraper/alert_data.go:32-39 | seeding the registry gives the same table whatever order the map iteration takes |
| AlertStore.SeedingTableIgnoresOrder | scraper/alert_data.go:32-39 | the same, for any table and any order of its keys |
| AlertStore.InitialDataCoversRegistry | scraper/alert_data.go:25-56 | after construction every registered region has an entry filed under it, and no other key exists |
| AlertStore.InitialDataSeeds | scraper/alert_data.go:43-54 | the Crimea and Luhansk seeds win over the zero-time placeholders |
| AlertStore.InitialDataOthers | scraper/alert_data.go:32-39 | every other region starts with the alert off, the zero time and `IsHistory` set |
| AlertStore.InitialLookups | scraper/alert_data.go:60-68 | after construction, `GetByRegion` succeeds for every registered region and fails for `Invalid` with the zero status |
| AlertStore.AlertData.constructor | scraper/alert_data.go:25-56 | builds exactly the initial table; the store invariant holds |
| AlertStore.AlertData.SeedRegistry | scraper/alert_data.go:31-39 | the loop leaves exactly IDs 1 to 27, each assumed clear |
| AlertStore.AlertData.GetByRegion | scraper/alert_data.go:60-68 | the entry of a region with one; otherwise the zero status and an invalid-region error; always succeeds for a registered region in a valid store |
| AlertStore.AlertData.Set | scraper/alert_data.go:70-84 | nil changes nothing; otherwise the new table is the merge of the old one and the status; the invariant is kept |
| StatusLine.StripDot | scraper/tgscraper.go:19 | the lazy name group drops at most one final dot |
| StatusLine.FirstLine | scraper/tgscraper.go:19 | the first line of a text is a newline-free prefix that ends at the first newline |
| StatusLine.MatchLineOfRender | scraper/tgscraper.go:19 | a well-formed status line yields its own clock, phrase and name, with or without a final dot |
| StatusLine.RenderIsOneLine | scraper/tgscraper.go:19 | a status line holds no newline when its name holds none |
| StatusLine.FindMatchOfFirstLine | scraper/tgscraper.go:239 | a matching first line is the match, whatever follows it |
| StatusLine.FindMatchSkipsLine | scraper/tgscraper.go:239 | a first line that does not match is skipped for the following ones |
| StatusLine.FindMatch | scraper/tgscraper.go:239 | `FindStringSubmatch` in multi-line mode: a match carries a `DD:DD` clock, one of the two phrases and a one-line name |
| StatusLine.MatchLine | scraper/tgscraper.go:19 | a line the grammar matches yields a `DD:DD` clock and one of the two phrases |
| StatusLine.MatchLineIsOneLine | scraper/tgscraper.go:19 | the name captured from a line holds no newline |
| StatusLine.MatchLineIsRender | scraper/tgscraper.go:19 | a matched line is exactly the rendering of its captures, with or without the final dot: the converse of `MatchLineOfRender` |
| StatusLine.ParseClock | scraper/tgscraper.go:245-249 | a success is a time of day; a failure carries the `HH:MM:00` text |
| StatusLine.ParseClockOfClockText | scraper/tgscraper.go:245-249 | a written clock parses back to its hour and minute when these are a time of day, and is an error otherwise |
| Scraper.Resolve | scraper/tgscraper.go:271-281 | a status exactly for a registered name, with that name's region; an unknown name gives no status and no error |
| Scraper.ParseMessageAsWritten | scraper/tgscraper.go:232-282 | `parseMessage` as written: non-text and a text the grammar does not match give (nil, nil); for a match, an error exactly when its clock is no time of day (carrying the `HH:MM:00` text), a status exactly when the clock parses and the name is registered, with that name's region, `Enabled` iff the phrase is the raised one, and the delivery date at the parsed hour and minute with zero seconds, not marked as history |
| Scraper.ParseMessage | scraper/tgscraper.go:232-282 | the corrected parse: the same cases, errors, regions and phrases, but a status is never dated after its delivery and falls on the delivery day or the day before, at the parsed hour and minute |
| Scraper.ParseMessageRollsBack | scraper/tgscraper.go:255-258 | the correction changes only the date of a status that would be dated after its delivery, moving it one day back |
| Scraper.ParseMessageOfStatusLine | scraper/tgscraper.go:239-281 | a text whose first line is a status line yields that line's region, its phrase as `Enabled`, and the delivery date at its clock |
| Scraper.ParseMessageRejectsBadClock | scraper/tgscraper.go:244-249 | a clock that is no time of day makes the parse fail with that text |
| Scraper.StatusLineFound | scraper/tgscraper.go:239-242 | the matcher finds a status line at the head of a message |
| Scraper.ParseMessageAsWrittenIsLate | scraper/tgscraper.go:255-258 | as written, an alert of 23:59 delivered at 00:01 is dated later than its delivery |
| Scraper.ParseMessageOfLateNightAlert | scraper/tgscraper.go:255-258 | corrected, the same alert is dated 23:59 on the day before |
| Scraper.KyivCityByName | scraper/tgscraper.go:271-275 | "м. Київ" resolves to the capital |
| Scraper.Backfill | scraper/tgscraper.go:193-230 | every returned message is kept (not forwarded, text) and not before the horizon; a transport error returns nothing |
| Scraper.BackfillKeepsWindow | scraper/tgscraper.go:210-227 | every kept message up to the stopping page is returned, including one dated exactly at the horizon |
| Scraper.RequestCursorsExtend | scraper/tgscraper.go:200-218 | each request's cursor is the ID of the previous request's message, skipped messages included |
| Scraper.BackfillIgnoresLaterPages | scraper/tgscraper.go:210-217 | pages after an empty or too-old page are never requested |
| Scraper.BackfillBelowEarlierHeads | scraper/tgscraper.go:193-230 | on a newest-first channel, no backfilled message is newer than an earlier page |
| Scraper.BackfillNewestFirst | scraper/tgscraper.go:193-230 | on a newest-first channel, the backfill is newest first |
| Scraper.TgScraper.GetMessagesForPeriod | scraper/tgscraper.go:193-230 | the loop returns exactly `Backfill`; it issues one request per page up to the one that ends it, each earlier page holding a message in the window, skipped or not, whose ID is the next cursor; the last page is an error or an empty or too-old page, and the result is an error exactly when it is an error |
| Scraper.Reversed | scraper/tgscraper.go:128 | element `i` of the reversal is element `n-1-i` of the input |
| Scraper.ReversedTwice | scraper/tgscraper.go:128 | reversing twice is the identity |
| Scraper.ReversedIsPermutation | scraper/tgscraper.go:128 | reversal keeps the multiset of elements |
| Scraper.ReversedIsOldestFirst | scraper/tgscraper.go:128 | a newest-first batch reversed is oldest first |
| Scraper.ReverseInPlace | scraper/tgscraper.go:128 | the array afterwards holds the reversal of its old contents |
| Scraper.ApplyHistory | scraper/tgscraper.go:129-140 | the replay removes no key; its only error is a wrapped bad-clock error |
| Scraper.ApplyHistoryFailsIffBadMessage | scraper/tgscraper.go:129-133 | the replay fails exactly when some message of the batch fails to parse |
| Scraper.ApplyHistoryStopsAtFirstError | scraper/tgscraper.go:129-133 | the first message that fails to parse stops the replay with its own error wrapped as "unable to scrape history", leaving the store the earlier messages made |
| Scraper.HistoryStatuses | scraper/tgscraper.go:129-140 | every replayed status is marked as history and is for a registered region |
| Scraper.ApplyHistoryIsMergeAll | scraper/tgscraper.go:129-140 | the replay is exactly `set` over the parsed statuses, so each region keeps the latest |
| Scraper.HistoryStatusesOfConcat | scraper/tgscraper.go:129-140 | the statuses of a concatenation are the concatenated statuses, when the first part parses |
| Scraper.HistoryStatusesOfReversed | scraper/tgscraper.go:128-140 | reversing a batch permutes its statuses |
| Scraper.ReplayOrderOnlyBreaksTies | scraper/tgscraper.go:128-140 | replaying newest first instead of oldest first gives every region the same time |
| Scraper.ApplyHistoryMarksHistory | scraper/tgscraper.go:137-139 | every entry the replay changes is marked as history |
| Scraper.HistoryReplay | scraper/tgscraper.go:122-143 | `history` fails only with a transport error or a wrapped parse error |
| Scraper.TgScraper.History | scraper/tgscraper.go:122-143 | the store becomes the history replay's table, the error is the replay's, and history is marked done on every path |
| Scraper.TgScraper.ReplayHistory | scraper/tgscraper.go:129-140 | the loop leaves exactly the replay's table and error |
| Scraper.Receive | scraper/tgscraper.go:155-170 | a nil update stops the loop with the nil-update error; another type is skipped; a message stops the loop exactly when its parse fails, with that error wrapped as "unable to scrape update", and otherwise carries the parse's status, which is live and for a registered region |
| Scraper.Listen | scraper/tgscraper.go:145-175 | the loop ends on cancellation, a nil update or a wrapped parse error; it sends nothing without a feed; everything sent is live and registered |
| Scraper.LiveStatuses | scraper/tgscraper.go:151-174 | the statuses the loop receives before it stops are live, not history, and of registered regions |
| Scraper.ListenIsMergeAll | scraper/tgscraper.go:151-174 | the loop is `set` over the live statuses, and with a feed it sends exactly those statuses in order |
| Scraper.ListenEndsCanceled | scraper/tgscraper.go:151-175 | the loop ends canceled exactly when no event is nil and no message fails to parse |
| Scraper.ListenStopsAtFirstStop | scraper/tgscraper.go:156-167 | the first nil update or unparsable message ends the loop with its error; the store holds the live statuses before it and nothing after it |
| Scraper.ListenSendsStale | scraper/tgscraper.go:171-172 | a live status older than the stored entry leaves the store alone but is still sent |
| Scraper.TgScraper.HandleUpdate | scraper/tgscraper.go:155-172 | one loop turn stores and sends the received status, or reports the error that stops the loop |
| Scraper.TgScraper.ListenUpdates | scraper/tgscraper.go:145-175 | the store and the error are the loop's; the feed gets exactly the sent statuses and is closed at the end |
| Scraper.RunOutcome | scraper/tgscraper.go:110-120 | a run that does not end by cancellation sends nothing, or ends on a nil update or a wrapped error |
| Scraper.RunOutcomeStore | scraper/tgscraper.go:110-143 | a run whose history succeeds leaves the store with `set` applied to the history statuses, oldest first, then to the live statuses |
| Scraper.RunNeverRegresses | scraper/tgscraper.go:110-120 | however a run ends, it removes no region and moves no stored time backwards |
| Scraper.RunOutcomeError | scraper/tgscraper.go:110-143 | a backfill error, else a replay error (exactly when some message of the batch fails to parse), ends the run with the store history left; otherwise the live loop's error decides; the run ends canceled exactly when history succeeds and no live event stops the loop |
| Scraper.HistoryAddsRegistered | scraper/tgscraper.go:122-143 | the history replay keeps every key and adds only registered regions |
| Scraper.ListenAddsRegistered | scraper/tgscraper.go:145-175 | the live loop keeps every key and adds only registered regions |
| Scraper.RunKeepsRegistry | scraper/tgscraper.go:271-281 | a run adds only registered regions, because each stored status was resolved by name; a store keyed by exactly the registry stays so |
| Scraper.TgScraper.Run | scraper/tgscraper.go:69-85 | the first call runs history then the live loop and returns their error wrapped; every later call changes nothing and returns nil; the store stays keyed by exactly the registry (`Valid`) |
| Scraper.TgScraper.constructor | scraper/tgscraper.go:35-50 | a fresh store holding the initial table, no feed, not yet run |
| Scraper.TgScraper.UpdatesChan | scraper/tgscraper.go:103-108 | creates an empty open feed on the first call and returns the same feed afterwards |
| Scraper.TgScraper.SendUpdate | scraper/tgscraper.go:177-190 | does nothing without a feed; otherwise appends the status to the feed |
| Scraper.TgScraper.CloseUpdates | scraper/tgscraper.go:284-288 | closes the feed, if there is one, without changing its contents |
| Scraper.Feed.constructor | scraper/tgscraper.go:105 | a new feed is empty and open |
| Scraper.ParseOdesaRaised | scraper/tgscraper_test.go:125-128 | the Odesa alert of the test history parses to the alert raised at 02:15 on 21 August |
| Scraper.ParseKyivRaised | scraper/tgscraper_test.go:138-141 | the first live message parses to the Kyiv alert raised at 08:39 |
| Scraper.ParseKyivCleared | scraper/tgscraper_test.go:142-145 | the second live message parses to the Kyiv all-clear at 10:06 |
| Scraper.ParseStubMessage | scraper/tgscraper_test.go:119-146 | every scripted message parses to its line's region, phrase and clock on the delivery date, with or without the rollback |
| Scraper.OnePageHistory | scraper/tgscraper.go:122-143 | a history of one kept message in the window and one older message replays that one message |
| Scraper.StubHistory | scraper/tgscraper_test.go:56-63 | the scripted history leaves Odesa with the 02:15 alert, because the 19 August message is older than the horizon |
| Scraper.StubListen | scraper/tgscraper_test.go:82-98 | the scripted live feed merges and sends the two Kyiv statuses in order, then the run is canceled |
| Scraper.StubRunOutcome | scraper/tgscraper_test.go:29-112 | the whole scripted run, from any store |
| Scraper.StubStore | scraper/tgscraper_test.go:56-80 | after the scripted run, Odesa, Crimea, Luhansk and Kyiv hold the statuses the test expects |

## Left out

- Concurrency: `run`'s errgroup runs the two tasks concurrently. The model runs history first and
  the live loop after it. So the model does not capture live statuses merged while the backfill is
  still running.
- Context cancellation: the end of the scripted live events stands for the cancellation of the
  context. The `ctx.Err()` check at the head of each backfill request (tgscraper.go:197-199) is not
  modelled.
- Scraper.TgScraper.SendUpdate: every send is delivered. The discard timeout and the blocking send
  (tgscraper.go:181-189) are not modelled, because the feed is an unbounded sequence with no
  receiver.
- `WaitForHistory` (tgscraper.go:87-95) blocks on a channel. It is modelled only as the
  `historyDone` flag that `History` sets.
- The `sync.RWMutex` of `AlertData` and the `sync.Once` internals are not modelled. The latch is
  the boolean field `ran`.
- The `AlertData()` accessor (tgscraper.go:97-100) is not a separate member. The store is the
  public field `alertData`.
- The options `WithHistoryFromDate` and `WithUpdateDiscardTimeout` are left out. The history horizon
  is a constructor parameter; by default Go sets it to two days before the current time.
- The TDLib client and the `TgClient` interface of scraper/types.go are a script (`Client`): one
  answer per history request and one list of live events. A message is reduced to its ID, delivery
  time, forwarded flag and text-or-not content. The chat ID, limit, offset and local-only request
  fields are not modelled, and neither is `GetListener`/`Close`.
- The test stub answers with an error once its script is used up. `Fetch` instead gives an empty
  page past the end, which stands for the channel's "no history left". The test's own run never
  reaches that point.
- Time zones: all timestamps are wall-clock readings in the channel's zone. The zone loading of
  scraper/tz.go, the Unix-seconds conversion of `message.Date` and DST are not modelled.
  `DayBefore` steps back one calendar day rather than 24 hours, and the two differ only across a
  DST change.
- The regular expression engine: `StatusLine` recognises the one grammar of `alertStatusRegexp`,
  line by line. It does not model Go's `regexp` in general.
- The panics on a nil client or a nil context (tgscraper.go:70-75) are not modelled: the client is
  a script that is always present, and the model has no context value.
- Go's map iteration order is a parameter of `Region.Iterate`. The constructor uses ascending
  order, and `AlertStore.SeedingIgnoresOrder` shows the result is the same for every order.
- Errors are structured values, not formatted strings. For example, `fmt.Errorf("scraper: %w", e)`
  becomes `Wrapped("scraper", e)`.
- scraper/region/region_test.go tests `ParseName` and `ParseId`, which scraper/region/region.go does
  not define. Only its unknown-name case, which `Parse` shares, is modelled.
- The scripted test run is stated as two lemmas, `Scraper.StubRunOutcome` on the tables and
  `Scraper.StubStore` on the resulting entries. It is not stated as one run of a `TgScraper`
  object.

## Findings

| source | as written | input that shows it | evidently intended | confidence | as-written member | corrected member |
|---|---|---|---|---|---|---|
| scraper/tgscraper.go:255-258 | when the composed time is after the delivery, the time one day earlier is computed and discarded, so the status keeps the delivery date | a message delivered 2024-08-22 00:01 reading "🔴 23:59 Повітряна тривога в м. Київ" is dated 2024-08-22 23:59, after its own delivery | the status is dated 2024-08-21 23:59, the day before the delivery | high, not executed | Scraper.ParseMessageAsWrittenIsLate | Scraper.ParseMessageOfLateNightAlert |
