# NetMeter accounting, verified

NetMeter turns kernel byte counters into deltas, deltas into raw samples, samples into
incremental hourly, daily and monthly rollups (while retention deletes the samples under
them), and totals into budgets and notices. This project models that pipeline in Dafny and
proves what it promises: nothing is invented, lost or counted twice across wraps, resets,
suspend gaps, pruning, crashes, two threads and two processes. Where the code does less
than its documentation says, the exact condition under which the promise holds is proved.

`dafny verify dfyconfig.toml` checks everything.

## Modules

| files | what they model |
|---|---|
| `Traffic`, `Aggregation`, `Listing` | rows, selection, grouping by floored key, sorted listings of tables |
| `Ledger`, `Refinement`, `Retention`, `Database` | the SQLite tables, rollup and retention, with a ghost history of every row ever inserted; the database as a class |
| `Calendar`, `WindowKey`, `Hierarchy` | the proleptic Gregorian calendar in UTC, bucket floors, budget keys, nesting of the tables |
| `Counter`, `ProRate`, `Ticks`, `EndToEnd`, `LocalTraffic`, `Daemon` | counter deltas against true traffic, LAN shares, the daemon's loop on values and as a class, counters-to-tables theorems for all bytes and for LAN bytes |
| `Views`, `Fallback`, `Show`, `DisplayBuckets`, `Handover`, `Soundness`, `Budget` | range queries, re-bucketing, the choice of rolled or raw rows, how far back a view reaches, what a rollup changes on the display, TOTAL = LAN + WAN, the two computations of "used" |
| `MapSums`, `SocketAddress`, `Ownership`, `Capture`, `Pipeline`, `Recorder` | socket tables, frame attribution, chunked draining, the two-thread per-application pipeline |
| `Notifier`, `Alarm` | threshold flags, the agent and its sentinel files as two interleaved programs; what a notice says about recorded bytes |

The general method: a step of the program is a function on values, a run is a fold of
steps, and a method with loops and fields is proved to compute that function. The theorems
are about all runs.

## Assumptions, and what happens without them

- A row is lost to the rollups exactly if it arrives at or before the rollup marker, or
  repeats the key of a row not rolled up yet, or is pruned before it is rolled up
  (`Refinement.LosslessIff`). Everything else in the ledger is proved without assuming this
  away: lost rows are a term of the conservation laws. `EndToEnd.DaemonLosesNothing` shows
  that an advancing clock and retention that stays behind the last committed rollup suffice.
- Table cells are unbounded integers. Counter readings are 64-bit words; a counter wraps at 2^32
  or at 2^64.
- A transaction is one atomic step; an aborted rollup changes nothing.
- `max_bytes_per_tick` and the names that match the configured patterns are inputs.
- The LAN share is the exact fraction rounded down, the 80% and 100% tests are integer
  comparisons; the code uses floating point for both.
- Aggregation is proved for any floor functions. Calendar facts are for UTC.

## Where the code and its documentation differ

- The note at src/daemon.rs:250 says that forced-LAN interfaces claim LAN first. The code
  does not take their bytes off the LAN delta before sharing it out, so a tick can record
  more LAN than was measured: exactly if a forced-LAN interface carried bytes
  (`ProRate.ForcedOverAttributesIff`).
- The fallback in `show` (src/main.rs:441-445) is meant to show at once what the rollup will
  show later. It does so when the displayed range starts with a bucket and no sample is later
  than its end (`Handover.AlignedRollUpInUtc`, `Show.AlignedDisplay`). But the range starts at
  a time of day, so a partial first bucket is displayed before the rollup and not after it.
  The exact condition, for every rollup that finds no rolled row on display, the first or a
  later one, is `Handover.RollUpInUtc`, and `Handover.AnyRollUpInUtc` where rows were lost.
  `Handover.PartialHourLeavesDisplay` is a reachable case: a daemon that crashes in its first
  hour (a stop signal would roll up first, src/daemon.rs:123-126).
- The budget bar of `show` counts the selected interface and the selected range, but always
  the current window: for one interface it shows that interface's bytes (`Budget.InterfaceBar`),
  while `check_budget` counts all, and for a range that ends before the window it shows zero
  (`Budget.EarlierBarIsEmpty`).
- `check_budget` sums raw samples. With the default `retention_days_raw` of 30 (src/config.rs:20-22)
  it misses bytes of a month of 31 days: `Budget.DaemonCountsWindowIff` says exactly which
  retention counts every byte, `Budget.ShortRetentionMissesByte` gives the run that misses one.
  It never counts too many (`Budget.DaemonNeverOvercounts`), so there are missed notices but no
  false ones (`Alarm.NoticesMeanBytes`).
- `delta` says that it handles 64-bit wraps (src/daemon.rs:46-47). It records them exactly if
  the old reading is above 2^32 and the new one at least 1 MiB (`Counter.Wrap64ExactIff`); a
  wrap to a smaller reading is taken for a reset (`Counter.SmallWrap64Missed`). A reset close
  below 2^32 is taken for a wrap; `Counter.NoPhantomIff` gives the readings from which no
  reset can invent bytes.

## Model

| member | source | states |
|---|---|---|
| Aggregation.AggregateAppend | src/db.rs:129-191 | aggregating old and new rows together equals adding the aggregate of the new rows to the aggregate of the old |
| Aggregation.GetAggregate | src/db.rs:150-161 | the accumulated entry of a key is the column sum of the rows in its group, zero if there are none |
| Aggregation.AggregatePermutation | src/db.rs:137-161 | the table does not depend on the order in which rows are read |
| Aggregation.GroupTheGroups | src/main.rs:517-537 | grouping listed groups again is grouping the rows once by the composed projection |
| Aggregation.WanAdds | src/db.rs:82-91 | for sound rows, clamping WAN after merging equals summing the clamped parts |
| Aggregation.SumSound | src/db.rs:82-91 | sums of sound rows keep 0 <= lan <= total, and total is LAN plus WAN |
| Aggregation.WanOfAnyRow | src/db.rs:82-91 | WAN is what LAN leaves of the total, and zero where LAN is the larger, for any row |
| Listing.SortedListingUnique | src/db.rs:206-218 | a table has one listing in ascending bucket order |
| Listing.KeepListed | src/db.rs:211-217 | selecting from rolled rows is rolling up the rows selected through the floor |
| Ledger.RunKeepsInv | src/db.rs:129-191 | in every run of insert, rollup, aborted rollup and prune steps: daily and monthly are the aggregate of the folded rows, hourly agrees from the hourly cut on, the marker is the newest folded time, and every row is folded, pending or lost exactly once |
| Ledger.NothingPending | src/db.rs:142-145 | a rollup leaves no sample newer than its marker and moves the marker forward |
| Refinement.BucketsConserveBytes | src/db.rs:162-190 | in every reachable state, bytes inserted for a daily or monthly bucket = bytes in the bucket + pending + lost, with no assumption on clock, cuts or schedule |
| Refinement.HoursConserveBytes | src/daemon.rs:317-325 | the same for every hourly bucket not below the hourly cut |
| Refinement.TablesAreRebuilds | src/db.rs:115-128 | without losses the incremental tables equal one full aggregation of every row ever inserted up to the marker, after any retention |
| Refinement.ScheduleDoesNotMatter | src/db.rs:162-190 | two lossless runs over the same rows that end rolled up have the same daily and monthly tables and marker, and the same hourly buckets at or above both hourly cuts, wherever rollups, aborted and repeated ones and prunes came |
| Refinement.RollUpTwice | src/db.rs:142-144 | rolling up twice is rolling up once |
| Refinement.LosslessIff | src/db.rs:126-128 | a run loses no row exactly if every insert was newer than the marker with a fresh key and no prune cut a pending row |
| Refinement.OrderlyRunsLoseNothing | src/daemon.rs:122-129 | runs whose inserts follow the clock and whose prunes reach back to before what came after the last rollup lose nothing |
| Retention.SamplesAreWritten | src/daemon.rs:317-325 | in every run the sample table has for each key exactly the row written last under it since the raw cut last reached that key, once |
| Retention.HoursAreFoldedSince | src/daemon.rs:317-325 | in every run, losses or not, below the cuts too: an hourly bucket is the aggregate of the rows rolled up since the hourly cut last reached it, and there is none without such rows |
| Retention.NothingBeforeTheCuts | src/daemon.rs:322-325 | right after retention no sample is before the raw cut and no hourly bucket before the hourly one |
| Retention.PruneDeletesHours | src/daemon.rs:325 | retention deletes exactly the hourly buckets before the cut and changes no other bucket, table or marker |
| Retention.PruneDeletesSamples | src/daemon.rs:324 | retention deletes exactly the samples before the cut |
| Retention.FirstRollUpRebuilds | src/db.rs:163-169 | without a marker the rollup builds the tables from the samples alone, whatever the tables held |
| Database.UpsertAll | src/db.rs:180-182 | the upsert loop, in any order, adds the entries of one table to another |
| Database.RollUpStore | src/db.rs:129-191 | the loops of the rollup compute the specified store: tables, marker, or no change without new rows |
| Database.GroupThreeWays | src/db.rs:147-161 | the accumulating loop builds the hourly, daily and monthly aggregates side by side |
| Database.Database.RollUp | src/db.rs:129-191 | the object's tables stay where its history of transactions leads; an aborted rollup leaves them unchanged |
| Database.Database.Insert | src/daemon.rs:242-277 | under each key the tick wrote the table has the row written last, the other rows stay, and the rollups are untouched |
| Database.Database.Prune | src/daemon.rs:317-325 | a sample stays exactly if it is not before the raw cut, an hourly bucket exactly if not before the hourly cut, with its bytes; nothing else changes |
| Calendar.DayNumberOfDate | src/db.rs:261-283 | civil conversion is a bijection: the date of a date's day number is that date |
| Calendar.DayNumberCounts | src/db.rs:261-283 | day numbers count calendar days one by one from 1970-01-01 |
| Calendar.KnownDates | src/db.rs:255-283 | day 0 is 1970-01-01, day 11017 is 2000-03-01; 2000 and 2024 have a leap day, 1900 and 2023 do not |
| Calendar.FloorsByDivision | src/db.rs:275-314 | hour, day and week floors built from civil parts equal truncation of the timestamp |
| Calendar.FloorsAreFloors | src/db.rs:275-314 | every floor is at most its argument, monotone and idempotent |
| Calendar.FloorsNest | src/db.rs:275-314 | day of hour, week of day and month of day forget the finer floor |
| Calendar.WeekContains | src/db.rs:299-314 | a week starts on a Monday and contains its seconds |
| Calendar.MonthContains | src/db.rs:281-283 | a month starts on its first and contains its seconds |
| WindowKey.KeysAreFaithful | src/db.rs:333-350 | for all timestamps, two budget keys are equal exactly if period and window start are equal |
| WindowKey.KeyReads | src/db.rs:339-350 | a key is `day:`, `week:` or `month:` and the window start as four-digit year, two-digit month and two-digit day |
| Hierarchy.DaysAreSumsOfHours | src/db.rs:150-161 | in every reachable state a day not reached by the hourly cut is the sum of its hourly rows |
| Hierarchy.MonthsAreSumsOfDays | src/db.rs:150-161 | in every reachable state the monthly table is the daily table regrouped |
| Counter.DeltaBounds | src/daemon.rs:34-59 | no delta is negative or above max(max_bytes_per_tick, 2^20 - 1); a discarded one is 0 |
| Counter.GrowthExact | src/daemon.rs:43-58 | growth is recorded exactly, or discarded exactly if above the limit |
| Counter.DiscardedIff | src/daemon.rs:34-59 | over all 64-bit readings a delta is discarded exactly for growth above the limit, a drop over 2^32 above the limit that is near it or ends at 1 MiB or more, and a drop from above 2^32 over 2^64 above the limit that ends at 1 MiB or more |
| Counter.LargeDropDiscarded | src/daemon.rs:43-58 | a reset read at 1 MiB or more, further from the wrap than the limit, is a discarded spike |
| Counter.SmallDropIsReset | src/daemon.rs:36-42 | a drop below 1 MiB is recorded as read from every reading but those within the limit of 2^32 |
| Counter.DropOverBoundary | src/daemon.rs:43-58 | every other drop from at most 2^32 is recorded as the distance over the boundary, if within the limit |
| Counter.WrapExact | src/daemon.rs:36-58 | a 32-bit counter that carried t <= max bytes yields t and no discard, from every start, wrapped or not |
| Counter.Wrap64ExactIff | src/daemon.rs:43-58 | a 64-bit wrap within the limit is recorded exactly, exactly if it starts above 2^32 and ends at 1 MiB or more |
| Counter.SmallWrap64Missed | src/daemon.rs:39-42 | a 64-bit counter that wraps to 500 after carrying 1500 bytes is recorded with 500 |
| Counter.ResetExact | src/daemon.rs:39-42 | a small reading after a reset from a safe reading is recorded as it is |
| Counter.NoPhantomIff | src/daemon.rs:34-59 | no reset from a reading can be recorded as more than was carried, exactly if the reading is outside both near-wrap bands |
| Counter.PhantomBytes | src/daemon.rs:43-54 | what a mistaken reset invents is exactly the distance to the wrap boundary |
| Counter.EveryByteAccounted | src/daemon.rs:196-220 | over any run of a 32-bit or 64-bit counter that does not reset, carried = recorded + spikes + intervals without baseline; limits on wraps are asked only where a delta is computed; on 32-bit counters there are no spikes |
| Counter.ResetsAccounted | src/daemon.rs:34-59 | over any run with resets that a tick can tell from growth and wraps: carried = recorded + spikes + intervals without baseline + bytes wiped out by small resets |
| Counter.ResetSpikesInRun | src/daemon.rs:43-58 | at any point of a run, a reset from below 2^32 read at 1 MiB or more and further from the wrap than the limit adds its bytes to the spikes and nothing to the recorded bytes |
| Counter.ReadingIsCarried | src/daemon.rs:196-220 | its reading is the first one advanced by all it carried, modulo its width |
| Counter.NothingInvented | src/daemon.rs:196-220 | over any run of a 32-bit or 64-bit counter with resets from safe readings, through wraps of any size, gaps, hot-plug and spikes, recorded bytes + spikes + intervals without baseline never exceed carried bytes |
| ProRate.Prorate | src/daemon.rs:239-275 | the loop over the interfaces writes the specified LAN share into each row |
| ProRate.ProratedLan | src/daemon.rs:249-274 | the LAN columns written for a tick add up to the shares |
| ProRate.SharesConserve | src/daemon.rs:249-273 | without forced interfaces and with lan <= total, the shares sum to at most the LAN delta and miss less than one byte per active interface |
| ProRate.ShareExact | src/daemon.rs:254-273 | below the total the minimum is inert and a share is the rounded-down proportion |
| ProRate.RowShares | src/daemon.rs:249-274 | row by row and for any LAN delta, above the traffic or below: the LAN bytes are the largest number that exceeds neither the bytes nor their exact proportion, all bytes for a forced-LAN interface |
| ProRate.LanAboveTotal | src/daemon.rs:271-273 | a LAN delta of at least the traffic makes all traffic LAN |
| ProRate.ProratedSound | src/daemon.rs:271-273 | every row of a tick has 0 <= lan <= total, whatever the LAN delta |
| ProRate.ForcedOverAttributesIff | src/daemon.rs:249-253 | a tick records no more LAN than measured, for every measurement, exactly if forced-LAN interfaces carried nothing |
| Ticks.MeasuredColumn | src/daemon.rs:194-215 | a tick's rows hold for each interface exactly its accepted delta |
| Ticks.SpikesAre | src/daemon.rs:196-210 | a tick counts as discarded exactly the included interfaces with a baseline of which one direction exceeds the interface's own limit |
| Ticks.SpikeIsCounted | src/daemon.rs:204-205 | that is exactly when the meter of one of its directions drops a spike |
| Ticks.DaemonIsMeter | src/daemon.rs:134-220 | over any run of ticks, gaps and restarts the daemon's baseline and inserted bytes per interface and direction are those of the ideal meter |
| EndToEnd.HeldIsRecorded | src/daemon.rs:113-315 | daily table + pending + lost of an interface = what its meter recorded, for every run |
| EndToEnd.TablesTelescope | src/daemon.rs:113-315 | for a 32-bit or 64-bit counter that does not reset that is the bytes carried - spikes - intervals without baseline, without spikes on 32 bits; carried is last reading - first reading unless the counter wrapped |
| EndToEnd.TablesInventNothing | src/daemon.rs:113-315 | with resets from safe readings of a 32-bit or 64-bit counter the tables never hold more than was carried |
| EndToEnd.TablesWithResets | src/daemon.rs:113-315 | with resets that a tick can tell from growth and wraps, daily table + pending + lost are exactly carried - spikes - intervals without baseline - bytes wiped out by small resets |
| EndToEnd.DaemonStoreSound | src/daemon.rs:249-274 | in every state the daemon reaches, every row of every table has 0 <= lan <= total |
| EndToEnd.DaemonStorePositive | src/daemon.rs:207-213 | in every state the daemon reaches, every sample carries bytes, as the display theorems ask |
| EndToEnd.DaemonLosesNothing | src/daemon.rs:122-129 | an advancing clock and retention behind the last committed rollup imply that no row is lost |
| EndToEnd.TablesAreExact | src/daemon.rs:113-315 | then daily table + pending are exactly the bytes carried less spikes and missing baselines, for both widths |
| EndToEnd.DaemonKeepsDisplayIff | src/main.rs:437-445 | in every database the daemon reaches without losses: while no rolled row is on display, the next rollup leaves the display unchanged exactly if no sample's bucket is in range or no sample straddles the range |
| EndToEnd.DaemonShowsRollUpIff | src/main.rs:437-445 | in every database the daemon reaches, for a range that ends no earlier than the last sample: exactly if no pending sample has its bucket in range, or the samples in range are the pending ones with their bucket in range |
| LocalTraffic.LanIsMetered | src/daemon.rs:134-192 | over any run with idle forced-LAN interfaces the daemon's LAN baseline is that of the LAN counter's meter, which a suspend gap reads without measuring, and the inserted LAN bytes are what it records, less what ticks drop above their traffic and at most a byte per active interface and tick |
| LocalTraffic.TablesWithinLan | src/daemon.rs:113-315 | then the LAN bytes of all interfaces, in the daily table, pending or lost, are never more than the LAN counter carried, through wraps, safe resets, flushed rules, gaps and restarts |
| Daemon.Measure | src/daemon.rs:194-215 | the loop over the readings, in any order, yields one row per interface that moved and counts the spikes |
| Daemon.Daemon.Tick | src/daemon.rs:144-313 | a tick appends the event it performed: samples, new baselines, discards, rollup, retention |
| Daemon.Daemon.Gap | src/daemon.rs:134-142 | a suspend gap drops every baseline and writes no sample |
| Daemon.Daemon.Restart | src/daemon.rs:123-129 | a shutdown rolls up and prunes; the next process starts without baselines |
| Daemon.UpkeepLosesNothing | src/daemon.rs:123-129 | after any run, a rollup that commits and then retention with any cuts lose no row and leave nothing pending |
| Daemon.TickRollsUpItsRows | src/daemon.rs:306-313 | so for the end of a tick, whose own rows are in that rollup, and for a shutdown |
| Views.BucketsListGroups | src/main.rs:540-566 | accumulating rows of one interface in an ordered map lists their groups by ascending bucket |
| Views.Accumulate | src/main.rs:547-561 | the loop computes those buckets, each labelled by its first row |
| Fallback.QueryAnswers | src/db.rs:193-245 | a range query delivers the selected rows, or their sums over all interfaces per bucket, once each and in order |
| Fallback.QueryRange | src/db.rs:193-245 | the query as a procedure computes that answer |
| Fallback.AlignedFallbackIsRolled | src/main.rs:437-445 | over a range that starts with a bucket and ends with one or after all samples, rolled rows and bucketed raw rows of any samples are the same sequence, for one interface or all and any floor |
| Fallback.SameGroupsIff | src/db.rs:206-218 | two selections of positive rows whose differences never fall into one group give the same groups exactly if they select the same rows |
| Show.Show | src/main.rs:424-445 | the displayed rows: rolled ones, weeks re-bucketed, or the fallback if there are none, whatever the row order of the tables |
| Show.BucketSamples | src/main.rs:540-566 | raw rows bucketed by the table's floor, and again by week for the weekly view |
| DisplayBuckets.RolledBuckets | src/main.rs:424-440 | rolled rows are exactly the buckets of the hourly, daily, daily regrouped by week, or monthly table that start in the last 86400, 2592000, 7257600 or 31536000 seconds, of the chosen interface |
| DisplayBuckets.RawBuckets | src/main.rs:441-445 | fallback rows are exactly the hours, days, weeks or months of the samples in that range |
| Show.AlignedRange | src/main.rs:424-445 | the same with weeks re-bucketed from days |
| Show.AlignedDisplay | src/main.rs:424-445 | for the ranges of `show`, which end at a moment: if the range starts with a bucket and no sample is later than its end, rolled rows and fallback rows are the same in every view |
| Show.RolledIsRawIff | src/main.rs:437-445 | rolled rows and fallback rows of the same samples are the same sequence, for one interface or all, weeks included, exactly if no sample's bucket straddles the range |
| Show.UtcStraddlersApart | src/main.rs:424-435 | in UTC the premise of that always holds: samples that straddle the two ends of a displayed range are never in one displayed bucket |
| Handover.RollUpShowsIff | src/main.rs:437-445 | for any store with no rolled row on display and any floors: a rollup leaves the display unchanged exactly if no pending sample has its bucket in range, or the samples in range are the pending ones with their bucket in range; straddlers of both ends must stay in different displayed buckets |
| Handover.RollUpInUtc | src/main.rs:437-445 | in UTC, in every lossless run, for every view, range end and interface choice, and for the first or any later rollup that finds no rolled row on display: exactly if no sample's bucket is in range or no sample straddles the range |
| Handover.AnyRollUpInUtc | src/main.rs:437-445 | in UTC for any store, after losses too, the condition on the pending samples when no sample is later than the range |
| Handover.AlignedRollUpInUtc | src/main.rs:441-445 | if the range starts with a bucket the fallback shows what the next rollup will show |
| Handover.FirstRollUpInUtc | src/main.rs:437-445 | the instance for a table never rolled up before |
| Handover.PartialHourLeavesDisplay | src/main.rs:424-435 | a reachable database, a daemon's first hour before a crash at any time, and a moment at which the first rollup with rows removes an hour from the display |
| Soundness.RunSound | src/db.rs:154-160 | sound inserts keep every sample and every rolled row sound in every run, below the hourly cut too |
| Soundness.DisplaySound | src/main.rs:517-566 | every displayed row, queried, re-bucketed or fallback, is sound |
| Budget.BarLaw | src/main.rs:493-507 | the budget bar for one interface or all, any end of the range, day, week and month and both bases, in every lossless run: the sampled bytes of the selection on display + its expired bytes - its pending bytes, and without the last two if no rolled row is displayed |
| Budget.InterfaceBar | src/main.rs:493-507 | at the present moment that selection is the window of the chosen interface alone |
| Budget.EarlierBarIsEmpty | src/main.rs:493-507 | in every run, the bar of a range that ends before the current window is zero |
| Budget.BudgetsAgreeUpToDrift | src/daemon.rs:344-357 | for all interfaces at the present moment, day, week and month and both bases, in every lossless run: displayed use = the daemon's use + expired bytes of the window - pending bytes of the window, and without the last two if no rolled row is displayed |
| Budget.BudgetsAgree | src/main.rs:378-389 | for all interfaces at the present moment, with current rollups and retention no shorter than the longest window the two are equal |
| Budget.DaemonNeverOvercounts | src/daemon.rs:344-357 | in every run, with losses and under any retention, the daemon's use is at most the bytes recorded in the window |
| Budget.DaemonCountsWindow | src/daemon.rs:344-357 | with that retention the daemon's use is every byte ever recorded in the window, rolled up or not |
| Budget.ShowUsedIsBasis | src/main.rs:378-389 | the filtered sum over displayed rows equals the unclamped column sums of the window |
| Budget.CheckUsedClamps | src/daemon.rs:352-356 | on any samples a direction with more LAN than total counts as nothing on the WAN basis and does not eat into the other |
| Budget.RetentionCoversWindowIff | src/daemon.rs:322-324 | the raw cut never passes the start of the current window, at any moment, exactly from 1, 7 or 31 days of retention on |
| Budget.DaemonCountsWindowIff | src/daemon.rs:344-351 | in every lossless run that keeps that many days, at every moment, the daemon's use is every byte recorded in the window, exactly from 1, 7 or 31 days on |
| Budget.ShortRetentionMissesByte | src/daemon.rs:322-324 | whenever the cut lies in the window there is a run, insert, rollup and prune, whose one byte of the window the daemon does not count |
| SocketAddress.ParseLocal | src/proc_cap.rs:130-147 | the parser, filling an array word by word, computes the specified endpoint or fails |
| SocketAddress.ParseHex | src/proc_cap.rs:130-147 | digit-by-digit conversion succeeds exactly for digits below the limit, with an optional plus sign |
| SocketAddress.AddressRoundTrip | src/proc_cap.rs:468-480 | every 4- or 16-byte address and every port survive the kernel's printed form |
| SocketAddress.ParsedShape | src/proc_cap.rs:130-147 | what parses is an address of the table's family and a 16-bit port; an IPv6 address takes exactly the 32 characters before the first colon |
| SocketAddress.ParsedAnyCase | src/proc_cap.rs:130-147 | the case of the letters does not matter |
| SocketAddress.HexDigits | src/proc_cap.rs:130-147 | the hexadecimal digits are the 22 characters 0-9, a-f and A-F, with their values |
| SocketAddress.PlusSign | src/proc_cap.rs:130-147 | a plus sign before the digits changes nothing |
| Ownership.TablesFor | src/proc_cap.rs:108-121 | the loop emits the tables of the foreign representatives and then our own |
| Ownership.OnePerForeignNamespace | src/proc_cap.rs:108-118 | there is exactly one representative for each distinct foreign namespace and none for ours |
| Ownership.Snapshot | src/proc_cap.rs:34-66 | the nested loops fold every readable row of those tables in order |
| Ownership.OwnedIff | src/proc_cap.rs:43-63 | an endpoint has an owner exactly if a row below the heading of some table gives it one, with IPv6 addresses in tcp6 and udp6 and a known inode other than 0, and then such a one |
| Ownership.EveryProtocolRead | src/proc_cap.rs:108-128 | tcp, tcp6, udp and udp6 are read of our own namespace and of each foreign one |
| Ownership.OwnTablesWin | src/proc_cap.rs:101-107 | an endpoint found in our own tables belongs to the last own row that names it, whatever foreign tables hold |
| Ownership.OwnersNamed | src/proc_cap.rs:59-62 | every process that owns an endpoint has a command name |
| Ownership.NamesAreTheirs | src/proc_cap.rs:59-62 | every name in a snapshot is one under which that process was found |
| Ownership.FirstNameStays | src/proc_cap.rs:61 | the first name found for a process stays |
| Capture.AccountAdds | src/proc_cap.rs:226-281 | a counted frame adds its length once, in one direction, whoever it is credited to |
| Capture.SentOrReceived | src/proc_cap.rs:257-281 | sent bytes grow by the length of a frame from a local address, received bytes by that of any other |
| Capture.SentByOwner | src/proc_cap.rs:258-281 | a frame from a local address is sent by the process that owns source address and source port; its entry alone changes, and gets a name if it had a placeholder |
| Capture.ReceivedByOwner | src/proc_cap.rs:258-281 | any other frame is received by the owner of destination address and destination port |
| Capture.CreditedToNobody | src/proc_cap.rs:260-271 | process 0 stands in, as `unknown` without an owner and as `other` without ports |
| Capture.AccountsApart | src/proc_cap.rs:257-281 | a process has the bytes of its own frames only, and keeps a name once it is known |
| Capture.RoundsAreOneFold | src/proc_cap.rs:204-224 | for one queue, from any position: after k calls min(len, k * cap) frames are consumed, with the result of one pass over them |
| Capture.FoldFirst | src/proc_cap.rs:394-405 | the flush gives the same map whichever entry is folded first |
| Capture.FoldByName | src/proc_cap.rs:394-405 | a command gains exactly the bytes of the processes that bear its name |
| Capture.FoldConserves | src/proc_cap.rs:394-405 | the flush moves every byte and only moves it |
| Pipeline.UpsertConserves | src/daemon.rs:284-304 | the daemon's upserts add every drained byte to the table |
| Pipeline.UpsertByKey | src/daemon.rs:290-300 | the entry of a command in the given hour gains what was drained under its name, and every other entry stays |
| Pipeline.UpsertKeys | src/daemon.rs:295-299 | new entries are those of commands with bytes |
| Pipeline.TableIsCommitted | src/daemon.rs:284-330 | at every point of every interleaving an entry of `proc_hourly` is what was drained under its name and committed for its hour since retention last reached that hour |
| Pipeline.ScratchIsAccounted | src/proc_cap.rs:226-281 | at every point each process has the bytes of its own frames since the scratch map was last emptied |
| Pipeline.NamesConserve | src/proc_cap.rs:394-405 | command by command, bytes folded under a name = shared + in flight + table + named losses under that name |
| Pipeline.PipelineConserves | src/proc_cap.rs:283-321 | at every point of every interleaving, accounted bytes = scratch + shared + in flight + table + named losses |
| Pipeline.StepConserves | src/proc_cap.rs:303-321 | each step changes the held bytes by its gain and loss; a dying thread loses its scratch map and nothing else |
| Pipeline.TableCatchesUp | src/daemon.rs:281-304 | once all is folded, taken and committed, the table has every accounted byte |
| Recorder.DrainOne | src/proc_cap.rs:204-224 | the loop reads to the first hard error, the end of the queue or the cap, and reports exactly hard errors |
| Recorder.RoundAdds | src/proc_cap.rs:373-379 | a round over several receivers adds the bytes of the frames it consumes to the scratch map once |
| Recorder.RoundsConsume | src/proc_cap.rs:373-379 | after k rounds over several receivers without hard errors each has consumed min(len, k * cap) frames |
| Recorder.RoundsApart | src/proc_cap.rs:373-379 | after k rounds over several receivers the shared scratch map has gained, for each process, the bytes of its own frames among all consumed ones, once |
| Recorder.DrainRounds | src/proc_cap.rs:369-379 | k rounds of the loop over the receivers lead to those positions and that scratch map |
| Recorder.Recorder.Round | src/proc_cap.rs:373-384 | a round drains the receivers in turn, stops exactly at the first with a hard error within reach, leaves the rest untouched, and is the accounting steps of the frames it consumed |
| Recorder.Recorder.CappedRound | src/proc_cap.rs:200-224 | the same with the cap of 4096 frames |
| Recorder.Recorder.Relaunch | src/proc_cap.rs:303-314 | a restarted capture thread costs exactly the bytes of the dead one's scratch map; the object stays where its steps lead |
| Recorder.Recorder.Flush | src/proc_cap.rs:394-405 | the flush loop, in hash-map order, takes the fold step: shared totals by name, empty scratch map |
| Recorder.Recorder.Drain | src/proc_cap.rs:319-321 | draining takes the whole shared map, leaves an empty one, and is the take step of the pipeline |
| Recorder.Recorder.Upsert | src/daemon.rs:287-303 | the transaction, in hash-map order, adds to each command's entry of the hour what was drained under its name and leaves other hours alone: the commit step |
| Recorder.Recorder.Expire | src/daemon.rs:326-330 | retention keeps exactly the entries of hours from the cut on, unchanged: the expiry step |
| Recorder.Recorder.Restart | src/proc_cap.rs:293-301 | a new process starts with the table and nothing else |
| Recorder.RecorderConserves | src/proc_cap.rs:283-321 | at every moment of a recorder's life, accounted bytes are in its four maps or in a named loss |
| Notifier.Host.CheckBudget | src/daemon.rs:358-376 | afterwards crossed80 is set exactly if it was or 5 * used >= 4 * budget, crossed100 exactly if it was or used >= budget; other windows and a non-positive budget change nothing |
| Notifier.ThresholdsExact | src/daemon.rs:364-374 | the same of the specification |
| Notifier.Host.CheckOnce | src/user_agent.rs:33-54 | sends what is due in order and leaves a sentinel for each notice whose mark succeeds |
| Notifier.FlagsStick | src/daemon.rs:364-374 | no step of either program clears a flag |
| Notifier.CheckCompletes | src/daemon.rs:364-374 | a stepwise check that runs to its end does the same |
| Notifier.RunsKeepInv | src/user_agent.rs:17-54 | in every interleaving with crashes: 100% implies 80%, a set flag implies a check over its threshold, and every notice is booked as marked, failed or in flight |
| Notifier.NoticesAccounted | src/user_agent.rs:42-52 | notices of a window and threshold = sentinel + failed marks + the one being marked |
| Notifier.AtMostOnce | src/user_agent.rs:42-52 | notices exceed failed marks by at most one |
| Notifier.NoticesDeserved | src/user_agent.rs:45-52 | every 100% notice follows an 80% notice of its window, and every notice follows a check over its threshold |
| Notifier.PollAlone | src/user_agent.rs:17-54 | an uninterrupted poll of the stepwise agent does what `CheckOnce` does |
| Notifier.RaisedIsNotified | src/user_agent.rs:45-52 | after an uninterrupted poll every raised flag of the window has been notified |
| Notifier.CheckIsNotified | src/user_agent.rs:17-54 | once a check at 80% or 100% of the budget has run to its end, whatever the agent did meanwhile and whatever happens afterwards, the next undisturbed poll of the window leaves the notice sent |
| Notifier.OncePerWindow | src/user_agent.rs:33-53 | unless marking failed, two notices of one threshold belong to different budget windows |
| Alarm.NoticesMeanBytes | src/daemon.rs:344-374 | if the checks are the daemon's, over any runs that insert sound rows, with losses and under any retention, then behind every notice is a moment of its window at which all bytes recorded in it had reached 80% or 100% of the budget |
| Alarm.BytesMeanNotices | src/daemon.rs:344-374 | no missed alarm: if the bytes recorded in the window had reached 80% or 100% of the budget at a moment whose retention covers the window, and its check ran to its end, the next undisturbed poll leaves the notice sent |
| Alarm.DaemonNoticesMeanBytes | src/daemon.rs:144-374 | the same when the moments are those of any possible run of the daemon, without assumptions on rows, clock or retention |

## Left out

- `cmd_import`: a second writer that overwrites daily totals; the model covers daemon-only databases.
- `cmd_export` and `parse_date` windows: what they compute is not the documented inclusive range.
- Local time zones and daylight saving: calendar theorems are for UTC, the aggregation theorems for any floors.
- Floating point: thresholds and LAN shares are exact here; 0 <= lan <= total needs only the minimum and signs, so it survives any rounding.
- 64-bit overflow of table cells and the casts between signed and unsigned widths; dates outside the range of the time library.
- SQLite itself, WAL and checkpoints; a failing commit inside a tick, which ends the daemon.
- Installing the nft table, `nft_ok` and the missing-tick counter; glob matching of interface names (the matching names are an input).
- The call of `check_budget` inside a tick: flags are modelled in `Notifier`, with the used bytes as the input of a check.
- The configuration switches of the agent (notices disabled, no session bus, no display) and more than one agent at a time.
- Packet header decoding, opening and re-resolving receivers, and the timing of flushes, snapshots and drains; the daemon's local map of drained totals is a field of `Recorder.Recorder`.
- Column splitting of `/proc/net` lines and the decimal inode field (a row carries its parsed inode), and text that is not ASCII.
- Separate totals for the "unknown" and "other" labels: both use process 0, whose name the latest frame sets.
- Terminal interfaces, the desktop extension, formatting, command-line parsing, packaging.
- Handover.RollUpInUtc: asks that retention has not cut into the range of the hourly view; `Handover.AnyRollUpInUtc` does without.
- LocalTraffic.TablesWithinLan: an upper bound; LAN bytes above a tick's traffic are dropped by design, and how much a tick rounds away is `ProRate.SharesConserve`.
