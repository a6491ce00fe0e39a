# SpaceFleet core, modelled in Dafny

SpaceFleet watches the disks of a fleet of Linux hosts over SSH. Three parts of its backend are modelled here.

- **The collector** (`collector.py`). It reads `df -hT` on each host. Virtual filesystems and boot/snap mounts are skipped. It keeps either the mounts on the host's allow-list or the disks of at least 250 GB. For every kept disk except `/` it reads `du -s` and `stat` to get the directories of 1 GB or more and their owners. All of one host's rows are committed together, or none are written. It reports one status record per host.
- **The dashboard read side** (`routers/disks.py`).
  - The disk summary is the latest row of every disk of an enabled server, flagged at 80 %, with alert rows first and then the highest use first.
  - The alert list is the flagged rows of the summary.
  - The per-directory usage of a mount is its latest collection, largest first, with each directory's share of the disk.
  - The analysis cache behind the file-type and large-file views: one entry per server, mount point and kind. It has a 7-day staleness rule and a `refreshing` flag. An unforced request schedules a background refresh only for a stale entry that is not already refreshing, so a second unforced request right after it schedules nothing. A forced request rescans synchronously. If that scan raises, it clears `refreshing` even while a background refresh is still queued, and a later unforced request can then queue the same key a second time.
- **The alert evaluator** (`notifier.py`). It goes through every enabled rule that is out of its cooldown, checks the rule's metric on the rule's target servers, and builds a digest of the servers over the threshold. The digest lists at most five of them and then a count. The rule's trigger time is stamped only when the notification was delivered.

Modules:

| file | module | models |
|---|---|---|
| `wrappers.dfy` | `Wrappers` | `Option` and `Result`; `Failure` stands for a raised exception |
| `pystr.dfy`, `pynum.dfy` | `PyStr`, `PyNum` | the `str` methods, `int()` and `float()` the code relies on |
| `records.dfy` | `Records` | servers and the stored disk and directory rows |
| `remote.dfy` | `Remote` | the SSH session as a function from command text to outcome |
| `sizes.dfy` | `Sizes` | `parse_size_to_gb` |
| `disktable.dfy` | `DiskTable` | `collect_disk_usage` |
| `dirusage.dfy` | `DirUsage` | `collect_user_usage` |
| `collector.dfy` | `Collector` | `collect_server_data`, `collect_all_servers`, the database session, commit and rollback |
| `ordering.dfy` | `Ordering` | the descending sort, filtering and `max(collected_at)` these queries use |
| `dashboard.dfy` | `Dashboard` | `get_disk_summary`, `get_disk_alerts`, mount normalisation, `get_user_usage` |
| `cache.dfy` | `AnalysisCache` | `_get_or_create_cache`, `_refresh_analysis_cache`, `get_file_types`, `get_large_files` |
| `notifier.dfy` | `Notifier` | `check_and_notify`, `_check_metric`, `_send_alert` |

How the model is built:

- Code that loops and updates state is written as methods with loop invariants. Each such method is proved equal to a specification function, and the lemmas state what that function guarantees. Examples are `CollectDiskUsage`, `CollectServerData`, `GetDiskSummary`, `CacheStore.Request` and `AlertTable.CheckAndNotify`.
- The database session and the rule table are classes. Their fields are reassigned by the methods.
- Time is an integer number of microseconds. Sizes are exact reals.
- The outside world is passed in as parameters:
  - the host's answers to commands (`Session.run`);
  - the analysis scanners (`scan`);
  - the Bark delivery (`deliver`);
  - number formatting (`Formatting`);
  - the collection clock (`clock`);
  - a row another request inserted first (`rival`).

Behaviour the model takes from the code that is easy to miss:

- `collect_all_servers` collects every server, enabled or not (collector.py:252). Its docstring (collector.py:249-251) says all servers, and no `enabled` filter is applied.
- A background refresh of a disabled server records the error `"Server is disabled"` (routers/disks.py:272).
- A forced analysis request does not check whether the server is enabled (routers/disks.py:324-327). It answers 404 only when the server does not exist, and the cache row has been created by then.

## Model

| member | source | states |
|---|---|---|
| `Sizes.ParseSizeToGb` | backend/app/collector.py:11-34 | A token the pattern `^([\d.]+)([KMGTP]?)B?$` rejects is 0.0. A successful result is never negative. The only failure is a token the pattern accepts but `float()` rejects |
| `Sizes.NumberIsDecimalOrRejected` | backend/app/collector.py:18-22 | A `[\d.]+` group is read exactly when it is a decimal literal with at most one point. Any other such group raises ValueError |
| `Sizes.ParseMatched` | backend/app/collector.py:22-34 | Once the pattern matched, the result is the number times its unit's 1024-based multiplier |
| `Sizes.ParseWholeSize` | backend/app/collector.py:16-34 | Every whole number followed by any unit, upper or lower case, with or without `B`, parses to the number times that unit's multiplier |
| `Sizes.DocumentedSizes` | backend/app/collector.py:11-34 | The documented tokens: "100G" is 100, "1.5T" is 1536, "500M" is 500/1024 and "1024K" is 1/1024 GB |
| `Sizes.RejectedSizes` | backend/app/collector.py:18-22 | A non-matching token ("bogus") gives 0.0. A matching token with two points ("1.2.3G") raises float's ValueError |
| `PyNum.ParseIntShowNat` | backend/app/collector.py:143-146 | `int` reads back the decimal rendering of every natural number |
| `PyNum.ParseFloatDecimal` | backend/app/collector.py:95-98 | `float` reads a bare decimal literal as its exact value |
| `DiskTable.CollectDiskUsage` | backend/app/collector.py:37-110 | Running `df -hT` and scanning its rows one by one gives exactly the row-by-row definition `ParseDiskTable`. That includes the RuntimeError for a non-zero exit and the first ValueError from a size |
| `DiskTable.ScanLine` | backend/app/collector.py:61-106 | One row of the table extends the scan so far exactly as `ScanRow` does. That covers the skip rules, the selection policy and the ValueError of a size |
| `DiskTable.ScanRowsSpec` | backend/app/collector.py:60-108 | A successful scan lists, in table order, the mounts of exactly the rows with seven fields that pass the filesystem and boot/snap skip rules. It returns one disk per row the selection policy keeps, in table order, and each disk obeys the skip rules and the policy |
| `DiskTable.AllowListSelection` | backend/app/collector.py:86-93 | With an allow-list, the selected mounts are the listed mounts that are on the allow-list, whatever their size |
| `DiskTable.FailurePersists` | backend/app/collector.py:81-105 | A ValueError in one row is the result of the whole table, whatever the later rows hold |
| `DiskTable.UsePercentFallback` | backend/app/collector.py:95-98 | A use field that is not a number ("-") reads as 0.0 instead of raising |
| `DiskTable.UsePercentNumber` | backend/app/collector.py:70-96 | "85%" reads as 85 once the `%` is stripped |
| `DiskTable.FailedCommand` | backend/app/collector.py:50-53 | A `df` with a non-zero exit fails with "Failed to execute df: " followed by its stderr |
| `DirUsage.CollectUserUsage` | backend/app/collector.py:113-161 | When `du` prints only whitespace, the result is empty and `stat` is not consulted. Otherwise it is the `du` lines' entries, labelled with the `stat` owners. An exception from either command propagates |
| `DirUsage.ReadOwners` | backend/app/collector.py:130-135 | The owner dictionary built by the loop is the reference owner table of the `stat` lines |
| `DirUsage.ReadEntries` | backend/app/collector.py:137-161 | The entry list built by the loop is the reference entry list of the `du` lines |
| `DirUsage.StatEntrySplit` | backend/app/collector.py:131-135 | A `stat` line names an owner exactly when it contains a space. The owner is the text before the first space, and owner, space and path give back the line |
| `DirUsage.OwnerTableKeys` | backend/app/collector.py:130-135 | A path has an owner exactly when some `stat` line names it |
| `DirUsage.OwnerTableLast` | backend/app/collector.py:130-135 | A path's owner is the one on the last `stat` line naming it, because later lines overwrite earlier ones |
| `DirUsage.DirEntriesAppend` | backend/app/collector.py:137-161 | The entries of concatenated `du` outputs are the concatenated entries: each line is judged on its own and order is kept |
| `DirUsage.DirEntriesSpec` | backend/app/collector.py:151-159 | Every entry is at least 1 GB, carries the owner recorded for its directory, and no line gives more than one entry |
| `DirUsage.DuEntryOfLine` | backend/app/collector.py:138-158 | A line `<kb>\t<dir>` of at least 1 GB gives back that directory, its owner and its size in GB |
| `DirUsage.StatEntryOfLine` | backend/app/collector.py:131-135 | A line `<owner> <path>` gives back that owner and path |
| `Collector.ParseScanMounts` | backend/app/collector.py:192-194 | Every allow-list entry is non-empty and has no surrounding whitespace. An unset or empty setting means no allow-list |
| `Collector.ScanMountsRoundTrip` | backend/app/collector.py:192-194 | Reading back a comma-joined list of clean mount points gives the list |
| `Collector.NonBlankStrippedKeeps` | backend/app/collector.py:194 | Entries that are already non-blank and free of whitespace are kept as they are |
| `Collector.Collect` | backend/app/collector.py:164-245 | No contract of its own. It is the pass definition for one host: connection, `df` table, allow-list warning, staging, and a batch only when nothing raised. `PassOutcome`, `WarningIff` and `StageDisksSpec` state its properties |
| `Collector.CollectServerData` | backend/app/collector.py:164-245 | The status record and the rows added to the store are exactly those the pass definition `Collect` gives. Nothing is written unless the whole pass succeeded |
| `Collector.StageAllDisks` | backend/app/collector.py:206-236 | The staging loop gives exactly `StageDisks`: each disk's row, then its directories unless it is `/`, stopping at the first raising directory scan |
| `Collector.StageUsers` | backend/app/collector.py:226-236 | One directory row per entry, appended after those already staged, in order |
| `Collector.StageErrorPersists` | backend/app/collector.py:221-243 | Once a directory scan raises, the disks after it are not staged |
| `Collector.StageDisksSpec` | backend/app/collector.py:206-236 | Staged disk rows are the scanned disks in order, all of them when nothing raised. No directory row belongs to `/`. All rows carry the server id and the collection time |
| `Collector.StageGathers` | backend/app/collector.py:221-236 | A staging that raised nothing scanned every disk except `/` without error. Its directory rows are exactly the `du` entries of those disks, disk by disk, in order |
| `Collector.AllDirRowsListed` | backend/app/collector.py:221-236 | Every `du` entry of every disk except `/` has its row among the host's directory rows |
| `Collector.PassOutcome` | backend/app/collector.py:164-245 | A pass succeeds exactly when its error is unset. A failed pass commits nothing. A successful one scanned every disk except `/` without error. It commits one row per scanned disk and exactly the directory rows of those scans, disk by disk, in order, and its counters count them |
| `Collector.WarningIff` | backend/app/collector.py:200-204 | The warning is set exactly when an allow-list is configured and the host's table gave no disk |
| `Collector.CollectAllServers` | backend/app/collector.py:248-259 | The loop over the servers returns the fleet definition's results and commits its rows. Each host's pass is appended to the previous ones |
| `Collector.CollectAllPerServer` | backend/app/collector.py:248-259 | One result per server, in order. Each result is that server's own pass, whatever the other servers did |
| `Records.FindServer` | backend/app/routers/disks.py:264-265 | The server found has the requested id. "Not found" means no server has it |
| `Ordering.SortDescSpec` | backend/app/routers/disks.py:76 | The sort orders by descending key and is a permutation of its input |
| `Ordering.LatestAtSpec` | backend/app/routers/disks.py:39-47 | The group's `max(collected_at)` exists exactly when the group has rows. It is the time of one of them, and no row of the group is later |
| `Ordering.FilterClosedPrefix` | backend/app/routers/disks.py:84 | When no matching element follows a non-matching one, the filter gives a prefix of the list, and nothing after that prefix matches |
| `Ordering.FilterMembers` | backend/app/routers/disks.py:84 | An element is in the filtered list exactly when it is in the list and satisfies the predicate |
| `Dashboard.NormaliseMount` | backend/app/routers/disks.py:150-151 | The mount point always starts with `/`. One that already does is unchanged |
| `Dashboard.NormaliseIdempotent` | backend/app/routers/disks.py:317-318 | Normalising twice is normalising once. A `/` is added exactly when the path lacks it |
| `Dashboard.GetDiskSummary` | backend/app/routers/disks.py:33-77 | The summary loop gives the sorted summary rows of the latest readings of enabled servers |
| `Dashboard.SummaryRowsSpec` | backend/app/routers/disks.py:39-73 | Every summary row is the latest reading of a disk of an enabled server, carrying its name. Every such reading has a row, flagged exactly when use is at or over 80 % |
| `Dashboard.SortKeepsFlags` | backend/app/routers/disks.py:72-76 | Sorting keeps each row's flag in agreement with its use percentage |
| `Dashboard.KeyLeIsUseOrder` | backend/app/routers/disks.py:75-76 | On flagged rows the key `(-is_alert, -use_percent)` orders exactly as descending use |
| `Dashboard.SummaryOrder` | backend/app/routers/disks.py:62-77 | The summary is a permutation of the rows, ordered by `(-is_alert, -use_percent)`, with every alert row before every other row |
| `Dashboard.GetDiskAlerts` | backend/app/routers/disks.py:80-84 | The alert list is no longer than the summary and holds exactly the summary's flagged rows |
| `Dashboard.AlertsOfOrdered` | backend/app/routers/disks.py:80-84 | In a flagged, alert-first summary, the alerts are a prefix of it and are exactly its rows at or over the threshold |
| `Dashboard.AlertsOfSummary` | backend/app/routers/disks.py:80-84 | The alert list is a prefix of the disk summary and holds exactly its rows at or over 80 % |
| `Dashboard.LatestDisk` | backend/app/routers/disks.py:179-187 | The newest disk row of the mount when it has one: no row of that mount is later. None when it has no rows |
| `Dashboard.SharesLargestFirst` | backend/app/routers/disks.py:191-199 | Against a positive disk total, records sorted by size give shares sorted by percentage, largest first |
| `Dashboard.SharesBounded` | backend/app/routers/disks.py:191-199 | Against a positive disk total, a directory no larger than the disk takes between 0 and 100 percent of it |
| `Dashboard.LatestUserRowsSpec` | backend/app/routers/disks.py:153-176 | Empty exactly when the mount has no directory rows. Otherwise it is a permutation of the mount's rows at the newest collection time: every such row is listed, no other row is, and the list is sorted by used size, descending |
| `Dashboard.GetUserUsage` | backend/app/routers/disks.py:143-199 | No contract of its own. It is the response definition: the mount point is normalised, the latest rows are taken, and the shares are computed against the newest disk total. `UserUsageSpec` and `UserUsageLargestFirst` state its properties |
| `Dashboard.UserUsageLargestFirst` | backend/app/routers/disks.py:143-199 | With a positive disk total the response succeeds and lists the directories largest share first |
| `Dashboard.UserUsageSpec` | backend/app/routers/disks.py:143-199 | Fails (ZeroDivisionError) exactly when there are rows and the disk total is zero. Otherwise it gives one share per latest row, in order |
| `AnalysisCache.GetOrCreate` | backend/app/routers/disks.py:226-257 | The key always ends up with an entry. An existing entry is kept. A missing one becomes a new row, or the row a racing request inserted first. No other key changes |
| `AnalysisCache.GetOrCreateIdempotent` | backend/app/routers/disks.py:226-257 | A second fetch of the same key changes nothing |
| `AnalysisCache.StaleBoundary` | backend/app/routers/disks.py:321-322 | An entry collected exactly one TTL ago is fresh and one microsecond later is stale. A never-collected entry is stale |
| `AnalysisCache.Refreshed` | backend/app/routers/disks.py:260-306 | After a background refresh the entry is never refreshing. Without an error it holds scanned items stamped `now`. With an error it keeps the stored items and their time |
| `AnalysisCache.Serve` | backend/app/routers/disks.py:309-376 | A request always leaves an entry for its key. It either leaves the refresh queue as it was or, when unforced, appends its own key once |
| `AnalysisCache.GateSchedulesOnce` | backend/app/routers/disks.py:426-446 | An unforced request schedules one refresh exactly when the entry is stale and not refreshing. Scheduling sets `refreshing` and clears the error. The request answers the stored items with the staleness it computed |
| `AnalysisCache.ServeOnlyTouchesKey` | backend/app/routers/disks.py:309-376 | A request never changes the entry of any other key |
| `AnalysisCache.SecondRequestSchedulesNothing` | backend/app/routers/disks.py:356-360 | Of two unforced requests at the same moment, the second never schedules a refresh |
| `AnalysisCache.ForcedOutcome` | backend/app/routers/disks.py:324-354 | A forced request schedules nothing. An unknown server gives 404. A successful scan is stored and answered fresh at `now`. A raising scan keeps the stored scan, records the error, clears `refreshing` and answers 500 with the error |
| `AnalysisCache.RefreshOutcome` | backend/app/routers/disks.py:260-306 | A background refresh always clears `refreshing`. A missing or disabled server, or a raising scan, keeps the stored scan and records why. A successful scan replaces it, stamps `now` and clears the error |
| `AnalysisCache.RefreshOnlyTouchesKey` | backend/app/routers/disks.py:260-306 | A refresh changes only its own key's entry |
| `AnalysisCache.ServeKeepsConsistent` | backend/app/routers/disks.py:309-376 | Requests preserve the invariant: every refreshing entry has a queued refresh, and every queued key has an entry |
| `AnalysisCache.RunTaskKeepsConsistent` | backend/app/routers/disks.py:260-306 | Running the oldest queued refresh preserves the same invariant |
| `AnalysisCache.FirstRequestThenRefresh` | backend/app/routers/disks.py:356-376 | On an empty cache the first request answers no items, stale and refreshing, and queues one refresh. After that refresh succeeds, a request answers the scan as fresh and queues nothing |
| `AnalysisCache.CacheStore.Fetch` | backend/app/routers/disks.py:226-257 | The table after the fetch is `GetOrCreate` of the table before it, and the entry returned is the stored one |
| `AnalysisCache.CacheStore.Request` | backend/app/routers/disks.py:309-376 | The new table, the new queue and the answer are exactly those `Serve` gives |
| `AnalysisCache.CacheStore.RunNextTask` | backend/app/routers/disks.py:260-306 | The new table and queue are exactly those `RunTask` gives: the oldest refresh is run and dequeued |
| `Notifier.CooldownGate` | backend/app/notifier.py:74-78 | A rule that never triggered is always evaluated. A rule in cooldown sends nothing |
| `Notifier.CooldownBoundary` | backend/app/notifier.py:75-78 | A rule is skipped until exactly `cooldown_minutes` have passed since its stamp |
| `Notifier.RetryAfterFailedDelivery` | backend/app/notifier.py:195-207 | A failed delivery leaves the rule unstamped, so it is evaluated again at any later pass |
| `Notifier.StampIffDelivered` | backend/app/notifier.py:202-207 | The rule's stamp becomes `now` exactly when its notification was delivered. Nothing else about the rule changes |
| `Notifier.TargetServersSpec` | backend/app/notifier.py:80-87 | A server is a target exactly when it is enabled and is the rule's server, or the rule names no server (None or 0) |
| `Notifier.LatestMetrics` | backend/app/notifier.py:116-118 | The server's newest metrics row: no row of that server is later. None when it has none |
| `Notifier.DiskCheckSpec` | backend/app/notifier.py:129-147 | The disk check never raises. It is exceeded exactly when some latest per-mount row of the server is at or over the threshold, and it then reports the first such row's use |
| `Notifier.GpuScanSpec` | backend/app/notifier.py:149-165 | Exceeded when the first GPU at or over the threshold has the field. Otherwise every GPU is under, with a missing field read as 0. The check raises KeyError exactly when a GPU lacking the field is reached with the threshold at most 0 |
| `Notifier.UsageCheckSpec` | backend/app/notifier.py:115-127 | The CPU and memory checks compare the newest row's value and report it in either case |
| `Notifier.CheckMetric` | backend/app/notifier.py:103-167 | Only the GPU checks can raise. An unknown metric type is never exceeded |
| `Notifier.TriggeredSpec` | backend/app/notifier.py:89-97 | When no check raises, one entry per target over the threshold, with its name and value, and no other entry. Otherwise the error is some target's check error |
| `Notifier.TriggeredExact` | backend/app/notifier.py:89-97 | When no check raises, the triggered list is exactly the entries (name and reported value) of the targets whose check is exceeded, in target order |
| `Notifier.CollectTriggered` | backend/app/notifier.py:89-97 | The loop over the targets gives exactly `Triggered` |
| `Notifier.TriggeredFailurePersists` | backend/app/notifier.py:91-92 | A raising check ends the target loop, whatever the later targets give |
| `Notifier.AttemptOnlyWhenTriggered` | backend/app/notifier.py:73-100 | A notification is attempted exactly for an enabled rule out of cooldown with some server over the threshold. It is the composed digest, and its delivery decides `delivered` |
| `Notifier.EvaluateRule` | backend/app/notifier.py:73-100 | No contract of its own. It is one rule's step: cooldown gate, targets, checks, and the digest sent when some server is over the threshold. `AttemptOnlyWhenTriggered` and `CooldownGate` state its properties |
| `Notifier.Compose` | backend/app/notifier.py:178-199 | No contract of its own. It is the notification: title `⚠️ <name>`, the digest lines joined by newlines, and the rule's Bark URL and sound. `DigestShape`, `OverflowCounts` and `BodyLines` state its properties |
| `Notifier.DigestShape` | backend/app/notifier.py:186-193 | A header line, then one line for each of the first five servers in order, then an overflow line exactly when there are more than five, naming the total |
| `Notifier.OverflowCounts` | backend/app/notifier.py:191-192 | The overflow line carries the server count in a form that reads back as that count |
| `Notifier.BodyLines` | backend/app/notifier.py:193 | When no line contains a newline, splitting the body at newlines gives back the digest lines |
| `Notifier.BuildDigest` | backend/app/notifier.py:188-193 | The line-by-line construction gives exactly the digest lines |
| `Notifier.PassErrorPersists` | backend/app/notifier.py:73-100 | Once a check raises, the rest of the pass sends nothing and leaves the remaining rules as they were |
| `Notifier.PassSpec` | backend/app/notifier.py:61-100 | A pass keeps every rule except its stamp, and stamps only enabled rules that were out of cooldown. It makes at most one attempt per rule |
| `Notifier.PassAttempts` | backend/app/notifier.py:61-100 | Each attempt of a pass comes from a distinct rule, in rule order. It is what that rule's evaluation gave and carries the rule's id. A delivered attempt stamps its rule with `now`, and a rule that changed was delivered an attempt |
| `Notifier.PassComplete` | backend/app/notifier.py:61-100 | Without an error, every rule was evaluated and left as its own evaluation stamps it (stamped with `now` exactly when delivered). The attempts are exactly those the rules give, in rule order. With an error, it is the error of a rule whose check raised. The rules before that rule were handled the same way, that rule and every later one are unchanged, and only the earlier rules sent |
| `Notifier.AlertTable.CheckAndNotify` | backend/app/notifier.py:61-100 | The new rule table, the attempts sent and the error are exactly those that `Pass` gives for the old table |
| `Notifier.AlertTable.AdvancePass` | backend/app/notifier.py:73-100 | One rule of the loop extends the pass over the rules before it by exactly that rule's step. The rules after it are untouched |
| `Notifier.AlertTable.RunRule` | backend/app/notifier.py:73-100 | Evaluates one rule as `EvaluateRule` does. On success that rule alone is replaced by its stamped form. On failure nothing changes |
| `Notifier.AlertTable.SendAlert` | backend/app/notifier.py:170-207 | Sends the composed digest. The rule is stamped with `now` only if delivery succeeded, and no other rule changes |

## Left out

- SSH connections, command execution and timeouts are not modelled. A host is the function `Session.run` from command text to outcome, so retries and partial output are not shown.
- Metrics collection and the metrics-only fleet pass are not modelled. They are not part of this core.
- The file-type and large-file scanners (`get_file_type_stats`, `get_top_large_files`) and their sudo flag are not modelled. They sit behind the oracle `scan`.
- `send_bark_notification` is not modelled. It is the oracle `deliver`, so URL encoding and the Bark reply are out of the model.
- No true concurrency is modelled. The only race represented is the lost insert in `_get_or_create_cache`, through `rival`. When the insert fails and then no row is found, the code re-raises. That path is not modelled.
- The background-task queue is a list of keys run one at a time by `RunTask`. Interleavings of refreshes with requests other than those written out are not explored.
- Rounding and number formatting are not modelled:
  - `round(x, 2)` of sizes and percentages is not applied, and sizes are exact reals;
  - `str(float)` and `:.1f` in the digest are the oracle `Formatting`.
- Sizes.ParseSizeToGb: digits are the ASCII `0`-`9` only, here and in PyNum.ParseInt and PyNum.ParseFloat. Python's `\d`, `int()` and `float()` also accept other Unicode decimal digits. A fullwidth `１００G` is 100.0 GB in the code and 0.0 here. A `du` size written in such digits is kept in the code and skipped here. A `df` use field in them is read in the code and is 0.0 here. `df` and `du` print ASCII digits.
- `float()` and `int()` do not accept exponent, `inf`/`nan` or underscore spellings. `upper()` touches ASCII letters only.
- `json.dumps`/`json.loads` of cache data are not modelled; the stored items are kept as values. The `items = []` fallback for corrupt stored JSON is unmodelled. So is item validation by `FileTypeStats(**s)`/`LargeFileInfo(**f)`.
- GPU JSON that is a non-list, or has non-object or null fields (which raise TypeError or AttributeError in the code), is not modelled. GPU info is either absent, not JSON, or a list of objects.
- The forced path reads `datetime.utcnow()` twice. Both reads are one `now` in the model.
- The order of rows from unordered queries is not modelled. It is taken as table order. Ties for the newest row in `order_by(...desc()).first()` go to the first stored row.
- `print` logging in `_send_alert` is not modelled. It has no observable effect on state.
- The HTTP routes outside the summary, alerts, directory usage and analysis-cache views are not modelled, for example history, trend and manual collection. They are not part of this core.
