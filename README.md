# Scrapy request scheduler and depth middleware, in Dafny

This project models two parts of Scrapy's crawl core and proves properties about them.

- **The request scheduler** (`scrapy/core/scheduler.py`). A duplicate filter guards two priority-queue tiers: a memory tier and an optional disk tier kept in a job directory. When the scheduler closes, it writes a manifest of the disk priority levels that still hold requests. The next run reads that manifest back when it opens.
- **The depth spider middleware** (`scrapy/contrib/spidermiddleware/depth.py`). It stamps each request a response produced with its depth. It shifts the request's priority by depth times a weight. It drops requests beyond the depth limit. It also keeps depth statistics.

Modules, one per file:

- `Wrappers`: `Option` and `Result`.
- `Text`: `str()` of integers, with its parse inverse.
- `Paths`: `posixpath.join` of two components.
- `Requests`: the request value, the record the disk tier stores, `request_to_dict` and `request_from_dict`, and the duplicate fingerprint.
- `Stats`: the statistics collector, a class over a counter map.
- `DupeFilters`: the duplicate filter, a class over a seen-set.
- `Files`: the job directory, a class over a map from path to file content.
- `PriorityQueues`: the bucketed priority queue. It is kept abstract as `map<int, seq<T>>`. The lowest non-empty level is served first, and each level is served in FIFO order. The module also defines `Order`, the sequence in which pops hand out the items.
- `Scheduling`: the `Scheduler` class.
- `DepthMiddlewares`: the pure filter over candidate outputs, its lemmas, and the `DepthMiddleware` class whose methods do the stamping and the statistics updates.

The disk tier is modelled as write-through. The invariant `Scheduler.Valid()` says that every open disk level is exactly what the file `<jobdir>/requests.queue/p<level>` holds (`Mirrored`). Under that invariant, `ResumeRestoresDiskTier` proves the round trip of a close followed by an open:

- the manifest reads back the active levels;
- the reopened disk tier holds exactly the non-empty levels, with the same requests;
- the reopened tier has the same pop order and the same length.

Behaviour of the code worth noting:

- `close` has no "already closed" guard. `CloseTwiceSameAsOnce` shows that a second close rewrites the same manifest, so the manifest is not corrupted.
- `close` tests `if self.dqs:`, which is the queue's length. So the manifest is rewritten only when the disk tier still holds requests. After a drained crawl, the old manifest stays on disk.
- A manifest that `json.load` cannot parse makes `open` raise; `Open` returns `Failure(MalformedManifest(path))`.
- With statistics off, depth.py line 47 raises KeyError for a parent without a depth; see Findings.

## Model

| member | source | states |
|---|---|---|
| Scheduling.Scheduler.constructor | scrapy/core/scheduler.py:16-19 | the disk directory is `join(jobdir, 'requests.queue')` for a non-empty jobdir and None otherwise; the scheduler starts closed with empty tiers |
| Scheduling.Scheduler.Length | scrapy/core/scheduler.py:53-54 | `len` is the memory length plus the disk length when a disk tier exists, the memory length otherwise, although the source only adds the disk length when it is truthy |
| Scheduling.Scheduler.HasPendingRequests | scrapy/core/scheduler.py:28-29 | pending iff some level of either tier holds a request |
| Scheduling.PendingIffActiveLevel | scrapy/core/scheduler.py:28-29 | `len > 0` iff some level of either tier is non-empty |
| Scheduling.Scheduler.Open | scrapy/core/scheduler.py:31-35 | the memory tier is reset; without a job directory there is no disk tier; with one, the disk tier opens the levels the manifest lists, each with its file's records; a missing manifest opens no level; a malformed one is an error that leaves the disk tier as it was |
| Scheduling.Scheduler.Close | scrapy/core/scheduler.py:37-42 | the files change exactly as `FilesAfterClose` says: only the manifest, and only when the disk tier is non-empty; every level stays mirrored |
| Scheduling.CloseTwiceSameAsOnce | scrapy/core/scheduler.py:37-42 | closing twice leaves the files as closing once does |
| Scheduling.Scheduler.EnqueueRequest | scrapy/core/scheduler.py:44-48 | a filtered duplicate changes no tier, file or counter; `dont_filter` leaves the seen-set alone, otherwise the fingerprint is added; an accepted request goes to the disk tier at its priority when there is one and it is serialisable (file rewritten, `scheduler/disk_enqueued` bumped), otherwise to the memory tier (`scheduler/memory_enqueued` bumped); `len` grows by one exactly when the request is accepted |
| Scheduling.Scheduler.NextRequest | scrapy/core/scheduler.py:50-51 | returns the memory tier's first request in pop order when there is one and leaves the disk tier alone; otherwise returns the disk tier's first request, deserialised; returns None when both are empty; memory pops leave the files alone, a disk pop rewrites only the popped level's file; a request is returned iff `len > 0`, and `len` then drops by one |
| Scheduling.Scheduler.DqPush | scrapy/core/scheduler.py:56-66 | pushes iff there is a disk tier and the request is serialisable; the record goes to the request's priority level, that level's file is rewritten and `scheduler/disk_enqueued` is bumped; otherwise nothing changes |
| Scheduling.Scheduler.MqPush | scrapy/core/scheduler.py:68-70 | appends the request at its priority and bumps `scheduler/memory_enqueued` |
| Scheduling.Scheduler.DqPop | scrapy/core/scheduler.py:72-76 | the first record in the disk tier's pop order, deserialised, with the rest kept in order and the level's file rewritten; None and no change without a disk tier or when it is empty |
| Scheduling.QueuePathsDistinct | scrapy/core/scheduler.py:81-82 | the sub-queue paths `join(dqdir, 'p%s' % p)` of two levels coincide iff the levels are equal |
| Scheduling.ManifestIsNoQueue | scrapy/core/scheduler.py:81-85 | `active.json` is never the file of a priority level |
| Scheduling.ReadManifest | scrapy/core/scheduler.py:84-90 | a missing manifest gives no levels; reading fails iff the file is present and not a JSON list |
| Scheduling.WriteLevelMirrors | scrapy/core/scheduler.py:81-82 | rewriting one level's file keeps every level mirrored, since levels have distinct files |
| Scheduling.ManifestWriteMirrors | scrapy/core/scheduler.py:40-41 | writing the manifest keeps every level's file intact |
| Scheduling.RestoredIsCompact | scrapy/core/scheduler.py:91 | opening the active levels from mirrored files gives back exactly the non-empty levels |
| Scheduling.ResumeRestoresDiskTier | scrapy/core/scheduler.py:84-91 | after a close that writes the manifest, the next open reads back the active levels and restores the disk tier with the same pop order and length |
| PriorityQueues.PushAddsOne | scrapy/core/scheduler.py:61 | a push adds exactly one to `len` |
| PriorityQueues.LenIsOrderLength | scrapy/core/scheduler.py:53-54 | `len` counts exactly the items pops will hand out |
| PriorityQueues.NothingPendingIffNoActiveLevel | scrapy/core/scheduler.py:29 | `len` is 0 iff no level holds an item |
| PriorityQueues.OrderSplit | scrapy/core/scheduler.py:51 | the pop order is the levels below p, then level p, then the levels above p |
| PriorityQueues.PopFollowsOrder | scrapy/core/scheduler.py:51 | pop returns the first item of the pop order and leaves the rest in order, or returns None with no change when the queue is empty |
| PriorityQueues.PushFollowsOrder | scrapy/core/scheduler.py:70 | a pushed item goes after every item at its level or below and before every item above |
| PriorityQueues.CompactKeepsOrder | scrapy/core/scheduler.py:91 | dropping empty levels changes neither the pop order nor the length |
| PriorityQueues.Ascending | scrapy/core/scheduler.py:39 | the levels `close` hands to the manifest are strictly ascending, with each active level once |
| PriorityQueues.Restore | scrapy/core/scheduler.py:91 | opening with `startprios` opens exactly those levels |
| Requests.ToDict | scrapy/core/scheduler.py:60 | `request_to_dict` fails iff the callback is not a spider method; on success, `request_from_dict` gives back the same request, priority included |
| DupeFilters.DupeFilter.RequestSeen | scrapy/core/scheduler.py:45 | reports whether the fingerprint was seen, and records it |
| Stats.Inc | scrapy/core/scheduler.py:65 | `inc_value` sets the key to its old value (0 when missing) plus the count and changes no other key |
| Stats.Max | scrapy/contrib/spidermiddleware/depth.py:58 | `max_value` sets the key to the maximum of its old value (when present) and the new value, and changes no other key |
| Stats.StatsCollector.IncValue | scrapy/core/scheduler.py:65 | the counters become `Inc` of the old counters by 1: the key grows by one (or becomes 1) and no other key changes |
| Stats.StatsCollector.MaxValue | scrapy/contrib/spidermiddleware/depth.py:58 | the counters become `Max` of the old counters: the key becomes the maximum of its old value and the new one, and no other key changes |
| Text.ParseIntInvertsIntToString | scrapy/core/scheduler.py:82 | `str()` of an integer parses back to that integer |
| Text.IntToStringInjective | scrapy/core/scheduler.py:82 | distinct integers render to distinct strings |
| Paths.JoinRelativeInjective | scrapy/core/scheduler.py:82 | under one directory, two relative names join to the same path iff they are equal |
| DepthMiddlewares.Stamp | scrapy/contrib/spidermiddleware/depth.py:47-50 | the stamped request has `meta['depth']` set to the depth and priority `old + depth * prio` for any prio, 0 included; nothing else changes |
| DepthMiddlewares.ParentDepth | scrapy/contrib/spidermiddleware/depth.py:47 | the corrected read is what line 47 reads after the statistics-on base case of lines 62-63 has run, and it equals line 47's read wherever line 47 does not raise |
| DepthMiddlewares.StampedAt | scrapy/contrib/spidermiddleware/depth.py:45-50 | every candidate is stamped in place, dropped requests included, and non-requests are untouched |
| DepthMiddlewares.SurvivorsAllOrNothing | scrapy/contrib/spidermiddleware/depth.py:51-54 | when the depth is within the limit (or the limit is 0), the output is every candidate, stamped; when it is beyond, the output is exactly the non-requests |
| DepthMiddlewares.SurvivorsAreSubsequence | scrapy/contrib/spidermiddleware/depth.py:67 | the output is an order-preserving subsequence of the stamped candidates |
| DepthMiddlewares.SurvivorsAtDepth | scrapy/contrib/spidermiddleware/depth.py:47-48 | every request in the output carries `meta['depth']` equal to the children's depth |
| DepthMiddlewares.NonRequestsPassThrough | scrapy/contrib/spidermiddleware/depth.py:45-59 | the non-requests of the output are the non-requests of the input, unchanged and in order |
| DepthMiddlewares.StatsAfterRecordsSurvivors | scrapy/contrib/spidermiddleware/depth.py:51-58 | the statistics do not change when requests are dropped or there are none; otherwise `request_depth_count/<depth>` grows by the number of requests when verbose, and `request_depth_max` becomes the maximum of its old value and the depth |
| DepthMiddlewares.RecordAgain | scrapy/contrib/spidermiddleware/depth.py:56-58 | recording one more request at a depth after n is the same as recording n + 1 |
| DepthMiddlewares.PriorityWeight | scrapy/contrib/spidermiddleware/depth.py:26-37 | selection fails iff `SCHEDULER_ORDER` is set to something other than BFO or DFO; with it unset the weight is `DEPTH_PRIORITY` |
| DepthMiddlewares.SchedulerOrderSelectsTraversal | scrapy/contrib/spidermiddleware/depth.py:26-37 | BFO gives weight 1 and serves shallower requests first; DFO gives weight -1 and serves deeper requests first; an unset order gives weight `DEPTH_PRIORITY`, and with 0 leaves priorities alone |
| DepthMiddlewares.PositiveWeightServesShallowFirst | scrapy/contrib/spidermiddleware/depth.py:49-50 | with a positive weight, a shallower request gets the lower priority number, so it is served first |
| DepthMiddlewares.NegativeWeightServesDeepFirst | scrapy/contrib/spidermiddleware/depth.py:49-50 | with a negative weight, a deeper request gets the lower priority number |
| DepthMiddlewares.MissingDepthRaisesWithoutStats | scrapy/contrib/spidermiddleware/depth.py:47 | with statistics off, a root response's first request raises KeyError as written, while the corrected read stamps it at depth 1 |
| DepthMiddlewares.CorrectionAgreesWhereSourceWorks | scrapy/contrib/spidermiddleware/depth.py:61-63 | with statistics on, or a parent that has a depth, the corrected read gives the output the source gives |
| DepthMiddlewares.RootChildrenAtDepthOne | scrapy/contrib/spidermiddleware/depth.py:61-67 | the children of a response whose request has no depth are all at depth 1, with statistics on or off |
| DepthMiddlewares.DepthMiddleware.constructor | scrapy/contrib/spidermiddleware/depth.py:15-19 | stores the limit, the statistics collector, the verbosity and the weight; the collector defaults to none, verbosity to off and the weight to 1 |
| DepthMiddlewares.DepthMiddleware.FromSettings | scrapy/contrib/spidermiddleware/depth.py:21-42 | the limit and verbosity come from the settings, the collector only when `DEPTH_STATS` is on, and the weight from `PriorityWeight`; an unknown `SCHEDULER_ORDER` is an error |
| DepthMiddlewares.DepthMiddleware.Filter | scrapy/contrib/spidermiddleware/depth.py:45-59 | stamps the candidate, keeps it iff it survives, and records the depth of a surviving request when statistics are on; the parent's depth is read with the corrected default of 0 (see Findings) |
| DepthMiddlewares.DepthMiddleware.ProcessSpiderOutput | scrapy/contrib/spidermiddleware/depth.py:44-67 | the parent as the base case leaves it; the output is `Survivors` of the candidates (empty for a None result), the candidates are left as `Stamped`, and the statistics as `StatsAfter` of the base case's; the parent's depth is read with the corrected default of 0 (see Findings) |

## Left out

- The `spider` argument and `self.spider`: they only label statistics and log lines.
- The duplicate filter's `open`/`close`, its fingerprint canonicalisation and its persistence. The filter is a seen-set keyed on method, URL and body.
- The disk queue class internals and the crash-safe write discipline. The disk tier is modelled as write-through, one file per level.
- File and JSON I/O. The job directory is a map from path to content. A file `json.load` rejects is one `Unparsable` value.
- Scheduling.Scheduler.Close: returns nothing, since the filter's `close` result is not modelled.
- Scheduling.Scheduler.Open: returns success or the manifest error, since the filter's `open` result is not modelled.
- PriorityQueues.ActiveLevels: the source's `close` lists the active levels in dictionary order; the model lists them in ascending order. The set is the same, so the resume is unaffected.
- PriorityQueues.Push: a push opens its level only when the push succeeds. The source of `scrapy.utils.pqueue` is not available, so whether a failed serialisation can leave an empty level behind is not modelled.
- Scheduling.Scheduler.DqPush: a push to a disk level that is not open starts that level empty and overwrites whatever file sits at its path. `_newdq` instead opens the disk queue class on that path, which may find records left there, for example by a crashed run. `Valid()` tracks only the files of open levels.
- Scheduling.ResumeRestoresDiskTier: covers a close that writes the manifest, so a non-empty disk tier. After a drained crawl the old manifest stays and is read again at the next open; the model does not prove that the reopened tier is then empty, since files of levels that are not open are not tracked.
- Scheduler construction from settings (`from_settings`, `load_object`, `job_dir`) and all dynamic class loading.
- `scrapy/crawler.py`: reactor control, signal handlers and extension loading.
- Logging, including the resume message and the "Ignoring link" message, and the `SCHEDULER_ORDER` deprecation warning.
- DepthMiddlewares.DepthMiddleware.ProcessSpiderOutput: the generator is lazy and runs once. The model runs it to the end. The base case runs at call time, before any candidate is filtered, as in the source.
- Requests are values, not shared objects. A request object yielded twice, or aliased elsewhere, would be stamped twice in the source; the model has no aliasing.
- Request `meta` holds only integer values. `depth` is the only key either component reads.
- DepthMiddlewares.DepthMiddleware.FromSettings: `getint`/`getbool` parsing of setting strings is not modelled. The settings arrive already typed.

## Findings

| source | as written | input that shows it | evidently intended | confidence | as-written member | corrected member |
|---|---|---|---|---|---|---|
| scrapy/contrib/spidermiddleware/depth.py:47 | reads `response.request.meta['depth']` with no default; the default of 0 is set (lines 61-63) only when statistics are on | `DEPTH_STATS` off, and a start response whose request has no `depth`, yielding one `Request`: KeyError at line 47 | a parent without a depth counts as depth 0, so its children are at depth 1, with or without statistics | not executed | DepthMiddlewares.MissingDepthRaisesWithoutStats | DepthMiddlewares.RootChildrenAtDepthOne |
