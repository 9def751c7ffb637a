# tnt_app data layer, modelled in Dafny

tnt_app is a small web application that keeps its records in Google Sheets. Its
`models/` package sits between the routes and the spreadsheet. This model covers five of its files:

- **cache.py**, an in-process cache. It holds one `CacheEntry` per worksheet: the rows,
  when they were fetched, and an estimate of their size. A `CacheManager` keeps the
  entries in a dict under the worksheet's name.
- **data.py**, the write-through data layer. Inserting or updating a record writes the
  worksheet first and the cache entry second. It then triggers background refreshes of
  the tables that depend on the written one, as listed in `INVALIDATION_MAP`.
- **metrics.py**, API call bookkeeping:
  - counters for reads, writes, bytes, cache hits and misses, and rate-limit errors;
  - a log of the last 100 calls;
  - a report with the hit rate and last-minute windows.
- **utils.py**, helpers: a header-column lookup and lenient date comparison.
- **test_mode.py**, a switch that simulates rate limiting.

The Dafny project mirrors that layout:

| file | module | contents |
|---|---|---|
| `wrappers.dfy` | `Wrappers` | `Option`, `Result` |
| `seqs.dfy` | `Seqs` | duplicate-free sequences, removal, filtering |
| `records.dfy` | `Records` | cell values, records as maps, `dict.update`, first match |
| `utils.dfy` | `Utils` | `list.index`, `find_column_index`, date matching |
| `cache.dfy` | `Cache` | `CacheEntry` and `CacheManager` classes, plus the value-level effect of each write |
| `data.dfy` | `Data` | the `DataLayer` class over a modelled remote spreadsheet and a trace of its calls |
| `metrics.dfy` | `Metrics` | the `ApiMetrics` class, tied to the full call history by counter and log invariants |
| `test_mode.dfy` | `TestMode` | the `RateLimitSimulation` flag |

The model stands in for things outside these files as follows:

- **Clock.** Wall-clock readings are integer parameters. `now` is `time.time()`. `stamp`
  is the same moment already formatted by `strftime`.
- **Row size.** The size of a row's JSON text is a caller-supplied function
  `size: Record -> Pos`, which is always positive.
- **Spreadsheet.** The remote spreadsheet is a map from worksheet name to a grid: a header
  row plus rows of cells, kept well formed.
- **Call order.** The order of the layer's calls to the worksheet, the cache and the
  refresh trigger is recorded in `trace`.

## Model

| member | source | states |
|---|---|---|
| Utils.IndexOf | models/utils.py:6-9 | `list.index`: the first position of the element, and `None` exactly when it is absent |
| Utils.FindColumnIndex | models/utils.py:3-9 | the 1-based column of the first header equal to the name; `None` exactly when no header matches |
| Utils.ReplaceZulu | models/utils.py:15 | after `replace('Z', '+00:00')` no `Z` remains, a `T` is present exactly when it was, and the string does not shrink |
| Utils.ParseDateString | models/utils.py:11-18 | a value with a `T` goes to the ISO parser after `Z` is replaced; any other value goes to the readable-format parser |
| Utils.DatesMatch | models/utils.py:20-30 | false when either value is missing or empty; otherwise the two parsed dates are compared when both parse, and the raw strings when either parser fails |
| Utils.DatesMatchSymmetric | models/utils.py:20-30 | argument order does not matter |
| Utils.DatesMatchReflexive | models/utils.py:25-30 | every non-empty value matches itself, whether it parses or falls back to string equality |
| Utils.DatesMatchAcrossFormats | models/utils.py:11-18 | an ISO timestamp and a readable date that parse to the same day match |
| Records.ApplyIsMerge | models/cache.py:78 | `row.update(updates)` is a dict merge: updated fields take the update's last value, the others keep theirs, and the updated fields are exactly those named |
| Records.FirstMatch | models/cache.py:76-81 | the lowest index whose row satisfies the predicate; `None` exactly when no row does |
| Cache.AppendedTo | models/cache.py:59-67 | an append grows only the named entry: it gains the row at its end, its size grows by exactly the row's size, and it is re-stamped; no entry is created, and a missing name changes nothing |
| Cache.UpdatedIn | models/cache.py:69-84 | an update rewrites only the first matching row of the named entry, merging the updates into it, and re-stamps that entry; other rows, the size and other entries stay; a missing entry or no match changes nothing |
| Cache.Invalidated | models/cache.py:86-92 | a non-empty name drops that key alone; `None` and the empty name drop every entry; surviving entries are unchanged |
| Cache.InvalidateIdempotent | models/cache.py:86-92 | invalidating twice equals invalidating once |
| Cache.CacheEntry.constructor | models/cache.py:7-12 | the entry holds the given rows, timestamp and size |
| Cache.CacheEntry.Age | models/cache.py:14-16 | the age is the time since the stamp, so stamp plus age is `now`, and it is non-negative exactly when `now` is not before the stamp |
| Cache.CacheEntry.IsStale | models/cache.py:18-20 | stale exactly when the age has reached the TTL |
| Cache.CacheEntry.IsFresh | models/cache.py:14-24 | an entry is fresh exactly when its age is below the TTL, and exactly when it is not stale |
| Cache.FreshnessIsMonotone | models/cache.py:18-24 | as time passes a stale entry stays stale and a fresh one was fresh earlier |
| Cache.CacheEntry.MarkFresh | models/cache.py:26-28 | only the timestamp changes, to `now` |
| Cache.CacheEntry.AddRow | models/cache.py:30-34 | the row is appended, the size grows by the row's size (so strictly) and the entry is re-stamped |
| Cache.CacheManager.constructor | models/cache.py:40-41 | the cache starts empty |
| Cache.CacheManager.Get | models/cache.py:43-45 | an entry is returned exactly when the name is cached, and it is that name's entry |
| Cache.CacheManager.Has | models/cache.py:47-49 | true exactly when the name is cached |
| Cache.CacheManager.Set | models/cache.py:51-57 | the name maps to a newly allocated entry stamped `now`; every other name keeps its own entry object; a new name goes last in key order |
| Cache.CacheManager.Store | models/cache.py:53 | dict assignment: the map is the old one with the name bound to the given entry object, and the key order follows dict insertion order |
| Cache.CacheManager.AppendRow | models/cache.py:59-67 | answers whether the name was cached; the cache becomes `AppendedTo` of its old value; keys and order are kept |
| Cache.CacheManager.UpdateRow | models/cache.py:69-84 | answers whether the entry exists and some row matched; the cache becomes `UpdatedIn` of its old value |
| Cache.CacheManager.Invalidate | models/cache.py:86-92 | the cache becomes `Invalidated` of its old value; the entry map loses that name, keeping every other entry object, or is emptied; the key order follows |
| Cache.CacheManager.Remove | models/cache.py:89-90 | `del` drops the key from the entry map, the contents and the key order; every other entry object stays |
| Cache.CacheManager.Keys | models/cache.py:94-96 | every cached name exactly once, in insertion order |
| Cache.CacheManager.Clear | models/cache.py:102-104 | the cache becomes empty |
| Data.RowRecord | models/data.py:113 | a row read back as a record: every header is a field, holding the cell under its first occurrence, or '' past the end of a short row |
| Data.AllRecords | models/data.py:113 | `get_all_records` gives one record per row below the header |
| Data.FindFirst | models/data.py:116-117 | the search loop finds the first record that matches, as `FirstMatch` defines it |
| Data.Project | models/data.py:101 | the row has one cell per header, holding the record's value for it or '' |
| Data.ProjectReadsBack | models/data.py:101-102 | an appended row reads back as the record restricted to the header fields, with '' for missing ones |
| Data.Stamped | models/data.py:95-96 | the timestamp field is added only when absent; existing fields, including a caller's own timestamp, are kept |
| Data.DependentsAre | models/data.py:135-140 | the refreshed tables are the table's list filtered by "is not the table", so in map order and with duplicates kept; as members, exactly the listed dependents other than the table; an unlisted table refreshes nothing |
| Data.WritableIsFilter | models/data.py:120-125 | the updates that get written are the updates filtered by "names a header", in dict order |
| Data.CellWritesAddressWritable | models/data.py:120-125 | one `update_cell` per update whose field is a header, in order, at the header's 1-based column; other fields are skipped |
| Data.CellWriteReadsBack | models/data.py:123 | writing one cell changes exactly that field of the row's record |
| Data.WrittenRow | models/data.py:120-125 | cell writes keep the row at header width |
| Data.WrittenRowIsUpdate | models/data.py:120-125 | after the cell writes, the remote record is the old record with the writable updates merged in |
| Data.DataLayer.constructor | models/data.py:8-23 | the layer holds the given cache, spreadsheet and invalidation map, with an empty trace |
| Data.DataLayer.SheetAppendRow | models/data.py:102 | the row is added under the worksheet's rows and traced; the cache is untouched |
| Data.DataLayer.SheetUpdateCellAt | models/data.py:123 | one cell of the grid is set and the write is traced |
| Data.DataLayer.RefreshRelated | models/data.py:135-140 | one refresh trigger per dependent, in order, skipping the table itself |
| Data.DataLayer.InsertRecord | models/data.py:93-107 | a missing worksheet or a rejected append fails with nothing changed; otherwise the stamped record is answered, its header-order row is appended remotely, the cache mirrors it, and the trace is append, cache append, then refreshes |
| Data.DataLayer.InsertAccepted | models/data.py:98-107 | the successful half of `InsertRecord` |
| Data.DataLayer.MirrorInsert | models/data.py:104-105 | the cache becomes `AppendedTo` of its old value, then the refreshes follow; the spreadsheet is untouched |
| Data.DataLayer.WriteCells | models/data.py:118-125 | the matched row becomes `WrittenRow` of its updates; the trace gains exactly `CellWrites` at row `index + 2`; the cache is untouched |
| Data.DataLayer.MirrorUpdate | models/data.py:127-128 | the cache becomes `UpdatedIn` of its old value, then the refreshes follow; the spreadsheet is untouched |
| Data.DataLayer.UpdateRecord | models/data.py:110-132 | a missing worksheet fails; no matching record answers false with nothing changed; otherwise the first match's cells are written, the cache mirrors the update, the refreshes follow, and it answers true |
| Data.DataLayer.UpdateMatched | models/data.py:117-130 | the successful half of `UpdateRecord`, for the index of the first match |
| Data.DataLayer.InsertCompletedSection | models/data.py:69-71 | `InsertRecord` on the completed-sections table |
| Data.DataLayer.InsertAttendanceEntry | models/data.py:74-76 | `InsertRecord` on the attendance-entries table |
| Data.DataLayer.UpdateCompletedSection | models/data.py:79-81 | `UpdateRecord` on the completed-sections table |
| Data.DataLayer.UpdateAttendanceEntry | models/data.py:84-86 | `UpdateRecord` on the attendance-entries table |
| Metrics.Bump | models/metrics.py:38-46 | a cache-served call is one more hit; a non-cache read is one more miss and read, plus its size when given and non-zero; anything else is one more write |
| Metrics.GroupsPartition | models/metrics.py:38-46 | every call falls in exactly one of hit, miss and write |
| Metrics.TallyCountsGroups | models/metrics.py:38-46 | after any history, hits, misses and writes are the calls of their group, reads equal misses, and the bytes are the sum of the misses' sizes |
| Metrics.CountersAddUp | models/metrics.py:38-46 | hits + misses + writes equals the number of calls, and reads equal misses |
| Metrics.Recent | models/metrics.py:13 | the bounded log holds min(calls, 100) entries |
| Metrics.RecentIsSuffix | models/metrics.py:13 | the bounded log is the latest calls, oldest first, ending with the last one |
| Metrics.Push | models/metrics.py:36 | the call goes at the right end; a full log drops its oldest entry and stays at 100; a short one keeps all it had |
| Metrics.RecentSnoc | models/metrics.py:36 | pushing onto the log of a history gives the log of the longer history |
| Metrics.HitRate | models/metrics.py:82-83 | 0 with no requests; otherwise `rate * (hits + misses) == hits * 100`; always between 0 and 100 |
| Metrics.ApiMetrics.constructor | models/metrics.py:6-14 | all counters zero, an empty log and no calls |
| Metrics.ApiMetrics.LogApiCall | models/metrics.py:25-46 | the call joins the history and the bounded log; the counters are bumped for its group; the invariant tying counters and log to the history is kept; rate-limit errors are unchanged |
| Metrics.ApiMetrics.CountCall | models/metrics.py:38-46 | the counters go from `c` to `Bump(c)` |
| Metrics.ApiMetrics.LogRateLimitError | models/metrics.py:60-64 | one more rate-limit error; nothing else changes |
| Metrics.ApiMetrics.GetMetrics | models/metrics.py:73-101 | the report has: the window `LastMinute` of the log, in log order, duplicates kept; google and cache counts and google bytes over that window, which never exceed it; the totals as kept; the hit rate; the cached names, or [] |
| Metrics.WindowCountsEveryCall | models/metrics.py:77-78 | the window keeps every occurrence of a recent call and drops every older one; its google filter keeps every occurrence of a recent google call; so equal calls logged in the same second are counted once each |
| Metrics.LastMinute | models/metrics.py:76-77 | the window holds only calls of the log made after `now - 60`, and holds every such call; it is never longer than the log |
| Metrics.FromSource | models/metrics.py:78-79 | the calls served from a source: only those, and all of them |
| Metrics.SizeSum | models/metrics.py:80 | the byte sum of the window, with a missing size counted as 0, is never negative when no size is |
| Metrics.SizeSumAppend | models/metrics.py:80 | the byte sum of two parts of a log is the sum of the parts' sums |
| Metrics.LastMinuteBounded | models/metrics.py:75-79 | the last-minute google and cache counts never exceed the log's 100 slots |
| Seqs.Filter | models/metrics.py:77 | a list comprehension with a filter keeps only satisfying elements, every satisfying element appears, and the result never grows |
| Seqs.FilterMultiset | models/metrics.py:77 | each satisfying element is kept as many times as it occurs, and no other element is kept |
| Seqs.WithoutIsFilter | models/data.py:139 | skipping the table itself is the same order-keeping filter as `Filter` with "is not the table" |
| Seqs.FilterAppend | models/metrics.py:77 | filtering keeps the original order: filtering a concatenation concatenates the filtered parts |
| Seqs.DisjointFilters | models/metrics.py:78-79 | two filters that never both hold select at most the whole list between them |
| TestMode.RateLimitSimulation.constructor | models/test_mode.py:3 | simulation starts disabled |
| TestMode.RateLimitSimulation.Set | models/test_mode.py:5-11 | the flag becomes the given value, which is answered |
| TestMode.RateLimitSimulation.Get | models/test_mode.py:13-15 | answers the flag's current value |

## Left out

- The read path `get_sheet_data`/`get_worksheet` is not modelled: stale-while-revalidate,
  TTLs, background refresh threads and the scheduler. data.py imports these from
  `models.sheets`, and their code is not part of the modelled text. The seven `get_*`
  readers of data.py only delegate to it, so they are left out too.
- `CacheManager.items` returns a live view of the dict. The model has no iterator type; the
  contents are read through `Contents()`.
- `_format_bytes`, the `%`-formatted hit rate and every formatted string in the report
  involve floating point and text formatting. The report keeps the integer counts and a
  real-valued hit rate.
- Console logging is omitted: every `print`, `log_cache_invalidation` (which only prints)
  and the last-minute figures `log_api_call` computes only to print them.
- Time is an integer parameter, not a float. `strftime`, `json.dumps` sizes and the two date
  parsers are parameters supplied by the caller.
- Aliasing of the caller's objects is not modelled:
  - `_insert_record` stamps the caller's own dict, even when the append then fails;
  - the cache stores that same dict;
  - `update_row` mutates the `row` dict in place.
  The model works on values instead.
- Remote failures are reduced to a missing worksheet and a rejected append. An
  `update_cell` failing partway through the loop, and exceptions raised by `match_fn`, are
  not modelled.
- gspread's value conversion (numericising cells, padding short rows) is not modelled.
  Worksheets are kept well formed instead: distinct headers and full-width rows.
- Data.DataLayer.RefreshRelated: `_trigger_background_refresh` is recorded as a trace entry.
  The function is imported from `models.sheets`, and its code is not part of the modelled
  text.
- Metrics.Recent: its own contract states only the length; which calls it holds is stated
  by `RecentIsSuffix`.
- Metrics.ApiMetrics.GetMetrics: `cached_sheets` is the caller's `cache_keys` passed through.
  Python's `cache_keys or []` maps both `None` and an empty list to `[]`, and the model does
  the same.
