/**
 * The API metrics bookkeeping: every logged call lands in exactly one counter
 * group and in a bounded log of the most recent calls, and the report derives
 * windowed counts from that log.
 */
module Metrics {
  import opened Wrappers
  import opened Seqs

  /** The bounded log keeps the last 100 calls (`deque(maxlen=100)`). */
  const Capacity := 100

  /** Calls older than this many seconds fall outside "the last minute". */
  const Window := 60

  /** One entry of `recent_calls`: when, what, on which sheet, how large, served from where. */
  datatype CallRecord = CallRecord(time: int, stamp: string, operation: string, sheet: string,
                                   sizeBytes: Option<int>, source: string)

  /** The counter group a call falls in. */
  datatype Group = Hit | Miss | Write

  /** A cache-served call is a hit; otherwise a read is a miss and anything else a write. */
  function GroupOf(c: CallRecord): Group
  {
    if c.source == "cache" then Hit else if c.operation == "read" then Miss else Write
  }

  /** The bytes a call adds to `total_bytes`: the size of a miss, when given and non-zero. */
  function BytesOf(c: CallRecord): int
  {
    if GroupOf(c) == Miss && c.sizeBytes.Some? && c.sizeBytes.value != 0 then c.sizeBytes.value else 0
  }

  /** How many calls of `h` fall in group `g`. */
  function CountIn(h: seq<CallRecord>, g: Group): nat
    decreases |h|
  {
    if h == [] then 0
    else CountIn(h[..|h| - 1], g) + (if GroupOf(h[|h| - 1]) == g then 1 else 0)
  }

  /** The total of `BytesOf` over `h`. */
  function BytesIn(h: seq<CallRecord>): int
    decreases |h|
  {
    if h == [] then 0 else BytesIn(h[..|h| - 1]) + BytesOf(h[|h| - 1])
  }

  /** Every call falls in exactly one group, so the three counts add up to the number of calls. */
  lemma {:induction false} GroupsPartition(h: seq<CallRecord>)
    ensures CountIn(h, Hit) + CountIn(h, Miss) + CountIn(h, Write) == |h|
    decreases |h|
  {
    if h != [] {
      GroupsPartition(h[..|h| - 1]);
    }
  }

  /** The five counters of `_metrics` that `log_api_call` moves. */
  datatype Counters = Counters(totalReads: nat, totalWrites: nat, totalBytes: int, cacheHits: nat, cacheMisses: nat)

  /** The counters before any call. */
  const NoCalls := Counters(0, 0, 0, 0, 0)

  /**
   * The counter update of `log_api_call`: a cache-served call is a hit; a read
   * from the remote store is a miss and a read, and adds its size when one is
   * given and non-zero; anything else is a write.
   */
  function Bump(t: Counters, c: CallRecord): (r: Counters)
    ensures c.source == "cache" ==> r == t.(cacheHits := t.cacheHits + 1)
    ensures c.source != "cache" && c.operation == "read" ==>
      r == t.(cacheMisses := t.cacheMisses + 1, totalReads := t.totalReads + 1,
              totalBytes := t.totalBytes + (if c.sizeBytes.Some? && c.sizeBytes.value != 0 then c.sizeBytes.value else 0))
    ensures c.source != "cache" && c.operation != "read" ==> r == t.(totalWrites := t.totalWrites + 1)
  {
    if c.source == "cache" then t.(cacheHits := t.cacheHits + 1)
    else if c.operation == "read" then
      t.(cacheMisses := t.cacheMisses + 1, totalReads := t.totalReads + 1, totalBytes := t.totalBytes + BytesOf(c))
    else t.(totalWrites := t.totalWrites + 1)
  }

  /** The counters after the calls `h`, one `Bump` per call. */
  function TallyOf(h: seq<CallRecord>): Counters
    decreases |h|
  {
    if h == [] then NoCalls else Bump(TallyOf(h[..|h| - 1]), h[|h| - 1])
  }

  /** One more call is one more `Bump`. */
  lemma TallyOfSnoc(h: seq<CallRecord>, c: CallRecord)
    ensures TallyOf(h + [c]) == Bump(TallyOf(h), c)
  {
    assert (h + [c])[..|h|] == h;
  }

  /**
   * The counters count the groups: hits and misses are the calls of their group,
   * every miss is a read, writes are the rest, and the bytes are the misses' sizes.
   */
  lemma {:induction false} TallyCountsGroups(h: seq<CallRecord>)
    ensures TallyOf(h).cacheHits == CountIn(h, Hit)
    ensures TallyOf(h).cacheMisses == CountIn(h, Miss)
    ensures TallyOf(h).totalReads == CountIn(h, Miss)
    ensures TallyOf(h).totalWrites == CountIn(h, Write)
    ensures TallyOf(h).totalBytes == BytesIn(h)
    decreases |h|
  {
    if h != [] {
      TallyCountsGroups(h[..|h| - 1]);
    }
  }

  /** Every call moves exactly one of the hit, miss and write counters, so together they count the calls. */
  lemma CountersAddUp(h: seq<CallRecord>)
    ensures TallyOf(h).cacheHits + TallyOf(h).cacheMisses + TallyOf(h).totalWrites == |h|
    ensures TallyOf(h).totalReads == TallyOf(h).cacheMisses
  {
    TallyCountsGroups(h);
    GroupsPartition(h);
  }

  /** What a log of at most `Capacity` slots holds after the calls `h`: their last `Capacity`. */
  function Recent(h: seq<CallRecord>): (r: seq<CallRecord>)
    ensures |r| == if |h| <= Capacity then |h| else Capacity
  {
    if |h| <= Capacity then h else h[|h| - Capacity..]
  }

  /** The bounded log holds the most recent calls, oldest first, the latest one last. */
  lemma RecentIsSuffix(h: seq<CallRecord>)
    ensures forall i :: 0 <= i < |Recent(h)| ==> Recent(h)[i] == h[|h| - |Recent(h)| + i]
    ensures h != [] ==> Recent(h)[|Recent(h)| - 1] == h[|h| - 1]
  {
  }

  /** `deque.append` on a bounded deque: add `c` at the right, dropping the leftmost when full. */
  function Push(w: seq<CallRecord>, c: CallRecord): (r: seq<CallRecord>)
    ensures |w| <= Capacity ==> |r| <= Capacity
    ensures |r| > 0 && r[|r| - 1] == c
    ensures |w| < Capacity ==> r[..|r| - 1] == w
    ensures |w| == Capacity ==> |r| == Capacity && r[..|r| - 1] == w[1..]
  {
    var kept := if |w| >= Capacity then w[|w| - Capacity + 1..] else w;
    assert (kept + [c])[..|kept|] == kept;
    kept + [c]
  }

  /** Pushing onto the bounded log of `h` gives the bounded log of `h + [c]`. */
  lemma {:induction false} RecentSnoc(h: seq<CallRecord>, c: CallRecord)
    ensures Recent(h + [c]) == Push(Recent(h), c)
  {
    if |h| >= Capacity {
      assert (h + [c])[|h| + 1 - Capacity..] == h[|h| + 1 - Capacity..] + [c];
      assert h[|h| - Capacity..][1..] == h[|h| + 1 - Capacity..];
    }
  }

  /** The calls of `calls` made strictly after `now - 60`, in log order. */
  function LastMinute(calls: seq<CallRecord>, now: int): (r: seq<CallRecord>)
    ensures |r| <= |calls|
    ensures forall i :: 0 <= i < |r| ==> r[i] in calls && r[i].time > now - Window
    ensures forall i :: 0 <= i < |calls| && calls[i].time > now - Window ==> calls[i] in r
  {
    Filter(calls, (c: CallRecord) => c.time > now - Window)
  }

  /** The calls of `calls` served from `source`, in log order. */
  function FromSource(calls: seq<CallRecord>, source: string): (r: seq<CallRecord>)
    ensures |r| <= |calls|
    ensures forall i :: 0 <= i < |r| ==> r[i] in calls && r[i].source == source
    ensures forall i :: 0 <= i < |calls| && calls[i].source == source ==> calls[i] in r
  {
    Filter(calls, (c: CallRecord) => c.source == source)
  }

  /** The size a call contributes to a byte sum: its size, or 0 when none was given. */
  function SizeOf(c: CallRecord): int
  {
    if c.sizeBytes.Some? then c.sizeBytes.value else 0
  }

  /** `sum(c.get('size_bytes') or 0 for c in calls)`; never negative when no size is. */
  function SizeSum(calls: seq<CallRecord>): (r: int)
    ensures (forall i :: 0 <= i < |calls| ==> SizeOf(calls[i]) >= 0) ==> r >= 0
    decreases |calls|
  {
    if calls == [] then 0
    else SizeSum(calls[..|calls| - 1]) + SizeOf(calls[|calls| - 1])
  }

  /** A byte sum over two parts of a log is the sum of the parts' sums. */
  lemma {:induction false} SizeSumAppend(a: seq<CallRecord>, b: seq<CallRecord>)
    ensures SizeSum(a + b) == SizeSum(a) + SizeSum(b)
    decreases |b|
  {
    if b == [] {
      assert a + b == a;
    } else {
      var init := b[..|b| - 1];
      SizeSumAppend(a, init);
      assert (a + b)[..|a + b| - 1] == a + init;
    }
  }

  /** `hits / (hits + misses) * 100`, or 0 when there were no requests. */
  function HitRate(hits: nat, misses: nat): (rate: real)
    ensures hits + misses == 0 ==> rate == 0.0
    ensures hits + misses > 0 ==> rate * (hits + misses) as real == hits as real * 100.0
    ensures 0.0 <= rate <= 100.0
  {
    if hits + misses > 0 then
      var rate := hits as real / (hits + misses) as real * 100.0;
      assert rate * (hits + misses) as real == hits as real * 100.0;
      rate
    else 0.0
  }

  /** The integer and list parts of the `get_metrics` report. */
  datatype Report = Report(
    totalGoogleReads: nat, totalWrites: nat, totalBytes: int,
    cacheHits: nat, cacheMisses: nat, cacheHitRate: real,
    rateLimitErrors: nat, simulateRateLimit: bool,
    googleCallsLastMinute: nat, cacheHitsLastMinute: nat, bytesLastMinute: int,
    cachedSheets: seq<string>, recentCalls: seq<CallRecord>)

  /** The module-level `_metrics` state. */
  class ApiMetrics {
    var totalReads: nat
    var totalWrites: nat
    var totalBytes: int
    var cacheHits: nat
    var cacheMisses: nat
    var rateLimitErrors: nat
    var recentCalls: seq<CallRecord>
    /** Every call ever logged, oldest first. */
    ghost var history: seq<CallRecord>

    /** The counters of `log_api_call` as one value. */
    function Counts(): Counters
      reads this
    {
      Counters(totalReads, totalWrites, totalBytes, cacheHits, cacheMisses)
    }

    /** The counters and the log are exactly what the logged calls imply. */
    ghost predicate Valid()
      reads this
    {
      recentCalls == Recent(history) && Counts() == TallyOf(history)
    }

    /** The initial `_metrics`: all counters zero, no calls. */
    constructor ()
      ensures Valid() && history == [] && rateLimitErrors == 0
    {
      totalReads, totalWrites, totalBytes := 0, 0, 0;
      cacheHits, cacheMisses, rateLimitErrors := 0, 0, 0;
      recentCalls := [];
      history := [];
    }

    /**
     * `log_api_call`: records the call in the bounded log and bumps the counters of
     * its group. `now` and `stamp` are the clock reading and its `%H:%M:%S` text.
     */
    method LogApiCall(operation: string, sheet: string, sizeBytes: Option<int>, source: string,
                      now: int, stamp: string)
      requires Valid()
      modifies this
      ensures Valid()
      ensures history == old(history) + [CallRecord(now, stamp, operation, sheet, sizeBytes, source)]
      ensures recentCalls == Push(old(recentCalls), CallRecord(now, stamp, operation, sheet, sizeBytes, source))
      ensures Counts() == Bump(old(Counts()), CallRecord(now, stamp, operation, sheet, sizeBytes, source))
      ensures rateLimitErrors == old(rateLimitErrors)
    {
      var c := CallRecord(now, stamp, operation, sheet, sizeBytes, source);
      RecentSnoc(history, c);
      TallyOfSnoc(history, c);
      recentCalls := Push(recentCalls, c);
      history := history + [c];
      CountCall(c);
    }

    /** The branches of `log_api_call` that pick and bump the counters of the call's group. */
    method CountCall(c: CallRecord)
      modifies this`cacheHits, this`cacheMisses, this`totalReads, this`totalBytes, this`totalWrites
      ensures Counts() == Bump(old(Counts()), c)
    {
      if c.source == "cache" {
        cacheHits := cacheHits + 1;
      } else if c.operation == "read" {
        cacheMisses := cacheMisses + 1;
        totalReads := totalReads + 1;
        if c.sizeBytes.Some? && c.sizeBytes.value != 0 {
          totalBytes := totalBytes + c.sizeBytes.value;
        }
      } else {
        totalWrites := totalWrites + 1;
      }
    }

    /** `log_rate_limit_error`: one more rate-limit error, simulated or not; nothing else changes. */
    method LogRateLimitError(sheet: string, simulated: bool)
      requires Valid()
      modifies this`rateLimitErrors
      ensures Valid()
      ensures rateLimitErrors == old(rateLimitErrors) + 1
    {
      rateLimitErrors := rateLimitErrors + 1;
    }

    /**
     * `get_metrics`: the counters, the hit rate, and the calls of the last minute
     * split by source. `now` is the clock reading; `cacheKeys` the cached sheet names.
     */
    function GetMetrics(cacheKeys: Option<seq<string>>, simulate: bool, now: int): (r: Report)
      reads this
      ensures r.recentCalls == LastMinute(recentCalls, now)
      ensures r.googleCallsLastMinute == |FromSource(r.recentCalls, "google")|
      ensures r.cacheHitsLastMinute == |FromSource(r.recentCalls, "cache")|
      ensures r.bytesLastMinute == SizeSum(FromSource(r.recentCalls, "google"))
      ensures r.googleCallsLastMinute + r.cacheHitsLastMinute <= |r.recentCalls| <= |recentCalls|
      ensures r.totalGoogleReads == totalReads && r.totalWrites == totalWrites && r.totalBytes == totalBytes
      ensures r.cacheHits == cacheHits && r.cacheMisses == cacheMisses && r.rateLimitErrors == rateLimitErrors
      ensures r.cacheHitRate == HitRate(cacheHits, cacheMisses)
      ensures r.cachedSheets == if cacheKeys.Some? then cacheKeys.value else []
      ensures r.simulateRateLimit == simulate
    {
      var recent := LastMinute(recentCalls, now);
      var google := FromSource(recent, "google");
      var cached := FromSource(recent, "cache");
      DisjointFilters(recent, (c: CallRecord) => c.source == "google", (c: CallRecord) => c.source == "cache");
      Report(totalReads, totalWrites, totalBytes, cacheHits, cacheMisses, HitRate(cacheHits, cacheMisses),
             rateLimitErrors, simulate, |google|, |cached|, SizeSum(google),
             if cacheKeys.Some? then cacheKeys.value else [], recent)
    }
  }

  /**
   * The report's window keeps every occurrence of a recent call, so equal calls
   * logged in the same second are all counted, and the google count counts each
   * google call of the window once per occurrence.
   */
  lemma WindowCountsEveryCall(m: ApiMetrics, cacheKeys: Option<seq<string>>, simulate: bool, now: int)
    ensures forall c ::
      multiset(m.GetMetrics(cacheKeys, simulate, now).recentCalls)[c] ==
      (if c.time > now - Window then multiset(m.recentCalls)[c] else 0)
    ensures forall c ::
      multiset(FromSource(m.GetMetrics(cacheKeys, simulate, now).recentCalls, "google"))[c] ==
      (if c.source == "google" && c.time > now - Window then multiset(m.recentCalls)[c] else 0)
  {
    var r := m.GetMetrics(cacheKeys, simulate, now);
    FilterMultiset(m.recentCalls, (c: CallRecord) => c.time > now - Window);
    FilterMultiset(r.recentCalls, (c: CallRecord) => c.source == "google");
  }

  /** The last-minute counts come from the bounded log, so neither exceeds its 100 slots. */
  lemma LastMinuteBounded(m: ApiMetrics, cacheKeys: Option<seq<string>>, simulate: bool, now: int)
    requires m.Valid()
    ensures m.GetMetrics(cacheKeys, simulate, now).googleCallsLastMinute <= Capacity
    ensures m.GetMetrics(cacheKeys, simulate, now).cacheHitsLastMinute <= Capacity
  {
  }
}
