/** The depth spider middleware: stamps every request a response produced with its depth, shifts its
    priority by depth times a weight, drops it beyond the depth limit, and keeps depth statistics. */
module DepthMiddlewares {
  import opened Wrappers
  import opened Requests
  import opened Stats
  import Text

  const DepthKey := "depth"
  const DepthMaxKey := "request_depth_max"

  /** 'request_depth_count/%s' % depth */
  function DepthCountKey(depth: int): string {
    "request_depth_count/" + Text.IntToString(depth)
  }

  /** What a spider callback yields: requests, and anything else (scraped items). */
  datatype Output = Req(request: Request) | NonRequest(value: string)

  /** `result or ()`: no result is an empty one. */
  function Candidates(result: Option<seq<Output>>): seq<Output> {
    match result
    case None => []
    case Some(items) => items
  }

  /** depth.py lines 48-50: the request now carries its depth, and its priority moves by depth * prio.
      Nothing else about it changes. */
  function Stamp(prio: int, depth: int, r: Request): (s: Request)
    ensures s.meta == r.meta[DepthKey := depth]
    ensures s.priority == r.priority + depth * prio
    ensures s.(meta := r.meta, priority := r.priority) == r
  {
    var withDepth := r.(meta := r.meta[DepthKey := depth]);
    if prio != 0 then withDepth.(priority := r.priority + depth * prio) else withDepth
  }

  /** depth.py line 51: a limit of 0 means no limit. */
  predicate TooDeep(maxdepth: int, depth: int) {
    maxdepth != 0 && depth > maxdepth
  }

  function StampOutput(prio: int, depth: int, o: Output): Output {
    match o
    case Req(r) => Req(Stamp(prio, depth, r))
    case NonRequest(_) => o
  }

  /** _filter's verdict: only a request can be dropped, and only for its depth. */
  predicate Survives(maxdepth: int, depth: int, o: Output) {
    !(o.Req? && TooDeep(maxdepth, depth))
  }

  /** The candidates as _filter leaves them, dropped requests included. */
  function Stamped(prio: int, depth: int, items: seq<Output>): seq<Output> {
    if items == [] then []
    else Stamped(prio, depth, items[..|items| - 1]) + [StampOutput(prio, depth, items[|items| - 1])]
  }

  /** depth.py line 67: the generator's output, in input order. */
  function Survivors(maxdepth: int, prio: int, depth: int, items: seq<Output>): seq<Output> {
    if items == [] then []
    else
      var init := Survivors(maxdepth, prio, depth, items[..|items| - 1]);
      var last := items[|items| - 1];
      if Survives(maxdepth, depth, last) then init + [StampOutput(prio, depth, last)] else init
  }

  /** The candidates that are not requests. */
  function NonRequests(items: seq<Output>): seq<Output> {
    if items == [] then []
    else
      var init := NonRequests(items[..|items| - 1]);
      if items[|items| - 1].NonRequest? then init + [items[|items| - 1]] else init
  }

  function RequestCount(items: seq<Output>): nat {
    if items == [] then 0
    else RequestCount(items[..|items| - 1]) + (if items[|items| - 1].Req? then 1 else 0)
  }

  /** a is b with some elements left out, the rest in their order. */
  ghost predicate IsSubsequence<T>(a: seq<T>, b: seq<T>)
    decreases |b|
  {
    a == [] ||
    (b != [] &&
      ((a[|a| - 1] == b[|b| - 1] && IsSubsequence(a[..|a| - 1], b[..|b| - 1])) ||
       IsSubsequence(a, b[..|b| - 1])))
  }

  /** depth.py lines 56-58 for one surviving request. */
  function RecordDepth(verbose: bool, depth: int, m: Counters): Counters {
    var counted := if verbose then Inc(m, DepthCountKey(depth), 1) else m;
    Max(counted, DepthMaxKey, depth)
  }

  /** depth.py lines 55-58 over all candidates: a surviving request records its depth; nothing else does. */
  function StatsAfter(maxdepth: int, verbose: bool, depth: int, items: seq<Output>, m: Counters): Counters {
    if items == [] then m
    else
      var before := StatsAfter(maxdepth, verbose, depth, items[..|items| - 1], m);
      var last := items[|items| - 1];
      if last.Req? && Survives(maxdepth, depth, last) then RecordDepth(verbose, depth, before) else before
  }

  /** n surviving requests at one depth, recorded at once. */
  function RecordDepthTimes(verbose: bool, depth: int, n: nat, m: Counters): Counters {
    var counted := if verbose then Inc(m, DepthCountKey(depth), n) else m;
    Max(counted, DepthMaxKey, depth)
  }

  /** depth.py lines 62-63: with statistics on, a parent without a depth is given depth 0. */
  function ParentAfterBaseCase(statsOn: bool, parent: Request): Request {
    if statsOn && DepthKey !in parent.meta then parent.(meta := parent.meta[DepthKey := 0]) else parent
  }

  /** depth.py lines 64-65: that depth-0 parent is counted once when statistics are verbose. */
  function StatsAfterBaseCase(verbose: bool, parent: Request, m: Counters): Counters {
    if DepthKey !in parent.meta && verbose then Inc(m, DepthCountKey(0), 1) else m
  }

  /** depth.py line 47, corrected: the parent's depth, 0 for a parent that has none. It is what
      line 47 reads once the statistics-on base case has run, and it agrees with line 47 wherever
      line 47 does not raise. */
  function ParentDepth(parent: Request): (d: int)
    ensures ParentDepthAsWritten(ParentAfterBaseCase(true, parent)) == Success(d)
    ensures ParentDepthAsWritten(parent).Success? ==> d == ParentDepthAsWritten(parent).value
  {
    if DepthKey in parent.meta then parent.meta[DepthKey] else 0
  }

  // ---------------------------------------------------------------------------------------
  // What the filter does to each candidate

  /** Position by position, the stamped candidates are the candidates with each request stamped. */
  lemma {:induction false} StampedAt(prio: int, depth: int, items: seq<Output>, i: int)
    requires 0 <= i < |items|
    ensures |Stamped(prio, depth, items)| == |items|
    ensures Stamped(prio, depth, items)[i] == StampOutput(prio, depth, items[i])
    decreases |items|
  {
    var n := |items| - 1;
    if i < n {
      StampedAt(prio, depth, items[..n], i);
    } else if n > 0 {
      StampedAt(prio, depth, items[..n], 0);
    }
  }

  /** Either every request survives, stamped, or none does: all candidates of one response share a
      depth. Non-requests always pass through unchanged. */
  lemma {:induction false} SurvivorsAllOrNothing(maxdepth: int, prio: int, depth: int, items: seq<Output>)
    ensures !TooDeep(maxdepth, depth) ==> Survivors(maxdepth, prio, depth, items) == Stamped(prio, depth, items)
    ensures TooDeep(maxdepth, depth) ==> Survivors(maxdepth, prio, depth, items) == NonRequests(items)
    decreases |items|
  {
    if items != [] {
      SurvivorsAllOrNothing(maxdepth, prio, depth, items[..|items| - 1]);
    }
  }

  /** The output keeps the relative order of the candidates: filtering removes, never reorders. */
  lemma {:induction false} SurvivorsAreSubsequence(maxdepth: int, prio: int, depth: int, items: seq<Output>)
    ensures IsSubsequence(Survivors(maxdepth, prio, depth, items), Stamped(prio, depth, items))
    decreases |items|
  {
    if items != [] {
      var init := items[..|items| - 1];
      SurvivorsAreSubsequence(maxdepth, prio, depth, init);
      var out := Survivors(maxdepth, prio, depth, items);
      var st := Stamped(prio, depth, items);
      assert st[..|st| - 1] == Stamped(prio, depth, init);
      if Survives(maxdepth, depth, items[|items| - 1]) {
        assert out[..|out| - 1] == Survivors(maxdepth, prio, depth, init);
      } else {
        assert out == Survivors(maxdepth, prio, depth, init);
      }
    }
  }

  /** Every request in the output sits at the depth of this response's children. */
  lemma {:induction false} SurvivorsAtDepth(maxdepth: int, prio: int, depth: int, items: seq<Output>)
    ensures forall o :: o in Survivors(maxdepth, prio, depth, items) && o.Req? ==>
      DepthKey in o.request.meta && o.request.meta[DepthKey] == depth
    decreases |items|
  {
    if items != [] {
      SurvivorsAtDepth(maxdepth, prio, depth, items[..|items| - 1]);
    }
  }

  /** Every non-request candidate is in the output, unchanged and in order. */
  lemma {:induction false} NonRequestsPassThrough(maxdepth: int, prio: int, depth: int, items: seq<Output>)
    ensures NonRequests(Survivors(maxdepth, prio, depth, items)) == NonRequests(items)
    decreases |items|
  {
    if items != [] {
      var init := items[..|items| - 1];
      NonRequestsPassThrough(maxdepth, prio, depth, init);
      var out := Survivors(maxdepth, prio, depth, items);
      var last := items[|items| - 1];
      if Survives(maxdepth, depth, last) {
        assert out[..|out| - 1] == Survivors(maxdepth, prio, depth, init);
      }
    }
  }

  /** The statistics of one call: nothing when the requests are dropped or there are none;
      otherwise the depth's counter grows by the number of requests (when verbose) and the maximum
      depth seen becomes at least this depth. */
  lemma {:induction false} StatsAfterRecordsSurvivors(maxdepth: int, verbose: bool, depth: int,
                                                    items: seq<Output>, m: Counters)
    ensures StatsAfter(maxdepth, verbose, depth, items, m) ==
      if TooDeep(maxdepth, depth) || RequestCount(items) == 0 then m
      else RecordDepthTimes(verbose, depth, RequestCount(items), m)
    decreases |items|
  {
    if items != [] {
      var init := items[..|items| - 1];
      StatsAfterRecordsSurvivors(maxdepth, verbose, depth, init, m);
      var last := items[|items| - 1];
      var n := RequestCount(init);
      if last.Req? && !TooDeep(maxdepth, depth) && n > 0 {
        RecordAgain(verbose, depth, n, m);
      }
    }
  }

  /** Recording one more request after n at the same depth is recording n + 1. */
  lemma RecordAgain(verbose: bool, depth: int, n: nat, m: Counters)
    ensures RecordDepth(verbose, depth, RecordDepthTimes(verbose, depth, n, m))
         == RecordDepthTimes(verbose, depth, n + 1, m)
  {
    var c := DepthCountKey(depth);
    assert c[14] == 'c' && DepthMaxKey[14] == 'm';
    assert c != DepthMaxKey;
    var lhs := RecordDepth(verbose, depth, RecordDepthTimes(verbose, depth, n, m));
    var rhs := RecordDepthTimes(verbose, depth, n + 1, m);
    assert lhs.Keys == rhs.Keys;
    forall k | k in lhs
      ensures lhs[k] == rhs[k]
    {
    }
  }

  // ---------------------------------------------------------------------------------------
  // Priority selection

  /** DEPTH_LIMIT, DEPTH_STATS, DEPTH_STATS_VERBOSE, SCHEDULER_ORDER ("" when unset) and
      DEPTH_PRIORITY. */
  datatype Settings = Settings(
    depthLimit: int,
    depthStats: bool,
    depthStatsVerbose: bool,
    schedulerOrder: string,
    depthPriority: int)

  /** A SCHEDULER_ORDER other than BFO or DFO leaves `prio` unbound: UnboundLocalError. */
  datatype SettingsError = UnboundPriority(schedulerOrder: string)

  /** depth.py lines 26-37: the weight comes from the deprecated SCHEDULER_ORDER when it is set, from
      DEPTH_PRIORITY otherwise. */
  function PriorityWeight(s: Settings): (r: Result<int, SettingsError>)
    ensures r.Failure? <==> s.schedulerOrder !in {"", "BFO", "DFO"}
    ensures s.schedulerOrder == "" ==> r == Success(s.depthPriority)
  {
    if s.schedulerOrder != "" then
      if s.schedulerOrder == "BFO" then Success(1)
      else if s.schedulerOrder == "DFO" then Success(-1)
      else Failure(UnboundPriority(s.schedulerOrder))
    else Success(s.depthPriority)
  }

  /** A positive weight serves shallower requests first (lower numbers are served first). */
  lemma PositiveWeightServesShallowFirst(w: int, r: Request, d1: int, d2: int)
    requires w > 0 && d1 < d2
    ensures Stamp(w, d1, r).priority < Stamp(w, d2, r).priority
  {
    assert d2 * w - d1 * w == (d2 - d1) * w;
  }

  /** A negative weight serves deeper requests first. */
  lemma NegativeWeightServesDeepFirst(w: int, r: Request, d1: int, d2: int)
    requires w < 0 && d1 < d2
    ensures Stamp(w, d2, r).priority < Stamp(w, d1, r).priority
  {
    assert d1 * w - d2 * w == (d2 - d1) * (-w);
  }

  /** SCHEDULER_ORDER = 'BFO' crawls breadth-first, 'DFO' depth-first; with neither, a zero
      DEPTH_PRIORITY leaves priorities alone. */
  lemma SchedulerOrderSelectsTraversal(s: Settings, r: Request, d1: int, d2: int)
    requires d1 < d2
    ensures s.schedulerOrder == "BFO" ==>
      PriorityWeight(s) == Success(1) && Stamp(1, d1, r).priority < Stamp(1, d2, r).priority
    ensures s.schedulerOrder == "DFO" ==>
      PriorityWeight(s) == Success(-1) && Stamp(-1, d2, r).priority < Stamp(-1, d1, r).priority
    ensures s.schedulerOrder == "" ==> PriorityWeight(s) == Success(s.depthPriority)
    ensures s.schedulerOrder == "" && s.depthPriority == 0 ==>
      PriorityWeight(s) == Success(0) && Stamp(0, d1, r).priority == r.priority
  {
    PositiveWeightServesShallowFirst(1, r, d1, d2);
    NegativeWeightServesDeepFirst(-1, r, d1, d2);
  }

  // ---------------------------------------------------------------------------------------
  // depth.py line 47 as written

  /** KeyError: 'depth'. */
  datatype LookupError = MissingDepth

  /** depth.py line 47 as written: response.request.meta['depth'], with no default. */
  function ParentDepthAsWritten(parent: Request): Result<int, LookupError> {
    if DepthKey in parent.meta then Success(parent.meta[DepthKey]) else Failure(MissingDepth)
  }

  /** The generator as written: the first request it reaches raises when the parent has no depth. */
  function SurvivorsAsWritten(maxdepth: int, prio: int, parentAfter: Request, items: seq<Output>)
    : Result<seq<Output>, LookupError>
  {
    match ParentDepthAsWritten(parentAfter)
    case Success(pd) => Success(Survivors(maxdepth, prio, pd + 1, items))
    case Failure(e) => if RequestCount(items) == 0 then Success(items) else Failure(e)
  }

  /** With statistics off, the first response of a crawl has no depth, so as written its first
      request raises KeyError, where the corrected read gives that request depth 1. */
  lemma MissingDepthRaisesWithoutStats()
    ensures var r := Request("http://example.com/", "GET", "", 0, map[], false, NoCallback);
      var parentAfter := ParentAfterBaseCase(false, r);
      && SurvivorsAsWritten(0, 1, parentAfter, [Req(r)]) == Failure(MissingDepth)
      && Survivors(0, 1, ParentDepth(parentAfter) + 1, [Req(r)]) == [Req(Stamp(1, 1, r))]
  {
    var r := Request("http://example.com/", "GET", "", 0, map[], false, NoCallback);
    var items := [Req(r)];
    assert items[..0] == [];
  }

  /** The correction changes nothing whenever the source does not raise: with statistics on, or
      whenever the parent already carries a depth. */
  lemma CorrectionAgreesWhereSourceWorks(statsOn: bool, maxdepth: int, prio: int, parent: Request,
                                         items: seq<Output>)
    requires statsOn || DepthKey in parent.meta
    ensures var parentAfter := ParentAfterBaseCase(statsOn, parent);
      SurvivorsAsWritten(maxdepth, prio, parentAfter, items)
        == Success(Survivors(maxdepth, prio, ParentDepth(parentAfter) + 1, items))
  {
  }

  /** Corrected: the children of a response whose request has no depth are at depth 1, whether or
      not statistics are on. */
  lemma RootChildrenAtDepthOne(statsOn: bool, maxdepth: int, prio: int, parent: Request,
                               items: seq<Output>)
    requires DepthKey !in parent.meta
    ensures var depth := ParentDepth(ParentAfterBaseCase(statsOn, parent)) + 1;
      depth == 1 &&
      forall o :: o in Survivors(maxdepth, prio, depth, items) && o.Req? ==>
        DepthKey in o.request.meta && o.request.meta[DepthKey] == 1
  {
    SurvivorsAtDepth(maxdepth, prio, 1, items);
  }

  // ---------------------------------------------------------------------------------------
  // The middleware

  class DepthMiddleware {
    const maxdepth: int
    /** None when DEPTH_STATS is off. */
    const stats: StatsCollector?
    const verboseStats: bool
    const prio: int

    constructor (maxdepth: int, stats: StatsCollector? := null, verboseStats: bool := false, prio: int := 1)
      ensures this.maxdepth == maxdepth && this.stats == stats
      ensures this.verboseStats == verboseStats && this.prio == prio
    {
      this.maxdepth := maxdepth;
      this.stats := stats;
      this.verboseStats := verboseStats;
      this.prio := prio;
    }

    /** from_settings: the statistics collector is used only when DEPTH_STATS is on. */
    static method FromSettings(s: Settings, globalStats: StatsCollector)
      returns (r: Result<DepthMiddleware, SettingsError>)
      ensures PriorityWeight(s).Failure? ==> r == Failure(PriorityWeight(s).error)
      ensures PriorityWeight(s).Success? ==>
        && r.Success? && fresh(r.value)
        && r.value.maxdepth == s.depthLimit
        && r.value.stats == (if s.depthStats then globalStats else null)
        && r.value.verboseStats == s.depthStatsVerbose
        && r.value.prio == PriorityWeight(s).value
    {
      var weight := PriorityWeight(s);
      if weight.Failure? {
        return Failure(weight.error);
      }
      var st: StatsCollector? := if s.depthStats then globalStats else null;
      var mw := new DepthMiddleware(s.depthLimit, st, s.depthStatsVerbose, weight.value);
      r := Success(mw);
    }

    /** _filter: stamps one candidate and says whether it survives; records the depth of a
        surviving request when statistics are on. */
    method Filter(parent: Request, o: Output) returns (keep: bool, after: Output)
      modifies stats
      ensures after == StampOutput(prio, ParentDepth(parent) + 1, o)
      ensures keep == Survives(maxdepth, ParentDepth(parent) + 1, o)
      ensures stats != null ==>
        stats.values == if o.Req? && keep then RecordDepth(verboseStats, ParentDepth(parent) + 1, old(stats.values))
                        else old(stats.values)
    {
      keep, after := true, o;
      if o.Req? {
        var depth := ParentDepth(parent) + 1;
        after := Req(Stamp(prio, depth, o.request));
        if TooDeep(maxdepth, depth) {
          return false, after;
        } else if stats != null {
          if verboseStats {
            stats.IncValue(DepthCountKey(depth));
          }
          stats.MaxValue(DepthMaxKey, depth);
        }
      }
    }

    /** process_spider_output, run to the end: the parent as the base case leaves it, every
        candidate as _filter leaves it, and the surviving ones in order. */
    method ProcessSpiderOutput(parent: Request, result: Option<seq<Output>>)
      returns (parentAfter: Request, candidatesAfter: seq<Output>, out: seq<Output>)
      modifies stats
      ensures parentAfter == ParentAfterBaseCase(stats != null, parent)
      ensures out == Survivors(maxdepth, prio, ParentDepth(parentAfter) + 1, Candidates(result))
      ensures candidatesAfter == Stamped(prio, ParentDepth(parentAfter) + 1, Candidates(result))
      ensures stats != null ==>
        stats.values == StatsAfter(maxdepth, verboseStats, ParentDepth(parentAfter) + 1, Candidates(result),
                                   StatsAfterBaseCase(verboseStats, parent, old(stats.values)))
    {
      parentAfter := parent;
      if stats != null && DepthKey !in parent.meta {
        parentAfter := parent.(meta := parent.meta[DepthKey := 0]);
        if verboseStats {
          stats.IncValue(DepthCountKey(0));
        }
      }
      var items := Candidates(result);
      ghost var depth := ParentDepth(parentAfter) + 1;
      ghost var base := if stats != null then stats.values else map[];
      candidatesAfter, out := [], [];
      var i := 0;
      while i < |items|
        invariant 0 <= i <= |items|
        invariant out == Survivors(maxdepth, prio, depth, items[..i])
        invariant candidatesAfter == Stamped(prio, depth, items[..i])
        invariant stats != null ==> stats.values == StatsAfter(maxdepth, verboseStats, depth, items[..i], base)
      {
        var keep, after := Filter(parentAfter, items[i]);
        assert items[..i + 1][..i] == items[..i];
        candidatesAfter := candidatesAfter + [after];
        if keep {
          out := out + [after];
        }
        i := i + 1;
      }
      assert items[..i] == items;
    }
  }
}
