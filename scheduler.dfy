/** The request scheduler: a duplicate filter in front of a memory tier and an optional disk tier,
    both priority queues. The disk tier lives under <jobdir>/requests.queue, one file per priority
    level, and a manifest of the levels that still held requests lets the next run resume them. */
module Scheduling {
  import opened Wrappers
  import opened Requests
  import opened Stats
  import opened DupeFilters
  import opened Files
  import PQ = PriorityQueues
  import Paths
  import Text

  const QueueDirName := "requests.queue"
  const ManifestName := "active.json"
  const DiskEnqueuedKey := "scheduler/disk_enqueued"
  const MemoryEnqueuedKey := "scheduler/memory_enqueued"

  /** The disk tier's directory: join(jobdir, 'requests.queue') when a job directory is set
      (an empty one counts as unset), None otherwise. */
  function DiskQueueDir(jobdir: Option<string>): Option<string> {
    if jobdir.Some? && jobdir.value != "" then Some(Paths.Join(jobdir.value, QueueDirName)) else None
  }

  /** 'p%s' % priority */
  function QueueName(p: int): string {
    "p" + Text.IntToString(p)
  }

  /** Where the disk sub-queue for level p lives. */
  function QueuePath(dqdir: string, p: int): string {
    Paths.Join(dqdir, QueueName(p))
  }

  /** Where the resume manifest lives. */
  function ManifestPath(dqdir: string): string {
    Paths.Join(dqdir, ManifestName)
  }

  /** Each priority level has a file of its own. */
  lemma QueuePathsDistinct(dqdir: string, p1: int, p2: int)
    ensures QueuePath(dqdir, p1) == QueuePath(dqdir, p2) <==> p1 == p2
  {
    Paths.JoinRelativeInjective(dqdir, QueueName(p1), QueueName(p2));
    Text.IntToStringInjective(p1, p2);
    if QueueName(p1) == QueueName(p2) {
      assert QueueName(p1)[1..] == Text.IntToString(p1);
      assert QueueName(p2)[1..] == Text.IntToString(p2);
    }
  }

  /** The manifest never overwrites a sub-queue file. */
  lemma ManifestIsNoQueue(dqdir: string, p: int)
    ensures ManifestPath(dqdir) != QueuePath(dqdir, p)
  {
    Paths.JoinRelativeInjective(dqdir, ManifestName, QueueName(p));
    assert ManifestName[0] != QueueName(p)[0];
  }

  /** json.load failing on active.json. */
  datatype StorageError = MalformedManifest(path: string)

  /** The levels to resume: none when there is no manifest, its list when there is one, and an
      error when the file is there but is not a JSON list. */
  function ReadManifest(files: map<string, File>, dqdir: string): (r: Result<seq<int>, StorageError>)
    ensures ManifestPath(dqdir) !in files ==> r == Success([])
    ensures r.Failure? <==> ManifestPath(dqdir) in files && !files[ManifestPath(dqdir)].JsonList?
  {
    var path := ManifestPath(dqdir);
    if path !in files then Success([])
    else if files[path].JsonList? then Success(files[path].values)
    else Failure(MalformedManifest(path))
  }

  /** What a disk sub-queue finds when it opens its file: nothing if there is no such file. */
  function LoadLevel(files: map<string, File>, path: string): seq<Record> {
    if path in files && files[path].QueueFile? then files[path].records else []
  }

  /** _dq: a disk priority queue started with the given levels, each read back from its file. */
  function OpenDiskTier(files: map<string, File>, dqdir: string, prios: seq<int>): PQ.Levels<Record> {
    PQ.Restore(prios, p => LoadLevel(files, QueuePath(dqdir, p)))
  }

  /** Every open disk level is exactly what its file holds: the disk tier writes through. */
  ghost predicate Mirrored(files: map<string, File>, dqdir: string, q: PQ.Levels<Record>) {
    forall p :: p in q ==> LoadLevel(files, QueuePath(dqdir, p)) == q[p]
  }

  /** The file of level p after that level changed: its records, or no file once the level closed. */
  function WriteLevel(files: map<string, File>, dqdir: string, q: PQ.Levels<Record>, p: int): map<string, File> {
    if p in q then files[QueuePath(dqdir, p) := QueueFile(q[p])] else files - {QueuePath(dqdir, p)}
  }

  /** close: the manifest is rewritten only when the disk tier exists and is non-empty, since the
      source tests the queue's truth value, which is its length. */
  function FilesAfterClose(files: map<string, File>, dqdir: Option<string>, dqs: Option<PQ.Levels<Record>>)
    : map<string, File>
  {
    if dqdir.Some? && dqs.Some? && PQ.Len(dqs.value) > 0 then
      files[ManifestPath(dqdir.value) := JsonList(PQ.ActiveLevels(dqs.value))]
    else files
  }

  /** A request the filter has seen before and that does not bypass it. */
  predicate IsDuplicate(r: Request, seen: set<Fingerprint>) {
    !r.dontFilter && FingerprintOf(r) in seen
  }

  /** Rewriting one level's file keeps every other level mirrored. */
  lemma WriteLevelMirrors(files: map<string, File>, dqdir: string, q: PQ.Levels<Record>,
                          q': PQ.Levels<Record>, p: int)
    requires Mirrored(files, dqdir, q)
    requires forall k :: k in q' && k != p ==> k in q && q'[k] == q[k]
    ensures Mirrored(WriteLevel(files, dqdir, q', p), dqdir, q')
  {
    var files' := WriteLevel(files, dqdir, q', p);
    forall k | k in q'
      ensures LoadLevel(files', QueuePath(dqdir, k)) == q'[k]
    {
      QueuePathsDistinct(dqdir, k, p);
    }
  }

  /** Writing the manifest keeps every level mirrored. */
  lemma ManifestWriteMirrors(files: map<string, File>, dqdir: string, q: PQ.Levels<Record>, f: File)
    requires Mirrored(files, dqdir, q)
    ensures Mirrored(files[ManifestPath(dqdir) := f], dqdir, q)
  {
    forall k | k in q
      ensures LoadLevel(files[ManifestPath(dqdir) := f], QueuePath(dqdir, k)) == q[k]
    {
      ManifestIsNoQueue(dqdir, k);
    }
  }

  /** Resume fidelity: after a close that writes the manifest, opening the same job directory
      reads back exactly the levels that held requests, with the same requests, so the resumed disk
      tier hands them out in the same order and none is lost or repeated. */
  lemma ResumeRestoresDiskTier(files: map<string, File>, dqdir: string, q: PQ.Levels<Record>)
    requires Mirrored(files, dqdir, q)
    requires PQ.Len(q) > 0
    ensures var after := FilesAfterClose(files, Some(dqdir), Some(q));
      && ReadManifest(after, dqdir) == Success(PQ.ActiveLevels(q))
      && OpenDiskTier(after, dqdir, PQ.ActiveLevels(q)) == PQ.Compact(q)
      && PQ.Order(OpenDiskTier(after, dqdir, PQ.ActiveLevels(q))) == PQ.Order(q)
      && PQ.Len(OpenDiskTier(after, dqdir, PQ.ActiveLevels(q))) == PQ.Len(q)
  {
    var prios := PQ.ActiveLevels(q);
    var after := files[ManifestPath(dqdir) := JsonList(prios)];
    assert FilesAfterClose(files, Some(dqdir), Some(q)) == after;
    ManifestWriteMirrors(files, dqdir, q, JsonList(prios));
    RestoredIsCompact(after, dqdir, q);
    PQ.CompactKeepsOrder(q);
    assert ReadManifest(after, dqdir) == Success(prios);
  }

  /** Opening the levels that held requests, from files that mirror them, gives back those levels. */
  lemma RestoredIsCompact(files: map<string, File>, dqdir: string, q: PQ.Levels<Record>)
    requires Mirrored(files, dqdir, q)
    ensures OpenDiskTier(files, dqdir, PQ.ActiveLevels(q)) == PQ.Compact(q)
  {
    var restored := OpenDiskTier(files, dqdir, PQ.ActiveLevels(q));
    var compact := PQ.Compact(q);
    forall p | p in restored
      ensures p in compact && restored[p] == compact[p]
    {
      assert p in PQ.Active(q);
    }
    forall p | p in compact
      ensures p in restored
    {
      assert p in PQ.Active(q);
    }
  }

  /** Closing a second time rewrites the same manifest and nothing else. */
  lemma CloseTwiceSameAsOnce(files: map<string, File>, dqdir: Option<string>, dqs: Option<PQ.Levels<Record>>)
    ensures FilesAfterClose(FilesAfterClose(files, dqdir, dqs), dqdir, dqs) == FilesAfterClose(files, dqdir, dqs)
  {
  }

  /** A scheduler has something pending exactly when one of its tiers has a non-empty level. */
  lemma PendingIffActiveLevel(mqs: PQ.Levels<Request>, dqs: Option<PQ.Levels<Record>>)
    ensures PQ.Len(mqs) + (if dqs.Some? then PQ.Len(dqs.value) else 0) > 0
            <==> PQ.Active(mqs) != {} || (dqs.Some? && PQ.Active(dqs.value) != {})
  {
    PQ.NothingPendingIffNoActiveLevel(mqs);
    if dqs.Some? {
      PQ.NothingPendingIffNoActiveLevel(dqs.value);
    }
  }

  class Scheduler {
    const df: DupeFilter
    const stats: StatsCollector
    const fs: FileSystem
    const dqdir: Option<string>
    /** Whether open() has created the queues. */
    var isOpen: bool
    var mqs: PQ.Levels<Request>
    var dqs: Option<PQ.Levels<Record>>

    ghost predicate Valid()
      reads this, fs
    {
      && (dqs.Some? ==> dqdir.Some? && Mirrored(fs.files, dqdir.value, dqs.value))
      && (isOpen && dqdir.Some? ==> dqs.Some?)
    }

    constructor (df: DupeFilter, stats: StatsCollector, fs: FileSystem, jobdir: Option<string>)
      ensures this.df == df && this.stats == stats && this.fs == fs
      ensures dqdir == DiskQueueDir(jobdir)
      ensures !isOpen && mqs == map[] && dqs == None
      ensures Valid()
    {
      this.df := df;
      this.stats := stats;
      this.fs := fs;
      this.dqdir := DiskQueueDir(jobdir);
      isOpen := false;
      mqs := map[];
      dqs := None;
    }

    /** __len__: the disk tier's length plus the memory tier's. */
    function Length(): (n: nat)
      reads this
      requires isOpen
      ensures n == PQ.Len(mqs) + (if dqs.Some? then PQ.Len(dqs.value) else 0)
    {
      if dqs.Some? && PQ.Len(dqs.value) > 0 then PQ.Len(dqs.value) + PQ.Len(mqs) else PQ.Len(mqs)
    }

    /** has_pending_requests: len(self) > 0. */
    function HasPendingRequests(): (b: bool)
      reads this
      requires isOpen
      ensures b <==> PQ.Active(mqs) != {} || (dqs.Some? && PQ.Active(dqs.value) != {})
    {
      PendingIffActiveLevel(mqs, dqs);
      Length() > 0
    }

    /** open: a fresh memory tier and, with a job directory, a disk tier resumed from the manifest. */
    method Open() returns (res: Result<(), StorageError>)
      requires Valid()
      modifies this`isOpen, this`mqs, this`dqs
      ensures Valid()
      ensures mqs == map[]
      ensures dqdir.None? ==> res.Success? && isOpen && dqs == None
      ensures dqdir.Some? ==>
        match ReadManifest(fs.files, dqdir.value)
        case Success(prios) => res.Success? && isOpen && dqs == Some(OpenDiskTier(fs.files, dqdir.value, prios))
        case Failure(e) => res == Failure(e) && isOpen == old(isOpen) && dqs == old(dqs)
    {
      mqs := map[];
      if dqdir.Some? {
        var prios := ReadManifest(fs.files, dqdir.value);
        if prios.Failure? {
          return Failure(prios.error);
        }
        dqs := Some(OpenDiskTier(fs.files, dqdir.value, prios.value));
      } else {
        dqs := None;
      }
      isOpen := true;
      res := Success(());
    }

    /** close: hands the disk tier's active levels to the manifest; no guard against a second call. */
    method Close(reason: string)
      requires isOpen && Valid()
      modifies fs
      ensures Valid()
      ensures fs.files == FilesAfterClose(old(fs.files), dqdir, dqs)
    {
      if dqs.Some? && PQ.Len(dqs.value) > 0 {
        var prios := PQ.ActiveLevels(dqs.value);
        ManifestWriteMirrors(fs.files, dqdir.value, dqs.value, JsonList(prios));
        fs.files := fs.files[ManifestPath(dqdir.value) := JsonList(prios)];
      }
    }

    /** enqueue_request: duplicates are dropped unless dont_filter is set; an accepted request goes
        to the disk tier when there is one and it can be serialised, to the memory tier otherwise.
        Returns nothing either way. */
    method EnqueueRequest(r: Request)
      requires isOpen && Valid()
      modifies this`mqs, this`dqs, df, stats, fs
      ensures isOpen && Valid()
      ensures r.dontFilter ==> df.seen == old(df.seen)
      ensures !r.dontFilter ==> df.seen == old(df.seen) + {FingerprintOf(r)}
      ensures IsDuplicate(r, old(df.seen)) ==>
        mqs == old(mqs) && dqs == old(dqs) && fs.files == old(fs.files) && stats.values == old(stats.values)
      ensures !IsDuplicate(r, old(df.seen)) && old(dqs).Some? && Serializable(r) ==>
        && dqs == Some(PQ.Push(old(dqs).value, ToDict(r).value, r.priority))
        && mqs == old(mqs)
        && fs.files == WriteLevel(old(fs.files), dqdir.value, dqs.value, r.priority)
        && stats.values == Inc(old(stats.values), DiskEnqueuedKey, 1)
      ensures !IsDuplicate(r, old(df.seen)) && !(old(dqs).Some? && Serializable(r)) ==>
        && mqs == PQ.Push(old(mqs), r, r.priority)
        && dqs == old(dqs)
        && fs.files == old(fs.files)
        && stats.values == Inc(old(stats.values), MemoryEnqueuedKey, 1)
      ensures Length() == old(Length()) + (if IsDuplicate(r, old(df.seen)) then 0 else 1)
    {
      if !r.dontFilter {
        var seen := df.RequestSeen(r);
        if seen {
          return;
        }
      }
      var pushed := DqPush(r);
      if !pushed {
        MqPush(r);
      }
    }

    /** next_request: the memory tier's first request when it has one, else the disk tier's. */
    method NextRequest() returns (r: Option<Request>)
      requires isOpen && Valid()
      modifies this`mqs, this`dqs, fs
      ensures isOpen && Valid()
      ensures PQ.Order(old(mqs)) != [] ==>
        && r == Some(PQ.Order(old(mqs))[0])
        && PQ.Order(mqs) == PQ.Order(old(mqs))[1..]
        && dqs == old(dqs) && fs.files == old(fs.files)
      ensures PQ.Order(old(mqs)) == [] ==> mqs == old(mqs)
      ensures PQ.Order(old(mqs)) == [] && old(dqs).Some? && PQ.Order(old(dqs).value) != [] ==>
        && r == Some(FromDict(PQ.Order(old(dqs).value)[0]))
        && dqs.Some? && PQ.Order(dqs.value) == PQ.Order(old(dqs).value)[1..]
        && PQ.Active(old(dqs).value) != {}
        && fs.files == WriteLevel(old(fs.files), dqdir.value, dqs.value, PQ.Least(PQ.Active(old(dqs).value)))
      ensures PQ.Order(old(mqs)) == [] && (old(dqs).None? || PQ.Order(old(dqs).value) == []) ==>
        r == None && dqs == old(dqs) && fs.files == old(fs.files)
      ensures r.Some? <==> old(Length()) > 0
      ensures Length() == old(Length()) - (if r.Some? then 1 else 0)
    {
      PQ.PopFollowsOrder(mqs);
      var (m, rest) := PQ.Pop(mqs);
      mqs := rest;
      if m.Some? {
        return m;
      }
      if dqs.Some? {
        PQ.LenIsOrderLength(dqs.value);
      }
      r := DqPop();
    }

    /** _dqpush: false without a disk tier or when request_to_dict raises ValueError. */
    method DqPush(r: Request) returns (pushed: bool)
      requires Valid()
      modifies this`dqs, stats, fs
      ensures Valid()
      ensures pushed <==> old(dqs).Some? && Serializable(r)
      ensures pushed ==>
        && dqs == Some(PQ.Push(old(dqs).value, ToDict(r).value, r.priority))
        && fs.files == WriteLevel(old(fs.files), dqdir.value, dqs.value, r.priority)
        && stats.values == Inc(old(stats.values), DiskEnqueuedKey, 1)
      ensures !pushed ==> dqs == old(dqs) && fs.files == old(fs.files) && stats.values == old(stats.values)
      ensures pushed ==> PQ.Len(dqs.value) == PQ.Len(old(dqs).value) + 1
    {
      if dqs.None? {
        return false;
      }
      var reqd := ToDict(r);
      if reqd.Failure? {
        return false;
      }
      var q := PQ.Push(dqs.value, reqd.value, r.priority);
      PQ.PushAddsOne(dqs.value, reqd.value, r.priority);
      WriteLevelMirrors(fs.files, dqdir.value, dqs.value, q, r.priority);
      fs.files := WriteLevel(fs.files, dqdir.value, q, r.priority);
      dqs := Some(q);
      stats.IncValue(DiskEnqueuedKey);
      pushed := true;
    }

    /** _mqpush: always succeeds. */
    method MqPush(r: Request)
      modifies this`mqs, stats
      ensures mqs == PQ.Push(old(mqs), r, r.priority)
      ensures stats.values == Inc(old(stats.values), MemoryEnqueuedKey, 1)
      ensures PQ.Len(mqs) == PQ.Len(old(mqs)) + 1
    {
      stats.IncValue(MemoryEnqueuedKey);
      PQ.PushAddsOne(mqs, r, r.priority);
      mqs := PQ.Push(mqs, r, r.priority);
    }

    /** _dqpop: the disk tier's first request, or None when there is no disk tier or it is empty. */
    method DqPop() returns (r: Option<Request>)
      requires Valid()
      modifies this`dqs, fs
      ensures Valid()
      ensures old(dqs).Some? && PQ.Order(old(dqs).value) != [] ==>
        && r == Some(FromDict(PQ.Order(old(dqs).value)[0]))
        && dqs.Some? && PQ.Order(dqs.value) == PQ.Order(old(dqs).value)[1..]
        && PQ.Len(dqs.value) == PQ.Len(old(dqs).value) - 1
        && PQ.Active(old(dqs).value) != {}
        && fs.files == WriteLevel(old(fs.files), dqdir.value, dqs.value, PQ.Least(PQ.Active(old(dqs).value)))
      ensures old(dqs).None? || PQ.Order(old(dqs).value) == [] ==>
        r == None && dqs == old(dqs) && fs.files == old(fs.files)
    {
      if dqs.None? {
        return None;
      }
      var q := dqs.value;
      PQ.PopFollowsOrder(q);
      PQ.NothingPendingIffNoActiveLevel(q);
      if PQ.Len(q) == 0 {
        return None;
      }
      var (d, q') := PQ.Pop(q);
      var l := PQ.Least(PQ.Active(q));
      WriteLevelMirrors(fs.files, dqdir.value, q, q', l);
      fs.files := WriteLevel(fs.files, dqdir.value, q', l);
      dqs := Some(q');
      r := Some(FromDict(d.value));
    }
  }
}
