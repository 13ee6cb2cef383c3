/** What holds in every run of the external storage engine, whatever the interleaving. */
module ExtstoreSafety {
  import opened Prelude
  import opened Extstore
  import opened ExtstoreInvariant
  import opened ExtstoreSteps

  /** One critical section of some thread, or one whole pread or pwrite. */
  datatype Step =
    | PickPageStep(b: nat)
    | TryWriteStep(b: nat, bytes: seq<Byte>)
    | ReplacePageStep(b: nat)
    | WriteToDiskStep(w: nat)
    | WbufCallbackStep(w: nat)
    | StartReadStep(r: nat, target: Object)
    | ReadFromDiskStep(r: nat)
    | EndReadStep(r: nat)
    | DeleteStep(p: nat, version: nat, count: nat, size: nat)
    | ClosePageStep(p: nat, version: nat)
    | StartScanStep
    | ScanPageStep
    | EvictStep

  /** Each thread runs its sections in order; there is one writer per bucket, and stored objects are not empty. */
  ghost predicate Enabled(c: Conf, s: State, step: Step) {
    match step
    case PickPageStep(b) => b < |s.writers| && s.writers[b].Idle?
    case TryWriteStep(b, bytes) => b < |s.writers| && s.writers[b].Picked? && |bytes| > 0
    case ReplacePageStep(b) => b < |s.writers| && s.writers[b].NeedsPage?
    case WriteToDiskStep(w) => w in s.flushes && !s.flushes[w].onDisk
    case WbufCallbackStep(w) => w in s.flushes && s.flushes[w].onDisk
    case StartReadStep(r, o) => r !in s.reading && o in s.stored
    case ReadFromDiskStep(r) => r in s.reading && !s.reading[r].done
    case EndReadStep(r) => r in s.reading && s.reading[r].done
    case DeleteStep(p, _, _, _) => p < c.pageCount
    case ClosePageStep(p, _) => p < c.pageCount
    case StartScanStep => s.maint.Waiting?
    case ScanPageStep => s.maint.Scanning? && s.maint.next < c.pageCount
    case EvictStep => s.maint.Scanning? && s.maint.next == c.pageCount
  }

  /** The asserts of the source, and the pops it does not check, that stand in the way of a step. */
  ghost predicate AssertsHold(c: Conf, s: State, step: Step)
    requires Shape(c, s) && Enabled(c, s, step)
  {
    match step
    case PickPageStep(b) =>
      // _allocate_page: the bucket is empty, and a counted free page is there
      s.pageFree > 0 ==> s.freelist != []
    case TryWriteStep(b, bytes) =>
      // _submit_wbuf pops io_stack unchecked; what _allocate_wbuf asserts is its caller's guard
      var p := s.writers[b].page;
      !PageFull(c, s, p) && MustSubmit(c, s, p, |bytes|) ==> s.ioStack > 0
    case ReplacePageStep(b) =>
      // _allocate_page: the bucket's head page is used up, and a counted free page is there
      && (s.buckets[b] != [] ==> s.pages[s.buckets[b][0]].claimed == c.pageSize)
      && (s.pageFree > 0 ==> s.freelist != [])
    case WriteToDiskStep(w) => s.flushes[w].offset + c.wbufSize <= c.pageSize
    case WbufCallbackStep(w) =>
      // _wbuf_cb
      var page := s.pages[s.flushes[w].page];
      page.wbuf == Some(w) && page.written == s.wbufs[w].offset
    case StartReadStep(r, o) =>
      // _read_from_wbuf
      && o.page < c.pageCount
      && (Servable(c, s, o) && FromBuffer(c, s, o) ==>
            && s.pages[o.page].wbuf.Some?
            && o.offset < s.pages[o.page].written + c.wbufSize
            && var wbuf := s.wbufs[s.pages[o.page].wbuf.value];
               wbuf.offset <= o.offset && o.offset + |o.bytes| <= wbuf.offset + c.wbufSize)
    case ReadFromDiskStep(r) => s.reading[r].target.offset + |s.reading[r].target.bytes| <= c.pageSize
    case EndReadStep(r) => s.pages[s.reading[r].target.page].refcount > 0
    case DeleteStep(_, _, _, _) => true
    case ClosePageStep(_, _) => true
    case StartScanStep => true
    case ScanPageStep => s.pages[s.maint.next].bucket < c.bucketCount
    case EvictStep => s.maint.low.Some? ==> s.pages[s.maint.low.value].bucket < c.bucketCount
  }

  ghost function Apply(c: Conf, s: State, step: Step): State
    requires Shape(c, s) && Enabled(c, s, step) && AssertsHold(c, s, step)
  {
    match step
    case PickPageStep(b) => PickPage(c, s, b)
    case TryWriteStep(b, bytes) => TryWrite(c, s, b, bytes)
    case ReplacePageStep(b) => ReplacePage(c, s, b)
    case WriteToDiskStep(w) => WriteToDisk(c, s, w)
    case WbufCallbackStep(w) => WbufCallback(c, s, w)
    case StartReadStep(r, o) => StartRead(c, s, r, o)
    case ReadFromDiskStep(r) => ReadFromDisk(c, s, r)
    case EndReadStep(r) => EndRead(c, s, r)
    case DeleteStep(p, version, count, size) => Delete(c, s, p, version, count, size)
    case ClosePageStep(p, version) => ClosePage(c, s, p, version)
    case StartScanStep => StartScan(c, s)
    case ScanPageStep => ScanPage(c, s)
    case EvictStep => Evict(c, s)
  }

  /** No enabled step of a state that satisfies the invariant can fail an assert. */
  lemma NoAssertFails(c: Conf, s: State, step: Step)
    requires Inv(c, s) && Enabled(c, s, step)
    ensures AssertsHold(c, s, step)
  {
    hide PagesOk, MaintOk, FlushesOk, WbufsOk, Lists, StoredOk, ReadsOk, AnswersOk;
    FreeCount(c, s);
    match step
    case PickPageStep(b) =>
    case TryWriteStep(b, bytes) => TryWriteKeeps(c, s, b, bytes);
    case ReplacePageStep(b) => HeadFull(c, s, b);
    case WriteToDiskStep(w) => WriteToDiskKeeps(c, s, w);
    case WbufCallbackStep(w) =>
      GetFlush(c, s, w);
      GetPage(c, s, s.flushes[w].page);
    case StartReadStep(r, o) =>
      GetHeld(c, s, o);
      if Servable(c, s, o) {
        HandleReadable(c, s, o);
      }
    case ReadFromDiskStep(r) => ReadFromDiskKeeps(c, s, r);
    case EndReadStep(r) => EndReadKeeps(c, s, r);
    case DeleteStep(_, _, _, _) =>
    case ClosePageStep(_, _) =>
    case StartScanStep =>
    case ScanPageStep => ScanPageKeeps(c, s);
    case EvictStep => EvictKeeps(c, s);
  }

  lemma StepKeeps(c: Conf, s: State, step: Step)
    requires Inv(c, s) && Enabled(c, s, step) && AssertsHold(c, s, step)
    ensures Inv(c, Apply(c, s, step))
  {
    hide Shape, PagesOk, MaintOk, Buffers, Lists, Data;
    Sizes(c, s);
    match step
    case PickPageStep(b) => PickPageKeeps(c, s, b);
    case TryWriteStep(b, bytes) => TryWriteKeeps(c, s, b, bytes);
    case ReplacePageStep(b) => ReplacePageKeeps(c, s, b);
    case WriteToDiskStep(w) => WriteToDiskKeeps(c, s, w);
    case WbufCallbackStep(w) => WbufCallbackKeeps(c, s, w);
    case StartReadStep(r, o) => StartReadKeeps(c, s, r, o);
    case ReadFromDiskStep(r) => ReadFromDiskKeeps(c, s, r);
    case EndReadStep(r) => EndReadKeeps(c, s, r);
    case DeleteStep(p, version, count, size) => DeleteKeeps(c, s, p, version, count, size);
    case ClosePageStep(p, version) => ClosePageKeeps(c, s, p, version);
    case StartScanStep => StartScanKeeps(c, s);
    case ScanPageStep => ScanPageKeeps(c, s);
    case EvictStep => EvictKeeps(c, s);
  }

  // ----- whole runs -----

  /** s' is reached from s by the given steps. */
  ghost predicate Runs(c: Conf, s: State, steps: seq<Step>, s': State)
    decreases |steps|
  {
    if steps == [] then s == s'
    else
      && Shape(c, s) && Enabled(c, s, steps[0]) && AssertsHold(c, s, steps[0])
      && Runs(c, Apply(c, s, steps[0]), steps[1..], s')
  }

  lemma {:induction false} RunKeeps(c: Conf, s: State, steps: seq<Step>, s': State)
    requires Inv(c, s) && Runs(c, s, steps, s')
    ensures Inv(c, s')
    decreases |steps|
  {
    if steps != [] {
      hide Shape, Local, Buffers, Lists, Data;
      StepKeeps(c, s, steps[0]);
      RunKeeps(c, Apply(c, s, steps[0]), steps[1..], s');
    }
  }

  /** In every reachable state: no enabled step fails an assert, so runs never get stuck on one. */
  lemma ReachableSafe(c: Conf, s0: State, steps: seq<Step>, s: State, step: Step)
    requires c.Valid() && Initial(c, s0) && Runs(c, s0, steps, s)
    ensures Inv(c, s)
    ensures Enabled(c, s, step) ==> AssertsHold(c, s, step)
  {
    InitialInv(c, s0);
    RunKeeps(c, s0, steps, s);
    if Enabled(c, s, step) {
      NoAssertFails(c, s, step);
    }
  }

  /** A reachable page's counters: what is claimed is written, or is the buffer being filled right after it. */
  lemma ReachablePages(c: Conf, s0: State, steps: seq<Step>, s: State, p: nat)
    requires c.Valid() && Initial(c, s0) && Runs(c, s0, steps, s) && p < c.pageCount
    ensures Shape(c, s)
    ensures var page := s.pages[p];
            && page.claimed <= c.pageSize
            && (page.wbuf.None? ==> page.claimed == page.written)
            && (page.wbuf.Some? ==>
                  var wbuf := s.wbufs[page.wbuf.value];
                  wbuf.offset == page.written && page.claimed == page.written + |wbuf.buf|)
  {
    InitialInv(c, s0);
    RunKeeps(c, s0, steps, s);
    assert PageOk(c, s, p);
  }

  /** Every read of a handle from `extstore_write` misses or returns exactly the bytes written. */
  lemma ReadsReturnWhatWasWritten(c: Conf, s0: State, steps: seq<Step>, s: State, o: Object, answer: Option<seq<Byte>>)
    requires c.Valid() && Initial(c, s0) && Runs(c, s0, steps, s)
    requires (o, answer) in s.answers
    ensures o in s.stored
    ensures answer.None? || answer.value == o.bytes
  {
    InitialInv(c, s0);
    RunKeeps(c, s0, steps, s);
  }

  /** The handle was issued, but its page is gone or has moved on to another version. */
  ghost predicate Stale(c: Conf, s: State, p: nat, version: nat) {
    && p < |s.pages|
    && 1 <= version < s.version
    && s.pages[p].version != version
  }

  /** How page p may change: its version only by freeing and allocating, and it is freed only when idle. */
  ghost predicate VersionRule(c: Conf, s: State, s': State, p: nat) {
    && p < |s.pages| && p < |s'.pages| && s.version <= s'.version
    && (s'.pages[p].free == s.pages[p].free ==> s'.pages[p].version == s.pages[p].version)
    && (s'.pages[p].free && !s.pages[p].free ==>
          s'.pages[p].version == 0 && !s.pages[p].active && s.pages[p].refcount == 0)
    && (!s'.pages[p].free && s.pages[p].free ==> s'.pages[p].version == s.version < s'.version)
  }

  /** Buffer work leaves every page's version and free flag alone. */
  lemma WriteVersions(c: Conf, s: State, p: nat, bytes: seq<Byte>, q: nat)
    requires Shape(c, s) && p < c.pageCount && q < c.pageCount
    requires MustSubmit(c, s, p, |bytes|) ==> s.ioStack > 0
    ensures var s1 := MakeRoom(c, s, p, |bytes|);
            var s2 := if HasRoom(c, s1, p, |bytes|) then PutObject(c, s1, p, bytes) else s1;
            |s2.pages| == c.pageCount && s2.version == s.version
            && s2.pages[q].version == s.pages[q].version && s2.pages[q].free == s.pages[q].free
  {
    hide MustSubmit, MustAllocate;
  }

  lemma OtherVersions(c: Conf, s: State, step: Step, p: nat)
    requires Shape(c, s) && Enabled(c, s, step) && AssertsHold(c, s, step) && p < c.pageCount
    requires !step.TryWriteStep? && !step.PickPageStep? && !step.ReplacePageStep?
    requires !step.ScanPageStep? && !step.EvictStep?
    ensures VersionRule(c, s, Apply(c, s, step), p)
  {
    hide Servable, FromBuffer;
  }

  lemma AllocateVersions(c: Conf, s: State, step: Step, p: nat)
    requires Inv(c, s) && Enabled(c, s, step) && AssertsHold(c, s, step) && p < c.pageCount
    requires step.PickPageStep? || step.ReplacePageStep?
    ensures VersionRule(c, s, Apply(c, s, step), p)
  {
    hide PagesOk, MaintOk, Buffers, BucketsOk, Data;
    assert s.freelist != [] ==> s.freelist[0] in s.freelist;
  }

  lemma FreeVersions(c: Conf, s: State, step: Step, p: nat)
    requires Inv(c, s) && Enabled(c, s, step) && AssertsHold(c, s, step) && p < c.pageCount
    requires step.ScanPageStep? || step.EvictStep?
    ensures VersionRule(c, s, Apply(c, s, step), p)
  {
    hide PagesOk, Buffers, Lists, Data;
  }

  lemma StepVersions(c: Conf, s: State, step: Step, p: nat)
    requires Inv(c, s) && Enabled(c, s, step) && AssertsHold(c, s, step) && p < c.pageCount
    ensures VersionRule(c, s, Apply(c, s, step), p)
  {
    Sizes(c, s);
    hide Shape, PagesOk, MaintOk, Buffers, Lists, Data, MakeRoom, PutObject, PageFull, MustSubmit, HasRoom;
    if step.TryWriteStep? {
      if !PageFull(c, s, s.writers[step.b].page) {
        WriteVersions(c, s, s.writers[step.b].page, step.bytes, p);
      }
    } else {
      hide Apply;
      if step.PickPageStep? || step.ReplacePageStep? {
        AllocateVersions(c, s, step, p);
      } else if step.ScanPageStep? || step.EvictStep? {
        FreeVersions(c, s, step, p);
      } else {
        OtherVersions(c, s, step, p);
      }
    }
  }

  lemma StaleStep(c: Conf, s: State, step: Step, p: nat, version: nat)
    requires Inv(c, s) && Enabled(c, s, step) && AssertsHold(c, s, step) && Stale(c, s, p, version)
    ensures Stale(c, Apply(c, s, step), p, version)
  {
    Sizes(c, s);
    hide Inv, Shape, Apply, AssertsHold, Enabled;
    StepVersions(c, s, step, p);
  }

  /** A stale (page, version) handle never validates again. */
  lemma {:induction false} StaleForEver(c: Conf, s: State, steps: seq<Step>, s': State, p: nat, version: nat)
    requires Inv(c, s) && Runs(c, s, steps, s') && Stale(c, s, p, version)
    ensures p < |s'.pages| && s'.pages[p].version != version
    decreases |steps|
  {
    if steps != [] {
      hide Shape, Local, Buffers, Lists, Data;
      StepKeeps(c, s, steps[0]);
      StaleStep(c, s, steps[0], p, version);
      StaleForEver(c, Apply(c, s, steps[0]), steps[1..], s', p, version);
    }
  }

  /** Each page but page 0 is on exactly one of the freelist and its own bucket's list, once. */
  lemma OnExactlyOneList(c: Conf, s: State, p: nat)
    requires Inv(c, s) && 0 < p < c.pageCount
    ensures s.pageFree == |s.freelist| && Distinct(s.freelist)
    ensures s.pages[p].free <==> p in s.freelist
    ensures forall b :: 0 <= b < c.bucketCount ==>
              (p in s.buckets[b] <==> !s.pages[p].free && s.pages[p].bucket == b) && Distinct(s.buckets[b])
    ensures 0 !in s.freelist && forall b :: 0 <= b < c.bucketCount ==> 0 !in s.buckets[b]
  {
    hide PageOk, MaintOk, BucketsOk, Buffers, Data;
  }
}
