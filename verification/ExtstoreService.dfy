/** What readers and the evictor get from the external storage engine, over whole runs. */
module ExtstoreService {
  import opened Prelude
  import opened Extstore
  import opened ExtstoreInvariant
  import opened ExtstoreSteps
  import opened ExtstoreSafety

  // ----- reads -----

  /** The object's page was freed, closed or given to other objects. */
  ghost predicate Gone(page: Page, o: Object) {
    page.free || page.closed || page.version != o.version
  }

  /**
   * The first section of a read of a stored object: a miss exactly if its page is gone; its bytes at once if they are
   * not yet written out; and a reference to its page otherwise.
   */
  lemma StartReadAnswers(c: Conf, s: State, r: nat, o: Object)
    requires Inv(c, s) && r !in s.reading && o in s.stored
    ensures Enabled(c, s, StartReadStep(r, o)) && AssertsHold(c, s, StartReadStep(r, o))
    ensures var s', page := Apply(c, s, StartReadStep(r, o)), s.pages[o.page];
            if Gone(page, o) then s' == s.(answers := s.answers + [(o, None)])
            else if page.active && page.written <= o.offset then s' == s.(answers := s.answers + [(o, Some(o.bytes))])
            else
              && s'.answers == s.answers && s'.reading == s.reading[r := Read(o, false)]
              && s'.pages == s.pages[o.page := page.(refcount := page.refcount + 1)]
  {
    hide PagesOk, MaintOk, Buffers, Lists, StoredOk, ReadsOk, AnswersOk;
    NoAssertFails(c, s, StartReadStep(r, o));
    GetHeld(c, s, o);
    if Servable(c, s, o) {
      HandleReadable(c, s, o);
    }
  }

  /** The pread of a read that holds a page reference gives the object's bytes. */
  lemma PreadAnswers(c: Conf, s: State, r: nat)
    requires Inv(c, s) && r in s.reading && !s.reading[r].done
    ensures Enabled(c, s, ReadFromDiskStep(r)) && AssertsHold(c, s, ReadFromDiskStep(r))
    ensures var s', o := Apply(c, s, ReadFromDiskStep(r)), s.reading[r].target;
            s'.answers == s.answers + [(o, Some(o.bytes))] && s'.reading == s.reading[r := Read(o, true)]
  {
    hide PagesOk, MaintOk, Buffers, Lists, StoredOk, ReadsOk, AnswersOk;
    NoAssertFails(c, s, ReadFromDiskStep(r));
    ReadFromDiskReads(c, s, r);
  }

  /** A read holds its reference until its pread. */
  lemma PendingStep(c: Conf, s: State, step: Step, r: nat)
    requires Inv(c, s) && Enabled(c, s, step) && AssertsHold(c, s, step)
    requires r in s.reading && !s.reading[r].done && step != ReadFromDiskStep(r)
    ensures var s' := Apply(c, s, step); r in s'.reading && s'.reading[r] == s.reading[r]
  {
    hide Servable, FromBuffer, PagesOk, MaintOk, Buffers, Lists, Data, PageFull, MustSubmit, MustAllocate, HasRoom,
         TryWrite;
    if step.TryWriteStep? {
      TryWriteReads(c, s, step.b, step.bytes);
    }
  }

  lemma TryWriteReads(c: Conf, s: State, b: nat, bytes: seq<Byte>)
    requires Shape(c, s) && b < c.bucketCount && s.writers[b].Picked?
    requires var p := s.writers[b].page; !PageFull(c, s, p) && MustSubmit(c, s, p, |bytes|) ==> s.ioStack > 0
    ensures TryWrite(c, s, b, bytes).reading == s.reading
  {
    hide Shape, PageFull, MustSubmit, MustAllocate, HasRoom;
  }

  lemma {:induction false} PendingRun(c: Conf, s: State, steps: seq<Step>, s': State, r: nat)
    requires Inv(c, s) && Runs(c, s, steps, s') && ReadFromDiskStep(r) !in steps
    requires r in s.reading && !s.reading[r].done
    ensures Inv(c, s') && r in s'.reading && s'.reading[r] == s.reading[r]
    decreases |steps|
  {
    hide Inv, Shape, Apply, Enabled, AssertsHold;
    if steps != [] {
      assert steps[0] in steps && forall x :: x in steps[1..] ==> x in steps;
      StepKeeps(c, s, steps[0]);
      PendingStep(c, s, steps[0], r);
      PendingRun(c, Apply(c, s, steps[0]), steps[1..], s', r);
    }
  }

  /**
   * In every run: the read of a stored object misses if and only if its page is gone. Otherwise it is answered with
   * the object's bytes, at once or by its pread, whatever the other threads do in between.
   */
  lemma ReadIsAnswered(c: Conf, s0: State, before: seq<Step>, s: State, r: nat, o: Object, after: seq<Step>, s': State)
    requires c.Valid() && Initial(c, s0) && Runs(c, s0, before, s) && r !in s.reading && o in s.stored
    ensures o.page < |s.pages| && Shape(c, s) && Enabled(c, s, StartReadStep(r, o))
    ensures AssertsHold(c, s, StartReadStep(r, o))
    ensures var s1, page := Apply(c, s, StartReadStep(r, o)), s.pages[o.page];
            if Gone(page, o) then s1.answers == s.answers + [(o, None)]
            else if page.active && page.written <= o.offset then s1.answers == s.answers + [(o, Some(o.bytes))]
            else
              && s1.answers == s.answers
              && (Runs(c, s1, after, s') && ReadFromDiskStep(r) !in after ==>
                    && Shape(c, s') && Enabled(c, s', ReadFromDiskStep(r)) && AssertsHold(c, s', ReadFromDiskStep(r))
                    && Apply(c, s', ReadFromDiskStep(r)).answers == s'.answers + [(o, Some(o.bytes))])
  {
    InitialInv(c, s0);
    RunKeeps(c, s0, before, s);
    StartReadAnswers(c, s, r, o);
    GetHeld(c, s, o);
    hide PagesOk, MaintOk, Buffers, Lists, Data, Apply, AssertsHold;
    var s1, page := Apply(c, s, StartReadStep(r, o)), s.pages[o.page];
    if !Gone(page, o) && !(page.active && page.written <= o.offset)
       && Runs(c, s1, after, s') && ReadFromDiskStep(r) !in after {
      StepKeeps(c, s, StartReadStep(r, o));
      PendingRun(c, s1, after, s', r);
      PreadAnswers(c, s', r);
    }
  }

  // ----- writes -----

  /** Where the next object of a page would go: behind what is written and buffered. */
  ghost function NextOffset(c: Conf, s: State, p: nat): int
    requires Shape(c, s) && p < c.pageCount
  {
    s.pages[p].written + match s.pages[p].wbuf case Some(w) => c.wbufSize - s.wbufs[w].free case None => 0
  }

  /** A page that can never take another byte: given up, or all of it handed to buffers that are gone or full. */
  ghost predicate UsedUp(c: Conf, s: State, p: nat)
    requires Shape(c, s) && p < c.pageCount
  {
    var page := s.pages[p];
    !page.active || ((page.wbuf.None? || s.wbufs[page.wbuf.value].full) && page.claimed >= c.pageSize)
  }

  /** The object fits the buffer of its page, or a fresh one that can be had. */
  ghost predicate Fits(c: Conf, s: State, p: nat, len: nat)
    requires Shape(c, s) && p < c.pageCount
  {
    match s.pages[p].wbuf
    case Some(w) => !s.wbufs[w].full && len <= s.wbufs[w].free
    case None => s.wbufStack != [] && len <= c.wbufSize
  }

  /**
   * A write attempt: on a page that is used up the writer asks for another; otherwise the object is stored exactly
   * if it fits, behind every other object of the page, and else a buffer that is too small is sent to be flushed.
   */
  lemma WriteStores(c: Conf, s: State, b: nat, bytes: seq<Byte>)
    requires Inv(c, s) && Enabled(c, s, TryWriteStep(b, bytes))
    ensures AssertsHold(c, s, TryWriteStep(b, bytes))
    ensures var p, s' := s.writers[b].page, Apply(c, s, TryWriteStep(b, bytes));
            var page := s.pages[p];
            if UsedUp(c, s, p) then s' == s.(writers := s.writers[b := NeedsPage])
            else
              && s'.writers == s.writers[b := Idle]
              && (if Fits(c, s, p, |bytes|) then
                    var o := Object(p, page.version, NextOffset(c, s, p), bytes);
                    && s'.stored == s.stored + {o}
                    && s'.pages[p].objCount == page.objCount + 1 && s'.pages[p].bytesUsed == page.bytesUsed + |bytes|
                    && forall x :: x in s.stored && x.page == p && x.version == page.version ==>
                         x.offset + |x.bytes| <= o.offset
                  else
                    && s'.stored == s.stored
                    && (page.wbuf.Some? && !s.wbufs[page.wbuf.value].full ==>
                          page.wbuf.value in s'.flushes && s'.wbufs[page.wbuf.value].full))
  {
    hide MaintOk, Buffers, Lists, ReadsOk, AnswersOk, PagesOk, StoredOk;
    NoAssertFails(c, s, TryWriteStep(b, bytes));
    var p := s.writers[b].page;
    GetPage(c, s, p);
    if !UsedUp(c, s, p) {
      BehindAll(c, s, p);
      WriteStored(c, s, p, bytes);
    }
  }

  lemma BehindAll(c: Conf, s: State, p: nat)
    requires Shape(c, s) && StoredOk(c, s) && p < c.pageCount && PageOk(c, s, p)
    ensures forall x :: x in s.stored && x.page == p && x.version == s.pages[p].version ==>
              x.offset + |x.bytes| <= NextOffset(c, s, p)
  {
    forall x | x in s.stored && x.page == p && x.version == s.pages[p].version
      ensures x.offset + |x.bytes| <= NextOffset(c, s, p)
    {
      GetHeld(c, s, x);
    }
  }

  lemma WriteStored(c: Conf, s: State, p: nat, bytes: seq<Byte>)
    requires Shape(c, s) && p < c.pageCount && PageOk(c, s, p) && !UsedUp(c, s, p)
    requires MustSubmit(c, s, p, |bytes|) ==> s.ioStack > 0
    ensures var s1 := MakeRoom(c, s, p, |bytes|);
            && HasRoom(c, s1, p, |bytes|) == Fits(c, s, p, |bytes|)
            && s1.stored == s.stored && s1.writers == s.writers && |s1.pages| == |s.pages|
            && s1.pages[p].version == s.pages[p].version && s1.pages[p].objCount == s.pages[p].objCount
            && s1.pages[p].bytesUsed == s.pages[p].bytesUsed
            && (Fits(c, s, p, |bytes|) ==>
                  var w := s1.wbufs[s1.pages[p].wbuf.value]; w.offset + w.Used() == NextOffset(c, s, p))
            && (!Fits(c, s, p, |bytes|) && s.pages[p].wbuf.Some? && !s.wbufs[s.pages[p].wbuf.value].full ==>
                  s.pages[p].wbuf.value in s1.flushes && s1.wbufs[s.pages[p].wbuf.value].full)
  {
    hide Multiple;
  }

  /** What a section takes as its page: the bucket's newest, or the first free one for a bucket that has none. */
  lemma PicksPage(c: Conf, s: State, b: nat)
    requires Inv(c, s) && Enabled(c, s, PickPageStep(b))
    ensures AssertsHold(c, s, PickPageStep(b))
    ensures var s' := Apply(c, s, PickPageStep(b));
            if s.buckets[b] != [] then s' == s.(writers := s.writers[b := Picked(s.buckets[b][0])])
            else if s.freelist != [] then
              var p := s.freelist[0];
              && s'.writers[b] == Picked(p) && s'.buckets[b] == [p] && s'.freelist == s.freelist[1..]
              && s'.pages[p].active && !s'.pages[p].free && s'.pages[p].version == s.version && s'.version > s.version
            else s' == s
  {
    hide PagesOk, MaintOk, Buffers, Lists, Data;
    NoAssertFails(c, s, PickPageStep(b));
    FreeCount(c, s);
  }

  // ----- deleting and freeing -----

  /** The scan has been at page p, and has freed it exactly if it is full, idle, and empty or closed. */
  ghost predicate Scanned(s: State, s': State, p: nat) {
    && p < |s.pages| == |s'.pages| && s.maint.Scanning? && s'.maint.Scanning?
    && var page := s.pages[p];
       var frees := !page.free && !page.active && page.refcount == 0 && (page.objCount == 0 || page.closed);
       && s'.maint.next == p + 1 && s'.maint.evict == (s.maint.evict && !frees)
       && (frees ==> s'.freelist == [p] + s.freelist && s'.pages[p].free && s'.pages[p].version == 0)
       && (!frees ==> s'.freelist == s.freelist && s'.pages == s.pages)
  }

  lemma ScanFrees(c: Conf, s: State)
    requires Inv(c, s) && Enabled(c, s, ScanPageStep)
    ensures Shape(c, s) && s.maint.Scanning? && AssertsHold(c, s, ScanPageStep)
    ensures Scanned(s, Apply(c, s, ScanPageStep), s.maint.next)
  {
    hide PagesOk, MaintOk, Buffers, Lists, Data;
    NoAssertFails(c, s, ScanPageStep);
  }

  /** Deleting counts down, and never below zero; a stale or closed page is left alone. */
  lemma DeleteCounts(c: Conf, s: State, p: nat, version: nat, count: nat, size: nat)
    requires Shape(c, s) && p < c.pageCount
    ensures var s', page := Apply(c, s, DeleteStep(p, version, count, size)), s.pages[p];
            if page.closed || page.version != version then s' == s
            else
              && s' == s.(pages := s'.pages) && s'.pages == s.pages[p := s'.pages[p]]
              && s'.pages[p] == page.(objCount := s'.pages[p].objCount, bytesUsed := s'.pages[p].bytesUsed)
              && (s'.pages[p].objCount + count == page.objCount || (s'.pages[p].objCount == 0 && count > page.objCount))
              && (s'.pages[p].bytesUsed + size == page.bytesUsed
                  || (s'.pages[p].bytesUsed == 0 && size > page.bytesUsed))
  {
  }

  ghost predicate Frees(s: State, freelist: seq<nat>, p: nat) {
    p < |s.pages| && s.pages[p].free && s.freelist == [p] + freelist
  }

  /** A page all of whose objects were deleted is free after the next scan comes to it, unless a read holds it. */
  lemma EmptiedIsFreed(c: Conf, s: State, version: nat, count: nat, size: nat)
    requires Inv(c, s) && Enabled(c, s, ScanPageStep) && s.maint.next < |s.pages|
    requires var page := s.pages[s.maint.next];
             && !page.free && !page.active && !page.closed && page.version == version
             && page.refcount == 0 && page.objCount <= count
    ensures var p, s1 := s.maint.next, Apply(c, s, DeleteStep(s.maint.next, version, count, size));
            && Inv(c, s1) && Enabled(c, s1, ScanPageStep) && AssertsHold(c, s1, ScanPageStep)
            && Frees(Apply(c, s1, ScanPageStep), s.freelist, p)
  {
    hide PagesOk, MaintOk, Buffers, Lists, Data;
    var p := s.maint.next;
    DeleteCounts(c, s, p, version, count, size);
    StepKeeps(c, s, DeleteStep(p, version, count, size));
    ScanFrees(c, Apply(c, s, DeleteStep(p, version, count, size)));
  }

  /** Closing takes effect exactly on the version meant, and makes every read of the page's objects miss. */
  lemma CloseMisses(c: Conf, s: State, p: nat, version: nat, r: nat, o: Object)
    requires Inv(c, s) && p < c.pageCount && s.pages[p].version == version
    requires o in s.stored && o.page == p && r !in s.reading
    ensures var s1 := Apply(c, s, ClosePageStep(p, version));
            && Inv(c, s1) && s1.pages[p].closed
            && Enabled(c, s1, StartReadStep(r, o)) && AssertsHold(c, s1, StartReadStep(r, o))
            && Apply(c, s1, StartReadStep(r, o)).answers == s.answers + [(o, None)]
    ensures forall other :: other != version ==> Apply(c, s, ClosePageStep(p, other)) == s
  {
    hide PagesOk, MaintOk, Buffers, Lists, Data;
    StepKeeps(c, s, ClosePageStep(p, version));
    StartReadAnswers(c, Apply(c, s, ClosePageStep(p, version)), r, o);
  }

  // ----- eviction -----

  /** What the maintenance scan looks for when nothing is free. */
  ghost predicate Eligible(page: Page) {
    !page.active && !page.free && page.objCount > 0 && !page.closed
  }

  /** What the scan has noted after a step: the same, or the page it was at if that is eligible and older. */
  ghost predicate Noted(s: State, scan: bool, m: Maintenance)
    requires s.maint.Scanning? && m.Scanning?
  {
    if scan && s.maint.next < |s.pages| && Eligible(s.pages[s.maint.next]) then
      var version := s.pages[s.maint.next].version;
      if s.maint.low.Some? && s.maint.lowVersion <= version
      then m.low == s.maint.low && m.lowVersion == s.maint.lowVersion
      else m.low == Some(s.maint.next) && m.lowVersion == version
    else m.low == s.maint.low && m.lowVersion == s.maint.lowVersion
  }

  /** The scan never forgets a page it noted, except for an older one. */
  lemma LowStep(c: Conf, s: State, step: Step)
    requires Inv(c, s) && Enabled(c, s, step) && AssertsHold(c, s, step)
    requires s.maint.Scanning? && step != EvictStep
    ensures var m := Apply(c, s, step).maint; m.Scanning? && Noted(s, step == ScanPageStep, m)
  {
    hide Servable, FromBuffer, PagesOk, Buffers, Lists, Data, PageFull, MustSubmit, MustAllocate, HasRoom, TryWrite;
    if step.TryWriteStep? {
      TryWriteMaint(c, s, step.b, step.bytes);
    }
  }

  lemma TryWriteMaint(c: Conf, s: State, b: nat, bytes: seq<Byte>)
    requires Shape(c, s) && b < c.bucketCount && s.writers[b].Picked?
    requires var p := s.writers[b].page; !PageFull(c, s, p) && MustSubmit(c, s, p, |bytes|) ==> s.ioStack > 0
    ensures TryWrite(c, s, b, bytes).maint == s.maint
  {
    hide Shape, PageFull, MustSubmit, MustAllocate, HasRoom;
  }

  lemma {:induction false} LowRun(c: Conf, s: State, steps: seq<Step>, s': State)
    requires Inv(c, s) && Runs(c, s, steps, s') && s.maint.Scanning? && EvictStep !in steps
    ensures Inv(c, s') && s'.maint.Scanning?
    ensures s.maint.low.Some? ==> s'.maint.low.Some? && s'.maint.lowVersion <= s.maint.lowVersion
    decreases |steps|
  {
    hide Inv, Shape, Apply, Enabled, AssertsHold;
    if steps != [] {
      assert steps[0] in steps && forall x :: x in steps[1..] ==> x in steps;
      StepKeeps(c, s, steps[0]);
      LowStep(c, s, steps[0]);
      LowRun(c, Apply(c, s, steps[0]), steps[1..], s');
    }
  }

  /**
   * In every run: the page a scan is about to evict is at least as old as every page that was eligible when the scan
   * came to it, whatever the other threads did in between.
   */
  lemma EvictsOldest(c: Conf, s0: State, before: seq<Step>, s: State, after: seq<Step>, s': State)
    requires c.Valid() && Initial(c, s0) && Runs(c, s0, before, s) && Enabled(c, s, ScanPageStep)
    requires s.maint.next < |s.pages| && Eligible(s.pages[s.maint.next])
    requires Runs(c, s, [ScanPageStep] + after, s') && EvictStep !in after
    ensures s'.maint.Scanning? && s'.maint.low.Some? && s'.maint.low.value < |s'.pages|
    ensures s'.pages[s'.maint.low.value].version <= s.pages[s.maint.next].version
  {
    hide Inv, Shape, Apply, AssertsHold, Initial;
    InitialInv(c, s0);
    RunKeeps(c, s0, before, s);
    assert ([ScanPageStep] + after)[0] == ScanPageStep && ([ScanPageStep] + after)[1..] == after;
    LowStep(c, s, ScanPageStep);
    StepKeeps(c, s, ScanPageStep);
    LowRun(c, Apply(c, s, ScanPageStep), after, s');
    LowIs(c, s');
  }

  /** A scan may evict exactly if no page is free when it starts. */
  lemma ScanStarts(c: Conf, s: State)
    requires Shape(c, s) && Enabled(c, s, StartScanStep)
    ensures Apply(c, s, StartScanStep) == s.(maint := Scanning(0, s.pageFree == 0, None, 0))
  {
  }

  /** The noted page was closed if the scan freed none, and freed at once if no read holds it. */
  ghost predicate Evicted(s: State, s': State) {
    && s.maint.Scanning? && (s.maint.low.Some? ==> s.maint.low.value < |s.pages| == |s'.pages|)
    && s'.maint == Waiting
    && if s.maint.evict && s.maint.low.Some? && !s.pages[s.maint.low.value].closed then
         var p := s.maint.low.value;
         if s.pages[p].refcount == 0
         then s'.pages[p].free && s'.pages[p].version == 0 && s'.freelist == [p] + s.freelist
         else s'.pages == s.pages[p := s.pages[p].(closed := true)] && s'.freelist == s.freelist
       else s' == s.(maint := Waiting)
  }

  lemma EvictCloses(c: Conf, s: State)
    requires Inv(c, s) && Enabled(c, s, EvictStep)
    ensures AssertsHold(c, s, EvictStep) && Evicted(s, Apply(c, s, EvictStep))
  {
    hide PagesOk, MaintOk, Buffers, Lists, Data;
    NoAssertFails(c, s, EvictStep);
  }

  lemma LowIs(c: Conf, s: State)
    requires Inv(c, s) && s.maint.Scanning? && s.maint.low.Some?
    ensures s.maint.low.value < |s.pages| && s.pages[s.maint.low.value].version == s.maint.lowVersion
  {
    hide PagesOk, Buffers, Lists, Data;
  }
}
