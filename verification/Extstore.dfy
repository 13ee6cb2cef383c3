/** The external storage engine as a machine with one step per critical section. */
module Extstore {
  import opened Prelude

  /** Sizes accepted by `extstore_init`. */
  datatype Conf = Conf(pageSize: nat, pageCount: nat, bucketCount: nat, wbufSize: nat, wbufCount: nat) {
    predicate Valid() {
      && pageSize > 0 && wbufSize > 0 && pageSize % wbufSize == 0
      && 1 <= bucketCount <= wbufCount
    }
  }

  /** A write buffer; the first |buf| - free bytes hold objects. */
  datatype Wbuf = Wbuf(buf: seq<Byte>, free: nat, offset: nat, full: bool) {
    function Used(): int {
      |buf| - free
    }
  }

  /** `claimed` is the source's `allocated`: bytes of the page handed to write buffers so far. */
  datatype Page = Page(
    version: nat, refcount: nat, claimed: nat, written: nat, bucket: nat,
    active: bool, closed: bool, free: bool, wbuf: Option<nat>, objCount: nat, bytesUsed: nat)

  /** A flush of a write buffer, from its submission until its callback returns it. */
  datatype Flush = Flush(page: nat, offset: nat, onDisk: bool)

  /** A stored object: where `extstore_write` put it, and the bytes handed in. */
  datatype Object = Object(page: nat, version: nat, offset: nat, bytes: seq<Byte>)

  /** A read that took a page reference: before or after its pread. */
  datatype Read = Read(target: Object, done: bool)

  /** The writer of a bucket between its critical sections. */
  datatype Writer = Idle | Picked(page: nat) | NeedsPage

  /** The maintenance thread between its critical sections. */
  datatype Maintenance = Waiting | Scanning(next: nat, evict: bool, low: Option<nat>, lowVersion: nat)

  datatype State = State(
    pages: seq<Page>,
    disk: seq<seq<Byte>>,
    freelist: seq<nat>,
    pageFree: nat,
    buckets: seq<seq<nat>>,
    version: nat,
    wbufs: seq<Wbuf>,
    wbufStack: seq<nat>,
    ioStack: nat,
    flushes: map<nat, Flush>,
    reading: map<nat, Read>,
    writers: seq<Writer>,
    maint: Maintenance,
    // history: every object ever stored, and what every finished read returned
    stored: set<Object>,
    answers: seq<(Object, Option<seq<Byte>>)>)

  const FREE_PAGE := Page(0, 0, 0, 0, 0, false, false, true, None, 0, 0)

  /** The list that `extstore_init` builds from the last page down to page 1. */
  function FreelistFrom(i: nat, count: nat): (list: seq<nat>)
    ensures |list| == if i < count then count - i else 0
    ensures forall k :: 0 <= k < |list| ==> list[k] == i + k
    decreases count - i
  {
    if i < count then [i] + FreelistFrom(i + 1, count) else []
  }

  ghost predicate Initial(c: Conf, s: State) {
    && |s.pages| == c.pageCount && (forall p :: 0 <= p < c.pageCount ==> s.pages[p] == FREE_PAGE)
    && |s.disk| == c.pageCount && (forall p :: 0 <= p < c.pageCount ==> |s.disk[p]| == c.pageSize)
    && s.freelist == FreelistFrom(1, c.pageCount)
    && s.pageFree == |s.freelist|
    && |s.buckets| == c.bucketCount && (forall b :: 0 <= b < c.bucketCount ==> s.buckets[b] == [])
    && s.version == 1
    && |s.wbufs| == c.wbufCount
    && (forall w :: 0 <= w < c.wbufCount ==>
          |s.wbufs[w].buf| == c.wbufSize && s.wbufs[w].free == c.wbufSize && !s.wbufs[w].full)
    && s.wbufStack == FreelistFrom(0, c.wbufCount)
    && s.ioStack == c.wbufCount
    && s.flushes == map[] && s.reading == map[]
    && |s.writers| == c.bucketCount && (forall b :: 0 <= b < c.bucketCount ==> s.writers[b] == Idle)
    && s.maint == Waiting
    && s.stored == {} && s.answers == []
  }

  /** Every index in the state is in range and every buffer has its size. */
  ghost predicate Shape(c: Conf, s: State) {
    && c.Valid()
    && |s.pages| == |s.disk| == c.pageCount
    && |s.wbufs| == c.wbufCount
    && |s.buckets| == |s.writers| == c.bucketCount
    && (forall p :: 0 <= p < c.pageCount ==> |s.disk[p]| == c.pageSize)
    && (forall p :: 0 <= p < c.pageCount && s.pages[p].wbuf.Some? ==> s.pages[p].wbuf.value < c.wbufCount)
    && (forall w :: 0 <= w < c.wbufCount ==> |s.wbufs[w].buf| == c.wbufSize && s.wbufs[w].free <= c.wbufSize)
    && (forall k :: 0 <= k < |s.wbufStack| ==> s.wbufStack[k] < c.wbufCount)
    && (forall k :: 0 <= k < |s.freelist| ==> s.freelist[k] < c.pageCount)
    && (forall b, k :: 0 <= b < c.bucketCount && 0 <= k < |s.buckets[b]| ==> s.buckets[b][k] < c.pageCount)
    && (forall b :: 0 <= b < c.bucketCount && s.writers[b].Picked? ==> s.writers[b].page < c.pageCount)
    && (forall w :: w in s.flushes ==> w < c.wbufCount && s.flushes[w].page < c.pageCount)
    && (forall r :: r in s.reading ==> s.reading[r].target.page < c.pageCount)
    && (s.maint.Scanning? && s.maint.low.Some? ==> s.maint.low.value < c.pageCount)
  }

  // ----- pages and write buffers -----

  /** `_allocate_page`: the new state and the page, if one was free. */
  function AllocatePage(c: Conf, s: State, b: nat): (State, Option<nat>)
    requires Shape(c, s) && b < c.bucketCount
    requires s.pageFree > 0 ==> s.freelist != []
  {
    if s.pageFree > 0 then
      var p := s.freelist[0];
      (s.(freelist := s.freelist[1..],
          buckets := s.buckets[b := [p] + s.buckets[b]],
          pages := s.pages[p := s.pages[p].(active := true, free := false, closed := false,
                                            version := s.version, bucket := b)],
          version := s.version + 1,
          pageFree := s.pageFree - 1),
       Some(p))
    else (s, None)
  }

  /** `_allocate_wbuf` */
  function AllocateWbuf(c: Conf, s: State, p: nat): (s': State)
    requires Shape(c, s) && p < c.pageCount
    ensures Shape(c, s')
  {
    if s.wbufStack == [] then s
    else
      var w, page := s.wbufStack[0], s.pages[p];
      s.(wbufStack := s.wbufStack[1..],
         wbufs := s.wbufs[w := s.wbufs[w].(offset := page.claimed, free := c.wbufSize, full := false)],
         pages := s.pages[p := page.(claimed := page.claimed + c.wbufSize, wbuf := Some(w))])
  }

  /** `_submit_wbuf`, and the caller marking the buffer full. */
  function SubmitWbuf(c: Conf, s: State, p: nat): (s': State)
    requires Shape(c, s) && p < c.pageCount && s.pages[p].wbuf.Some?
    requires s.ioStack > 0
    ensures Shape(c, s')
  {
    var w := s.pages[p].wbuf.value;
    var wbuf := s.wbufs[w];
    s.(ioStack := s.ioStack - 1,
       wbufs := s.wbufs[w := wbuf.(buf := wbuf.buf[..wbuf.Used()] + seq(wbuf.free, (_: nat) => 0), full := true)],
       flushes := s.flushes[w := Flush(p, wbuf.offset, false)])
  }

  /** The caller's copy into the buffer and `extstore_write`. */
  function PutObject(c: Conf, s: State, p: nat, bytes: seq<Byte>): (s': State)
    ensures |s'.writers| == |s.writers|
    requires Shape(c, s) && p < c.pageCount && s.pages[p].wbuf.Some?
    requires s.wbufs[s.pages[p].wbuf.value].free >= |bytes|
  {
    var page := s.pages[p];
    var w := page.wbuf.value;
    var wbuf := s.wbufs[w];
    var at := wbuf.Used();
    s.(wbufs := s.wbufs[w := wbuf.(buf := wbuf.buf[..at] + bytes + wbuf.buf[at + |bytes|..],
                                   free := wbuf.free - |bytes|)],
       pages := s.pages[p := page.(bytesUsed := page.bytesUsed + |bytes|, objCount := page.objCount + 1)],
       stored := s.stored + {Object(p, page.version, wbuf.offset + at, bytes)})
  }

  // ----- the writer's critical sections -----

  /** First section of `extstore_write_request`: the bucket's page, or a new one. */
  function PickPage(c: Conf, s: State, b: nat): State
    requires Shape(c, s) && b < c.bucketCount
    requires s.pageFree > 0 ==> s.freelist != []
  {
    if s.buckets[b] != [] then s.(writers := s.writers[b := Picked(s.buckets[b][0])])
    else
      var (s', p) := AllocatePage(c, s, b);
      if p.None? then s' else s'.(writers := s'.writers[b := Picked(p.value)])
  }

  /** The page cannot take this or any further object. */
  predicate PageFull(c: Conf, s: State, p: nat)
    requires Shape(c, s) && p < c.pageCount
  {
    var page := s.pages[p];
    || !page.active
    || ((page.wbuf.None? || s.wbufs[page.wbuf.value].full) && page.claimed >= c.pageSize)
  }

  predicate MustSubmit(c: Conf, s: State, p: nat, len: nat)
    requires Shape(c, s) && p < c.pageCount
  {
    && s.pages[p].wbuf.Some?
    && var wbuf := s.wbufs[s.pages[p].wbuf.value];
       wbuf.free < len && !wbuf.full
  }

  predicate MustAllocate(c: Conf, s: State, p: nat)
    requires Shape(c, s) && p < c.pageCount
  {
    s.pages[p].wbuf.None? && s.pages[p].claimed < c.pageSize
  }

  predicate HasRoom(c: Conf, s: State, p: nat, len: nat)
    requires Shape(c, s) && p < c.pageCount
  {
    && s.pages[p].wbuf.Some?
    && var wbuf := s.wbufs[s.pages[p].wbuf.value];
       !wbuf.full && wbuf.free >= len
  }

  /** Buffer management on an open page that is locked: submit, then attach a fresh buffer. */
  function MakeRoom(c: Conf, s: State, p: nat, len: nat): (s': State)
    requires Shape(c, s) && p < c.pageCount
    requires MustSubmit(c, s, p, len) ==> s.ioStack > 0
    ensures Shape(c, s')
  {
    if MustSubmit(c, s, p, len) then SubmitWbuf(c, s, p)
    else if MustAllocate(c, s, p) then AllocateWbuf(c, s, p)
    else s
  }

  /** Second section of `extstore_write_request`, with `extstore_write` when it succeeds. */
  function TryWrite(c: Conf, s: State, b: nat, bytes: seq<Byte>): State
    requires Shape(c, s) && b < c.bucketCount && s.writers[b].Picked?
    requires var p := s.writers[b].page;
             !PageFull(c, s, p) && MustSubmit(c, s, p, |bytes|) ==> s.ioStack > 0
  {
    var p := s.writers[b].page;
    if PageFull(c, s, p) then s.(writers := s.writers[b := NeedsPage])
    else
      var s1 := MakeRoom(c, s, p, |bytes|);
      var s2 := if HasRoom(c, s1, p, |bytes|) then PutObject(c, s1, p, bytes) else s1;
      s2.(writers := s2.writers[b := Idle])
  }

  /** Third section, reached when the page was full: allocate for the next attempt. */
  function ReplacePage(c: Conf, s: State, b: nat): State
    requires Shape(c, s) && b < c.bucketCount
    requires s.pageFree > 0 ==> s.freelist != []
  {
    var s' := AllocatePage(c, s, b).0;
    s'.(writers := s'.writers[b := Idle])
  }

  // ----- the other threads -----

  /** The I/O thread's pwrite of a submitted buffer. */
  function WriteToDisk(c: Conf, s: State, w: nat): State
    requires Shape(c, s) && w in s.flushes
    requires s.flushes[w].offset + c.wbufSize <= c.pageSize
  {
    var f := s.flushes[w];
    var was := s.disk[f.page];
    s.(disk := s.disk[f.page := was[..f.offset] + s.wbufs[w].buf + was[f.offset + c.wbufSize..]],
       flushes := s.flushes[w := f.(onDisk := true)])
  }

  /** `_wbuf_cb` */
  function WbufCallback(c: Conf, s: State, w: nat): State
    requires Shape(c, s) && w in s.flushes
  {
    var p := s.flushes[w].page;
    var page := s.pages[p];
    var written := page.written + c.wbufSize;
    s.(pages := s.pages[p := page.(written := written, wbuf := None,
                                   active := if written == c.pageSize then false else page.active)],
       wbufStack := [w] + s.wbufStack,
       ioStack := s.ioStack + 1,
       flushes := s.flushes - {w})
  }

  /** The bytes of an object as `_read_from_wbuf` copies them. */
  function FromWbuf(c: Conf, s: State, o: Object): seq<Byte>
    requires Shape(c, s) && o.page < c.pageCount && s.pages[o.page].wbuf.Some?
    requires var wbuf := s.wbufs[s.pages[o.page].wbuf.value];
             wbuf.offset <= o.offset && o.offset + |o.bytes| <= wbuf.offset + c.wbufSize
  {
    var wbuf := s.wbufs[s.pages[o.page].wbuf.value];
    wbuf.buf[o.offset - wbuf.offset..o.offset - wbuf.offset + |o.bytes|]
  }

  predicate Servable(c: Conf, s: State, o: Object)
    requires Shape(c, s) && o.page < c.pageCount
  {
    var page := s.pages[o.page];
    !page.free && !page.closed && page.version == o.version
  }

  predicate FromBuffer(c: Conf, s: State, o: Object)
    requires Shape(c, s) && o.page < c.pageCount
  {
    s.pages[o.page].active && o.offset >= s.pages[o.page].written
  }

  /** First section of a read on the I/O thread. */
  function StartRead(c: Conf, s: State, r: nat, o: Object): State
    requires Shape(c, s) && o.page < c.pageCount
    requires Servable(c, s, o) && FromBuffer(c, s, o) ==>
               && s.pages[o.page].wbuf.Some?
               && var wbuf := s.wbufs[s.pages[o.page].wbuf.value];
                  wbuf.offset <= o.offset && o.offset + |o.bytes| <= wbuf.offset + c.wbufSize
  {
    if !Servable(c, s, o) then s.(answers := s.answers + [(o, None)])
    else if FromBuffer(c, s, o) then s.(answers := s.answers + [(o, Some(FromWbuf(c, s, o)))])
    else
      var page := s.pages[o.page];
      s.(pages := s.pages[o.page := page.(refcount := page.refcount + 1)],
         reading := s.reading[r := Read(o, false)])
  }

  /** The pread and the callback that receives its bytes. */
  function ReadFromDisk(c: Conf, s: State, r: nat): State
    requires Shape(c, s) && r in s.reading
    requires s.reading[r].target.offset + |s.reading[r].target.bytes| <= c.pageSize
  {
    var o := s.reading[r].target;
    s.(reading := s.reading[r := Read(o, true)],
       answers := s.answers + [(o, Some(s.disk[o.page][o.offset..o.offset + |o.bytes|]))])
  }

  /** Last section of a read: drop the reference. */
  function EndRead(c: Conf, s: State, r: nat): State
    requires Shape(c, s) && r in s.reading
    requires s.pages[s.reading[r].target.page].refcount > 0
  {
    var p := s.reading[r].target.page;
    s.(pages := s.pages[p := s.pages[p].(refcount := s.pages[p].refcount - 1)],
       reading := s.reading - {r})
  }

  /** `extstore_delete`; accounting saturates at zero. */
  function Delete(c: Conf, s: State, p: nat, version: nat, count: nat, bytes: nat): State
    requires Shape(c, s) && p < c.pageCount
  {
    var page := s.pages[p];
    if page.closed || page.version != version then s
    else s.(pages := s.pages[p := page.(
              bytesUsed := if page.bytesUsed >= bytes then page.bytesUsed - bytes else 0,
              objCount := if page.objCount >= count then page.objCount - count else 0)])
  }

  /** `extstore_close_page` */
  function ClosePage(c: Conf, s: State, p: nat, version: nat): State
    requires Shape(c, s) && p < c.pageCount
  {
    var page := s.pages[p];
    if page.closed || page.version != version then s
    else s.(pages := s.pages[p := page.(closed := true)])
  }

  /** `_free_page` */
  function FreePage(c: Conf, s: State, p: nat): State
    requires Shape(c, s) && p < c.pageCount && s.pages[p].bucket < c.bucketCount
  {
    var b := s.pages[p].bucket;
    s.(buckets := s.buckets[b := Without(s.buckets[b], p)],
       pages := s.pages[p := s.pages[p].(version := 0, objCount := 0, bytesUsed := 0, claimed := 0, written := 0,
                                         bucket := 0, active := false, closed := false, free := true)],
       freelist := [p] + s.freelist,
       pageFree := s.pageFree + 1)
  }

  /** The maintenance thread wakes up. */
  function StartScan(c: Conf, s: State): State {
    s.(maint := Scanning(0, s.pageFree == 0, None, 0))
  }

  /** One page of the maintenance scan. */
  function ScanPage(c: Conf, s: State): State
    requires Shape(c, s) && s.maint.Scanning? && s.maint.next < c.pageCount
    requires s.pages[s.maint.next].bucket < c.bucketCount
  {
    var p, m := s.maint.next, s.maint;
    var page := s.pages[p];
    if page.active || page.free then s.(maint := m.(next := p + 1))
    else
      if page.objCount > 0 && !page.closed then
        if m.low.None? || page.version < m.lowVersion
        then s.(maint := m.(next := p + 1, low := Some(p), lowVersion := page.version))
        else s.(maint := m.(next := p + 1))
      else if page.refcount == 0 then FreePage(c, s, p).(maint := m.(next := p + 1, evict := false))
      else s.(maint := m.(next := p + 1))
  }

  /** The end of the scan: evict the oldest page seen if nothing was freed. */
  function Evict(c: Conf, s: State): State
    requires Shape(c, s) && s.maint.Scanning? && s.maint.next == c.pageCount
    requires s.maint.low.Some? ==> s.pages[s.maint.low.value].bucket < c.bucketCount
  {
    var m := s.maint;
    if m.evict && m.low.Some? && !s.pages[m.low.value].closed then
      var p := m.low.value;
      var s' := s.(pages := s.pages[p := s.pages[p].(closed := true)], maint := Waiting);
      if s.pages[p].refcount == 0 then FreePage(c, s', p) else s'
    else s.(maint := Waiting)
  }
}
