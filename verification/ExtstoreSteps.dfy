/** Each step of the external storage engine keeps the invariant. */
module ExtstoreSteps {
  import opened Prelude
  import opened Extstore
  import opened ExtstoreInvariant

  // ----- steps that touch only counters, the closed flag and the reads -----

  ghost predicate Quiet(c: Conf, s: State, s': State) {
    && |s'.pages| == |s.pages|
    && s' == s.(pages := s'.pages, reading := s'.reading, answers := s'.answers)
    && (forall p :: 0 <= p < |s.pages| ==>
          && s'.pages[p] == s.pages[p].(refcount := s'.pages[p].refcount, closed := s'.pages[p].closed,
                                        objCount := s'.pages[p].objCount, bytesUsed := s'.pages[p].bytesUsed)
          && (s.pages[p].free ==> s'.pages[p].refcount == s.pages[p].refcount))
    && (forall r :: r in s'.reading ==> s'.reading[r].target.page < c.pageCount)
  }

  lemma QuietLocal(c: Conf, s: State, s': State)
    requires Local(c, s) && Quiet(c, s, s')
    ensures Local(c, s')
  {
    forall p | 0 <= p < c.pageCount
      ensures PageOk(c, s', p)
    {
      assert PageOk(c, s, p);
    }
  }

  lemma QuietKeeps(c: Conf, s: State, s': State)
    requires Local(c, s) && Buffers(c, s) && Lists(c, s) && StoredOk(c, s) && Quiet(c, s, s')
    ensures Local(c, s') && Buffers(c, s') && Lists(c, s') && StoredOk(c, s')
  {
    hide WbufsOk, FlushesOk, ListsOk, BucketsOk, StoredOk, PagesOk, MaintOk;
    QuietLocal(c, s, s');
    WbufsFrame(c, s, s');
    FlushesFrame(c, s, s');
    ListsFrame(c, s, s');
    BucketsFrame(c, s, s');
    StoredFrame(c, s, s');
  }

  // ----- allocating a page -----

  lemma AllocatePageLocal(c: Conf, s: State, b: nat)
    requires Local(c, s) && ListsOk(c, s) && b < c.bucketCount && s.pageFree > 0
    ensures Local(c, AllocatePage(c, s, b).0)
  {
    hide ListsOk, PageOk;
    FreeHead(c, s);
    var s' := AllocatePage(c, s, b).0;
    forall q | 0 <= q < c.pageCount
      ensures PageOk(c, s', q)
    {
      AllocatePageOk(c, s, b, q);
    }
  }

  lemma AllocatePageOk(c: Conf, s: State, b: nat, q: nat)
    requires Shape(c, s) && b < c.bucketCount && s.pageFree > 0 && s.freelist != [] && q < c.pageCount
    requires s.version >= 1 && s.pages[s.freelist[0]].free && PageOk(c, s, q)
    requires Shape(c, AllocatePage(c, s, b).0)
    ensures PageOk(c, AllocatePage(c, s, b).0, q)
  {
    hide Multiple;
  }

  lemma AllocatePageLists(c: Conf, s: State, b: nat)
    requires Local(c, s) && ListsOk(c, s) && b < c.bucketCount && s.pageFree > 0
    requires Shape(c, AllocatePage(c, s, b).0)
    ensures ListsOk(c, AllocatePage(c, s, b).0)
  {
    hide PagesOk, MaintOk;
    AllocateFreelist(c, s, b);
    AllocateBuckets(c, s, b);
    hide Distinct;
  }

  lemma AllocateFreelist(c: Conf, s: State, b: nat)
    requires Shape(c, s) && ListsOk(c, s) && b < c.bucketCount && s.pageFree > 0
    ensures var s' := AllocatePage(c, s, b).0;
            && s'.pageFree == |s'.freelist| && Distinct(s'.freelist)
            && (forall p :: p in s'.freelist ==> p != 0 && s'.pages[p].free)
            && (forall p :: 0 < p < c.pageCount && s'.pages[p].free ==> p in s'.freelist)
  {
    hide Distinct;
    FreeApart(c, s);
    var p, s' := s.freelist[0], AllocatePage(c, s, b).0;
    assert s.freelist == [p] + s'.freelist;
    assert forall q :: q in s'.freelist ==> q in s.freelist;
    assert forall q :: q in s.freelist && q != p ==> q in s'.freelist;
  }

  lemma FreeApart(c: Conf, s: State)
    requires Shape(c, s) && ListsOk(c, s) && s.pageFree > 0
    ensures s.freelist != [] && s.freelist[0] !in s.freelist[1..] && Distinct(s.freelist[1..])
    ensures s.freelist[0] in s.freelist
  {
    hide Shape;
  }

  lemma AllocateBuckets(c: Conf, s: State, b: nat)
    requires Shape(c, s) && ListsOk(c, s) && b < c.bucketCount && s.pageFree > 0
    ensures var s' := AllocatePage(c, s, b).0;
            && (forall d :: 0 <= d < c.bucketCount ==> Distinct(s'.buckets[d]))
            && (forall d, p :: 0 <= d < c.bucketCount && p in s'.buckets[d] ==>
                  p < c.pageCount && !s'.pages[p].free && s'.pages[p].bucket == d)
            && (forall p :: 0 <= p < c.pageCount && !s'.pages[p].free ==>
                  s'.pages[p].bucket < c.bucketCount && p in s'.buckets[s'.pages[p].bucket])
  {
    var p := s.freelist[0];
    assert p in s.freelist && p !in s.buckets[b];
    PushDistinct(s.buckets[b], p);
    hide Distinct;
  }

  /** The new page becomes the head; the pages behind it must all be full. */
  lemma AllocatePageBuckets(c: Conf, s: State, b: nat)
    requires Local(c, s) && Lists(c, s) && b < c.bucketCount && s.pageFree > 0
    requires Claimed(c, s, s.buckets[b])
    requires Shape(c, AllocatePage(c, s, b).0)
    ensures var s' := AllocatePage(c, s, b).0;
            && (forall d :: 0 <= d < c.bucketCount && d != b ==> BucketOk(c, s', d))
            && s'.buckets[b] == [s.freelist[0]] + s.buckets[b]
            && Claimed(c, s', s.buckets[b])
  {
    var p, s' := s.freelist[0], AllocatePage(c, s, b).0;
    assert forall q :: 0 <= q < c.pageCount ==> s'.pages[q].claimed == s.pages[q].claimed;
    forall d | 0 <= d < c.bucketCount && d != b
      ensures BucketOk(c, s', d)
    {
      assert BucketOk(c, s, d);
    }
  }

  lemma AllocatePageRest(c: Conf, s: State, b: nat)
    requires Inv(c, s) && b < c.bucketCount && s.pageFree > 0
    requires Shape(c, AllocatePage(c, s, b).0)
    ensures Buffers(c, AllocatePage(c, s, b).0) && Data(c, AllocatePage(c, s, b).0)
  {
    hide WbufsOk, FlushesOk, ListsOk, BucketsOk, StoredOk, ReadsOk, PagesOk, MaintOk;
    FreeHead(c, s);
    var s' := AllocatePage(c, s, b).0;
    WbufsFrame(c, s, s');
    FlushesFrame(c, s, s');
    StoredFrame(c, s, s');
    ReadsFrame(c, s, s');
  }

  lemma FreeHead(c: Conf, s: State)
    requires Shape(c, s) && PagesOk(c, s) && ListsOk(c, s) && s.pageFree > 0
    ensures s.freelist != [] && s.freelist[0] < c.pageCount && s.freelist[0] != 0
    ensures s.pages[s.freelist[0]].free && PageOk(c, s, s.freelist[0])
  {
    assert s.freelist[0] in s.freelist;
  }

  ghost function Moved(s: State, b: nat, next: Writer): State
    requires b < |s.writers|
  {
    s.(writers := s.writers[b := next])
  }

  lemma MovedLocal(c: Conf, s: State, b: nat, next: Writer)
    requires Local(c, s) && b < c.bucketCount
    requires next.Picked? ==> next.page < c.pageCount
    ensures Local(c, Moved(s, b, next))
  {
    forall p | 0 <= p < c.pageCount
      ensures PageOk(c, Moved(s, b, next), p)
    {
      assert PageOk(c, s, p);
    }
  }

  lemma MovedBuckets(c: Conf, s: State, b: nat, next: Writer)
    requires Shape(c, s) && b < c.bucketCount && Shape(c, Moved(s, b, next))
    requires forall d :: 0 <= d < c.bucketCount && d != b ==> BucketOk(c, s, d)
    requires BucketOk(c, Moved(s, b, next), b)
    ensures BucketsOk(c, Moved(s, b, next))
  {
    forall d | 0 <= d < c.bucketCount && d != b
      ensures BucketOk(c, Moved(s, b, next), d)
    {
      assert BucketOk(c, s, d);
    }
    hide Shape, BucketOk;
  }

  /** A step that only moves the writer of bucket b needs care about that bucket only. */
  lemma MovedKeeps(c: Conf, s: State, b: nat, next: Writer)
    requires Local(c, s) && b < c.bucketCount
    requires next.Picked? ==> next.page < c.pageCount
    requires Buffers(c, s) && ListsOk(c, s) && Data(c, s)
    requires forall d :: 0 <= d < c.bucketCount && d != b ==> BucketOk(c, s, d)
    requires Shape(c, Moved(s, b, next)) ==> BucketOk(c, Moved(s, b, next), b)
    ensures Inv(c, Moved(s, b, next))
  {
    hide WbufsOk, FlushesOk, ListsOk, StoredOk, ReadsOk, PagesOk, MaintOk, BucketOk;
    var s' := Moved(s, b, next);
    MovedLocal(c, s, b, next);
    MovedBuckets(c, s, b, next);
    WbufsFrame(c, s, s');
    FlushesFrame(c, s, s');
    ListsFrame(c, s, s');
    StoredFrame(c, s, s');
    ReadsFrame(c, s, s');
  }

  /** Allocating under the writer's claim on its bucket, then moving the writer on. */
  lemma AllocateAndMove(c: Conf, s: State, b: nat, next: Writer)
    requires Inv(c, s) && b < c.bucketCount && s.pageFree > 0
    requires Claimed(c, s, s.buckets[b])
    requires next == Idle || next == Picked(s.freelist[0])
    ensures Inv(c, Moved(AllocatePage(c, s, b).0, b, next))
  {
    var s1 := AllocatePage(c, s, b).0;
    AllocatePageLocal(c, s, b);
    AllocatePageLists(c, s, b);
    AllocatePageBuckets(c, s, b);
    AllocatePageRest(c, s, b);
    assert s1.buckets[b][1..] == s.buckets[b];
    hide PagesOk, MaintOk, WbufsOk, FlushesOk, ListsOk, StoredOk, ReadsOk, AnswersOk, AllocatePage;
    MovedKeeps(c, s1, b, next);
  }

  lemma PickPageKeeps(c: Conf, s: State, b: nat)
    requires Inv(c, s) && b < c.bucketCount && s.writers[b].Idle?
    ensures Inv(c, PickPage(c, s, b))
  {
    assert s.pageFree > 0 ==> s.freelist != [];
    hide PagesOk, MaintOk, WbufsOk, FlushesOk, ListsOk, StoredOk, ReadsOk, AnswersOk;
    assert BucketOk(c, s, b);
    if s.buckets[b] == [] {
      if s.pageFree > 0 {
        AllocateAndMove(c, s, b, Picked(s.freelist[0]));
      }
    } else {
      MovedKeeps(c, s, b, Picked(s.buckets[b][0]));
    }
  }

  lemma ReplacePageKeeps(c: Conf, s: State, b: nat)
    requires Inv(c, s) && b < c.bucketCount && s.writers[b].NeedsPage?
    ensures Inv(c, ReplacePage(c, s, b))
  {
    assert s.pageFree > 0 ==> s.freelist != [];
    hide PagesOk, MaintOk, WbufsOk, FlushesOk, ListsOk, StoredOk, ReadsOk, AnswersOk;
    assert BucketOk(c, s, b);
    if s.pageFree > 0 {
      AllocateAndMove(c, s, b, Idle);
    } else {
      MovedKeeps(c, s, b, Idle);
    }
  }

  // ----- attaching a write buffer -----

  lemma {:induction false} TimesMultiple(size: nat, k: nat)
    requires size > 0
    ensures Multiple(size, k * size)
  {
    if k > 0 {
      TimesMultiple(size, k - 1);
      assert k * size - size == (k - 1) * size;
    }
  }

  lemma ModMultiple(size: nat, x: nat)
    requires size > 0 && x % size == 0
    ensures Multiple(size, x)
  {
    TimesMultiple(size, x / size);
    assert x == (x / size) * size;
  }

  lemma {:induction false} RoomForOne(size: nat, page: nat, written: nat)
    requires size > 0 && Multiple(size, page) && Multiple(size, written) && written < page
    ensures written + size <= page
  {
    if written > 0 {
      RoomForOne(size, page - size, written - size);
    }
  }

  lemma AllocateWbufLocal(c: Conf, s: State, p: nat)
    requires Local(c, s) && WbufsOk(c, s) && p < c.pageCount && MustAllocate(c, s, p) && !PageFull(c, s, p)
    requires s.wbufStack != []
    ensures Local(c, AllocateWbuf(c, s, p))
  {
    var s', w := AllocateWbuf(c, s, p), s.wbufStack[0];
    assert w in s.wbufStack;
    forall q | 0 <= q < c.pageCount
      ensures PageOk(c, s', q)
    {
      assert PageOk(c, s, q);
      if q == p {
        ModMultiple(c.wbufSize, c.pageSize);
        RoomForOne(c.wbufSize, c.pageSize, s.pages[p].written);
      } else {
        assert s.pages[q].wbuf.Some? ==> s'.wbufs[s.pages[q].wbuf.value] == s.wbufs[s.pages[q].wbuf.value];
      }
    }
  }

  lemma AllocateWbufBuffers(c: Conf, s: State, p: nat)
    requires Shape(c, s) && Buffers(c, s) && p < c.pageCount && s.pages[p].wbuf.None?
    requires s.wbufStack != []
    ensures Buffers(c, AllocateWbuf(c, s, p))
  {
    hide Attached, FlushOk;
    AllocateWbufAttached(c, s, p);
    AllocateWbufApart(c, s, p);
    var s' := AllocateWbuf(c, s, p);
    forall v | v in s'.flushes
      ensures FlushOk(c, s', v)
    {
      AllocateWbufFlush(c, s, p, v);
    }
  }

  lemma AllocateWbufApart(c: Conf, s: State, p: nat)
    requires Shape(c, s) && WbufsOk(c, s) && p < c.pageCount && s.pages[p].wbuf.None? && s.wbufStack != []
    ensures var s' := AllocateWbuf(c, s, p);
            && Distinct(s'.wbufStack)
            && (forall q :: 0 <= q < c.pageCount && s'.pages[q].wbuf.Some? ==>
                  s'.pages[q].wbuf.value !in s'.wbufStack)
            && (forall q, r :: 0 <= q < r < c.pageCount && s'.pages[q].wbuf.Some? ==>
                  s'.pages[q].wbuf != s'.pages[r].wbuf)
  {
    hide Attached;
    var s', w := AllocateWbuf(c, s, p), s.wbufStack[0];
    assert s.wbufStack == [w] + s'.wbufStack;
    assert w in s.wbufStack && w !in s'.wbufStack;
  }

  lemma AllocateWbufFlush(c: Conf, s: State, p: nat, v: nat)
    requires Shape(c, s) && WbufsOk(c, s) && p < c.pageCount && s.pages[p].wbuf.None? && s.wbufStack != []
    requires v in s.flushes && FlushOk(c, s, v)
    ensures v in AllocateWbuf(c, s, p).flushes && FlushOk(c, AllocateWbuf(c, s, p), v)
  {
    hide Attached, OnDisk, Distinct;
    assert s.wbufStack[0] in s.wbufStack;
  }

  lemma AllocateWbufAttached(c: Conf, s: State, p: nat)
    requires Shape(c, s) && WbufsOk(c, s) && p < c.pageCount && s.pages[p].wbuf.None? && s.wbufStack != []
    ensures var s' := AllocateWbuf(c, s, p);
            forall v :: 0 <= v < c.wbufCount ==> v in s'.wbufStack || Attached(s', v)
  {
    var s', w := AllocateWbuf(c, s, p), s.wbufStack[0];
    assert s.wbufStack == [w] + s'.wbufStack;
    assert s'.pages[p].wbuf == Some(w);
    forall v | 0 <= v < c.wbufCount && v !in s'.wbufStack && v != w
      ensures Attached(s', v)
    {
      assert v !in s.wbufStack && Attached(s, v);
      var q :| 0 <= q < |s.pages| && s.pages[q].wbuf == Some(v);
      assert s'.pages[q].wbuf == Some(v);
    }
  }

  /** No attached buffer is on the stack, so no other page's objects are touched. */
  lemma AllocateWbufExtends(c: Conf, s: State, p: nat)
    requires Shape(c, s) && WbufsOk(c, s) && p < c.pageCount && s.pages[p].wbuf.None?
    ensures forall q :: 0 <= q < c.pageCount ==> Extends(c, s, AllocateWbuf(c, s, p), q)
  {
    assert s.wbufStack != [] ==> s.wbufStack[0] in s.wbufStack;
  }

  lemma AllocateWbufKeeps(c: Conf, s: State, p: nat)
    requires Inv(c, s) && p < c.pageCount && MustAllocate(c, s, p) && !PageFull(c, s, p)
    ensures Inv(c, AllocateWbuf(c, s, p))
  {
    hide Extends, PagesOk, MaintOk, WbufsOk, FlushesOk, ListsOk, BucketsOk, StoredOk, ReadsOk;
    if s.wbufStack != [] {
      var s' := AllocateWbuf(c, s, p);
      AllocateWbufLocal(c, s, p);
      AllocateWbufBuffers(c, s, p);
      AllocateWbufExtends(c, s, p);
      ListsFrame(c, s, s');
      BucketsFrame(c, s, s');
      StoredFrame(c, s, s');
      ReadsFrame(c, s, s');
    }
  }

  // ----- submitting a full buffer -----

  ghost function UpTo(n: nat): (all: set<nat>)
    ensures |all| == n
    ensures forall i :: i in all <==> 0 <= i < n
  {
    if n == 0 then {} else UpTo(n - 1) + {n - 1}
  }

  lemma SubsetSize<T>(a: set<T>, b: set<T>)
    requires a <= b
    ensures |a| <= |b|
  {
    assert b == a + (b - a);
  }

  /** A buffer about to be submitted is in no flush, so an I/O object is left for it. */
  lemma IoLeft(c: Conf, s: State, p: nat)
    requires Shape(c, s) && FlushesOk(c, s) && p < c.pageCount
    requires s.pages[p].wbuf.Some? && !s.wbufs[s.pages[p].wbuf.value].full
    ensures s.pages[p].wbuf.value !in s.flushes
    ensures s.ioStack > 0
  {
    var w := s.pages[p].wbuf.value;
    assert s.flushes.Keys + {w} <= UpTo(c.wbufCount);
    SubsetSize(s.flushes.Keys + {w}, UpTo(c.wbufCount));
  }

  lemma SubmitWbufFlushes(c: Conf, s: State, p: nat)
    requires Shape(c, s) && Buffers(c, s) && p < c.pageCount
    requires s.pages[p].wbuf.Some? && !s.wbufs[s.pages[p].wbuf.value].full && s.ioStack > 0
    ensures FlushesOk(c, SubmitWbuf(c, s, p))
  {
    hide WbufsOk, FlushOk;
    var s', w := SubmitWbuf(c, s, p), s.pages[p].wbuf.value;
    IoLeft(c, s, p);
    MapGrows(s.flushes, w, Flush(p, s.wbufs[w].offset, false));
    forall v | v in s'.flushes
      ensures FlushOk(c, s', v)
    {
      SubmitWbufFlush(c, s, p, v);
    }
  }

  lemma SubmitWbufFlush(c: Conf, s: State, p: nat, v: nat)
    requires Shape(c, s) && p < c.pageCount && s.pages[p].wbuf.Some? && s.ioStack > 0
    requires v == s.pages[p].wbuf.value || (v in s.flushes && FlushOk(c, s, v))
    ensures v in SubmitWbuf(c, s, p).flushes && FlushOk(c, SubmitWbuf(c, s, p), v)
  {
    hide OnDisk;
  }

  lemma SubmitWbufLocal(c: Conf, s: State, p: nat)
    requires Local(c, s) && p < c.pageCount && s.pages[p].wbuf.Some? && s.ioStack > 0
    ensures Local(c, SubmitWbuf(c, s, p))
  {
    var s' := SubmitWbuf(c, s, p);
    forall q | 0 <= q < c.pageCount
      ensures PageOk(c, s', q)
    {
      assert PageOk(c, s, q);
    }
  }

  lemma SubmitWbufExtends(c: Conf, s: State, p: nat)
    requires Shape(c, s) && p < c.pageCount && s.pages[p].wbuf.Some? && s.ioStack > 0
    ensures forall q :: 0 <= q < c.pageCount ==> Extends(c, s, SubmitWbuf(c, s, p), q)
  {
  }

  lemma SubmitWbufKeeps(c: Conf, s: State, p: nat)
    requires Inv(c, s) && p < c.pageCount
    requires s.pages[p].wbuf.Some? && !s.wbufs[s.pages[p].wbuf.value].full && s.ioStack > 0
    ensures Inv(c, SubmitWbuf(c, s, p))
  {
    hide Shape, SubmitWbuf, Extends, PagesOk, MaintOk, WbufsOk, FlushesOk, ListsOk, BucketsOk, StoredOk, ReadsOk;
    Sizes(c, s);
    var s' := SubmitWbuf(c, s, p);
    SubmitWbufSame(c, s, p);
    SubmitWbufLocal(c, s, p);
    SubmitWbufFlushes(c, s, p);
    SubmitWbufExtends(c, s, p);
    WbufsFrame(c, s, s');
    ListsFrame(c, s, s');
    BucketsFrame(c, s, s');
    StoredFrame(c, s, s');
    ReadsFrame(c, s, s');
  }

  lemma SubmitWbufSame(c: Conf, s: State, p: nat)
    requires Shape(c, s) && p < c.pageCount && s.pages[p].wbuf.Some? && s.ioStack > 0
    ensures var s' := SubmitWbuf(c, s, p);
            s' == s.(ioStack := s'.ioStack, wbufs := s'.wbufs, flushes := s'.flushes)
  {
  }

  // ----- storing an object -----

  lemma PutObjectLocal(c: Conf, s: State, p: nat, bytes: seq<Byte>)
    requires Local(c, s) && p < c.pageCount && !s.pages[p].free && HasRoom(c, s, p, |bytes|)
    ensures Local(c, PutObject(c, s, p, bytes))
  {
    var s' := PutObject(c, s, p, bytes);
    forall q | 0 <= q < c.pageCount
      ensures PageOk(c, s', q)
    {
      assert PageOk(c, s, q);
    }
  }

  lemma PutObjectFlushes(c: Conf, s: State, p: nat, bytes: seq<Byte>)
    requires Shape(c, s) && Buffers(c, s) && p < c.pageCount && HasRoom(c, s, p, |bytes|)
    requires Shape(c, PutObject(c, s, p, bytes))
    ensures FlushesOk(c, PutObject(c, s, p, bytes))
  {
    var s' := PutObject(c, s, p, bytes);
    forall v | v in s'.flushes
      ensures FlushOk(c, s', v)
    {
      assert FlushOk(c, s, v);
    }
  }

  lemma PutObjectExtends(c: Conf, s: State, p: nat, bytes: seq<Byte>)
    requires Shape(c, s) && WbufsOk(c, s) && p < c.pageCount && HasRoom(c, s, p, |bytes|)
    requires Shape(c, PutObject(c, s, p, bytes))
    ensures forall q :: 0 <= q < c.pageCount ==> Extends(c, s, PutObject(c, s, p, bytes), q)
  {
    var s', w := PutObject(c, s, p, bytes), s.wbufs[s.pages[p].wbuf.value];
    var w' := s'.wbufs[s.pages[p].wbuf.value];
    assert w'.buf[..w.Used()] == w.buf[..w.Used()];
  }

  lemma PutObjectStored(c: Conf, s: State, p: nat, bytes: seq<Byte>)
    requires Local(c, s) && WbufsOk(c, s) && StoredOk(c, s) && p < c.pageCount
    requires !s.pages[p].free && HasRoom(c, s, p, |bytes|) && |bytes| > 0
    requires Shape(c, PutObject(c, s, p, bytes))
    ensures StoredOk(c, PutObject(c, s, p, bytes))
  {
    hide PagesOk, MaintOk, WbufsOk, Extends;
    var s' := PutObject(c, s, p, bytes);
    GetPage(c, s, p);
    PutObjectExtends(c, s, p, bytes);
    PutObjectHeld(c, s, p, bytes);
    hide Held;
    assert forall q :: 0 <= q < c.pageCount ==> Extends(c, s, s', q);
    forall x | x in s.stored && s'.pages[x.page].version == x.version
      ensures Held(c, s', x)
    {
      HeldFrame(c, s, s', x);
    }
  }

  lemma PutObjectHeld(c: Conf, s: State, p: nat, bytes: seq<Byte>)
    requires Shape(c, s) && p < c.pageCount && PageOk(c, s, p) && HasRoom(c, s, p, |bytes|) && |bytes| > 0
    requires Shape(c, PutObject(c, s, p, bytes))
    ensures var w := s.wbufs[s.pages[p].wbuf.value];
            Held(c, PutObject(c, s, p, bytes), Object(p, s.pages[p].version, w.offset + w.Used(), bytes))
  {
    hide Multiple;
  }

  lemma PutObjectKeeps(c: Conf, s: State, p: nat, bytes: seq<Byte>)
    requires Inv(c, s) && p < c.pageCount && !s.pages[p].free && HasRoom(c, s, p, |bytes|) && |bytes| > 0
    ensures Inv(c, PutObject(c, s, p, bytes))
  {
    hide PagesOk, MaintOk, WbufsOk, FlushesOk, ListsOk, BucketsOk, StoredOk, ReadsOk;
    var s' := PutObject(c, s, p, bytes);
    PutObjectLocal(c, s, p, bytes);
    PutObjectFlushes(c, s, p, bytes);
    PutObjectStored(c, s, p, bytes);
    WbufsFrame(c, s, s');
    ListsFrame(c, s, s');
    BucketsFrame(c, s, s');
    ReadsFrame(c, s, s');
  }

  // ----- a whole write attempt -----

  lemma MakeRoomKeeps(c: Conf, s: State, p: nat, len: nat)
    requires Inv(c, s) && p < c.pageCount && !PageFull(c, s, p)
    ensures MustSubmit(c, s, p, len) ==> s.ioStack > 0
    ensures Inv(c, MakeRoom(c, s, p, len))
    ensures MakeRoom(c, s, p, len).writers == s.writers && !MakeRoom(c, s, p, len).pages[p].free
  {
    assert PageOk(c, s, p) && !s.pages[p].free;
    hide PagesOk, MaintOk, WbufsOk, FlushesOk, Lists, Data;
    if MustSubmit(c, s, p, len) {
      IoLeft(c, s, p);
      SubmitWbufKeeps(c, s, p);
    } else if MustAllocate(c, s, p) {
      AllocateWbufKeeps(c, s, p);
    }
  }

  /** If the page picked from bucket b is full, every page of the bucket is. */
  lemma FullPageClaimed(c: Conf, s: State, b: nat)
    requires Inv(c, s) && b < c.bucketCount && s.writers[b].Picked? && PageFull(c, s, s.writers[b].page)
    ensures Claimed(c, s, s.buckets[b])
  {
    hide StoredOk, ReadsOk, AnswersOk, MaintOk, FlushesOk, WbufsOk, Distinct;
    var p, list := s.writers[b].page, s.buckets[b];
    assert BucketOk(c, s, b) && PageOk(c, s, p);
    if list != [] && list[0] == p {
      assert p in list;
      assert list == [p] + list[1..];
    }
  }

  lemma MovedIdle(c: Conf, s: State, b: nat)
    requires Inv(c, s) && b < c.bucketCount
    ensures Inv(c, Moved(s, b, Idle))
  {
    hide PagesOk, MaintOk, WbufsOk, FlushesOk, ListsOk, StoredOk, ReadsOk, AnswersOk;
    assert BucketOk(c, s, b);
    MovedKeeps(c, s, b, Idle);
  }

  /** The locked part of a write attempt on an open page. */
  lemma OpenWriteKeeps(c: Conf, s: State, p: nat, bytes: seq<Byte>)
    requires Inv(c, s) && p < c.pageCount && !PageFull(c, s, p) && |bytes| > 0
    ensures MustSubmit(c, s, p, |bytes|) ==> s.ioStack > 0
    ensures var s1 := MakeRoom(c, s, p, |bytes|);
            Inv(c, if HasRoom(c, s1, p, |bytes|) then PutObject(c, s1, p, bytes) else s1)
  {
    hide PagesOk, MaintOk, Buffers, Lists, Data;
    MakeRoomKeeps(c, s, p, |bytes|);
    var s1 := MakeRoom(c, s, p, |bytes|);
    if HasRoom(c, s1, p, |bytes|) {
      PutObjectKeeps(c, s1, p, bytes);
    }
  }

  lemma FullWriteKeeps(c: Conf, s: State, b: nat)
    requires Inv(c, s) && b < c.bucketCount && s.writers[b].Picked? && PageFull(c, s, s.writers[b].page)
    ensures Inv(c, Moved(s, b, NeedsPage))
  {
    hide PagesOk, MaintOk, WbufsOk, FlushesOk, ListsOk, StoredOk, ReadsOk, AnswersOk;
    assert BucketOk(c, s, b);
    FullPageClaimed(c, s, b);
    MovedKeeps(c, s, b, NeedsPage);
  }

  lemma TryWriteKeeps(c: Conf, s: State, b: nat, bytes: seq<Byte>)
    requires Inv(c, s) && b < c.bucketCount && s.writers[b].Picked? && |bytes| > 0
    ensures var p := s.writers[b].page;
            !PageFull(c, s, p) && MustSubmit(c, s, p, |bytes|) ==> s.ioStack > 0
    ensures Inv(c, TryWrite(c, s, b, bytes))
  {
    var p := s.writers[b].page;
    hide PagesOk, MaintOk, Buffers, Lists, Data, MakeRoom, PutObject;
    if PageFull(c, s, p) {
      FullWriteKeeps(c, s, b);
    } else {
      OpenWriteKeeps(c, s, p, bytes);
      var s1 := MakeRoom(c, s, p, |bytes|);
      MovedIdle(c, if HasRoom(c, s1, p, |bytes|) then PutObject(c, s1, p, bytes) else s1, b);
    }
  }

  // ----- flushing -----

  lemma SpliceBelow(d: seq<Byte>, at: nat, buf: seq<Byte>, i: nat, j: nat)
    requires at + |buf| <= |d| && i <= j <= at
    ensures (d[..at] + buf + d[at + |buf|..])[i..j] == d[i..j]
  {
    var d' := d[..at] + buf + d[at + |buf|..];
    assert forall k :: i <= k < j ==> d'[k] == d[k];
  }

  /** A flush writes above `written`; what is below stays as it was. */
  lemma WriteToDiskBelow(c: Conf, s: State, w: nat, p: nat, offset: nat, bytes: seq<Byte>)
    requires Local(c, s) && w in s.flushes && FlushOk(c, s, w) && p < c.pageCount
    requires s.flushes[w].offset + c.wbufSize <= c.pageSize
    requires OnDisk(s.disk, p, offset, bytes) && offset + |bytes| <= s.pages[p].written
    ensures OnDisk(WriteToDisk(c, s, w).disk, p, offset, bytes)
  {
    var f, s' := s.flushes[w], WriteToDisk(c, s, w);
    assert PageOk(c, s, f.page);
    if p == f.page {
      SpliceBelow(s.disk[p], f.offset, s.wbufs[w].buf, offset, offset + |bytes|);
    }
  }

  lemma FlushFits(c: Conf, s: State, w: nat)
    requires Local(c, s) && w in s.flushes && FlushOk(c, s, w)
    ensures s.flushes[w].offset + c.wbufSize <= c.pageSize
  {
    assert PageOk(c, s, s.flushes[w].page);
  }

  lemma WriteToDiskLocal(c: Conf, s: State, w: nat)
    requires Local(c, s) && w in s.flushes && s.flushes[w].offset + c.wbufSize <= c.pageSize
    ensures Local(c, WriteToDisk(c, s, w))
  {
    var s' := WriteToDisk(c, s, w);
    forall q | 0 <= q < c.pageCount
      ensures PageOk(c, s', q)
    {
      assert PageOk(c, s, q);
    }
  }

  lemma WriteToDiskFlushes(c: Conf, s: State, w: nat)
    requires Local(c, s) && Buffers(c, s) && w in s.flushes
    requires s.flushes[w].offset + c.wbufSize <= c.pageSize
    requires Shape(c, WriteToDisk(c, s, w))
    ensures FlushesOk(c, WriteToDisk(c, s, w))
  {
    hide PagesOk, MaintOk, WbufsOk, FlushOk;
    var s' := WriteToDisk(c, s, w);
    assert s'.flushes.Keys == s.flushes.Keys;
    assert |s'.flushes| == |s'.flushes.Keys| && |s.flushes| == |s.flushes.Keys|;
    forall v | v in s'.flushes
      ensures FlushOk(c, s', v)
    {
      WriteToDiskFlush(c, s, w, v);
    }
  }

  lemma WriteToDiskFlush(c: Conf, s: State, w: nat, v: nat)
    requires Shape(c, s) && w in s.flushes && v in s.flushes && FlushOk(c, s, w) && FlushOk(c, s, v)
    requires s.flushes[w].offset + c.wbufSize <= c.pageSize
    requires Shape(c, WriteToDisk(c, s, w))
    ensures FlushOk(c, WriteToDisk(c, s, w), v)
  {
    var s', f := WriteToDisk(c, s, w), s.flushes[w];
    if v == w {
      assert s'.disk[f.page][f.offset..f.offset + c.wbufSize] == s.wbufs[w].buf;
    } else {
      assert s.flushes[v].page != f.page;
    }
  }

  lemma WriteToDiskStored(c: Conf, s: State, w: nat)
    requires Local(c, s) && FlushesOk(c, s) && StoredOk(c, s) && w in s.flushes
    requires s.flushes[w].offset + c.wbufSize <= c.pageSize
    requires Shape(c, WriteToDisk(c, s, w))
    ensures StoredOk(c, WriteToDisk(c, s, w))
  {
    var s' := WriteToDisk(c, s, w);
    GetFlush(c, s, w);
    forall o | o in s.stored && s'.pages[o.page].version == o.version
      ensures Held(c, s', o)
    {
      hide FlushesOk, PagesOk, MaintOk, FlushOk;
      assert Held(c, s, o);
      if o.offset < s.pages[o.page].written {
        WriteToDiskBelow(c, s, w, o.page, o.offset, o.bytes);
      }
    }
  }

  lemma WriteToDiskKeeps(c: Conf, s: State, w: nat)
    requires Inv(c, s) && w in s.flushes
    ensures s.flushes[w].offset + c.wbufSize <= c.pageSize
    ensures Inv(c, WriteToDisk(c, s, w))
  {
    hide Shape, PagesOk, MaintOk, WbufsOk, FlushesOk, ListsOk, BucketsOk, StoredOk, ReadsOk, AnswersOk;
    Sizes(c, s);
    GetFlush(c, s, w);
    FlushFits(c, s, w);
    var s' := WriteToDisk(c, s, w);
    WriteToDiskLocal(c, s, w);
    WriteToDiskFlushes(c, s, w);
    WriteToDiskStored(c, s, w);
    WbufsFrame(c, s, s');
    ListsFrame(c, s, s');
    BucketsFrame(c, s, s');
    ReadsFrame(c, s, s');
    AnswersFrame(s, s');
  }

  lemma WbufCallbackLocal(c: Conf, s: State, w: nat)
    requires Local(c, s) && w in s.flushes && FlushOk(c, s, w)
    ensures Local(c, WbufCallback(c, s, w))
  {
    var s', p := WbufCallback(c, s, w), s.flushes[w].page;
    forall q | 0 <= q < c.pageCount
      ensures PageOk(c, s', q)
    {
      assert PageOk(c, s, q);
      if q == p {
        assert Multiple(c.wbufSize, s.pages[p].written + c.wbufSize);
      }
    }
  }

  lemma WbufCallbackWbufs(c: Conf, s: State, w: nat)
    requires Shape(c, s) && WbufsOk(c, s) && w in s.flushes && FlushOk(c, s, w)
    requires Shape(c, WbufCallback(c, s, w))
    ensures WbufsOk(c, WbufCallback(c, s, w))
  {
    hide OnDisk;
    var s', p := WbufCallback(c, s, w), s.flushes[w].page;
    assert forall q :: 0 <= q < c.pageCount && q != p && s.pages[q].wbuf.Some? ==> s.pages[q].wbuf.value != w;
    forall v | 0 <= v < c.wbufCount && v !in s'.wbufStack
      ensures Attached(s', v)
    {
      assert s'.wbufStack == [w] + s.wbufStack;
      assert v != w && v !in s.wbufStack && Attached(s, v);
      var q :| 0 <= q < |s.pages| && s.pages[q].wbuf == Some(v);
      assert s'.pages[q].wbuf == Some(v);
    }
  }

  lemma WbufCallbackFlushes(c: Conf, s: State, w: nat)
    requires Shape(c, s) && Buffers(c, s) && w in s.flushes
    requires Shape(c, WbufCallback(c, s, w))
    ensures FlushesOk(c, WbufCallback(c, s, w))
  {
    hide WbufsOk, FlushOk;
    var s', p := WbufCallback(c, s, w), s.flushes[w].page;
    MapShrinks(s.flushes, w);
    forall v | v in s'.flushes
      ensures FlushOk(c, s', v)
    {
      WbufCallbackFlush(c, s, w, v);
    }
    forall q | 0 <= q < c.pageCount && s'.pages[q].wbuf.Some? && s'.wbufs[s'.pages[q].wbuf.value].full
      ensures s'.pages[q].wbuf.value in s'.flushes
    {
      WbufElsewhere(c, s, w, q);
    }
  }

  lemma WbufCallbackFlush(c: Conf, s: State, w: nat, v: nat)
    requires Shape(c, s) && w in s.flushes && v in s.flushes && v != w && FlushOk(c, s, w) && FlushOk(c, s, v)
    requires Shape(c, WbufCallback(c, s, w))
    ensures FlushOk(c, WbufCallback(c, s, w), v)
  {
    hide OnDisk;
    assert s.flushes[v].page != s.flushes[w].page;
  }

  /** The buffer being flushed is attached to no other page. */
  lemma WbufElsewhere(c: Conf, s: State, w: nat, q: nat)
    requires Shape(c, s) && WbufsOk(c, s) && w in s.flushes && FlushOk(c, s, w) && q < c.pageCount
    ensures q != s.flushes[w].page ==> s.pages[q].wbuf != Some(w)
  {
    hide OnDisk;
    assert s.pages[s.flushes[w].page].wbuf == Some(w);
  }

  lemma SubSlice(d: seq<Byte>, off: nat, size: nat, i: nat, j: nat)
    requires off + size <= |d| && i <= j <= size
    ensures d[off..off + size][i..j] == d[off + i..off + j]
  {
    var l, r := d[off..off + size], d[off + i..off + j];
    assert forall k :: 0 <= k < j - i ==> l[i..j][k] == l[i + k] == d[off + i + k] == r[k];
  }

  /** What was in the buffer is now below `written`, and on disk. */
  lemma WbufCallbackHeld(c: Conf, s: State, w: nat, o: Object)
    requires Shape(c, s) && w in s.flushes && s.flushes[w].onDisk && FlushOk(c, s, w)
    requires o.page < c.pageCount && PageOk(c, s, s.flushes[w].page) && Held(c, s, o)
    requires Shape(c, WbufCallback(c, s, w))
    ensures |o.bytes| > 0 ==> Held(c, WbufCallback(c, s, w), o)
  {
    hide Multiple;
    var p, off := s.flushes[w].page, s.flushes[w].offset;
    var s' := WbufCallback(c, s, w);
    if o.page != p {
      assert s'.pages[o.page] == s.pages[o.page];
    } else if o.offset >= off {
      var i, j := o.offset - off, o.offset - off + |o.bytes|;
      SubSlice(s.disk[p], off, c.wbufSize, i, j);
    }
  }

  lemma WbufCallbackStored(c: Conf, s: State, w: nat)
    requires Local(c, s) && StoredOk(c, s) && w in s.flushes && s.flushes[w].onDisk && FlushOk(c, s, w)
    requires Shape(c, WbufCallback(c, s, w))
    ensures StoredOk(c, WbufCallback(c, s, w))
  {
    var s' := WbufCallback(c, s, w);
    GetPage(c, s, s.flushes[w].page);
    forall o | o in s.stored && s'.pages[o.page].version == o.version
      ensures Held(c, s', o)
    {
      hide Held, PagesOk, MaintOk, FlushOk, PageOk;
      GetHeld(c, s, o);
      WbufCallbackHeld(c, s, w, o);
    }
  }

  lemma WbufCallbackKeeps(c: Conf, s: State, w: nat)
    requires Inv(c, s) && w in s.flushes && s.flushes[w].onDisk
    ensures Inv(c, WbufCallback(c, s, w))
  {
    hide Shape, PagesOk, MaintOk, WbufsOk, FlushesOk, ListsOk, BucketsOk, StoredOk, ReadsOk, AnswersOk;
    Sizes(c, s);
    GetFlush(c, s, w);
    GetPage(c, s, s.flushes[w].page);
    var s' := WbufCallback(c, s, w);
    WbufCallbackLocal(c, s, w);
    WbufCallbackWbufs(c, s, w);
    WbufCallbackFlushes(c, s, w);
    WbufCallbackStored(c, s, w);
    hide FlushOk, PageOk;
    ListsFrame(c, s, s');
    BucketsFrame(c, s, s');
    ReadsFrame(c, s, s');
    AnswersFrame(s, s');
  }

  // ----- reads -----

  lemma HoldersGrow(reading: map<nat, Read>, r: nat, o: Object, p: nat)
    requires r !in reading
    ensures |Holders(reading[r := Read(o, false)], p)| == |Holders(reading, p)| + if p == o.page then 1 else 0
  {
    var after := Holders(reading[r := Read(o, false)], p);
    assert after == if p == o.page then Holders(reading, p) + {r} else Holders(reading, p);
  }

  lemma HoldersSame(reading: map<nat, Read>, r: nat, p: nat)
    requires r in reading
    ensures Holders(reading[r := Read(reading[r].target, true)], p) == Holders(reading, p)
  {
  }

  lemma HoldersShrink(reading: map<nat, Read>, r: nat, p: nat)
    requires r in reading
    ensures var q := reading[r].target.page;
            |Holders(reading - {r}, p)| == |Holders(reading, p)| - if p == q then 1 else 0
  {
    var after := Holders(reading - {r}, p);
    assert after == if p == reading[r].target.page then Holders(reading, p) - {r} else Holders(reading, p);
  }

  /** A valid handle: where its bytes are, and that the source's asserts on the way to them hold. */
  lemma HandleReadable(c: Conf, s: State, o: Object)
    requires Local(c, s) && StoredOk(c, s) && o in s.stored && Servable(c, s, o)
    ensures Held(c, s, o)
    ensures FromBuffer(c, s, o) ==>
              && s.pages[o.page].wbuf.Some?
              && var wbuf := s.wbufs[s.pages[o.page].wbuf.value];
                 && wbuf.offset <= o.offset && o.offset + |o.bytes| <= wbuf.offset + c.wbufSize
                 && o.offset < s.pages[o.page].written + c.wbufSize
                 && FromWbuf(c, s, o) == o.bytes
    ensures !FromBuffer(c, s, o) ==> o.offset + |o.bytes| <= s.pages[o.page].written
  {
    GetHeld(c, s, o);
    GetPage(c, s, o.page);
  }

  /** Taking a page reference. */
  lemma TakeReferenceReads(c: Conf, s: State, r: nat, o: Object, s': State)
    requires Shape(c, s) && ReadsOk(c, s) && o in s.stored && r !in s.reading && o.page < c.pageCount
    requires Servable(c, s, o) && o.offset + |o.bytes| <= s.pages[o.page].written
    requires s' == s.(pages := s.pages[o.page := s.pages[o.page].(refcount := s.pages[o.page].refcount + 1)],
                      reading := s.reading[r := Read(o, false)])
    requires Shape(c, s')
    ensures ReadsOk(c, s')
  {
    forall p | 0 <= p < c.pageCount
      ensures s'.pages[p].refcount == |Holders(s'.reading, p)|
    {
      HoldersGrow(s.reading, r, o, p);
    }
  }

  lemma TakeReferenceKeeps(c: Conf, s: State, r: nat, o: Object, s': State)
    requires Inv(c, s) && o in s.stored && r !in s.reading && o.page < c.pageCount
    requires Servable(c, s, o) && o.offset + |o.bytes| <= s.pages[o.page].written
    requires s' == s.(pages := s.pages[o.page := s.pages[o.page].(refcount := s.pages[o.page].refcount + 1)],
                      reading := s.reading[r := Read(o, false)])
    ensures Inv(c, s')
  {
    hide PagesOk, MaintOk, Buffers, Lists, StoredOk, ReadsOk;
    QuietKeeps(c, s, s');
    TakeReferenceReads(c, s, r, o, s');
  }

  lemma AnswerKeeps(c: Conf, s: State, o: Object, answer: Option<seq<Byte>>)
    requires Inv(c, s) && o in s.stored && (answer.Some? ==> answer.value == o.bytes)
    ensures Inv(c, s.(answers := s.answers + [(o, answer)]))
  {
    hide PagesOk, MaintOk, Buffers, Lists, StoredOk, ReadsOk;
    var s' := s.(answers := s.answers + [(o, answer)]);
    QuietKeeps(c, s, s');
    ReadsFrame(c, s, s');
  }

  lemma StartReadKeeps(c: Conf, s: State, r: nat, o: Object)
    requires Inv(c, s) && o in s.stored && r !in s.reading && o.page < c.pageCount
    requires Servable(c, s, o) && FromBuffer(c, s, o) ==>
               && s.pages[o.page].wbuf.Some?
               && var wbuf := s.wbufs[s.pages[o.page].wbuf.value];
                  wbuf.offset <= o.offset && o.offset + |o.bytes| <= wbuf.offset + c.wbufSize
    ensures Inv(c, StartRead(c, s, r, o))
  {
    hide Shape, PagesOk, MaintOk, Buffers, Lists, StoredOk, ReadsOk, AnswersOk;
    if !Servable(c, s, o) {
      AnswerKeeps(c, s, o, None);
    } else {
      HandleReadable(c, s, o);
      if FromBuffer(c, s, o) {
        AnswerKeeps(c, s, o, Some(FromWbuf(c, s, o)));
      } else {
        TakeReferenceKeeps(c, s, r, o, StartRead(c, s, r, o));
      }
    }
  }

  lemma ReadFromDiskReads(c: Conf, s: State, r: nat)
    requires Shape(c, s) && ReadsOk(c, s) && StoredOk(c, s) && PagesOk(c, s) && r in s.reading
    ensures var o := s.reading[r].target;
            && o in s.stored
            && o.offset + |o.bytes| <= c.pageSize
            && OnDisk(s.disk, o.page, o.offset, o.bytes)
    ensures var s' := ReadFromDisk(c, s, r); Shape(c, s') && ReadsOk(c, s')
  {
    var o, s' := s.reading[r].target, ReadFromDisk(c, s, r);
    GetHeld(c, s, o);
    GetPage(c, s, o.page);
    forall p | 0 <= p < c.pageCount
      ensures s'.pages[p].refcount == |Holders(s'.reading, p)|
    {
      HoldersSame(s.reading, r, p);
    }
  }

  lemma ReadFromDiskKeeps(c: Conf, s: State, r: nat)
    requires Inv(c, s) && r in s.reading
    ensures var o := s.reading[r].target; o.offset + |o.bytes| <= c.pageSize
    ensures Inv(c, ReadFromDisk(c, s, r))
  {
    hide PagesOk, MaintOk, Buffers, Lists, StoredOk, ReadsOk;
    ReadFromDiskReads(c, s, r);
    QuietKeeps(c, s, ReadFromDisk(c, s, r));
  }

  lemma EndReadReads(c: Conf, s: State, r: nat)
    requires Shape(c, s) && ReadsOk(c, s) && r in s.reading
    ensures var q := s.reading[r].target.page; s.pages[q].refcount > 0 && !s.pages[q].free
    ensures var s' := EndRead(c, s, r); Shape(c, s') && ReadsOk(c, s')
  {
    assert r in Holders(s.reading, s.reading[r].target.page);
    var s' := EndRead(c, s, r);
    forall p | 0 <= p < c.pageCount
      ensures s'.pages[p].refcount == |Holders(s'.reading, p)|
    {
      HoldersShrink(s.reading, r, p);
    }
  }

  lemma EndReadKeeps(c: Conf, s: State, r: nat)
    requires Inv(c, s) && r in s.reading
    ensures s.pages[s.reading[r].target.page].refcount > 0
    ensures Inv(c, EndRead(c, s, r))
  {
    hide PagesOk, MaintOk, Buffers, Lists, StoredOk, ReadsOk;
    EndReadReads(c, s, r);
    QuietKeeps(c, s, EndRead(c, s, r));
  }

  lemma AccountingKeeps(c: Conf, s: State, s': State)
    requires Inv(c, s) && Quiet(c, s, s') && s'.reading == s.reading && s'.answers == s.answers
    requires forall p :: 0 <= p < c.pageCount ==> s'.pages[p].refcount == s.pages[p].refcount
    ensures Inv(c, s')
  {
    hide PagesOk, MaintOk, WbufsOk, FlushesOk, ListsOk, BucketsOk, StoredOk, ReadsOk, AnswersOk;
    QuietKeeps(c, s, s');
    ReadsFrame(c, s, s');
    AnswersFrame(s, s');
  }

  // ----- freeing a page -----

  /** Unlinking any page but the head leaves the head; unlinking the head promotes a full page. */
  lemma {:induction false} WithoutHead(list: seq<nat>, p: nat)
    requires list != []
    ensures list[0] != p ==> Without(list, p) == [list[0]] + Without(list[1..], p)
    ensures list[0] != p ==> Without(list, p)[1..] == Without(list[1..], p)
    ensures list[0] == p ==> Without(list, p) == list[1..]
  {
  }

  ghost predicate MayFree(c: Conf, s: State, p: nat)
    requires Shape(c, s)
  {
    && p < c.pageCount && !s.pages[p].free && !s.pages[p].active && s.pages[p].refcount == 0
    && (s.maint.Scanning? ==> s.maint.low != Some(p))
  }

  lemma FreePageLocal(c: Conf, s: State, p: nat)
    requires Local(c, s) && ListsOk(c, s) && MayFree(c, s, p)
    ensures s.pages[p].bucket < c.bucketCount
    ensures Local(c, FreePage(c, s, p))
  {
    hide ListsOk, PageOk;
    GetPage(c, s, p);
    BucketOf(c, s, p);
    FreePageShape(c, s, p);
    var s' := FreePage(c, s, p);
    forall q | 0 <= q < c.pageCount
      ensures PageOk(c, s', q)
    {
      FreePageOk(c, s, p, q);
    }
  }

  lemma BucketOf(c: Conf, s: State, p: nat)
    requires Shape(c, s) && p < c.pageCount && PageOk(c, s, p)
    ensures s.pages[p].bucket < c.bucketCount
  {
    hide Multiple;
  }

  lemma FreePageShape(c: Conf, s: State, p: nat)
    requires Shape(c, s) && ListsOk(c, s) && p < c.pageCount && s.pages[p].bucket < c.bucketCount
    ensures Shape(c, FreePage(c, s, p))
  {
    var list := s.buckets[s.pages[p].bucket];
    WithoutPart(list, p);
    assert forall k :: 0 <= k < |Without(list, p)| ==> Without(list, p)[k] in list;
  }

  lemma FreePageOk(c: Conf, s: State, p: nat, q: nat)
    requires Shape(c, s) && p < c.pageCount && s.pages[p].bucket < c.bucketCount && Shape(c, FreePage(c, s, p))
    requires q < c.pageCount && PageOk(c, s, q) && PageOk(c, s, p) && !s.pages[p].active && s.pages[p].refcount == 0
    requires !s.pages[p].free
    ensures PageOk(c, FreePage(c, s, p), q)
  {
    hide Without;
  }

  lemma FreePageLists(c: Conf, s: State, p: nat)
    requires Local(c, s) && ListsOk(c, s) && MayFree(c, s, p) && s.pages[p].bucket < c.bucketCount
    requires Shape(c, FreePage(c, s, p))
    ensures ListsOk(c, FreePage(c, s, p))
  {
    var s', b := FreePage(c, s, p), s.pages[p].bucket;
    WithoutPart(s.buckets[b], p);
    assert p != 0;
    assert p !in s.freelist;
  }

  lemma FreePageBuckets(c: Conf, s: State, p: nat)
    requires Local(c, s) && Lists(c, s) && MayFree(c, s, p) && s.pages[p].bucket < c.bucketCount
    requires Shape(c, FreePage(c, s, p))
    ensures BucketsOk(c, FreePage(c, s, p))
  {
    hide PagesOk, MaintOk, BucketOk, Without;
    var s', b := FreePage(c, s, p), s.pages[p].bucket;
    forall d | 0 <= d < c.bucketCount
      ensures BucketOk(c, s', d)
    {
      if d == b {
        FreePageBucket(c, s, p);
      } else {
        assert p !in s.buckets[d];
        FreePageOther(c, s, p, d);
      }
    }
  }

  /** Freeing a page leaves other full pages full. */
  lemma FreeClaimed(c: Conf, s: State, p: nat, list: seq<nat>, list': seq<nat>)
    requires Shape(c, s) && p < c.pageCount && s.pages[p].bucket < c.bucketCount && Shape(c, FreePage(c, s, p))
    requires Claimed(c, s, list) && forall q :: q in list' ==> q in list && q != p
    ensures Claimed(c, FreePage(c, s, p), list')
  {
    Sizes(c, s);
    hide Shape, Without;
  }

  lemma FreePageOther(c: Conf, s: State, p: nat, d: nat)
    requires Shape(c, s) && p < c.pageCount && s.pages[p].bucket < c.bucketCount && Shape(c, FreePage(c, s, p))
    requires d < c.bucketCount && BucketOk(c, s, d) && d != s.pages[p].bucket && p !in s.buckets[d]
    ensures BucketOk(c, FreePage(c, s, p), d)
  {
    hide Without, Claimed;
    var list := s.buckets[d];
    if list != [] {
      assert forall q :: q in list[1..] ==> q in list;
      FreeClaimed(c, s, p, list[1..], list[1..]);
    }
    if Claimed(c, s, list) {
      FreeClaimed(c, s, p, list, list);
    }
  }

  lemma FreePageBucket(c: Conf, s: State, p: nat)
    requires Shape(c, s) && ListsOk(c, s) && p < c.pageCount && !s.pages[p].free
    requires Shape(c, FreePage(c, s, p)) && BucketOk(c, s, s.pages[p].bucket)
    ensures BucketOk(c, FreePage(c, s, p), s.pages[p].bucket)
  {
    var b := s.pages[p].bucket;
    var list := s.buckets[b];
    BucketList(c, s, p);
    hide ListsOk, Claimed, Without, Distinct;
    WithoutPart(list, p);
    WithoutHead(list, p);
    WithoutPart(list[1..], p);
    if Without(list, p) != [] {
      FreeClaimed(c, s, p, list[1..], Without(list, p)[1..]);
    }
    if list[0] == p {
      FreeClaimed(c, s, p, list[1..], Without(list, p));
    } else if Claimed(c, s, list) {
      FreeClaimed(c, s, p, list, Without(list, p));
    }
  }

  lemma BucketList(c: Conf, s: State, p: nat)
    requires Shape(c, s) && ListsOk(c, s) && p < c.pageCount && !s.pages[p].free
    ensures var list := s.buckets[s.pages[p].bucket];
            Distinct(list) && list != [] && Distinct(list[1..]) && list[0] !in list[1..]
  {
  }

  lemma FreePageKeeps(c: Conf, s: State, p: nat)
    requires Inv(c, s) && MayFree(c, s, p)
    ensures s.pages[p].bucket < c.bucketCount
    ensures Inv(c, FreePage(c, s, p))
  {
    hide PagesOk, MaintOk, WbufsOk, FlushesOk, ListsOk, BucketsOk, StoredOk, ReadsOk, AnswersOk, Without;
    GetPage(c, s, p);
    FreePageLocal(c, s, p);
    var s' := FreePage(c, s, p);
    FreePageLists(c, s, p);
    FreePageBuckets(c, s, p);
    WbufsFrame(c, s, s');
    FlushesFrame(c, s, s');
    StoredFrame(c, s, s');
    ReadsFrame(c, s, s');
    AnswersFrame(s, s');
  }

  // ----- maintenance -----

  lemma MaintMovedLocal(c: Conf, s: State, m: Maintenance)
    requires Shape(c, s) && PagesOk(c, s)
    requires m.Scanning? && m.low.Some? ==> m.low.value < c.pageCount
    ensures Shape(c, s.(maint := m)) && PagesOk(c, s.(maint := m))
  {
    forall p | 0 <= p < c.pageCount
      ensures PageOk(c, s.(maint := m), p)
    {
      assert PageOk(c, s, p);
    }
  }

  lemma MaintMoved(c: Conf, s: State, m: Maintenance)
    requires Inv(c, s)
    requires m.Scanning? && m.low.Some? ==> m.low.value < c.pageCount
    requires Shape(c, s.(maint := m)) ==> MaintOk(c, s.(maint := m))
    ensures Inv(c, s.(maint := m))
  {
    hide Shape, PagesOk, MaintOk, WbufsOk, FlushesOk, ListsOk, BucketsOk, StoredOk, ReadsOk, AnswersOk;
    hide Extends;
    var s' := s.(maint := m);
    MaintMovedLocal(c, s, m);
    Sizes(c, s);
    WbufsFrame(c, s, s');
    FlushesFrame(c, s, s');
    ListsFrame(c, s, s');
    BucketsFrame(c, s, s');
    StoredSame(c, s, s');
    ReadsFrame(c, s, s');
    AnswersFrame(s, s');
  }

  lemma StoredSame(c: Conf, s: State, s': State)
    requires Shape(c, s) && Shape(c, s') && StoredOk(c, s)
    requires s' == s.(maint := s'.maint)
    ensures StoredOk(c, s')
  {
    StoredFrame(c, s, s');
  }

  lemma StartScanKeeps(c: Conf, s: State)
    requires Inv(c, s) && s.maint.Waiting?
    ensures Inv(c, StartScan(c, s))
  {
    hide PagesOk, Buffers, Lists, Data;
    MaintMoved(c, s, StartScan(c, s).maint);
  }

  lemma ScanFreeKeeps(c: Conf, s: State, p: nat, m: Maintenance)
    requires Inv(c, s) && MayFree(c, s, p) && s.maint.Scanning? && s.maint.next == p
    requires m == s.maint.(next := p + 1, evict := false)
    ensures s.pages[p].bucket < c.bucketCount
    ensures Inv(c, FreePage(c, s, p).(maint := m))
  {
    FreePageKeeps(c, s, p);
    hide PagesOk, Buffers, Lists, Data;
    MaintMoved(c, FreePage(c, s, p), m);
  }

  lemma ScanPageKeeps(c: Conf, s: State)
    requires Inv(c, s) && s.maint.Scanning? && s.maint.next < c.pageCount
    ensures s.pages[s.maint.next].bucket < c.bucketCount
    ensures Inv(c, ScanPage(c, s))
  {
    hide PagesOk, Buffers, Lists, Data, FreePage;
    var p, m := s.maint.next, s.maint;
    var page := s.pages[p];
    GetPage(c, s, p);
    if !page.active && !page.free && (page.objCount == 0 || page.closed) && page.refcount == 0 {
      ScanFreeKeeps(c, s, p, m.(next := p + 1, evict := false));
    } else {
      MaintMoved(c, s, ScanPage(c, s).maint);
    }
  }

  lemma MarkClosedKeeps(c: Conf, s: State, p: nat)
    requires Inv(c, s) && p < c.pageCount
    ensures Inv(c, s.(pages := s.pages[p := s.pages[p].(closed := true)]))
  {
    hide PagesOk, MaintOk, Buffers, Lists, Data;
    AccountingKeeps(c, s, s.(pages := s.pages[p := s.pages[p].(closed := true)]));
  }

  lemma DeleteKeeps(c: Conf, s: State, p: nat, version: nat, count: nat, size: nat)
    requires Inv(c, s) && p < c.pageCount
    ensures Inv(c, Delete(c, s, p, version, count, size))
  {
    hide PagesOk, MaintOk, Buffers, Lists, Data;
    AccountingKeeps(c, s, Delete(c, s, p, version, count, size));
  }

  lemma ClosePageKeeps(c: Conf, s: State, p: nat, version: nat)
    requires Inv(c, s) && p < c.pageCount
    ensures Inv(c, ClosePage(c, s, p, version))
  {
    MarkClosedKeeps(c, s, p);
  }

  lemma EvictKeeps(c: Conf, s: State)
    requires Inv(c, s) && s.maint.Scanning? && s.maint.next == c.pageCount
    ensures s.maint.low.Some? ==> s.pages[s.maint.low.value].bucket < c.bucketCount
    ensures Inv(c, Evict(c, s))
  {
    hide PagesOk, Buffers, Lists, Data;
    var m, s0 := s.maint, s.(maint := Waiting);
    MaintMoved(c, s, Waiting);
    if m.low.Some? {
      var p := m.low.value;
      GetPage(c, s, p);
      var s1 := s0.(pages := s0.pages[p := s0.pages[p].(closed := true)]);
      MarkClosedKeeps(c, s0, p);
      if m.evict && !s.pages[p].closed && s.pages[p].refcount == 0 {
        FreePageKeeps(c, s1, p);
      }
    }
  }
}
