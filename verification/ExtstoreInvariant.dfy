/** What every reachable state of the external storage engine satisfies. */
module ExtstoreInvariant {
  import opened Prelude
  import opened Extstore

  /** x is a whole number of sizes. */
  ghost predicate Multiple(size: nat, x: nat)
    requires size > 0
  {
    x == 0 || (x >= size && Multiple(size, x - size))
  }

  ghost predicate PageOk(c: Conf, s: State, p: nat)
    requires Shape(c, s) && p < c.pageCount
  {
    var page := s.pages[p];
    && page.bucket < c.bucketCount
    && Multiple(c.wbufSize, page.written)
    && page.claimed <= c.pageSize
    && (page.wbuf.None? ==> page.claimed == page.written)
    && (page.wbuf.Some? ==>
          s.wbufs[page.wbuf.value].offset == page.written && page.claimed == page.written + c.wbufSize)
    && (page.free ==> page == FREE_PAGE.(closed := page.closed, objCount := page.objCount,
                                         bytesUsed := page.bytesUsed))
    && (!page.free ==> 1 <= page.version < s.version && (page.active <==> page.written < c.pageSize))
  }

  /** Page 0 is never linked into a list by `extstore_init`, so it stays free for ever. */
  ghost predicate PagesOk(c: Conf, s: State)
    requires Shape(c, s)
  {
    && s.version >= 1
    && (forall p :: 0 <= p < c.pageCount ==> PageOk(c, s, p))
    && (c.pageCount > 0 ==> s.pages[0].free)
  }

  ghost predicate Attached(s: State, w: nat) {
    exists p :: 0 <= p < |s.pages| && s.pages[p].wbuf == Some(w)
  }

  /** Each write buffer is on the stack or attached to one page, never both, and none is lost. */
  ghost predicate WbufsOk(c: Conf, s: State)
    requires Shape(c, s)
  {
    && Distinct(s.wbufStack)
    && (forall p, q :: 0 <= p < q < c.pageCount && s.pages[p].wbuf.Some? ==> s.pages[p].wbuf != s.pages[q].wbuf)
    && (forall p :: 0 <= p < c.pageCount && s.pages[p].wbuf.Some? ==> s.pages[p].wbuf.value !in s.wbufStack)
    && (forall w :: 0 <= w < c.wbufCount ==> w in s.wbufStack || Attached(s, w))
  }

  /** `bytes` stand on disk at this place. */
  ghost predicate OnDisk(disk: seq<seq<Byte>>, p: nat, offset: nat, bytes: seq<Byte>) {
    && p < |disk| && offset + |bytes| <= |disk[p]|
    && disk[p][offset..offset + |bytes|] == bytes
  }

  ghost predicate FlushOk(c: Conf, s: State, w: nat)
    requires Shape(c, s) && w in s.flushes
  {
    var f := s.flushes[w];
    && s.pages[f.page].wbuf == Some(w)
    && s.wbufs[w].full
    && f.offset == s.wbufs[w].offset
    && (f.onDisk ==> OnDisk(s.disk, f.page, f.offset, s.wbufs[w].buf))
  }

  /** The flushes under way are exactly those of the attached full buffers. */
  ghost predicate FlushesOk(c: Conf, s: State)
    requires Shape(c, s)
  {
    && s.ioStack + |s.flushes| == c.wbufCount
    && (forall w :: w in s.flushes ==> FlushOk(c, s, w))
    && (forall p :: 0 <= p < c.pageCount && s.pages[p].wbuf.Some? && s.wbufs[s.pages[p].wbuf.value].full ==>
          s.pages[p].wbuf.value in s.flushes)
  }

  /** Each page but page 0 is on exactly one list: the freelist or its own bucket's. */
  ghost predicate ListsOk(c: Conf, s: State)
    requires Shape(c, s)
  {
    && s.pageFree == |s.freelist|
    && Distinct(s.freelist)
    && (forall p :: p in s.freelist ==> p != 0 && s.pages[p].free)
    && (forall p :: 0 < p < c.pageCount && s.pages[p].free ==> p in s.freelist)
    && (forall b :: 0 <= b < c.bucketCount ==> Distinct(s.buckets[b]))
    && (forall b, p :: 0 <= b < c.bucketCount && p in s.buckets[b] ==> !s.pages[p].free && s.pages[p].bucket == b)
    && (forall p :: 0 <= p < c.pageCount && !s.pages[p].free ==>
          s.pages[p].bucket < c.bucketCount && p in s.buckets[s.pages[p].bucket])
  }

  ghost predicate Claimed(c: Conf, s: State, list: seq<nat>)
    requires Shape(c, s)
  {
    forall p :: p in list && p < c.pageCount ==> s.pages[p].claimed == c.pageSize
  }

  /** Only the head of a bucket can have room, and only for its own writer to find. */
  ghost predicate BucketOk(c: Conf, s: State, b: nat)
    requires Shape(c, s) && b < c.bucketCount
  {
    && (s.buckets[b] != [] ==> Claimed(c, s, s.buckets[b][1..]))
    && (s.writers[b].NeedsPage? ==> Claimed(c, s, s.buckets[b]))
    && (s.writers[b].Picked? && (s.buckets[b] == [] || s.buckets[b][0] != s.writers[b].page) ==>
          Claimed(c, s, s.buckets[b]))
  }

  ghost predicate BucketsOk(c: Conf, s: State)
    requires Shape(c, s)
  {
    forall b :: 0 <= b < c.bucketCount ==> BucketOk(c, s, b)
  }

  /** The reads that hold a reference to page p. */
  ghost function Holders(reading: map<nat, Read>, p: nat): set<nat> {
    set r | r in reading && reading[r].target.page == p
  }

  /** A page reference keeps its page, at its version, with the wanted bytes on disk. */
  ghost predicate ReadsOk(c: Conf, s: State)
    requires Shape(c, s)
  {
    && (forall p :: 0 <= p < c.pageCount ==> s.pages[p].refcount == |Holders(s.reading, p)|)
    && (forall r :: r in s.reading ==>
          var o := s.reading[r].target;
          && o in s.stored
          && !s.pages[o.page].free
          && s.pages[o.page].version == o.version
          && o.offset + |o.bytes| <= s.pages[o.page].written)
  }

  /** The object lies below `written`, on disk, or above it, in the page's buffer. */
  ghost predicate Held(c: Conf, s: State, o: Object)
    requires Shape(c, s) && o.page < c.pageCount
  {
    var page := s.pages[o.page];
    if o.offset < page.written then
      o.offset + |o.bytes| <= page.written && OnDisk(s.disk, o.page, o.offset, o.bytes)
    else
      && page.wbuf.Some?
      && var wbuf := s.wbufs[page.wbuf.value];
         && o.offset + |o.bytes| <= page.written + wbuf.Used()
         && wbuf.buf[o.offset - page.written..o.offset - page.written + |o.bytes|] == o.bytes
  }

  ghost predicate StoredOk(c: Conf, s: State)
    requires Shape(c, s)
  {
    forall o :: o in s.stored ==>
      && o.page < c.pageCount
      && 1 <= o.version < s.version
      && |o.bytes| > 0
      && (s.pages[o.page].version == o.version ==> Held(c, s, o))
  }

  /** The page noted for eviction stays a full page: only this thread frees pages. */
  ghost predicate MaintOk(c: Conf, s: State)
    requires Shape(c, s)
  {
    s.maint.Scanning? ==>
      && s.maint.next <= c.pageCount
      && (s.maint.low.Some? ==>
            && s.maint.low.value < s.maint.next
            && var page := s.pages[s.maint.low.value];
               !page.free && !page.active && page.version == s.maint.lowVersion)
  }

  /** Every finished read missed or returned the bytes that were stored. */
  ghost predicate AnswersOk(s: State) {
    forall a :: a in s.answers ==> a.0 in s.stored && (a.1.Some? ==> a.1.value == a.0.bytes)
  }

  ghost predicate Local(c: Conf, s: State) {
    Shape(c, s) && PagesOk(c, s) && MaintOk(c, s)
  }

  ghost predicate Buffers(c: Conf, s: State)
    requires Shape(c, s)
  {
    WbufsOk(c, s) && FlushesOk(c, s)
  }

  ghost predicate Lists(c: Conf, s: State)
    requires Shape(c, s)
  {
    ListsOk(c, s) && BucketsOk(c, s)
  }

  ghost predicate Data(c: Conf, s: State)
    requires Shape(c, s)
  {
    ReadsOk(c, s) && StoredOk(c, s) && AnswersOk(s)
  }

  ghost predicate Inv(c: Conf, s: State) {
    Local(c, s) && Buffers(c, s) && Lists(c, s) && Data(c, s)
  }

  lemma InitialInv(c: Conf, s: State)
    requires c.Valid() && Initial(c, s)
    ensures Inv(c, s)
  {
    forall p | 0 <= p < c.pageCount
      ensures PageOk(c, s, p) && (0 < p ==> p in s.freelist)
    {
      if 0 < p {
        assert s.freelist[p - 1] == p;
      }
    }
    forall w | 0 <= w < c.wbufCount
      ensures w in s.wbufStack
    {
      assert s.wbufStack[w] == w;
    }
    forall p | 0 <= p < c.pageCount
      ensures s.pages[p].refcount == |Holders(s.reading, p)|
    {
      assert Holders(s.reading, p) == {};
    }
  }

  // ----- consequences used one at a time -----

  lemma Sizes(c: Conf, s: State)
    requires Shape(c, s)
    ensures |s.pages| == |s.disk| == c.pageCount && |s.wbufs| == c.wbufCount
    ensures |s.buckets| == |s.writers| == c.bucketCount
    ensures forall w :: w in s.flushes ==> w < c.wbufCount && s.flushes[w].page < c.pageCount
  {
  }

  lemma GetPage(c: Conf, s: State, p: nat)
    requires Shape(c, s) && PagesOk(c, s) && p < c.pageCount
    ensures PageOk(c, s, p)
  {
  }

  lemma FreeCount(c: Conf, s: State)
    requires Shape(c, s) && Lists(c, s)
    ensures s.pageFree == |s.freelist|
  {
  }

  /** A writer that needs a page has filled the head of its bucket. */
  lemma HeadFull(c: Conf, s: State, b: nat)
    requires Shape(c, s) && Lists(c, s) && b < c.bucketCount && s.writers[b].NeedsPage?
    ensures s.buckets[b] != [] ==> s.buckets[b][0] < c.pageCount && s.pages[s.buckets[b][0]].claimed == c.pageSize
  {
    assert BucketOk(c, s, b);
    assert s.buckets[b] != [] ==> s.buckets[b][0] in s.buckets[b];
  }

  lemma GetFlush(c: Conf, s: State, w: nat)
    requires Shape(c, s) && FlushesOk(c, s) && w in s.flushes
    ensures FlushOk(c, s, w)
  {
  }

  lemma GetHeld(c: Conf, s: State, o: Object)
    requires Shape(c, s) && StoredOk(c, s) && o in s.stored
    ensures o.page < c.pageCount && 1 <= o.version < s.version && |o.bytes| > 0
    ensures s.pages[o.page].version == o.version ==> Held(c, s, o)
  {
  }

  // ----- what each part of the invariant depends on -----

  ghost predicate SameWbufs(s: State, s': State) {
    |s.pages| == |s'.pages| && forall p :: 0 <= p < |s.pages| ==> s'.pages[p].wbuf == s.pages[p].wbuf
  }

  lemma WbufsFrame(c: Conf, s: State, s': State)
    requires Shape(c, s) && Shape(c, s') && WbufsOk(c, s)
    requires SameWbufs(s, s') && s'.wbufStack == s.wbufStack
    ensures WbufsOk(c, s')
  {
    forall w | 0 <= w < c.wbufCount && w !in s.wbufStack
      ensures Attached(s', w)
    {
      assert Attached(s, w);
      var p :| 0 <= p < |s.pages| && s.pages[p].wbuf == Some(w);
      assert s'.pages[p].wbuf == Some(w);
    }
  }

  lemma FlushesFrame(c: Conf, s: State, s': State)
    requires Shape(c, s) && Shape(c, s') && FlushesOk(c, s)
    requires SameWbufs(s, s')
    requires s'.ioStack == s.ioStack && s'.flushes == s.flushes && s'.wbufs == s.wbufs && s'.disk == s.disk
    ensures FlushesOk(c, s')
  {
    forall w | w in s'.flushes
      ensures FlushOk(c, s', w)
    {
      assert FlushOk(c, s, w);
    }
  }

  lemma ListsFrame(c: Conf, s: State, s': State)
    requires Shape(c, s) && Shape(c, s') && ListsOk(c, s)
    requires s'.freelist == s.freelist && s'.pageFree == s.pageFree && s'.buckets == s.buckets
    requires forall p :: 0 <= p < c.pageCount ==>
               s'.pages[p].free == s.pages[p].free && s'.pages[p].bucket == s.pages[p].bucket
    ensures ListsOk(c, s')
  {
  }

  /** Pages only fill up: a full page stays full. */
  lemma BucketsFrame(c: Conf, s: State, s': State)
    requires Shape(c, s) && Shape(c, s') && BucketsOk(c, s)
    requires s'.buckets == s.buckets && s'.writers == s.writers
    requires forall p :: 0 <= p < c.pageCount && s.pages[p].claimed == c.pageSize ==>
               s'.pages[p].claimed == c.pageSize
    ensures BucketsOk(c, s')
  {
    forall b | 0 <= b < c.bucketCount
      ensures BucketOk(c, s', b)
    {
      assert BucketOk(c, s, b);
    }
  }

  /** The page keeps its buffer, if it had one, and the objects already in it. */
  ghost predicate Extends(c: Conf, s: State, s': State, p: nat)
    requires Shape(c, s) && Shape(c, s') && p < c.pageCount
  {
    && s'.pages[p].written == s.pages[p].written
    && (s.pages[p].wbuf.Some? ==>
          && s'.pages[p].wbuf == s.pages[p].wbuf
          && var w, w' := s.wbufs[s.pages[p].wbuf.value], s'.wbufs[s.pages[p].wbuf.value];
             w.Used() <= w'.Used() && w'.buf[..w.Used()] == w.buf[..w.Used()])
  }

  lemma HeldFrame(c: Conf, s: State, s': State, o: Object)
    requires Shape(c, s) && Shape(c, s') && o.page < c.pageCount
    requires Held(c, s, o) && Extends(c, s, s', o.page) && s'.disk[o.page] == s.disk[o.page]
    ensures Held(c, s', o)
  {
    var page := s.pages[o.page];
    if o.offset >= page.written {
      var w, w' := s.wbufs[page.wbuf.value], s'.wbufs[page.wbuf.value];
      var i, j := o.offset - page.written, o.offset - page.written + |o.bytes|;
      assert w.buf[i..j] == w.buf[..w.Used()][i..j];
      assert w'.buf[i..j] == w'.buf[..w.Used()][i..j];
    }
  }

  lemma StoredFrame(c: Conf, s: State, s': State)
    requires Shape(c, s) && Shape(c, s') && StoredOk(c, s)
    requires s'.stored == s.stored && s'.disk == s.disk && s.version <= s'.version
    requires forall p :: 0 <= p < c.pageCount && s'.pages[p].version != s.pages[p].version ==>
               s'.pages[p].version == 0 || s'.pages[p].version >= s.version
    requires forall p :: 0 <= p < c.pageCount && s'.pages[p].version == s.pages[p].version != 0 ==>
               Extends(c, s, s', p)
    ensures StoredOk(c, s')
  {
    forall o | o in s.stored && s'.pages[o.page].version == o.version
      ensures Held(c, s', o)
    {
      assert s.pages[o.page].version == o.version;
      HeldFrame(c, s, s', o);
    }
  }

  lemma AnswersFrame(s: State, s': State)
    requires AnswersOk(s) && s'.answers == s.answers && s.stored <= s'.stored
    ensures AnswersOk(s')
  {
  }

  lemma ReadsFrame(c: Conf, s: State, s': State)
    requires Shape(c, s) && Shape(c, s') && ReadsOk(c, s)
    requires s'.reading == s.reading && s.stored <= s'.stored
    requires forall p :: 0 <= p < c.pageCount ==> s'.pages[p].refcount == s.pages[p].refcount
    requires forall p :: 0 <= p < c.pageCount && s.pages[p].refcount > 0 ==>
               && s'.pages[p].free == s.pages[p].free && s'.pages[p].version == s.pages[p].version
               && s'.pages[p].written >= s.pages[p].written
    ensures ReadsOk(c, s')
  {
    forall r | r in s.reading
      ensures s.pages[s.reading[r].target.page].refcount > 0
    {
      assert r in Holders(s.reading, s.reading[r].target.page);
    }
  }
}
