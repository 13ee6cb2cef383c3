/** Recovery of the persistent slab pool: mark live items, relink their chunks, sweep the rest. */
module Recovery {
  import opened Prelude
  import opened Arith

  /** Slot i of frame f. */
  type Coord = (nat, nat)

  /** sizeof (pslab_t): the struct is packed. */
  const HEADER := 12

  datatype Frame = Frame(id: nat, size: nat, linked: bool, chunked: bool, chunk: bool) {
    predicate Kept() {
      id != 0 && (linked || chunk)
    }
  }

  /**
   * A slot as the item or the chunk it holds; `poff` is the offset of the next chunk, 0 for none.
   * The pointers of a chunked item are those of the chunk embedded in its data.
   */
  datatype Slot = Slot(
    linked: bool, chunked: bool, chunk: bool, time: nat, exptime: nat, cas: nat, poff: nat,
    head: Option<Coord>, next: Option<Coord>, prev: Option<Coord>)

  datatype Clock = Clock(now: nat, oldestLive: nat, oldestCas: nat)

  /** `item_is_flushed` */
  predicate ItemIsFlushed(s: Slot, clock: Clock) {
    if clock.oldestLive == 0 || clock.oldestLive > clock.now then false
    else s.time <= clock.oldestLive || (clock.oldestCas != 0 && s.cas != 0 && s.cas < clock.oldestCas)
  }

  /** Linked, not expired, and not hit by a flush that has come due. */
  predicate Live(s: Slot, clock: Clock) {
    s.linked && !ItemIsFlushed(s, clock) && (s.exptime == 0 || s.exptime > clock.now)
  }

  /** Which items live, field by field: neither expired nor, once the flush is due, as old as it or below its CAS. */
  lemma LiveExactly(s: Slot, clock: Clock)
    ensures Live(s, clock) <==>
            && s.linked && !(0 < s.exptime <= clock.now)
            && (0 < clock.oldestLive <= clock.now ==> clock.oldestLive < s.time && !(0 < s.cas < clock.oldestCas))
  {
  }

  /** What is dropped now would be dropped at any later time. */
  lemma DroppedForEver(s: Slot, clock: Clock, later: nat)
    requires !Live(s, clock) && clock.now <= later
    ensures !Live(s, clock.(now := later))
  {
  }

  // ----- addresses -----

  predicate IsSlot(frames: seq<Frame>, pageSize: nat, c: Coord) {
    && c.0 < |frames| && frames[c.0].id != 0
    && 0 < frames[c.0].size
    && c.1 < pageSize / frames[c.0].size
  }

  /** The byte offset of a slot from the start of the first frame. */
  function Ptr(frames: seq<Frame>, pageSize: nat, c: Coord): nat
    requires c.0 < |frames|
  {
    c.0 * (HEADER + pageSize) + HEADER + c.1 * frames[c.0].size
  }

  /** `pslab_addr2slab`: the frame an address lies in. */
  function FrameAt(pageSize: nat, off: nat): nat {
    off / (HEADER + pageSize)
  }

  /** The slot that starts at an address. */
  function SlotAt(frames: seq<Frame>, pageSize: nat, off: nat): Coord
    requires FrameAt(pageSize, off) < |frames| && frames[FrameAt(pageSize, off)].size > 0
  {
    var f, r := FrameAt(pageSize, off), off % (HEADER + pageSize);
    (f, if r < HEADER then 0 else (r - HEADER) / frames[f].size)
  }

  /** A slot's address leads back to its frame and to the slot. */
  lemma AddressRoundTrip(frames: seq<Frame>, pageSize: nat, c: Coord)
    requires IsSlot(frames, pageSize, c)
    ensures var off := Ptr(frames, pageSize, c);
            && off != 0
            && FrameAt(pageSize, off) == c.0
            && SlotAt(frames, pageSize, off) == c
  {
    var size := frames[c.0].size;
    var r := HEADER + c.1 * size;
    assert c.1 * size < pageSize by {
      assert (c.1 + 1) * size <= (pageSize / size) * size;
      assert (pageSize / size) * size <= pageSize;
      assert (c.1 + 1) * size == c.1 * size + size;
    }
    QuotientUnique(Ptr(frames, pageSize, c), HEADER + pageSize, c.0, r);
    QuotientUnique(c.1 * size, size, c.1, 0);
  }

  // ----- the image recovery starts from -----

  ghost predicate WellFormed(frames: seq<Frame>, pageSize: nat, slots: map<Coord, Slot>) {
    && (forall f :: 0 <= f < |frames| && frames[f].id != 0 ==> frames[f].size > 0)
    && (forall c :: c in slots <==> IsSlot(frames, pageSize, c))
  }

  /** The next_poff found after k chunks of a chain. */
  ghost function NextOff(frames: seq<Frame>, pageSize: nat, chain: seq<Coord>, k: nat): nat
    requires k <= |chain| && forall c :: c in chain ==> c.0 < |frames|
  {
    if k < |chain| then Ptr(frames, pageSize, chain[k]) else 0
  }

  /** chain is what x's next_poff leads through, all of it unlinked chunk slots, none twice. */
  ghost predicate IsChain(frames: seq<Frame>, pageSize: nat, slots: map<Coord, Slot>, x: Coord, chain: seq<Coord>)
    requires x in slots
  {
    && (forall k :: 0 <= k < |chain| ==> chain[k] in slots && chain[k].0 < |frames|
                                         && !slots[chain[k]].linked && slots[chain[k]].chunk)
    && slots[x].poff == NextOff(frames, pageSize, chain, 0)
    && (forall k :: 0 <= k < |chain| ==> slots[chain[k]].poff == NextOff(frames, pageSize, chain, k + 1))
    && Distinct(chain)
  }

  /** The live chunked items and their chains; the chains share no slot. */
  ghost predicate ChainsOk(frames: seq<Frame>, pageSize: nat, slots: map<Coord, Slot>, clock: Clock,
                           chains: map<Coord, seq<Coord>>)
  {
    && (forall x :: x in chains <==> x in slots && Live(slots[x], clock) && slots[x].chunked)
    && (forall x :: x in chains ==> IsChain(frames, pageSize, slots, x, chains[x]))
    && (forall x, y, c :: x in chains && y in chains && c in chains[x] && c in chains[y] ==> x == y)
  }

  ghost predicate OnChain(chains: map<Coord, seq<Coord>>, c: Coord) {
    exists x :: x in chains && c in chains[x]
  }

  /** (f, i) comes before (g, j) in the walk. */
  predicate Before(c: Coord, d: Coord) {
    c.0 < d.0 || (c.0 == d.0 && c.1 < d.1)
  }

  // ----- what each pass leaves -----

  /** The second pass on one slot. */
  function MarkSlot(s: Slot, clock: Clock): Slot {
    if s.linked then (if Live(s, clock) then s else s.(linked := false, chunked := false, chunk := true))
    else if s.chunk then s.(head := None)
    else s
  }

  /** f holds a slot before `end` that satisfies p. */
  ghost predicate Holds(slots: map<Coord, Slot>, f: nat, end: Coord, p: Slot -> bool) {
    exists c :: c in slots && c.0 == f && Before(c, end) && p(slots[c])
  }

  /** Slots before `end` are marked, and their frames show what is live in them. */
  ghost predicate MarkedUpTo(frames: seq<Frame>, slots: map<Coord, Slot>, slots0: map<Coord, Slot>,
                             clock: Clock, end: Coord)
  {
    && slots.Keys == slots0.Keys
    && (forall c :: c in slots ==>
          slots[c] == if Before(c, end) then MarkSlot(slots0[c], clock) else slots0[c])
    && (forall f :: 0 <= f < |frames| ==>
          && !frames[f].chunk
          && (frames[f].linked <==> Holds(slots0, f, end, s => Live(s, clock)))
          && (frames[f].chunked <==> Holds(slots0, f, end, s => Live(s, clock) && s.chunked)))
  }

  ghost predicate SameFrames(frames: seq<Frame>, frames0: seq<Frame>) {
    && |frames| == |frames0|
    && forall f :: 0 <= f < |frames| ==> frames[f].id == frames0[f].id && frames[f].size == frames0[f].size
  }

  /** The first k chunks of x's chain know their owner, and are linked to one another from x on. */
  ghost predicate ChainDone(slots: map<Coord, Slot>, x: Coord, chain: seq<Coord>, k: nat)
    requires k <= |chain| && x in slots && forall c :: c in chain ==> c in slots
  {
    && slots[x].head == Some(x)
    && forall j :: 0 <= j < k ==>
         && slots[chain[j]].head == Some(x)
         && slots[chain[j]].prev == Some(Last(x, chain, j))
         && slots[Last(x, chain, j)].next == Some(chain[j])
  }

  /** Nothing but the volatile pointers has moved, and heads only on live chains. */
  ghost predicate OnlyPointers(slots: map<Coord, Slot>, slots1: map<Coord, Slot>, chains: map<Coord, seq<Coord>>) {
    && slots.Keys == slots1.Keys
    && forall c :: c in slots ==>
         && slots[c] == slots1[c].(head := slots[c].head, next := slots[c].next, prev := slots[c].prev)
         && (!OnChain(chains, c) && c !in chains ==> slots[c].head == slots1[c].head)
  }

  /** Chunks of the first k places of x's chain lie in frame f. */
  ghost predicate ReachesFrame(chain: seq<Coord>, k: nat, f: nat)
    requires k <= |chain|
  {
    exists j :: 0 <= j < k && chain[j].0 == f
  }

  ghost predicate ChunkFlags(frames: seq<Frame>, chains: map<Coord, seq<Coord>>, end: Coord) {
    forall f :: 0 <= f < |frames| ==>
      (frames[f].chunk <==> exists x :: x in chains && Before(x, end) && ReachesFrame(chains[x], |chains[x]|, f))
  }

  class Pool {
    const pageSize: nat
    var frames: seq<Frame>
    var slots: map<Coord, Slot>
    var relinked: seq<Coord>
    var freed: seq<Coord>
    /** The static cursor of `pslab_get_free_slab`. */
    var cur: Option<nat>

    /** First pass. */
    method ClearFlags()
      modifies this`frames
      ensures SameFrames(frames, old(frames))
      ensures forall f :: 0 <= f < |frames| ==> !frames[f].linked && !frames[f].chunked && !frames[f].chunk
    {
      for f := 0 to |frames|
        invariant SameFrames(frames, old(frames))
        invariant forall g :: 0 <= g < f ==> !frames[g].linked && !frames[g].chunked && !frames[g].chunk
      {
        frames := frames[f := frames[f].(linked := false, chunked := false, chunk := false)];
      }
    }

    /** Second pass on the slot at (f, i). */
    method MarkOne(c: Coord, clock: Clock)
      requires c in slots && c.0 < |frames|
      modifies this`frames, this`slots
      ensures slots == old(slots)[c := MarkSlot(old(slots)[c], clock)]
      ensures var s := old(slots)[c];
              frames == old(frames)[c.0 := old(frames)[c.0].(
                linked := old(frames)[c.0].linked || Live(s, clock),
                chunked := old(frames)[c.0].chunked || (Live(s, clock) && s.chunked))]
    {
      var it := slots[c];
      if it.linked {
        if ItemIsFlushed(it, clock) || (it.exptime != 0 && it.exptime <= clock.now) {
          slots := slots[c := it.(linked := false, chunked := false, chunk := true)];
        } else {
          frames := frames[c.0 := frames[c.0].(linked := true)];
          if it.chunked {
            frames := frames[c.0 := frames[c.0].(chunked := true)];
          }
        }
      } else if it.chunk {
        slots := slots[c := it.(head := None)];
      }
    }

    /** Second pass: drop dead items, forget chunk heads, and mark the frames of live items. */
    method MarkLinked(clock: Clock)
      requires WellFormed(frames, pageSize, slots)
      requires forall f :: 0 <= f < |frames| ==> !frames[f].linked && !frames[f].chunked && !frames[f].chunk
      modifies this`frames, this`slots
      ensures SameFrames(frames, old(frames))
      ensures MarkedUpTo(frames, slots, old(slots), clock, (|frames|, 0))
    {
      hide MarkedUpTo, MarkSlot, Live;
      MarkedStart(frames, slots, clock);
      for f := 0 to |frames|
        invariant SameFrames(frames, old(frames))
        invariant MarkedUpTo(frames, slots, old(slots), clock, (f, 0))
      {
        var perslab := if frames[f].id == 0 then 0 else pageSize / frames[f].size;
        for i := 0 to perslab
          invariant SameFrames(frames, old(frames))
          invariant MarkedUpTo(frames, slots, old(slots), clock, (f, i))
        {
          assert IsSlot(old(frames), pageSize, (f, i));
          ghost var frames1, slots1 := frames, slots;
          MarkedKeys(frames, slots, old(slots), clock, (f, i));
          MarkOne((f, i), clock);
          MarkedStep(frames1, slots1, frames, slots, old(slots), clock, (f, i));
        }
        MarkedFrame(frames, slots, old(slots), clock, f, perslab);
      }
    }

    /** nch->head = it; ch->next = nch; nch->prev = ch; */
    method Hook(x: Coord, ch: Coord, nch: Coord)
      requires ch in slots && nch in slots && ch != nch
      modifies this`slots
      ensures Hooked(slots, old(slots), x, ch, nch)
    {
      slots := slots[nch := slots[nch].(head := Some(x))];
      slots := slots[ch := slots[ch].(next := Some(nch))];
      slots := slots[nch := slots[nch].(prev := Some(ch))];
    }

    /** Third pass on one live chunked item: follow next_poff from its embedded chunk. */
    method WalkChain(x: Coord, ghost chain: seq<Coord>)
      requires WellFormed(frames, pageSize, slots) && x in slots && x !in chain
      requires IsChain(frames, pageSize, slots, x, chain)
      modifies this`frames, this`slots
      ensures |frames| == |old(frames)| && slots.Keys == old(slots).Keys && forall c :: c in chain ==> c in slots
      ensures Walked(slots, old(slots), x, chain, |chain|) && ChainDone(slots, x, chain, |chain|)
      ensures Flagged(frames, old(frames), chain, |chain|)
    {
      ghost var frames0, slots0 := frames, slots;
      hide Ptr, FrameAt, SlotAt, ChainDone, Walked, Flagged, SameFrames, WellFormed, IsChain, Hooked;
      ChainInSlots(frames0, pageSize, slots0, x, chain);
      WalkStart(frames, slots, x, chain);
      var ch := x;
      slots := slots[ch := slots[ch].(head := Some(x))];
      ghost var k := 0;
      while slots[ch].poff != 0
        invariant slots.Keys == slots0.Keys && k <= |chain| && ch == Last(x, chain, k) && ch in slots
        invariant Walked(slots, slots0, x, chain, k) && ChainDone(slots, x, chain, k)
        invariant Flagged(frames, frames0, chain, k)
        decreases |chain| - k
      {
        WalkedPoff(slots, slots0, x, chain, k);
        FlaggedSame(frames, frames0, chain, k);
        ChainStep(frames0, pageSize, slots0, x, chain, k);
        SameAddress(frames, frames0, pageSize, slots[ch].poff);
        var nch := SlotAt(frames, pageSize, slots[ch].poff);
        var nfp := FrameAt(pageSize, slots[ch].poff);
        ghost var slots1, frames1 := slots, frames;
        frames := frames[nfp := frames[nfp].(chunk := true)];
        Hook(x, ch, nch);
        WalkedStep(slots1, slots, slots0, x, chain, k);
        ChainDoneStep(slots1, slots, x, chain, k);
        FlaggedStep(frames1, frames, frames0, chain, k);
        ch := nch;
        k := k + 1;
      }
      WalkedPoff(slots, slots0, x, chain, k);
      ChainEnd(frames0, pageSize, slots0, x, chain, k);
      FlaggedSame(frames, frames0, chain, k);
    }

    /** Third pass: relink the chunks of every live item. */
    method RelinkChunks(ghost chains: map<Coord, seq<Coord>>)
      requires Relinkable(frames, pageSize, slots, chains)
      modifies this`frames, this`slots
      ensures RelinkedUpTo(frames, slots, old(frames), old(slots), chains, (|frames|, 0))
    {
      ghost var frames0, slots0 := frames, slots;
      hide Relinkable, RelinkedUpTo, Walked, Flagged, IsChain, ChainDone, WellFormed, IsSlot;
      RelinkedStart(frames, pageSize, slots, chains);
      for f := 0 to |frames|
        invariant |frames| == |frames0|
        invariant RelinkedUpTo(frames, slots, frames0, slots0, chains, (f, 0))
      {
        RelinkedSame(frames, slots, frames0, slots0, chains, (f, 0));
        FrameEnd(frames0, pageSize, slots0, chains, f);
        var perslab :=
          if frames[f].id == 0 || !frames[f].chunked then 0 else pageSize / frames[f].size;
        for i := 0 to perslab
          invariant |frames| == |frames0|
          invariant RelinkedUpTo(frames, slots, frames0, slots0, chains, (f, i))
        {
          var x: Coord := (f, i);
          RelinkedSame(frames, slots, frames0, slots0, chains, x);
          SlotStatus(frames0, pageSize, slots0, chains, x);
          if slots[x].linked && slots[x].chunked {
            ghost var frames1, slots1 := frames, slots;
            ReadyToWalk(frames, pageSize, slots, frames0, slots0, chains, x);
            WalkChain(x, chains[x]);
            RelinkedStep(frames1, slots1, frames, slots, frames0, pageSize, slots0, chains, x);
          } else {
            RelinkedSkip(frames, slots, frames0, slots0, chains, x, (f, i + 1));
          }
        }
        RelinkedSkip(frames, slots, frames0, slots0, chains, (f, perslab), (f + 1, 0));
      }
    }

    /** Fourth pass: relink live items and free what no live item holds. */
    method Sweep(renew: nat -> bool) returns (ok: bool)
      requires WellFormed(frames, pageSize, slots) && relinked == [] && freed == []
      requires forall c :: c in slots && Unheld(slots[c]) ==> !slots[c].chunked
      modifies this`relinked, this`freed
      ensures ok <==> forall f :: 0 <= f < |frames| && frames[f].Kept() ==> renew(f)
      ensures ok ==> SweptUpTo(frames, slots, relinked, freed, (|frames|, 0))
    {
      hide SweptUpTo;
      SweptStart(frames, slots);
      for f := 0 to |frames|
        invariant SweptUpTo(frames, slots, relinked, freed, (f, 0))
        invariant forall g :: 0 <= g < f && frames[g].Kept() ==> renew(g)
      {
        var perslab := 0;
        if frames[f].Kept() {
          if !renew(f) {
            return false;
          }
          perslab := pageSize / frames[f].size;
        }
        for i := 0 to perslab
          invariant SweptUpTo(frames, slots, relinked, freed, (f, i))
        {
          var c: Coord := (f, i);
          assert IsSlot(frames, pageSize, c);
          SweptStep(frames, slots, relinked, freed, c);
          if slots[c].linked {
            relinked := relinked + [c];
          } else if !slots[c].chunk || slots[c].head == None {
            assert !slots[c].chunked;
            freed := freed + [c];
          }
        }
        SweptFrame(frames, slots, relinked, freed, f, perslab);
      }
      return true;
    }

    /** `pslab_get_free_slab`: the next frame recovery did not keep, if `slab` is where the last call stopped. */
    method GetFreeSlab(slab: Option<nat>) returns (next: Option<nat>)
      modifies this`cur
      ensures slab.Some? && slab != old(cur) ==> next == None && cur == old(cur)
      ensures slab.None? || slab == old(cur) ==>
                && cur == next
                && var from := if slab.None? then 0 else slab.value + 1;
                   match next
                   case Some(f) =>
                     && from <= f < |frames| && !frames[f].Kept()
                     && forall g :: from <= g < f ==> frames[g].Kept()
                   case None => forall g :: from <= g < |frames| ==> frames[g].Kept()
    {
      if slab.None? {
        cur := None;
      } else if slab != cur {
        return None;
      }
      var fp := if cur.None? then 0 else cur.value + 1;
      ghost var from := fp;
      while fp < |frames|
        invariant from <= fp
        invariant forall g :: from <= g < fp && g < |frames| ==> frames[g].Kept()
      {
        if frames[fp].id == 0 || !(frames[fp].linked || frames[fp].chunk) {
          cur := Some(fp);
          return Some(fp);
        }
        fp := fp + 1;
      }
      cur := None;
      return None;
    }

    /** The loop of `slabs_prefill_global_from_pmem`: every frame recovery did not keep, once each. */
    method FreeSlabs() returns (list: seq<nat>)
      modifies this`cur
      ensures forall f :: f in list <==> 0 <= f < |frames| && !frames[f].Kept()
      ensures forall j, k :: 0 <= j < k < |list| ==> list[j] < list[k]
    {
      list := [];
      var ptr := GetFreeSlab(None);
      while ptr.Some?
        invariant cur == ptr && (ptr.Some? ==> ptr.value < |frames| && !frames[ptr.value].Kept())
        invariant forall f :: f in list <==>
                    0 <= f < |frames| && !frames[f].Kept() && (ptr.Some? ==> f < ptr.value)
        invariant forall j, k :: 0 <= j < k < |list| ==> list[j] < list[k]
        decreases if ptr.Some? then |frames| - ptr.value else 0
      {
        assert forall j :: 0 <= j < |list| ==> list[j] in list;
        list := list + [ptr.value];
        ptr := GetFreeSlab(ptr);
      }
    }

    /** `pslab_do_recover` */
    method DoRecover(clock: Clock, renew: nat -> bool, ghost chains: map<Coord, seq<Coord>>) returns (ok: bool)
      requires WellFormed(frames, pageSize, slots) && relinked == [] && freed == []
      requires ChainsOk(frames, pageSize, slots, clock, chains)
      requires forall c :: c in slots && !slots[c].linked ==> !slots[c].chunked
      modifies this`frames, this`slots, this`relinked, this`freed
      ensures ok <==> forall f :: 0 <= f < |frames| && frames[f].Kept() ==> renew(f)
      ensures SameFrames(frames, old(frames)) && slots.Keys == old(slots).Keys
      ensures forall f :: 0 <= f < |frames| ==>
                (frames[f].Kept() <==> frames[f].id != 0 && HoldsLive(old(slots), clock, chains, f))
      ensures Owned(slots, chains)
      ensures ok ==> RecoveredExactly(frames, old(slots), clock, chains, relinked, freed)
      ensures ok ==> forall c :: c in old(slots) ==>
                var s := old(slots)[c];
                c in relinked <==>
                && s.linked && !(0 < s.exptime <= clock.now)
                && (0 < clock.oldestLive <= clock.now ==> clock.oldestLive < s.time && !(0 < s.cas < clock.oldestCas))
    {
      ghost var frames0, slots0 := frames, slots;
      hide MarkedUpTo, RelinkedUpTo, SweptUpTo, ChainsOk, WellFormed, Relinkable, IsChain;
      ClearFlags();
      WellFormedFrames(frames, frames0, pageSize, slots);
      MarkLinked(clock);
      ghost var frames1, slots1 := frames, slots;
      MarkedEverywhere(frames0, frames1, pageSize, slots0, slots1, clock);
      MarkedRelinkable(frames0, frames1, pageSize, slots0, slots1, clock, chains);
      RelinkChunks(chains);
      RecoveredShape(frames0, frames1, frames, pageSize, slots0, slots1, slots, clock, chains);
      ok := Sweep(renew);
      if ok {
        SweptMeans(frames, slots0, slots, clock, chains, relinked, freed);
        forall c | c in slots0
          ensures c in relinked <==>
                  && slots0[c].linked && !(0 < slots0[c].exptime <= clock.now)
                  && (0 < clock.oldestLive <= clock.now ==>
                        clock.oldestLive < slots0[c].time && !(0 < slots0[c].cas < clock.oldestCas))
        {
          LiveExactly(slots0[c], clock);
        }
      }
    }
  }

  /** Frame f holds a live item, or a chunk of one. */
  ghost predicate HoldsLive(slots0: map<Coord, Slot>, clock: Clock, chains: map<Coord, seq<Coord>>, f: nat) {
    || (exists c :: c in slots0 && c.0 == f && Live(slots0[c], clock))
    || (exists x :: x in chains && ReachesFrame(chains[x], |chains[x]|, f))
  }

  /** Every chunk on a live chain has its item as head, and the chain is doubly linked from the item on. */
  ghost predicate Owned(slots: map<Coord, Slot>, chains: map<Coord, seq<Coord>>) {
    forall x :: x in chains ==>
      && x in slots && (forall c :: c in chains[x] ==> c in slots)
      && ChainDone(slots, x, chains[x], |chains[x]|)
  }

  /** Each live item relinked once, and each unlinked slot of a kept frame freed once unless a live item holds it. */
  ghost predicate RecoveredExactly(frames: seq<Frame>, slots0: map<Coord, Slot>, clock: Clock,
                                   chains: map<Coord, seq<Coord>>, relinked: seq<Coord>, freed: seq<Coord>)
  {
    && Distinct(relinked) && Distinct(freed)
    && (forall c :: c in relinked <==> c in slots0 && Live(slots0[c], clock))
    && (forall c :: c in slots0 && !slots0[c].linked ==>
          (c in freed <==> c.0 < |frames| && frames[c.0].Kept() && !OnChain(chains, c)))
  }

  lemma WellFormedFrames(frames: seq<Frame>, frames0: seq<Frame>, pageSize: nat, slots: map<Coord, Slot>)
    requires WellFormed(frames0, pageSize, slots) && SameFrames(frames, frames0)
    ensures WellFormed(frames, pageSize, slots)
  {
    forall c: Coord
      ensures IsSlot(frames, pageSize, c) <==> IsSlot(frames0, pageSize, c)
    {
    }
  }

  lemma MarkedChain(frames0: seq<Frame>, frames1: seq<Frame>, pageSize: nat, slots0: map<Coord, Slot>,
                    slots1: map<Coord, Slot>, clock: Clock, x: Coord, chain: seq<Coord>)
    requires SameFrames(frames1, frames0) && x in slots0 && IsChain(frames0, pageSize, slots0, x, chain)
    requires slots1.Keys == slots0.Keys && forall c :: c in slots1 ==> slots1[c] == MarkSlot(slots0[c], clock)
    ensures IsChain(frames1, pageSize, slots1, x, chain)
  {
    forall k | 0 <= k <= |chain|
      ensures NextOff(frames1, pageSize, chain, k) == NextOff(frames0, pageSize, chain, k)
    {
    }
  }

  /** After the second pass the third can run. */
  lemma MarkedRelinkable(frames0: seq<Frame>, frames1: seq<Frame>, pageSize: nat, slots0: map<Coord, Slot>,
                         slots1: map<Coord, Slot>, clock: Clock, chains: map<Coord, seq<Coord>>)
    requires WellFormed(frames0, pageSize, slots0) && ChainsOk(frames0, pageSize, slots0, clock, chains)
    requires SameFrames(frames1, frames0) && MarkedUpTo(frames1, slots1, slots0, clock, (|frames1|, 0))
    ensures Relinkable(frames1, pageSize, slots1, chains)
  {
    hide MarkedUpTo, WellFormed, MarkSlot, IsChain, SameFrames, Live;
    MarkedEverywhere(frames0, frames1, pageSize, slots0, slots1, clock);
    WellFormedFrames(frames1, frames0, pageSize, slots0);
    SlotsFit(frames1, pageSize, slots1, slots0);
    MarkedOwners(frames0, pageSize, slots0, slots1, clock, chains);
    MarkedChains(frames0, frames1, pageSize, slots0, slots1, clock, chains);
  }

  lemma MarkedOwners(frames0: seq<Frame>, pageSize: nat, slots0: map<Coord, Slot>, slots1: map<Coord, Slot>,
                     clock: Clock, chains: map<Coord, seq<Coord>>)
    requires ChainsOk(frames0, pageSize, slots0, clock, chains)
    requires slots1.Keys == slots0.Keys && forall c :: c in slots1 ==> slots1[c] == MarkSlot(slots0[c], clock)
    ensures forall x :: x in chains <==> x in slots1 && slots1[x].linked && slots1[x].chunked
  {
    hide IsChain, MarkSlot;
    forall x: Coord
      ensures x in chains <==> x in slots1 && slots1[x].linked && slots1[x].chunked
    {
      if x in slots1 {
        MarkedLive(slots0[x], clock);
      }
    }
  }

  lemma MarkedChains(frames0: seq<Frame>, frames1: seq<Frame>, pageSize: nat, slots0: map<Coord, Slot>,
                     slots1: map<Coord, Slot>, clock: Clock, chains: map<Coord, seq<Coord>>)
    requires SameFrames(frames1, frames0) && ChainsOk(frames0, pageSize, slots0, clock, chains)
    requires slots1.Keys == slots0.Keys && forall c :: c in slots1 ==> slots1[c] == MarkSlot(slots0[c], clock)
    ensures forall x :: x in chains ==> x in slots1 && IsChain(frames1, pageSize, slots1, x, chains[x])
    ensures forall x, c :: x in chains && c in chains[x] ==> c in slots1 && !slots1[c].linked
  {
    hide IsChain, SameFrames, MarkSlot;
    forall x | x in chains
      ensures IsChain(frames1, pageSize, slots1, x, chains[x])
      ensures forall c :: c in chains[x] ==> c in slots1 && !slots1[c].linked
    {
      MarkedChain(frames0, frames1, pageSize, slots0, slots1, clock, x, chains[x]);
      ChainUnlinked(frames1, pageSize, slots1, x, chains[x]);
    }
  }

  lemma MarkedLive(s: Slot, clock: Clock)
    ensures MarkSlot(s, clock).linked <==> Live(s, clock)
    ensures MarkSlot(s, clock).linked && MarkSlot(s, clock).chunked <==> Live(s, clock) && s.chunked
  {
  }

  lemma ChainUnlinked(frames: seq<Frame>, pageSize: nat, slots: map<Coord, Slot>, x: Coord, chain: seq<Coord>)
    requires x in slots && IsChain(frames, pageSize, slots, x, chain)
    ensures forall c :: c in chain ==> c in slots && !slots[c].linked
  {
  }

  /** The second pass has reached every slot, and every frame shows what is live in it. */
  lemma MarkedEverywhere(frames0: seq<Frame>, frames1: seq<Frame>, pageSize: nat, slots0: map<Coord, Slot>,
                         slots1: map<Coord, Slot>, clock: Clock)
    requires WellFormed(frames0, pageSize, slots0)
    requires SameFrames(frames1, frames0) && MarkedUpTo(frames1, slots1, slots0, clock, (|frames1|, 0))
    ensures slots1.Keys == slots0.Keys && forall c :: c in slots1 ==> slots1[c] == MarkSlot(slots0[c], clock)
    ensures forall f :: 0 <= f < |frames1| ==> !frames1[f].chunk
    ensures forall f :: 0 <= f < |frames1| ==>
              (frames1[f].linked <==> exists c :: c in slots0 && c.0 == f && Live(slots0[c], clock))
    ensures forall c :: c in slots0 && Live(slots0[c], clock) && slots0[c].chunked ==>
              c.0 < |frames1| && frames1[c.0].chunked
  {
    var end := (|frames1|, 0);
    forall c | c in slots0
      ensures c.0 < |frames1| && Before(c, end)
    {
      assert IsSlot(frames0, pageSize, c);
    }
    hide WellFormed;
    forall c | c in slots0 && Live(slots0[c], clock) && slots0[c].chunked
      ensures frames1[c.0].chunked
    {
      assert Holds(slots0, c.0, end, s => Live(s, clock) && s.chunked);
    }
  }

  /** Relinking the chunks moved nothing the frames' shape depends on, and every chain got done. */
  lemma RelinkedAll(frames1: seq<Frame>, frames: seq<Frame>, pageSize: nat, slots1: map<Coord, Slot>,
                    slots: map<Coord, Slot>, chains: map<Coord, seq<Coord>>)
    requires Relinkable(frames1, pageSize, slots1, chains)
    requires RelinkedUpTo(frames, slots, frames1, slots1, chains, (|frames|, 0))
    ensures SameFrames(frames, frames1) && WellFormed(frames, pageSize, slots)
    ensures forall c :: c in slots ==> c.0 < |frames| && frames[c.0].id != 0
    ensures Owned(slots, chains)
    ensures OnlyPointers(slots, slots1, chains)
    ensures forall f :: 0 <= f < |frames| ==> frames[f].linked == frames1[f].linked
    ensures forall f :: 0 <= f < |frames| ==>
              (frames[f].chunk <==> exists x :: x in chains && ReachesFrame(chains[x], |chains[x]|, f))
  {
    hide IsChain, ChainDone, ReachesFrame, OnlyPointers, WellFormed, IsSlot, Before;
    WellFormedFrames(frames, frames1, pageSize, slots1);
    PointersKeys(slots, slots1, chains);
    SlotsFit(frames, pageSize, slots, slots1);
  }

  lemma SlotsFit(frames: seq<Frame>, pageSize: nat, slots: map<Coord, Slot>, slots1: map<Coord, Slot>)
    requires WellFormed(frames, pageSize, slots1) && slots.Keys == slots1.Keys
    ensures WellFormed(frames, pageSize, slots)
    ensures forall c :: c in slots ==> c.0 < |frames| && frames[c.0].id != 0
    ensures forall c :: c in slots ==> Before(c, (|frames|, 0))
  {
  }

  /** A chunk on a live chain is unlinked and has a head; one on no live chain lost its head in the second pass. */
  lemma HeadsTell(frames1: seq<Frame>, pageSize: nat, slots0: map<Coord, Slot>, slots1: map<Coord, Slot>,
                  slots: map<Coord, Slot>, clock: Clock, chains: map<Coord, seq<Coord>>, c: Coord)
    requires slots1.Keys == slots0.Keys && c in slots1 && c in slots && slots1[c] == MarkSlot(slots0[c], clock)
    requires Owned(slots, chains) && OnlyPointers(slots, slots1, chains)
    requires forall x :: x in chains ==>
               x in slots1 && slots1[x].linked && IsChain(frames1, pageSize, slots1, x, chains[x])
    ensures slots[c].linked <==> Live(slots0[c], clock)
    ensures !slots0[c].linked ==> slots[c].chunked == slots0[c].chunked
    ensures slots0[c].linked && !slots[c].linked ==> !slots[c].chunked
    ensures !slots0[c].linked ==> (Unheld(slots[c]) <==> !OnChain(chains, c))
  {
    hide ItemIsFlushed;
    if OnChain(chains, c) {
      var x :| x in chains && c in chains[x];
      var k :| 0 <= k < |chains[x]| && chains[x][k] == c;
      assert ChainDone(slots, x, chains[x], |chains[x]|) && IsChain(frames1, pageSize, slots1, x, chains[x]);
      assert slots[chains[x][k]].head == Some(x) && slots1[chains[x][k]].chunk;
    }
  }

  lemma RecoveredShape(frames0: seq<Frame>, frames1: seq<Frame>, frames: seq<Frame>, pageSize: nat,
                       slots0: map<Coord, Slot>, slots1: map<Coord, Slot>, slots: map<Coord, Slot>,
                       clock: Clock, chains: map<Coord, seq<Coord>>)
    requires SameFrames(frames1, frames0) && Relinkable(frames1, pageSize, slots1, chains)
    requires slots1.Keys == slots0.Keys && forall c :: c in slots1 ==> slots1[c] == MarkSlot(slots0[c], clock)
    requires forall f :: 0 <= f < |frames1| ==>
               (frames1[f].linked <==> exists c :: c in slots0 && c.0 == f && Live(slots0[c], clock))
    requires forall c :: c in slots0 && !slots0[c].linked ==> !slots0[c].chunked
    requires RelinkedUpTo(frames, slots, frames1, slots1, chains, (|frames|, 0))
    ensures SameFrames(frames, frames0) && slots.Keys == slots0.Keys && WellFormed(frames, pageSize, slots)
    ensures forall c :: c in slots ==> c.0 < |frames| && frames[c.0].id != 0
    ensures forall f :: 0 <= f < |frames| ==>
              (frames[f].Kept() <==> frames[f].id != 0 && HoldsLive(slots0, clock, chains, f))
    ensures Owned(slots, chains)
    ensures forall c :: c in slots && Unheld(slots[c]) ==> !slots[c].chunked
    ensures forall c :: c in slots ==> (slots[c].linked <==> Live(slots0[c], clock))
    ensures forall c :: c in slots && !slots0[c].linked ==> (Unheld(slots[c]) <==> !OnChain(chains, c))
  {
    hide Relinkable, RelinkedUpTo, WellFormed, OnlyPointers, IsChain, Live, MarkSlot, OnChain, Owned, HoldsLive,
         Frame.Kept;
    RelinkedAll(frames1, frames, pageSize, slots1, slots, chains);
    PointersKeys(slots, slots1, chains);
    RelinkableChains(frames1, pageSize, slots1, chains);
    forall f | 0 <= f < |frames|
      ensures frames[f].Kept() <==> frames[f].id != 0 && HoldsLive(slots0, clock, chains, f)
    {
      KeptTells(frames[f], slots0, clock, chains, f);
    }
    forall c | c in slots
      ensures Unheld(slots[c]) ==> !slots[c].chunked
      ensures slots[c].linked <==> Live(slots0[c], clock)
      ensures !slots0[c].linked ==> (Unheld(slots[c]) <==> !OnChain(chains, c))
    {
      HeadsTell(frames1, pageSize, slots0, slots1, slots, clock, chains, c);
    }
  }

  lemma KeptTells(frame: Frame, slots0: map<Coord, Slot>, clock: Clock, chains: map<Coord, seq<Coord>>, f: nat)
    requires frame.linked <==> exists c :: c in slots0 && c.0 == f && Live(slots0[c], clock)
    requires frame.chunk <==> exists x :: x in chains && ReachesFrame(chains[x], |chains[x]|, f)
    ensures frame.Kept() <==> frame.id != 0 && HoldsLive(slots0, clock, chains, f)
  {
    hide Live, ReachesFrame;
  }

  lemma RelinkableChains(frames: seq<Frame>, pageSize: nat, slots: map<Coord, Slot>, chains: map<Coord, seq<Coord>>)
    requires Relinkable(frames, pageSize, slots, chains)
    ensures forall x :: x in chains ==> x in slots && slots[x].linked && IsChain(frames, pageSize, slots, x, chains[x])
  {
  }

  lemma SweptMeans(frames: seq<Frame>, slots0: map<Coord, Slot>, slots: map<Coord, Slot>, clock: Clock,
                   chains: map<Coord, seq<Coord>>, relinked: seq<Coord>, freed: seq<Coord>)
    requires SweptUpTo(frames, slots, relinked, freed, (|frames|, 0)) && slots.Keys == slots0.Keys
    requires forall c :: c in slots ==> c.0 < |frames| && frames[c.0].id != 0
    requires forall f :: 0 <= f < |frames| ==>
               (frames[f].Kept() <==> frames[f].id != 0 && HoldsLive(slots0, clock, chains, f))
    requires forall c :: c in slots ==> (slots[c].linked <==> Live(slots0[c], clock))
    requires forall c :: c in slots && !slots0[c].linked ==> (Unheld(slots[c]) <==> !OnChain(chains, c))
    ensures RecoveredExactly(frames, slots0, clock, chains, relinked, freed)
  {
    forall c | c in slots0 && Live(slots0[c], clock)
      ensures frames[c.0].Kept()
    {
      assert HoldsLive(slots0, clock, chains, c.0);
    }
  }

  /** Not linked, and not a chunk that a live item claimed. */
  ghost predicate Unheld(s: Slot) {
    !s.linked && (!s.chunk || s.head == None)
  }

  ghost predicate SweptUpTo(frames: seq<Frame>, slots: map<Coord, Slot>, relinked: seq<Coord>, freed: seq<Coord>,
                            end: Coord)
  {
    && Distinct(relinked) && Distinct(freed)
    && (forall c :: c in relinked <==>
          c in slots && c.0 < |frames| && frames[c.0].Kept() && slots[c].linked && Before(c, end))
    && (forall c :: c in freed <==>
          c in slots && c.0 < |frames| && frames[c.0].Kept() && Unheld(slots[c]) && Before(c, end))
  }

  lemma SweptStart(frames: seq<Frame>, slots: map<Coord, Slot>)
    ensures SweptUpTo(frames, slots, [], [], (0, 0))
  {
  }

  lemma SweptStep(frames: seq<Frame>, slots: map<Coord, Slot>, relinked: seq<Coord>, freed: seq<Coord>, c: Coord)
    requires SweptUpTo(frames, slots, relinked, freed, c)
    requires c in slots && c.0 < |frames| && frames[c.0].Kept()
    ensures SweptUpTo(frames, slots,
                      if slots[c].linked then relinked + [c] else relinked,
                      if Unheld(slots[c]) then freed + [c] else freed, (c.0, c.1 + 1))
  {
    assert c !in relinked && c !in freed;
    forall d: Coord | Before(d, (c.0, c.1 + 1)) && !Before(d, c)
      ensures d == c
    {
      assert d == (d.0, d.1) && c == (c.0, c.1);
    }
  }

  lemma SweptFrame(frames: seq<Frame>, slots: map<Coord, Slot>, relinked: seq<Coord>, freed: seq<Coord>,
                   f: nat, n: nat)
    requires SweptUpTo(frames, slots, relinked, freed, (f, n)) && f < |frames|
    requires forall c :: c in slots && c.0 == f && frames[f].Kept() ==> c.1 < n
    ensures SweptUpTo(frames, slots, relinked, freed, (f + 1, 0))
  {
    assert forall c :: c in slots && c.0 < |frames| && frames[c.0].Kept() ==>
             (Before(c, (f, n)) <==> Before(c, (f + 1, 0)));
  }

  lemma SlotStatus(frames: seq<Frame>, pageSize: nat, slots: map<Coord, Slot>, chains: map<Coord, seq<Coord>>, x: Coord)
    requires Relinkable(frames, pageSize, slots, chains)
    requires x.0 < |frames| && frames[x.0].id != 0 && frames[x.0].size != 0 && x.1 < pageSize / frames[x.0].size
    ensures x in slots && (x in chains <==> slots[x].linked && slots[x].chunked)
    ensures x !in chains ==> forall y :: y in chains ==> (Before(y, x) <==> Before(y, (x.0, x.1 + 1)))
  {
    assert IsSlot(frames, pageSize, x);
  }

  lemma FrameEnd(frames: seq<Frame>, pageSize: nat, slots: map<Coord, Slot>, chains: map<Coord, seq<Coord>>, f: nat)
    requires Relinkable(frames, pageSize, slots, chains) && f < |frames|
    ensures frames[f].id != 0 ==> frames[f].size != 0
    ensures forall y :: y in chains ==> (Before(y, (f, ChunkedSlots(frames[f], pageSize))) <==> Before(y, (f + 1, 0)))
  {
    forall y | y in chains && y.0 == f
      ensures y.1 < ChunkedSlots(frames[f], pageSize)
    {
      assert IsSlot(frames, pageSize, y);
    }
  }

  /** How many slots of a frame the third pass visits. */
  function ChunkedSlots(frame: Frame, pageSize: nat): nat {
    if frame.id == 0 || !frame.chunked || frame.size == 0 then 0 else pageSize / frame.size
  }

  /** The image after the second pass: the live chunked items are the linked ones that are chunked. */
  ghost predicate Relinkable(frames: seq<Frame>, pageSize: nat, slots: map<Coord, Slot>,
                             chains: map<Coord, seq<Coord>>)
  {
    && WellFormed(frames, pageSize, slots)
    && (forall x :: x in chains <==> x in slots && slots[x].linked && slots[x].chunked)
    && (forall x :: x in chains ==> IsChain(frames, pageSize, slots, x, chains[x]))
    && (forall x, y, c :: x in chains && y in chains && c in chains[x] && c in chains[y] ==> x == y)
    && (forall x, c :: x in chains && c in chains[x] ==> c in slots && c !in chains)
    && (forall f :: 0 <= f < |frames| ==> !frames[f].chunk)
    && (forall x :: x in chains ==> frames[x.0].chunked)
  }

  ghost predicate RelinkedUpTo(frames: seq<Frame>, slots: map<Coord, Slot>, frames0: seq<Frame>,
                               slots0: map<Coord, Slot>, chains: map<Coord, seq<Coord>>, end: Coord)
  {
    && |frames| == |frames0|
    && (forall f :: 0 <= f < |frames| ==> frames[f] == frames0[f].(chunk := frames[f].chunk))
    && OnlyPointers(slots, slots0, chains)
    && ChunkFlags(frames, chains, end)
    && (forall y :: y in chains ==> y in slots && forall c :: c in chains[y] ==> c in slots)
    && (forall y :: y in chains && Before(y, end) ==> ChainDone(slots, y, chains[y], |chains[y]|))
  }

  lemma RelinkedStart(frames: seq<Frame>, pageSize: nat, slots: map<Coord, Slot>, chains: map<Coord, seq<Coord>>)
    requires Relinkable(frames, pageSize, slots, chains)
    ensures RelinkedUpTo(frames, slots, frames, slots, chains, (0, 0))
  {
  }

  lemma RelinkedSame(frames: seq<Frame>, slots: map<Coord, Slot>, frames0: seq<Frame>, slots0: map<Coord, Slot>,
                     chains: map<Coord, seq<Coord>>, end: Coord)
    requires RelinkedUpTo(frames, slots, frames0, slots0, chains, end)
    ensures forall f :: 0 <= f < |frames| ==>
              frames[f].id == frames0[f].id && frames[f].size == frames0[f].size
              && frames[f].chunked == frames0[f].chunked
    ensures slots.Keys == slots0.Keys
    ensures forall c :: c in slots ==>
              slots[c].linked == slots0[c].linked && slots[c].chunked == slots0[c].chunked
  {
  }

  lemma RelinkedSkip(frames: seq<Frame>, slots: map<Coord, Slot>, frames0: seq<Frame>,
                     slots0: map<Coord, Slot>, chains: map<Coord, seq<Coord>>, end: Coord, end': Coord)
    requires RelinkedUpTo(frames, slots, frames0, slots0, chains, end)
    requires forall y :: y in chains ==> (Before(y, end) <==> Before(y, end'))
    ensures RelinkedUpTo(frames, slots, frames0, slots0, chains, end')
  {
    hide Before, ReachesFrame, ChainDone, OnlyPointers;
  }

  /** Marking frames and moving pointers leaves a chain a chain. */
  lemma ChainStays(frames: seq<Frame>, pageSize: nat, slots: map<Coord, Slot>, frames0: seq<Frame>,
                   slots0: map<Coord, Slot>, x: Coord, chain: seq<Coord>)
    requires x in slots0 && IsChain(frames0, pageSize, slots0, x, chain) && SameFrames(frames, frames0)
    requires slots.Keys == slots0.Keys
    requires forall c :: c in slots ==>
               && slots[c].linked == slots0[c].linked && slots[c].chunk == slots0[c].chunk
               && slots[c].poff == slots0[c].poff
    ensures IsChain(frames, pageSize, slots, x, chain)
  {
    forall k | 0 <= k <= |chain|
      ensures NextOff(frames, pageSize, chain, k) == NextOff(frames0, pageSize, chain, k)
    {
    }
  }

  lemma ReadyToWalk(frames: seq<Frame>, pageSize: nat, slots: map<Coord, Slot>, frames0: seq<Frame>,
                    slots0: map<Coord, Slot>, chains: map<Coord, seq<Coord>>, x: Coord)
    requires Relinkable(frames0, pageSize, slots0, chains) && x in chains
    requires RelinkedUpTo(frames, slots, frames0, slots0, chains, x)
    ensures WellFormed(frames, pageSize, slots) && x in slots && x !in chains[x]
    ensures IsChain(frames, pageSize, slots, x, chains[x])
  {
    hide ChunkFlags, ChainDone, OnChain, IsSlot, IsChain;
    WellFormedFrames(frames, frames0, pageSize, slots0);
    ChainStays(frames, pageSize, slots, frames0, slots0, x, chains[x]);
  }

  /** Chains share no slot, so relinking one leaves the others linked. */
  lemma RelinkedStep(frames1: seq<Frame>, slots1: map<Coord, Slot>, frames: seq<Frame>, slots: map<Coord, Slot>,
                     frames0: seq<Frame>, pageSize: nat, slots0: map<Coord, Slot>,
                     chains: map<Coord, seq<Coord>>, x: Coord)
    requires Relinkable(frames0, pageSize, slots0, chains) && x in chains
    requires RelinkedUpTo(frames1, slots1, frames0, slots0, chains, x)
    requires Walked(slots, slots1, x, chains[x], |chains[x]|)
    requires (forall c :: c in chains[x] ==> c in slots) && x in slots
    requires ChainDone(slots, x, chains[x], |chains[x]|) && Flagged(frames, frames1, chains[x], |chains[x]|)
    ensures RelinkedUpTo(frames, slots, frames0, slots0, chains, (x.0, x.1 + 1))
  {
    hide Relinkable, OnlyPointers, Walked, ChainDone, ChunkFlags, ReachesFrame;
    var end := (x.0, x.1 + 1);
    PointersKeys(slots1, slots0, chains);
    RelinkedPointers(slots1, slots, slots0, chains, x);
    RelinkedFlags(frames1, frames, chains, x);
    RelinkedOthers(slots1, slots, frames0, pageSize, slots0, chains, x);
    assert forall y :: y in chains && Before(y, end) ==> y == x || Before(y, x);
  }

  lemma PointersKeys(slots: map<Coord, Slot>, slots0: map<Coord, Slot>, chains: map<Coord, seq<Coord>>)
    requires OnlyPointers(slots, slots0, chains)
    ensures slots.Keys == slots0.Keys
  {
  }

  lemma RelinkedPointers(slots1: map<Coord, Slot>, slots: map<Coord, Slot>, slots0: map<Coord, Slot>,
                         chains: map<Coord, seq<Coord>>, x: Coord)
    requires x in chains && OnlyPointers(slots1, slots0, chains)
    requires Walked(slots, slots1, x, chains[x], |chains[x]|)
    ensures OnlyPointers(slots, slots0, chains)
  {
    forall c | c in slots && !OnChain(chains, c)
      ensures c !in chains[x]
    {
    }
  }

  lemma RelinkedFlags(frames1: seq<Frame>, frames: seq<Frame>, chains: map<Coord, seq<Coord>>, x: Coord)
    requires x in chains && ChunkFlags(frames1, chains, x) && Flagged(frames, frames1, chains[x], |chains[x]|)
    ensures ChunkFlags(frames, chains, (x.0, x.1 + 1))
  {
    hide ReachesFrame;
    var end := (x.0, x.1 + 1);
    assert Before(x, end);
    assert forall y :: y in chains ==> (Before(y, end) <==> y == x || Before(y, x));
  }

  lemma RelinkedOthers(slots1: map<Coord, Slot>, slots: map<Coord, Slot>, frames0: seq<Frame>, pageSize: nat,
                       slots0: map<Coord, Slot>, chains: map<Coord, seq<Coord>>, x: Coord)
    requires Relinkable(frames0, pageSize, slots0, chains) && x in chains
    requires slots1.Keys == slots0.Keys && Walked(slots, slots1, x, chains[x], |chains[x]|)
    ensures forall y :: y in chains ==> y in slots && forall c :: c in chains[y] ==> c in slots
    ensures forall y :: y in chains && y != x && ChainDone(slots1, y, chains[y], |chains[y]|) ==>
              ChainDone(slots, y, chains[y], |chains[y]|)
  {
    forall y | y in chains && y != x && ChainDone(slots1, y, chains[y], |chains[y]|)
      ensures ChainDone(slots, y, chains[y], |chains[y]|)
    {
      forall j | 0 <= j < |chains[y]|
        ensures slots[chains[y][j]] == slots1[chains[y][j]]
        ensures slots[Last(y, chains[y], j)] == slots1[Last(y, chains[y], j)]
      {
        assert chains[y][j] in chains[y];
        assert j > 0 ==> Last(y, chains[y], j) in chains[y];
      }
    }
  }

  lemma ChainInSlots(frames: seq<Frame>, pageSize: nat, slots: map<Coord, Slot>, x: Coord, chain: seq<Coord>)
    requires x in slots && IsChain(frames, pageSize, slots, x, chain)
    ensures forall c :: c in chain ==> c in slots
    ensures Distinct(chain)
  {
  }

  /** A non-zero next_poff leads to the next chunk of the chain. */
  lemma ChainStep(frames: seq<Frame>, pageSize: nat, slots: map<Coord, Slot>, x: Coord, chain: seq<Coord>, k: nat)
    requires WellFormed(frames, pageSize, slots) && x in slots && IsChain(frames, pageSize, slots, x, chain)
    requires k <= |chain| && x !in chain && Last(x, chain, k) in slots && slots[Last(x, chain, k)].poff != 0
    ensures var off := slots[Last(x, chain, k)].poff;
            && k < |chain| && chain[k] in slots && Last(x, chain, k + 1) == chain[k] != Last(x, chain, k)
            && FrameAt(pageSize, off) == chain[k].0 < |frames| && frames[chain[k].0].size > 0
            && SlotAt(frames, pageSize, off) == chain[k]
  {
    assert slots[Last(x, chain, k)].poff == NextOff(frames, pageSize, chain, k);
    AddressRoundTrip(frames, pageSize, chain[k]);
  }

  lemma ChainEnd(frames: seq<Frame>, pageSize: nat, slots: map<Coord, Slot>, x: Coord, chain: seq<Coord>, k: nat)
    requires WellFormed(frames, pageSize, slots) && x in slots && IsChain(frames, pageSize, slots, x, chain)
    requires k <= |chain| && Last(x, chain, k) in slots && slots[Last(x, chain, k)].poff == 0
    ensures k == |chain|
  {
    assert slots[Last(x, chain, k)].poff == NextOff(frames, pageSize, chain, k);
    if k < |chain| {
      AddressRoundTrip(frames, pageSize, chain[k]);
    }
  }

  /** The chunk the walk stands on after k steps; the item's embedded chunk at first. */
  ghost function Last(x: Coord, chain: seq<Coord>, k: nat): Coord
    requires k <= |chain|
  {
    if k == 0 then x else chain[k - 1]
  }

  /** Only the walked chunks and the embedded one have changed, and only in their pointers. */
  ghost predicate Walked(slots: map<Coord, Slot>, slots1: map<Coord, Slot>, x: Coord, chain: seq<Coord>, k: nat)
    requires k <= |chain|
  {
    && slots.Keys == slots1.Keys
    && forall c :: c in slots ==>
         if c in chain then
           slots[c] == slots1[c].(head := slots[c].head, next := slots[c].next, prev := slots[c].prev)
         else if c == x then slots[c] == slots1[c].(head := slots[c].head, next := slots[c].next)
         else slots[c] == slots1[c]
  }

  ghost predicate Flagged(frames: seq<Frame>, frames1: seq<Frame>, chain: seq<Coord>, k: nat)
    requires k <= |chain|
  {
    && |frames| == |frames1|
    && forall f :: 0 <= f < |frames| ==>
         frames[f] == frames1[f].(chunk := frames1[f].chunk || ReachesFrame(chain, k, f))
  }

  lemma SameAddress(frames: seq<Frame>, frames0: seq<Frame>, pageSize: nat, off: nat)
    requires SameFrames(frames, frames0)
    requires FrameAt(pageSize, off) < |frames0| && frames0[FrameAt(pageSize, off)].size > 0
    ensures SlotAt(frames, pageSize, off) == SlotAt(frames0, pageSize, off)
  {
  }

  /** One step of the walk: nch gets its owner and predecessor, ch its successor. */
  ghost predicate Hooked(slots: map<Coord, Slot>, slots1: map<Coord, Slot>, x: Coord, ch: Coord, nch: Coord) {
    && ch != nch && ch in slots1 && nch in slots1
    && slots.Keys == slots1.Keys
    && slots[nch] == slots1[nch].(head := Some(x), prev := Some(ch))
    && slots[ch] == slots1[ch].(next := Some(nch))
    && forall c :: c in slots1 && c != ch && c != nch ==> slots[c] == slots1[c]
  }

  lemma WalkedStep(slots1: map<Coord, Slot>, slots: map<Coord, Slot>, slots0: map<Coord, Slot>,
                   x: Coord, chain: seq<Coord>, k: nat)
    requires k < |chain| && Walked(slots1, slots0, x, chain, k)
    requires Hooked(slots, slots1, x, Last(x, chain, k), chain[k])
    ensures Walked(slots, slots0, x, chain, k + 1)
  {
    assert k > 0 ==> Last(x, chain, k) in chain;
  }

  lemma WalkStart(frames: seq<Frame>, slots: map<Coord, Slot>, x: Coord, chain: seq<Coord>)
    requires x in slots && x !in chain && forall c :: c in chain ==> c in slots
    ensures var slots' := slots[x := slots[x].(head := Some(x))];
            && slots'.Keys == slots.Keys
            && ChainDone(slots', x, chain, 0) && Walked(slots', slots, x, chain, 0)
    ensures Flagged(frames, frames, chain, 0)
  {
  }

  lemma WalkedPoff(slots: map<Coord, Slot>, slots1: map<Coord, Slot>, x: Coord, chain: seq<Coord>, k: nat)
    requires k <= |chain| && Walked(slots, slots1, x, chain, k)
    ensures slots.Keys == slots1.Keys
    ensures forall c :: c in slots ==> slots[c].poff == slots1[c].poff
  {
  }

  lemma FlaggedSame(frames: seq<Frame>, frames1: seq<Frame>, chain: seq<Coord>, k: nat)
    requires k <= |chain| && Flagged(frames, frames1, chain, k)
    ensures |frames| == |frames1| && SameFrames(frames, frames1)
  {
  }

  lemma ChainDoneStep(slots1: map<Coord, Slot>, slots: map<Coord, Slot>, x: Coord, chain: seq<Coord>, k: nat)
    requires k < |chain| && x in slots1 && x !in chain && (forall c :: c in chain ==> c in slots1)
    requires Distinct(chain)
    requires ChainDone(slots1, x, chain, k)
    requires Hooked(slots, slots1, x, Last(x, chain, k), chain[k])
    ensures ChainDone(slots, x, chain, k + 1)
  {
    HookedLast(slots1, slots, x, chain, k);
    forall j | 0 <= j < k
      ensures slots[chain[j]].head == Some(x)
      ensures slots[chain[j]].prev == Some(Last(x, chain, j))
      ensures slots[Last(x, chain, j)].next == Some(chain[j])
    {
      HookedKeeps(slots1, slots, x, chain, k, j);
    }
  }

  /** The chunk just hooked knows its owner and its neighbour, and the owner itself. */
  lemma HookedLast(slots1: map<Coord, Slot>, slots: map<Coord, Slot>, x: Coord, chain: seq<Coord>, k: nat)
    requires k < |chain| && x in slots1 && x !in chain && slots1[x].head == Some(x)
    requires Hooked(slots, slots1, x, Last(x, chain, k), chain[k])
    ensures slots.Keys == slots1.Keys && slots[x].head == Some(x)
    ensures slots[chain[k]].head == Some(x) && slots[chain[k]].prev == Some(Last(x, chain, k))
    ensures slots[Last(x, chain, k)].next == Some(chain[k])
  {
  }

  /** The pointers of the chunks before it stay. */
  lemma HookedKeeps(slots1: map<Coord, Slot>, slots: map<Coord, Slot>, x: Coord, chain: seq<Coord>, k: nat, j: nat)
    requires j < k < |chain| && x !in chain && Distinct(chain) && chain[j] in slots1 && Last(x, chain, j) in slots1
    requires Hooked(slots, slots1, x, Last(x, chain, k), chain[k])
    ensures slots.Keys == slots1.Keys
    ensures slots[chain[j]].head == slots1[chain[j]].head && slots[chain[j]].prev == slots1[chain[j]].prev
    ensures slots[Last(x, chain, j)].next == slots1[Last(x, chain, j)].next
  {
    assert chain[j] != chain[k] && Last(x, chain, j) != Last(x, chain, k) && Last(x, chain, j) != chain[k];
  }

  lemma FlaggedStep(frames1: seq<Frame>, frames: seq<Frame>, frames0: seq<Frame>, chain: seq<Coord>, k: nat)
    requires k < |chain| && chain[k].0 < |frames0| && Flagged(frames1, frames0, chain, k)
    requires frames == frames1[chain[k].0 := frames1[chain[k].0].(chunk := true)]
    ensures Flagged(frames, frames0, chain, k + 1)
  {
    forall f | 0 <= f < |frames|
      ensures ReachesFrame(chain, k + 1, f) <==> ReachesFrame(chain, k, f) || f == chain[k].0
    {
    }
  }

  lemma MarkedStart(frames: seq<Frame>, slots: map<Coord, Slot>, clock: Clock)
    requires forall f :: 0 <= f < |frames| ==> !frames[f].linked && !frames[f].chunked && !frames[f].chunk
    ensures MarkedUpTo(frames, slots, slots, clock, (0, 0))
  {
  }

  lemma MarkedKeys(frames: seq<Frame>, slots: map<Coord, Slot>, slots0: map<Coord, Slot>, clock: Clock, end: Coord)
    requires MarkedUpTo(frames, slots, slots0, clock, end)
    ensures slots.Keys == slots0.Keys
  {
  }

  lemma MarkedStep(frames1: seq<Frame>, slots1: map<Coord, Slot>, frames: seq<Frame>, slots: map<Coord, Slot>,
                   slots0: map<Coord, Slot>, clock: Clock, c: Coord)
    requires MarkedUpTo(frames1, slots1, slots0, clock, c) && c in slots1 && c.0 < |frames1|
    requires slots == slots1[c := MarkSlot(slots1[c], clock)]
    requires frames == frames1[c.0 := frames1[c.0].(
                         linked := frames1[c.0].linked || Live(slots1[c], clock),
                         chunked := frames1[c.0].chunked || (Live(slots1[c], clock) && slots1[c].chunked))]
    ensures MarkedUpTo(frames, slots, slots0, clock, (c.0, c.1 + 1))
  {
    hide Live, MarkSlot;
    var end := (c.0, c.1 + 1);
    forall f | 0 <= f < |frames|
      ensures frames[f].linked <==> Holds(slots0, f, end, s => Live(s, clock))
      ensures frames[f].chunked <==> Holds(slots0, f, end, s => Live(s, clock) && s.chunked)
    {
      HoldsStep(slots0, f, c, s => Live(s, clock));
      HoldsStep(slots0, f, c, s => Live(s, clock) && s.chunked);
    }
  }

  lemma HoldsStep(slots: map<Coord, Slot>, f: nat, c: Coord, p: Slot -> bool)
    requires c in slots
    ensures Holds(slots, f, (c.0, c.1 + 1), p) <==> Holds(slots, f, c, p) || (f == c.0 && p(slots[c]))
  {
    if f == c.0 && p(slots[c]) {
      assert Before(c, (c.0, c.1 + 1));
    }
  }

  /** The end of frame f is the start of frame f + 1. */
  lemma MarkedFrame(frames: seq<Frame>, slots: map<Coord, Slot>, slots0: map<Coord, Slot>, clock: Clock,
                    f: nat, n: nat)
    requires MarkedUpTo(frames, slots, slots0, clock, (f, n))
    requires forall c :: c in slots0 && c.0 == f ==> c.1 < n
    ensures MarkedUpTo(frames, slots, slots0, clock, (f + 1, 0))
  {
    assert forall c :: c in slots0 ==> (Before(c, (f, n)) <==> Before(c, (f + 1, 0)));
    forall g | 0 <= g < |frames|
      ensures frames[g].linked <==> Holds(slots0, g, (f + 1, 0), s => Live(s, clock))
      ensures frames[g].chunked <==> Holds(slots0, g, (f + 1, 0), s => Live(s, clock) && s.chunked)
    {
      assert Holds(slots0, g, (f, n), s => Live(s, clock)) <==> Holds(slots0, g, (f + 1, 0), s => Live(s, clock));
    }
  }
}
