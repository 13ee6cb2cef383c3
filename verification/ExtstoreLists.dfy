/** The storage engine's page lists as they are: one `next` pointer per page, shared by the freelist and the buckets. */
module ExtstoreLists {
  import opened Prelude
  import Chains
  import opened Extstore
  import opened ExtstoreInvariant
  import opened ExtstoreSteps
  import opened ExtstoreSafety

  datatype PageList = Freelist | Bucket(b: nat)

  /** Each page's `next`, page_freelist and page_buckets. */
  datatype Links = Links(next: map<nat, Option<nat>>, heads: map<PageList, Option<nat>>)

  ghost predicate IsPageList(l: PageList, buckets: nat) {
    match l
    case Freelist => true
    case Bucket(b) => b < buckets
  }

  ghost function ChainsOf(s: State): (r: map<PageList, seq<nat>>)
    ensures forall l :: l in r <==> IsPageList(l, |s.buckets|)
    ensures Freelist in r && r[Freelist] == s.freelist
    ensures forall b: nat :: b < |s.buckets| ==> Bucket(b) in r && r[Bucket(b)] == s.buckets[b]
  {
    var buckets := map b: nat | b < |s.buckets| :: Bucket(b) := s.buckets[b];
    assert forall l :: l in buckets <==> l.Bucket? && l.b < |s.buckets|;
    buckets[Freelist := s.freelist]
  }

  /** The pointers of every list lead through exactly its pages. */
  ghost predicate Threads(h: Links, s: State) {
    Chains.Lists(h.next, h.heads, ChainsOf(s))
  }

  /** No page is on two lists, or twice on one. */
  lemma ListsApart(c: Conf, s: State)
    requires Shape(c, s) && ListsOk(c, s)
    ensures Chains.Apart(ChainsOf(s))
  {
    hide Shape, Distinct;
    var chains := ChainsOf(s);
    forall l, k, p | l in chains && k in chains && p in chains[l] && p in chains[k]
      ensures l == k
    {
      OnItsList(c, s, l, p);
      OnItsList(c, s, k, p);
    }
    forall l | l in chains
      ensures Distinct(chains[l])
    {
      EachOnce(c, s, l);
    }
  }

  /** Where a page's own fields say it is. */
  function ListFor(page: Page): PageList {
    if page.free then Freelist else Bucket(page.bucket)
  }

  lemma OnItsList(c: Conf, s: State, l: PageList, p: nat)
    requires Shape(c, s) && ListsOk(c, s) && l in ChainsOf(s) && p in ChainsOf(s)[l]
    ensures p < c.pageCount && l == ListFor(s.pages[p])
  {
    Sizes(c, s);
    match l
    case Freelist => assert p in s.freelist;
    case Bucket(b) => assert p in s.buckets[b];
  }

  lemma EachOnce(c: Conf, s: State, l: PageList)
    requires Shape(c, s) && ListsOk(c, s) && l in ChainsOf(s)
    ensures Distinct(ChainsOf(s)[l])
  {
    Sizes(c, s);
    match l
    case Freelist =>
    case Bucket(b) => assert ChainsOf(s)[Bucket(b)] == s.buckets[b];
  }

  // ----- allocating -----

  /** `_allocate_page`: the first free page goes to the head of bucket b. */
  function Taken(h: Links, b: nat): Links
    requires Freelist in h.heads && h.heads[Freelist].Some? && h.heads[Freelist].value in h.next
    requires Bucket(b) in h.heads
  {
    var p := h.heads[Freelist].value;
    Links(h.next[p := h.heads[Bucket(b)]], h.heads[Freelist := h.next[p]][Bucket(b) := Some(p)])
  }

  lemma TakenThreads(c: Conf, s: State, h: Links, b: nat)
    requires Shape(c, s) && ListsOk(c, s) && b < c.bucketCount && Threads(h, s) && s.freelist != []
    ensures Freelist in h.heads && h.heads[Freelist] == Some(s.freelist[0]) && s.freelist[0] in h.next
    ensures Bucket(b) in h.heads && s.pageFree > 0
    ensures Threads(Taken(h, b), AllocatePage(c, s, b).0)
  {
    Sizes(c, s);
    ListsApart(c, s);
    assert s.pageFree > 0;
    hide ListsOk, Chains.Apart, Chains.Lists;
    TakenChains(c, s, b);
    hide Shape, AllocatePage;
    Chains.ListsMove(h.next, h.heads, ChainsOf(s), Freelist, Bucket(b));
  }

  lemma TakenChains(c: Conf, s: State, b: nat)
    requires Shape(c, s) && b < c.bucketCount && s.freelist != [] && s.pageFree > 0
    ensures ChainsOf(AllocatePage(c, s, b).0)
         == ChainsOf(s)[Freelist := s.freelist[1..]][Bucket(b) := [s.freelist[0]] + s.buckets[b]]
  {
    hide Shape;
    Sizes(c, s);
    var s', chains := AllocatePage(c, s, b).0, ChainsOf(s);
    SameChains(ChainsOf(s'), chains[Freelist := s.freelist[1..]][Bucket(b) := [s.freelist[0]] + s.buckets[b]],
               |s.buckets|);
  }

  lemma SameChains(a: map<PageList, seq<nat>>, b: map<PageList, seq<nat>>, n: nat)
    requires forall l :: l in a <==> IsPageList(l, n)
    requires forall l :: l in b <==> IsPageList(l, n)
    requires Freelist in a && Freelist in b && a[Freelist] == b[Freelist]
    requires forall i: nat :: i < n ==> Bucket(i) in a && Bucket(i) in b && a[Bucket(i)] == b[Bucket(i)]
    ensures a == b
  {
    forall l | l in a
      ensures l in b && a[l] == b[l]
    {
      assert l.Bucket? ==> l == Bucket(l.b);
    }
  }

  // ----- freeing -----

  /** `_free_page`: page p leaves bucket b, where it stands after `before` or first, and heads the freelist. */
  function Freed(h: Links, b: nat, p: nat, before: Option<nat>): Links
    requires Freelist in h.heads && Bucket(b) in h.heads && p in h.next
  {
    var next1 := h.next[p := None];
    var next2 := if before.None? then next1 else next1[before.value := h.next[p]];
    var heads1 := h.heads[Bucket(b) := if before.None? then h.next[p] else h.heads[Bucket(b)]];
    Links(next2[p := heads1[Freelist]], heads1[Freelist := Some(p)])
  }

  /** The page before place i of a list. */
  ghost function Before(list: seq<nat>, i: nat): Option<nat> {
    Nth(list, i - 1)
  }

  lemma FreedThreads(c: Conf, s: State, h: Links, p: nat, i: nat)
    requires Shape(c, s) && ListsOk(c, s) && Threads(h, s) && p < c.pageCount && !s.pages[p].free
    requires var b := s.pages[p].bucket; b < c.bucketCount && i < |s.buckets[b]| && s.buckets[b][i] == p
    ensures var b := s.pages[p].bucket;
            && Freelist in h.heads && Bucket(b) in h.heads && p in h.next
            && Threads(Freed(h, b, p, Before(s.buckets[b], i)), FreePage(c, s, p))
  {
    var b := s.pages[p].bucket;
    var chains, chain := ChainsOf(s), s.buckets[b];
    Sizes(c, s);
    assert Distinct(chain);
    ListsApart(c, s);
    NowhereElse(c, s, p);
    hide Shape, ListsOk, FreePage, Chains.Apart, Chains.Lists, Distinct, Without;
    Chains.ListsKeys(h.next, h.heads, chains);
    Chains.Unhooking(h.next, h.heads, chains, Bucket(b), i);
    var rest := chain[..i] + chain[i + 1..];
    WithoutAt(chain, i);
    WithoutPart(chain, p);
    var next1 := h.next[p := None];
    var next2 := if i == 0 then next1 else next1[chain[i - 1] := h.next[p]];
    var heads1 := h.heads[Bucket(b) := if i == 0 then h.next[p] else h.heads[Bucket(b)]];
    Chains.ListsPush(next2, heads1, chains[Bucket(b) := rest], Freelist, p);
    FreedChains(c, s, p, rest);
  }

  lemma FreedChains(c: Conf, s: State, p: nat, rest: seq<nat>)
    requires Shape(c, s) && p < c.pageCount && s.pages[p].bucket < c.bucketCount
    requires rest == Without(s.buckets[s.pages[p].bucket], p)
    ensures ChainsOf(FreePage(c, s, p))
         == ChainsOf(s)[Bucket(s.pages[p].bucket) := rest][Freelist := [p] + s.freelist]
  {
    Sizes(c, s);
    hide Shape, Without;
    SameChains(ChainsOf(FreePage(c, s, p)),
               ChainsOf(s)[Bucket(s.pages[p].bucket) := rest][Freelist := [p] + s.freelist], |s.buckets|);
  }

  lemma NowhereElse(c: Conf, s: State, p: nat)
    requires Shape(c, s) && ListsOk(c, s) && p < c.pageCount && !s.pages[p].free
    ensures forall l :: l in ChainsOf(s) && l != Bucket(s.pages[p].bucket) ==> p !in ChainsOf(s)[l]
  {
    forall l | l in ChainsOf(s) && p in ChainsOf(s)[l]
      ensures l == Bucket(s.pages[p].bucket)
    {
      OnItsList(c, s, l, p);
    }
  }

  // ----- every step, every run -----

  /** The page that a step of the maintenance thread frees, if any. */
  ghost function FreedBy(c: Conf, s: State, step: Step): Option<nat>
    requires Shape(c, s) && Enabled(c, s, step)
  {
    match step
    case ScanPageStep =>
      var page := s.pages[s.maint.next];
      if !page.active && !page.free && (page.objCount == 0 || page.closed) && page.refcount == 0
      then Some(s.maint.next) else None
    case EvictStep =>
      if s.maint.evict && s.maint.low.Some?
         && !s.pages[s.maint.low.value].closed && s.pages[s.maint.low.value].refcount == 0
      then s.maint.low else None
    case _ => None
  }

  /** The bucket for which a step of a writer allocates a page, if it does. */
  ghost function TakenBy(c: Conf, s: State, step: Step): Option<nat>
    requires Shape(c, s) && Enabled(c, s, step)
  {
    match step
    case PickPageStep(b) => if s.buckets[b] == [] && s.pageFree > 0 then Some(b) else None
    case ReplacePageStep(b) => if s.pageFree > 0 then Some(b) else None
    case _ => None
  }

  /** h' are the pointers after the step's own pointer updates. */
  ghost predicate StepLinks(c: Conf, s: State, h: Links, step: Step, h': Links)
    requires Shape(c, s) && Enabled(c, s, step)
  {
    match (TakenBy(c, s, step), FreedBy(c, s, step))
    case (Some(b), _) =>
      && Freelist in h.heads && h.heads[Freelist].Some? && h.heads[Freelist].value in h.next
      && Bucket(b) in h.heads && h' == Taken(h, b)
    case (None, Some(p)) =>
      var b := s.pages[p].bucket;
      && b < |s.buckets| && Freelist in h.heads && Bucket(b) in h.heads && p in h.next
      && exists i :: 0 <= i < |s.buckets[b]| && s.buckets[b][i] == p && h' == Freed(h, b, p, Before(s.buckets[b], i))
    case (None, None) => h' == h
  }

  /** All other sections leave the lists alone. */
  lemma ListsStay(c: Conf, s: State, step: Step)
    requires Inv(c, s) && Enabled(c, s, step) && AssertsHold(c, s, step)
    ensures TakenBy(c, s, step).None? && FreedBy(c, s, step).None? ==>
              var s' := Apply(c, s, step); s'.freelist == s.freelist && s'.buckets == s.buckets
    ensures TakenBy(c, s, step).Some? ==>
              var b, s' := TakenBy(c, s, step).value, Apply(c, s, step);
              && b < c.bucketCount && s.freelist != [] && s.pageFree > 0
              && ChainsOf(s') == ChainsOf(AllocatePage(c, s, b).0)
    ensures FreedBy(c, s, step).Some? ==>
              var p, s' := FreedBy(c, s, step).value, Apply(c, s, step);
              && p < c.pageCount && !s.pages[p].free && s.pages[p].bucket < c.bucketCount
              && ChainsOf(s') == ChainsOf(FreePage(c, s, p))
  {
    hide ChainsOf, Inv, Shape;
    if step.PickPageStep? || step.ReplacePageStep? {
      WriterLists(c, s, step);
    } else if step.ScanPageStep? || step.EvictStep? {
      MaintenanceLists(c, s, step);
    } else {
      OtherLists(c, s, step);
    }
  }

  lemma OtherLists(c: Conf, s: State, step: Step)
    requires Inv(c, s) && Enabled(c, s, step) && AssertsHold(c, s, step)
    requires !step.PickPageStep? && !step.ReplacePageStep? && !step.ScanPageStep? && !step.EvictStep?
    ensures var s' := Apply(c, s, step); s'.freelist == s.freelist && s'.buckets == s.buckets
  {
    hide Servable, FromBuffer, PagesOk, MaintOk, Buffers, Lists, Data, PageFull, MustSubmit, MustAllocate, HasRoom,
         TryWrite;
    match step
    case TryWriteStep(b, bytes) => TryWriteLists(c, s, b, bytes);
    case _ =>
  }

  lemma TryWriteLists(c: Conf, s: State, b: nat, bytes: seq<Byte>)
    requires Shape(c, s) && b < c.bucketCount && s.writers[b].Picked?
    requires var p := s.writers[b].page; !PageFull(c, s, p) && MustSubmit(c, s, p, |bytes|) ==> s.ioStack > 0
    ensures TryWrite(c, s, b, bytes).freelist == s.freelist && TryWrite(c, s, b, bytes).buckets == s.buckets
  {
    hide Shape, PageFull, MustSubmit, MustAllocate, HasRoom;
  }

  lemma WriterLists(c: Conf, s: State, step: Step)
    requires Inv(c, s) && Enabled(c, s, step) && AssertsHold(c, s, step)
    requires step.PickPageStep? || step.ReplacePageStep?
    ensures TakenBy(c, s, step).None? ==>
              var s' := Apply(c, s, step); s'.freelist == s.freelist && s'.buckets == s.buckets
    ensures TakenBy(c, s, step).Some? ==>
              var b, s' := TakenBy(c, s, step).value, Apply(c, s, step);
              && b < c.bucketCount && s.freelist != [] && s.pageFree > 0
              && ChainsOf(s') == ChainsOf(AllocatePage(c, s, b).0)
  {
    hide PagesOk, MaintOk, Buffers, Lists, Data, Shape, ChainsOf;
    Sizes(c, s);
    FreeCount(c, s);
    if TakenBy(c, s, step).Some? {
      var s1, s' := AllocatePage(c, s, TakenBy(c, s, step).value).0, Apply(c, s, step);
      assert s'.freelist == s1.freelist && s'.buckets == s1.buckets;
      ChainsOnly(s', s1);
    }
  }

  lemma ChainsOnly(s: State, s': State)
    requires s.freelist == s'.freelist && s.buckets == s'.buckets
    ensures ChainsOf(s) == ChainsOf(s')
  {
  }

  lemma MaintenanceLists(c: Conf, s: State, step: Step)
    requires Inv(c, s) && Enabled(c, s, step) && AssertsHold(c, s, step)
    requires step.ScanPageStep? || step.EvictStep?
    ensures FreedBy(c, s, step).None? ==>
              var s' := Apply(c, s, step); s'.freelist == s.freelist && s'.buckets == s.buckets
    ensures FreedBy(c, s, step).Some? ==>
              var p, s' := FreedBy(c, s, step).value, Apply(c, s, step);
              && p < c.pageCount && !s.pages[p].free && s.pages[p].bucket < c.bucketCount
              && ChainsOf(s') == ChainsOf(FreePage(c, s, p))
  {
    hide PagesOk, Buffers, Lists, Data, Shape, ChainsOf, Without;
    Sizes(c, s);
    if step.ScanPageStep? {
      ScanLists(c, s);
    } else {
      EvictLists(c, s);
    }
    if FreedBy(c, s, step).Some? {
      ChainsOnly(Apply(c, s, step), FreePage(c, s, FreedBy(c, s, step).value));
    }
  }

  lemma ScanLists(c: Conf, s: State)
    requires Shape(c, s) && s.maint.Scanning? && s.maint.next < c.pageCount
    requires s.pages[s.maint.next].bucket < c.bucketCount
    ensures var p, s' := s.maint.next, ScanPage(c, s);
            if FreedBy(c, s, ScanPageStep).Some? then
              && FreedBy(c, s, ScanPageStep) == Some(p) && !s.pages[p].free
              && s'.freelist == FreePage(c, s, p).freelist && s'.buckets == FreePage(c, s, p).buckets
            else s'.freelist == s.freelist && s'.buckets == s.buckets
  {
    Sizes(c, s);
    hide Shape, Without;
  }

  lemma EvictLists(c: Conf, s: State)
    requires Shape(c, s) && MaintOk(c, s) && s.maint.Scanning? && s.maint.next == c.pageCount
    requires s.maint.low.Some? ==> s.pages[s.maint.low.value].bucket < c.bucketCount
    ensures var s' := Evict(c, s);
            if FreedBy(c, s, EvictStep).Some? then
              var p := FreedBy(c, s, EvictStep).value;
              && p < c.pageCount && !s.pages[p].free && s.pages[p].bucket < c.bucketCount
              && s'.freelist == FreePage(c, s, p).freelist && s'.buckets == FreePage(c, s, p).buckets
            else s'.freelist == s.freelist && s'.buckets == s.buckets
  {
    Sizes(c, s);
    hide Shape, Without;
  }

  /** Every step's pointer updates leave every list threaded. */
  lemma StepThreads(c: Conf, s: State, h: Links, step: Step, h': Links)
    requires Inv(c, s) && Enabled(c, s, step) && AssertsHold(c, s, step) && Threads(h, s)
    requires StepLinks(c, s, h, step, h')
    ensures Threads(h', Apply(c, s, step))
  {
    hide Threads, PagesOk, MaintOk, Buffers, Data, BucketsOk, Taken, Freed, Apply, AssertsHold, Enabled, TakenBy,
         FreedBy;
    ListsStay(c, s, step);
    var s' := Apply(c, s, step);
    match (TakenBy(c, s, step), FreedBy(c, s, step))
    case (Some(b), _) =>
      TakenThreads(c, s, h, b);
      ThreadsOnly(h', AllocatePage(c, s, b).0, s');
    case (None, Some(p)) =>
      var b := s.pages[p].bucket;
      var i :| 0 <= i < |s.buckets[b]| && s.buckets[b][i] == p && h' == Freed(h, b, p, Before(s.buckets[b], i));
      FreedThreads(c, s, h, p, i);
      ThreadsOnly(h', FreePage(c, s, p), s');
    case (None, None) =>
      ChainsOnly(s, s');
      ThreadsOnly(h, s, s');
  }

  lemma ThreadsOnly(h: Links, s: State, s': State)
    requires Threads(h, s) && ChainsOf(s) == ChainsOf(s')
    ensures Threads(h, s')
  {
  }

  ghost predicate RunLinks(c: Conf, s: State, h: Links, steps: seq<Step>, s': State, h': Links)
    decreases |steps|
  {
    if steps == [] then s == s' && h == h'
    else
      && Shape(c, s) && Enabled(c, s, steps[0]) && AssertsHold(c, s, steps[0])
      && exists h1 :: StepLinks(c, s, h, steps[0], h1) && RunLinks(c, Apply(c, s, steps[0]), h1, steps[1..], s', h')
  }

  /** In every run, whatever the interleaving, the one pointer per page threads the freelist and every bucket. */
  lemma {:induction false} ReachableThreads(c: Conf, s: State, h: Links, steps: seq<Step>, s': State, h': Links)
    requires Inv(c, s) && Threads(h, s) && RunLinks(c, s, h, steps, s', h')
    ensures Inv(c, s') && Threads(h', s')
    decreases |steps|
  {
    hide Inv, Threads, Apply, AssertsHold, StepLinks;
    if steps != [] {
      var h1 :| StepLinks(c, s, h, steps[0], h1) && RunLinks(c, Apply(c, s, steps[0]), h1, steps[1..], s', h');
      StepThreads(c, s, h, steps[0], h1);
      StepKeeps(c, s, steps[0]);
      ReachableThreads(c, Apply(c, s, steps[0]), h1, steps[1..], s', h');
    }
  }

  // ----- the code -----

  /** The loop of `extstore_init`: from the last page down to page 1, each becomes the head of the freelist. */
  method LinkPages(count: nat) returns (next: map<nat, Option<nat>>, head: Option<nat>, free: nat)
    ensures Chains.Leads(next, head, FreelistFrom(1, count)) && free == |FreelistFrom(1, count)|
  {
    next, head, free := map[], None, 0;
    Chains.LeadsNone(next);
    if count > 0 {
      for i := count downto 1
        invariant free == count - i && Chains.Leads(next, head, FreelistFrom(i, count))
      {
        Chains.LeadsPush(next, head, FreelistFrom(i + 1, count), i);
        next, head, free := next[i := head], Some(i), free + 1;
      }
    }
  }

  function EmptyHeads(buckets: nat): (r: map<PageList, Option<nat>>)
    ensures forall l :: l in r <==> IsPageList(l, buckets)
    ensures forall l :: l in r ==> r[l] == None
  {
    var heads := map b: nat | b < buckets :: Bucket(b) := None;
    assert forall l :: l in heads <==> l.Bucket? && l.b < buckets;
    heads[Freelist := None]
  }

  lemma BucketLeads(h: Links, s: State, b: nat)
    requires Threads(h, s) && b < |s.buckets|
    ensures Bucket(b) in h.heads && Chains.Leads(h.next, h.heads[Bucket(b)], s.buckets[b])
  {
    Chains.ListsAt(h.next, h.heads, ChainsOf(s), Bucket(b));
  }

  lemma OnlyThere(list: seq<nat>, i: nat)
    requires Distinct(list) && i < |list|
    ensures forall k :: 0 <= k < |list| && list[k] == list[i] ==> k == i
  {
  }

  /** The list-keeping part of the engine; `machine` is the state it stands for, with all that is not listed here. */
  class Engine {
    const conf: Conf
    var pages: seq<Page>
    var next: map<nat, Option<nat>>
    var heads: map<PageList, Option<nat>>
    var pageFree: nat
    var version: nat
    var writers: seq<Writer>
    var maint: Maintenance
    ghost var machine: State

    function Pointers(): Links
      reads this
    {
      Links(next, heads)
    }

    ghost predicate Agrees()
      reads this
    {
      && machine.pages == pages && machine.pageFree == pageFree && machine.version == version
      && machine.writers == writers && machine.maint == maint
      && Threads(Pointers(), machine)
    }

    ghost predicate Valid()
      reads this
    {
      Inv(conf, machine) && Agrees()
    }

    /** The page lists as `extstore_init` leaves them. */
    constructor (conf: Conf, ghost start: State)
      requires conf.Valid() && Initial(conf, start)
      ensures Valid() && machine == start && this.conf == conf
    {
      hide Inv, Threads, Chains.Leads;
      var n, head, free := LinkPages(conf.pageCount);
      this.conf := conf;
      pages := seq(conf.pageCount, _ => FREE_PAGE);
      next, pageFree, version, maint := n, free, 1, Waiting;
      heads := EmptyHeads(conf.bucketCount)[Freelist := head];
      writers := seq(conf.bucketCount, _ => Idle);
      machine := start;
      new;
      InitialInv(conf, start);
      InitialThreads(conf, start, Pointers());
    }

    /** `_allocate_page`: the bucket gets the first free page, by one pointer update in each list, if there is one. */
    method AllocatePage(b: nat) returns (p: Option<nat>)
      requires Agrees() && Shape(conf, machine) && ListsOk(conf, machine) && b < conf.bucketCount
      modifies this
      ensures Agrees() && (old(machine).pageFree > 0 ==> old(machine).freelist != [])
      ensures (machine, p) == Extstore.AllocatePage(conf, old(machine), b)
      ensures p.Some? ==> Bucket(b) in heads && heads[Bucket(b)] == p
      ensures writers == old(writers) && maint == old(maint)
    {
      hide Threads, Shape, ListsOk, Extstore.AllocatePage;
      p := None;
      AllocateEffect(conf, machine, Pointers(), b);
      if pageFree > 0 {
        ghost var h := Pointers();
        var tmp := heads[Freelist].value;
        heads := heads[Freelist := next[tmp]];
        next := next[tmp := heads[Bucket(b)]];
        heads := heads[Bucket(b) := Some(tmp)];
        assert Pointers() == Taken(h, b);
        pages := pages[tmp := pages[tmp].(active := true, free := false, closed := false,
                                          version := version, bucket := b)];
        version := version + 1;
        pageFree := pageFree - 1;
        p := Some(tmp);
        machine := Extstore.AllocatePage(conf, machine, b).0;
      }
    }

    /** The engine-locked start of a write: the bucket's page, or a new one. */
    method PickPage(b: nat)
      requires Valid() && b < conf.bucketCount && writers[b].Idle?
      modifies this
      ensures Valid() && machine == old(Extstore.PickPage(conf, machine, b))
    {
      hide Inv, Threads, Shape, ListsOk, Extstore.AllocatePage;
      InvParts(conf, machine);
      PickPageKeeps(conf, machine, b);
      HeadOf(conf, machine, Pointers(), b);
      var p := heads[Bucket(b)];
      if p.None? {
        p := AllocatePage(b);
      }
      if p.Some? {
        writers := writers[b := Picked(p.value)];
        ghost var s := machine;
        machine := machine.(writers := writers);
        ChainsOnly(s, machine);
        ThreadsOnly(Pointers(), s, machine);
      }
    }

    /** The engine-locked end of a write attempt on a full page: a new page for the next one. */
    method ReplacePage(b: nat)
      requires Valid() && b < conf.bucketCount && writers[b].NeedsPage?
      modifies this
      ensures Valid() && machine == old(Extstore.ReplacePage(conf, machine, b))
    {
      hide Inv, Threads, Shape, ListsOk, Extstore.AllocatePage;
      InvParts(conf, machine);
      ReplacePageKeeps(conf, machine, b);
      var _ := AllocatePage(b);
      writers := writers[b := Idle];
      ghost var s := machine;
      machine := machine.(writers := writers);
      ChainsOnly(s, machine);
      ThreadsOnly(Pointers(), s, machine);
    }

    /** The walk of `_free_page` from the bucket's head: the page's predecessor in its list. */
    method FindBefore(b: nat, p: nat, ghost i: nat) returns (prev: Option<nat>)
      requires Threads(Pointers(), machine) && b < |machine.buckets|
      requires i < |machine.buckets[b]| && machine.buckets[b][i] == p && Distinct(machine.buckets[b])
      ensures prev == Before(machine.buckets[b], i)
    {
      ghost var list := machine.buckets[b];
      hide Threads, ChainsOf, Distinct;
      BucketLeads(Pointers(), machine, b);
      OnlyThere(list, i);
      var tmp := heads[Bucket(b)];
      prev := None;
      ghost var k := 0;
      while tmp.Some? && tmp.value != p
        invariant k <= i && tmp == Nth(list, k) && prev == Nth(list, k - 1)
        decreases |list| - k
      {
        prev := tmp;
        tmp := next[tmp.value];
        k := k + 1;
      }
    }

    /** `_free_page`: the page leaves its bucket, wherever it stands there, and heads the freelist. */
    method FreePage(p: nat)
      requires Agrees() && Shape(conf, machine) && ListsOk(conf, machine) && p < conf.pageCount && !pages[p].free
      modifies this
      ensures Agrees() && old(machine.pages[p].bucket) < conf.bucketCount
      ensures machine == Extstore.FreePage(conf, old(machine), p)
      ensures Freelist in heads && heads[Freelist] == Some(p)
      ensures writers == old(writers) && maint == old(maint)
    {
      hide Threads, Shape, ListsOk, Extstore.FreePage, Without;
      ghost var i := FreeEffect(conf, machine, Pointers(), p);
      var b := pages[p].bucket;
      ghost var h := Pointers();
      var prev := FindBefore(b, p, i);
      if prev.Some? {
        next := next[prev.value := next[p]];
      } else {
        heads := heads[Bucket(b) := next[p]];
      }
      next := next[p := None];
      pages := pages[p := pages[p].(version := 0, objCount := 0, bytesUsed := 0, claimed := 0, written := 0,
                                    bucket := 0, active := false, closed := false, free := true)];
      next := next[p := heads[Freelist]];
      heads := heads[Freelist := Some(p)];
      assert Pointers() == Freed(h, b, p, prev);
      pageFree := pageFree + 1;
      machine := Extstore.FreePage(conf, machine, p);
    }

    /** One page of the maintenance loop. */
    method ScanPage()
      requires Valid() && maint.Scanning? && maint.next < conf.pageCount
      modifies this
      ensures old(pages[maint.next].bucket) < conf.bucketCount
      ensures Valid() && machine == old(Extstore.ScanPage(conf, machine))
    {
      hide Inv, Threads, Shape, ListsOk, Extstore.FreePage;
      InvParts(conf, machine);
      ScanPageKeeps(conf, machine);
      var p := maint.next;
      var page := pages[p];
      if page.active || page.free {
        SetMaint(maint.(next := p + 1));
        return;
      }
      if page.objCount > 0 && !page.closed {
        if maint.low.None? || page.version < maint.lowVersion {
          SetMaint(maint.(low := Some(p), lowVersion := page.version));
        }
      }
      if (page.objCount == 0 || page.closed) && page.refcount == 0 {
        FreePage(p);
        SetMaint(maint.(evict := false));
      }
      SetMaint(maint.(next := p + 1));
    }

    method SetMaint(m: Maintenance)
      requires Agrees()
      modifies this`maint, this`machine
      ensures Agrees() && maint == m && machine == old(machine).(maint := m)
    {
      hide Threads;
      ghost var s := machine;
      maint := m;
      machine := machine.(maint := m);
      ChainsOnly(s, machine);
      ThreadsOnly(Pointers(), s, machine);
    }

    /** The end of the maintenance loop: the oldest page seen is closed, and freed if no one reads it. */
    method Evict()
      requires Valid() && maint.Scanning? && maint.next == conf.pageCount
      modifies this
      ensures old(maint.low.Some? ==> maint.low.value < |pages| && pages[maint.low.value].bucket < conf.bucketCount)
      ensures Valid() && machine == old(Extstore.Evict(conf, machine))
    {
      hide Inv, Threads, Shape, ListsOk, Extstore.FreePage;
      InvParts(conf, machine);
      EvictKeeps(conf, machine);
      if maint.low.Some? {
        LowPage(conf, machine);
      }
      var m := maint;
      MaintParts(conf, machine);
      SetMaint(Waiting);
      if m.evict && m.low.Some? {
        var p := m.low.value;
        if !pages[p].closed {
          ghost var s := machine;
          pages := pages[p := pages[p].(closed := true)];
          machine := machine.(pages := pages);
          ClosedParts(conf, s, p);
          ChainsOnly(s, machine);
          ThreadsOnly(Pointers(), s, machine);
          if pages[p].refcount == 0 {
            FreePage(p);
          }
        }
      }
    }
  }

  lemma LowPage(c: Conf, s: State)
    requires Inv(c, s) && s.maint.Scanning? && s.maint.low.Some?
    ensures s.maint.low.value < c.pageCount && !s.pages[s.maint.low.value].free
  {
  }

  lemma MaintParts(c: Conf, s: State)
    requires Shape(c, s) && ListsOk(c, s)
    ensures Shape(c, s.(maint := Waiting)) && ListsOk(c, s.(maint := Waiting))
  {
    hide Distinct;
  }

  lemma ClosedParts(c: Conf, s: State, p: nat)
    requires Shape(c, s) && ListsOk(c, s) && p < c.pageCount
    ensures var s' := s.(pages := s.pages[p := s.pages[p].(closed := true)]); Shape(c, s') && ListsOk(c, s')
  {
    hide ListsOk;
    Sizes(c, s);
    ListsFrame(c, s, s.(pages := s.pages[p := s.pages[p].(closed := true)]));
  }

  lemma InitialThreads(c: Conf, s: State, h: Links)
    requires Initial(c, s) && (forall l :: l in h.heads <==> IsPageList(l, c.bucketCount))
    requires Freelist in h.heads && Chains.Leads(h.next, h.heads[Freelist], s.freelist)
    requires forall l :: l in h.heads && l.Bucket? ==> h.heads[l] == None
    ensures Threads(h, s)
  {
    Chains.LeadsNone(h.next);
    var chains := ChainsOf(s);
    assert h.heads.Keys == chains.Keys by {
      assert forall l :: l in h.heads.Keys <==> l in chains.Keys;
    }
    forall l | l in chains
      ensures Chains.Leads(h.next, h.heads[l], chains[l])
    {
      assert l.Bucket? ==> l == Bucket(l.b) && chains[l] == [];
    }
  }

  lemma AllocateEffect(c: Conf, s: State, h: Links, b: nat)
    requires Shape(c, s) && ListsOk(c, s) && Threads(h, s) && b < c.bucketCount
    ensures s.pageFree > 0 ==> s.freelist != []
    ensures s.pageFree == 0 ==> AllocatePage(c, s, b) == (s, None)
    ensures s.pageFree > 0 ==>
              var p, s' := s.freelist[0], AllocatePage(c, s, b).0;
              && p < |s.pages| && Freelist in h.heads && h.heads[Freelist] == Some(p) && p in h.next
              && Bucket(b) in h.heads && Threads(Taken(h, b), s') && AllocatePage(c, s, b).1 == Some(p)
              && s'.pages == s.pages[p := s.pages[p].(active := true, free := false, closed := false,
                                                       version := s.version, bucket := b)]
              && s'.version == s.version + 1 && s'.pageFree == s.pageFree - 1
              && s'.writers == s.writers && s'.maint == s.maint
  {
    Sizes(c, s);
    assert s.pageFree == |s.freelist|;
    if s.pageFree > 0 {
      TakenThreads(c, s, h, b);
    }
  }

  lemma FreeEffect(c: Conf, s: State, h: Links, p: nat) returns (i: nat)
    requires Shape(c, s) && ListsOk(c, s) && Threads(h, s) && p < c.pageCount && !s.pages[p].free
    ensures |s.pages| == c.pageCount && s.pages[p].bucket < c.bucketCount == |s.buckets|
    ensures var b, s' := s.pages[p].bucket, FreePage(c, s, p);
            && i < |s.buckets[b]| && s.buckets[b][i] == p && Distinct(s.buckets[b])
            && Freelist in h.heads && Bucket(b) in h.heads && p in h.next
            && (i > 0 ==> s.buckets[b][i - 1] in h.next && s.buckets[b][i - 1] != p)
            && Threads(Freed(h, b, p, Before(s.buckets[b], i)), s')
            && s'.pages == s.pages[p := s.pages[p].(version := 0, objCount := 0, bytesUsed := 0, claimed := 0,
                                                     written := 0, bucket := 0, active := false, closed := false,
                                                     free := true)]
            && s'.pageFree == s.pageFree + 1 && s'.version == s.version
            && s'.writers == s.writers && s'.maint == s.maint
  {
    Sizes(c, s);
    var b := s.pages[p].bucket;
    assert p in s.buckets[b];
    i :| 0 <= i < |s.buckets[b]| && s.buckets[b][i] == p;
    FreedThreads(c, s, h, p, i);
    Chains.ListsAt(h.next, h.heads, ChainsOf(s), Bucket(b));
    if i > 0 {
      Chains.LeadsAt(h.next, h.heads[Bucket(b)], s.buckets[b], i - 1);
    }
    hide Without, Threads, ChainsOf;
  }

  lemma InvParts(c: Conf, s: State)
    requires Inv(c, s)
    ensures Shape(c, s) && ListsOk(c, s) && (s.pageFree > 0 ==> s.freelist != [])
    ensures |s.pages| == c.pageCount && |s.buckets| == |s.writers| == c.bucketCount
  {
  }

  lemma HeadOf(c: Conf, s: State, h: Links, b: nat)
    requires Shape(c, s) && Threads(h, s) && b < c.bucketCount
    ensures Bucket(b) in h.heads && h.heads[Bucket(b)] == Nth(s.buckets[b], 0)
  {
    Chains.ListsAt(h.next, h.heads, ChainsOf(s), Bucket(b));
  }
}
