/** Where items go, and what becomes of their references and marks. */
module ItemMoves {
  import opened Prelude
  import opened LruList
  import opened Items
  import opened ItemOps
  import opened ItemRuns

  // ----- finding an item -----

  /** What a get finds, and which references it leaves: one for the caller, and one for a queued bump entry. */
  ghost predicate GetOutcome(s: State, s': State, key: Key, flushed: bool, now: int, found: Option<Id>) {
    if key !in s.table then found == None && s' == s
    else
      var id := s.table[key];
      && id in s.items
      && var it := s.items[id];
         if flushed || (it.exptime != 0 && it.exptime <= now) then
           found == None && s'.refs == s.refs && s'.bumps == s.bumps && s'.table == s.table - {key}
         else
           && found == Some(id) && s'.table == s.table && id in s'.items
           && s'.items[id].refcount + s.refs[id] == it.refcount + s'.refs[id]
           && ((s'.bumps == s.bumps && s'.refs == s.refs + multiset{id})
               || (s'.bumps == s.bumps + [id] && s'.refs == s.refs + multiset{id} + multiset{id}))
  }

  /**
   * The marks a hit leaves: the first sets FETCHED, the second ACTIVE. A cold item is queued for the maintainer, and
   * not marked ACTIVE when the queue has no room.
   */
  ghost predicate HitOutcome(s: State, s': State, id: Id, update: bool, segmented: bool, room: bool) {
    && id in s.items && id in s'.items
    && var it, it' := s.items[id], s'.items[id];
       var second := update && segmented && it.fetched && !it.active;
       && it'.fetched == (it.fetched || (update && (!segmented || !it.active)))
       && it'.active == (it.active || (second && (it.home.segment != Cold || room)))
       && (s'.bumps == if second && it.home.segment == Cold && room then s.bumps + [id] else s.bumps)
  }

  /** An update leaves the marks, but for an ACTIVE cold item, which goes to warm without it. */
  lemma UpdateMarks(s: State, id: Id, now: int, segmented: bool)
    requires id in s.items
    ensures var s', it := Update(s, id, now, segmented), s.items[id];
            && id in s'.items && s'.refs == s.refs && s'.bumps == s.bumps && s'.table == s.table
            && s'.items[id].refcount == it.refcount && s'.items[id].fetched == it.fetched
            && s'.items[id].active == (it.active && !(segmented && it.linked && it.home.segment == Cold))
  {
    hide Relocate;
    var it := s.items[id];
    RelocateMoves(Mark(s, id, it.fetched, false, now), id, Warm);
    RelocateMoves(Mark(s, id, it.fetched, it.active, now), id, it.home.segment);
  }

  lemma HitMarks(s: State, id: Id, now: int, segmented: bool, room: bool)
    requires id in s.items && s.items[id].refcount > 0 && s.items[id].linked
    ensures var s' := Hit(s, id, now, segmented, room);
            && HitOutcome(s, s', id, true, segmented, room) && s'.table == s.table
            && s'.items[id].refcount + |s.bumps| == s.items[id].refcount + |s'.bumps|
            && s'.refs == if s'.bumps == s.bumps then s.refs else s.refs + multiset{id}
  {
    hide Update;
    var it := s.items[id];
    UpdateMarks(Mark(s, id, true, it.active, it.time), id, now, false);
    UpdateMarks(Mark(s, id, true, true, it.time), id, now, true);
    AddTakeAway(s.refs, id);
  }

  /** A hit comes with a reference, a dead item with none. */
  lemma GetEffect(s: State, key: Key, flushed: bool, update: bool, now: int, segmented: bool, room: bool)
    requires Inv(s)
    ensures var s' := GetItem(s, key, flushed, update, now, segmented, room);
            var hit := key in s.table && s.table[key] in s.items
                       && !(flushed || (s.items[s.table[key]].exptime != 0 && s.items[s.table[key]].exptime <= now));
            && GetOutcome(s, s', key, flushed, now, if hit then Some(s.table[key]) else None)
            && (hit ==> HitOutcome(s, s', s.table[key], update, segmented, room))
  {
    hide Inv, Hit, Expire;
    if key in s.table {
      var id := s.table[key];
      FoundLinked(s, key);
      AcquireEffect(s, id);
      if flushed || Expired(s.items[id], now) {
        ExpireEffect(s, id);
        hide OnlyItem;
      } else {
        HitKeeps(Acquire(s, id), id, now, segmented, room);
        HitMarks(Acquire(s, id), id, now, segmented, room);
      }
    }
  }

  /** Two hits on an item that had none and is not cold: FETCHED after the first, ACTIVE after the second. */
  lemma TwoHits(s: State, key: Key, now: int, room: bool)
    requires Inv(s) && key in s.table && s.table[key] in s.items
    requires var it := s.items[s.table[key]];
             !it.fetched && !it.active && it.home.segment != Cold && !(it.exptime != 0 && it.exptime <= now)
    ensures var s1 := GetItem(s, key, false, true, now, true, room);
            && Inv(s1) && s.table[key] in s1.items
            && s1.items[s.table[key]].fetched && !s1.items[s.table[key]].active
            && var s2 := GetItem(s1, key, false, true, now, true, room);
               && s.table[key] in s2.items && s2.items[s.table[key]].active
               && s2.refs[s.table[key]] == s.refs[s.table[key]] + 2
  {
    hide Inv, Hit, Expire, OnlyItem;
    GetEffect(s, key, false, true, now, true, room);
    StepKeeps(s, Get(key, false, true, now, true, room));
    var s1 := GetItem(s, key, false, true, now, true, room);
    FirstHit(s, key, now, room);
    GetEffect(s1, key, false, true, now, true, room);
  }

  lemma FirstHit(s: State, key: Key, now: int, room: bool)
    requires Inv(s) && key in s.table && s.table[key] in s.items
    requires var it := s.items[s.table[key]]; !it.fetched && !it.active && !(it.exptime != 0 && it.exptime <= now)
    ensures var s1 := GetItem(s, key, false, true, now, true, room);
            && s1.table == s.table && s.table[key] in s1.items
            && s1.items[s.table[key]].home == s.items[s.table[key]].home
            && s1.items[s.table[key]].exptime == s.items[s.table[key]].exptime
  {
    hide Inv;
    FoundLinked(s, key);
  }

  // ----- moving between segments -----

  /** Item id has gone to the head of the other segment of its class, with these marks; nothing else has moved. */
  ghost predicate WentTo(s: State, s': State, id: Id, segment: Segment, active: bool) {
    && id in s.items && id in s'.items
    && s'.items[id].home == s.items[id].home.(segment := segment) && s'.items[id].active == active
    && MovedTo(s, s', id, Some(s.items[id].home.(segment := segment)))
  }

  ghost predicate StayedIn(s: State, s': State, id: Id, active: bool) {
    && id in s.items && id in s'.items && s'.items[id].home == s.items[id].home && s'.items[id].active == active
    && s'.lists == s.lists
  }

  lemma MarkedMove(s: State, s1: State, id: Id, segment: Segment)
    requires Inv(s1) && id in s.items && id in s1.items && s1.items[id].linked
    requires s1.lists == s.lists && s1.items[id].home == s.items[id].home
    ensures WentTo(s, Relocate(s1, id, segment), id, segment, s1.items[id].active)
  {
    hide Inv, Relocate, Without;
    RelocateMoves(s1, id, segment);
    RelocateOrder(s1, id, segment);
  }

  /** An update: an ACTIVE cold item goes to warm; without segments an item not bumped for a minute goes to the head. */
  lemma UpdateMoves(s: State, id: Id, now: int, segmented: bool)
    requires Inv(s) && id in s.items && s.items[id].linked
    ensures var s', it := Update(s, id, now, segmented), s.items[id];
            if segmented && it.home.segment == Cold && it.active then
              WentTo(s, s', id, Warm, false) && s'.items[id].time == now
            else if it.time < now - 60 then
              && id in s'.items && s'.items[id].time == now
              && (if segmented then StayedIn(s, s', id, it.active)
                  else WentTo(s, s', id, it.home.segment, it.active))
            else s' == s
  {
    hide Inv, Relocate, MovedTo;
    var it := s.items[id];
    MarkKeeps(s, id, it.fetched, false, now);
    MarkKeeps(s, id, it.fetched, it.active, now);
    MarkedMove(s, Mark(s, id, it.fetched, false, now), id, Warm);
    MarkedMove(s, Mark(s, id, it.fetched, it.active, now), id, it.home.segment);
    RelocateMoves(Mark(s, id, it.fetched, false, now), id, Warm);
    RelocateMoves(Mark(s, id, it.fetched, it.active, now), id, it.home.segment);
  }

  /** A hit: without segments it is an update; with them it bumps at most the time, and queues a cold item. */
  lemma HitMoves(s: State, id: Id, now: int, segmented: bool, room: bool)
    requires Inv(s) && id in s.items && s.items[id].linked
    ensures s.items[id].refcount > 0
    ensures var s', it := Hit(s, id, now, segmented, room), s.items[id];
            var stale := it.time < now - 60;
            && id in s'.items
            && (if !segmented && stale then WentTo(s, s', id, it.home.segment, it.active)
                else s'.lists == s.lists && s'.items[id].home == it.home)
            && s'.items[id].time == (if stale && (!segmented || (it.fetched && !it.active && it.home.segment != Cold))
                                     then now else it.time)
  {
    hide Inv, Update, MovedTo;
    Referred(s, id);
    var it := s.items[id];
    var s1, s2 := Mark(s, id, true, it.active, it.time), Mark(s, id, true, true, it.time);
    MarkKeeps(s, id, true, it.active, it.time);
    MarkKeeps(s, id, true, true, it.time);
    UpdateMoves(s1, id, now, false);
    UpdateMoves(s2, id, now, true);
    if !segmented && it.time < now - 60 {
      var s' := Update(s1, id, now, false);
      ListsCarry(s, s1, s', s', id, Some(it.home));
    }
  }

  /** More than its share of the class's bytes are in the segment, or the item is older than it may get there. */
  ghost predicate Over(pull: Pull, pct: nat, bytes: int, it: Item) {
    100 * bytes > pull.totalBytes * pct || pull.now - it.time > pull.maxAge
  }

  /** The limit of the code, in whole bytes, against the share in percent. */
  lemma LimitIsShare(conf: Settings, pull: Pull, bytes: int)
    ensures var pct := if pull.list.segment == Hot && pull.totalBytes * conf.hotPct >= 100 then conf.hotPct
                       else conf.warmPct;
            bytes > Limit(conf, pull) <==> 100 * bytes > pull.totalBytes * pct
  {
    var hot, warm := pull.totalBytes * conf.hotPct, pull.totalBytes * conf.warmPct;
    QuotientShare(hot, bytes);
    QuotientShare(warm, bytes);
  }

  lemma QuotientShare(x: nat, bytes: int)
    ensures bytes > x / 100 <==> 100 * bytes > x
    ensures x / 100 != 0 <==> x >= 100
  {
  }

  /** The loop has taken its reference on item id, and perhaps its mark. */
  ghost predicate InHand(s: State, s1: State, id: Id) {
    && id in s.items && id in s1.items && s1.items[id].refcount >= 2 && s1.items[id].linked
    && s1.items[id].home == s.items[id].home && s1.lists == s.lists && s1.table == s.table
  }

  lemma Taken(s: State, id: Id)
    requires Inv(s) && id in s.items && s.items[id].linked
    ensures Inv(Acquire(s, id)) && InHand(s, Acquire(s, id), id) && Inv(Rest(s, id)) && InHand(s, Rest(s, id), id)
    ensures Acquire(s, id).items[id].active == s.items[id].active && !Rest(s, id).items[id].active
  {
    hide Inv;
    AcquireEffect(s, id);
    RestKeeps(s, id);
    Referred(s, id);
  }

  lemma Referred(s: State, id: Id)
    requires Inv(s) && id in s.items
    ensures s.items[id].refcount > 0
  {
  }

  lemma Released(s: State, id: Id)
    requires id in s.items && s.items[id].refcount >= 2
    ensures var s' := Remove(s, id);
            && id in s'.items && s'.items[id].home == s.items[id].home && s'.items[id].active == s.items[id].active
            && s'.lists == s.lists && s'.table == s.table && s'.items[id].time == s.items[id].time
  {
  }

  lemma StopMoves(pull: Pull, s: State, s1: State, id: Id, segment: Segment)
    requires Inv(s1) && InHand(s, s1, id)
    ensures WentTo(s, PullEnd(pull, s1, id, Some(segment)), id, segment, s1.items[id].active)
  {
    hide Inv, Remove, Relocate, Without;
    MarkedMove(s, s1, id, segment);
    RelocateMoves(s1, id, segment);
    Released(Relocate(s1, id, segment), id);
  }

  lemma StopStays(pull: Pull, s: State, s1: State, id: Id)
    requires InHand(s, s1, id)
    ensures StayedIn(s, PullEnd(pull, s1, id, None), id, s1.items[id].active)
  {
    hide Remove;
    Released(s1, id);
  }

  lemma RefreshStays(s: State, id: Id, now: int)
    requires Inv(s) && id in s.items && s.items[id].linked
    ensures var s' := Refresh(s, id, now);
            if s.items[id].time < now - 60 then
              WentTo(s, s', id, s.items[id].home.segment, false) && s'.items[id].time == now
            else StayedIn(s, s', id, false)
  {
    hide Inv, Remove, Relocate, MovedTo;
    Taken(s, id);
    var s1 := Rest(s, id);
    var it := s1.items[id];
    assert it.time == s.items[id].time;
    MarkKeeps(s1, id, it.fetched, it.active, now);
    MarkedMove(s, Mark(s1, id, it.fetched, it.active, now), id, it.home.segment);
    RelocateMoves(Mark(s1, id, it.fetched, it.active, now), id, it.home.segment);
    var s2 := UpdateNolock(s1, id, now);
    Released(s2, id);
    if it.time < now - 60 {
      ListsCarry(s, s, s2, Remove(s2, id), id, Some(it.home));
    }
  }

  lemma EvictMoves(pull: Pull, s: State, id: Id)
    requires Inv(s) && id in s.items && s.items[id].linked
    ensures var s1 := Evict(s, id);
            && id in s1.items && s1.items[id].refcount > 0
            && var s' := PullEnd(pull, s1, id, None); s.items[id].key !in s'.table && MovedTo(s, s', id, None)
  {
    hide Inv, Without, OnlyItem;
    EvictEffect(s, id);
    ReleaseEffect(Evict(s, id), id);
    Taken(s, id);
    DetachOrder(Acquire(s, id), id);
  }

  /** What a turn on the tail of a list does with a live item it could lock, and what follows the loop if it stops. */
  lemma TailMoves(conf: Settings, pull: Pull, s: State, id: Id)
    requires Inv(s) && id in s.items && s.items[id].linked && s.items[id].home == pull.list
    requires !pull.flushed(id) && !(s.items[id].exptime != 0 && s.items[id].exptime < pull.now)
    ensures var it, r := s.items[id], PullOne(conf, pull, s, id);
            var over := Over(pull, if pull.list.segment == Hot && pull.totalBytes * conf.hotPct >= 100 then conf.hotPct
                                   else conf.warmPct, BytesAt(s, pull.list), it);
            && (r.verdict.Next? <==> pull.list.segment == Warm && it.active)
            && r.removed == (match pull.list.segment
                             case Hot => if it.active || over then 1 else 0
                             case Warm => if it.active || over then 1 else 0
                             case Cold =>
                               if pull.evict then (if conf.evictToFree then 1 else 0)
                               else if !pull.returnItem && it.active && conf.segmented then 1 else 0
                             case Temp => 0)
            && (r.verdict.Next? ==>
                  if it.time < pull.now - 60 then WentTo(s, r.s, id, Warm, false) else StayedIn(s, r.s, id, false))
            && (r.verdict.Stop? ==>
                  && id in r.s.items && r.s.items[id].refcount > 0
                  && var s' := PullEnd(pull, r.s, id, r.verdict.move);
                     match pull.list.segment
                     case Hot =>
                       if it.active then WentTo(s, s', id, Warm, false)
                       else if over then WentTo(s, s', id, Cold, false)
                       else StayedIn(s, s', id, false)
                     case Warm => if over then WentTo(s, s', id, Cold, false) else StayedIn(s, s', id, false)
                     case Cold =>
                       if pull.evict && conf.evictToFree then it.key !in s'.table && MovedTo(s, s', id, None)
                       else if !pull.evict && !pull.returnItem && it.active && conf.segmented
                       then WentTo(s, s', id, Warm, false)
                       else StayedIn(s, s', id, it.active)
                     case Temp => StayedIn(s, s', id, it.active))
  {
    hide Inv, Remove, Relocate, PullEnd, Refresh, Rest, Evict, Acquire, Limit, WentTo, StayedIn, MovedTo;
    var it := s.items[id];
    LimitIsShare(conf, pull, BytesAt(s, pull.list));
    Taken(s, id);
    match pull.list.segment
    case Hot =>
      StopMoves(pull, s, Rest(s, id), id, Warm);
      StopMoves(pull, s, Acquire(s, id), id, Cold);
      StopStays(pull, s, Acquire(s, id), id);
    case Warm =>
      RefreshStays(s, id, pull.now);
      StopMoves(pull, s, Acquire(s, id), id, Cold);
      StopStays(pull, s, Acquire(s, id), id);
    case Cold =>
      StopMoves(pull, s, Rest(s, id), id, Warm);
      StopStays(pull, s, Acquire(s, id), id);
      EvictMoves(pull, s, id);
    case Temp => StopStays(pull, s, Acquire(s, id), id);
  }

  /** A dead item is unlinked, counted, and the loop goes on. */
  lemma TailReclaimed(conf: Settings, pull: Pull, s: State, id: Id)
    requires Inv(s) && id in s.items && s.items[id].linked
    requires pull.flushed(id) || (s.items[id].exptime != 0 && s.items[id].exptime < pull.now)
    ensures var r := PullOne(conf, pull, s, id);
            && r.verdict == Next && r.removed == 1 && s.items[id].key !in r.s.table && r.s.refs == s.refs
            && (id in r.s.items <==> s.refs[id] > 0)
  {
    hide Inv, OnlyItem;
    ExpireEffect(s, id);
    EvictEffect(s, id);
    Unheld(s, id);
  }

  lemma Unheld(s: State, id: Id)
    requires Inv(s) && id in s.items && s.items[id].linked
    ensures id in Expire(s, id).items <==> s.refs[id] > 0
  {
    EvictEffect(s, id);
    RemoveKeeps(Evict(s, id), id);
    hide IndexOk, ListsOk, SizesOk, OnlyItem;
  }

  // ----- which item is the loop's -----

  /** The k-th item from the tail of the list. */
  function FromTail(list: seq<Id>, k: nat): Option<Id> {
    Nth(list, |list| - 1 - k)
  }

  lemma {:induction false} PrevFromTail(list: seq<Id>, i: nat)
    requires Distinct(list) && i < |list|
    ensures PrevIn(list, list[i]) == Nth(list, i - 1)
  {
    if |list| >= 2 && i == 0 {
      PrevNone(list, list[0]);
    } else if i > 1 {
      assert list[1] != list[i];
      PrevFromTail(list[1..], i - 1);
    }
  }

  lemma {:induction false} PrevNone(list: seq<Id>, id: Id)
    requires list == [] || id !in list[1..]
    ensures PrevIn(list, id) == None
  {
    if |list| >= 2 {
      assert list[1] in list[1..] && forall x :: x in list[1..][1..] ==> x in list[1..];
      PrevNone(list[1..], id);
    }
  }

  /** Items that cannot be locked are passed over, one try each. */
  lemma {:induction false} PassedOver(conf: Settings, pull: Pull, s: State, k: nat, tries: nat)
    requires Inv(s) && k <= tries && Distinct(ListAt(s, pull.list))
    requires forall j: nat :: j < k && FromTail(ListAt(s, pull.list), j).Some? ==>
               !pull.lockable(FromTail(ListAt(s, pull.list), j).value)
    ensures Standing(s, pull, Tail(s, pull.list)) && Standing(s, pull, FromTail(ListAt(s, pull.list), k))
    ensures PullLoop(conf, pull, s, Tail(s, pull.list), tries)
         == PullLoop(conf, pull, s, FromTail(ListAt(s, pull.list), k), tries - k)
    decreases k
  {
    hide Inv, PullOne, PullEnd;
    var list := ListAt(s, pull.list);
    if k > 0 {
      PassedOver(conf, pull, s, k - 1, tries);
      var search := FromTail(list, k - 1);
      if search.Some? {
        PrevFromTail(list, |list| - k);
      }
    }
  }

  /** The loop looks at the first of the last five items of the list that it can lock, and at none if there is none. */
  lemma PullReaches(conf: Settings, pull: Pull, s: State, k: nat)
    requires Inv(s) && pull.list.cls != 0 && pull.list.segment != Warm && k < 5
    requires forall j: nat :: j < k && FromTail(ListAt(s, pull.list), j).Some? ==>
               !pull.lockable(FromTail(ListAt(s, pull.list), j).value)
    requires var id := FromTail(ListAt(s, pull.list), k);
             && id.Some? && id.value in s.items && pull.lockable(id.value)
             && !pull.flushed(id.value) && !(s.items[id.value].exptime != 0 && s.items[id.value].exptime < pull.now)
    ensures ItemOps.PullTail(conf, pull, s).stopped == FromTail(ListAt(s, pull.list), k)
  {
    hide Inv, PullOne, PullEnd, WentTo, StayedIn, MovedTo;
    var id := FromTail(ListAt(s, pull.list), k).value;
    ListedLinked(s, pull.list, id);
    PassedOver(conf, pull, s, k, 5);
    TailMoves(conf, pull, s, id);
  }

  lemma PullNone(conf: Settings, pull: Pull, s: State)
    requires Inv(s)
    requires forall j: nat :: j < 5 && FromTail(ListAt(s, pull.list), j).Some? ==>
               !pull.lockable(FromTail(ListAt(s, pull.list), j).value)
    ensures ItemOps.PullTail(conf, pull, s) == PullResult(s, 0, None)
  {
    hide Inv, PullOne, PullEnd;
    ListsDistinct(s, pull.list);
    PassedOver(conf, pull, s, 5, 5);
  }

  lemma ListsDistinct(s: State, l: ListId)
    requires Inv(s)
    ensures Distinct(ListAt(s, l))
  {
    hide RefsOk, IndexOk, SizesOk;
  }

  // ----- the bump queue -----

  /** A second hit on a cold item queues it, and when its turn comes the maintainer moves it to the head of warm. */
  lemma ColdRescued(s: State, key: Key, now: int, later: int)
    requires Inv(s) && key in s.table && s.table[key] in s.items && s.bumps == []
    requires var it := s.items[s.table[key]];
             it.fetched && !it.active && it.home.segment == Cold && !(it.exptime != 0 && it.exptime <= now)
    ensures var id, s1 := s.table[key], GetItem(s, key, false, true, now, true, true);
            && Inv(s1) && s1.bumps == [id] && id in s1.items && s1.items[id].active
            && var s2 := Drain(s1, later, true);
               && s2.bumps == [] && s2.refs == s.refs + multiset{id}
               && WentTo(s1, s2, id, Warm, false)
  {
    hide Inv, Hit, Expire, OnlyItem, Update, Remove, MovedTo;
    var id := s.table[key];
    GetEffect(s, key, false, true, now, true, true);
    StepKeeps(s, Get(key, false, true, now, true, true));
    var s1 := GetItem(s, key, false, true, now, true, true);
    QueuedCold(s, key, now);
    DrainMoves(s1, later);
  }

  lemma QueuedCold(s: State, key: Key, now: int)
    requires Inv(s) && key in s.table && s.table[key] in s.items
    requires var it := s.items[s.table[key]];
             it.fetched && !it.active && it.home.segment == Cold && !(it.exptime != 0 && it.exptime <= now)
    ensures var id, s1 := s.table[key], GetItem(s, key, false, true, now, true, true);
            id in s1.items && s1.items[id].linked && s1.items[id].home.segment == Cold && s1.items[id].refcount >= 3
  {
    hide Inv;
    FoundLinked(s, key);
    Referred(s, s.table[key]);
  }

  /** The maintainer's turn on a cold ACTIVE item. */
  lemma DrainMoves(s: State, now: int)
    requires Inv(s) && s.bumps != [] && s.bumps[0] in s.items
    requires var it := s.items[s.bumps[0]]; it.linked && it.active && it.home.segment == Cold && it.refcount >= 2
    ensures var s' := Drain(s, now, true);
            && s'.bumps == s.bumps[1..] && s'.refs == s.refs - multiset{s.bumps[0]}
            && WentTo(s, s', s.bumps[0], Warm, false)
  {
    hide Inv, Update, Remove, MovedTo;
    var id, s1 := s.bumps[0], s.(bumps := s.bumps[1..]);
    EntryLeaves(s);
    UpdateMoves(s1, id, now, true);
    UpdateMarks(s1, id, now, true);
    UpdateKeeps(s1, id, now, true);
    var s2 := Update(s1, id, now, true);
    Released(s2, id);
    Dropped(s2, id);
    ListsCarry(s, s1, s2, Remove(s2, id), id, Some(s.items[id].home.(segment := Warm)));
  }

  lemma Dropped(s: State, id: Id)
    requires id in s.items
    ensures Remove(s, id).bumps == s.bumps && Remove(s, id).refs == s.refs - multiset{id}
  {
  }

  lemma ListsCarry(s: State, s1: State, s2: State, s3: State, id: Id, to: Option<ListId>)
    requires s1.lists == s.lists && s3.lists == s2.lists && MovedTo(s1, s2, id, to)
    ensures MovedTo(s, s3, id, to)
  {
    hide Without;
  }
}
