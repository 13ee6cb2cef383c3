/** The operations on items, and every run of them. */
module ItemOps {
  import opened Prelude
  import opened LruList
  import opened Items

  const ITEM_UPDATE_INTERVAL := 60

  /** A reference that is not a bump buffer's. */
  predicate Held(s: State, id: Id) {
    multiset(s.bumps)[id] < s.refs[id]
  }

  // ----- operations -----

  /** `do_item_link`; its callers link only keys that are absent */
  function Link(s: State, id: Id, now: int): State
    requires id in s.items
  {
    Attach(Acquire(s, id), id, now)
  }

  /** `do_item_unlink` */
  function Unlink(s: State, id: Id): State
    requires id in s.items
  {
    if s.items[id].linked then Remove(Detach(s, id), id) else s
  }

  /** `do_item_update` */
  function Update(s: State, id: Id, now: int, segmented: bool): State
    requires id in s.items
  {
    var it := s.items[id];
    if !it.linked then s
    else if segmented then
      if it.home.segment == Cold && it.active then Relocate(Mark(s, id, it.fetched, false, now), id, Warm)
      else if it.time < now - ITEM_UPDATE_INTERVAL then Mark(s, id, it.fetched, it.active, now)
      else s
    else if it.time < now - ITEM_UPDATE_INTERVAL then
      Relocate(Mark(s, id, it.fetched, it.active, now), id, it.home.segment)
    else s
  }

  /** `do_item_update_nolock` */
  function UpdateNolock(s: State, id: Id, now: int): State
    requires id in s.items
  {
    var it := s.items[id];
    if it.linked && it.time < now - ITEM_UPDATE_INTERVAL then
      Relocate(Mark(s, id, it.fetched, it.active, now), id, it.home.segment)
    else s
  }

  /** `lru_bump_async`; `room` tells whether the buffer takes the entry */
  function BumpAsync(s: State, id: Id, room: bool): (r: State)
    requires id in s.items && s.items[id].refcount > 0
    ensures id in r.items
  {
    var s1 := Acquire(s, id);
    if room then s1.(bumps := s1.bumps + [id]) else Remove(s1, id)
  }

  /** The hit markers of `do_item_get` on a found item. */
  function Hit(s: State, id: Id, now: int, segmented: bool, room: bool): State
    requires id in s.items && s.items[id].refcount > 0
  {
    var it := s.items[id];
    if !segmented then Update(Mark(s, id, true, it.active, it.time), id, now, false)
    else if it.active then s
    else if !it.fetched then Mark(s, id, true, false, it.time)
    else
      var s1 := Mark(s, id, true, true, it.time);
      if it.home.segment != Cold then Update(s1, id, now, true)
      else if room then BumpAsync(s1, id, true)
      else Mark(BumpAsync(s1, id, false), id, true, false, it.time)
  }

  lemma UnlinkKeeps(s: State, id: Id)
    requires Inv(s) && id in s.items
    ensures s.items[id].refcount > 0 && Inv(Unlink(s, id))
    ensures !s.items[id].linked ==> Unlink(s, id) == s
    ensures s.items[id].linked ==>
              && Unlink(s, id).table == s.table - {s.items[id].key} && Unlink(s, id).refs == s.refs
              && (id in Unlink(s, id).items <==> s.refs[id] > 0)
  {
    hide IndexOk, ListsOk, SizesOk;
    if s.items[id].linked {
      DetachKeeps(s, id);
      RemoveKeeps(Detach(s, id), id);
    }
  }

  lemma LinkKeeps(s: State, id: Id, now: int)
    requires Inv(s) && id in s.items && !s.items[id].linked && s.items[id].key !in s.table
    ensures Inv(Link(s, id, now))
    ensures Link(s, id, now).table == s.table[s.items[id].key := id] && Link(s, id, now).refs == s.refs
    ensures Link(s, id, now).items
         == s.items[id := s.items[id].(linked := true, time := now, refcount := s.items[id].refcount + 1)]
  {
    hide Inv, Attach;
    AcquireEffect(s, id);
    AttachKeeps(Acquire(s, id), id, now);
    LinkStamps(s, id, now);
    AddTakeAway(s.refs, id);
  }

  lemma LinkStamps(s: State, id: Id, now: int)
    requires id in s.items
    ensures var s' := Link(s, id, now);
            && s'.items
            == s.items[id := s.items[id].(linked := true, time := now, refcount := s.items[id].refcount + 1)]
            && s'.table == s.table[s.items[id].key := id] && s'.refs == s.refs + multiset{id} - multiset{id}
  {
  }

  lemma UpdateKeeps(s: State, id: Id, now: int, segmented: bool)
    requires Inv(s) && id in s.items
    ensures Inv(Update(s, id, now, segmented)) && OnlyMoved(s, Update(s, id, now, segmented), id)
  {
    hide Inv, Relocate, Mark;
    var it := s.items[id];
    var segment := it.home.segment;
    if it.linked {
      MarkMoveKeeps(s, id, it.active, now, segment);
      MarkMoveKeeps(s, id, false, now, Warm);
    }
  }

  lemma MarkMoveKeeps(s: State, id: Id, active: bool, now: int, segment: Segment)
    requires Inv(s) && id in s.items && s.items[id].linked
    ensures var s1 := Mark(s, id, s.items[id].fetched, active, now);
            && Inv(s1) && OnlyMoved(s, s1, id)
            && Inv(Relocate(s1, id, segment)) && OnlyMoved(s, Relocate(s1, id, segment), id)
  {
    hide Inv, Relocate;
    MarkKeeps(s, id, s.items[id].fetched, active, now);
    RelocateKeeps(Mark(s, id, s.items[id].fetched, active, now), id, segment);
  }

  lemma UpdateNolockKeeps(s: State, id: Id, now: int)
    requires Inv(s) && id in s.items
    ensures Inv(UpdateNolock(s, id, now)) && OnlyMoved(s, UpdateNolock(s, id, now), id)
  {
    hide Inv, Relocate, Mark;
    if s.items[id].linked {
      MarkMoveKeeps(s, id, s.items[id].active, now, s.items[id].home.segment);
    }
  }

  lemma BumpKeeps(s: State, id: Id, room: bool)
    requires Inv(s) && id in s.items
    ensures s.items[id].refcount > 0 && Inv(BumpAsync(s, id, room))
    ensures BumpAsync(s, id, room).table == s.table
    ensures BumpAsync(s, id, room).refs == if room then s.refs + multiset{id} else s.refs
    ensures BumpAsync(s, id, room).bumps == if room then s.bumps + [id] else s.bumps
  {
    hide IndexOk, ListsOk, SizesOk;
    AcquireKeeps(s, id);
    var s1 := Acquire(s, id);
    if room {
      EntryKeeps(s1, id);
    } else {
      RemoveKeeps(s1, id);
    }
  }

  /** A reference of the caller's becomes the buffer's. */
  lemma EntryKeeps(s: State, id: Id)
    requires Inv(s) && Held(s, id)
    ensures Inv(s.(bumps := s.bumps + [id]))
  {
    hide IndexOk, ListsOk, SizesOk;
    var s' := s.(bumps := s.bumps + [id]);
    assert RefsOk(s');
    hide RefsOk;
    SameKeeps(s, s');
  }

  lemma HitKeeps(s: State, id: Id, now: int, segmented: bool, room: bool)
    requires Inv(s) && id in s.items
    ensures s.items[id].refcount > 0 && Inv(Hit(s, id, now, segmented, room))
    ensures var s' := Hit(s, id, now, segmented, room);
            && s'.table == s.table
            && ((s'.refs == s.refs && s'.bumps == s.bumps)
                || (s'.refs == s.refs + multiset{id} && s'.bumps == s.bumps + [id]))
  {
    hide Inv, Update, BumpAsync;
    var it := s.items[id];
    MarkKeeps(s, id, true, it.active, it.time);
    UpdateKeeps(Mark(s, id, true, it.active, it.time), id, now, false);
    MarkKeeps(s, id, true, false, it.time);
    MarkKeeps(s, id, true, true, it.time);
    var s1 := Mark(s, id, true, true, it.time);
    UpdateKeeps(s1, id, now, true);
    BumpKeeps(s1, id, true);
    BumpKeeps(s1, id, false);
    MarkKeeps(BumpAsync(s1, id, false), id, true, false, it.time);
  }

  // ----- pulling the tail of a list -----

  datatype Settings = Settings(segmented: bool, evictToFree: bool, hotPct: nat, warmPct: nat)

  /** `lockable` and `flushed` say which items the caller could lock and which a flush_all has hit. */
  datatype Pull = Pull(
    list: ListId, totalBytes: nat, evict: bool, returnItem: bool, maxAge: int, now: int,
    lockable: Id -> bool, flushed: Id -> bool)
  {
    predicate Dead(id: Id, it: Item) {
      (it.exptime != 0 && it.exptime < now) || flushed(id)
    }
  }

  function Limit(conf: Settings, pull: Pull): nat {
    var hot := pull.totalBytes * conf.hotPct / 100;
    if pull.list.segment == Hot && hot != 0 then hot else pull.totalBytes * conf.warmPct / 100
  }

  /** Go on to the next item, or stop at this one, which may have to move to another segment. */
  datatype Verdict = Next | Stop(move: Option<Segment>)

  datatype Pulled = Pulled(s: State, removed: nat, verdict: Verdict)

  function Evict(s: State, id: Id): State
    requires Inv(s) && id in s.items
  {
    AcquireKeeps(s, id);
    UnlinkKeeps(Acquire(s, id), id);
    Unlink(Acquire(s, id), id)
  }

  /** An expired or flushed item: the link's reference goes, then the loop's. */
  function Expire(s: State, id: Id): State
    requires Inv(s) && id in s.items && s.items[id].linked
  {
    EvictEffect(s, id);
    ReleaseEffect(Evict(s, id), id);
    Remove(Evict(s, id), id)
  }

  /** An item that is ACTIVE loses the mark and is kept. */
  function Rest(s: State, id: Id): State
    requires Inv(s) && id in s.items
  {
    Mark(Acquire(s, id), id, s.items[id].fetched, false, s.items[id].time)
  }

  /** An ACTIVE item of a warm list is bumped within it. */
  function Refresh(s: State, id: Id, now: int): State
    requires Inv(s) && id in s.items
  {
    RestKeeps(s, id);
    UpdateNolockKeeps(Rest(s, id), id, now);
    RemoveKeeps(UpdateNolock(Rest(s, id), id, now), id);
    Remove(UpdateNolock(Rest(s, id), id, now), id)
  }

  /** One turn of the loop of `lru_pull_tail`, on an item whose lock was taken. */
  function PullOne(conf: Settings, pull: Pull, s: State, id: Id): Pulled
    requires Inv(s) && id in s.items && s.items[id].linked
  {
    var it := s.items[id];
    if pull.Dead(id, it) then Pulled(Expire(s, id), 1, Next)
    else
      var over := BytesAt(s, pull.list) > Limit(conf, pull) || pull.now - it.time > pull.maxAge;
      match pull.list.segment
      case Hot =>
        if it.active then Pulled(Rest(s, id), 1, Stop(Some(Warm)))
        else if over then Pulled(Acquire(s, id), 1, Stop(Some(Cold)))
        else Pulled(Acquire(s, id), 0, Stop(None))
      case Warm =>
        if it.active then Pulled(Refresh(s, id, pull.now), 1, Next)
        else if over then Pulled(Acquire(s, id), 1, Stop(Some(Cold)))
        else Pulled(Acquire(s, id), 0, Stop(None))
      case Cold =>
        if pull.evict then
          if conf.evictToFree then Pulled(Evict(s, id), 1, Stop(None))
          else Pulled(Acquire(s, id), 0, Stop(None))
        else if pull.returnItem then Pulled(Acquire(s, id), 0, Stop(None))
        else if it.active && conf.segmented then Pulled(Rest(s, id), 1, Stop(Some(Warm)))
        else Pulled(Acquire(s, id), 0, Stop(None))
      case Temp => Pulled(Acquire(s, id), 0, Stop(None))
  }

  /** What follows the loop: the move to another segment, and the release unless the item is returned. */
  function PullEnd(pull: Pull, s: State, id: Id, move: Option<Segment>): State
    requires id in s.items && s.items[id].refcount > 0
  {
    var s1 := if move.Some? then Relocate(s, id, move.value) else s;
    if pull.returnItem then s1 else Remove(s1, id)
  }

  // ----- what a turn changes -----

  /** Nothing but item id differs, and it has kept its key, size and expiry if it is still allocated. */
  ghost predicate OnlyItem(s: State, s': State, id: Id) {
    && s'.bumps == s.bumps
    && (forall x :: x != id ==> (x in s'.items <==> x in s.items))
    && (forall x :: x != id && x in s.items && x in s'.items ==> s'.items[x] == s.items[x])
    && (id in s'.items ==>
          && id in s.items && s'.items[id].key == s.items[id].key && s'.items[id].total == s.items[id].total
          && s'.items[id].exptime == s.items[id].exptime && s'.items[id].home.cls == s.items[id].home.cls)
  }

  lemma BumpsWithin(s: State, id: Id)
    requires Inv(s)
    ensures multiset(s.bumps)[id] <= s.refs[id]
  {
  }

  lemma AcquireEffect(s: State, id: Id)
    requires Inv(s) && id in s.items
    ensures var s' := Acquire(s, id);
            && Inv(s') && s'.table == s.table && s'.refs == s.refs + multiset{id} && Held(s', id)
            && OnlyItem(s, s', id) && id in s'.items && s'.items[id].linked == s.items[id].linked
  {
    hide Inv;
    AcquireKeeps(s, id);
    BumpsWithin(s, id);
  }

  lemma RestKeeps(s: State, id: Id)
    requires Inv(s) && id in s.items
    ensures var s' := Rest(s, id);
            && Inv(s') && s'.table == s.table && s'.refs == s.refs + multiset{id} && Held(s', id)
            && OnlyItem(s, s', id) && id in s'.items && s'.items[id].linked == s.items[id].linked
  {
    hide Inv;
    AcquireKeeps(s, id);
    BumpsWithin(s, id);
    MarkKeeps(Acquire(s, id), id, s.items[id].fetched, false, s.items[id].time);
  }

  lemma ReleaseEffect(s: State, id: Id)
    requires Inv(s) && id in s.items && Held(s, id)
    ensures s.items[id].refcount > 0
    ensures var s' := Remove(s, id);
            Inv(s') && s'.table == s.table && s'.refs == s.refs - multiset{id} && OnlyItem(s, s', id)
  {
    hide Inv;
    RemoveKeeps(s, id);
  }

  lemma EvictEffect(s: State, id: Id)
    requires Inv(s) && id in s.items && s.items[id].linked
    ensures var s' := Evict(s, id);
            && Inv(s') && s'.table == s.table - {s.items[id].key} && s'.refs == s.refs + multiset{id}
            && Held(s', id) && OnlyItem(s, s', id) && id in s'.items
  {
    hide Inv;
    AcquireEffect(s, id);
    UnlinkKeeps(Acquire(s, id), id);
    BumpsWithin(s, id);
  }

  lemma ExpireEffect(s: State, id: Id)
    requires Inv(s) && id in s.items && s.items[id].linked
    ensures var s' := Expire(s, id);
            && Inv(s') && s'.table == s.table - {s.items[id].key} && s'.refs == s.refs && OnlyItem(s, s', id)
  {
    hide Inv, Evict, Remove, OnlyItem;
    EvictEffect(s, id);
    ReleaseEffect(Evict(s, id), id);
    AddTakeAway(s.refs, id);
    OnlyItemBoth(s, Evict(s, id), Expire(s, id), id);
  }

  lemma OnlyItemBoth(s: State, s1: State, s2: State, id: Id)
    requires OnlyItem(s, s1, id) && OnlyItem(s1, s2, id)
    ensures OnlyItem(s, s2, id)
  {
  }

  lemma AddTakeAway(refs: multiset<Id>, id: Id)
    ensures refs + multiset{id} - multiset{id} == refs
  {
  }

  lemma RefreshEffect(s: State, id: Id, now: int)
    requires Inv(s) && id in s.items && s.items[id].linked
    ensures var s' := Refresh(s, id, now);
            Inv(s') && s'.table == s.table && s'.refs == s.refs && OnlyItem(s, s', id)
  {
    hide Inv, Rest, UpdateNolock, Remove;
    RestKeeps(s, id);
    var s1 := Rest(s, id);
    var s2 := UpdateNolock(s1, id, now);
    UpdateNolockKeeps(s1, id, now);
    ReleaseEffect(s2, id);
    AddTakeAway(s.refs, id);
    assert OnlyItem(s1, s2, id);
    hide OnlyItem, OnlyMoved;
    OnlyItemBoth(s, s1, s2, id);
    OnlyItemBoth(s, s2, Remove(s2, id), id);
  }

  lemma PullEndEffect(pull: Pull, s: State, id: Id, move: Option<Segment>)
    requires Inv(s) && id in s.items && Held(s, id) && (move.Some? ==> s.items[id].linked)
    ensures s.items[id].refcount > 0
    ensures var s' := PullEnd(pull, s, id, move);
            && Inv(s') && s'.table == s.table && OnlyItem(s, s', id)
            && s'.refs == if pull.returnItem then s.refs else s.refs - multiset{id}
  {
    hide Inv, Remove, Relocate;
    ReleaseEffect(s, id);
    if move.Some? {
      RelocateKeeps(s, id, move.value);
      ReleaseEffect(Relocate(s, id, move.value), id);
    }
  }

  /** A turn holds the loop's reference exactly when it stops; it unlinks the item only if dead, or evicted. */
  lemma PullOneEffect(conf: Settings, pull: Pull, s: State, id: Id)
    requires Inv(s) && id in s.items && s.items[id].linked
    ensures var r := PullOne(conf, pull, s, id);
            && Inv(r.s) && OnlyItem(s, r.s, id)
            && r.s.refs == (if r.verdict.Next? then s.refs else s.refs + multiset{id})
            && (r.verdict.Stop? ==> id in r.s.items && Held(r.s, id))
            && (r.verdict.Stop? && r.verdict.move.Some? ==> r.s.items[id].linked)
            && r.s.table == (if pull.Dead(id, s.items[id]) || Evicts(conf, pull) then s.table - {s.items[id].key}
                             else s.table)
            && (r.verdict.Next? ==> pull.Dead(id, s.items[id]) || !Evicts(conf, pull))
            && r.removed <= 1
  {
    hide Inv, Expire, Evict, Rest, Refresh, Acquire, Limit, OnlyItem, BytesAt, Held, Pull.Dead;
    AcquireEffect(s, id);
    EvictEffect(s, id);
    ExpireEffect(s, id);
    RestKeeps(s, id);
    RefreshEffect(s, id, pull.now);
  }

  predicate Evicts(conf: Settings, pull: Pull) {
    pull.list.segment == Cold && pull.evict && conf.evictToFree
  }

  // ----- the whole loop -----

  /** search->prev: the item before id in its list. */
  function PrevIn(list: seq<Id>, id: Id): (r: Option<Id>)
    ensures r.Some? ==> r.value in list
  {
    if |list| < 2 then None
    else if list[1] == id then Some(list[0])
    else PrevIn(list[1..], id)
  }

  lemma {:induction false} PrevDiffers(list: seq<Id>, id: Id)
    requires Distinct(list)
    ensures PrevIn(list, id) != Some(id)
  {
    if |list| >= 2 && list[1] != id {
      PrevDiffers(list[1..], id);
    }
  }

  datatype PullResult = PullResult(s: State, removed: nat, stopped: Option<Id>)

  /** `search` is where the loop stands, with some tries left. */
  predicate Standing(s: State, pull: Pull, search: Option<Id>) {
    search.Some? ==> search.value in ListAt(s, pull.list)
  }

  function PullLoop(conf: Settings, pull: Pull, s: State, search: Option<Id>, tries: nat): PullResult
    requires Inv(s) && Standing(s, pull, search)
    decreases tries
  {
    if tries == 0 || search.None? then PullResult(s, 0, None)
    else
      var id := search.value;
      var next := PrevIn(ListAt(s, pull.list), id);
      if !pull.lockable(id) then PullLoop(conf, pull, s, next, tries - 1)
      else
        TurnKeeps(conf, pull, s, id);
        var r := PullOne(conf, pull, s, id);
        match r.verdict
        case Next =>
          var rest := PullLoop(conf, pull, r.s, next, tries - 1);
          rest.(removed := r.removed + rest.removed)
        case Stop(move) =>
          PullEndEffect(pull, r.s, id, move);
          PullResult(PullEnd(pull, r.s, id, move), r.removed, search)
  }

  lemma ListedLinked(s: State, l: ListId, id: Id)
    requires Inv(s) && id in ListAt(s, l)
    ensures id in s.items && s.items[id].linked && s.items[id].home == l && Distinct(ListAt(s, l))
    ensures s.items[id].key in s.table && s.table[s.items[id].key] == id
  {
    ListedIn(s, l, id);
    hide ListsOk, SizesOk, RefsOk;
  }

  lemma ListedIn(s: State, l: ListId, id: Id)
    requires ListsOk(s) && id in ListAt(s, l)
    ensures id in s.items && s.items[id].linked && s.items[id].home == l && Distinct(ListAt(s, l))
  {
  }

  lemma LinkedListed(s: State, id: Id)
    requires Inv(s) && id in s.items && s.items[id].linked
    ensures id in ListAt(s, s.items[id].home)
  {
    hide IndexOk, SizesOk, RefsOk;
  }

  lemma StaysListed(s: State, s': State, l: ListId, id: Id, x: Id)
    requires Inv(s) && Inv(s') && OnlyItem(s, s', id) && x != id && x in ListAt(s, l)
    ensures x in ListAt(s', l)
  {
    hide Inv;
    ListedLinked(s, l, x);
    LinkedListed(s', x);
  }

  /** After a turn that goes on, the item before is still where it was. */
  lemma TurnKeeps(conf: Settings, pull: Pull, s: State, id: Id)
    requires Inv(s) && id in ListAt(s, pull.list)
    ensures id in s.items && s.items[id].linked
    ensures var r := PullOne(conf, pull, s, id);
            && Inv(r.s) && Standing(r.s, pull, PrevIn(ListAt(s, pull.list), id))
            && (r.verdict.Stop? ==> id in r.s.items && Held(r.s, id) && r.s.items[id].refcount > 0)
            && (r.verdict.Stop? && r.verdict.move.Some? ==> r.s.items[id].linked)
  {
    hide Inv, PullOne, OnlyItem;
    ListedLinked(s, pull.list, id);
    PullOneEffect(conf, pull, s, id);
    var r, next := PullOne(conf, pull, s, id), PrevIn(ListAt(s, pull.list), id);
    PrevDiffers(ListAt(s, pull.list), id);
    if next.Some? {
      StaysListed(s, r.s, pull.list, id, next.value);
    }
    if r.verdict.Stop? {
      ReleaseEffect(r.s, id);
    }
  }

  /** What pulling a list may have done to the cache. */
  ghost predicate OnlyPulled(conf: Settings, pull: Pull, s: State, s': State) {
    && s'.bumps == s.bumps
    && (forall k :: k in s'.table ==> k in s.table && s'.table[k] == s.table[k])
    && (forall k :: k in s.table && k !in s'.table ==>
          s.table[k] in s.items && (pull.Dead(s.table[k], s.items[s.table[k]]) || Evicts(conf, pull)))
    && (forall x :: x in s.items && x !in ListAt(s, pull.list) ==> x in s'.items && s'.items[x] == s.items[x])
    && (forall x :: x in s'.items ==> x in s.items && s'.items[x].exptime == s.items[x].exptime)
    && (forall x :: x in ListAt(s', pull.list) ==> x in ListAt(s, pull.list))
  }

  /** A live item that left the index is the one the loop stopped at, and was to be evicted: so there is at most one. */
  ghost predicate OneEvicted(conf: Settings, pull: Pull, s: State, s': State, stopped: Option<Id>) {
    forall k :: k in s.table && k !in s'.table && s.table[k] in s.items
                && !pull.Dead(s.table[k], s.items[s.table[k]]) ==>
      Evicts(conf, pull) && stopped == Some(s.table[k])
  }

  lemma NoneEvicted(conf: Settings, pull: Pull, s: State)
    ensures OneEvicted(conf, pull, s, s, None)
  {
  }

  lemma OneItemEvicted(conf: Settings, pull: Pull, s: State, s': State, id: Id, stopped: Option<Id>)
    requires id in s.items && s.items[id].key in s.table && s.table[s.items[id].key] == id
    requires s'.table ==
               if pull.Dead(id, s.items[id]) || Evicts(conf, pull) then s.table - {s.items[id].key} else s.table
    requires stopped == Some(id) || pull.Dead(id, s.items[id]) || !Evicts(conf, pull)
    ensures OneEvicted(conf, pull, s, s', stopped)
  {
  }

  lemma OneEvictedBoth(conf: Settings, pull: Pull, s: State, s1: State, s2: State, stopped: Option<Id>)
    requires OnlyPulled(conf, pull, s, s1) && OneEvicted(conf, pull, s, s1, None)
    requires OnlyPulled(conf, pull, s1, s2) && OneEvicted(conf, pull, s1, s2, stopped)
    ensures OneEvicted(conf, pull, s, s2, stopped)
  {
  }

  lemma OnlyItemPulls(conf: Settings, pull: Pull, s: State, s': State, id: Id)
    requires Inv(s) && Inv(s') && id in ListAt(s, pull.list) && OnlyItem(s, s', id) && id in s.items
    requires s'.table ==
               if pull.Dead(id, s.items[id]) || Evicts(conf, pull) then s.table - {s.items[id].key} else s.table
    ensures OnlyPulled(conf, pull, s, s')
  {
    hide Inv;
    ListedLinked(s, pull.list, id);
    forall x | x in ListAt(s', pull.list)
      ensures x in ListAt(s, pull.list)
    {
      ListedLinked(s', pull.list, x);
      if x != id {
        LinkedListed(s, x);
      }
    }
  }

  lemma OnlyPulledBoth(conf: Settings, pull: Pull, s: State, s1: State, s2: State)
    requires OnlyPulled(conf, pull, s, s1) && OnlyPulled(conf, pull, s1, s2)
    ensures OnlyPulled(conf, pull, s, s2)
  {
  }

  lemma OnlyPulledNot(conf: Settings, pull: Pull, s: State)
    ensures OnlyPulled(conf, pull, s, s)
  {
  }

  /**
   * Pulling a tail leaves every reference as it was but the one it returns, unlinks nothing but dead items and one
   * it was told to evict, and touches no item of another list.
   */
  lemma {:induction false} PullLoopEffect(conf: Settings, pull: Pull, s: State, search: Option<Id>, tries: nat)
    requires Inv(s) && Standing(s, pull, search)
    ensures var r := PullLoop(conf, pull, s, search, tries);
            && Inv(r.s) && OnlyPulled(conf, pull, s, r.s) && r.removed <= tries
            && OneEvicted(conf, pull, s, r.s, r.stopped)
            && r.s.refs == (if pull.returnItem && r.stopped.Some? then s.refs + multiset{r.stopped.value} else s.refs)
    decreases tries
  {
    hide Inv, PullOne, PullEnd, OnlyItem, OnlyPulled, Evicts, Pull.Dead;
    if tries == 0 || search.None? {
      OnlyPulledNot(conf, pull, s);
    } else {
      var id := search.value;
      var next := PrevIn(ListAt(s, pull.list), id);
      if !pull.lockable(id) {
        PullLoopEffect(conf, pull, s, next, tries - 1);
      } else {
        TurnKeeps(conf, pull, s, id);
        PullOneEffect(conf, pull, s, id);
        var r := PullOne(conf, pull, s, id);
        ListedLinked(s, pull.list, id);
        if r.verdict.Next? {
          OnlyItemPulls(conf, pull, s, r.s, id);
          OneItemEvicted(conf, pull, s, r.s, id, None);
          PullLoopEffect(conf, pull, r.s, next, tries - 1);
          var rest := PullLoop(conf, pull, r.s, next, tries - 1);
          OnlyPulledBoth(conf, pull, s, r.s, rest.s);
          OneEvictedBoth(conf, pull, s, r.s, rest.s, rest.stopped);
          hide OneEvicted;
        } else {
          var s' := PullEnd(pull, r.s, id, r.verdict.move);
          PullEndEffect(pull, r.s, id, r.verdict.move);
          OnlyItemBoth(s, r.s, s', id);
          OnlyItemPulls(conf, pull, s, s', id);
          OneItemEvicted(conf, pull, s, s', id, search);
          hide OneEvicted;
          AddTakeAway(s.refs, id);
        }
      }
    }
  }

  function Tail(s: State, l: ListId): Option<Id> {
    if ListAt(s, l) == [] then None else Some(ListAt(s, l)[|ListAt(s, l)| - 1])
  }

  /** `lru_pull_tail`: at most five tries from the tail up; class 0 is none. */
  function PullTail(conf: Settings, pull: Pull, s: State): PullResult
    requires Inv(s)
  {
    if pull.list.cls == 0 then PullResult(s, 0, None) else PullLoop(conf, pull, s, Tail(s, pull.list), 5)
  }
}
