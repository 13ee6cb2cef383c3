/** The item operations on the fields they update: the index, the counters and the pointers of each list. */
module ItemStore {
  import opened Prelude
  import opened LruList
  import opened Items
  import opened ItemOps
  import opened ItemRuns
  import opened ItemMoves

  lemma Overwritten(items: map<Id, Item>, id: Id, a: Item, b: Item)
    ensures items[id := a][id := b] == items[id := b]
  {
  }

  /** The list updates see only an item's home and size. */
  lemma QFrame(s: State, items: map<Id, Item>, id: Id)
    requires id in s.items && id in items
    requires items[id].home == s.items[id].home && items[id].total == s.items[id].total
    ensures LinkQ(s.(items := items), id) == LinkQ(s, id).(items := items)
    ensures UnlinkQ(s.(items := items), id) == UnlinkQ(s, id).(items := items)
    ensures LinkQ(s, id).items == s.items && UnlinkQ(s, id).items == s.items
  {
  }

  /** Counting the link's reference last, as the code does, comes to the same. */
  lemma LinkInOrder(s: State, id: Id, now: int)
    requires id in s.items
    ensures var it := s.items[id];
            var it2 := it.(linked := true, time := now);
            var s2 := s.(items := s.items[id := it2], table := s.table[it.key := id], currItems := s.currItems + 1);
            && LinkQ(s2, id).items == s2.items
            && Link(s, id, now)
            == LinkQ(s2, id).(items := s2.items[id := it2.(refcount := it.refcount + 1)])
  {
    hide LinkQ;
    var it := s.items[id];
    var it1, it2 := it.(refcount := it.refcount + 1), it.(linked := true, time := now);
    var it' := it2.(refcount := it.refcount + 1);
    Overwritten(s.items, id, it1, it');
    Overwritten(s.items, id, it2, it');
    AddTakeAway(s.refs, id);
    var s2 := s.(items := s.items[id := it2], table := s.table[it.key := id], currItems := s.currItems + 1);
    QFrame(s2, s.items[id := it'], id);
  }

  function PtrsAt(ptrs: map<ListId, Ptrs>, l: ListId): Ptrs {
    if l in ptrs then ptrs[l] else Ptrs(None, None, map[], map[])
  }

  /** The pointers of each list lead through exactly its items. */
  ghost predicate Threads(ptrs: map<ListId, Ptrs>, lists: map<ListId, seq<Id>>) {
    forall l: ListId :: IsList(PtrsAt(ptrs, l), ListIn(lists, l))
  }

  lemma ThreadsPush(ptrs: map<ListId, Ptrs>, lists: map<ListId, seq<Id>>, l: ListId, id: Id)
    requires Threads(ptrs, lists) && id !in ListIn(lists, l)
    ensures Threads(ptrs[l := Pushed(PtrsAt(ptrs, l), id)], lists[l := [id] + ListIn(lists, l)])
  {
    PushedLinks(PtrsAt(ptrs, l), ListIn(lists, l), id);
    hide IsList, Pushed;
    var ptrs', lists' := ptrs[l := Pushed(PtrsAt(ptrs, l), id)], lists[l := [id] + ListIn(lists, l)];
    forall k: ListId
      ensures IsList(PtrsAt(ptrs', k), ListIn(lists', k))
    {
      assert IsList(PtrsAt(ptrs, k), ListIn(lists, k));
    }
  }

  lemma ThreadsDrop(ptrs: map<ListId, Ptrs>, lists: map<ListId, seq<Id>>, l: ListId, id: Id)
    requires Threads(ptrs, lists) && id in ListIn(lists, l)
    ensures id in PtrsAt(ptrs, l).next && id in PtrsAt(ptrs, l).prev && id !in Without(ListIn(lists, l), id)
    ensures Threads(ptrs[l := Unhooked(PtrsAt(ptrs, l), id)], lists[l := Without(ListIn(lists, l), id)])
  {
    UnhookedWithout(PtrsAt(ptrs, l), ListIn(lists, l), id);
    assert IsList(PtrsAt(ptrs, l), ListIn(lists, l));
    WithoutPart(ListIn(lists, l), id);
    hide IsList, Distinct, Without, Unhooked;
    var ptrs' := ptrs[l := Unhooked(PtrsAt(ptrs, l), id)];
    var lists' := lists[l := Without(ListIn(lists, l), id)];
    forall k: ListId
      ensures IsList(PtrsAt(ptrs', k), ListIn(lists', k))
    {
      assert IsList(PtrsAt(ptrs, k), ListIn(lists, k));
    }
  }

  /** A linked item is in its list, an unlinked one in none. */
  lemma Listed(s: State, id: Id)
    requires Inv(s) && id in s.items
    ensures s.items[id].linked <==> id in ListIn(s.lists, s.items[id].home)
    ensures forall l :: l != s.items[id].home ==> id !in ListIn(s.lists, l)
  {
    hide RefsOk, IndexOk, SizesOk;
  }

  lemma UnlinkInOrder(s: State, id: Id)
    requires Inv(s) && id in s.items && s.items[id].linked
    ensures Unindexed(s, id).items == s.items[id := s.items[id].(linked := false)]
    ensures Inv(UnlinkQ(Unindexed(s, id), id)) && Held(UnlinkQ(Unindexed(s, id), id), id)
    ensures id in UnlinkQ(Unindexed(s, id), id).items
    ensures Unlink(s, id) == Remove(UnlinkQ(Unindexed(s, id), id), id)
  {
    hide Inv;
    DetachKeeps(s, id);
    BumpsWithin(s, id);
  }

  /** Clearing the mark between the lists, as the code does, comes to the same. */
  lemma MoveInOrder(s: State, id: Id, segment: Segment, active: bool, now: int)
    requires id in s.items
    ensures var it := s.items[id];
            var it2 := it.(time := now);
            var it' := it2.(home := it.home.(segment := segment), active := active);
            var u := UnlinkQ(s.(items := s.items[id := it2]), id);
            && u.items == s.items[id := it2]
            && LinkQ(u.(items := u.items[id := it']), id).items == s.items[id := it']
            && Relocate(Mark(s, id, it.fetched, active, now), id, segment)
            == LinkQ(u.(items := u.items[id := it']), id)
  {
    var it := s.items[id];
    var it1, it2 := it.(active := active, time := now), it.(time := now);
    var it' := it1.(home := it.home.(segment := segment));
    Overwritten(s.items, id, it1, it');
    Overwritten(s.items, id, it2, it');
    QFrame(s, s.items[id := it1], id);
    QFrame(s, s.items[id := it2], id);
    var u := UnlinkQ(s.(items := s.items[id := it2]), id);
    QFrame(u.(items := s.items[id := it']), s.items[id := it'], id);
    hide LinkQ, UnlinkQ;
  }

  lemma UnlinkedLists(s: State, id: Id)
    requires id in s.items
    ensures forall l :: l != s.items[id].home ==> ListIn(UnlinkQ(s, id).lists, l) == ListIn(s.lists, l)
  {
  }

  // ----- search->prev -----

  /** The prev pointer and the tail are those of the list. */
  lemma PointersAt(ptrs: map<ListId, Ptrs>, s: State, l: ListId, search: Option<Id>)
    requires Threads(ptrs, s.lists)
    ensures PtrsAt(ptrs, l).tail == Tail(s, l)
    ensures search.Some? && search.value in ListAt(s, l) ==>
              && search.value in PtrsAt(ptrs, l).prev
              && PtrsAt(ptrs, l).prev[search.value] == PrevIn(ListAt(s, l), search.value)
  {
    var list := ListAt(s, l);
    assert IsList(PtrsAt(ptrs, l), list);
    if search.Some? && search.value in list {
      var k :| 0 <= k < |list| && list[k] == search.value;
      PrevFromTail(list, k);
    }
  }

  lemma MarkSame(s: State, id: Id)
    requires id in s.items
    ensures Mark(s, id, s.items[id].fetched, s.items[id].active, s.items[id].time) == s
  {
    assert s.items[id := s.items[id]] == s.items;
  }

  lemma NoLists()
    ensures Threads(map[], map[]) && Empty() == State(map[], map[], map[], map[], map[], 0, [], multiset{})
  {
  }

  class Store {
    var items: map<Id, Item>
    var table: map<Key, Id>
    /** heads, tails, next and prev, list by list; a list never linked to is not in it. */
    var ptrs: map<ListId, Ptrs>
    ghost var lists: map<ListId, seq<Id>>
    var sizes: map<ListId, int>
    var sizesBytes: map<ListId, int>
    var currItems: int
    var bumps: seq<Id>
    ghost var refs: multiset<Id>

    ghost function View(): State
      reads this
    {
      State(items, table, lists, sizes, sizesBytes, currItems, bumps, refs)
    }

    /** Everything is in step, and the pointers are those of the lists. */
    ghost predicate Valid()
      reads this
    {
      Inv(View()) && Threads(ptrs, lists)
    }

    /** No list holds anything yet. */
    constructor ()
      ensures Valid() && View() == Empty()
    {
      hide Inv, Threads;
      NoLists();
      items, table, ptrs, lists, sizes, sizesBytes := map[], map[], map[], map[], map[], map[];
      currItems, bumps, refs := 0, [], multiset{};
    }

    /** `do_item_link_q`: the item becomes the head of its list, and the other lists keep their pointers. */
    method DoItemLinkQ(id: Id)
      requires id in items && id !in ListIn(lists, items[id].home) && Threads(ptrs, lists)
      modifies this`ptrs, this`lists, this`sizes, this`sizesBytes
      ensures Threads(ptrs, lists) && PtrsAt(ptrs, items[id].home).head == Some(id)
      ensures View() == LinkQ(old(View()), id)
    {
      hide Threads, IsList, ListIn;
      var l := items[id].home;
      ThreadsPush(ptrs, lists, l, id);
      ptrs := ptrs[l := Pushed(PtrsAt(ptrs, l), id)];
      sizes := sizes[l := (if l in sizes then sizes[l] else 0) + 1];
      sizesBytes := sizesBytes[l := (if l in sizesBytes then sizesBytes[l] else 0) + items[id].total];
      lists := lists[l := [id] + ListIn(lists, l)];
    }

    /** `do_item_unlink_q`: the item's neighbours, or head and tail, are pointed past it; no other list changes. */
    method DoItemUnlinkQ(id: Id)
      requires id in items && id in ListIn(lists, items[id].home) && Threads(ptrs, lists)
      modifies this`ptrs, this`lists, this`sizes, this`sizesBytes
      ensures Threads(ptrs, lists) && id !in ListIn(lists, items[id].home)
      ensures View() == UnlinkQ(old(View()), id)
    {
      hide Threads, Without, IsList, Unhooked;
      var l := items[id].home;
      ThreadsDrop(ptrs, lists, l, id);
      ptrs := ptrs[l := Unhooked(PtrsAt(ptrs, l), id)];
      sizes := sizes[l := (if l in sizes then sizes[l] else 0) - 1];
      sizesBytes := sizesBytes[l := (if l in sizesBytes then sizesBytes[l] else 0) - items[id].total];
      lists := lists[l := Without(ListIn(lists, l), id)];
    }

    /** The caller gives up a reference; the last one frees the item. */
    method DoItemRemove(id: Id) returns (freed: bool)
      requires Valid() && Held(View(), id)
      modifies this`items, this`refs
      ensures id in old(items) && View() == Remove(old(View()), id) && Valid()
      ensures freed <==> old(refs)[id] == 1 && !old(items)[id].linked
      ensures freed <==> id !in items
    {
      hide Inv, Threads;
      RemoveKeeps(View(), id);
      var it := items[id];
      freed := it.refcount == 1;
      items := if freed then items - {id} else items[id := it.(refcount := it.refcount - 1)];
      refs := refs - multiset{id};
    }

    /** The key must be absent. */
    method DoItemLink(id: Id, now: int)
      requires Valid() && id in items && !items[id].linked && items[id].key !in table
      modifies this`items, this`table, this`currItems, this`ptrs, this`lists, this`sizes, this`sizesBytes, this`refs
      ensures View() == Link(old(View()), id, now) && Valid()
      ensures table == old(table)[old(items)[id].key := id] && refs == old(refs)
    {
      hide Inv, Threads, Link, LinkQ;
      LinkKeeps(View(), id, now);
      LinkInOrder(View(), id, now);
      Listed(View(), id);
      items := items[id := items[id].(linked := true, time := now)];
      currItems := currItems + 1;
      table := table[items[id].key := id];
      DoItemLinkQ(id);
      items := items[id := items[id].(refcount := items[id].refcount + 1)];
    }

    /** An unlinked item is left alone. */
    method DoItemUnlink(id: Id)
      requires Valid() && id in items
      modifies this`items, this`table, this`currItems, this`ptrs, this`lists, this`sizes, this`sizesBytes, this`refs
      ensures View() == Unlink(old(View()), id) && Valid()
      ensures old(items)[id].linked ==>
                table == old(table) - {old(items)[id].key} && (id in items <==> old(refs)[id] > 0)
      ensures refs == old(refs)
    {
      hide Inv, Threads, Unlink, Remove, UnlinkQ;
      UnlinkKeeps(View(), id);
      if items[id].linked {
        UnlinkInOrder(View(), id);
        Listed(View(), id);
        items := items[id := items[id].(linked := false)];
        refs := refs + multiset{id};
        currItems := currItems - 1;
        table := table - {items[id].key};
        DoItemUnlinkQ(id);
        var _ := DoItemRemove(id);
      }
    }

    method DoItemReplace(from: Id, to: Id, now: int)
      requires Valid() && Enabled(View(), Replace(from, to, now))
      modifies this`items, this`table, this`currItems, this`ptrs, this`lists, this`sizes, this`sizesBytes, this`refs
      ensures View() == ReplaceItem(old(View()), from, to, now) && Valid()
      ensures table == old(table)[old(items)[to].key := to] && refs == old(refs)
    {
      hide Inv, Threads, Unlink, Link;
      ReplaceKeeps(View(), from, to, now);
      UnlinkOthers(View(), from);
      DoItemUnlink(from);
      DoItemLink(to, now);
    }

    method DoItemUpdate(id: Id, now: int, segmented: bool)
      requires Valid() && id in items
      modifies this`items, this`ptrs, this`lists, this`sizes, this`sizesBytes
      ensures View() == Update(old(View()), id, now, segmented) && Valid()
      ensures OnlyMoved(old(View()), View(), id)
    {
      hide Inv, Threads, OnlyMoved;
      UpdateKeeps(View(), id, now, segmented);
      var it := items[id];
      if segmented {
        if it.linked {
          if it.home.segment == Cold && it.active {
            MoveTo(id, Warm, false, now);
          } else if it.time < now - ITEM_UPDATE_INTERVAL {
            items := items[id := it.(time := now)];
          }
        }
      } else if it.time < now - ITEM_UPDATE_INTERVAL {
        if it.linked {
          MoveTo(id, it.home.segment, it.active, now);
        }
      }
    }

    /** Out of the item's list, and to the head of another of its class. */
    method MoveTo(id: Id, segment: Segment, active: bool, now: int)
      requires Valid() && id in items && items[id].linked
      modifies this`items, this`ptrs, this`lists, this`sizes, this`sizesBytes
      ensures Valid() && PtrsAt(ptrs, items[id].home).head == Some(id) && items[id].home.segment == segment
      ensures View() == Relocate(Mark(old(View()), id, old(items)[id].fetched, active, now), id, segment)
    {
      hide LinkQ, UnlinkQ, Inv, Threads, OnlyMoved, ListIn, Relocate, Mark;
      Listed(View(), id);
      MarkMoveKeeps(View(), id, active, now, segment);
      MoveInOrder(View(), id, segment, active, now);
      UnlinkedLists(View().(items := items[id := items[id].(time := now)]), id);
      items := items[id := items[id].(time := now)];
      DoItemUnlinkQ(id);
      items := items[id := items[id].(home := items[id].home.(segment := segment), active := active)];
      DoItemLinkQ(id);
    }

    /** `room` tells whether the buffer takes the entry. */
    method LruBumpAsync(id: Id, room: bool) returns (queued: bool)
      requires Valid() && id in items
      modifies this`items, this`bumps, this`refs
      ensures old(items)[id].refcount > 0 && View() == BumpAsync(old(View()), id, room) && Valid()
      ensures queued == room && bumps == if room then old(bumps) + [id] else old(bumps)
    {
      hide Inv, Threads, Remove;
      BumpKeeps(View(), id, room);
      Refer(id);
      queued := room;
      if room {
        bumps := bumps + [id];
      } else {
        Unrefer(id);
      }
    }

    /** `refcount_incr` */
    method Refer(id: Id)
      requires Valid() && id in items
      modifies this`items, this`refs
      ensures View() == Acquire(old(View()), id) && Valid() && Held(View(), id)
      ensures id in items && items[id] == old(items)[id].(refcount := old(items)[id].refcount + 1)
    {
      hide Inv, Threads;
      AcquireEffect(View(), id);
      items := items[id := items[id].(refcount := items[id].refcount + 1)];
      refs := refs + multiset{id};
    }

    /** `refcount_decr`, of a reference that is not the last */
    method Unrefer(id: Id)
      requires Valid() && Held(View(), id) && id in items && items[id].refcount > 1
      modifies this`items, this`refs
      ensures View() == Remove(old(View()), id) && Valid()
    {
      hide Inv, Threads;
      RemoveKeeps(View(), id);
      items := items[id := items[id].(refcount := items[id].refcount - 1)];
      refs := refs - multiset{id};
    }

    /** The hit markers in it_flags. */
    method SetMarks(id: Id, fetched: bool, active: bool)
      requires Valid() && id in items
      modifies this`items
      ensures View() == Mark(old(View()), id, fetched, active, old(items)[id].time) && Valid()
    {
      hide Inv, Threads;
      MarkKeeps(View(), id, fetched, active, items[id].time);
      items := items[id := items[id].(fetched := fetched, active := active)];
    }

    /** The part of `do_item_get` for a fetch that counts as a hit. */
    method NoteHit(id: Id, now: int, segmented: bool, room: bool)
      requires Valid() && id in items
      modifies this`items, this`ptrs, this`lists, this`sizes, this`sizesBytes, this`bumps, this`refs
      ensures old(items)[id].refcount > 0 && View() == Hit(old(View()), id, now, segmented, room) && Valid()
    {
      hide Inv, Threads, OnlyMoved, Update;
      HitKeeps(View(), id, now, segmented, room);
      var it := items[id];
      if !segmented {
        SetMarks(id, true, it.active);
        DoItemUpdate(id, now, false);
      } else if !it.active {
        if !it.fetched {
          SetMarks(id, true, false);
        } else {
          SetMarks(id, true, true);
          if it.home.segment != Cold {
            DoItemUpdate(id, now, true);
          } else {
            var queued := LruBumpAsync(id, room);
            if !queued {
              SetMarks(id, true, false);
            }
          }
        }
      }
    }

    /** The item comes with a reference, or is gone: a dead one is unlinked on the way. */
    method DoItemGet(key: Key, flushed: bool, update: bool, now: int, segmented: bool, room: bool)
      returns (found: Option<Id>)
      requires Valid()
      modifies this`items, this`table, this`currItems, this`ptrs, this`lists, this`sizes, this`sizesBytes,
               this`bumps, this`refs
      ensures View() == GetItem(old(View()), key, flushed, update, now, segmented, room) && Valid()
      ensures GetOutcome(old(View()), View(), key, flushed, now, found)
      ensures found.Some? ==> HitOutcome(old(View()), View(), found.value, update, segmented, room)
    {
      hide Inv, Threads, Hit, Unlink, Remove, GetOutcome, HitOutcome;
      GetEffect(View(), key, flushed, update, now, segmented, room);
      if key !in table {
        return None;
      }
      var id := table[key];
      FoundLinked(View(), key);
      Refer(id);
      if flushed || Expired(items[id], now) {
        UnlinkHeld(View(), id);
        DoItemUnlink(id);
        var _ := DoItemRemove(id);
        return None;
      }
      if update {
        NoteHit(id, now, segmented, room);
      }
      return Some(id);
    }

    /** The maintainer's turn on the oldest bump entry. */
    method LruMaintainerBump(now: int, segmented: bool)
      requires Valid() && bumps != []
      modifies this`items, this`ptrs, this`lists, this`sizes, this`sizesBytes, this`bumps, this`refs
      ensures View() == Drain(old(View()), now, segmented) && Valid()
      ensures bumps == old(bumps)[1..] && refs == old(refs) - multiset{old(bumps)[0]}
    {
      hide Inv, Threads, Update;
      EntryLeaves(View());
      var id := bumps[0];
      bumps := bumps[1..];
      DoItemUpdate(id, now, segmented);
      var _ := DoItemRemove(id);
    }

    /** `do_item_update_nolock` */
    method DoItemUpdateNolock(id: Id, now: int)
      requires Valid() && id in items
      modifies this`items, this`ptrs, this`lists, this`sizes, this`sizesBytes
      ensures View() == UpdateNolock(old(View()), id, now) && Valid()
      ensures OnlyMoved(old(View()), View(), id)
    {
      hide Inv, Threads, OnlyMoved;
      UpdateNolockKeeps(View(), id, now);
      var it := items[id];
      if it.time < now - ITEM_UPDATE_INTERVAL && it.linked {
        MoveTo(id, it.home.segment, it.active, now);
      }
    }

    /** One turn of the loop of `lru_pull_tail`; `search` is linked, and its lock was taken. */
    method PullTurn(conf: Settings, pull: Pull, search: Id) returns (removed: nat, verdict: Verdict)
      requires Valid() && search in items && items[search].linked
      modifies this`items, this`table, this`currItems, this`ptrs, this`lists, this`sizes, this`sizesBytes, this`refs
      ensures PullOne(conf, pull, old(View()), search) == Pulled(View(), removed, verdict) && Valid()
    {
      hide Inv, Threads, OnlyMoved, Unlink, Remove, UpdateNolock, Limit, Pull.Dead;
      ghost var s := View();
      var it := items[search];
      Refer(search);
      if pull.Dead(search, it) {
        UnlinkHeld(View(), search);
        DoItemUnlink(search);
        var _ := DoItemRemove(search);
        return 1, Next;
      }
      removed, verdict := PullLive(conf, pull, search, s);
    }

    /** The switch over segments, for an item that is not dead; s is the state before the turn. */
    method PullLive(conf: Settings, pull: Pull, search: Id, ghost s: State) returns (removed: nat, verdict: Verdict)
      requires Valid() && Inv(s) && search in s.items && s.items[search].linked && !pull.Dead(search, s.items[search])
      requires View() == Acquire(s, search) && Held(View(), search)
      modifies this`items, this`table, this`currItems, this`ptrs, this`lists, this`sizes, this`sizesBytes, this`refs
      ensures PullOne(conf, pull, s, search) == Pulled(View(), removed, verdict) && Valid()
    {
      hide Inv, Threads, OnlyMoved, Unlink, Remove, UpdateNolock, Limit, Pull.Dead;
      var it := items[search];
      var bytes := if pull.list in sizesBytes then sizesBytes[pull.list] else 0;
      var over := bytes > Limit(conf, pull) || pull.now - it.time > pull.maxAge;
      match pull.list.segment {
        case Hot =>
          if it.active {
            SetMarks(search, it.fetched, false);
            return 1, Stop(Some(Warm));
          }
          return if over then 1 else 0, Stop(if over then Some(Cold) else None);
        case Warm =>
          if it.active {
            SetMarks(search, it.fetched, false);
            DoItemUpdateNolock(search, pull.now);
            var _ := DoItemRemove(search);
            return 1, Next;
          }
          return if over then 1 else 0, Stop(if over then Some(Cold) else None);
        case Cold =>
          if pull.evict {
            if !conf.evictToFree {
              return 0, Stop(None);
            }
            DoItemUnlink(search);
            return 1, Stop(None);
          } else if !pull.returnItem && it.active && conf.segmented {
            SetMarks(search, it.fetched, false);
            return 1, Stop(Some(Warm));
          }
          return 0, Stop(None);
        case Temp => return 0, Stop(None);
      }
    }

    /** What follows the loop: the item it stopped at changes lists, and is released unless it is returned. */
    method PullFinish(pull: Pull, id: Id, move: Option<Segment>)
      requires Valid() && Held(View(), id) && id in items && (move.Some? ==> items[id].linked)
      modifies this`items, this`ptrs, this`lists, this`sizes, this`sizesBytes, this`refs
      ensures old(items)[id].refcount > 0 && View() == PullEnd(pull, old(View()), id, move) && Valid()
    {
      hide Inv, Threads, OnlyMoved, Relocate, Remove, Mark;
      PullEndEffect(pull, View(), id, move);
      if move.Some? {
        MarkSame(View(), id);
        RelocateKeeps(View(), id, move.value);
        MovedHeld(View(), Relocate(View(), id, move.value), id);
        MoveTo(id, move.value, items[id].active, items[id].time);
      }
      if !pull.returnItem {
        var _ := DoItemRemove(id);
      }
    }

    /** At most five tries, from the tail up along prev, which is read before the item may be relinked. */
    method LruPullTail(conf: Settings, pull: Pull) returns (removed: nat, stopped: Option<Id>)
      requires Valid()
      modifies this`items, this`table, this`currItems, this`ptrs, this`lists, this`sizes, this`sizesBytes, this`refs
      ensures ItemOps.PullTail(conf, pull, old(View())) == PullResult(View(), removed, stopped) && Valid()
      ensures OnlyPulled(conf, pull, old(View()), View()) && OneEvicted(conf, pull, old(View()), View(), stopped)
      ensures refs == if pull.returnItem && stopped.Some? then old(refs) + multiset{stopped.value} else old(refs)
    {
      hide Inv, Threads, PullOne, PullEnd, OnlyPulled, OneEvicted, PtrsAt, ListAt, PrevIn, Held;
      ghost var s0 := View();
      NoneEvicted(conf, pull, s0);
      OnlyPulledNot(conf, pull, s0);
      removed := 0;
      if pull.list.cls == 0 {
        return 0, None;
      }
      PointersAt(ptrs, View(), pull.list, None);
      var search := PtrsAt(ptrs, pull.list).tail;
      PullLoopEffect(conf, pull, s0, search, 5);
      var tries := 5;
      while tries > 0 && search.Some?
        invariant 0 <= tries <= 5 && Valid() && Standing(View(), pull, search)
        invariant var rest := PullLoop(conf, pull, View(), search, tries);
                  ItemOps.PullTail(conf, pull, s0) == rest.(removed := removed + rest.removed)
      {
        var id := search.value;
        PointersAt(ptrs, View(), pull.list, search);
        var next := PtrsAt(ptrs, pull.list).prev[id];
        if pull.lockable(id) {
          TurnKeeps(conf, pull, View(), id);
          var gone, verdict := PullTurn(conf, pull, id);
          removed := removed + gone;
          if verdict.Stop? {
            PullFinish(pull, id, verdict.move);
            return removed, search;
          }
        }
        tries := tries - 1;
        search := next;
      }
      return removed, None;
    }

    /** Every operation, as a thread takes it, keeps the pointers in step with the lists, and all with the index. */
    method Perform(step: Step)
      requires Valid() && Enabled(View(), step)
      modifies this
      ensures View() == Apply(old(View()), step) && Valid()
    {
      hide Inv, Threads, Link, Unlink, Update, Remove, PullLoop, Hit, GetItem, Drain, ReplaceItem;
      match step {
        case Alloc(id, it) =>
          FreshKeeps(View(), id, it);
          items := items[id := it.(refcount := 1, linked := false)];
          refs := refs + multiset{id};
        case Get(key, flushed, update, now, segmented, room) =>
          var _ := DoItemGet(key, flushed, update, now, segmented, room);
        case LinkItem(id, now) => DoItemLink(id, now);
        case UnlinkItem(id) => DoItemUnlink(id);
        case Release(id) => var _ := DoItemRemove(id);
        case Replace(from, to, now) => DoItemReplace(from, to, now);
        case UpdateItem(id, now, segmented) => DoItemUpdate(id, now, segmented);
        case DrainBump(now, segmented) => LruMaintainerBump(now, segmented);
        case PullTail(conf, pull) => var _, _ := LruPullTail(conf, pull);
      }
    }

    /** Over every run of operations the pointers stay those of the lists, wherever the run leads. */
    method Serve(steps: seq<Step>, ghost last: State)
      requires Valid() && Run(View(), steps, last)
      modifies this
      ensures View() == last && Valid()
    {
      hide Inv, Threads, Apply, Enabled;
      for i := 0 to |steps|
        invariant Valid() && Run(View(), steps[i..], last)
      {
        assert steps[i..][0] == steps[i] && steps[i..][1..] == steps[i + 1..];
        Perform(steps[i]);
      }
    }
  }

  /** An item someone holds stays allocated when it is unlinked. */
  lemma UnlinkHeld(s: State, id: Id)
    requires Inv(s) && id in s.items && Held(s, id)
    ensures id in Unlink(s, id).items && Held(Unlink(s, id), id) && Inv(Unlink(s, id))
  {
    UnlinkKeeps(s, id);
  }

  lemma MovedHeld(s: State, s': State, id: Id)
    requires OnlyMoved(s, s', id) && Held(s, id) && id in s.items
    ensures Held(s', id) && id in s'.items
  {
  }
}
