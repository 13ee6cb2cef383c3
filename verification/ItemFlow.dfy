/** How items flow between the segments of their class. */
module ItemFlow {
  import opened Prelude
  import opened LruList
  import opened Items
  import opened ItemOps
  import opened ItemRuns

  /** Hot to warm or cold, warm to cold, cold to warm; never back to hot, never in or out of temp. */
  predicate Flows(from: ListId, to: ListId) {
    from == to
    || (from.cls == to.cls
        && (from.segment, to.segment) in {(Hot, Warm), (Hot, Cold), (Warm, Cold), (Cold, Warm)})
  }

  ghost predicate SameHomes(s: State, s': State) {
    forall x :: x in s.items && x in s'.items ==> s'.items[x].home == s.items[x].home
  }

  ghost predicate AllFlow(s: State, s': State) {
    forall x :: x in s.items && x in s'.items ==> Flows(s.items[x].home, s'.items[x].home)
  }

  /** Nothing is allocated between s and s'. */
  ghost predicate NoneNew(s: State, s': State) {
    forall x :: x in s'.items ==> x in s.items
  }

  lemma UnlinkHomes(s: State, id: Id)
    requires id in s.items
    ensures SameHomes(s, Unlink(s, id)) && NoneNew(s, Unlink(s, id))
  {
  }

  lemma UpdateNolockHomes(s: State, id: Id, now: int)
    requires id in s.items
    ensures SameHomes(s, UpdateNolock(s, id, now)) && NoneNew(s, UpdateNolock(s, id, now))
    ensures id in UpdateNolock(s, id, now).items
  {
  }

  lemma SameHomesBoth(s: State, s1: State, s2: State)
    requires SameHomes(s, s1) && SameHomes(s1, s2) && NoneNew(s, s1) && NoneNew(s1, s2)
    ensures SameHomes(s, s2) && NoneNew(s, s2)
  {
  }

  /** A turn of the tail loop moves nothing; the move it asks for is one that items may make. */
  lemma PullOneHomes(conf: Settings, pull: Pull, s: State, id: Id)
    requires Inv(s) && id in s.items && s.items[id].linked && s.items[id].home == pull.list
    ensures var r := PullOne(conf, pull, s, id);
            && SameHomes(s, r.s) && NoneNew(s, r.s)
            && (r.verdict.Stop? && r.verdict.move.Some? ==>
                  Flows(pull.list, pull.list.(segment := r.verdict.move.value)))
  {
    hide Inv, Refresh, Evict, Expire, Limit, Rest, Acquire, BytesAt, Pull.Dead, SameHomes, NoneNew;
    EvictHomes(s, id);
    RefreshHomes(s, id, pull.now);
    AcquireHomes(s, id);
  }

  lemma AcquireHomes(s: State, id: Id)
    requires Inv(s) && id in s.items
    ensures SameHomes(s, Acquire(s, id)) && NoneNew(s, Acquire(s, id))
    ensures SameHomes(s, Rest(s, id)) && NoneNew(s, Rest(s, id))
  {
    hide Inv;
  }

  lemma EvictHomes(s: State, id: Id)
    requires Inv(s) && id in s.items && s.items[id].linked
    ensures SameHomes(s, Evict(s, id)) && NoneNew(s, Evict(s, id))
    ensures SameHomes(s, Expire(s, id)) && NoneNew(s, Expire(s, id))
  {
    hide Inv, Unlink;
    EvictEffect(s, id);
    UnlinkHomes(Acquire(s, id), id);
    SameHomesBoth(s, Acquire(s, id), Evict(s, id));
    hide Evict;
    SameHomesBoth(s, Evict(s, id), Remove(Evict(s, id), id));
  }

  lemma RefreshHomes(s: State, id: Id, now: int)
    requires Inv(s) && id in s.items
    ensures SameHomes(s, Refresh(s, id, now)) && NoneNew(s, Refresh(s, id, now))
  {
    hide Inv, UpdateNolock;
    RestKeeps(s, id);
    var s1 := Rest(s, id);
    assert SameHomes(s, s1) && NoneNew(s, s1);
    hide Rest;
    UpdateNolockHomes(s1, id, now);
    var s2 := UpdateNolock(s1, id, now);
    SameHomesBoth(s, s1, s2);
    SameHomesBoth(s, s2, Remove(s2, id));
  }

  lemma PullEndFlows(pull: Pull, s: State, id: Id, move: Option<Segment>)
    requires id in s.items && s.items[id].refcount > 0
    requires move.Some? ==> Flows(s.items[id].home, s.items[id].home.(segment := move.value))
    ensures AllFlow(s, PullEnd(pull, s, id, move)) && NoneNew(s, PullEnd(pull, s, id, move))
  {
  }

  lemma {:induction false} PullLoopFlows(conf: Settings, pull: Pull, s: State, search: Option<Id>, tries: nat)
    requires Inv(s) && Standing(s, pull, search)
    ensures AllFlow(s, PullLoop(conf, pull, s, search, tries).s) && NoneNew(s, PullLoop(conf, pull, s, search, tries).s)
    decreases tries
  {
    hide Inv, PullOne, PullEnd;
    if tries > 0 && search.Some? {
      var id := search.value;
      var next := PrevIn(ListAt(s, pull.list), id);
      if !pull.lockable(id) {
        PullLoopFlows(conf, pull, s, next, tries - 1);
      } else {
        ListedLinked(s, pull.list, id);
        TurnKeeps(conf, pull, s, id);
        PullOneHomes(conf, pull, s, id);
        var r := PullOne(conf, pull, s, id);
        if r.verdict.Next? {
          PullLoopFlows(conf, pull, r.s, next, tries - 1);
        } else {
          PullEndEffect(pull, r.s, id, r.verdict.move);
          PullEndFlows(pull, r.s, id, r.verdict.move);
        }
      }
    }
  }

  lemma UpdateFlows(s: State, id: Id, now: int, segmented: bool)
    requires id in s.items
    ensures AllFlow(s, Update(s, id, now, segmented)) && NoneNew(s, Update(s, id, now, segmented))
  {
    hide Relocate, Mark;
    var it := s.items[id];
    if it.linked {
      if it.home.segment == Cold {
        MarkMoveFlows(s, id, false, now, Warm);
      }
      MarkMoveFlows(s, id, it.active, now, it.home.segment);
    }
  }

  lemma MarkMoveFlows(s: State, id: Id, active: bool, now: int, segment: Segment)
    requires id in s.items
    requires Flows(s.items[id].home, s.items[id].home.(segment := segment))
    ensures var s1 := Mark(s, id, s.items[id].fetched, active, now);
            && AllFlow(s, s1) && NoneNew(s, s1)
            && AllFlow(s, Relocate(s1, id, segment)) && NoneNew(s, Relocate(s1, id, segment))
  {
  }

  /** Over every operation, an item that stays allocated stays in its list or flows to one it may flow to. */
  lemma StepFlows(s: State, step: Step)
    requires Inv(s) && Enabled(s, step)
    ensures AllFlow(s, Apply(s, step))
  {
    hide Inv, PullLoop, Update, Unlink, GetItem, Drain, ReplaceItem, Link, Remove, Fresh, AllFlow;
    match step {
      case Alloc(id, it) => FreshFlows(s, id, it);
      case Get(key, flushed, update, now, segmented, room) => GetFlows(s, key, flushed, update, now, segmented, room);
      case LinkItem(id, now) => LinkFlows(s, id, now);
      case UnlinkItem(id) =>
        UnlinkHomes(s, id);
        SameFlows(s, Unlink(s, id));
      case Release(id) => RemoveFlows(s, id);
      case Replace(from, to, now) =>
        ReplaceHomes(s, from, to, now);
        SameFlows(s, ReplaceItem(s, from, to, now));
      case UpdateItem(id, now, segmented) => UpdateFlows(s, id, now, segmented);
      case DrainBump(now, segmented) => DrainFlows(s, now, segmented);
      case PullTail(conf, pull) =>
        PullLoopFlows(conf, pull, s, Tail(s, pull.list), 5);
        SameFlows(s, s);
    }
  }

  lemma SameFlows(s: State, s': State)
    requires SameHomes(s, s')
    ensures AllFlow(s, s')
  {
  }

  lemma FreshFlows(s: State, id: Id, it: Item)
    requires id !in s.items
    ensures AllFlow(s, Fresh(s, id, it))
  {
  }

  lemma LinkFlows(s: State, id: Id, now: int)
    requires id in s.items
    ensures AllFlow(s, Link(s, id, now))
  {
  }

  lemma RemoveFlows(s: State, id: Id)
    requires id in s.items
    ensures AllFlow(s, Remove(s, id))
  {
  }

  lemma ReplaceHomes(s: State, from: Id, to: Id, now: int)
    requires from in s.items && to in s.items && from != to
    ensures SameHomes(s, ReplaceItem(s, from, to, now))
  {
    hide Unlink;
    UnlinkOthers(s, from);
    UnlinkHomes(s, from);
    var s1 := Unlink(s, from);
    assert SameHomes(s1, Link(s1, to, now)) && NoneNew(s1, Link(s1, to, now));
    hide Link;
    SameHomesBoth(s, s1, Link(s1, to, now));
  }

  lemma DrainFlows(s: State, now: int, segmented: bool)
    requires Inv(s) && s.bumps != []
    ensures AllFlow(s, Drain(s, now, segmented))
  {
    hide Inv, Update;
    EntryLeaves(s);
    var id, s1 := s.bumps[0], s.(bumps := s.bumps[1..]);
    UpdateKeeps(s1, id, now, segmented);
    UpdateFlows(s1, id, now, segmented);
    hide Flows;
  }

  lemma GetFlows(s: State, key: Key, flushed: bool, update: bool, now: int, segmented: bool, room: bool)
    requires Inv(s)
    ensures AllFlow(s, GetItem(s, key, flushed, update, now, segmented, room))
  {
    hide Inv, Expire, Hit;
    if key in s.table {
      FoundLinked(s, key);
      var id := s.table[key];
      AcquireEffect(s, id);
      EvictHomes(s, id);
      HitFlows(Acquire(s, id), id, now, segmented, room);
    }
  }

  lemma HitFlows(s: State, id: Id, now: int, segmented: bool, room: bool)
    requires id in s.items && s.items[id].refcount > 0
    ensures AllFlow(s, Hit(s, id, now, segmented, room))
  {
    hide Update;
    var it := s.items[id];
    UpdateFlows(Mark(s, id, true, it.active, it.time), id, now, false);
    UpdateFlows(Mark(s, id, true, true, it.time), id, now, true);
  }
}
