/** Every run of item operations keeps references, index, lists and counters in step. */
module ItemRuns {
  import opened Prelude
  import opened LruList
  import opened Items
  import opened ItemOps

  datatype Step =
    | Alloc(id: Id, it: Item)
    | Get(key: Key, flushed: bool, update: bool, now: int, segmented: bool, room: bool)
    | LinkItem(id: Id, now: int)
    | UnlinkItem(id: Id)
    | Release(id: Id)
    | Replace(from: Id, to: Id, now: int)
    | UpdateItem(id: Id, now: int, segmented: bool)
    | DrainBump(now: int, segmented: bool)
    | PullTail(conf: Settings, pull: Pull)

  /** A thread works on items it holds a reference to, and links only keys that are absent. */
  predicate Enabled(s: State, step: Step) {
    match step
    case Alloc(id, it) => id !in s.items
    case Get(_, _, _, _, _, _) => true
    case LinkItem(id, _) => id in s.items && Held(s, id) && !s.items[id].linked && s.items[id].key !in s.table
    case UnlinkItem(id) => id in s.items && Held(s, id)
    case Release(id) => id in s.items && Held(s, id)
    case Replace(from, to, _) =>
      && from in s.items && Held(s, from) && s.items[from].linked
      && to in s.items && Held(s, to) && !s.items[to].linked && s.items[to].key == s.items[from].key
    case UpdateItem(id, _, _) => id in s.items && Held(s, id)
    case DrainBump(_, _) => s.bumps != []
    case PullTail(_, _) => true
  }

  predicate Expired(it: Item, now: int) {
    it.exptime != 0 && it.exptime <= now
  }

  /** `do_item_get`; `flushed` tells whether a flush_all has hit the item */
  function GetItem(s: State, key: Key, flushed: bool, update: bool, now: int, segmented: bool, room: bool): State
    requires Inv(s)
  {
    if key !in s.table then s
    else
      var id := s.table[key];
      FoundLinked(s, key);
      AcquireEffect(s, id);
      if flushed || Expired(s.items[id], now) then Expire(s, id)
      else if update then
        HitKeeps(Acquire(s, id), id, now, segmented, room);
        Hit(Acquire(s, id), id, now, segmented, room)
      else Acquire(s, id)
  }

  lemma FoundLinked(s: State, key: Key)
    requires Inv(s) && key in s.table
    ensures s.table[key] in s.items && s.items[s.table[key]].linked && s.items[s.table[key]].key == key
  {
    hide RefsOk, ListsOk, SizesOk;
  }

  /** The maintainer's turn on the oldest bump entry: `do_item_update`, then `do_item_remove`. */
  function Drain(s: State, now: int, segmented: bool): State
    requires Inv(s) && s.bumps != []
  {
    var id := s.bumps[0];
    EntryLeaves(s);
    var s1 := s.(bumps := s.bumps[1..]);
    UpdateKeeps(s1, id, now, segmented);
    RemoveKeeps(Update(s1, id, now, segmented), id);
    Remove(Update(s1, id, now, segmented), id)
  }

  /** The buffer's reference becomes the maintainer's. */
  lemma EntryLeaves(s: State)
    requires Inv(s) && s.bumps != []
    ensures Inv(s.(bumps := s.bumps[1..])) && Held(s.(bumps := s.bumps[1..]), s.bumps[0]) && s.bumps[0] in s.items
  {
    hide IndexOk, ListsOk, SizesOk, RefsOk;
    EntryRefs(s);
    SameKeeps(s, s.(bumps := s.bumps[1..]));
  }

  lemma EntryRefs(s: State)
    requires RefsOk(s) && s.bumps != []
    ensures RefsOk(s.(bumps := s.bumps[1..])) && Held(s.(bumps := s.bumps[1..]), s.bumps[0]) && s.bumps[0] in s.items
  {
    var id, s' := s.bumps[0], s.(bumps := s.bumps[1..]);
    assert s.bumps == [id] + s'.bumps;
    forall x: Id
      ensures multiset(s'.bumps)[x] + (if x == id then 1 else 0) <= s.refs[x]
    {
      assert multiset(s.bumps)[x] == multiset(s'.bumps)[x] + (if x == id then 1 else 0);
    }
    assert id in s.refs;
  }

  function Apply(s: State, step: Step): State
    requires Inv(s) && Enabled(s, step)
  {
    hide Inv;
    match step
    case Alloc(id, it) => Fresh(s, id, it)
    case Get(key, flushed, update, now, segmented, room) => GetItem(s, key, flushed, update, now, segmented, room)
    case LinkItem(id, now) => Link(s, id, now)
    case UnlinkItem(id) => Unlink(s, id)
    case Release(id) => Remove(s, id)
    case Replace(from, to, now) => ReplaceItem(s, from, to, now)
    case UpdateItem(id, now, segmented) => Update(s, id, now, segmented)
    case DrainBump(now, segmented) => Drain(s, now, segmented)
    case PullTail(conf, pull) => ItemOps.PullTail(conf, pull, s).s
  }

  /** `do_item_replace` */
  function ReplaceItem(s: State, from: Id, to: Id, now: int): State
    requires from in s.items && to in s.items && from != to
  {
    UnlinkOthers(s, from);
    Link(Unlink(s, from), to, now)
  }

  lemma UnlinkOthers(s: State, id: Id)
    requires id in s.items
    ensures forall x :: x in s.items && x != id ==> x in Unlink(s, id).items && Unlink(s, id).items[x] == s.items[x]
  {
  }

  /** Replacing an item under its key: the index always has the key's one item. */
  lemma ReplaceKeeps(s: State, from: Id, to: Id, now: int)
    requires Inv(s) && Enabled(s, Replace(from, to, now))
    ensures var s' := ReplaceItem(s, from, to, now);
            && Inv(s') && s'.table == s.table[s.items[to].key := to] && s'.refs == s.refs
  {
    hide Inv, Unlink, Link;
    UnlinkKeeps(s, from);
    UnlinkOthers(s, from);
    LinkKeeps(Unlink(s, from), to, now);
  }

  lemma StepKeeps(s: State, step: Step)
    requires Inv(s) && Enabled(s, step)
    ensures Inv(Apply(s, step))
  {
    hide Inv, Link, Unlink, Update, Fresh, Remove, PullLoop, Hit, Expire, Acquire;
    match step {
      case Alloc(id, it) => FreshKeeps(s, id, it);
      case Get(key, flushed, update, now, segmented, room) =>
        if key in s.table {
          var id := s.table[key];
          FoundLinked(s, key);
          AcquireEffect(s, id);
          ExpireEffect(s, id);
          HitKeeps(Acquire(s, id), id, now, segmented, room);
        }
      case LinkItem(id, now) => LinkKeeps(s, id, now);
      case UnlinkItem(id) => UnlinkKeeps(s, id);
      case Release(id) => RemoveKeeps(s, id);
      case Replace(from, to, now) => ReplaceKeeps(s, from, to, now);
      case UpdateItem(id, now, segmented) => UpdateKeeps(s, id, now, segmented);
      case DrainBump(now, segmented) =>
        var id, s1 := s.bumps[0], s.(bumps := s.bumps[1..]);
        EntryLeaves(s);
        UpdateKeeps(s1, id, now, segmented);
        RemoveKeeps(Update(s1, id, now, segmented), id);
      case PullTail(conf, pull) => PullLoopEffect(conf, pull, s, Tail(s, pull.list), 5);
    }
  }

  ghost predicate Run(s: State, steps: seq<Step>, last: State)
    requires Inv(s)
    decreases |steps|
  {
    if steps == [] then last == s
    else
      && Enabled(s, steps[0])
      && (StepKeeps(s, steps[0]); Run(Apply(s, steps[0]), steps[1..], last))
  }

  function Empty(): (s: State)
    ensures Inv(s)
  {
    State(map[], map[], map[], map[], map[], 0, [], multiset{})
  }

  lemma {:induction false} RunKeeps(s: State, steps: seq<Step>, last: State)
    requires Inv(s) && Run(s, steps, last)
    ensures Inv(last)
    decreases |steps|
  {
    hide Inv, Apply;
    if steps != [] {
      StepKeeps(s, steps[0]);
      RunKeeps(Apply(s, steps[0]), steps[1..], last);
    }
  }

  /** What holds after any run that starts with an empty cache. */
  lemma AlwaysConsistent(steps: seq<Step>, last: State)
    requires Run(Empty(), steps, last)
    ensures forall id :: id in last.items ==>
              last.items[id].refcount == last.refs[id] + (if last.items[id].linked then 1 else 0) > 0
    ensures forall id :: id in last.refs ==> id in last.items
    ensures forall k, id :: k in last.table && last.table[k] == id <==>
              id in last.items && last.items[id].linked && last.items[id].key == k
    ensures forall l, id :: id in ListAt(last, l) <==>
              id in last.items && last.items[id].linked && last.items[id].home == l
    ensures forall l :: SizeAt(last, l) == |ListAt(last, l)| && BytesAt(last, l) == Total(last.items, ListAt(last, l))
    ensures last.currItems == |last.table|
  {
    RunKeeps(Empty(), steps, last);
    IndexExact(last);
    ListsExact(last);
  }

  lemma IndexExact(s: State)
    requires IndexOk(s)
    ensures forall k, id :: k in s.table && s.table[k] == id <==>
              id in s.items && s.items[id].linked && s.items[id].key == k
  {
  }

  lemma ListsExact(s: State)
    requires ListsOk(s)
    ensures forall l, id :: id in ListAt(s, l) <==> id in s.items && s.items[id].linked && s.items[id].home == l
  {
  }
}
