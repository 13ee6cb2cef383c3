/** Items, their references, the hash index and the segmented LRU lists, and what keeps them consistent. */
module Items {
  import opened Prelude
  import opened LruList

  type Key = seq<nat>

  datatype Segment = Hot | Warm | Cold | Temp

  /** A list is named by a slab class and a segment, as `slabs_clsid` packs them. */
  datatype ListId = ListId(cls: nat, segment: Segment)

  /** `home` is slabs_clsid, `total` is ITEM_ntotal. */
  datatype Item = Item(
    key: Key, home: ListId, total: nat, refcount: nat, linked: bool,
    fetched: bool, active: bool, time: int, exptime: int)

  /**
   * `items` are the allocated items; item_free takes one out.
   * `refs` are the references held by threads and by bump buffer entries.
   */
  datatype State = State(
    items: map<Id, Item>, table: map<Key, Id>,
    lists: map<ListId, seq<Id>>, sizes: map<ListId, int>, sizesBytes: map<ListId, int>,
    currItems: int, bumps: seq<Id>, refs: multiset<Id>)

  function ListIn(lists: map<ListId, seq<Id>>, l: ListId): seq<Id> {
    if l in lists then lists[l] else []
  }

  function ListAt(s: State, l: ListId): seq<Id> {
    ListIn(s.lists, l)
  }

  function SizeAt(s: State, l: ListId): int {
    if l in s.sizes then s.sizes[l] else 0
  }

  function BytesAt(s: State, l: ListId): int {
    if l in s.sizesBytes then s.sizesBytes[l] else 0
  }

  // ----- the small moves every operation is made of -----

  /** `do_item_link_q` */
  function LinkQ(s: State, id: Id): State
    requires id in s.items
  {
    var l := s.items[id].home;
    s.(lists := s.lists[l := [id] + ListAt(s, l)],
       sizes := s.sizes[l := SizeAt(s, l) + 1],
       sizesBytes := s.sizesBytes[l := BytesAt(s, l) + s.items[id].total])
  }

  /** `do_item_unlink_q` */
  function UnlinkQ(s: State, id: Id): State
    requires id in s.items
  {
    var l := s.items[id].home;
    s.(lists := s.lists[l := Without(ListAt(s, l), id)],
       sizes := s.sizes[l := SizeAt(s, l) - 1],
       sizesBytes := s.sizesBytes[l := BytesAt(s, l) - s.items[id].total])
  }

  function Fresh(s: State, id: Id, it: Item): State {
    s.(items := s.items[id := it.(refcount := 1, linked := false)], refs := s.refs + multiset{id})
  }

  /** `refcount_incr` */
  function Acquire(s: State, id: Id): State
    requires id in s.items
  {
    s.(items := s.items[id := s.items[id].(refcount := s.items[id].refcount + 1)], refs := s.refs + multiset{id})
  }

  /** `do_item_remove`: the last reference frees the item. */
  function Remove(s: State, id: Id): State
    requires id in s.items
  {
    var n := s.items[id].refcount;
    s.(items := if n <= 1 then s.items - {id} else s.items[id := s.items[id].(refcount := n - 1)],
       refs := s.refs - multiset{id})
  }

  /** A reference of the caller's becomes the link's: flag, index, counter and list. */
  function Attach(s: State, id: Id, now: int): State
    requires id in s.items
  {
    LinkQ(Indexed(s, id, now), id)
  }

  function Indexed(s: State, id: Id, now: int): State
    requires id in s.items
  {
    var it := s.items[id];
    s.(items := s.items[id := it.(linked := true, time := now)], table := s.table[it.key := id],
       currItems := s.currItems + 1, refs := s.refs - multiset{id})
  }

  /** The link's reference becomes the caller's. */
  function Detach(s: State, id: Id): State
    requires id in s.items
  {
    UnlinkQ(Unindexed(s, id), id)
  }

  function Unindexed(s: State, id: Id): State
    requires id in s.items
  {
    var it := s.items[id];
    s.(items := s.items[id := it.(linked := false)], table := s.table - {it.key},
       currItems := s.currItems - 1, refs := s.refs + multiset{id})
  }

  /** Out of one list and to the head of another. */
  function Relocate(s: State, id: Id, segment: Segment): State
    requires id in s.items
  {
    var s1 := UnlinkQ(s, id);
    var it := s1.items[id];
    LinkQ(s1.(items := s1.items[id := it.(home := it.home.(segment := segment))]), id)
  }

  /** Hit markers and access time. */
  function Mark(s: State, id: Id, fetched: bool, active: bool, time: int): State
    requires id in s.items
  {
    s.(items := s.items[id := s.items[id].(fetched := fetched, active := active, time := time)])
  }

  // ----- what they keep -----

  function Total(items: map<Id, Item>, list: seq<Id>): int {
    if list == [] then 0
    else (if list[0] in items then items[list[0]].total else 0) + Total(items, list[1..])
  }

  predicate Counted(it: Item, holders: nat) {
    it.refcount == holders + (if it.linked then 1 else 0) && it.refcount > 0
  }

  /** An item's count is its holders, and one if it is linked; without any it is not allocated. */
  ghost predicate RefsOk(s: State) {
    && (forall id :: id in s.items ==> Counted(s.items[id], s.refs[id]))
    && (forall id :: id in s.refs ==> id in s.items)
    && (forall id: Id :: multiset(s.bumps)[id] <= s.refs[id])
  }

  /** Linked items are exactly those the index finds, each by its key. */
  ghost predicate IndexOk(s: State) {
    && (forall k :: k in s.table ==>
          s.table[k] in s.items && s.items[s.table[k]].key == k && s.items[s.table[k]].linked)
    && (forall id :: id in s.items && s.items[id].linked ==>
          s.items[id].key in s.table && s.table[s.items[id].key] == id)
    && s.currItems == |s.table|
  }

  /** Linked items are exactly those in the lists, each once, in the list it names. */
  ghost predicate ListsOk(s: State) {
    && (forall l :: l in s.lists ==> Distinct(s.lists[l]))
    && (forall l, id :: l in s.lists && id in s.lists[l] ==>
          id in s.items && s.items[id].linked && s.items[id].home == l)
    && (forall id :: id in s.items && s.items[id].linked ==> id in ListAt(s, s.items[id].home))
  }

  ghost predicate SizesOk(s: State) {
    forall l: ListId :: SizeAt(s, l) == |ListAt(s, l)| && BytesAt(s, l) == Total(s.items, ListAt(s, l))
  }

  ghost predicate Inv(s: State) {
    RefsOk(s) && IndexOk(s) && ListsOk(s) && SizesOk(s)
  }

  // ----- totals -----

  lemma {:induction false} TotalFrame(items: map<Id, Item>, items': map<Id, Item>, list: seq<Id>)
    requires forall id :: id in list ==> id in items && id in items' && items'[id].total == items[id].total
    ensures Total(items', list) == Total(items, list)
  {
    if list != [] {
      assert list[0] in list && forall id :: id in list[1..] ==> id in list;
      TotalFrame(items, items', list[1..]);
    }
  }

  lemma {:induction false} TotalWithout(items: map<Id, Item>, list: seq<Id>, x: Id)
    requires x in list && x in items && Distinct(list)
    ensures Total(items, Without(list, x)) == Total(items, list) - items[x].total
    ensures |Without(list, x)| == |list| - 1
  {
    if list[0] != x {
      assert list == [list[0]] + list[1..];
      TotalWithout(items, list[1..], x);
      assert Without(list, x)[1..] == Without(list[1..], x);
    }
  }

  /** Only where item id is listed, its marks and its time may differ. */
  ghost predicate OnlyMoved(s: State, s': State, id: Id) {
    && s'.table == s.table && s'.refs == s.refs && s'.bumps == s.bumps && s'.items.Keys == s.items.Keys
    && (forall x :: x in s.items && x != id ==> s'.items[x] == s.items[x])
    && (id in s.items ==>
          s'.items[id] == s.items[id].(home := s.items[id].home.(segment := s'.items[id].home.segment),
            fetched := s'.items[id].fetched, active := s'.items[id].active, time := s'.items[id].time))
  }

  // ----- moves that leave index and lists alone -----

  /** The same items are linked, under the same keys, in the same lists. */
  ghost predicate SameLinks(s: State, s': State) {
    && s'.table == s.table && s'.currItems == s.currItems
    && s'.lists == s.lists && s'.sizes == s.sizes && s'.sizesBytes == s.sizesBytes
    && (forall id :: id in s'.items && s'.items[id].linked ==> id in s.items && s.items[id].linked)
    && (forall id :: id in s.items && s.items[id].linked ==>
          && id in s'.items && s'.items[id].linked
          && s'.items[id].key == s.items[id].key && s'.items[id].home == s.items[id].home
          && s'.items[id].total == s.items[id].total)
  }

  lemma SameLists(s: State, s': State)
    requires ListsOk(s) && SizesOk(s) && SameLinks(s, s')
    ensures ListsOk(s') && SizesOk(s')
  {
    forall l: ListId
      ensures Total(s'.items, ListAt(s', l)) == Total(s.items, ListAt(s, l))
    {
      TotalFrame(s.items, s'.items, ListAt(s, l));
    }
  }

  lemma SameIndex(s: State, s': State)
    requires IndexOk(s) && SameLinks(s, s')
    ensures IndexOk(s')
  {
  }

  /** What keeps the references, and the links as they are, keeps everything. */
  lemma SameKeeps(s: State, s': State)
    requires Inv(s) && SameLinks(s, s') && RefsOk(s')
    ensures Inv(s')
  {
    hide RefsOk, IndexOk, ListsOk, SizesOk, SameLinks;
    SameLists(s, s');
    SameIndex(s, s');
  }

  lemma AcquireKeeps(s: State, id: Id)
    requires Inv(s) && id in s.items
    ensures Inv(Acquire(s, id))
  {
    hide RefsOk, IndexOk, ListsOk, SizesOk;
    assert SameLinks(s, Acquire(s, id));
    hide SameLinks;
    AcquireRefs(s, id);
    SameKeeps(s, Acquire(s, id));
  }

  lemma AcquireRefs(s: State, id: Id)
    requires RefsOk(s) && id in s.items
    ensures RefsOk(Acquire(s, id))
  {
  }

  lemma FreshKeeps(s: State, id: Id, it: Item)
    requires Inv(s) && id !in s.items
    ensures Inv(Fresh(s, id, it))
  {
    hide RefsOk, IndexOk, ListsOk, SizesOk;
    assert SameLinks(s, Fresh(s, id, it));
    hide SameLinks;
    FreshRefs(s, id, it);
    SameKeeps(s, Fresh(s, id, it));
  }

  lemma FreshRefs(s: State, id: Id, it: Item)
    requires RefsOk(s) && id !in s.items
    ensures RefsOk(Fresh(s, id, it))
  {
    assert s.refs[id] == 0 by {
      assert id !in s.refs;
    }
  }

  /** Dropping a reference frees the item exactly when it was the last and the item is not linked. */
  lemma RemoveKeeps(s: State, id: Id)
    requires Inv(s) && multiset(s.bumps)[id] < s.refs[id]
    ensures id in s.items && s.items[id].refcount > 0 && Inv(Remove(s, id))
    ensures id !in Remove(s, id).items <==> s.refs[id] == 1 && !s.items[id].linked
  {
    hide IndexOk, ListsOk, SizesOk;
    RemoveRefs(s, id);
    RemoveSame(s, id);
    hide SameLinks, RefsOk;
    SameKeeps(s, Remove(s, id));
  }

  lemma RemoveRefs(s: State, id: Id)
    requires RefsOk(s) && multiset(s.bumps)[id] < s.refs[id]
    ensures id in s.items && s.items[id].refcount > 0 && RefsOk(Remove(s, id))
    ensures id !in Remove(s, id).items <==> s.refs[id] == 1 && !s.items[id].linked
  {
    assert id in s.refs;
    var s' := Remove(s, id);
    assert s'.refs[id] == s.refs[id] - 1;
    forall x | x in s'.items
      ensures Counted(s'.items[x], s'.refs[x])
    {
      assert x != id ==> s'.refs[x] == s.refs[x] && s'.items[x] == s.items[x];
    }
  }

  lemma RemoveSame(s: State, id: Id)
    requires RefsOk(s) && id in s.items && s.refs[id] > 0
    ensures SameLinks(s, Remove(s, id))
  {
  }

  lemma MarkKeeps(s: State, id: Id, fetched: bool, active: bool, time: int)
    requires Inv(s) && id in s.items
    ensures Inv(Mark(s, id, fetched, active, time)) && OnlyMoved(s, Mark(s, id, fetched, active, time), id)
  {
    hide RefsOk, IndexOk, ListsOk, SizesOk;
    assert SameLinks(s, Mark(s, id, fetched, active, time));
    hide SameLinks;
    MarkRefs(s, id, fetched, active, time);
    SameKeeps(s, Mark(s, id, fetched, active, time));
  }

  lemma MarkRefs(s: State, id: Id, fetched: bool, active: bool, time: int)
    requires RefsOk(s) && id in s.items
    ensures RefsOk(Mark(s, id, fetched, active, time))
  {
  }

  // ----- lists -----

  /** After a link: one more item, at the head of its list. */
  lemma LinkQLists(s: State, id: Id, s1: State)
    requires ListsOk(s) && SizesOk(s) && id in s.items && !s.items[id].linked
    requires s1.lists == s.lists && s1.sizes == s.sizes && s1.sizesBytes == s.sizesBytes
    requires id in s1.items && s1.items[id].linked
    requires s1.items.Keys == s.items.Keys && forall x :: x in s.items && x != id ==> s1.items[x] == s.items[x]
    ensures ListsOk(LinkQ(s1, id)) && SizesOk(LinkQ(s1, id))
  {
    var s' := LinkQ(s1, id);
    var home := s1.items[id].home;
    assert forall l :: id !in ListAt(s, l);
    assert ListAt(s', home) == [id] + ListAt(s, home);
    assert forall l :: l != home ==> ListAt(s', l) == ListAt(s, l);
    LinkQFiled(s, id, s1);
    LinkQSizes(s, id, s1);
  }

  lemma LinkQFiled(s: State, id: Id, s1: State)
    requires ListsOk(s) && id in s.items && !s.items[id].linked
    requires s1.lists == s.lists && id in s1.items && s1.items[id].linked
    requires s1.items.Keys == s.items.Keys && forall x :: x in s.items && x != id ==> s1.items[x] == s.items[x]
    ensures ListsOk(LinkQ(s1, id))
  {
    hide Distinct;
    LinkQDistinct(s, id, s1);
    LinkQListed(s, id, s1);
    forall x | x in s1.items && s1.items[x].linked
      ensures x in ListAt(LinkQ(s1, id), s1.items[x].home)
    {
      LinkQInList(s, id, s1, x);
    }
    hide ListAt;
  }

  lemma LinkQInList(s: State, id: Id, s1: State, x: Id)
    requires ListsOk(s) && id in s1.items && s1.lists == s.lists && x in s1.items && s1.items[x].linked
    requires s1.items.Keys == s.items.Keys && (x != id ==> s1.items[x] == s.items[x])
    ensures x in ListAt(LinkQ(s1, id), s1.items[x].home)
  {
    hide Distinct;
    assert x in s.items.Keys;
    assert x != id ==> x in ListAt(s, s1.items[x].home);
  }

  lemma LinkQDistinct(s: State, id: Id, s1: State)
    requires ListsOk(s) && id in s.items && !s.items[id].linked && s1.lists == s.lists && id in s1.items
    ensures var s' := LinkQ(s1, id); forall l :: l in s'.lists ==> Distinct(s'.lists[l])
  {
    var home := s1.items[id].home;
    assert Distinct(ListAt(s, home)) && id !in ListAt(s, home);
    PushDistinct(ListAt(s, home), id);
    hide Distinct;
  }

  lemma LinkQListed(s: State, id: Id, s1: State)
    requires ListsOk(s) && id in s.items && !s.items[id].linked
    requires s1.lists == s.lists && id in s1.items && s1.items[id].linked
    requires s1.items.Keys == s.items.Keys && forall x :: x in s.items && x != id ==> s1.items[x] == s.items[x]
    ensures var s' := LinkQ(s1, id);
            forall l, x :: l in s'.lists && x in s'.lists[l] ==>
              x in s'.items && s'.items[x].linked && s'.items[x].home == l
  {
    hide Distinct;
    var s', home := LinkQ(s1, id), s1.items[id].home;
    forall l, x | l in s'.lists && x in s'.lists[l]
      ensures x in s'.items && s'.items[x].linked && s'.items[x].home == l
    {
      assert x in ListAt(s, l) || (x == id && l == home);
    }
  }

  lemma LinkQSizes(s: State, id: Id, s1: State)
    requires ListsOk(s) && SizesOk(s) && id in s.items && !s.items[id].linked && id in s1.items
    requires s1.lists == s.lists && s1.sizes == s.sizes && s1.sizesBytes == s.sizesBytes
    requires s1.items.Keys == s.items.Keys && forall x :: x in s.items && x != id ==> s1.items[x] == s.items[x]
    ensures SizesOk(LinkQ(s1, id))
  {
    var s' := LinkQ(s1, id);
    forall l: ListId
      ensures SizeAt(s', l) == |ListAt(s', l)| && BytesAt(s', l) == Total(s'.items, ListAt(s', l))
    {
      hide ListsOk, SizesOk, LinkQ, Total;
      LinkQSizeAt(s, id, s1, l);
    }
  }

  lemma LinkQSizeAt(s: State, id: Id, s1: State, l: ListId)
    requires ListsOk(s) && SizesOk(s) && id in s.items && !s.items[id].linked && id in s1.items
    requires s1.lists == s.lists && s1.sizes == s.sizes && s1.sizesBytes == s.sizesBytes
    requires s1.items.Keys == s.items.Keys && forall x :: x in s.items && x != id ==> s1.items[x] == s.items[x]
    ensures var s' := LinkQ(s1, id);
            SizeAt(s', l) == |ListAt(s', l)| && BytesAt(s', l) == Total(s'.items, ListAt(s', l))
  {
    hide ListsOk, Total;
    ListTotal(s, s1, l, id);
    TotalPush(s1.items, ListAt(s, l), id);
  }

  /** Changing the flags, time or home of items leaves a list's total. */
  lemma ListTotal(s: State, s1: State, l: ListId, id: Id)
    requires ListsOk(s) && s1.items.Keys == s.items.Keys && id in s.items && id in s1.items
    requires s.items[id].linked ==> s1.items[id].total == s.items[id].total
    requires forall x :: x in s.items && x != id ==> s1.items[x] == s.items[x]
    ensures Total(s1.items, ListAt(s, l)) == Total(s.items, ListAt(s, l))
  {
    assert forall x :: x in ListAt(s, l) ==> x in s.items && s.items[x].linked && x in s1.items.Keys;
    hide ListsOk;
    TotalFrame(s.items, s1.items, ListAt(s, l));
  }

  lemma TotalPush(items: map<Id, Item>, list: seq<Id>, id: Id)
    requires id in items
    ensures Total(items, [id] + list) == items[id].total + Total(items, list)
  {
    assert ([id] + list)[1..] == list;
  }

  /** After an unlink: one item less. */
  lemma UnlinkQLists(s: State, id: Id, s1: State)
    requires ListsOk(s) && SizesOk(s) && id in s.items && s.items[id].linked
    requires s1.lists == s.lists && s1.sizes == s.sizes && s1.sizesBytes == s.sizesBytes
    requires id in s1.items && !s1.items[id].linked
    requires s1.items[id].home == s.items[id].home && s1.items[id].total == s.items[id].total
    requires s1.items.Keys == s.items.Keys && forall x :: x in s.items && x != id ==> s1.items[x] == s.items[x]
    ensures ListsOk(UnlinkQ(s1, id)) && SizesOk(UnlinkQ(s1, id))
  {
    hide ListsOk, SizesOk, UnlinkQ;
    UnlinkQFiled(s, id, s1);
    UnlinkQSizes(s, id, s1);
  }

  lemma UnlinkQFiled(s: State, id: Id, s1: State)
    requires ListsOk(s) && id in s.items && s.items[id].linked && s1.lists == s.lists
    requires id in s1.items && !s1.items[id].linked && s1.items[id].home == s.items[id].home
    requires s1.items.Keys == s.items.Keys && forall x :: x in s.items && x != id ==> s1.items[x] == s.items[x]
    ensures ListsOk(UnlinkQ(s1, id))
  {
    hide Distinct, Without;
    HomeList(s, id);
    WithoutPart(ListAt(s, s.items[id].home), id);
    UnlinkQListed(s, id, s1);
    forall x | x in s1.items && s1.items[x].linked
      ensures x in ListAt(UnlinkQ(s1, id), s1.items[x].home)
    {
      UnlinkQInList(s, id, s1, x);
    }
  }

  lemma UnlinkQInList(s: State, id: Id, s1: State, x: Id)
    requires ListsOk(s) && id in s1.items && s1.lists == s.lists && x in s1.items && s1.items[x].linked && x != id
    requires s1.items.Keys == s.items.Keys && s1.items[x] == s.items[x]
    requires Distinct(ListAt(s, s1.items[id].home))
    ensures x in ListAt(UnlinkQ(s1, id), s1.items[x].home)
  {
    hide Distinct, Without;
    assert x in s.items.Keys && x in ListAt(s, s1.items[x].home);
    WithoutPart(ListAt(s, s1.items[id].home), id);
  }

  lemma UnlinkQListed(s: State, id: Id, s1: State)
    requires ListsOk(s) && id in s.items && s1.lists == s.lists
    requires id in s1.items && s1.items[id].home == s.items[id].home && Distinct(ListAt(s, s.items[id].home))
    requires s1.items.Keys == s.items.Keys && forall x :: x in s.items && x != id ==> s1.items[x] == s.items[x]
    ensures var s' := UnlinkQ(s1, id);
            forall l, x :: l in s'.lists && x in s'.lists[l] ==>
              x in s'.items && s'.items[x].linked && s'.items[x].home == l
  {
    hide Distinct, Without;
    var s' := UnlinkQ(s1, id);
    WithoutPart(ListAt(s, s.items[id].home), id);
    forall l, x | l in s'.lists && x in s'.lists[l]
      ensures x in s'.items && s'.items[x].linked && s'.items[x].home == l
    {
      assert x in ListAt(s, l) && x != id;
    }
  }

  lemma HomeList(s: State, id: Id)
    requires ListsOk(s) && id in s.items && s.items[id].linked
    ensures id in ListAt(s, s.items[id].home) && Distinct(ListAt(s, s.items[id].home))
  {
  }

  lemma UnlinkQSizes(s: State, id: Id, s1: State)
    requires ListsOk(s) && SizesOk(s) && id in s.items && s.items[id].linked
    requires s1.lists == s.lists && s1.sizes == s.sizes && s1.sizesBytes == s.sizesBytes && id in s1.items
    requires s1.items[id].home == s.items[id].home && s1.items[id].total == s.items[id].total
    requires s1.items.Keys == s.items.Keys && forall x :: x in s.items && x != id ==> s1.items[x] == s.items[x]
    ensures SizesOk(UnlinkQ(s1, id))
  {
    var s' := UnlinkQ(s1, id);
    var home := s1.items[id].home;
    forall l: ListId
      ensures SizeAt(s', l) == |ListAt(s', l)| && BytesAt(s', l) == Total(s'.items, ListAt(s', l))
    {
      ListTotal(s, s1, l, id);
      HomeList(s, id);
      hide ListsOk, Distinct, Without, Total;
      if l == home {
        TotalWithout(s1.items, ListAt(s, home), id);
      }
    }
  }

  // ----- attach, detach, relocate -----

  /** References and index do not depend on the lists. */
  lemma ListsApart(s: State, s': State)
    requires s'.items == s.items && s'.table == s.table && s'.currItems == s.currItems
    requires s'.refs == s.refs && s'.bumps == s.bumps
    ensures RefsOk(s') == RefsOk(s) && IndexOk(s') == IndexOk(s)
  {
  }

  lemma AttachKeeps(s: State, id: Id, now: int)
    requires Inv(s) && id in s.items && !s.items[id].linked && s.items[id].key !in s.table
    requires multiset(s.bumps)[id] < s.refs[id]
    ensures Inv(Attach(s, id, now))
  {
    hide RefsOk, IndexOk, ListsOk, SizesOk;
    var s1 := Indexed(s, id, now);
    LinkQLists(s, id, s1);
    AttachRefs(s, id, now);
    AttachIndex(s, id, now);
    ListsApart(s1, LinkQ(s1, id));
  }

  lemma AttachRefs(s: State, id: Id, now: int)
    requires RefsOk(s) && id in s.items && !s.items[id].linked && multiset(s.bumps)[id] < s.refs[id]
    ensures RefsOk(Indexed(s, id, now))
  {
    var s' := Indexed(s, id, now);
    assert s'.refs[id] == s.refs[id] - 1;
    forall x | x in s'.items
      ensures Counted(s'.items[x], s'.refs[x])
    {
      assert x != id ==> s'.refs[x] == s.refs[x] && s'.items[x] == s.items[x];
    }
  }

  lemma AttachIndex(s: State, id: Id, now: int)
    requires IndexOk(s) && id in s.items && !s.items[id].linked && s.items[id].key !in s.table
    ensures IndexOk(Indexed(s, id, now))
  {
    var s' := Indexed(s, id, now);
    forall k | k in s'.table
      ensures s'.table[k] in s'.items && s'.items[s'.table[k]].key == k && s'.items[s'.table[k]].linked
    {
      AttachFound(s, id, now, k);
    }
    forall x | x in s'.items && s'.items[x].linked
      ensures s'.items[x].key in s'.table && s'.table[s'.items[x].key] == x
    {
      AttachFinds(s, id, now, x);
    }
    CountGrows(s.table, s.items[id].key, id);
    hide IndexOk;
  }

  lemma AttachFound(s: State, id: Id, now: int, k: Key)
    requires IndexOk(s) && id in s.items && !s.items[id].linked && k in Indexed(s, id, now).table
    ensures var s' := Indexed(s, id, now);
            s'.table[k] in s'.items && s'.items[s'.table[k]].key == k && s'.items[s'.table[k]].linked
  {
  }

  lemma AttachFinds(s: State, id: Id, now: int, x: Id)
    requires IndexOk(s) && id in s.items && !s.items[id].linked && s.items[id].key !in s.table
    requires x in s.items && (x == id || s.items[x].linked)
    ensures var s' := Indexed(s, id, now);
            s'.items[x].key in s'.table && s'.table[s'.items[x].key] == x
  {
  }

  lemma CountGrows(table: map<Key, Id>, k: Key, id: Id)
    requires k !in table
    ensures |table[k := id]| == |table| + 1
  {
    assert table[k := id].Keys == table.Keys + {k};
  }

  lemma DetachKeeps(s: State, id: Id)
    requires Inv(s) && id in s.items && s.items[id].linked
    ensures Inv(Detach(s, id))
  {
    hide RefsOk, IndexOk, ListsOk, SizesOk;
    var s1 := Unindexed(s, id);
    UnlinkQLists(s, id, s1);
    DetachRefs(s, id);
    DetachIndex(s, id);
    ListsApart(s1, UnlinkQ(s1, id));
  }

  lemma DetachRefs(s: State, id: Id)
    requires RefsOk(s) && id in s.items && s.items[id].linked
    ensures RefsOk(Unindexed(s, id))
  {
    var s' := Unindexed(s, id);
    assert s'.refs[id] == s.refs[id] + 1 && forall x :: x != id ==> s'.refs[x] == s.refs[x];
  }

  lemma DetachIndex(s: State, id: Id)
    requires IndexOk(s) && id in s.items && s.items[id].linked
    ensures IndexOk(Unindexed(s, id))
  {
    assert s.table.Keys == Unindexed(s, id).table.Keys + {s.items[id].key};
  }

  /** A relocation is an unlink and a link of the list, with the item unlinked in between. */
  lemma RelocateKeeps(s: State, id: Id, segment: Segment)
    requires Inv(s) && id in s.items && s.items[id].linked
    ensures Inv(Relocate(s, id, segment)) && OnlyMoved(s, Relocate(s, id, segment), id)
  {
    hide RefsOk, IndexOk, ListsOk, SizesOk, Relocate;
    RelocateLists(s, id, segment);
    RelocateMoves(s, id, segment);
    hide OnlyMoved;
    var it := s.items[id];
    var it' := it.(home := it.home.(segment := segment));
    RehomeRefs(s, id, it');
    RehomeIndex(s, id, it');
    ListsApart(s.(items := s.items[id := it']), Relocate(s, id, segment));
  }

  lemma RelocateMoves(s: State, id: Id, segment: Segment)
    requires id in s.items
    ensures var s', it := Relocate(s, id, segment), s.items[id];
            && OnlyMoved(s, s', id) && s'.currItems == s.currItems
            && s'.items == s.items[id := it.(home := it.home.(segment := segment))]
  {
  }

  lemma RelocateLists(s: State, id: Id, segment: Segment)
    requires ListsOk(s) && SizesOk(s) && id in s.items && s.items[id].linked
    ensures ListsOk(Relocate(s, id, segment)) && SizesOk(Relocate(s, id, segment))
  {
    hide ListsOk, SizesOk;
    var it := s.items[id];
    var between := s.(items := s.items[id := it.(linked := false)]);
    UnlinkQLists(s, id, between);
    var u := UnlinkQ(between, id);
    var back := UnlinkQ(s, id);
    assert back.lists == u.lists && back.sizes == u.sizes && back.sizesBytes == u.sizesBytes;
    assert back.items == s.items && u.items == between.items;
    hide UnlinkQ, LinkQ;
    LinkQLists(u, id, back.(items := back.items[id := it.(home := it.home.(segment := segment))]));
  }

  lemma RehomeRefs(s: State, id: Id, it: Item)
    requires RefsOk(s) && id in s.items && it.refcount == s.items[id].refcount && it.linked == s.items[id].linked
    ensures RefsOk(s.(items := s.items[id := it]))
  {
  }

  lemma RehomeIndex(s: State, id: Id, it: Item)
    requires IndexOk(s) && id in s.items && it.key == s.items[id].key && it.linked == s.items[id].linked
    ensures IndexOk(s.(items := s.items[id := it]))
  {
  }

  // ----- order -----

  /** Lists as they were, but for item id: out of every list, and at the head of list `to` if there is one. */
  ghost predicate MovedTo(s: State, s': State, id: Id, to: Option<ListId>) {
    forall l: ListId ::
      ListAt(s', l) == (if to == Some(l) then [id] else []) + Without(ListAt(s, l), id)
  }

  lemma NotListed(s: State, id: Id, l: ListId)
    requires ListsOk(s) && id in s.items && (!s.items[id].linked || s.items[id].home != l)
    ensures Without(ListAt(s, l), id) == ListAt(s, l)
  {
    WithoutAbsent(ListAt(s, l), id);
  }

  /** Where the pieces of a state's lists come from is all that counts. */
  lemma OneListMoved(s: State, s': State, id: Id, from: Option<ListId>, to: Option<ListId>)
    requires forall l: ListId :: from != Some(l) ==> Without(ListAt(s, l), id) == ListAt(s, l)
    requires forall l: ListId ::
               ListAt(s', l) == (if to == Some(l) then [id] else [])
                                + (if from == Some(l) then Without(ListAt(s, l), id) else ListAt(s, l))
    ensures MovedTo(s, s', id, to)
  {
    hide Without, ListAt;
  }

  lemma AllNotListed(s: State, id: Id, from: Option<ListId>)
    requires ListsOk(s) && id in s.items && (s.items[id].linked ==> from == Some(s.items[id].home))
    ensures forall l: ListId :: from != Some(l) ==> Without(ListAt(s, l), id) == ListAt(s, l)
  {
    hide ListsOk, Without, ListAt;
    forall l: ListId | from != Some(l)
      ensures Without(ListAt(s, l), id) == ListAt(s, l)
    {
      NotListed(s, id, l);
    }
  }

  /** A new item goes to the head of its list. */
  lemma AttachOrder(s: State, id: Id, now: int)
    requires Inv(s) && id in s.items && !s.items[id].linked
    ensures MovedTo(s, Attach(s, id, now), id, Some(s.items[id].home))
  {
    hide RefsOk, IndexOk, SizesOk, ListsOk, Without;
    AllNotListed(s, id, None);
    OneListMoved(s, Attach(s, id, now), id, None, Some(s.items[id].home));
  }

  /** Unlinking takes an item out of its list and leaves the order of all others. */
  lemma DetachOrder(s: State, id: Id)
    requires Inv(s) && id in s.items && s.items[id].linked
    ensures MovedTo(s, Detach(s, id), id, None)
  {
    hide RefsOk, IndexOk, SizesOk, ListsOk, Without;
    AllNotListed(s, id, Some(s.items[id].home));
    OneListMoved(s, Detach(s, id), id, Some(s.items[id].home), None);
  }

  /** A move puts the item at the head of the other segment of its class. */
  lemma RelocateOrder(s: State, id: Id, segment: Segment)
    requires Inv(s) && id in s.items && s.items[id].linked
    ensures MovedTo(s, Relocate(s, id, segment), id, Some(s.items[id].home.(segment := segment)))
  {
    hide RefsOk, IndexOk, SizesOk, ListsOk, Without;
    AllNotListed(s, id, Some(s.items[id].home));
    OneListMoved(s, Relocate(s, id, segment), id, Some(s.items[id].home), Some(s.items[id].home.(segment := segment)));
  }
}
