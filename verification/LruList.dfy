/** One LRU list: doubly linked items, with the crawler's pseudo-item travelling from tail to head among them. */
module LruList {
  import opened Prelude

  type Id = nat

  /** Following `next` from any item leads to the item after it. */
  ghost predicate NextLinked(next: map<Id, Option<Id>>, list: seq<Id>) {
    forall k :: 0 <= k < |list| ==> list[k] in next && next[list[k]] == Nth(list, k + 1)
  }

  ghost predicate PrevLinked(prev: map<Id, Option<Id>>, list: seq<Id>) {
    forall k :: 0 <= k < |list| ==> list[k] in prev && prev[list[k]] == Nth(list, k - 1)
  }

  /** The list without the item at place i. */
  function Drop(list: seq<Id>, i: nat): seq<Id>
    requires i < |list|
  {
    list[..i] + list[i + 1..]
  }

  /** The items at places i - 1 and i change places. */
  function Swap(list: seq<Id>, i: nat): seq<Id>
    requires 0 < i < |list|
  {
    list[..i - 1] + [list[i], list[i - 1]] + list[i + 1..]
  }

  // ----- next pointers -----

  lemma NextPushFront(next: map<Id, Option<Id>>, list: seq<Id>, it: Id)
    requires NextLinked(next, list) && it !in list
    ensures NextLinked(next[it := Nth(list, 0)], [it] + list)
  {
    assert forall k :: 0 <= k < |list| ==> ([it] + list)[k + 1] == list[k];
  }

  lemma NextPushBack(next: map<Id, Option<Id>>, list: seq<Id>, it: Id)
    requires NextLinked(next, list) && Distinct(list) && it !in list
    ensures var next1 := next[it := None];
            NextLinked(if list == [] then next1 else next1[list[|list| - 1] := Some(it)], list + [it])
  {
  }

  /** Unhooking place i: the item before it points past it. */
  function NextWithout(next: map<Id, Option<Id>>, list: seq<Id>, i: nat): map<Id, Option<Id>>
    requires i < |list|
  {
    if i > 0 then next[list[i - 1] := Nth(list, i + 1)] else next
  }

  lemma NextDrop(next: map<Id, Option<Id>>, list: seq<Id>, i: nat)
    requires NextLinked(next, list) && Distinct(list) && i < |list|
    ensures NextLinked(NextWithout(next, list, i), Drop(list, i))
  {
    var list', next' := Drop(list, i), NextWithout(next, list, i);
    forall k | 0 <= k < |list'|
      ensures list'[k] in next' && next'[list'[k]] == Nth(list', k + 1)
    {
      NextDropAt(next, list, i, k);
    }
  }

  lemma NextDropAt(next: map<Id, Option<Id>>, list: seq<Id>, i: nat, k: nat)
    requires NextLinked(next, list) && Distinct(list) && i < |list| && k < |list| - 1
    ensures var list', next' := Drop(list, i), NextWithout(next, list, i);
            list'[k] in next' && next'[list'[k]] == Nth(list', k + 1)
  {
    hide NextLinked, Distinct, Drop;
    DropNth(list, i, k);
    DropNth(list, i, k + 1);
    var j := if k < i then k else k + 1;
    NextAt(next, list, j);
    DistinctAt(list, j);
  }

  lemma NextAt(next: map<Id, Option<Id>>, list: seq<Id>, k: nat)
    requires NextLinked(next, list) && k < |list|
    ensures list[k] in next && next[list[k]] == Nth(list, k + 1)
  {
  }

  lemma DistinctAt(list: seq<Id>, j: nat)
    requires Distinct(list) && j < |list|
    ensures forall m :: 0 <= m < |list| && m != j ==> list[m] != list[j]
  {
  }

  lemma DropNth(list: seq<Id>, i: nat, k: int)
    requires i < |list|
    ensures |Drop(list, i)| == |list| - 1
    ensures Nth(Drop(list, i), k) == Nth(list, if k < i then k else k + 1)
  {
  }

  // ----- prev pointers -----

  lemma PrevPushFront(prev: map<Id, Option<Id>>, list: seq<Id>, it: Id)
    requires PrevLinked(prev, list) && Distinct(list) && it !in list
    ensures var prev1 := prev[it := None];
            PrevLinked(if list == [] then prev1 else prev1[list[0] := Some(it)], [it] + list)
  {
    assert forall k :: 0 <= k < |list| ==> ([it] + list)[k + 1] == list[k];
  }

  lemma PrevPushBack(prev: map<Id, Option<Id>>, list: seq<Id>, it: Id)
    requires PrevLinked(prev, list) && it !in list
    ensures PrevLinked(prev[it := Nth(list, |list| - 1)], list + [it])
  {
  }

  function PrevWithout(prev: map<Id, Option<Id>>, list: seq<Id>, i: nat): map<Id, Option<Id>>
    requires i < |list|
  {
    if i + 1 < |list| then prev[list[i + 1] := Nth(list, i - 1)] else prev
  }

  lemma PrevDrop(prev: map<Id, Option<Id>>, list: seq<Id>, i: nat)
    requires PrevLinked(prev, list) && Distinct(list) && i < |list|
    ensures PrevLinked(PrevWithout(prev, list, i), Drop(list, i))
  {
    var list', prev' := Drop(list, i), PrevWithout(prev, list, i);
    forall k | 0 <= k < |list'|
      ensures list'[k] in prev' && prev'[list'[k]] == Nth(list', k - 1)
    {
      PrevDropAt(prev, list, i, k);
    }
  }

  lemma PrevDropAt(prev: map<Id, Option<Id>>, list: seq<Id>, i: nat, k: nat)
    requires PrevLinked(prev, list) && Distinct(list) && i < |list| && k < |list| - 1
    ensures var list', prev' := Drop(list, i), PrevWithout(prev, list, i);
            list'[k] in prev' && prev'[list'[k]] == Nth(list', k - 1)
  {
    hide PrevLinked, Distinct, Drop;
    DropNth(list, i, k);
    DropNth(list, i, k - 1);
    var j := if k < i then k else k + 1;
    PrevAt(prev, list, j);
    DistinctAt(list, j);
  }

  lemma PrevAt(prev: map<Id, Option<Id>>, list: seq<Id>, k: nat)
    requires PrevLinked(prev, list) && k < |list|
    ensures list[k] in prev && prev[list[k]] == Nth(list, k - 1)
  {
  }

  lemma DropDistinct(list: seq<Id>, i: nat)
    requires Distinct(list) && i < |list|
    ensures Distinct(Drop(list, i)) && list[i] !in Drop(list, i)
  {
    var list' := Drop(list, i);
    assert forall k :: 0 <= k < |list'| ==> list'[k] == list[if k < i then k else k + 1];
  }

  // ----- swinging the crawler over the item before it -----

  lemma SwapNth(list: seq<Id>, i: nat, k: int)
    requires 0 < i < |list|
    ensures |Swap(list, i)| == |list|
    ensures Nth(Swap(list, i), k) == Nth(list, if k == i then i - 1 else if k == i - 1 then i else k)
  {
  }

  lemma NextSwap(next: map<Id, Option<Id>>, list: seq<Id>, i: nat)
    requires NextLinked(next, list) && Distinct(list) && 0 < i < |list|
    ensures var next1 := next[list[i - 1] := Nth(list, i + 1)][list[i] := Some(list[i - 1])];
            NextLinked(if i > 1 then next1[list[i - 2] := Some(list[i])] else next1, Swap(list, i))
  {
    var list' := Swap(list, i);
    var next1 := next[list[i - 1] := Nth(list, i + 1)][list[i] := Some(list[i - 1])];
    var next' := if i > 1 then next1[list[i - 2] := Some(list[i])] else next1;
    forall k | 0 <= k < |list'|
      ensures list'[k] in next' && next'[list'[k]] == Nth(list', k + 1)
    {
      NextSwapAt(next, list, i, k);
    }
  }

  lemma NextSwapAt(next: map<Id, Option<Id>>, list: seq<Id>, i: nat, k: nat)
    requires NextLinked(next, list) && Distinct(list) && 0 < i < |list| && k < |list|
    ensures var next1 := next[list[i - 1] := Nth(list, i + 1)][list[i] := Some(list[i - 1])];
            var next' := if i > 1 then next1[list[i - 2] := Some(list[i])] else next1;
            Swap(list, i)[k] in next' && next'[Swap(list, i)[k]] == Nth(Swap(list, i), k + 1)
  {
    hide NextLinked, Distinct, Swap;
    SwapNth(list, i, k);
    SwapNth(list, i, k + 1);
    var j := if k == i then i - 1 else if k == i - 1 then i else k;
    NextAt(next, list, j);
    DistinctAt(list, j);
  }

  lemma PrevSwap(prev: map<Id, Option<Id>>, list: seq<Id>, i: nat)
    requires PrevLinked(prev, list) && Distinct(list) && 0 < i < |list|
    ensures var prev1: map<Id, Option<Id>> := if i + 1 < |list| then prev[list[i + 1] := Some(list[i - 1])] else prev;
            PrevLinked(prev1[list[i] := Nth(list, i - 2)][list[i - 1] := Some(list[i])], Swap(list, i))
  {
    var list' := Swap(list, i);
    var prev1: map<Id, Option<Id>> := if i + 1 < |list| then prev[list[i + 1] := Some(list[i - 1])] else prev;
    var prev' := prev1[list[i] := Nth(list, i - 2)][list[i - 1] := Some(list[i])];
    forall k | 0 <= k < |list'|
      ensures list'[k] in prev' && prev'[list'[k]] == Nth(list', k - 1)
    {
      PrevSwapAt(prev, list, i, k);
    }
  }

  lemma PrevSwapAt(prev: map<Id, Option<Id>>, list: seq<Id>, i: nat, k: nat)
    requires PrevLinked(prev, list) && Distinct(list) && 0 < i < |list| && k < |list|
    ensures var prev1: map<Id, Option<Id>> := if i + 1 < |list| then prev[list[i + 1] := Some(list[i - 1])] else prev;
            var prev' := prev1[list[i] := Nth(list, i - 2)][list[i - 1] := Some(list[i])];
            Swap(list, i)[k] in prev' && prev'[Swap(list, i)[k]] == Nth(Swap(list, i), k - 1)
  {
    hide PrevLinked, Distinct, Swap;
    SwapNth(list, i, k);
    SwapNth(list, i, k - 1);
    var j := if k == i then i - 1 else if k == i - 1 then i else k;
    PrevAt(prev, list, j);
    DistinctAt(list, j);
  }

  lemma SwapDistinct(list: seq<Id>, i: nat)
    requires Distinct(list) && 0 < i < |list|
    ensures Distinct(Swap(list, i))
  {
    var list' := Swap(list, i);
    assert forall k :: 0 <= k < |list'| ==>
             list'[k] == list[if k == i then i - 1 else if k == i - 1 then i else k];
  }

  /** Two lists of the same items have the same pointers. */
  lemma SamePointers(q: Ptrs, q': Ptrs, items: seq<Id>)
    requires IsList(q, items) && IsList(q', items)
    ensures q.head == q'.head && q.tail == q'.tail
    ensures forall x :: x in items ==>
              && x in q.next && x in q'.next && q.next[x] == q'.next[x]
              && x in q.prev && x in q'.prev && q.prev[x] == q'.prev[x]
  {
  }

  // ----- the list as its pointers -----

  datatype Ptrs = Ptrs(head: Option<Id>, tail: Option<Id>, next: map<Id, Option<Id>>, prev: map<Id, Option<Id>>)

  ghost predicate IsList(q: Ptrs, items: seq<Id>) {
    && Distinct(items) && NextLinked(q.next, items) && PrevLinked(q.prev, items)
    && q.head == Nth(items, 0) && q.tail == Nth(items, |items| - 1)
  }

  /** The crawler has been popped off the head but still points at the list. */
  ghost predicate Popped(q: Ptrs, items: seq<Id>, c: Id) {
    items != [] && c !in items && c in q.next && q.next[c] == q.head && c in q.prev && q.prev[c] == None
  }

  /** What `do_item_link_q` does to the pointers. */
  function Pushed(q: Ptrs, it: Id): Ptrs {
    var prev1: map<Id, Option<Id>> := q.prev[it := None];
    Ptrs(Some(it), if q.tail == None then Some(it) else q.tail, q.next[it := q.head],
         if q.head.Some? then prev1[q.head.value := Some(it)] else prev1)
  }

  lemma PushedLinks(q: Ptrs, items: seq<Id>, it: Id)
    requires IsList(q, items) && it !in items
    ensures IsList(Pushed(q, it), [it] + items)
  {
    hide NextLinked, PrevLinked;
    NextPushFront(q.next, items, it);
    PrevPushFront(q.prev, items, it);
  }

  /** What `do_item_unlink_q` and `do_item_unlinktail_q` do to the pointers. */
  function Unhooked(q: Ptrs, it: Id): Ptrs
    requires it in q.next && it in q.prev
  {
    var n, p := q.next[it], q.prev[it];
    Ptrs(if q.head == Some(it) then n else q.head, if q.tail == Some(it) then p else q.tail,
         if p.Some? then q.next[p.value := n] else q.next, if n.Some? then q.prev[n.value := p] else q.prev)
  }

  lemma UnhookedDrops(q: Ptrs, items: seq<Id>, i: nat)
    requires IsList(q, items) && i < |items|
    ensures items[i] in q.next && items[i] in q.prev && IsList(Unhooked(q, items[i]), Drop(items, i))
  {
    hide NextLinked, PrevLinked, Distinct, Drop;
    NextDrop(q.next, items, i);
    PrevDrop(q.prev, items, i);
    DropDistinct(items, i);
    DistinctAt(items, i);
    NextAt(q.next, items, i);
    PrevAt(q.prev, items, i);
    DropNth(items, i, 0);
    DropNth(items, i, |items| - 2);
  }

  lemma UnhookedPopped(q: Ptrs, items: seq<Id>, c: Id)
    requires IsList(q, items) && Popped(q, items, c)
    ensures Unhooked(q, c) == q
  {
    assert items[0] in q.prev && q.prev[items[0]] == None;
    assert q.head != Some(c) && q.tail != Some(c) && q.head == Some(items[0]);
    hide NextLinked, PrevLinked, Distinct;
    assert q.prev[items[0] := None] == q.prev;
  }

  /** Unhooking takes the item out wherever it is. */
  lemma UnhookedWithout(q: Ptrs, items: seq<Id>, it: Id)
    requires IsList(q, items) && it in items
    ensures it in q.next && it in q.prev && IsList(Unhooked(q, it), Without(items, it))
  {
    var i :| 0 <= i < |items| && items[i] == it;
    UnhookedDrops(q, items, i);
    WithoutAt(items, i);
  }

  /** What `do_item_crawl_q` does to the pointers when there is an item before the crawler. */
  function Swung(q: Ptrs, c: Id): Ptrs
    requires c in q.next && c in q.prev && q.prev[c].Some? && q.prev[c].value in q.prev
  {
    var n, p := q.next[c], q.prev[c].value;
    var pp := q.prev[p];
    var next1 := q.next[p := n][c := Some(p)];
    var prev1: map<Id, Option<Id>> := if n.Some? then q.prev[n.value := Some(p)] else q.prev;
    Ptrs(if q.head == Some(p) then Some(c) else q.head, if q.tail == Some(c) then Some(p) else q.tail,
         if pp.Some? then next1[pp.value := Some(c)] else next1,
         prev1[c := pp][p := Some(c)])
  }

  lemma SwungSwaps(q: Ptrs, items: seq<Id>, i: nat)
    requires IsList(q, items) && 0 < i < |items|
    ensures var c := items[i];
            && c in q.next && c in q.prev && q.prev[c] == Some(items[i - 1]) && items[i - 1] in q.prev
            && IsList(Swung(q, c), Swap(items, i)) && Swung(q, c).next[c] == Some(items[i - 1])
  {
    NextSwap(q.next, items, i);
    PrevSwap(q.prev, items, i);
    SwapDistinct(items, i);
    Neighbours(q.next, q.prev, items, i);
    hide NextLinked, PrevLinked, Distinct;
  }

  /** The crawler at the head leaves; its own pointers stay. */
  lemma PopsFirst(q: Ptrs, items: seq<Id>)
    requires IsList(q, items) && |items| > 1
    ensures items[0] in q.next && items[0] in q.prev && q.next[items[0]] == Some(items[1])
    ensures var q' := q.(head := Some(items[1]), prev := q.prev[items[1] := None]);
            IsList(q', items[1..]) && Popped(q', items[1..], items[0])
  {
    NextDrop(q.next, items, 0);
    PrevDrop(q.prev, items, 0);
    DropDistinct(items, 0);
    assert Drop(items, 0) == items[1..];
    assert q.next[items[0]] == Some(items[1]) && q.prev[items[0]] == None && items[1] != items[0];
    hide NextLinked, PrevLinked, Distinct;
  }

  class LruQueue {
    var head: Option<Id>
    var tail: Option<Id>
    var next: map<Id, Option<Id>>
    var prev: map<Id, Option<Id>>

    ghost function View(): Ptrs
      reads this
    {
      Ptrs(head, tail, next, prev)
    }

    /** An empty list, as the static heads and tails start. */
    constructor ()
      ensures IsList(View(), [])
    {
      head, tail, next, prev := None, None, map[], map[];
    }

    /** `do_item_link_q` */
    method LinkQ(it: Id)
      modifies this
      ensures View() == Pushed(old(View()), it)
      ensures forall items :: IsList(old(View()), items) && it !in items ==> IsList(View(), [it] + items)
    {
      forall items | IsList(View(), items) && it !in items
        ensures IsList(Pushed(View(), it), [it] + items)
      {
        PushedLinks(View(), items, it);
      }
      hide IsList;
      prev := prev[it := None];
      next := next[it := head];
      if next[it].Some? {
        prev := prev[next[it].value := Some(it)];
      }
      head := Some(it);
      if tail.None? {
        tail := Some(it);
      }
    }

    /** `do_item_unlink_q` and `do_item_unlinktail_q` */
    method UnlinkQ(it: Id)
      requires it in next && it in prev && next[it] != Some(it) && prev[it] != Some(it)
      modifies this
      ensures View() == Unhooked(old(View()), it)
      ensures forall items, i :: IsList(old(View()), items) && 0 <= i < |items| && items[i] == it ==>
                IsList(View(), Drop(items, i))
      ensures forall items :: IsList(old(View()), items) && Popped(old(View()), items, it) ==> IsList(View(), items)
    {
      hide IsList;
      forall items, i | IsList(View(), items) && 0 <= i < |items| && items[i] == it
        ensures IsList(Unhooked(View(), it), Drop(items, i))
      {
        UnhookedDrops(View(), items, i);
      }
      forall items | IsList(View(), items) && Popped(View(), items, it)
        ensures Unhooked(View(), it) == View()
      {
        UnhookedPopped(View(), items, it);
      }
      if head == Some(it) {
        head := next[it];
      }
      if tail == Some(it) {
        tail := prev[it];
      }
      if next[it].Some? {
        prev := prev[next[it].value := prev[it]];
      }
      if prev[it].Some? {
        next := next[prev[it].value := next[it]];
      }
    }

    /** `do_item_linktail_q` */
    method LinkTailQ(c: Id, ghost items: seq<Id>)
      requires IsList(View(), items) && c !in items
      modifies this
      ensures IsList(View(), items + [c])
    {
      NextPushBack(next, items, c);
      PrevPushBack(prev, items, c);
      hide NextLinked, PrevLinked;
      prev := prev[c := tail];
      next := next[c := None];
      if prev[c].Some? {
        next := next[prev[c].value := Some(c)];
      }
      tail := Some(c);
      if head.None? {
        head := Some(c);
      }
    }

    /** `do_item_crawl_q`: swing over the item before, or pop off at the head. */
    method CrawlQ(c: Id, ghost items: seq<Id>, ghost i: nat) returns (found: Option<Id>)
      requires IsList(View(), items) && i < |items| && items[i] == c
      modifies this
      ensures found == Nth(items, i - 1)
      ensures i > 0 ==> IsList(View(), Swap(items, i))
      ensures i == 0 && |items| == 1 ==> View() == old(View())
      ensures i == 0 && |items| > 1 ==> IsList(View(), items[1..]) && Popped(View(), items[1..], c)
    {
      if i > 0 {
        SwungSwaps(View(), items, i);
      } else if |items| > 1 {
        PopsFirst(View(), items);
      }
      assert c in prev && c in next && prev[c] == Nth(items, i - 1) && next[c] == Nth(items, i + 1);
      hide IsList;
      if prev[c].None? {
        if next[c].Some? {
          head := next[c];
          prev := prev[next[c].value := None];
        }
        return None;
      }
      SwingOver(c);
      return next[c];
    }

    method SwingOver(c: Id)
      requires c in next && c in prev && prev[c].Some? && prev[c].value in prev
      requires var n, p := next[c], prev[c].value; p != c && n != Some(c) && n != Some(p)
      requires var p := prev[c].value; prev[p] != Some(c) && prev[p] != Some(p)
      modifies this
      ensures View() == Swung(old(View()), c)
    {
      var p := prev[c].value;
      if head == Some(p) {
        head := Some(c);
      }
      if tail == Some(c) {
        tail := Some(p);
      }
      if next[c].Some? {
        next := next[p := next[c]];
        prev := prev[next[c].value := Some(p)];
      } else {
        next := next[p := None];
      }
      next := next[c := Some(p)];
      prev := prev[c := prev[p]];
      prev := prev[p := Some(c)];
      if prev[c].Some? {
        next := next[prev[c].value := Some(c)];
      }
    }
  }

  lemma Neighbours(next: map<Id, Option<Id>>, prev: map<Id, Option<Id>>, list: seq<Id>, i: nat)
    requires NextLinked(next, list) && PrevLinked(prev, list) && Distinct(list) && 0 < i < |list|
    ensures list[i] in prev && prev[list[i]] == Some(list[i - 1])
    ensures list[i] in next && next[list[i]] == Nth(list, i + 1)
    ensures list[i - 1] in prev && prev[list[i - 1]] == Nth(list, i - 2)
    ensures list[i - 1] != list[i] && (i > 1 ==> list[i - 2] != list[i] && list[i - 2] != list[i - 1])
    ensures i + 1 < |list| ==> list[i + 1] != list[i] && list[i + 1] != list[i - 1]
    ensures list[0] == list[i - 1] <==> i == 1
    ensures list[|list| - 1] == list[i] <==> i == |list| - 1
  {
  }
}
