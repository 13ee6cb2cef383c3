/** A crawl of one LRU list, alone or disturbed by links and unlinks. */
module Crawler {
  import opened Prelude
  import opened LruList

  /**
   * The crawler stands between `ahead`, nearer the head, and `behind`.
   * `plain` is the list as it would be had there never been a crawler.
   */
  datatype State = State(ahead: seq<Id>, behind: seq<Id>, returned: seq<Id>, plain: seq<Id>)

  datatype Step = Link(x: Id) | Unlink(x: Id) | Advance

  /** The list the pointers hold. */
  function ListWith(s: State, c: Id): seq<Id> {
    s.ahead + [c] + s.behind
  }

  predicate Enabled(s: State, c: Id, step: Step) {
    match step
    case Link(x) => x != c && x !in s.ahead && x !in s.behind
    case Unlink(x) => x in s.ahead || x in s.behind
    case Advance => s.ahead != []
  }

  function Apply(s: State, c: Id, step: Step): State
    requires Enabled(s, c, step)
  {
    match step
    case Link(x) => s.(ahead := [x] + s.ahead, plain := [x] + s.plain)
    case Unlink(x) =>
      (if x in s.ahead then s.(ahead := Without(s.ahead, x)) else s.(behind := Without(s.behind, x)))
      .(plain := Without(s.plain, x))
    case Advance =>
      var x := s.ahead[|s.ahead| - 1];
      s.(ahead := s.ahead[..|s.ahead| - 1], behind := [x] + s.behind, returned := s.returned + [x])
  }

  ghost predicate Inv(s: State, c: Id) {
    Distinct(ListWith(s, c)) && s.plain == s.ahead + s.behind
  }

  // ----- each step is what its pointer operation does to the list -----

  lemma {:induction false} WithoutSplit(a: seq<Id>, b: seq<Id>, x: Id)
    ensures Without(a + b, x) == if x in a then Without(a, x) + b else a + Without(b, x)
  {
    if a != [] {
      assert (a + b)[1..] == a[1..] + b;
      WithoutSplit(a[1..], b, x);
      assert a == [a[0]] + a[1..];
    } else {
      assert a + b == b;
    }
  }

  lemma LinkIsPush(s: State, c: Id, x: Id)
    requires Enabled(s, c, Link(x))
    ensures ListWith(Apply(s, c, Link(x)), c) == [x] + ListWith(s, c)
  {
  }

  lemma UnlinkIsWithout(s: State, c: Id, x: Id)
    requires Enabled(s, c, Unlink(x)) && x != c
    ensures ListWith(Apply(s, c, Unlink(x)), c) == Without(ListWith(s, c), x)
  {
    WithoutSplit(s.ahead + [c], s.behind, x);
    WithoutSplit(s.ahead, [c], x);
    assert Without([c], x) == [c];
  }

  lemma AdvanceIsSwap(s: State, c: Id)
    requires Enabled(s, c, Advance)
    ensures ListWith(Apply(s, c, Advance), c) == Swap(ListWith(s, c), |s.ahead|)
  {
  }

  lemma StepKeeps(s: State, c: Id, step: Step)
    requires Inv(s, c) && Enabled(s, c, step)
    ensures Inv(Apply(s, c, step), c)
  {
    var list := ListWith(s, c);
    match step {
      case Link(x) =>
        LinkIsPush(s, c, x);
        PushDistinct(list, x);
      case Unlink(x) =>
        assert x != c by {
          NotTheCrawler(s, c);
        }
        UnlinkIsWithout(s, c, x);
        WithoutPart(list, x);
        WithoutSplit(s.ahead, s.behind, x);
      case Advance =>
        AdvanceIsSwap(s, c);
        SwapDistinct(list, |s.ahead|);
    }
  }

  lemma NotTheCrawler(s: State, c: Id)
    requires Distinct(ListWith(s, c))
    ensures c !in s.ahead && c !in s.behind && forall x :: x in s.ahead ==> x !in s.behind
  {
    var list, n := ListWith(s, c), |s.ahead|;
    assert list[n] == c;
    assert forall i :: 0 <= i < n ==> list[i] == s.ahead[i];
    assert forall j :: 0 <= j < |s.behind| ==> list[n + 1 + j] == s.behind[j];
  }

  // ----- runs -----

  ghost predicate Run(s: State, c: Id, steps: seq<Step>, last: State)
    decreases |steps|
  {
    if steps == [] then last == s
    else Enabled(s, c, steps[0]) && Run(Apply(s, c, steps[0]), c, steps[1..], last)
  }

  lemma {:induction false} RunKeeps(s: State, c: Id, steps: seq<Step>, last: State)
    requires Inv(s, c) && Run(s, c, steps, last)
    ensures Inv(last, c)
    decreases |steps|
  {
    if steps != [] {
      StepKeeps(s, c, steps[0]);
      RunKeeps(Apply(s, c, steps[0]), c, steps[1..], last);
    }
  }

  function Count(list: seq<Id>, x: Id): nat {
    multiset(list)[x]
  }

  ghost predicate Untouched(steps: seq<Step>, x: Id) {
    forall i :: 0 <= i < |steps| ==> steps[i] != Link(x) && steps[i] != Unlink(x)
  }

  /** Ahead of the crawler and not yet returned, or behind it and returned once. */
  ghost predicate Due(s: State, x: Id) {
    || (x in s.ahead && x !in s.behind && Count(s.returned, x) == 0)
    || (x in s.behind && x !in s.ahead && Count(s.returned, x) == 1)
  }

  lemma DueStep(s: State, c: Id, step: Step, x: Id)
    requires Inv(s, c) && Enabled(s, c, step) && Due(s, x) && step != Link(x) && step != Unlink(x)
    ensures Due(Apply(s, c, step), x)
  {
    var s' := Apply(s, c, step);
    match step {
      case Link(y) =>
      case Unlink(y) =>
        Parts(s, c);
        WithoutPart(s.ahead, y);
        WithoutPart(s.behind, y);
      case Advance =>
        Parts(s, c);
        var n := |s.ahead| - 1;
        assert s.ahead == s.ahead[..n] + [s.ahead[n]];
        assert s.ahead[n] !in s.ahead[..n];
    }
  }

  lemma Parts(s: State, c: Id)
    requires Distinct(ListWith(s, c))
    ensures Distinct(s.ahead) && Distinct(s.behind)
  {
    var list, n := ListWith(s, c), |s.ahead|;
    assert forall i :: 0 <= i < n ==> list[i] == s.ahead[i];
    assert forall j :: 0 <= j < |s.behind| ==> list[n + 1 + j] == s.behind[j];
  }

  lemma {:induction false} DueRun(s: State, c: Id, steps: seq<Step>, last: State, x: Id)
    requires Inv(s, c) && Run(s, c, steps, last) && Due(s, x) && Untouched(steps, x)
    ensures Due(last, x)
    decreases |steps|
  {
    if steps != [] {
      DueStep(s, c, steps[0], x);
      StepKeeps(s, c, steps[0]);
      assert Untouched(steps[1..], x) by {
        assert forall i :: 0 <= i < |steps| - 1 ==> steps[1..][i] == steps[i + 1];
      }
      DueRun(Apply(s, c, steps[0]), c, steps[1..], last, x);
    }
  }

  function Start(list: seq<Id>): State {
    State(list, [], [], list)
  }

  /** A crawl that reaches the head has returned every item that stayed exactly once, whatever came and went. */
  lemma EveryItemOnce(list: seq<Id>, c: Id, steps: seq<Step>, last: State, x: Id)
    requires Distinct(list) && c !in list && x in list && Untouched(steps, x)
    requires Run(Start(list), c, steps, last) && last.ahead == []
    ensures Count(last.returned, x) == 1
  {
    assert Inv(Start(list), c) by {
      assert list + [] == list;
    }
    DueRun(Start(list), c, steps, last, x);
  }

  // ----- the same on the pointers -----

  /** A disturbed crawl on its list's pointers, beside the pointers of a list that never had a crawler. */
  datatype Both = Both(s: State, q: Ptrs, alone: Ptrs)

  ghost predicate BothInv(b: Both, c: Id) {
    Inv(b.s, c) && IsList(b.q, ListWith(b.s, c)) && IsList(b.alone, b.s.plain)
  }

  /** Each step does its own pointer operation on both. */
  ghost function ApplyBoth(b: Both, c: Id, step: Step): Both
    requires BothInv(b, c) && Enabled(b.s, c, step)
  {
    hide IsList;
    match step
    case Link(x) => Both(Apply(b.s, c, step), Pushed(b.q, x), Pushed(b.alone, x))
    case Unlink(x) =>
      UnlinkPointers(b, c, x);
      Both(Apply(b.s, c, step), Unhooked(b.q, x), Unhooked(b.alone, x))
    case Advance =>
      AdvancePointers(b, c);
      Both(Apply(b.s, c, step), Swung(b.q, c), b.alone)
  }

  lemma UnlinkPointers(b: Both, c: Id, x: Id)
    requires BothInv(b, c) && Enabled(b.s, c, Unlink(x))
    ensures x in b.q.next && x in b.q.prev && x in b.alone.next && x in b.alone.prev
    ensures var s' := Apply(b.s, c, Unlink(x));
            IsList(Unhooked(b.q, x), ListWith(s', c)) && IsList(Unhooked(b.alone, x), s'.plain)
  {
    hide IsList, Distinct;
    NotTheCrawler(b.s, c);
    UnlinkIsWithout(b.s, c, x);
    UnhookedWithout(b.q, ListWith(b.s, c), x);
    UnhookedWithout(b.alone, b.s.plain, x);
  }

  lemma AdvancePointers(b: Both, c: Id)
    requires BothInv(b, c) && Enabled(b.s, c, Advance)
    ensures c in b.q.next && c in b.q.prev && b.q.prev[c].Some? && b.q.prev[c].value in b.q.prev
    ensures IsList(Swung(b.q, c), ListWith(Apply(b.s, c, Advance), c))
    ensures Swung(b.q, c).next[c] == Some(b.s.ahead[|b.s.ahead| - 1])
  {
    hide IsList, Distinct;
    var n := |b.s.ahead|;
    assert ListWith(b.s, c)[n] == c && ListWith(b.s, c)[n - 1] == b.s.ahead[n - 1];
    SwungSwaps(b.q, ListWith(b.s, c), n);
    AdvanceIsSwap(b.s, c);
  }

  lemma BothKeeps(b: Both, c: Id, step: Step)
    requires BothInv(b, c) && Enabled(b.s, c, step)
    ensures BothInv(ApplyBoth(b, c, step), c)
  {
    hide IsList, Distinct;
    StepKeeps(b.s, c, step);
    match step
    case Link(x) =>
      LinkIsPush(b.s, c, x);
      PushedLinks(b.q, ListWith(b.s, c), x);
      PushedLinks(b.alone, b.s.plain, x);
    case Unlink(x) => UnlinkPointers(b, c, x);
    case Advance => AdvancePointers(b, c);
  }

  ghost predicate RunBoth(b: Both, c: Id, steps: seq<Step>, last: Both)
    requires BothInv(b, c)
    decreases |steps|
  {
    if steps == [] then last == b
    else
      && Enabled(b.s, c, steps[0])
      && (BothKeeps(b, c, steps[0]); RunBoth(ApplyBoth(b, c, steps[0]), c, steps[1..], last))
  }

  lemma {:induction false} RunBothKeeps(b: Both, c: Id, steps: seq<Step>, last: Both)
    requires BothInv(b, c) && RunBoth(b, c, steps, last)
    ensures BothInv(last, c) && Run(b.s, c, steps, last.s)
    decreases |steps|
  {
    hide BothInv;
    if steps != [] {
      BothKeeps(b, c, steps[0]);
      RunBothKeeps(ApplyBoth(b, c, steps[0]), c, steps[1..], last);
    }
  }

  /** The end of a crawl: `do_item_crawl_q` at the head, then `do_item_unlinktail_q`; or the latter anywhere before. */
  function AfterPop(q: Ptrs, c: Id): Ptrs
    requires c in q.next
  {
    if q.next[c].Some? then q.(head := q.next[c], prev := q.prev[q.next[c].value := None]) else q
  }

  lemma EndsAnywhere(q: Ptrs, s: State, c: Id)
    requires Inv(s, c) && IsList(q, ListWith(s, c))
    ensures c in q.next && c in q.prev && IsList(Unhooked(q, c), s.plain)
  {
    hide IsList, Distinct;
    var n := |s.ahead|;
    assert ListWith(s, c)[n] == c && Drop(ListWith(s, c), n) == s.plain;
    UnhookedDrops(q, ListWith(s, c), n);
  }

  lemma EndsAtHead(q: Ptrs, s: State, c: Id)
    requires Inv(s, c) && IsList(q, ListWith(s, c)) && s.ahead == []
    ensures c in q.next && c in q.prev && c in AfterPop(q, c).next && c in AfterPop(q, c).prev
    ensures IsList(Unhooked(AfterPop(q, c), c), s.plain)
  {
    var list := ListWith(s, c);
    assert list[0] == c && list[1..] == s.behind == s.plain;
    if s.behind == [] {
      EndsAnywhere(q, s, c);
      assert q.next[c] == Nth(list, 1);
    } else {
      PopsFirst(q, list);
      hide IsList;
      UnhookedPopped(AfterPop(q, c), s.plain, c);
    }
  }

  /** A list with the crawler linked at its tail, and the same list without it. */
  ghost function Begin(list: seq<Id>, c: Id, q: Ptrs, alone: Ptrs): (b: Both)
    requires c !in list && IsList(q, list + [c]) && IsList(alone, list)
    ensures BothInv(b, c)
  {
    assert list + [] == list && list + [c] + [] == list + [c];
    Both(Start(list), q, alone)
  }

  /** Head, tail and the pointers of every item are the same. */
  ghost predicate Agree(q: Ptrs, q': Ptrs, items: seq<Id>) {
    && q.head == q'.head && q.tail == q'.tail
    && forall x :: x in items ==>
         && x in q.next && x in q'.next && q.next[x] == q'.next[x]
         && x in q.prev && x in q'.prev && q.prev[x] == q'.prev[x]
  }

  /**
   * From link-tail on, through any links, unlinks and crawl steps, to the crawler's removal at the head or anywhere
   * before: head, tail and every item's pointers are what they would be had there never been a crawler.
   */
  lemma PointersTransparent(list: seq<Id>, c: Id, q: Ptrs, alone: Ptrs, steps: seq<Step>, last: Both)
    requires c !in list && IsList(q, list + [c]) && IsList(alone, list)
    requires RunBoth(Begin(list, c, q, alone), c, steps, last)
    ensures IsList(last.alone, last.s.plain) && c in last.q.next && c in last.q.prev
    ensures Agree(Unhooked(last.q, c), last.alone, last.s.plain)
    ensures last.q.prev[c] == None ==>
              && c in AfterPop(last.q, c).prev && c in AfterPop(last.q, c).next
              && Agree(Unhooked(AfterPop(last.q, c), c), last.alone, last.s.plain)
  {
    hide IsList, Distinct;
    RunBothKeeps(Begin(list, c, q, alone), c, steps, last);
    AtHead(last, c);
    EndsAnywhere(last.q, last.s, c);
    SamePointers(Unhooked(last.q, c), last.alone, last.s.plain);
    if last.q.prev[c] == None {
      EndsAtHead(last.q, last.s, c);
      SamePointers(Unhooked(AfterPop(last.q, c), c), last.alone, last.s.plain);
    }
  }

  /** The crawl has reached the head when the crawler has no predecessor. */
  lemma AtHead(b: Both, c: Id)
    requires BothInv(b, c)
    ensures c in b.q.prev && (b.q.prev[c] == None <==> b.s.ahead == [])
  {
    assert ListWith(b.s, c)[|b.s.ahead|] == c;
    PrevAt(b.q.prev, ListWith(b.s, c), |b.s.ahead|);
  }

  /** On the pointers too: when the crawl reaches the head, every item that stayed in place was returned once. */
  lemma PointersEveryItemOnce(list: seq<Id>, c: Id, q: Ptrs, alone: Ptrs, steps: seq<Step>, last: Both, x: Id)
    requires c !in list && IsList(q, list + [c]) && IsList(alone, list)
    requires RunBoth(Begin(list, c, q, alone), c, steps, last) && x in list && Untouched(steps, x)
    ensures c in last.q.prev && (last.q.prev[c] == None ==> Count(last.s.returned, x) == 1)
  {
    RunBothKeeps(Begin(list, c, q, alone), c, steps, last);
    AtHead(last, c);
    assert Distinct(list);
    hide IsList, Distinct;
    if last.s.ahead == [] {
      EveryItemOnce(list, c, steps, last.s, x);
    }
  }

  // ----- an undisturbed crawl, on the pointers -----

  function Reversed(list: seq<Id>): (r: seq<Id>)
    ensures |r| == |list|
  {
    if list == [] then [] else Reversed(list[1..]) + [list[0]]
  }

  lemma {:induction false} ReversedSuffix(list: seq<Id>, k: nat)
    requires k < |list|
    ensures Reversed(list[k..]) == Reversed(list[k + 1..]) + [list[k]]
  {
    assert list[k..][1..] == list[k + 1..];
  }

  /** From link-tail to unlink-tail: every item from tail to head, and the list as it was. */
  method CrawlAll(q: LruQueue, c: Id, ghost list: seq<Id>) returns (seen: seq<Id>)
    requires IsList(q.View(), list) && c !in list
    modifies q
    ensures seen == Reversed(list)
    ensures IsList(q.View(), list)
  {
    hide IsList, Popped;
    q.LinkTailQ(c, list);
    seen := [];
    ghost var k := |list|;
    ghost var items := list + [c];
    assert items == list[..k] + [c] + list[k..] && list[k..] == [];
    while true
      invariant k <= |list| && items == list[..k] + [c] + list[k..]
      invariant IsList(q.View(), items) && seen == Reversed(list[k..])
      decreases k
    {
      var found := q.CrawlQ(c, items, k);
      if found.None? {
        break;
      }
      seen := seen + [found.value];
      ReversedSuffix(list, k - 1);
      assert Swap(items, k) == list[..k - 1] + [c] + list[k - 1..];
      k := k - 1;
      items := list[..k] + [c] + list[k..];
    }
    assert list[0..] == list;
    if |list| == 0 {
      ListNeighbours(q.View(), items, 0);
      assert Drop(items, 0) == list;
    } else {
      assert items[1..] == list;
      PoppedNeighbours(q.View(), list, c);
    }
    q.UnlinkQ(c);
  }

  lemma ListNeighbours(q: Ptrs, items: seq<Id>, i: nat)
    requires IsList(q, items) && i < |items|
    ensures items[i] in q.next && items[i] in q.prev
    ensures q.next[items[i]] != Some(items[i]) && q.prev[items[i]] != Some(items[i])
  {
  }

  lemma PoppedNeighbours(q: Ptrs, items: seq<Id>, c: Id)
    requires IsList(q, items) && Popped(q, items, c)
    ensures c in q.next && c in q.prev && q.next[c] != Some(c) && q.prev[c] != Some(c)
  {
    assert items[0] in items;
  }
}
