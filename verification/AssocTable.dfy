/** The hash table's own code: bucket heads and h_next pointers, each operation equal to its machine function. */
module AssocTable {
  import opened Prelude
  import opened Arith
  import opened Chains
  import opened Assoc
  import opened AssocRuns

  lemma OnceApart(t: Table)
    requires Once(t)
    ensures Apart(t.chains)
  {
  }

  /** Items of other keys at the front of a chain do not matter. */
  lemma {:induction false} FindSplit(chain: seq<Item>, k: Key, i: nat)
    requires i <= |chain| && forall j :: 0 <= j < i ==> chain[j].key != k
    ensures FindIn(chain, k) == FindIn(chain[i..], k)
    ensures WithoutKey(chain, k) == chain[..i] + WithoutKey(chain[i..], k)
  {
    if i == 0 {
      assert chain[0..] == chain;
    } else {
      FindSplit(chain, k, i - 1);
      FindSkips(chain, k, i - 1);
      hide FindIn, WithoutKey;
      assert chain[..i - 1] + ([chain[i - 1]] + WithoutKey(chain[i..], k)) == chain[..i] + WithoutKey(chain[i..], k);
    }
  }

  lemma FindSkips(chain: seq<Item>, k: Key, i: nat)
    requires i < |chain| && chain[i].key != k
    ensures FindIn(chain[i..], k) == FindIn(chain[i + 1..], k)
    ensures WithoutKey(chain[i..], k) == [chain[i]] + WithoutKey(chain[i + 1..], k)
  {
    assert chain[i..][1..] == chain[i + 1..];
  }

  /** The migration of one bucket: all its items move, the cursor advances, and the last one frees the old table. */
  ghost function MovedAll(t: Table, hash: Key -> nat): Table
    decreases |ChainAt(t, Old(t.bucket))|
  {
    if ChainAt(t, Old(t.bucket)) == [] then t else MovedAll(Moved(t, hash), hash)
  }

  ghost function Migrated(t: Table, hash: Key -> nat): Table {
    var t1 := MovedAll(t, hash);
    var t2 := t1.(bucket := t1.bucket + 1);
    if AtEnd(t2) then Stopped(t2) else t2
  }

  lemma {:induction false} MovedAllKeeps(hash: Key -> nat, t: Table, model: map<Key, Item>)
    requires Places(t) && Filed(hash, t, true) && Once(t) && Represents(t, model)
    requires t.expanding && t.bucket < Pow2(t.power - 1)
    ensures var t' := MovedAll(t, hash);
            && Places(t') && Filed(hash, t', true) && Once(t') && Represents(t', model)
            && t'.expanding && t'.bucket == t.bucket && t'.power == t.power && ChainAt(t', Old(t.bucket)) == []
    decreases |ChainAt(t, Old(t.bucket))|
  {
    hide Places, Filed, Once, Represents, Pow2;
    if ChainAt(t, Old(t.bucket)) != [] {
      MovedKeeps(hash, t, model);
      MovedAllKeeps(hash, Moved(t, hash), model);
    }
  }

  /** Migrating a bucket leaves the map as it was. */
  lemma MigratedKeeps(hash: Key -> nat, t: Table, model: map<Key, Item>)
    requires Places(t) && Filed(hash, t, false) && Once(t) && Represents(t, model)
    requires t.expanding && t.bucket < Pow2(t.power - 1)
    ensures var t' := Migrated(t, hash);
            && Places(t') && Filed(hash, t', false) && Once(t') && Represents(t', model)
            && t'.bucket == t.bucket + 1 && t'.power == t.power
            && (t'.expanding <==> t'.bucket < Pow2(t.power - 1))
  {
    hide Places, Filed, Once, Represents, Pow2, MovedAll;
    StartMoving(hash, t);
    MovedAllKeeps(hash, t, model);
    var t1 := MovedAll(t, hash);
    AdvanceKeeps(hash, t1, model);
    var t2 := t1.(bucket := t1.bucket + 1);
    if AtEnd(t2) {
      StoppedKeeps(hash, t2, model);
    }
    CursorInside(t2);
  }

  lemma CursorInside(t: Table)
    requires Places(t) && t.expanding
    ensures t.power > 0 && t.bucket <= Pow2(t.power - 1)
  {
  }

  /** Lists, except that the chain at `out` hangs from `it` and not from its bucket. */
  ghost predicate ListsBut(hNext: map<Item, Option<Item>>, heads: map<Place, Option<Item>>,
                           chains: map<Place, seq<Item>>, out: Place, it: Option<Item>)
  {
    && heads.Keys == chains.Keys && out in chains && Leads(hNext, it, chains[out])
    && forall p :: p in chains && p != out ==> Leads(hNext, heads[p], chains[p])
  }

  lemma MoveLists(hNext: map<Item, Option<Item>>, heads: map<Place, Option<Item>>, t: Table, out: Place, p: Place,
                  it: Item)
    requires ListsBut(hNext, heads, t.chains, out, Some(it)) && Once(t) && p in t.chains && p != out
    ensures it in hNext && t.chains[out] != [] && t.chains[out][0] == it
    ensures ListsBut(hNext[it := heads[p]], heads[p := Some(it)],
                     t.chains[out := t.chains[out][1..]][p := [it] + t.chains[p]], out, hNext[it])
  {
    var chain := t.chains[out];
    LeadsPop(hNext, it, chain);
    OnceApart(t);
    OnlyIn(t.chains, out, it);
    hide Once, Leads, Distinct, Apart;
    LeadsFrame(hNext, hNext[it], chain[1..], it, heads[p]);
    LeadsPush(hNext, heads[p], t.chains[p], it);
    ListsFrame(hNext, heads, t.chains, out, it, heads[p]);
  }

  class HashTable {
    const hash: Key -> nat
    var power: nat
    var expanding: bool
    var bucket: nat
    var items: nat
    var heads: map<Place, Option<Item>>
    var hNext: map<Item, Option<Item>>
    ghost var chains: map<Place, seq<Item>>

    ghost function View(): Table
      reads this
    {
      Table(power, expanding, bucket, items, chains)
    }

    ghost predicate Valid()
      reads this
    {
      Places(View()) && Once(View()) && Lists(hNext, heads, chains)
    }

    /** `assoc_init` */
    constructor (hash: Key -> nat, hashpower: nat)
      requires hashpower > 0
      ensures Valid() && this.hash == hash && power == hashpower && !expanding && items == 0
      ensures Filed(hash, View(), false) && Represents(View(), map[])
    {
      this.hash := hash;
      power, expanding, bucket, items := hashpower, false, 0, 0;
      heads := map i: nat | i < Pow2(hashpower) :: Primary(i) := None;
      hNext := map[];
      chains := map i: nat | i < Pow2(hashpower) :: Primary(i) := [];
    }

    /** `assoc_find` */
    method Find(key: Key) returns (r: Option<Item>)
      requires Valid()
      ensures r == FindIn(ChainAt(View(), Home(View(), hash(key))), key)
    {
      var p := Choice(power, expanding, bucket, hash(key));
      HomeFits(View(), false, hash(key));
      ghost var chain := chains[p];
      ghost var i := 0;
      var it := heads[p];
      while it.Some? && it.value.key != key
        invariant i <= |chain| && it == Nth(chain, i)
        invariant forall j :: 0 <= j < i ==> chain[j].key != key
        decreases |chain| - i
      {
        it := hNext[it.value];
        i := i + 1;
      }
      FindSplit(chain, key, i);
      return it;
    }

    /** `assoc_insert` */
    method Insert(it: Item)
      requires Valid() && !InTable(View(), it)
      modifies this
      ensures View() == InsertAt(old(View()), Home(old(View()), hash(it.key)), it)
      ensures Valid()
    {
      hide Once, Lists, Distinct;
      var p := Choice(power, expanding, bucket, hash(it.key));
      HomeFits(View(), false, hash(it.key));
      ListsPush(hNext, heads, chains, p, it);
      NewHead(View(), it, p);
      RehungOnce(View(), InsertAt(View(), p, it), it, p);
      PlacesStay(View(), InsertAt(View(), p, it));
      ListsKeys(hNext, heads, chains);
      hNext := hNext[it := heads[p]];
      heads := heads[p := Some(it)];
      chains := chains[p := [it] + chains[p]];
      items := items + 1;
    }

    /** `_hashitem_before`: the item with this key in bucket p, and the one before it if it is not the first. */
    method HashItemBefore(p: Place, key: Key) returns (before: Option<Item>, pos: Option<Item>, ghost i: nat)
      requires p in heads && p in chains && Leads(hNext, heads[p], chains[p])
      ensures pos == FindIn(chains[p], key)
      ensures pos == Nth(chains[p], i)
      ensures before == if i == 0 then None else Nth(chains[p], i - 1)
      ensures pos.Some? ==> WithoutKey(chains[p], key) == chains[p][..i] + chains[p][i + 1..]
    {
      ghost var chain := chains[p];
      i := 0;
      before, pos := None, heads[p];
      while pos.Some? && pos.value.key != key
        invariant i <= |chain| && pos == Nth(chain, i)
        invariant before == if i == 0 then None else Nth(chain, i - 1)
        invariant forall j :: 0 <= j < i ==> chain[j].key != key
        decreases |chain| - i
      {
        before, pos := pos, hNext[pos.value];
        i := i + 1;
      }
      FindSplit(chain, key, i);
    }

    /** `assoc_delete`; its callers only delete what they have found */
    method Delete(key: Key)
      requires Valid() && FindIn(ChainAt(View(), Home(View(), hash(key))), key).Some?
      modifies this
      ensures View() == DeleteAt(old(View()), Home(old(View()), hash(key)), key)
      ensures Valid()
    {
      hide Once, Lists, Leads, WithoutKey, FindIn, Places;
      var p := Choice(power, expanding, bucket, hash(key));
      HomeFits(View(), false, hash(key));
      ListsAt(hNext, heads, chains, p);
      ghost var t := View();
      var before, pos, i := HashItemBefore(p, key);
      OnceApart(t);
      Unhooking(hNext, heads, t.chains, p, i);
      ghost var heads0 := heads;
      var nxt := hNext[pos.value];
      hNext := hNext[pos.value := None];
      if before.None? {
        heads := heads[p := nxt];
      } else {
        hNext := hNext[before.value := nxt];
      }
      items := if items > 0 then items - 1 else 0;
      chains := chains[p := chains[p][..i] + chains[p][i + 1..]];
      assert heads == heads0[p := heads[p]];
      DroppedOnce(t, View(), p, i);
      PlacesStay(t, View());
    }

    /** The maintenance thread's inner loop: the bucket's items are pushed one by one onto their new chains. */
    method MoveBucket()
      requires MidMove(hash, View()) && Lists(hNext, heads, chains)
      modifies this`heads, this`hNext, this`chains
      ensures MidMove(hash, View()) && ChainAt(View(), Old(bucket)) == []
      ensures ListsBut(hNext, heads, chains, Old(bucket), None)
      ensures View() == MovedAll(old(View()), hash)
    {
      hide MidMove, Lists, ListsBut, Leads;
      ghost var t0 := View();
      var out := Old(bucket);
      MidMoveCursor(hash, t0);
      ListsAt(hNext, heads, chains, out);
      var it := heads[out];
      ListsOut(hNext, heads, chains, out);
      while it.Some?
        invariant MidMove(hash, View()) && ListsBut(hNext, heads, chains, out, it)
        invariant MovedAll(View(), hash) == MovedAll(t0, hash)
        decreases |ChainAt(View(), out)|
      {
        ghost var t := View();
        var p := Primary(hash(it.value.key) % Pow2(power));
        ListsButAt(hNext, heads, chains, out, it);
        MidMoveStep(hash, t, it.value);
        MoveLists(hNext, heads, t, out, p, it.value);
        var next := hNext[it.value];
        hNext := hNext[it.value := heads[p]];
        heads := heads[p := it];
        chains := Moved(t, hash).chains;
        it := next;
      }
      ListsButAt(hNext, heads, chains, out, it);
    }

    /** The whole migration of a bucket, with its item lock held. */
    method MigrateBucket()
      requires Valid() && Filed(hash, View(), false) && expanding && bucket < Pow2(power - 1)
      modifies this
      ensures View() == Migrated(old(View()), hash)
      ensures Valid() && Filed(hash, View(), false)
    {
      hide Places, Once, Lists, ListsBut, Filed, Pow2, MovedAll, MidMove;
      StartMoving(hash, View());
      MidMoveStart(hash, View());
      MoveBucket();
      ListsBack(hNext, heads, chains, Old(bucket));
      heads := heads[Old(bucket) := None];
      MidMoveEnd(hash, View());
      AdvanceFiles(hash, View());
      bucket := bucket + 1;
      if bucket == Pow2(power - 1) {
        StoppedFiles(hash, View());
        expanding := false;
        ListsStopped(hNext, heads, chains);
        heads := map p | p in heads && p.Primary? :: heads[p];
        chains := map p | p in chains && p.Primary? :: chains[p];
      }
    }

    /** `assoc_expand`, when the new table could be allocated */
    method Expand()
      requires Valid() && Filed(hash, View(), false) && !expanding
      modifies this
      ensures View() == Expanded(old(View()))
      ensures Valid() && Filed(hash, View(), false)
    {
      hide Places, Once, Filed, Lists, Renamed, Pow2, SwappedHeads;
      ghost var t := View();
      ExpandedRenames(t);
      RenamedOnce(t, Expanded(t));
      RenamedFiled(hash, t, Expanded(t));
      ListsRenamed(hNext, heads, t);
      heads := SwappedHeads(power, heads);
      power, expanding, bucket := power + 1, true, 0;
      chains := Expanded(t).chains;
    }

    /** The maintenance thread's loop, from the start of an expansion to its end. */
    method RunExpansion(ghost model: map<Key, Item>) returns (migrations: nat)
      requires Valid() && Filed(hash, View(), false) && Represents(View(), model) && !expanding
      modifies this
      ensures Valid() && Filed(hash, View(), false) && Represents(View(), model)
      ensures !expanding && power == old(power) + 1 && migrations == Pow2(power - 1)
    {
      hide Lists, Once, Filed, Represents, Pow2, Migrated, Expanded, Places;
      ExpandedKeeps(hash, View(), model);
      ExpandedCursor(View());
      Expand();
      migrations := 0;
      while expanding
        invariant Valid() && Filed(hash, View(), false) && Represents(View(), model)
        invariant power == old(power) + 1 && migrations == bucket <= Pow2(power - 1)
        invariant expanding <==> bucket < Pow2(power - 1)
        decreases Pow2(power - 1) - bucket
      {
        MigratedKeeps(hash, View(), model);
        MigrateBucket();
        migrations := migrations + 1;
      }
    }
  }

  lemma ExpandedCursor(t: Table)
    ensures var t' := Expanded(t); t'.power == t.power + 1 && t'.expanding && t'.bucket == 0 < Pow2(t.power)
  {
  }

  /** The bucket heads after the tables are swapped: a fresh main table, and the former one as the old. */
  function SwappedHeads(power: nat, heads: map<Place, Option<Item>>): (r: map<Place, Option<Item>>)
    ensures forall p :: p in r <==>
              if p.Primary? then p.i < Pow2(power + 1) else Primary(p.j) in heads
    ensures forall p :: p in r ==> r[p] == if p.Primary? then None else heads[Primary(p.j)]
  {
    (map i: nat | i < Pow2(power + 1) :: Primary(i) := None)
    + (map p | p in heads && p.Primary? :: Old(p.i) := heads[p])
  }

  lemma ListsRenamed(hNext: map<Item, Option<Item>>, heads: map<Place, Option<Item>>, t: Table)
    requires Places(t) && Lists(hNext, heads, t.chains) && !t.expanding
    ensures Lists(hNext, SwappedHeads(t.power, heads), Expanded(t).chains)
  {
    var heads', chains' := SwappedHeads(t.power, heads), Expanded(t).chains;
    ExpandedRenames(t);
    ExpandedKeys(t);
    ListsKeys(hNext, heads, t.chains);
    hide SwappedHeads, Expanded, Lists, Pow2;
    forall p: Place
      ensures p in heads' <==> p in chains'
    {
      assert p.Old? ==> (Primary(p.j) in heads <==> Primary(p.j) in t.chains.Keys);
    }
    ListsSwapped(hNext, heads, t.chains, heads', chains');
  }

  lemma ExpandedKeys(t: Table)
    requires Places(t) && !t.expanding
    ensures forall p :: p in Expanded(t).chains <==> IsPlace(t.power + 1, true, p)
  {
    ExpandedRenames(t);
  }

  lemma ListsSwapped(hNext: map<Item, Option<Item>>, heads: map<Place, Option<Item>>, chains: map<Place, seq<Item>>,
                     heads': map<Place, Option<Item>>, chains': map<Place, seq<Item>>)
    requires Lists(hNext, heads, chains) && forall p :: p in heads' <==> p in chains'
    requires forall p :: p in chains' && p.Primary? ==> heads'[p] == None && chains'[p] == []
    requires forall p :: p in chains' && p.Old? ==>
               && Primary(p.j) in chains && Primary(p.j) in heads
               && heads'[p] == heads[Primary(p.j)] && chains'[p] == chains[Primary(p.j)]
    ensures Lists(hNext, heads', chains')
  {
    LeadsNone(hNext);
    hide Leads;
  }

  /** A table whose cursor bucket is being moved. */
  ghost predicate MidMove(hash: Key -> nat, t: Table) {
    Places(t) && Once(t) && Filed(hash, t, true) && t.expanding && t.bucket < Pow2(t.power - 1)
  }

  lemma MidMoveStart(hash: Key -> nat, t: Table)
    requires Places(t) && Once(t) && Filed(hash, t, true) && t.expanding && t.bucket < Pow2(t.power - 1)
    ensures MidMove(hash, t)
  {
  }

  lemma MidMoveEnd(hash: Key -> nat, t: Table)
    requires MidMove(hash, t)
    ensures Places(t) && Once(t) && Filed(hash, t, true) && t.expanding && t.power > 0 && t.bucket < Pow2(t.power - 1)
  {
  }

  lemma MidMoveCursor(hash: Key -> nat, t: Table)
    requires MidMove(hash, t)
    ensures Old(t.bucket) in t.chains
  {
  }

  lemma MidMoveStep(hash: Key -> nat, t: Table, it: Item)
    requires MidMove(hash, t) && ChainAt(t, Old(t.bucket)) != [] && it == ChainAt(t, Old(t.bucket))[0]
    ensures MidMove(hash, Moved(t, hash)) && Once(t) && Primary(hash(it.key) % Pow2(t.power)) in t.chains
  {
    hide Places, Once, Filed, Pow2, Rehung;
    var p, t' := Primary(hash(it.key) % Pow2(t.power)), Moved(t, hash);
    MovedRehangs(hash, t, it);
    RehungFrame(t, t', it, p);
    PlacesStay(t, t');
    RehungFiled(hash, t, t', true, it, p);
    RehungOnce(t, t', it, p);
    RehungTo(t, t', it, p);
  }

  lemma RehungTo(t: Table, t': Table, it: Item, p: Place)
    requires Rehung(t, t', it, p)
    ensures p in t.chains
  {
  }

  lemma ListsOut(hNext: map<Item, Option<Item>>, heads: map<Place, Option<Item>>, chains: map<Place, seq<Item>>,
                 out: Place)
    requires Lists(hNext, heads, chains) && out in chains && out in heads
    ensures ListsBut(hNext, heads, chains, out, heads[out])
  {
  }

  lemma ListsButAt(hNext: map<Item, Option<Item>>, heads: map<Place, Option<Item>>, chains: map<Place, seq<Item>>,
                   out: Place, it: Option<Item>)
    requires ListsBut(hNext, heads, chains, out, it)
    ensures heads.Keys == chains.Keys && out in chains && it == Nth(chains[out], 0)
  {
  }

  lemma ListsBack(hNext: map<Item, Option<Item>>, heads: map<Place, Option<Item>>, chains: map<Place, seq<Item>>,
                  out: Place)
    requires ListsBut(hNext, heads, chains, out, None)
    ensures Lists(hNext, heads[out := None], chains)
  {
  }

  lemma ListsStopped(hNext: map<Item, Option<Item>>, heads: map<Place, Option<Item>>, chains: map<Place, seq<Item>>)
    requires Lists(hNext, heads, chains)
    ensures heads.Keys == chains.Keys
    ensures Lists(hNext, map p | p in heads && p.Primary? :: heads[p], map p | p in chains && p.Primary? :: chains[p])
  {
  }

  lemma DroppedOnce(t: Table, t': Table, p: Place, i: nat)
    requires Once(t) && p in t.chains && i < |t.chains[p]|
    requires t'.chains == t.chains[p := t.chains[p][..i] + t.chains[p][i + 1..]]
    ensures Once(t')
  {
    var chain := t.chains[p];
    var rest := t'.chains[p];
    assert forall k :: 0 <= k < |rest| ==> rest[k] == chain[if k < i then k else k + 1];
    assert Distinct(rest);
    assert forall x :: x in rest ==> x in chain;
    hide Distinct;
  }
}
