/** Every interleaving of workers and the migrating thread looks like a plain map. */
module AssocRuns {
  import opened Prelude
  import opened Arith
  import opened Chains
  import opened Assoc

  /** `lockPower` is the number of low hash bits that name an item lock. */
  datatype Conf = Conf(hash: Key -> nat, lockPower: nat) {
    function LockOf(k: Key): nat {
      hash(k) % Pow2(lockPower)
    }
  }

  /** A worker between its accesses: under a lock, having read the flag, having chosen a bucket. */
  datatype Worker = Idle | Holding(key: Key) | SawExpanding(key: Key) | Chose(key: Key, place: Place)

  datatype Owner = ByWorker(w: nat) | ByMaintenance

  /** The migrating thread: at rest, moving a bucket's items, past the cursor's increment, past the end check. */
  datatype Phase = Resting | Moving(held: nat) | Advanced(held: nat) | Checked(held: nat)

  /** `model` is the map the table stands for. */
  datatype State = State(t: Table, locks: map<nat, Owner>, workers: seq<Worker>, maint: Phase, model: map<Key, Item>)

  datatype Step =
    | Lock(w: nat, k: Key)
    | ReadFlag(w: nat)
    | ReadCursor(w: nat)
    | Find(w: nat)
    | Insert(w: nat, id: nat)
    | Delete(w: nat)
    | Unlock(w: nat)
    | TryLock
    | MoveOne
    | Advance
    | CheckEnd
    | Release
    | Expand

  predicate Enabled(conf: Conf, s: State, step: Step) {
    match step
    case Lock(w, k) => w < |s.workers| && s.workers[w].Idle? && conf.LockOf(k) !in s.locks
    case ReadFlag(w) => w < |s.workers| && s.workers[w].Holding?
    case ReadCursor(w) => w < |s.workers| && s.workers[w].SawExpanding?
    case Find(w) => w < |s.workers| && s.workers[w].Chose?
    case Insert(w, id) => w < |s.workers| && s.workers[w].Chose? && s.workers[w].key !in s.model
    case Delete(w) => w < |s.workers| && s.workers[w].Chose? && s.workers[w].key in s.model
    case Unlock(w) => w < |s.workers| && s.workers[w].Holding?
    case TryLock => s.maint.Resting? && s.t.expanding && s.t.bucket % Pow2(conf.lockPower) !in s.locks
    case MoveOne => s.maint.Moving? && ChainAt(s.t, Old(s.t.bucket)) != []
    case Advance => s.maint.Moving? && ChainAt(s.t, Old(s.t.bucket)) == []
    case CheckEnd => s.maint.Advanced?
    case Release => s.maint.Checked?
    case Expand =>
      s.maint.Resting? && !s.t.expanding && forall w :: 0 <= w < |s.workers| ==> s.workers[w].Idle?
  }

  ghost function Apply(conf: Conf, s: State, step: Step): State
    requires Enabled(conf, s, step)
  {
    match step
    case Lock(w, k) => s.(workers := s.workers[w := Holding(k)], locks := s.locks[conf.LockOf(k) := ByWorker(w)])
    case ReadFlag(w) =>
      var k := s.workers[w].key;
      s.(workers := s.workers[w :=
           if s.t.expanding then SawExpanding(k) else Chose(k, Choice(s.t.power, false, 0, conf.hash(k)))])
    case ReadCursor(w) =>
      var k := s.workers[w].key;
      s.(workers := s.workers[w := Chose(k, Choice(s.t.power, true, s.t.bucket, conf.hash(k)))])
    case Find(w) => s.(workers := s.workers[w := Holding(s.workers[w].key)])
    case Insert(w, id) =>
      var Chose(k, p) := s.workers[w];
      s.(t := InsertAt(s.t, p, Item(k, id)), model := s.model[k := Item(k, id)],
         workers := s.workers[w := Holding(k)])
    case Delete(w) =>
      var Chose(k, p) := s.workers[w];
      s.(t := DeleteAt(s.t, p, k), model := s.model - {k}, workers := s.workers[w := Holding(k)])
    case Unlock(w) =>
      s.(workers := s.workers[w := Idle], locks := s.locks - {conf.LockOf(s.workers[w].key)})
    case TryLock =>
      var held := s.t.bucket % Pow2(conf.lockPower);
      s.(maint := Moving(held), locks := s.locks[held := ByMaintenance])
    case MoveOne => s.(t := Moved(s.t, conf.hash))
    case Advance => s.(t := s.t.(bucket := s.t.bucket + 1), maint := Advanced(s.maint.held))
    case CheckEnd =>
      s.(t := if AtEnd(s.t) then Stopped(s.t) else s.t, maint := Checked(s.maint.held))
    case Release => s.(maint := Resting, locks := s.locks - {s.maint.held})
    case Expand => s.(t := Expanded(s.t))
  }

  predicate AtEnd(t: Table) {
    t.power > 0 && t.bucket == Pow2(t.power - 1)
  }

  // ----- the invariant -----

  ghost predicate Places(t: Table) {
    && t.power > 0
    && (forall p :: p in t.chains <==> IsPlace(t.power, t.expanding, p))
    && (t.expanding ==> t.bucket <= Pow2(t.power - 1))
  }

  /** Where an item with hash value hv may be. */
  predicate Belongs(t: Table, moving: bool, p: Place, hv: nat) {
    match p
    case Primary(i) =>
      && i == hv % Pow2(t.power)
      && (t.expanding ==> OldBucket(t.power, hv) < t.bucket || (moving && OldBucket(t.power, hv) == t.bucket))
    case Old(j) => j == OldBucket(t.power, hv) >= t.bucket
  }

  ghost predicate Filed(hash: Key -> nat, t: Table, moving: bool) {
    forall p, it :: p in t.chains && it in t.chains[p] ==> Belongs(t, moving, p, hash(it.key))
  }

  /** No item is twice in a chain or in two chains. */
  ghost predicate Once(t: Table) {
    Apart(t.chains)
  }

  ghost predicate InTable(t: Table, it: Item) {
    exists p :: p in t.chains && it in t.chains[p]
  }

  /** The chains hold the items of the map and no other. */
  ghost predicate Represents(t: Table, model: map<Key, Item>) {
    && t.items == |model|
    && (forall k :: k in model ==> model[k].key == k)
    && (forall it :: InTable(t, it) <==> it.key in model && model[it.key] == it)
  }

  ghost predicate LocksHeld(conf: Conf, s: State) {
    && (forall w :: 0 <= w < |s.workers| && !s.workers[w].Idle? ==>
          var l := conf.LockOf(s.workers[w].key); l in s.locks && s.locks[l] == ByWorker(w))
    && (!s.maint.Resting? ==> s.maint.held in s.locks && s.locks[s.maint.held] == ByMaintenance)
  }

  /** A worker that chose a bucket chose the right one, and it stays right. */
  ghost predicate ChoicesRight(conf: Conf, s: State) {
    forall w :: 0 <= w < |s.workers| ==>
      && (s.workers[w].Chose? ==> s.workers[w].place == Home(s.t, conf.hash(s.workers[w].key)))
      && (s.workers[w].SawExpanding? ==> s.t.expanding || AtEnd(s.t))
  }

  ghost predicate CursorOk(conf: Conf, s: State) {
    && conf.lockPower < s.t.power
    && (s.maint.Moving? ==>
          s.t.expanding && s.t.bucket < Pow2(s.t.power - 1) && s.maint.held == s.t.bucket % Pow2(conf.lockPower))
    && (s.maint.Advanced? ==> s.t.expanding)
    && ((s.maint.Resting? || s.maint.Checked?) && s.t.expanding ==> s.t.bucket < Pow2(s.t.power - 1))
  }

  ghost predicate Inv(conf: Conf, s: State) {
    && Places(s.t) && Filed(conf.hash, s.t, s.maint.Moving?) && Once(s.t) && Represents(s.t, s.model)
    && LocksHeld(conf, s) && ChoicesRight(conf, s) && CursorOk(conf, s)
  }

  // ----- hash bits -----

  lemma {:induction false} PowSplit(m: nat, n: nat)
    ensures Pow2(m + n) == Pow2(n) * Pow2(m)
  {
    if m > 0 {
      PowSplit(m - 1, n);
    }
  }

  /** The lock of a key is named by bits that also name its old bucket. */
  lemma LockOfBucket(conf: Conf, power: nat, k: Key)
    requires conf.lockPower < power
    ensures OldBucket(power, conf.hash(k)) % Pow2(conf.lockPower) == conf.LockOf(k)
  {
    var n := power - 1 - conf.lockPower;
    PowSplit(conf.lockPower, n);
    ModOfMod(conf.hash(k), Pow2(conf.lockPower), Pow2(n));
  }

  // ----- a worker's key and its bucket -----

  /** While a worker holds a key's lock, the migrating thread is not moving that key's bucket. */
  lemma NotBeingMoved(conf: Conf, s: State, w: nat)
    requires LocksHeld(conf, s) && CursorOk(conf, s) && w < |s.workers| && !s.workers[w].Idle?
    ensures s.maint.Moving? ==> OldBucket(s.t.power, conf.hash(s.workers[w].key)) != s.t.bucket
  {
    LockOfBucket(conf, s.t.power, s.workers[w].key);
  }

  lemma HomeFits(t: Table, moving: bool, hv: nat)
    requires Places(t)
    ensures Home(t, hv) in t.chains && Belongs(t, moving, Home(t, hv), hv)
  {
  }

  /** An item is nowhere but in its key's home, unless its bucket is being moved. */
  lemma OnlyHome(t: Table, moving: bool, p: Place, hv: nat)
    requires Places(t) && p in t.chains && Belongs(t, moving, p, hv)
    requires moving ==> OldBucket(t.power, hv) != t.bucket
    ensures p == Home(t, hv)
  {
  }

  lemma {:induction false} FindInMeans(chain: seq<Item>, k: Key)
    ensures match FindIn(chain, k)
            case Some(it) => it in chain && it.key == k
            case None => forall it :: it in chain ==> it.key != k
  {
    if chain != [] {
      FindInMeans(chain[1..], k);
      assert chain == [chain[0]] + chain[1..];
    }
  }

  /** What a worker finds in the bucket it chose is what the map holds, and the bucket is still allocated. */
  lemma FindAgrees(conf: Conf, s: State, w: nat)
    requires Inv(conf, s) && w < |s.workers| && s.workers[w].Chose?
    ensures var Chose(k, p) := s.workers[w];
            && p in s.t.chains
            && FindIn(s.t.chains[p], k) == (if k in s.model then Some(s.model[k]) else None)
  {
    var Chose(k, p) := s.workers[w];
    HomeFits(s.t, s.maint.Moving?, conf.hash(k));
    FindInMeans(s.t.chains[p], k);
    match FindIn(s.t.chains[p], k)
    case Some(it) => assert InTable(s.t, it);
    case None =>
      if k in s.model {
        KeyIsHome(conf, s, w);
      }
  }

  lemma KeyIsHome(conf: Conf, s: State, w: nat)
    requires Inv(conf, s) && w < |s.workers| && s.workers[w].Chose? && s.workers[w].key in s.model
    ensures var Chose(k, p) := s.workers[w]; p in s.t.chains && s.model[k] in s.t.chains[p]
  {
    var Chose(k, p) := s.workers[w];
    HomeFits(s.t, s.maint.Moving?, conf.hash(k));
    assert InTable(s.t, s.model[k]);
    var q :| q in s.t.chains && s.model[k] in s.t.chains[q];
    NotBeingMoved(conf, s, w);
    OnlyHome(s.t, s.maint.Moving?, q, conf.hash(k));
  }

  lemma {:induction false} WithoutMeans(chain: seq<Item>, k: Key)
    requires Distinct(chain) && forall x, y :: x in chain && y in chain && x.key == k && y.key == k ==> x == y
    ensures Distinct(WithoutKey(chain, k))
    ensures forall x :: x in WithoutKey(chain, k) <==> x in chain && x.key != k
  {
    if chain != [] {
      var rest := chain[1..];
      assert chain == [chain[0]] + rest;
      assert forall i :: 0 <= i < |rest| ==> rest[i] == chain[i + 1];
      assert Distinct(rest) && chain[0] !in rest;
      WithoutMeans(rest, k);
      if chain[0].key != k {
        assert WithoutKey(chain, k) == [chain[0]] + WithoutKey(rest, k);
        hide WithoutKey;
        PushDistinct(WithoutKey(rest, k), chain[0]);
        hide Distinct;
      }
    }
  }

  // ----- what each table change keeps -----

  /** Items may have changed chains, but nothing else has changed. */
  ghost predicate SameFrame(t: Table, t': Table) {
    t'.power == t.power && t'.expanding == t.expanding && t'.bucket == t.bucket && t'.chains.Keys == t.chains.Keys
  }

  /** What changed in the chains is that `it` left chain q, if there is one, and now heads chain p. */
  ghost predicate Rehung(t: Table, t': Table, it: Item, p: Place) {
    && SameFrame(t, t') && p in t.chains
    && t'.chains[p] == [it] + t.chains[p] && it !in t.chains[p]
    && (forall q :: q in t.chains && q != p ==>
          if it in t.chains[q] then t.chains[q] == [it] + t'.chains[q] else t'.chains[q] == t.chains[q])
  }

  lemma PlacesStay(t: Table, t': Table)
    requires Places(t) && SameFrame(t, t')
    ensures Places(t')
  {
    hide IsPlace;
    assert forall p :: p in t'.chains <==> p in t'.chains.Keys;
  }

  lemma RehungFiled(hash: Key -> nat, t: Table, t': Table, moving: bool, it: Item, p: Place)
    requires Filed(hash, t, moving) && Rehung(t, t', it, p) && Belongs(t, moving, p, hash(it.key))
    ensures Filed(hash, t', moving)
  {
    forall q, x | q in t'.chains && x in t'.chains[q]
      ensures Belongs(t', moving, q, hash(x.key))
    {
      assert q in t.chains.Keys;
      if !(q == p && x == it) {
        assert x in t.chains[q];
      }
    }
  }

  lemma RehungTable(t: Table, t': Table, it: Item, p: Place)
    requires Rehung(t, t', it, p)
    ensures forall x :: InTable(t', x) <==> InTable(t, x) || x == it
  {
    assert it in t'.chains[p] && p in t'.chains.Keys;
    forall x
      ensures InTable(t', x) <==> InTable(t, x) || x == it
    {
      if InTable(t, x) && x != it {
        var q :| q in t.chains && x in t.chains[q];
        assert q in t'.chains.Keys && x in t'.chains[q];
      }
      if InTable(t', x) && x != it {
        var q :| q in t'.chains && x in t'.chains[q];
        assert q in t.chains.Keys && x in t.chains[q];
      }
    }
  }

  lemma RehungOnce(t: Table, t': Table, it: Item, p: Place)
    requires Once(t) && Rehung(t, t', it, p)
    ensures Once(t')
  {
    forall q | q in t'.chains
      ensures Distinct(t'.chains[q])
      ensures q != p ==> it !in t'.chains[q]
      ensures forall x :: x in t'.chains[q] && x != it ==> x in t.chains[q]
    {
      assert q in t.chains.Keys;
      RehungDistinct(t.chains[q], t'.chains[q], it);
    }
    hide Rehung, Distinct;
    assert t'.chains.Keys == t.chains.Keys by {
      RehungKeys(t, t', it, p);
    }
  }

  lemma RehungFrame(t: Table, t': Table, it: Item, p: Place)
    requires Rehung(t, t', it, p)
    ensures SameFrame(t, t')
  {
  }

  lemma NewHead(t: Table, it: Item, p: Place)
    requires !InTable(t, it) && p in t.chains
    ensures Rehung(t, InsertAt(t, p, it), it, p)
  {
  }

  lemma RehungKeys(t: Table, t': Table, it: Item, p: Place)
    requires Rehung(t, t', it, p)
    ensures t'.chains.Keys == t.chains.Keys
  {
  }

  lemma RehungDistinct(chain: seq<Item>, chain': seq<Item>, it: Item)
    requires Distinct(chain)
    requires chain' == chain || (chain' == [it] + chain && it !in chain) || chain == [it] + chain'
    ensures Distinct(chain')
    ensures chain == [it] + chain' ==> it !in chain'
  {
    if chain == [it] + chain' {
      assert forall i :: 0 <= i < |chain'| ==> chain'[i] == chain[i + 1];
      assert chain[0] == it;
    }
  }

  lemma InsertKeeps(hash: Key -> nat, t: Table, moving: bool, model: map<Key, Item>, it: Item)
    requires Places(t) && Filed(hash, t, moving) && Once(t) && Represents(t, model) && it.key !in model
    ensures var t' := InsertAt(t, Home(t, hash(it.key)), it);
            Places(t') && Filed(hash, t', moving) && Once(t') && Represents(t', model[it.key := it])
  {
    hide Places, Filed, Once, Home, Belongs, InTable, Rehung, Represents;
    var p := Home(t, hash(it.key));
    var t' := InsertAt(t, p, it);
    HomeFits(t, moving, hash(it.key));
    NotYetIn(t, model, it);
    NewHead(t, it, p);
    RehungFrame(t, t', it, p);
    PlacesStay(t, t');
    RehungFiled(hash, t, t', moving, it, p);
    RehungOnce(t, t', it, p);
    RehungTable(t, t', it, p);
    RepresentsMore(t, t', model, it);
  }

  lemma NotYetIn(t: Table, model: map<Key, Item>, it: Item)
    requires Represents(t, model) && it.key !in model
    ensures !InTable(t, it)
  {
  }

  lemma RepresentsMore(t: Table, t': Table, model: map<Key, Item>, it: Item)
    requires Represents(t, model) && it.key !in model && t'.items == t.items + 1
    requires forall x :: InTable(t', x) <==> InTable(t, x) || x == it
    ensures Represents(t', model[it.key := it])
  {
    hide InTable;
    MapGrows(model, it.key, it);
  }

  /** Chain p without its item of key k. */
  ghost predicate Dropped(t: Table, t': Table, p: Place, k: Key) {
    && SameFrame(t, t') && p in t.chains
    && Distinct(t'.chains[p]) && (forall x :: x in t'.chains[p] <==> x in t.chains[p] && x.key != k)
    && (forall q :: q in t.chains && q != p ==> t'.chains[q] == t.chains[q])
    && (forall q, x :: q in t.chains && x in t.chains[q] && x.key == k ==> q == p)
  }

  lemma DroppedKeeps(hash: Key -> nat, t: Table, t': Table, moving: bool, p: Place, k: Key)
    requires Filed(hash, t, moving) && Once(t) && Dropped(t, t', p, k)
    ensures Filed(hash, t', moving) && Once(t')
  {
    hide Distinct;
    assert forall q, x :: q in t'.chains && x in t'.chains[q] ==> q in t.chains.Keys && x in t.chains[q];
    assert forall q :: q in t'.chains ==> q in t.chains.Keys;
  }

  lemma DroppedTable(t: Table, t': Table, p: Place, k: Key)
    requires Dropped(t, t', p, k)
    ensures forall x :: InTable(t', x) <==> InTable(t, x) && x.key != k
  {
    hide Distinct;
    forall x
      ensures InTable(t', x) <==> InTable(t, x) && x.key != k
    {
      if InTable(t, x) && x.key != k {
        var q :| q in t.chains && x in t.chains[q];
        assert q in t'.chains.Keys && x in t'.chains[q];
      }
      if InTable(t', x) {
        var q :| q in t'.chains && x in t'.chains[q];
        assert q in t.chains.Keys && x in t.chains[q];
      }
    }
  }

  /** The items of key k in the table are one item in one place. */
  lemma OneOfKey(t: Table, model: map<Key, Item>, p: Place, k: Key)
    requires Once(t) && Represents(t, model) && k in model && p in t.chains && model[k] in t.chains[p]
    ensures forall q, x :: q in t.chains && x in t.chains[q] && x.key == k ==> q == p && x == model[k]
  {
    assert forall q, x :: q in t.chains && x in t.chains[q] ==> InTable(t, x);
  }

  lemma DeleteKeeps(hash: Key -> nat, t: Table, moving: bool, model: map<Key, Item>, p: Place, k: Key)
    requires Places(t) && Filed(hash, t, moving) && Once(t) && Represents(t, model)
    requires k in model && p in t.chains && model[k] in t.chains[p]
    ensures var t' := DeleteAt(t, p, k);
            Places(t') && Filed(hash, t', moving) && Once(t') && Represents(t', model - {k})
  {
    hide Places, Filed, Once, InTable, Represents, Dropped, DeleteAt;
    var t' := DeleteAt(t, p, k);
    OneOfKey(t, model, p, k);
    DeleteDrops(t, p, k, model[k]);
    PlacesStay(t, t');
    DroppedKeeps(hash, t, t', moving, p, k);
    DroppedTable(t, t', p, k);
    RepresentsLess(t, t', model, k);
  }

  lemma DeleteDrops(t: Table, p: Place, k: Key, it: Item)
    requires Once(t) && p in t.chains
    requires forall q, x :: q in t.chains && x in t.chains[q] && x.key == k ==> q == p && x == it
    ensures var t' := DeleteAt(t, p, k);
            && Dropped(t, t', p, k) && SameFrame(t, t') && t'.items == if t.items > 0 then t.items - 1 else 0
  {
    hide WithoutKey, Distinct;
    ChainDistinct(t, p);
    WithoutMeans(t.chains[p], k);
  }

  lemma RepresentsLess(t: Table, t': Table, model: map<Key, Item>, k: Key)
    requires Represents(t, model) && k in model && t'.items == if t.items > 0 then t.items - 1 else 0
    requires forall x :: InTable(t', x) <==> InTable(t, x) && x.key != k
    ensures Represents(t', model - {k})
  {
    hide InTable;
    MapShrinks(model, k);
  }

  lemma ChainDistinct(t: Table, p: Place)
    requires Once(t) && p in t.chains
    ensures Distinct(t.chains[p])
  {
  }

  /** Moving one item keeps the map. */
  lemma MovedKeeps(hash: Key -> nat, t: Table, model: map<Key, Item>)
    requires Places(t) && Filed(hash, t, true) && Once(t) && Represents(t, model)
    requires t.expanding && t.bucket < Pow2(t.power - 1) && ChainAt(t, Old(t.bucket)) != []
    ensures var t' := Moved(t, hash);
            Places(t') && Filed(hash, t', true) && Once(t') && Represents(t', model)
  {
    hide Places, Filed, Once, InTable, Belongs, Pow2;
    var t' := Moved(t, hash);
    var it := ChainAt(t, Old(t.bucket))[0];
    var p := Primary(hash(it.key) % Pow2(t.power));
    MovedRehangs(hash, t, it);
    assert InTable(t, it) by {
      AnyInTable(t, Old(t.bucket), it);
    }
    PlacesStay(t, t');
    RehungFiled(hash, t, t', true, it, p);
    RehungOnce(t, t', it, p);
    RehungTable(t, t', it, p);
    hide Rehung;
  }

  lemma AnyInTable(t: Table, p: Place, it: Item)
    requires p in t.chains && it in t.chains[p]
    ensures InTable(t, it)
  {
  }

  lemma MovedRehangs(hash: Key -> nat, t: Table, it: Item)
    requires Places(t) && Filed(hash, t, true) && Once(t)
    requires t.expanding && t.bucket < Pow2(t.power - 1) && ChainAt(t, Old(t.bucket)) != []
    requires it == ChainAt(t, Old(t.bucket))[0]
    ensures var p := Primary(hash(it.key) % Pow2(t.power));
            Rehung(t, Moved(t, hash), it, p) && Belongs(t, true, p, hash(it.key))
  {
    var p := Primary(hash(it.key) % Pow2(t.power));
    assert IsPlace(t.power, true, p);
    assert it in t.chains[Old(t.bucket)];
    assert Belongs(t, true, Old(t.bucket), hash(it.key));
    hide Filed, Places, Distinct, IsPlace;
    var chain := t.chains[Old(t.bucket)];
    assert chain == [it] + chain[1..];
  }

  lemma AdvanceFiles(hash: Key -> nat, t: Table)
    requires Places(t) && Filed(hash, t, true) && Once(t)
    requires t.expanding && t.bucket < Pow2(t.power - 1) && ChainAt(t, Old(t.bucket)) == []
    ensures var t' := t.(bucket := t.bucket + 1); Places(t') && Filed(hash, t', false) && Once(t')
  {
    hide Distinct, Pow2, OldBucket;
  }

  lemma AdvanceKeeps(hash: Key -> nat, t: Table, model: map<Key, Item>)
    requires Places(t) && Filed(hash, t, true) && Once(t) && Represents(t, model)
    requires t.expanding && t.bucket < Pow2(t.power - 1) && ChainAt(t, Old(t.bucket)) == []
    ensures var t' := t.(bucket := t.bucket + 1);
            Places(t') && Filed(hash, t', false) && Once(t') && Represents(t', model)
  {
    hide Places, Filed, Once;
    AdvanceFiles(hash, t);
    assert forall x :: InTable(t.(bucket := t.bucket + 1), x) <==> InTable(t, x);
  }

  /** When the cursor reaches the end the old table is empty. */
  lemma OldTableEmpty(hash: Key -> nat, t: Table)
    requires Places(t) && Filed(hash, t, false) && t.expanding && AtEnd(t)
    ensures forall p :: p in t.chains && p.Old? ==> t.chains[p] == []
  {
    forall p | p in t.chains && p.Old?
      ensures t.chains[p] == []
    {
      assert IsPlace(t.power, t.expanding, p);
      assert t.chains[p] != [] ==> Belongs(t, false, p, hash(t.chains[p][0].key));
    }
  }

  lemma StoppedFiles(hash: Key -> nat, t: Table)
    requires Places(t) && Filed(hash, t, false) && Once(t) && t.expanding && AtEnd(t)
    ensures var t' := Stopped(t); Places(t') && Filed(hash, t', false) && Once(t')
  {
    hide Pow2, Distinct, OldBucket;
  }

  /** So freeing it loses nothing. */
  lemma StoppedKeeps(hash: Key -> nat, t: Table, model: map<Key, Item>)
    requires Places(t) && Filed(hash, t, false) && Once(t) && Represents(t, model)
    requires t.expanding && AtEnd(t)
    ensures var t' := Stopped(t);
            Places(t') && Filed(hash, t', false) && Once(t') && Represents(t', model)
  {
    hide Pow2, Distinct, OldBucket, Places, Filed, Once;
    var t' := Stopped(t);
    StoppedFiles(hash, t);
    OldTableEmpty(hash, t);
    forall x
      ensures InTable(t', x) <==> InTable(t, x)
    {
      if InTable(t, x) {
        var q :| q in t.chains && x in t.chains[q];
        assert x in t'.chains[q];
      }
    }
  }

  /** The main table became the old one, and the new main table is empty. */
  ghost predicate Renamed(t: Table, t': Table) {
    && (forall p :: p in t.chains ==> p.Primary? && Old(p.i) in t'.chains && t'.chains[Old(p.i)] == t.chains[p])
    && (forall p :: p in t'.chains && p.Primary? ==> t'.chains[p] == [])
    && (forall p :: p in t'.chains && p.Old? ==>
          Primary(p.j) in t.chains && t'.chains[p] == t.chains[Primary(p.j)])
  }

  lemma ExpandedRenames(t: Table)
    requires Places(t) && !t.expanding
    ensures Places(Expanded(t)) && Renamed(t, Expanded(t))
  {
  }

  lemma RenamedOnce(t: Table, t': Table)
    requires Once(t) && Renamed(t, t')
    ensures Once(t')
  {
    forall p, q, it | p in t'.chains && q in t'.chains && it in t'.chains[p] && it in t'.chains[q]
      ensures p == q
    {
      assert it in t.chains[Primary(p.j)] && it in t.chains[Primary(q.j)];
    }
  }

  lemma RenamedFiled(hash: Key -> nat, t: Table, t': Table)
    requires Filed(hash, t, false) && Renamed(t, t') && t'.power == t.power + 1 && t'.bucket == 0
    ensures Filed(hash, t', false)
  {
    forall p, it | p in t'.chains && it in t'.chains[p]
      ensures Belongs(t', false, p, hash(it.key))
    {
      assert it in t.chains[Primary(p.j)];
    }
  }

  lemma RenamedTable(t: Table, t': Table)
    requires Renamed(t, t')
    ensures forall x :: InTable(t', x) <==> InTable(t, x)
  {
    forall x
      ensures InTable(t', x) <==> InTable(t, x)
    {
      if InTable(t, x) {
        var q :| q in t.chains && x in t.chains[q];
        assert x in t'.chains[Old(q.i)];
      }
    }
  }

  lemma ExpandedKeeps(hash: Key -> nat, t: Table, model: map<Key, Item>)
    requires Places(t) && Filed(hash, t, false) && Once(t) && Represents(t, model) && !t.expanding
    ensures var t' := Expanded(t);
            Places(t') && Filed(hash, t', false) && Once(t') && Represents(t', model)
  {
    hide Places, Once, Filed, Renamed, InTable;
    ExpandedRenames(t);
    RenamedOnce(t, Expanded(t));
    RenamedFiled(hash, t, Expanded(t));
    RenamedTable(t, Expanded(t));
  }

  // ----- what each step keeps -----

  /** The table part of the invariant. */
  ghost predicate TableInv(conf: Conf, s: State) {
    Places(s.t) && Filed(conf.hash, s.t, s.maint.Moving?) && Once(s.t) && Represents(s.t, s.model)
  }

  lemma TableStep(conf: Conf, s: State, step: Step)
    requires Inv(conf, s) && Enabled(conf, s, step)
    ensures TableInv(conf, Apply(conf, s, step))
  {
    hide Places, Filed, Once, Represents, LocksHeld, ChoicesRight, InsertAt, DeleteAt, Moved, Stopped, Expanded;
    match step {
      case Insert(w, id) =>
        ChoiceRight(conf, s, w);
        InsertKeeps(conf.hash, s.t, s.maint.Moving?, s.model, Item(s.workers[w].key, id));
      case Delete(w) =>
        KeyIsHome(conf, s, w);
        DeleteKeeps(conf.hash, s.t, s.maint.Moving?, s.model, s.workers[w].place, s.workers[w].key);
      case TryLock => StartMoving(conf.hash, s.t);
      case MoveOne => MovedKeeps(conf.hash, s.t, s.model);
      case Advance => AdvanceKeeps(conf.hash, s.t, s.model);
      case CheckEnd =>
        if AtEnd(s.t) {
          StoppedKeeps(conf.hash, s.t, s.model);
        }
      case Expand => ExpandedKeeps(conf.hash, s.t, s.model);
      case _ =>
    }
  }

  lemma StartMoving(hash: Key -> nat, t: Table)
    requires Filed(hash, t, false)
    ensures Filed(hash, t, true)
  {
    hide OldBucket, Pow2;
  }

  lemma ChoiceRight(conf: Conf, s: State, w: nat)
    requires ChoicesRight(conf, s) && w < |s.workers| && s.workers[w].Chose?
    ensures s.workers[w].place == Home(s.t, conf.hash(s.workers[w].key))
  {
  }

  lemma LocksStep(conf: Conf, s: State, step: Step)
    requires LocksHeld(conf, s) && Enabled(conf, s, step)
    ensures LocksHeld(conf, Apply(conf, s, step))
  {
    hide Choice, InsertAt, DeleteAt, Moved, Stopped, Expanded, Pow2;
  }

  lemma CursorStep(conf: Conf, s: State, step: Step)
    requires CursorOk(conf, s) && Places(s.t) && Enabled(conf, s, step)
    ensures CursorOk(conf, Apply(conf, s, step))
  {
    hide Choice, Pow2, ChainAt, IsPlace;
  }

  /** Advancing the cursor or dropping the flag never changes where a key under another lock is looked for. */
  lemma ChoiceStep(conf: Conf, s: State, step: Step)
    requires Inv(conf, s) && Enabled(conf, s, step)
    ensures ChoicesRight(conf, Apply(conf, s, step))
  {
    hide Filed, Once, Represents, LocksHeld, Apply, ChoicesRight, Home, AtEnd, CursorOk, Places;
    var s' := Apply(conf, s, step);
    forall w | 0 <= w < |s'.workers|
      ensures WorkerRight(conf, s'.t, s'.workers[w])
    {
      WorkersStay(conf, s, step);
      ChoicesAt(conf, s, w);
      if !s.workers[w].Idle? {
        NotBeingMoved(conf, s, w);
      }
      ChoiceStays(conf, s, step, w);
    }
    ChoicesAll(conf, s');
  }

  ghost predicate WorkerRight(conf: Conf, t: Table, worker: Worker) {
    && (worker.Chose? ==> worker.place == Home(t, conf.hash(worker.key)))
    && (worker.SawExpanding? ==> t.expanding || AtEnd(t))
  }

  lemma ChoicesAt(conf: Conf, s: State, w: nat)
    requires ChoicesRight(conf, s) && w < |s.workers|
    ensures WorkerRight(conf, s.t, s.workers[w])
  {
  }

  lemma ChoicesAll(conf: Conf, s: State)
    requires forall w :: 0 <= w < |s.workers| ==> WorkerRight(conf, s.t, s.workers[w])
    ensures ChoicesRight(conf, s)
  {
    hide Home, AtEnd;
  }

  lemma WorkersStay(conf: Conf, s: State, step: Step)
    requires Enabled(conf, s, step)
    ensures |Apply(conf, s, step).workers| == |s.workers|
  {
    hide Choice, InsertAt, DeleteAt, Moved, Stopped, Expanded, Pow2, AtEnd;
  }

  /** One worker, one step. */
  lemma ChoiceStays(conf: Conf, s: State, step: Step, w: nat)
    requires Enabled(conf, s, step) && w < |s.workers| && |Apply(conf, s, step).workers| == |s.workers|
    requires WorkerRight(conf, s.t, s.workers[w]) && CursorOk(conf, s) && Places(s.t)
    requires s.maint.Moving? && !s.workers[w].Idle? ==>
               OldBucket(s.t.power, conf.hash(s.workers[w].key)) != s.t.bucket
    ensures var s' := Apply(conf, s, step); WorkerRight(conf, s'.t, s'.workers[w])
  {
    hide Pow2, IsPlace, ChainAt, Conf.LockOf;
    OldBucketFits(s.t.power, conf, s.workers[w]);
  }

  lemma OldBucketFits(power: nat, conf: Conf, worker: Worker)
    ensures !worker.Idle? && power > 0 ==> OldBucket(power, conf.hash(worker.key)) < Pow2(power - 1)
  {
  }

  lemma StepKeeps(conf: Conf, s: State, step: Step)
    requires Inv(conf, s) && Enabled(conf, s, step)
    ensures Inv(conf, Apply(conf, s, step))
  {
    TableStep(conf, s, step);
    LocksStep(conf, s, step);
    CursorStep(conf, s, step);
    ChoiceStep(conf, s, step);
    hide Places, Filed, Once, Represents, LocksHeld, ChoicesRight, CursorOk, Apply;
  }

  // ----- whole runs -----

  ghost function Init(conf: Conf, power: nat, workers: nat): State {
    State(Table(power, false, 0, 0, map p | p in AllPlaces(power) && p.Primary? :: []), map[],
          seq(workers, _ => Idle), Resting, map[])
  }

  /** The start-up check of `memcached_thread_init` demands fewer lock bits than bucket bits. */
  lemma InitInv(conf: Conf, power: nat, workers: nat)
    requires conf.lockPower < power
    ensures Inv(conf, Init(conf, power, workers))
  {
    hide Pow2;
  }

  ghost predicate Run(conf: Conf, s: State, steps: seq<Step>, last: State)
    decreases |steps|
  {
    if steps == [] then last == s
    else Enabled(conf, s, steps[0]) && Run(conf, Apply(conf, s, steps[0]), steps[1..], last)
  }

  lemma {:induction false} RunKeeps(conf: Conf, s: State, steps: seq<Step>, last: State)
    requires Inv(conf, s) && Run(conf, s, steps, last)
    ensures Inv(conf, last)
    decreases |steps|
  {
    if steps != [] {
      StepKeeps(conf, s, steps[0]);
      RunKeeps(conf, Apply(conf, s, steps[0]), steps[1..], last);
    }
  }

  /** After any interleaving, every worker about to use its bucket sees exactly what the map holds for its key. */
  lemma LooksLikeAMap(conf: Conf, power: nat, workers: nat, steps: seq<Step>, last: State, w: nat)
    requires conf.lockPower < power && Run(conf, Init(conf, power, workers), steps, last)
    requires w < |last.workers| && last.workers[w].Chose?
    ensures var Chose(k, p) := last.workers[w];
            && p in last.t.chains
            && FindIn(last.t.chains[p], k) == (if k in last.model then Some(last.model[k]) else None)
    ensures last.t.items == |last.model|
  {
    InitInv(conf, power, workers);
    RunKeeps(conf, Init(conf, power, workers), steps, last);
    FindAgrees(conf, last, w);
  }

  /** The lock that guards a bucket. */
  function PlaceLock(conf: Conf, p: Place): nat {
    (match p case Primary(i) => i case Old(j) => j) % Pow2(conf.lockPower)
  }

  function Actor(step: Step): Owner {
    match step
    case TryLock | MoveOne | Advance | CheckEnd | Release | Expand => ByMaintenance
    case _ => ByWorker(step.w)
  }

  lemma PlaceLocks(conf: Conf, power: nat, k: Key)
    requires conf.lockPower < power
    ensures PlaceLock(conf, Primary(conf.hash(k) % Pow2(power))) == conf.LockOf(k)
    ensures PlaceLock(conf, Old(OldBucket(power, conf.hash(k)))) == conf.LockOf(k)
  {
    LockOfBucket(conf, power, k);
    LockOfBucket(conf, power + 1, k);
  }

  /** A chain changes only by the thread that holds its lock; a whole-table swap, with all workers idle, is exempt. */
  lemma ChangedUnderItsLock(conf: Conf, s: State, step: Step, p: Place)
    requires Inv(conf, s) && Enabled(conf, s, step) && !step.Expand?
    requires p in s.t.chains
    requires var t' := Apply(conf, s, step).t; p in t'.chains && t'.chains[p] != s.t.chains[p]
    ensures PlaceLock(conf, p) in s.locks && s.locks[PlaceLock(conf, p)] == Actor(step)
  {
    hide Once, Represents, Pow2, Places, LocksHeld;
    match step {
      case Insert(w, id) =>
        PlaceLocks(conf, s.t.power, s.workers[w].key);
        HeldByWorker(conf, s, w);
      case Delete(w) =>
        PlaceLocks(conf, s.t.power, s.workers[w].key);
        HeldByWorker(conf, s, w);
      case MoveOne =>
        var it := ChainAt(s.t, Old(s.t.bucket))[0];
        PlaceLocks(conf, s.t.power, it.key);
        MovedFrom(conf.hash, s.t, it);
        HeldByMaintenance(conf, s);
      case _ =>
    }
  }

  lemma HeldByWorker(conf: Conf, s: State, w: nat)
    requires LocksHeld(conf, s) && w < |s.workers| && !s.workers[w].Idle?
    ensures var l := conf.LockOf(s.workers[w].key); l in s.locks && s.locks[l] == ByWorker(w)
  {
  }

  lemma HeldByMaintenance(conf: Conf, s: State)
    requires LocksHeld(conf, s) && !s.maint.Resting?
    ensures s.maint.held in s.locks && s.locks[s.maint.held] == ByMaintenance
  {
  }

  lemma MovedFrom(hash: Key -> nat, t: Table, it: Item)
    requires Filed(hash, t, true) && ChainAt(t, Old(t.bucket)) != [] && it == ChainAt(t, Old(t.bucket))[0]
    ensures OldBucket(t.power, hash(it.key)) == t.bucket
  {
    assert it in t.chains[Old(t.bucket)];
  }

  function Advances(steps: seq<Step>): nat {
    if steps == [] then 0 else (if steps[0].Advance? then 1 else 0) + Advances(steps[1..])
  }

  /** An expansion that has ended took exactly one migration per old bucket, and left no old table. */
  lemma {:induction false} ExpansionLength(conf: Conf, s: State, steps: seq<Step>, last: State)
    requires Inv(conf, s) && s.t.expanding && Run(conf, s, steps, last)
    requires forall i :: 0 <= i < |steps| ==> !steps[i].Expand?
    ensures last.t.power == s.t.power
    ensures last.t.bucket == s.t.bucket + Advances(steps) <= Pow2(last.t.power - 1)
    ensures !last.t.expanding ==> last.t.bucket == Pow2(last.t.power - 1) && forall j :: Old(j) !in last.t.chains
    decreases |steps|
  {
    hide Filed, Once, Represents, LocksHeld, ChoicesRight, Pow2, Choice, ChainAt;
    if steps != [] {
      var s1 := Apply(conf, s, steps[0]);
      StepKeeps(conf, s, steps[0]);
      if s1.t.expanding {
        ExpansionLength(conf, s1, steps[1..], last);
      } else {
        AfterExpansion(conf, s1, steps[1..], last);
      }
    }
  }

  lemma {:induction false} AfterExpansion(conf: Conf, s: State, steps: seq<Step>, last: State)
    requires Inv(conf, s) && !s.t.expanding && Run(conf, s, steps, last)
    requires forall i :: 0 <= i < |steps| ==> !steps[i].Expand?
    ensures Advances(steps) == 0 && last.t.power == s.t.power && last.t.bucket == s.t.bucket && !last.t.expanding
    ensures forall j :: Old(j) !in last.t.chains
    decreases |steps|
  {
    hide Filed, Once, Represents, LocksHeld, ChoicesRight, Pow2, Choice, ChainAt;
    if steps != [] {
      StepKeeps(conf, s, steps[0]);
      AfterExpansion(conf, Apply(conf, s, steps[0]), steps[1..], last);
    }
  }
}
