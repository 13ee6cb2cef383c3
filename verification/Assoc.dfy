/** The hash table as a machine: workers under item locks, and a thread that migrates one item at a time. */
module Assoc {
  import opened Prelude
  import opened Arith

  type Key = seq<nat>

  /** An item's key and its address. */
  datatype Item = Item(key: Key, id: nat)

  /** A bucket of the main table, or of the table being migrated away from. */
  datatype Place = Primary(i: nat) | Old(j: nat)

  /** `chains` holds each bucket's h_next chain, first item first; buckets of a freed table are not in it. */
  datatype Table = Table(power: nat, expanding: bool, bucket: nat, items: nat, chains: map<Place, seq<Item>>)

  /** The old table's bucket for a hash value; hashsize(n) is Pow2(n). */
  function OldBucket(power: nat, hv: nat): nat {
    hv % Pow2(if power == 0 then 0 else power - 1)
  }

  /** Where every table operation looks, given the expansion flag and cursor it read. */
  function Choice(power: nat, expanding: bool, bucket: nat, hv: nat): Place {
    if expanding && OldBucket(power, hv) >= bucket then Old(OldBucket(power, hv)) else Primary(hv % Pow2(power))
  }

  function Home(t: Table, hv: nat): Place {
    Choice(t.power, t.expanding, t.bucket, hv)
  }

  function ChainAt(t: Table, p: Place): seq<Item> {
    if p in t.chains then t.chains[p] else []
  }

  /** The first item of a chain with this key. */
  function FindIn(chain: seq<Item>, k: Key): Option<Item> {
    if chain == [] then None
    else if chain[0].key == k then Some(chain[0])
    else FindIn(chain[1..], k)
  }

  /** The chain without its first item with this key. */
  function WithoutKey(chain: seq<Item>, k: Key): seq<Item> {
    if chain == [] then []
    else if chain[0].key == k then chain[1..]
    else [chain[0]] + WithoutKey(chain[1..], k)
  }

  /** `assoc_insert` at the chosen place */
  function InsertAt(t: Table, p: Place, it: Item): Table {
    t.(chains := t.chains[p := [it] + ChainAt(t, p)], items := t.items + 1)
  }

  /** `assoc_delete` at the chosen place, for a key found there */
  function DeleteAt(t: Table, p: Place, k: Key): Table {
    t.(chains := t.chains[p := WithoutKey(ChainAt(t, p), k)], items := if t.items > 0 then t.items - 1 else 0)
  }

  /** The table's places, by size. */
  predicate IsPlace(power: nat, expanding: bool, p: Place) {
    match p
    case Primary(i) => i < Pow2(power)
    case Old(j) => expanding && power > 0 && j < Pow2(power - 1)
  }

  /** `assoc_expand` */
  ghost function Expanded(t: Table): Table {
    t.(power := t.power + 1, expanding := true, bucket := 0,
       chains := map p | p in AllPlaces(t.power + 1) :: if p.Old? then ChainAt(t, Primary(p.j)) else [])
  }

  /** Every place of a table in expansion. */
  ghost function AllPlaces(power: nat): (r: set<Place>)
    ensures forall p :: p in r <==> IsPlace(power, true, p)
  {
    (set i: nat | i < Pow2(power) :: Primary(i)) + (set j: nat | power > 0 && j < Pow2(power - 1) :: Old(j))
  }

  /** One turn of the migration loop: the first item left in the old bucket moves to the main table. */
  function Moved(t: Table, hash: Key -> nat): Table {
    var chain := ChainAt(t, Old(t.bucket));
    if chain == [] then t
    else
      var p := Primary(hash(chain[0].key) % Pow2(t.power));
      t.(chains := t.chains[Old(t.bucket) := chain[1..]][p := [chain[0]] + ChainAt(t, p)])
  }

  /** The old table is freed. */
  ghost function Stopped(t: Table): Table {
    t.(expanding := false, chains := map p | p in t.chains && p.Primary? :: t.chains[p])
  }
}
