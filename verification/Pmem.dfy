/** Persistent memory: durable bytes, and the stores that have not yet been drained to them. */
module Pmem {
  import opened Prelude

  datatype Store = Store(addr: nat, value: Byte, flushed: bool)

  datatype Memory = Memory(durable: seq<Byte>, pending: seq<Store>)

  /** What the program does to the region: `pmem_persist` is Flush followed by Drain. */
  datatype Op = Write(addr: nat, value: Byte) | Flush(lo: nat, len: nat) | Drain

  function Flushed(pending: seq<Store>, lo: nat, len: nat): (r: seq<Store>)
    ensures |r| == |pending|
    ensures forall i :: 0 <= i < |r| ==>
              r[i] == pending[i].(flushed := pending[i].flushed || lo <= pending[i].addr < lo + len)
  {
    seq(|pending|, i requires 0 <= i < |pending| =>
      pending[i].(flushed := pending[i].flushed || lo <= pending[i].addr < lo + len))
  }

  /** The durable bytes once every flushed store has reached them, in program order. */
  function Settle(durable: seq<Byte>, pending: seq<Store>): (r: seq<Byte>)
    ensures |r| == |durable|
  {
    if pending == [] then durable
    else
      var last := pending[|pending| - 1];
      var before := Settle(durable, pending[..|pending| - 1]);
      if last.flushed && last.addr < |durable| then before[last.addr := last.value] else before
  }

  function Unflushed(pending: seq<Store>): seq<Store> {
    if pending == [] then []
    else
      var last := pending[|pending| - 1];
      Unflushed(pending[..|pending| - 1]) + if last.flushed then [] else [last]
  }

  function Exec(m: Memory, op: Op): (r: Memory)
    ensures |r.durable| == |m.durable|
  {
    match op
    case Write(addr, value) => m.(pending := m.pending + [Store(addr, value, false)])
    case Flush(lo, len) => m.(pending := Flushed(m.pending, lo, len))
    case Drain => Memory(Settle(m.durable, m.pending), Unflushed(m.pending))
  }

  function ExecAll(m: Memory, ops: seq<Op>): (r: Memory)
    ensures |r.durable| == |m.durable|
  {
    if ops == [] then m else Exec(ExecAll(m, ops[..|ops| - 1]), ops[|ops| - 1])
  }

  /** What a load returns: the latest pending store, or the durable byte. */
  function Load(m: Memory, addr: nat): Byte
    requires addr < |m.durable|
    decreases |m.pending|
  {
    if m.pending == [] then m.durable[addr]
    else
      var last := m.pending[|m.pending| - 1];
      if last.addr == addr then last.value else Load(m.(pending := m.pending[..|m.pending| - 1]), addr)
  }

  /** image is what a crash may leave: each byte as drained, or as any undrained store left it. */
  ghost predicate Survives(m: Memory, image: seq<Byte>) {
    && |image| == |m.durable|
    && forall a :: 0 <= a < |image| ==>
         || image[a] == m.durable[a]
         || exists i :: 0 <= i < |m.pending| && m.pending[i].addr == a && m.pending[i].value == image[a]
  }

  lemma {:induction false} ExecAllAppend(m: Memory, ops: seq<Op>, more: seq<Op>)
    ensures ExecAll(m, ops + more) == ExecAll(ExecAll(m, ops), more)
    decreases |more|
  {
    if more == [] {
      assert ops + more == ops;
    } else {
      var n := |more| - 1;
      ExecAllAppend(m, ops, more[..n]);
      assert (ops + more)[..|ops + more| - 1] == ops + more[..n];
    }
  }

  lemma {:induction false} SettleUntouched(durable: seq<Byte>, pending: seq<Store>, a: nat)
    requires a < |durable|
    requires forall i :: 0 <= i < |pending| ==> pending[i].addr != a
    ensures Settle(durable, pending)[a] == durable[a]
  {
    if pending != [] {
      SettleUntouched(durable, pending[..|pending| - 1], a);
    }
  }

  /** After a drain of flushed stores, a byte stored once holds the stored value. */
  lemma {:induction false} SettleStored(durable: seq<Byte>, pending: seq<Store>, k: nat)
    requires k < |pending| && pending[k].addr < |durable| && pending[k].flushed
    requires forall i :: k < i < |pending| ==> pending[i].addr != pending[k].addr
    ensures Settle(durable, pending)[pending[k].addr] == pending[k].value
  {
    if k < |pending| - 1 {
      SettleStored(durable, pending[..|pending| - 1], k);
    }
  }

  lemma SettleOne(durable: seq<Byte>, st: Store)
    requires st.flushed && st.addr < |durable|
    ensures Settle(durable, [st]) == durable[st.addr := st.value] && Unflushed([st]) == []
  {
    assert [st][..0] == [];
  }

  lemma {:induction false} UnflushedNone(pending: seq<Store>)
    requires forall i :: 0 <= i < |pending| ==> pending[i].flushed
    ensures Unflushed(pending) == []
  {
    if pending != [] {
      UnflushedNone(pending[..|pending| - 1]);
    }
  }
}
