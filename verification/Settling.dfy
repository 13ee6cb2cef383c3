/** What becomes of one byte of persistent memory under stores, flushes, drains and crashes. */
module Settling {
  import opened Prelude
  import opened Pmem

  /** A flush covers every earlier store to its range, so drained stores never overtake. */
  ghost predicate Ordered(pending: seq<Store>) {
    forall i, j :: 0 <= i < j < |pending| && pending[i].addr == pending[j].addr && pending[j].flushed ==>
      pending[i].flushed
  }

  ghost predicate NonePending(m: Memory, a: nat) {
    forall i :: 0 <= i < |m.pending| ==> m.pending[i].addr != a
  }

  ghost predicate AllFlushed(m: Memory, a: nat) {
    forall i :: 0 <= i < |m.pending| && m.pending[i].addr == a ==> m.pending[i].flushed
  }

  /** Every value the byte can have after a crash satisfies p. */
  ghost predicate CanOnlyBe(m: Memory, a: nat, p: Byte -> bool)
    requires a < |m.durable|
  {
    p(m.durable[a]) && forall i :: 0 <= i < |m.pending| && m.pending[i].addr == a ==> p(m.pending[i].value)
  }

  lemma {:induction false} UnflushedFrom(pending: seq<Store>)
    ensures forall i :: 0 <= i < |Unflushed(pending)| ==>
              !Unflushed(pending)[i].flushed && Unflushed(pending)[i] in pending
  {
    if pending != [] {
      UnflushedFrom(pending[..|pending| - 1]);
    }
  }

  lemma {:induction false} SettleFrom(durable: seq<Byte>, pending: seq<Store>, a: nat)
    requires a < |durable|
    ensures var v := Settle(durable, pending)[a];
            v == durable[a] || exists i :: 0 <= i < |pending| && pending[i].addr == a && pending[i].value == v
  {
    if pending != [] {
      var init := pending[..|pending| - 1];
      SettleFrom(durable, init, a);
      var v := Settle(durable, init)[a];
      if v != durable[a] {
        var i :| 0 <= i < |init| && init[i].addr == a && init[i].value == v;
        assert pending[i].addr == a && pending[i].value == v;
      }
    }
  }

  lemma DrainOnlyBe(m: Memory, a: nat, p: Byte -> bool)
    requires a < |m.durable| && CanOnlyBe(m, a, p)
    ensures CanOnlyBe(Exec(m, Drain), a, p)
  {
    SettleFrom(m.durable, m.pending, a);
    UnflushedFrom(m.pending);
  }

  /** Draining does not change what the processor sees. */
  lemma {:induction false} DrainKeepsLoad(m: Memory, a: nat)
    requires a < |m.durable| && Ordered(m.pending)
    ensures Load(Exec(m, Drain), a) == Load(m, a)
    decreases |m.pending|
  {
    if m.pending != [] {
      var n := |m.pending| - 1;
      var last, m0 := m.pending[n], m.(pending := m.pending[..n]);
      DrainKeepsLoad(m0, a);
      var d0, d := Exec(m0, Drain), Exec(m, Drain);
      if last.flushed {
        assert d.pending == d0.pending;
        if last.addr == a {
          UnflushedFrom(m0.pending);
          assert NonePending(d, a);
          LoadNonePending(d, a);
        } else {
          assert d.durable[a] == d0.durable[a];
          LoadFrame(d0, d, a);
        }
      } else {
        assert d.pending == d0.pending + [last];
        assert d.pending[..|d.pending| - 1] == d0.pending;
        assert d.(pending := d0.pending) == d0;
      }
    }
  }

  lemma {:induction false} LoadNonePending(m: Memory, a: nat)
    requires a < |m.durable| && NonePending(m, a)
    ensures Load(m, a) == m.durable[a]
    decreases |m.pending|
  {
    if m.pending != [] {
      LoadNonePending(m.(pending := m.pending[..|m.pending| - 1]), a);
    }
  }

  lemma {:induction false} LoadFrame(m: Memory, m': Memory, a: nat)
    requires a < |m.durable| == |m'.durable| && m.durable[a] == m'.durable[a] && m.pending == m'.pending
    ensures Load(m, a) == Load(m', a)
    decreases |m.pending|
  {
    if m.pending != [] {
      var n := |m.pending| - 1;
      LoadFrame(m.(pending := m.pending[..n]), m'.(pending := m'.pending[..n]), a);
    }
  }

  /** A byte whose stores are all flushed is durable, as the processor sees it, after a drain. */
  lemma DrainPersists(m: Memory, a: nat)
    requires a < |m.durable| && Ordered(m.pending) && AllFlushed(m, a)
    ensures NonePending(Exec(m, Drain), a)
    ensures Exec(m, Drain).durable[a] == Load(m, a)
  {
    UnflushedFrom(m.pending);
    DrainKeepsLoad(m, a);
    LoadNonePending(Exec(m, Drain), a);
  }

  lemma LoadWrite(m: Memory, at: nat, v: Byte, a: nat)
    requires a < |m.durable|
    ensures Load(Exec(m, Write(at, v)), a) == if at == a then v else Load(m, a)
  {
    var m' := Exec(m, Write(at, v));
    assert m'.pending[..|m'.pending| - 1] == m.pending;
    assert m'.(pending := m.pending) == m;
  }

  lemma {:induction false} LoadFlush(m: Memory, lo: nat, len: nat, a: nat)
    requires a < |m.durable|
    ensures Load(Exec(m, Flush(lo, len)), a) == Load(m, a)
    decreases |m.pending|
  {
    if m.pending != [] {
      var n := |m.pending| - 1;
      var m0 := m.(pending := m.pending[..n]);
      LoadFlush(m0, lo, len, a);
      assert Exec(m, Flush(lo, len)).pending[..n] == Exec(m0, Flush(lo, len)).pending;
    }
  }

  /** The processor sees the durable byte or a pending store. */
  lemma {:induction false} LoadFrom(m: Memory, a: nat)
    requires a < |m.durable|
    ensures Load(m, a) == m.durable[a]
         || exists i :: 0 <= i < |m.pending| && m.pending[i].addr == a && m.pending[i].value == Load(m, a)
    decreases |m.pending|
  {
    if m.pending != [] {
      var n := |m.pending| - 1;
      if m.pending[n].addr != a {
        LoadFrom(m.(pending := m.pending[..n]), a);
      }
    }
  }

  lemma {:induction false} UnflushedOrdered(pending: seq<Store>)
    ensures Ordered(Unflushed(pending))
  {
    UnflushedFrom(pending);
  }

  lemma OrderedStep(m: Memory, op: Op)
    requires Ordered(m.pending)
    ensures Ordered(Exec(m, op).pending)
  {
    if op.Drain? {
      UnflushedOrdered(m.pending);
    }
  }

  lemma {:induction false} OrderedAll(m: Memory, ops: seq<Op>)
    requires Ordered(m.pending)
    ensures Ordered(ExecAll(m, ops).pending)
  {
    if ops != [] {
      OrderedAll(m, ops[..|ops| - 1]);
      OrderedStep(ExecAll(m, ops[..|ops| - 1]), ops[|ops| - 1]);
    }
  }

  lemma AllFlushedDrain(m: Memory, a: nat)
    requires AllFlushed(m, a)
    ensures NonePending(Exec(m, Drain), a)
  {
    UnflushedFrom(m.pending);
  }

  lemma NoneAllFlushed(m: Memory, a: nat)
    requires NonePending(m, a)
    ensures AllFlushed(m, a)
  {
  }

  lemma OnlyBeSame(m: Memory, a: nat, v: Byte, w: Byte)
    requires a < |m.durable| && CanOnlyBe(m, a, (x: Byte) => x == v) && v == w
    ensures CanOnlyBe(m, a, (x: Byte) => x == w)
  {
  }

  lemma SurvivesAs(m: Memory, image: seq<Byte>, a: nat, v: Byte)
    requires Survives(m, image) && a < |m.durable| && CanOnlyBe(m, a, (x: Byte) => x == v)
    ensures a < |image| && image[a] == v
  {
  }

  // ----- bytes that are as good as durable -----

  /** A drain now would leave the byte as the processor sees it, whatever became of the stores not flushed. */
  ghost predicate Settled(m: Memory, a: nat)
    requires a < |m.durable|
  {
    && Exec(m, Drain).durable[a] == Load(m, a)
    && forall i :: 0 <= i < |m.pending| && m.pending[i].addr == a && !m.pending[i].flushed ==>
         m.pending[i].value == Load(m, a)
  }

  lemma FlushedSettled(m: Memory, a: nat)
    requires a < |m.durable| && Ordered(m.pending) && AllFlushed(m, a)
    ensures Settled(m, a)
  {
    DrainPersists(m, a);
  }

  /** After a drain every value the byte can have is the one the processor saw. */
  lemma DrainSettled(m: Memory, a: nat)
    requires a < |m.durable| && Settled(m, a)
    ensures CanOnlyBe(Exec(m, Drain), a, (v: Byte) => v == Load(m, a))
  {
    UnflushedFrom(m.pending);
  }

  /** A byte that can only be one value is settled. */
  lemma SureSettled(m: Memory, a: nat, v: Byte)
    requires a < |m.durable| && CanOnlyBe(m, a, (x: Byte) => x == v)
    ensures Settled(m, a) && Load(m, a) == v
  {
    SettleFrom(m.durable, m.pending, a);
    LoadFrom(m, a);
  }

  lemma {:induction false} SettleOutside(durable: seq<Byte>, pending: seq<Store>, lo: nat, len: nat, a: nat)
    requires a < |durable| && !(lo <= a < lo + len)
    ensures Settle(durable, Flushed(pending, lo, len))[a] == Settle(durable, pending)[a]
  {
    if pending != [] {
      var n := |pending| - 1;
      SettleOutside(durable, pending[..n], lo, len, a);
      assert Flushed(pending, lo, len)[..n] == Flushed(pending[..n], lo, len);
    }
  }

  lemma {:induction false} UnflushedStay(pending: seq<Store>)
    ensures forall i :: 0 <= i < |pending| && !pending[i].flushed ==> pending[i] in Unflushed(pending)
  {
    if pending != [] {
      var n := |pending| - 1;
      UnflushedStay(pending[..n]);
      forall i | 0 <= i < |pending| && !pending[i].flushed
        ensures pending[i] in Unflushed(pending)
      {
        assert i < n ==> pending[..n][i] == pending[i];
      }
    }
  }

  lemma {:induction false} SettleNoneFlushed(durable: seq<Byte>, pending: seq<Store>, a: nat)
    requires a < |durable| && forall i :: 0 <= i < |pending| && pending[i].addr == a ==> !pending[i].flushed
    ensures Settle(durable, pending)[a] == durable[a]
  {
    if pending != [] {
      SettleNoneFlushed(durable, pending[..|pending| - 1], a);
    }
  }

  /** A byte is settled when no store to it that was not flushed differs from what a drain would leave. */
  lemma SettledMeans(m: Memory, a: nat)
    requires a < |m.durable| && Ordered(m.pending)
    ensures Settled(m, a) <==>
            forall i :: 0 <= i < |m.pending| && m.pending[i].addr == a && !m.pending[i].flushed ==>
              m.pending[i].value == Exec(m, Drain).durable[a]
  {
    DrainKeepsLoad(m, a);
    LoadFrom(Exec(m, Drain), a);
    UnflushedFrom(m.pending);
  }

  /** Covers the byte with a flush. */
  predicate Covers(op: Op, a: nat) {
    op.Flush? && op.lo <= a < op.lo + op.len
  }

  /** Stores the byte, with another value than the one there. */
  predicate Changes(m: Memory, op: Op, a: nat)
    requires a < |m.durable|
  {
    op.Write? && op.addr == a && op.value != Load(m, a)
  }

  /** A flush of the byte settles it; otherwise it stays settled exactly as long as no store changes it. */
  lemma SettlesExactly(m: Memory, op: Op, a: nat)
    requires a < |m.durable| && Ordered(m.pending)
    ensures |Exec(m, op).durable| == |m.durable| && Ordered(Exec(m, op).pending)
    ensures Settled(Exec(m, op), a) <==> Covers(op, a) || (Settled(m, a) && !Changes(m, op, a))
  {
    var m' := Exec(m, op);
    OrderedStep(m, op);
    SettledMeans(m, a);
    SettledMeans(m', a);
    match op
    case Write(b, v) => WriteSettles(m, b, v, a);
    case Flush(lo, len) =>
      if Covers(op, a) {
        FlushedSettled(m', a);
      } else {
        SettleOutside(m.durable, m.pending, lo, len, a);
      }
    case Drain => DrainSettles(m, a);
  }

  lemma WriteSettles(m: Memory, b: nat, v: Byte, a: nat)
    requires a < |m.durable| && Ordered(m.pending)
    ensures Settled(Exec(m, Write(b, v)), a) <==> Settled(m, a) && (b == a ==> v == Load(m, a))
  {
    var m' := Exec(m, Write(b, v));
    OrderedStep(m, Write(b, v));
    assert m'.pending[..|m'.pending| - 1] == m.pending;
    assert Exec(m', Drain).durable[a] == Exec(m, Drain).durable[a];
    LoadWrite(m, b, v, a);
    SettledMeans(m, a);
    SettledMeans(m', a);
    assert m'.pending[|m.pending|] == Store(b, v, false);
    assert forall i :: 0 <= i < |m.pending| ==> m'.pending[i] == m.pending[i];
  }

  lemma DrainSettles(m: Memory, a: nat)
    requires a < |m.durable| && Ordered(m.pending)
    ensures Settled(Exec(m, Drain), a) <==> Settled(m, a)
  {
    var m' := Exec(m, Drain);
    OrderedStep(m, Drain);
    UnflushedFrom(m.pending);
    UnflushedStay(m.pending);
    SettleNoneFlushed(m'.durable, m'.pending, a);
    SettledMeans(m, a);
    SettledMeans(m', a);
  }

  /** Every store to the byte is of this value. */
  predicate StoresOnly(ops: seq<Op>, a: nat, v: Byte) {
    forall i :: 0 <= i < |ops| && ops[i].Write? && ops[i].addr == a ==> ops[i].value == v
  }

  /**
   * From a settled byte, such as one that was just flushed: after any stores, drains and flushes of other bytes it
   * is settled exactly if every store to it stored the value it had.
   */
  lemma {:induction false} StoresSettleExactly(m: Memory, ops: seq<Op>, a: nat)
    requires a < |m.durable| && Ordered(m.pending) && Settled(m, a)
    requires forall i :: 0 <= i < |ops| ==> !Covers(ops[i], a)
    ensures var m' := ExecAll(m, ops);
            && |m'.durable| == |m.durable| && Ordered(m'.pending)
            && (Settled(m', a) <==> StoresOnly(ops, a, Load(m, a)))
            && (Settled(m', a) ==> Load(m', a) == Load(m, a))
  {
    if ops != [] {
      var init, last := ops[..|ops| - 1], ops[|ops| - 1];
      StoresSettleExactly(m, init, a);
      var m0 := ExecAll(m, init);
      SettlesExactly(m0, last, a);
      if !Changes(m0, last, a) {
        UnchangedLoad(m0, last, a);
      }
      hide Settled, Exec;
      assert forall i :: 0 <= i < |init| ==> ops[i] == init[i];
      assert ops[|init|] == last;
    }
  }

  lemma UnchangedLoad(m: Memory, op: Op, a: nat)
    requires a < |m.durable| && Ordered(m.pending) && !Changes(m, op, a)
    ensures |Exec(m, op).durable| == |m.durable| && Load(Exec(m, op), a) == Load(m, a)
  {
    match op
    case Write(b, v) => LoadWrite(m, b, v, a);
    case Flush(lo, len) => LoadFlush(m, lo, len, a);
    case Drain => DrainKeepsLoad(m, a);
  }

  /** How many of the operations there are up to the last flush of the byte. */
  function LastFlush(ops: seq<Op>, a: nat): (k: nat)
    ensures k <= |ops| && (k > 0 ==> Covers(ops[k - 1], a))
    ensures forall i :: k <= i < |ops| ==> !Covers(ops[i], a)
  {
    if ops == [] then 0
    else if Covers(ops[|ops| - 1], a) then |ops|
    else LastFlush(ops[..|ops| - 1], a)
  }

  lemma FlushSettles(m: Memory, ops: seq<Op>, a: nat)
    requires a < |m.durable| && Ordered(m.pending)
    requires if ops == [] then Settled(m, a) else Covers(ops[|ops| - 1], a)
    ensures Settled(ExecAll(m, ops), a)
  {
    if ops != [] {
      OrderedAll(m, ops[..|ops| - 1]);
      SettlesExactly(ExecAll(m, ops[..|ops| - 1]), ops[|ops| - 1], a);
    }
  }

  /** Every store to the byte since its last flush stored the value that it had at that flush, or at the start. */
  predicate Unchanged(m: Memory, ops: seq<Op>, a: nat)
    requires a < |m.durable|
  {
    var k := LastFlush(ops, a);
    StoresOnly(ops[k..], a, Load(ExecAll(m, ops[..k]), a))
  }

  /** From a settled byte, after any stores, flushes and drains. */
  lemma UnchangedExactly(m: Memory, ops: seq<Op>, a: nat)
    requires a < |m.durable| && Ordered(m.pending) && Settled(m, a)
    ensures Settled(ExecAll(m, ops), a) <==> Unchanged(m, ops, a)
  {
    hide Settled, Exec, StoresOnly, Ordered;
    var k := LastFlush(ops, a);
    var before, after := ops[..k], ops[k..];
    assert ops == before + after;
    FlushSettles(m, before, a);
    OrderedAll(m, before);
    ExecAllAppend(m, before, after);
    StoresSettleExactly(ExecAll(m, before), after, a);
  }
}
