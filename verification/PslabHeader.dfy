/** The pool header's flush time: two slots, each with its checksum, and a byte that names the valid one. */
module PslabHeader {
  import opened Prelude
  import opened Arith
  import opened Pmem

  // Offsets in `pslab_pool_t`, which is packed.
  const CHECKSUM := 21
  const VALID := 23
  const STARTED := 24
  const FLUSH_TIME := 32
  const SLAB_NUM := 40

  /** The bytes of a uint32_t, little end first. */
  function Bytes32(t: nat): (b: seq<Byte>)
    ensures |b| == 4
  {
    [t % 256, t / 256 % 256, t / 65536 % 256, t / 16777216 % 256]
  }

  function Sum(bytes: seq<Byte>): nat {
    if bytes == [] then 0 else Sum(bytes[..|bytes| - 1]) + bytes[|bytes| - 1]
  }

  /** `pslab_do_checksum` */
  method DoChecksum(bytes: seq<Byte>) returns (sum: Byte)
    ensures sum == Sum(bytes) % 256
  {
    sum := 0;
    for cur := 0 to |bytes|
      invariant sum == Sum(bytes[..cur]) % 256
    {
      assert bytes[..cur + 1][..cur] == bytes[..cur];
      sum := (sum as nat + bytes[cur] as nat) % 256;
    }
    assert bytes[..|bytes|] == bytes;
  }

  /** The bytes that `pslab_checksum_init` adds up: all but the two slots, their checksums and `valid`. */
  function Fixed(image: seq<Byte>): seq<Byte>
    requires |image| >= SLAB_NUM
  {
    image[..CHECKSUM] + image[STARTED..FLUSH_TIME] + image[SLAB_NUM..]
  }

  function SlotBytes(image: seq<Byte>, i: nat): seq<Byte>
    requires |image| >= SLAB_NUM && i < 2
  {
    image[FLUSH_TIME + 4 * i..FLUSH_TIME + 4 * i + 4]
  }

  predicate InSlot(i: nat, a: nat) {
    a == CHECKSUM + i || FLUSH_TIME + 4 * i <= a < FLUSH_TIME + 4 * i + 4
  }

  /** Slot i passes `pslab_checksum_check` and holds time t. */
  ghost predicate SlotOk(image: seq<Byte>, i: nat, t: nat)
    requires |image| >= SLAB_NUM && i < 2
  {
    && SlotBytes(image, i) == Bytes32(t)
    && (Sum(Fixed(image)) + image[CHECKSUM + i] + Sum(SlotBytes(image, i))) % 256 == 0
  }

  /** What `pslab_pre_recover` accepts, with the flush time that recovery then reads. */
  ghost predicate Recovers(image: seq<Byte>, t: nat) {
    && |image| >= SLAB_NUM
    && 1 <= image[VALID] <= 2
    && SlotOk(image, image[VALID] - 1, t)
  }

  // ----- what the check catches -----

  lemma {:induction false} SumUpdate(s: seq<Byte>, k: nat, v: Byte)
    requires k < |s|
    ensures Sum(s[k := v]) == Sum(s) - s[k] + v
  {
    var n := |s| - 1;
    if k < n {
      assert s[k := v][..n] == s[..n][k := v];
      SumUpdate(s[..n], k, v);
    } else {
      assert s[k := v][..n] == s[..n];
    }
  }

  lemma {:induction false} SumAppend(a: seq<Byte>, b: seq<Byte>)
    ensures Sum(a + b) == Sum(a) + Sum(b)
  {
    if b == [] {
      assert a + b == a;
    } else {
      assert (a + b)[..|a + b| - 1] == a + b[..|b| - 1];
      SumAppend(a, b[..|b| - 1]);
    }
  }

  /** The bytes of a header that the check of slot i adds up, all in all. */
  function Added(image: seq<Byte>, i: nat): nat
    requires |image| >= SLAB_NUM && i < 2
  {
    Sum(Fixed(image)) + image[CHECKSUM + i] + Sum(SlotBytes(image, i))
  }

  /** Where a byte lies in a piece of the header. */
  lemma PieceUpdate(d: seq<Byte>, a: nat, v: Byte, lo: nat, hi: nat)
    requires a < |d| && lo <= hi <= |d|
    ensures Sum(d[a := v][lo..hi]) == Sum(d[lo..hi]) + if lo <= a < hi then v - d[a] else 0
  {
    if lo <= a < hi {
      assert d[a := v][lo..hi] == d[lo..hi][a - lo := v];
      SumUpdate(d[lo..hi], a - lo, v);
    } else {
      assert d[a := v][lo..hi] == d[lo..hi];
    }
  }

  lemma FixedSum(d: seq<Byte>)
    requires |d| >= SLAB_NUM
    ensures Sum(Fixed(d)) == Sum(d[0..CHECKSUM]) + Sum(d[STARTED..FLUSH_TIME]) + Sum(d[SLAB_NUM..|d|])
  {
    assert d[..CHECKSUM] == d[0..CHECKSUM] && d[SLAB_NUM..] == d[SLAB_NUM..|d|];
    SumAppend(d[..CHECKSUM] + d[STARTED..FLUSH_TIME], d[SLAB_NUM..]);
    SumAppend(d[..CHECKSUM], d[STARTED..FLUSH_TIME]);
  }

  lemma AddedUpdate(d: seq<Byte>, a: nat, v: Byte, i: nat)
    requires |d| >= SLAB_NUM && i < 2 && a < |d|
    ensures Added(d[a := v], i) == Added(d, i) + if a == VALID || InSlot(1 - i, a) then 0 else v - d[a]
  {
    hide Sum, Fixed;
    var e := d[a := v];
    FixedSum(d);
    FixedSum(e);
    PieceUpdate(d, a, v, 0, CHECKSUM);
    PieceUpdate(d, a, v, STARTED, FLUSH_TIME);
    PieceUpdate(d, a, v, SLAB_NUM, |d|);
    PieceUpdate(d, a, v, FLUSH_TIME + 4 * i, FLUSH_TIME + 4 * i + 4);
  }

  /** Any change of a single byte, but for `valid` and the other slot, makes the check of a good slot fail. */
  lemma OneByteCaught(d: seq<Byte>, a: nat, v: Byte, i: nat, t: nat, u: nat)
    requires |d| >= SLAB_NUM && i < 2 && SlotOk(d, i, t)
    requires a < |d| && v != d[a] && a != VALID && !InSlot(1 - i, a)
    ensures !SlotOk(d[a := v], i, u)
  {
    hide Sum, Fixed, Bytes32;
    AddedUpdate(d, a, v, i);
    OffByLess(Added(d, i), v - d[a]);
  }

  lemma OffByLess(x: nat, e: int)
    requires x % 256 == 0 && e != 0 && -256 < e < 256 && x + e >= 0
    ensures (x + e) % 256 != 0
  {
  }

  /** The checksum byte that `pslab_checksum_update` stores: ~(chksum0 + sum) + 1 in eight bits. */
  function Complement(chksum0: nat, sum: nat): Byte {
    (256 - (chksum0 + sum) % 256) % 256
  }

  /** The stores, flushes and drains of `pslab_update_flushtime`: slot i gets bytes b and checksum ck. */
  function Program(i: nat, b: seq<Byte>, ck: Byte): (ops: seq<Op>)
    requires i < 2 && |b| == 4
    ensures |ops| == 11
  {
    [Write(FLUSH_TIME + 4 * i, b[0]), Write(FLUSH_TIME + 4 * i + 1, b[1]),
     Write(FLUSH_TIME + 4 * i + 2, b[2]), Write(FLUSH_TIME + 4 * i + 3, b[3]),
     Write(CHECKSUM + i, ck),
     Flush(FLUSH_TIME, 8), Flush(CHECKSUM, 2), Drain,
     Write(VALID, i + 1), Flush(VALID, 1), Drain]
  }

  lemma ProgramAt(i: nat, b: seq<Byte>, ck: Byte)
    requires i < 2 && |b| == 4
    ensures var ops := Program(i, b, ck);
            && (forall n :: 0 <= n < 4 ==> ops[n] == Write(FLUSH_TIME + 4 * i + n, b[n]))
            && ops[4] == Write(CHECKSUM + i, ck) && ops[5] == Flush(FLUSH_TIME, 8) && ops[6] == Flush(CHECKSUM, 2)
            && ops[7] == Drain && ops[8] == Write(VALID, i + 1) && ops[9] == Flush(VALID, 1) && ops[10] == Drain
  {
  }

  // ----- the three phases of an update -----

  /** Before the first drain: only the idle slot has been written to. */
  ghost predicate Writing(m: Memory, d: seq<Byte>, i: nat)
    requires i < 2
  {
    && m.durable == d
    && forall k :: 0 <= k < |m.pending| ==> InSlot(i, m.pending[k].addr)
  }

  /** From the first drain to the second: both slots are good, and only `valid` is in flight. */
  ghost predicate Switching(m: Memory, i: nat, last: nat, time: nat)
    requires i < 2
  {
    && |m.durable| >= SLAB_NUM
    && m.durable[VALID] == 2 - i
    && SlotOk(m.durable, 1 - i, last)
    && SlotOk(m.durable, i, time)
    && forall k :: 0 <= k < |m.pending| ==> m.pending[k].addr == VALID && m.pending[k].value == i + 1
  }

  ghost predicate Clean(m: Memory, t: nat) {
    m.pending == [] && Recovers(m.durable, t)
  }

  /** A slot is judged by the fixed bytes, its own bytes and its checksum only. */
  lemma SlotFrame(d: seq<Byte>, e: seq<Byte>, i: nat, t: nat)
    requires |d| == |e| >= SLAB_NUM && i < 2 && SlotOk(d, i, t)
    requires Fixed(d) == Fixed(e) && SlotBytes(d, i) == SlotBytes(e, i) && d[CHECKSUM + i] == e[CHECKSUM + i]
    ensures SlotOk(e, i, t)
  {
  }

  lemma FixedFrame(d: seq<Byte>, e: seq<Byte>)
    requires |d| == |e| >= SLAB_NUM
    requires forall a :: 0 <= a < |d| && (a < CHECKSUM || STARTED <= a < FLUSH_TIME || SLAB_NUM <= a) ==> d[a] == e[a]
    ensures Fixed(d) == Fixed(e)
  {
    assert d[..CHECKSUM] == e[..CHECKSUM];
    assert d[STARTED..FLUSH_TIME] == e[STARTED..FLUSH_TIME];
    assert d[SLAB_NUM..] == e[SLAB_NUM..];
  }

  /** Outside the idle slot and its checksum nothing changes: slot 1 - i stays good. */
  lemma OtherSlotFrame(d: seq<Byte>, e: seq<Byte>, i: nat, t: nat)
    requires |d| == |e| >= SLAB_NUM && i < 2 && SlotOk(d, 1 - i, t)
    requires forall a :: 0 <= a < |d| && a != VALID && !InSlot(i, a) ==> d[a] == e[a]
    ensures SlotOk(e, 1 - i, t)
  {
    hide SlotOk;
    FixedFrame(d, e);
    assert SlotBytes(d, 1 - i) == SlotBytes(e, 1 - i);
    SlotFrame(d, e, 1 - i, t);
  }

  lemma WritingSurvives(m: Memory, d: seq<Byte>, i: nat, last: nat, image: seq<Byte>)
    requires i < 2 && Writing(m, d, i) && |d| >= SLAB_NUM && d[VALID] == 2 - i && SlotOk(d, 1 - i, last)
    requires Survives(m, image)
    ensures Recovers(image, last)
  {
    hide SlotOk;
    OtherSlotFrame(d, image, i, last);
  }

  lemma SwitchingSurvives(m: Memory, i: nat, last: nat, time: nat, image: seq<Byte>)
    requires i < 2 && Switching(m, i, last, time) && Survives(m, image)
    ensures Recovers(image, last) || Recovers(image, time)
  {
    hide SlotOk;
    OtherSlotFrame(m.durable, image, i, last);
    OtherSlotFrame(m.durable, image, 1 - i, time);
  }

  // ----- which phase each prefix of the program is in -----

  /** The state after the first n operations, up to but not including the first drain. */
  ghost predicate Filled(m: Memory, d: seq<Byte>, program: seq<Op>, i: nat, n: nat)
    requires i < 2 && |program| == 11
  {
    && Writing(m, d, i)
    && |m.pending| == (if n < 5 then n else 5)
    && forall k :: 0 <= k < |m.pending| ==>
         && program[k].Write?
         && m.pending[k].addr == program[k].addr && m.pending[k].value == program[k].value
         && (n >= 7 || (n >= 6 && k < 4) ==> m.pending[k].flushed)
  }

  lemma PrefixStep(m: Memory, ops: seq<Op>, n: nat)
    requires n < |ops|
    ensures ExecAll(m, ops[..n + 1]) == Exec(ExecAll(m, ops[..n]), ops[n])
  {
    assert ops[..n + 1][..n] == ops[..n];
  }

  lemma {:induction false} FillPrefix(d: seq<Byte>, i: nat, b: seq<Byte>, ck: Byte, n: nat)
    requires i < 2 && |b| == 4 && n <= 7
    ensures Filled(ExecAll(Memory(d, []), Program(i, b, ck)[..n]), d, Program(i, b, ck), i, n)
  {
    ProgramFills(i, b, ck);
    hide Program, ExecAll, Exec, Fills;
    if n > 0 {
      FillPrefix(d, i, b, ck, n - 1);
      PrefixStep(Memory(d, []), Program(i, b, ck), n - 1);
      var m := ExecAll(Memory(d, []), Program(i, b, ck)[..n - 1]);
      if n <= 5 {
        FillWrite(m, d, Program(i, b, ck), i, n - 1);
      } else {
        FillFlush(m, d, Program(i, b, ck), i, n - 1);
      }
    } else {
      NothingFilled(d, Program(i, b, ck), i);
    }
  }

  /** The operations up to the first drain: five writes to slot i, and the flushes that cover them. */
  ghost predicate Fills(program: seq<Op>, i: nat)
    requires i < 2 && |program| == 11
  {
    && (forall k :: 0 <= k < 5 ==> program[k].Write? && InSlot(i, program[k].addr)
                                   && (if k < 4 then FLUSH_TIME <= program[k].addr < FLUSH_TIME + 8
                                       else CHECKSUM <= program[k].addr < CHECKSUM + 2))
    && program[5] == Flush(FLUSH_TIME, 8) && program[6] == Flush(CHECKSUM, 2)
  }

  lemma ProgramFills(i: nat, b: seq<Byte>, ck: Byte)
    requires i < 2 && |b| == 4
    ensures Fills(Program(i, b, ck), i)
  {
  }

  lemma NothingFilled(d: seq<Byte>, program: seq<Op>, i: nat)
    requires i < 2 && |program| == 11
    ensures Filled(ExecAll(Memory(d, []), program[..0]), d, program, i, 0)
  {
  }

  lemma FillWrite(m: Memory, d: seq<Byte>, program: seq<Op>, i: nat, n: nat)
    requires i < 2 && |program| == 11 && Fills(program, i) && n < 5 && Filled(m, d, program, i, n)
    ensures Filled(Exec(m, program[n]), d, program, i, n + 1)
  {
  }

  lemma FillFlush(m: Memory, d: seq<Byte>, program: seq<Op>, i: nat, n: nat)
    requires i < 2 && |program| == 11 && Fills(program, i) && 5 <= n < 7 && Filled(m, d, program, i, n)
    ensures Filled(Exec(m, program[n]), d, program, i, n + 1)
  {
  }

  lemma ComplementCancels(fixed: nat, sum: nat)
    ensures (fixed + Complement(fixed % 256, sum) + sum) % 256 == 0
  {
    var q := fixed / 256;
    var x := fixed % 256 + sum;
    assert fixed == 256 * q + fixed % 256;
    assert x == 256 * (x / 256) + x % 256;
    if x % 256 == 0 {
      assert fixed + sum == 256 * (q + x / 256);
    } else {
      assert fixed + (256 - x % 256) + sum == 256 * (q + x / 256 + 1);
    }
  }

  /** The first drain puts the new bytes and checksum into the idle slot, and moves nothing else. */
  lemma FirstDrainBytes(m: Memory, d: seq<Byte>, i: nat, b: seq<Byte>, ck: Byte)
    requires i < 2 && |b| == 4 && |d| >= SLAB_NUM && Filled(m, d, Program(i, b, ck), i, 7)
    ensures var e := Exec(m, Drain);
            && e.pending == [] && |e.durable| == |d|
            && (forall a :: 0 <= a < |d| && !InSlot(i, a) ==> e.durable[a] == d[a])
            && SlotBytes(e.durable, i) == b
            && e.durable[CHECKSUM + i] == ck
  {
    FilledStores(m, d, i, b, ck);
    UnflushedNone(m.pending);
    hide Settle, Unflushed, Filled, Program;
    forall a | 0 <= a < |d| && !InSlot(i, a)
      ensures Settle(d, m.pending)[a] == d[a]
    {
      SettleUntouched(d, m.pending, a);
    }
    StoredBytes(m, d, i, b, ck);
  }

  /** The five stores of the program, all flushed. */
  ghost predicate FiveStores(pending: seq<Store>, i: nat, b: seq<Byte>, ck: Byte)
    requires i < 2 && |b| == 4
  {
    && |pending| == 5
    && (forall k :: 0 <= k < 4 ==> pending[k] == Store(FLUSH_TIME + 4 * i + k, b[k], true))
    && pending[4] == Store(CHECKSUM + i, ck, true)
  }

  lemma FilledStores(m: Memory, d: seq<Byte>, i: nat, b: seq<Byte>, ck: Byte)
    requires i < 2 && |b| == 4 && Filled(m, d, Program(i, b, ck), i, 7)
    ensures m.durable == d && FiveStores(m.pending, i, b, ck)
  {
    ProgramAt(i, b, ck);
    hide Program;
  }

  lemma StoredBytes(m: Memory, d: seq<Byte>, i: nat, b: seq<Byte>, ck: Byte)
    requires i < 2 && |b| == 4 && |d| >= SLAB_NUM && FiveStores(m.pending, i, b, ck)
    ensures SlotBytes(Settle(d, m.pending), i) == b && Settle(d, m.pending)[CHECKSUM + i] == ck
  {
    hide Settle, FiveStores;
    StoredByte(m, d, i, b, ck, 0);
    StoredByte(m, d, i, b, ck, 1);
    StoredByte(m, d, i, b, ck, 2);
    StoredByte(m, d, i, b, ck, 3);
    StoredByte(m, d, i, b, ck, 4);
    FourBytes(Settle(d, m.pending), FLUSH_TIME + 4 * i, b);
  }

  lemma FourBytes(d: seq<Byte>, at: nat, b: seq<Byte>)
    requires at + 4 <= |d| && |b| == 4
    requires d[at] == b[0] && d[at + 1] == b[1] && d[at + 2] == b[2] && d[at + 3] == b[3]
    ensures d[at..at + 4] == b
  {
  }

  lemma StoredByte(m: Memory, d: seq<Byte>, i: nat, b: seq<Byte>, ck: Byte, k: nat)
    requires i < 2 && |b| == 4 && |d| >= SLAB_NUM && FiveStores(m.pending, i, b, ck) && k < 5
    ensures k < 4 ==> Settle(d, m.pending)[FLUSH_TIME + 4 * i + k] == b[k]
    ensures k == 4 ==> Settle(d, m.pending)[CHECKSUM + i] == ck
  {
    hide Settle;
    SettleStored(d, m.pending, k);
  }

  /** After the first drain both slots are good. */
  lemma FirstDrain(m: Memory, d: seq<Byte>, i: nat, last: nat, time: nat, ck: Byte)
    requires i < 2 && |d| >= SLAB_NUM && d[VALID] == 2 - i && SlotOk(d, 1 - i, last)
    requires ck == Complement(Sum(Fixed(d)) % 256, Sum(Bytes32(time)))
    requires Filled(m, d, Program(i, Bytes32(time), ck), i, 7)
    ensures Switching(Exec(m, Drain), i, last, time) && Exec(m, Drain).pending == []
  {
    hide Bytes32, Filled, Program, Complement, Exec;
    FirstDrainBytes(m, d, i, Bytes32(time), ck);
    var e := Exec(m, Drain).durable;
    OtherSlotFrame(d, e, i, last);
    FixedFrame(d, e);
    ComplementCancels(Sum(Fixed(d)), Sum(Bytes32(time)));
  }

  /** The rest of the program only switches `valid` over. */
  lemma SwitchOver(m: Memory, i: nat, last: nat, time: nat)
    requires i < 2 && Switching(m, i, last, time) && m.pending == []
    ensures var m9 := Exec(m, Write(VALID, i + 1));
            var m10 := Exec(m9, Flush(VALID, 1));
            && Switching(m9, i, last, time) && Switching(m10, i, last, time) && Clean(Exec(m10, Drain), time)
            && Fixed(Exec(m10, Drain).durable) == Fixed(m.durable)
  {
    hide SlotOk, Fixed, Settle, Unflushed;
    var m10 := Exec(Exec(m, Write(VALID, i + 1)), Flush(VALID, 1));
    var e := m.durable[VALID := i + 1];
    assert m10.pending == [Store(VALID, i + 1, true)];
    SettleOne(m.durable, Store(VALID, i + 1, true));
    OtherSlotFrame(m.durable, e, 1 - i, time);
    FixedFrame(m.durable, e);
  }

  // ----- every run, every crash point -----

  /** A call under way: it began on the drained header `start` and has done `done` operations. */
  datatype Call = Call(time: nat, start: seq<Byte>, done: nat)

  /** `last` is the time of the last finished call, or the one recovery read. */
  datatype Pool = Pool(mem: Memory, chksum0: Byte, last: nat, call: Option<Call>)

  /** (valid - 1) ^ 1 */
  function IdleSlot(valid: Byte): nat {
    if valid == 1 then 1 else 0
  }

  function CallProgram(chksum0: Byte, call: Call): (ops: seq<Op>)
    requires |call.start| >= SLAB_NUM
    ensures |ops| == 11
  {
    var b := Bytes32(call.time);
    Program(IdleSlot(call.start[VALID]), b, Complement(chksum0, Sum(b)))
  }

  function U32(b: seq<Byte>): nat
    requires |b| == 4
  {
    (b[0] as int) + 256 * (b[1] as int) + 65536 * (b[2] as int) + 16777216 * (b[3] as int)
  }

  lemma BytesRoundTrip(t: nat)
    requires t < 0x1_0000_0000
    ensures U32(Bytes32(t)) == t
  {
    var t1, t2, t3 := t / 256, t / 65536, t / 16777216;
    assert t2 == t1 / 256 && t3 == t2 / 256 && t3 < 256;
    assert t == t1 * 256 + t % 256 && t1 == t2 * 256 + t1 % 256 && t2 == t3 * 256 + t2 % 256;
  }

  datatype Step = Begin(time: nat) | Operate | Finish | Crash(image: seq<Byte>)

  ghost predicate Enabled(s: Pool, step: Step) {
    match step
    case Begin(time) => s.call.None? && time < 0x1_0000_0000 && |s.mem.durable| >= SLAB_NUM
    case Operate => s.call.Some? && s.call.value.done < 11 && |s.call.value.start| >= SLAB_NUM
    case Finish => s.call.Some? && s.call.value.done == 11
    case Crash(image) => Survives(s.mem, image) && |image| >= SLAB_NUM && 1 <= image[VALID] <= 2
  }

  /** A crash is followed by `pslab_pre_recover` and `pslab_do_recover` reading the flush time. */
  ghost function Apply(s: Pool, step: Step): Pool
    requires Enabled(s, step)
  {
    match step
    case Begin(time) => s.(call := Some(Call(time, s.mem.durable, 0)))
    case Operate =>
      var call := s.call.value;
      s.(mem := Exec(s.mem, CallProgram(s.chksum0, call)[call.done]),
         call := Some(call.(done := call.done + 1)))
    case Finish => s.(last := s.call.value.time, call := None)
    case Crash(image) =>
      Pool(Memory(image, []), Sum(Fixed(image)) % 256, U32(SlotBytes(image, image[VALID] - 1)), None)
  }

  ghost predicate Inv(s: Pool) {
    && s.last < 0x1_0000_0000
    && match s.call
       case None => Clean(s.mem, s.last) && s.chksum0 == Sum(Fixed(s.mem.durable)) % 256
       case Some(call) =>
         && Recovers(call.start, s.last)
         && s.chksum0 == Sum(Fixed(call.start)) % 256
         && call.time < 0x1_0000_0000
         && call.done <= 11
         && s.mem == ExecAll(Memory(call.start, []), CallProgram(s.chksum0, call)[..call.done])
  }

  ghost predicate Phase(s: Pool)
    requires s.call.Some? && |s.call.value.start| >= SLAB_NUM
  {
    var call := s.call.value;
    var i := IdleSlot(call.start[VALID]);
    if call.done <= 7 then Writing(s.mem, call.start, i)
    else if call.done <= 10 then Switching(s.mem, i, s.last, call.time)
    else Clean(s.mem, call.time) && Fixed(s.mem.durable) == Fixed(call.start)
  }

  /** The program splits at its first drain. */
  lemma ProgramTail(m: Memory, i: nat, b: seq<Byte>, ck: Byte)
    requires i < 2 && |b| == 4
    ensures var ops := Program(i, b, ck);
            var m8 := Exec(ExecAll(m, ops[..7]), Drain);
            var m9 := Exec(m8, Write(VALID, i + 1));
            var m10 := Exec(m9, Flush(VALID, 1));
            && ExecAll(m, ops[..8]) == m8 && ExecAll(m, ops[..9]) == m9 && ExecAll(m, ops[..10]) == m10
            && ExecAll(m, ops[..11]) == Exec(m10, Drain)
  {
    hide Exec, ExecAll;
    var ops := Program(i, b, ck);
    PrefixStep(m, ops, 7);
    PrefixStep(m, ops, 8);
    PrefixStep(m, ops, 9);
    PrefixStep(m, ops, 10);
  }

  /** Where the operations done so far have brought the header. */
  lemma InPhase(s: Pool)
    requires Inv(s) && s.call.Some?
    ensures Phase(s)
  {
    hide Bytes32, Sum, Complement, Filled, Switching, Clean, SlotOk, Exec, ExecAll, Program, Fixed;
    var call := s.call.value;
    var d, b, n := call.start, Bytes32(call.time), call.done;
    var i, ck := IdleSlot(d[VALID]), Complement(s.chksum0, Sum(b));
    var ops, m := Program(i, b, ck), Memory(d, []);
    FillPrefix(d, i, b, ck, if n < 7 then n else 7);
    if n <= 7 {
      FilledWrites(s.mem, d, ops, i, n);
    } else {
      var m7 := ExecAll(m, ops[..7]);
      var m8 := Exec(m7, Drain);
      FirstDrain(m7, d, i, s.last, call.time, ck);
      FirstDrainBytes(m7, d, i, b, ck);
      FixedFrame(d, m8.durable);
      SwitchOver(m8, i, s.last, call.time);
      ProgramTail(m, i, b, ck);
    }
  }

  lemma FilledWrites(m: Memory, d: seq<Byte>, ops: seq<Op>, i: nat, n: nat)
    requires i < 2 && |ops| == 11 && Filled(m, d, ops, i, n)
    ensures Writing(m, d, i)
  {
  }

  /** Whatever a crash leaves is accepted, with the last finished time or the interrupted one. */
  lemma CrashRecovers(s: Pool, image: seq<Byte>)
    requires Inv(s) && Survives(s.mem, image)
    ensures Recovers(image, s.last) || (s.call.Some? && Recovers(image, s.call.value.time))
  {
    hide SlotOk, Fixed;
    if s.call.None? {
      assert image == s.mem.durable;
    } else {
      InPhase(s);
      var call := s.call.value;
      var i := IdleSlot(call.start[VALID]);
      if call.done <= 7 {
        WritingSurvives(s.mem, call.start, i, s.last, image);
      } else if call.done <= 10 {
        SwitchingSurvives(s.mem, i, s.last, call.time, image);
      } else {
        assert image == s.mem.durable;
      }
    }
  }

  lemma StepKeeps(s: Pool, step: Step)
    requires Inv(s) && Enabled(s, step)
    ensures Inv(Apply(s, step))
  {
    hide SlotOk, Fixed, Bytes32, Sum, Complement, Exec, Survives;
    match step
    case Begin(time) =>
    case Operate =>
      var call := s.call.value;
      PrefixStep(Memory(call.start, []), CallProgram(s.chksum0, call), call.done);
    case Finish => InPhase(s);
    case Crash(image) =>
      CrashRecovers(s, image);
      RecoversTime(image, s.last);
      if s.call.Some? {
        RecoversTime(image, s.call.value.time);
      }
  }

  lemma RecoversTime(image: seq<Byte>, t: nat)
    requires t < 0x1_0000_0000
    ensures Recovers(image, t) ==> U32(SlotBytes(image, image[VALID] - 1)) == t
  {
    hide Bytes32, U32;
    BytesRoundTrip(t);
  }

  ghost predicate Runs(s: Pool, steps: seq<Step>, s': Pool)
    decreases |steps|
  {
    if steps == [] then s == s'
    else Enabled(s, steps[0]) && Runs(Apply(s, steps[0]), steps[1..], s')
  }

  lemma {:induction false} RunKeeps(s: Pool, steps: seq<Step>, s': Pool)
    requires Inv(s) && Runs(s, steps, s')
    ensures Inv(s')
    decreases |steps|
  {
    hide Inv, Apply;
    if steps != [] {
      StepKeeps(s, steps[0]);
      RunKeeps(Apply(s, steps[0]), steps[1..], s');
    }
  }

  /** From any pool that passes recovery: every crash point of every run, crashes and recoveries
      included, leaves a header whose valid slot checks and holds the last finished flush time or,
      within a call, the interrupted one. */
  lemma FlushTimeSurvives(image0: seq<Byte>, last: nat, steps: seq<Step>, s: Pool, image: seq<Byte>)
    requires last < 0x1_0000_0000 && Recovers(image0, last)
    requires Runs(Pool(Memory(image0, []), Sum(Fixed(image0)) % 256, last, None), steps, s)
    requires Survives(s.mem, image)
    ensures Recovers(image, s.last) || (s.call.Some? && Recovers(image, s.call.value.time))
  {
    RunKeeps(Pool(Memory(image0, []), Sum(Fixed(image0)) % 256, last, None), steps, s);
    CrashRecovers(s, image);
  }

  // ----- the code -----

  lemma ModAdd3(a: nat, b: nat, c: nat)
    ensures (a % 256 + b % 256 + c % 256) % 256 == (a + b + c) % 256
  {
    var low, high := a % 256 + b % 256 + c % 256, a / 256 + b / 256 + c / 256;
    QuotientUnique(a + b + c, 256, low / 256 + high, low % 256);
  }

  class PslabPool {
    var mem: Memory
    var chksum0: Byte
    /** Every operation performed on the mapped header. */
    ghost var log: seq<Op>

    /** The first n operations of a program that began on m0, when the log was log0, have been performed. */
    ghost predicate Performed(m0: Memory, log0: seq<Op>, ops: seq<Op>, n: nat)
      reads this`mem, this`log
    {
      n <= |ops| && mem == ExecAll(m0, ops[..n]) && log == log0 + ops[..n]
    }

    lemma AllPerformed(m0: Memory, log0: seq<Op>, ops: seq<Op>)
      requires Performed(m0, log0, ops, |ops|)
      ensures mem == ExecAll(m0, ops) && log == log0 + ops
    {
      assert ops[..|ops|] == ops;
    }

    method Do(op: Op, ghost m0: Memory, ghost log0: seq<Op>, ghost ops: seq<Op>, ghost n: nat)
      requires n < |ops| && op == ops[n] && Performed(m0, log0, ops, n)
      modifies this`mem, this`log
      ensures Performed(m0, log0, ops, n + 1)
    {
      PrefixStep(m0, ops, n);
      mem := Exec(mem, op);
      log := log + [op];
    }

    /** `pslab_checksum_init` on a freshly mapped header. */
    method ChecksumInit()
      requires |mem.durable| >= SLAB_NUM && mem.pending == []
      modifies this`chksum0
      ensures chksum0 == Sum(Fixed(mem.durable)) % 256
    {
      var d := mem.durable;
      var a := DoChecksum(d[..CHECKSUM]);
      var b := DoChecksum(d[STARTED..FLUSH_TIME]);
      var c := DoChecksum(d[SLAB_NUM..]);
      chksum0 := (a as nat + b as nat + c as nat) % 256;
      SumAppend(d[..CHECKSUM] + d[STARTED..FLUSH_TIME], d[SLAB_NUM..]);
      SumAppend(d[..CHECKSUM], d[STARTED..FLUSH_TIME]);
      ModAdd3(Sum(d[..CHECKSUM]), Sum(d[STARTED..FLUSH_TIME]), Sum(d[SLAB_NUM..]));
    }

    /** `pslab_checksum_check`: zero exactly when slot i is good for the time it holds. */
    method ChecksumCheck(i: nat) returns (sum: Byte)
      requires |mem.durable| >= SLAB_NUM && mem.pending == [] && i < 2
      requires chksum0 == Sum(Fixed(mem.durable)) % 256
      ensures forall t :: SlotBytes(mem.durable, i) == Bytes32(t) ==> (sum == 0 <==> SlotOk(mem.durable, i, t))
    {
      var d := mem.durable;
      var a := DoChecksum(d[CHECKSUM + i..CHECKSUM + i + 1]);
      var b := DoChecksum(SlotBytes(d, i));
      sum := (chksum0 as nat + a as nat + b as nat) % 256;
      assert d[CHECKSUM + i..CHECKSUM + i + 1] == [d[CHECKSUM + i]];
      assert Sum([d[CHECKSUM + i]]) == d[CHECKSUM + i] by { assert [d[CHECKSUM + i]][..0] == []; }
      ModAdd3(Sum(Fixed(d)), d[CHECKSUM + i], Sum(SlotBytes(d, i)));
    }

    /** The four bytes of the time. */
    method StoreTime(i: nat, b: seq<Byte>, ghost m0: Memory, ghost log0: seq<Op>, ghost ops: seq<Op>)
      requires i < 2 && |b| == 4 && |ops| >= 4 && mem == m0 && log == log0
      requires forall n :: 0 <= n < 4 ==> ops[n] == Write(FLUSH_TIME + 4 * i + n, b[n])
      modifies this`mem, this`log
      ensures Performed(m0, log0, ops, 4)
    {
      assert Performed(m0, log0, ops, 0);
      hide Performed, ExecAll;
      var at := FLUSH_TIME + 4 * i;
      Do(Write(at, b[0]), m0, log0, ops, 0);
      Do(Write(at + 1, b[1]), m0, log0, ops, 1);
      Do(Write(at + 2, b[2]), m0, log0, ops, 2);
      Do(Write(at + 3, b[3]), m0, log0, ops, 3);
    }

    method SwitchValid(i: nat, ghost m0: Memory, ghost log0: seq<Op>, ghost ops: seq<Op>)
      requires i < 2 && |ops| == 11 && Performed(m0, log0, ops, 8)
      requires ops[8] == Write(VALID, i + 1) && ops[9] == Flush(VALID, 1) && ops[10] == Drain
      modifies this`mem, this`log
      ensures Performed(m0, log0, ops, 11)
    {
      hide Performed, ExecAll;
      Do(Write(VALID, i + 1), m0, log0, ops, 8);
      Do(Flush(VALID, 1), m0, log0, ops, 9);
      Do(Drain, m0, log0, ops, 10);
    }

    /** The stores, flushes and drains that put time and checksum into slot i and make it the valid one. */
    method WriteSlot(i: nat, b: seq<Byte>, ck: Byte)
      requires i < 2 && |b| == 4
      modifies this`mem, this`log
      ensures mem == ExecAll(old(mem), Program(i, b, ck)) && log == old(log) + Program(i, b, ck)
    {
      ghost var m, before, ops := mem, log, Program(i, b, ck);
      ProgramAt(i, b, ck);
      hide Performed, ExecAll, Program;
      StoreTime(i, b, m, before, ops);
      Do(Write(CHECKSUM + i, ck), m, before, ops, 4);
      Do(Flush(FLUSH_TIME, 8), m, before, ops, 5);
      Do(Flush(CHECKSUM, 2), m, before, ops, 6);
      Do(Drain, m, before, ops, 7);
      SwitchValid(i, m, before, ops);
      AllPerformed(m, before, ops);
    }

    /** `pslab_update_flushtime` performs exactly the modelled operations, and ends with the new time drained. */
    method UpdateFlushtime(time: nat, ghost last: nat)
      requires time < 0x1_0000_0000 && last < 0x1_0000_0000
      requires Clean(mem, last) && chksum0 == Sum(Fixed(mem.durable)) % 256
      modifies this`mem, this`log
      ensures log == old(log) + CallProgram(chksum0, Call(time, old(mem.durable), 0))
      ensures mem == ExecAll(old(mem), CallProgram(chksum0, Call(time, old(mem.durable), 0)))
      ensures Clean(mem, time) && chksum0 == Sum(Fixed(mem.durable)) % 256
    {
      hide Bytes32, Sum, Exec, Complement, Fixed, SlotOk;
      ghost var call := Call(time, mem.durable, 11);
      var i := IdleSlot(mem.durable[VALID]);
      var b := Bytes32(time);
      var sum := DoChecksum(b);
      var ck := Complement(chksum0, sum);
      ComplementMod(chksum0, Sum(b));
      ghost var m, ops := mem, Program(i, b, ck);
      assert ops == CallProgram(chksum0, call);
      assert ops[..11] == ops;
      hide Program;
      WriteSlot(i, b, ck);
      InPhase(Pool(mem, chksum0, last, Some(call)));
    }
  }

  lemma ComplementMod(chksum0: nat, sum: nat)
    ensures Complement(chksum0, sum % 256) == Complement(chksum0, sum)
  {
    var q, x := sum / 256, chksum0 + sum % 256;
    QuotientUnique(chksum0 + sum, 256, q + x / 256, x % 256);
  }
}
