/** How an unchunked item in persistent memory is committed by link and retired by unlink. */
module ItemCommit {
  import opened Prelude
  import opened Pmem
  import opened Settling

  // Offsets in `item`.
  const TIME := 24
  const EXPTIME := 28
  const NSUFFIX := 38
  const FLAGS := 39
  const NKEY := 41
  const DATA := 48

  predicate Linked(flags: Byte) {
    flags % 2 == 1
  }

  predicate HasCas(flags: Byte) {
    flags / 2 % 2 == 1
  }

  function CasBytes(flags: Byte): nat {
    if HasCas(flags) then 8 else 0
  }

  /** nbytes, little end first */
  function ValueBytes(view: seq<Byte>): nat
    requires |view| >= DATA
  {
    view[32] as nat + 256 * view[33] as nat + 65536 * view[34] as nat + 16777216 * view[35] as nat
  }

  /** ITEM_dtotal */
  function DataTotal(view: seq<Byte>): nat
    requires |view| >= DATA
  {
    view[NKEY] as nat + 1 + view[NSUFFIX] as nat + ValueBytes(view) + CasBytes(view[FLAGS])
  }

  /** The bytes link must make durable: exptime, the lengths, and key, suffix and value. */
  predicate Payload(item: seq<Byte>, a: nat)
    requires |item| >= DATA
  {
    || EXPTIME <= a < 36
    || a == NSUFFIX
    || a == NKEY
    || DATA + CasBytes(item[FLAGS]) <= a < DATA + DataTotal(item)
  }

  /** The part of v from lo to hi, as far as there is one. */
  function Slice(v: seq<Byte>, lo: nat, hi: nat): seq<Byte> {
    if lo <= hi <= |v| then v[lo..hi] else []
  }

  /** Where the key found in a slot's bytes stands. */
  predicate KeyByte(view: seq<Byte>, a: nat)
    requires |view| >= DATA
  {
    a == NKEY || DATA + CasBytes(view[FLAGS]) <= a < DATA + CasBytes(view[FLAGS]) + view[NKEY]
  }

  function KeyOf(view: seq<Byte>): seq<Byte>
    requires |view| >= DATA
  {
    Slice(view, DATA + CasBytes(view[FLAGS]), DATA + CasBytes(view[FLAGS]) + view[NKEY])
  }

  /** Key, suffix and value stand behind the header, where the lengths in it place them. */
  ghost predicate Lays(view: seq<Byte>, key: seq<Byte>, suffix: seq<Byte>, value: seq<Byte>) {
    && |view| >= DATA && view[NKEY] == |key| && view[NSUFFIX] == |suffix|
    && view[32] as nat + 256 * view[33] as nat + 65536 * view[34] as nat + 16777216 * view[35] as nat == |value|
    && var at := DATA + if view[FLAGS] / 2 % 2 == 1 then 8 else 0;
       && Stands(view, at, key) && Stands(view, at + |key| + 1, suffix)
       && Stands(view, at + |key| + 1 + |suffix|, value)
  }

  ghost predicate Stands(view: seq<Byte>, at: nat, bytes: seq<Byte>) {
    at + |bytes| <= |view| && view[at..at + |bytes|] == bytes
  }

  /** The payload of an item is exptime, lengths, key with its NUL, suffix and value, and nothing else. */
  lemma PayloadExactly(item: seq<Byte>, key: seq<Byte>, suffix: seq<Byte>, value: seq<Byte>, a: nat)
    requires Lays(item, key, suffix, value)
    ensures KeyOf(item) == key
    ensures var at := DATA + if item[FLAGS] / 2 % 2 == 1 then 8 else 0;
            Payload(item, a) <==>
            28 <= a < 36 || a == 38 || a == 41 || at <= a < at + |key| + 1 + |suffix| + |value|
    ensures var at := DATA + if item[FLAGS] / 2 % 2 == 1 then 8 else 0;
            KeyByte(item, a) <==> a == 41 || at <= a < at + |key|
  {
  }

  lemma StandsStill(view: seq<Byte>, image: seq<Byte>, at: nat, bytes: seq<Byte>)
    requires Stands(view, at, bytes) && |image| == |view|
    requires forall a :: at <= a < at + |bytes| ==> image[a] == view[a]
    ensures Stands(image, at, bytes)
  {
  }

  /** An image with the payload of an item has its key, suffix and value. */
  lemma LaysStill(item: seq<Byte>, image: seq<Byte>, key: seq<Byte>, suffix: seq<Byte>, value: seq<Byte>)
    requires Lays(item, key, suffix, value) && |image| == |item| && HasCas(image[FLAGS]) == HasCas(item[FLAGS])
    requires forall a: nat :: a < |item| && Payload(item, a) ==> image[a] == item[a]
    ensures Lays(image, key, suffix, value)
  {
    hide KeyOf, DataTotal, Payload;
    var at := DATA + if item[FLAGS] / 2 % 2 == 1 then 8 else 0;
    forall a: nat | 28 <= a < 36 || a == 38 || a == 41 || at <= a < at + |key| + 1 + |suffix| + |value|
      ensures image[a] == item[a]
    {
      PayloadExactly(item, key, suffix, value, a);
    }
    StandsStill(item, image, at, key);
    StandsStill(item, image, at + |key| + 1, suffix);
    StandsStill(item, image, at + |key| + 1 + |suffix|, value);
  }

  /**
   * Where a slot is in its life. `item` is what the processor saw in it when link began, and `settled` are the
   * payload bytes that link made durable and that no store changed since.
   */
  datatype Phase =
    | Free
    | Preparing
    | Filling
    | LinkFlushed(item: seq<Byte>, settled: set<nat>)
    | LinkDrained(item: seq<Byte>, settled: set<nat>)
    | InTable(item: seq<Byte>, settled: set<nat>)
    | UnlinkStored(item: seq<Byte>, settled: set<nat>)
    | UnlinkFlushed(item: seq<Byte>, settled: set<nat>)
    | Unlinked

  datatype Slot = Slot(mem: Memory, phase: Phase)

  /** What the processor sees. */
  function View(m: Memory): (v: seq<Byte>)
    ensures |v| == |m.durable|
    ensures forall a :: 0 <= a < |v| ==> v[a] == Load(m, a)
  {
    seq(|m.durable|, a requires 0 <= a < |m.durable| => Load(m, a))
  }

  // ----- the life of one slot -----

  ghost predicate Holding(p: Phase) {
    p.LinkFlushed? || p.LinkDrained? || p.InTable? || p.UnlinkStored? || p.UnlinkFlushed?
  }

  ghost predicate NeverLinked(m: Memory)
    requires |m.durable| >= DATA
  {
    CanOnlyBe(m, FLAGS, (f: Byte) => !Linked(f))
  }

  /** The settled bytes can only be what link saw. */
  ghost predicate Persisted(m: Memory, item: seq<Byte>, settled: set<nat>) {
    && |item| == |m.durable| >= DATA
    && forall a :: a in settled ==>
         a < |item| && Payload(item, a) && CanOnlyBe(m, a, (v: Byte) => v == item[a])
  }

  /** The payload bytes that are settled once link has flushed what it flushes. */
  ghost function LinkSettles(m: Memory): (r: set<nat>)
    requires |m.durable| >= DATA
    ensures var m' := Exec(m, Flush(DATA, DataTotal(View(m))));
            forall a: nat :: a in r <==> a < |m.durable| && Payload(View(m), a) && Settled(m', a)
  {
    var m' := Exec(m, Flush(DATA, DataTotal(View(m))));
    set a: nat | a < |m.durable| && Payload(View(m), a) && Settled(m', a)
  }

  /** Key, suffix and value are always settled by link; a header byte exactly if it was settled before. */
  lemma LinkSettlesExactly(m: Memory, a: nat)
    requires |m.durable| >= DATA && Ordered(m.pending) && a < |m.durable| && Payload(View(m), a)
    ensures a in LinkSettles(m) <==> a >= DATA || Settled(m, a)
  {
    SettlesExactly(m, Flush(DATA, DataTotal(View(m))), a);
  }

  /** If the crash finds LINKED set, it finds the item's CAS flag too. */
  ghost predicate FlagsAgree(m: Memory, item: seq<Byte>)
    requires |m.durable| >= DATA && |item| >= DATA
  {
    CanOnlyBe(m, FLAGS, (f: Byte) => Linked(f) ==> HasCas(f) == HasCas(item[FLAGS]))
  }

  ghost predicate SlotOk(slot: Slot) {
    var m := slot.mem;
    && |m.durable| >= DATA
    && Ordered(m.pending)
    && match slot.phase
       case Free => NeverLinked(m)
       case Preparing => NeverLinked(m)
       case Filling => NeverLinked(m)
       case LinkFlushed(item, settled) =>
         && NeverLinked(m) && item == View(m)
         && forall a :: a in settled ==> a < |item| && Payload(item, a) && Settled(m, a)
       case LinkDrained(item, settled) =>
         NeverLinked(m) && Persisted(m, item, settled) && Load(m, FLAGS) == item[FLAGS]
       case InTable(item, settled) => Persisted(m, item, settled) && FlagsAgree(m, item)
       case UnlinkStored(item, settled) =>
         Persisted(m, item, settled) && FlagsAgree(m, item) && !Linked(Load(m, FLAGS))
       case UnlinkFlushed(item, settled) =>
         && Persisted(m, item, settled) && FlagsAgree(m, item)
         && !Linked(Load(m, FLAGS)) && AllFlushed(m, FLAGS)
       case Unlinked => NeverLinked(m)
  }

  /** One operation on one slot by the thread working on it, or a flush or drain by anyone. */
  datatype Act =
    | Alloc
    | Prepare(a: nat, v: Byte)
    | PrepareDone
    | Fill(a: nat, v: Byte)
    | Abandon
    | BeginLink
    | DrainLink
    | StoreLinked
    | Update(a: nat, v: Byte)
    | StoreUnlinked
    | FlushUnlinked
    | DrainUnlinked
    | Scribble(a: nat, v: Byte)
    | Recycle
    | FlushAny(lo: nat, len: nat)
    | DrainAny

  ghost predicate MayAct(slot: Slot, act: Act) {
    var m, p := slot.mem, slot.phase;
    && |m.durable| >= DATA
    && match act
       case Alloc => p.Free?
       case Prepare(a, v) => p.Preparing? && (a == FLAGS ==> !Linked(v))
       case PrepareDone => p.Preparing?
       case Fill(a, v) => p.Filling? && (a == FLAGS ==> !Linked(v))
       case Abandon => p.Filling?
       case BeginLink => p.Filling?
       case DrainLink => p.LinkFlushed?
       case StoreLinked => p.LinkDrained?
       case Update(a, v) =>
         && (p.InTable? || p.UnlinkStored? || p.UnlinkFlushed?)
         && (a == FLAGS ==> p.InTable? && Linked(v) && |p.item| >= DATA && HasCas(v) == HasCas(p.item[FLAGS]))
       case StoreUnlinked => p.InTable?
       case FlushUnlinked => p.UnlinkStored?
       case DrainUnlinked => p.UnlinkFlushed?
       case Scribble(a, v) => (p.Unlinked? || p.Free?) && (a == FLAGS ==> !Linked(v))
       case Recycle => p.Unlinked?
       case FlushAny(_, _) => true
       case DrainAny => true
  }

  /** it_flags |= ITEM_LINKED */
  function SetLinked(f: Byte): Byte {
    if Linked(f) then f else f + 1
  }

  /** it_flags &= ~ITEM_LINKED */
  function ClearLinked(f: Byte): Byte {
    if Linked(f) then f - 1 else f
  }

  /** The settled bytes after a store: one that changes a byte leaves it unsettled. */
  function StillSettled(m: Memory, settled: set<nat>, a: nat, v: Byte): set<nat> {
    if a < |m.durable| && v == Load(m, a) then settled else settled - {a}
  }

  ghost function Act1(slot: Slot, act: Act): Slot
    requires MayAct(slot, act)
  {
    var m := slot.mem;
    match act
    case Alloc => slot.(phase := Preparing)
    case Prepare(a, v) => slot.(mem := Exec(m, Write(a, v)))
    case PrepareDone => Slot(Exec(m, Flush(TIME, DATA - TIME)), Filling)
    case Fill(a, v) => slot.(mem := Exec(m, Write(a, v)))
    case Abandon => slot.(phase := Unlinked)
    case BeginLink => Slot(Exec(m, Flush(DATA, DataTotal(View(m)))), LinkFlushed(View(m), LinkSettles(m)))
    case DrainLink => Slot(Exec(m, Drain), LinkDrained(slot.phase.item, slot.phase.settled))
    case StoreLinked =>
      Slot(Exec(m, Write(FLAGS, SetLinked(Load(m, FLAGS)))), InTable(slot.phase.item, slot.phase.settled))
    case Update(a, v) => Slot(Exec(m, Write(a, v)), slot.phase.(settled := StillSettled(m, slot.phase.settled, a, v)))
    case StoreUnlinked =>
      Slot(Exec(m, Write(FLAGS, ClearLinked(Load(m, FLAGS)))), UnlinkStored(slot.phase.item, slot.phase.settled))
    case FlushUnlinked => Slot(Exec(m, Flush(FLAGS, 1)), UnlinkFlushed(slot.phase.item, slot.phase.settled))
    case DrainUnlinked => Slot(Exec(m, Drain), Unlinked)
    case Scribble(a, v) => slot.(mem := Exec(m, Write(a, v)))
    case Recycle => slot.(phase := Free)
    case FlushAny(lo, len) => slot.(mem := Exec(m, Flush(lo, len)))
    case DrainAny => slot.(mem := Exec(m, Drain))
  }

  // ----- what the three kinds of operation keep -----

  lemma PersistedDrain(m: Memory, item: seq<Byte>, settled: set<nat>)
    requires Persisted(m, item, settled)
    ensures Persisted(Exec(m, Drain), item, settled)
  {
    forall a | a in settled
      ensures CanOnlyBe(Exec(m, Drain), a, (v: Byte) => v == item[a])
    {
      DrainOnlyBe(m, a, (v: Byte) => v == item[a]);
    }
  }

  lemma PersistedFlush(m: Memory, item: seq<Byte>, settled: set<nat>, lo: nat, len: nat)
    requires Persisted(m, item, settled)
    ensures Persisted(Exec(m, Flush(lo, len)), item, settled)
  {
    hide Payload;
  }

  lemma PersistedWrite(m: Memory, item: seq<Byte>, settled: set<nat>, at: nat, v: Byte)
    requires Persisted(m, item, settled)
    ensures Persisted(Exec(m, Write(at, v)), item, StillSettled(m, settled, at, v))
    ensures at !in settled ==> StillSettled(m, settled, at, v) == settled
  {
    hide Payload;
    if at in settled {
      SureSettled(m, at, item[at]);
    }
  }

  lemma ViewDrain(m: Memory)
    requires Ordered(m.pending)
    ensures View(Exec(m, Drain)) == View(m)
  {
    forall a | 0 <= a < |m.durable|
      ensures View(Exec(m, Drain))[a] == View(m)[a]
    {
      DrainKeepsLoad(m, a);
    }
  }

  lemma ViewFlush(m: Memory, lo: nat, len: nat)
    ensures View(Exec(m, Flush(lo, len))) == View(m)
  {
    forall a | 0 <= a < |m.durable|
      ensures View(Exec(m, Flush(lo, len)))[a] == View(m)[a]
    {
      LoadFlush(m, lo, len, a);
    }
  }

  lemma OnlyBeDrain(m: Memory)
    requires |m.durable| >= DATA
    ensures NeverLinked(m) ==> NeverLinked(Exec(m, Drain))
    ensures forall item :: |item| >= DATA && FlagsAgree(m, item) ==> FlagsAgree(Exec(m, Drain), item)
  {
    if NeverLinked(m) {
      DrainOnlyBe(m, FLAGS, (f: Byte) => !Linked(f));
    }
    forall item: seq<Byte> | |item| >= DATA && FlagsAgree(m, item)
      ensures FlagsAgree(Exec(m, Drain), item)
    {
      DrainOnlyBe(m, FLAGS, (f: Byte) => Linked(f) ==> HasCas(f) == HasCas(item[FLAGS]));
    }
  }

  lemma OnlyBeFlush(m: Memory, lo: nat, len: nat)
    requires |m.durable| >= DATA
    ensures NeverLinked(m) ==> NeverLinked(Exec(m, Flush(lo, len)))
    ensures forall item :: |item| >= DATA && FlagsAgree(m, item) ==> FlagsAgree(Exec(m, Flush(lo, len)), item)
    ensures AllFlushed(m, FLAGS) ==> AllFlushed(Exec(m, Flush(lo, len)), FLAGS)
  {
  }

  /** An uninvited flush never hurts. */
  lemma FlushKeeps(slot: Slot, lo: nat, len: nat)
    requires SlotOk(slot)
    ensures SlotOk(slot.(mem := Exec(slot.mem, Flush(lo, len))))
  {
    var m := slot.mem;
    if Holding(slot.phase) && !slot.phase.LinkFlushed? {
      PersistedSize(m, slot.phase.item, slot.phase.settled);
    }
    hide CanOnlyBe, Exec, Payload, Settled, Persisted, AllFlushed, Ordered, FlagsAgree, NeverLinked;
    OrderedStep(m, Flush(lo, len));
    ViewFlush(m, lo, len);
    LoadFlush(m, lo, len, FLAGS);
    OnlyBeFlush(m, lo, len);
    match slot.phase
    case LinkFlushed(item, settled) =>
      forall a | a in settled
        ensures Settled(Exec(m, Flush(lo, len)), a)
      {
        SettlesExactly(m, Flush(lo, len), a);
      }
    case LinkDrained(item, settled) => PersistedFlush(m, item, settled, lo, len);
    case InTable(item, settled) => PersistedFlush(m, item, settled, lo, len);
    case UnlinkStored(item, settled) => PersistedFlush(m, item, settled, lo, len);
    case UnlinkFlushed(item, settled) => PersistedFlush(m, item, settled, lo, len);
    case Free =>
    case Preparing =>
    case Filling =>
    case Unlinked =>
  }

  /** An uninvited drain never hurts. */
  lemma DrainKeeps(slot: Slot)
    requires SlotOk(slot)
    ensures SlotOk(slot.(mem := Exec(slot.mem, Drain)))
  {
    var m := slot.mem;
    if Holding(slot.phase) && !slot.phase.LinkFlushed? {
      PersistedSize(m, slot.phase.item, slot.phase.settled);
    }
    hide CanOnlyBe, Exec, Payload, Settled, Persisted, AllFlushed, Ordered, FlagsAgree, NeverLinked;
    OrderedStep(m, Drain);
    ViewDrain(m);
    DrainKeepsLoad(m, FLAGS);
    OnlyBeDrain(m);
    match slot.phase
    case LinkFlushed(item, settled) =>
      forall a | a in settled
        ensures Settled(Exec(m, Drain), a)
      {
        DrainSettles(m, a);
      }
    case LinkDrained(item, settled) => PersistedDrain(m, item, settled);
    case InTable(item, settled) => PersistedDrain(m, item, settled);
    case UnlinkStored(item, settled) => PersistedDrain(m, item, settled);
    case UnlinkFlushed(item, settled) =>
      PersistedDrain(m, item, settled);
      AllFlushedDrain(m, FLAGS);
      NoneAllFlushed(Exec(m, Drain), FLAGS);
    case Free =>
    case Preparing =>
    case Filling =>
    case Unlinked =>
  }

  /** What link flushes, and what was settled in the header before, is settled. */
  lemma BeginLinkKeeps(slot: Slot)
    requires SlotOk(slot) && MayAct(slot, BeginLink)
    ensures SlotOk(Act1(slot, BeginLink))
  {
    hide Payload, Settled, Ordered, NeverLinked, DataTotal;
    var m := slot.mem;
    var n := DataTotal(View(m));
    OrderedStep(m, Flush(DATA, n));
    ViewFlush(m, DATA, n);
    OnlyBeFlush(m, DATA, n);
  }

  /** The drain of link makes every settled byte durable before LINKED is stored. */
  lemma DrainLinkKeeps(slot: Slot)
    requires SlotOk(slot) && MayAct(slot, DrainLink)
    ensures SlotOk(Act1(slot, DrainLink))
  {
    var m, item, settled := slot.mem, slot.phase.item, slot.phase.settled;
    hide CanOnlyBe, Exec, Payload, Settled, Ordered, NeverLinked;
    OrderedStep(m, Drain);
    OnlyBeDrain(m);
    DrainKeepsLoad(m, FLAGS);
    forall a | a in settled
      ensures CanOnlyBe(Exec(m, Drain), a, (v: Byte) => v == item[a])
    {
      DrainSettled(m, a);
      OnlyBeSame(Exec(m, Drain), a, Load(m, a), item[a]);
    }
  }

  /** The persist of unlink leaves no way back to LINKED. */
  lemma DrainUnlinkedKeeps(slot: Slot)
    requires SlotOk(slot) && MayAct(slot, DrainUnlinked)
    ensures SlotOk(Act1(slot, DrainUnlinked))
  {
    OrderedStep(slot.mem, Drain);
    DrainPersists(slot.mem, FLAGS);
  }

  lemma OnlyBeWrite(m: Memory, at: nat, v: Byte)
    requires |m.durable| >= DATA
    ensures NeverLinked(m) && (at == FLAGS ==> !Linked(v)) ==> NeverLinked(Exec(m, Write(at, v)))
    ensures forall item ::
              |item| >= DATA && FlagsAgree(m, item) && (at == FLAGS && Linked(v) ==> HasCas(v) == HasCas(item[FLAGS]))
              ==> FlagsAgree(Exec(m, Write(at, v)), item)
    ensures at != FLAGS && AllFlushed(m, FLAGS) ==> AllFlushed(Exec(m, Write(at, v)), FLAGS)
    ensures |Exec(m, Write(at, v)).durable| == |m.durable|
  {
  }

  /** The processor's flags are flags that a crash may find. */
  lemma LoadedFlags(m: Memory, item: seq<Byte>)
    requires |m.durable| >= DATA && |item| >= DATA
    ensures FlagsAgree(m, item) && Linked(Load(m, FLAGS)) ==> HasCas(Load(m, FLAGS)) == HasCas(item[FLAGS])
    ensures NeverLinked(m) ==> !Linked(Load(m, FLAGS))
  {
    LoadFrom(m, FLAGS);
  }

  lemma FlagsNow(m: Memory, item: seq<Byte>)
    requires |m.durable| >= DATA && |item| >= DATA && NeverLinked(m)
    ensures FlagsAgree(m, item)
  {
  }

  lemma PlainWriteKeeps(slot: Slot, act: Act)
    requires SlotOk(slot) && MayAct(slot, act) && (act.Prepare? || act.Fill? || act.Scribble?)
    ensures SlotOk(Act1(slot, act))
  {
    hide NeverLinked, Ordered, Exec, FlagsAgree;
    OrderedStep(slot.mem, Write(act.a, act.v));
    OnlyBeWrite(slot.mem, act.a, act.v);
  }

  lemma UpdateKeeps(slot: Slot, a: nat, v: Byte)
    requires SlotOk(slot) && MayAct(slot, Update(a, v))
    ensures SlotOk(Act1(slot, Update(a, v)))
  {
    hide NeverLinked, Ordered, Exec, FlagsAgree, Persisted, AllFlushed, Payload;
    var m, item, settled := slot.mem, slot.phase.item, slot.phase.settled;
    PersistedSize(m, item, settled);
    OrderedStep(m, Write(a, v));
    OnlyBeWrite(m, a, v);
    PersistedWrite(m, item, settled, a, v);
    LoadWrite(m, a, v, FLAGS);
  }

  lemma PersistedSize(m: Memory, item: seq<Byte>, settled: set<nat>)
    requires Persisted(m, item, settled)
    ensures |item| == |m.durable| >= DATA && FLAGS !in settled
  {
  }

  lemma StoreFlagsKeeps(slot: Slot, act: Act)
    requires SlotOk(slot) && MayAct(slot, act) && (act.StoreLinked? || act.StoreUnlinked?)
    ensures SlotOk(Act1(slot, act))
  {
    hide NeverLinked, Ordered, Exec, FlagsAgree, Persisted, AllFlushed, Payload;
    var m, item, settled := slot.mem, slot.phase.item, slot.phase.settled;
    PersistedSize(m, item, settled);
    var f := Load(m, FLAGS);
    var v := if act.StoreLinked? then SetLinked(f) else ClearLinked(f);
    LoadedFlags(m, item);
    if act.StoreLinked? {
      FlagsNow(m, item);
    }
    OrderedStep(m, Write(FLAGS, v));
    OnlyBeWrite(m, FLAGS, v);
    PersistedWrite(m, item, settled, FLAGS, v);
    LoadWrite(m, FLAGS, v, FLAGS);
  }

  lemma FlushedFlags(m: Memory)
    ensures AllFlushed(Exec(m, Flush(FLAGS, 1)), FLAGS)
  {
  }

  lemma ActKeeps(slot: Slot, act: Act)
    requires SlotOk(slot) && MayAct(slot, act)
    ensures SlotOk(Act1(slot, act))
  {
    hide Settled, Payload, CanOnlyBe, AllFlushed, Ordered;
    match act
    case Alloc =>
    case Abandon =>
    case Recycle =>
    case PrepareDone => FlushKeeps(slot, TIME, DATA - TIME);
    case FlushUnlinked =>
      FlushKeeps(slot, FLAGS, 1);
      FlushedFlags(slot.mem);
    case FlushAny(lo, len) => FlushKeeps(slot, lo, len);
    case DrainAny => DrainKeeps(slot);
    case BeginLink => BeginLinkKeeps(slot);
    case DrainLink => DrainLinkKeeps(slot);
    case DrainUnlinked => DrainUnlinkedKeeps(slot);
    case Update(a, v) => UpdateKeeps(slot, a, v);
    case StoreLinked => StoreFlagsKeeps(slot, act);
    case StoreUnlinked => StoreFlagsKeeps(slot, act);
    case Prepare(_, _) => PlainWriteKeeps(slot, act);
    case Fill(_, _) => PlainWriteKeeps(slot, act);
    case Scribble(_, _) => PlainWriteKeeps(slot, act);
  }

  lemma SlotBig(slot: Slot)
    requires SlotOk(slot)
    ensures |slot.mem.durable| >= DATA && (Holding(slot.phase) ==> |slot.phase.item| >= DATA)
  {
  }

  lemma SlotOrdered(slot: Slot)
    requires SlotOk(slot)
    ensures |slot.mem.durable| >= DATA && Ordered(slot.mem.pending)
    ensures slot.phase.InTable? ==> |slot.phase.item| == |slot.mem.durable|
  {
  }

  // ----- crashes -----

  /** A crash that finds LINKED set finds an item that was in the table, with every settled byte as link saw it. */
  lemma CrashFindsItem(slot: Slot, image: seq<Byte>)
    requires SlotOk(slot) && Survives(slot.mem, image)
    ensures Linked(image[FLAGS]) ==>
              && (slot.phase.InTable? || slot.phase.UnlinkStored? || slot.phase.UnlinkFlushed?)
              && |slot.phase.item| == |image|
              && HasCas(image[FLAGS]) == HasCas(slot.phase.item[FLAGS])
              && forall a :: a in slot.phase.settled ==> a < |image| && image[a] == slot.phase.item[a]
  {
    if Holding(slot.phase) && !slot.phase.LinkFlushed? {
      PersistedSize(slot.mem, slot.phase.item, slot.phase.settled);
      forall a | a in slot.phase.settled
        ensures a < |image| && image[a] == slot.phase.item[a]
      {
        SurvivesAs(slot.mem, image, a, slot.phase.item[a]);
      }
    }
  }

  /** An image with the payload and the CAS flag of an item has its lengths and its key. */
  lemma SameItem(image: seq<Byte>, item: seq<Byte>)
    requires |image| == |item| >= DATA && HasCas(image[FLAGS]) == HasCas(item[FLAGS])
    requires forall a: nat :: a < |item| && Payload(item, a) ==> image[a] == item[a]
    ensures DataTotal(image) == DataTotal(item) && KeyOf(image) == KeyOf(item)
    ensures forall a: nat :: a < |image| && Payload(image, a) ==> image[a] == item[a]
  {
    assert Payload(item, 32) && Payload(item, 33) && Payload(item, 34) && Payload(item, 35);
    assert Payload(item, NSUFFIX) && Payload(item, NKEY);
    assert DataTotal(image) == DataTotal(item);
    assert forall a: nat :: a < |image| ==> (Payload(image, a) <==> Payload(item, a));
    SameKey(image, item);
  }

  lemma SameKey(image: seq<Byte>, item: seq<Byte>)
    requires |image| == |item| >= DATA && HasCas(image[FLAGS]) == HasCas(item[FLAGS])
    requires forall a: nat :: a < |item| && KeyByte(item, a) ==> image[a] == item[a]
    ensures KeyOf(image) == KeyOf(item)
  {
    assert KeyByte(item, NKEY);
    var lo := DATA + CasBytes(item[FLAGS]);
    assert forall a: nat :: lo <= a < lo + item[NKEY] ==> KeyByte(item, a);
  }

  /** The memory when link has made LINKED durable. */
  function Committed(m: Memory): Memory
    requires |m.durable| >= DATA
  {
    var m1 := Exec(Exec(m, Flush(DATA, DataTotal(View(m)))), Drain);
    Exec(Exec(Exec(m1, Write(FLAGS, SetLinked(Load(m1, FLAGS)))), Flush(FLAGS, 1)), Drain)
  }

  /** Storing and persisting LINKED leaves another byte with the values it could have. */
  lemma LinkedElsewhere(m: Memory, v: Byte, a: nat)
    requires a < |m.durable| && a != FLAGS && forall i :: 0 <= i < |m.pending| ==> !m.pending[i].flushed
    ensures var m' := Exec(Exec(Exec(m, Write(FLAGS, v)), Flush(FLAGS, 1)), Drain);
            && |m'.durable| == |m.durable| && m'.durable[a] == m.durable[a]
            && forall i :: 0 <= i < |m.pending| && m.pending[i].addr == a ==> m.pending[i] in m'.pending
  {
    var m2 := Exec(Exec(m, Write(FLAGS, v)), Flush(FLAGS, 1));
    SettleNoneFlushed(m2.durable, m2.pending, a);
    UnflushedStay(m2.pending);
    forall i | 0 <= i < |m.pending| && m.pending[i].addr == a
      ensures m.pending[i] in Exec(m2, Drain).pending
    {
      assert m2.pending[i] == m.pending[i];
    }
  }

  /** A value that the byte may have after a crash, in an image with LINKED set. */
  lemma SomeImage(m: Memory, a: nat, v: Byte) returns (image: seq<Byte>)
    requires |m.durable| >= DATA && a < |m.durable| && a != FLAGS && Linked(m.durable[FLAGS])
    requires m.durable[a] == v || exists i :: 0 <= i < |m.pending| && m.pending[i].addr == a && m.pending[i].value == v
    ensures Survives(m, image) && Linked(image[FLAGS]) && image[a] == v
  {
    image := m.durable[a := v];
  }

  lemma CommittedLinked(m: Memory)
    requires |m.durable| >= DATA && Ordered(m.pending)
    ensures |Committed(m).durable| == |m.durable| && Linked(Committed(m).durable[FLAGS])
    ensures NonePending(Committed(m), FLAGS)
  {
    hide DataTotal;
    var n := DataTotal(View(m));
    var m1 := Exec(Exec(m, Flush(DATA, n)), Drain);
    OrderedStep(m, Flush(DATA, n));
    OrderedStep(Exec(m, Flush(DATA, n)), Drain);
    var f := SetLinked(Load(m1, FLAGS));
    var m2 := Exec(m1, Write(FLAGS, f));
    OrderedStep(m1, Write(FLAGS, f));
    OrderedStep(m2, Flush(FLAGS, 1));
    LoadWrite(m1, FLAGS, f, FLAGS);
    LoadFlush(m2, FLAGS, 1, FLAGS);
    DrainPersists(Exec(m2, Flush(FLAGS, 1)), FLAGS);
  }

  /** A crash after link finds a payload byte as link saw it exactly if link was called with the byte settled. */
  lemma CommitKeepsExactly(m: Memory, a: nat)
    requires |m.durable| >= DATA && Ordered(m.pending) && a < |m.durable| && Payload(View(m), a)
    ensures (forall image :: Survives(Committed(m), image) ==> Linked(image[FLAGS]) && image[a] == View(m)[a])
            <==> a >= DATA || Settled(m, a)
  {
    var n := DataTotal(View(m));
    var m0 := Exec(m, Flush(DATA, n));
    var m1 := Exec(m0, Drain);
    LinkSettlesExactly(m, a);
    LoadFlush(m, DATA, n, a);
    CommittedLinked(m);
    UnflushedFrom(m0.pending);
    UnflushedStay(m0.pending);
    LinkedElsewhere(m1, SetLinked(Load(m1, FLAGS)), a);
    hide DataTotal;
    if Settled(m0, a) {
      SettledCommits(m, a);
    } else {
      var v: Byte;
      if m1.durable[a] != Load(m, a) {
        v := m1.durable[a];
      } else {
        var i :| 0 <= i < |m0.pending| && m0.pending[i].addr == a && !m0.pending[i].flushed
                 && m0.pending[i].value != Load(m, a);
        v := m0.pending[i].value;
        assert m0.pending[i] in m1.pending;
      }
      var image := SomeImage(Committed(m), a, v);
    }
  }

  lemma SettledCommits(m: Memory, a: nat)
    requires |m.durable| >= DATA && Ordered(m.pending) && a < |m.durable| && a != FLAGS
    requires Settled(Exec(m, Flush(DATA, DataTotal(View(m)))), a)
    ensures forall image :: Survives(Committed(m), image) ==> Linked(image[FLAGS]) && image[a] == View(m)[a]
  {
    var n := DataTotal(View(m));
    var m0 := Exec(m, Flush(DATA, n));
    var m1 := Exec(m0, Drain);
    var p := (v: Byte) => v == Load(m, a);
    LoadFlush(m, DATA, n, a);
    DrainSettled(m0, a);
    var m3 := Exec(Exec(m1, Write(FLAGS, SetLinked(Load(m1, FLAGS)))), Flush(FLAGS, 1));
    assert CanOnlyBe(m3, a, p);
    DrainOnlyBe(m3, a, p);
    CommittedLinked(m);
    hide DataTotal, Load;
    forall image | Survives(Committed(m), image)
      ensures Linked(image[FLAGS]) && image[a] == View(m)[a]
    {
      SurvivesAs(Committed(m), image, a, Load(m, a));
    }
  }

  /** Alloc's flush settles the whole header. */
  lemma AllocSettles(slot: Slot)
    requires SlotOk(slot) && MayAct(slot, PrepareDone)
    ensures var m := Act1(slot, PrepareDone).mem;
            |m.durable| >= DATA && forall a: nat :: TIME <= a < DATA ==> Settled(m, a)
  {
    var m := Act1(slot, PrepareDone).mem;
    OrderedStep(slot.mem, Flush(TIME, DATA - TIME));
    forall a: nat | TIME <= a < DATA
      ensures Settled(m, a)
    {
      FlushedSettled(m, a);
    }
  }

  /**
   * Exactly when a crash after link finds a payload byte as link saw it, whatever the caller stores, flushes and
   * drains between alloc and link: always for key, suffix and value; for a byte of the header, if no store changed
   * it since it was last flushed, by the caller or by alloc.
   */
  lemma LinkKeepsExactly(slot: Slot, ops: seq<Op>, a: nat)
    requires SlotOk(slot) && MayAct(slot, PrepareDone)
    requires var m := ExecAll(Act1(slot, PrepareDone).mem, ops); a < |m.durable| && Payload(View(m), a)
    ensures var m0 := Act1(slot, PrepareDone).mem;
            var m := ExecAll(m0, ops);
            (forall image :: Survives(Committed(m), image) ==> Linked(image[FLAGS]) && image[a] == View(m)[a])
            <==> a >= DATA || Unchanged(m0, ops, a)
  {
    var m0 := Act1(slot, PrepareDone).mem;
    OrderedStep(slot.mem, Flush(TIME, DATA - TIME));
    AllocSettles(slot);
    assert TIME <= a;
    hide Committed, Settled, Survives, SlotOk, Act1, Payload, Ordered, DataTotal, Unchanged, Exec, ExecAll;
    OrderedAll(m0, ops);
    CommitKeepsExactly(ExecAll(m0, ops), a);
    if a < DATA {
      UnchangedExactly(m0, ops, a);
    }
  }

  // ----- the code of link and unlink -----

  /** Key, its NUL, suffix and value are those of `was`, for the lengths in its header. */
  ghost predicate DataFound(image: seq<Byte>, was: seq<Byte>)
    requires |image| == |was| >= DATA
  {
    var key := DATA + if was[FLAGS] / 2 % 2 == 1 then 8 else 0;
    var nbytes := was[32] as nat + 256 * was[33] as nat + 65536 * was[34] as nat + 16777216 * was[35] as nat;
    forall a :: key <= a < key + was[NKEY] + 1 + was[NSUFFIX] + nbytes && a < |was| ==> image[a] == was[a]
  }

  /** A linked item as link leaves it: LINKED, its time and CAS, and the data that was filled in. */
  ghost predicate ImageOf(image: seq<Byte>, was: seq<Byte>, time: seq<Byte>, cas: seq<Byte>) {
    && |image| == |was| >= DATA && Linked(image[FLAGS]) && image[TIME..TIME + 4] == time
    && (was[FLAGS] / 2 % 2 == 1 ==> |image| >= DATA + 8 && image[DATA..DATA + 8] == cas)
    && DataFound(image, was)
  }

  /** One slot; each operation of the code must be an act its phase allows. */
  class PmemItem {
    var mem: Memory
    ghost var phase: Phase

    ghost function State(): Slot
      reads this
    {
      Slot(mem, phase)
    }

    method Do(op: Op, ghost act: Act)
      requires SlotOk(State()) && MayAct(State(), act) && Act1(State(), act).mem == Exec(mem, op)
      modifies this
      ensures State() == Act1(old(State()), act) && SlotOk(State())
    {
      ActKeeps(State(), act);
      phase := Act1(State(), act).phase;
      mem := Exec(mem, op);
    }

    /** `pmem_persist` */
    method Persist(lo: nat, len: nat)
      requires SlotOk(State())
      modifies this
      ensures SlotOk(State()) && phase == old(phase) && |mem.durable| == |old(mem).durable|
      ensures forall a :: lo <= a < lo + len && a < |mem.durable| ==>
                NonePending(mem, a) && mem.durable[a] == Load(old(mem), a)
      ensures forall a :: 0 <= a < |mem.durable| && NonePending(old(mem), a) ==>
                NonePending(mem, a) && mem.durable[a] == old(mem).durable[a]
    {
      hide SlotOk;
      SlotOrdered(State());
      ghost var before := mem;
      Do(Flush(lo, len), FlushAny(lo, len));
      SlotOrdered(State());
      ghost var flushed := mem;
      Do(Drain, DrainAny);
      forall a | lo <= a < lo + len && a < |mem.durable|
        ensures NonePending(mem, a) && mem.durable[a] == Load(before, a)
      {
        LoadFlush(before, lo, len, a);
        DrainPersists(flushed, a);
      }
      forall a | 0 <= a < |mem.durable| && NonePending(before, a)
        ensures NonePending(mem, a) && mem.durable[a] == before.durable[a]
      {
        AllFlushedDrain(flushed, a);
        SettleUntouched(flushed.durable, flushed.pending, a);
      }
    }

    /**
     * The persistent part of `do_item_link` on an unchunked item. After it every crash finds LINKED, the link time,
     * the new CAS and every byte of key, suffix and value, for the lengths in the header.
     */
    method DoItemLink(time: seq<Byte>, cas: seq<Byte>)
      requires SlotOk(State()) && phase.Filling? && |time| == 4 && |cas| == 8
      requires HasCas(Load(mem, FLAGS)) ==> |mem.durable| >= DATA + 8
      modifies this
      ensures SlotOk(State()) && |old(mem).durable| >= DATA
      ensures phase == InTable(old(View(mem)), LinkSettles(old(mem)))
      ensures forall image :: Survives(mem, image) ==> ImageOf(image, old(View(mem)), time, cas)
    {
      hide SlotOk, DataTotal, Payload, LinkSettles, NonePending;
      SlotOrdered(State());
      ghost var m := mem;
      SettledApart(m);
      CommitLinked();
      Stamp(TIME, time);
      if HasCas(Load(mem, FLAGS)) {
        Stamp(DATA, cas);
      }
      LinkedImages(State(), m, time, cas);
    }

    /** Flush and drain the data, then set LINKED and persist it. */
    method CommitLinked()
      requires SlotOk(State()) && phase.Filling?
      modifies this
      ensures SlotOk(State()) && |old(mem).durable| == |mem.durable| >= DATA
      ensures phase == InTable(old(View(mem)), LinkSettles(old(mem)))
      ensures NonePending(mem, FLAGS) && Load(mem, FLAGS) == mem.durable[FLAGS]
      ensures Linked(mem.durable[FLAGS]) && HasCas(mem.durable[FLAGS]) == HasCas(old(View(mem))[FLAGS])
    {
      hide SlotOk, DataTotal, Payload, LinkSettles, Exec, NonePending;
      SlotOrdered(State());
      Do(Flush(DATA, DataTotal(View(mem))), BeginLink);
      Do(Drain, DrainLink);
      SlotOrdered(State());
      DrainedFlags(State());
      LoadWrite(mem, FLAGS, SetLinked(Load(mem, FLAGS)), FLAGS);
      Do(Write(FLAGS, SetLinked(Load(mem, FLAGS))), StoreLinked);
      Persist(FLAGS, 1);
      LoadNonePending(mem, FLAGS);
    }

    /** Stores bytes that are neither flags nor settled payload, and persists them. */
    method Stamp(at: nat, bytes: seq<Byte>)
      requires SlotOk(State()) && phase.InTable? && at + |bytes| <= |mem.durable|
      requires !(at <= FLAGS < at + |bytes|)
      requires forall a :: a in phase.settled ==> a < at || at + |bytes| <= a
      modifies this
      ensures SlotOk(State()) && phase == old(phase) && |mem.durable| == |old(mem).durable|
      ensures forall a :: at <= a < at + |bytes| ==> NonePending(mem, a) && mem.durable[a] == bytes[a - at]
      ensures forall a: nat :: a < |mem.durable| && NonePending(old(mem), a) && !(at <= a < at + |bytes|) ==>
                && NonePending(mem, a) && mem.durable[a] == old(mem).durable[a]
                && Load(mem, a) == Load(old(mem), a)
    {
      hide SlotOk, NonePending;
      ghost var m := mem;
      StoreBytes(at, bytes);
      Persist(at, |bytes|);
      forall a: nat | a < |mem.durable| && NonePending(m, a) && !(at <= a < at + |bytes|)
        ensures Load(mem, a) == Load(m, a)
      {
        LoadNonePending(m, a);
        LoadNonePending(mem, a);
      }
    }

    /** Stores to bytes that are neither flags nor settled payload. */
    method StoreBytes(at: nat, bytes: seq<Byte>)
      requires SlotOk(State()) && phase.InTable? && at + |bytes| <= |mem.durable|
      requires !(at <= FLAGS < at + |bytes|)
      requires forall a :: a in phase.settled ==> a < at || at + |bytes| <= a
      modifies this
      ensures SlotOk(State()) && phase == old(phase) && mem.durable == old(mem).durable
      ensures forall a :: at <= a < at + |bytes| ==> Load(mem, a) == bytes[a - at]
      ensures forall a: nat :: NonePending(old(mem), a) && !(at <= a < at + |bytes|) ==> NonePending(mem, a)
    {
      hide SlotOk;
      for i := 0 to |bytes|
        invariant SlotOk(State()) && phase == old(phase) && mem.durable == old(mem).durable
        invariant forall a :: at <= a < at + i ==> Load(mem, a) == bytes[a - at]
        invariant forall a: nat :: NonePending(old(mem), a) && !(at <= a < at + |bytes|) ==> NonePending(mem, a)
      {
        SlotOrdered(State());
        assert phase.settled - {at + i} == phase.settled;
        ghost var was := mem;
        Do(Write(at + i, bytes[i]), Update(at + i, bytes[i]));
        forall a | at <= a <= at + i
          ensures Load(mem, a) == bytes[a - at]
        {
          LoadWrite(was, at + i, bytes[i], a);
        }
      }
    }

    /** The persistent part of `do_item_unlink`: it ends with LINKED durably clear, before the item is removed. */
    method DoItemUnlink()
      requires SlotOk(State()) && phase.InTable?
      modifies this
      ensures SlotOk(State()) && phase == Unlinked
      ensures |mem.durable| >= DATA && NonePending(mem, FLAGS) && !Linked(mem.durable[FLAGS])
    {
      hide SlotOk, DataTotal;
      SlotOrdered(State());
      LoadWrite(mem, FLAGS, ClearLinked(Load(mem, FLAGS)), FLAGS);
      Do(Write(FLAGS, ClearLinked(Load(mem, FLAGS))), StoreUnlinked);
      SlotOrdered(State());
      LoadFlush(mem, FLAGS, 1, FLAGS);
      Do(Flush(FLAGS, 1), FlushUnlinked);
      SlotOrdered(State());
      DrainPersists(mem, FLAGS);
      Do(Drain, DrainUnlinked);
    }
  }

  /** The access time and the CAS are not part of the payload. */
  lemma SettledApart(m: Memory)
    requires |m.durable| >= DATA
    ensures forall a :: a in LinkSettles(m) ==> a < TIME || TIME + 4 <= a
    ensures HasCas(Load(m, FLAGS)) ==> forall a :: a in LinkSettles(m) ==> a < DATA || DATA + 8 <= a
  {
  }

  lemma DrainedFlags(slot: Slot)
    requires SlotOk(slot) && slot.phase.LinkDrained?
    ensures |slot.phase.item| == |slot.mem.durable| >= DATA && Load(slot.mem, FLAGS) == slot.phase.item[FLAGS]
  {
  }

  /** What link made durable is in every image. */
  lemma LinkedImages(slot: Slot, m: Memory, time: seq<Byte>, cas: seq<Byte>)
    requires SlotOk(slot) && |m.durable| >= DATA && Ordered(m.pending) && |time| == 4 && |cas| == 8
    requires slot.phase == InTable(View(m), LinkSettles(m))
    requires NonePending(slot.mem, FLAGS) && |slot.mem.durable| == |m.durable| && Linked(slot.mem.durable[FLAGS])
    requires forall a :: TIME <= a < TIME + 4 ==> NonePending(slot.mem, a) && slot.mem.durable[a] == time[a - TIME]
    requires HasCas(Load(m, FLAGS)) ==>
               && |m.durable| >= DATA + 8
               && forall a :: DATA <= a < DATA + 8 ==> NonePending(slot.mem, a) && slot.mem.durable[a] == cas[a - DATA]
    ensures forall image :: Survives(slot.mem, image) ==> ImageOf(image, View(m), time, cas)
  {
    hide SlotOk, LinkSettles, DataTotal, Payload, NonePending;
    forall image | Survives(slot.mem, image)
      ensures ImageOf(image, View(m), time, cas)
    {
      StampFound(slot.mem, image, TIME, time);
      StampFound(slot.mem, image, FLAGS, [slot.mem.durable[FLAGS]]);
      assert image[FLAGS] == image[FLAGS..FLAGS + 1][0];
      LinkedData(slot, m, image);
      if HasCas(Load(m, FLAGS)) {
        StampFound(slot.mem, image, DATA, cas);
      }
    }
  }

  lemma StampFound(m: Memory, image: seq<Byte>, at: nat, bytes: seq<Byte>)
    requires Survives(m, image) && at + |bytes| <= |m.durable|
    requires forall a :: at <= a < at + |bytes| ==> NonePending(m, a) && m.durable[a] == bytes[a - at]
    ensures at + |bytes| <= |image| && image[at..at + |bytes|] == bytes
  {
    forall a | at <= a < at + |bytes|
      ensures image[a] == bytes[a - at]
    {
      assert NonePending(m, a);
    }
  }

  lemma LinkedData(slot: Slot, m: Memory, image: seq<Byte>)
    requires SlotOk(slot) && |m.durable| >= DATA && Ordered(m.pending)
    requires slot.phase == InTable(View(m), LinkSettles(m)) && |slot.mem.durable| == |m.durable|
    requires Survives(slot.mem, image) && Linked(image[FLAGS])
    ensures |image| == |m.durable| && DataFound(image, View(m))
  {
    hide SlotOk, LinkSettles;
    CrashFindsItem(slot, image);
    var was := View(m);
    forall a: nat | a < |was| && a >= DATA && Payload(was, a)
      ensures image[a] == was[a]
    {
      LinkSettlesExactly(m, a);
    }
  }
}
