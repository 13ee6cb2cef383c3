/** Runs of many slots, with crashes in them: what a restart finds. */
module CommitRuns {
  import opened Prelude
  import opened Pmem
  import opened Settling
  import opened ItemCommit

  datatype Step = On(k: nat, act: Act) | Crash(images: seq<seq<Byte>>)

  /** Link is called only for keys that no other item has in the table or on its way in or out. */
  ghost predicate KeyAbsent(slots: seq<Slot>, k: nat)
    requires k < |slots| && |slots[k].mem.durable| >= DATA
  {
    forall j :: 0 <= j < |slots| && j != k && Holding(slots[j].phase) ==>
      |slots[j].phase.item| >= DATA && KeyOf(slots[j].phase.item) != KeyOf(View(slots[k].mem))
  }

  ghost predicate SurviveAll(slots: seq<Slot>, images: seq<seq<Byte>>) {
    |images| == |slots| && forall k :: 0 <= k < |slots| ==> Survives(slots[k].mem, images[k])
  }

  ghost predicate Enabled(slots: seq<Slot>, step: Step) {
    match step
    case On(k, act) =>
      k < |slots| && MayAct(slots[k], act) && (act.BeginLink? ==> KeyAbsent(slots, k))
    case Crash(images) =>
      SurviveAll(slots, images) && forall k :: 0 <= k < |slots| ==> |images[k]| >= DATA
  }

  ghost function AllPayload(image: seq<Byte>): (r: set<nat>)
    requires |image| >= DATA
    ensures forall a: nat :: a in r <==> a < |image| && Payload(image, a)
  {
    set a: nat | a < |image| && Payload(image, a)
  }

  /** After a crash a slot with LINKED set is an item again, and any other slot is free for reuse. */
  ghost function Restart(image: seq<Byte>): Slot
    requires |image| >= DATA
  {
    Slot(Memory(image, []), if Linked(image[FLAGS]) then InTable(image, AllPayload(image)) else Unlinked)
  }

  ghost function Apply(slots: seq<Slot>, step: Step): seq<Slot>
    requires Enabled(slots, step)
  {
    match step
    case On(k, act) => slots[k := Act1(slots[k], act)]
    case Crash(images) => seq(|slots|, k requires 0 <= k < |slots| && |images[k]| >= DATA => Restart(images[k]))
  }

  ghost predicate Inv(slots: seq<Slot>) {
    forall k :: 0 <= k < |slots| ==> SlotOk(slots[k])
  }

  lemma RestartOk(image: seq<Byte>)
    requires |image| >= DATA
    ensures SlotOk(Restart(image))
  {
  }

  lemma StepKeeps(slots: seq<Slot>, step: Step)
    requires Inv(slots) && Enabled(slots, step)
    ensures Inv(Apply(slots, step))
  {
    hide SlotOk, KeyOf, DataTotal;
    match step
    case On(k, act) => ActKeeps(slots[k], act);
    case Crash(images) =>
      forall k | 0 <= k < |slots|
        ensures SlotOk(Restart(images[k]))
      {
        RestartOk(images[k]);
      }
  }

  ghost predicate Runs(slots: seq<Slot>, steps: seq<Step>, slots': seq<Slot>)
    decreases |steps|
  {
    if steps == [] then slots == slots'
    else Enabled(slots, steps[0]) && Runs(Apply(slots, steps[0]), steps[1..], slots')
  }

  lemma {:induction false} RunKeeps(slots: seq<Slot>, steps: seq<Step>, slots': seq<Slot>)
    requires Inv(slots) && Runs(slots, steps, slots')
    ensures Inv(slots')
    decreases |steps|
  {
    if steps != [] {
      hide Inv, Apply;
      StepKeeps(slots, steps[0]);
      RunKeeps(Apply(slots, steps[0]), steps[1..], slots');
    }
  }

  /** A pool of free slots: no LINKED bit anywhere. */
  ghost predicate Initial(slots: seq<Slot>) {
    forall k :: 0 <= k < |slots| ==>
      && slots[k].phase == Free && slots[k].mem.pending == []
      && |slots[k].mem.durable| >= DATA && !Linked(slots[k].mem.durable[FLAGS])
  }

  // ----- bytes that a run leaves alone -----

  /** What a theorem is about: the whole payload, or only the key. */
  datatype Part = WholePayload | KeyOnly

  predicate Has(part: Part, item: seq<Byte>, a: nat)
    requires |item| >= DATA
  {
    match part
    case WholePayload => Payload(item, a)
    case KeyOnly => KeyByte(item, a)
  }

  /** Whether a byte has been changed since it was last flushed, by the thread that fills the slot or by alloc. */
  ghost function Dirtied(slot: Slot, act: Act, a: nat, dirty: bool): bool
    requires a < |slot.mem.durable|
  {
    match act
    case PrepareDone => false
    case Fill(b, v) => dirty || (b == a && v != Load(slot.mem, a))
    case FlushAny(lo, len) => dirty && !(lo <= a < lo + len)
    case _ => dirty
  }

  /** The act links no item with a dirty header byte, and changes no byte of an item in the table. */
  ghost predicate ActKept(slot: Slot, act: Act, part: Part, a: nat, dirty: bool)
    requires MayAct(slot, act) && a < |slot.mem.durable|
  {
    match act
    case BeginLink => dirty && Has(part, View(slot.mem), a) ==> a >= DATA
    case Update(b, v) =>
      b == a && |slot.phase.item| >= DATA && Has(part, slot.phase.item, a) ==> v == Load(slot.mem, a)
    case _ => true
  }

  ghost predicate StepKept(slots: seq<Slot>, step: Step, k: nat, part: Part, a: nat, dirty: bool)
    requires Enabled(slots, step)
  {
    match step
    case On(j, act) => j == k && a < |slots[k].mem.durable| ==> ActKept(slots[k], act, part, a, dirty)
    case Crash(_) => true
  }

  ghost function StepDirtied(slots: seq<Slot>, step: Step, k: nat, a: nat, dirty: bool): bool
    requires Enabled(slots, step)
  {
    if step.On? && step.k == k && a < |slots[k].mem.durable| then Dirtied(slots[k], step.act, a, dirty) else dirty
  }

  /**
   * Over the run, whoever fills slot k and whoever uses the item in it leave byte a alone, if it belongs to the part:
   * a byte of the header is not changed between alloc and link, or flushed again before link; and no byte is
   * changed from link to unlink.
   */
  ghost predicate Kept(slots: seq<Slot>, steps: seq<Step>, k: nat, part: Part, a: nat, dirty: bool)
    decreases |steps|
  {
    steps != [] ==>
      && Enabled(slots, steps[0])
      && StepKept(slots, steps[0], k, part, a, dirty)
      && Kept(Apply(slots, steps[0]), steps[1..], k, part, a, StepDirtied(slots, steps[0], k, a, dirty))
  }

  /** A clean byte of the header is settled while the slot is filled, and a byte left alone from link to unlink. */
  ghost predicate ByteOk(slot: Slot, part: Part, a: nat, dirty: bool)
    requires a < |slot.mem.durable|
  {
    && (slot.phase.Filling? && TIME <= a < DATA && !dirty ==> Settled(slot.mem, a))
    && (Holding(slot.phase) && |slot.phase.item| >= DATA && a < |slot.phase.item| && Has(part, slot.phase.item, a) ==>
          a in slot.phase.settled)
  }

  lemma FillKeepsByte(slot: Slot, act: Act, part: Part, a: nat, dirty: bool)
    requires SlotOk(slot) && MayAct(slot, act) && slot.phase.Filling? && (act.Fill? || act.FlushAny? || act.DrainAny?)
    requires a < |slot.mem.durable| && ByteOk(slot, part, a, dirty)
    ensures a < |Act1(slot, act).mem.durable|
    ensures ByteOk(Act1(slot, act), part, a, Dirtied(slot, act, a, dirty))
  {
    var op := match act case Fill(b, v) => Write(b, v) case FlushAny(lo, len) => Flush(lo, len) case _ => Drain;
    SlotOrdered(slot);
    hide Settled, SlotOk, Has, Exec, Ordered;
    SettlesExactly(slot.mem, op, a);
  }

  lemma HasIsPayload(part: Part, item: seq<Byte>, a: nat)
    requires |item| >= DATA && Has(part, item, a)
    ensures Payload(item, a)
  {
  }

  lemma BeginLinkKeepsByte(slot: Slot, part: Part, a: nat, dirty: bool)
    requires SlotOk(slot) && MayAct(slot, BeginLink)
    requires a < |slot.mem.durable| && ByteOk(slot, part, a, dirty) && ActKept(slot, BeginLink, part, a, dirty)
    ensures a < |Act1(slot, BeginLink).mem.durable| && ByteOk(Act1(slot, BeginLink), part, a, dirty)
  {
    SlotOrdered(slot);
    var v := View(slot.mem);
    if Has(part, v, a) {
      HasIsPayload(part, v, a);
      assert TIME <= a;
      LinkSettlesExactly(slot.mem, a);
    }
    hide Settled, SlotOk, Has, Exec, Ordered, Payload, DataTotal;
  }

  lemma ActKeepsByte(slot: Slot, act: Act, part: Part, a: nat, dirty: bool)
    requires SlotOk(slot) && MayAct(slot, act)
    requires a < |slot.mem.durable| && ByteOk(slot, part, a, dirty) && ActKept(slot, act, part, a, dirty)
    ensures a < |Act1(slot, act).mem.durable|
    ensures ByteOk(Act1(slot, act), part, a, Dirtied(slot, act, a, dirty))
  {
    if act.PrepareDone? {
      AllocSettles(slot);
    } else if act.BeginLink? {
      BeginLinkKeepsByte(slot, part, a, dirty);
    } else if slot.phase.Filling? && (act.Fill? || act.FlushAny? || act.DrainAny?) {
      FillKeepsByte(slot, act, part, a, dirty);
    } else {
      hide Settled, SlotOk, Has, Exec;
    }
  }

  lemma RestartKeepsByte(image: seq<Byte>, part: Part, a: nat, dirty: bool)
    requires |image| >= DATA && a < |image|
    ensures ByteOk(Restart(image), part, a, dirty)
  {
    if Has(part, image, a) {
      HasIsPayload(part, image, a);
    }
  }

  lemma StepKeepsByte(slots: seq<Slot>, step: Step, k: nat, part: Part, a: nat, dirty: bool)
    requires Inv(slots) && Enabled(slots, step) && StepKept(slots, step, k, part, a, dirty)
    requires k < |slots| && a < |slots[k].mem.durable| && ByteOk(slots[k], part, a, dirty)
    ensures |Apply(slots, step)| == |slots| && |Apply(slots, step)[k].mem.durable| == |slots[k].mem.durable|
    ensures ByteOk(Apply(slots, step)[k], part, a, StepDirtied(slots, step, k, a, dirty))
  {
    hide SlotOk, ByteOk;
    match step
    case On(j, act) =>
      if j == k {
        ActKeepsByte(slots[k], act, part, a, dirty);
      }
      hide Dirtied, Exec;
    case Crash(images) => RestartKeepsByte(images[k], part, a, dirty);
  }

  lemma {:induction false} RunKeepsByte(
    slots: seq<Slot>, steps: seq<Step>, slots': seq<Slot>, k: nat, part: Part, a: nat, dirty: bool)
    requires Inv(slots) && Runs(slots, steps, slots') && Kept(slots, steps, k, part, a, dirty)
    requires k < |slots| && a < |slots[k].mem.durable| && ByteOk(slots[k], part, a, dirty)
    ensures |slots'| == |slots| && |slots'[k].mem.durable| == |slots[k].mem.durable|
    ensures exists dirty' :: ByteOk(slots'[k], part, a, dirty')
    decreases |steps|
  {
    if steps != [] {
      hide Inv, Apply, Enabled, StepKept, StepDirtied, ByteOk;
      StepKeeps(slots, steps[0]);
      StepKeepsByte(slots, steps[0], k, part, a, dirty);
      var dirty1 := StepDirtied(slots, steps[0], k, a, dirty);
      RunKeepsByte(Apply(slots, steps[0]), steps[1..], slots', k, part, a, dirty1);
    }
  }

  /** The slot holds no item, and none is being filled in. */
  ghost predicate Vacant(p: Phase) {
    !p.Filling? && !Holding(p)
  }

  /**
   * Over every run, with any number of crashes in it, and a crash at its end: a slot found LINKED was in the table,
   * with the item's CAS flag, and holds what link saw in every byte of the payload that was left alone since some
   * time when the slot was vacant; a slot that was handed back or is being prepared is not found LINKED.
   */
  lemma CommitSurvivesCrash(
    slots0: seq<Slot>, before: seq<Step>, slots1: seq<Slot>, steps: seq<Step>, slots: seq<Slot>,
    images: seq<seq<Byte>>, k: nat)
    requires Initial(slots0) && Runs(slots0, before, slots1) && Runs(slots1, steps, slots)
    requires SurviveAll(slots, images) && k < |slots| && (k < |slots1| ==> Vacant(slots1[k].phase))
    ensures |images[k]| >= DATA
    ensures Linked(images[k][FLAGS]) ==>
              && (slots[k].phase.InTable? || slots[k].phase.UnlinkStored? || slots[k].phase.UnlinkFlushed?)
              && |slots[k].phase.item| == |images[k]|
              && HasCas(images[k][FLAGS]) == HasCas(slots[k].phase.item[FLAGS])
              && forall a: nat ::
                   && a < |images[k]| && Payload(slots[k].phase.item, a)
                   && Kept(slots1, steps, k, WholePayload, a, false)
                   ==> images[k][a] == slots[k].phase.item[a]
  {
    hide SlotOk, KeyOf, DataTotal, Payload, Kept, Settled, Runs;
    InitialInv(slots0);
    RunKeeps(slots0, before, slots1);
    RunKeeps(slots1, steps, slots);
    RunSize(slots1, steps, slots);
    SlotBig(slots[k]);
    CrashFindsItem(slots[k], images[k]);
    if Linked(images[k][FLAGS]) {
      forall a: nat | && a < |images[k]| && Payload(slots[k].phase.item, a)
                      && Kept(slots1, steps, k, WholePayload, a, false)
        ensures a in slots[k].phase.settled
      {
        RunKeepsByte(slots1, steps, slots, k, WholePayload, a, false);
      }
    }
  }

  /**
   * If the whole payload of a slot was left alone since then, a slot found LINKED holds the item: lengths, exptime,
   * key, suffix and value.
   */
  lemma ItemSurvivesCrash(
    slots0: seq<Slot>, before: seq<Step>, slots1: seq<Slot>, steps: seq<Step>, slots: seq<Slot>,
    images: seq<seq<Byte>>, k: nat)
    requires Initial(slots0) && Runs(slots0, before, slots1) && Runs(slots1, steps, slots)
    requires SurviveAll(slots, images) && k < |slots| && (k < |slots1| ==> Vacant(slots1[k].phase))
    requires forall a: nat :: a < |images[k]| ==> Kept(slots1, steps, k, WholePayload, a, false)
    ensures |images[k]| >= DATA
    ensures Linked(images[k][FLAGS]) ==>
              && Holding(slots[k].phase) && |slots[k].phase.item| == |images[k]|
              && DataTotal(images[k]) == DataTotal(slots[k].phase.item)
              && KeyOf(images[k]) == KeyOf(slots[k].phase.item)
              && (forall a: nat :: a < |images[k]| && Payload(images[k], a) ==> images[k][a] == slots[k].phase.item[a])
              && forall key, suffix, value ::
                   Lays(slots[k].phase.item, key, suffix, value) ==> Lays(images[k], key, suffix, value)
  {
    hide Kept, Runs, Initial, DataTotal, KeyOf, Payload, Lays;
    CommitSurvivesCrash(slots0, before, slots1, steps, slots, images, k);
    if Linked(images[k][FLAGS]) {
      SameItem(images[k], slots[k].phase.item);
      forall key, suffix, value | Lays(slots[k].phase.item, key, suffix, value)
        ensures Lays(images[k], key, suffix, value)
      {
        LaysStill(slots[k].phase.item, images[k], key, suffix, value);
      }
    }
  }

  /** The number and the sizes of the slots do not change. */
  lemma {:induction false} RunSize(slots: seq<Slot>, steps: seq<Step>, slots': seq<Slot>)
    requires Runs(slots, steps, slots')
    ensures |slots'| == |slots|
    ensures forall k :: 0 <= k < |slots| ==> |slots'[k].mem.durable| == |slots[k].mem.durable|
    decreases |steps|
  {
    if steps != [] {
      StepSize(slots, steps[0]);
      hide Apply, Enabled;
      RunSize(Apply(slots, steps[0]), steps[1..], slots');
    }
  }

  lemma StepSize(slots: seq<Slot>, step: Step)
    requires Enabled(slots, step)
    ensures |Apply(slots, step)| == |slots|
    ensures forall k :: 0 <= k < |slots| ==> |Apply(slots, step)[k].mem.durable| == |slots[k].mem.durable|
  {
    hide Exec;
  }

  lemma InitialInv(slots: seq<Slot>)
    requires Initial(slots)
    ensures Inv(slots)
  {
  }

  // ----- a header byte stored between alloc and link -----

  /** What the external storage thread does to its header item: after alloc has flushed it, a byte of it is stored. */
  function HeaderStore(a: nat, v: Byte): seq<Act> {
    [Alloc, PrepareDone, Fill(a, v)] + [BeginLink, DrainLink, StoreLinked, FlushAny(FLAGS, 1), DrainAny]
  }

  ghost function ActAll(slot: Slot, acts: seq<Act>): Option<Slot>
    decreases |acts|
  {
    if acts == [] then Some(slot)
    else if MayAct(slot, acts[0]) then ActAll(Act1(slot, acts[0]), acts[1..])
    else None
  }

  /** A run of one slot. */
  lemma {:induction false} OneSlotRuns(slot: Slot, acts: seq<Act>, slot': Slot)
    requires ActAll(slot, acts) == Some(slot')
    ensures Runs([slot], OnFirst(acts), [slot'])
    decreases |acts|
  {
    if acts != [] {
      var slot1 := Act1(slot, acts[0]);
      assert OnFirst(acts)[0] == On(0, acts[0]) && OnFirst(acts)[1..] == OnFirst(acts[1..]);
      assert [slot][0 := slot1] == [slot1];
      OneSlotRuns(slot1, acts[1..], slot');
    }
  }

  function OnFirst(acts: seq<Act>): (r: seq<Step>)
    ensures |r| == |acts|
  {
    seq(|acts|, i requires 0 <= i < |acts| => On(0, acts[i]))
  }

  lemma LinkActs(slot: Slot)
    requires slot.phase.Filling? && |slot.mem.durable| >= DATA
    ensures var acts := [BeginLink, DrainLink, StoreLinked, FlushAny(FLAGS, 1), DrainAny];
            ActAll(slot, acts) == Some(Slot(Committed(slot.mem), InTable(View(slot.mem), LinkSettles(slot.mem))))
  {
    hide Exec, DataTotal, Payload, ActAll;
    var s1 := Act1(slot, BeginLink);
    var s2 := Act1(s1, DrainLink);
    var s3 := Act1(s2, StoreLinked);
    var s4 := Act1(s3, FlushAny(FLAGS, 1));
    ActMore(slot, BeginLink, [DrainLink, StoreLinked, FlushAny(FLAGS, 1), DrainAny]);
    ActMore(s1, DrainLink, [StoreLinked, FlushAny(FLAGS, 1), DrainAny]);
    ActMore(s2, StoreLinked, [FlushAny(FLAGS, 1), DrainAny]);
    ActMore(s3, FlushAny(FLAGS, 1), [DrainAny]);
    ActMore(s4, DrainAny, []);
    ActNone(Act1(s4, DrainAny));
    hide Act1, MayAct;
    var acts: seq<Act> := [BeginLink, DrainLink, StoreLinked, FlushAny(FLAGS, 1), DrainAny];
    assert acts == [BeginLink] + [DrainLink, StoreLinked, FlushAny(FLAGS, 1), DrainAny];
    assert [DrainLink] + [StoreLinked, FlushAny(FLAGS, 1), DrainAny]
        == [DrainLink, StoreLinked, FlushAny(FLAGS, 1), DrainAny];
    assert [StoreLinked] + [FlushAny(FLAGS, 1), DrainAny] == [StoreLinked, FlushAny(FLAGS, 1), DrainAny];
    assert [FlushAny(FLAGS, 1)] + [DrainAny] == [FlushAny(FLAGS, 1), DrainAny];
    assert [DrainAny] + [] == [DrainAny];
  }

  lemma ActMore(slot: Slot, act: Act, rest: seq<Act>)
    requires MayAct(slot, act)
    ensures ActAll(slot, [act] + rest) == ActAll(Act1(slot, act), rest)
  {
    assert ([act] + rest)[1..] == rest;
  }

  lemma ActNone(slot: Slot)
    ensures ActAll(slot, []) == Some(slot)
  {
  }

  /**
   * From any free slot: if a header byte of the payload is stored to between alloc and link with another value, a
   * crash after link can find LINKED set and the old byte.
   */
  lemma HeaderStoreLost(durable: seq<Byte>, a: nat, v: Byte) returns (slot: Slot, image: seq<Byte>)
    requires EXPTIME <= a < 36 || a == NSUFFIX || a == NKEY
    requires |durable| >= DATA && !Linked(durable[FLAGS]) && v != durable[a]
    ensures Initial([Slot(Memory(durable, []), Free)])
    ensures Runs([Slot(Memory(durable, []), Free)], OnFirst(HeaderStore(a, v)), [slot])
    ensures SurviveAll([slot], [image]) && slot.phase.InTable? && |slot.phase.item| == |image| >= DATA
    ensures Linked(image[FLAGS]) && Payload(slot.phase.item, a) && image[a] != slot.phase.item[a]
  {
    var m := Memory(durable, [Store(a, v, false)]);
    var s0 := Slot(Memory(durable, []), Free);
    slot := Slot(Committed(m), InTable(View(m), LinkSettles(m)));
    HeaderStoreActs(durable, a, v);
    OneSlotRuns(s0, HeaderStore(a, v), slot);
    StoreUnsettles(durable, a, v);
    CommitKeepsExactly(m, a);
    CommittedLinked(m);
    image :| Survives(Committed(m), image) && !(Linked(image[FLAGS]) && image[a] == View(m)[a]);
    assert image[FLAGS] == Committed(m).durable[FLAGS];
    hide Committed, LinkSettles, Payload, View;
  }

  lemma HeaderStoreActs(durable: seq<Byte>, a: nat, v: Byte)
    requires |durable| >= DATA && (EXPTIME <= a < 36 || a == NSUFFIX || a == NKEY)
    ensures var m := Memory(durable, [Store(a, v, false)]);
            var slot := Slot(Committed(m), InTable(View(m), LinkSettles(m)));
            ActAll(Slot(Memory(durable, []), Free), HeaderStore(a, v)) == Some(slot)
  {
    hide ActAll, Committed, LinkSettles, View, Payload;
    var m := Memory(durable, [Store(a, v, false)]);
    var link := [BeginLink, DrainLink, StoreLinked, FlushAny(FLAGS, 1), DrainAny];
    var free := Slot(Memory(durable, []), Free);
    LinkActs(Slot(m, Filling));
    assert Exec(Memory(durable, []), Flush(TIME, DATA - TIME)) == Memory(durable, []);
    assert Exec(Memory(durable, []), Write(a, v)) == m;
    ActMore(Slot(Memory(durable, []), Filling), Fill(a, v), link);
    ActMore(Slot(Memory(durable, []), Preparing), PrepareDone, [Fill(a, v)] + link);
    ActMore(free, Alloc, [PrepareDone] + ([Fill(a, v)] + link));
    assert HeaderStore(a, v) == [Alloc] + ([PrepareDone] + ([Fill(a, v)] + link));
  }

  lemma StoreUnsettles(durable: seq<Byte>, a: nat, v: Byte)
    requires a < |durable| && v != durable[a]
    ensures !Settled(Memory(durable, [Store(a, v, false)]), a)
  {
    var m := Memory(durable, []);
    assert Exec(m, Write(a, v)) == Memory(durable, [Store(a, v, false)]);
    assert Settled(m, a);
    SettlesExactly(m, Write(a, v), a);
  }

  // ----- keys -----

  /** Every byte that the key is read from is settled. */
  ghost predicate KeySettled(p: Phase)
    requires Holding(p) && |p.item| >= DATA
  {
    forall a: nat :: a < |p.item| && KeyByte(p.item, a) ==> a in p.settled
  }

  /** Over the run every key is left alone: its length between alloc and link, and all of it from link to unlink. */
  ghost predicate KeysKept(slots: seq<Slot>, steps: seq<Step>, dirty: (nat, nat) -> bool) {
    forall k: nat, a: nat :: Kept(slots, steps, k, KeyOnly, a, dirty(k, a))
  }

  /** What the keys of the slots rest on. */
  ghost predicate KeysOk(slots: seq<Slot>, dirty: (nat, nat) -> bool) {
    forall k: nat, a: nat :: k < |slots| && a < |slots[k].mem.durable| ==> ByteOk(slots[k], KeyOnly, a, dirty(k, a))
  }

  ghost predicate UniqueKeys(slots: seq<Slot>) {
    && (forall k :: 0 <= k < |slots| && Holding(slots[k].phase) ==> |slots[k].phase.item| >= DATA)
    && (forall j, k :: 0 <= j < k < |slots| && Holding(slots[j].phase) && Holding(slots[k].phase) ==>
          KeyOf(slots[j].phase.item) != KeyOf(slots[k].phase.item))
  }

  /** A crash leaves a settled key as it was. */
  lemma CrashFindsKey(slot: Slot, image: seq<Byte>)
    requires SlotOk(slot) && Survives(slot.mem, image) && Linked(image[FLAGS])
    requires Holding(slot.phase) ==> |slot.phase.item| >= DATA && KeySettled(slot.phase)
    ensures Holding(slot.phase) && |slot.phase.item| == |image| >= DATA && KeyOf(image) == KeyOf(slot.phase.item)
  {
    CrashFindsItem(slot, image);
    SlotBig(slot);
    hide SlotOk, Survives, DataTotal;
    SameKey(image, slot.phase.item);
  }

  lemma KeyIsSettled(slots: seq<Slot>, k: nat, dirty: (nat, nat) -> bool)
    requires Inv(slots) && KeysOk(slots, dirty) && k < |slots| && Holding(slots[k].phase)
    ensures |slots[k].phase.item| >= DATA && KeySettled(slots[k].phase)
  {
    SlotBig(slots[k]);
    hide KeyByte, Settled;
    var p := slots[k].phase;
    forall a: nat | a < |p.item| && KeyByte(p.item, a)
      ensures a in p.settled
    {
      assert ByteOk(slots[k], KeyOnly, a, dirty(k, a));
    }
  }

  /** After a crash no two slots found LINKED share a key. */
  lemma CrashKeys(slots: seq<Slot>, dirty: (nat, nat) -> bool, images: seq<seq<Byte>>)
    requires Inv(slots) && KeysOk(slots, dirty) && UniqueKeys(slots) && SurviveAll(slots, images)
    ensures forall k :: 0 <= k < |slots| ==> |images[k]| >= DATA
    ensures forall j, k :: 0 <= j < k < |slots| && Linked(images[j][FLAGS]) && Linked(images[k][FLAGS]) ==>
              KeyOf(images[j]) != KeyOf(images[k])
  {
    hide SlotOk, KeyOf, KeysOk, KeySettled;
    forall k | 0 <= k < |slots|
      ensures |images[k]| >= DATA
    {
      SlotBig(slots[k]);
    }
    forall k | 0 <= k < |slots| && Linked(images[k][FLAGS])
      ensures Holding(slots[k].phase) && |slots[k].phase.item| >= DATA
      ensures KeyOf(images[k]) == KeyOf(slots[k].phase.item)
    {
      if Holding(slots[k].phase) {
        KeyIsSettled(slots, k, dirty);
      }
      CrashFindsKey(slots[k], images[k]);
    }
  }

  lemma KeyStepKeeps(slots: seq<Slot>, step: Step, dirty: (nat, nat) -> bool)
    requires Inv(slots) && Enabled(slots, step) && KeysOk(slots, dirty) && UniqueKeys(slots)
    ensures UniqueKeys(Apply(slots, step))
  {
    hide SlotOk, KeyOf, KeysOk, ByteOk;
    match step
    case On(k, act) => KeyActKeeps(slots, k, act);
    case Crash(images) => CrashKeys(slots, dirty, images);
  }

  lemma KeyActKeeps(slots: seq<Slot>, k: nat, act: Act)
    requires Inv(slots) && Enabled(slots, On(k, act)) && UniqueKeys(slots)
    ensures UniqueKeys(Apply(slots, On(k, act)))
  {
    hide SlotOk, KeyOf, Act1, MayAct, View;
    SlotOrdered(slots[k]);
    if Holding(Act1(slots[k], act).phase) {
      ItemStays(slots[k], act);
    }
  }

  /** Only link decides which item a slot holds. */
  lemma ItemStays(slot: Slot, act: Act)
    requires MayAct(slot, act) && Holding(Act1(slot, act).phase)
    ensures act.BeginLink? ==> Act1(slot, act).phase.item == View(slot.mem)
    ensures !act.BeginLink? ==> Holding(slot.phase) && Act1(slot, act).phase.item == slot.phase.item
  {
    hide Exec, Load, LinkSettles;
  }

  lemma {:induction false} KeyRunKeeps(
    slots: seq<Slot>, steps: seq<Step>, slots': seq<Slot>, dirty: (nat, nat) -> bool)
    returns (dirty': (nat, nat) -> bool)
    requires Inv(slots) && Runs(slots, steps, slots') && KeysKept(slots, steps, dirty)
    requires KeysOk(slots, dirty) && UniqueKeys(slots)
    ensures Inv(slots') && KeysOk(slots', dirty') && UniqueKeys(slots')
    decreases |steps|
  {
    if steps == [] {
      dirty' := dirty;
    } else {
      var step := steps[0];
      hide Inv, Apply, UniqueKeys, Enabled, StepKept, StepDirtied;
      StepKeeps(slots, step);
      KeyStepKeeps(slots, step, dirty);
      var dirty1 := (k: nat, a: nat) => Enabled(slots, step) && StepDirtied(slots, step, k, a, dirty(k, a));
      KeyBytesStep(slots, steps, dirty, dirty1);
      dirty' := KeyRunKeeps(Apply(slots, step), steps[1..], slots', dirty1);
    }
  }

  lemma KeyBytesStep(
    slots: seq<Slot>, steps: seq<Step>, dirty: (nat, nat) -> bool, dirty1: (nat, nat) -> bool)
    requires steps != [] && Inv(slots) && Enabled(slots, steps[0]) && KeysKept(slots, steps, dirty)
    requires KeysOk(slots, dirty)
    requires forall k, a :: dirty1(k, a) == StepDirtied(slots, steps[0], k, a, dirty(k, a))
    ensures KeysOk(Apply(slots, steps[0]), dirty1) && KeysKept(Apply(slots, steps[0]), steps[1..], dirty1)
  {
    var slots1 := Apply(slots, steps[0]);
    StepSize(slots, steps[0]);
    hide Inv, Apply, Enabled, StepKept, StepDirtied, ByteOk;
    forall k: nat, a: nat
      ensures Kept(slots1, steps[1..], k, KeyOnly, a, dirty1(k, a))
    {
      assert Kept(slots, steps, k, KeyOnly, a, dirty(k, a));
    }
    forall k: nat, a: nat | k < |slots1| && a < |slots1[k].mem.durable|
      ensures ByteOk(slots1[k], KeyOnly, a, dirty1(k, a))
    {
      assert Kept(slots, steps, k, KeyOnly, a, dirty(k, a));
      assert ByteOk(slots[k], KeyOnly, a, dirty(k, a));
      StepKeepsByte(slots, steps[0], k, KeyOnly, a, dirty(k, a));
    }
  }

  /** Over every run that leaves the keys alone, no two slots found LINKED share a key. */
  lemma KeysSurviveCrash(slots0: seq<Slot>, steps: seq<Step>, slots: seq<Slot>, images: seq<seq<Byte>>)
    requires Initial(slots0) && KeysKept(slots0, steps, (_, _) => false)
    requires Runs(slots0, steps, slots) && SurviveAll(slots, images)
    ensures forall k :: 0 <= k < |slots| ==> |images[k]| >= DATA
    ensures forall j, k :: 0 <= j < k < |slots| && Linked(images[j][FLAGS]) && Linked(images[k][FLAGS]) ==>
              KeyOf(images[j]) != KeyOf(images[k])
  {
    InitialInv(slots0);
    var dirty := KeyRunKeeps(slots0, steps, slots, (_, _) => false);
    CrashKeys(slots, dirty, images);
  }
}
