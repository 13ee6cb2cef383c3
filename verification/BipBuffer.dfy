/** The bip-buffer: a byte queue in two regions of one array, read by its consumer outside the lock. */
module BipBuffer {
  import opened Prelude

  datatype Buf = Buf(data: seq<Byte>, aStart: nat, aEnd: nat, bEnd: nat, bInUse: bool) {
    function Size(): nat {
      |data|
    }

    /** What the operations keep; an empty region A leaves the whole array to the producer. */
    predicate Valid() {
      && aStart <= aEnd <= |data| && bEnd <= aStart
      && (!bInUse ==> bEnd == 0)
      && (aStart == aEnd ==> aStart == 0 && !bInUse)
    }

    /** The queue: region A, then region B. */
    function Contents(): seq<Byte>
      requires Valid()
    {
      data[aStart..aEnd] + data[..bEnd]
    }

    /** `bipbuf_unused` */
    function Unused(): int {
      if bInUse then aStart - bEnd else |data| - aEnd
    }

    /** `bipbuf_used` */
    function Used(): int {
      aEnd - aStart + bEnd
    }

    /** Where the producer writes next. */
    function WriteAt(): nat {
      if bInUse then bEnd else aEnd
    }

    /** `__check_for_switch_to_b` */
    function Switched(): Buf {
      if |data| - aEnd < aStart - bEnd then this.(bInUse := true) else this
    }

    /** `bipbuf_push` */
    function Pushed(n: nat): Buf {
      if Unused() < n then this
      else (if bInUse then this.(bEnd := bEnd + n) else this.(aEnd := aEnd + n)).Switched()
    }

    /** `bipbuf_poll` */
    function Polled(n: nat): Buf {
      if aStart == aEnd || |data| < aStart + n then this
      else
        var start := aStart + n;
        (if start != aEnd then this.(aStart := start)
         else if bInUse then this.(aStart := 0, aEnd := bEnd, bEnd := 0, bInUse := false)
         else this.(aStart := 0, aEnd := 0)).Switched()
    }

    /** The array after a write at `at`. */
    function Written(at: nat, bytes: seq<Byte>): Buf
      requires at + |bytes| <= |data|
    {
      this.(data := data[..at] + bytes + data[at + |bytes|..])
    }
  }

  // ----- single operations -----

  /** Bytes written outside the queue and then pushed are appended to it. */
  lemma PushAppends(b: Buf, n: nat)
    requires b.Valid()
    ensures b.Pushed(n).Valid()
    ensures n <= b.Unused() ==>
              && b.WriteAt() + n <= |b.data|
              && b.Pushed(n).Contents() == b.Contents() + b.data[b.WriteAt()..b.WriteAt() + n]
    ensures n > b.Unused() ==> b.Pushed(n) == b
    ensures b.Pushed(n).data == b.data
  {
    PushLeaves(b, n);
    hide Buf.Pushed;
    if n <= b.Unused() {
      if b.bInUse {
        Grow(b.data[b.aStart..b.aEnd], b.data, 0, b.bEnd, b.bEnd + n);
      } else {
        Grow([], b.data, b.aStart, b.aEnd, b.aEnd + n);
      }
    }
  }

  lemma PushLeaves(b: Buf, n: nat)
    requires b.Valid()
    ensures !b.bInUse ==> b.Contents() == [] + b.data[b.aStart..b.aEnd]
    ensures b.Pushed(n).Valid() && b.Pushed(n).data == b.data
    ensures n > b.Unused() ==> b.Pushed(n) == b
    ensures n <= b.Unused() ==>
              && b.WriteAt() + n <= |b.data|
              && b.Pushed(n).Contents() == if b.bInUse then b.data[b.aStart..b.aEnd] + b.data[..b.bEnd + n]
                                           else [] + b.data[b.aStart..b.aEnd + n]
  {
  }

  lemma Grow(front: seq<Byte>, data: seq<Byte>, lo: nat, mid: nat, hi: nat)
    requires lo <= mid <= hi <= |data|
    ensures front + data[lo..hi] == front + data[lo..mid] + data[mid..hi]
  {
  }

  /** After a push of n, at most n of the free space is gone. */
  lemma PushLeavesRoom(b: Buf, n: nat)
    requires b.Valid()
    ensures b.Pushed(n).Unused() >= b.Unused() - n
  {
  }

  /** Used and unused count what they say, and an empty buffer has its whole capacity. */
  lemma Accounting(b: Buf)
    requires b.Valid()
    ensures b.Used() == |b.Contents()| && 0 <= b.Unused() && b.Used() + b.Unused() <= b.Size()
    ensures b.aStart == b.aEnd <==> b.Contents() == []
    ensures b.Contents() == [] ==> b.Unused() == b.Size()
  {
  }

  /** Polling up to what peek showed removes exactly that many bytes from the front. */
  lemma PollRemoves(b: Buf, n: nat)
    requires b.Valid() && n <= b.aEnd - b.aStart
    ensures b.Polled(n).Valid() && b.Polled(n).data == b.data
    ensures n <= |b.Contents()| && b.Polled(n).Contents() == b.Contents()[n..]
    ensures b.Contents()[..n] == b.data[b.aStart..b.aStart + n]
  {
    hide Buf.Polled;
    PollLeaves(b, n);
    Shrink(b.data, b.aStart, b.aStart + n, b.aEnd, b.data[..b.bEnd]);
  }

  lemma PollLeaves(b: Buf, n: nat)
    requires b.Valid() && n <= b.aEnd - b.aStart
    ensures b.Polled(n).Valid() && b.Polled(n).data == b.data
    ensures b.Polled(n).Contents() == b.data[b.aStart + n..b.aEnd] + b.data[..b.bEnd]
  {
  }

  lemma Shrink(data: seq<Byte>, lo: nat, mid: nat, hi: nat, back: seq<Byte>)
    requires lo <= mid <= hi <= |data|
    ensures (data[lo..hi] + back)[mid - lo..] == data[mid..hi] + back
    ensures (data[lo..hi] + back)[..mid - lo] == data[lo..mid]
  {
  }

  /** The code refuses a poll only if it would leave the array; any other poll beyond region A breaks the queue. */
  lemma PollSafeExactly(b: Buf, n: nat)
    requires b.Valid()
    ensures b.Polled(n).Valid() <==> b.aStart == b.aEnd || n <= b.aEnd - b.aStart || |b.data| < b.aStart + n
  {
  }

  /** Writing at the free space and pushing appends the bytes, and takes no more room than they need. */
  lemma OfferAppends(b: Buf, bytes: seq<Byte>)
    requires b.Valid() && |bytes| <= b.Unused()
    ensures b.WriteAt() + |bytes| <= |b.data|
    ensures var b1 := b.Written(b.WriteAt(), bytes);
            && b1.Valid() && b1.Unused() == b.Unused() && b1.Pushed(|bytes|).Valid()
            && b1.Pushed(|bytes|).Contents() == b.Contents() + bytes
            && b1.Pushed(|bytes|).Unused() >= b.Unused() - |bytes|
  {
    WriteInFreeSpace(b, b.WriteAt(), bytes);
    var b1 := b.Written(b.WriteAt(), bytes);
    assert b1.data[b.WriteAt()..b.WriteAt() + |bytes|] == bytes;
    PushAppends(b1, |bytes|);
    PushLeavesRoom(b1, |bytes|);
    hide Buf.Contents, Buf.Pushed;
  }

  // ----- one producer and one consumer -----

  /**
   * `reserved` is a request the producer may still be filling, `shown` the bytes of a peek not yet polled.
   * `pushed` and `taken` are all the bytes ever queued and ever consumed.
   */
  datatype State = State(buf: Buf, reserved: Option<nat>, shown: Option<seq<Byte>>, pushed: seq<Byte>, taken: seq<Byte>)

  datatype Step =
    | Request(n: nat)
    | Fill(i: nat, byte: Byte)
    | Push(k: nat)
    | Offer(bytes: seq<Byte>)
    | PeekAll
    | Poll(k: nat)

  /** The lock keeps polls out while the producer fills a request; it does not keep the producer out of a peek. */
  predicate Enabled(s: State, step: Step) {
    match step
    case Request(n) => s.reserved.None? && n <= s.buf.Unused()
    case Fill(i, _) => s.reserved.Some? && i < s.reserved.value
    case Push(k) => s.reserved.Some? && k <= s.reserved.value
    case Offer(_) => s.reserved.None?
    case PeekAll => s.shown.None? && s.buf.aStart != s.buf.aEnd
    case Poll(k) => s.shown.Some? && k <= |s.shown.value| && s.reserved.None?
  }

  ghost predicate Inv(s: State) {
    && s.buf.Valid()
    && s.pushed == s.taken + s.buf.Contents()
    && (s.reserved.Some? ==> s.reserved.value <= s.buf.Unused())
    && (s.shown.Some? ==> Shows(s.buf, s.shown.value))
  }

  /** These bytes are at the start of region A. */
  ghost predicate Shows(b: Buf, bytes: seq<Byte>)
    requires b.Valid()
  {
    |bytes| <= b.aEnd - b.aStart && b.data[b.aStart..b.aStart + |bytes|] == bytes
  }

  function Apply(s: State, step: Step): State
    requires s.buf.Valid() && Enabled(s, step) && (s.reserved.Some? ==> s.reserved.value <= s.buf.Unused())
  {
    match step
    case Request(n) => s.(reserved := Some(n))
    case Fill(i, byte) => s.(buf := s.buf.(data := s.buf.data[s.buf.WriteAt() + i := byte]))
    case Push(k) =>
      s.(buf := s.buf.Pushed(k), reserved := None,
         pushed := s.pushed + s.buf.data[s.buf.WriteAt()..s.buf.WriteAt() + k])
    case Offer(bytes) =>
      if s.buf.Unused() < |bytes| then s
      else s.(buf := s.buf.Written(s.buf.WriteAt(), bytes).Pushed(|bytes|), pushed := s.pushed + bytes)
    case PeekAll => s.(shown := Some(s.buf.data[s.buf.aStart..s.buf.aEnd]))
    case Poll(k) => s.(buf := s.buf.Polled(k), shown := None, taken := s.taken + s.shown.value[..k])
  }

  /** A write into free space changes neither the queue nor the start of region A. */
  lemma WriteInFreeSpace(b: Buf, at: nat, bytes: seq<Byte>)
    requires b.Valid() && b.WriteAt() <= at && at + |bytes| <= b.WriteAt() + b.Unused()
    ensures at + |bytes| <= |b.data| && b.Written(at, bytes).Valid()
    ensures b.Written(at, bytes).Contents() == b.Contents()
    ensures b.Written(at, bytes).data[b.aStart..b.aEnd] == b.data[b.aStart..b.aEnd]
  {
  }

  lemma StillShows(b: Buf, b': Buf, bytes: seq<Byte>)
    requires b.Valid() && b'.Valid() && Shows(b, bytes)
    requires b'.aStart == b.aStart && b.aEnd <= b'.aEnd
    requires b'.data[b.aStart..b.aEnd] == b.data[b.aStart..b.aEnd]
    ensures Shows(b', bytes)
  {
    SliceOfSlice(b.data, b.aStart, |bytes|, b.aEnd);
    SliceOfSlice(b'.data, b.aStart, |bytes|, b.aEnd);
  }

  lemma SliceOfSlice(s: seq<Byte>, from: nat, n: nat, to: nat)
    requires from + n <= to <= |s|
    ensures s[from..from + n] == s[from..to][..n]
  {
  }

  lemma PushKeepsFront(b: Buf, n: nat)
    requires b.Valid()
    ensures b.Pushed(n).aStart == b.aStart && b.aEnd <= b.Pushed(n).aEnd
  {
  }

  lemma StepKeeps(s: State, step: Step)
    requires Inv(s) && Enabled(s, step)
    ensures Inv(Apply(s, step))
  {
    hide Inv, Buf.Valid, Buf.Pushed, Buf.Polled, Buf.Contents, Shows, Apply;
    match step {
      case Request(n) => RequestKeeps(s, n);
      case Fill(i, byte) => FillKeeps(s, i, byte);
      case Push(k) => PushKeeps(s, k);
      case Offer(bytes) =>
        if |bytes| <= s.buf.Unused() {
          OfferKeeps(s, bytes);
        } else {
          OfferRefused(s, bytes);
        }
      case PeekAll => PeekKeeps(s);
      case Poll(k) => PollKeeps(s, k);
    }
  }

  lemma RequestKeeps(s: State, n: nat)
    requires Inv(s) && Enabled(s, Request(n))
    ensures Inv(Apply(s, Request(n)))
  {
  }

  lemma OfferRefused(s: State, bytes: seq<Byte>)
    requires Inv(s) && Enabled(s, Offer(bytes)) && |bytes| > s.buf.Unused()
    ensures Inv(Apply(s, Offer(bytes)))
  {
  }

  lemma PeekKeeps(s: State)
    requires Inv(s) && Enabled(s, PeekAll)
    ensures Inv(Apply(s, PeekAll))
  {
  }

  lemma FillKeeps(s: State, i: nat, byte: Byte)
    requires Inv(s) && Enabled(s, Fill(i, byte))
    ensures Inv(Apply(s, Fill(i, byte)))
  {
    var s', b := Apply(s, Fill(i, byte)), s.buf;
    WriteInFreeSpace(b, b.WriteAt() + i, [byte]);
    assert s'.buf == b.Written(b.WriteAt() + i, [byte]);
    hide Buf.Contents, Shows, Buf.Written;
    if s.shown.Some? {
      StillShows(b, s'.buf, s.shown.value);
    }
  }

  lemma PushKeeps(s: State, k: nat)
    requires Inv(s) && Enabled(s, Push(k))
    ensures Inv(Apply(s, Push(k)))
  {
    hide Buf.Contents, Shows, Buf.Pushed, Buf.Valid;
    PushAppends(s.buf, k);
    PushKeepsFront(s.buf, k);
    ValidBounds(s.buf);
    if s.shown.Some? {
      StillShows(s.buf, s.buf.Pushed(k), s.shown.value);
    }
  }

  lemma ValidBounds(b: Buf)
    requires b.Valid()
    ensures b.aStart <= b.aEnd <= |b.data|
  {
  }

  lemma PollKeeps(s: State, k: nat)
    requires Inv(s) && Enabled(s, Poll(k))
    ensures Inv(Apply(s, Poll(k)))
  {
    var b := s.buf;
    assert s.shown.value[..k] == b.data[b.aStart..b.aStart + k];
    PollRemoves(b, k);
    hide Buf.Contents, Buf.Polled, Buf.Valid, Shows;
    assert b.Contents() == b.Contents()[..k] + b.Contents()[k..];
  }

  lemma OfferKeeps(s: State, bytes: seq<Byte>)
    requires Inv(s) && Enabled(s, Offer(bytes)) && |bytes| <= s.buf.Unused()
    ensures Inv(Apply(s, Offer(bytes)))
  {
    hide Buf.Contents, Shows, Buf.Pushed, Buf.Valid;
    var b := s.buf;
    WriteInFreeSpace(b, b.WriteAt(), bytes);
    var b1 := b.Written(b.WriteAt(), bytes);
    assert b1.data[b.WriteAt()..b.WriteAt() + |bytes|] == bytes;
    assert b1.Unused() == b.Unused() && b1.WriteAt() == b.WriteAt();
    PushAppends(b1, |bytes|);
    PushKeepsFront(b1, |bytes|);
    ValidBounds(b1);
    hide Buf.Written;
    if s.shown.Some? {
      StillShows(b, b1, s.shown.value);
      StillShows(b1, b1.Pushed(|bytes|), s.shown.value);
    }
  }

  ghost predicate Run(s: State, steps: seq<Step>, last: State)
    requires Inv(s)
    decreases |steps|
  {
    if steps == [] then last == s
    else
      && Enabled(s, steps[0])
      && (StepKeeps(s, steps[0]); Run(Apply(s, steps[0]), steps[1..], last))
  }

  function Fresh(data: seq<Byte>): (s: State)
    ensures Inv(s)
  {
    State(Buf(data, 0, 0, 0, false), None, None, [], [])
  }

  lemma {:induction false} RunKeeps(s: State, steps: seq<Step>, last: State)
    requires Inv(s) && Run(s, steps, last)
    ensures Inv(last)
    decreases |steps|
  {
    if steps != [] {
      StepKeeps(s, steps[0]);
      RunKeeps(Apply(s, steps[0]), steps[1..], last);
    }
  }

  /** In every run the consumer has taken a prefix of what was pushed, and a peek it is reading is what it was. */
  lemma FirstInFirstOut(data: seq<Byte>, steps: seq<Step>, last: State)
    requires Run(Fresh(data), steps, last)
    ensures last.buf.Valid() && last.pushed == last.taken + last.buf.Contents()
    ensures last.shown.Some? ==>
              var n := |last.shown.value|;
              && last.buf.aStart + n <= |last.buf.data|
              && last.buf.data[last.buf.aStart..last.buf.aStart + n] == last.shown.value
              && last.shown.value <= last.buf.Contents()
  {
    RunKeeps(Fresh(data), steps, last);
    if last.shown.Some? {
      var b, n := last.buf, |last.shown.value|;
      assert b.Contents()[..n] == b.data[b.aStart..b.aStart + n];
    }
  }

  /** The producer has the larger of the two free pieces, unless it is already filling the lower one. */
  ghost predicate LargerPiece(b: Buf) {
    !b.bInUse ==> b.aStart <= |b.data| - b.aEnd
  }

  lemma LargerStep(s: State, step: Step)
    requires Inv(s) && Enabled(s, step) && LargerPiece(s.buf)
    ensures LargerPiece(Apply(s, step).buf)
  {
    hide Buf.Contents;
  }

  lemma {:induction false} LargerRun(s: State, steps: seq<Step>, last: State)
    requires Inv(s) && LargerPiece(s.buf) && Run(s, steps, last)
    ensures LargerPiece(last.buf)
    decreases |steps|
  {
    hide Apply, LargerPiece, Buf.Contents;
    if steps != [] {
      StepKeeps(s, steps[0]);
      LargerStep(s, steps[0]);
      LargerRun(Apply(s, steps[0]), steps[1..], last);
    }
  }

  /** In every run: as long as there is one region, the producer can have at least half of the free space. */
  lemma HalfIsFree(data: seq<Byte>, steps: seq<Step>, last: State)
    requires Run(Fresh(data), steps, last) && !last.buf.bInUse
    ensures 2 * last.buf.Unused() >= |last.buf.data| - last.buf.Used()
    ensures last.buf.Unused() >= last.buf.aStart
  {
    RunKeeps(Fresh(data), steps, last);
    LargerRun(Fresh(data), steps, last);
  }

  lemma RunMore(s: State, step: Step, steps: seq<Step>, last: State)
    requires Inv(s) && Enabled(s, step)
    ensures Inv(Apply(s, step))
    ensures Run(Apply(s, step), steps, last) ==> Run(s, [step] + steps, last)
  {
    StepKeeps(s, step);
    assert ([step] + steps)[1..] == steps;
  }

  // A buffer of ten bytes after an offer of six, a peek, a poll of five and an offer of two.
  const TEN: seq<Byte> := [0, 0, 0, 0, 0, 0, 0, 0, 0, 0]
  const SIX: seq<Byte> := [1, 2, 3, 4, 5, 6]
  const OFFERED := State(Buf([1, 2, 3, 4, 5, 6, 0, 0, 0, 0], 0, 6, 0, false), None, None, SIX, [])
  const PEEKED := OFFERED.(shown := Some(SIX))
  const POLLED := OFFERED.(buf := OFFERED.buf.(aStart := 5, bInUse := true), taken := [1, 2, 3, 4, 5])
  const WRAPPED :=
    POLLED.(buf := Buf([7, 8, 3, 4, 5, 6, 0, 0, 0, 0], 5, 6, 2, true), pushed := [1, 2, 3, 4, 5, 6, 7, 8])

  lemma FirstOffer()
    ensures Enabled(Fresh(TEN), Offer(SIX)) && Apply(Fresh(TEN), Offer(SIX)) == OFFERED
  {
  }

  lemma FirstPoll()
    ensures Inv(OFFERED) && Enabled(OFFERED, PeekAll) && Apply(OFFERED, PeekAll) == PEEKED
    ensures Inv(PEEKED) && Enabled(PEEKED, Poll(5)) && Apply(PEEKED, Poll(5)) == POLLED
  {
    assert OFFERED.buf.data[0..6] == SIX;
  }

  lemma SecondOffer()
    ensures Inv(POLLED) && Enabled(POLLED, Offer([7, 8])) && Apply(POLLED, Offer([7, 8])) == WRAPPED
  {
  }

  /** A reachable buffer of three queued bytes, one of them in region A, that a poll of three breaks. */
  lemma PollTooMuch()
    ensures Run(Fresh(TEN), [Offer(SIX)] + ([PeekAll] + ([Poll(5)] + ([Offer([7, 8])] + []))), WRAPPED)
    ensures WRAPPED.buf.Valid() && WRAPPED.buf.Contents() == [6, 7, 8] && !WRAPPED.buf.Polled(3).Valid()
  {
    hide Inv, Enabled, Apply;
    FirstOffer();
    FirstPoll();
    SecondOffer();
    RunMore(Fresh(TEN), Offer(SIX), [PeekAll] + ([Poll(5)] + ([Offer([7, 8])] + [])), WRAPPED);
    RunMore(OFFERED, PeekAll, [Poll(5)] + ([Offer([7, 8])] + []), WRAPPED);
    RunMore(PEEKED, Poll(5), [Offer([7, 8])] + [], WRAPPED);
    RunMore(POLLED, Offer([7, 8]), [], WRAPPED);
  }

  // ----- the code -----

  class BipBuf {
    var data: array<Byte>
    var aStart: nat
    var aEnd: nat
    var bEnd: nat
    var bInUse: bool

    ghost function View(): Buf
      reads this, data
    {
      Buf(data[..], aStart, aEnd, bEnd, bInUse)
    }

    /** `bipbuf_new` */
    constructor (size: nat)
      ensures fresh(data) && data.Length == size && View().Valid() && View().Contents() == []
    {
      data := new Byte[size];
      aStart, aEnd, bEnd, bInUse := 0, 0, 0, false;
    }

    method Unused() returns (n: nat)
      requires View().Valid()
      ensures n == View().Unused()
    {
      if bInUse {
        n := aStart - bEnd;
      } else {
        n := data.Length - aEnd;
      }
    }

    method CheckForSwitchToB()
      requires bEnd <= aStart && aEnd <= data.Length
      modifies this`bInUse
      ensures View() == old(View()).Switched()
    {
      if data.Length - aEnd < aStart - bEnd {
        bInUse := true;
      }
    }

    /** `bipbuf_request`: where the producer may write n bytes. */
    method Request(n: nat) returns (at: Option<nat>)
      requires View().Valid()
      ensures at == if n <= View().Unused() then Some(View().WriteAt()) else None
    {
      var free := Unused();
      if free < n {
        return None;
      }
      return Some(if bInUse then bEnd else aEnd);
    }

    /** `bipbuf_push` */
    method Push(n: nat) returns (done: nat)
      requires View().Valid()
      modifies this`aEnd, this`bEnd, this`bInUse
      ensures View() == old(View()).Pushed(n) && View().Valid()
      ensures done == if n <= old(View().Unused()) then n else 0
    {
      hide Buf.Contents;
      PushLeaves(View(), n);
      var free := Unused();
      if free < n {
        return 0;
      }
      if bInUse {
        bEnd := bEnd + n;
      } else {
        aEnd := aEnd + n;
      }
      CheckForSwitchToB();
      return n;
    }

    /** memcpy into the array */
    method CopyIn(at: nat, bytes: seq<Byte>)
      requires at + |bytes| <= data.Length
      modifies data
      ensures View() == old(View()).Written(at, bytes)
    {
      for i := 0 to |bytes|
        invariant data[..at] == old(data[..at]) && data[at..at + i] == bytes[..i]
        invariant data[at + i..] == old(data[at + i..])
      {
        data[at + i] := bytes[i];
      }
      assert data[..] == data[..at] + data[at..at + |bytes|] + data[at + |bytes|..];
    }

    /** `bipbuf_offer` */
    method Offer(bytes: seq<Byte>) returns (done: nat)
      requires View().Valid()
      modifies this`aEnd, this`bEnd, this`bInUse, data
      ensures View().Valid() && data == old(data)
      ensures done == if |bytes| <= old(View().Unused()) then |bytes| else 0
      ensures View().Contents() == old(View().Contents()) + (if |bytes| <= old(View().Unused()) then bytes else [])
    {
      ghost var b := View();
      var free := Unused();
      if free < |bytes| {
        return 0;
      }
      var at := if bInUse then bEnd else aEnd;
      OfferAppends(b, bytes);
      CopyIn(at, bytes);
      hide Buf.Contents, Buf.Pushed, Buf.Written;
      done := Push(|bytes|);
    }

    /** `bipbuf_peek_all` */
    method PeekAll() returns (at: Option<nat>, n: nat)
      requires View().Valid()
      ensures at.None? <==> View().Contents() == []
      ensures at.Some? ==> at.value == aStart && n == aEnd - aStart > 0 && data[aStart..aStart + n] <= View().Contents()
    {
      Accounting(View());
      if aStart == aEnd {
        return None, 0;
      }
      n := aEnd - aStart;
      at := Some(aStart);
    }

    /** `bipbuf_poll` */
    method Poll(n: nat) returns (at: Option<nat>)
      requires View().Valid()
      modifies this`aStart, this`aEnd, this`bEnd, this`bInUse
      ensures View() == old(View()).Polled(n)
      ensures at == if old(aStart == aEnd) || data.Length < old(aStart) + n then None else old(Some(aStart))
      ensures n <= old(aEnd - aStart) ==>
                && View().Valid()
                && old(View().Contents()) == old(data[..])[old(aStart)..old(aStart) + n] + View().Contents()
    {
      if n <= aEnd - aStart {
        PollRemoves(View(), n);
      }
      if aStart == aEnd || data.Length < aStart + n {
        return None;
      }
      at := Some(aStart);
      aStart := aStart + n;
      if aStart == aEnd {
        if bInUse {
          aStart, aEnd, bEnd, bInUse := 0, bEnd, 0, false;
        } else {
          aStart, aEnd := 0, 0;
        }
      }
      CheckForSwitchToB();
    }

    /** How the logger writes a watcher's line: after a request of |line| + 128, the offer cannot fail. */
    method WriteEntry(skipped: seq<Byte>, line: seq<Byte>) returns (sent: bool)
      requires View().Valid() && |skipped| < 128
      modifies this`aEnd, this`bEnd, this`bInUse, data
      ensures View().Valid() && data == old(data)
      ensures sent <==> |line| + 128 <= old(View().Unused())
      ensures View().Contents() == old(View().Contents()) + if sent then skipped + line else []
    {
      hide Buf.Contents, Buf.Pushed, Buf.Written, Buf.Valid, Buf.Unused;
      ghost var queue, room := View().Contents(), View().Unused();
      var at := Request(|line| + 128);
      if at.None? {
        assert queue + [] == queue;
        return false;
      }
      if |skipped| > 0 {
        OfferAppends(View(), skipped);
        CopyIn(at.value, skipped);
        var _ := Push(|skipped|);
      }
      assert View().Contents() == queue + skipped;
      assert View().Unused() >= |line|;
      var _ := Offer(line);
      assert queue + skipped + line == queue + (skipped + line);
      return true;
    }
  }
}
