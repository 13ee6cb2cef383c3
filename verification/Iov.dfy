/** Queueing response bytes as iovecs in messages, and sending them piece by piece. */
module Iov {
  import opened Prelude

  const UDP_MAX_PAYLOAD_SIZE := 1400
  const UDP_HEADER_SIZE := 8
  const IOV_MAX := 1024
  const IOV_LIST_INITIAL := 400

  /** A piece of a message; a header piece is room for the UDP header that is filled in later. */
  datatype Iovec = Iovec(header: bool, bytes: seq<Byte>)

  /** A message's iovecs: where they start, in which allocation of the iovec list, and how many they are. */
  datatype Msg = Msg(base: nat, start: nat, len: nat)

  type Message = seq<Iovec>

  // ----- the bytes of messages -----

  function Size(m: Message): nat {
    if m == [] then 0 else Size(m[..|m| - 1]) + |m[|m| - 1].bytes|
  }

  /** The bytes of a message without headers. */
  function Body(m: Message): seq<Byte> {
    if m == [] then [] else Body(m[..|m| - 1]) + Piece(m[|m| - 1])
  }

  function Payload(queue: seq<Message>): seq<Byte> {
    if queue == [] then [] else Payload(queue[..|queue| - 1]) + Body(queue[|queue| - 1])
  }

  /** The queue with v added to its last message. */
  function Appended(queue: seq<Message>, v: Iovec): seq<Message>
    requires queue != []
  {
    queue[..|queue| - 1] + [queue[|queue| - 1] + [v]]
  }

  /** What an iovec adds to the body. */
  function Piece(v: Iovec): seq<Byte> {
    if v.header then [] else v.bytes
  }

  lemma SizeAppend(m: Message, v: Iovec)
    ensures Size(m + [v]) == Size(m) + |v.bytes| && Body(m + [v]) == Body(m) + Piece(v)
  {
    assert (m + [v])[..|m|] == m;
  }

  lemma PayloadLast(front: seq<Message>, m: Message)
    ensures Payload(front + [m]) == Payload(front) + Body(m)
  {
    hide Body;
    assert (front + [m])[..|front|] == front;
  }

  lemma Associates(a: seq<Byte>, b: seq<Byte>, c: seq<Byte>)
    ensures a + (b + c) == a + b + c
  {
  }

  lemma LastOf(queue: seq<Message>)
    requires queue != []
    ensures queue == queue[..|queue| - 1] + [queue[|queue| - 1]]
  {
  }

  lemma AppendedPayload(queue: seq<Message>, v: Iovec)
    requires queue != []
    ensures Payload(Appended(queue, v)) == Payload(queue) + Piece(v)
    ensures Size(queue[|queue| - 1] + [v]) == Size(queue[|queue| - 1]) + |v.bytes|
  {
    hide Payload, Body, Size, Piece;
    var n := |queue| - 1;
    var front, last := queue[..n], queue[n];
    LastOf(queue);
    SizeAppend(last, v);
    PayloadLast(front, last);
    PayloadLast(front, last + [v]);
    Associates(Payload(front), Body(last), Piece(v));
  }

  lemma NewMessagePayload(queue: seq<Message>)
    ensures Payload(queue + [[]]) == Payload(queue)
  {
    assert (queue + [[]])[..|queue|] == queue;
  }

  // ----- the lists -----

  /** Each message starts where the one before ends. */
  ghost predicate Aligned(msgs: seq<Msg>, base: nat, used: nat) {
    && msgs != [] && msgs[0].start == 0
    && (forall i :: 0 <= i < |msgs| ==> msgs[i].base == base)
    && (forall i :: 0 <= i < |msgs| - 1 ==> msgs[i + 1].start == msgs[i].start + msgs[i].len)
    && used == msgs[|msgs| - 1].start + msgs[|msgs| - 1].len
  }

  /** The message's place in the iovec list holds these iovecs. */
  ghost predicate HoldsAt(iov: seq<Iovec>, m: Msg, message: Message) {
    m.len == |message| && m.start + m.len <= |iov| && iov[m.start..m.start + m.len] == message
  }

  ghost predicate HoldsAll(iov: seq<Iovec>, msgs: seq<Msg>, queue: seq<Message>) {
    && |msgs| == |queue|
    && forall i :: 0 <= i < |msgs| ==> HoldsAt(iov, msgs[i], queue[i])
  }

  lemma {:induction false} AlignedBelow(msgs: seq<Msg>, base: nat, used: nat, i: nat)
    requires Aligned(msgs, base, used) && i < |msgs|
    ensures msgs[i].start + msgs[i].len <= used
    decreases |msgs| - i
  {
    if i < |msgs| - 1 {
      AlignedBelow(msgs, base, used, i + 1);
    }
  }

  /** Writing at the end of the list, for the last message. */
  lemma WriteLast(iov: seq<Iovec>, msgs: seq<Msg>, base: nat, used: nat, queue: seq<Message>, v: Iovec)
    requires Aligned(msgs, base, used) && HoldsAll(iov, msgs, queue) && used < |iov|
    ensures queue != []
    ensures var last := msgs[|msgs| - 1];
            var msgs' := msgs[|msgs| - 1 := last.(len := last.len + 1)];
            Aligned(msgs', base, used + 1) && HoldsAll(iov[used := v], msgs', Appended(queue, v))
  {
    var n := |msgs| - 1;
    var iov', msgs' := iov[used := v], msgs[n := msgs[n].(len := msgs[n].len + 1)];
    forall i | 0 <= i < |msgs'|
      ensures HoldsAt(iov', msgs'[i], Appended(queue, v)[i])
    {
      assert HoldsAt(iov, msgs[i], queue[i]);
      AlignedBelow(msgs, base, used, i);
      if i == n {
        assert iov'[msgs[n].start..used + 1] == iov[msgs[n].start..used] + [v];
      } else {
        assert msgs[i].start + msgs[i].len <= used;
        assert iov'[msgs[i].start..msgs[i].start + msgs[i].len] == iov[msgs[i].start..msgs[i].start + msgs[i].len];
      }
    }
  }

  /** The iovecs that the first i messages have left. */
  function Counted(msgs: seq<Msg>, i: nat): nat
    requires i <= |msgs|
  {
    if i == 0 then 0 else Counted(msgs, i - 1) + msgs[i - 1].len
  }

  lemma CountedNext(msgs: seq<Msg>, i: nat)
    requires i < |msgs|
    ensures Counted(msgs, i + 1) == Counted(msgs, i) + msgs[i].len
  {
  }

  /** The first i messages are pointed at the new list. */
  ghost predicate PointedUpTo(msgs: seq<Msg>, msgs0: seq<Msg>, base: nat, i: nat) {
    && i <= |msgs| == |msgs0|
    && (forall j :: 0 <= j < i ==> msgs[j] == Msg(base, Counted(msgs0, j), msgs0[j].len))
    && (forall j :: i <= j < |msgs| ==> msgs[j] == msgs0[j])
  }

  lemma PointedNone(msgs: seq<Msg>, base: nat)
    ensures PointedUpTo(msgs, msgs, base, 0)
  {
  }

  lemma PointedNext(msgs: seq<Msg>, msgs0: seq<Msg>, base: nat, i: nat)
    requires PointedUpTo(msgs, msgs0, base, i) && i < |msgs|
    ensures msgs[i] == msgs0[i]
    ensures PointedUpTo(msgs[i := Msg(base, Counted(msgs0, i), msgs[i].len)], msgs0, base, i + 1)
  {
    hide Counted;
  }

  lemma PointedAll(msgs: seq<Msg>, msgs0: seq<Msg>, base: nat)
    requires PointedUpTo(msgs, msgs0, base, |msgs|)
    ensures |msgs| == |msgs0|
    ensures forall j :: 0 <= j < |msgs| ==> msgs[j] == Msg(base, Counted(msgs0, j), msgs0[j].len)
  {
    hide Counted;
  }

  lemma {:induction false} CountedStart(msgs: seq<Msg>, base: nat, used: nat, i: nat)
    requires Aligned(msgs, base, used) && i < |msgs|
    ensures Counted(msgs, i) == msgs[i].start
  {
    if i > 0 {
      CountedStart(msgs, base, used, i - 1);
    }
  }

  lemma AlignedCounted(msgs: seq<Msg>, base: nat, used: nat)
    requires Aligned(msgs, base, used)
    ensures forall i :: 0 <= i < |msgs| ==> Counted(msgs, i) == msgs[i].start
  {
    forall i | 0 <= i < |msgs|
      ensures Counted(msgs, i) == msgs[i].start
    {
      CountedStart(msgs, base, used, i);
    }
  }

  // ----- when growing the list is right -----

  /** What `Repoint` makes of the messages. */
  function Repointed(msgs: seq<Msg>, base: nat): (r: seq<Msg>)
    ensures |r| == |msgs|
    ensures forall j :: 0 <= j < |r| ==> r[j] == Msg(base, Counted(msgs, j), msgs[j].len)
  {
    seq(|msgs|, j requires 0 <= j < |msgs| => Msg(base, Counted(msgs, j), msgs[j].len))
  }

  /** Every message that has iovecs left starts where the counts of those before it end. */
  ghost predicate CountsRight(msgs: seq<Msg>) {
    forall i :: 0 <= i < |msgs| && msgs[i].len > 0 ==> Counted(msgs, i) == msgs[i].start
  }

  /** An iovec list without two equal entries, none of them empty. */
  function AllDifferent(n: nat): (r: seq<Iovec>)
    ensures |r| == n && forall k :: 0 <= k < n ==> |r[k].bytes| == k + 1
  {
    seq(n, k requires 0 <= k < n => Iovec(false, seq(k + 1, _ => 0)))
  }

  lemma {:induction false} CountedFits(msgs: seq<Msg>, n: nat, i: nat)
    requires i <= |msgs| && CountsRight(msgs) && forall j :: 0 <= j < |msgs| ==> msgs[j].start + msgs[j].len <= n
    ensures Counted(msgs, i) <= n
  {
    hide Counted, CountsRight;
    if i > 0 {
      CountedFits(msgs, n, i - 1);
      CountedNext(msgs, i - 1);
      if msgs[i - 1].len > 0 {
        CountsAt(msgs, i - 1);
      }
    } else {
      CountedNone(msgs);
    }
  }

  lemma CountsAt(msgs: seq<Msg>, i: nat)
    requires CountsRight(msgs) && i < |msgs| && msgs[i].len > 0
    ensures Counted(msgs, i) == msgs[i].start
  {
    hide Counted;
  }

  lemma CountedNone(msgs: seq<Msg>)
    ensures Counted(msgs, 0) == 0
  {
  }

  lemma CountsRightHolds(iov: seq<Iovec>, more: seq<Iovec>, msgs: seq<Msg>, base: nat, queue: seq<Message>)
    requires CountsRight(msgs) && HoldsAll(iov, msgs, queue)
    ensures HoldsAll(iov + more, Repointed(msgs, base), queue)
  {
    hide Counted;
    forall i | 0 <= i < |msgs|
      ensures HoldsAt(iov + more, Repointed(msgs, base)[i], queue[i])
    {
      assert forall j :: 0 <= j < |msgs| ==> HoldsAt(iov, msgs[j], queue[j]);
      CountedFits(msgs, |iov|, i);
      var m, start := msgs[i], Counted(msgs, i);
      assert m.len > 0 ==> (iov + more)[start..start + m.len] == iov[m.start..m.start + m.len];
    }
  }

  /** While a response is built, growing the list leaves every message with its iovecs. */
  lemma GrowthKeeps(iov: seq<Iovec>, msgs: seq<Msg>, base: nat, used: nat, queue: seq<Message>)
    requires Aligned(msgs, base, used) && HoldsAll(iov, msgs, queue)
    ensures Aligned(Repointed(msgs, base + 1), base + 1, used)
    ensures HoldsAll(iov + Spare(|iov|), Repointed(msgs, base + 1), queue)
  {
    AlignedCounted(msgs, base, used);
    CountsRightHolds(iov, Spare(|iov|), msgs, base + 1, queue);
    hide Counted, HoldsAll;
  }

  /**
   * Growing the list, whatever it holds, leaves every message with its iovecs exactly if the counts are right. They
   * are while a response is built; once a whole iovec has gone out, they are not.
   */
  lemma GrowthExactly(msgs: seq<Msg>, base: nat, n: nat)
    requires forall i :: 0 <= i < |msgs| ==> msgs[i].start + msgs[i].len <= n
    ensures (forall iov, queue :: |iov| == n && HoldsAll(iov, msgs, queue) ==>
               HoldsAll(iov + Spare(n), Repointed(msgs, base), queue))
            <==> CountsRight(msgs)
  {
    if CountsRight(msgs) {
      forall iov, queue | |iov| == n && HoldsAll(iov, msgs, queue)
        ensures HoldsAll(iov + Spare(n), Repointed(msgs, base), queue)
      {
        CountsRightHolds(iov, Spare(n), msgs, base, queue);
      }
    } else {
      var iov, queue := SomeMispointed(msgs, base, n);
    }
    hide HoldsAll, Counted, CountsRight;
  }

  lemma SomeMispointed(msgs: seq<Msg>, base: nat, n: nat) returns (iov: seq<Iovec>, queue: seq<Message>)
    requires !CountsRight(msgs) && forall i :: 0 <= i < |msgs| ==> msgs[i].start + msgs[i].len <= n
    ensures |iov| == n && HoldsAll(iov, msgs, queue) && !HoldsAll(iov + Spare(n), Repointed(msgs, base), queue)
  {
    hide Counted, Repointed;
    var i :| 0 <= i < |msgs| && msgs[i].len > 0 && Counted(msgs, i) != msgs[i].start;
    iov := AllDifferent(n);
    queue := seq(|msgs|, j requires 0 <= j < |msgs| && msgs[j].start + msgs[j].len <= |iov| =>
                   iov[msgs[j].start..msgs[j].start + msgs[j].len]);
    assert HoldsAll(iov, msgs, queue);
    Mispointed(iov, msgs, base, queue, i);
  }

  lemma Mispointed(iov: seq<Iovec>, msgs: seq<Msg>, base: nat, queue: seq<Message>, i: nat)
    requires HoldsAll(iov, msgs, queue) && i < |msgs| && msgs[i].len > 0 && Counted(msgs, i) != msgs[i].start
    requires forall k :: 0 <= k < |iov| ==> |iov[k].bytes| == k + 1
    ensures !HoldsAll(iov + Spare(|iov|), Repointed(msgs, base), queue)
  {
    hide Counted;
    var iov', start := iov + Spare(|iov|), Counted(msgs, i);
    assert HoldsAt(iov, msgs[i], queue[i]) && queue[i][0] == iov[msgs[i].start];
    assert start + msgs[i].len <= |iov'| ==>
        && |iov'[start].bytes| == (if start < |iov| then start + 1 else 0)
        && iov'[start..start + msgs[i].len][0] == iov'[start] != queue[i][0];
    assert !HoldsAt(iov', Repointed(msgs, base)[i], queue[i]);
  }

  /** The new half of a list that was doubled. */
  function Spare(n: nat): (r: seq<Iovec>)
    ensures |r| == n && forall k :: 0 <= k < n ==> r[k] == Iovec(false, [])
  {
    seq(n, _ => Iovec(false, []))
  }

  class Conn {
    const udp: bool
    var iov: seq<Iovec>
    var base: nat
    var iovused: nat
    var msgs: seq<Msg>
    var msgbytes: nat
    ghost var queue: seq<Message>
    var msgcurr: nat
    ghost var rest: seq<Message>

    /** `conn_new`, and the reset that comes before the first response. */
    constructor (udp: bool)
      ensures Ready() && this.udp == udp && Payload(queue) == [] && (!udp ==> queue == [[]])
    {
      this.udp := udp;
      iov := Spare(IOV_LIST_INITIAL);
      base, iovused, msgs, msgbytes, msgcurr := 0, 0, [], 0, 0;
      new;
      Reset();
    }

    /** Between `conn_new` or a reset and the first send. */
    ghost predicate Valid()
      reads this
    {
      && iov != [] && Aligned(msgs, base, iovused) && HoldsAll(iov, msgs, queue)
      && Limits(udp, queue) && msgbytes == Size(queue[|queue| - 1])
    }

    /** A datagram has its header. */
    ghost predicate Ready()
      reads this
    {
      Valid() && (udp ==> queue[|queue| - 1] != [])
    }

    /** Point every message at the new list, counting iovecs from its start. */
    method Repoint()
      modifies this`msgs
      ensures msgs == Repointed(old(msgs), base)
    {
      var iovnum := 0;
      ghost var msgs0 := msgs;
      assert Counted(msgs0, 0) == 0;
      hide Counted, PointedUpTo;
      PointedNone(msgs0, base);
      for i := 0 to |msgs|
        invariant |msgs| == |msgs0| && iovnum == Counted(msgs0, i) && PointedUpTo(msgs, msgs0, base, i)
      {
        CountedNext(msgs0, i);
        PointedNext(msgs, msgs0, base, i);
        msgs := msgs[i := Msg(base, iovnum, msgs[i].len)];
        iovnum := iovnum + msgs[i].len;
      }
      PointedAll(msgs, msgs0, base);
    }

    /** `ensure_iov_space`, when the list can grow */
    method EnsureIovSpace()
      requires Valid()
      modifies this`iov, this`base, this`msgs
      ensures Valid() && iovused < |iov|
    {
      hide HoldsAt, HoldsAll, Aligned, Size, Limits, Repointed;
      LastFits(iov, msgs, base, iovused, queue);
      if iovused >= |iov| {
        GrowthKeeps(iov, msgs, base, iovused, queue);
        iov := iov + Spare(|iov|);
        base := base + 1;
        Repoint();
      }
    }

    /** The end of a turn of `add_iov`: room is made, and v becomes the last iovec of the last message. */
    method AddFragment(v: Iovec)
      requires Valid() && Fits(udp, queue[|queue| - 1], v)
      modifies this`iov, this`base, this`iovused, this`msgs, this`msgbytes, this`queue
      ensures Valid() && queue == Appended(old(queue), v) && msgbytes == old(msgbytes) + |v.bytes|
      ensures |queue| == |old(queue)| && queue[|queue| - 1] == old(queue[|queue| - 1]) + [v]
      ensures Payload(queue) == Payload(old(queue)) + Piece(v)
    {
      hide HoldsAt, HoldsAll, Size, Limits, Fits, Aligned, Appended, Payload;
      EnsureIovSpace();
      HoldsCount(iov, msgs, queue);
      LastUsed(msgs, base, iovused);
      AppendedLast(queue, v);
      WriteLast(iov, msgs, base, iovused, queue, v);
      AppendedPayload(queue, v);
      LimitsAppend(udp, queue, v);
      var m := |msgs| - 1;
      iov := iov[msgs[m].start + msgs[m].len := v];
      msgbytes := msgbytes + |v.bytes|;
      iovused := iovused + 1;
      msgs := msgs[m := msgs[m].(len := msgs[m].len + 1)];
      queue := Appended(queue, v);
    }

    /** What precedes every response: the lists are emptied and a first message is added. */
    method Reset()
      requires iov != []
      modifies this`iov, this`base, this`iovused, this`msgs, this`msgbytes, this`queue, this`msgcurr
      ensures Ready() && Payload(queue) == [] && msgcurr == 0 && (!udp ==> queue == [[]])
    {
      msgcurr, iovused, msgbytes := 0, 0, 0;
      msgs := [Msg(base, 0, 0)];
      queue := [[]];
      EmptyQueue(iov, base, udp);
      if udp {
        AddFragment(Iovec(true, ROOM));
      }
    }

    /** `add_msghdr`, when the list can grow; a datagram starts with room for its header. */
    method AddMsghdr()
      requires Valid()
      modifies this`iov, this`base, this`iovused, this`msgs, this`msgbytes, this`queue
      ensures Ready() && Payload(queue) == Payload(old(queue))
      ensures |queue[|queue| - 1]| <= 1 && msgbytes <= UDP_HEADER_SIZE
    {
      hide HoldsAt, Size, Payload;
      NewMessage(iov, msgs, base, iovused, queue);
      NewMessagePayload(queue);
      SizeNone();
      msgs := msgs + [Msg(base, iovused, 0)];
      queue := queue + [[]];
      msgbytes := 0;
      assert Valid();
      if udp {
        AddFragment(Iovec(true, ROOM));
      }
    }

    /** `add_iov`: however the bytes are cut up, they are queued in order, within every limit. */
    method AddIov(bytes: seq<Byte>)
      requires Ready()
      modifies this`iov, this`base, this`iovused, this`msgs, this`msgbytes, this`queue
      ensures Ready() && Payload(queue) == Payload(old(queue)) + bytes
      ensures !udp && |old(queue[|queue| - 1])| < IOV_MAX ==> queue == Appended(old(queue), Iovec(false, bytes))
    {
      hide HoldsAt, HoldsAll, Aligned, Limits, Size, Payload;
      if udp {
        AddDatagrams(bytes);
      } else {
        LastCount(iov, msgs, base, iovused, queue, udp);
        if msgs[|msgs| - 1].len == IOV_MAX {
          AddMsghdr();
        }
        LastCount(iov, msgs, base, iovused, queue, udp);
        AddFragment(Iovec(false, bytes));
      }
    }

    /** The loop of `add_iov` on a datagram connection. */
    method AddDatagrams(bytes: seq<Byte>)
      requires Ready() && udp
      modifies this`iov, this`base, this`iovused, this`msgs, this`msgbytes, this`queue
      ensures Ready() && Payload(queue) == Payload(old(queue)) + bytes
    {
      hide HoldsAt, HoldsAll, Aligned, Limits, Size, Payload;
      var done := 0;
      while true
        invariant Ready() && 0 <= done <= |bytes| && Payload(queue) == Payload(old(queue)) + bytes[..done]
        decreases |bytes| - done
      {
        var len := AddPart(bytes[done..]);
        assert bytes[..done] + bytes[done..][..len] == bytes[..done + len];
        done := done + len;
        if done == |bytes| {
          break;
        }
      }
      assert bytes[..done] == bytes;
    }

    /** One turn: what still fits into the datagram, or into a new one if it is full. */
    method AddPart(bytes: seq<Byte>) returns (len: nat)
      requires Ready() && udp
      modifies this`iov, this`base, this`iovused, this`msgs, this`msgbytes, this`queue
      ensures Ready() && len <= |bytes| && (bytes != [] ==> len > 0)
      ensures Payload(queue) == Payload(old(queue)) + bytes[..len]
    {
      hide HoldsAt, HoldsAll, Aligned, Limits, Size, Payload, Appended;
      LastCount(iov, msgs, base, iovused, queue, udp);
      if msgs[|msgs| - 1].len == IOV_MAX || msgbytes >= UDP_MAX_PAYLOAD_SIZE {
        AddMsghdr();
      }
      len := |bytes|;
      if len + msgbytes > UDP_MAX_PAYLOAD_SIZE {
        len := UDP_MAX_PAYLOAD_SIZE - msgbytes;
      }
      LastCount(iov, msgs, base, iovused, queue, udp);
      AddFragment(Iovec(false, bytes[..len]));
    }

    // ----- sending -----

    /** While the queue is being sent; `rest` is what is left of each message from msgcurr on. */
    ghost predicate Sending()
      reads this
    {
      HoldsFrom(iov, msgs, msgcurr, rest)
    }

    /** A queue that was built is ready to be sent from its first message. */
    method StartSending()
      requires Valid()
      modifies this`msgcurr, this`rest
      ensures Sending() && msgcurr == 0 && rest == queue
    {
      msgcurr := 0;
      rest := queue;
      AlignedOrdered(msgs, base, iovused);
    }

    /** After `sent` bytes of the current message went out: finished iovecs go, the next one loses its sent part. */
    method Consume(bytes: nat) returns (ghost sent: seq<Byte>)
      requires Sending() && msgcurr < |msgs| && bytes <= |Wire(rest[0])|
      modifies this`iov, this`msgs, this`rest
      ensures Sending() && |msgs| == |old(msgs)| && |sent| == bytes
      ensures Stream(old(rest)) == sent + Stream(rest)
      ensures rest == old(rest)[0 := Unsent(old(rest)[0], bytes)] && msgs[msgcurr].len == |rest[0]|
      ensures msgs[msgcurr].start + msgs[msgcurr].len == old(msgs[msgcurr].start + msgs[msgcurr].len)
    {
      hide HoldsAt, HoldsFrom, Wire, Stream, Unsent;
      var res, m := bytes, msgs[msgcurr];
      CurrentHolds(iov, msgs, msgcurr, rest);
      InRange(iov, m, rest[0]);
      ghost var message, iov0, msgs0, rest0 := rest[0], iov, msgs, rest;
      while m.len > 0 && res >= |iov[m.start].bytes|
        invariant iov == iov0 && msgs == msgs0 && rest == rest0
        invariant HoldsAt(iov, m, message) && 0 <= res <= |Wire(message)|
        invariant m.len > 0 ==> m.start < |iov|
        invariant m.start + m.len == msgs[msgcurr].start + msgs[msgcurr].len && m.start >= msgs[msgcurr].start
        invariant Unsent(rest[0], bytes) == Unsent(message, res)
        decreases m.len
      {
        FirstHolds(iov, m, message);
        UnsentFirst(message, res);
        res := res - |iov[m.start].bytes|;
        m := m.(len := m.len - 1, start := m.start + 1);
        message := message[1..];
        InRange(iov, m, message);
      }
      if res > 0 {
        TrimHolds(iov, m, message, res);
        UnsentFirst(message, res);
        iov := iov[m.start := iov[m.start].(bytes := iov[m.start].bytes[res..])];
        message := Trimmed(message, res);
      } else {
        InRange(iov, m, message);
        if m.len > 0 {
          FirstHolds(iov, m, message);
        }
        UnsentAll(message);
      }
      InRange(iov, m, message);
      Replaced(iov0, iov, msgs, msgcurr, rest, m, message);
      sent := Wire(rest[0])[..bytes];
      UnsentWire(rest[0], bytes);
      StreamFirst(rest, message, sent);
      msgs := msgs[msgcurr := m];
      rest := rest[0 := message];
    }

    /** The message `transmit` will send from: the current one, or the next if it is finished. */
    ghost function Next(): nat
      reads this
    {
      if msgcurr < |msgs| && msgs[msgcurr].len == 0 then msgcurr + 1 else msgcurr
    }

    /** `transmit`: `res` is what sendmsg returns, at most the bytes it was given; -1 with `again` is EAGAIN. */
    method Transmit(res: int, again: bool) returns (outcome: Outcome, ghost sent: seq<Byte>)
      requires Sending()
      requires Next() < |msgs| ==> res <= |Wire(rest[Next() - msgcurr])|
      modifies this`iov, this`msgs, this`msgcurr, this`rest
      ensures Sending() && Stream(old(rest)) == sent + Stream(rest)
      ensures |sent| == if old(Next() < |msgs|) && res > 0 then res else 0
      ensures outcome == Complete <==> old(Next()) == |old(msgs)|
      ensures outcome == Incomplete <==> old(Next()) < |old(msgs)| && res > 0
      ensures outcome == SoftError <==> old(Next()) < |old(msgs)| && res == -1 && again
      ensures outcome == Complete ==> Stream(rest) == []
    {
      hide HoldsAt, Wire;
      sent := [];
      if msgcurr < |msgs| && msgs[msgcurr].len == 0 {
        SkipDone(iov, msgs, msgcurr, rest);
        msgcurr := msgcurr + 1;
        rest := rest[1..];
      }
      if msgcurr < |msgs| {
        if res > 0 {
          sent := Consume(res);
          return Incomplete, sent;
        }
        if res == -1 && again {
          return SoftError, [];
        }
        return HardError, [];
      }
      return Complete, [];
    }

    /** A kernel that takes up to `wanted` of the bytes it is given. */
    method SendMsg(wanted: int) returns (res: int)
      requires Sending()
      ensures Next() < |msgs| ==> res <= |Wire(rest[Next() - msgcurr])|
      ensures wanted <= 0 ==> res == wanted
    {
      var i := if msgcurr < |msgs| && msgs[msgcurr].len == 0 then msgcurr + 1 else msgcurr;
      if i >= |msgs| {
        return wanted;
      }
      var m := msgs[i];
      ghost var message := rest[i - msgcurr];
      assert HoldsAt(iov, m, message);
      var total := 0;
      hide HoldsFrom, HoldsAt, Wire;
      while m.len > 0
        invariant HoldsAt(iov, m, message) && total + |Wire(message)| == |Wire(rest[i - msgcurr])|
        decreases m.len
      {
        FirstHolds(iov, m, message);
        total := total + |iov[m.start].bytes|;
        m := m.(len := m.len - 1, start := m.start + 1);
        message := message[1..];
      }
      res := if wanted < total then wanted else total;
      if wanted <= 0 {
        res := wanted;
      }
    }

    /** However the kernel takes them, the bytes sent and then those that remain are the stream that was queued. */
    method TransmitAll(wanted: seq<int>) returns (ghost sent: seq<Byte>)
      requires Sending()
      modifies this`iov, this`msgs, this`msgcurr, this`rest
      ensures Sending() && Stream(old(rest)) == sent + Stream(rest)
    {
      hide HoldsFrom, Wire, Stream;
      sent := [];
      for i := 0 to |wanted|
        invariant Sending() && Stream(old(rest)) == sent + Stream(rest)
      {
        NextInside(iov, msgs, msgcurr, rest);
        var res := SendMsg(wanted[i]);
        var outcome;
        ghost var more;
        outcome, more := Transmit(res, true);
        sent := sent + more;
        if outcome == Complete || outcome == HardError {
          return;
        }
      }
    }
  }

  /** The header's room: what is in it does not matter here. */
  const ROOM: seq<Byte> := [0, 0, 0, 0, 0, 0, 0, 0]

  lemma EmptyQueue(iov: seq<Iovec>, base: nat, udp: bool)
    ensures Aligned([Msg(base, 0, 0)], base, 0) && HoldsAll(iov, [Msg(base, 0, 0)], [[]])
    ensures Limits(udp, [[]]) && Payload([[]]) == [] && Size([]) == 0
  {
    var queue: seq<Message> := [[]];
    assert queue[..0] == [];
  }

  lemma SizeNone()
    ensures Size([]) == 0
  {
  }

  lemma LastUsed(msgs: seq<Msg>, base: nat, used: nat)
    requires Aligned(msgs, base, used)
    ensures msgs != [] && msgs[|msgs| - 1].start + msgs[|msgs| - 1].len == used
  {
  }

  lemma AppendedLast(queue: seq<Message>, v: Iovec)
    requires queue != []
    ensures |Appended(queue, v)| == |queue| && Appended(queue, v)[|queue| - 1] == queue[|queue| - 1] + [v]
  {
  }

  lemma HoldsCount(iov: seq<Iovec>, msgs: seq<Msg>, queue: seq<Message>)
    requires HoldsAll(iov, msgs, queue)
    ensures |msgs| == |queue|
  {
  }

  lemma LastFits(iov: seq<Iovec>, msgs: seq<Msg>, base: nat, used: nat, queue: seq<Message>)
    requires Aligned(msgs, base, used) && HoldsAll(iov, msgs, queue)
    ensures used <= |iov|
  {
    assert HoldsAt(iov, msgs[|msgs| - 1], queue[|msgs| - 1]);
  }

  lemma LastCount(iov: seq<Iovec>, msgs: seq<Msg>, base: nat, used: nat, queue: seq<Message>, udp: bool)
    requires Aligned(msgs, base, used) && HoldsAll(iov, msgs, queue) && Limits(udp, queue)
    ensures msgs != [] && |queue| == |msgs| && |queue[|queue| - 1]| == msgs[|msgs| - 1].len <= IOV_MAX
  {
    assert HoldsAt(iov, msgs[|msgs| - 1], queue[|msgs| - 1]);
  }

  lemma NewMessage(iov: seq<Iovec>, msgs: seq<Msg>, base: nat, used: nat, queue: seq<Message>)
    requires Aligned(msgs, base, used) && HoldsAll(iov, msgs, queue)
    ensures var msgs' := msgs + [Msg(base, used, 0)];
            Aligned(msgs', base, used) && HoldsAll(iov, msgs', queue + [[]])
  {
    LastFits(iov, msgs, base, used, queue);
    assert HoldsAt(iov, Msg(base, used, 0), []);
    hide HoldsAt;
  }

  /** In a datagram the first iovec, and in a stream none, is room for a header. */
  ghost predicate Framed(udp: bool, m: Message) {
    forall k :: 0 <= k < |m| ==>
      && (m[k].header <==> udp && k == 0)
      && (m[k].header ==> |m[k].bytes| == UDP_HEADER_SIZE)
  }

  /** No message has too many iovecs, and no datagram is too large. */
  ghost predicate Limits(udp: bool, queue: seq<Message>) {
    forall i :: 0 <= i < |queue| ==>
      && |queue[i]| <= 1024 && (udp ==> Size(queue[i]) <= 1400)
      && Framed(udp, queue[i])
  }

  ghost predicate Fits(udp: bool, m: Message, v: Iovec) {
    && |m| < IOV_MAX && (udp ==> Size(m) + |v.bytes| <= UDP_MAX_PAYLOAD_SIZE)
    && (v.header <==> udp && m == []) && (v.header ==> |v.bytes| == UDP_HEADER_SIZE)
  }

  lemma LimitsAppend(udp: bool, queue: seq<Message>, v: Iovec)
    requires queue != [] && Limits(udp, queue) && Fits(udp, queue[|queue| - 1], v)
    ensures Limits(udp, Appended(queue, v))
  {
    hide Size;
    SizeAppend(queue[|queue| - 1], v);
    FramedAppend(udp, queue[|queue| - 1], v);
    hide Framed;
  }

  lemma FramedAppend(udp: bool, m: Message, v: Iovec)
    requires Framed(udp, m) && (v.header <==> udp && m == []) && (v.header ==> |v.bytes| == UDP_HEADER_SIZE)
    ensures Framed(udp, m + [v])
  {
    assert forall k :: 0 <= k < |m| ==> (m + [v])[k] == m[k];
  }

  // ----- sending -----

  /** All the bytes of a message, headers too, first first. */
  function Wire(m: Message): seq<Byte> {
    if m == [] then [] else m[0].bytes + Wire(m[1..])
  }

  function Stream(queue: seq<Message>): seq<Byte> {
    if queue == [] then [] else Wire(queue[0]) + Stream(queue[1..])
  }

  datatype Outcome = Complete | Incomplete | SoftError | HardError

  /** The list while it is being sent: messages from `curr` on lie one after the other. */
  ghost predicate Ordered(msgs: seq<Msg>) {
    forall i, j :: 0 <= i < j < |msgs| ==> msgs[i].start + msgs[i].len <= msgs[j].start
  }

  ghost predicate HoldsFrom(iov: seq<Iovec>, msgs: seq<Msg>, curr: nat, queue: seq<Message>) {
    && curr <= |msgs| && |queue| == |msgs| - curr && Ordered(msgs)
    && forall i :: curr <= i < |msgs| ==> HoldsAt(iov, msgs[i], queue[i - curr])
  }

  lemma AlignedOrdered(msgs: seq<Msg>, base: nat, used: nat)
    requires Aligned(msgs, base, used)
    ensures Ordered(msgs)
  {
    forall i, j | 0 <= i < j < |msgs|
      ensures msgs[i].start + msgs[i].len <= msgs[j].start
    {
      AlignedPair(msgs, base, used, i, j);
    }
  }

  lemma {:induction false} AlignedPair(msgs: seq<Msg>, base: nat, used: nat, i: nat, j: nat)
    requires Aligned(msgs, base, used) && i < j < |msgs|
    ensures msgs[i].start + msgs[i].len <= msgs[j].start
    decreases j - i
  {
    if i + 1 < j {
      AlignedPair(msgs, base, used, i + 1, j);
    }
  }

  lemma InRange(iov: seq<Iovec>, m: Msg, message: Message)
    requires HoldsAt(iov, m, message)
    ensures m.start + m.len <= |iov| && m.len == |message|
  {
  }

  lemma NextInside(iov: seq<Iovec>, msgs: seq<Msg>, curr: nat, queue: seq<Message>)
    requires HoldsFrom(iov, msgs, curr, queue)
    ensures curr <= |msgs| && |queue| == |msgs| - curr
  {
  }

  /** A finished message has no bytes left. */
  lemma SkipDone(iov: seq<Iovec>, msgs: seq<Msg>, curr: nat, queue: seq<Message>)
    requires HoldsFrom(iov, msgs, curr, queue) && curr < |msgs| && msgs[curr].len == 0
    ensures queue != [] && HoldsFrom(iov, msgs, curr + 1, queue[1..]) && Stream(queue[1..]) == Stream(queue)
  {
    assert HoldsAt(iov, msgs[curr], queue[0]);
    assert Wire(queue[0]) == [];
  }

  lemma CurrentHolds(iov: seq<Iovec>, msgs: seq<Msg>, curr: nat, queue: seq<Message>)
    requires HoldsFrom(iov, msgs, curr, queue) && curr < |msgs|
    ensures queue != [] && HoldsAt(iov, msgs[curr], queue[0])
  {
  }

  lemma FirstHolds(iov: seq<Iovec>, m: Msg, message: Message)
    requires HoldsAt(iov, m, message) && m.len > 0
    ensures m.start < |iov| && message != [] && iov[m.start] == message[0]
    ensures HoldsAt(iov, m.(len := m.len - 1, start := m.start + 1), message[1..])
    ensures Wire(message) == message[0].bytes + Wire(message[1..])
  {
  }

  /** The message without the first n bytes of its first iovec. */
  function Trimmed(message: Message, n: nat): Message
    requires message != [] && n <= |message[0].bytes|
  {
    [message[0].(bytes := message[0].bytes[n..])] + message[1..]
  }

  lemma TrimHolds(iov: seq<Iovec>, m: Msg, message: Message, n: nat)
    requires HoldsAt(iov, m, message) && 0 < n <= |Wire(message)|
    requires m.len > 0 ==> m.start < |iov| && n < |iov[m.start].bytes|
    ensures m.len > 0 && m.start < |iov| && message != [] && iov[m.start] == message[0]
    ensures Wire(message) == message[0].bytes[..n] + Wire(Trimmed(message, n))
    ensures HoldsAt(iov[m.start := iov[m.start].(bytes := iov[m.start].bytes[n..])], m, Trimmed(message, n))
  {
    var first := message[0];
    assert Trimmed(message, n)[1..] == message[1..];
    assert first.bytes == first.bytes[..n] + first.bytes[n..];
    assert Trimmed(message, n) == message[0 := first.(bytes := first.bytes[n..])];
  }

  /** What is left of a message when n of its bytes have gone out. */
  function Unsent(message: Message, n: nat): Message {
    if message == [] then []
    else if n >= |message[0].bytes| then Unsent(message[1..], n - |message[0].bytes|)
    else Trimmed(message, n)
  }

  lemma UnsentFirst(message: Message, n: nat)
    requires message != []
    ensures Unsent(message, n) == if n >= |message[0].bytes| then Unsent(message[1..], n - |message[0].bytes|)
                                  else Trimmed(message, n)
  {
  }

  /** What is left is what has not gone out. */
  lemma {:induction false} UnsentWire(message: Message, n: nat)
    requires n <= |Wire(message)|
    ensures Wire(message) == Wire(message)[..n] + Wire(Unsent(message, n))
  {
    hide Unsent;
    if message == [] {
      UnsentNone(n);
    } else {
      var first, wire := message[0].bytes, Wire(message[1..]);
      UnsentFirst(message, n);
      assert Wire(message) == first + wire;
      if n >= |first| {
        UnsentWire(message[1..], n - |first|);
        hide Wire;
        assert (first + wire)[..n] == first + wire[..n - |first|];
        Associates(first, wire[..n - |first|], Wire(Unsent(message[1..], n - |first|)));
      } else {
        assert Trimmed(message, n)[1..] == message[1..];
        assert Wire(Trimmed(message, n)) == first[n..] + wire;
        hide Wire;
        assert (first + wire)[..n] == first[..n] && first == first[..n] + first[n..];
        Associates(first[..n], first[n..], wire);
      }
    }
  }

  lemma UnsentNone(n: nat)
    ensures Unsent([], n) == []
  {
  }

  lemma UnsentAll(message: Message)
    requires message != [] ==> message[0].bytes != []
    ensures Unsent(message, 0) == message
  {
    if message != [] {
      assert Trimmed(message, 0) == message;
    }
  }

  /** Changing the current message within its own place leaves the later ones. */
  lemma Replaced(iov0: seq<Iovec>, iov: seq<Iovec>, msgs: seq<Msg>, curr: nat, queue: seq<Message>, m: Msg,
                 message: Message)
    requires HoldsFrom(iov0, msgs, curr, queue) && curr < |msgs| && |iov| == |iov0|
    requires HoldsAt(iov, m, message)
    requires msgs[curr].start <= m.start && m.start + m.len == msgs[curr].start + msgs[curr].len
    requires forall k :: 0 <= k < |iov| && !(msgs[curr].start <= k < m.start + m.len) ==> iov[k] == iov0[k]
    ensures queue != [] && HoldsFrom(iov, msgs[curr := m], curr, queue[0 := message])
  {
    forall i | curr < i < |msgs|
      ensures HoldsAt(iov, msgs[i], queue[i - curr])
    {
      assert HoldsAt(iov0, msgs[i], queue[i - curr]);
      var x := msgs[i];
      assert iov[x.start..x.start + x.len] == iov0[x.start..x.start + x.len];
    }
    hide HoldsAt;
  }

  lemma StreamFirst(queue: seq<Message>, message: Message, sent: seq<Byte>)
    requires queue != [] && Wire(queue[0]) == sent + Wire(message)
    ensures Stream(queue) == sent + Stream(queue[0 := message])
  {
    hide Wire, Stream;
    StreamHead(queue);
    StreamHead(queue[0 := message]);
    assert queue[0 := message][1..] == queue[1..];
    Associates(sent, Wire(message), Stream(queue[1..]));
  }

  lemma StreamHead(queue: seq<Message>)
    requires queue != []
    ensures Stream(queue) == Wire(queue[0]) + Stream(queue[1..])
  {
    hide Wire;
  }

  /** A response of two iovecs of which the first has gone out: growing its list now would go wrong. */
  method GrowthAfterSend() returns (c: Conn)
    ensures fresh(c) && c.Sending() && c.msgcurr == 0 && !CountsRight(c.msgs)
  {
    hide Appended;
    hide HoldsFrom, Wire, Unsent, Stream;
    c := new Conn(false);
    TwoIovecs();
    c.AddIov([1]);
    c.AddIov([2]);
    c.StartSending();
    ghost var _ := c.Consume(1);
    assert Counted(c.msgs, 0) == 0;
  }

  lemma TwoIovecs()
    ensures var a, b := Iovec(false, [1]), Iovec(false, [2]);
            && Appended([[]], a) == [[a]] && Appended([[a]], b) == [[a, b]]
            && Unsent([a, b], 1) == [b] && Wire([a, b]) == [1, 2]
  {
    var a, b := Iovec(false, [1]), Iovec(false, [2]);
    var none: Message := [];
    assert none + [a] == [a] && [none][..0] + [none + [a]] == [[a]];
    assert [a] + [b] == [a, b] && [[a]][..0] + [[a] + [b]] == [[a, b]];
    assert [a, b][1..] == [b] && [b][1..] == [];
    assert Wire([b]) == [2] + Wire([]);
    assert Unsent([a, b], 1) == Unsent([b], 0);
    UnsentAll([b]);
  }

  // ----- what is sent is what was queued -----

  lemma {:induction false} WireLast(m: Message, v: Iovec)
    ensures Wire(m + [v]) == Wire(m) + v.bytes
  {
    if m != [] {
      assert (m + [v])[1..] == m[1..] + [v];
      WireLast(m[1..], v);
    } else {
      assert (m + [v])[1..] == [];
    }
  }

  lemma {:induction false} StreamLast(queue: seq<Message>, m: Message)
    ensures Stream(queue + [m]) == Stream(queue) + Wire(m)
  {
    if queue != [] {
      assert (queue + [m])[1..] == queue[1..] + [m];
      StreamLast(queue[1..], m);
    } else {
      assert (queue + [m])[1..] == [];
    }
  }

  /** The header room a message starts with. */
  function Header(udp: bool, m: Message): seq<Byte> {
    if udp && m != [] then m[0].bytes else []
  }

  /** A message goes out as its header, if it is a datagram, and its body; its size is what goes out. */
  lemma {:induction false} WireBody(udp: bool, m: Message)
    requires Framed(udp, m)
    ensures Wire(m) == Header(udp, m) + Body(m) && |Wire(m)| == Size(m)
  {
    hide Wire, Size, Body, Piece, Framed;
    if m == [] {
      BodyNone();
    } else {
      var n := |m| - 1;
      var front, v := m[..n], m[n];
      assert front + [v] == m;
      WireLast(front, v);
      SizeAppend(front, v);
      FramedFront(udp, m);
      WireBody(udp, front);
      FramedAt(udp, m, n);
      PieceOf(v);
      if n == 0 {
        BodyNone();
      } else {
        assert Header(udp, m) == Header(udp, front);
        Associates(Header(udp, front), Body(front), v.bytes);
      }
    }
  }

  lemma FramedFront(udp: bool, m: Message)
    requires Framed(udp, m) && m != []
    ensures Framed(udp, m[..|m| - 1])
  {
  }

  lemma PieceOf(v: Iovec)
    ensures Piece(v) == if v.header then [] else v.bytes
  {
  }

  lemma FramedAt(udp: bool, m: Message, k: nat)
    requires Framed(udp, m) && k < |m|
    ensures m[k].header <==> udp && k == 0
  {
  }

  lemma BodyNone()
    ensures Wire([]) == [] && Body([]) == [] && Size([]) == 0
  {
  }

  /** On a stream connection the bytes that go out are the bytes that were added, in order. */
  lemma {:induction false} StreamIsPayload(queue: seq<Message>)
    requires Limits(false, queue)
    ensures Stream(queue) == Payload(queue)
  {
    if queue != [] {
      var n := |queue| - 1;
      assert queue[..n] + [queue[n]] == queue;
      StreamLast(queue[..n], queue[n]);
      StreamIsPayload(queue[..n]);
      WireBody(false, queue[n]);
    }
  }
}
