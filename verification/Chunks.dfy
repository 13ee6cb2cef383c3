/** Copying item data into chains of chunks, and joining two items for append and prepend. */
module Chunks {
  import opened Prelude

  /** `data` are the used bytes of a chunk that can hold `size`. */
  datatype Chunk = Chunk(size: nat, data: seq<Byte>) {
    predicate Full() {
      |data| == size
    }
  }

  /** An item's data: in one piece, or in a chain of chunks. */
  datatype Data = Flat(bytes: seq<Byte>) | Chunked(chain: seq<Chunk>) {
    function Bytes(): seq<Byte> {
      match this
      case Flat(bytes) => bytes
      case Chunked(chain) => Flatten(chain)
    }
  }

  function Flatten(chain: seq<Chunk>): seq<Byte> {
    if chain == [] then [] else chain[0].data + Flatten(chain[1..])
  }

  /** No chunk holds more than its size. */
  ghost predicate Sized(chain: seq<Chunk>) {
    forall i :: 0 <= i < |chain| ==> |chain[i].data| <= chain[i].size
  }

  /** A destination: a chain with room, if any, in its last chunk only. */
  ghost predicate Packed(chain: seq<Chunk>) {
    chain != [] && Sized(chain) && forall i :: 0 <= i < |chain| - 1 ==> chain[i].Full()
  }

  /** `chunkSizeMax` is settings.slab_chunk_size_max, `header` is sizeof(item_chunk). */
  datatype Conf = Conf(chunkSizeMax: nat, header: nat) {
    predicate Valid() {
      header < chunkSizeMax
    }

    /** The size of a chunk that `do_item_alloc_chunk` makes for the bytes that remain. */
    function ChunkSize(remain: nat): (size: nat)
      requires Valid()
      ensures size <= remain && (remain > 0 ==> size > 0)
    {
      (if remain + header > chunkSizeMax then chunkSizeMax else remain + header) - header
    }
  }

  function Min(a: nat, b: nat): nat {
    if a < b then a else b
  }

  lemma {:induction false} FlattenLast(chain: seq<Chunk>, last: Chunk)
    ensures Flatten(chain + [last]) == Flatten(chain) + last.data
  {
    if chain != [] {
      assert (chain + [last])[1..] == chain[1..] + [last];
      FlattenLast(chain[1..], last);
    } else {
      assert (chain + [last])[1..] == [];
    }
  }

  /** The chain with bytes added to its last chunk. */
  function Extended(chain: seq<Chunk>, bytes: seq<Byte>): seq<Chunk>
    requires chain != []
  {
    var n := |chain| - 1;
    chain[..n] + [chain[n].(data := chain[n].data + bytes)]
  }

  lemma ExtendedBytes(chain: seq<Chunk>, bytes: seq<Byte>)
    requires Packed(chain) && |chain[|chain| - 1].data| + |bytes| <= chain[|chain| - 1].size
    ensures Flatten(Extended(chain, bytes)) == Flatten(chain) + bytes && Packed(Extended(chain, bytes))
  {
    var n := |chain| - 1;
    FlattenLast(chain[..n], chain[n]);
    assert chain[..n] + [chain[n]] == chain;
    FlattenLast(chain[..n], chain[n].(data := chain[n].data + bytes));
  }

  lemma GrownBytes(chain: seq<Chunk>, size: nat)
    requires Packed(chain) && chain[|chain| - 1].Full()
    ensures Flatten(chain + [Chunk(size, [])]) == Flatten(chain) && Packed(chain + [Chunk(size, [])])
  {
    FlattenLast(chain, Chunk(size, []));
  }

  /** The first chunk with room, or the last one. */
  method FindRoom(chain: seq<Chunk>) returns (d: nat)
    requires Packed(chain)
    ensures d == |chain| - 1
  {
    d := 0;
    while chain[d].Full() && d + 1 < |chain|
      invariant d < |chain|
    {
      d := d + 1;
    }
  }

  /** The bytes a chunked source still has to give, from `copied` bytes into chunk s on. */
  function Left(chain: seq<Chunk>, s: nat, copied: nat): seq<Byte>
    requires s <= |chain| && (s < |chain| ==> copied <= |chain[s].data|)
  {
    if s == |chain| then [] else chain[s].data[copied..] + Flatten(chain[s + 1..])
  }

  lemma LeftNext(chain: seq<Chunk>, s: nat)
    requires s < |chain|
    ensures Left(chain, s, |chain[s].data|) == Left(chain, s + 1, 0)
  {
    if s + 1 < |chain| {
      assert chain[s + 1..][1..] == chain[s + 2..];
    }
  }

  /** Taking n bytes: what is wanted of the rest is the n bytes, then what is still wanted after them. */
  lemma LeftSome(chain: seq<Chunk>, s: nat, copied: nat, n: nat, want: nat)
    requires s < |chain| && copied + n <= |chain[s].data| && n <= want <= |Left(chain, s, copied)|
    ensures want - n <= |Left(chain, s, copied + n)|
    ensures Left(chain, s, copied)[..want] == chain[s].data[copied..copied + n] + Left(chain, s, copied + n)[..want - n]
  {
    LeftParts(chain, s, copied, n);
    hide Left;
    TakeOf(chain[s].data[copied..copied + n], Left(chain, s, copied + n), want);
  }

  lemma LeftParts(chain: seq<Chunk>, s: nat, copied: nat, n: nat)
    requires s < |chain| && copied + n <= |chain[s].data|
    ensures Left(chain, s, copied) == chain[s].data[copied..copied + n] + Left(chain, s, copied + n)
  {
  }

  lemma TakeOf(a: seq<Byte>, b: seq<Byte>, want: nat)
    requires |a| <= want <= |a| + |b|
    ensures (a + b)[..want] == a + b[..want - |a|]
  {
  }

  lemma LeftAll(chain: seq<Chunk>)
    ensures Left(chain, 0, 0) == Flatten(chain)
  {
  }

  lemma LastRoom(chain: seq<Chunk>)
    requires Packed(chain)
    ensures chain != [] && |chain[|chain| - 1].data| <= chain[|chain| - 1].size
  {
  }

  /**
   * Bytes go to the end of the last chunk; if that fills it, another is allocated. Whether the k-th allocation
   * succeeds is up to `canAlloc`.
   */
  method Put(conf: Conf, dst0: seq<Chunk>, bytes: seq<Byte>, remain: nat, canAlloc: nat -> bool, k: nat)
    returns (ok: bool, dst: seq<Chunk>, allocs: nat)
    requires conf.Valid() && Packed(dst0)
    requires var last := dst0[|dst0| - 1]; |last.data| + |bytes| <= last.size
    ensures ok || !canAlloc(k)
    ensures Packed(dst) && Flatten(dst) == Flatten(dst0) + bytes
    ensures ok && remain > 0 ==> !dst[|dst| - 1].Full()
  {
    hide Flatten;
    ExtendedBytes(dst0, bytes);
    dst := Extended(dst0, bytes);
    allocs := k;
    if dst[|dst| - 1].Full() {
      if !canAlloc(k) {
        return false, dst, k;
      }
      GrownBytes(dst, conf.ChunkSize(remain));
      dst := dst + [Chunk(conf.ChunkSize(remain), [])];
      allocs := k + 1;
    }
    return true, dst, allocs;
  }

  /** The room in the last chunk. */
  function Room(dst: seq<Chunk>): nat {
    if dst == [] || |dst[|dst| - 1].data| > dst[|dst| - 1].size then 0
    else dst[|dst| - 1].size - |dst[|dst| - 1].data|
  }

  lemma RoomMeans(dst: seq<Chunk>)
    requires Packed(dst)
    ensures dst != [] && Room(dst) == dst[|dst| - 1].size - |dst[|dst| - 1].data|
    ensures Room(dst) == 0 <==> dst[|dst| - 1].Full()
  {
  }

  /** `_store_item_copy_chunks` from a chunked item */
  method CopyChunked(conf: Conf, dst0: seq<Chunk>, src: seq<Chunk>, len: nat, canAlloc: nat -> bool)
    returns (ok: bool, dst: seq<Chunk>)
    requires conf.Valid() && Packed(dst0) && len <= |Flatten(src)|
    ensures (forall k: nat :: canAlloc(k)) ==> ok
    ensures ok ==> Packed(dst) && Flatten(dst) == Flatten(dst0) + Flatten(src)[..len]
  {
    hide Packed, Flatten, Left, Room, Chunk.Full;
    dst := dst0;
    LastRoom(dst);
    var d := FindRoom(dst);
    var remain: nat, s: nat, copied: nat, allocs: nat := len, 0, 0, 0;
    LeftAll(src);
    while s < |src| && remain > 0
      invariant Packed(dst) && dst != [] && d == |dst| - 1
      invariant s <= |src| && (s < |src| ==> copied <= |src[s].data|)
      invariant remain <= |Left(src, s, copied)|
      invariant Flatten(dst) + Left(src, s, copied)[..remain] == Flatten(dst0) + Flatten(src)[..len]
      decreases remain, |src| - s, if Room(dst) == 0 then 1 else 0
    {
      RoomMeans(dst);
      var todo := Min(dst[d].size - |dst[d].data|, |src[s].data| - copied);
      todo := Min(todo, remain);
      LeftSome(src, s, copied, todo, remain);
      var piece := src[s].data[copied..copied + todo];
      assert Flatten(dst) + piece + Left(src, s, copied + todo)[..remain - todo]
          == Flatten(dst) + (piece + Left(src, s, copied + todo)[..remain - todo]);
      copied, remain := copied + todo, remain - todo;
      ok, dst, allocs := Put(conf, dst, piece, remain, canAlloc, allocs);
      if !ok {
        return;
      }
      RoomMeans(dst);
      d := |dst| - 1;
      if copied == |src[s].data| {
        LeftNext(src, s);
        s, copied := s + 1, 0;
      }
    }
    LeftNone(src, s, copied);
    ok := true;
  }

  lemma LeftNone(chain: seq<Chunk>, s: nat, copied: nat)
    requires s <= |chain| && (s < |chain| ==> copied <= |chain[s].data|)
    ensures s == |chain| ==> Left(chain, s, copied) == []
  {
  }

  /** `_store_item_copy_chunks` from an item in one piece */
  method CopyFlat(conf: Conf, dst0: seq<Chunk>, src: seq<Byte>, len: nat, canAlloc: nat -> bool)
    returns (ok: bool, dst: seq<Chunk>)
    requires conf.Valid() && Packed(dst0) && len <= |src|
    ensures (forall k: nat :: canAlloc(k)) ==> ok
    ensures ok ==> Packed(dst) && Flatten(dst) == Flatten(dst0) + src[..len]
  {
    hide Packed, Flatten, Room, Chunk.Full;
    dst := dst0;
    LastRoom(dst);
    var d := FindRoom(dst);
    var done: nat, allocs: nat := 0, 0;
    while len > done
      invariant Packed(dst) && dst != [] && d == |dst| - 1 && done <= len
      invariant Flatten(dst) == Flatten(dst0) + src[..done]
      decreases len - done, if Room(dst) == 0 then 1 else 0
    {
      RoomMeans(dst);
      var todo := Min(dst[d].size - |dst[d].data|, len - done);
      var piece := src[done..done + todo];
      assert src[..done] + piece == src[..done + todo];
      done := done + todo;
      ok, dst, allocs := Put(conf, dst, piece, len - done, canAlloc, allocs);
      if !ok {
        return;
      }
      RoomMeans(dst);
      d := |dst| - 1;
    }
    ok := true;
  }

  /** `_store_item_copy_chunks` */
  method CopyChunks(conf: Conf, dst0: seq<Chunk>, src: Data, len: nat, canAlloc: nat -> bool)
    returns (ok: bool, dst: seq<Chunk>)
    requires conf.Valid() && Packed(dst0) && len <= |src.Bytes()|
    ensures (forall k: nat :: canAlloc(k)) ==> ok
    ensures ok ==> Packed(dst) && Flatten(dst) == Flatten(dst0) + src.Bytes()[..len]
  {
    match src
    case Chunked(chain) => ok, dst := CopyChunked(conf, dst0, chain, len, canAlloc);
    case Flat(bytes) => ok, dst := CopyFlat(conf, dst0, bytes, len, canAlloc);
  }

  // ----- append and prepend -----

  const CRLF: seq<Byte> := [13, 10]

  /** The data of an item: its value and the line end that the protocol stores with it. */
  ghost predicate Holds(data: seq<Byte>, value: seq<Byte>) {
    data == value + CRLF
  }

  /** `_store_item_copy_data` into a chunked item: `first` loses its line end, `second` keeps it. */
  method JoinChunked(conf: Conf, new0: seq<Chunk>, first: Data, second: Data,
                     ghost v: seq<Byte>, ghost w: seq<Byte>, canAlloc1: nat -> bool, canAlloc2: nat -> bool)
    returns (ok: bool, new_: seq<Chunk>)
    requires conf.Valid() && Packed(new0) && Flatten(new0) == []
    requires Holds(first.Bytes(), v) && Holds(second.Bytes(), w)
    ensures (forall k: nat :: canAlloc1(k) && canAlloc2(k)) ==> ok
    ensures ok ==> Packed(new_) && Holds(Flatten(new_), v + w)
  {
    hide Flatten, Packed, Data.Bytes;
    var n := |first.Bytes()|;
    ok, new_ := CopyChunks(conf, new0, first, n - 2, canAlloc1);
    if !ok {
      return;
    }
    assert first.Bytes()[..n - 2] == v;
    var m := |second.Bytes()|;
    ok, new_ := CopyChunks(conf, new_, second, m, canAlloc2);
    assert second.Bytes()[..m] == second.Bytes();
  }

  /** memcpy */
  method Copy(dst: array<Byte>, at: nat, src: seq<Byte>)
    requires at + |src| <= dst.Length
    modifies dst
    ensures dst[..] == old(dst[..at]) + src + old(dst[at + |src|..])
  {
    for i := 0 to |src|
      invariant dst[..at] == old(dst[..at]) && dst[at..at + i] == src[..i]
      invariant dst[at + i..] == old(dst[at + i..])
    {
      dst[at + i] := src[i];
    }
    assert dst[..] == dst[..at] + dst[at..at + |src|] + dst[at + |src|..];
  }

  /** `_store_item_copy_data` into an item in one piece: the second copy overwrites the first one's line end. */
  method JoinFlat(new_: array<Byte>, first: seq<Byte>, second: seq<Byte>, ghost v: seq<Byte>, ghost w: seq<Byte>)
    requires Holds(first, v) && Holds(second, w) && new_.Length == |first| + |second| - 2
    modifies new_
    ensures Holds(new_[..], v + w)
  {
    Copy(new_, 0, first);
    ghost var half := new_[..];
    assert half[..|first| - 2] == v;
    Copy(new_, |first| - 2, second);
  }

  datatype Command = Append | Prepend

  /** Append and prepend store the two values end to end, with one line end. */
  method StoreItemCopyData(conf: Conf, comm: Command, old_: Data, add: Data, new0: seq<Chunk>,
                           ghost v: seq<Byte>, ghost w: seq<Byte>, canAlloc1: nat -> bool, canAlloc2: nat -> bool)
    returns (ok: bool, new_: seq<Chunk>)
    requires conf.Valid() && Packed(new0) && Flatten(new0) == []
    requires Holds(old_.Bytes(), v) && Holds(add.Bytes(), w)
    ensures (forall k: nat :: canAlloc1(k) && canAlloc2(k)) ==> ok
    ensures ok ==> Packed(new_) && Holds(Flatten(new_), if comm == Append then v + w else w + v)
  {
    if comm == Append {
      ok, new_ := JoinChunked(conf, new0, old_, add, v, w, canAlloc1, canAlloc2);
    } else {
      ok, new_ := JoinChunked(conf, new0, add, old_, w, v, canAlloc1, canAlloc2);
    }
  }

  method StoreFlatCopyData(comm: Command, old_: seq<Byte>, add: seq<Byte>, new_: array<Byte>,
                           ghost v: seq<Byte>, ghost w: seq<Byte>)
    requires Holds(old_, v) && Holds(add, w) && new_.Length == |add| + |old_| - 2
    modifies new_
    ensures Holds(new_[..], if comm == Append then v + w else w + v)
  {
    if comm == Append {
      JoinFlat(new_, old_, add, v, w);
    } else {
      JoinFlat(new_, add, old_, w, v);
    }
  }
}
