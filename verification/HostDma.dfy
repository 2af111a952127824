/**
 Host DMA in one-shot mode: both sides of a transfer are cyclic lists of memory blocks, and every
 transfer is cut where a block of either side ends.
 */
module HostDma {
  import opened Wrappers
  import opened Arithmetic
  import opened Bytes

  /** The part of a scatter-gather element that one side uses. */
  datatype Block = Block(addr: nat, size: nat)

  // ---- lists of blocks as one piece of memory ------------------------------------------------------

  /** The addresses of all bytes of the list, in order. */
  function Flat(blocks: seq<Block>): seq<nat> {
    if blocks == [] then [] else seq(blocks[0].size, o requires 0 <= o => blocks[0].addr + o) + Flat(blocks[1..])
  }

  /** Where block `i` starts in the list. */
  function Start(blocks: seq<Block>, i: nat): nat
    requires i <= |blocks|
  {
    if i == 0 then 0 else blocks[0].size + Start(blocks[1..], i - 1)
  }

  lemma {:induction false} FlatAt(blocks: seq<Block>, i: nat, o: nat)
    requires i < |blocks| && o < blocks[i].size
    ensures Start(blocks, i) + o < |Flat(blocks)| && Flat(blocks)[Start(blocks, i) + o] == blocks[i].addr + o
  {
    if i > 0 { FlatAt(blocks[1..], i - 1, o); }
  }

  lemma {:induction false} StartNext(blocks: seq<Block>, i: nat)
    requires i < |blocks|
    ensures Start(blocks, i) + blocks[i].size == if i + 1 < |blocks| then Start(blocks, i + 1) else |Flat(blocks)|
  {
    if i > 0 { StartNext(blocks[1..], i - 1); } else { assert blocks[1..] == [] ==> Flat(blocks[1..]) == []; }
  }

  predicate Usable(blocks: seq<Block>) { blocks != [] && forall b :: b in blocks ==> b.size > 0 }

  lemma UsableFlat(blocks: seq<Block>)
    requires Usable(blocks)
    ensures |Flat(blocks)| > 0
  {
    FlatAt(blocks, 0, 0);
  }

  /** The address of byte `k` of the cyclic list. */
  function Address(blocks: seq<Block>, k: nat): nat
    requires Usable(blocks)
  {
    UsableFlat(blocks);
    Flat(blocks)[Slot(|Flat(blocks)|, k)]
  }

  /** The address `at` in block `current` is that of byte `k` of the cyclic list. */
  predicate Placed(blocks: seq<Block>, current: nat, at: nat, k: nat)
    requires Usable(blocks)
  {
    UsableFlat(blocks);
    && current < |blocks| && blocks[current].addr <= at < blocks[current].addr + blocks[current].size
    && Slot(|Flat(blocks)|, k) == Start(blocks, current) + (at - blocks[current].addr)
  }

  lemma AtStart(blocks: seq<Block>)
    requires Usable(blocks)
    ensures Placed(blocks, 0, blocks[0].addr, 0)
  {
    hide Flat, Slot;
    UsableFlat(blocks);
    assert blocks[0] in blocks;
    SlotOfIndex(|Flat(blocks)|, 0);
  }

  /** Within the block, addresses go up with the positions. */
  lemma PlacedAhead(blocks: seq<Block>, current: nat, at: nat, k: nat, j: nat)
    requires Usable(blocks) && Placed(blocks, current, at, k) && at + j < blocks[current].addr + blocks[current].size
    ensures Placed(blocks, current, at + j, k + j) && Address(blocks, k + j) == at + j
  {
    hide Slot, Flat, Start;
    UsableFlat(blocks);
    var o := at + j - blocks[current].addr;
    FlatAt(blocks, current, o);
    SlotStep(|Flat(blocks)|, k, j);
  }

  /** At its end comes the first address of the next block, cyclically. */
  lemma PlacedNext(blocks: seq<Block>, current: nat, at: nat, k: nat, j: nat)
    requires Usable(blocks) && Placed(blocks, current, at, k) && at + j == blocks[current].addr + blocks[current].size
    ensures var next := if current + 1 == |blocks| then 0 else current + 1;
      Placed(blocks, next, blocks[next].addr, k + j)
  {
    hide Slot, Flat;
    UsableFlat(blocks);
    var next := if current + 1 == |blocks| then 0 else current + 1;
    assert blocks[next] in blocks;
    FlatAt(blocks, current, blocks[current].size - 1);
    StartNext(blocks, current);
    if current + 1 < |blocks| { FlatAt(blocks, current + 1, 0); }
    SlotStep(|Flat(blocks)|, k, j);
  }

  // ---- what a copy means ---------------------------------------------------------------------------

  type Memory = map<nat, Byte>

  /** What an address of the source holds when byte `k` goes out: the memory is refilled as the copying
      goes on. */
  type Source = (nat, nat) -> Byte

  /** `n` bytes from position `k` of the source list to the same position of the sink list, one at a time. */
  function Sent(mem: Memory, from: Source, source: seq<Block>, sink: seq<Block>, k: nat, n: nat): Memory
    requires Usable(source) && Usable(sink)
  {
    if n == 0 then mem
    else
      Sent(mem, from, source, sink, k, n - 1)
      [Address(sink, k + n - 1) := from(k + n - 1, Address(source, k + n - 1))]
  }

  /** A single transfer. */
  function Transferred(mem: Memory, from: Source, k: nat, src: nat, dest: nat, n: nat): Memory {
    if n == 0 then mem else Transferred(mem, from, k, src, dest, n - 1)[dest + n - 1 := from(k + n - 1, src + n - 1)]
  }

  lemma {:induction false} SentChunk(mem: Memory, from: Source, source: seq<Block>, sink: seq<Block>, k: nat, n: nat,
                                     src: nat, dest: nat, c: nat)
    requires Usable(source) && Usable(sink)
    requires forall j :: k + n <= j < k + n + c ==>
      Address(source, j) == src + j - k - n && Address(sink, j) == dest + j - k - n
    ensures Sent(mem, from, source, sink, k, n + c) ==
      Transferred(Sent(mem, from, source, sink, k, n), from, k + n, src, dest, c)
    decreases c
  {
    hide Address;
    if c > 0 {
      SentChunk(mem, from, source, sink, k, n, src, dest, c - 1);
      assert Address(source, k + n + c - 1) == src + c - 1;
    }
  }

  lemma {:induction false} SentElsewhere(mem: Memory, from: Source, source: seq<Block>, sink: seq<Block>, k: nat,
                                         n: nat, a: nat)
    requires Usable(source) && Usable(sink) && forall j :: k <= j < k + n ==> Address(sink, j) != a
    ensures var r := Sent(mem, from, source, sink, k, n); (a in r <==> a in mem) && (a in r ==> r[a] == mem[a])
  {
    hide Address, Usable;
    if n > 0 { SentElsewhere(mem, from, source, sink, k, n - 1, a); }
  }

  lemma {:induction false} SentArrives(mem: Memory, from: Source, source: seq<Block>, sink: seq<Block>, k: nat,
                                       n: nat, j: nat)
    requires Usable(source) && Usable(sink) && k <= j < k + n
    requires forall i :: j < i < k + n ==> Address(sink, i) != Address(sink, j)
    ensures var r := Sent(mem, from, source, sink, k, n);
      Address(sink, j) in r && r[Address(sink, j)] == from(j, Address(source, j))
  {
    hide Address, Usable;
    if j < k + n - 1 { SentArrives(mem, from, source, sink, k, n - 1, j); }
  }

  /** While no byte of the sink is written twice, byte j of the source arrives at byte j of the sink, and
      nothing else changes. */
  lemma SentBytes(mem: Memory, from: Source, source: seq<Block>, sink: seq<Block>, k: nat, n: nat)
    requires Usable(source) && Usable(sink)
    requires forall i, j :: k <= i < j < k + n ==> Address(sink, i) != Address(sink, j)
    ensures var r := Sent(mem, from, source, sink, k, n);
      && (forall j :: k <= j < k + n ==> Address(sink, j) in r && r[Address(sink, j)] == from(j, Address(source, j)))
      && (forall a :: (forall j :: k <= j < k + n ==> Address(sink, j) != a) ==>
            (a in r <==> a in mem) && (a in r ==> r[a] == mem[a]))
  {
    hide Address, Usable, Sent;
    var r := Sent(mem, from, source, sink, k, n);
    forall j | k <= j < k + n ensures Address(sink, j) in r && r[Address(sink, j)] == from(j, Address(source, j)) {
      SentArrives(mem, from, source, sink, k, n, j);
    }
    forall a | forall j :: k <= j < k + n ==> Address(sink, j) != a
      ensures (a in r <==> a in mem) && (a in r ==> r[a] == mem[a])
    {
      SentElsewhere(mem, from, source, sink, k, n, a);
    }
  }

  predicate Disjoint(blocks: seq<Block>) {
    forall i, j :: 0 <= i < j < |blocks| ==> Apart(blocks[i], blocks[j])
  }

  predicate Apart(a: Block, b: Block) { a.addr + a.size <= b.addr || b.addr + b.size <= a.addr }

  lemma {:induction false} FlatInBlock(blocks: seq<Block>, p: nat) returns (i: nat)
    requires p < |Flat(blocks)|
    ensures i < |blocks| && blocks[i].addr <= Flat(blocks)[p] < blocks[i].addr + blocks[i].size
  {
    if p < blocks[0].size {
      i := 0;
    } else {
      i := FlatInBlock(blocks[1..], p - blocks[0].size);
      i := i + 1;
    }
  }

  /** Of blocks that do not overlap, no address comes twice in the list. */
  lemma {:induction false} FlatDiffers(blocks: seq<Block>, p: nat, q: nat)
    requires Disjoint(blocks) && p < q < |Flat(blocks)|
    ensures Flat(blocks)[p] != Flat(blocks)[q]
  {
    var n, rest := blocks[0].size, blocks[1..];
    if p >= n {
      FlatDiffers(rest, p - n, q - n);
    } else if q >= n {
      var i := FlatInBlock(rest, q - n);
      assert Apart(blocks[0], blocks[i + 1]);
    }
  }

  lemma AddressesDiffer(blocks: seq<Block>, i: nat, j: nat)
    requires Usable(blocks) && Disjoint(blocks) && i < j < i + |Flat(blocks)|
    ensures Address(blocks, i) != Address(blocks, j)
  {
    hide Flat, Slot, Disjoint;
    var size := |Flat(blocks)|;
    SlotsDiffer(size, i, j);
    var p, q := Slot(size, i), Slot(size, j);
    if p < q { FlatDiffers(blocks, p, q); } else { FlatDiffers(blocks, q, p); }
  }

  /** So it is in one cycle of a sink whose blocks do not overlap. */
  lemma SentToDisjoint(mem: Memory, from: Source, source: seq<Block>, sink: seq<Block>, k: nat, n: nat)
    requires Usable(source) && Usable(sink) && Disjoint(sink) && n <= |Flat(sink)|
    ensures var r := Sent(mem, from, source, sink, k, n);
      && (forall j :: k <= j < k + n ==> Address(sink, j) in r && r[Address(sink, j)] == from(j, Address(source, j)))
      && (forall a :: (forall j :: k <= j < k + n ==> Address(sink, j) != a) ==>
            (a in r <==> a in mem) && (a in r ==> r[a] == mem[a]))
  {
    hide Address, Usable, Sent, Disjoint, Flat;
    forall i, j | k <= i < j < k + n ensures Address(sink, i) != Address(sink, j) { AddressesDiffer(sink, i, j); }
    SentBytes(mem, from, source, sink, k, n);
  }

  // ---- the transfers ----------------------------------------------------------------------------

  function Sum(s: seq<nat>): nat { if s == [] then 0 else s[0] + Sum(s[1..]) }

  function Min(a: nat, b: nat): nat { if a < b then a else b }

  /** One side: its blocks and the one in use. */
  class Buffer {
    const blocks: seq<Block>
    var current: nat
    var currentEnd: nat

    constructor (blocks: seq<Block>)
      ensures this.blocks == blocks && current == 0 && currentEnd == 0
    {
      this.blocks, current, currentEnd := blocks, 0, 0;
    }

    method NextBuffer() returns (next: Option<Block>)
      requires blocks == [] || current < |blocks|
      modifies this`current
      ensures blocks == [] ==> next == None && current == old(current)
      ensures blocks != [] ==>
        current == (if old(current) + 1 == |blocks| then 0 else old(current) + 1) && next == Some(blocks[current])
    {
      if blocks == [] { return None; }
      current := current + 1;
      if current == |blocks| { current := 0; }
      return Some(blocks[current]);
    }
  }

  class Host {
    const source: Buffer
    const sink: Buffer
    const from: Source
    var mem: Memory
    var src: nat
    var dest: nat
    var elemSize: nat
    var moved: nat

    ghost predicate Valid()
      reads this, source, sink
    {
      && source != sink && Usable(source.blocks) && Usable(sink.blocks)
      && Placed(source.blocks, source.current, src, moved) && Placed(sink.blocks, sink.current, dest, moved)
      && source.currentEnd == source.blocks[source.current].addr + source.blocks[source.current].size
      && sink.currentEnd == sink.blocks[sink.current].addr + sink.blocks[sink.current].size
    }

    constructor (source: Buffer, sink: Buffer, from: Source, mem: Memory)
      ensures this.source == source && this.sink == sink && this.from == from && this.mem == mem
    {
      this.source, this.sink, this.from, this.mem := source, sink, from, mem;
      src, dest, elemSize, moved := 0, 0, 0, 0;
    }

    /** A side whose list is missing stays as it is, and so does the local element if either is. */
    method ElementsReset(playback: bool)
      requires source != sink
      modifies this`src, this`dest, this`elemSize, this`moved, source, sink
      ensures moved == 0 && (Usable(source.blocks) && Usable(sink.blocks) ==> Valid())
      ensures source.blocks == [] ==>
        source.current == old(source.current) && source.currentEnd == old(source.currentEnd)
      ensures sink.blocks == [] ==> sink.current == old(sink.current) && sink.currentEnd == old(sink.currentEnd)
      ensures if source.blocks != [] && sink.blocks != []
        then elemSize == if playback then sink.blocks[0].size else source.blocks[0].size
        else src == old(src) && dest == old(dest) && elemSize == old(elemSize)
    {
      hide Flat, Slot;
      if source.blocks != [] {
        source.current, source.currentEnd := 0, source.blocks[0].addr + source.blocks[0].size;
      }
      if sink.blocks != [] {
        sink.current, sink.currentEnd := 0, sink.blocks[0].addr + sink.blocks[0].size;
      }
      if source.blocks != [] && sink.blocks != [] {
        dest := sink.blocks[0].addr;
        elemSize := if playback then sink.blocks[0].size else source.blocks[0].size;
        src := source.blocks[0].addr;
      }
      moved := 0;
      if Usable(source.blocks) && Usable(sink.blocks) {
        AtStart(source.blocks);
        AtStart(sink.blocks);
      }
    }

    /** What has to be left for later, so that the rest crosses no end of a block and, if anything was
        asked for, is not nothing. */
    method GetSplit(bytes: nat) returns (split: nat)
      requires Valid()
      ensures split <= bytes && bytes - split == Min(bytes, Min(source.currentEnd - src, sink.currentEnd - dest))
      ensures bytes > 0 ==> split < bytes
    {
      var splitSrc, splitDst := 0, 0;
      if src + bytes > source.currentEnd { splitSrc := bytes - (source.currentEnd - src); }
      if dest + bytes > sink.currentEnd { splitDst := bytes - (sink.currentEnd - dest); }
      split := if splitSrc > splitDst then splitSrc else splitDst;
    }

    /** The DMA moves bytes that are in one block on both sides. */
    method Transfer(bytes: nat)
      requires Valid() && src + bytes <= source.currentEnd && dest + bytes <= sink.currentEnd
      modifies this`mem
      ensures mem == Transferred(old(mem), from, moved, src, dest, bytes)
    {
      hide Valid, Placed, Usable, Flat, Start;
      for i := 0 to bytes
        invariant mem == Transferred(old(mem), from, moved, src, dest, i)
      {
        mem := mem[dest + i := from(moved + i, src + i)];
      }
    }

    /** Completion of a transfer. */
    method OneShot(bytes: nat)
      requires Valid() && src + bytes <= source.currentEnd && dest + bytes <= sink.currentEnd
      modifies this`src, this`dest, this`moved, source, sink
      ensures Valid() && moved == old(moved) + bytes
    {
      hide Slot, Flat, Start, Placed;
      if src + bytes == source.currentEnd { PlacedNext(source.blocks, source.current, src, moved, bytes); }
      else { PlacedAhead(source.blocks, source.current, src, moved, bytes); }
      if dest + bytes == sink.currentEnd { PlacedNext(sink.blocks, sink.current, dest, moved, bytes); }
      else { PlacedAhead(sink.blocks, sink.current, dest, moved, bytes); }
      PlacedCurrent(source.blocks, source.current, src, moved);
      PlacedCurrent(sink.blocks, sink.current, dest, moved);
      src, dest := src + bytes, dest + bytes;
      if src == source.currentEnd {
        var next := source.NextBuffer();
        if next.Some? { source.currentEnd := next.value.addr + next.value.size; src := next.value.addr; }
      }
      if dest == sink.currentEnd {
        var next := sink.NextBuffer();
        if next.Some? { sink.currentEnd := next.value.addr + next.value.size; dest := next.value.addr; }
      }
      moved := moved + bytes;
    }

    /** The loop that copies all of `bytes`: byte k of the source list goes to byte k of the sink list, in
        transfers of at least one byte that sum up to `bytes`. */
    method CopyWholeBlock(bytes: nat) returns (chunks: seq<nat>)
      requires Valid()
      modifies this`mem, this`src, this`dest, this`elemSize, this`moved, source, sink
      ensures Valid() && moved == old(moved) + bytes
      ensures Usable(source.blocks) && Usable(sink.blocks)
      ensures mem == Sent(old(mem), from, source.blocks, sink.blocks, old(moved), bytes)
      ensures Sum(chunks) == bytes && forall c :: c in chunks ==> c > 0
    {
      hide Placed, Usable, Sent, Transferred;
      var left := bytes;
      chunks := [];
      ghost var start, m, n := moved, mem, 0;
      NothingSent(m, from, source.blocks, sink.blocks, start);
      while left > 0
        invariant Valid() && moved == start + n && n + left == bytes
        invariant mem == Sent(m, from, source.blocks, sink.blocks, start, n)
        invariant Sum(chunks) == n && forall c :: c in chunks ==> c > 0
        decreases left
      {
        var split := GetSplit(left);
        var now := left - split;
        elemSize := now;
        Copied(now, m, start, n);
        Transfer(now);
        OneShot(now);
        SumSnoc(chunks, now);
        chunks := chunks + [now];
        left := split;
        n := n + now;
      }
    }

    /** Where the transfer about to happen takes the memory. */
    lemma Copied(now: nat, m: Memory, start: nat, n: nat)
      requires Valid() && src + now <= source.currentEnd && dest + now <= sink.currentEnd && moved == start + n
      requires mem == Sent(m, from, source.blocks, sink.blocks, start, n)
      ensures Transferred(mem, from, moved, src, dest, now) == Sent(m, from, source.blocks, sink.blocks, start, n + now)
    {
      hide Address, Sent, Transferred, Usable, Placed;
      PlacedCurrent(source.blocks, source.current, src, moved);
      PlacedCurrent(sink.blocks, sink.current, dest, moved);
      ChunkAddresses(source.blocks, source.current, src, moved, now);
      ChunkAddresses(sink.blocks, sink.current, dest, moved, now);
      SentChunk(m, from, source.blocks, sink.blocks, start, n, src, dest, now);
    }

    /** Any run of copies, of any sizes. */
    method CopyEach(requests: seq<nat>)
      requires Valid()
      modifies this`mem, this`src, this`dest, this`elemSize, this`moved, source, sink
      ensures Valid() && moved == old(moved) + Sum(requests)
      ensures Usable(source.blocks) && Usable(sink.blocks)
      ensures mem == Sent(old(mem), from, source.blocks, sink.blocks, old(moved), Sum(requests))
    {
      hide Placed, Usable, Sent;
      NothingSent(mem, from, source.blocks, sink.blocks, moved);
      for i := 0 to |requests|
        invariant Valid() && moved == old(moved) + Sum(requests[..i])
        invariant mem == Sent(old(mem), from, source.blocks, sink.blocks, old(moved), Sum(requests[..i]))
      {
        assert requests[..i + 1] == requests[..i] + [requests[i]];
        SumSnoc(requests[..i], requests[i]);
        SentThen(old(mem), from, source.blocks, sink.blocks, old(moved), Sum(requests[..i]), requests[i]);
        var _ := CopyWholeBlock(requests[i]);
      }
      assert requests[..|requests|] == requests;
    }

    /** The variant with a single transfer: it copies what fits into the blocks in use. */
    method CopyFirstPart(bytes: nat) returns (copied: nat)
      requires Valid()
      modifies this`mem, this`src, this`dest, this`elemSize, this`moved, source, sink
      ensures Valid() && moved == old(moved) + copied
      ensures copied == Min(bytes, Min(old(source.currentEnd - src), old(sink.currentEnd - dest)))
        && (bytes > 0 ==> copied > 0)
      ensures Usable(source.blocks) && Usable(sink.blocks)
      ensures mem == Sent(old(mem), from, source.blocks, sink.blocks, old(moved), copied)
    {
      hide Placed, Usable, Sent, Transferred;
      var split := GetSplit(bytes);
      copied := bytes - split;
      elemSize := copied;
      NothingSent(mem, from, source.blocks, sink.blocks, moved);
      Copied(copied, mem, moved, 0);
      Transfer(copied);
      OneShot(copied);
    }
  }

  /** One copy after the other is one longer copy. */
  lemma {:induction false} SentThen(mem: Memory, from: Source, source: seq<Block>, sink: seq<Block>, k: nat, a: nat,
                                    b: nat)
    requires Usable(source) && Usable(sink)
    ensures Sent(mem, from, source, sink, k, a + b) ==
      Sent(Sent(mem, from, source, sink, k, a), from, source, sink, k + a, b)
    decreases b
  {
    hide Address, Usable;
    if b > 0 { SentThen(mem, from, source, sink, k, a, b - 1); assert k + (a + b) - 1 == k + a + b - 1; }
  }

  lemma NothingSent(mem: Memory, from: Source, source: seq<Block>, sink: seq<Block>, k: nat)
    requires Usable(source) && Usable(sink)
    ensures Sent(mem, from, source, sink, k, 0) == mem
  {
  }

  /** Where the bytes of one transfer are. */
  lemma ChunkAddresses(blocks: seq<Block>, current: nat, at: nat, k: nat, c: nat)
    requires Usable(blocks) && Placed(blocks, current, at, k) && current < |blocks|
    requires at + c <= blocks[current].addr + blocks[current].size
    ensures forall j :: k <= j < k + c ==> Address(blocks, j) == at + j - k
  {
    hide Address, Placed;
    forall j | k <= j < k + c ensures Address(blocks, j) == at + j - k { PlacedAhead(blocks, current, at, k, j - k); }
  }

  lemma {:induction false} SumSnoc(s: seq<nat>, x: nat)
    ensures Sum(s + [x]) == Sum(s) + x
  {
    if s != [] {
      assert (s + [x])[1..] == s[1..] + [x];
      SumSnoc(s[1..], x);
    }
  }

  lemma PlacedCurrent(blocks: seq<Block>, current: nat, at: nat, k: nat)
    requires Usable(blocks) && Placed(blocks, current, at, k)
    ensures current < |blocks|
  {
  }
}
