/**
 Moving bytes from a source to a sink: the DP queue and the audio stream as the two kinds of ring
 buffer behind the sink and source interfaces, the copy between them, and the synchronisation of a
 buffer with its shadow queue. The queue is the state machine of DpQueue: between any two accesses of
 the copy to the queue, its other side and the caches run as they like.
 */
module SinkSource {
  import opened Arithmetic
  import opened Bytes
  import opened CircularCopy
  import Q = DpQueue

  /** Results of calls; all but `Ok` are the negative error codes of the C library. */
  datatype Result = Ok | NoData | Busy | TooBig | NoSpace | Invalid

  // ---- bytes in a ring --------------------------------------------------------------------------

  /** From position `base` of the stream on, the ring holds `contents`. */
  predicate Holds(data: seq<Byte>, base: nat, contents: seq<Byte>) {
    && data != [] && |contents| <= |data|
    && forall i :: 0 <= i < |contents| ==> data[Slot(|data|, base + i)] == contents[i]
  }

  lemma HoldsFits(data: seq<Byte>, base: nat, contents: seq<Byte>)
    requires Holds(data, base, contents)
    ensures 0 < |data| && |contents| <= |data|
  {
  }

  lemma HoldsSnoc(data: seq<Byte>, base: nat, contents: seq<Byte>, b: Byte)
    requires Holds(data, base, contents) && |contents| < |data|
    ensures Holds(data[Slot(|data|, base + |contents|) := b], base, contents + [b])
  {
    hide Slot;
    var data', c := data[Slot(|data|, base + |contents|) := b], contents + [b];
    forall i | 0 <= i < |c| ensures data'[Slot(|data|, base + i)] == c[i] {
      if i < |contents| { SlotsDiffer(|data|, base + i, base + |contents|); }
    }
  }

  /** A circular copy from the bytes of one ring to behind those of another appends them. */
  lemma {:induction false} CopyAppends(src: seq<Byte>, from: nat, have: seq<Byte>, dst: seq<Byte>, base: nat,
                                       contents: seq<Byte>, n: nat)
    requires Holds(src, from, have) && Holds(dst, base, contents) && n <= |have| && |contents| + n <= |dst|
    ensures Holds(Moved(src, Slot(|src|, from), dst, Slot(|dst|, base + |contents|), n), base, contents + have[..n])
  {
    hide Slot;
    if n == 0 {
      assert contents + have[..0] == contents;
    } else {
      var r, w := Slot(|src|, from), Slot(|dst|, base + |contents|);
      CopyAppends(src, from, have, dst, base, contents, n - 1);
      SlotOfSlot(|src|, from, n - 1);
      SlotOfSlot(|dst|, base + |contents|, n - 1);
      var c := contents + have[..n - 1];
      assert base + |contents| + (n - 1) == base + |c|;
      HoldsSnoc(Moved(src, r, dst, w, n - 1), base, c, have[n - 1]);
      assert c + [have[n - 1]] == contents + have[..n];
      assert r + (n - 1) == r + n - 1 && w + (n - 1) == w + n - 1;
    }
  }

  lemma SlotOfSlot(size: nat, k: nat, i: nat)
    requires size > 0
    ensures Slot(size, Slot(size, k) + i) == Slot(size, k + i)
  {
    SlotAdd(size, k, i);
  }

  lemma HoldsDrop(data: seq<Byte>, base: nat, contents: seq<Byte>, n: nat)
    requires Holds(data, base, contents) && n <= |contents|
    ensures Holds(data, base + n, contents[n..])
  {
    hide Slot;
    forall i | 0 <= i < |contents| - n ensures data[Slot(|data|, base + n + i)] == contents[n..][i] {
      assert base + n + i == base + (n + i);
    }
  }

  // ---- the copy loop ----------------------------------------------------------------------------

  /** Rounds still needed: one more for each side that has to roll over. */
  function Rounds(left: nat, toSrcEnd: nat, toDstEnd: nat): nat {
    if left == 0 then 0 else 1 + (if left > toSrcEnd then 1 else 0) + (if left > toDstEnd then 1 else 0)
  }

  function Total(sizes: seq<nat>): nat { if sizes == [] then 0 else Total(sizes[..|sizes| - 1]) + sizes[|sizes| - 1] }

  /** One round done, after `n` bytes: both sides advance, and roll over at their end. */
  lemma RoundDone(srcSize: nat, a: nat, dstSize: nat, b: nat, n: nat, left: nat, c: nat)
    requires srcSize > 0 && dstSize > 0 && left <= srcSize && left <= dstSize && left > 0
    requires c == Min(Min(srcSize - Slot(srcSize, a + n), dstSize - Slot(dstSize, b + n)), left)
    ensures var i, o := Slot(srcSize, a + n), Slot(dstSize, b + n);
      var i', o' := Slot(srcSize, a + (n + c)), Slot(dstSize, b + (n + c));
      && 0 < c <= left && i + c <= srcSize && o + c <= dstSize
      && i' == (if c == srcSize - i then 0 else i + c) && o' == (if c == dstSize - o then 0 else o + c)
      && 1 + Rounds(left - c, srcSize - i', dstSize - o') <= Rounds(left, srcSize - i, dstSize - o)
  {
    hide Slot;
    WrapIsSlot(a + n, c, srcSize);
    WrapIsSlot(b + n, c, dstSize);
    assert a + n + c == a + (n + c) && b + n + c == b + (n + c);
  }

  lemma TotalSnoc(sizes: seq<nat>, n: nat)
    ensures Total(sizes + [n]) == Total(sizes) + n
  {
    assert (sizes + [n])[..|sizes|] == sizes;
  }

  // ---- the DP queue ------------------------------------------------------------------------------

  function Unread(s: Q.State): seq<Byte> { if s.released <= |s.sent| then s.sent[s.released..] else [] }

  /** For the consumer: `m` more bytes given back, `grant` bytes handed out, and bytes only added. */
  predicate Took(s: Q.State, r: Q.State, m: nat, grant: nat) {
    && r.size == s.size && r.shared == s.shared && r.released == s.released + m
    && r.readGrant == grant && r.consumer == s.consumer && s.sent <= r.sent
  }

  /** For the producer: `more` committed, room for `grant` bytes handed out, and bytes only taken. */
  predicate Gave(s: Q.State, r: Q.State, more: seq<Byte>, grant: nat) {
    && r.size == s.size && r.shared == s.shared && r.sent == s.sent + more
    && r.writeGrant == grant && r.producer == s.producer && s.released <= r.released
  }

  /** A DP queue as one of its sides has it. After each access of this side the other side and the
      caches of both cores do whatever `meanwhile` says, in as many steps as they like. */
  class Queue {
    const consumes: bool
    const meanwhile: nat -> seq<Q.Action>
    var state: Q.State
    var clock: nat

    ghost predicate Valid()
      reads this
    {
      Q.Inv(state) && Foreign(consumes, meanwhile)
    }

    constructor (init: Q.State, consumes: bool, meanwhile: nat -> seq<Q.Action>)
      requires Q.Initial(init) && Foreign(consumes, meanwhile)
      ensures Valid() && state == init && this.consumes == consumes && this.meanwhile == meanwhile
    {
      this.consumes, this.meanwhile, state, clock := consumes, meanwhile, init, 0;
      Q.InitialInv(init);
    }

    method Others()
      requires Valid()
      modifies this
      ensures Valid()
      ensures if consumes then Q.ForConsumer(old(state), state) else Q.ForProducer(old(state), state)
    {
      hide Q.Inv, Q.Run, Q.ForConsumer, Q.ForProducer, Q.OfConsumer, Q.OfProducer;
      var actions := meanwhile(clock);
      if consumes { Q.ForConsumerRun(state, actions); } else { Q.ForProducerRun(state, actions); }
      state := Q.Run(state, actions);
      clock := clock + 1;
    }

    /** One access to the queue. */
    method Access(a: Q.Action)
      requires Valid()
      modifies this
      ensures Valid() && Q.Shape(old(state))
      ensures var now := Q.Apply(old(state), a);
        if consumes then Q.ForConsumer(now, state) else Q.ForProducer(now, state)
    {
      hide Q.Inv, Q.Apply, Q.Shape, Q.ForConsumer, Q.ForProducer;
      Q.Keep(state, a);
      state := Q.Apply(state, a);
      Others();
    }

    method DataAvailable() returns (n: nat)
      requires Valid() && consumes
      modifies this
      ensures Valid() && n == |Unread(old(state))| && Took(old(state), state, 0, old(state.readGrant))
    {
      hide Q.Available;
      Q.CountsShape(state);
      n := Q.Available(state.size, state.writeOffset, state.readOffset);
      Others();
    }

    method FreeSize() returns (n: nat)
      requires Valid() && !consumes
      modifies this
      ensures Valid() && n == state.size - |Unread(old(state))| && Gave(old(state), state, [], old(state.writeGrant))
    {
      hide Q.Available;
      Q.CountsShape(state);
      n := state.size - Q.Available(state.size, state.writeOffset, state.readOffset);
      Others();
    }

    method GetData(req: nat) returns (ret: Result, ptr: nat)
      requires Valid() && consumes && state.consumer.Outside?
      modifies this
      ensures Valid()
      ensures ret == if old(state.readGrant) != 0 then Busy else if req > |Unread(old(state))| then NoData else Ok
      ensures ret == Ok ==> ptr == Slot(state.size, state.released)
      ensures Took(old(state), state, 0, if ret == Ok then req else old(state.readGrant))
    {
      hide Slot, Q.Available, Q.Pointer, Q.Apply, Q.Inv;
      if state.readGrant != 0 { return Busy, 0; }
      Known(state);
      if req > Q.Available(state.size, state.writeOffset, state.readOffset) { Others(); return NoData, 0; }
      ptr := Q.Pointer(state.size, state.readOffset);
      Q.AtGetData(state, req);
      Access(Q.GetData(req));
      while state.consumer.todo != []
        invariant Valid() && state.consumer.Inside? && state.consumer.n == req
        invariant Took(old(state), state.(consumer := old(state.consumer)), 0, 0)
        decreases |state.consumer.todo|
      {
        Q.AtInvalidate(state);
        Access(Q.Invalidate);
      }
      Q.AtGrant(state);
      Access(Q.Grant);
      ret := Ok;
    }

    /** The byte at index `p`, the one at position `k` of the bytes handed out. */
    method ReadAt(p: nat, ghost k: nat) returns (b: Byte)
      requires Valid() && consumes && state.consumer.Outside?
      requires k < state.readGrant && p == Slot(state.size, state.released + k)
      modifies this
      ensures Valid() && Took(old(state), state, 0, old(state.readGrant))
      ensures old(state.released) + k < |old(state.sent)| && b == old(state.sent[state.released + k])
    {
      hide Slot, Q.Available, Q.Pointer, Q.Apply, Q.Inv;
      Known(state);
      var readPtr := Q.Pointer(state.size, state.readOffset);
      var i := if p >= readPtr then p - readPtr else p + state.size - readPtr;
      SlotStep(state.size, state.released, k);
      Q.AtRead(state, i);
      Q.Keep(state, Q.Read(i));
      state := Q.Apply(state, Q.Read(i));
      b := state.seen[|state.seen| - 1].b;
      Others();
    }

    method ReleaseData(size: nat) returns (ret: Result)
      requires Valid() && consumes && state.consumer.Outside?
      modifies this
      ensures Valid()
      ensures ret == if old(state.readGrant) == 0 then NoData else Ok
      ensures Took(old(state), state, Min(size, old(state.readGrant)), 0)
    {
      hide Slot, Q.Available, Q.Pointer, Q.Apply, Q.Inv, Q.IncOffset;
      if state.readGrant == 0 { return NoData; }
      Q.AtRelease(state, size);
      Access(Q.ReleaseData(size));
      ret := Ok;
    }

    method GetBuffer(req: nat) returns (ret: Result, ptr: nat)
      requires Valid() && !consumes && state.producer.Outside?
      modifies this
      ensures Valid()
      ensures ret ==
        if old(state.writeGrant) != 0 then Busy
        else if req > state.size - |Unread(old(state))| then NoData else Ok
      ensures ret == Ok ==> ptr == Slot(state.size, |state.sent|)
      ensures Gave(old(state), state, [], if ret == Ok then req else old(state.writeGrant))
    {
      hide Slot, Q.Available, Q.Pointer, Q.Apply, Q.Inv, Q.View;
      if state.writeGrant != 0 { return Busy, 0; }
      Known(state);
      if req > state.size - Q.Available(state.size, state.writeOffset, state.readOffset) { Others(); return NoData, 0; }
      ptr := Q.Pointer(state.size, state.writeOffset);
      Q.AtGetBuffer(state, req);
      Access(Q.GetBuffer(req));
      ret := Ok;
    }

    /** Puts a byte at index `p`, the one at position `k` of the room handed out. */
    method WriteAt(p: nat, b: Byte, ghost k: nat)
      requires Valid() && !consumes && state.producer.Outside?
      requires k < state.writeGrant && p == Slot(state.size, |state.sent| + k)
      modifies this
      ensures Valid() && Gave(old(state), state, [], old(state.writeGrant))
      ensures forall q :: 0 <= q < state.size ==> Q.View(state, q) == if q == p then b else Q.View(old(state), q)
    {
      hide Slot, Q.Available, Q.Pointer, Q.Apply, Q.Inv, Q.View;
      Known(state);
      var writePtr := Q.Pointer(state.size, state.writeOffset);
      var i := if p >= writePtr then p - writePtr else p + state.size - writePtr;
      SlotStep(state.size, |state.sent|, k);
      Q.AtWrite(state, i, b);
      Access(Q.Write(i, b));
    }

    method CommitBuffer(size: nat) returns (ret: Result)
      requires Valid() && !consumes && state.producer.Outside?
      modifies this
      ensures Valid() && old(state.size) > 0
      ensures ret == if old(state.writeGrant) == 0 then NoData else Ok
      ensures Gave(old(state), state, Q.Ahead(old(state), Min(size, old(state.writeGrant))), 0)
    {
      hide Slot, Q.Available, Q.Pointer, Q.Apply, Q.Inv, Q.View, Q.Ahead;
      Known(state);
      ghost var was, n := state, Min(size, state.writeGrant);
      Q.AheadNothing(was);
      if state.writeGrant == 0 { return NoData; }
      ret := Ok;
      Q.AtCommit(state, size);
      Q.SameView(state, Q.Apply(state, Q.CommitBuffer(size)));
      Access(Q.CommitBuffer(size));
      if size == 0 { return; }
      Q.AheadSame(was, state, n);
      while state.producer.todo != []
        invariant Valid() && state.producer.Inside? && state.producer.n == n
        invariant Gave(was, state.(producer := was.producer), [], was.writeGrant)
          && Q.Ahead(state, n) == Q.Ahead(was, n)
        decreases |state.producer.todo|
      {
        ghost var before := state;
        Q.AtFlush(state);
        Access(Q.Flush);
        Q.AheadSame(before, state, n);
      }
      Q.AtPublish(state);
      Access(Q.Publish);
    }
  }

  ghost predicate Foreign(consumes: bool, meanwhile: nat -> seq<Q.Action>) {
    forall k: nat, a :: a in meanwhile(k) ==> if consumes then !Q.OfConsumer(a) else !Q.OfProducer(a)
  }

  lemma Known(s: Q.State)
    requires Q.Inv(s)
    ensures Q.Shape(s) && Q.Available(s.size, s.writeOffset, s.readOffset) == |Unread(s)| == |s.sent| - s.released
    ensures Q.Pointer(s.size, s.writeOffset) == Slot(s.size, |s.sent|)
      && Q.Pointer(s.size, s.readOffset) == Slot(s.size, s.released)
    ensures s.released + s.readGrant <= |s.sent| && |s.sent| + s.writeGrant <= s.released + s.size
      && 0 < s.size <= 0x4000_0000
  {
    hide Q.Available, Q.Pointer, Slot;
    Q.CountsShape(s);
  }

  // ---- the audio stream ----------------------------------------------------------------------------

  /** The fill level by the pointers; equal pointers mean what the last change says. */
  function Level(size: nat, rptr: nat, wptr: nat, whenEqual: nat): nat
    requires rptr < size && wptr < size
  {
    if rptr < wptr then wptr - rptr else if rptr == wptr then whenEqual else size - (rptr - wptr)
  }

  lemma LevelExact(size: nat, base: nat, n: nat)
    requires 0 < size && n <= size
    ensures n > 0 ==> Level(size, Slot(size, base), Slot(size, base + n), size) == n
    ensures n < size ==> Level(size, Slot(size, base), Slot(size, base + n), 0) == n
  {
    hide Slot;
    SlotStep(size, base, n);
  }

  /** Both interfaces of the stream of a component buffer that permits neither overrun nor underrun. */
  class Stream {
    const data: array<Byte>
    var rptr: nat
    var wptr: nat
    var avail: nat
    var free: nat
    var writeGrant: nat
    var readGrant: nat
    ghost var released: nat
    ghost var contents: seq<Byte>

    ghost predicate Valid()
      reads this, data
    {
      && 0 < data.Length && Holds(data[..], released, contents)
      && rptr == Slot(data.Length, released) && wptr == Slot(data.Length, released + |contents|)
      && avail == |contents| && free == data.Length - avail
      && |contents| + writeGrant <= data.Length && readGrant <= |contents|
    }

    constructor (size: nat)
      requires 0 < size
      ensures Valid() && contents == [] && fresh(data) && writeGrant == 0 && readGrant == 0
    {
      data := new Byte[size](i => 0);
      rptr, wptr, avail, free, writeGrant, readGrant := 0, 0, 0, size, 0, 0;
      released, contents := 0, [];
      SlotOfIndex(size, 0);
    }

    method GetBuffer(req: nat) returns (ret: Result, ptr: nat)
      requires Valid()
      modifies this`writeGrant
      ensures Valid()
      ensures ret == if old(writeGrant) != 0 then Busy else if req > data.Length - |contents| then NoData else Ok
      ensures ret == Ok ==> writeGrant == req && ptr == Slot(data.Length, released + |contents|)
      ensures ret != Ok ==> writeGrant == old(writeGrant)
    {
      if writeGrant != 0 { return Busy, 0; }
      if req > free { return NoData, 0; }
      writeGrant := req;
      return Ok, wptr;
    }

    method CommitBuffer(size: nat, ghost more: seq<Byte>) returns (ret: Result)
      requires Valid() && |more| == Min(size, writeGrant) && Holds(data[..], released, contents + more)
      modifies this`wptr, this`avail, this`free, this`writeGrant, this`contents
      ensures Valid()
      ensures ret == if old(writeGrant) == 0 then NoData else Ok
      ensures contents == old(contents) + more && writeGrant == 0
    {
      hide Slot, Holds;
      assert contents + [] == contents;
      if writeGrant == 0 { return NoData; }
      var commit := Min(size, writeGrant);
      if commit != 0 {
        SlotStep(data.Length, released + |contents|, commit);
        assert released + |contents| + commit == released + |contents + more|;
        LevelExact(data.Length, released, |contents| + commit);
        wptr := Wrap(wptr + commit, data.Length);
        contents := contents + more;
        avail := Level(data.Length, rptr, wptr, data.Length);
        free := data.Length - avail;
      }
      writeGrant := 0;
      return Ok;
    }

    method GetData(req: nat) returns (ret: Result, ptr: nat)
      requires Valid()
      modifies this`readGrant
      ensures Valid()
      ensures ret == if old(readGrant) != 0 then Busy else if req > |contents| then NoData else Ok
      ensures ret == Ok ==> readGrant == req && ptr == Slot(data.Length, released)
      ensures ret != Ok ==> readGrant == old(readGrant)
    {
      if readGrant != 0 { return Busy, 0; }
      if req > avail { return NoData, 0; }
      readGrant := req;
      return Ok, rptr;
    }

    method ReleaseData(size: nat) returns (ret: Result)
      requires Valid()
      modifies this`rptr, this`avail, this`free, this`readGrant, this`released, this`contents
      ensures Valid()
      ensures ret == if old(readGrant) == 0 then NoData else Ok
      ensures contents == old(contents)[Min(size, old(readGrant))..] && readGrant == 0
    {
      hide Slot, Holds;
      if readGrant == 0 { return NoData; }
      var release := Min(size, readGrant);
      HoldsDrop(data[..], released, contents, release);
      if release != 0 {
        SlotStep(data.Length, released, release);
        LevelExact(data.Length, released + release, |contents| - release);
        rptr := Wrap(rptr + release, data.Length);
        avail := Level(data.Length, rptr, wptr, 0);
        free := data.Length - avail;
      }
      assert released + |contents| == released + release + |contents[release..]|;
      released, contents := released + release, contents[release..];
      readGrant := 0;
      return Ok;
    }
  }

  const INT_MAX: nat := 0x7fff_ffff

  // ---- the copy, with the other side of the queue running ------------------------------------------

  lemma HoldsSelf(bytes: seq<Byte>)
    requires bytes != []
    ensures Holds(bytes, 0, bytes) && Slot(|bytes|, 0) == 0
  {
    hide Slot;
    forall i | 0 <= i < |bytes| ensures bytes[Slot(|bytes|, 0 + i)] == bytes[i] { SlotOfIndex(|bytes|, i); }
    SlotOfIndex(|bytes|, 0);
  }

  lemma HoldsPrefix(data: seq<Byte>, base: nat, a: seq<Byte>, b: seq<Byte>)
    requires Holds(data, base, a + b)
    ensures Holds(data, base, a)
  {
    hide Slot;
    assert |a| <= |a + b|;
    forall i | 0 <= i < |a| ensures data[Slot(|data|, base + i)] == a[i] { assert (a + b)[i] == a[i]; }
  }

  /** Byte `j` of a round, with `n` bytes copied before the round. */
  lemma WithinRound(size: nat, a: nat, n: nat, j: nat)
    requires size > 0 && Slot(size, a + n) + j < size
    ensures Slot(size, a + (n + j)) == Slot(size, a + n) + j
  {
    SlotStep(size, a + n, j);
    assert a + n + j == a + (n + j);
  }

  /** One round of the copy from a queue: `c` bytes from index `i` of the queue, byte by byte. */
  method RoundFromQueue(q: Queue, i: nat, dst: array<Byte>, o: nat, c: nat, ghost have: seq<Byte>, ghost n: nat,
                        ghost d: seq<Byte>, ghost w: nat)
    requires q.Valid() && q.consumes && q.state.consumer.Outside? && dst.Length > 0 && |d| == dst.Length
    requires n + c <= |have| <= q.state.readGrant && have <= Unread(q.state)
    requires i == Slot(q.state.size, q.state.released + n) && o == Slot(dst.Length, w + n) && i + c <= q.state.size
      && o + c <= dst.Length
    requires have != [] && dst[..] == Moved(have, 0, d, w, n)
    modifies q, dst
    ensures q.Valid() && Took(old(q.state), q.state, 0, old(q.state.readGrant))
    ensures dst[..] == Moved(have, 0, d, w, n + c)
  {
    hide Slot, Moved, Unread, Q.Inv, Q.Shape, Q.Available, Q.Pointer;
    ghost var was := q.state;
    Known(was);
    for j := 0 to c
      invariant q.Valid() && Took(was, q.state, 0, was.readGrant)
      invariant dst[..] == Moved(have, 0, d, w, n + j)
    {
      WithinRound(was.size, was.released, n, j);
      WithinRound(dst.Length, w, n, j);
      HaveAt(was, q.state, have, n + j);
      MovedNext(have, d, w, n + j);
      ghost var before := dst[..];
      var b := q.ReadAt(i + j, n + j);
      dst[o + j] := b;
      assert dst[..] == before[o + j := b];
    }
  }

  lemma HaveAt(s: Q.State, r: Q.State, have: seq<Byte>, k: nat)
    requires Took(s, r, 0, s.readGrant) && have <= Unread(s) && s.released <= |s.sent| && k < |have|
    ensures r.released + k < |r.sent| && r.sent[r.released + k] == have[k]
  {
  }

  lemma MovedNext(have: seq<Byte>, d: seq<Byte>, w: nat, n: nat)
    requires d != [] && n < |have|
    ensures Moved(have, 0, d, w, n + 1) == Moved(have, 0, d, w, n)[Slot(|d|, w + n) := have[n]]
  {
    hide Slot;
    SlotOfIndex(|have|, n);
  }

  /** The bytes `have` handed out by the queue go to index `w` on: in at most three rounds of a positive
      size each, and nothing else changes. */
  method CopyFromQueue(q: Queue, r: nat, dst: array<Byte>, w: nat, size: nat, ghost have: seq<Byte>)
    returns (sizes: seq<nat>)
    requires q.Valid() && q.consumes && q.state.consumer.Outside? && w < dst.Length && size <= dst.Length
    requires 0 < size == |have| == q.state.readGrant && have <= Unread(q.state)
    requires r == Slot(q.state.size, q.state.released)
    modifies q, dst
    ensures q.Valid() && Took(old(q.state), q.state, 0, old(q.state.readGrant))
    ensures dst[..] == Moved(have, 0, old(dst[..]), w, size)
    ensures |sizes| <= 3 && Total(sizes) == size && forall n :: n in sizes ==> n > 0
  {
    hide Slot, Moved, Rounds, Min, Q.Inv, Q.Shape, Q.Available, Q.Pointer, Unread;
    Known(q.state);
    var qsize := q.state.size;
    var left: nat, i: nat, o: nat := size, r, w;
    sizes := [];
    ghost var n: nat, d, was := 0, dst[..], q.state;
    NothingMoved(have, 0, d, w);
    SlotOfIndex(dst.Length, w);
    RoundsBound(left, qsize - i, dst.Length - o);
    while left > 0
      invariant n + left == size && i == Slot(qsize, was.released + n) && o == Slot(dst.Length, w + n)
      invariant q.Valid() && Took(was, q.state, 0, was.readGrant) && dst[..] == Moved(have, 0, d, w, n)
      invariant |sizes| + Rounds(left, qsize - i, dst.Length - o) <= 3 && Total(sizes) == n
      invariant forall m :: m in sizes ==> m > 0
      decreases left
    {
      var toSrcEnd, toDstEnd := qsize - i, dst.Length - o;
      var copied := Min(Min(toSrcEnd, toDstEnd), left);
      RoundDone(qsize, was.released, dst.Length, w, n, left, copied);
      UnreadGrows(was, q.state, have);
      RoundFromQueue(q, i, dst, o, copied, have, n, d, w);
      left := left - copied;
      i, o := i + copied, o + copied;
      if copied == toSrcEnd { i := 0; }
      if copied == toDstEnd { o := 0; }
      n := n + copied;
      TotalSnoc(sizes, copied);
      sizes := sizes + [copied];
    }
    RoundsBound(left, qsize - i, dst.Length - o);
  }

  lemma UnreadGrows(s: Q.State, r: Q.State, have: seq<Byte>)
    requires Took(s, r, 0, s.readGrant) && have <= Unread(s) && s.released <= |s.sent|
    ensures have <= Unread(r)
  {
    assert Unread(s) <= Unread(r);
  }

  lemma RoundsBound(left: nat, toSrcEnd: nat, toDstEnd: nat)
    ensures Rounds(left, toSrcEnd, toDstEnd) <= 3
  {
  }

  /** What the producer has put behind the committed bytes begins with `bytes`. */
  ghost predicate Begun(s: Q.State, bytes: seq<Byte>) {
    s.size > 0 && Q.Ahead(s, |bytes|) == bytes
  }

  lemma BegunMore(s: Q.State, bytes: seq<Byte>, r: Q.State, b: Byte)
    requires Begun(s, bytes) && |bytes| < s.size && r.size == s.size && r.sent == s.sent
    requires forall p :: 0 <= p < s.size ==>
      Q.View(r, p) == if p == Slot(s.size, |s.sent| + |bytes|) then b else Q.View(s, p)
    ensures Begun(r, bytes + [b])
  {
    hide Slot, Q.View, Q.Ahead;
    forall k | 0 <= k < |bytes| + 1 ensures Q.Ahead(r, |bytes| + 1)[k] == (bytes + [b])[k] {
      Q.AheadAt(r, |bytes| + 1, k);
      if k < |bytes| {
        SlotsDiffer(s.size, |s.sent| + k, |s.sent| + |bytes|);
        Q.AheadAt(s, |bytes|, k);
      }
    }
  }

  /** One round of the copy to a queue. */
  method RoundToQueue(src: array<Byte>, i: nat, q: Queue, o: nat, c: nat, ghost have: seq<Byte>, ghost n: nat,
                      ghost from: nat)
    requires q.Valid() && !q.consumes && q.state.producer.Outside? && Holds(src[..], from, have)
    requires n + c <= |have| <= q.state.writeGrant
    requires i == Slot(src.Length, from + n) && o == Slot(q.state.size, |q.state.sent| + n) && i + c <= src.Length
      && o + c <= q.state.size
    requires Begun(q.state, have[..n])
    modifies q
    ensures q.Valid() && Gave(old(q.state), q.state, [], old(q.state.writeGrant)) && Begun(q.state, have[..n + c])
  {
    hide Slot, Q.Inv, Q.View, Begun;
    ghost var was := q.state;
    Known(was);
    for j := 0 to c
      invariant q.Valid() && Gave(was, q.state, [], was.writeGrant) && Begun(q.state, have[..n + j])
    {
      WithinRound(was.size, |was.sent|, n, j);
      WithinRound(src.Length, from, n, j);
      ghost var before := q.state;
      assert src[..][Slot(src.Length, from + (n + j))] == have[n + j];
      q.WriteAt(o + j, src[i + j], n + j);
      BegunMore(before, have[..n + j], q.state, have[n + j]);
      assert have[..n + j] + [have[n + j]] == have[..n + (j + 1)];
    }
  }

  method CopyToQueue(src: array<Byte>, r: nat, q: Queue, w: nat, size: nat, ghost have: seq<Byte>, ghost from: nat)
    returns (sizes: seq<nat>)
    requires q.Valid() && !q.consumes && q.state.producer.Outside? && Holds(src[..], from, have)
    requires 0 < size == |have| == q.state.writeGrant && r == Slot(src.Length, from)
      && w == Slot(q.state.size, |q.state.sent|)
    modifies q
    ensures q.Valid() && Gave(old(q.state), q.state, [], old(q.state.writeGrant)) && Begun(q.state, have)
    ensures |sizes| <= 3 && Total(sizes) == size && forall n :: n in sizes ==> n > 0
  {
    hide Slot, Holds, Rounds, Min, Begun, Unread, Q.Inv, Q.Shape, Q.Available, Q.Pointer;
    Known(q.state);
    var qsize := q.state.size;
    var left: nat, i: nat, o: nat := size, r, w;
    sizes := [];
    ghost var n: nat, was := 0, q.state;
    BegunNothing(was, have);
    assert size <= src.Length by { HoldsFits(src[..], from, have); }
    RoundsBound(left, src.Length - i, qsize - o);
    while left > 0
      invariant n + left == size && i == Slot(src.Length, from + n) && o == Slot(qsize, |was.sent| + n)
      invariant q.Valid() && Gave(was, q.state, [], was.writeGrant) && Begun(q.state, have[..n])
      invariant |sizes| + Rounds(left, src.Length - i, qsize - o) <= 3 && Total(sizes) == n
      invariant forall m :: m in sizes ==> m > 0
      decreases left
    {
      var toSrcEnd, toDstEnd := src.Length - i, qsize - o;
      var copied := Min(Min(toSrcEnd, toDstEnd), left);
      RoundDone(src.Length, from, qsize, |was.sent|, n, left, copied);
      RoundToQueue(src, i, q, o, copied, have, n, from);
      left := left - copied;
      i, o := i + copied, o + copied;
      if copied == toSrcEnd { i := 0; }
      if copied == toDstEnd { o := 0; }
      n := n + copied;
      TotalSnoc(sizes, copied);
      sizes := sizes + [copied];
    }
    assert have[..n] == have;
    RoundsBound(left, src.Length - i, qsize - o);
  }

  lemma BegunNothing(s: Q.State, have: seq<Byte>)
    requires s.size > 0
    ensures Begun(s, have[..0])
  {
    Q.AheadNothing(s);
  }

  /** What a copy of `size` bytes returns, by the bytes available, the room and the outstanding grants. */
  function Outcome(size: nat, available: nat, room: nat, readGrant: nat, writeGrant: nat): Result {
    if size == 0 then Ok
    else if size > available then TooBig
    else if size > room then NoSpace
    else if readGrant != 0 || writeGrant != 0 then Busy
    else Ok
  }

  /** The bytes that came to the queue. */
  function Arrived(s: Q.State, r: Q.State): seq<Byte> { if |s.sent| <= |r.sent| then r.sent[|s.sent|..] else [] }

  /** Copies from a queue, dropping what was copied if `free`, while its producer and the caches run. */
  method QueueToStream(q: Queue, s: Stream, free: bool, size: nat) returns (ret: Result)
    requires q.Valid() && s.Valid() && q.consumes && q.state.consumer.Outside?
    modifies q, s, s.data
    ensures q.Valid() && s.Valid()
    ensures ret == Outcome(size, |Unread(old(q.state))|, old(s.data.Length - |s.contents|),
                           old(q.state.readGrant), old(s.writeGrant))
    ensures var n := if ret == Ok then size else 0;
      && n <= |Unread(old(q.state))| && s.contents == old(s.contents) + Unread(old(q.state))[..n]
      && Took(old(q.state), q.state, if free then n else 0, if ret == Ok && n > 0 then 0 else old(q.state.readGrant))
      && s.writeGrant == if n > 0 then 0 else old(s.writeGrant)
  {
    hide Slot, Holds, Moved, Total, Q.Inv, Q.Shape, Q.Available, Q.Pointer;
    Known(q.state);
    assert old(s.contents) + Unread(q.state)[..0] == old(s.contents);
    if size == 0 { return Ok; }
    var available := q.DataAvailable();
    if size > available { return TooBig; }
    if size > s.free { return NoSpace; }
    var err, src := q.GetData(size);
    if err != Ok { return err; }
    var dst;
    err, dst := s.GetBuffer(size);
    if err != Ok {
      var _ := q.ReleaseData(0);
      return err;
    }
    MoveFromQueue(q, src, s, dst, free, size, Unread(old(q.state))[..size]);
    ret := Ok;
  }

  /** The copy from a queue once both grants are there: `have` are the bytes handed out. */
  method MoveFromQueue(q: Queue, src: nat, s: Stream, dst: nat, free: bool, size: nat, ghost have: seq<Byte>)
    requires q.Valid() && s.Valid() && q.consumes && q.state.consumer.Outside?
    requires 0 < size == |have| == q.state.readGrant == s.writeGrant && have <= Unread(q.state)
    requires src == Slot(q.state.size, q.state.released) && dst == Slot(s.data.Length, s.released + |s.contents|)
    modifies q, s, s.data
    ensures q.Valid() && s.Valid() && s.contents == old(s.contents) + have && s.writeGrant == 0
    ensures Took(old(q.state), q.state, if free then size else 0, 0)
  {
    hide Slot, Holds, Moved, Total, Q.Inv, Q.Shape, Q.Available, Q.Pointer, Unread;
    Known(q.state);
    ghost var base, c := s.released, s.contents;
    HoldsSelf(have);
    CopyAppends(have, 0, have, s.data[..], base, c, size);
    var _ := CopyFromQueue(q, src, s.data, dst, size, have);
    assert have[..size] == have;
    HoldsPrefix(s.data[..], base, c, have);
    var _ := q.ReleaseData(if free then INT_MAX else 0);
    var _ := s.CommitBuffer(INT_MAX, have);
  }

  /** Copies to a queue while its consumer and the caches run. */
  method StreamToQueue(s: Stream, q: Queue, free: bool, size: nat) returns (ret: Result)
    requires q.Valid() && s.Valid() && !q.consumes && q.state.producer.Outside?
    modifies q, s, s.data
    ensures q.Valid() && s.Valid()
    ensures ret == Outcome(size, old(|s.contents|), old(q.state.size) - |Unread(old(q.state))|,
                           old(s.readGrant), old(q.state.writeGrant))
    ensures var n := if ret == Ok then size else 0;
      && n <= old(|s.contents|) && s.contents == old(s.contents)[if free then n else 0..]
      && Gave(old(q.state), q.state, old(s.contents)[..n], if n > 0 then 0 else old(q.state.writeGrant))
      && s.readGrant == if n > 0 then 0 else old(s.readGrant)
  {
    hide Slot, Holds, Total, Q.Inv, Q.Shape, Q.Available, Q.Pointer, Q.Ahead;
    Known(q.state);
    assert old(s.contents)[..0] == [] && old(s.contents)[0..] == old(s.contents);
    if size == 0 { return Ok; }
    if size > s.avail { return TooBig; }
    var room := q.FreeSize();
    if size > room { return NoSpace; }
    var err, src := s.GetData(size);
    if err != Ok { return err; }
    var dst;
    Known(q.state);
    err, dst := q.GetBuffer(size);
    if err != Ok {
      var _ := s.ReleaseData(0);
      return err;
    }
    MoveToQueue(s, src, q, dst, free, size);
    ret := Ok;
  }

  /** The copy to a queue once both grants are there. */
  method MoveToQueue(s: Stream, src: nat, q: Queue, dst: nat, free: bool, size: nat)
    requires q.Valid() && s.Valid() && !q.consumes && q.state.producer.Outside?
    requires 0 < size == s.readGrant == q.state.writeGrant
    requires src == Slot(s.data.Length, s.released) && dst == Slot(q.state.size, |q.state.sent|)
    modifies q, s, s.data
    ensures q.Valid() && s.Valid() && size <= |old(s.contents)| && s.readGrant == 0
    ensures s.contents == old(s.contents)[if free then size else 0..]
    ensures Gave(old(q.state), q.state, old(s.contents)[..size], 0)
  {
    hide Slot, Holds, Total, Q.Inv, Q.Shape, Q.Available, Q.Pointer, Q.Ahead;
    Known(q.state);
    ghost var have := s.contents[..size];
    assert s.contents == have + s.contents[size..];
    HoldsPrefix(s.data[..], s.released, have, s.contents[size..]);
    var _ := CopyToQueue(s.data, src, q, dst, size, have, s.released);
    var _ := s.ReleaseData(if free then INT_MAX else 0);
    var _ := q.CommitBuffer(INT_MAX);
  }

  lemma FromQueueKeeps(a: seq<Byte>, s: Q.State, r: Q.State, n: nat, grant: nat)
    requires s.released <= |s.sent| && n <= |Unread(s)| && Took(s, r, n, grant)
    ensures a + Unread(s)[..n] + Unread(r) == a + Unread(s) + Arrived(s, r)
  {
    assert r.sent == s.sent + Arrived(s, r);
    assert Unread(r) == Unread(s)[n..] + Arrived(s, r);
    assert Unread(s)[..n] + Unread(s)[n..] == Unread(s);
  }

  /** Buffer with a shadow queue at its input: whatever the producer of the queue and the caches do
      meanwhile, data and room do not run out, and stream and queue together hold the bytes from
      before, then those committed meanwhile. */
  method SyncFromQueue(q: Queue, s: Stream, limit: nat) returns (ret: Result)
    requires q.Valid() && s.Valid() && q.consumes && q.state.consumer.Outside?
    modifies q, s, s.data
    ensures q.Valid() && s.Valid()
    ensures var n := Min(Min(|Unread(old(q.state))|, old(s.data.Length - |s.contents|)), limit);
      && ret == (if n > 0 && (old(q.state.readGrant) != 0 || old(s.writeGrant) != 0) then Busy else Ok)
      && (ret == Ok ==> s.contents == old(s.contents) + Unread(old(q.state))[..n])
      && (ret == Busy ==> s.contents == old(s.contents))
    ensures s.contents + Unread(q.state) == old(s.contents) + Unread(old(q.state)) + Arrived(old(q.state), q.state)
  {
    hide Holds, Slot, Q.Inv, Q.Shape, Q.Available, Q.Pointer;
    ghost var was := q.state;
    Known(was);
    var available := q.DataAvailable();
    var room := s.free;
    var n := Min(Min(available, room), limit);
    ghost var mid := q.state;
    Known(mid);
    assert Unread(mid)[..n] == Unread(was)[..n];
    ret := QueueToStream(q, s, true, n);
    if ret == Ok {
      FromQueueKeeps(old(s.contents), was, q.state, n, q.state.readGrant);
    } else {
      FromQueueKeeps(old(s.contents), was, q.state, 0, q.state.readGrant);
    }
  }

  /** The queue as a whole, and what its consumer has not taken. */
  lemma ToQueueKeeps(s: Q.State, r: Q.State, c: seq<Byte>, n: nat, grant: nat)
    requires n <= |c| && Gave(s, r, c[..n], grant) && s.released <= |s.sent| && r.released <= |r.sent|
    ensures r.sent + c[n..] == s.sent + c
    ensures r.released - s.released <= |Unread(s) + c|
      && Unread(r) + c[n..] == (Unread(s) + c)[r.released - s.released..]
  {
    var gone := r.released - s.released;
    assert c[..n] + c[n..] == c;
    assert Unread(s) + c == (s.sent + c)[s.released..];
    assert Unread(r) + c[n..] == (r.sent + c[n..])[r.released..];
    assert (s.sent + c)[s.released..][gone..] == (s.sent + c)[r.released..];
  }

  /** Buffer with a shadow queue at its output: whatever the consumer of the queue and the caches do
      meanwhile, what was committed to the queue and the stream together stay the same. */
  method SyncToQueue(s: Stream, q: Queue, limit: nat) returns (ret: Result)
    requires q.Valid() && s.Valid() && !q.consumes && q.state.producer.Outside?
    modifies q, s, s.data
    ensures q.Valid() && s.Valid()
    ensures var n := Min(Min(old(|s.contents|), old(q.state.size) - |Unread(old(q.state))|), limit);
      && ret == (if n > 0 && (old(s.readGrant) != 0 || old(q.state.writeGrant) != 0) then Busy else Ok)
      && (ret == Ok ==> s.contents == old(s.contents)[n..])
      && (ret == Busy ==> s.contents == old(s.contents))
    ensures q.state.sent + s.contents == old(q.state.sent) + old(s.contents)
    ensures var gone := q.state.released - old(q.state.released);
      && 0 <= gone <= |Unread(old(q.state)) + old(s.contents)|
      && Unread(q.state) + s.contents == (Unread(old(q.state)) + old(s.contents))[gone..]
  {
    hide Holds, Slot, Unread, Q.Inv, Q.Shape, Q.Available, Q.Pointer;
    ghost var was := q.state;
    Known(was);
    var available := s.avail;
    var room := q.FreeSize();
    var n := Min(Min(available, room), limit);
    Known(q.state);
    ret := StreamToQueue(s, q, true, n);
    Known(q.state);
    assert old(s.contents)[0..] == old(s.contents);
    ToQueueKeeps(was, q.state, old(s.contents), if ret == Ok then n else 0, q.state.writeGrant);
  }

  /** The bytes to move: the least of data, room and limit. */
  function ToMove(available: nat, room: nat, limit: nat): (n: nat)
    ensures n <= available && n <= room && n <= limit && (n == available || n == room || n == limit)
  {
    Min(Min(available, room), limit)
  }

  /** The direction depends on which side of the buffer has a shadow: from the queue at the input, if there is
      one, else to the queue at the output. */
  method SyncShadow(atInput: Queue?, atOutput: Queue?, s: Stream, limit: nat) returns (ret: Result)
    requires s.Valid()
    requires atInput != null ==> atInput.Valid() && atInput.consumes && atInput.state.consumer.Outside?
    requires atOutput != null ==> atOutput.Valid() && !atOutput.consumes && atOutput.state.producer.Outside?
    modifies s, s.data, atInput, atOutput
    ensures s.Valid() && (atInput != null ==> atInput.Valid()) && (atOutput != null ==> atOutput.Valid())
    ensures ret == Invalid <==> atInput == null && atOutput == null
    ensures ret == Invalid || ret == Busy ==> s.contents == old(s.contents)
    ensures atInput != null ==>
      var n := ToMove(|Unread(old(atInput.state))|, old(s.data.Length - |s.contents|), limit);
      && ret == (if n > 0 && (old(atInput.state.readGrant) != 0 || old(s.writeGrant) != 0) then Busy else Ok)
      && (ret == Ok ==> s.contents == old(s.contents) + Unread(old(atInput.state))[..n])
      && s.contents + Unread(atInput.state) ==
         old(s.contents) + Unread(old(atInput.state)) + Arrived(old(atInput.state), atInput.state)
    ensures atInput != null && atOutput != null ==>
      atOutput.state == old(atOutput.state) && atOutput.clock == old(atOutput.clock)
    ensures atInput == null && atOutput != null ==>
      var n := ToMove(old(|s.contents|), old(atOutput.state.size) - |Unread(old(atOutput.state))|, limit);
      && ret == (if n > 0 && (old(s.readGrant) != 0 || old(atOutput.state.writeGrant) != 0) then Busy else Ok)
      && (ret == Ok ==> s.contents == old(s.contents)[n..])
      && atOutput.state.sent + s.contents == old(atOutput.state.sent) + old(s.contents)
  {
    hide Holds, Slot, Q.Inv, Unread, Arrived;
    if atOutput != null { Known(atOutput.state); }
    if atInput != null {
      ret := SyncFromQueue(atInput, s, limit);
    } else if atOutput != null {
      ret := SyncToQueue(s, atOutput, limit);
    } else {
      ret := Invalid;
    }
  }
}
