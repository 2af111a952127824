/**
 The DP queue: a ring buffer between one producer and one consumer that share only a write offset
 and a read offset, possibly on two cores whose data caches are not coherent.

 The protocol is a state machine. Each action is one access to shared state by one of the two sides,
 or an action of a cache of its own; any sequence of actions is an interleaving.
 */
module DpQueue {
  import opened Arithmetic
  import opened Bytes

  // ---- offsets ----------------------------------------------------------------------------------

  const TWO31 := 0x8000_0000
  const TWO32 := 0x1_0000_0000

  /** Conversion of a 32-bit word to int32_t. */
  function Signed(x: int): int { var w := x % TWO32; if w < TWO31 then w else w - TWO32 }

  /** The bytes available, with the widths of the C code: an int32_t difference of 32-bit offsets. */
  function Available(size: nat, write: nat, read: nat): nat {
    var diff := Signed(write - read);
    (if diff < 0 then Signed(2 * size + diff) else diff) % TWO32
  }

  function IncOffset(size: nat, offset: nat, inc: nat): nat
    requires inc <= size
  {
    var o := (offset + inc) % TWO32;
    if o >= 2 * size then o - 2 * size else o
  }

  /** Index in the data buffer. */
  function Pointer(size: nat, offset: nat): nat { if offset >= size then offset - size else offset }

  /** Folding the double area back: the pointer of an offset is the slot of its position. */
  lemma PointerIsSlot(size: nat, k: nat)
    requires size > 0
    ensures Pointer(size, k % (2 * size)) == Slot(size, k)
  {
    var q, r := k / (2 * size), k % (2 * size);
    assert k == (2 * q) * size + r;
    if r >= size {
      assert k == (2 * q + 1) * size + (r - size);
      DivModUnique(k, size, 2 * q + 1, r - size);
    } else {
      DivModUnique(k, size, 2 * q, r);
    }
  }

  /** Offsets of positions that are at most a buffer apart: their difference is known modulo the
      double area. */
  lemma OffsetDifference(size: nat, r: nat, w: nat)
    requires size > 0 && r <= w <= r + size
    ensures w % (2 * size) - r % (2 * size) == w - r || w % (2 * size) - r % (2 * size) == w - r - 2 * size
  {
    ModStep(r, w - r, 2 * size);
  }

  lemma SignedFits(x: int)
    requires -TWO31 <= x < TWO31
    ensures Signed(x) == x
  {
  }

  lemma AvailableOf(size: nat, write: nat, read: nat, n: nat)
    requires 0 < size <= 0x4000_0000 && write < 2 * size && read < 2 * size && n <= size
    requires write - read == n || write - read == n - 2 * size
    ensures Available(size, write, read) == n
  {
    SignedFits(write - read);
    SignedFits(n);
  }

  /** With a buffer of at most 2^30 bytes the computed value is the number of bytes in the queue, so
      that equal offsets mean an empty queue and only a full queue has a whole buffer available. */
  lemma AvailableExact(size: nat, r: nat, w: nat)
    requires 0 < size <= 0x4000_0000 && r <= w <= r + size
    ensures Available(size, w % (2 * size), r % (2 * size)) == w - r
    ensures w % (2 * size) == r % (2 * size) <==> w == r
  {
    hide Available;
    OffsetDifference(size, r, w);
    AvailableOf(size, w % (2 * size), r % (2 * size), w - r);
  }

  ghost predicate CountsRight(size: nat)
    requires size > 0
  {
    forall r: nat, w: nat :: r <= w <= r + size ==> Available(size, w % (2 * size), r % (2 * size)) == w - r
  }

  /** The bound is exact: for larger buffers some counts are wrong. */
  lemma AvailableNeedsBound(size: nat)
    requires 0 < size < TWO31
    ensures CountsRight(size) <==> size <= 0x4000_0000
  {
    if size <= 0x4000_0000 {
      forall r: nat, w: nat | r <= w <= r + size ensures Available(size, w % (2 * size), r % (2 * size)) == w - r {
        AvailableExact(size, r, w);
      }
    } else {
      var r: nat := 2 * size - 1;
      DivModUnique(r, 2 * size, 0, r);
      DivModUnique(r + 1, 2 * size, 1, 0);
      WrapWrong(size);
      assert Available(size, (r + 1) % (2 * size), r % (2 * size)) != (r + 1) - r;
    }
  }

  lemma WrapWrong(size: nat)
    requires 0x4000_0000 < size < TWO31
    ensures Available(size, 0, 2 * size - 1) != 1
  {
    assert (0 - (2 * size - 1)) % TWO32 == TWO32 - (2 * size - 1);
  }

  lemma IncIsNext(size: nat, k: nat, inc: nat)
    requires 0 < size <= 0x4000_0000 && inc <= size
    ensures IncOffset(size, k % (2 * size), inc) == (k + inc) % (2 * size)
  {
    ModStep(k, inc, 2 * size);
    IncValue(size, k % (2 * size), inc);
  }

  lemma IncValue(size: nat, o: nat, inc: nat)
    requires 0 < size <= 0x4000_0000 && inc <= size && o < 2 * size
    ensures IncOffset(size, o, inc) == if o + inc >= 2 * size then o + inc - 2 * size else o + inc
  {
  }

  // ---- cache operations ---------------------------------------------------------------------------

  /** A byte in the data cache of a core. */
  datatype Cell = Absent | Present(b: Byte, dirty: bool)

  datatype Region = Region(start: nat, len: nat)

  predicate Covers(r: Region, p: nat) { r.start <= p < r.start + r.len }

  predicate CoversAny(rs: seq<Region>, p: nat) { exists i :: 0 <= i < |rs| && Covers(rs[i], p) }

  /** The one or two regions of `n` bytes from index `ptr`. */
  function Regions(size: nat, ptr: nat, n: nat): seq<Region>
    requires ptr <= size
  {
    if ptr + n > size then [Region(ptr, size - ptr), Region(0, n - (size - ptr))] else [Region(ptr, n)]
  }

  /** The index of one of `n` positions from `k` on. */
  ghost predicate Circular(size: nat, k: nat, n: nat, p: nat)
    requires size > 0
  {
    exists j :: k <= j < k + n && Slot(size, j) == p
  }

  /** The regions cover exactly the circular range. */
  lemma RegionsExact(size: nat, k: nat, n: nat, p: nat)
    requires size > 0 && n <= size
    ensures CoversAny(Regions(size, Slot(size, k), n), p) <==> Circular(size, k, n, p)
  {
    var ptr := Slot(size, k);
    var rs := Regions(size, ptr, n);
    assert CoversAny(rs, p) <==> Covers(rs[0], p) || (|rs| == 2 && Covers(rs[1], p));
    if CoversAny(rs, p) {
      var i := if p >= ptr then p - ptr else p + size - ptr;
      ModStep(k, i, size);
      assert Slot(size, k + i) == p;
    }
    if Circular(size, k, n, p) {
      var j :| k <= j < k + n && Slot(size, j) == p;
      ModStep(k, j - k, size);
    }
  }

  /** What a core sees at an index. */
  function Look(cache: seq<Cell>, mem: seq<Byte>, p: nat): Byte
    requires p < |cache| == |mem|
  {
    if cache[p].Present? then cache[p].b else mem[p]
  }

  function WrittenBack(cache: seq<Cell>, mem: seq<Byte>, r: Region): (m: seq<Byte>)
    requires |cache| == |mem|
    ensures |m| == |mem|
  {
    seq(|mem|, p requires 0 <= p < |mem| =>
      if Covers(r, p) && cache[p].Present? && cache[p].dirty then cache[p].b else mem[p])
  }

  function Cleaned(cache: seq<Cell>, r: Region): (c: seq<Cell>)
    ensures |c| == |cache|
  {
    seq(|cache|, p requires 0 <= p < |cache| =>
      if Covers(r, p) && cache[p].Present? then cache[p].(dirty := false) else cache[p])
  }

  function Invalidated(cache: seq<Cell>, r: Region): (c: seq<Cell>)
    ensures |c| == |cache|
  {
    seq(|cache|, p requires 0 <= p < |cache| => if Covers(r, p) then Absent else cache[p])
  }

  // ---- the protocol -----------------------------------------------------------------------------

  /** Each side between its calls, or inside one with cache operations still to do. */
  datatype Phase = Outside | Inside(n: nat, todo: seq<Region>)

  datatype Seen = Seen(pos: nat, b: Byte)

  /** `near` and `far` are the caches of the producer's and of the consumer's core; a queue that is not
      shared has both sides on one core. `sent` are the bytes committed so far, `released` counts the
      bytes given back, and `seen` holds every byte read and its position in the stream. */
  datatype State = State(size: nat, shared: bool, writeOffset: nat, readOffset: nat,
                         mem: seq<Byte>, near: seq<Cell>, far: seq<Cell>,
                         writeGrant: nat, producer: Phase, readGrant: nat, consumer: Phase,
                         sent: seq<Byte>, released: nat, seen: seq<Seen>)

  datatype Action =
    | GetBuffer(req: nat) | Write(i: nat, b: Byte) | CommitBuffer(n: nat) | Flush | Publish
    | GetData(req: nat) | Invalidate | Grant | Read(i: nat) | ReleaseData(n: nat)
    | Evict(consumerCore: bool, p: nat) | Fill(consumerCore: bool, p: nat)

  predicate Shape(s: State) {
    && 0 < s.size <= 0x4000_0000 && |s.mem| == |s.near| == |s.far| == s.size
    && s.writeOffset < 2 * s.size && s.readOffset < 2 * s.size
    && Available(s.size, s.writeOffset, s.readOffset) <= s.size
    && s.writeGrant <= s.size && s.readGrant <= s.size
    && (s.producer.Inside? ==> s.producer.n <= s.size) && (s.consumer.Inside? ==> s.consumer.n <= s.size)
  }

  function MinNat(a: nat, b: nat): nat { if a < b then a else b }

  /** The bytes between the write pointer and `n` bytes on, as the producer sees them. */
  function Draft(s: State, n: nat): seq<Byte>
    requires Shape(s)
  {
    seq<Byte>(n, i requires 0 <= i => Look(s.near, s.mem, (Pointer(s.size, s.writeOffset) + i) % s.size))
  }

  /** One action; an action that is refused or not possible leaves the state as it is. */
  function Apply(s: State, a: Action): State
    requires Shape(s)
  {
    var avail := Available(s.size, s.writeOffset, s.readOffset);
    var writePtr, readPtr := Pointer(s.size, s.writeOffset), Pointer(s.size, s.readOffset);
    match a
    case GetBuffer(req) =>
      if s.producer.Inside? || s.writeGrant != 0 || req > s.size - avail then s else s.(writeGrant := req)
    case Write(i, b) =>
      if s.producer.Inside? || i >= s.writeGrant then s
      else s.(near := s.near[(writePtr + i) % s.size := Present(b, true)])
    case CommitBuffer(n) =>
      if s.producer.Inside? || s.writeGrant == 0 then s
      else if n == 0 then s.(writeGrant := 0)
      else
        var m := MinNat(n, s.writeGrant);
        s.(producer := Inside(m, if s.shared then Regions(s.size, writePtr, m) else []))
    case Flush =>
      if s.producer.Outside? || s.producer.todo == [] then s
      else
        var r := s.producer.todo[0];
        s.(mem := WrittenBack(s.near, s.mem, r), near := Cleaned(s.near, r),
           producer := s.producer.(todo := s.producer.todo[1..]))
    case Publish =>
      if s.producer.Outside? || s.producer.todo != [] then s
      else
        s.(writeOffset := IncOffset(s.size, s.writeOffset, s.producer.n), sent := s.sent + Draft(s, s.producer.n),
           writeGrant := 0, producer := Outside)
    case GetData(req) =>
      if s.consumer.Inside? || s.readGrant != 0 || req > avail then s
      else s.(consumer := Inside(req, if s.shared then Regions(s.size, readPtr, req) else []))
    case Invalidate =>
      if s.consumer.Outside? || s.consumer.todo == [] then s
      else
        s.(far := Invalidated(s.far, s.consumer.todo[0]), consumer := s.consumer.(todo := s.consumer.todo[1..]))
    case Grant =>
      if s.consumer.Outside? || s.consumer.todo != [] then s else s.(readGrant := s.consumer.n, consumer := Outside)
    case Read(i) =>
      if s.consumer.Inside? || i >= s.readGrant then s
      else
        var p := (readPtr + i) % s.size;
        s.(seen := s.seen + [Seen(s.released + i, Look(if s.shared then s.far else s.near, s.mem, p))])
    case ReleaseData(n) =>
      if s.consumer.Inside? || s.readGrant == 0 then s
      else
        var m := MinNat(n, s.readGrant);
        s.(readOffset := IncOffset(s.size, s.readOffset, m), released := s.released + m, readGrant := 0)
    case Evict(consumerCore, p) =>
      if p >= s.size then s
      else
        var cell := if consumerCore then s.far[p] else s.near[p];
        var mem := if cell.Present? && cell.dirty then s.mem[p := cell.b] else s.mem;
        if consumerCore then s.(mem := mem, far := s.far[p := Absent]) else s.(mem := mem, near := s.near[p := Absent])
    case Fill(consumerCore, p) =>
      if p >= s.size then s
      else if consumerCore then (if s.far[p].Present? then s else s.(far := s.far[p := Present(s.mem[p], false)]))
      else (if s.near[p].Present? then s else s.(near := s.near[p := Present(s.mem[p], false)]))
  }

  // ---- what every action keeps ------------------------------------------------------------------

  function Written(s: State): nat { |s.sent| }

  /** The offsets are the positions of both sides modulo the double area, grants stay within what is
      free and what is there. */
  predicate Counts(s: State) {
    && 0 < s.size <= 0x4000_0000 && |s.mem| == |s.near| == |s.far| == s.size
    && s.released <= Written(s) <= s.released + s.size
    && s.writeOffset == Written(s) % (2 * s.size) && s.readOffset == s.released % (2 * s.size)
    && Written(s) + s.writeGrant <= s.released + s.size && s.released + s.readGrant <= Written(s)
    && (s.producer.Inside? ==> 0 < s.producer.n <= s.writeGrant)
    && (s.consumer.Inside? ==> s.readGrant == 0 && s.released + s.consumer.n <= Written(s))
  }

  predicate Dirty(s: State, p: nat)
    requires p < |s.near|
  {
    s.near[p].Present? && s.near[p].dirty
  }

  /** An unread byte is where the other side will look for it. */
  predicate Holds(s: State, k: nat)
    requires Counts(s) && k < Written(s)
  {
    var p := Slot(s.size, k);
    if s.shared then s.mem[p] == s.sent[k] && !Dirty(s, p) else Look(s.near, s.mem, p) == s.sent[k]
  }

  predicate Stored(s: State)
    requires Counts(s)
  {
    forall k :: s.released <= k < Written(s) ==> Holds(s, k)
  }

  /** Clean bytes of the producer's core agree with memory; the consumer's core has no dirty ones. */
  predicate Clean(s: State)
    requires Counts(s)
  {
    forall p :: 0 <= p < s.size ==>
      (s.near[p].Present? && !s.near[p].dirty ==> s.mem[p] == s.near[p].b) && (s.far[p].Present? ==> !s.far[p].dirty)
  }

  /** Of the bytes being committed, those without a pending write-back are in memory. */
  predicate Flushed(s: State)
    requires Counts(s)
  {
    s.shared && s.producer.Inside? ==>
      forall k :: Written(s) <= k < Written(s) + s.producer.n ==>
        CoversAny(s.producer.todo, Slot(s.size, k)) || !Dirty(s, Slot(s.size, k))
  }

  function Window(s: State): nat { if s.consumer.Inside? then s.consumer.n else s.readGrant }

  function Pending(s: State): seq<Region> { if s.consumer.Inside? then s.consumer.todo else [] }

  /** Of the bytes handed out, those without a pending invalidation are not stale in the reader's cache. */
  predicate Fresh(s: State)
    requires Counts(s)
  {
    s.shared ==>
      forall k :: s.released <= k < s.released + Window(s) ==>
        var p := Slot(s.size, k);
        CoversAny(Pending(s), p) || s.far[p].Absent? || s.far[p].b == s.sent[k]
  }

  predicate SeenRight(s: State) { forall o :: o in s.seen ==> o.pos < Written(s) && o.b == s.sent[o.pos] }

  predicate Inv(s: State) { Counts(s) && Stored(s) && Clean(s) && Flushed(s) && Fresh(s) && SeenRight(s) }

  lemma CountsShape(s: State)
    requires Counts(s)
    ensures Shape(s) && Available(s.size, s.writeOffset, s.readOffset) == Written(s) - s.released
    ensures Pointer(s.size, s.writeOffset) == Slot(s.size, Written(s))
      && Pointer(s.size, s.readOffset) == Slot(s.size, s.released)
  {
    hide Available, Pointer;
    AvailableExact(s.size, s.released, Written(s));
    PointerIsSlot(s.size, Written(s));
    PointerIsSlot(s.size, s.released);
  }

  /** An index granted for writing is not the index of an unread byte. */
  lemma GrantIsFree(s: State, i: nat, k: nat)
    requires Counts(s) && i < s.writeGrant && s.released <= k < Written(s)
    ensures Slot(s.size, Written(s) + i) != Slot(s.size, k)
  {
    SlotsDiffer(s.size, k, Written(s) + i);
  }

  lemma StoredSame(s: State, s': State)
    requires Counts(s) && Counts(s') && Stored(s) && s.released <= s'.released
    requires s'.size == s.size && s'.shared == s.shared && s'.mem == s.mem && s'.near == s.near && s'.sent == s.sent
    ensures Stored(s')
  {
    forall k | s'.released <= k < Written(s') ensures Holds(s', k) { assert Holds(s, k); }
  }

  lemma KeepGetBuffer(s: State, req: nat)
    requires Inv(s)
    ensures Shape(s) && Inv(Apply(s, GetBuffer(req)))
  {
    CountsShape(s);
    hide Available, Pointer, Slot, Stored;
    var s' := Apply(s, GetBuffer(req));
    StoredSame(s, s');
  }

  lemma KeepWrite(s: State, i: nat, b: Byte)
    requires Inv(s)
    ensures Shape(s) && Inv(Apply(s, Write(i, b)))
  {
    CountsShape(s);
    var s' := Apply(s, Write(i, b));
    if s.producer.Outside? && i < s.writeGrant {
      SlotAdd(s.size, Written(s), i);
      hide Available, Pointer, Slot;
      forall k | s.released <= k < Written(s) ensures Holds(s', k) {
        assert Holds(s, k);
        GrantIsFree(s, i, k);
      }
    }
  }

  /** The regions of a commit cover all of it. */
  lemma CommitCovered(s: State, m: nat)
    requires Counts(s) && m <= s.size
    ensures Shape(s)
    ensures forall k :: Written(s) <= k < Written(s) + m ==>
      CoversAny(Regions(s.size, Pointer(s.size, s.writeOffset), m), Slot(s.size, k))
  {
    hide Available, Pointer, Slot, Regions, CoversAny;
    CountsShape(s);
    forall k | Written(s) <= k < Written(s) + m
      ensures CoversAny(Regions(s.size, Pointer(s.size, s.writeOffset), m), Slot(s.size, k))
    {
      assert Circular(s.size, Written(s), m, Slot(s.size, k));
      RegionsExact(s.size, Written(s), m, Slot(s.size, k));
    }
  }

  lemma KeepCommit(s: State, n: nat)
    requires Inv(s)
    ensures Shape(s) && Inv(Apply(s, CommitBuffer(n)))
  {
    hide Available, Pointer, Slot, Look, Regions, Stored, CoversAny, Clean, Fresh, SeenRight;
    CountsShape(s);
    var s' := Apply(s, CommitBuffer(n));
    StoredSame(s, s');
    CommitCovered(s, MinNat(n, s.writeGrant));
    SameCaches(s, s');
  }

  /** What does not depend on the producer's phase and grant. */
  lemma SameCaches(s: State, s': State)
    requires Counts(s) && Counts(s') && Clean(s) && Fresh(s) && SeenRight(s)
    requires s' == s.(writeGrant := s'.writeGrant, producer := s'.producer)
    ensures Clean(s') && Fresh(s') && SeenRight(s')
  {
    hide Slot, CoversAny;
  }

  lemma CoversRest(rs: seq<Region>, p: nat)
    requires rs != [] && CoversAny(rs, p)
    ensures Covers(rs[0], p) || CoversAny(rs[1..], p)
  {
    var i :| 0 <= i < |rs| && Covers(rs[i], p);
    if i > 0 { assert rs[1..][i - 1] == rs[i]; }
  }

  lemma KeepFlush(s: State)
    requires Inv(s)
    ensures Shape(s) && Inv(Apply(s, Flush))
  {
    CountsShape(s);
    var s' := Apply(s, Flush);
    if s.producer.Inside? && s.producer.todo != [] {
      hide Available, Pointer, Slot, CoversAny;
      forall k | s.released <= k < Written(s) ensures Holds(s', k) { assert Holds(s, k); }
      if s.shared {
        forall k | Written(s) <= k < Written(s) + s.producer.n
          ensures CoversAny(s'.producer.todo, Slot(s.size, k)) || !Dirty(s', Slot(s.size, k))
        {
          if CoversAny(s.producer.todo, Slot(s.size, k)) { CoversRest(s.producer.todo, Slot(s.size, k)); }
        }
      }
    }
  }

  lemma PublishedIsStored(s: State, k: nat)
    requires Inv(s) && s.producer.Inside? && s.producer.todo == [] && Written(s) <= k < Written(s) + s.producer.n
    ensures Shape(s) && Draft(s, s.producer.n)[k - Written(s)] == Look(s.near, s.mem, Slot(s.size, k))
    ensures s.shared ==> s.mem[Slot(s.size, k)] == Look(s.near, s.mem, Slot(s.size, k)) && !Dirty(s, Slot(s.size, k))
  {
    CountsShape(s);
    hide Available, Pointer, Slot;
    SlotAdd(s.size, Written(s), k - Written(s));
    assert !CoversAny(s.producer.todo, Slot(s.size, k));
  }

  lemma KeepPublish(s: State)
    requires Inv(s)
    ensures Shape(s) && Inv(Apply(s, Publish))
  {
    CountsShape(s);
    var s' := Apply(s, Publish);
    if s.producer.Inside? && s.producer.todo == [] {
      IncIsNext(s.size, Written(s), s.producer.n);
      hide Available, Pointer, Slot, IncOffset;
      assert Counts(s');
      forall k | s.released <= k < Written(s') ensures Holds(s', k) {
        if k < Written(s) { assert Holds(s, k); } else { PublishedIsStored(s, k); }
      }
    }
  }

  lemma KeepGetData(s: State, req: nat)
    requires Inv(s)
    ensures Shape(s) && Inv(Apply(s, GetData(req)))
  {
    CountsShape(s);
    hide Available, Pointer, Slot, Look, Regions, Stored;
    var s' := Apply(s, GetData(req));
    StoredSame(s, s');
    if s'.consumer.Inside? && s.consumer.Outside? && s.shared {
      forall k | s.released <= k < s.released + s'.consumer.n ensures CoversAny(s'.consumer.todo, Slot(s.size, k)) {
        assert Circular(s.size, s.released, s'.consumer.n, Slot(s.size, k));
        RegionsExact(s.size, s.released, s'.consumer.n, Slot(s.size, k));
      }
    }
  }

  lemma KeepInvalidate(s: State)
    requires Inv(s)
    ensures Shape(s) && Inv(Apply(s, Invalidate))
  {
    CountsShape(s);
    var s' := Apply(s, Invalidate);
    hide Available, Pointer, Slot, CoversAny, Stored;
    StoredSame(s, s');
    if s.consumer.Inside? && s.consumer.todo != [] && s.shared {
      forall k | s.released <= k < s.released + s.consumer.n
        ensures CoversAny(s'.consumer.todo, Slot(s.size, k)) || s'.far[Slot(s.size, k)].Absent?
          || s'.far[Slot(s.size, k)].b == s.sent[k]
      {
        if CoversAny(s.consumer.todo, Slot(s.size, k)) { CoversRest(s.consumer.todo, Slot(s.size, k)); }
      }
    }
  }

  lemma KeepGrant(s: State)
    requires Inv(s)
    ensures Shape(s) && Inv(Apply(s, Grant))
  {
    CountsShape(s);
    hide Available, Pointer, Slot, Stored;
    var s' := Apply(s, Grant);
    StoredSame(s, s');
  }

  /** What the reader gets is what was sent. */
  lemma ReadIsRight(s: State, i: nat)
    requires Inv(s) && s.consumer.Outside? && i < s.readGrant
    ensures Shape(s)
    ensures Look(if s.shared then s.far else s.near, s.mem, (Pointer(s.size, s.readOffset) + i) % s.size)
      == s.sent[s.released + i]
  {
    CountsShape(s);
    SlotAdd(s.size, s.released, i);
    hide Available, Pointer, Slot;
    assert Holds(s, s.released + i);
    assert !CoversAny([], Slot(s.size, s.released + i));
  }

  lemma SeenOnly(s: State, seen: seq<Seen>)
    requires Inv(s)
    requires forall o :: o in seen ==> o.pos < Written(s) && o.b == s.sent[o.pos]
    ensures Inv(s.(seen := seen))
  {
    StoredSame(s, s.(seen := seen));
  }

  lemma KeepRead(s: State, i: nat)
    requires Inv(s)
    ensures Shape(s) && Inv(Apply(s, Read(i)))
  {
    CountsShape(s);
    hide Available, Pointer, Look, Stored, Clean, Flushed, Fresh, Shape;
    if s.consumer.Outside? && i < s.readGrant {
      ReadIsRight(s, i);
      SeenOnly(s, Apply(s, Read(i)).seen);
    }
  }

  /** The state after giving back `m` bytes. */
  function Given(s: State, m: nat): State
    requires m <= s.size
  {
    s.(readOffset := IncOffset(s.size, s.readOffset, m), released := s.released + m, readGrant := 0)
  }

  lemma GivenCounts(s: State, m: nat)
    requires Counts(s) && s.consumer.Outside? && m <= s.readGrant
    ensures m <= s.size && Counts(Given(s, m))
  {
    hide IncOffset;
    IncIsNext(s.size, s.released, m);
  }

  lemma GivenKeeps(s: State, m: nat)
    requires Inv(s) && s.consumer.Outside? && m <= s.readGrant
    ensures m <= s.size && Inv(Given(s, m))
  {
    GivenCounts(s, m);
    hide Counts, IncOffset, Stored, Slot;
    StoredSame(s, Given(s, m));
  }

  lemma KeepRelease(s: State, n: nat)
    requires Inv(s)
    ensures Shape(s) && Inv(Apply(s, ReleaseData(n)))
  {
    CountsShape(s);
    hide Inv, Shape, Available, Pointer, IncOffset;
    if s.consumer.Outside? && s.readGrant != 0 {
      GivenKeeps(s, MinNat(n, s.readGrant));
    }
  }

  lemma KeepEvict(s: State, consumerCore: bool, p: nat)
    requires Inv(s)
    ensures Shape(s) && Inv(Apply(s, Evict(consumerCore, p)))
  {
    CountsShape(s);
    hide Available, Pointer, Slot, CoversAny;
    var s' := Apply(s, Evict(consumerCore, p));
    forall k | s.released <= k < Written(s) ensures Holds(s', k) { assert Holds(s, k); }
  }

  lemma KeepFill(s: State, consumerCore: bool, p: nat)
    requires Inv(s)
    ensures Shape(s) && Inv(Apply(s, Fill(consumerCore, p)))
  {
    CountsShape(s);
    hide Available, Pointer, Slot, CoversAny;
    var s' := Apply(s, Fill(consumerCore, p));
    forall k | s.released <= k < Written(s) ensures Holds(s', k) { assert Holds(s, k); }
    if s.shared && consumerCore && p < s.size {
      forall k | s.released <= k < s.released + Window(s)
        ensures s'.far[Slot(s.size, k)].Absent? || s'.far[Slot(s.size, k)].b == s.sent[k]
          || CoversAny(Pending(s), Slot(s.size, k))
      {
        assert Holds(s, k);
      }
    }
  }

  lemma SentGrows(s: State, a: Action)
    requires Shape(s)
    ensures s.sent <= Apply(s, a).sent
  {
    hide Available, Pointer, IncOffset;
  }

  lemma Keep(s: State, a: Action)
    requires Inv(s)
    ensures Shape(s) && Inv(Apply(s, a)) && s.sent <= Apply(s, a).sent
  {
    CountsShape(s);
    SentGrows(s, a);
    hide Inv, Apply, Shape;
    match a
    case GetBuffer(req) => KeepGetBuffer(s, req);
    case Write(i, b) => KeepWrite(s, i, b);
    case CommitBuffer(n) => KeepCommit(s, n);
    case Flush => KeepFlush(s);
    case Publish => KeepPublish(s);
    case GetData(req) => KeepGetData(s, req);
    case Invalidate => KeepInvalidate(s);
    case Grant => KeepGrant(s);
    case Read(i) => KeepRead(s, i);
    case ReleaseData(n) => KeepRelease(s, n);
    case Evict(consumerCore, p) => KeepEvict(s, consumerCore, p);
    case Fill(consumerCore, p) => KeepFill(s, consumerCore, p);
  }

  // ---- what one side keeps for the other --------------------------------------------------------

  predicate OfProducer(a: Action) { a.GetBuffer? || a.Write? || a.CommitBuffer? || a.Flush? || a.Publish? }

  predicate OfConsumer(a: Action) { a.GetData? || a.Invalidate? || a.Grant? || a.Read? || a.ReleaseData? }

  /** What the producer's core has at an index. */
  function View(s: State, p: nat): Byte { if p < |s.near| == |s.mem| then Look(s.near, s.mem, p) else 0 }

  /** The consumer finds its own state as it left it, and bytes were only added. */
  predicate ForConsumer(s: State, r: State) {
    && r.size == s.size && r.shared == s.shared && r.released == s.released && r.readOffset == s.readOffset
    && r.readGrant == s.readGrant && r.consumer == s.consumer && s.sent <= r.sent
  }

  /** The producer finds its own state and every byte as it left it, and bytes were only taken. */
  ghost predicate ForProducer(s: State, r: State) {
    && r.size == s.size && r.shared == s.shared && r.sent == s.sent && r.writeOffset == s.writeOffset
    && r.writeGrant == s.writeGrant && r.producer == s.producer && s.released <= r.released
    && forall p :: 0 <= p < s.size ==> View(r, p) == View(s, p)
  }

  lemma ForConsumerStep(s: State, a: Action)
    requires Inv(s) && !OfConsumer(a)
    ensures Shape(s) && ForConsumer(s, Apply(s, a))
  {
    hide Available, Pointer, IncOffset, Shape, Regions, WrittenBack, Cleaned, Draft, Look, Stored, Clean, Flushed,
      Fresh, SeenRight;
    CountsShape(s);
    match a
    case GetBuffer(_) =>
    case Write(_, _) =>
    case CommitBuffer(_) =>
    case Flush =>
    case Publish =>
    case Evict(_, _) =>
    case Fill(_, _) =>
  }

  lemma CacheKeepsView(s: State, a: Action)
    requires Inv(s) && (a.Evict? || a.Fill?)
    ensures Shape(s) && ForProducer(s, Apply(s, a))
  {
    hide Available, Pointer, Shape, Stored, Flushed, Fresh, SeenRight;
    CountsShape(s);
    match a
    case Evict(_, p) =>
    case Fill(_, p) =>
  }

  lemma ForProducerStep(s: State, a: Action)
    requires Inv(s) && !OfProducer(a)
    ensures Shape(s) && ForProducer(s, Apply(s, a))
  {
    CountsShape(s);
    hide Available, Pointer, IncOffset, Inv, Shape, View, Regions, Invalidated, Look;
    if a.Evict? || a.Fill? {
      CacheKeepsView(s, a);
    } else {
      assert Apply(s, a).near == s.near && Apply(s, a).mem == s.mem;
      SameView(s, Apply(s, a));
    }
  }

  lemma SameView(s: State, r: State)
    requires r.near == s.near && r.mem == s.mem
    ensures forall p :: 0 <= p < s.size ==> View(r, p) == View(s, p)
  {
  }

  lemma {:induction false} ForConsumerRun(s: State, actions: seq<Action>)
    requires Inv(s) && forall a :: a in actions ==> !OfConsumer(a)
    ensures ForConsumer(s, Run(s, actions))
    decreases |actions|
  {
    hide Inv, Apply, Shape;
    if actions != [] {
      Keep(s, actions[0]);
      ForConsumerStep(s, actions[0]);
      ForConsumerRun(Apply(s, actions[0]), actions[1..]);
    }
  }

  lemma {:induction false} ForProducerRun(s: State, actions: seq<Action>)
    requires Inv(s) && forall a :: a in actions ==> !OfProducer(a)
    ensures ForProducer(s, Run(s, actions))
    decreases |actions|
  {
    hide Inv, Apply, Shape, View;
    if actions != [] {
      Keep(s, actions[0]);
      ForProducerStep(s, actions[0]);
      ForProducerRun(Apply(s, actions[0]), actions[1..]);
    }
  }

  // ---- what each access of one side does, in terms of the stream ----------------------------------

  lemma AtGetData(s: State, req: nat)
    requires Inv(s) && s.consumer.Outside? && s.readGrant == 0 && s.released + req <= Written(s)
    ensures Shape(s)
    ensures var r := Apply(s, GetData(req));
      r == s.(consumer := r.consumer) && r.consumer.Inside? && r.consumer.n == req
  {
    hide Available, Pointer, Regions, Stored, Clean, Flushed, Fresh, SeenRight;
    CountsShape(s);
  }

  lemma AtInvalidate(s: State)
    requires Inv(s) && s.consumer.Inside? && s.consumer.todo != []
    ensures Shape(s)
    ensures var r := Apply(s, Invalidate); r == s.(far := r.far, consumer := s.consumer.(todo := s.consumer.todo[1..]))
  {
    hide Available, Pointer, Invalidated, Stored, Clean, Flushed, Fresh, SeenRight;
    CountsShape(s);
  }

  lemma AtGrant(s: State)
    requires Inv(s) && s.consumer.Inside? && s.consumer.todo == []
    ensures Shape(s) && Apply(s, Grant) == s.(readGrant := s.consumer.n, consumer := Outside)
  {
    hide Available, Pointer, Stored, Clean, Flushed, Fresh, SeenRight;
    CountsShape(s);
  }

  lemma AtRead(s: State, i: nat)
    requires Inv(s) && s.consumer.Outside? && i < s.readGrant
    ensures Shape(s) && Apply(s, Read(i)) == s.(seen := s.seen + [Seen(s.released + i, s.sent[s.released + i])])
  {
    hide Available, Pointer, Look, Stored, Clean, Flushed, Fresh, SeenRight, Shape;
    ReadIsRight(s, i);
  }

  lemma AtRelease(s: State, n: nat)
    requires Inv(s) && s.consumer.Outside? && s.readGrant != 0
    ensures Shape(s) && MinNat(n, s.readGrant) <= s.size && Apply(s, ReleaseData(n)) == Given(s, MinNat(n, s.readGrant))
  {
    hide Available, Pointer, IncOffset, Stored, Clean, Flushed, Fresh, SeenRight;
    CountsShape(s);
  }

  lemma AtGetBuffer(s: State, req: nat)
    requires Inv(s) && s.producer.Outside? && s.writeGrant == 0 && Written(s) + req <= s.released + s.size
    ensures Shape(s) && Apply(s, GetBuffer(req)) == s.(writeGrant := req)
  {
    hide Available, Pointer, Stored, Clean, Flushed, Fresh, SeenRight;
    CountsShape(s);
  }

  lemma AtWrite(s: State, i: nat, b: Byte)
    requires Inv(s) && s.producer.Outside? && i < s.writeGrant
    ensures Shape(s)
    ensures var r := Apply(s, Write(i, b));
      && r == s.(near := r.near)
      && forall p :: 0 <= p < s.size ==> View(r, p) == if p == Slot(s.size, Written(s) + i) then b else View(s, p)
  {
    hide Available, Pointer, Slot, Stored, Clean, Flushed, Fresh, SeenRight;
    CountsShape(s);
    SlotAdd(s.size, Written(s), i);
  }

  lemma AtCommit(s: State, n: nat)
    requires Inv(s) && s.producer.Outside? && s.writeGrant != 0
    ensures Shape(s)
    ensures var r := Apply(s, CommitBuffer(n));
      if n == 0 then r == s.(writeGrant := 0)
      else r == s.(producer := r.producer) && r.producer.Inside? && r.producer.n == MinNat(n, s.writeGrant)
  {
    hide Available, Pointer, Regions, Stored, Clean, Flushed, Fresh, SeenRight;
    CountsShape(s);
  }

  lemma AtFlush(s: State)
    requires Inv(s) && s.producer.Inside? && s.producer.todo != []
    ensures Shape(s)
    ensures var r := Apply(s, Flush);
      && r == s.(mem := r.mem, near := r.near, producer := s.producer.(todo := s.producer.todo[1..]))
      && forall p :: 0 <= p < s.size ==> View(r, p) == View(s, p)
  {
    hide Available, Pointer, Stored, Clean, Flushed, Fresh, SeenRight;
    CountsShape(s);
  }

  /** What the producer has put behind the bytes committed so far. */
  function Ahead(s: State, n: nat): (d: seq<Byte>)
    requires s.size > 0
    ensures |d| == n
  {
    seq<Byte>(n, i requires 0 <= i => View(s, Slot(s.size, Written(s) + i)))
  }

  lemma AheadAt(s: State, n: nat, i: nat)
    requires s.size > 0 && i < n
    ensures Ahead(s, n)[i] == View(s, Slot(s.size, Written(s) + i))
  {
    hide Slot, View;
  }

  lemma AheadNothing(s: State)
    requires s.size > 0
    ensures Ahead(s, 0) == []
  {
  }

  lemma DraftAt(s: State, n: nat, i: nat)
    requires Shape(s) && i < n
    ensures Draft(s, n)[i] == View(s, (Pointer(s.size, s.writeOffset) + i) % s.size)
  {
    hide Available, Pointer;
  }

  lemma DraftIsAhead(s: State, n: nat)
    requires Inv(s)
    ensures Shape(s) && Draft(s, n) == Ahead(s, n)
  {
    hide Available, Pointer, Slot, Ahead, View, Shape, Stored, Clean, Flushed, Fresh, SeenRight;
    CountsShape(s);
    forall i | 0 <= i < n ensures Draft(s, n)[i] == Ahead(s, n)[i] {
      DraftAt(s, n, i);
      AheadAt(s, n, i);
      SlotAdd(s.size, Written(s), i);
    }
  }

  lemma AheadSame(s: State, r: State, n: nat)
    requires s.size > 0 && r.size == s.size && r.sent == s.sent
    requires forall p :: 0 <= p < s.size ==> View(r, p) == View(s, p)
    ensures Ahead(r, n) == Ahead(s, n)
  {
    hide Slot, View, Ahead;
    forall i | 0 <= i < n ensures Ahead(r, n)[i] == Ahead(s, n)[i] {
      AheadAt(r, n, i);
      AheadAt(s, n, i);
    }
  }

  lemma AtPublish(s: State)
    requires Inv(s) && s.producer.Inside? && s.producer.todo == []
    ensures Shape(s)
    ensures var r := Apply(s, Publish);
      r == s.(writeOffset := r.writeOffset, sent := s.sent + Ahead(s, s.producer.n), writeGrant := 0,
              producer := Outside)
  {
    hide Available, Pointer, IncOffset, Draft, Ahead, Stored, Clean, Flushed, Fresh, SeenRight;
    CountsShape(s);
    DraftIsAhead(s, s.producer.n);
  }

  // ---- every run ----------------------------------------------------------------------------------

  /** A new queue. The caches may hold clean bytes from earlier uses of the memory, also stale ones on
      the consumer's core. */
  predicate Initial(s: State) {
    && 0 < s.size <= 0x4000_0000 && |s.mem| == |s.near| == |s.far| == s.size
    && s.writeOffset == 0 && s.readOffset == 0 && s.writeGrant == 0 && s.readGrant == 0
    && s.producer == Outside && s.consumer == Outside && s.sent == [] && s.released == 0 && s.seen == []
    && (forall p :: 0 <= p < s.size ==> s.near[p].Present? ==> s.near[p] == Present(s.mem[p], false))
    && (forall p :: 0 <= p < s.size ==> s.far[p].Present? ==> !s.far[p].dirty)
  }

  function Run(s: State, actions: seq<Action>): (r: State)
    requires Inv(s)
    ensures Inv(r) && s.sent <= r.sent
    decreases |actions|
  {
    if actions == [] then s else Keep(s, actions[0]); Run(Apply(s, actions[0]), actions[1..])
  }

  lemma InitialInv(s: State)
    requires Initial(s)
    ensures Inv(s)
  {
    DivModUnique(0, 2 * s.size, 0, 0);
  }

  /** No index granted for writing is that of an unread byte. */
  predicate Apart(s: State)
    requires s.size > 0
  {
    forall j, k :: Written(s) <= j < Written(s) + s.writeGrant && s.released <= k < Written(s) ==>
      Slot(s.size, j) != Slot(s.size, k)
  }

  lemma InvApart(s: State)
    requires Inv(s)
    ensures Apart(s)
  {
    hide Slot;
    forall j, k | Written(s) <= j < Written(s) + s.writeGrant && s.released <= k < Written(s)
      ensures Slot(s.size, j) != Slot(s.size, k)
    {
      GrantIsFree(s, j - Written(s), k);
    }
  }

  /** Whatever the interleaving of the two sides and their caches: every byte the consumer read is the
      byte committed at that position of the stream, the bytes given back are among those committed,
      the offsets give their number exactly, and no index granted for writing holds an unread byte. */
  lemma Safe(s: State, actions: seq<Action>)
    requires Initial(s)
    ensures Inv(s)
    ensures var r := Run(s, actions);
      && (forall o :: o in r.seen ==> o.pos < |r.sent| && o.b == r.sent[o.pos])
      && r.released <= |r.sent| <= r.released + r.size
      && Available(r.size, r.writeOffset, r.readOffset) == |r.sent| - r.released
      && r.size > 0 && Apart(r)
  {
    hide Slot, Available, Apply, Run, Stored, Clean, Flushed, Fresh, Initial, Apart;
    InitialInv(s);
    CountsShape(Run(s, actions));
    InvApart(Run(s, actions));
  }

  function AlignUp(x: nat, align: nat): nat
    requires align > 0
  {
    (x + align - 1) / align * align
  }

  lemma AlignUpCovers(x: nat, align: nat)
    requires align > 0
    ensures x <= AlignUp(x, align)
  {
    assert x + align - 1 == (x + align - 1) / align * align + (x + align - 1) % align;
  }

  /** With the size a queue is created with, at any time the consumer can get `minAvailable` bytes or
      the producer room for `minFree`. */
  lemma NeverStuck(s: State, minAvailable: nat, minFree: nat, align: nat)
    requires Inv(s) && align > 0
      && s.size == AlignUp(2 * (if minAvailable < minFree then minFree else minAvailable), align)
    ensures var avail := Available(s.size, s.writeOffset, s.readOffset);
      minAvailable <= avail || minFree <= s.size - avail
  {
    hide Available, AlignUp, Stored, Clean, Flushed, Fresh;
    CountsShape(s);
    AlignUpCovers(2 * (if minAvailable < minFree then minFree else minAvailable), align);
  }
}
