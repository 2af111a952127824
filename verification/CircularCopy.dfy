/**
 Copies between circular buffers. Pointers are indices from the start address of their buffer; each
 loop moves chunks that reach neither end. The reference copies byte by byte.
 */
module CircularCopy {
  import opened Arithmetic
  import opened Bytes

  function Min(a: nat, b: nat): nat { if a < b then a else b }

  /** The pointer after rollover at the end of a buffer of `size` bytes. */
  function Wrap(p: nat, size: nat): nat { if p >= size then p - size else p }

  /** The destination after `n` bytes from index `r` of the source went to index `w`, one at a time. */
  function Moved(src: seq<Byte>, r: nat, dst: seq<Byte>, w: nat, n: nat): (d: seq<Byte>)
    requires src != [] && dst != []
    ensures |d| == |dst|
  {
    if n == 0 then dst
    else Moved(src, r, dst, w, n - 1)[Slot(|dst|, w + n - 1) := src[Slot(|src|, r + n - 1)]]
  }

  /** Up to the size of the destination no byte is overwritten again: byte i of the source arrives at
      byte i of the destination, and nothing else changes. */
  lemma {:induction false} MovedBytes(src: seq<Byte>, r: nat, dst: seq<Byte>, w: nat, n: nat)
    requires src != [] && dst != [] && n <= |dst|
    ensures var d := Moved(src, r, dst, w, n);
      && (forall j :: w <= j < w + n ==> d[Slot(|dst|, j)] == src[Slot(|src|, r + j - w)])
      && (forall p :: 0 <= p < |dst| && (forall j :: w <= j < w + n ==> Slot(|dst|, j) != p) ==> d[p] == dst[p])
  {
    hide Slot;
    if n > 0 {
      MovedBytes(src, r, dst, w, n - 1);
      forall j | w <= j < w + n - 1
        ensures Slot(|dst|, j) != Slot(|dst|, w + n - 1)
      {
        SlotsDiffer(|dst|, j, w + n - 1);
      }
      var d, d1 := Moved(src, r, dst, w, n), Moved(src, r, dst, w, n - 1);
      forall p | 0 <= p < |dst| && (forall j :: w <= j < w + n ==> Slot(|dst|, j) != p) ensures d[p] == dst[p] {
        assert Slot(|dst|, w + n - 1) != p;
        assert d1[p] == dst[p];
      }
    }
  }

  // ---- chunks -----------------------------------------------------------------------------------

  /** A plain copy of `c` bytes. */
  function Blit(src: seq<Byte>, i: nat, dst: seq<Byte>, o: nat, c: nat): seq<Byte>
    requires i + c <= |src| && o + c <= |dst|
  {
    dst[..o] + src[i..i + c] + dst[o + c..]
  }

  lemma BlitSnoc(src: seq<Byte>, i: nat, dst: seq<Byte>, o: nat, c: nat)
    requires i + c < |src| && o + c < |dst|
    ensures Blit(src, i, dst, o, c + 1) == Blit(src, i, dst, o, c)[o + c := src[i + c]]
  {
  }

  /** Moving `c` more bytes is a plain copy while neither side reaches its end. */
  lemma {:induction false} MovedChunk(src: seq<Byte>, r: nat, dst: seq<Byte>, w: nat, n: nat, c: nat)
    requires src != [] && dst != []
    requires Slot(|src|, r + n) + c <= |src| && Slot(|dst|, w + n) + c <= |dst|
    ensures Moved(src, r, dst, w, n + c) ==
      Blit(src, Slot(|src|, r + n), Moved(src, r, dst, w, n), Slot(|dst|, w + n), c)
    decreases c
  {
    hide Slot, Blit;
    var i, o := Slot(|src|, r + n), Slot(|dst|, w + n);
    if c == 0 {
      BlitNothing(src, i, Moved(src, r, dst, w, n), o);
    } else {
      MovedChunk(src, r, dst, w, n, c - 1);
      SlotStep(|src|, r + n, c - 1);
      SlotStep(|dst|, w + n, c - 1);
      BlitSnoc(src, i, Moved(src, r, dst, w, n), o, c - 1);
      assert r + n + (c - 1) == r + (n + c) - 1 && w + n + (c - 1) == w + (n + c) - 1;
    }
  }

  lemma BlitNothing(src: seq<Byte>, i: nat, dst: seq<Byte>, o: nat)
    requires i <= |src| && o <= |dst|
    ensures Blit(src, i, dst, o, 0) == dst
  {
  }

  /** Where the pointer stands after a chunk that ends at the end of the buffer at the latest. */
  lemma WrapIsSlot(k: nat, c: nat, size: nat)
    requires 0 < size && Slot(size, k) + c <= size
    ensures Wrap(Slot(size, k) + c, size) == Slot(size, k + c)
  {
    SlotStep(size, k, c);
  }

  method MemCpy(dst: array<Byte>, o: nat, src: array<Byte>, i: nat, c: nat)
    requires src != dst && i + c <= src.Length && o + c <= dst.Length
    modifies dst
    ensures dst[..] == Blit(src[..], i, old(dst[..]), o, c)
  {
    forall k | 0 <= k < c { dst[o + k] := src[i + k]; }
  }

  // ---- the generic loop ---------------------------------------------------------------------------

  /** One chunk done: `n` bytes before it. */
  lemma ChunkDone(src: seq<Byte>, r: nat, dst: seq<Byte>, w: nat, n: nat, c: nat)
    requires src != [] && dst != []
    requires Slot(|src|, r + n) + c <= |src| && Slot(|dst|, w + n) + c <= |dst|
    ensures Moved(src, r, dst, w, n + c) ==
      Blit(src, Slot(|src|, r + n), Moved(src, r, dst, w, n), Slot(|dst|, w + n), c)
    ensures Wrap(Slot(|src|, r + n) + c, |src|) == Slot(|src|, r + (n + c))
    ensures Wrap(Slot(|dst|, w + n) + c, |dst|) == Slot(|dst|, w + (n + c))
  {
    hide Slot, Blit, Moved;
    MovedChunk(src, r, dst, w, n, c);
    WrapIsSlot(r + n, c, |src|);
    WrapIsSlot(w + n, c, |dst|);
    assert r + n + c == r + (n + c) && w + n + c == w + (n + c);
  }

  method CirBufCopy(src: array<Byte>, r: nat, dst: array<Byte>, w: nat, size: nat)
    requires src != dst && r < src.Length && w < dst.Length
    modifies dst
    ensures dst[..] == Moved(src[..], r, old(dst[..]), w, size)
  {
    hide Slot, Blit;
    var bytes: nat, i: nat, o: nat := size, r, w;
    ghost var n: nat, s, d := 0, src[..], dst[..];
    SlotOfIndex(src.Length, r);
    SlotOfIndex(dst.Length, w);
    while bytes > 0
      invariant n + bytes == size && i == Slot(src.Length, r + n) && o == Slot(dst.Length, w + n)
      invariant dst[..] == Moved(s, r, d, w, n)
      decreases bytes
    {
      var copied := Min(bytes, Min(src.Length - i, dst.Length - o));
      ChunkDone(s, r, d, w, n, copied);
      MemCpy(dst, o, src, i, copied);
      bytes := bytes - copied;
      i, o := Wrap(i + copied, src.Length), Wrap(o + copied, dst.Length);
      n := n + copied;
    }
  }

  method StreamCopy(src: array<Byte>, rptr: nat, ioffset: nat, dst: array<Byte>, wptr: nat, ooffset: nat,
                    samples: nat, ssize: nat)
    returns (ret: nat)
    requires src != dst && rptr + ioffset * ssize < 2 * src.Length && wptr + ooffset * ssize < 2 * dst.Length
    modifies dst
    ensures dst[..] == Moved(src[..], rptr + ioffset * ssize, old(dst[..]), wptr + ooffset * ssize, samples * ssize)
    ensures ret == samples
  {
    var i, o := Wrap(rptr + ioffset * ssize, src.Length), Wrap(wptr + ooffset * ssize, dst.Length);
    MovedFromWrap(src[..], rptr + ioffset * ssize, dst[..], wptr + ooffset * ssize, samples * ssize);
    CirBufCopy(src, i, dst, o, samples * ssize);
    ret := samples;
  }

  /** Starting beyond the end is starting after rollover. */
  lemma {:induction false} MovedFromWrap(src: seq<Byte>, r: nat, dst: seq<Byte>, w: nat, n: nat)
    requires src != [] && dst != [] && r < 2 * |src| && w < 2 * |dst|
    ensures Moved(src, Wrap(r, |src|), dst, Wrap(w, |dst|), n) == Moved(src, r, dst, w, n)
  {
    hide Slot;
    if n > 0 {
      MovedFromWrap(src, r, dst, w, n - 1);
      SlotFromWrap(|src|, r, n - 1);
      SlotFromWrap(|dst|, w, n - 1);
    }
  }

  lemma SlotFromWrap(size: nat, k: nat, n: nat)
    requires 0 < size && k < 2 * size
    ensures Slot(size, Wrap(k, size) + n) == Slot(size, k + n)
  {
    if k >= size {
      ModStep(k - size + n, size, size);
      assert k - size + n + size == k + n;
    }
  }

  // ---- copies by blocks of 16-bit units --------------------------------------------------------------

  predicate Even(x: nat) { x % 2 == 0 }

  lemma EvenSums(a: nat, b: nat)
    requires Even(a) && Even(b)
    ensures Even(a + b) && (b <= a ==> Even(a - b)) && a / 2 * 2 == a && Even(Min(a, b))
  {
  }

  lemma EvenDouble(a: nat)
    ensures Even(2 * a)
  {
  }

  lemma EvenWrap(p: nat, size: nat)
    requires Even(p) && Even(size)
    ensures Even(Wrap(p, size))
  {
    EvenSums(p, size);
  }

  /** As many blocks of `width` bytes as fit. */
  method CopyBlocks(width: nat, dst: array<Byte>, o: nat, src: array<Byte>, i: nat, total: nat) returns (done: nat)
    requires width > 0 && Even(width) && src != dst && i + total <= src.Length && o + total <= dst.Length
    modifies dst
    ensures total < done + width && done <= total && Even(done)
    ensures dst[..] == Blit(src[..], i, old(dst[..]), o, done)
  {
    hide Blit, Even;
    ghost var s, d := src[..], dst[..];
    done := 0;
    BlitNothing(s, i, d, o);
    EvenDouble(0);
    while total - done >= width
      invariant done <= total && Even(done) && src[..] == s
      invariant dst[..] == Blit(s, i, d, o, done)
      decreases total - done
    {
      BlitMore(s, i, d, o, done, width);
      MemCpy(dst, o + done, src, i + done, width);
      EvenSums(done, width);
      done := done + width;
    }
  }

  /** `shorts` units of two bytes, `lanes` at a time and then one by one. */
  method CopyShorts(lanes: nat, dst: array<Byte>, o: nat, src: array<Byte>, i: nat, shorts: nat)
    requires lanes > 0 && src != dst && i + 2 * shorts <= src.Length && o + 2 * shorts <= dst.Length
    modifies dst
    ensures dst[..] == Blit(src[..], i, old(dst[..]), o, 2 * shorts)
  {
    hide Blit;
    ghost var s, d := src[..], dst[..];
    var done := CopyBlocks(2 * lanes, dst, o, src, i, 2 * shorts);
    var rest := CopyBlocks(2, dst, o + done, src, i + done, 2 * shorts - done);
    BlitMore(s, i, d, o, done, rest);
  }

  lemma BlitMore(src: seq<Byte>, i: nat, dst: seq<Byte>, o: nat, c: nat, e: nat)
    requires i + c + e <= |src| && o + c + e <= |dst|
    ensures |Blit(src, i, dst, o, c)| == |dst|
    ensures Blit(src, i + c, Blit(src, i, dst, o, c), o + c, e) == Blit(src, i, dst, o, c + e)
  {
  }

  /** How many bytes the block loop carries over, from pointers `i` and `o`: whole chunks up to the
      first of odd size, which loses its last byte and everything after it. */
  function Carried(m: nat, i: nat, k: nat, o: nat, bytes: nat): nat
    requires i < m && o < k
    decreases bytes
  {
    if bytes == 0 then 0
    else
      var c := Min(bytes, Min(m - i, k - o));
      if !Even(c) then c - 1 else c + Carried(m, Wrap(i + c, m), k, Wrap(o + c, k), bytes - c)
  }

  /** Every chunk has an even size. */
  predicate EvenChunks(m: nat, i: nat, k: nat, o: nat, bytes: nat)
    requires i < m && o < k
    decreases bytes
  {
    bytes == 0 ||
    var c := Min(bytes, Min(m - i, k - o));
    Even(c) && EvenChunks(m, Wrap(i + c, m), k, Wrap(o + c, k), bytes - c)
  }

  lemma {:induction false} CarriedAll(m: nat, i: nat, k: nat, o: nat, bytes: nat)
    requires i < m && o < k
    ensures Carried(m, i, k, o, bytes) <= bytes
    ensures Carried(m, i, k, o, bytes) == bytes <==> EvenChunks(m, i, k, o, bytes)
    decreases bytes
  {
    hide Even;
    if bytes > 0 {
      var c := Min(bytes, Min(m - i, k - o));
      CarriedAll(m, Wrap(i + c, m), k, Wrap(o + c, k), bytes - c);
    }
  }

  lemma WrapInside(i: nat, c: nat, m: nat)
    requires i < m && i + c <= m
    ensures Wrap(i + c, m) < m
  {
  }

  lemma {:induction false} AlignedIsEven(m: nat, i: nat, k: nat, o: nat, bytes: nat)
    requires i < m && o < k && Even(m) && Even(i) && Even(k) && Even(o) && Even(bytes)
    ensures EvenChunks(m, i, k, o, bytes)
    decreases bytes
  {
    hide Even, Wrap;
    if bytes > 0 {
      var c := Min(bytes, Min(m - i, k - o));
      EvenSums(m, i);
      EvenSums(k, o);
      EvenSums(m - i, k - o);
      EvenSums(bytes, Min(m - i, k - o));
      EvenSums(bytes, c);
      EvenSums(i, c);
      EvenSums(o, c);
      EvenWrap(i + c, m);
      EvenWrap(o + c, k);
      WrapInside(i, c, m);
      WrapInside(o, c, k);
      AlignedIsEven(m, Wrap(i + c, m), k, Wrap(o + c, k), bytes - c);
    }
  }

  /** The vector variants; `lanes` is 4 or 8. */
  method CirBufCopyBlocks(lanes: nat, src: array<Byte>, r: nat, dst: array<Byte>, w: nat, size: nat)
    requires lanes > 0 && src != dst && r < src.Length && w < dst.Length
    modifies dst
    ensures dst[..] == Moved(src[..], r, old(dst[..]), w, Carried(src.Length, r, dst.Length, w, size))
  {
    hide Slot, Blit, Moved, Carried;
    var bytes: nat, i: nat, o: nat := size, r, w;
    ghost var n: nat, s, d := 0, src[..], dst[..];
    NothingMoved(s, r, d, w);
    while bytes > 0
      invariant bytes <= size && i == Slot(src.Length, r + n) && o == Slot(dst.Length, w + n)
      invariant dst[..] == Moved(s, r, d, w, n)
      invariant Carried(src.Length, r, dst.Length, w, size) == n + Carried(src.Length, i, dst.Length, o, bytes)
      decreases bytes
    {
      var copied := Min(bytes, Min(src.Length - i, dst.Length - o));
      var shorts := copied / 2;
      ChunkDone(s, r, d, w, n, 2 * shorts);
      CopyShorts(lanes, dst, o, src, i, shorts);
      CarriedStep(src.Length, i, dst.Length, o, bytes);
      bytes := bytes - copied;
      i, o := Wrap(i + 2 * shorts, src.Length), Wrap(o + 2 * shorts, dst.Length);
      n := n + 2 * shorts;
    }
    CarriedNothing(src.Length, i, dst.Length, o);
  }

  lemma CarriedNothing(m: nat, i: nat, k: nat, o: nat)
    requires i < m && o < k
    ensures Carried(m, i, k, o, 0) == 0
  {
  }

  lemma NothingMoved(src: seq<Byte>, r: nat, dst: seq<Byte>, w: nat)
    requires r < |src| && w < |dst|
    ensures Moved(src, r, dst, w, 0) == dst && Slot(|src|, r) == r && Slot(|dst|, w) == w
  {
    hide Slot;
    SlotOfIndex(|src|, r);
    SlotOfIndex(|dst|, w);
  }

  lemma CarriedStep(m: nat, i: nat, k: nat, o: nat, bytes: nat)
    requires i < m && o < k && bytes > 0
    ensures var c := Min(bytes, Min(m - i, k - o));
      Carried(m, i, k, o, bytes) == c / 2 * 2 + Carried(m, Wrap(i + c / 2 * 2, m), k, Wrap(o + c / 2 * 2, k), bytes - c)
  {
    var c := Min(bytes, Min(m - i, k - o));
    if !Even(c) {
      assert c / 2 * 2 == c - 1;
      assert Wrap(i + c - 1, m) == i + c - 1 && Wrap(o + c - 1, k) == o + c - 1;
    } else {
      assert c / 2 * 2 == c;
    }
  }

  /** With everything aligned to 16 bits the block loop moves what the generic loop moves. */
  lemma BlocksRefine(src: seq<Byte>, r: nat, dst: seq<Byte>, w: nat, size: nat)
    requires r < |src| && w < |dst| && Even(|src|) && Even(r) && Even(|dst|) && Even(w) && Even(size)
    ensures Moved(src, r, dst, w, Carried(|src|, r, |dst|, w, size)) == Moved(src, r, dst, w, size)
  {
    hide Even, Moved, Carried, EvenChunks;
    AlignedIsEven(|src|, r, |dst|, w, size);
    CarriedAll(|src|, r, |dst|, w, size);
  }

  /** An odd number of bytes loses the last one. */
  lemma BlocksLoseOddByte(src: seq<Byte>, dst: seq<Byte>)
    requires |src| > 0 && |dst| > 0 && src[0] != dst[0]
    ensures Moved(src, 0, dst, 0, Carried(|src|, 0, |dst|, 0, 1)) == dst != Moved(src, 0, dst, 0, 1)
  {
    hide Slot;
    assert Moved(src, 0, dst, 0, 0) == dst;
    SlotOfIndex(|src|, 0);
    SlotOfIndex(|dst|, 0);
    assert Moved(src, 0, dst, 0, 1)[0] == src[0];
  }

  // ---- the block copy between streams --------------------------------------------------------------

  /** The pointers and the units left between two rounds of the loop. */
  datatype Left = Left(i: nat, o: nat, shorts: nat)

  /** The units of one round, with the pointers rolled over. */
  function Units(m: nat, k: nat, l: Left): nat
    requires l.i < m && l.o < k
  {
    Min(l.shorts, Min((m - l.i) / 2, (k - l.o) / 2))
  }

  function Rolled(m: nat, k: nat, l: Left): Left { Left(Wrap(l.i, m), Wrap(l.o, k), l.shorts) }

  predicate Inside(m: nat, k: nat, l: Left) { l.i < 2 * m && l.o < 2 * k }

  function Round(m: nat, k: nat, l: Left): (r: Left)
    requires Inside(m, k, l)
    ensures Inside(m, k, r)
  {
    var w := Rolled(m, k, l);
    var c := Units(m, k, w);
    Left(w.i + 2 * c, w.o + 2 * c, w.shorts - c)
  }

  /** After `t` rounds, of which there are none with no units left. */
  function AfterRounds(m: nat, k: nat, l: Left, t: nat): Left
    requires Inside(m, k, l)
    decreases t
  {
    if t == 0 || l.shorts == 0 then l else AfterRounds(m, k, Round(m, k, l), t - 1)
  }

  ghost predicate Ends(m: nat, k: nat, l: Left)
    requires Inside(m, k, l)
  {
    exists t: nat :: AfterRounds(m, k, l, t).shorts == 0
  }

  /** Going by two bytes from index `p`, an end of the buffer comes up with one byte to go only after
      the last unit. */
  predicate Fits(size: nat, p: nat, shorts: nat)
    requires p < size
  {
    if !Even(size - p) then 2 * shorts < size - p else Even(size) || 2 * shorts < 2 * size - p
  }

  predicate FitsBoth(m: nat, k: nat, l: Left)
    requires Inside(m, k, l)
  {
    Fits(m, Wrap(l.i, m), l.shorts) && Fits(k, Wrap(l.o, k), l.shorts)
  }

  lemma FitsRound(size: nat, p: nat, shorts: nat, c: nat)
    requires p < size && c <= shorts && p + 2 * c <= size
    ensures Wrap(p + 2 * c, size) < size && (Fits(size, p, shorts) <==> Fits(size, Wrap(p + 2 * c, size), shorts - c))
  {
  }

  /** With one byte to an end a round does nothing, and so does every round after it. */
  lemma StuckRound(m: nat, k: nat, l: Left)
    requires l.i < m && l.o < k && l.shorts > 0
    ensures Units(m, k, l) == 0 <==> m - l.i == 1 || k - l.o == 1
    ensures Units(m, k, l) == 0 <==> Round(m, k, l) == l
    ensures Units(m, k, l) == 0 ==> !FitsBoth(m, k, l)
  {
  }

  lemma {:induction false} StuckStays(m: nat, k: nat, l: Left, t: nat)
    requires l.i < m && l.o < k && l.shorts > 0 && Units(m, k, l) == 0
    ensures AfterRounds(m, k, l, t) == l
    decreases t
  {
    hide Units, Round;
    StuckRound(m, k, l);
    if t > 0 { StuckStays(m, k, l, t - 1); }
  }

  lemma RoundFits(m: nat, k: nat, l: Left)
    requires Inside(m, k, l)
    ensures FitsBoth(m, k, Round(m, k, l)) <==> FitsBoth(m, k, l)
  {
    hide Fits;
    var w := Rolled(m, k, l);
    FitsRound(m, w.i, l.shorts, Units(m, k, w));
    FitsRound(k, w.o, l.shorts, Units(m, k, w));
  }

  lemma {:induction false} FitsEnds(m: nat, k: nat, l: Left)
    requires Inside(m, k, l) && FitsBoth(m, k, l)
    ensures Ends(m, k, l)
    decreases l.shorts
  {
    hide FitsBoth;
    if l.shorts == 0 {
      assert AfterRounds(m, k, l, 0).shorts == 0;
    } else {
      var r := Round(m, k, l);
      RoundFits(m, k, l);
      RolledFits(m, k, l);
      StuckRound(m, k, Rolled(m, k, l));
      FitsEnds(m, k, r);
      var t: nat :| AfterRounds(m, k, r, t).shorts == 0;
      assert AfterRounds(m, k, l, t + 1).shorts == 0;
    }
  }

  lemma RolledFits(m: nat, k: nat, l: Left)
    requires Inside(m, k, l)
    ensures Rolled(m, k, l).i < m && Rolled(m, k, l).o < k && Round(m, k, Rolled(m, k, l)) == Round(m, k, l)
    ensures FitsBoth(m, k, Rolled(m, k, l)) == FitsBoth(m, k, l)
  {
  }

  lemma {:induction false} EndFits(m: nat, k: nat, l: Left, t: nat)
    requires Inside(m, k, l) && AfterRounds(m, k, l, t).shorts == 0
    ensures FitsBoth(m, k, l)
    decreases t
  {
    if l.shorts > 0 {
      hide FitsBoth, Round;
      RoundFits(m, k, l);
      EndFits(m, k, Round(m, k, l), t - 1);
    }
  }

  /** Exactly when the loop ends: on neither side does an end come up with one byte to go while units
      are left. Both conditions are on the sizes and pointers of the call. */
  lemma EndsExactly(m: nat, k: nat, l: Left)
    requires Inside(m, k, l)
    ensures Ends(m, k, l) <==> FitsBoth(m, k, l)
  {
    hide FitsBoth, AfterRounds;
    if FitsBoth(m, k, l) { FitsEnds(m, k, l); }
    if Ends(m, k, l) {
      var t: nat :| AfterRounds(m, k, l, t).shorts == 0;
      EndFits(m, k, l, t);
    }
  }

  /** Two units out of a buffer of three bytes: after the first unit nothing moves any more. */
  lemma OddBufferNeverEnds(k: nat, t: nat)
    requires k >= 4
    ensures !Ends(3, k, Left(0, 0, 2)) && AfterRounds(3, k, Left(0, 0, 2), t + 1) == Left(2, 2, 1)
  {
    EndsExactly(3, k, Left(0, 0, 2));
    assert Round(3, k, Left(0, 0, 2)) == Left(2, 2, 1);
    StuckStays(3, k, Left(2, 2, 1), t);
  }

  lemma AlignedFits(m: nat, k: nat, l: Left)
    requires Inside(m, k, l) && Even(m) && Even(k) && Even(l.i) && Even(l.o)
    ensures FitsBoth(m, k, l)
  {
    hide Even;
    EvenWrap(l.i, m);
    EvenWrap(l.o, k);
    EvenSums(m, Wrap(l.i, m));
    EvenSums(k, Wrap(l.o, k));
  }

  /** One round of the method below. */
  lemma RoundMoves(m: nat, k: nat, l: Left)
    requires Inside(m, k, l) && FitsBoth(m, k, l) && l.shorts > 0
    ensures var w := Rolled(m, k, l); var c := Units(m, k, w);
      && w.i < m && w.o < k && 0 < c <= l.shorts && w.i + 2 * c <= m && w.o + 2 * c <= k
      && Inside(m, k, Round(m, k, l)) && FitsBoth(m, k, Round(m, k, l))
  {
    hide FitsBoth;
    RolledFits(m, k, l);
    RoundFits(m, k, l);
    StuckRound(m, k, Rolled(m, k, l));
  }

  /** The vector variants between streams, whenever they end: all whole units are moved. */
  method StreamBlocks(lanes: nat, src: array<Byte>, r: nat, dst: array<Byte>, w: nat, size: nat)
    requires lanes > 0 && src != dst && r < 2 * src.Length && w < 2 * dst.Length
    requires Ends(src.Length, dst.Length, Left(r, w, size / 2))
    modifies dst
    ensures dst[..] == Moved(src[..], r, old(dst[..]), w, 2 * (size / 2))
  {
    hide Slot, Blit, Moved, Min, Wrap, FitsBoth, Ends, Units;
    var i: nat, o: nat, shorts: nat := r, w, size / 2;
    var m, k := src.Length, dst.Length;
    ghost var n: nat, s, d := 0, src[..], dst[..];
    EndsExactly(m, k, Left(r, w, shorts));
    StartOfStream(s, r, d, w);
    while shorts > 0
      invariant n + 2 * shorts == 2 * (size / 2) && Inside(m, k, Left(i, o, shorts))
        && FitsBoth(m, k, Left(i, o, shorts))
      invariant Wrap(i, m) == Slot(m, r + n) && Wrap(o, k) == Slot(k, w + n)
      invariant dst[..] == Moved(s, r, d, w, n)
      decreases shorts
    {
      RoundMoves(m, k, Left(i, o, shorts));
      i, o := Wrap(i, m), Wrap(o, k);
      var copied := Units(m, k, Left(i, o, shorts));
      ChunkDone(s, r, d, w, n, 2 * copied);
      CopyShorts(lanes, dst, o, src, i, copied);
      i, o, shorts := i + 2 * copied, o + 2 * copied, shorts - copied;
      n := n + 2 * copied;
    }
  }

  method StreamCopyBlocks(lanes: nat, src: array<Byte>, rptr: nat, ioffset: nat, dst: array<Byte>, wptr: nat,
                          ooffset: nat, samples: nat, ssize: nat)
    returns (ret: nat)
    requires lanes > 0 && src != dst && rptr + ioffset * ssize < 2 * src.Length
      && wptr + ooffset * ssize < 2 * dst.Length
    requires Ends(src.Length, dst.Length, Left(rptr + ioffset * ssize, wptr + ooffset * ssize, samples * ssize / 2))
    modifies dst
    ensures dst[..] ==
      Moved(src[..], rptr + ioffset * ssize, old(dst[..]), wptr + ooffset * ssize, 2 * (samples * ssize / 2))
    ensures ret == samples
  {
    StreamBlocks(lanes, src, rptr + ioffset * ssize, dst, wptr + ooffset * ssize, samples * ssize);
    ret := samples;
  }

  lemma StartOfStream(src: seq<Byte>, r: nat, dst: seq<Byte>, w: nat)
    requires src != [] && dst != [] && r < 2 * |src| && w < 2 * |dst|
    ensures Moved(src, r, dst, w, 0) == dst && Slot(|src|, r) == Wrap(r, |src|) && Slot(|dst|, w) == Wrap(w, |dst|)
  {
    hide Slot;
    SlotFromWrap(|src|, r, 0);
    SlotFromWrap(|dst|, w, 0);
    SlotOfIndex(|src|, Wrap(r, |src|));
    SlotOfIndex(|dst|, Wrap(w, |dst|));
  }
}
