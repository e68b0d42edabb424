/**
 The SHA-2 code of sys/crypto/sha2.c (the rolled version): the hash over a message that arrives in
 pieces, with the message schedule computed in a sixteen-word window that lies in the context's
 own buffer, where the block being hashed often lies as well.
 */
module Sha2 {
  import opened Bytes
  import opened Slices
  import opened Sha2Spec

  const MOD64 := 0x1_0000_0000_0000_0000

  // ----- sixteen words laid out in bytes

  function Chunk(s: seq<byte>, size: nat, i: nat): seq<byte>
    requires (size == 4 || size == 8) && i < 16 && |s| == 16 * size
  {
    Apart(size, i, 16);
    s[size * i..size * (i + 1)]
  }

  lemma Apart(size: nat, i: nat, k: nat)
    requires (size == 4 || size == 8) && i < k
    ensures 0 <= size * i <= size * (i + 1) == size * i + size <= size * k
  {
    if size == 4 {
      assert 4 * i + 4 <= 4 * k;
    } else {
      assert 8 * i + 8 <= 8 * k;
    }
  }

  lemma WordAt(s: seq<byte>, size: nat, i: nat)
    requires (size == 4 || size == 8) && i < 16 && |s| == 16 * size
    ensures 0 <= size * i <= size * (i + 1) <= 16 * size && Chunk(s, size, i) == s[size * i..size * (i + 1)]
  {
    Apart(size, i, 16);
  }

  lemma ChunkStored(s: seq<byte>, size: nat, i: nat, w: seq<byte>, k: nat)
    requires (size == 4 || size == 8) && i < 16 && k < 16 && |s| == 16 * size && |w| == size
    requires size * i + size <= 16 * size
    ensures Chunk(Splice(s, size * i, w), size, k) == if k == i then w else Chunk(s, size, k)
  {
    hide Splice;
    Apart(size, i, 16);
    Apart(size, k, 16);
    if k < i {
      Apart(size, k, i);
      SpliceKeeps(s, size * i, w, size * k, size * (k + 1));
    } else if i < k {
      Apart(size, i, k);
      SpliceKeeps(s, size * i, w, size * k, size * (k + 1));
    } else {
      SpliceHas(s, size * i, w);
    }
  }

  method Store(a: array<byte>, at: nat, w: seq<byte>)
    requires at + |w| <= a.Length
    modifies a
    ensures a[..] == Splice(old(a[..]), at, w)
  {
    forall k | 0 <= k < |w| { a[at + k] := w[k]; }
  }

  /** The words of a window are those of the schedule from `first` up to `n`. */
  ghost predicate HoldsIn<W>(F: Family<W>, s: seq<byte>, block: seq<byte>, first: nat, n: nat)
    requires (F.size == 4 || F.size == 8) && |s| == |block| == BlockSize(F)
  {
    forall t {:trigger Schedule(F, block, t)} ::
      first <= t < n ==> F.peek(Chunk(s, F.size, t % 16)) == Schedule(F, block, t)
  }

  lemma HoldsAt<W>(F: Family<W>, s: seq<byte>, block: seq<byte>, first: nat, n: nat, t: nat)
    requires (F.size == 4 || F.size == 8) && |s| == |block| == BlockSize(F)
    requires HoldsIn(F, s, block, first, n) && first <= t < n
    ensures F.peek(Chunk(s, F.size, t % 16)) == Schedule(F, block, t)
  {
  }

  lemma HoldsLess<W>(F: Family<W>, s: seq<byte>, block: seq<byte>, first: nat, n: nat)
    requires (F.size == 4 || F.size == 8) && |s| == |block| == BlockSize(F) && HoldsIn(F, s, block, first, n)
    ensures HoldsIn(F, s, block, first + 1, n)
  {
  }

  /** One more word, in the slot that is not in use. */
  lemma HoldsPut<W>(F: Family<W>, s: seq<byte>, s': seq<byte>, block: seq<byte>, first: nat, j: nat)
    requires (F.size == 4 || F.size == 8) && |s| == |s'| == |block| == BlockSize(F) && first <= j < first + 16
    requires HoldsIn(F, s, block, first, j)
    requires F.peek(Chunk(s', F.size, j % 16)) == Schedule(F, block, j)
    requires forall k :: 0 <= k < 16 && k != j % 16 ==> Chunk(s', F.size, k) == Chunk(s, F.size, k)
    ensures HoldsIn(F, s', block, first, j + 1)
  {
    hide Chunk, Schedule;
    forall t | first <= t < j + 1
      ensures F.peek(Chunk(s', F.size, t % 16)) == Schedule(F, block, t)
    {
      if t < j {
        OtherSlot(j, t);
        assert Schedule(F, block, t) == F.peek(Chunk(s, F.size, t % 16));
      }
    }
  }

  /** The words still to be read, from `j` on, are where they were. */
  ghost predicate PendingIn<W>(F: Family<W>, now: seq<byte>, block: seq<byte>, j: nat)
    requires (F.size == 4 || F.size == 8) && |now| == |block| == BlockSize(F)
  {
    forall k {:trigger Chunk(now, F.size, k)} :: j <= k < 16 ==> Chunk(now, F.size, k) == Chunk(block, F.size, k)
  }

  lemma PendingWord<W>(F: Family<W>, now: seq<byte>, block: seq<byte>, j: nat)
    requires (F.size == 4 || F.size == 8) && |now| == |block| == BlockSize(F) && j < 16 && PendingIn(F, now, block, j)
    ensures F.load(Chunk(now, F.size, j)) == Schedule(F, block, j)
  {
    hide Chunk;
    assert Chunk(now, F.size, j) == Chunk(block, F.size, j);
    WordAt(block, F.size, j);
  }

  lemma PendingPut<W>(F: Family<W>, now: seq<byte>, now': seq<byte>, block: seq<byte>, j: nat)
    requires (F.size == 4 || F.size == 8) && |now| == |now'| == |block| == BlockSize(F) && PendingIn(F, now, block, j)
    requires forall k :: 0 <= k < 16 && k != j ==> Chunk(now', F.size, k) == Chunk(now, F.size, k)
    ensures PendingIn(F, now', block, j + 1)
  {
    hide Chunk;
    forall k | j + 1 <= k < 16 ensures Chunk(now', F.size, k) == Chunk(block, F.size, k) {
      assert Chunk(now, F.size, k) == Chunk(block, F.size, k);
    }
  }

  class Context<W(!new)> {
    const family: Family<W>
    const buffer: array<byte>
    var state: seq<W>
    var lo: nat
    var hi: nat
    /** Everything hashed so far. */
    ghost var absorbed: seq<byte>

    ghost predicate Shaped()
      reads this`state
    {
      && Lawful(family)
      && buffer.Length >= BlockSize(family)
      && |state| == 8
    }

    /** SHA256Init, SHA512Init. */
    constructor (F: Family<W>)
      requires Lawful(F) && BlockSize(F) <= 128
      ensures family == F && Valid() && absorbed == [] && fresh(buffer)
    {
      family := F;
      buffer := new byte[128](_ => 0);
      state := F.initial;
      lo, hi := 0, 0;
      absorbed := [];
      new;
      hide Chain, Compress;
      ChainNothing(F);
    }

    ghost function Window(): (s: seq<byte>)
      requires buffer.Length >= BlockSize(family)
      reads buffer
      ensures |s| == BlockSize(family)
    {
      buffer[..BlockSize(family)]
    }

    ghost predicate Holds(block: seq<byte>, first: nat, n: nat)
      requires Shaped() && |block| == BlockSize(family)
      reads this`state, buffer
    {
      HoldsIn(family, Window(), block, first, n)
    }

    lemma WindowNow()
      requires buffer.Length >= BlockSize(family)
      ensures Window() == buffer[..][0..BlockSize(family)]
    {
    }

    /** Store a word in the window. */
    method Put(i: nat, w: W)
      requires Shaped() && i < 16
      modifies buffer
      ensures family.peek(Chunk(Window(), family.size, i)) == w
      ensures forall k :: 0 <= k < 16 && k != i ==>
        Chunk(Window(), family.size, k) == old(Chunk(Window(), family.size, k))
    {
      hide Splice, Chunk;
      ghost var s, b := Window(), buffer[..];
      Apart(family.size, i, 16);
      Store(buffer, family.size * i, family.poke(w));
      assert s == b[0..BlockSize(family)];
      SpliceInside(b, family.size * i, family.poke(w), 0, BlockSize(family));
      WindowNow();
      forall k | 0 <= k < 16
        ensures Chunk(Window(), family.size, k) == if k == i then family.poke(w) else Chunk(s, family.size, k)
      {
        ChunkStored(s, family.size, i, family.poke(w), k);
      }
    }

    /** One word of the window, read back. */
    method Get(i: nat) returns (w: W)
      requires Shaped() && i < 16
      ensures w == family.peek(Chunk(Window(), family.size, i))
    {
      WordAt(Window(), family.size, i);
      w := family.peek(buffer[family.size * i..family.size * (i + 1)]);
      assert buffer[family.size * i..family.size * (i + 1)] == Window()[family.size * i..family.size * (i + 1)];
    }

    /** The words of the block that are still to be read, from `j` on, are where they were. */
    ghost predicate Pending(data: array<byte>, at: nat, block: seq<byte>, j: nat)
      requires (family.size == 4 || family.size == 8) && at + BlockSize(family) <= data.Length &&
               |block| == BlockSize(family)
      reads data
    {
      PendingIn(family, data[at..at + BlockSize(family)], block, j)
    }

    /** Word `j` of the block goes into the window, from wherever the block lies. */
    method Take(data: array<byte>, at: nat, ghost block: seq<byte>, j: nat) returns (w: W)
      requires Shaped() && at + BlockSize(family) <= data.Length && |block| == BlockSize(family) && j < 16
      requires data == buffer ==> at == 0
      requires Holds(block, 0, j) && Pending(data, at, block, j)
      modifies buffer
      ensures Holds(block, 0, j + 1) && Pending(data, at, block, j + 1) && w == Schedule(family, block, j)
    {
      hide HoldsIn, PendingIn, Chunk, Schedule;
      ghost var s, now := Window(), data[at..at + BlockSize(family)];
      PendingWord(family, now, block, j);
      WordAt(now, family.size, j);
      ArraySub(data, at, at + BlockSize(family), family.size * j, family.size * (j + 1));
      w := family.load(data[at + family.size * j..at + family.size * (j + 1)]);
      Put(j, w);
      HoldsPut(family, s, Window(), block, 0, j);
      if data == buffer {
        assert now == s;
        assert data[at..at + BlockSize(family)] == Window();
      } else {
        assert data[at..at + BlockSize(family)] == now;
      }
      PendingPut(family, now, data[at..at + BlockSize(family)], block, j);
    }

    /** The body of a round: two sums, and the eight registers moved up. */
    method Turn(r: Regs<W>, j: nat, w: W) returns (q: Regs<W>)
      ensures q == Round(family, r, family.k(j), w)
    {
      var a, b, c, d := r.a, r.b, r.c, r.d;
      var e, f, g, h := r.e, r.f, r.g, r.h;
      var t1 := family.add(family.add(family.add(family.add(h, family.sum1(e)), family.ch(e, f, g)), family.k(j)), w);
      var t2 := family.add(family.sum0(a), family.maj(a, b, c));
      h := g;
      g := f;
      f := e;
      e := family.add(d, t1);
      d := c;
      c := b;
      b := a;
      a := family.add(t1, t2);
      q := Regs(a, b, c, d, e, f, g, h);
    }

    /** Rounds 0 to 15. */
    method Load(data: array<byte>, at: nat, r0: Regs<W>) returns (r: Regs<W>)
      requires Shaped() && at + BlockSize(family) <= data.Length
      requires data == buffer ==> at == 0
      modifies buffer
      ensures Holds(old(data[at..at + BlockSize(family)]), 0, 16)
      ensures r == Rounds(family, old(data[at..at + BlockSize(family)]), r0, 16)
    {
      hide Round, Schedule, Chunk;
      ghost var block := data[at..at + BlockSize(family)];
      var j: nat := 0;
      r := r0;
      while j < 16
        invariant j <= 16 && Holds(block, 0, j) && Pending(data, at, block, j)
        invariant r == Rounds(family, block, r0, j)
      {
        var w := Take(data, at, block, j);
        r := Turn(r, j, w);
        j := j + 1;
      }
    }

    /** One later round: the window slides by one word. */
    method Slide(ghost block: seq<byte>, j: nat) returns (w: W)
      requires Shaped() && |block| == BlockSize(family) && 16 <= j && Holds(block, j - 16, j)
      modifies buffer
      ensures Holds(block, j - 15, j + 1) && w == Schedule(family, block, j)
    {
      hide HoldsIn, Chunk;
      ghost var s := Window();
      Slots(j);
      HoldsAt(family, s, block, j - 16, j, j - 15);
      HoldsAt(family, s, block, j - 16, j, j - 2);
      HoldsAt(family, s, block, j - 16, j, j - 7);
      HoldsAt(family, s, block, j - 16, j, j - 16);
      var s0 := Get((j + 1) % 16);
      var s1 := Get((j + 14) % 16);
      var w9 := Get((j + 9) % 16);
      var w0 := Get(j % 16);
      w := family.add(w0, family.add(family.add(family.sigma1(s1), w9), family.sigma0(s0)));
      assert w == Schedule(family, block, j);
      Put(j % 16, w);
      HoldsLess(family, s, block, j - 16, j);
      HoldsPut(family, s, Window(), block, j - 15, j);
    }

    /** SHA256Transform and SHA512Transform, on a block that may be the window itself. */
    method Transform(data: array<byte>, at: nat)
      requires Shaped() && at + BlockSize(family) <= data.Length
      requires data == buffer ==> at == 0
      modifies this`state, buffer
      ensures Shaped() && state == Compress(family, old(state), old(data[at..at + BlockSize(family)]))
    {
      hide Round, Schedule;
      ghost var block := data[at..at + BlockSize(family)];
      var h := state;
      var r0 := Regs(h[0], h[1], h[2], h[3], h[4], h[5], h[6], h[7]);
      var r := Load(data, at, r0);
      var j: nat := 16;
      while j < family.rounds
        invariant 16 <= j <= family.rounds && Shaped() && state == h
        invariant Holds(block, j - 16, j) && r == Rounds(family, block, r0, j)
      {
        var w := Slide(block, j);
        r := Turn(r, j, w);
        j := j + 1;
      }
      state := [family.add(h[0], r.a), family.add(h[1], r.b), family.add(h[2], r.c), family.add(h[3], r.d),
                family.add(h[4], r.e), family.add(h[5], r.f), family.add(h[6], r.g), family.add(h[7], r.h)];
    }

    // ----- the message in pieces

    /** The bit count for `n` bytes; the second word is used with 64-bit words only. */
    ghost predicate Counted(n: nat)
      reads this`lo, this`hi
    {
      lo == 8 * n % MOD64 && (family.size == 8 ==> hi == 8 * n / MOD64 % MOD64)
    }

    /** The last `|m| % BlockSize` bytes of `m` lie at the start of the buffer. */
    ghost predicate Held(m: seq<byte>)
      requires Lawful(family) && buffer.Length >= BlockSize(family)
      reads buffer
    {
      buffer[..|m| % BlockSize(family)] == m[|m| - |m| % BlockSize(family)..]
    }

    ghost predicate Valid()
      reads this, buffer
    {
      Shaped() && Counted(|absorbed|) && Held(absorbed) && state == Chain(family, absorbed)
    }

    /** The bit count goes up by `8 * n`: one word, or ADDINC128. */
    method Count(n: nat, ghost m: nat)
      requires n <= 128 && Counted(m)
      modifies this`lo, this`hi
      ensures Counted(m + n)
    {
      CountUp(lo, hi, m, n);
      lo := (lo + 8 * n) % MOD64;
      if family.size == 8 && lo < 8 * n {
        hi := (hi + 1) % MOD64;
      }
    }

    method Used(ghost m: nat) returns (used: nat)
      requires Lawful(family) && Counted(m)
      ensures used == m % BlockSize(family)
    {
      UsedIs(m, family.size);
      used := lo / 8 % BlockSize(family);
    }

    /** Bytes that do not fill the block. */
    method Keep(data: array<byte>, at: nat, n: nat, used: nat, ghost m: seq<byte>)
      requires Shaped() && data != buffer && at + n <= data.Length
      requires used == |m| % BlockSize(family) && used + n < BlockSize(family)
      requires Counted(|m|) && Held(m) && state == Chain(family, m)
      modifies this, buffer
      ensures Valid() && absorbed == m + data[at..at + n]
    {
      hide Chain, Counted;
      ghost var x := data[at..at + n];
      Grown(family, m, x);
      Copy(buffer, used, data, at, n);
      assert buffer[..used + n] == buffer[0..used + n];
      Count(n, |m|);
      absorbed := m + x;
    }

    /** Bytes that fill the block, which is then hashed. */
    method Complete(data: array<byte>, n: nat, used: nat, ghost m: seq<byte>)
      requires Shaped() && data != buffer && n <= data.Length
      requires used == |m| % BlockSize(family) && used + n == BlockSize(family)
      requires Counted(|m|) && Held(m) && state == Chain(family, m)
      modifies this, buffer
      ensures Shaped() && Counted(|m + data[..n]|) && state == Chain(family, m + data[..n])
      ensures |m + data[..n]| % BlockSize(family) == 0
    {
      hide Chain, Compress, Counted, Rest;
      ghost var x := data[0..n];
      assert x == data[..n];
      HeldIsRest(m);
      Filled(family, m, x);
      Copy(buffer, used, data, 0, n);
      Count(n, |m|);
      Transform(buffer, 0);
    }

    lemma HeldIsRest(m: seq<byte>)
      requires Lawful(family) && buffer.Length >= BlockSize(family) && Held(m)
      ensures buffer[..|m| % BlockSize(family)] == Rest(family, m)
    {}

    /** As many whole blocks as there are, hashed straight from the caller's data. */
    method Blocks(data: array<byte>, from: nat, ghost m: seq<byte>) returns (at: nat)
      requires Shaped() && data != buffer && from <= data.Length
      requires Counted(|m + data[..from]|) && state == Chain(family, m + data[..from])
      requires |m + data[..from]| % BlockSize(family) == 0
      modifies this, buffer
      ensures Shaped() && from <= at <= data.Length < at + BlockSize(family)
      ensures Counted(|m + data[..at]|) && state == Chain(family, m + data[..at])
      ensures |m + data[..at]| % BlockSize(family) == 0
    {
      hide Chain, Compress, Counted;
      at := from;
      while data.Length - at >= BlockSize(family)
        invariant from <= at <= data.Length && Shaped()
        invariant Counted(|m + data[..at]|) && state == Chain(family, m + data[..at])
        invariant |m + data[..at]| % BlockSize(family) == 0
      {
        ghost var block := data[at..at + BlockSize(family)];
        assert m + data[..at + BlockSize(family)] == (m + data[..at]) + block;
        ChainBlock(family, m + data[..at], block);
        Transform(data, at);
        Count(BlockSize(family), |m + data[..at]|);
        at := at + BlockSize(family);
      }
    }

    /** SHA256Update, SHA512Update. */
    method Update(data: array<byte>)
      requires Valid() && data != buffer
      modifies this, buffer
      ensures Valid() && absorbed == old(absorbed) + data[..]
    {
      hide Chain, Compress, Counted;
      var len: nat, at: nat := data.Length, 0;
      assert absorbed + data[..0] == absorbed;
      if len == 0 { return; }
      ghost var m := absorbed;
      var used := Used(|m|);
      if used > 0 {
        var free := BlockSize(family) - used;
        if len >= free {
          Complete(data, free, used, m);
          len, at := len - free, at + free;
        } else {
          assert data[0..len] == data[..];
          Keep(data, 0, len, used, m);
          return;
        }
      }
      at := Blocks(data, at, m);
      len := data.Length - at;
      ghost var q := m + data[..at];
      assert Held(q) by { assert q[|q|..] == []; }
      assert m + data[..] == q + data[at..at + len];
      if len > 0 {
        Keep(data, at, len, 0, q);
      } else {
        absorbed := q;
        assert data[at..at + len] == [];
      }
    }

    // ----- the end of the message

    ghost function LengthField(): (r: seq<byte>)
      requires Lawful(family)
      reads this`absorbed
      ensures |r| == 2 * family.size
    {
      Digits(8 * |absorbed|, family.lengthBytes)
    }

    ghost predicate ReadyForLength()
      reads this`state, this`absorbed, buffer
    {
      && Shaped()
      && Compress(family, state, Window()[..14 * family.size] + LengthField()) ==
         Chain(family, Padded(family, absorbed))
    }

    /** The marker and the length both fit after the message's last bytes. */
    method PadFits(used: nat)
      requires Valid() && used == |absorbed| % BlockSize(family) && 0 < used < 14 * family.size
      modifies this`state, buffer
      ensures ReadyForLength()
    {
      hide Chain, Compress, Padded, Digits, Zeros, Counted;
      var size := family.size;
      PadShort(family, absorbed);
      ghost var rest := Rest(family, absorbed);
      assert buffer[..used] == rest;
      buffer[used] := 0x80;
      assert buffer[..used + 1] == rest + [0x80];
      Zero(buffer, used + 1, 14 * size - used - 1);
      assert Window()[..14 * size] == buffer[..used + 1] + buffer[used + 1..14 * size];
    }

    /** The message's last bytes and the marker, in a block of their own. */
    method Spill(used: nat)
      requires Valid() && used == |absorbed| % BlockSize(family) && 14 * family.size <= used
      modifies this`state, buffer
      ensures Shaped()
      ensures state == Compress(family, old(state),
        Rest(family, absorbed) + [0x80] + Zeros(BlockSize(family) - |Rest(family, absorbed)| - 1))
    {
      hide Chain, Compress, Zeros, Counted;
      var size := family.size;
      ghost var rest := Rest(family, absorbed);
      assert buffer[..used] == rest;
      buffer[used] := 0x80;
      assert buffer[..used + 1] == rest + [0x80];
      Zero(buffer, used + 1, 16 * size - used - 1);
      ArrayJoin(buffer, 0, used + 1, 16 * size);
      assert buffer[0..used + 1] == buffer[..used + 1];
      Transform(buffer, 0);
    }

    /** The marker leaves no room for the length. */
    method PadSpills(used: nat)
      requires Valid() && used == |absorbed| % BlockSize(family) && 14 * family.size <= used
      modifies this`state, buffer
      ensures ReadyForLength()
    {
      hide Chain, Compress, Padded, Digits, Zeros, Counted, Rest;
      var size := family.size;
      PadLong(family, absorbed);
      Spill(used);
      var clear := if size == 4 then 14 * size else 16 * size - 2;
      Zero(buffer, 0, clear);
      ZerosCut(clear, 14 * size);
      ArraySub(buffer, 0, clear, 0, 14 * size);
      ArraySub(buffer, 0, BlockSize(family), 0, 14 * size);
      assert Window() == buffer[0..BlockSize(family)];
    }

    /** There are no last bytes: the marker opens the block. */
    method PadAlone()
      requires Valid() && |absorbed| % BlockSize(family) == 0
      modifies this`state, buffer
      ensures ReadyForLength()
    {
      hide Chain, Compress, Padded, Digits, Counted;
      var size := family.size;
      PadShort(family, absorbed);
      Zero(buffer, 0, 14 * size);
      assert buffer[0..14 * size][1..] == Zeros(14 * size - 1);
      assert buffer[1..14 * size] == buffer[0..14 * size][1..];
      buffer[0] := 0x80;
      assert Window()[..14 * size] == [] + [0x80] + buffer[1..14 * size];
    }

    /** The length field, from the bit count. */
    method Length() returns (r: seq<byte>)
      requires Lawful(family) && Counted(|absorbed|)
      ensures r == LengthField()
    {
      hide Digits;
      EightDigits(8 * |absorbed|);
      SixteenDigits(8 * |absorbed|);
      r := if family.size == 4 then Digits(lo, 8) else Digits(hi, 8) + Digits(lo, 8);
    }

    /** SHA256Final; SHA512Last with SHA384Final or SHA512Final. */
    method Final() returns (digest: seq<byte>)
      requires Valid()
      modifies this`state, buffer
      ensures digest == Digest(family, absorbed)
    {
      hide Chain, Compress, Padded, Digits, Counted;
      var size := family.size;
      var used := Used(|absorbed|);
      if used == 0 {
        PadAlone();
      } else if used + 1 <= 14 * size {
        PadFits(used);
      } else {
        PadSpills(used);
      }
      ghost var front := Window()[..14 * size];
      var length := Length();
      Store(buffer, 14 * size, length);
      assert buffer[0..BlockSize(family)] == front + length;
      Transform(buffer, 0);
      digest := Flat(family, state[..family.out]);
    }
  }

  method Zero(a: array<byte>, at: nat, n: nat)
    requires at + n <= a.Length
    modifies a
    ensures a[..at] == old(a[..at]) && a[at..at + n] == Zeros(n)
  {
    forall k | 0 <= k < n { a[at + k] := 0; }
  }

  lemma ZerosCut(n: nat, k: nat)
    requires k <= n
    ensures Zeros(n)[..k] == Zeros(k)
  {}

  lemma ChainNothing<W(!new)>(F: Family<W>)
    requires Lawful(F)
    ensures Chain(F, []) == F.initial && 0 % BlockSize(F) == 0
  {
    hide Compress;
    Whole(0, F.size);
  }

  method Copy(dst: array<byte>, to: nat, src: array<byte>, from: nat, n: nat)
    requires dst != src && to + n <= dst.Length && from + n <= src.Length
    modifies dst
    ensures dst[0..to + n] == old(dst[..to]) + src[from..from + n]
  {
    forall k | 0 <= k < n { dst[to + k] := src[from + k]; }
  }

  lemma Slots(j: nat)
    requires 16 <= j
    ensures (j - 15) % 16 == (j + 1) % 16 && (j - 2) % 16 == (j + 14) % 16
    ensures (j - 7) % 16 == (j + 9) % 16 && (j - 16) % 16 == j % 16
  {}

  lemma OtherSlot(j: nat, t: nat)
    requires j - 16 < t < j
    ensures t % 16 != j % 16
  {}

  lemma CountUp(lo: nat, hi: nat, m: nat, n: nat)
    requires lo == 8 * m % MOD64 && 8 * n < MOD64
    ensures (lo + 8 * n) % MOD64 == 8 * (m + n) % MOD64
    ensures hi == 8 * m / MOD64 % MOD64 ==>
      (if (lo + 8 * n) % MOD64 < 8 * n then (hi + 1) % MOD64 else hi) == 8 * (m + n) / MOD64 % MOD64
  {
    var q := 8 * m / MOD64;
    assert 8 * m == q * MOD64 + lo;
    if lo + 8 * n >= MOD64 {
      assert 8 * (m + n) == (q + 1) * MOD64 + (lo + 8 * n - MOD64);
      assert 8 * (m + n) / MOD64 == q + 1;
    } else {
      assert 8 * (m + n) / MOD64 == q;
    }
  }

  lemma UsedIs(m: nat, size: nat)
    requires size == 4 || size == 8
    ensures 8 * m % MOD64 / 8 % (16 * size) == m % (16 * size)
  {
    var q, r := m / 0x2000_0000_0000_0000, m % 0x2000_0000_0000_0000;
    assert 8 * m == q * MOD64 + 8 * r;
    assert 8 * m % MOD64 == 8 * r;
    if size == 4 {
      Low64(m);
    } else {
      Low128(m);
    }
  }

  lemma Low64(m: nat)
    ensures m % 0x2000_0000_0000_0000 % 64 == m % 64
  {}

  lemma Low128(m: nat)
    ensures m % 0x2000_0000_0000_0000 % 128 == m % 128
  {}

  /** A message whose last block stays short. */
  lemma Grown<W>(F: Family<W>, m: seq<byte>, x: seq<byte>)
    requires (F.size == 4 || F.size == 8) && |F.initial| == 8 && |m| % BlockSize(F) + |x| < BlockSize(F)
    ensures Chain(F, m + x) == Chain(F, m)
    ensures |m + x| % BlockSize(F) == |m| % BlockSize(F) + |x|
    ensures Rest(F, m + x) == Rest(F, m) + x
  {
    hide Chain, Head, Rest;
    var head, tail := Head(F, m), Rest(F, m);
    assert m + x == head + (tail + x);
    HeadChain(F, m);
    ChainPart(F, head, tail + x);
    RestOf(F, head, tail + x);
  }

  /** A message whose last block is filled. */
  lemma Filled<W>(F: Family<W>, m: seq<byte>, x: seq<byte>)
    requires (F.size == 4 || F.size == 8) && |F.initial| == 8 && |m| % BlockSize(F) + |x| == BlockSize(F)
    ensures |m + x| % BlockSize(F) == 0
    ensures Chain(F, m + x) == Compress(F, Chain(F, m), Rest(F, m) + x)
  {
    hide Chain, Compress, Head, Rest;
    var head, tail := Head(F, m), Rest(F, m);
    assert m + x == head + (tail + x);
    HeadChain(F, m);
    ChainBlock(F, head, tail + x);
  }
}
