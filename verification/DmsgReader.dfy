/**
 The receiving half of a plaintext connection: dmsg_ioq_makeroom and dmsg_ioq_read up to the
 point where a complete message is handed to the transaction code.
 */
module DmsgReader {
  import opened DmsgWire
  import opened Options

  datatype Phase = Header1 | Header2 | AuxData2

  datatype Error = NoError | Eof | Sync | FieldError | Xcrc | Acrc | MsgSeq

  /** A socket that may hand over its data in pieces of any size. */
  class Socket {
    var data: seq<octet>       // sent by the other end and not yet read
    var pieces: seq<nat>      // upper bounds for the next reads; none left means no bound
    var shut: bool            // the other end will send no more

    constructor ()
      ensures data == [] && pieces == [] && !shut
    {
      data, pieces, shut := [], [], false;
    }

    /** read(2) with a non-empty buffer; nothing read and no error is EAGAIN. */
    method Recv(room: nat) returns (got: seq<octet>, e: Error)
      requires room > 0
      modifies this
      ensures got + data == old(data) && |got| <= room && shut == old(shut)
      ensures e == NoError || (e == Eof && old(data) == [] && shut)
      ensures old(pieces) == [] ==> pieces == [] && (old(data) != [] ==> got != [])
    {
      var n := if pieces == [] || pieces[0] > |data| then |data| else pieces[0];
      n := if n > room then room else n;
      if pieces != [] { pieces := pieces[1..]; }
      got, e := data[..n], if data == [] && shut then Eof else NoError;
      data := data[n..];
    }
  }

  // ----- what a stream of well-made messages looks like from its front

  /** `s` is the stream of the messages `todo`, the first of them number `n`, or the front of it. */
  ghost predicate GoodStream(s: seq<octet>, todo: seq<Packet>, n: nat, crc: Crc) {
    SealedAll(todo, n, crc) && s <= Concat(todo)
  }

  /** The checks on the core header. */
  predicate CoreOk(h: seq<octet>)
    requires |h| >= HDR_SIZE
  {
    Get(h, Magic) == MAGIC && HDR_SIZE <= HdrBytes(h) <= HDR_MAX && DoAlign(AuxField(h)) <= AUX_MAX
  }

  /** The check on the extended header. */
  predicate HeaderOk(h: seq<octet>, crc: Crc)
    requires |h| >= HDR_SIZE
  {
    Get(h, HdrCrc) == crc(Set(h, HdrCrc, 0))
  }

  /** The check on the data. */
  predicate DataOk(h: seq<octet>, d: seq<octet>, crc: Crc)
    requires |h| >= HDR_SIZE
  {
    d != [] ==> Get(h, AuxCrc) == crc(d)
  }

  /** The check on the number of the message. */
  predicate SaltOk(h: seq<octet>, n: nat)
    requires |h| >= HDR_SIZE
  {
    Get(h, Salt) % 256 == n % 256
  }

  lemma GetFront(h: seq<octet>, f: Field)
    requires HDR_SIZE <= |h| && f.at + f.size <= HDR_SIZE
    ensures Get(h[..HDR_SIZE], f) == Get(h, f)
  {
    assert h[..HDR_SIZE][f.at..f.at + f.size] == h[f.at..f.at + f.size];
  }

  /** The core header says how long header and data are. */
  lemma CoreFront(h: seq<octet>)
    requires HDR_SIZE <= |h|
    ensures HdrBytes(h[..HDR_SIZE]) == HdrBytes(h) && AuxField(h[..HDR_SIZE]) == AuxField(h)
    ensures CoreOk(h[..HDR_SIZE]) == CoreOk(h)
  {
    GetFront(h, Magic);
    GetFront(h, Command);
    GetFront(h, AuxBytes);
  }

  lemma HeaderMax(h: seq<octet>)
    requires |h| >= HDR_SIZE && CoreOk(h)
    ensures HDR_SIZE <= HdrBytes(h) <= HDR_MAX && DoAlign(AuxField(h)) <= AUX_MAX
  {
  }

  lemma SealedCore(m: Packet, n: nat, crc: Crc)
    requires Sealed(m, n, crc)
    ensures CoreOk(m.hdr) && HeaderOk(m.hdr, crc) && SaltOk(m.hdr, n) && DataOk(m.hdr, m.aux, crc) &&
            HdrBytes(m.hdr) == |m.hdr|
    ensures AuxField(m.hdr) == m.auxSize <= AUX_MAX && DoAlign(AuxField(m.hdr)) == |m.aux|
  {
    AlignBounds(m.auxSize);
    DoAlignIs(m.auxSize);
  }

  lemma GoodCore(s: seq<octet>, todo: seq<Packet>, n: nat, crc: Crc)
    requires GoodStream(s, todo, n, crc) && |s| >= HDR_SIZE
    ensures todo != [] && CoreOk(s[..HDR_SIZE])
    ensures HdrBytes(s[..HDR_SIZE]) == |todo[0].hdr| && AuxField(s[..HDR_SIZE]) == todo[0].auxSize
  {
    assert todo != [];
    var m := todo[0];
    assert Sealed(m, n + 0, crc);
    assert s[..HDR_SIZE] == m.hdr[..HDR_SIZE];
    SealedCore(m, n, crc);
    CoreFront(m.hdr);
  }

  lemma GoodHeader(s: seq<octet>, todo: seq<Packet>, n: nat, crc: Crc, hb: nat)
    requires GoodStream(s, todo, n, crc) && HDR_SIZE <= hb <= |s| && hb == HdrBytes(s[..HDR_SIZE])
    ensures todo != [] && s[..hb] == todo[0].hdr && HeaderOk(s[..hb], crc) && SaltOk(s[..hb], n)
  {
    GoodCore(s, todo, n, crc);
    assert Sealed(todo[0], n + 0, crc);
    SealedCore(todo[0], n, crc);
    assert Concat(todo) == Encode(todo[0]) + Concat(todo[1..]);
  }

  lemma GoodData(s: seq<octet>, todo: seq<Packet>, n: nat, crc: Crc, hb: nat, ab: nat)
    requires GoodStream(s, todo, n, crc) && HDR_SIZE <= hb && hb + ab <= |s|
    requires hb == HdrBytes(s[..HDR_SIZE]) && ab == DoAlign(AuxField(s[..HDR_SIZE]))
    ensures todo != [] && s[..hb] == todo[0].hdr && s[hb..hb + ab] == todo[0].aux
    ensures DataOk(s[..hb], s[hb..hb + ab], crc)
    ensures s[hb + ab..] <= Concat(todo[1..]) && SealedAll(todo[1..], n + 1, crc)
  {
    GoodCore(s, todo, n, crc);
    GoodHeader(s, todo, n, crc, hb);
    var m := todo[0];
    assert Sealed(m, n + 0, crc);
    SealedCore(m, n, crc);
    assert Concat(todo) == Encode(m) + Concat(todo[1..]);
    assert s[hb..hb + ab] == m.aux;
    forall i | 0 <= i < |todo[1..]| ensures Sealed(todo[1..][i], n + 1 + i, crc) {
      assert Sealed(todo[i + 1], n + (i + 1), crc);
    }
  }

  lemma GoodRest(rest: seq<octet>, todo: seq<Packet>, n: nat, crc: Crc)
    requires todo != [] && rest <= Concat(todo[1..]) && SealedAll(todo[1..], n + 1, crc)
    ensures GoodStream(rest, todo[1..], n + 1, crc)
  {
  }

  lemma ThreeParts(h: seq<octet>, d: seq<octet>, rest: seq<octet>, t: seq<octet>, k: nat)
    requires t == h + d + rest && k <= |h|
    ensures t[..|h|] == h && t[..k] == h[..k] && t[|h|..|h| + |d|] == d && t[|h| + |d|..] == rest
  {
  }

  /** The message passes every check as number `n`: what dmsg_ioq_read delivers. */
  predicate Passed(m: Packet, n: nat, crc: Crc) {
    && |m.hdr| >= HDR_SIZE && |m.hdr| == HdrBytes(m.hdr) && m.auxSize == AuxField(m.hdr)
    && |m.aux| == DoAlign(m.auxSize)
    && CoreOk(m.hdr) && HeaderOk(m.hdr, crc) && SaltOk(m.hdr, n) && DataOk(m.hdr, m.aux, crc)
  }

  /**
   A message that passed all checks is one the other end can have sealed, exactly if its size can
   be aligned in 32 bits; with any larger size it passes without data.
   */
  lemma ChecksSeal(m: Packet, n: nat, crc: Crc)
    ensures Passed(m, n, crc) ==> (Sealed(m, n, crc) <==> m.auxSize <= ALIGN_LIMIT)
    ensures Sealed(m, n, crc) ==> Passed(m, n, crc) && m.auxSize <= ALIGN_LIMIT
    ensures Passed(m, n, crc) && m.auxSize > ALIGN_LIMIT ==> m.aux == []
  {
    if Sealed(m, n, crc) {
      SealedCore(m, n, crc);
    }
    if Passed(m, n, crc) {
      DoAlignIs(m.auxSize);
      AlignBounds(m.auxSize);
    }
  }

  /** The header `h` with the size `v` and a crc to match. */
  function Resized(h: seq<octet>, v: nat, crc: Crc): (h': seq<octet>)
    requires |h| >= HDR_SIZE
    ensures |h'| == |h|
  {
    var h0 := Set(Set(h, AuxBytes, v), HdrCrc, 0);
    Set(h0, HdrCrc, crc(h0))
  }

  lemma ResizedReads(h: seq<octet>, v: nat, crc: Crc)
    requires |h| >= HDR_SIZE && v < 0x1_0000_0000
    ensures var h' := Resized(h, v, crc);
            Read(h') == Read(h).(auxBytes := v, hdrCrc := crc(Set(h', HdrCrc, 0)))
  {
    PowerFour();
    SetRead(h, AuxBytes, v);
    CrcSeals(Set(h, AuxBytes, v), crc);
  }

  /** Nothing whose header has a size beyond the limit can have been sealed. */
  lemma TooLargeToSeal(m: Packet, n: nat, crc: Crc)
    requires |m.hdr| >= HDR_SIZE && AuxField(m.hdr) > ALIGN_LIMIT
    ensures !Sealed(m, n, crc)
  {
    AlignBounds(m.auxSize);
  }

  /**
   From every message without data, and for every size beyond the limit: the header with that size
   passes every check, and nothing with that header can have been sealed.
   */
  lemma WrappedSizePasses(m: Packet, v: nat, n: nat, crc: Crc)
    requires Sealed(m, n, crc) && m.aux == [] && ALIGN_LIMIT < v < 0x1_0000_0000
    ensures Passed(Packet(Resized(m.hdr, v, crc), [], v), n, crc)
    ensures forall aux, size, k :: !Sealed(Packet(Resized(m.hdr, v, crc), aux, size), k, crc)
  {
    hide Resized, Set, Get;
    var h := Resized(m.hdr, v, crc);
    ResizedReads(m.hdr, v, crc);
    DoAlignIs(v);
    hide Sealed;
    forall aux, size, k
      ensures !Sealed(Packet(h, aux, size), k, crc)
    {
      TooLargeToSeal(Packet(h, aux, size), k, crc);
    }
  }

  /** A core header with nothing set but its own size. */
  function BlankHeader(): seq<octet> { seq(HDR_SIZE, i => if i == 0x20 then 1 else 0) }

  /** Concretely, as any message of any connection: the size 2^32 - 1. */
  lemma WrappedSizeExample(n: nat, crc: Crc)
    ensures var blank := Packet(BlankHeader(), [], 0);
            && Queueable(blank, crc)
            && Passed(Packet(Resized(Populate(blank, n, 0, crc).hdr, 0xFFFF_FFFF, crc), [], 0xFFFF_FFFF), n, crc)
            && !Sealed(Packet(Resized(Populate(blank, n, 0, crc).hdr, 0xFFFF_FFFF, crc), [], 0xFFFF_FFFF), n, crc)
  {
    var blank := Packet(BlankHeader(), [], 0);
    assert blank.hdr[0x20..0x24] == [1, 0, 0, 0];
    assert Number([1, 0, 0, 0]) == 1 by {
      assert [1, 0, 0, 0][1..] == [0, 0, 0];
      assert [0, 0, 0][1..] == [0, 0];
      assert [0, 0][1..] == [0];
      assert [0][1..] == [];
    }
    PopulateSeals(blank, n, 0, crc);
    WrappedSizePasses(Populate(blank, n, 0, crc), 0xFFFF_FFFF, n, crc);
  }

  class Reader {
    const crc: Crc
    const sock: Socket
    const buf: array<octet>
    var beg: nat
    var cdx: nat
    var cdn: nat
    var end: nat
    var phase: Phase
    var hbytes: nat
    var abytes: nat
    var unaligned: nat
    var err: Error
    var next: nat            // number of the next message
    var hdr: seq<octet>       // header of the message being assembled
    var aux: seq<octet>       // its data so far

    ghost predicate Fifo()
      reads this
    {
      buf.Length == BUF_SIZE && beg <= end <= BUF_SIZE && cdx == cdn == end
    }

    /** Bytes taken from the socket that are not part of a delivered message. */
    ghost function Held(): seq<octet>
      requires Fifo()
      reads this, buf
    {
      if phase == AuxData2 then hdr + aux + buf[beg..end] else buf[beg..end]
    }

    ghost function Total(): seq<octet>
      requires Fifo()
      reads this, buf, sock
    {
      Held() + sock.data
    }

    constructor (crc: Crc, sock: Socket)
      ensures this.crc == crc && this.sock == sock && fresh(buf)
      ensures Fifo() && phase == Header1 && err == NoError && next == 0 && Held() == []
    {
      this.crc, this.sock := crc, sock;
      buf := new octet[BUF_SIZE];
      beg, cdx, cdn, end, phase, err, next := 0, 0, 0, 0, Header1, NoError, 0;
      hbytes, abytes, unaligned, hdr, aux := 0, 0, 0, [], [];
    }

    /** dmsg_ioq_makeroom */
    method MakeRoom(needed: nat) returns (nmax: nat)
      requires Fifo()
      modifies this`beg, this`cdx, this`cdn, this`end, buf
      ensures Fifo() && nmax == BUF_SIZE - end
      ensures buf[beg..end] == old(buf[beg..end])
      ensures beg == 0 || beg + needed <= BUF_SIZE
      ensures if old(end - beg) + (BUF_SIZE - old(end)) / 2 < needed then beg == 0 else beg == old(beg)
    {
      var bytes := cdx - beg;
      nmax := buf.Length - end;
      if bytes + nmax / 2 < needed {
        ghost var was := buf[beg..end];
        forall i | 0 <= i < bytes { buf[i] := buf[beg + i]; }
        cdx := cdx - beg;
        beg := 0;
        end := end - (cdn - cdx);
        cdn := cdx;
        nmax := buf.Length - end;
        assert buf[beg..end] == was;
      }
    }

    /** One read(2) into the free end of the buffer. */
    method Fill(nmax: nat) returns (ok: bool)
      requires Fifo() && nmax == BUF_SIZE - end && nmax > 0 && err == NoError
      modifies this`cdx, this`cdn, this`end, this`err, buf, sock
      ensures Fifo() && beg == old(beg) && old(end) <= end
      ensures buf[beg..end] + sock.data == old(buf[beg..end] + sock.data)
      ensures old(buf[beg..end]) <= buf[beg..end]
      ensures ok <==> err == NoError
      ensures !ok ==> err == Eof && old(sock.data) == [] && sock.shut && end == old(end)
      ensures sock.shut == old(sock.shut) && |sock.data| <= |old(sock.data)|
      ensures old(sock.pieces) == [] ==> sock.pieces == [] && (old(sock.data) == [] || end > old(end))
    {
      ghost var was := buf[beg..end];
      var got, e := sock.Recv(nmax);
      if e != NoError {
        err := e;
        return false;
      }
      Append(got);
      end := end + |got|;
      cdx, cdn := end, end;
      Assoc(was, got, sock.data);
      return true;
    }

    /** The bytes read go behind those already buffered. */
    method Append(got: seq<octet>)
      requires buf.Length == BUF_SIZE && beg <= end && end + |got| <= BUF_SIZE
      modifies buf
      ensures buf[beg..end + |got|] == old(buf[beg..end]) + got
    {
      forall i | 0 <= i < |got| { buf[end + i] := got[i]; }
    }

    /** Read once if fewer than `needed` bytes are buffered. */
    method Gather(needed: nat) returns (enough: bool)
      requires Fifo() && err == NoError && (end - beg < needed ==> end < BUF_SIZE)
      modifies this`cdx, this`cdn, this`end, this`err, buf, sock
      ensures Fifo() && beg == old(beg) && old(end) <= end
      ensures buf[beg..end] + sock.data == old(buf[beg..end] + sock.data)
      ensures old(buf[beg..end]) <= buf[beg..end]
      ensures enough <==> err == NoError && needed <= end - beg
      ensures err == NoError || (err == Eof && sock.shut && sock.data == [])
      ensures sock.shut == old(sock.shut) && |sock.data| <= |old(sock.data)|
      ensures old(sock.pieces) == [] ==> sock.pieces == []
      ensures old(sock.pieces) == [] && !enough && old(sock.data) != [] ==> |sock.data| < |old(sock.data)|
    {
      if cdx - beg < needed {
        var ok := Fill(BUF_SIZE - end);
        if !ok { return false; }
      }
      return needed <= cdx - beg;
    }

    /** The sizes noted when the core header was checked. */
    predicate Noted(h: seq<octet>)
      requires |h| >= HDR_SIZE
      reads this`hbytes, this`abytes, this`unaligned
    {
      CoreOk(h) && hbytes == HdrBytes(h) && unaligned == AuxField(h) && abytes == DoAlign(unaligned)
    }

    ghost predicate Sane()
      reads this, buf
    {
      && Fifo()
      && (phase == Header2 ==>
            HDR_SIZE <= end - beg && Noted(buf[beg..beg + HDR_SIZE]) && beg + hbytes <= BUF_SIZE)
      && (phase == AuxData2 ==> Loaded() && |aux| < abytes)
    }

    /** The header is in, and as much of the data as was buffered. */
    ghost predicate Loaded()
      reads this, buf
    {
      HeaderIn() && (|aux| < abytes ==> beg == end)
    }

    ghost predicate HeaderIn()
      reads this, buf
    {
      && Fifo() && phase == AuxData2
      && HDR_SIZE <= |hdr| == hbytes && Noted(hdr) && HeaderOk(hdr, crc) && |aux| <= abytes
    }

    ghost predicate Good(todo: seq<Packet>)
      requires Fifo()
      reads this, buf, sock
    {
      GoodStream(Total(), todo, next, crc)
    }

    /** An error other than the other end's hanging up means the stream is not well-made. */
    ghost predicate Blame(good: bool)
      reads this, sock
    {
      && (err == Eof ==> sock.shut && sock.data == [])
      && (err != NoError && err != Eof ==> !good)
    }

    /** Check the core header and note the sizes it gives. */
    method CheckCore(ghost todo: seq<Packet>) returns (go: bool)
      requires Fifo() && err == NoError && phase == Header1 && HDR_SIZE <= end - beg
      modifies this`err, this`hbytes, this`abytes, this`unaligned
      ensures go ==> err == NoError && Noted(buf[beg..beg + HDR_SIZE])
      ensures !go ==> !Good(todo) && err == if Get(buf[beg..beg + HDR_SIZE], Magic) != MAGIC then Sync else FieldError
    {
      hide GoodStream, CoreOk, HdrBytes, AuxField;
      var head := buf[beg..beg + HDR_SIZE];
      CoreChecked(todo, head);
      if !CoreOk(head) {
        err := if Get(head, Magic) != MAGIC then Sync else FieldError;
        return false;
      }
      hbytes := HdrBytes(head);
      unaligned := AuxField(head);
      abytes := DoAlign(unaligned);
      return true;
    }

    lemma CoreChecked(todo: seq<Packet>, head: seq<octet>)
      requires Fifo() && phase == Header1 && HDR_SIZE <= end - beg && head == buf[beg..beg + HDR_SIZE]
      ensures Good(todo) ==> CoreOk(head)
    {
      assert Total()[..HDR_SIZE] == head;
      if Good(todo) { GoodCore(Total(), todo, next, crc); }
    }

    /** Make the extended header fit behind the core header. */
    method FitHeader()
      requires Fifo() && HDR_SIZE <= end - beg && Noted(buf[beg..beg + HDR_SIZE]) && phase == Header1
      modifies this`beg, this`cdx, this`cdn, this`end, this`phase, buf
      ensures Sane() && phase == Header2 && buf[beg..end] == old(buf[beg..end])
    {
      hide CoreOk, HdrBytes, AuxField;
      HeaderMax(buf[beg..beg + HDR_SIZE]);
      Front(beg, end - beg);
      var nmax := MakeRoom(hbytes);
      Front(beg, end - beg);
      phase := Header2;
    }

    method LoadCore() returns (enough: bool)
      requires Fifo() && err == NoError && phase == Header1
      modifies this`beg, this`cdx, this`cdn, this`end, this`err, buf, sock
      ensures Fifo() && Total() == old(Total())
      ensures enough <==> err == NoError && HDR_SIZE <= end - beg
      ensures err == NoError || (err == Eof && sock.shut && sock.data == [])
      ensures sock.shut == old(sock.shut) && |sock.data| <= |old(sock.data)|
      ensures old(sock.pieces) == [] ==> sock.pieces == []
      ensures old(sock.pieces) == [] && !enough && old(sock.data) != [] ==> |sock.data| < |old(sock.data)|
    {
      var nmax := MakeRoom(HDR_SIZE);
      enough := Gather(HDR_SIZE);
    }

    /** Phase DMSG_MSGQ_STATE_HEADER1: the core header. */
    method StepHeader1(ghost todo: seq<Packet>) returns (go: bool)
      requires Sane() && err == NoError && phase == Header1
      modifies this, buf, sock
      ensures Fifo() && next == old(next) && Total() == old(Total()) && Blame(old(Good(todo)))
      ensures err == NoError ==> Sane()
      ensures go ==> err == NoError && phase == Header2
      ensures !go && err == NoError ==> phase == Header1 && end - beg < HDR_SIZE
      ensures sock.shut == old(sock.shut) && |sock.data| <= |old(sock.data)|
      ensures old(sock.pieces) == [] ==>
                sock.pieces == [] && (!go && err == NoError && old(sock.data) != [] ==> |sock.data| < |old(sock.data)|)
    {
      hide GoodStream, CoreOk, HdrBytes, AuxField, Noted, Loaded;
      go := LoadCore();
      if go {
        go := CheckCore(todo);
        if go {
          FitHeader();
        }
      }
    }

    /** Check the crc of the extended header. */
    method CheckHeader(ghost todo: seq<Packet>) returns (go: bool)
      requires Sane() && err == NoError && phase == Header2 && hbytes <= end - beg
      requires HDR_SIZE <= hbytes
      modifies this`err
      ensures go ==> err == NoError && HeaderOk(buf[beg..beg + hbytes], crc)
      ensures !go ==> err == Xcrc && !Good(todo)
    {
      hide GoodStream, CoreOk, HdrBytes, AuxField, HeaderOk;
      HeaderChecked(todo);
      if !HeaderOk(buf[beg..beg + hbytes], crc) {
        err := Xcrc;
        return false;
      }
      return true;
    }

    lemma HeaderChecked(todo: seq<Packet>)
      requires Sane() && phase == Header2 && HDR_SIZE <= hbytes <= end - beg
      ensures Good(todo) ==> HeaderOk(buf[beg..beg + hbytes], crc)
    {
      assert Total()[..HDR_SIZE] == buf[beg..beg + HDR_SIZE];
      assert Total()[..hbytes] == buf[beg..beg + hbytes];
      if Good(todo) { GoodHeader(Total(), todo, next, crc, hbytes); }
    }

    /** Copy the header out, and the data as far as it is buffered (DMSG_MSGQ_STATE_AUXDATA1). */
    method TakeHeader()
      requires Sane() && phase == Header2 && HDR_SIZE <= hbytes <= end - beg && HeaderOk(buf[beg..beg + hbytes], crc)
      modifies this`hdr, this`aux, this`beg, this`phase
      ensures Loaded() && Held() == old(Held())
    {
      hide CoreOk, HdrBytes, AuxField, HeaderOk, DoAlign, Noted;
      var h := buf[beg..beg + hbytes];
      Front(beg, hbytes);
      NotedFront(h, buf[beg..beg + HDR_SIZE]);
      var from := beg + hbytes;
      var bytes := cdx - from;
      var n := if bytes >= abytes then abytes else bytes;
      Pieces(beg, from, from + n, end);
      Keep(h, buf[from..from + n], from + n);
    }

    /** The message has `h` and `a`; the buffer goes on at `at`. */
    method Keep(h: seq<octet>, a: seq<octet>, at: nat)
      requires Fifo() && at <= end && HDR_SIZE <= |h| == hbytes && Noted(h) && HeaderOk(h, crc)
      requires |a| <= abytes && (|a| < abytes ==> at == end)
      modifies this`hdr, this`aux, this`beg, this`phase
      ensures Loaded() && Held() == h + a + buf[at..end]
    {
      hide CoreOk, HdrBytes, AuxField, HeaderOk, DoAlign;
      hdr, aux, beg, phase := h, a, at, AuxData2;
    }

    lemma Front(at: nat, n: nat)
      requires HDR_SIZE <= n && at + n <= buf.Length
      ensures buf[at..at + n][..HDR_SIZE] == buf[at..at + HDR_SIZE]
    {
    }

    lemma Pieces(i: nat, j: nat, k: nat, l: nat)
      requires i <= j <= k <= l <= buf.Length
      ensures buf[i..j] + buf[j..k] + buf[k..l] == buf[i..l]
    {
    }

    lemma NotedFront(h: seq<octet>, front: seq<octet>)
      requires |h| >= HDR_SIZE && front == h[..HDR_SIZE] && Noted(front)
      ensures Noted(h)
    {
      CoreFront(h);
    }

    /** Phase DMSG_MSGQ_STATE_HEADER2: the extended header. */
    method StepHeader2(ghost todo: seq<Packet>) returns (go: bool)
      requires Sane() && err == NoError && phase == Header2
      modifies this, buf, sock
      ensures Fifo() && next == old(next) && Total() == old(Total()) && Blame(old(Good(todo)))
      ensures !go && err == NoError ==> Sane() && phase == Header2 && end - beg < hbytes
      ensures go ==> err == NoError && Loaded()
      ensures sock.shut == old(sock.shut) && |sock.data| <= |old(sock.data)|
      ensures old(sock.pieces) == [] ==>
                sock.pieces == [] && (!go && err == NoError && old(sock.data) != [] ==> |sock.data| < |old(sock.data)|)
    {
      hide GoodStream, CoreOk, HdrBytes, AuxField, HeaderOk;
      HeaderMax(buf[beg..beg + HDR_SIZE]);
      assert buf[beg..beg + HDR_SIZE] == buf[beg..end][..HDR_SIZE];
      ghost var window := buf[beg..end];
      go := Gather(hbytes);
      assert window <= buf[beg..end];
      assert buf[beg..beg + HDR_SIZE] == window[..HDR_SIZE];
      assert Total() == old(Total());
      if go {
        go := CheckHeader(todo);
        if go {
          TakeHeader();
        }
      }
    }

    /** Move buffered data to the message, up to its end. */
    method TakeData()
      requires HeaderIn()
      modifies this`aux, this`beg
      ensures Loaded() && Held() == old(Held()) && |aux| >= |old(aux)|
      ensures |aux| < abytes ==> |aux| == |old(aux)| + old(end - beg)
    {
      hide Noted, HeaderOk;
      ghost var window := buf[beg..end];
      var bytes := cdx - beg;
      if bytes > abytes - |aux| {
        bytes := abytes - |aux|;
      }
      ghost var was := aux;
      aux := aux + buf[beg..beg + bytes];
      beg := beg + bytes;
      assert was + window == aux + buf[beg..end];
      assert hdr + (was + window) == hdr + was + window;
      assert hdr + (aux + buf[beg..end]) == hdr + aux + buf[beg..end];
    }

    /** Make room and read once, unless all the data is in. */
    method LoadData() returns (ok: bool)
      requires Loaded() && err == NoError
      modifies this`beg, this`cdx, this`cdn, this`end, this`err, buf, sock
      ensures HeaderIn() && Total() == old(Total())
      ensures ok <==> err == NoError
      ensures !ok ==> err == Eof && sock.shut && sock.data == []
      ensures sock.shut == old(sock.shut) && |sock.data| <= |old(sock.data)|
      ensures old(sock.pieces) == [] ==> sock.pieces == []
      ensures old(sock.pieces) == [] && |aux| < abytes && old(sock.data) != [] ==> |sock.data| < |old(sock.data)|
    {
      hide Noted, HeaderOk;
      var nmax := MakeRoom(abytes - |aux|);
      ok := true;
      ghost var window := buf[beg..end];
      Assoc(hdr + aux, window, sock.data);
      if |aux| < abytes {
        ok := Fill(nmax);
      }
      Assoc(hdr + aux, buf[beg..end], sock.data);
    }

    method CheckData(ghost todo: seq<Packet>) returns (go: bool)
      requires HeaderIn() && err == NoError && |aux| == abytes
      modifies this`err
      ensures go ==> err == NoError && DataOk(hdr, aux, crc)
      ensures !go ==> err == Acrc && !Good(todo)
    {
      hide GoodStream, CoreOk, HdrBytes, AuxField, HeaderOk;
      DataChecked(todo);
      if aux != [] && crc(aux) != Get(hdr, AuxCrc) {
        err := Acrc;
        return false;
      }
      return true;
    }

    /** What a complete message is to a well-made stream. */
    lemma DataChecked(todo: seq<Packet>)
      requires HeaderIn() && |aux| == abytes
      ensures Good(todo) ==> DataOk(hdr, aux, crc) && SaltOk(hdr, next)
      ensures Good(todo) ==> todo != [] && hdr == todo[0].hdr && aux == todo[0].aux && unaligned == todo[0].auxSize
      ensures Good(todo) ==> GoodStream(buf[beg..end] + sock.data, todo[1..], next + 1, crc)
    {
      hide GoodStream, CoreOk, HdrBytes, AuxField, HeaderOk, DataOk, SaltOk, Concat;
      var t, rest := Total(), buf[beg..end] + sock.data;
      CoreFront(hdr);
      Assoc(hdr + aux, buf[beg..end], sock.data);
      ThreeParts(hdr, aux, rest, t, HDR_SIZE);
      if Good(todo) {
        GoodData(t, todo, next, crc, hbytes, abytes);
        GoodHeader(t, todo, next, crc, hbytes);
        GoodCore(t, todo, next, crc);
        GoodRest(rest, todo, next, crc);
      }
    }

    /** Phase DMSG_MSGQ_STATE_AUXDATA2: the data. */
    method StepData(ghost todo: seq<Packet>) returns (go: bool)
      requires Loaded() && err == NoError
      modifies this`beg, this`cdx, this`cdn, this`end, this`err, this`aux, buf, sock
      ensures HeaderIn() && Total() == old(Total()) && Blame(old(Good(todo)))
      ensures !go && err == NoError ==> Sane()
      ensures go ==> err == NoError && |aux| == abytes && DataOk(hdr, aux, crc)
      ensures sock.shut == old(sock.shut) && |sock.data| <= |old(sock.data)|
      ensures old(sock.pieces) == [] ==>
                sock.pieces == [] && (!go && err == NoError && old(sock.data) != [] ==> |sock.data| < |old(sock.data)|)
    {
      hide GoodStream, CoreOk, HdrBytes, AuxField, HeaderOk, DataOk, Noted;
      go := LoadData();
      if go {
        TakeData();
        go := |aux| == abytes;
        if go {
          go := CheckData(todo);
        }
      }
    }

    /** The message is complete: check its number, pass it on and get ready for the next. */
    method Deliver(ghost todo: seq<Packet>) returns (r: Option<Packet>)
      requires HeaderIn() && err == NoError && |aux| == abytes && DataOk(hdr, aux, crc)
      modifies this`err, this`next, this`beg, this`cdx, this`cdn, this`end, this`phase
      ensures Fifo()
      ensures r.None? ==> err == MsgSeq && !old(Good(todo)) && Total() == old(Total()) && next == old(next)
      ensures r.Some? ==> err == NoError && Sane() && phase == Header1 && next == old(next) + 1
      ensures r.Some? ==> Passed(r.value, old(next), crc) && old(Total()) == Encode(r.value) + Total()
      ensures r.Some? ==> (Sealed(r.value, old(next), crc) <==> r.value.auxSize <= ALIGN_LIMIT)
      ensures r.Some? && old(Good(todo)) ==> todo != [] && r.value == todo[0] && Good(todo[1..])
    {
      hide GoodStream, CoreOk, HdrBytes, AuxField, HeaderOk, DataOk, Sealed;
      DataChecked(todo);
      ghost var rest := buf[beg..end] + sock.data;
      Assoc(hdr + aux, buf[beg..end], sock.data);
      if !SaltOk(hdr, next) {
        err := MsgSeq;
        return None;
      }
      ChecksSeal(Packet(hdr, aux, unaligned), next, crc);
      next := next + 1;
      if beg == cdx && cdn == end {
        beg, cdx, cdn, end := 0, 0, 0, 0;
      }
      phase := Header1;
      assert Total() == rest;
      return Some(Packet(hdr, aux, unaligned));
    }

    /** Less is buffered than the next step needs. */
    predicate Stalled()
      reads this
    {
      && (phase == Header1 ==> end - beg < HDR_SIZE)
      && (phase == Header2 ==> end - beg < hbytes)
    }

    /** A stalled reader does not hold a whole message. */
    lemma StalledShort(todo: seq<Packet>)
      requires Sane() && Stalled() && Good(todo) && todo != []
      ensures |Held()| < |Encode(todo[0])|
    {
      hide CoreOk, HeaderOk, Concat;
      var t := Total();
      assert Sealed(todo[0], next + 0, crc);
      SealedCore(todo[0], next, crc);
      HeaderMax(todo[0].hdr);
      if phase == Header2 {
        assert t[..HDR_SIZE] == buf[beg..beg + HDR_SIZE];
        GoodCore(t, todo, next, crc);
      } else if phase == AuxData2 {
        ThreeParts(hdr, aux, buf[beg..end] + sock.data, t, HDR_SIZE);
        CoreFront(hdr);
        GoodCore(t, todo, next, crc);
      }
    }

    /**
     dmsg_ioq_read up to the transaction code: deliver the next message, or nothing for lack
     of data.  Whatever the stream, a delivered message passed every check, and is one a sender can
     have sealed exactly if its size can be aligned in 32 bits; and if the stream is that of the
     messages `todo`, what is delivered is the first of them.
     */
    method Next(ghost todo: seq<Packet>) returns (r: Option<Packet>)
      requires Sane() && err == NoError
      modifies this, buf, sock
      ensures Fifo() && Blame(old(Good(todo)))
      ensures r.None? ==> Total() == old(Total()) && next == old(next) && (err == NoError ==> Sane() && Stalled())
      ensures r.Some? ==> err == NoError && Sane() && next == old(next) + 1
      ensures r.Some? ==> Passed(r.value, old(next), crc) && old(Total()) == Encode(r.value) + Total()
      ensures r.Some? ==> (Sealed(r.value, old(next), crc) <==> r.value.auxSize <= ALIGN_LIMIT)
      ensures r.Some? && old(Good(todo)) ==> todo != [] && r.value == todo[0] && Good(todo[1..])
      ensures sock.shut == old(sock.shut) && |sock.data| <= |old(sock.data)|
      ensures old(sock.pieces) == [] ==>
                && sock.pieces == []
                && (r.None? && err == NoError && old(sock.data) != [] ==> |sock.data| < |old(sock.data)|)
    {
      hide GoodStream, HeaderOk, DataOk, Noted, Sealed;
      r := None;
      var go := true;
      if phase == Header1 {
        go := StepHeader1(todo);
      }
      if go && phase == Header2 {
        go := StepHeader2(todo);
      }
      if go {
        go := StepData(todo);
      }
      if go {
        r := Deliver(todo);
      }
    }
  }
}
