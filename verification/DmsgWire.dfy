/**
 The byte format of dmsg messages (sys/sys/dmsg.h) and the fields the sender fills in last.
 A message on the wire is its extended header followed by its data, both padded to DMSG_ALIGN.
 */
module DmsgWire {
  /** A byte of the wire; what follows holds whatever its range. */
  type octet = int
  type word = x: int | 0 <= x < 0x1_0000_0000

  const ALIGN := 64
  const HDR_SIZE := 64
  const HDR_MAX := 2048
  const AUX_MAX := 65536
  const BUF_SIZE := 4 * HDR_MAX
  const MAGIC := 0x4832
  const MAXIOVEC := 16

  /** Any checksum over bytes; the source uses dmsg_icrc32. */
  type Crc = seq<octet> -> word

  /** Byte offsets and widths in dmsg_hdr. */
  datatype Field = Field(at: nat, size: nat)
  const Magic := Field(0, 2)
  const Salt := Field(4, 4)
  const Command := Field(0x20, 4)
  const AuxCrc := Field(0x24, 4)
  const AuxBytes := Field(0x28, 4)
  const HdrCrc := Field(0x3C, 4)

  function Bytes(v: nat, n: nat): (s: seq<octet>)
    ensures |s| == n
  {
    if n == 0 then [] else [v % 256] + Bytes(v / 256, n - 1)
  }

  function Number(s: seq<octet>): int {
    if s == [] then 0 else s[0] + 256 * Number(s[1..])
  }

  function Power256(n: nat): nat { if n == 0 then 1 else 256 * Power256(n - 1) }

  lemma {:induction false} NumberOfBytes(v: nat, n: nat)
    requires v < Power256(n)
    ensures Number(Bytes(v, n)) == v
  {
    if n > 0 {
      NumberOfBytes(v / 256, n - 1);
      assert Bytes(v, n)[1..] == Bytes(v / 256, n - 1);
    }
  }

  /** Byte `i` of a field is the digit of weight 256 to the `i`: the wire is little-endian. */
  lemma {:induction false} BytesAt(v: nat, n: nat, i: nat)
    requires i < n
    ensures Power256(i) > 0 && Bytes(v, n)[i] == v / Power256(i) % 256
  {
    if i > 0 {
      BytesAt(v / 256, n - 1, i - 1);
      Quotients(v, Power256(i - 1));
    }
  }

  lemma Quotients(v: nat, p: nat)
    requires p > 0
    ensures v / 256 / p == v / (256 * p)
  {
    var a, b := v / 256, v / 256 / p;
    var rest := v % 256 + 256 * (a % p);
    assert v == (256 * p) * b + rest by {
      assert a == p * b + a % p;
      assert 256 * (p * b) == (256 * p) * b;
    }
    assert 0 <= rest < 256 * p;
    Quotient(v, 256 * p, b, rest);
  }

  lemma Quotient(v: nat, d: nat, q: nat, rest: nat)
    requires d > 0 && v == d * q + rest && rest < d
    ensures v / d == q
  {
    var w := v / d;
    assert w + 1 <= q ==> d * (w + 1) <= d * q;
    assert q + 1 <= w ==> d * (q + 1) <= d * w;
  }

  /** The value of a field is the sum of its bytes at those weights. */
  lemma {:induction false} NumberMore(s: seq<octet>, x: octet)
    ensures Number(s + [x]) == Number(s) + Power256(|s|) * x
  {
    if s == [] {
      assert s + [x] == [x];
    } else {
      assert (s + [x])[1..] == s[1..] + [x];
      NumberMore(s[1..], x);
    }
  }

  function Get(h: seq<octet>, f: Field): int
    requires f.at + f.size <= |h|
  {
    Number(h[f.at..f.at + f.size])
  }

  function Set(h: seq<octet>, f: Field, v: nat): (h': seq<octet>)
    requires f.at + f.size <= |h|
    ensures |h'| == |h|
  {
    h[..f.at] + Bytes(v, f.size) + h[f.at + f.size..]
  }

  predicate Apart(f: Field, g: Field) { f.at + f.size <= g.at || g.at + g.size <= f.at }

  lemma GetSet(h: seq<octet>, f: Field, v: nat)
    requires f.at + f.size <= |h| && v < Power256(f.size)
    ensures Get(Set(h, f, v), f) == v
  {
    assert Set(h, f, v)[f.at..f.at + f.size] == Bytes(v, f.size);
    NumberOfBytes(v, f.size);
  }

  lemma GetOther(h: seq<octet>, f: Field, v: nat, g: Field)
    requires f.at + f.size <= |h| && g.at + g.size <= |h| && Apart(f, g)
    ensures Get(Set(h, f, v), g) == Get(h, g)
  {
    assert Set(h, f, v)[g.at..g.at + g.size] == h[g.at..g.at + g.size];
  }

  lemma SetSet(h: seq<octet>, f: Field, v: nat, w: nat)
    requires f.at + f.size <= |h|
    ensures Set(Set(h, f, v), f, w) == Set(h, f, w)
  {
  }

  function Align(n: nat): nat { (n + ALIGN - 1) / ALIGN * ALIGN }

  /** DMSG_DOALIGN on a 32-bit size, in 32 bits: the sum may wrap. */
  function DoAlign(n: nat): nat { (n + ALIGN - 1) % 0x1_0000_0000 / ALIGN * ALIGN }

  /** The largest size whose aligned form fits 32 bits. */
  const ALIGN_LIMIT := 0xFFFF_FFC0

  lemma DoAlignIs(n: nat)
    requires n < 0x1_0000_0000
    ensures DoAlign(n) == if n <= ALIGN_LIMIT then Align(n) else 0
  {
  }

  /** The header size the cmd field encodes. */
  function HdrBytes(h: seq<octet>): nat
    requires |h| >= HDR_SIZE
  {
    Get(h, Command) % 256 * ALIGN
  }

  /** It is the first byte of that field, in units of 64 bytes. */
  lemma HdrBytesIs(h: seq<octet>)
    requires |h| >= HDR_SIZE
    ensures HdrBytes(h) == 64 * (h[0x20] % 256)
  {
    var s := h[0x20..0x24];
    assert Number(s) == s[0] + 256 * Number(s[1..]);
  }

  /** The data size, an unsigned 32-bit field. */
  function AuxField(h: seq<octet>): nat
    requires |h| >= HDR_SIZE
  {
    Get(h, AuxBytes) % 0x1_0000_0000
  }

  /** A message with its extended header and its padded data. */
  datatype Packet = Packet(hdr: seq<octet>, aux: seq<octet>, auxSize: nat)

  function Encode(m: Packet): seq<octet> { m.hdr + m.aux }

  function Concat(ms: seq<Packet>): seq<octet> {
    if ms == [] then [] else Encode(ms[0]) + Concat(ms[1..])
  }

  lemma Assoc(x: seq<octet>, y: seq<octet>, z: seq<octet>)
    ensures (x + y) + z == x + (y + z)
  {
  }

  lemma {:induction false} ConcatMore(ms: seq<Packet>, ns: seq<Packet>)
    ensures Concat(ms + ns) == Concat(ms) + Concat(ns)
  {
    if ms == [] {
      assert ms + ns == ns;
    } else {
      assert (ms + ns)[1..] == ms[1..] + ns;
      ConcatMore(ms[1..], ns);
    }
  }

  /** What dmsg_msg_alloc and its caller hand over for transmission. */
  predicate Queueable(m: Packet, crc: Crc) {
    && HDR_SIZE <= |m.hdr| <= HDR_MAX && |m.hdr| == HdrBytes(m.hdr)
    && |m.aux| == Align(m.auxSize) <= AUX_MAX
    && (Get(m.hdr, AuxCrc) == 0 || m.auxSize == 0 || Get(m.hdr, AuxCrc) == crc(m.aux))
  }

  /** A message as the receiver will accept it as number `n` of the connection. */
  predicate Sealed(m: Packet, n: nat, crc: Crc) {
    && HDR_SIZE <= |m.hdr| <= HDR_MAX && |m.hdr| == HdrBytes(m.hdr)
    && |m.aux| == Align(m.auxSize) <= AUX_MAX
    && Get(m.hdr, Magic) == MAGIC
    && Get(m.hdr, Salt) % 256 == n % 256
    && AuxField(m.hdr) == m.auxSize
    && (m.aux != [] ==> Get(m.hdr, AuxCrc) == crc(m.aux))
    && Get(m.hdr, HdrCrc) == crc(Set(m.hdr, HdrCrc, 0))
  }

  predicate SealedAll(ms: seq<Packet>, n: nat, crc: Crc) {
    forall i :: 0 <= i < |ms| ==> Sealed(ms[i], n + i, crc)
  }

  /** dmsg_iocom_flush1: the fields filled in when a message is queued for the socket. */
  function Populate(m: Packet, n: nat, random: nat, crc: Crc): Packet
    requires Queueable(m, crc)
  {
    var h1 := Set(m.hdr, Magic, MAGIC);
    var h2 := Set(h1, Salt, SaltOf(n, random));
    var h3 := if m.auxSize != 0 && Get(h2, AuxCrc) == 0 then Set(h2, AuxCrc, crc(m.aux)) else h2;
    var h4 := Set(h3, AuxBytes, m.auxSize);
    var h5 := Set(h4, HdrCrc, 0);
    m.(hdr := Set(h5, HdrCrc, crc(h5)))
  }

  lemma PowerFour()
    ensures Power256(4) == 0x1_0000_0000 && Power256(2) == 65536
  {
    assert Power256(1) == 256;
    assert Power256(2) == 65536;
    assert Power256(3) == 0x100_0000;
  }

  /** The header fields the receiver reads. */
  datatype Fields = Fields(magic: int, salt: int, cmd: int, auxCrc: int, auxBytes: int, hdrCrc: int)

  function Read(h: seq<octet>): Fields
    requires |h| >= HDR_SIZE
  {
    Fields(Get(h, Magic), Get(h, Salt), Get(h, Command), Get(h, AuxCrc), Get(h, AuxBytes), Get(h, HdrCrc))
  }

  /** Setting one field changes that field and no other. */
  lemma SetRead(h: seq<octet>, f: Field, v: nat)
    requires |h| >= HDR_SIZE && v < Power256(f.size)
    requires f == Magic || f == Salt || f == AuxCrc || f == AuxBytes || f == HdrCrc
    ensures Read(Set(h, f, v)) ==
              if f == Magic then Read(h).(magic := v)
              else if f == Salt then Read(h).(salt := v)
              else if f == AuxCrc then Read(h).(auxCrc := v)
              else if f == AuxBytes then Read(h).(auxBytes := v)
              else Read(h).(hdrCrc := v)
  {
    GetSet(h, f, v);
    GetOther(h, f, v, Command);
    if f != Magic { GetOther(h, f, v, Magic); }
    if f != Salt { GetOther(h, f, v, Salt); }
    if f != AuxCrc { GetOther(h, f, v, AuxCrc); }
    if f != AuxBytes { GetOther(h, f, v, AuxBytes); }
    if f != HdrCrc { GetOther(h, f, v, HdrCrc); }
  }

  lemma CrcSeals(h: seq<octet>, crc: Crc)
    requires |h| >= HDR_SIZE
    ensures var h0 := Set(h, HdrCrc, 0);
            var h' := Set(h0, HdrCrc, crc(h0));
            Read(h') == Read(h).(hdrCrc := crc(Set(h', HdrCrc, 0)))
  {
    PowerFour();
    var h0 := Set(h, HdrCrc, 0);
    SetRead(h, HdrCrc, 0);
    SetRead(h0, HdrCrc, crc(h0));
    SetSet(h0, HdrCrc, crc(h0), 0);
    SetSet(h, HdrCrc, 0, 0);
  }

  lemma AlignBounds(n: nat)
    ensures n <= Align(n) < n + ALIGN && Align(n) % 64 == 0
  {
  }

  /** The salt flush1 puts in message `n`. */
  function SaltOf(n: nat, random: nat): (v: word)
    ensures v % 256 == n % 256 && v / 256 == random % 0x100_0000
  {
    random % 0x100_0000 * 256 + n % 256
  }

  lemma PopulateFields(m: Packet, n: nat, random: nat, crc: Crc)
    requires Queueable(m, crc) && m.auxSize < 0x1_0000_0000
    ensures var h := Populate(m, n, random, crc).hdr;
            && |h| == |m.hdr|
            && Read(h) == Fields(MAGIC, SaltOf(n, random), Get(m.hdr, Command),
                                 if m.auxSize != 0 && Get(m.hdr, AuxCrc) == 0 then crc(m.aux) else Get(m.hdr, AuxCrc),
                                 m.auxSize, crc(Set(h, HdrCrc, 0)))
  {
    PowerFour();
    var h1 := Set(m.hdr, Magic, MAGIC);
    SetRead(m.hdr, Magic, MAGIC);
    var h2 := Set(h1, Salt, SaltOf(n, random));
    SetRead(h1, Salt, SaltOf(n, random));
    var fill := m.auxSize != 0 && Get(h2, AuxCrc) == 0;
    var h3 := if fill then Set(h2, AuxCrc, crc(m.aux)) else h2;
    if fill {
      SetRead(h2, AuxCrc, crc(m.aux));
    }
    SetRead(h3, AuxBytes, m.auxSize);
    CrcSeals(Set(h3, AuxBytes, m.auxSize), crc);
  }

  /** Whatever was queued, what flush1 makes of it is accepted by the receiver. */
  lemma PopulateSeals(m: Packet, n: nat, random: nat, crc: Crc)
    requires Queueable(m, crc)
    ensures Sealed(Populate(m, n, random, crc), n, crc)
    ensures Populate(m, n, random, crc).aux == m.aux && Populate(m, n, random, crc).auxSize == m.auxSize
  {
    hide Set, Get, SaltOf;
    AlignBounds(m.auxSize);
    PopulateFields(m, n, random, crc);
    var h := Populate(m, n, random, crc).hdr;
    assert Get(h, Command) == Read(h).cmd;
  }

  /** The header bytes flush1 writes: magic, salt, aux_crc, aux_bytes and hdr_crc. */
  predicate Written(i: int) { 0 <= i < 2 || 4 <= i < 8 || 0x24 <= i < 0x2C || 0x3C <= i < 0x40 }

  /**
   `d` is the message `m` with the fields of the transport filled in: the same data, every header byte
   outside those fields the same, and a checksum of the data that was already there left alone.
   */
  predicate Carries(d: Packet, m: Packet)
    requires |m.hdr| >= HDR_SIZE
  {
    && d.aux == m.aux && d.auxSize == m.auxSize && |d.hdr| == |m.hdr|
    && (forall i :: 0 <= i < |m.hdr| && !Written(i) ==> d.hdr[i] == m.hdr[i])
    && (m.auxSize == 0 || Get(m.hdr, AuxCrc) != 0 ==> d.hdr[0x24..0x28] == m.hdr[0x24..0x28])
  }

  lemma SetKeeps(h: seq<octet>, f: Field, v: nat)
    requires f.at + f.size <= |h|
    ensures forall i :: 0 <= i < |h| && !(f.at <= i < f.at + f.size) ==> Set(h, f, v)[i] == h[i]
  {
  }

  /** flush1 fills in its own fields and touches nothing else of a message. */
  lemma PopulateKeeps(m: Packet, n: nat, random: nat, crc: Crc)
    requires Queueable(m, crc)
    ensures Carries(Populate(m, n, random, crc), m)
  {
    var h1 := Set(m.hdr, Magic, MAGIC);
    SetKeeps(m.hdr, Magic, MAGIC);
    var h2 := Set(h1, Salt, SaltOf(n, random));
    SetKeeps(h1, Salt, SaltOf(n, random));
    GetOther(m.hdr, Magic, MAGIC, AuxCrc);
    GetOther(h1, Salt, SaltOf(n, random), AuxCrc);
    var h3 := if m.auxSize != 0 && Get(h2, AuxCrc) == 0 then Set(h2, AuxCrc, crc(m.aux)) else h2;
    SetKeeps(h2, AuxCrc, crc(m.aux));
    var h4 := Set(h3, AuxBytes, m.auxSize);
    SetKeeps(h3, AuxBytes, m.auxSize);
    var h5 := Set(h4, HdrCrc, 0);
    SetKeeps(h4, HdrCrc, 0);
    SetKeeps(h5, HdrCrc, crc(h5));
    hide Set, Get;
  }

  lemma FieldBytes(h: seq<octet>, f: Field, v: nat)
    requires |h| >= HDR_SIZE && f.at + f.size <= HDR_SIZE && f.size >= 2
    ensures Set(h, f, v)[f.at] == v % 256 && Set(h, f, v)[f.at + 1] == v / 256 % 256
  {
    BytesAt(v, f.size, 0);
    BytesAt(v, f.size, 1);
    assert Power256(1) == 256;
  }

  lemma SaltBytes(n: nat, random: nat)
    ensures SaltOf(n, random) % 256 == n % 256 && SaltOf(n, random) / 256 % 256 == random % 256
  {
    assert random % 0x100_0000 % 256 == random % 256;
  }

  /** On the wire: the magic number, the number of the message and the size of the data, byte by byte. */
  lemma PopulateWrites(m: Packet, n: nat, random: nat, crc: Crc)
    requires Queueable(m, crc)
    ensures var h := Populate(m, n, random, crc).hdr;
      && h[0] == 0x32 && h[1] == 0x48
      && h[4] == n % 256 && h[5] == random % 256
      && h[0x28] == m.auxSize % 256 && h[0x29] == m.auxSize / 256 % 256
  {
    hide Set, Get, SaltOf;
    var h1 := Set(m.hdr, Magic, MAGIC);
    FieldBytes(m.hdr, Magic, MAGIC);
    var salt := SaltOf(n, random);
    SaltBytes(n, random);
    var h2 := Set(h1, Salt, salt);
    FieldBytes(h1, Salt, salt);
    SetKeeps(h1, Salt, salt);
    var h3 := if m.auxSize != 0 && Get(h2, AuxCrc) == 0 then Set(h2, AuxCrc, crc(m.aux)) else h2;
    SetKeeps(h2, AuxCrc, crc(m.aux));
    var h4 := Set(h3, AuxBytes, m.auxSize);
    FieldBytes(h3, AuxBytes, m.auxSize);
    SetKeeps(h3, AuxBytes, m.auxSize);
    var h5 := Set(h4, HdrCrc, 0);
    SetKeeps(h4, HdrCrc, 0);
    SetKeeps(h5, HdrCrc, crc(h5));
  }
}
