/** The 32-bit and 64-bit instances of the SHA-2 family, as sys/crypto/sha2.c spells them. */
module Sha2Words {
  import opened Bytes
  import opened Sha2Spec

  function Swap32(s: seq<byte>): (r: seq<byte>)
    ensures |r| == |s|
    ensures |s| == 4 ==> forall i :: 0 <= i < 4 ==> r[i] == s[3 - i]
  {
    if |s| != 4 then s else [s[3], s[2], s[1], s[0]]
  }

  function Load64(s: seq<byte>): bv64 {
    if |s| != 8 then 0
    else
      (s[7] as bv64) | ((s[6] as bv64) << 8) | ((s[5] as bv64) << 16) | ((s[4] as bv64) << 24) |
      ((s[3] as bv64) << 32) | ((s[2] as bv64) << 40) | ((s[1] as bv64) << 48) | ((s[0] as bv64) << 56)
  }

  function Store64(w: bv64): (r: seq<byte>)
    ensures |r| == 8
  {
    [((w >> 56) & 0xff) as byte, ((w >> 48) & 0xff) as byte, ((w >> 40) & 0xff) as byte, ((w >> 32) & 0xff) as byte,
     ((w >> 24) & 0xff) as byte, ((w >> 16) & 0xff) as byte, ((w >> 8) & 0xff) as byte, (w & 0xff) as byte]
  }

  function Swap64(s: seq<byte>): (r: seq<byte>)
    ensures |r| == |s|
    ensures |s| == 8 ==> forall i :: 0 <= i < 8 ==> r[i] == s[7 - i]
  {
    if |s| != 8 then s else [s[7], s[6], s[5], s[4], s[3], s[2], s[1], s[0]]
  }

  function Sum0w32(x: bv32): bv32 { ((x >> 2) | (x << 30)) ^ ((x >> 13) | (x << 19)) ^ ((x >> 22) | (x << 10)) }

  function Sum1w32(x: bv32): bv32 { ((x >> 6) | (x << 26)) ^ ((x >> 11) | (x << 21)) ^ ((x >> 25) | (x << 7)) }

  function Sigma0w32(x: bv32): bv32 { ((x >> 7) | (x << 25)) ^ ((x >> 18) | (x << 14)) ^ (x >> 3) }

  function Sigma1w32(x: bv32): bv32 { ((x >> 17) | (x << 15)) ^ ((x >> 19) | (x << 13)) ^ (x >> 10) }

  function Add32(x: bv32, y: bv32): bv32 { x + y }

  function Ch32(x: bv32, y: bv32, z: bv32): bv32 { (x & y) ^ (!x & z) }

  function Maj32(x: bv32, y: bv32, z: bv32): bv32 { (x & y) ^ (x & z) ^ (y & z) }

  function Sum0w64(x: bv64): bv64 { ((x >> 28) | (x << 36)) ^ ((x >> 34) | (x << 30)) ^ ((x >> 39) | (x << 25)) }

  function Sum1w64(x: bv64): bv64 { ((x >> 14) | (x << 50)) ^ ((x >> 18) | (x << 46)) ^ ((x >> 41) | (x << 23)) }

  function Sigma0w64(x: bv64): bv64 { ((x >> 1) | (x << 63)) ^ ((x >> 8) | (x << 56)) ^ (x >> 7) }

  function Sigma1w64(x: bv64): bv64 { ((x >> 19) | (x << 45)) ^ ((x >> 61) | (x << 3)) ^ (x >> 6) }

  function Add64(x: bv64, y: bv64): bv64 { x + y }

  function Ch64(x: bv64, y: bv64, z: bv64): bv64 { (x & y) ^ (!x & z) }

  function Maj64(x: bv64, y: bv64, z: bv64): bv64 { (x & y) ^ (x & z) ^ (y & z) }

  lemma AddCommutes32(x: bv32, y: bv32)
    ensures Add32(x, y) == Add32(y, x)
  {}

  lemma AddCommutes64(x: bv64, y: bv64)
    ensures Add64(x, y) == Add64(y, x)
  {}

  /** SHA-256, for any round constants and initial value, on a little-endian host. */
  function Sha256(k: nat -> bv32, initial: seq<bv32>): Family<bv32> {
    Family(4, 64, 8, Load32, Store32, s => Load32(Swap32(s)), w => Swap32(Store32(w)), Add32,
      Sum0w32, Sum1w32, Sigma0w32, Sigma1w32, Ch32, Maj32, k, initial, 8)
  }

  /** SHA-512 (eight words out) and SHA-384 (six). */
  function Sha512(k: nat -> bv64, initial: seq<bv64>, out: nat): Family<bv64> {
    Family(8, 80, 16, Load64, Store64, s => Load64(Swap64(s)), w => Swap64(Store64(w)), Add64,
      Sum0w64, Sum1w64, Sigma0w64, Sigma1w64, Ch64, Maj64, k, initial, out)
  }

  /** A word survives the host's byte order. */
  lemma Poked32(w: bv32)
    ensures Load32(Swap32(Swap32(Store32(w)))) == w
  {
    hide Store32, Load32;
    Stored32(w);
    assert Swap32(Swap32(Store32(w))) == Store32(w);
  }

  lemma Sha256IsLawful(k: nat -> bv32, initial: seq<bv32>)
    requires |initial| == 8
    ensures Lawful(Sha256(k, initial))
  {
    hide Load32, Store32, Swap32, Add32;
    var F := Sha256(k, initial);
    forall w: bv32 ensures |F.poke(w)| == F.size && F.peek(F.poke(w)) == w {
      Poked32(w);
    }
    forall x: bv32, y: bv32 ensures F.add(x, y) == F.add(y, x) {
      AddCommutes32(x, y);
    }
  }

  lemma Stored64(w: bv64)
    ensures Load64(Store64(w)) == w
  {}

  /** A word survives the host's byte order. */
  lemma Poked64(w: bv64)
    ensures Load64(Swap64(Swap64(Store64(w)))) == w
  {
    hide Store64, Load64;
    Stored64(w);
    assert Swap64(Swap64(Store64(w))) == Store64(w);
  }

  lemma Sha512IsLawful(k: nat -> bv64, initial: seq<bv64>, out: nat)
    requires |initial| == 8 && out <= 8
    ensures Lawful(Sha512(k, initial, out))
  {
    hide Load64, Store64, Swap64, Add64;
    var F := Sha512(k, initial, out);
    forall w: bv64 ensures |F.poke(w)| == F.size && F.peek(F.poke(w)) == w {
      Poked64(w);
    }
    forall x: bv64, y: bv64 ensures F.add(x, y) == F.add(y, x) {
      AddCommutes64(x, y);
    }
  }

  // ----- the functions as the standard writes them

  lemma Sums32(x: bv32)
    ensures Sum0w32(x) == x.RotateRight(2) ^ x.RotateRight(13) ^ x.RotateRight(22)
    ensures Sum1w32(x) == x.RotateRight(6) ^ x.RotateRight(11) ^ x.RotateRight(25)
    ensures Sigma0w32(x) == x.RotateRight(7) ^ x.RotateRight(18) ^ (x >> 3)
    ensures Sigma1w32(x) == x.RotateRight(17) ^ x.RotateRight(19) ^ (x >> 10)
  {}

  lemma Sums64(x: bv64)
    ensures Sum0w64(x) == x.RotateRight(28) ^ x.RotateRight(34) ^ x.RotateRight(39)
    ensures Sum1w64(x) == x.RotateRight(14) ^ x.RotateRight(18) ^ x.RotateRight(41)
    ensures Sigma0w64(x) == x.RotateRight(1) ^ x.RotateRight(8) ^ (x >> 7)
    ensures Sigma1w64(x) == x.RotateRight(19) ^ x.RotateRight(61) ^ (x >> 6)
  {}

  /** Where `x` is set, the bit of `y`, elsewhere that of `z`; and the bit most of the three have. */
  lemma Chosen32(x: bv32, y: bv32, z: bv32)
    ensures Ch32(x, y, z) == (x & y) | (!x & z)
    ensures Maj32(x, y, z) == (x & y) | (x & z) | (y & z)
  {
    ChBits32(x, y, z);
    MajBits32(x, y, z);
  }

  lemma ChBits32(x: bv32, y: bv32, z: bv32)
    ensures (x & y) ^ (!x & z) == (x & y) | (!x & z)
  {}

  lemma MajBits32(x: bv32, y: bv32, z: bv32)
    ensures (x & y) ^ (x & z) ^ (y & z) == (x & y) | (x & z) | (y & z)
  {}

  lemma Chosen64(x: bv64, y: bv64, z: bv64)
    ensures Ch64(x, y, z) == (x & y) | (!x & z)
    ensures Maj64(x, y, z) == (x & y) | (x & z) | (y & z)
  {
    ChBits64(x, y, z);
    MajBits64(x, y, z);
  }

  lemma ChBits64(x: bv64, y: bv64, z: bv64)
    ensures (x & y) ^ (!x & z) == (x & y) | (!x & z)
  {}

  lemma MajBits64(x: bv64, y: bv64, z: bv64)
    ensures (x & y) ^ (x & z) ^ (y & z) == (x & y) | (x & z) | (y & z)
  {}

  lemma Load64Order(s: seq<byte>)
    requires |s| == 8
    ensures Load64(s) >> 56 == s[0] as bv64 && (Load64(s) >> 48) & 0xff == s[1] as bv64
    ensures (Load64(s) >> 40) & 0xff == s[2] as bv64 && (Load64(s) >> 32) & 0xff == s[3] as bv64
    ensures (Load64(s) >> 24) & 0xff == s[4] as bv64 && (Load64(s) >> 16) & 0xff == s[5] as bv64
    ensures (Load64(s) >> 8) & 0xff == s[6] as bv64 && Load64(s) & 0xff == s[7] as bv64
  {
    Order64(s[0], s[1], s[2], s[3], s[4], s[5], s[6], s[7]);
  }

  lemma Order64(a: byte, b: byte, c: byte, d: byte, e: byte, f: byte, g: byte, h: byte)
    ensures var w := (h as bv64) | ((g as bv64) << 8) | ((f as bv64) << 16) | ((e as bv64) << 24) |
                     ((d as bv64) << 32) | ((c as bv64) << 40) | ((b as bv64) << 48) | ((a as bv64) << 56);
      && w >> 56 == a as bv64 && (w >> 48) & 0xff == b as bv64 && (w >> 40) & 0xff == c as bv64
      && (w >> 32) & 0xff == d as bv64 && (w >> 24) & 0xff == e as bv64 && (w >> 16) & 0xff == f as bv64
      && (w >> 8) & 0xff == g as bv64 && w & 0xff == h as bv64
  {}

  /** The parameters and functions of SHA-256, sections 4.1.2 and 6.2 of FIPS 180-4. */
  lemma Sha256IsStandard(k: nat -> bv32, initial: seq<bv32>, x: bv32, y: bv32, z: bv32)
    ensures var F := Sha256(k, initial);
      && F.size == 4 && F.rounds == 64 && F.lengthBytes == 8 && F.out == 8 && F.k == k && F.initial == initial
      && F.sum0(x) == x.RotateRight(2) ^ x.RotateRight(13) ^ x.RotateRight(22)
      && F.sum1(x) == x.RotateRight(6) ^ x.RotateRight(11) ^ x.RotateRight(25)
      && F.sigma0(x) == x.RotateRight(7) ^ x.RotateRight(18) ^ (x >> 3)
      && F.sigma1(x) == x.RotateRight(17) ^ x.RotateRight(19) ^ (x >> 10)
      && F.ch(x, y, z) == (x & y) | (!x & z) && F.maj(x, y, z) == (x & y) | (x & z) | (y & z) && F.add(x, y) == x + y
  {
    hide Sum0w32, Sum1w32, Sigma0w32, Sigma1w32, Ch32, Maj32;
    Sums32(x);
    Chosen32(x, y, z);
  }

  /** The parameters and functions of SHA-384 and SHA-512, sections 4.1.3 and 6.4 of FIPS 180-4. */
  lemma Sha512IsStandard(k: nat -> bv64, initial: seq<bv64>, out: nat, x: bv64, y: bv64, z: bv64)
    ensures var F := Sha512(k, initial, out);
      && F.size == 8 && F.rounds == 80 && F.lengthBytes == 16 && F.out == out && F.k == k && F.initial == initial
      && F.sum0(x) == x.RotateRight(28) ^ x.RotateRight(34) ^ x.RotateRight(39)
      && F.sum1(x) == x.RotateRight(14) ^ x.RotateRight(18) ^ x.RotateRight(41)
      && F.sigma0(x) == x.RotateRight(1) ^ x.RotateRight(8) ^ (x >> 7)
      && F.sigma1(x) == x.RotateRight(19) ^ x.RotateRight(61) ^ (x >> 6)
      && F.ch(x, y, z) == (x & y) | (!x & z) && F.maj(x, y, z) == (x & y) | (x & z) | (y & z) && F.add(x, y) == x + y
  {
    hide Sum0w64, Sum1w64, Sigma0w64, Sigma1w64, Ch64, Maj64;
    Sums64(x);
    Chosen64(x, y, z);
  }
}
