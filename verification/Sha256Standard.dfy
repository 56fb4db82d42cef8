/** SHA-256 as FIPS 180-4 defines it, on messages of whole bytes. */
module Sha256Standard {
  type Word = bv32

  newtype Byte = x: int | 0 <= x < 256

  // Section 3.2 and 4.1.2: the rotation and the six logical functions.

  function Rotr(x: Word, n: nat): Word
    requires 0 < n < 32
  {
    (x >> n) | (x << (32 - n))
  }

  function Ch(x: Word, y: Word, z: Word): Word {
    (x & y) ^ (!x & z)
  }

  function Maj(x: Word, y: Word, z: Word): Word {
    (x & y) ^ (x & z) ^ (y & z)
  }

  function BigSigma0(x: Word): Word {
    Rotr(x, 2) ^ Rotr(x, 13) ^ Rotr(x, 22)
  }

  function BigSigma1(x: Word): Word {
    Rotr(x, 6) ^ Rotr(x, 11) ^ Rotr(x, 25)
  }

  function SmallSigma0(x: Word): Word {
    Rotr(x, 7) ^ Rotr(x, 18) ^ (x >> 3)
  }

  function SmallSigma1(x: Word): Word {
    Rotr(x, 17) ^ Rotr(x, 19) ^ (x >> 10)
  }

  // Section 4.2.2.
  const K: seq<Word> := [
    0x428a2f98, 0x71374491, 0xb5c0fbcf, 0xe9b5dba5, 0x3956c25b, 0x59f111f1, 0x923f82a4, 0xab1c5ed5,
    0xd807aa98, 0x12835b01, 0x243185be, 0x550c7dc3, 0x72be5d74, 0x80deb1fe, 0x9bdc06a7, 0xc19bf174,
    0xe49b69c1, 0xefbe4786, 0x0fc19dc6, 0x240ca1cc, 0x2de92c6f, 0x4a7484aa, 0x5cb0a9dc, 0x76f988da,
    0x983e5152, 0xa831c66d, 0xb00327c8, 0xbf597fc7, 0xc6e00bf3, 0xd5a79147, 0x06ca6351, 0x14292967,
    0x27b70a85, 0x2e1b2138, 0x4d2c6dfc, 0x53380d13, 0x650a7354, 0x766a0abb, 0x81c2c92e, 0x92722c85,
    0xa2bfe8a1, 0xa81a664b, 0xc24b8b70, 0xc76c51a3, 0xd192e819, 0xd6990624, 0xf40e3585, 0x106aa070,
    0x19a4c116, 0x1e376c08, 0x2748774c, 0x34b0bcb5, 0x391c0cb3, 0x4ed8aa4a, 0x5b9cca4f, 0x682e6ff3,
    0x748f82ee, 0x78a5636f, 0x84c87814, 0x8cc70208, 0x90befffa, 0xa4506ceb, 0xbef9a3f7, 0xc67178f2]

  /** Addition modulo 2^32, the `+` of section 3.2. */
  function Sum(x: Word, y: Word): Word {
    x + y
  }

  datatype State = State(a: Word, b: Word, c: Word, d: Word, e: Word, f: Word, g: Word, h: Word)

  // Section 5.3.3.
  const H0 := State(0x6a09e667, 0xbb67ae85, 0x3c6ef372, 0xa54ff53a,
                    0x510e527f, 0x9b05688c, 0x1f83d9ab, 0x5be0cd19)

  // Section 5.1.1: a one bit, the least number of zero bits, and the length in 64 bits.

  /** The zero bytes between the byte that starts with the one bit and the length block. */
  function ZeroBytes(n: nat): (k: nat)
    ensures (n + 1 + k) % 64 == 56 && k < 64
  {
    (55 - n) % 64
  }

  /** No smaller number of zero bytes fills the block. */
  lemma {:induction false} ZeroBytesLeast(n: nat, k: nat)
    requires k <= ZeroBytes(n)
    ensures (n + 1 + k) % 64 == 56 <==> k == ZeroBytes(n)
  {
  }

  function PowerOf256(k: nat): (r: nat)
    ensures r > 0
  {
    if k == 0 then 1 else 256 * PowerOf256(k - 1)
  }

  function LengthByte(x: nat, i: nat): Byte
    requires i < 8
  {
    ((x / PowerOf256(7 - i)) % 256) as Byte
  }

  function BigEndian64(x: nat): (r: seq<Byte>)
    ensures |r| == 8
  {
    seq(8, i requires 0 <= i < 8 => LengthByte(x, i))
  }

  function ZeroFill(k: nat): (r: seq<Byte>)
    ensures |r| == k && forall i :: 0 <= i < k ==> r[i] == 0
  {
    seq(k, _ => 0)
  }

  function Pad(m: seq<Byte>): (p: seq<Byte>)
    ensures |p| == |m| + 9 + ZeroBytes(|m|) && |p| % 64 == 0
  {
    m + [0x80] + ZeroFill(ZeroBytes(|m|)) + BigEndian64(8 * |m|)
  }

  // Section 5.2.1 and 6.2.2.

  function WordAt(block: seq<Byte>, t: nat): Word
    requires |block| == 64 && t < 16
  {
    ((block[4 * t] as Word) << 24) | ((block[4 * t + 1] as Word) << 16) |
    ((block[4 * t + 2] as Word) << 8) | (block[4 * t + 3] as Word)
  }

  function W(block: seq<Byte>, t: nat): Word
    requires |block| == 64 && t < 64
  {
    if t < 16 then WordAt(block, t)
    else Sum(Sum(Sum(SmallSigma1(W(block, t - 2)), W(block, t - 7)), SmallSigma0(W(block, t - 15))), W(block, t - 16))
  }

  function Round(s: State, k: Word, w: Word): State {
    var t1 := Sum(Sum(Sum(Sum(s.h, BigSigma1(s.e)), Ch(s.e, s.f, s.g)), k), w);
    var t2 := Sum(BigSigma0(s.a), Maj(s.a, s.b, s.c));
    State(Sum(t1, t2), s.a, s.b, s.c, Sum(s.d, t1), s.e, s.f, s.g)
  }

  function Rounds(s: State, block: seq<Byte>, t: nat): State
    requires |block| == 64 && t <= 64
  {
    if t == 0 then s else Round(Rounds(s, block, t - 1), K[t - 1], W(block, t - 1))
  }

  function Add(s: State, r: State): State {
    State(Sum(s.a, r.a), Sum(s.b, r.b), Sum(s.c, r.c), Sum(s.d, r.d),
          Sum(s.e, r.e), Sum(s.f, r.f), Sum(s.g, r.g), Sum(s.h, r.h))
  }

  function Block(p: seq<Byte>, n: nat): (b: seq<Byte>)
    requires 64 * n + 64 <= |p|
    ensures |b| == 64
  {
    p[64 * n..64 * n + 64]
  }

  /** The hash value after the first `n` blocks. */
  function HashBlocks(p: seq<Byte>, n: nat): (s: State)
    requires 64 * n <= |p|
    ensures n == 0 ==> s == H0
  {
    if n == 0 then H0
    else
      var s := HashBlocks(p, n - 1);
      Add(s, Rounds(s, Block(p, n - 1), 64))
  }

  function Digest(m: seq<Byte>): State {
    HashBlocks(Pad(m), |Pad(m)| / 64)
  }

  /** The padded length is the least multiple of 64 that leaves room for nine more bytes. */
  lemma {:induction false} PaddedLengthLeast(m: seq<Byte>, multiple: nat)
    requires multiple % 64 == 0 && multiple >= |m| + 9
    ensures |Pad(m)| <= multiple
  {
  }

  lemma ShorterPads(m: seq<Byte>, n: seq<Byte>)
    requires |m| <= |n| && Pad(m) == Pad(n)
    ensures m == n
  {
    PadMarks(m);
    PadMarks(n);
    assert |m| == |n|;
    assert m == Pad(m)[..|m|];
    assert n == Pad(n)[..|n|];
  }

  /** Padding is injective, whatever the lengths. */
  lemma {:induction false} PadInjective(m: seq<Byte>, n: seq<Byte>)
    requires Pad(m) == Pad(n)
    ensures m == n
  {
    if |m| <= |n| {
      ShorterPads(m, n);
    } else {
      ShorterPads(n, m);
    }
  }

  /** Behind the message stands the one bit, and only zeros up to the length block. */
  lemma PadMarks(m: seq<Byte>)
    ensures Pad(m)[|m|] == 0x80
    ensures forall i :: |m| < i < |m| + 1 + ZeroBytes(|m|) ==> Pad(m)[i] == 0
  {
    var zeros := ZeroFill(ZeroBytes(|m|));
    forall i | |m| < i < |m| + 1 + |zeros| ensures Pad(m)[i] == 0 {
      assert Pad(m)[i] == zeros[i - |m| - 1];
    }
  }
}
