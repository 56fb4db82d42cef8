/** sha256Hex (sha256.cpp:28-72): the in-place computation, proved against FIPS 180-4. */
module Sha256 {
  import opened Sha256Standard

  function HexChar(d: nat): (c: char)
    requires d < 16
    ensures HexDigit(c) == d && IsHex(c)
  {
    if d < 10 then ('0' as int + d) as char else ('a' as int + d - 10) as char
  }

  predicate IsHex(c: char) {
    '0' <= c <= '9' || 'a' <= c <= 'f'
  }

  function HexDigit(c: char): nat {
    if '0' <= c <= '9' then c as int - '0' as int
    else if 'a' <= c <= 'f' then c as int - 'a' as int + 10
    else 0
  }

  function HexValue(s: string): nat {
    if s == "" then 0 else HexValue(s[..|s| - 1]) * 16 + HexDigit(s[|s| - 1])
  }

  /** The unpadded hexadecimal numeral of `n`. */
  function Hexadecimal(n: nat): (s: string)
    ensures s != "" && HexValue(s) == n
    ensures forall i :: 0 <= i < |s| ==> IsHex(s[i])
  {
    if n < 16 then
      var s := [HexChar(n)];
      assert s[..0] == "";
      s
    else
      var front := Hexadecimal(n / 16);
      var s := front + [HexChar(n % 16)];
      assert s[..|s| - 1] == front;
      s
  }

  function PowerOf16(k: nat): nat {
    if k == 0 then 1 else 16 * PowerOf16(k - 1)
  }

  lemma {:induction false} HexadecimalLength(n: nat, k: nat)
    requires k > 0 && n < PowerOf16(k)
    ensures |Hexadecimal(n)| <= k
    decreases k
  {
    if n >= 16 {
      assert PowerOf16(0) == 1 && PowerOf16(1) == 16 * PowerOf16(0);
      HexadecimalLength(n / 16, k - 1);
    }
  }

  lemma {:induction false} HexPadding(k: nat, s: string)
    ensures HexValue(seq(k, _ => '0') + s) == HexValue(s)
    decreases k + |s|
  {
    var z := seq(k, _ => '0') + s;
    if s != "" {
      assert z[..|z| - 1] == seq(k, _ => '0') + s[..|s| - 1];
      HexPadding(k, s[..|s| - 1]);
    } else if k > 0 {
      assert z[..|z| - 1] == seq(k - 1, _ => '0') + s;
      HexPadding(k - 1, s);
    }
  }

  /** A word printed with width 8 and fill character '0'. */
  function HexWord(w: Word): string {
    var s := Hexadecimal(w as int);
    if |s| < 8 then seq(8 - |s|, _ => '0') + s else s
  }

  /** A printed word is eight hexadecimal digits that denote it. */
  lemma HexWordDecodes(w: Word)
    ensures |HexWord(w)| == 8 && HexValue(HexWord(w)) == w as int
    ensures forall i :: 0 <= i < 8 ==> IsHex(HexWord(w)[i])
  {
    hide PowerOf16;
    WordSize();
    PaddedDecodes(w as int);
  }

  lemma PaddedDecodes(n: nat)
    requires n < PowerOf16(8)
    ensures |Hexadecimal(n)| <= 8
    ensures var s := Hexadecimal(n); var t := seq(8 - |s|, _ => '0') + s;
      HexValue(t) == n && forall i :: 0 <= i < 8 ==> IsHex(t[i])
  {
    hide Hexadecimal, HexValue, PowerOf16;
    HexadecimalLength(n, 8);
    HexPadding(8 - |Hexadecimal(n)|, Hexadecimal(n));
  }

  lemma WordSize()
    ensures PowerOf16(8) == 0x1_0000_0000
  {
    assert PowerOf16(4) == 0x10000 by { assert PowerOf16(2) == 256; }
    assert PowerOf16(6) == 0x1000000;
  }

  function Words(s: State): (r: seq<Word>)
    ensures |r| == 8
  {
    [s.a, s.b, s.c, s.d, s.e, s.f, s.g, s.h]
  }

  function HexWords(ws: seq<Word>): (r: string)
    ensures ws == [] ==> r == ""
  {
    if ws == [] then "" else HexWords(ws[..|ws| - 1]) + HexWord(ws[|ws| - 1])
  }

  lemma HexWordsAppend(ws: seq<Word>, w: Word)
    ensures HexWords(ws + [w]) == HexWords(ws) + HexWord(w)
  {
    hide HexWord;
    assert (ws + [w])[..|ws|] == ws;
  }

  /** The printed digest is 64 digits long and decodes, eight by eight, to the words it came from. */
  lemma {:induction false} HexWordsDecode(ws: seq<Word>)
    ensures |HexWords(ws)| == 8 * |ws|
    ensures forall i :: 0 <= i < |HexWords(ws)| ==> IsHex(HexWords(ws)[i])
    ensures forall k :: 0 <= k < |ws| ==> HexValue(HexWords(ws)[8 * k..8 * k + 8]) == ws[k] as int
  {
    hide HexWord, HexValue;
    if ws != [] {
      var n := |ws| - 1;
      var front, last := HexWords(ws[..n]), HexWord(ws[n]);
      HexWordsDecode(ws[..n]);
      HexWordDecodes(ws[n]);
      forall k | 0 <= k < |ws| ensures HexValue(HexWords(ws)[8 * k..8 * k + 8]) == ws[k] as int {
        if k < n {
          assert HexWords(ws) == front + last && 8 * k + 8 <= |front|;
          assert HexWords(ws)[8 * k..8 * k + 8] == front[8 * k..8 * k + 8];
          assert ws[..n][k] == ws[k];
        } else {
          assert HexWords(ws)[8 * k..8 * k + 8] == last;
        }
      }
    }
  }

  /** The text of a digest: what `Sha256Hex` returns, and a decoder for it. */
  function DigestText(m: seq<Byte>): string {
    HexWords(Words(Digest(m)))
  }

  lemma DigestTextDecodes(m: seq<Byte>)
    ensures |DigestText(m)| == 64
    ensures forall i :: 0 <= i < 64 ==> IsHex(DigestText(m)[i])
    ensures forall k :: 0 <= k < 8 ==> HexValue(DigestText(m)[8 * k..8 * k + 8]) == Words(Digest(m))[k] as int
  {
    HexWordsDecode(Words(Digest(m)));
  }

  const UINT64_SIZE: int := 0x1_0000_0000_0000_0000

  /** The array holds the words of `s`. */
  ghost predicate Holds(hash: array<Word>, s: State)
    requires hash.Length == 8
    reads hash
  {
    hash[0] == s.a && hash[1] == s.b && hash[2] == s.c && hash[3] == s.d &&
    hash[4] == s.e && hash[5] == s.f && hash[6] == s.g && hash[7] == s.h
  }

  method Sha256Hex(input: seq<Byte>) returns (text: string)
    ensures |input| < 0x2000_0000_0000_0000 ==> text == DigestText(input)
  {
    hide Rounds, Add, Pad, HexWords;
    var bytes := PaddedBytes(input);
    assert |Pad(input)| % 64 == 0;
    var hash := InitialHash();
    var block := 0;
    ghost var n := 0;
    while block < |bytes|
      invariant block == 64 * n <= |bytes|
      invariant Holds(hash, HashBlocks(bytes, n))
    {
      hide HashBlocks, Holds;
      NextBlock(bytes, n);
      var words := Schedule(bytes[block..block + 64]);
      Compress(hash, words, bytes[block..block + 64], HashBlocks(bytes, n));
      block := block + 64;
      n := n + 1;
    }
    text := HexText(hash, HashBlocks(bytes, n));
  }

  method InitialHash() returns (hash: array<Word>)
    ensures fresh(hash) && hash.Length == 8 && Holds(hash, H0)
  {
    hash := new Word[8];
    hash[0], hash[1], hash[2], hash[3] := 0x6a09e667, 0xbb67ae85, 0x3c6ef372, 0xa54ff53a;
    hash[4], hash[5], hash[6], hash[7] := 0x510e527f, 0x9b05688c, 0x1f83d9ab, 0x5be0cd19;
  }

  lemma NextBlock(p: seq<Byte>, n: nat)
    requires 64 * n + 64 <= |p|
    ensures var s := HashBlocks(p, n);
      HashBlocks(p, n + 1) == Add(s, Rounds(s, Block(p, n), 64))
  {
    hide Rounds, Add, Block;
  }

  /** The padding loop and the eight length bytes; the bit length wraps at 64 bits. */
  method PaddedBytes(input: seq<Byte>) returns (bytes: seq<Byte>)
    ensures |bytes| == |Pad(input)|
    ensures |input| < 0x2000_0000_0000_0000 ==> bytes == Pad(input)
  {
    hide Pad, ZeroBytes, BigEndian64;
    bytes := input;
    var bitLength := (|bytes| * 8) % UINT64_SIZE;
    assert |input| < 0x2000_0000_0000_0000 ==> bitLength == 8 * |input|;
    bytes := PadZeros(bytes + [0x80], |input|);
    var length := LengthBytes(bitLength);
    bytes := bytes + length;
    PadParts(input);
  }

  /** The padding loop. */
  method PadZeros(start: seq<Byte>, ghost n: nat) returns (bytes: seq<Byte>)
    requires |start| == n + 1
    ensures bytes == start + ZeroFill(ZeroBytes(n))
  {
    hide ZeroBytes;
    bytes := start;
    ghost var zeros := 0;
    ZeroBytesLeast(n, 0);
    while |bytes| % 64 != 56
      invariant zeros <= ZeroBytes(n)
      invariant (n + 1 + zeros) % 64 == 56 <==> zeros == ZeroBytes(n)
      invariant |bytes| == n + 1 + zeros && bytes == start + ZeroFill(zeros)
      decreases ZeroBytes(n) - zeros
    {
      bytes := bytes + [0];
      zeros := zeros + 1;
      ZeroBytesLeast(n, zeros);
    }
  }

  lemma PadParts(m: seq<Byte>)
    ensures Pad(m) == m + [0x80] + ZeroFill(ZeroBytes(|m|)) + BigEndian64(8 * |m|)
  {
  }

  method LengthBytes(bitLength: nat) returns (bytes: seq<Byte>)
    ensures bytes == BigEndian64(bitLength)
  {
    hide PowerOf256;
    bytes := [];
    var shift := 56;
    ghost var k := 0;
    while shift >= 0
      invariant 0 <= k <= 8 && shift == 56 - 8 * k
      invariant bytes == BigEndian64(bitLength)[..k]
    {
      assert shift / 8 == 7 - k;
      var byte := ((bitLength / PowerOf256(shift / 8)) % 256) as Byte;
      assert byte == BigEndian64(bitLength)[k];
      bytes := bytes + [byte];
      shift := shift - 8;
      k := k + 1;
    }
  }

  /** The message schedule of one block. */
  method Schedule(block: seq<Byte>) returns (words: array<Word>)
    requires |block| == 64
    ensures fresh(words) && words.Length == 64
    ensures forall t :: 0 <= t < 64 ==> words[t] == W(block, t)
  {
    hide SmallSigma0, SmallSigma1, Sum, WordAt;
    words := new Word[64];
    for i := 0 to 16
      invariant forall t :: 0 <= t < i ==> words[t] == W(block, t)
    {
      words[i] := WordAt(block, i);
    }
    for i := 16 to 64
      invariant forall t :: 0 <= t < i ==> words[t] == W(block, t)
    {
      var s0 := SmallSigma0(words[i - 15]);
      var s1 := SmallSigma1(words[i - 2]);
      Reordered(words[i - 16], s0, words[i - 7], s1);
      words[i] := Sum(Sum(Sum(words[i - 16], s0), words[i - 7]), s1);
    }
  }

  /** The order in which the source adds the four terms does not matter. */
  lemma Reordered(p: Word, q: Word, r: Word, s: Word)
    ensures Sum(Sum(Sum(p, q), r), s) == Sum(Sum(Sum(s, r), q), p)
  {
    calc {
      Sum(Sum(Sum(p, q), r), s);
      Sum(Sum(p + q, r), s);
      Sum((p + q) + r, s);
      ((p + q) + r) + s;
      { AdditionReverses(p, q, r, s); }
      ((s + r) + q) + p;
      Sum((s + r) + q, p);
      Sum(Sum(s + r, q), p);
      Sum(Sum(Sum(s, r), q), p);
    }
  }

  lemma AdditionReverses(p: Word, q: Word, r: Word, s: Word)
    ensures ((p + q) + r) + s == ((s + r) + q) + p
  {
  }

  /** The 64 rounds over one block, added into the hash value in place. */
  method Compress(hash: array<Word>, words: array<Word>, ghost block: seq<Byte>, ghost before: State)
    requires hash.Length == 8 && words.Length == 64 && |block| == 64 && hash != words
    requires forall t :: 0 <= t < 64 ==> words[t] == W(block, t)
    requires Holds(hash, before)
    modifies hash
    ensures Holds(hash, Add(before, Rounds(before, block, 64)))
  {
    hide BigSigma0, BigSigma1, Ch, Maj, Sum, W, Add;
    var a, b, c, d := hash[0], hash[1], hash[2], hash[3];
    var e, f, g, h := hash[4], hash[5], hash[6], hash[7];
    for i := 0 to 64
      invariant State(a, b, c, d, e, f, g, h) == Rounds(before, block, i)
    {
      var s1 := BigSigma1(e);
      var choose := Ch(e, f, g);
      var temp1 := Sum(Sum(Sum(Sum(h, s1), choose), K[i]), words[i]);
      var s0 := BigSigma0(a);
      var majority := Maj(a, b, c);
      var temp2 := Sum(s0, majority);
      h := g;
      g := f;
      f := e;
      e := Sum(d, temp1);
      d := c;
      c := b;
      b := a;
      a := Sum(temp1, temp2);
    }
    AddInto(hash, before, State(a, b, c, d, e, f, g, h));
  }

  method AddInto(hash: array<Word>, ghost before: State, r: State)
    requires hash.Length == 8 && Holds(hash, before)
    modifies hash
    ensures Holds(hash, Add(before, r))
  {
    hide Sum;
    hash[0], hash[1], hash[2], hash[3] :=
      Sum(hash[0], r.a), Sum(hash[1], r.b), Sum(hash[2], r.c), Sum(hash[3], r.d);
    hash[4], hash[5], hash[6], hash[7] :=
      Sum(hash[4], r.e), Sum(hash[5], r.f), Sum(hash[6], r.g), Sum(hash[7], r.h);
  }

  method HexText(hash: array<Word>, ghost s: State) returns (text: string)
    requires hash.Length == 8 && Holds(hash, s)
    ensures text == HexWords(Words(s))
  {
    hide HexWord, HexWords;
    text := "";
    for i := 0 to 8
      invariant text == HexWords(hash[..i])
    {
      HexWordsAppend(hash[..i], hash[i]);
      assert hash[..i] + [hash[i]] == hash[..i + 1];
      text := text + HexWord(hash[i]);
    }
    assert hash[..8] == Words(s);
  }
}
