/**
 The Viewer's hand-rolled SHA-256 (FIPS 180-4) and its constant-time comparison.

 Bytes and words are machine words, with the rotations, shifts and wrap-around of the
 code. The in-place loops are proved against the standard's recursive definitions.
 */
module Sha256 {
  type Byte = bv8
  type Word = bv32

  const K: seq<Word> := K0 + K1 + K2 + K3

  const K0: seq<Word> := [
    0x428a2f98, 0x71374491, 0xb5c0fbcf, 0xe9b5dba5, 0x3956c25b, 0x59f111f1, 0x923f82a4, 0xab1c5ed5,
    0xd807aa98, 0x12835b01, 0x243185be, 0x550c7dc3, 0x72be5d74, 0x80deb1fe, 0x9bdc06a7, 0xc19bf174]

  const K1: seq<Word> := [
    0xe49b69c1, 0xefbe4786, 0x0fc19dc6, 0x240ca1cc, 0x2de92c6f, 0x4a7484aa, 0x5cb0a9dc, 0x76f988da,
    0x983e5152, 0xa831c66d, 0xb00327c8, 0xbf597fc7, 0xc6e00bf3, 0xd5a79147, 0x06ca6351, 0x14292967]

  const K2: seq<Word> := [
    0x27b70a85, 0x2e1b2138, 0x4d2c6dfc, 0x53380d13, 0x650a7354, 0x766a0abb, 0x81c2c92e, 0x92722c85,
    0xa2bfe8a1, 0xa81a664b, 0xc24b8b70, 0xc76c51a3, 0xd192e819, 0xd6990624, 0xf40e3585, 0x106aa070]

  const K3: seq<Word> := [
    0x19a4c116, 0x1e376c08, 0x2748774c, 0x34b0bcb5, 0x391c0cb3, 0x4ed8aa4a, 0x5b9cca4f, 0x682e6ff3,
    0x748f82ee, 0x78a5636f, 0x84c87814, 0x8cc70208, 0x90befffa, 0xa4506ceb, 0xbef9a3f7, 0xc67178f2]

  // ---- Padding (section 5.1.1) ----

  /** The number of zero bytes between the marker and the length. */
  function ZeroCount(n: nat): nat {
    (119 - n % 64) % 64
  }

  function Zeros(n: nat): (zeros: seq<Byte>)
    ensures |zeros| == n
  {
    seq(n, _ => 0 as Byte)
  }

  function BitLength(n: nat): nat {
    n * 8 % 0x1_0000_0000_0000_0000
  }

  function Digit256(n: nat, i: nat): Byte {
    (n / Pow256(i) % 256) as Byte
  }

  function Pow256(i: nat): (p: nat)
    ensures p > 0
  {
    if i == 0 then 1 else 256 * Pow256(i - 1)
  }

  /** A 64-bit number, most significant byte first. */
  function BigEndian(n: nat): seq<Byte> {
    seq(8, i requires 0 <= i < 8 => Digit256(n, 7 - i))
  }

  function Padded(m: seq<Byte>): seq<Byte> {
    m + [0x80] + Zeros(ZeroCount(|m|)) + BigEndian(BitLength(|m|))
  }

  /** The padding stops at the first length that is 56 modulo 64. */
  lemma ZerosNeeded(n: nat, zeros: nat)
    requires zeros <= ZeroCount(n)
    ensures (n + 1 + zeros) % 64 == 56 <==> zeros == ZeroCount(n)
  {
    var q, r := n / 64, n % 64;
    assert n + 1 + zeros == q * 64 + (r + 1 + zeros);
  }

  method Pad(input: seq<Byte>) returns (msg: seq<Byte>)
    ensures msg == Padded(input)
  {
    var bitLength := |input| * 8 % 0x1_0000_0000_0000_0000;
    msg := input + [0x80];
    ghost var zeros := 0;
    ZerosNeeded(|input|, 0);
    while |msg| % 64 != 56
      invariant zeros <= ZeroCount(|input|) && |msg| == |input| + 1 + zeros
      invariant |msg| % 64 == 56 <==> zeros == ZeroCount(|input|)
      invariant msg == input + [0x80] + Zeros(zeros)
      decreases ZeroCount(|input|) - zeros
    {
      PushZero(input + [0x80], zeros);
      msg := msg + [0];
      zeros := zeros + 1;
      ZerosNeeded(|input|, zeros);
    }
    msg := msg + BigEndian(bitLength);
  }

  lemma PushZero(xs: seq<Byte>, n: nat)
    ensures xs + Zeros(n) + [0] == xs + Zeros(n + 1)
  {
  }

  lemma PaddedLength(m: seq<Byte>)
    ensures |Padded(m)| == |m| + 9 + ZeroCount(|m|) && |Padded(m)| % 64 == 0
  {
    ZerosNeeded(|m|, ZeroCount(|m|));
    WholeBlocks(|m| + 1 + ZeroCount(|m|));
  }

  lemma WholeBlocks(n: nat)
    requires n % 64 == 56
    ensures (n + 8) % 64 == 0
  {
  }

  // ---- The hash computation (section 6.2.2) ----

  /** Addition modulo 2^32. */
  function Add(x: Word, y: Word): Word { x + y }
  function Sum4(x: Word, y: Word, z: Word, u: Word): Word { x + y + z + u }

  function BigSigma0(x: Word): Word { x.RotateRight(2) ^ x.RotateRight(13) ^ x.RotateRight(22) }
  function BigSigma1(x: Word): Word { x.RotateRight(6) ^ x.RotateRight(11) ^ x.RotateRight(25) }
  function SmallSigma0(x: Word): Word { x.RotateRight(7) ^ x.RotateRight(18) ^ (x >> 3) }
  function SmallSigma1(x: Word): Word { x.RotateRight(17) ^ x.RotateRight(19) ^ (x >> 10) }
  function Ch(x: Word, y: Word, z: Word): Word { (x & y) ^ (!x & z) }
  function Maj(x: Word, y: Word, z: Word): Word { (x & y) ^ (x & z) ^ (y & z) }

  function BlockWord(block: seq<Byte>, t: nat): Word
    requires |block| == 64 && t < 16
  {
    (block[4 * t] as Word << 24) | (block[4 * t + 1] as Word << 16)
    | (block[4 * t + 2] as Word << 8) | block[4 * t + 3] as Word
  }

  /** The message schedule. */
  function Schedule(block: seq<Byte>, t: nat): Word
    requires |block| == 64 && t < 64
  {
    if t < 16 then BlockWord(block, t)
    else Sum4(SmallSigma1(Schedule(block, t - 2)), Schedule(block, t - 7),
              SmallSigma0(Schedule(block, t - 15)), Schedule(block, t - 16))
  }

  /** The eight working variables, or the eight words of the hash value. */
  datatype Hash = Hash(a: Word, b: Word, c: Word, d: Word, e: Word, f: Word, g: Word, h: Word)

  function Round(s: Hash, k: Word, w: Word): Hash {
    var t1 := Add(Add(Add(Add(s.h, BigSigma1(s.e)), Ch(s.e, s.f, s.g)), k), w);
    var t2 := Add(BigSigma0(s.a), Maj(s.a, s.b, s.c));
    Hash(Add(t1, t2), s.a, s.b, s.c, Add(s.d, t1), s.e, s.f, s.g)
  }

  function Rounds(s: Hash, block: seq<Byte>, t: nat): Hash
    requires |block| == 64 && t <= 64
  {
    if t == 0 then s else Round(Rounds(s, block, t - 1), K[t - 1], Schedule(block, t - 1))
  }

  function Plus(x: Hash, y: Hash): Hash {
    Hash(Add(x.a, y.a), Add(x.b, y.b), Add(x.c, y.c), Add(x.d, y.d),
         Add(x.e, y.e), Add(x.f, y.f), Add(x.g, y.g), Add(x.h, y.h))
  }

  const INITIAL := Hash(0x6a09e667, 0xbb67ae85, 0x3c6ef372, 0xa54ff53a, 0x510e527f, 0x9b05688c, 0x1f83d9ab, 0x5be0cd19)

  /** Block `n` of the padded message. */
  function Block(msg: seq<Byte>, n: nat): (block: seq<Byte>)
    requires 64 * (n + 1) <= |msg|
    ensures |block| == 64
  {
    msg[64 * n..64 * (n + 1)]
  }

  /** The hash value after the first `n` blocks. */
  function HashOf(msg: seq<Byte>, n: nat): Hash
    requires 64 * n <= |msg|
  {
    if n == 0 then INITIAL
    else Plus(HashOf(msg, n - 1), Rounds(HashOf(msg, n - 1), Block(msg, n - 1), 64))
  }

  function WordBytes(w: Word): seq<Byte> {
    [((w >> 24) & 0xff) as Byte, ((w >> 16) & 0xff) as Byte, ((w >> 8) & 0xff) as Byte, (w & 0xff) as Byte]
  }

  function HashBytes(s: Hash): seq<Byte> {
    WordBytes(s.a) + WordBytes(s.b) + WordBytes(s.c) + WordBytes(s.d)
    + WordBytes(s.e) + WordBytes(s.f) + WordBytes(s.g) + WordBytes(s.h)
  }

  function Digest(m: seq<Byte>): seq<Byte> {
    var msg := Padded(m);
    HashBytes(HashOf(msg, |msg| / 64))
  }

  method ExpandSchedule(block: seq<Byte>) returns (w: array<Word>)
    requires |block| == 64
    ensures fresh(w) && w.Length == 64
    ensures forall t :: 0 <= t < 64 ==> w[t] == Schedule(block, t)
  {
    w := new Word[64];
    for i := 0 to 16
      invariant forall t :: 0 <= t < i ==> w[t] == Schedule(block, t)
    {
      w[i] := BlockWord(block, i);
    }
    for i := 16 to 64
      invariant forall t :: 0 <= t < i ==> w[t] == Schedule(block, t)
    {
      var s0 := SmallSigma0(w[i - 15]);
      var s1 := SmallSigma1(w[i - 2]);
      ReorderSum(w[i - 16], s0, w[i - 7], s1);
      w[i] := Sum4(w[i - 16], s0, w[i - 7], s1);
    }
  }

  lemma ReorderSum(x: Word, y: Word, z: Word, u: Word)
    ensures Sum4(x, y, z, u) == Sum4(u, z, y, x)
  {
  }

  /** One block: eight variables rotate through sixty-four rounds and are added to the hash value. */
  method Compress(hash: Hash, block: seq<Byte>) returns (next: Hash)
    requires |block| == 64
    ensures next == Plus(hash, Rounds(hash, block, 64))
  {
    var w := ExpandSchedule(block);
    var a, b, c, d, e, f, g, hh := hash.a, hash.b, hash.c, hash.d, hash.e, hash.f, hash.g, hash.h;
    for i := 0 to 64
      invariant Hash(a, b, c, d, e, f, g, hh) == Rounds(hash, block, i)
    {
      var s1 := BigSigma1(e);
      var ch := Ch(e, f, g);
      var temp1 := Add(Add(Add(Add(hh, s1), ch), K[i]), w[i]);
      var s0 := BigSigma0(a);
      var maj := Maj(a, b, c);
      var temp2 := Add(s0, maj);
      hh := g;
      g := f;
      f := e;
      e := Add(d, temp1);
      d := c;
      c := b;
      b := a;
      a := Add(temp1, temp2);
    }
    next := Plus(hash, Hash(a, b, c, d, e, f, g, hh));
  }

  method Sha256(input: seq<Byte>) returns (out: seq<Byte>)
    ensures out == Digest(input)
  {
    var msg := Pad(input);
    PaddedLength(input);
    var h := INITIAL;
    for n := 0 to |msg| / 64
      invariant h == HashOf(msg, n)
    {
      h := Compress(h, Block(msg, n));
    }
    out := HashBytes(h);
  }

  // ---- Padding loses nothing ----

  /** The zero count is the standard's: the smallest solution of l + 1 + k = 448 modulo 512, in bits. */
  lemma PaddingIsMinimal(n: nat, k: nat)
    ensures (8 * n + 1 + (8 * ZeroCount(n) + 7)) % 512 == 448
    ensures (8 * n + 1 + k) % 512 == 448 ==> 8 * ZeroCount(n) + 7 <= k
  {
    var q, r := n / 64, n % 64;
    assert 8 * n == 512 * q + 8 * r;
  }

  /** Padding is injective on all messages, even those whose bit length wraps: the marker of the
      longer message would fall among the zeros of the shorter. */
  lemma PaddingIsInjective(m: seq<Byte>, m': seq<Byte>)
    requires Padded(m) == Padded(m')
    ensures m == m'
  {
    PaddedLength(m);
    PaddedLength(m');
    MarkerThenZeros(m);
    MarkerThenZeros(m');
    var p := Padded(m);
    assert |m| == |m'|;
    assert m == p[..|m|] && m' == p[..|m|];
  }

  lemma MarkerThenZeros(m: seq<Byte>)
    ensures |m| <= |Padded(m)| - 9
    ensures Padded(m)[|m|] == 0x80
    ensures forall i :: |m| < i < |Padded(m)| - 8 ==> Padded(m)[i] == 0
  {
  }

  // ---- Comparison ----

  /** `a |= x ^ y` leaves a zero only if it was zero and `x == y`. */
  lemma OrXorZero(d: Byte, x: Byte, y: Byte)
    ensures d | (x ^ y) == 0 <==> d == 0 && x == y
  {
  }

  method ConstantTimeEq(a: seq<Byte>, b: seq<Byte>) returns (eq: bool)
    ensures eq <==> a == b
  {
    if |a| != |b| {
      return false;
    }
    var diff: Byte := 0;
    for i := 0 to |a|
      invariant diff == 0 <==> a[..i] == b[..i]
    {
      OrXorZero(diff, a[i], b[i]);
      diff := diff | (a[i] ^ b[i]);
      assert a[..i + 1] == a[..i] + [a[i]] && b[..i + 1] == b[..i] + [b[i]];
    }
    assert a[..|a|] == a && b[..|b|] == b;
    eq := diff == 0;
  }

  /** Two passwords are accepted as equal exactly when their digests are. */
  method PasswordMatches(expected: seq<Byte>, provided: seq<Byte>) returns (ok: bool)
    ensures ok <==> Digest(expected) == Digest(provided)
    ensures expected == provided ==> ok
  {
    var x := Sha256(expected);
    var y := Sha256(provided);
    ok := ConstantTimeEq(x, y);
  }
}
