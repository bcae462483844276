/**
 The known answers of FIPS 180-4, worked out: the schedule eight words and the rounds eight
 rounds at a time, each from the words before it.

 A `Hash` serves as any eight words. The tables give the words and the working variables that
 the standard's functions must yield; states are four rounds apart, so that each one holds
 every value assigned since the one before. `ABC` is the one-block message, `LA` and `LB` are
 the two blocks of the longer one; `W` are words, `S` states.
 */
module Sha256Vectors {
  import opened Sha256

  /** The words of the schedule from `t` on. */
  ghost predicate WordsAre(block: seq<Byte>, t: nat, w: Hash)
    requires |block| == 64 && t + 8 <= 64
  {
    && Schedule(block, t) == w.a && Schedule(block, t + 1) == w.b
    && Schedule(block, t + 2) == w.c && Schedule(block, t + 3) == w.d
    && Schedule(block, t + 4) == w.e && Schedule(block, t + 5) == w.f
    && Schedule(block, t + 6) == w.g && Schedule(block, t + 7) == w.h
  }

  /** The words of a sequence from `t` on. */
  ghost predicate EightAre(xs: seq<Word>, t: nat, k: Hash) {
    && t + 8 <= |xs|
    && xs[t] == k.a && xs[t + 1] == k.b && xs[t + 2] == k.c && xs[t + 3] == k.d
    && xs[t + 4] == k.e && xs[t + 5] == k.f && xs[t + 6] == k.g && xs[t + 7] == k.h
  }

  function NextWord(w16: Word, w15: Word, w7: Word, w2: Word): Word {
    Sum4(SmallSigma1(w2), w7, SmallSigma0(w15), w16)
  }

  /** Eight words of the schedule after sixteen. */
  function NextWords(x: Hash, y: Hash): Hash {
    var a := NextWord(x.a, x.b, y.b, y.g);
    var b := NextWord(x.b, x.c, y.c, y.h);
    var c := NextWord(x.c, x.d, y.d, a);
    var d := NextWord(x.d, x.e, y.e, b);
    var e := NextWord(x.e, x.f, y.f, c);
    var f := NextWord(x.f, x.g, y.g, d);
    var g := NextWord(x.g, x.h, y.h, e);
    Hash(a, b, c, d, e, f, g, NextWord(x.h, y.a, a, f))
  }

  lemma WordAt(block: seq<Byte>, t: nat)
    requires |block| == 64 && 16 <= t < 64
    ensures Schedule(block, t) ==
      NextWord(Schedule(block, t - 16), Schedule(block, t - 15), Schedule(block, t - 7), Schedule(block, t - 2))
  {
  }

  lemma WordsFollow(block: seq<Byte>, t: nat, x: Hash, y: Hash)
    requires |block| == 64 && t + 24 <= 64 && WordsAre(block, t, x) && WordsAre(block, t + 8, y)
    ensures WordsAre(block, t + 16, NextWords(x, y))
  {
    hide Schedule, NextWord;
    WordAt(block, t + 16);
    WordAt(block, t + 17);
    WordAt(block, t + 18);
    WordAt(block, t + 19);
    WordAt(block, t + 20);
    WordAt(block, t + 21);
    WordAt(block, t + 22);
    WordAt(block, t + 23);
  }

  /** Four rounds lead from `s` to `n`, which holds the values they assign. */
  predicate Turned(s: Hash, n: Hash, k0: Word, w0: Word, k1: Word, w1: Word, k2: Word, w2: Word, k3: Word, w3: Word) {
    && Round(s, k0, w0) == Hash(n.d, s.a, s.b, s.c, n.h, s.e, s.f, s.g)
    && Round(Hash(n.d, s.a, s.b, s.c, n.h, s.e, s.f, s.g), k1, w1) == Hash(n.c, n.d, s.a, s.b, n.g, n.h, s.e, s.f)
    && Round(Hash(n.c, n.d, s.a, s.b, n.g, n.h, s.e, s.f), k2, w2) == Hash(n.b, n.c, n.d, s.a, n.f, n.g, n.h, s.e)
    && Round(Hash(n.b, n.c, n.d, s.a, n.f, n.g, n.h, s.e), k3, w3) == n
  }

  /** Eight rounds lead from `s` over `m` to `n`. */
  predicate Eight(s: Hash, m: Hash, n: Hash, k: Hash, w: Hash) {
    && Turned(s, m, k.a, w.a, k.b, w.b, k.c, w.c, k.d, w.d)
    && Turned(m, n, k.e, w.e, k.f, w.f, k.g, w.g, k.h, w.h)
  }

  lemma RoundAt(start: Hash, block: seq<Byte>, t: nat)
    requires |block| == 64 && t < 64
    ensures Rounds(start, block, t + 1) == Round(Rounds(start, block, t), K[t], Schedule(block, t))
  {
  }

  lemma EightRounds(start: Hash, block: seq<Byte>, t: nat, s: Hash, m: Hash, n: Hash, k: Hash, w: Hash)
    requires |block| == 64 && t + 8 <= 64 && EightAre(K, t, k) && WordsAre(block, t, w)
    requires Rounds(start, block, t) == s && Eight(s, m, n, k, w)
    ensures Rounds(start, block, t + 8) == n
  {
    hide Schedule, Round, Rounds;
    RoundAt(start, block, t);
    RoundAt(start, block, t + 1);
    RoundAt(start, block, t + 2);
    RoundAt(start, block, t + 3);
    RoundAt(start, block, t + 4);
    RoundAt(start, block, t + 5);
    RoundAt(start, block, t + 6);
    RoundAt(start, block, t + 7);
  }

  // ---- The constants (section 4.2.2) ----

  const KEYS0 := Hash(0x428a2f98, 0x71374491, 0xb5c0fbcf, 0xe9b5dba5, 0x3956c25b, 0x59f111f1, 0x923f82a4, 0xab1c5ed5)
  const KEYS1 := Hash(0xd807aa98, 0x12835b01, 0x243185be, 0x550c7dc3, 0x72be5d74, 0x80deb1fe, 0x9bdc06a7, 0xc19bf174)
  const KEYS2 := Hash(0xe49b69c1, 0xefbe4786, 0x0fc19dc6, 0x240ca1cc, 0x2de92c6f, 0x4a7484aa, 0x5cb0a9dc, 0x76f988da)
  const KEYS3 := Hash(0x983e5152, 0xa831c66d, 0xb00327c8, 0xbf597fc7, 0xc6e00bf3, 0xd5a79147, 0x06ca6351, 0x14292967)
  const KEYS4 := Hash(0x27b70a85, 0x2e1b2138, 0x4d2c6dfc, 0x53380d13, 0x650a7354, 0x766a0abb, 0x81c2c92e, 0x92722c85)
  const KEYS5 := Hash(0xa2bfe8a1, 0xa81a664b, 0xc24b8b70, 0xc76c51a3, 0xd192e819, 0xd6990624, 0xf40e3585, 0x106aa070)
  const KEYS6 := Hash(0x19a4c116, 0x1e376c08, 0x2748774c, 0x34b0bcb5, 0x391c0cb3, 0x4ed8aa4a, 0x5b9cca4f, 0x682e6ff3)
  const KEYS7 := Hash(0x748f82ee, 0x78a5636f, 0x84c87814, 0x8cc70208, 0x90befffa, 0xa4506ceb, 0xbef9a3f7, 0xc67178f2)

  lemma InParts()
    ensures |K0| == |K1| == |K2| == |K3| == 16
    ensures EightAre(K0, 0, KEYS0) && EightAre(K0, 8, KEYS1) && EightAre(K1, 0, KEYS2) && EightAre(K1, 8, KEYS3)
    ensures EightAre(K2, 0, KEYS4) && EightAre(K2, 8, KEYS5) && EightAre(K3, 0, KEYS6) && EightAre(K3, 8, KEYS7)
  {
  }

  lemma Around(xs: seq<Word>, ys: seq<Word>, t: nat, k: Hash)
    requires EightAre(xs, t, k)
    ensures EightAre(xs + ys, t, k) && EightAre(ys + xs, |ys| + t, k)
  {
  }

  /** Where an eight of one of four concatenated sixteens lies. */
  lemma Parts(a: seq<Word>, b: seq<Word>, c: seq<Word>, d: seq<Word>, t: nat, k: Hash)
    requires |a| == |b| == |c| == |d| == 16
    ensures EightAre(a, t, k) ==> EightAre(a + b + c + d, t, k)
    ensures EightAre(b, t, k) ==> EightAre(a + b + c + d, 16 + t, k)
    ensures EightAre(c, t, k) ==> EightAre(a + b + c + d, 32 + t, k)
    ensures EightAre(d, t, k) ==> EightAre(a + b + c + d, 48 + t, k)
  {
    hide EightAre;
    if EightAre(a, t, k) {
      Around(a, b, t, k);
      Around(a + b, c, t, k);
      Around(a + b + c, d, t, k);
    }
    if EightAre(b, t, k) {
      Around(b, a, t, k);
      Around(a + b, c, 16 + t, k);
      Around(a + b + c, d, 16 + t, k);
    }
    if EightAre(c, t, k) {
      Around(c, a + b, t, k);
      Around(a + b + c, d, 32 + t, k);
    }
    if EightAre(d, t, k) {
      Around(d, a + b + c, t, k);
    }
  }

  lemma Keys()
    ensures EightAre(K, 0, KEYS0) && EightAre(K, 8, KEYS1) && EightAre(K, 16, KEYS2) && EightAre(K, 24, KEYS3)
    ensures EightAre(K, 32, KEYS4) && EightAre(K, 40, KEYS5) && EightAre(K, 48, KEYS6) && EightAre(K, 56, KEYS7)
  {
    hide EightAre;
    InParts();
    Parts(K0, K1, K2, K3, 0, KEYS0);
    Parts(K0, K1, K2, K3, 8, KEYS1);
    Parts(K0, K1, K2, K3, 0, KEYS2);
    Parts(K0, K1, K2, K3, 8, KEYS3);
    Parts(K0, K1, K2, K3, 0, KEYS4);
    Parts(K0, K1, K2, K3, 8, KEYS5);
    Parts(K0, K1, K2, K3, 0, KEYS6);
    Parts(K0, K1, K2, K3, 8, KEYS7);
  }

  // ---- The first words of a block ----

  function WordOf(b0: Byte, b1: Byte, b2: Byte, b3: Byte): Word {
    (b0 as Word << 24) | (b1 as Word << 16) | (b2 as Word << 8) | b3 as Word
  }

  lemma Below(n: nat, p: nat)
    requires n < p
    ensures n / p == 0
  {
  }

  /** The last bytes of a short message's length. */
  lemma SmallDigits(n: nat, i: nat)
    requires n < 0x1_0000
    ensures Digit256(n, i) == (if i == 0 then n % 256 else if i == 1 then n / 256 else 0) as Byte
  {
    assert Pow256(1) == 256 * Pow256(0);
    if i >= 2 {
      assert Pow256(i) == 256 * Pow256(i - 1) && Pow256(i - 1) == 256 * Pow256(i - 2);
      Below(n, Pow256(i));
    }
  }

  /** Byte `i` of a short padded message of `n` bytes, after the message. */
  function PadByte(n: nat, i: nat): Byte
    requires n < 0x1_0000
  {
    var end := n + 9 + ZeroCount(n);
    if i == n then 0x80 else if i == end - 1 then (8 * n % 256) as Byte
    else if i == end - 2 then (8 * n / 256 % 256) as Byte else 0
  }

  lemma MessageByte(m: seq<Byte>, i: nat)
    requires i < |m|
    ensures i < |Padded(m)| && Padded(m)[i] == m[i]
  {
  }

  lemma LengthByte(m: seq<Byte>, j: nat)
    requires j < 8
    ensures |Padded(m)| >= 8 && Padded(m)[|Padded(m)| - 8 + j] == Digit256(BitLength(|m|), 7 - j)
  {
    hide Digit256, BitLength;
    var start := m + [0x80] + Zeros(ZeroCount(|m|));
    assert Padded(m) == start + BigEndian(BitLength(|m|));
  }

  lemma PaddedByte(m: seq<Byte>, i: nat)
    requires |m| < 0x1000 && i < |Padded(m)|
    ensures Padded(m)[i] == if i < |m| then m[i] else PadByte(|m|, i)
  {
    hide Padded, Digit256, ZeroCount;
    PaddedLength(m);
    MarkerThenZeros(m);
    var end := |Padded(m)|;
    if i < |m| {
      MessageByte(m, i);
    } else if i >= end - 8 {
      LengthByte(m, i - (end - 8));
      SmallDigits(8 * |m|, end - 1 - i);
    }
  }

  lemma WordInBlock(msg: seq<Byte>, n: nat, t: nat, i: nat)
    requires 64 * (n + 1) <= |msg| && t < 16 && i == 64 * n + 4 * t
    ensures Schedule(Block(msg, n), t) == WordOf(msg[i], msg[i + 1], msg[i + 2], msg[i + 3])
  {
    var block := Block(msg, n);
    assert block[4 * t] == msg[i] && block[4 * t + 1] == msg[i + 1];
    assert block[4 * t + 2] == msg[i + 2] && block[4 * t + 3] == msg[i + 3];
  }

  lemma PaddedWord(m: seq<Byte>, n: nat, t: nat, b0: Byte, b1: Byte, b2: Byte, b3: Byte)
    requires |m| < 0x1000 && 64 * (n + 1) <= |Padded(m)| && t < 16
    requires var i := 64 * n + 4 * t;
      && b0 == (if i < |m| then m[i] else PadByte(|m|, i))
      && b1 == (if i + 1 < |m| then m[i + 1] else PadByte(|m|, i + 1))
      && b2 == (if i + 2 < |m| then m[i + 2] else PadByte(|m|, i + 2))
      && b3 == (if i + 3 < |m| then m[i + 3] else PadByte(|m|, i + 3))
    ensures Schedule(Block(Padded(m), n), t) == WordOf(b0, b1, b2, b3)
  {
    hide Padded, PadByte, Schedule, Block, WordOf;
    var i := 64 * n + 4 * t;
    PaddedByte(m, i);
    PaddedByte(m, i + 1);
    PaddedByte(m, i + 2);
    PaddedByte(m, i + 3);
    WordInBlock(Padded(m), n, t, i);
  }

  lemma RoundsStart(start: Hash, block: seq<Byte>)
    requires |block| == 64
    ensures Rounds(start, block, 0) == start
  {
  }

  // ---- One block ----

  const ABC_W0 := Hash(0x61626380, 0x00000000, 0x00000000, 0x00000000, 0x00000000, 0x00000000, 0x00000000, 0x00000000)
  const ABC_W1 := Hash(0x00000000, 0x00000000, 0x00000000, 0x00000000, 0x00000000, 0x00000000, 0x00000000, 0x00000018)
  const ABC_W2 := Hash(0x61626380, 0x000f0000, 0x7da86405, 0x600003c6, 0x3e9d7b78, 0x0183fc00, 0x12dcbfdb, 0xe2e2c38e)
  const ABC_W3 := Hash(0xc8215c1a, 0xb73679a2, 0xe5bc3909, 0x32663c5b, 0x9d209d67, 0xec8726cb, 0x702138a4, 0xd3b7973b)
  const ABC_W4 := Hash(0x93f5997f, 0x3b68ba73, 0xaff4ffc1, 0xf10a5c62, 0x0a8b3996, 0x72af830a, 0x9409e33e, 0x24641522)
  const ABC_W5 := Hash(0x9f47bf94, 0xf0a64f5a, 0x3e246a79, 0x27333ba3, 0x0c4763f2, 0x840abf27, 0x7a290d5d, 0x065c43da)
  const ABC_W6 := Hash(0xfb3e89cb, 0xcc7617db, 0xb9e66c34, 0xa9993667, 0x84badedd, 0xc21462bc, 0x1487472c, 0xb20f7a99)
  const ABC_W7 := Hash(0xef57b9cd, 0xebe6b238, 0x9fe3095e, 0x78bc8d4b, 0xa43fcf15, 0x668b2ff8, 0xeeaba2cc, 0x12b1edeb)
  const ABC_S1 := Hash(0xd550f666, 0xc8c347a7, 0x5a6ad9ad, 0x5d6aebcd, 0x24e00850, 0xf92939eb, 0x78ce7989, 0xfa2a4622)
  const ABC_S2 := Hash(0x85a07b5f, 0xe5030380, 0x2b4209f5, 0x04409a6a, 0x0c657a79, 0x9b27a401, 0x714260ad, 0x43ada245)
  const ABC_S3 := Hash(0xf71fc5a9, 0x4798a3f4, 0x8c87346b, 0x8e04ecb9, 0x816fd6e9, 0x436b23e8, 0x1cc92596, 0x32ca2d8c)
  const ABC_S4 := Hash(0xb0fa238e, 0xc0645fde, 0xd932eb16, 0x87912990, 0x07590dcd, 0x0b92f20c, 0x745a48de, 0x1e578218)
  const ABC_S5 := Hash(0xe1f20c33, 0xfe777bbf, 0xc2fbd9d1, 0x21da9a9b, 0xb0638179, 0xcc899961, 0x846ee454, 0x8034229c)
  const ABC_S6 := Hash(0xc5d53d8d, 0xa7a3623f, 0xc2606d6d, 0x9dc68b63, 0xaa47c347, 0x49f5114a, 0xe1257970, 0x8ada8930)
  const ABC_S7 := Hash(0x77d37528, 0xb62ec4bc, 0xcde8037d, 0x1c2c2838, 0xedffbff8, 0xc74c6516, 0x14383d8e, 0x2823ef91)
  const ABC_S8 := Hash(0x73b33bf5, 0xea992a22, 0xa0060b30, 0x363482c9, 0xba591112, 0x0109ab3a, 0xade79437, 0x6112a3b7)
  const ABC_S9 := Hash(0x65a0cfe4, 0xa9a7738c, 0xfe604df5, 0x98e12507, 0xf4b002d6, 0x085f3833, 0x59249dd3, 0x9cd9f5f6)
  const ABC_S10 := Hash(0x79ea687a, 0x6dc57a8a, 0x34df1604, 0x41a65cb1, 0x1efbc0a0, 0xf0781bc8, 0xa507a53d, 0x0772a26b)
  const ABC_S11 := Hash(0x9d4baf93, 0x17aa0dfe, 0xdf46652f, 0xd6670766, 0xfda24c2e, 0xdecd4715, 0x838b2711, 0x26352d63)
  const ABC_S12 := Hash(0x4172328d, 0xa14c14b0, 0x72ab4b91, 0x26628815, 0xfecf0bc6, 0xd57b94a9, 0xb7755da1, 0xa80f11f0)
  const ABC_S13 := Hash(0x886e7a22, 0x7a0508a1, 0xf11bfaa8, 0x05757ceb, 0x49231c1e, 0x52f1ccf7, 0x6e5c390c, 0xbd714038)
  const ABC_S14 := Hash(0x38cc9913, 0x3ec45cdb, 0xf5702fdb, 0x101fd28f, 0x54cb266b, 0xe50e1b4f, 0x9f4787c3, 0x529e7d00)
  const ABC_S15 := Hash(0xb6ae8fff, 0xffb70472, 0xc062d46f, 0xfcd1887b, 0xb21bad3d, 0x6d83bfc6, 0x7e44008e, 0x9b5e906c)
  const ABC_S16 := Hash(0x506e3058, 0xd39a2165, 0x04d24d6c, 0xb85e2ce9, 0x5ef50f24, 0xfb121210, 0x948d25b6, 0x961f4894)
  const ABC_HASH := Hash(0xba7816bf, 0x8f01cfea, 0x414140de, 0x5dae2223, 0xb00361a3, 0x96177a9c, 0xb410ff61, 0xf20015ad)

  lemma AbcWords()
    ensures NextWords(ABC_W0, ABC_W1) == ABC_W2
    ensures NextWords(ABC_W1, ABC_W2) == ABC_W3
    ensures NextWords(ABC_W2, ABC_W3) == ABC_W4
    ensures NextWords(ABC_W3, ABC_W4) == ABC_W5
    ensures NextWords(ABC_W4, ABC_W5) == ABC_W6
    ensures NextWords(ABC_W5, ABC_W6) == ABC_W7
  {
  }

  lemma AbcRounds0()
    ensures Eight(INITIAL, ABC_S1, ABC_S2, KEYS0, ABC_W0)
  {
  }

  lemma AbcRounds1()
    ensures Eight(ABC_S2, ABC_S3, ABC_S4, KEYS1, ABC_W1)
  {
  }

  lemma AbcRounds2()
    ensures Eight(ABC_S4, ABC_S5, ABC_S6, KEYS2, ABC_W2)
  {
  }

  lemma AbcRounds3()
    ensures Eight(ABC_S6, ABC_S7, ABC_S8, KEYS3, ABC_W3)
  {
  }

  lemma AbcRounds4()
    ensures Eight(ABC_S8, ABC_S9, ABC_S10, KEYS4, ABC_W4)
  {
  }

  lemma AbcRounds5()
    ensures Eight(ABC_S10, ABC_S11, ABC_S12, KEYS5, ABC_W5)
  {
  }

  lemma AbcRounds6()
    ensures Eight(ABC_S12, ABC_S13, ABC_S14, KEYS6, ABC_W6)
  {
  }

  lemma AbcRounds7()
    ensures Eight(ABC_S14, ABC_S15, ABC_S16, KEYS7, ABC_W7)
  {
  }

  lemma AbcBlock(block: seq<Byte>)
    requires |block| == 64 && WordsAre(block, 0, ABC_W0) && WordsAre(block, 8, ABC_W1)
    ensures Plus(INITIAL, Rounds(INITIAL, block, 64)) == ABC_HASH
  {
    hide Schedule, Rounds, Round, NextWords, WordsAre, EightAre, Eight;
    Keys();
    AbcWords();
    WordsFollow(block, 0, ABC_W0, ABC_W1);
    WordsFollow(block, 8, ABC_W1, ABC_W2);
    WordsFollow(block, 16, ABC_W2, ABC_W3);
    WordsFollow(block, 24, ABC_W3, ABC_W4);
    WordsFollow(block, 32, ABC_W4, ABC_W5);
    WordsFollow(block, 40, ABC_W5, ABC_W6);
    RoundsStart(INITIAL, block);
    AbcRounds0();
    EightRounds(INITIAL, block, 0, INITIAL, ABC_S1, ABC_S2, KEYS0, ABC_W0);
    AbcRounds1();
    EightRounds(INITIAL, block, 8, ABC_S2, ABC_S3, ABC_S4, KEYS1, ABC_W1);
    AbcRounds2();
    EightRounds(INITIAL, block, 16, ABC_S4, ABC_S5, ABC_S6, KEYS2, ABC_W2);
    AbcRounds3();
    EightRounds(INITIAL, block, 24, ABC_S6, ABC_S7, ABC_S8, KEYS3, ABC_W3);
    AbcRounds4();
    EightRounds(INITIAL, block, 32, ABC_S8, ABC_S9, ABC_S10, KEYS4, ABC_W4);
    AbcRounds5();
    EightRounds(INITIAL, block, 40, ABC_S10, ABC_S11, ABC_S12, KEYS5, ABC_W5);
    AbcRounds6();
    EightRounds(INITIAL, block, 48, ABC_S12, ABC_S13, ABC_S14, KEYS6, ABC_W6);
    AbcRounds7();
    EightRounds(INITIAL, block, 56, ABC_S14, ABC_S15, ABC_S16, KEYS7, ABC_W7);
  }

  // ---- Two blocks ----

  const LA_W0 := Hash(0x61626364, 0x62636465, 0x63646566, 0x64656667, 0x65666768, 0x66676869, 0x6768696a, 0x68696a6b)
  const LA_W1 := Hash(0x696a6b6c, 0x6a6b6c6d, 0x6b6c6d6e, 0x6c6d6e6f, 0x6d6e6f70, 0x6e6f7071, 0x80000000, 0x00000000)
  const LA_W2 := Hash(0xeb8012ad, 0xa7c3ae92, 0x76e93ba2, 0xba42e743, 0x92a92204, 0xd847e75e, 0x9e160036, 0xb280a7cb)
  const LA_W3 := Hash(0xddeb1516, 0xf36586f4, 0x969cd048, 0xe959d99d, 0x6accc0ec, 0xf54cb098, 0x2af1b2da, 0xee59c4c9)
  const LA_W4 := Hash(0xa835e16a, 0x1dff4429, 0xd6e15959, 0xc397cd6e, 0x6f1801ca, 0x21574205, 0x35ff7a84, 0x9743ee78)
  const LA_W5 := Hash(0xe44183e7, 0x0d09f00d, 0x9c89af54, 0x042d5bef, 0x71f134d0, 0x0f94f463, 0x7e49dc63, 0x6f65c997)
  const LA_W6 := Hash(0x0b706583, 0x179312ca, 0x503054e9, 0xba125c39, 0x7e9392c9, 0xd5cbaa1e, 0x78e0585d, 0xf6e7611c)
  const LA_W7 := Hash(0x8ac830ce, 0x8b47a303, 0xfd6e627f, 0x8c6e2c6a, 0x4001adf1, 0x1a3dd097, 0xa9df6f62, 0x6aa60a39)
  const LA_S1 := Hash(0x4a8d64d5, 0x97651825, 0x2f2d5fcf, 0x5d6aebb1, 0x6494841b, 0x62d5c49e, 0x4eb1cfce, 0xfa2a4606)
  const LA_S2 := Hash(0xd237e6db, 0x485835b7, 0x55c8ef48, 0xf921c212, 0xa401d211, 0x39a5b2ca, 0x7ff91c94, 0x05c4f88a)
  const LA_S3 := Hash(0x1762215c, 0xb8e2b4cb, 0x3a474b2b, 0x359f2bce, 0xee1c97a8, 0x443ed29e, 0x9037b3b8, 0xc09ffec4)
  const LA_S4 := Hash(0xc3486194, 0xdd16cbb3, 0xd68e6457, 0x101a4861, 0x1496a54f, 0x9162aded, 0x9243f8af, 0x839a0fc9)
  const LA_S5 := Hash(0x2139187b, 0xf402f058, 0x046a193e, 0xb9dcacb1, 0x7c304206, 0x6f433549, 0x885370b6, 0xd4f64250)
  const LA_S6 := Hash(0x59fce6b9, 0xae2e2d4f, 0x1b2b66b8, 0xd70ac17d, 0xa2c7d51d, 0xf074fc95, 0xd560b028, 0x7cc6b262)
  const LA_S7 := Hash(0x73f858af, 0x128661da, 0x573221da, 0x4a885065, 0xe77c797f, 0x1162d575, 0x36e74eb4, 0x763597fb)
  const LA_S8 := Hash(0x5581ab07, 0xeb43f3ed, 0xdf7151a0, 0x74bcf468, 0xdf980085, 0x0635d880, 0x7629c961, 0x72abaecd)
  const LA_S9 := Hash(0x0786dce8, 0x1df8e885, 0x9ce5a62f, 0x9fc905c8, 0xde2a21d1, 0x2a9e048e, 0x6ef3b6bd, 0xa94d2af1)
  const LA_S10 := Hash(0x7e4d30b8, 0x91ac9d5d, 0xa985b4be, 0x2c55d3a6, 0x9f5b9b6d, 0x68d8d590, 0xf72bf353, 0xb067c1af)
  const LA_S11 := Hash(0x167361de, 0xb62c7013, 0x508a16ab, 0x7e056794, 0x41dd3844, 0x80a92a00, 0x45459d97, 0x423b26c0)
  const LA_S12 := Hash(0x13d82741, 0x165be9cd, 0x18f0d19d, 0xde71e2f2, 0xa7802a4d, 0xa483f080, 0x6b88472c, 0xff61c636)
  const LA_S13 := Hash(0x81c1cde0, 0x758ca97a, 0x543c99a1, 0x017b9d99, 0x5c47eb7b, 0x100cf2ea, 0x16f134b6, 0xaeb10b60)
  const LA_S14 := Hash(0x9e57c4a0, 0xf907b313, 0x1d6de87a, 0xb8d55619, 0xeec13548, 0x61a41711, 0x3443bed4, 0x1c806a61)
  const LA_S15 := Hash(0xe18f259a, 0x921fccb6, 0x7c015a2c, 0x71629856, 0x51e15869, 0x43d8a034, 0xcb9d3dd0, 0x2f6c8c4e)
  const LA_S16 := Hash(0x1bdc6f6f, 0x86126910, 0xf6f443f8, 0xbcfce922, 0x25d2430a, 0x2fc08f85, 0xacc75916, 0x962d8621)
  const LA_HASH := Hash(0x85e655d6, 0x417a1795, 0x3363376a, 0x624cde5c, 0x76e09589, 0xcac5f811, 0xcc4b32c1, 0xf20e533a)

  lemma LongAWords()
    ensures NextWords(LA_W0, LA_W1) == LA_W2
    ensures NextWords(LA_W1, LA_W2) == LA_W3
    ensures NextWords(LA_W2, LA_W3) == LA_W4
    ensures NextWords(LA_W3, LA_W4) == LA_W5
    ensures NextWords(LA_W4, LA_W5) == LA_W6
    ensures NextWords(LA_W5, LA_W6) == LA_W7
  {
  }

  lemma LongARounds0()
    ensures Eight(INITIAL, LA_S1, LA_S2, KEYS0, LA_W0)
  {
  }

  lemma LongARounds1()
    ensures Eight(LA_S2, LA_S3, LA_S4, KEYS1, LA_W1)
  {
  }

  lemma LongARounds2()
    ensures Eight(LA_S4, LA_S5, LA_S6, KEYS2, LA_W2)
  {
  }

  lemma LongARounds3()
    ensures Eight(LA_S6, LA_S7, LA_S8, KEYS3, LA_W3)
  {
  }

  lemma LongARounds4()
    ensures Eight(LA_S8, LA_S9, LA_S10, KEYS4, LA_W4)
  {
  }

  lemma LongARounds5()
    ensures Eight(LA_S10, LA_S11, LA_S12, KEYS5, LA_W5)
  {
  }

  lemma LongARounds6()
    ensures Eight(LA_S12, LA_S13, LA_S14, KEYS6, LA_W6)
  {
  }

  lemma LongARounds7()
    ensures Eight(LA_S14, LA_S15, LA_S16, KEYS7, LA_W7)
  {
  }

  lemma LongABlock(block: seq<Byte>)
    requires |block| == 64 && WordsAre(block, 0, LA_W0) && WordsAre(block, 8, LA_W1)
    ensures Plus(INITIAL, Rounds(INITIAL, block, 64)) == LA_HASH
  {
    hide Schedule, Rounds, Round, NextWords, WordsAre, EightAre, Eight;
    Keys();
    LongAWords();
    WordsFollow(block, 0, LA_W0, LA_W1);
    WordsFollow(block, 8, LA_W1, LA_W2);
    WordsFollow(block, 16, LA_W2, LA_W3);
    WordsFollow(block, 24, LA_W3, LA_W4);
    WordsFollow(block, 32, LA_W4, LA_W5);
    WordsFollow(block, 40, LA_W5, LA_W6);
    RoundsStart(INITIAL, block);
    LongARounds0();
    EightRounds(INITIAL, block, 0, INITIAL, LA_S1, LA_S2, KEYS0, LA_W0);
    LongARounds1();
    EightRounds(INITIAL, block, 8, LA_S2, LA_S3, LA_S4, KEYS1, LA_W1);
    LongARounds2();
    EightRounds(INITIAL, block, 16, LA_S4, LA_S5, LA_S6, KEYS2, LA_W2);
    LongARounds3();
    EightRounds(INITIAL, block, 24, LA_S6, LA_S7, LA_S8, KEYS3, LA_W3);
    LongARounds4();
    EightRounds(INITIAL, block, 32, LA_S8, LA_S9, LA_S10, KEYS4, LA_W4);
    LongARounds5();
    EightRounds(INITIAL, block, 40, LA_S10, LA_S11, LA_S12, KEYS5, LA_W5);
    LongARounds6();
    EightRounds(INITIAL, block, 48, LA_S12, LA_S13, LA_S14, KEYS6, LA_W6);
    LongARounds7();
    EightRounds(INITIAL, block, 56, LA_S14, LA_S15, LA_S16, KEYS7, LA_W7);
  }

  const LB_W0 := Hash(0x00000000, 0x00000000, 0x00000000, 0x00000000, 0x00000000, 0x00000000, 0x00000000, 0x00000000)
  const LB_W1 := Hash(0x00000000, 0x00000000, 0x00000000, 0x00000000, 0x00000000, 0x00000000, 0x00000000, 0x000001c0)
  const LB_W2 := Hash(0x00000000, 0x00d80000, 0x00000000, 0x00003677, 0x00000000, 0x1df5600d, 0x000001c0, 0x1c00501c)
  const LB_W3 := Hash(0x01b00000, 0x220a8d94, 0x0000a365, 0x177017e7, 0x63d38035, 0x090ab713, 0x4c7539ca, 0x0f19a8c9)
  const LB_W4 := Hash(0x5df4b0c4, 0xe257036a, 0xc97bb6f1, 0xc5b46f4d, 0xf8253c4e, 0xa558d189, 0x78696285, 0xed07117f)
  const LB_W5 := Hash(0x107358f6, 0x390ae496, 0x565010a2, 0xc51d7d44, 0x9e74c972, 0x6614b561, 0x30fc129d, 0x9ac684a8)
  const LB_W6 := Hash(0x2b658dbd, 0xe290f793, 0x9eebb24c, 0x9713b5de, 0x41061ab7, 0xe022e23b, 0x0772079e, 0x7de22d9c)
  const LB_W7 := Hash(0xc8b83778, 0x75a79849, 0xd93dbddb, 0x0a036c9d, 0xcb4f6ac6, 0x823f97e2, 0xea2f2a7a, 0xb9018b52)
  const LB_S1 := Hash(0xf268faa9, 0xfd1eebdc, 0x7c3c0f86, 0x7c20c838, 0xe20362ef, 0xaf71b9ea, 0x8c51be64, 0x4670ae6e)
  const LB_S2 := Hash(0xbf9a93a0, 0x89bba3f1, 0x3eeb6c06, 0x185a5d79, 0x059abdd1, 0x0a34df03, 0xfe20cda6, 0x8dff3001)
  const LB_S3 := Hash(0x5eb4ec40, 0x5b35025b, 0x2d964e86, 0x2c096744, 0xe11b4548, 0x10e77723, 0xaa27ed82, 0xabfa465b)
  const LB_S4 := Hash(0x16a8cc79, 0x0cea5cbc, 0xd74080fa, 0x35ee996d, 0x0fcb1f6f, 0x60356548, 0x68aa893f, 0x5c24e2a2)
  const LB_S5 := Hash(0x76f1a2bc, 0xdcff40fd, 0x23dcb6c2, 0xf16f634e, 0x0dc84bb1, 0x69bf7b95, 0xca9182d3, 0x8b21cdc1)
  const LB_S6 := Hash(0xa4195b91, 0xf13ae55b, 0xd44dc81a, 0x20aad899, 0xeddbd6ed, 0x966aa287, 0x5bace62d, 0xcc4769f2)
  const LB_S7 := Hash(0x0d936bab, 0x9450fbbc, 0xaa6cb982, 0x4984fa79, 0x6e495d4b, 0x09166dda, 0x0b5eeea4, 0xa530d939)
  const LB_S8 := Hash(0xb0eab1c5, 0x02ef3a5f, 0x1cfa5eb0, 0xd958b529, 0xf6d93952, 0x5da10665, 0x6c49db9f, 0xc2fa99b1)
  const LB_S9 := Hash(0xecde4e0d, 0x9907f1b6, 0x4bd1df96, 0x0bfba73c, 0x5dc119e6, 0x66c3043d, 0x905e44ac, 0x8b99e3a9)
  const LB_S10 := Hash(0x221b8a5a, 0xadca7a96, 0xd949682b, 0x2f11c939, 0x0b82c5eb, 0xc6cce4ff, 0x32d99008, 0xfed4ce1d)
  const LB_S11 := Hash(0xf2ad6322, 0x8300fca2, 0x2c794876, 0x12d97845, 0xcc48c7f3, 0xe0e3457c, 0xff6759ba, 0xe4213ca2)
  const LB_S12 := Hash(0xd7354d5b, 0x0b3303a7, 0x104a7db4, 0x0f154e11, 0xaad55b6b, 0xbbe1c39a, 0x5348e8f6, 0x6f9517cb)
  const LB_S13 := Hash(0x1a6bcf6a, 0xd8aabcf9, 0x2748e5ec, 0xb736d7a6, 0xff5e99d0, 0x27844711, 0xd4b58576, 0x68f25260)
  const LB_S14 := Hash(0x92952710, 0xd9f0c115, 0xec02560a, 0x4eca6fa0, 0x226806d6, 0x624150c4, 0x7151df8e, 0x989ed071)
  const LB_S15 := Hash(0x1c4cddd9, 0x286fe5f0, 0x4348eb1f, 0x20d4d0e4, 0xf487a853, 0x54076664, 0xc21eddf9, 0x4e515a4d)
  const LB_S16 := Hash(0x9ea7148b, 0x908c2123, 0xb25cef29, 0xa9f181dd, 0x2c5c4ed0, 0x9a392956, 0x2aa1bb13, 0x27ccb387)
  const LB_HASH := Hash(0x248d6a61, 0xd20638b8, 0xe5c02693, 0x0c3e6039, 0xa33ce459, 0x64ff2167, 0xf6ecedd4, 0x19db06c1)

  lemma LongBWords()
    ensures NextWords(LB_W0, LB_W1) == LB_W2
    ensures NextWords(LB_W1, LB_W2) == LB_W3
    ensures NextWords(LB_W2, LB_W3) == LB_W4
    ensures NextWords(LB_W3, LB_W4) == LB_W5
    ensures NextWords(LB_W4, LB_W5) == LB_W6
    ensures NextWords(LB_W5, LB_W6) == LB_W7
  {
  }

  lemma LongBRounds0()
    ensures Eight(LA_HASH, LB_S1, LB_S2, KEYS0, LB_W0)
  {
  }

  lemma LongBRounds1()
    ensures Eight(LB_S2, LB_S3, LB_S4, KEYS1, LB_W1)
  {
  }

  lemma LongBRounds2()
    ensures Eight(LB_S4, LB_S5, LB_S6, KEYS2, LB_W2)
  {
  }

  lemma LongBRounds3()
    ensures Eight(LB_S6, LB_S7, LB_S8, KEYS3, LB_W3)
  {
  }

  lemma LongBRounds4()
    ensures Eight(LB_S8, LB_S9, LB_S10, KEYS4, LB_W4)
  {
  }

  lemma LongBRounds5()
    ensures Eight(LB_S10, LB_S11, LB_S12, KEYS5, LB_W5)
  {
  }

  lemma LongBRounds6()
    ensures Eight(LB_S12, LB_S13, LB_S14, KEYS6, LB_W6)
  {
  }

  lemma LongBRounds7()
    ensures Eight(LB_S14, LB_S15, LB_S16, KEYS7, LB_W7)
  {
  }

  lemma LongBBlock(block: seq<Byte>)
    requires |block| == 64 && WordsAre(block, 0, LB_W0) && WordsAre(block, 8, LB_W1)
    ensures Plus(LA_HASH, Rounds(LA_HASH, block, 64)) == LB_HASH
  {
    hide Schedule, Rounds, Round, NextWords, WordsAre, EightAre, Eight;
    Keys();
    LongBWords();
    WordsFollow(block, 0, LB_W0, LB_W1);
    WordsFollow(block, 8, LB_W1, LB_W2);
    WordsFollow(block, 16, LB_W2, LB_W3);
    WordsFollow(block, 24, LB_W3, LB_W4);
    WordsFollow(block, 32, LB_W4, LB_W5);
    WordsFollow(block, 40, LB_W5, LB_W6);
    RoundsStart(LA_HASH, block);
    LongBRounds0();
    EightRounds(LA_HASH, block, 0, LA_HASH, LB_S1, LB_S2, KEYS0, LB_W0);
    LongBRounds1();
    EightRounds(LA_HASH, block, 8, LB_S2, LB_S3, LB_S4, KEYS1, LB_W1);
    LongBRounds2();
    EightRounds(LA_HASH, block, 16, LB_S4, LB_S5, LB_S6, KEYS2, LB_W2);
    LongBRounds3();
    EightRounds(LA_HASH, block, 24, LB_S6, LB_S7, LB_S8, KEYS3, LB_W3);
    LongBRounds4();
    EightRounds(LA_HASH, block, 32, LB_S8, LB_S9, LB_S10, KEYS4, LB_W4);
    LongBRounds5();
    EightRounds(LA_HASH, block, 40, LB_S10, LB_S11, LB_S12, KEYS5, LB_W5);
    LongBRounds6();
    EightRounds(LA_HASH, block, 48, LB_S12, LB_S13, LB_S14, KEYS6, LB_W6);
    LongBRounds7();
    EightRounds(LA_HASH, block, 56, LB_S14, LB_S15, LB_S16, KEYS7, LB_W7);
  }


  // ---- The digests ----

  const ABC: seq<Byte> := [0x61, 0x62, 0x63]

  /** The letters from "a" to "q". */
  function Letters(): (letters: seq<Byte>)
    ensures |letters| == 17
  {
    [0x61, 0x62, 0x63, 0x64, 0x65, 0x66, 0x67, 0x68, 0x69, 0x6a, 0x6b, 0x6c, 0x6d, 0x6e, 0x6f, 0x70, 0x71]
  }

  /** "abcd", "bcde", "cdef" and so on up to "nopq". */
  function Long(): (m: seq<Byte>)
    ensures |m| == 56
  {
    seq(56, i requires 0 <= i < 56 => Letters()[i / 4 + i % 4])
  }

  lemma LongLetter(t: nat, j: nat)
    requires t < 14 && j < 4
    ensures Long()[4 * t + j] == Letters()[t + j]
  {
    assert (4 * t + j) / 4 == t && (4 * t + j) % 4 == j;
  }

  lemma MessageWord(m: seq<Byte>, t: nat, b0: Byte, b1: Byte, b2: Byte, b3: Byte)
    requires |m| < 0x1000 && t < 16 && 4 * t + 4 <= |m| && 64 <= |Padded(m)|
    requires m[4 * t] == b0 && m[4 * t + 1] == b1 && m[4 * t + 2] == b2 && m[4 * t + 3] == b3
    ensures Schedule(Block(Padded(m), 0), t) == WordOf(b0, b1, b2, b3)
  {
    hide Schedule, WordOf, Padded, PadByte;
    PaddedWord(m, 0, t, b0, b1, b2, b3);
  }

  /** Word `t` of the long message. */
  lemma LongWord(t: nat)
    requires t < 14
    ensures 64 <= |Padded(Long())|
    ensures Schedule(Block(Padded(Long()), 0), t) ==
      WordOf(Letters()[t], Letters()[t + 1], Letters()[t + 2], Letters()[t + 3])
  {
    hide Schedule, WordOf, Padded, Long, Letters;
    PaddedLength(Long());
    LongLetter(t, 0);
    LongLetter(t, 1);
    LongLetter(t, 2);
    LongLetter(t, 3);
    MessageWord(Long(), t, Letters()[t], Letters()[t + 1], Letters()[t + 2], Letters()[t + 3]);
  }

  lemma AbcStart()
    ensures |Padded(ABC)| == 64
    ensures WordsAre(Block(Padded(ABC), 0), 0, ABC_W0) && WordsAre(Block(Padded(ABC), 0), 8, ABC_W1)
  {
    hide Schedule;
    PaddedLength(ABC);
    forall t: nat | t < 16
      ensures Schedule(Block(Padded(ABC), 0), t) == if t == 0 then 0x61626380 else if t == 15 then 0x18 else 0
    {
      if t == 0 {
        PaddedWord(ABC, 0, t, 0x61, 0x62, 0x63, 0x80);
      } else {
        PaddedWord(ABC, 0, t, 0, 0, 0, if t == 15 then 0x18 else 0);
      }
    }
  }

  lemma LongAWords0(msg: seq<Byte>)
    requires msg == Padded(Long()) && |msg| == 128
    ensures Schedule(Block(msg, 0), 0) == LA_W0.a && Schedule(Block(msg, 0), 1) == LA_W0.b
    ensures Schedule(Block(msg, 0), 2) == LA_W0.c && Schedule(Block(msg, 0), 3) == LA_W0.d
  {
    hide Schedule, Padded, Long;
    LongWord(0);
    LongWord(1);
    LongWord(2);
    LongWord(3);
  }

  lemma LongAWords1(msg: seq<Byte>)
    requires msg == Padded(Long()) && |msg| == 128
    ensures Schedule(Block(msg, 0), 4) == LA_W0.e && Schedule(Block(msg, 0), 5) == LA_W0.f
    ensures Schedule(Block(msg, 0), 6) == LA_W0.g && Schedule(Block(msg, 0), 7) == LA_W0.h
  {
    hide Schedule, Padded, Long;
    LongWord(4);
    LongWord(5);
    LongWord(6);
    LongWord(7);
  }

  lemma LongAWords2(msg: seq<Byte>)
    requires msg == Padded(Long()) && |msg| == 128
    ensures Schedule(Block(msg, 0), 8) == LA_W1.a && Schedule(Block(msg, 0), 9) == LA_W1.b
    ensures Schedule(Block(msg, 0), 10) == LA_W1.c && Schedule(Block(msg, 0), 11) == LA_W1.d
  {
    hide Schedule, Padded, Long;
    LongWord(8);
    LongWord(9);
    LongWord(10);
    LongWord(11);
  }

  lemma LongAWords3(msg: seq<Byte>)
    requires msg == Padded(Long()) && |msg| == 128
    ensures Schedule(Block(msg, 0), 12) == LA_W1.e && Schedule(Block(msg, 0), 13) == LA_W1.f
    ensures Schedule(Block(msg, 0), 14) == LA_W1.g && Schedule(Block(msg, 0), 15) == LA_W1.h
  {
    hide Schedule, Padded, Long;
    LongWord(12);
    LongWord(13);
    PaddedWord(Long(), 0, 14, 0x80, 0x00, 0x00, 0x00);
    PaddedWord(Long(), 0, 15, 0x00, 0x00, 0x00, 0x00);
  }

  lemma LongAStart(msg: seq<Byte>)
    requires msg == Padded(Long()) && |msg| == 128
    ensures WordsAre(Block(msg, 0), 0, LA_W0) && WordsAre(Block(msg, 0), 8, LA_W1)
  {
    hide Schedule, Padded, Long;
    LongAWords0(msg);
    LongAWords1(msg);
    LongAWords2(msg);
    LongAWords3(msg);
  }

  lemma LongBStart(msg: seq<Byte>)
    requires msg == Padded(Long()) && |msg| == 128
    ensures WordsAre(Block(msg, 1), 0, LB_W0) && WordsAre(Block(msg, 1), 8, LB_W1)
  {
    hide Schedule, Padded, Long;
    forall t: nat | t < 16
      ensures Schedule(Block(msg, 1), t) == if t == 15 then 0x1c0 else 0
    {
      if t == 15 {
        PaddedWord(Long(), 1, t, 0, 0, 0x01, 0xc0);
      } else {
        PaddedWord(Long(), 1, t, 0, 0, 0, 0);
      }
    }
  }

  lemma NextHash(msg: seq<Byte>, n: nat)
    requires 64 * (n + 1) <= |msg|
    ensures HashOf(msg, n + 1) == Plus(HashOf(msg, n), Rounds(HashOf(msg, n), Block(msg, n), 64))
  {
  }

  lemma FirstHash(msg: seq<Byte>)
    ensures HashOf(msg, 0) == INITIAL
  {
  }

  lemma AbcBytes()
    ensures HashBytes(ABC_HASH) == [
      0xba, 0x78, 0x16, 0xbf, 0x8f, 0x01, 0xcf, 0xea, 0x41, 0x41, 0x40, 0xde, 0x5d, 0xae, 0x22, 0x23,
      0xb0, 0x03, 0x61, 0xa3, 0x96, 0x17, 0x7a, 0x9c, 0xb4, 0x10, 0xff, 0x61, 0xf2, 0x00, 0x15, 0xad]
  {
  }

  lemma LongBytes()
    ensures HashBytes(LB_HASH) == [
      0x24, 0x8d, 0x6a, 0x61, 0xd2, 0x06, 0x38, 0xb8, 0xe5, 0xc0, 0x26, 0x93, 0x0c, 0x3e, 0x60, 0x39,
      0xa3, 0x3c, 0xe4, 0x59, 0x64, 0xff, 0x21, 0x67, 0xf6, 0xec, 0xed, 0xd4, 0x19, 0xdb, 0x06, 0xc1]
  {
  }

  /** The digest of the three bytes "abc" is the standard's. */
  lemma AbcDigest()
    ensures Digest(ABC) == [
      0xba, 0x78, 0x16, 0xbf, 0x8f, 0x01, 0xcf, 0xea, 0x41, 0x41, 0x40, 0xde, 0x5d, 0xae, 0x22, 0x23,
      0xb0, 0x03, 0x61, 0xa3, 0x96, 0x17, 0x7a, 0x9c, 0xb4, 0x10, 0xff, 0x61, 0xf2, 0x00, 0x15, 0xad]
  {
    hide HashOf, HashBytes, Padded, Plus, Rounds, WordsAre;
    var msg := Padded(ABC);
    AbcStart();
    FirstHash(msg);
    NextHash(msg, 0);
    AbcBlock(Block(msg, 0));
    AbcBytes();
  }

  /** So is that of the two-block message: its second block starts from the first one's hash value. */
  lemma LongDigest()
    ensures Digest(Long()) == [
      0x24, 0x8d, 0x6a, 0x61, 0xd2, 0x06, 0x38, 0xb8, 0xe5, 0xc0, 0x26, 0x93, 0x0c, 0x3e, 0x60, 0x39,
      0xa3, 0x3c, 0xe4, 0x59, 0x64, 0xff, 0x21, 0x67, 0xf6, 0xec, 0xed, 0xd4, 0x19, 0xdb, 0x06, 0xc1]
  {
    hide HashOf, HashBytes, Padded, Plus, Rounds, WordsAre;
    var msg := Padded(Long());
    PaddedLength(Long());
    LongAStart(msg);
    LongBStart(msg);
    FirstHash(msg);
    NextHash(msg, 0);
    LongABlock(Block(msg, 0));
    NextHash(msg, 1);
    LongBBlock(Block(msg, 1));
    LongBytes();
  }
}
