/**
 The hand-rolled base64 codecs (section 4 of RFC 4648): the Orchestrator's encoder and
 strict decoder, and the Viewer's lenient decoder.

 A byte is an integer below 256 and text is a sequence of ASCII characters. The
 accumulator of the loops is a 32-bit word that is shifted left by six and never
 masked, so its high bits fall off; `Shift6` is that operation. Each loop is proved
 against a closed form that says, byte by byte and glyph by glyph, which bits go where.
 */
module Base64 {
  import opened Wrappers

  type Sextet = v: int | 0 <= v < 64
  type Word = a: int | 0 <= a < 0x1_0000_0000

  const UPPER := "ABCDEFGHIJKLMNOPQRSTUVWXYZ"
  const LOWER := "abcdefghijklmnopqrstuvwxyz"
  const DIGITS := "0123456789"
  const TABLE := UPPER + LOWER + DIGITS + "+/"

  /** The glyph for a value, by arithmetic on the alphabet's runs. */
  function GlyphOf(v: Sextet): char {
    if v < 26 then (v + 'A' as int) as char
    else if v < 52 then (v - 26 + 'a' as int) as char
    else if v < 62 then (v - 52 + '0' as int) as char
    else if v == 62 then '+' else '/'
  }

  method Look(v: Sextet) returns (c: char)
    ensures c == GlyphOf(v)
  {
    c := TABLE[v];
  }

  lemma GlyphsDecode(v: Sextet)
    ensures SextetOf(GlyphOf(v)) == Some(v)
  {
  }

  /** No character but the sixty-four glyphs stands for a value. */
  lemma OnlyGlyphsDecode(c: char)
    ensures SextetOf(c).Some? ==> GlyphOf(SextetOf(c).value) == c
  {
  }

  function SextetOf(c: char): Option<Sextet> {
    if 'A' <= c <= 'Z' then Some(c as int - 'A' as int)
    else if 'a' <= c <= 'z' then Some(c as int - 'a' as int + 26)
    else if '0' <= c <= '9' then Some(c as int - '0' as int + 52)
    else if c == '+' then Some(62)
    else if c == '/' then Some(63)
    else None
  }

  /** `(acc << 6) | v` on 32 bits: the low six bits are free, so the OR adds. */
  function Shift6(acc: Word, v: Sextet): Word {
    (acc * 64 + v) % 0x1_0000_0000
  }

  // ---- Regrouping bits, in closed form ----

  /** Byte `j` of the concatenated bits of the sextets. */
  function ByteAt(s: seq<Sextet>, j: nat): Byte
    requires j < 6 * |s| / 8
  {
    var q := j / 3 * 4;
    if j % 3 == 0 then Spliced(s[q], 4, s[q + 1], 16)
    else if j % 3 == 1 then Spliced(s[q + 1] % 16, 16, s[q + 2], 4)
    else Spliced(s[q + 2] % 4, 64, s[q + 3], 1)
  }

  /** The bits of `hi`, then the top bits of `lo`. */
  function Spliced(hi: int, scale: int, lo: int, drop: int): int
    requires drop > 0
  {
    hi * scale + lo / drop
  }

  /** The whole bytes in the concatenated bits of the sextets. */
  function Bytes(s: seq<Sextet>): (bytes: seq<Byte>)
    ensures |bytes| == 6 * |s| / 8
  {
    seq(6 * |s| / 8, j requires 0 <= j < 6 * |s| / 8 => ByteAt(s, j))
  }

  /** Byte `j`, or the zero padding after the end. */
  function Padded(b: seq<Byte>, j: nat): Byte {
    if j < |b| then b[j] else 0
  }

  /** Sextet `m` of the concatenated bits of the zero-padded bytes. */
  function SextetAt(b: seq<Byte>, m: nat): Sextet {
    var q := m / 4 * 3;
    if m % 4 == 0 then Padded(b, q) / 4
    else if m % 4 == 1 then Padded(b, q) % 4 * 16 + Padded(b, q + 1) / 16
    else if m % 4 == 2 then Padded(b, q + 1) % 16 * 4 + Padded(b, q + 2) / 64
    else Padded(b, q + 2) % 64
  }

  /** The number of sextets that carry bits of `n` bytes. */
  function SextetCount(n: nat): nat {
    (8 * n + 5) / 6
  }

  function Glyph(b: seq<Byte>, m: nat): char {
    if m < SextetCount(|b|) then GlyphOf(SextetAt(b, m)) else '='
  }

  /** The RFC's encoding: four glyphs for every started group of three bytes. */
  function Encoding(b: seq<Byte>): (text: string)
    ensures |text| == (|b| + 2) / 3 * 4
  {
    seq((|b| + 2) / 3 * 4, m requires 0 <= m < (|b| + 2) / 3 * 4 => Glyph(b, m))
  }

  // ---- The Orchestrator's encoder ----

  /** A number of four base-64 digits. */
  lemma Digits(x: int, y: int, z: int, w: int)
    requires 0 <= x < 64 && 0 <= y < 64 && 0 <= z < 64 && 0 <= w < 64
    ensures var n := ((x * 64 + y) * 64 + z) * 64 + w;
      n / 0x4_0000 % 64 == x && n / 0x1000 % 64 == y && n / 64 % 64 == z && n % 64 == w
  {
    var n := ((x * 64 + y) * 64 + z) * 64 + w;
    assert n / 64 == (x * 64 + y) * 64 + z;
    assert n / 0x1000 == x * 64 + y;
    assert n / 0x4_0000 == x;
  }

  lemma GroupSextets(b0: int, b1: int, b2: int)
    requires 0 <= b0 < 256 && 0 <= b1 < 256 && 0 <= b2 < 256
    ensures var n := b0 * 0x1_0000 + b1 * 0x100 + b2;
      && n / 0x4_0000 % 64 == b0 / 4
      && n / 0x1000 % 64 == b0 % 4 * 16 + b1 / 16
      && n / 64 % 64 == b1 % 16 * 4 + b2 / 64
      && n % 64 == b2 % 64
  {
    var x, y, z, w := b0 / 4, b0 % 4 * 16 + b1 / 16, b1 % 16 * 4 + b2 / 64, b2 % 64;
    assert ((x * 64 + y) * 64 + z) * 64 + w == b0 * 0x1_0000 + b1 * 0x100 + b2;
    Digits(x, y, z, w);
  }

  /** The four glyphs that carry a group of one to three bytes. */
  function Group(chunk: seq<Byte>): (text: string)
    requires 1 <= |chunk| <= 3
    ensures |text| == 4
  {
    var b0, b1, b2 := chunk[0], Padded(chunk, 1), Padded(chunk, 2);
    [GlyphOf(b0 / 4),
     GlyphOf(b0 % 4 * 16 + b1 / 16),
     if |chunk| > 1 then GlyphOf(b1 % 16 * 4 + b2 / 64) else '=',
     if |chunk| > 2 then GlyphOf(b2 % 64) else '=']
  }

  function Chunk(b: seq<Byte>, i: nat): seq<Byte>
    requires i < |b|
  {
    b[i..if i + 3 <= |b| then i + 3 else |b|]
  }

  lemma GlyphInGroup(b: seq<Byte>, g: nat, r: nat)
    requires 3 * g < |b| && r < 4
    ensures 4 * g + r < |Encoding(b)|
    ensures Encoding(b)[4 * g + r] == Group(Chunk(b, 3 * g))[r]
  {
    assert Encoding(b)[4 * g + r] == Glyph(b, 4 * g + r);
    var chunk := Chunk(b, 3 * g);
    assert (4 * g + r) / 4 == g && (4 * g + r) % 4 == r;
    assert Padded(b, 3 * g) == chunk[0] && Padded(b, 3 * g + 1) == Padded(chunk, 1);
    assert Padded(b, 3 * g + 2) == Padded(chunk, 2);
  }

  lemma EncodingByGroups(b: seq<Byte>, g: nat)
    requires 3 * g < |b|
    ensures 4 * g + 4 <= |Encoding(b)|
    ensures Encoding(b)[4 * g..4 * g + 4] == Group(Chunk(b, 3 * g))
  {
    forall r | 0 <= r < 4
      ensures 4 * g + r < |Encoding(b)| && Encoding(b)[4 * g + r] == Group(Chunk(b, 3 * g))[r]
    {
      GlyphInGroup(b, g, r);
    }
  }

  /** One round of the loop: three bytes are packed into a word and read back six bits at a time. */
  method EncodeGroup(chunk: seq<Byte>) returns (out: string)
    requires 1 <= |chunk| <= 3
    ensures out == Group(chunk)
  {
    var b0: int := chunk[0];
    var b1: int := if |chunk| > 1 then chunk[1] else 0;
    var b2: int := if |chunk| > 2 then chunk[2] else 0;
    var n := b0 * 0x1_0000 + b1 * 0x100 + b2;
    GroupSextets(b0, b1, b2);
    var c0 := Look(n / 0x4_0000 % 64);
    var c1 := Look(n / 0x1000 % 64);
    var c2 := Look(n / 64 % 64);
    var c3 := Look(n % 64);
    out := [c0, c1, if |chunk| > 1 then c2 else '=', if |chunk| > 2 then c3 else '='];
  }

  method Encode(b: seq<Byte>) returns (out: string)
    ensures out == Encoding(b)
  {
    hide Encoding, Group;
    out := "";
    var i := 0;
    ghost var g := 0;
    while i < |b|
      invariant i == 3 * g < |b| + 3
      invariant |out| == 4 * g <= |Encoding(b)|
      invariant out == Encoding(b)[..|out|]
    {
      var four := EncodeGroup(Chunk(b, i));
      EncodingByGroups(b, g);
      Prefix(Encoding(b), |out|, |out| + 4);
      out := out + four;
      i := i + 3;
      g := g + 1;
    }
  }

  lemma Prefix<T>(s: seq<T>, i: nat, j: nat)
    requires i <= j <= |s|
    ensures s[..i] + s[i..j] == s[..j]
  {
  }

  // ---- The decoding loop both decoders share ----

  function Pow2(k: nat): (p: nat)
    ensures p > 0
  {
    if k == 0 then 1 else 2 * Pow2(k - 1)
  }

  /** `(acc >> k) as u8`. */
  function ByteOf(acc: Word, k: nat): Byte {
    acc / Pow2(k) % 256
  }

  /** What the unmasked accumulator is good for: its low six bits are the last sextet, and `nbits`
      of them are not yet part of a byte. Its high bits are whatever was shifted there. */
  ghost predicate Accumulates(s: seq<Sextet>, acc: Word, nbits: nat, out: seq<Byte>) {
    && out == Bytes(s)
    && nbits == 6 * |s| - 8 * |out|
    && (s != [] ==> acc % 64 == s[|s| - 1])
  }

  /** A byte taken from the accumulator depends on its last two sextets only. */
  lemma ByteOfLastTwo(acc: Word, v: Sextet)
    ensures ByteOf(Shift6(acc, v), 0) == acc % 4 * 64 + v
    ensures ByteOf(Shift6(acc, v), 2) == acc % 16 * 16 + v / 4
    ensures ByteOf(Shift6(acc, v), 4) == acc % 64 * 4 + v / 16
    ensures Shift6(acc, v) % 64 == v
  {
    var low := ShiftDrops(acc, v);
    ShiftOutNone(low, v);
    ShiftOutTwo(low, v);
    ShiftOutFour(low, v);
    assert Pow2(1) == 2 && Pow2(2) == 4 && Pow2(3) == 8 && Pow2(4) == 16;
  }

  /** The shift pushes out everything but the low twenty-six bits. */
  lemma ShiftDrops(acc: Word, v: Sextet) returns (low: nat)
    ensures Shift6(acc, v) == low * 64 + v
    ensures low % 64 == acc % 64 && low % 16 == acc % 16 && low % 4 == acc % 4
  {
    low := acc % 0x400_0000;
    var high := acc / 0x400_0000;
    assert acc == high * 0x400_0000 + low;
    assert (acc * 64 + v) == high * 0x1_0000_0000 + (low * 64 + v);
  }

  lemma LowByte(q: int, r: int)
    requires 0 <= r < 256
    ensures (q * 256 + r) % 256 == r
  {
  }

  lemma ShiftOutNone(low: int, v: int)
    requires 0 <= low && 0 <= v < 64
    ensures (low * 64 + v) % 256 == low % 4 * 64 + v
  {
    var q, r := low / 4, low % 4;
    assert low * 64 + v == q * 256 + (r * 64 + v);
    LowByte(q, r * 64 + v);
  }

  lemma ShiftOutTwo(low: int, v: int)
    requires 0 <= low && 0 <= v < 64
    ensures (low * 64 + v) / 4 % 256 == low % 16 * 16 + v / 4
  {
    var q, r, top := low / 16, low % 16, v / 4;
    assert low * 64 + v == (q * 256 + (r * 16 + top)) * 4 + v % 4;
    assert (low * 64 + v) / 4 == q * 256 + (r * 16 + top);
    LowByte(q, r * 16 + top);
  }

  lemma ShiftOutFour(low: int, v: int)
    requires 0 <= low && 0 <= v < 64
    ensures (low * 64 + v) / 16 % 256 == low % 64 * 4 + v / 16
  {
    var q, r, top := low / 64, low % 64, v / 16;
    assert low * 64 + v == (q * 256 + (r * 4 + top)) * 16 + v % 16;
    assert (low * 64 + v) / 16 == q * 256 + (r * 4 + top);
    LowByte(q, r * 4 + top);
  }

  /** Whole bytes in `4 * q + r` sextets. */
  lemma ByteCount(q: nat, r: nat)
    requires r < 4
    ensures 6 * (4 * q + r) / 8 == 3 * q + (if r == 0 then 0 else r - 1)
  {
    assert 6 * (4 * q + r) == 8 * (3 * q) + 6 * r;
  }

  /** The byte that one more sextet completes. */
  lemma CompletedByte(s: seq<Sextet>, v: Sextet, q: nat, r: nat)
    requires |s| == 4 * q + r && 1 <= r < 4
    ensures 3 * q + r - 1 < 6 * |s + [v]| / 8
    ensures var last := s[|s| - 1];
      ByteAt(s + [v], 3 * q + r - 1) == (
        if r == 1 then Spliced(last, 4, v, 16)
        else if r == 2 then Spliced(last % 16, 16, v, 4)
        else Spliced(last % 4, 64, v, 1))
  {
    var j := 3 * q + r - 1;
    assert j / 3 == q && j % 3 == r - 1;
    if r == 3 {
      ByteCount(q + 1, 0);
    } else {
      ByteCount(q, r + 1);
    }
  }

  lemma BytesGrow(s: seq<Sextet>, v: Sextet, q: nat, r: nat)
    requires |s| == 4 * q + r && r < 4
    ensures |Bytes(s)| == 3 * q + (if r == 0 then 0 else r - 1)
    ensures Bytes(s + [v]) == Bytes(s) + if r == 0 then [] else [ByteAt(s + [v], |Bytes(s)|)]
  {
    hide ByteAt;
    ByteCount(q, r);
    if r == 3 {
      ByteCount(q + 1, 0);
    } else {
      ByteCount(q, r + 1);
    }
    BytesPrefix(s, v);
  }

  /** One round of the loop. */
  lemma AccumulateSextet(s: seq<Sextet>, acc: Word, nbits: nat, out: seq<Byte>, v: Sextet)
    requires Accumulates(s, acc, nbits, out)
    ensures nbits + 6 < 14
    ensures var acc' := Shift6(acc, v);
      if nbits + 6 >= 8 then Accumulates(s + [v], acc', nbits - 2, out + [ByteOf(acc', nbits - 2)])
      else Accumulates(s + [v], acc', nbits + 6, out)
  {
    hide Bytes, ByteAt, ByteOf, Shift6, Pow2;
    var q, r := |s| / 4, |s| % 4;
    assert |s| == 4 * q + r;
    ByteOfLastTwo(acc, v);
    BytesGrow(s, v, q, r);
    assert nbits == if r == 0 then 0 else 8 - 2 * r;
    if r > 0 {
      CompletedByte(s, v, q, r);
      ModOfMod(acc);
    }
  }

  lemma ModOfMod(acc: Word)
    ensures acc % 64 % 16 == acc % 16 && acc % 64 % 4 == acc % 4
  {
  }

  lemma BytesPrefix(s: seq<Sextet>, v: Sextet)
    ensures Bytes(s) <= Bytes(s + [v])
  {
    forall j | 0 <= j < |Bytes(s)|
      ensures Bytes(s + [v])[j] == Bytes(s)[j]
    {
      assert ByteAt(s + [v], j) == ByteAt(s, j);
    }
  }

  // ---- The Orchestrator's strict decoder ----

  datatype DecodeError = AfterPadding | BadByte(c: char) | DanglingSextet

  predicate IsSpace(c: char) {
    c == '\n' || c == '\r' || c == ' ' || c == '\t'
  }

  function Strip(s: string): string {
    if s == "" then "" else (if IsSpace(s[0]) then "" else [s[0]]) + Strip(s[1..])
  }

  /** Everything before the first '='. */
  function Body(s: string): (body: string)
    ensures body <= s
  {
    if s == "" || s[0] == '=' then "" else [s[0]] + Body(s[1..])
  }

  predicate OnlyPads(s: string) {
    forall i :: 0 <= i < |s| ==> s[i] == '='
  }

  function FirstBad(s: string): Option<char> {
    if s == "" then None
    else if SextetOf(s[0]).None? then Some(s[0])
    else FirstBad(s[1..])
  }

  function Sextets(s: string): (v: seq<Sextet>)
    requires FirstBad(s).None?
    ensures |v| == |s|
  {
    if s == "" then [] else [SextetOf(s[0]).value] + Sextets(s[1..])
  }

  function BodyDecoding(body: string): Result<seq<Byte>, DecodeError> {
    if FirstBad(body).Some? then Failure(BadByte(FirstBad(body).value))
    else if |body| % 4 == 1 then Failure(DanglingSextet)
    else Success(Bytes(Sextets(body)))
  }

  function StrictDecoding(s: string): Result<seq<Byte>, DecodeError> {
    var t := Strip(s);
    var body := Body(t);
    if !OnlyPads(t[|body|..]) then Failure(AfterPadding) else BodyDecoding(body)
  }

  method StrictDecode(s: string) returns (r: Result<seq<Byte>, DecodeError>)
    ensures r == StrictDecoding(s)
  {
    var t := Strip(s);
    var body := Body(t);
    if !OnlyPads(t[|body|..]) {
      return Failure(AfterPadding);
    }
    r := DecodeBody(body);
  }

  lemma AccumulatesNothing()
    ensures Sextets("") == [] && Accumulates([], 0, 0, [])
  {
  }

  method DecodeBody(body: string) returns (r: Result<seq<Byte>, DecodeError>)
    ensures r == BodyDecoding(body)
  {
    hide Bytes, ByteOf, Shift6, ByteAt, SextetOf;
    AccumulatesNothing();
    var out: seq<Byte> := [];
    var acc: Word, nbits := 0, 0;
    ghost var read := "";
    for i := 0 to |body|
      invariant read == body[..i]
      invariant FirstBad(read).None? && Accumulates(Sextets(read), acc, nbits, out)
    {
      var v := SextetOf(body[i]);
      if v.None? {
        FirstBadAt(read, body[i..]);
        assert read + body[i..] == body;
        return Failure(BadByte(body[i]));
      }
      SextetsPush(read, body[i]);
      AccumulateSextet(Sextets(read), acc, nbits, out, v.value);
      read := read + [body[i]];
      acc := Shift6(acc, v.value);
      nbits := nbits + 6;
      if nbits >= 8 {
        nbits := nbits - 8;
        out := out + [ByteOf(acc, nbits)];
      }
    }
    assert read == body;
    LeftoverBits(|body|);
    if nbits >= 6 {
      return Failure(DanglingSextet);
    }
    return Success(out);
  }

  /** Six bits are left over, a dangling sextet, exactly at lengths of 1 modulo 4. */
  lemma LeftoverBits(n: nat)
    ensures 6 * n - 8 * (6 * n / 8) >= 6 <==> n % 4 == 1
  {
    assert n == n / 4 * 4 + n % 4;
    assert 6 * n / 8 == n / 4 * 3 + 6 * (n % 4) / 8;
  }

  lemma SextetCountIsWhole(n: nat)
    ensures SextetCount(n) % 4 != 1 && 6 * SextetCount(n) / 8 == n
  {
    assert n == n / 3 * 3 + n % 3;
    assert SextetCount(n) == n / 3 * 4 + (8 * (n % 3) + 5) / 6;
  }

  lemma FirstBadAt(s: string, t: string)
    requires FirstBad(s).None? && t != "" && SextetOf(t[0]).None?
    ensures FirstBad(s + t) == Some(t[0])
  {
    FirstBadConcat(s, t);
  }

  lemma {:induction false} SextetsPush(s: string, c: char)
    requires FirstBad(s).None? && SextetOf(c).Some?
    ensures FirstBad(s + [c]).None? && Sextets(s + [c]) == Sextets(s) + [SextetOf(c).value]
  {
    if s != "" {
      SextetsPush(s[1..], c);
      assert (s + [c])[1..] == s[1..] + [c];
    }
  }

  // ---- The Viewer's lenient decoder ----

  /** What the lenient loop reads: everything before the first '=', without line breaks. */
  function LenientBody(s: string): string {
    if s == "" || s[0] == '=' then ""
    else (if s[0] == '\r' || s[0] == '\n' then "" else [s[0]]) + LenientBody(s[1..])
  }

  function LenientDecoding(s: string): Option<seq<Byte>> {
    if FirstBad(LenientBody(s)).Some? then None else Some(Bytes(Sextets(LenientBody(s))))
  }

  method LenientDecode(s: string) returns (r: Option<seq<Byte>>)
    ensures r == LenientDecoding(s)
  {
    hide Accumulates, Bytes, ByteOf, Shift6, SextetOf, Sextets;
    AccumulatesNothing();
    var out: seq<Byte> := [];
    var acc: Word, bits := 0, 0;
    ghost var read := "";
    var i := 0;
    while i < |s|
      invariant 0 <= i <= |s|
      invariant LenientBody(s) == read + LenientBody(s[i..])
      invariant FirstBad(read).None? && Accumulates(Sextets(read), acc, bits, out)
    {
      var c := s[i];
      assert s[i..][1..] == s[i + 1..];
      i := i + 1;
      if c == '\r' || c == '\n' {
        continue;
      }
      if c == '=' {
        assert read + "" == read;
        AccumulatesBytes(Sextets(read), acc, bits, out);
        return Some(out);
      }
      var v := SextetOf(c);
      assert LenientBody(s) == (read + [c]) + LenientBody(s[i..]);
      FirstBadConcat(read + [c], LenientBody(s[i..]));
      FirstBadConcat(read, [c]);
      FirstBadOne(c);
      if v.None? {
        return None;
      }
      SextetsPush(read, c);
      AccumulateSextet(Sextets(read), acc, bits, out, v.value);
      read := read + [c];
      acc := Shift6(acc, v.value);
      bits := bits + 6;
      if bits >= 8 {
        bits := bits - 8;
        out := out + [ByteOf(acc, bits)];
      }
    }
    assert read + "" == read;
    AccumulatesBytes(Sextets(read), acc, bits, out);
    return Some(out);
  }

  lemma AccumulatesBytes(s: seq<Sextet>, acc: Word, nbits: nat, out: seq<Byte>)
    requires Accumulates(s, acc, nbits, out)
    ensures out == Bytes(s)
  {
  }

  lemma FirstBadOne(c: char)
    ensures FirstBad([c]).None? <==> SextetOf(c).Some?
  {
  }

  lemma {:induction false} FirstBadConcat(s: string, t: string)
    ensures FirstBad(s + t) == if FirstBad(s).Some? then FirstBad(s) else FirstBad(t)
  {
    if s == "" {
      assert s + t == t;
    } else {
      assert (s + t)[1..] == s[1..] + t;
      FirstBadConcat(s[1..], t);
    }
  }

  // ---- Round trip ----

  lemma {:induction false} BodyOfPadded(body: string, pads: string)
    requires FirstBad(body).None? && OnlyPads(pads)
    ensures Strip(body + pads) == body + pads && Body(body + pads) == body
  {
    var s := body + pads;
    if body != "" {
      assert s[1..] == body[1..] + pads;
      BodyOfPadded(body[1..], pads);
    } else if pads != "" {
      assert s[1..] == body + pads[1..];
      BodyOfPadded(body, pads[1..]);
    }
  }

  lemma {:induction false} SextetsAt(s: string)
    requires forall i :: 0 <= i < |s| ==> SextetOf(s[i]).Some?
    ensures FirstBad(s).None? && forall i :: 0 <= i < |s| ==> Some(Sextets(s)[i]) == SextetOf(s[i])
  {
    if s != "" {
      SextetsAt(s[1..]);
    }
  }

  /** The sextets of an encoding carry exactly the bytes encoded. */
  lemma SextetsCarryBytes(b: seq<Byte>, s: seq<Sextet>)
    requires |s| == SextetCount(|b|) && forall m :: 0 <= m < |s| ==> s[m] == SextetAt(b, m)
    ensures Bytes(s) == b
  {
    forall j | 0 <= j < |b|
      ensures ByteAt(s, j) == b[j]
    {
      SextetsCarryByte(b, s, j);
    }
  }

  lemma SextetsCarryByte(b: seq<Byte>, s: seq<Sextet>, j: nat)
    requires j < |b|
    requires |s| == SextetCount(|b|) && forall m :: 0 <= m < |s| ==> s[m] == SextetAt(b, m)
    ensures ByteAt(s, j) == b[j]
  {
    hide SextetAt, Padded;
    var g := j / 3;
    var first := SextetAt(b, 4 * g + j % 3);
    var second := SextetAt(b, 4 * g + j % 3 + 1);
    SplitByte(b, g, j % 3);
    assert s[4 * g + j % 3] == first && s[4 * g + j % 3 + 1] == second;
  }

  lemma PaddedInside(b: seq<Byte>, j: nat)
    requires j < |b|
    ensures Padded(b, j) == b[j]
  {
  }

  lemma SextetPlace(b: seq<Byte>, g: nat, r: nat)
    requires r < 4
    ensures SextetAt(b, 4 * g + r) == (
      var x, y, z := Padded(b, 3 * g), Padded(b, 3 * g + 1), Padded(b, 3 * g + 2);
      if r == 0 then x / 4 else if r == 1 then x % 4 * 16 + y / 16
      else if r == 2 then y % 16 * 4 + z / 64 else z % 64)
  {
    assert (4 * g + r) / 4 == g && (4 * g + r) % 4 == r;
  }

  /** The two sextets that byte `3 * g + r` straddles put it back together. */
  lemma SplitByte(b: seq<Byte>, g: nat, r: nat)
    requires r < 3 && 3 * g + r < |b|
    ensures var first, second := SextetAt(b, 4 * g + r), SextetAt(b, 4 * g + r + 1);
      b[3 * g + r] == (
        if r == 0 then Spliced(first, 4, second, 16)
        else if r == 1 then Spliced(first % 16, 16, second, 4)
        else Spliced(first % 4, 64, second, 1))
  {
    hide SextetAt, Padded;
    PaddedInside(b, 3 * g + r);
    SextetPlace(b, g, r);
    SextetPlace(b, g, r + 1);
    Straddle(Padded(b, 3 * g), Padded(b, 3 * g + 1), Padded(b, 3 * g + 2));
  }

  lemma Straddle(x: int, y: int, z: int)
    requires 0 <= x < 256 && 0 <= y < 256 && 0 <= z < 256
    ensures x / 4 * 4 + (x % 4 * 16 + y / 16) / 16 == x
    ensures (x % 4 * 16 + y / 16) % 16 * 16 + (y % 16 * 4 + z / 64) / 4 == y
    ensures (y % 16 * 4 + z / 64) % 4 * 64 + z % 64 == z
  {
    assert (x % 4 * 16 + y / 16) / 16 == x % 4 && (x % 4 * 16 + y / 16) % 16 == y / 16;
    assert (y % 16 * 4 + z / 64) / 4 == y % 16 && (y % 16 * 4 + z / 64) % 4 == z / 64;
  }

  lemma EncodingShape(b: seq<Byte>) returns (body: string, pads: string)
    ensures Encoding(b) == body + pads && |body| == SextetCount(|b|) && OnlyPads(pads)
    ensures forall m :: 0 <= m < |body| ==> SextetOf(body[m]) == Some(SextetAt(b, m))
  {
    var n := SextetCount(|b|);
    var text := Encoding(b);
    body, pads := text[..n], text[n..];
    forall m | 0 <= m < n
      ensures SextetOf(body[m]) == Some(SextetAt(b, m))
    {
      assert text[m] == Glyph(b, m);
      GlyphsDecode(SextetAt(b, m));
    }
    forall i | 0 <= i < |pads|
      ensures pads[i] == '='
    {
      assert text[n + i] == Glyph(b, n + i);
    }
  }

  /** The strict decoder undoes the encoder on every byte sequence. */
  lemma RoundTrip(b: seq<Byte>)
    ensures StrictDecoding(Encoding(b)) == Success(b)
  {
    var body, pads := EncodingShape(b);
    SextetsAt(body);
    BodyOfPadded(body, pads);
    SextetCountIsWhole(|b|);
    SextetsCarryBytes(b, Sextets(body));
  }

  /** The encoding is the canonical one: as many pads as bytes are missing from the last group, and only
      zeros in the bits of the last sextet that carry no byte. */
  lemma EncodingIsCanonical(b: seq<Byte>)
    ensures var n := SextetCount(|b|);
      && |Encoding(b)| == n + (3 - |b| % 3) % 3
      && (forall m :: 0 <= m < |Encoding(b)| ==> (Encoding(b)[m] == '=' <==> n <= m))
      && (|b| % 3 == 1 ==> SextetAt(b, n - 1) % 16 == 0)
      && (|b| % 3 == 2 ==> SextetAt(b, n - 1) % 4 == 0)
  {
    var q, r := |b| / 3, |b| % 3;
    assert |b| == 3 * q + r;
    assert SextetCount(|b|) == 4 * q + (8 * r + 5) / 6;
    forall m | 0 <= m < |Encoding(b)|
      ensures Encoding(b)[m] == '=' <==> SextetCount(|b|) <= m
    {
      assert Encoding(b)[m] == Glyph(b, m);
    }
    if r == 1 {
      SextetPlace(b, q, 1);
    } else if r == 2 {
      SextetPlace(b, q, 2);
    }
  }

  lemma OneGroup(b: seq<Byte>)
    requires 1 <= |b| <= 3
    ensures Encoding(b) == Group(b)
  {
    EncodingByGroups(b, 0);
    assert Chunk(b, 0) == b && Encoding(b)[0..4] == Encoding(b);
  }

  lemma TwoGroups(x: seq<Byte>, y: seq<Byte>)
    requires |x| == 3 && 1 <= |y| <= 3
    ensures Encoding(x + y) == Group(x) + Group(y)
  {
    hide Encoding, Group;
    var b := x + y;
    EncodingByGroups(b, 0);
    EncodingByGroups(b, 1);
    assert Chunk(b, 0) == x && Chunk(b, 3) == y;
    assert |Encoding(b)| == 8;
    assert Encoding(b) == Encoding(b)[0..4] + Encoding(b)[4..8];
  }

  /** The examples of section 10 of RFC 4648, and one with the last two glyphs. */
  lemma KnownEncodings()
    ensures Encoding([]) == ""
    ensures Encoding([0x66]) == "Zg=="
    ensures Encoding([0x66, 0x6f]) == "Zm8="
    ensures Encoding([0x66, 0x6f, 0x6f]) == "Zm9v"
    ensures Encoding([0x66, 0x6f, 0x6f, 0x62]) == "Zm9vYg=="
    ensures Encoding([0x66, 0x6f, 0x6f, 0x62, 0x61]) == "Zm9vYmE="
    ensures Encoding([0x66, 0x6f, 0x6f, 0x62, 0x61, 0x72]) == "Zm9vYmFy"
    ensures Encoding([0xfb, 0xff]) == "+/8="
  {
    hide Encoding, Group;
    KnownGroups();
    OneGroup([0x66]);
    OneGroup([0x66, 0x6f]);
    OneGroup([0x66, 0x6f, 0x6f]);
    OneGroup([0xfb, 0xff]);
    TwoGroups([0x66, 0x6f, 0x6f], [0x62]);
    TwoGroups([0x66, 0x6f, 0x6f], [0x62, 0x61]);
    TwoGroups([0x66, 0x6f, 0x6f], [0x62, 0x61, 0x72]);
    assert [0x66, 0x6f, 0x6f] + [0x62] == [0x66, 0x6f, 0x6f, 0x62];
    assert [0x66, 0x6f, 0x6f] + [0x62, 0x61] == [0x66, 0x6f, 0x6f, 0x62, 0x61];
    assert [0x66, 0x6f, 0x6f] + [0x62, 0x61, 0x72] == [0x66, 0x6f, 0x6f, 0x62, 0x61, 0x72];
  }

  lemma KnownGroups()
    ensures Group([0x66]) == "Zg==" && Group([0x66, 0x6f]) == "Zm8=" && Group([0x66, 0x6f, 0x6f]) == "Zm9v"
    ensures Group([0x62]) == "Yg==" && Group([0x62, 0x61]) == "YmE=" && Group([0x62, 0x61, 0x72]) == "YmFy"
    ensures Group([0xfb, 0xff]) == "+/8="
  {
  }

  // ---- What the strict decoder takes no notice of, and what it refuses ----

  lemma {:induction false} StripConcat(s: string, t: string)
    ensures Strip(s + t) == Strip(s) + Strip(t)
  {
    if s == "" {
      assert s + t == t;
    } else {
      assert (s + t)[1..] == s[1..] + t;
      StripConcat(s[1..], t);
    }
  }

  lemma StripOne(c: char)
    ensures Strip([c]) == if c in {' ', '\t', '\r', '\n'} then "" else [c]
  {
    assert [c][1..] == "";
  }

  /** White space anywhere makes no difference, and every other character does count. */
  lemma WhiteSpaceIsIgnored(s: string, c: char, t: string)
    ensures Strip(s + [c] + t) == Strip(s) + (if c in {' ', '\t', '\r', '\n'} then "" else [c]) + Strip(t)
    ensures c in {' ', '\t', '\r', '\n'} ==> StrictDecoding(s + [c] + t) == StrictDecoding(s + t)
  {
    StripConcat(s + [c], t);
    StripConcat(s, [c]);
    StripConcat(s, t);
    StripOne(c);
    if c in {' ', '\t', '\r', '\n'} {
      assert Strip(s) + "" + Strip(t) == Strip(s) + Strip(t);
    }
  }

  /** A pad with something else after it. */
  ghost predicate ContinuesAfterPad(t: string) {
    exists i, j :: 0 <= i < j < |t| && t[i] == '=' && t[j] != '='
  }

  /** Character `i` is the first before the padding that is outside the alphabet. */
  ghost predicate FirstOutside(t: string, i: nat) {
    i < |t| && SextetOf(t[i]).None? && forall k :: 0 <= k < i ==> SextetOf(t[k]).Some?
  }

  lemma {:induction false} BodyEnds(t: string)
    ensures var body := Body(t);
      && (forall k :: 0 <= k < |body| ==> body[k] == t[k] != '=')
      && (|body| < |t| ==> t[|body|] == '=')
  {
    if t != "" && t[0] != '=' {
      BodyEnds(t[1..]);
    }
  }

  lemma {:induction false} FirstBadIsFirst(t: string)
    ensures match FirstBad(t)
      case Some(c) => exists i: nat :: FirstOutside(t, i) && t[i] == c
      case None => forall i: nat :: !FirstOutside(t, i)
    ensures FirstBad(t).None? ==> forall k :: 0 <= k < |t| ==> SextetOf(t[k]).Some?
  {
    if t != "" && SextetOf(t[0]).Some? {
      FirstBadIsFirst(t[1..]);
      if FirstBad(t[1..]).Some? {
        var i: nat :| FirstOutside(t[1..], i) && t[1..][i] == FirstBad(t).value;
        assert forall k :: 1 <= k < i + 1 ==> t[k] == t[1..][k - 1];
        assert FirstOutside(t, i + 1);
      }
    } else if t != "" {
      assert FirstOutside(t, 0);
    }
  }

  /** Which refusal: something after a pad comes first, then the first character outside the alphabet,
      and last a body of length 1 modulo 4. */
  lemma StrictRefuses(s: string)
    ensures var t := Strip(s);
      var body := Body(t);
      var r := StrictDecoding(s);
      && (r == Failure(AfterPadding) <==> ContinuesAfterPad(t))
      && (forall c :: r == Failure(BadByte(c)) <==>
            !ContinuesAfterPad(t) && exists i: nat :: FirstOutside(body, i) && body[i] == c)
      && (r == Failure(DanglingSextet) <==>
            !ContinuesAfterPad(t) && (forall i: nat :: !FirstOutside(body, i)) && |body| % 4 == 1)
  {
    hide SextetOf, Bytes;
    var t := Strip(s);
    var body := Body(t);
    BodyEnds(t);
    FirstBadIsFirst(body);
    var rest := t[|body|..];
    if !OnlyPads(rest) {
      var i :| 0 <= i < |rest| && rest[i] != '=';
      assert t[|body| + i] != '=' && t[|body|] == '=';
    }
    if ContinuesAfterPad(t) {
      var i, j :| 0 <= i < j < |t| && t[i] == '=' && t[j] != '=';
      assert rest[j - |body|] == t[j];
    }
    forall i: nat, j: nat | FirstOutside(body, i) && FirstOutside(body, j)
      ensures i == j
    {
    }
  }

  // ---- The two decoders ----

  /** The strict decoder accepts exactly an alphabet body of length not 1 modulo 4 followed by
      padding only, whitespace aside, and yields its whole bytes. */
  lemma StrictAccepts(s: string)
    ensures var r := StrictDecoding(s);
      && (r.Success? <==> exists body, pads ::
            Strip(s) == body + pads && FirstBad(body).None? && OnlyPads(pads) && |body| % 4 != 1)
      && (r.Success? ==> |r.value| == 6 * |Body(Strip(s))| / 8)
  {
    var t := Strip(s);
    if StrictDecoding(s).Success? {
      assert t == Body(t) + t[|Body(t)|..];
    }
    forall body, pads | t == body + pads && FirstBad(body).None? && OnlyPads(pads)
      ensures Body(t) == body && t[|body|..] == pads
    {
      BodyOfPadded(body, pads);
    }
  }

  /** A blank the Viewer does not skip, before the padding. */
  predicate HasBlank(s: string) {
    s != "" && s[0] != '=' && (s[0] == ' ' || s[0] == '\t' || HasBlank(s[1..]))
  }

  lemma {:induction false} LenientBodyIsBody(s: string)
    ensures !HasBlank(s) ==> LenientBody(s) == Body(Strip(s))
    ensures HasBlank(s) ==> FirstBad(LenientBody(s)).Some?
  {
    if s != "" && s[0] != '=' {
      LenientBodyIsBody(s[1..]);
      assert Strip(s) == (if IsSpace(s[0]) then "" else [s[0]]) + Strip(s[1..]);
      FirstBadConcat(if s[0] == '\r' || s[0] == '\n' then "" else [s[0]], LenientBody(s[1..]));
      if IsSpace(s[0]) {
        assert Strip(s) == Strip(s[1..]);
        assert !HasBlank(s) ==> LenientBody(s) == LenientBody(s[1..]);
      } else {
        assert Strip(s)[1..] == Strip(s[1..]);
      }
    }
  }

  /** Nothing but padding after a body of length not 1 modulo 4. */
  predicate WellPadded(s: string) {
    var body := Body(Strip(s));
    OnlyPads(Strip(s)[|body|..]) && |body| % 4 != 1
  }

  /** Both give the same bytes, or both refuse. */
  predicate SameAnswer(s: string) {
    LenientDecoding(s) == match StrictDecoding(s) case Success(bytes) => Some(bytes) case Failure(_) => None
  }

  /** On all inputs: the decoders give the same answer exactly if the body has a bad character, or it
      is well padded and no blank precedes the padding, or neither. The lenient one refuses exactly a
      bad character and a blank, and yields the whole bytes of the body otherwise. */
  lemma DecodersAgree(s: string)
    ensures SameAnswer(s) <==> FirstBad(Body(Strip(s))).Some? || (WellPadded(s) <==> !HasBlank(s))
    ensures LenientDecoding(s) ==
      if FirstBad(Body(Strip(s))).Some? || HasBlank(s) then None else Some(Bytes(Sextets(Body(Strip(s)))))
  {
    LenientBodyIsBody(s);
  }

  /** They do disagree both ways: on a blank before the padding, and on a dangling sextet. */
  lemma DecodersDisagreeExample()
    ensures StrictDecoding("QUI =").Success? && LenientDecoding("QUI =") == None
    ensures StrictDecoding("A") == Failure(DanglingSextet) && LenientDecoding("A") == Some([])
  {
    assert Strip("QUI =") == "QUI=";
    assert Body("QUI=") == "QUI";
    assert HasBlank("QUI =");
    DecodersAgree("QUI =");
  }
}
