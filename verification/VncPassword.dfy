/** The VNC password generator: rejection sampling from a byte source. */
module VncPasswords {
  import opened Wrappers

  /** The letters and digits without I, O, l, o, 0 and 1, as their runs. */
  const ALPHABET := "ABCDEFGH" + "JKLMN" + "PQRSTUVWXYZ" + "abcdefghijk" + "mn" + "pqrstuvwxyz" + "23456789"

  /** The largest multiple of `n` that is at most `m`. */
  function Limit(m: nat, n: nat): nat
    requires n > 0
  {
    m - m % n
  }

  /** The glyphs that the accepted bytes of `draws` select, in order. */
  function Glyphs(draws: seq<Byte>, alphabet: string): string
    requires 1 <= |alphabet| <= 256
  {
    if draws == [] then ""
    else (if draws[0] < Limit(256, |alphabet|) then [alphabet[draws[0] % |alphabet|]] else "")
         + Glyphs(draws[1..], alphabet)
  }

  /** `draws` is what the byte source will yield; the loop stops early only if it runs dry. */
  method Generate(draws: seq<Byte>, alphabet: string) returns (out: string, used: nat)
    requires 1 <= |alphabet| <= 256
    ensures used <= |draws| && out == Glyphs(draws[..used], alphabet)
    ensures |out| == 8 || (|out| < 8 && used == |draws|)
    ensures used > 0 ==> |Glyphs(draws[..used - 1], alphabet)| < 8
  {
    var n := |alphabet|;
    var limit := 256 - 256 % n;
    out, used := "", 0;
    while |out| < 8 && used < |draws|
      invariant used <= |draws| && |out| <= 8
      invariant out == Glyphs(draws[..used], alphabet)
      invariant used > 0 ==> |Glyphs(draws[..used - 1], alphabet)| < 8
    {
      var value := draws[used];
      GlyphsConcat(draws[..used], [value], alphabet);
      assert draws[..used + 1] == draws[..used] + [value];
      if value < limit {
        out := out + [alphabet[value % n]];
      }
      used := used + 1;
    }
  }

  lemma Grouped(a: string, b: string, c: string)
    ensures a + b + c == a + (b + c)
  {
  }

  lemma {:induction false} GlyphsConcat(xs: seq<Byte>, ys: seq<Byte>, alphabet: string)
    requires 1 <= |alphabet| <= 256
    ensures Glyphs(xs + ys, alphabet) == Glyphs(xs, alphabet) + Glyphs(ys, alphabet)
  {
    hide Limit;
    if xs == [] {
      assert xs + ys == ys;
    } else {
      assert (xs + ys)[1..] == xs[1..] + ys;
      GlyphsConcat(xs[1..], ys, alphabet);
      var first := if xs[0] < Limit(256, |alphabet|) then [alphabet[xs[0] % |alphabet|]] else "";
      Grouped(first, Glyphs(xs[1..], alphabet), Glyphs(ys, alphabet));
    }
  }

  // ---- How often each glyph is hit ----

  /** The values below `m` that select glyph `g` out of `n`. */
  ghost function Hits(m: nat, n: nat, g: nat): set<nat>
    requires n > 0
  {
    set v: nat | 0 <= v < m && v % n == g
  }

  /** Reducing modulo `n` hits the first `m % n` glyphs once more than the others. */
  lemma {:induction false} HitCount(m: nat, n: nat, g: nat)
    requires g < n
    ensures |Hits(m, n, g)| == m / n + (if g < m % n then 1 else 0)
  {
    if m == 0 {
      assert Hits(m, n, g) == {};
    } else {
      HitCount(m - 1, n, g);
      NextDivMod(m - 1, n);
      if (m - 1) % n == g {
        assert Hits(m, n, g) == Hits(m - 1, n, g) + {m - 1};
      } else {
        assert Hits(m, n, g) == Hits(m - 1, n, g);
      }
    }
  }

  lemma NextDivMod(m: nat, n: nat)
    requires n > 0
    ensures (m + 1) / n == (if m % n == n - 1 then m / n + 1 else m / n)
    ensures (m + 1) % n == (if m % n == n - 1 then 0 else m % n + 1)
  {
    var q, r := m / n, m % n;
    assert m == n * q + r;
    if r == n - 1 {
      DivModUnique(m + 1, n, q + 1, 0);
    } else {
      DivModUnique(m + 1, n, q, r + 1);
    }
  }

  lemma DivModUnique(m: nat, n: nat, q: nat, r: nat)
    requires r < n && m == n * q + r
    ensures m / n == q && m % n == r
  {
    NextMultiple(n, q, m / n);
    NextMultiple(n, m / n, q);
  }

  lemma NextMultiple(n: nat, a: nat, b: nat)
    ensures a < b ==> n * a + n <= n * b
  {
    if a < b {
      assert n * b == n * (a + 1) + n * (b - a - 1);
    }
  }

  /** Rejection sampling is unbiased: below the limit every glyph is hit equally often, for every
      alphabet size and every byte range. */
  lemma Unbiased(m: nat, n: nat, g: nat)
    requires g < n <= m
    ensures |Hits(Limit(m, n), n, g)| == m / n
  {
    assert m == n * (m / n) + m % n;
    DivModUnique(Limit(m, n), n, m / n, 0);
    HitCount(Limit(m, n), n, g);
  }

  /** The bytes that, when drawn, put `text` into the password. */
  ghost function Draws(alphabet: string, text: string): set<nat>
    requires 1 <= |alphabet| <= 256
  {
    set v: nat | v < 256 && Glyphs([v], alphabet) == text
  }

  ghost predicate Distinct(alphabet: string) {
    forall i, j :: 0 <= i < j < |alphabet| ==> alphabet[i] != alphabet[j]
  }

  /** A byte below the largest multiple of the alphabet's size yields one glyph, any other none. */
  lemma OneGlyph(v: Byte, alphabet: string)
    requires 1 <= |alphabet| <= 256
    ensures var n := |alphabet|;
      Glyphs([v], alphabet) == if v < 256 / n * n then [alphabet[v % n]] else ""
  {
    var n := |alphabet|;
    assert 256 == 256 / n * n + 256 % n;
    assert [v][1..] == [] && Glyphs([], alphabet) == "";
  }

  /** One draw of the generator chooses every glyph of an alphabet without repetitions equally often:
      exactly `256 / n` bytes yield it. */
  lemma GlyphsAreEquallyLikely(alphabet: string, g: nat)
    requires 1 <= |alphabet| <= 256 && Distinct(alphabet) && g < |alphabet|
    ensures |Draws(alphabet, [alphabet[g]])| == 256 / |alphabet|
  {
    hide Glyphs;
    var n := |alphabet|;
    var limit := 256 / n * n;
    assert limit <= 256;
    DivModUnique(limit, n, 256 / n, 0);
    HitCount(limit, n, g);
    forall v: nat
      ensures v in Draws(alphabet, [alphabet[g]]) <==> v in Hits(limit, n, g)
    {
      if v < 256 {
        OneGlyph(v, alphabet);
        if v < limit && v % n != g {
          assert alphabet[v % n] != alphabet[g];
          assert [alphabet[v % n]][0] != [alphabet[g]][0];
        }
      }
    }
    assert Draws(alphabet, [alphabet[g]]) == Hits(limit, n, g);
  }

  /** Without the rejection the choice is unbiased exactly when the range is a multiple of `n`. */
  lemma PlainModuloIsUnbiasedIff(m: nat, n: nat)
    requires 0 < n
    ensures (forall g, g' :: 0 <= g < n && 0 <= g' < n ==> |Hits(m, n, g)| == |Hits(m, n, g')|) <==> m % n == 0
  {
    forall g: nat | g < n
      ensures |Hits(m, n, g)| == m / n + (if g < m % n then 1 else 0)
    {
      HitCount(m, n, g);
    }
    assert |Hits(m, n, 0)| != |Hits(m, n, n - 1)| || m % n == 0;
  }

  /** The place of a glyph in the alphabet. */
  function IndexOf(c: char): int {
    if c <= '9' then c as int - '2' as int + 48
    else if c <= 'H' then c as int - 'A' as int
    else if c <= 'N' then c as int - 'J' as int + 8
    else if c <= 'Z' then c as int - 'P' as int + 13
    else if c <= 'k' then c as int - 'a' as int + 24
    else if c <= 'n' then c as int - 'm' as int + 35
    else c as int - 'p' as int + 37
  }

  /** The alphabet has fifty-six glyphs and repeats none, so choosing an index chooses a character;
      plain reduction of a byte would favour the first thirty-two. */
  lemma AlphabetIsInjective(i: nat, j: nat)
    requires i < |ALPHABET| && j < |ALPHABET|
    ensures |ALPHABET| == 56 && Limit(256, |ALPHABET|) == 224 && 256 % |ALPHABET| == 32
    ensures ALPHABET[i] == ALPHABET[j] <==> i == j
  {
    GlyphIndex(i);
    GlyphIndex(j);
  }

  const CAPITALS := "ABCDEFGH" + "JKLMN" + "PQRSTUVWXYZ"
  const SMALLS := "abcdefghijk" + "mn" + "pqrstuvwxyz"

  lemma CapitalIndex(i: nat)
    requires i < |CAPITALS|
    ensures |CAPITALS| == 24 && IndexOf(CAPITALS[i]) == i
  {
  }

  lemma SmallIndex(i: nat)
    requires i < |SMALLS|
    ensures |SMALLS| == 24 && IndexOf(SMALLS[i]) == i + 24
  {
  }

  lemma DigitIndex(i: nat)
    requires i < |"23456789"|
    ensures IndexOf("23456789"[i]) == i + 48
  {
  }

  lemma GlyphIndex(i: nat)
    requires i < |ALPHABET|
    ensures IndexOf(ALPHABET[i]) == i
  {
    assert ALPHABET == CAPITALS + SMALLS + "23456789";
    if i < |CAPITALS| {
      CapitalIndex(i);
    } else if i < |CAPITALS| + |SMALLS| {
      SmallIndex(i - |CAPITALS|);
    } else {
      DigitIndex(i - |CAPITALS| - |SMALLS|);
    }
  }

  /** So each glyph of a generated password is any of the fifty-six with the same weight: four bytes. */
  lemma EveryGlyphHasFourBytes(g: nat)
    requires g < 56
    ensures |ALPHABET| == 56 && |Draws(ALPHABET, [ALPHABET[g]])| == 4
  {
    AlphabetIsInjective(0, 0);
    forall i, j | 0 <= i < j < |ALPHABET|
      ensures ALPHABET[i] != ALPHABET[j]
    {
      AlphabetIsInjective(i, j);
    }
    GlyphsAreEquallyLikely(ALPHABET, g);
  }
}
