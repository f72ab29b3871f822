/** The 64-bit FNV-1a hash that keys the fragment caches. */
module Fnv {
  const MODULUS: nat := 0x1_0000_0000_0000_0000
  const OFFSET_BASIS: nat := 14695981039346656037
  const PRIME: nat := 1099511628211

  /** The inverse of the prime modulo 2^64. */
  const PRIME_INVERSE: nat := 14886173955864302971

  /** `static_cast<unsigned char>`. */
  function Byte(c: char): (b: nat)
    ensures b < 256
  {
    c as int % 256
  }

  /** Every character of a C++ string is a byte. */
  predicate IsBytes(s: string) {
    forall i :: 0 <= i < |s| ==> s[i] as int < 256
  }

  /** Exclusive or of the low `bits` bits. */
  function Xor(a: nat, b: nat, bits: nat): nat {
    if bits == 0 then 0
    else (if a % 2 == b % 2 then 0 else 1) + 2 * Xor(a / 2, b / 2, bits - 1)
  }

  function Pow2(n: nat): (p: nat)
    ensures p > 0
  {
    if n == 0 then 1 else 2 * Pow2(n - 1)
  }

  /** Exclusive or with a byte touches the low eight bits only. */
  function XorLow(h: nat, b: nat): nat {
    h / 256 * 256 + Xor(h % 256, b, 8)
  }

  /** One round: exclusive or, then a multiplication that wraps at 64 bits. */
  function Round(h: nat, b: nat): (r: nat)
    ensures r < MODULUS
  {
    XorLow(h, b) * PRIME % MODULUS
  }

  /** The hash of `text` continued from the state `seed`. */
  function Hash(text: string, seed: nat): nat {
    if text == "" then seed else Hash(text[1..], Round(seed, Byte(text[0])))
  }

  /** `hash_with_seed`, the loop of the source. */
  method HashWithSeed(text: string, seed: nat) returns (h: nat)
    ensures h == Hash(text, seed)
  {
    h := seed;
    for i := 0 to |text|
      invariant Hash(text[i..], h) == Hash(text, seed)
    {
      assert text[i..][0] == text[i] && text[i..][1..] == text[i + 1..];
      h := Round(h, Byte(text[i]));
    }
  }

  /** Chaining seeds hashes the concatenation. */
  lemma {:induction false} HashConcat(a: string, b: string, seed: nat)
    ensures Hash(a + b, seed) == Hash(b, Hash(a, seed))
  {
    if a == "" {
      assert a + b == b;
    } else {
      HashConcat(a[1..], b, Round(seed, Byte(a[0])));
      assert (a + b)[1..] == a[1..] + b;
    }
  }

  lemma {:induction false} XorCancels(a: nat, b: nat, bits: nat)
    requires a < Pow2(bits) && b < Pow2(bits)
    ensures Xor(a, b, bits) == Xor(b, a, bits) < Pow2(bits)
    ensures Xor(Xor(a, b, bits), b, bits) == a
  {
    if bits > 0 {
      XorCancels(a / 2, b / 2, bits - 1);
      var x := Xor(a / 2, b / 2, bits - 1);
      var low := if a % 2 == b % 2 then 0 else 1;
      assert Xor(a, b, bits) == low + 2 * x && (low + 2 * x) / 2 == x && (low + 2 * x) % 2 == low;
    }
  }

  lemma EightBits()
    ensures Pow2(8) == 256
  {
    assert Pow2(4) == 16;
  }

  lemma XorLowUndone(h: nat, b: nat)
    requires b < 256
    ensures XorLow(XorLow(h, b), b) == h
    ensures h < MODULUS ==> XorLow(h, b) < MODULUS
  {
    EightBits();
    hide Xor, Pow2;
    XorCancels(h % 256, b, 8);
    var x := Xor(h % 256, b, 8);
    assert XorLow(h, b) / 256 == h / 256 && XorLow(h, b) % 256 == x;
  }

  lemma XorLowByte(h: nat, b: nat, c: nat)
    requires b < 256 && c < 256 && XorLow(h, b) == XorLow(h, c)
    ensures b == c
  {
    EightBits();
    hide Xor, Pow2;
    XorCancels(h % 256, b, 8);
    XorCancels(h % 256, c, 8);
    XorCancels(b, h % 256, 8);
    XorCancels(c, h % 256, 8);
  }

  /** The prime is odd, so multiplying by it modulo 2^64 loses nothing. */
  lemma PrimeInvertible(x: nat)
    requires x < MODULUS
    ensures (x * PRIME % MODULUS) * PRIME_INVERSE % MODULUS == x
  {
    var q := x * PRIME / MODULUS;
    var r := x * PRIME % MODULUS;
    assert x * PRIME == q * MODULUS + r;
    var k := PRIME * PRIME_INVERSE / MODULUS;
    assert PRIME * PRIME_INVERSE == k * MODULUS + 1;
    var m := x * k - q * PRIME_INVERSE;
    assert r * PRIME_INVERSE == m * MODULUS + x;
    ModuloOf(r * PRIME_INVERSE, m, x);
  }

  lemma ModuloOf(a: int, m: int, x: nat)
    requires a == m * MODULUS + x && x < MODULUS
    ensures a % MODULUS == x
  {
  }

  /** Each round is injective in the state and in the byte. */
  lemma RoundInjective(h: nat, g: nat, b: nat, c: nat)
    requires h < MODULUS && g < MODULUS && b < 256 && c < 256
    ensures Round(h, b) == Round(g, b) ==> h == g
    ensures Round(h, b) == Round(h, c) ==> b == c
  {
    XorLowUndone(h, b);
    XorLowUndone(g, b);
    XorLowUndone(h, c);
    PrimeInvertible(XorLow(h, b));
    PrimeInvertible(XorLow(g, b));
    PrimeInvertible(XorLow(h, c));
    if Round(h, b) == Round(h, c) {
      XorLowByte(h, b, c);
    }
  }

  /** Hashing the same text from different states never merges them. */
  lemma {:induction false} HashInjectiveInSeed(text: string, h: nat, g: nat)
    requires h < MODULUS && g < MODULUS
    ensures Hash(text, h) == Hash(text, g) <==> h == g
  {
    if text != "" {
      hide Round;
      var b := Byte(text[0]);
      HashInjectiveInSeed(text[1..], Round(h, b), Round(g, b));
      if Round(h, b) == Round(g, b) {
        RoundInjective(h, g, b, b);
      }
    }
  }

  /** Changing one byte always changes the key. */
  lemma {:induction false} OneByteNeverCollides(before: string, x: char, y: char, after: string, seed: nat)
    requires seed < MODULUS && x as int < 256 && y as int < 256
    ensures Hash(before + [x] + after, seed) == Hash(before + [y] + after, seed) <==> x == y
  {
    hide Round, Hash;
    var h := Hash(before, seed);
    HashBounded(before, seed);
    HashAround(before, x, after, seed);
    HashAround(before, y, after, seed);
    HashInjectiveInSeed(after, Round(h, Byte(x)), Round(h, Byte(y)));
    if Round(h, Byte(x)) == Round(h, Byte(y)) {
      RoundInjective(h, h, Byte(x), Byte(y));
    }
  }

  lemma {:induction false} HashAround(before: string, x: char, after: string, seed: nat)
    ensures Hash(before + [x] + after, seed) == Hash(after, Round(Hash(before, seed), Byte(x)))
  {
    hide Round;
    HashConcat(before + [x], after, seed);
    HashConcat(before, [x], seed);
    var h := Hash(before, seed);
    assert [x][1..] == [];
    assert Hash([x], h) == Hash([], Round(h, Byte(x)));
  }

  lemma {:induction false} HashBounded(text: string, seed: nat)
    requires seed < MODULUS
    ensures Hash(text, seed) < MODULUS
  {
    if text != "" {
      HashBounded(text[1..], Round(seed, Byte(text[0])));
    }
  }

  /** The order within a round, on the published test vectors for the empty text and for "a": exclusive or
      comes before the multiplication. */
  lemma TestVectors()
    ensures Hash("", OFFSET_BASIS) == 0xCBF2_9CE4_8422_2325
    ensures Hash("a", OFFSET_BASIS) == 0xAF63_DC4C_8601_EC8C
  {
    assert "a"[1..] == "" && Byte('a') == 0x61;
    FirstRound();
    hide Round;
    assert Hash("a", OFFSET_BASIS) == Hash("", Round(OFFSET_BASIS, 0x61));
  }

  lemma FirstRound()
    ensures Round(OFFSET_BASIS, 0x61) == 0xAF63_DC4C_8601_EC8C
  {
    XorOf25();
    hide Xor;
    assert OFFSET_BASIS % 256 == 0x25;
    assert XorLow(OFFSET_BASIS, 0x61) == 0xCBF2_9CE4_8422_2344;
  }

  lemma XorOf25()
    ensures Xor(0x25, 0x61, 8) == 0x44
  {
    assert Xor(0, 0, 1) == 0;
    assert Xor(0, 1, 2) == 1;
    assert Xor(1, 3, 3) == 2;
    assert Xor(2, 6, 4) == 4;
    assert Xor(4, 12, 5) == 8;
    assert Xor(9, 24, 6) == 17;
    assert Xor(18, 48, 7) == 34;
  }
}
