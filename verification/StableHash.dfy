/**
 The FNV-1a 64-bit fold behind every persisted local identity (src-tauri/src/stable_hash.rs).
 Unsigned 64-bit words are integers below two to the 64; exclusive or works bit by bit.
 */
module StableHash {
  import opened Prelude

  const WORD := 0x1_0000_0000_0000_0000
  const OFFSET_BASIS := 0xcbf29ce484222325
  const PRIME := 0x100000001b3
  /** PRIME * PRIME_INVERSE == 1 + PRIME_CARRY * WORD. */
  const PRIME_INVERSE := 0xce965057aff6957b
  const PRIME_CARRY := 0xce9650590f

  function Pow2(n: nat): (r: nat)
    ensures r > 0
  {
    if n == 0 then 1 else 2 * Pow2(n - 1)
  }

  /** Exclusive or of the lowest `n` bits. */
  function Xor(a: nat, b: nat, n: nat): nat {
    if n == 0 then 0 else (a + b) % 2 + 2 * Xor(a / 2, b / 2, n - 1)
  }

  function Step(hash: nat, b: byte): (r: nat)
    ensures r < WORD
  {
    Xor(hash, b as nat, 64) * PRIME % WORD
  }

  function Fold(hash: nat, bytes: Bytes): nat {
    if bytes == [] then hash else Step(Fold(hash, bytes[..|bytes| - 1]), bytes[|bytes| - 1])
  }

  /** `fnv1a64`. */
  method Fnv1a64(bytes: Bytes) returns (hash: nat)
    ensures hash == Fold(OFFSET_BASIS, bytes) && hash < WORD
  {
    hash := OFFSET_BASIS;
    for i := 0 to |bytes|
      invariant hash == Fold(OFFSET_BASIS, bytes[..i]) && hash < WORD
    {
      assert bytes[..i + 1][..i] == bytes[..i];
      hash := Xor(hash, bytes[i] as nat, 64);
      hash := hash * PRIME % WORD;
    }
    assert bytes[..|bytes|] == bytes;
  }

  // ----- every step can be undone

  lemma Bits(bit: nat, rest: nat)
    requires bit < 2
    ensures (bit + 2 * rest) % 2 == bit && (bit + 2 * rest) / 2 == rest
  {
  }

  lemma BitTwice(a: nat, b: nat)
    ensures ((a + b) % 2 + b) % 2 == a % 2
  {
  }

  lemma LowBit(x: nat, b: nat)
    ensures (x + b) % 2 == (x % 2 + b) % 2
  {
  }

  /** Exclusive or with the same word twice gives the word back. */
  lemma {:induction false} XorTwice(a: nat, b: nat, n: nat)
    requires a < Pow2(n)
    ensures Xor(a, b, n) < Pow2(n)
    ensures Xor(Xor(a, b, n), b, n) == a
  {
    if n > 0 {
      XorTwice(a / 2, b / 2, n - 1);
      TopBit(a, b, n, Xor(a / 2, b / 2, n - 1));
    }
  }

  lemma TopBit(a: nat, b: nat, n: nat, rest: nat)
    requires n > 0 && Xor(rest, b / 2, n - 1) == a / 2
    ensures Xor((a + b) % 2 + 2 * rest, b, n) == a
  {
    var x := (a + b) % 2 + 2 * rest;
    Bits((a + b) % 2, rest);
    LowBit(x, b);
    BitTwice(a, b);
  }

  lemma {:induction false} XorSymmetric(a: nat, b: nat, n: nat)
    ensures Xor(a, b, n) == Xor(b, a, n)
  {
    if n > 0 {
      XorSymmetric(a / 2, b / 2, n - 1);
    }
  }

  lemma Word64()
    ensures Pow2(64) == WORD
  {
    assert Pow2(8) == 256;
    assert Pow2(16) == 256 * Pow2(8);
    assert Pow2(24) == 256 * Pow2(16);
    assert Pow2(32) == 256 * Pow2(24);
    assert Pow2(40) == 256 * Pow2(32);
    assert Pow2(48) == 256 * Pow2(40);
    assert Pow2(56) == 256 * Pow2(48);
    assert Pow2(64) == 256 * Pow2(56);
  }

  lemma WholeWordsVanish(x: nat, t: int)
    requires x < WORD
    ensures (x + WORD * t) % WORD == x
  {
  }

  /** The prime is odd, so wrapping multiplication by it can be undone. */
  lemma MultiplyInjective(x: nat, y: nat)
    requires x < WORD && y < WORD
    ensures x * PRIME % WORD == y * PRIME % WORD <==> x == y
  {
    MultiplyUndone(x);
    MultiplyUndone(y);
  }

  lemma MultiplyUndone(x: nat)
    requires x < WORD
    ensures (x * PRIME % WORD) * PRIME_INVERSE % WORD == x
  {
    var q := x * PRIME / WORD;
    var r := x * PRIME % WORD;
    assert r == x * PRIME - q * WORD;
    assert r * PRIME_INVERSE == x + WORD * (x * PRIME_CARRY - q * PRIME_INVERSE);
    WholeWordsVanish(x, x * PRIME_CARRY - q * PRIME_INVERSE);
  }

  /** One step is injective in the hash, and injective in the byte. */
  lemma StepInjective(g: nat, h: nat, a: byte, b: byte)
    requires g < WORD && h < WORD
    ensures Step(g, a) == Step(h, a) <==> g == h
    ensures Step(h, a) == Step(h, b) <==> a == b
  {
    Word64();
    XorTwice(g, a as nat, 64);
    XorTwice(h, a as nat, 64);
    XorTwice(h, b as nat, 64);
    MultiplyInjective(Xor(g, a as nat, 64), Xor(h, a as nat, 64));
    MultiplyInjective(Xor(h, a as nat, 64), Xor(h, b as nat, 64));
    XorSymmetric(h, a as nat, 64);
    XorSymmetric(h, b as nat, 64);
    XorTwice(a as nat, h, 64);
    XorTwice(b as nat, h, 64);
  }

  // ----- the fold

  /** Hashing a concatenation continues from the hash of its first part. */
  lemma {:induction false} FoldConcat(hash: nat, a: Bytes, b: Bytes)
    ensures Fold(hash, a + b) == Fold(Fold(hash, a), b)
  {
    if b == [] {
      assert a + b == a;
    } else {
      assert (a + b)[..|a + b| - 1] == a + b[..|b| - 1];
      FoldConcat(hash, a, b[..|b| - 1]);
    }
  }

  /** A common suffix never makes different hashes meet. */
  lemma {:induction false} FoldInjective(g: nat, h: nat, suffix: Bytes)
    requires g < WORD && h < WORD
    ensures Fold(g, suffix) < WORD && Fold(h, suffix) < WORD
    ensures Fold(g, suffix) == Fold(h, suffix) <==> g == h
  {
    if suffix != [] {
      var n := |suffix| - 1;
      FoldInjective(g, h, suffix[..n]);
      StepInjective(Fold(g, suffix[..n]), Fold(h, suffix[..n]), suffix[n], suffix[n]);
    }
  }

  /** Two inputs that differ in exactly one byte have different hashes. */
  lemma OneByteDetected(prefix: Bytes, a: byte, b: byte, suffix: Bytes)
    ensures Fold(OFFSET_BASIS, prefix + [a] + suffix) == Fold(OFFSET_BASIS, prefix + [b] + suffix) <==> a == b
  {
    var p := Fold(OFFSET_BASIS, prefix);
    FoldConcat(OFFSET_BASIS, prefix + [a], suffix);
    FoldConcat(OFFSET_BASIS, prefix + [b], suffix);
    assert (prefix + [a])[..|prefix|] == prefix && (prefix + [b])[..|prefix|] == prefix;
    FoldInjective(OFFSET_BASIS, OFFSET_BASIS, prefix);
    FoldInjective(Step(p, a), Step(p, b), suffix);
    StepInjective(p, p, a, b);
  }
}
