/**
 The 128-bit FNV-1a hash behind `fnv.New128a`: each byte is folded into the
 state by an exclusive or and a multiplication modulo 2^128.
 */
module Fnv {
  import opened Common

  const OFFSET_BASIS: nat := 0x6c62272e07bb014262b821756295c58d
  const PRIME: nat := 0x1000000000000000000013b
  const MODULUS: nat := 0x1_00000000_00000000_00000000_00000000

  /** The inverse of the odd prime modulo 2^128. */
  const INVERSE: nat := 0xb1041ad2562ff2ff2ff2ff2ff2ff2ff3

  type word = x: nat | x < MODULUS witness 0

  // Exclusive or with a byte.

  function ToByte(x: bv8): byte { x as int }

  function ToBits(x: byte): bv8 { x as bv8 }

  lemma BitsBack(x: bv8)
    ensures ToBits(ToByte(x)) == x
  {
  }

  lemma NextBits(x: bv8)
    requires x != 255
    ensures ToByte(x + 1) == ToByte(x) + 1
  {
  }

  lemma NotTop(x: bv8)
    requires ToByte(x) < 255
    ensures x != 255
  {
  }

  lemma {:induction false} EveryByteHasBits(b: byte) returns (x: bv8)
    ensures ToByte(x) == b
  {
    if b == 0 {
      x := 0;
    } else {
      x := EveryByteHasBits(b - 1);
      NotTop(x);
      NextBits(x);
      x := x + 1;
    }
  }

  lemma ByteBack(b: byte)
    ensures ToByte(ToBits(b)) == b
  {
    var x := EveryByteHasBits(b);
    BitsBack(x);
  }

  function XorBytes(a: byte, b: byte): byte {
    ToByte(ToBits(a) ^ ToBits(b))
  }

  lemma XorOfBits(x: bv8, y: bv8)
    ensures XorBytes(ToByte(x), ToByte(y)) == ToByte(x ^ y)
  {
    BitsBack(x);
    BitsBack(y);
  }

  lemma BitsCancel(x: bv8, y: bv8)
    ensures (x ^ y) ^ y == x && (x ^ y) ^ x == y
  {
  }

  lemma XorOfBitsCancels(x: bv8, y: bv8)
    ensures XorBytes(XorBytes(ToByte(x), ToByte(y)), ToByte(y)) == ToByte(x)
    ensures XorBytes(XorBytes(ToByte(x), ToByte(y)), ToByte(x)) == ToByte(y)
  {
    XorOfBits(x, y);
    XorOfBits(x ^ y, y);
    XorOfBits(x ^ y, x);
    BitsCancel(x, y);
  }

  lemma XorCancels(a: byte, b: byte)
    ensures XorBytes(XorBytes(a, b), b) == a
    ensures XorBytes(XorBytes(a, b), a) == b
  {
    ByteBack(a);
    ByteBack(b);
    XorOfBitsCancels(ToBits(a), ToBits(b));
  }

  /** Exclusive or into the low byte of the state. */
  function Xor(h: word, b: byte): (r: word)
    ensures r / 256 == h / 256 && r % 256 == XorBytes(h % 256, b)
  {
    h / 256 * 256 + XorBytes(h % 256, b)
  }

  // Powers of two.

  function Pow2(n: nat): nat {
    if n == 0 then 1 else 2 * Pow2(n - 1)
  }

  lemma {:induction false} Pow2Adds(m: nat, n: nat)
    ensures Pow2(m + n) == Pow2(m) * Pow2(n)
  {
    if m != 0 {
      Pow2Adds(m - 1, n);
      assert Pow2(m + n) == 2 * (Pow2(m - 1) * Pow2(n));
    }
  }

  lemma Pow2Doubles(n: nat, p: nat)
    requires Pow2(n) == p
    ensures Pow2(2 * n) == p * p
  {
    Pow2Adds(n, n);
  }

  lemma ModulusIsPow2()
    ensures Pow2(128) == MODULUS
  {
    assert Pow2(4) == 16;
    Pow2Doubles(4, 16);
    Pow2Doubles(8, 0x100);
    Pow2Doubles(16, 0x1_0000);
    Pow2Doubles(32, 0x1_0000_0000);
    Pow2Doubles(64, 0x1_0000_0000_0000_0000);
  }

  // Multiplication modulo 2^128.

  lemma MultipleVanishes(x: nat, k: nat)
    ensures (x + MODULUS * k) % MODULUS == x % MODULUS
  {
  }

  lemma ReduceFirst(a: nat, b: nat)
    ensures ((a % MODULUS) * b) % MODULUS == (a * b) % MODULUS
  {
    var q, r := a / MODULUS, a % MODULUS;
    assert a * b == r * b + MODULUS * (q * b) by {
      assert a == MODULUS * q + r;
    }
    MultipleVanishes(r * b, q * b);
  }

  lemma InverseIsInverse()
    ensures PRIME * INVERSE == 1 + MODULUS * 0xb1041ad2562ff2ff2ff3d9
  {
  }

  function Times(x: word): (r: word) {
    (x * PRIME) % MODULUS
  }

  /** Multiplying by the odd prime loses nothing: the inverse brings it back. */
  lemma TimesIsInvertible(x: word)
    ensures (Times(x) * INVERSE) % MODULUS == x
  {
    var k := 0xb1041ad2562ff2ff2ff3d9;
    ReduceFirst(x * PRIME, INVERSE);
    InverseIsInverse();
    calc {
      x * PRIME * INVERSE;
      x * (PRIME * INVERSE);
      x * (1 + MODULUS * k);
      x + MODULUS * (x * k);
    }
    MultipleVanishes(x, x * k);
  }

  // The hash.

  function Mix(h: word, b: byte): (r: word) {
    Times(Xor(h, b))
  }

  function Hash(h: word, data: Bytes): (r: word)
    decreases |data|
  {
    if data == [] then h else Hash(Mix(h, data[0]), data[1..])
  }

  /** One step forgets neither the state nor the byte. */
  lemma MixIsInjective(h: word, b: byte, h': word, b': byte)
    requires Mix(h, b) == Mix(h', b')
    ensures b == b' ==> h == h'
    ensures h == h' ==> b == b'
  {
    TimesIsInvertible(Xor(h, b));
    TimesIsInvertible(Xor(h', b'));
    XorCancels(h % 256, b);
    XorCancels(h' % 256, b');
  }

  /**
   The step undone in order, first the multiplication, then the exclusive or:
   the state comes back, with the byte as what its low byte was changed by.
   */
  lemma StepUndone(h: word, b: byte)
    ensures var x := (Mix(h, b) * INVERSE) % MODULUS;
            x / 256 == h / 256 && XorBytes(x % 256, h % 256) == b && XorBytes(x % 256, b) == h % 256
  {
    TimesIsInvertible(Xor(h, b));
    XorCancels(h % 256, b);
  }

  /** Hashing chunk after chunk is hashing the concatenation. */
  lemma {:induction false} HashOfConcat(h: word, a: Bytes, b: Bytes)
    ensures Hash(h, a + b) == Hash(Hash(h, a), b)
    decreases |a|
  {
    if a == [] {
      assert a + b == b;
    } else {
      HashOfConcat(Mix(h, a[0]), a[1..], b);
      assert (a + b)[1..] == a[1..] + b;
    }
  }

  lemma HashOfChunks(h: word, a: Bytes, b: Bytes, c: Bytes, whole: Bytes)
    requires whole == a + b + c
    ensures Hash(Hash(Hash(h, a), b), c) == Hash(h, whole)
  {
    HashOfConcat(h, a, b);
    HashOfConcat(h, a + b, c);
  }

  lemma {:induction false} StatesStayApart(h: word, h': word, data: Bytes)
    requires h != h'
    ensures Hash(h, data) != Hash(h', data)
    decreases |data|
  {
    if data != [] {
      if Mix(h, data[0]) == Mix(h', data[0]) {
        MixIsInjective(h, data[0], h', data[0]);
      }
      StatesStayApart(Mix(h, data[0]), Mix(h', data[0]), data[1..]);
    }
  }

  /** Changing any single byte of the input always changes the hash. */
  lemma OneByteChangesHash(h: word, data: Bytes, i: nat, b: byte)
    requires i < |data| && data[i] != b
    ensures Hash(h, data) != Hash(h, data[i := b])
  {
    var before, after := data[..i], data[i + 1..];
    var mid := Hash(h, before);
    assert data == before + ([data[i]] + after);
    assert data[i := b] == before + ([b] + after);
    HashOfConcat(h, before, [data[i]] + after);
    HashOfConcat(h, before, [b] + after);
    HashOfConcat(mid, [data[i]], after);
    HashOfConcat(mid, [b], after);
    if Mix(mid, data[i]) == Mix(mid, b) {
      MixIsInjective(mid, data[i], mid, b);
    }
    StatesStayApart(Mix(mid, data[i]), Mix(mid, b), after);
  }

  // The published constants and values of the 128-bit hash.

  lemma HashOfNothing()
    ensures Hash(OFFSET_BASIS, []) == 0x6c62272e07bb014262b821756295c58d
  {
  }

  /** The published hash of the one byte `a`. */
  lemma HashOfA()
    ensures Hash(OFFSET_BASIS, [0x61]) == 0xd228cb696f1a8caf78912b704e4a8964
  {
    assert XorBytes(0x8d, 0x61) == 0xec;
    assert OFFSET_BASIS % 256 == 0x8d && OFFSET_BASIS / 256 == 0x6c62272e07bb014262b821756295c5;
    assert Mix(OFFSET_BASIS, 0x61) == Times(0x6c62272e07bb014262b821756295c5ec);
    assert Hash(Mix(OFFSET_BASIS, 0x61), []) == Mix(OFFSET_BASIS, 0x61);
  }
}
