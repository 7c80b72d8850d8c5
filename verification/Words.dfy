/** Bytes, 32-byte words and the fixed-width integers of Solidity and Rust. */
module Words {

  type Byte = x: int | 0 <= x < 0x100
  type Bytes = seq<Byte>
  type B256 = s: Bytes | |s| == 32 witness seq(32, (i: nat) => 0 as Byte)

  const U64: nat := 0x1_0000_0000_0000_0000
  const U128: nat := 0x1_0000_0000_0000_0000_0000_0000_0000_0000
  const U256: nat :=
    0x1_0000_0000_0000_0000_0000_0000_0000_0000_0000_0000_0000_0000_0000_0000_0000_0000

  type uint64 = x: int | 0 <= x < U64
  type uint128 = x: int | 0 <= x < U128
  type uint256 = x: int | 0 <= x < U256

  function Pow256(k: nat): nat {
    if k == 0 then 1 else 0x100 * Pow256(k - 1)
  }

  /** The last `len` bytes of `n`, most significant first. */
  function BigEndian(n: nat, len: nat): (b: Bytes)
    ensures |b| == len
  {
    if len == 0 then [] else BigEndian(n / 0x100, len - 1) + [n % 0x100]
  }

  const ZERO_HASH: B256 := BigEndian(0, 32)

  function FromBigEndian(b: Bytes): nat {
    if b == [] then 0 else FromBigEndian(b[..|b| - 1]) * 0x100 + b[|b| - 1]
  }

  lemma {:induction false} FromBigEndianBound(b: Bytes)
    ensures FromBigEndian(b) < Pow256(|b|)
  {
    if b != [] {
      FromBigEndianBound(b[..|b| - 1]);
    }
  }

  lemma {:induction false} DecodeEncode(n: nat, len: nat)
    requires n < Pow256(len)
    ensures FromBigEndian(BigEndian(n, len)) == n
  {
    if len > 0 {
      DecodeEncode(n / 0x100, len - 1);
      var b := BigEndian(n, len);
      assert b[..len - 1] == BigEndian(n / 0x100, len - 1);
    }
  }

  lemma {:induction false} EncodeDecode(b: Bytes)
    ensures BigEndian(FromBigEndian(b), |b|) == b
  {
    if b != [] {
      EncodeDecode(b[..|b| - 1]);
      assert b == b[..|b| - 1] + [b[|b| - 1]];
    }
  }

  /** Byte `i` of the encoding is the digit of that place, the first byte the most significant. */
  lemma {:induction false} BigEndianDigit(n: nat, len: nat, i: nat)
    requires i < len
    ensures Pow256(len - 1 - i) > 0 && BigEndian(n, len)[i] == n / Pow256(len - 1 - i) % 0x100
  {
    Pow256Positive(len - 1 - i);
    if i < len - 1 {
      BigEndianDigit(n / 0x100, len - 1, i);
      Pow256Positive(len - 2 - i);
      DivideTwice(n, 0x100, Pow256(len - 2 - i));
    }
  }

  lemma {:induction false} Pow256Positive(k: nat)
    ensures Pow256(k) > 0
  {
    if k > 0 {
      Pow256Positive(k - 1);
    }
  }

  lemma DivideTwice(n: nat, a: nat, b: nat)
    requires a > 0 && b > 0
    ensures a * b > 0 && n / a / b == n / (a * b)
  {
    Division(n, a);
    Division(n / a, b);
    NestedDigits(n, a, b, n / a / b, n / a % b, n % a);
    Quotient(n, a * b, n / a / b, n / a % b * a + n % a);
  }

  lemma Division(n: nat, d: nat)
    requires d > 0
    ensures n == n / d * d + n % d && 0 <= n % d < d
  {
  }

  lemma NestedDigits(n: nat, a: nat, b: nat, outer: nat, high: nat, low: nat)
    requires n == (outer * b + high) * a + low && low < a && high < b
    ensures a * b > 0 && n == outer * (a * b) + (high * a + low)
    ensures high * a + low < a * b
  {
    assert high * a <= (b - 1) * a by {
      assert (b - 1 - high) * a >= 0;
    }
    assert (b - 1) * a == a * b - a;
    assert (outer * b + high) * a == outer * b * a + high * a;
    assert outer * b * a == outer * (a * b);
  }

  /** The zero word is 32 zero bytes. */
  lemma ZeroHashBytes()
    ensures ZERO_HASH == Word(0) && forall i :: 0 <= i < 32 ==> ZERO_HASH[i] == 0
  {
    forall i | 0 <= i < 32 ensures ZERO_HASH[i] == 0 {
      BigEndianDigit(0, 32, i);
    }
  }

  lemma Pow256Values()
    ensures Pow256(8) == U64 && Pow256(16) == U128 && Pow256(32) == U256
  {
    Pow256Sum(8, 8);
    Pow256Sum(16, 16);
  }

  lemma {:induction false} Pow256Sum(a: nat, b: nat)
    ensures Pow256(a + b) == Pow256(a) * Pow256(b)
  {
    if a > 0 {
      Pow256Sum(a - 1, b);
    }
  }

  lemma MultipleOutside(k: int, d: nat)
    requires k != 0
    ensures k * d >= d || k * d <= -(d as int)
  {
    if k > 0 {
      assert (k - 1) * d >= 0;
    } else {
      assert (-k - 1) * d >= 0;
    }
  }

  lemma Quotient(a: nat, d: nat, q: nat, r: nat)
    requires a == q * d + r && r < d
    ensures a / d == q
  {
    var quotient, remainder := a / d, a % d;
    assert a == quotient * d + remainder;
    assert (quotient - q) * d == r - remainder;
    if quotient != q {
      MultipleOutside(quotient - q, d);
      assert false;
    }
  }

  lemma Remainder(a: nat, d: nat, q: nat, r: nat)
    requires a == q * d + r && r < d
    ensures a % d == r
  {
    var quotient, remainder := a / d, a % d;
    assert a == quotient * d + remainder;
    assert (quotient - q) * d == r - remainder;
    if quotient != q {
      MultipleOutside(quotient - q, d);
      assert false;
    }
  }

  /** An unsigned integer as one 32-byte ABI word. */
  function Word(n: uint256): B256 {
    BigEndian(n, 32)
  }

  function WordValue(w: B256): uint256 {
    FromBigEndianBound(w);
    Pow256Values();
    FromBigEndian(w)
  }

  lemma WordRoundTrip(n: uint256)
    ensures WordValue(Word(n)) == n
  {
    Pow256Values();
    DecodeEncode(n, 32);
  }

  lemma WordInjective(a: uint256, b: uint256)
    requires Word(a) == Word(b)
    ensures a == b
  {
    WordRoundTrip(a);
    WordRoundTrip(b);
  }
}
