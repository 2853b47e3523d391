/**
 * Byte strings, the SHA-256 digest type, big-endian integers and Go's
 * fixed-width 64-bit big-endian encoding (`binary.Write(buff, binary.BigEndian, int64)`).
 */
module Bytes {

  type byte = x: int | 0 <= x < 256

  type Bytes = seq<byte>

  /** A SHA-256 digest (`[32]byte` in Go). */
  type Digest = s: Bytes | |s| == 32 witness seq(32, _ => 0)

  /** The zero value of Go's `[32]byte`. */
  const ZERO_DIGEST: Digest := seq(32, _ => 0)

  /**
   * SHA-256 (FIPS 180-4) is not modelled: every operation that hashes takes the
   * hash function as a parameter of this type, so what is proved holds for any
   * function from byte strings to 32-byte digests.
   */
  type Hasher = Bytes -> Digest

  /** Go's `int64` (and `int`, which is 64 bits wide on the platforms the program targets). */
  type int64 = x: int | -0x8000_0000_0000_0000 <= x < 0x8000_0000_0000_0000

  const MAX_INT64: int64 := 0x7fff_ffff_ffff_ffff

  const TWO_TO_64: nat := 0x1_0000_0000_0000_0000

  /** The bytes of the string "Genesis", the payload of every genesis block. */
  const GENESIS_DATA: Bytes := [0x47, 0x65, 0x6e, 0x65, 0x73, 0x69, 0x73]

  function Pow(b: nat, e: nat): nat {
    if e == 0 then 1 else b * Pow(b, e - 1)
  }

  lemma {:induction false} PowAdd(b: nat, e1: nat, e2: nat)
    ensures Pow(b, e1 + e2) == Pow(b, e1) * Pow(b, e2)
  {
    if e1 > 0 {
      PowAdd(b, e1 - 1, e2);
      calc {
        Pow(b, e1 + e2);
        b * Pow(b, e1 - 1 + e2);
        b * (Pow(b, e1 - 1) * Pow(b, e2));
        (b * Pow(b, e1 - 1)) * Pow(b, e2);
      }
    }
  }

  /**
   * The unsigned big-endian value of a byte string (`big.Int.SetBytes`): the
   * last byte is the least significant digit in base 256.
   */
  function BigEndian(s: Bytes): nat {
    if s == [] then 0 else BigEndian(s[..|s| - 1]) * 256 + s[|s| - 1]
  }

  lemma {:induction false} BigEndianBound(s: Bytes)
    ensures BigEndian(s) < Pow(256, |s|)
  {
    if s != [] {
      var init := s[..|s| - 1];
      BigEndianBound(init);
      calc {
        BigEndian(s);
        BigEndian(init) * 256 + s[|s| - 1];
      <= (Pow(256, |init|) - 1) * 256 + 255;
        Pow(256, |init|) * 256 - 1;
      <  Pow(256, |s|);
      }
    }
  }

  /** Splitting a byte string splits its big-endian value. */
  lemma {:induction false} BigEndianAppend(a: Bytes, b: Bytes)
    ensures BigEndian(a + b) == BigEndian(a) * Pow(256, |b|) + BigEndian(b)
  {
    if b == [] {
      assert a + b == a;
    } else {
      var init := b[..|b| - 1];
      var last := b[|b| - 1];
      assert (a + b)[..|a + b| - 1] == a + init;
      BigEndianAppend(a, init);
      calc {
        BigEndian(a + b);
        BigEndian(a + init) * 256 + last;
        (BigEndian(a) * Pow(256, |init|) + BigEndian(init)) * 256 + last;
        BigEndian(a) * (Pow(256, |init|) * 256) + (BigEndian(init) * 256 + last);
        { assert Pow(256, |b|) == 256 * Pow(256, |init|); }
        BigEndian(a) * Pow(256, |b|) + BigEndian(b);
      }
    }
  }

  /** The `k` low-order bytes of `v`, most significant first. */
  function Encode(v: nat, k: nat): (r: Bytes)
    ensures |r| == k
  {
    if k == 0 then [] else Encode(v / 256, k - 1) + [v % 256]
  }

  lemma {:induction false} BigEndianEncode(v: nat, k: nat)
    requires v < Pow(256, k)
    ensures BigEndian(Encode(v, k)) == v
  {
    if k > 0 {
      var e := Encode(v, k);
      assert e[..|e| - 1] == Encode(v / 256, k - 1);
      assert v / 256 < Pow(256, k - 1);
      BigEndianEncode(v / 256, k - 1);
    }
  }

  lemma {:induction false} EncodeBigEndian(s: Bytes)
    ensures Encode(BigEndian(s), |s|) == s
  {
    if s != [] {
      var init := s[..|s| - 1];
      var v := BigEndian(s);
      assert v / 256 == BigEndian(init) && v % 256 == s[|s| - 1];
      EncodeBigEndian(init);
    }
  }

  lemma PowTo64()
    ensures Pow(256, 8) == TWO_TO_64
  {
  }

  /** Two's-complement reading of an `int64` as an unsigned 64-bit value. */
  function Unsigned(n: int64): (u: nat)
    ensures u == n % TWO_TO_64
  {
    if n >= 0 then n else n + TWO_TO_64
  }

  /**
   * `ToHex` in proof.go: the 8-byte big-endian two's-complement encoding of a
   * 64-bit integer. The error branch (`log.Panic`) is unreachable, since writing
   * a fixed-size integer into a `bytes.Buffer` cannot fail.
   */
  function ToHex(n: int64): (r: Bytes)
    ensures |r| == 8
    ensures FromHex(r) == n
  {
    PowTo64();
    BigEndianEncode(Unsigned(n), 8);
    Encode(Unsigned(n), 8)
  }

  /** Reads 8 big-endian bytes back as an `int64` (`int64(binary.BigEndian.Uint64(b))`). */
  function FromHex(b: Bytes): (n: int64)
    requires |b| == 8
  {
    BigEndianBound(b);
    PowTo64();
    var u := BigEndian(b);
    if u < 0x8000_0000_0000_0000 then u else u - TWO_TO_64
  }

  /** Every 8-byte string is the encoding of exactly one `int64`. */
  lemma ToHexFromHex(b: Bytes)
    requires |b| == 8
    ensures ToHex(FromHex(b)) == b
  {
    BigEndianBound(b);
    PowTo64();
    assert Unsigned(FromHex(b)) == BigEndian(b);
    EncodeBigEndian(b);
  }

  lemma ToHexInjective(m: int64, n: int64)
    requires ToHex(m) == ToHex(n)
    ensures m == n
  {
  }
}
