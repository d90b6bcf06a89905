/** Byte strings and big-endian integers. */
module Bytes {

  newtype Byte = b: int | 0 <= b < 256

  type Bytes = seq<Byte>

  function Zeros(n: nat): (r: Bytes)
    ensures |r| == n
  {
    seq(n, i requires 0 <= i < n => 0 as Byte)
  }

  function Pow256(width: nat): (r: nat)
    ensures r > 0
  {
    if width == 0 then 1 else 256 * Pow256(width - 1)
  }

  /** Byte `k` of `n` in two's complement, counted from the least significant. */
  function ByteAt(n: int, k: nat): Byte
    decreases k
  {
    if k == 0 then (n % 256) as Byte else ByteAt(n / 256, k - 1)
  }

  /** The last `width` bytes of `n`, most significant first. */
  function BigEndian(n: int, width: nat): (r: Bytes)
    ensures |r| == width
  {
    seq(width, i requires 0 <= i < width => ByteAt(n, width - 1 - i))
  }

  /** The number a byte string writes in base 256, most significant byte first. */
  function Number256(bytes: Bytes): nat
    decreases |bytes|
  {
    if bytes == [] then 0 else 256 * Number256(bytes[..|bytes| - 1]) + bytes[|bytes| - 1] as nat
  }

  /** The last byte is the remainder, and the others write the quotient. */
  lemma BigEndianSplits(n: int, width: nat)
    requires width > 0
    ensures BigEndian(n, width) == BigEndian(n / 256, width - 1) + [(n % 256) as Byte]
  {
    var bytes := BigEndian(n, width);
    forall i | 0 <= i < width - 1 ensures bytes[i] == BigEndian(n / 256, width - 1)[i] {
      assert bytes[i] == ByteAt(n, width - 1 - i) == ByteAt(n / 256, width - 2 - i);
    }
    assert bytes[width - 1] == ByteAt(n, 0) == (n % 256) as Byte;
  }

  /** `BigEndian` writes the number itself, as far as the width goes; a negative one as its two's complement. */
  lemma {:induction false} BigEndianIs(n: int, width: nat)
    ensures Number256(BigEndian(n, width)) == n % Pow256(width)
    decreases width
  {
    if width > 0 {
      var bytes := BigEndian(n, width);
      BigEndianIs(n / 256, width - 1);
      BigEndianSplits(n, width);
      RemainderInTwo(n, Pow256(width - 1));
    }
  }

  lemma RemainderInTwo(n: int, m: nat)
    requires m > 0
    ensures 256 * (n / 256 % m) + n % 256 == n % (256 * m)
  {
    var q, r := n / 256 / m, n / 256 % m;
    assert n / 256 == q * m + r;
    assert n == (256 * m) * q + (256 * r + n % 256);
    assert 0 <= 256 * r + n % 256 < 256 * m;
    QuotientIsUnique(n, 256 * m, q, 256 * r + n % 256);
  }

  lemma QuotientIsUnique(n: int, d: nat, q: int, r: nat)
    requires n == d * q + r && r < d
    ensures n % d == r
  {
    var k := n / d - q;
    assert d * (n / d) == d * q + d * k;
    MultipleIsFar(d, k);
  }

  lemma MultipleIsFar(d: nat, k: int)
    ensures k >= 1 ==> d * k >= d
    ensures k <= -1 ==> d * k <= 0 - d
  {
  }

  lemma {:induction false} FirstByteCounts(bytes: Bytes)
    requires bytes != []
    ensures Number256(bytes) == bytes[0] as nat * Pow256(|bytes| - 1) + Number256(bytes[1..])
    decreases |bytes|
  {
    var front := bytes[..|bytes| - 1];
    if front != [] {
      FirstByteCounts(front);
      assert bytes[1..][..|bytes| - 2] == front[1..];
      assert 256 * (bytes[0] as nat * Pow256(|bytes| - 2)) == bytes[0] as nat * Pow256(|bytes| - 1);
    }
  }

  lemma {:induction false} NumberBound(bytes: Bytes)
    ensures Number256(bytes) < Pow256(|bytes|)
    decreases |bytes|
  {
    if bytes != [] { NumberBound(bytes[..|bytes| - 1]); }
  }

  /** Every byte string is the expansion of its value. */
  lemma {:induction false} NumberIsWritten(bytes: Bytes)
    ensures BigEndian(Number256(bytes), |bytes|) == bytes
    decreases |bytes|
  {
    if bytes != [] {
      var n := |bytes|;
      var front := bytes[..n - 1];
      NumberIsWritten(front);
      assert Number256(bytes) / 256 == Number256(front) && Number256(bytes) % 256 == bytes[n - 1] as nat;
      BigEndianSplits(Number256(bytes), n);
      assert bytes == front + [bytes[n - 1]];
    }
  }

  lemma {:induction false} BytesDetermine(a: nat, b: nat, width: nat)
    requires a < Pow256(width) && b < Pow256(width) && forall k :: 0 <= k < width ==> ByteAt(a, k) == ByteAt(b, k)
    ensures a == b
    decreases width
  {
    if width > 0 {
      assert ByteAt(a, 0) == ByteAt(b, 0);
      forall k | 0 <= k < width - 1 ensures ByteAt(a / 256, k) == ByteAt(b / 256, k) {
        assert ByteAt(a, k + 1) == ByteAt(b, k + 1);
      }
      BytesDetermine(a / 256, b / 256, width - 1);
    }
  }

  /** Numbers that fit are told apart by their bytes. */
  lemma BigEndianInjective(a: nat, b: nat, width: nat)
    requires a < Pow256(width) && b < Pow256(width) && BigEndian(a, width) == BigEndian(b, width)
    ensures a == b
  {
    forall k | 0 <= k < width ensures ByteAt(a, k) == ByteAt(b, k) {
      assert BigEndian(a, width)[width - 1 - k] == BigEndian(b, width)[width - 1 - k];
    }
    BytesDetermine(a, b, width);
  }
}
