/** Machine integers, powers of two and big-endian numbers. */
module Bytes {

  const U64_LIMIT: nat := 0x1_0000_0000_0000_0000

  type byte = b: int | 0 <= b < 256
  type u64 = n: int | 0 <= n < U64_LIMIT
  type i16 = n: int | -0x8000 <= n < 0x8000

  /** `a + b` on u64 as a release build computes it: modulo 2^64. */
  function WrappingAdd(a: u64, b: u64): u64 {
    if a + b < U64_LIMIT then a + b else a + b - U64_LIMIT
  }

  /** `a - b` on u64 as a release build computes it: modulo 2^64. */
  function WrappingSub(a: u64, b: u64): u64 {
    if a >= b then a - b else a - b + U64_LIMIT
  }

  /** `n as u64` for a signed 16-bit number: sign extension to 64 bits. */
  function SignExtend(n: i16): u64 {
    if n >= 0 then n else n + U64_LIMIT
  }

  function Pow2(n: nat): (p: nat)
    ensures p > 0
  {
    if n == 0 then 1 else 2 * Pow2(n - 1)
  }

  lemma {:induction false} Pow2Add(a: nat, b: nat)
    ensures Pow2(a + b) == Pow2(a) * Pow2(b)
  {
    if b > 0 {
      Pow2Add(a, b - 1);
    }
  }

  lemma {:induction false} Pow2Monotone(a: nat, b: nat)
    requires a <= b
    ensures Pow2(a) <= Pow2(b)
  {
    if a < b {
      Pow2Monotone(a, b - 1);
    }
  }

  lemma Pow2Shifts(a: nat)
    ensures Pow2(a + 7) == 128 * Pow2(a)
    ensures Pow2(a + 8) == 256 * Pow2(a)
  {
    Pow2Add(a, 7);
    Pow2Add(a, 8);
  }

  lemma Pow2Double(a: nat)
    ensures Pow2(0) == 1 && Pow2(a + 1) == 2 * Pow2(a)
  {
  }

  lemma Pow2Table()
    ensures Pow2(7) == 0x80 && Pow2(14) == 0x4000 && Pow2(21) == 0x20_0000 && Pow2(28) == 0x1000_0000
    ensures Pow2(56) == 0x100_0000_0000_0000 && Pow2(64) == U64_LIMIT
  {
    Pow2Shifts(0);
    Pow2Shifts(7);
    Pow2Shifts(14);
    Pow2Shifts(21);
    Pow2Add(28, 28);
    Pow2Shifts(56);
  }

  lemma MulMonotone(a: int, b: int, q: nat)
    requires a <= b
    ensures a * q <= b * q
  {
  }

  lemma MulAssociative(a: int, b: int, q: int)
    ensures (a * b) * q == b * (a * q) == a * (b * q)
  {
  }

  /** Whole multiples of `q` compare as their factors do. */
  lemma CompareMultiples(a: int, b: int, q: nat, n: int)
    requires a * q <= n < b * q
    ensures a < b
  {
    if b <= a {
      MulMonotone(b, a, q);
    }
  }

  /** The unsigned number with big-endian digits `bs`. */
  function BigEndian(bs: seq<byte>): nat {
    if |bs| == 0 then 0 else 256 * BigEndian(bs[..|bs| - 1]) + bs[|bs| - 1]
  }

  lemma BigEndianNext(bs: seq<byte>, i: nat)
    requires i < |bs|
    ensures BigEndian(bs[..0]) == 0
    ensures BigEndian(bs[..i + 1]) == 256 * BigEndian(bs[..i]) + bs[i]
  {
    assert bs[..i + 1][..i] == bs[..i];
  }

  /** The low `width` bytes of `n`, most significant first. */
  function ToBigEndian(n: nat, width: nat): (bs: seq<byte>)
    ensures |bs| == width
  {
    if width == 0 then [] else ToBigEndian(n / 256, width - 1) + [n % 256]
  }

  lemma OneByte(b: byte)
    ensures ToBigEndian(b, 1) == [b]
  {
    assert ToBigEndian(b / 256, 0) == [];
  }

  lemma {:induction false} BigEndianBound(bs: seq<byte>)
    ensures BigEndian(bs) < Pow2(8 * |bs|)
  {
    if |bs| > 0 {
      BigEndianBound(bs[..|bs| - 1]);
      Pow2Shifts(8 * (|bs| - 1));
    }
  }

  lemma {:induction false} BigEndianInverse(n: nat, width: nat)
    requires n < Pow2(8 * width)
    ensures BigEndian(ToBigEndian(n, width)) == n
  {
    if width > 0 {
      Pow2Shifts(8 * (width - 1));
      BigEndianInverse(n / 256, width - 1);
      var bs := ToBigEndian(n, width);
      assert bs[..width - 1] == ToBigEndian(n / 256, width - 1);
    }
  }

  lemma {:induction false} ToBigEndianInverse(bs: seq<byte>)
    ensures ToBigEndian(BigEndian(bs), |bs|) == bs
  {
    if |bs| > 0 {
      ToBigEndianInverse(bs[..|bs| - 1]);
    }
  }

  /** The first byte decides a big-endian number up to the weight of the rest. */
  lemma {:induction false} FirstByteBounds(bs: seq<byte>)
    requires |bs| > 0
    ensures bs[0] * Pow2(8 * (|bs| - 1)) <= BigEndian(bs) < (bs[0] + 1) * Pow2(8 * (|bs| - 1))
  {
    var n := |bs| - 1;
    if n == 0 {
      assert bs[..0] == [];
    } else {
      var init := bs[..n];
      FirstByteBounds(init);
      Pow2Shifts(8 * (n - 1));
      var q := Pow2(8 * (n - 1));
      var first: int := bs[0];
      MulAssociative(first, 256, Pow2(8 * (n - 1)));
      MulAssociative(first + 1, 256, Pow2(8 * (n - 1)));
    }
  }
}
