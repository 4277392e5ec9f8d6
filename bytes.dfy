/** Fixed-width unsigned integers and their little-endian byte encodings. */
module Bytes {

  const U8Modulus: int := 0x100
  const U32Modulus: int := 0x1_0000_0000
  const U64Modulus: int := 0x1_0000_0000_0000_0000
  const U128Modulus: int := 0x1_0000_0000_0000_0000_0000_0000_0000_0000

  type u8 = x: int | 0 <= x < 0x100
  type u32 = x: int | 0 <= x < 0x1_0000_0000
  type u64 = x: int | 0 <= x < 0x1_0000_0000_0000_0000
  type i64 = x: int | -0x8000_0000_0000_0000 <= x < 0x8000_0000_0000_0000
  type u128 = x: int | 0 <= x < 0x1_0000_0000_0000_0000_0000_0000_0000_0000

  /** A 32-byte account address. */
  type Pubkey = s: seq<u8> | |s| == 32 witness seq(32, i => 0)

  /** 256 to the power n: the number of distinct values n bytes can hold. */
  function Pow256(n: nat): (r: nat)
    ensures r > 0
  {
    if n == 0 then 1 else 256 * Pow256(n - 1)
  }

  lemma Pow256Widths()
    ensures Pow256(4) == U32Modulus
    ensures Pow256(8) == U64Modulus
    ensures Pow256(16) == U128Modulus
  {
    assert Pow256(2) == 0x1_0000;
    assert Pow256(4) == 0x1_0000_0000 by {
      assert Pow256(3) == 0x100_0000;
    }
    assert Pow256(8) == U64Modulus by {
      assert Pow256(6) == 0x1_0000_0000_0000 by { assert Pow256(5) == 0x100_0000_0000; }
      assert Pow256(7) == 0x100_0000_0000_0000;
    }
    assert Pow256(12) == 0x1_0000_0000_0000_0000_0000_0000 by {
      assert Pow256(10) == 0x1_0000_0000_0000_0000_0000 by { assert Pow256(9) == 0x100_0000_0000_0000_0000; }
      assert Pow256(11) == 0x100_0000_0000_0000_0000_0000;
    }
    assert Pow256(16) == U128Modulus by {
      assert Pow256(14) == 0x1_0000_0000_0000_0000_0000_0000_0000 by {
        assert Pow256(13) == 0x100_0000_0000_0000_0000_0000_0000;
      }
      assert Pow256(15) == 0x100_0000_0000_0000_0000_0000_0000_0000;
    }
  }

  /** The value of a little-endian byte string: the first byte is the least significant. */
  function LeDecode(b: seq<u8>): (r: nat)
    ensures r < Pow256(|b|)
  {
    if b == [] then 0 else b[0] + 256 * LeDecode(b[1..])
  }

  /** The `width`-byte little-endian encoding of x (Rust's `to_le_bytes`). */
  function LeEncode(x: nat, width: nat): (r: seq<u8>)
    requires x < Pow256(width)
    ensures |r| == width
  {
    if width == 0 then [] else [x % 256] + LeEncode(x / 256, width - 1)
  }

  /** Decoding an encoding gives the number back. */
  lemma {:induction false} LeDecodeEncode(x: nat, width: nat)
    requires x < Pow256(width)
    ensures LeDecode(LeEncode(x, width)) == x
  {
    if width > 0 {
      var e := LeEncode(x, width);
      assert e[1..] == LeEncode(x / 256, width - 1);
      LeDecodeEncode(x / 256, width - 1);
    }
  }

  /** Encoding a decoded byte string at its own width gives the bytes back. */
  lemma {:induction false} LeEncodeDecode(b: seq<u8>)
    ensures LeEncode(LeDecode(b), |b|) == b
  {
    if b != [] {
      var x := LeDecode(b);
      assert x % 256 == b[0] && x / 256 == LeDecode(b[1..]);
      LeEncodeDecode(b[1..]);
    }
  }

  /** So the encoding is injective at a fixed width. */
  lemma LeEncodeInjective(x: nat, y: nat, width: nat)
    requires x < Pow256(width) && y < Pow256(width)
    requires LeEncode(x, width) == LeEncode(y, width)
    ensures x == y
  {
    LeDecodeEncode(x, width);
    LeDecodeEncode(y, width);
  }

  /** `u128::from_le_bytes` on a 16-byte array. */
  function U128FromLe(b: seq<u8>): (r: u128)
    requires |b| == 16
    ensures U128ToLe(r) == b
  {
    Pow256Widths();
    LeEncodeDecode(b);
    LeDecode(b)
  }

  /** `u128::to_le_bytes`. */
  function U128ToLe(x: u128): (r: seq<u8>)
    ensures |r| == 16
    ensures LeDecode(r) == x
  {
    Pow256Widths();
    LeDecodeEncode(x, 16);
    LeEncode(x, 16)
  }

  lemma U128RoundTrip(x: u128)
    ensures U128FromLe(U128ToLe(x)) == x
  {
    Pow256Widths();
    LeDecodeEncode(x, 16);
  }
}
