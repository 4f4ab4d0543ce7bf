// Small shared types.
module Prelude {

  datatype Option<+T> = None | Some(value: T)

  /** Byte strings. Each character stands for one byte. */
  type Bytes = string

  const U32_MAX: nat := 0xFFFF_FFFF
  const U64_MAX: nat := 0xFFFF_FFFF_FFFF_FFFF

  /** An ideal hash: the only property any proof relies on is that it is injective. */
  function Sha256(preimage: Bytes): (digest: Bytes) {
    "sha256:" + preimage
  }

  lemma Sha256Injective(a: Bytes, b: Bytes)
    requires Sha256(a) == Sha256(b)
    ensures a == b
  {
    assert a == Sha256(a)[7..];
    assert b == Sha256(b)[7..];
  }

  function Power256(width: nat): nat {
    if width == 0 then 1 else 256 * Power256(width - 1)
  }

  /** Big-endian rendering of `n` in `width` bytes, wrapping like a cast to that width. */
  function BigEndian(n: nat, width: nat): (out: Bytes)
    ensures |out| == width
    decreases width
  {
    if width == 0 then [] else BigEndian(n / 256, width - 1) + [(n % 256) as char]
  }

  lemma {:induction false} BigEndianInjective(a: nat, b: nat, width: nat)
    requires a < Power256(width) && b < Power256(width)
    requires BigEndian(a, width) == BigEndian(b, width)
    ensures a == b
    decreases width
  {
    if width > 0 {
      var x, y := BigEndian(a, width), BigEndian(b, width);
      assert x[width - 1] == (a % 256) as char && y[width - 1] == (b % 256) as char;
      assert x[..width - 1] == BigEndian(a / 256, width - 1);
      assert y[..width - 1] == BigEndian(b / 256, width - 1);
      BigEndianInjective(a / 256, b / 256, width - 1);
    }
  }

  lemma Power256Of8()
    ensures Power256(8) == U64_MAX + 1
  {
  }

  lemma U64Injective(a: nat, b: nat)
    requires a <= U64_MAX && b <= U64_MAX
    requires BigEndian(a, 8) == BigEndian(b, 8)
    ensures a == b
  {
    Power256Of8();
    BigEndianInjective(a, b, 8);
  }
}
