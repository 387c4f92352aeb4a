/** Bytes and big-endian numbers. */
module Bytes {
  type Byte = x: int | 0 <= x < 256

  /** The `width` low-order bytes of `n`, most significant first. */
  function BigEndian(n: nat, width: nat): (r: seq<Byte>)
    ensures |r| == width
  {
    if width == 0 then [] else BigEndian(n / 256, width - 1) + [n % 256]
  }

  /** The number some bytes spell, most significant first. */
  function Number(s: seq<Byte>): nat {
    if s == [] then 0 else 256 * Number(s[..|s| - 1]) + s[|s| - 1]
  }

  ghost function Power(width: nat): nat {
    if width == 0 then 1 else 256 * Power(width - 1)
  }

  lemma NumberSnoc(s: seq<Byte>, b: Byte)
    ensures Number(s + [b]) == 256 * Number(s) + b
  {
    assert (s + [b])[..|s|] == s;
  }

  /** A number that fits its width is spelled without loss. */
  lemma {:induction false} NumberInverse(n: nat, width: nat)
    requires n < Power(width)
    ensures Number(BigEndian(n, width)) == n
  {
    if width > 0 {
      NumberInverse(n / 256, width - 1);
      NumberSnoc(BigEndian(n / 256, width - 1), n % 256);
    }
  }

  lemma BigEndianInjective(a: nat, b: nat, width: nat)
    requires a < Power(width) && b < Power(width)
    requires BigEndian(a, width) == BigEndian(b, width)
    ensures a == b
  {
    NumberInverse(a, width);
    NumberInverse(b, width);
  }

  /** Leading zeros do not count. */
  lemma {:induction false} LeadingZero(s: seq<Byte>)
    ensures Number([0] + s) == Number(s)
  {
    if s == [] {
      assert [0] + s == [] + [0];
      NumberSnoc([], 0);
    } else {
      var init, last := s[..|s| - 1], s[|s| - 1];
      assert [0] + s == ([0] + init) + [last];
      NumberSnoc([0] + init, last);
      LeadingZero(init);
    }
  }
}
