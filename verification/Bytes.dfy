/** Byte strings: fixed-width big-endian integers and their inverse. */
module Bytes {
  type byte = x: int | 0 <= x < 256

  /** 256^width */
  function Range256(width: nat): (r: nat)
    ensures r > 0
  {
    if width == 0 then 1 else 256 * Range256(width - 1)
  }

  /** The low `8 * width` bits of `n`, most significant byte first. */
  function BigEndian(n: nat, width: nat): (s: seq<byte>)
    ensures |s| == width
  {
    if width == 0 then [] else BigEndian(n / 256, width - 1) + [n % 256]
  }

  function FromBigEndian(s: seq<byte>): nat {
    if s == [] then 0 else 256 * FromBigEndian(s[..|s| - 1]) + s[|s| - 1]
  }

  /** Encoding then decoding gives the number back when it fits the width. */
  lemma {:induction false} DecodeEncode(n: nat, width: nat)
    requires n < Range256(width)
    ensures FromBigEndian(BigEndian(n, width)) == n
    decreases width
  {
    if width > 0 {
      DecodeEncode(n / 256, width - 1);
      var s := BigEndian(n, width);
      assert s[..|s| - 1] == BigEndian(n / 256, width - 1);
    }
  }

  /** Decoding then encoding gives the bytes back. */
  lemma {:induction false} EncodeDecode(s: seq<byte>)
    ensures BigEndian(FromBigEndian(s), |s|) == s
    ensures FromBigEndian(s) < Range256(|s|)
  {
    if s != [] {
      EncodeDecode(s[..|s| - 1]);
      assert s == s[..|s| - 1] + [s[|s| - 1]];
    }
  }

  lemma BigEndianInjective(a: nat, b: nat, width: nat)
    requires a < Range256(width) && b < Range256(width)
    requires BigEndian(a, width) == BigEndian(b, width)
    ensures a == b
  {
    DecodeEncode(a, width);
    DecodeEncode(b, width);
  }

  lemma Ranges()
    ensures Range256(2) == 0x1_0000
    ensures Range256(4) == 0x1_0000_0000
    ensures Range256(8) == 0x1_0000_0000_0000_0000
  {
    assert Range256(1) == 256;
    assert Range256(2) == 256 * Range256(1);
    assert Range256(3) == 256 * Range256(2);
    assert Range256(4) == 256 * Range256(3);
    assert Range256(5) == 256 * Range256(4);
    assert Range256(6) == 256 * Range256(5);
    assert Range256(7) == 256 * Range256(6);
    assert Range256(8) == 256 * Range256(7);
  }
}
