/** Bytes, and integers stored in several bytes with the most significant byte first. */
module Bytes {
  type byte = b: int | 0 <= b < 256

  function Min(a: int, b: int): int
  {
    if a <= b then a else b
  }

  /** data[a:b] in Python, for bounds that may lie beyond the end. */
  function Slice<T>(data: seq<T>, a: nat, b: nat): seq<T>
    requires a <= b
  {
    data[Min(a, |data|)..Min(b, |data|)]
  }

  /** int.from_bytes(s, "big") */
  function BigEndian(s: seq<byte>): nat
  {
    if s == [] then 0 else 256 * BigEndian(s[..|s| - 1]) + s[|s| - 1]
  }

  const TWO32 := 0x1_0000_0000

  /** The four-byte form of a number below 2^32. */
  function Be32(n: nat): seq<byte>
    requires n < TWO32
  {
    [n / 0x100_0000, n / 0x1_0000 % 256, n / 0x100 % 256, n % 256]
  }

  lemma {:induction false} Be32Reads(n: nat)
    requires n < TWO32
    ensures |Be32(n)| == 4 && BigEndian(Be32(n)) == n
  {
    var s := Be32(n);
    assert s[..3] == [n / 0x100_0000, n / 0x1_0000 % 256, n / 0x100 % 256];
    assert s[..3][..2] == [n / 0x100_0000, n / 0x1_0000 % 256];
    assert s[..3][..2][..1] == [n / 0x100_0000];
    assert BigEndian(s[..3][..2][..1]) == n / 0x100_0000;
    assert BigEndian(s[..3][..2]) == n / 0x1_0000;
    assert BigEndian(s[..3]) == n / 0x100;
  }
}
