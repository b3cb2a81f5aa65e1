/** Bytes and little-endian `u32`s, as the IPC frames and the netlink messages carry them. */
module Bytes {

  newtype Byte = x: int | 0 <= x < 256

  const TWO_32: nat := 0x1_0000_0000

  /** Little-endian `u32`. */
  function ToLe(n: nat): (b: seq<Byte>)
    requires n < TWO_32
    ensures |b| == 4 && FromLe(b) == n
  {
    var b := [(n % 256) as Byte, (n / 256 % 256) as Byte, (n / 0x1_0000 % 256) as Byte, (n / 0x100_0000) as Byte];
    LeDigits(n);
    b
  }

  lemma LeDigits(n: nat)
    requires n < TWO_32
    ensures n % 256 + 256 * (n / 256 % 256) + 0x1_0000 * (n / 0x1_0000 % 256) + 0x100_0000 * (n / 0x100_0000) == n
    ensures n / 0x100_0000 < 256
  {
    var a := n / 256;
    var b := a / 256;
    var c := b / 256;
    assert n == a * 256 + n % 256 && a == b * 256 + a % 256 && b == c * 256 + b % 256;
    assert b == n / 0x1_0000 && c == n / 0x100_0000;
  }

  function FromLe(b: seq<Byte>): nat
    requires |b| == 4
  {
    b[0] as int + 256 * b[1] as int + 0x1_0000 * b[2] as int + 0x100_0000 * b[3] as int
  }
}
