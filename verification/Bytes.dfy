/** Bytes, and numbers written with a fixed number of them, the most significant first:
    pkg/utils/encoding/encoding.go. */
module Bytes {
  import opened Division

  newtype byte = x: int | 0 <= x < 256

  /** How many numbers fit into so many bytes. */
  function Range(width: nat): (r: nat)
    ensures r > 0
  {
    if width == 0 then 1 else 256 * Range(width - 1)
  }

  /** The low bytes of n. */
  function ToBytes(width: nat, n: nat): (b: seq<byte>)
    ensures |b| == width
  {
    if width == 0 then [] else ToBytes(width - 1, n / 256) + [(n % 256) as byte]
  }

  function FromBytes(b: seq<byte>): nat {
    if b == [] then 0 else 256 * FromBytes(b[..|b| - 1]) + b[|b| - 1] as int
  }

  /** The most significant byte first. */
  lemma {:induction false} BigEndian(width: nat, n: nat, k: nat)
    requires k < width
    ensures ToBytes(width, n)[k] as int == n / Range(width - 1 - k) % 256
  {
    if k < width - 1 {
      BigEndian(width - 1, n / 256, k);
      DividedTwice(n, 256, Range(width - 2 - k));
    }
  }

  lemma {:induction false} FromToBytes(width: nat, n: nat)
    requires n < Range(width)
    ensures FromBytes(ToBytes(width, n)) == n
  {
    if width > 0 {
      var b := ToBytes(width, n);
      assert b[..|b| - 1] == ToBytes(width - 1, n / 256);
      FromToBytes(width - 1, n / 256);
    }
  }

  lemma {:induction false} ToFromBytes(b: seq<byte>)
    ensures FromBytes(b) < Range(|b|) && ToBytes(|b|, FromBytes(b)) == b
  {
    if b != [] {
      ToFromBytes(b[..|b| - 1]);
      assert b == b[..|b| - 1] + [b[|b| - 1]];
    }
  }

  predicate FitsSigned(width: nat, n: int) {
    width > 0 && -(128 * Range(width - 1)) <= n < 128 * Range(width - 1)
  }

  /** Two's complement. */
  function Unsigned(width: nat, n: int): (u: nat)
    requires FitsSigned(width, n)
    ensures u < Range(width)
  {
    if n < 0 then n + Range(width) else n
  }

  function Signed(width: nat, u: nat): int
    requires width > 0
  {
    if u < 128 * Range(width - 1) then u else u - Range(width)
  }

  lemma SignedUnsigned(width: nat, n: int)
    requires FitsSigned(width, n)
    ensures Signed(width, Unsigned(width, n)) == n
  {
  }

  const WORD: nat := 0x1_0000_0000

  lemma WordRange()
    ensures Range(4) == WORD
  {
    assert Range(1) == 256 && Range(2) == 65536 && Range(3) == 16777216;
  }
}
