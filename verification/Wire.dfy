/** Big-endian integers in byte strings. */
module Wire {
  import opened Prelude

  type Bytes = seq<Byte>

  type Word = w: int | 0 <= w < 0x1_0000

  function U16(high: Byte, low: Byte): Word { high * 256 + low }

  function Put16(w: Word): (b: Bytes)
    ensures |b| == 2
  {
    [w / 256, w % 256]
  }

  /** The 16-bit number at `at`. */
  function Get16(b: Bytes, at: nat): Word
    requires at + 2 <= |b|
  {
    U16(b[at], b[at + 1])
  }

  /** `part` stands in `b` from `at` on. */
  predicate HoldsAt(b: Bytes, at: nat, part: Bytes) {
    at + |part| <= |b| && b[at..at + |part|] == part
  }

  lemma {:induction false} HoldsParts(b: Bytes, at: nat, first: Bytes, second: Bytes)
    requires HoldsAt(b, at, first + second)
    ensures HoldsAt(b, at, first) && HoldsAt(b, at + |first|, second)
  {
    var both := first + second;
    assert b[at..at + |first|] == both[..|first|] == first;
    assert b[at + |first|..at + |both|] == both[|first|..] == second;
  }

  lemma {:induction false} HoldsThen(b: Bytes, at: nat, first: Bytes, second: Bytes, next: nat)
    requires HoldsAt(b, at, first + second) && next == at + |first|
    ensures HoldsAt(b, at, first) && HoldsAt(b, next, second)
  {
    HoldsParts(b, at, first, second);
  }

  lemma {:induction false} Get16OfPut16(b: Bytes, at: nat, w: Word)
    requires HoldsAt(b, at, Put16(w))
    ensures Get16(b, at) == w
  {
    var part := b[at..at + 2];
    assert part[0] == b[at] && part[1] == b[at + 1];
  }

  /** `int.from_bytes(b, "big")`. */
  function BigEndian(b: Bytes): nat {
    if b == [] then 0 else 256 * BigEndian(b[..|b| - 1]) + b[|b| - 1]
  }

  /** `n.to_bytes(width, "big")`, for numbers that fit. */
  function ToBytes(n: nat, width: nat): (b: Bytes)
    ensures |b| == width
  {
    if width == 0 then [] else ToBytes(n / 256, width - 1) + [n % 256]
  }

  function Power256(n: nat): nat { if n == 0 then 1 else 256 * Power256(n - 1) }

  lemma {:induction false} BigEndianOfToBytes(n: nat, width: nat)
    requires n < Power256(width)
    ensures BigEndian(ToBytes(n, width)) == n
  {
    if width > 0 {
      BigEndianOfToBytes(n / 256, width - 1);
      assert ToBytes(n, width)[..width - 1] == ToBytes(n / 256, width - 1);
    }
  }
}
