/** Bytes, the big-endian lengths the codecs carry, and the small types every part shares. */
module Bytes {

  type byte = b: int | 0 <= b < 256

  type bytes = seq<byte>

  datatype Option<+T> = None | Some(value: T)

  datatype Result<+T, +E> = Ok(value: T) | Err(error: E)

  function Bit(b: bool): nat { if b then 1 else 0 }

  function Min(a: int, b: int): int { if a <= b then a else b }

  function Max(a: int, b: int): int { if a >= b then a else b }

  /** byte(v), Go's truncating conversion. */
  function ToByte(v: nat): byte { v % 256 }

  function Zeros(n: nat): bytes { seq(n, _ => 0) }

  /** The two bytes v>>8 and v, truncated to 16 bits. */
  function Be16(v: nat): (s: bytes)
    ensures |s| == 2
  {
    [ToByte(v / 256), ToByte(v)]
  }

  function FromBe16(s: bytes): nat
    requires |s| >= 2
  {
    (s[0] as int) * 256 + s[1] as int
  }

  /** Sixteen bits hold a length below 65536, and otherwise its remainder. */
  lemma Be16RoundTrip(v: nat)
    ensures FromBe16(Be16(v)) == v % 65536
  {
    assert v == (v / 65536) * 65536 + v % 65536;
    assert (v / 256) % 256 == (v % 65536) / 256;
    assert v % 256 == (v % 65536) % 256;
  }

  lemma Be16Truncates(v: nat)
    ensures Be16(v) == Be16(v % 65536)
  {
    var m := v % 65536;
    assert v == (v / 65536) * 65536 + m;
    assert (v / 256) % 256 == m / 256;
    assert v % 256 == m % 256;
  }

  /** PutUint32 of v. */
  function Be32(v: nat): (s: bytes)
    ensures |s| == 4
  {
    Be16(v / 65536) + Be16(v)
  }

  function FromBe32(s: bytes): nat
    requires |s| >= 4
  {
    FromBe16(s[..2]) * 65536 + FromBe16(s[2..])
  }

  lemma Be32RoundTrip(v: nat)
    requires v < 0x1_0000_0000
    ensures FromBe32(Be32(v)) == v
  {
    Be16RoundTrip(v / 65536);
    Be16RoundTrip(v);
    assert Be32(v)[..2] == Be16(v / 65536) && Be32(v)[2..] == Be16(v);
  }

  /** The bytes w stand in s from `at` on. */
  predicate Stands(s: bytes, at: nat, w: bytes) { at + |w| <= |s| && s[at..at + |w|] == w }

  lemma StandsSplit(s: bytes, at: nat, v: bytes, w: bytes)
    requires Stands(s, at, v + w)
    ensures Stands(s, at, v) && Stands(s, at + |v|, w)
  {
    var all := s[at..at + |v + w|];
    assert s[at..at + |v|] == all[..|v|] == v;
    assert s[at + |v|..at + |v| + |w|] == all[|v|..] == w;
  }
}
