/** Little-endian byte images, as `struct.pack("<...")` lays them out. */
module Bytes {
  import opened Arithmetic

  type Byte = n: int | 0 <= n < 256

  function Pow2(n: nat): (p: nat)
    ensures p >= 1
  {
    if n == 0 then 1 else 2 * Pow2(n - 1)
  }

  lemma {:induction false} Pow2Add(a: nat, b: nat)
    ensures Pow2(a + b) == Pow2(a) * Pow2(b)
  {
    if a != 0 {
      Pow2Add(a - 1, b);
      assert Pow2(a + b) == 2 * Pow2(a - 1 + b) && Pow2(a) == 2 * Pow2(a - 1);
      hide Pow2;
      MulAssociates(2, Pow2(a - 1), Pow2(b));
    }
  }

  lemma Pow2Facts()
    ensures Pow2(8) == 0x100 && Pow2(16) == 0x1_0000 && Pow2(31) == 0x8000_0000 && Pow2(32) == 0x1_0000_0000
    ensures Pow2(63) == 0x8000_0000_0000_0000 && Pow2(64) == 0x1_0000_0000_0000_0000
  {
    assert Pow2(4) == 16;
    Pow2Add(4, 4);
    Pow2Add(8, 8);
    Pow2Add(16, 16);
    Pow2Add(32, 32);
    assert Pow2(32) == 2 * Pow2(31);
    assert Pow2(64) == 2 * Pow2(63);
  }

  function LittleEndian(v: nat, width: nat): (r: seq<Byte>)
    ensures |r| == width
    decreases width
  {
    if width == 0 then [] else [v % 256] + LittleEndian(v / 256, width - 1)
  }

  function FromLittleEndian(bytes: seq<Byte>): nat {
    if bytes == [] then 0 else bytes[0] + 256 * FromLittleEndian(bytes[1..])
  }

  /** Encoding keeps every value that fits. */
  lemma {:induction false} LittleEndianRoundTrip(v: nat, width: nat)
    requires v < Pow2(8 * width)
    ensures FromLittleEndian(LittleEndian(v, width)) == v
    decreases width
  {
    if width != 0 {
      Pow2Add(8, 8 * width - 8);
      Pow2Facts();
      LittleEndianRoundTrip(v / 256, width - 1);
      assert LittleEndian(v, width)[1..] == LittleEndian(v / 256, width - 1);
    }
  }

  /** Two's complement of a signed value. */
  function SignedImage(v: int, width: nat): seq<Byte> {
    LittleEndian(v % Pow2(8 * width), width)
  }

  function FromSigned(bytes: seq<Byte>): int {
    var n := FromLittleEndian(bytes);
    if |bytes| > 0 && n >= Pow2(8 * |bytes| - 1) then n - Pow2(8 * |bytes|) else n
  }

  lemma SignedRoundTrip(v: int, width: nat)
    requires width > 0 && 0 - Pow2(8 * width - 1) <= v < Pow2(8 * width - 1)
    ensures FromSigned(SignedImage(v, width)) == v
  {
    var m := Pow2(8 * width);
    assert m == 2 * Pow2(8 * width - 1);
    assert v % m == if v >= 0 then v else v + m by {
      if v < 0 { ModUnique(v, m, -1, v + m); } else { ModUnique(v, m, 0, v); }
    }
    LittleEndianRoundTrip(v % m, width);
  }
}
