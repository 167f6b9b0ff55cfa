/** Numbers as the machine holds them: bytes, 32-bit words, and two packed decimal digits in a byte. */
module Words {
  const TWO_32 := 0x1_0000_0000
  const TWO_31 := 0x8000_0000

  type Byte = x: int | 0 <= x < 256
  type Word = x: int | 0 <= x < TWO_32

  // The signed reading of a 32-bit difference.
  function Signed32(difference: int): int {
    var low := difference % TWO_32;
    if low < TWO_31 then low else low - TWO_32
  }

  // ---- Packed decimal ----

  function ToBcd(v: nat): Byte {
    (v % 256 / 10 * 16 + v % 256 % 10) % 256
  }

  function FromBcd(v: nat): nat {
    v / 16 * 10 + v % 16
  }

  lemma NibblesApart(tens: nat, ones: nat)
    requires ones < 16
    ensures (tens * 16 + ones) / 16 == tens && (tens * 16 + ones) % 16 == ones
  {
  }

  lemma PackedDigits(v: nat)
    requires v < 100
    ensures ToBcd(v) == v / 10 * 16 + v % 10
  {
    assert v % 256 == v;
    assert v / 10 < 10 && v % 10 < 10;
  }

  lemma BcdRoundTrip(v: nat)
    requires v < 100
    ensures FromBcd(ToBcd(v)) == v
  {
    hide ToBcd;
    PackedDigits(v);
    NibblesApart(v / 10, v % 10);
  }
}
