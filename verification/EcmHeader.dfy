/** The variable-length header in front of every block of an ECM image: a two-bit block type and a
    32-bit count, five bits in the first byte and seven in each byte after it. */
module EcmHeader {
  import opened Words

  // What the reader returns: nothing at the end of the file, or the type, the stored number and
  // how many bytes the header took.
  datatype Header = NoHeader | Header(kind: nat, raw: nat, bytes: nat)

  function Pow2(n: nat): (p: nat)
    ensures p > 0
  {
    if n == 0 then 1 else 2 * Pow2(n - 1)
  }

  function ToByte(n: nat): bv8
    requires n < 256
  {
    n as bv8
  }

  function FromByte(b: bv8): (n: nat)
    ensures n < 256
  {
    b as nat
  }

  lemma ByteHolds(n: nat)
    requires n < 256
    ensures FromByte(n as bv8) == n
  {
  }

  lemma ByteRoundTrip(n: nat)
    requires n < 256
    ensures FromByte(ToByte(n)) == n
  {
    ByteHolds(n);
  }

  /* The source collects the number with a shift and a bitwise or in 32 bits. The bits below `bits`
     are the only ones set so far, so the or is a sum. A shift by 32 or more is undefined in C, and
     no header with such a byte is well-formed: it reads as no header here. */
  function ReadMore(file: seq<bv8>, pos: nat, bits: nat, num: nat, kind: nat, bytes: nat): (h: Header)
    requires kind < 4 && bytes <= pos
    ensures h.Header? ==> h.kind == kind && h.raw < TWO_32 && bytes < h.bytes && pos - bytes + h.bytes <= |file|
    decreases |file| - pos
  {
    if pos >= |file| || bits >= 32 then NoHeader
    else
      var c := FromByte(file[pos]);
      var num := (num + (c % 128) * Pow2(bits)) % TWO_32;
      if c >= 128 then ReadMore(file, pos + 1, bits + 7, num, kind, bytes + 1)
      else Header(kind, num, bytes + 1)
  }

  function ReadHeader(file: seq<bv8>, pos: nat): (h: Header)
    ensures h.Header? ==> h.kind < 4 && h.raw < TWO_32 && 0 < h.bytes && pos + h.bytes <= |file|
  {
    if pos >= |file| then NoHeader
    else
      var c := FromByte(file[pos]);
      if c >= 128 then ReadMore(file, pos + 1, 5, c / 4 % 32, c % 4, 1)
      else Header(c % 4, c / 4 % 32, 1)
  }

  method ReadTypeCount(file: seq<bv8>, pos: nat) returns (h: Header)
    ensures h == ReadHeader(file, pos)
  {
    if pos >= |file| {
      return NoHeader;
    }
    var c: nat := FromByte(file[pos]);
    var kind: nat, num: nat := c % 4, c / 4 % 32;
    var bits, bytes := 5, 1;
    while c >= 128
      invariant bytes <= |file| - pos
      invariant ReadHeader(file, pos) ==
                if c >= 128 then ReadMore(file, pos + bytes, bits, num, kind, bytes) else Header(kind, num, bytes)
      decreases |file| - pos - bytes, c
    {
      if pos + bytes >= |file| || bits >= 32 {
        return NoHeader;
      }
      c := FromByte(file[pos + bytes]);
      num := (num + (c % 128) * Pow2(bits)) % TWO_32;
      bits := bits + 7;
      bytes := bytes + 1;
    }
    return Header(kind, num, bytes);
  }

  // The bytes of the number from one position on, seven bits at a time.
  function MoreBytes(rest: nat): (b: seq<bv8>)
    ensures |b| > 0
  {
    if rest < 128 then [ToByte(rest)] else [ToByte(rest % 128 + 128)] + MoreBytes(rest / 128)
  }

  function HeaderBytes(kind: nat, raw: nat): (b: seq<bv8>)
    requires kind < 4
    ensures |b| > 0
  {
    if raw < 32 then [ToByte(kind + 4 * raw)]
    else [ToByte(kind + 4 * (raw % 32) + 128)] + MoreBytes(raw / 32)
  }

  // The weights of the continuation bytes of a 32-bit number.
  lemma Weights()
    ensures Pow2(5) == 0x20 && Pow2(12) == 0x1000 && Pow2(19) == 0x8_0000 && Pow2(26) == 0x400_0000
  {}

  lemma SplitRest(rest: nat, bits: nat, num: nat)
    requires bits in {5, 12, 19, 26} && num < Pow2(bits) && num + rest * Pow2(bits) < TWO_32 && rest >= 128
    ensures bits + 7 in {5, 12, 19, 26}
    ensures var next := num + (rest % 128) * Pow2(bits);
            next < TWO_32 && next < Pow2(bits + 7) && next + (rest / 128) * Pow2(bits + 7) == num + rest * Pow2(bits)
  {
    Weights();
    var low, high := rest % 128, rest / 128;
    assert rest == 128 * high + low;
    if bits == 5 {
    } else if bits == 12 {
    } else if bits == 19 {
    } else {
      assert false;
    }
  }

  lemma ReadMoreStep(file: seq<bv8>, pos: nat, bits: nat, num: nat, kind: nat, bytes: nat)
    requires pos < |file| && bits < 32 && kind < 4 && bytes <= pos
    requires num + (FromByte(file[pos]) % 128) * Pow2(bits) < TWO_32
    ensures var c := FromByte(file[pos]);
            var next := num + (c % 128) * Pow2(bits);
            ReadMore(file, pos, bits, num, kind, bytes) ==
              if c >= 128 then ReadMore(file, pos + 1, bits + 7, next, kind, bytes + 1)
              else Header(kind, next, bytes + 1)
  {
    hide FromByte, Pow2;
    Fits(num + (FromByte(file[pos]) % 128) * Pow2(bits));
  }

  lemma Fits(n: nat)
    requires n < TWO_32
    ensures n % TWO_32 == n
  {
  }

  // Reading the bytes of rest at bit `bits` adds rest * 2^bits to the number.
  lemma {:induction false} ReadMoreBytes(
      before: seq<bv8>, after: seq<bv8>, rest: nat, bits: nat, num: nat, kind: nat, bytes: nat)
    requires bits in {5, 12, 19, 26} && num < Pow2(bits) && num + rest * Pow2(bits) < TWO_32
    requires kind < 4 && bytes <= |before|
    ensures ReadMore(before + MoreBytes(rest) + after, |before|, bits, num, kind, bytes)
         == Header(kind, num + rest * Pow2(bits), bytes + |MoreBytes(rest)|)
    decreases rest
  {
    hide ToByte, FromByte, Pow2, ReadMore;
    var file := before + MoreBytes(rest) + after;
    if rest < 128 {
      ByteRoundTrip(rest);
      ReadMoreStep(file, |before|, bits, num, kind, bytes);
    } else {
      var c := rest % 128 + 128;
      ByteRoundTrip(c);
      SplitRest(rest, bits, num);
      ReadMoreStep(file, |before|, bits, num, kind, bytes);
      var next := num + (rest % 128) * Pow2(bits);
      var before' := before + [ToByte(c)];
      assert file == before' + MoreBytes(rest / 128) + after;
      ReadMoreBytes(before', after, rest / 128, bits + 7, next, kind, bytes + 1);
    }
  }

  /** Every type and every 32-bit number is read back from its header bytes, wherever they stand. */
  lemma HeaderRoundTrip(before: seq<bv8>, kind: nat, raw: nat, after: seq<bv8>)
    requires kind < 4 && raw < TWO_32
    ensures ReadHeader(before + HeaderBytes(kind, raw) + after, |before|)
         == Header(kind, raw, |HeaderBytes(kind, raw)|)
  {
    hide ToByte, FromByte, Pow2, ReadMore;
    var file := before + HeaderBytes(kind, raw) + after;
    Weights();
    if raw < 32 {
      ByteRoundTrip(kind + 4 * raw);
    } else {
      var c := kind + 4 * (raw % 32) + 128;
      ByteRoundTrip(c);
      var before' := before + [ToByte(c)];
      assert file == before' + MoreBytes(raw / 32) + after;
      ReadMoreBytes(before', after, raw / 32, 5, raw % 32, kind, 1);
    }
  }
}
