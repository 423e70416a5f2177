/**
 * The sample conversions of the native backend. A capture is a matrix of
 * bytes, one row per sample and `unit_size` bytes per row, channel `k`
 * being bit `k % 8` of byte `k / 8`. A row becomes a string of `0`/`1`
 * (least significant bit first), a lowercase hex string, or one packed
 * little-endian integer.
 */
module NativeConvert {
  import opened PyText

  type byte = x: int | 0 <= x < 256

  function Pow2(k: nat): (p: nat)
    ensures p >= 1
  {
    if k == 0 then 1 else 2 * Pow2(k - 1)
  }

  /** `x >> k` on a non-negative integer: `k` halvings. */
  function Shr(x: nat, k: nat): nat {
    if k == 0 then x else Shr(x / 2, k - 1)
  }

  /** `(int(byte) >> bit_idx) & 1`. */
  function Bit(x: nat, k: nat): nat {
    Shr(x, k) % 2
  }

  /** `n` bits of `x`, least significant first. */
  function BitsFrom(x: nat, n: nat): (bits: seq<nat>)
    ensures |bits| == n
  {
    if n == 0 then [] else [x % 2] + BitsFrom(x / 2, n - 1)
  }

  /** The bits of one byte, least significant first. */
  function ByteBits(b: byte): (bits: seq<nat>)
    ensures |bits| == 8
  {
    BitsFrom(b, 8)
  }

  /** The bits of a row: its bytes' bits in byte order. */
  function RowBits(row: seq<byte>): (bits: seq<nat>)
    ensures |bits| == 8 * |row|
  {
    if row == [] then [] else ByteBits(row[0]) + RowBits(row[1..])
  }

  /** `"".join(str(b) for b in bits)` for bits that are 0 or 1. */
  function BitsText(bits: seq<nat>): (s: string)
    ensures |s| == |bits|
  {
    seq(|bits|, i requires 0 <= i < |bits| => if bits[i] == 1 then '1' else '0')
  }

  /** One line of `_data_to_bits`: the row's bits cut to `num_channels`. */
  function BitsLine(row: seq<byte>, numChannels: int): string {
    BitsText(PyPrefix(RowBits(row), numChannels))
  }

  function BitLines(data: seq<seq<byte>>, numChannels: int): (lines: seq<string>)
    ensures |lines| == |data|
  {
    seq(|data|, i requires 0 <= i < |data| => BitsLine(data[i], numChannels))
  }

  /** `_data_to_bits`. */
  method DataToBits(data: seq<seq<byte>>, numChannels: int) returns (lines: seq<string>)
    ensures lines == BitLines(data, numChannels)
  {
    lines := [];
    for r := 0 to |data|
      invariant |lines| == r
      invariant forall i :: 0 <= i < r ==> lines[i] == BitsLine(data[i], numChannels)
    {
      var bits := UnpackRow(data[r]);
      bits := PyPrefix(bits, numChannels);
      lines := lines + [BitsText(bits)];
    }
  }

  /** The two inner loops of `_data_to_bits`: every byte, every bit index. */
  method UnpackRow(row: seq<byte>) returns (bits: seq<nat>)
    ensures bits == RowBits(row)
  {
    bits := [];
    for j := 0 to |row|
      invariant bits == RowBits(row[..j])
    {
      var b := row[j];
      ghost var before := bits;
      for bitIdx := 0 to 8
        invariant bits == before + ByteBits(b)[..bitIdx]
      {
        BitsFromAt(b, 8, bitIdx);
        assert ByteBits(b)[..bitIdx + 1] == ByteBits(b)[..bitIdx] + [Bit(b, bitIdx)];
        bits := bits + [Shr(b, bitIdx) % 2];
      }
      assert ByteBits(b)[..8] == ByteBits(b);
      RowBitsSnoc(row, j);
    }
    assert row[..|row|] == row;
  }

  /** Bit `k` of the first `n` bits is `(x >> k) & 1`. */
  lemma {:induction false} BitsFromAt(x: nat, n: nat, k: nat)
    requires k < n
    ensures BitsFrom(x, n)[k] == Bit(x, k)
  {
    if k > 0 {
      BitsFromAt(x / 2, n - 1, k - 1);
    }
  }

  lemma {:induction false} RowBitsSnoc(row: seq<byte>, j: nat)
    requires j < |row|
    ensures RowBits(row[..j + 1]) == RowBits(row[..j]) + ByteBits(row[j])
  {
    if j > 0 {
      RowBitsSnoc(row[1..], j - 1);
      assert row[..j + 1][1..] == row[1..][..j];
      assert row[..j][1..] == row[1..][..j - 1];
    }
  }

  /** Channel `p` of a row is bit `p % 8` of byte `p / 8`. */
  lemma {:induction false} RowBitsAt(row: seq<byte>, p: nat)
    requires p < 8 * |row|
    ensures RowBits(row)[p] == Bit(row[p / 8], p % 8)
  {
    if p < 8 {
      BitsFromAt(row[0], 8, p);
    } else {
      RowBitsAt(row[1..], p - 8);
      assert (p - 8) / 8 == p / 8 - 1 && (p - 8) % 8 == p % 8;
    }
  }

  /** A line of `_data_to_bits` has `min(8 * len(row), num_channels)`
      characters, and character `p` is bit `p % 8` of byte `p / 8`. */
  lemma BitsLineShape(row: seq<byte>, numChannels: int)
    ensures numChannels >= 0 ==>
              |BitsLine(row, numChannels)| == if numChannels < 8 * |row| then numChannels else 8 * |row|
    ensures forall p :: 0 <= p < |BitsLine(row, numChannels)| ==>
              BitsLine(row, numChannels)[p] == (if Bit(row[p / 8], p % 8) == 1 then '1' else '0')
  {
    var bits := RowBits(row);
    var cut := PyPrefix(bits, numChannels);
    forall p | 0 <= p < |cut| ensures cut[p] == Bit(row[p / 8], p % 8) {
      assert cut[p] == bits[p];
      RowBitsAt(row, p);
    }
  }

  // ---------------------------------------------------------------------
  // Bits as numbers
  // ---------------------------------------------------------------------

  /** The number whose bits, least significant first, are `bits`. */
  function Value(bits: seq<nat>): nat {
    if bits == [] then 0 else bits[0] + 2 * Value(bits[1..])
  }

  /** The row as one little-endian number, as `_data_to_packed_ints` packs it. */
  function LittleEndian(row: seq<byte>): nat {
    if row == [] then 0 else row[0] + 256 * LittleEndian(row[1..])
  }

  lemma {:induction false} ShrSmall(x: nat, k: nat)
    requires x < Pow2(k)
    ensures Shr(x, k) == 0
  {
    if k > 0 {
      ShrSmall(x / 2, k - 1);
    }
  }

  /** The low `n` bits and what is left above them make up the number. */
  lemma {:induction false} LowBits(x: nat, n: nat)
    ensures Value(BitsFrom(x, n)) + Pow2(n) * Shr(x, n) == x
  {
    if n > 0 {
      var bits := BitsFrom(x, n);
      assert bits[1..] == BitsFrom(x / 2, n - 1);
      LowBits(x / 2, n - 1);
      Scale(2, Pow2(n - 1), Shr(x / 2, n - 1));
    }
  }

  /** Reading a byte's eight bits back gives the byte. */
  lemma ByteBitsValue(b: byte)
    ensures Value(ByteBits(b)) == b
  {
    LowBits(b, 8);
    assert Pow2(8) == 256;
    ShrSmall(b, 8);
  }

  lemma {:induction false} ValueAppend(a: seq<nat>, b: seq<nat>)
    ensures Value(a + b) == Value(a) + Pow2(|a|) * Value(b)
  {
    if a == [] {
      assert a + b == b;
    } else {
      assert (a + b)[1..] == a[1..] + b;
      ValueAppend(a[1..], b);
      Scale(2, Pow2(|a| - 1), Value(b));
    }
  }

  /** Channel `N` of the bits line is bit `N` of the packed sample: the bits
      of a row, read as a number, are its little-endian value. */
  lemma {:induction false} BitsAreLittleEndian(row: seq<byte>)
    ensures Value(RowBits(row)) == LittleEndian(row)
  {
    if row != [] {
      BitsAreLittleEndian(row[1..]);
      ValueAppend(ByteBits(row[0]), RowBits(row[1..]));
      ByteBitsValue(row[0]);
      assert Pow2(8) == 256;
    }
  }

  // ---------------------------------------------------------------------
  // Packing
  // ---------------------------------------------------------------------

  /** Bitwise or of two non-negative integers. */
  function Or(a: nat, b: nat): nat
    decreases a + b
  {
    if a == 0 then b
    else if b == 0 then a
    else 2 * Or(a / 2, b / 2) + (if a % 2 == 1 || b % 2 == 1 then 1 else 0)
  }

  /** Or-ing a value shifted above every bit of `x` adds it. */
  lemma {:induction false} OrShift(x: nat, y: nat, n: nat)
    requires x < Pow2(n)
    ensures Or(x, y * Pow2(n)) == x + y * Pow2(n)
  {
    if x != 0 && y != 0 {
      var m := y * Pow2(n - 1);
      assert y * Pow2(n) == 2 * m;
      OrShift(x / 2, y, n - 1);
      assert Or(x, 2 * m) == 2 * Or(x / 2, m) + x % 2;
    }
  }

  /** `(c * p) * v == c * (p * v)`, kept apart from the sequence reasoning. */
  lemma Scale(c: nat, p: nat, v: nat)
    ensures (c * p) * v == c * (p * v) && v * (c * p) == c * (v * p)
  {
  }

  lemma {:induction false} PowAdd(a: nat, b: nat)
    ensures Pow2(a + b) == Pow2(a) * Pow2(b)
  {
    if b > 0 {
      PowAdd(a, b - 1);
    }
  }

  lemma Pow2Bytes(k: nat)
    ensures Pow2(8 * k + 8) == 256 * Pow2(8 * k)
  {
    PowAdd(8 * k, 8);
    assert Pow2(8) == 256;
  }

  /** The little-endian value of a row fits in its bytes. */
  lemma {:induction false} LittleEndianBound(row: seq<byte>)
    ensures LittleEndian(row) < Pow2(8 * |row|)
  {
    if row != [] {
      LittleEndianBound(row[1..]);
      Pow2Bytes(|row| - 1);
    }
  }

  /** The byte at index `k` weighs `2 ** (8 * k)`. */
  lemma {:induction false} LittleEndianSnoc(row: seq<byte>, k: nat)
    requires k < |row|
    ensures LittleEndian(row[..k + 1]) == LittleEndian(row[..k]) + row[k] * Pow2(8 * k)
  {
    if k > 0 {
      LittleEndianSnoc(row[1..], k - 1);
      assert row[..k + 1][1..] == row[1..][..k];
      assert row[..k][1..] == row[1..][..k - 1];
      Pow2Bytes(k - 1);
      Scale(256, Pow2(8 * (k - 1)), row[k]);
    }
  }

  /** One more byte of a row or-ed in at its place. */
  lemma PackStep(row: seq<byte>, k: nat)
    requires k < |row|
    ensures LittleEndian(row[..k + 1]) == Or(LittleEndian(row[..k]), row[k] * Pow2(8 * k))
  {
    LittleEndianSnoc(row, k);
    LittleEndianBound(row[..k]);
    OrShift(LittleEndian(row[..k]), row[k], 8 * k);
  }

  /** `_data_to_packed_ints`: for each byte index, every sample's byte is
      shifted into place and or-ed into its `uint32`. */
  method PackedInts(data: seq<seq<byte>>, unitSize: nat) returns (result: array<nat>)
    requires forall s :: 0 <= s < |data| ==> |data[s]| == unitSize
    requires unitSize <= 4
    ensures fresh(result) && result.Length == |data|
    ensures forall s :: 0 <= s < |data| ==> result[s] == LittleEndian(data[s])
  {
    result := new nat[|data|](_ => 0);
    for k := 0 to unitSize
      invariant forall s :: 0 <= s < |data| ==> result[s] == LittleEndian(data[s][..k])
    {
      PackColumn(data, k, result);
    }
    assert forall s :: 0 <= s < |data| ==> data[s][..unitSize] == data[s];
  }

  /** One pass of the packing loop: byte `k` of every sample. */
  method PackColumn(data: seq<seq<byte>>, k: nat, result: array<nat>)
    requires forall s :: 0 <= s < |data| ==> k < |data[s]|
    requires result.Length == |data|
    requires forall s :: 0 <= s < |data| ==> result[s] == LittleEndian(data[s][..k])
    modifies result
    ensures forall s :: 0 <= s < |data| ==> result[s] == LittleEndian(data[s][..k + 1])
  {
    for s := 0 to |data|
      invariant forall t :: 0 <= t < s ==> result[t] == LittleEndian(data[t][..k + 1])
      invariant forall t :: s <= t < |data| ==> result[t] == LittleEndian(data[t][..k])
    {
      PackByte(data[s], k, result, s);
    }
  }

  /** `b << n` for a byte `b`. */
  function ByteShifted(b: byte, n: nat): nat {
    b * Pow2(n)
  }

  /** Or byte `k` of one sample into its packed value. */
  method PackByte(row: seq<byte>, k: nat, result: array<nat>, s: nat)
    requires k < |row| && s < result.Length
    requires result[s] == LittleEndian(row[..k])
    modifies result
    ensures result[s] == LittleEndian(row[..k + 1])
    ensures forall t :: 0 <= t < result.Length && t != s ==> result[t] == old(result[t])
  {
    var packed := result[s];
    var shifted := ByteShifted(row[k], 8 * k);
    PackStep(row, k);
    result[s] := Or(packed, shifted);
  }

  /** A packed sample of at most four bytes fits in a `uint32`. */
  lemma PackedFits(row: seq<byte>)
    requires |row| <= 4
    ensures LittleEndian(row) < 0x1_0000_0000
  {
    LittleEndianBound(row);
    PowMono(8 * |row|, 32);
    Pow2Of32();
  }

  lemma Pow2Of32()
    ensures Pow2(32) == 0x1_0000_0000
  {
    Pow2Bytes(0);
    Pow2Bytes(1);
    Pow2Bytes(2);
    Pow2Bytes(3);
  }

  lemma {:induction false} PowMono(a: nat, b: nat)
    requires a <= b
    ensures Pow2(a) <= Pow2(b)
  {
    if a < b {
      PowMono(a, b - 1);
    }
  }

  // ---------------------------------------------------------------------
  // Hex
  // ---------------------------------------------------------------------

  /** `f"{b:02x}"`. */
  function HexByte(b: byte): (s: string)
    ensures |s| == 2
  {
    [LowerHexDigit(b / 16), LowerHexDigit(b % 16)]
  }

  function HexRow(row: seq<byte>): (s: string)
    ensures |s| == 2 * |row|
  {
    if row == [] then "" else HexRow(row[..|row| - 1]) + HexByte(row[|row| - 1])
  }

  /** `_data_to_hex`. */
  function HexLines(data: seq<seq<byte>>): (lines: seq<string>)
    ensures |lines| == |data|
  {
    seq(|data|, i requires 0 <= i < |data| => HexRow(data[i]))
  }

  /** Byte `j` of a row is written at characters `2 * j` and `2 * j + 1`. */
  lemma {:induction false} HexRowAt(row: seq<byte>, j: nat)
    requires j < |row|
    ensures HexRow(row)[2 * j] == LowerHexDigit(row[j] / 16)
    ensures HexRow(row)[2 * j + 1] == LowerHexDigit(row[j] % 16)
  {
    if j < |row| - 1 {
      HexRowAt(row[..|row| - 1], j);
    }
  }

  /** The hex text of a row reads back as the row, two digits per byte. */
  lemma HexRowRoundTrip(row: seq<byte>)
    ensures AllHexDigits(HexRow(row))
    ensures forall j :: 0 <= j < |row| ==>
              16 * HexDigitValue(HexRow(row)[2 * j]) + HexDigitValue(HexRow(row)[2 * j + 1]) == row[j]
  {
    var s := HexRow(row);
    forall i | 0 <= i < |s| ensures IsHexDigit(s[i]) {
      HexRowAt(row, i / 2);
      assert i == 2 * (i / 2) || i == 2 * (i / 2) + 1;
    }
    forall j | 0 <= j < |row|
      ensures 16 * HexDigitValue(s[2 * j]) + HexDigitValue(s[2 * j + 1]) == row[j]
    {
      HexRowAt(row, j);
    }
  }

}
