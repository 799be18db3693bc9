/** Packing a band of monochrome rows into the printer's column bytes
    (`Microprinter.printImageRow`, microprinter.py:155-169, and its copy
    `print_row`, microprinter_image.py:8-22).

    A cell is 1 for a light pixel and 0 for a dark one.  Each column of
    eight rows becomes one byte with row 0 as its most significant bit, and
    the byte is then XORed with 255, so a set bit means a dark dot. */
module Packing {
  import opened Protocol

  type Bit = bv1
  type Row = seq<Bit>
  type Band = seq<Row>

  /** Rows per band: 8 unless `mode > 1`, then 24 (microprinter.py:184-187). */
  function RowLimit(mode: int): (limit: nat)
    ensures limit == 8 || limit == 24
    ensures limit == 8 <==> mode < 2
  {
    if mode > 1 then 24 else 8
  }

  /** What `printImageRow` can index: the rows it reads exist and each is at
      least as long as row 0, whose length is taken as the width. */
  predicate IsBand(data: Band, mode: int)
  {
    |data| >= RowLimit(mode) && forall r :: 0 <= r < RowLimit(mode) ==> |data[r]| >= |data[0]|
  }

  function Width(data: Band): nat
    requires |data| > 0
  {
    |data[0]|
  }

  /** Bytes per column: 1 when `mode < 2`, else 3. */
  function BytesPerColumn(mode: int): (k: nat)
    ensures k == RowLimit(mode) / 8
  {
    if mode < 2 then 1 else 3
  }

  /** `data[base][x] << 7 | data[base+1][x] << 6 | ... | data[base+7][x]`. */
  function ByteCol(data: Band, base: nat, x: nat): bv8
    requires base + 8 <= |data|
    requires forall r :: base <= r < base + 8 ==> x < |data[r]|
  {
    ((data[base][x] as bv8) << 7) | ((data[base + 1][x] as bv8) << 6)
    | ((data[base + 2][x] as bv8) << 5) | ((data[base + 3][x] as bv8) << 4)
    | ((data[base + 4][x] as bv8) << 3) | ((data[base + 5][x] as bv8) << 2)
    | ((data[base + 6][x] as bv8) << 1) | (data[base + 7][x] as bv8)
  }

  /** `byteCol ^ 255`, the byte that is sent. */
  function PackedByte(data: Band, base: nat, x: nat): Byte
    requires base + 8 <= |data|
    requires forall r :: base <= r < base + 8 ==> x < |data[r]|
  {
    (ByteCol(data, base, x) ^ 0xFF) as int
  }

  /** The eight cells `data[base..base+8][x]`, top to bottom. */
  function Column(data: Band, base: nat, x: nat): (c: seq<Bit>)
    requires base + 8 <= |data|
    requires forall r :: base <= r < base + 8 ==> x < |data[r]|
    ensures |c| == 8
  {
    seq(8, r requires 0 <= r < 8 => data[base + r][x])
  }

  /** The value of a bit string read most significant bit first. */
  function MsbValue(bits: seq<Bit>): nat
  {
    if bits == [] then 0 else 2 * MsbValue(bits[..|bits| - 1]) + bits[|bits| - 1] as int
  }

  function Weighted(c: seq<Bit>): int
    requires |c| == 8
  {
    128 * (c[0] as int) + 64 * (c[1] as int) + 32 * (c[2] as int) + 16 * (c[3] as int)
    + 8 * (c[4] as int) + 4 * (c[5] as int) + 2 * (c[6] as int) + (c[7] as int)
  }

  lemma ByteColSum(data: Band, base: nat, x: nat)
    requires base + 8 <= |data|
    requires forall r :: base <= r < base + 8 ==> x < |data[r]|
    ensures ByteCol(data, base, x) as int == Weighted(Column(data, base, x))
  {
  }

  lemma XorFF(v: bv8)
    ensures (v ^ 0xFF) as int == 255 - v as int
  {
  }

  /** One step of `MsbValue`: appending a bit doubles the value so far. */
  lemma MsbStep(c: seq<Bit>, k: nat)
    requires k < |c|
    ensures MsbValue(c[..k + 1]) == 2 * MsbValue(c[..k]) + c[k] as int
  {
    assert c[..k + 1][..k] == c[..k];
  }

  lemma MsbFour(c: seq<Bit>)
    requires |c| == 8
    ensures MsbValue(c[..4]) == 8 * (c[0] as int) + 4 * (c[1] as int) + 2 * (c[2] as int) + (c[3] as int)
  {
    assert c[..0] == [];
    MsbStep(c, 0);
    MsbStep(c, 1);
    MsbStep(c, 2);
    MsbStep(c, 3);
  }

  lemma MsbEight(c: seq<Bit>)
    requires |c| == 8
    ensures MsbValue(c) == Weighted(c)
  {
    MsbFour(c);
    MsbStep(c, 4);
    MsbStep(c, 5);
    MsbStep(c, 6);
    MsbStep(c, 7);
    assert c[..8] == c;
  }

  /** A packed byte is 255 minus the column read with row `base` as the most
      significant bit: the inversion that makes a dark cell a set bit. */
  lemma PackedByteValue(data: Band, base: nat, x: nat)
    requires base + 8 <= |data|
    requires forall r :: base <= r < base + 8 ==> x < |data[r]|
    ensures PackedByte(data, base, x) == 255 - MsbValue(Column(data, base, x))
  {
    ByteColSum(data, base, x);
    XorFF(ByteCol(data, base, x));
    MsbEight(Column(data, base, x));
  }

  /** Bit `7 - k` of a packed byte is set exactly when the cell in row
      `base + k` is dark (0). */
  lemma PackedByteBit(data: Band, base: nat, x: nat, k: nat)
    requires base + 8 <= |data|
    requires forall r :: base <= r < base + 8 ==> x < |data[r]|
    requires k < 8
    ensures ((PackedByte(data, base, x) as bv8) >> (7 - k)) & 1 == if data[base + k][x] == 0 then 1 else 0
  {
    ColumnBit(data, base, x, k);
    ByteBack(ByteCol(data, base, x) ^ 0xFF, PackedByte(data, base, x));
  }

  /** A byte read as a number converts back to the same byte. */
  lemma ByteBack(v: bv8, n: Byte)
    requires n == v as int
    ensures n as bv8 == v
  {
  }

  /** The bit fact of `PackedByteBit`, on the bit-vector before conversion. */
  lemma ColumnBit(data: Band, base: nat, x: nat, k: nat)
    requires base + 8 <= |data|
    requires forall r :: base <= r < base + 8 ==> x < |data[r]|
    requires k < 8
    ensures ((ByteCol(data, base, x) ^ 0xFF) >> (7 - k)) & 1 == if data[base + k][x] == 0 then 1 else 0
  {
  }

  /** The bytes of column `x`: one from rows 0-7 when `mode < 2`, else
      three, from rows 0-7, 8-15 and 16-23, in that order. */
  function ColumnBytes(data: Band, mode: int, x: nat): (bytes: seq<Byte>)
    requires IsBand(data, mode) && x < Width(data)
  {
    if mode < 2 then [PackedByte(data, 0, x)]
    else [PackedByte(data, 0, x), PackedByte(data, 8, x), PackedByte(data, 16, x)]
  }

  /** The bytes of the first `n` columns, column after column. */
  function PackColumns(data: Band, mode: int, n: nat): seq<Byte>
    requires IsBand(data, mode) && n <= Width(data)
  {
    if n == 0 then [] else PackColumns(data, mode, n - 1) + ColumnBytes(data, mode, n - 1)
  }

  /** The packed band as `printImageRow` hands it to `printImagebytes`. */
  function PackBand(data: Band, mode: int): seq<Byte>
    requires IsBand(data, mode)
  {
    PackColumns(data, mode, Width(data))
  }

  /** The bytes of one column, read as values: byte `g` is 255 minus rows
      `8 * g .. 8 * g + 7` of the column read most significant bit first. */
  lemma ColumnBytesValue(data: Band, mode: int, x: nat)
    requires IsBand(data, mode) && x < Width(data)
    ensures |ColumnBytes(data, mode, x)| == BytesPerColumn(mode)
    ensures forall g :: 0 <= g < BytesPerColumn(mode) ==>
      ColumnBytes(data, mode, x)[g] == 255 - MsbValue(Column(data, 8 * g, x))
  {
    PackedByteValue(data, 0, x);
    if mode >= 2 {
      PackedByteValue(data, 8, x);
      PackedByteValue(data, 16, x);
    }
  }

  /** The layout of the first `n` packed columns when `mode < 2`: byte `x`
      stands for rows 0-7 of column `x`, inverted. */
  lemma {:induction false} PackColumnsNarrow(data: Band, mode: int, n: nat)
    requires IsBand(data, mode) && n <= Width(data) && mode < 2
    ensures |PackColumns(data, mode, n)| == n
    ensures forall x :: 0 <= x < n ==>
      PackColumns(data, mode, n)[x] == 255 - MsbValue(Column(data, 0, x))
  {
    if n > 0 {
      PackColumnsNarrow(data, mode, n - 1);
      ColumnBytesValue(data, mode, n - 1);
    }
  }

  /** The layout of the first `n` packed columns when `mode >= 2`: byte
      `3 * x + g` stands for rows `8 * g .. 8 * g + 7` of column `x`,
      inverted. */
  lemma {:induction false} PackColumnsWide(data: Band, mode: int, n: nat)
    requires IsBand(data, mode) && n <= Width(data) && mode >= 2
    ensures |PackColumns(data, mode, n)| == 3 * n
    ensures forall x, g :: 0 <= x < n && 0 <= g < 3 ==>
      PackColumns(data, mode, n)[3 * x + g] == 255 - MsbValue(Column(data, 8 * g, x))
  {
    if n > 0 {
      PackColumnsWide(data, mode, n - 1);
      var prev := PackColumns(data, mode, n - 1);
      var last := ColumnBytes(data, mode, n - 1);
      ColumnBytesValue(data, mode, n - 1);
      forall x, g | 0 <= x < n && 0 <= g < 3
        ensures (prev + last)[3 * x + g] == 255 - MsbValue(Column(data, 8 * g, x))
      {
        if x == n - 1 {
          assert (prev + last)[3 * x + g] == last[g];
        } else {
          assert (prev + last)[3 * x + g] == prev[3 * x + g];
        }
      }
    }
  }

  /** A packed band has exactly `width` bytes when `mode < 2` and `3 * width`
      otherwise; byte `x`, respectively `3 * x + g`, is 255 minus column `x`
      of row group `g` read most significant bit first. */
  lemma PackBandLayout(data: Band, mode: int)
    requires IsBand(data, mode)
    ensures |PackBand(data, mode)| == BytesPerColumn(mode) * Width(data)
    ensures mode < 2 ==> |PackBand(data, mode)| == Width(data)
    ensures mode < 2 ==> forall x :: 0 <= x < Width(data) ==>
      PackBand(data, mode)[x] == 255 - MsbValue(Column(data, 0, x))
    ensures mode >= 2 ==> |PackBand(data, mode)| == 3 * Width(data)
    ensures mode >= 2 ==> forall x, g :: 0 <= x < Width(data) && 0 <= g < 3 ==>
      PackBand(data, mode)[3 * x + g] == 255 - MsbValue(Column(data, 8 * g, x))
  {
    if mode < 2 {
      PackColumnsNarrow(data, mode, Width(data));
    } else {
      PackColumnsWide(data, mode, Width(data));
    }
  }

  /** A band all of whose cells are light packs to all 0x00 and one all of
      whose cells are dark packs to all 0xFF. */
  lemma {:induction false} PackColumnsUniform(data: Band, mode: int, cell: Bit, n: nat)
    requires IsBand(data, mode) && n <= Width(data)
    requires forall r, x :: 0 <= r < RowLimit(mode) && 0 <= x < |data[r]| ==> data[r][x] == cell
    ensures forall i :: 0 <= i < |PackColumns(data, mode, n)| ==>
      PackColumns(data, mode, n)[i] == if cell == 1 then 0x00 else 0xFF
  {
    if n > 0 {
      PackColumnsUniform(data, mode, cell, n - 1);
      var x := n - 1;
      assert ByteCol(data, 0, x) == if cell == 1 then 0xFF else 0x00;
      if mode >= 2 {
        assert ByteCol(data, 8, x) == if cell == 1 then 0xFF else 0x00;
        assert ByteCol(data, 16, x) == if cell == 1 then 0xFF else 0x00;
      }
    }
  }

  lemma PackBandUniform(data: Band, mode: int, cell: Bit)
    requires IsBand(data, mode)
    requires forall r, x :: 0 <= r < RowLimit(mode) && 0 <= x < |data[r]| ==> data[r][x] == cell
    ensures forall i :: 0 <= i < |PackBand(data, mode)| ==> PackBand(data, mode)[i] == if cell == 1 then 0x00 else 0xFF
  {
    PackColumnsUniform(data, mode, cell, Width(data));
  }

  /** The loop of `printImageRow` (microprinter.py:156-168) and of
      `print_row` (microprinter_image.py:9-21): one byte per column, or
      three, appended column by column. */
  method PackRow(data: Band, mode: int) returns (bytes: seq<Byte>)
    requires IsBand(data, mode)
    ensures bytes == PackBand(data, mode)
  {
    bytes := [];
    var w := |data[0]|;
    if mode < 2 {
      for x := 0 to w
        invariant bytes == PackColumns(data, mode, x)
      {
        var b := PackedByte(data, 0, x);
        bytes := bytes + [b];
      }
    } else {
      for x := 0 to w
        invariant bytes == PackColumns(data, mode, x)
      {
        ghost var before := bytes;
        var b0 := PackedByte(data, 0, x);
        bytes := bytes + [b0];
        var b1 := PackedByte(data, 8, x);
        bytes := bytes + [b1];
        var b2 := PackedByte(data, 16, x);
        bytes := bytes + [b2];
        assert bytes == before + ColumnBytes(data, mode, x);
      }
    }
  }
}
