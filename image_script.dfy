/** The stand-alone image script microprinter_image.py: `print_row`
    (lines 8-22) and the banding loop of `print_image` (lines 24-62).  The
    script drives a printer object `m` from outside; `m` is modelled as a
    `Recorder` of the calls made on it.  The script differs from
    `Microprinter.printImage` in one respect: it pads and sends the leftover
    rows only when there are fewer than 8 of them, whatever the band height. */
module ImageScript {
  import opened Protocol
  import opened Packing
  import opened Raster

  /** A call the script makes on `m`. */
  datatype Call =
    | FeedRateSet(feedlength: int)               // m.setLineFeedRate(feedlength)
    | ImageBytesSent(mode: int, bytes: seq<Byte>) // m.print_imagebytes(mode, bytes)
    | StateReset                                 // m.resetState()

  /** The printer object `m`, seen through the calls made on it. */
  class Recorder {
    var calls: seq<Call>

    constructor()
      ensures calls == []
    {
      calls := [];
    }

    method SetLineFeedRate(feedlength: int)
      modifies this
      ensures calls == old(calls) + [FeedRateSet(feedlength)]
    {
      calls := calls + [FeedRateSet(feedlength)];
    }

    method PrintImagebytes(mode: int, bytes: seq<Byte>)
      modifies this
      ensures calls == old(calls) + [ImageBytesSent(mode, bytes)]
    {
      calls := calls + [ImageBytesSent(mode, bytes)];
    }

    method ResetState()
      modifies this
      ensures calls == old(calls) + [StateReset]
    {
      calls := calls + [StateReset];
    }
  }

  /** The padding guard of microprinter_image.py:58, a constant 8 rather
      than the band height. */
  const ScriptPadBelow := 8

  /** The bands the script sends: every full band, then the leftover rows
      padded to a band when there are 1 to 7 of them. */
  function ScriptBands(pixels: seq<int>, width: int, mode: int): (bands: seq<Band>)
    ensures forall j :: 0 <= j < |bands| ==> |bands[j]| == RowLimit(mode)
    ensures forall j, r :: 0 <= j < |bands| && 0 <= r < |bands[j]| ==> |bands[j][r]| == width
    ensures forall j :: 0 <= j < |bands| ==> IsBand(bands[j], mode)
  {
    var rows := Rows(pixels, width);
    var limit := RowLimit(mode);
    BandsWidth(rows, limit, width, ScriptPadBelow);
    Bands(rows, limit, width, ScriptPadBelow)
  }

  /** One `print_imagebytes` call per band, with the band's packed bytes. */
  function BandCalls(bands: seq<Band>, mode: int): seq<Call>
    requires forall j :: 0 <= j < |bands| ==> IsBand(bands[j], mode)
  {
    seq(|bands|, j requires 0 <= j < |bands| => ImageBytesSent(mode, PackBand(bands[j], mode)))
  }

  /** Everything `print_image` asks of `m` after the resize. */
  function ScriptCalls(pixels: seq<int>, width: int, mode: int): seq<Call>
  {
    [FeedRateSet(1)] + BandCalls(ScriptBands(pixels, width, mode), mode) + [StateReset]
  }

  /** The calls made by the loop of `print_image` after the pixels `p`. */
  function Streamed(p: seq<int>, width: int, mode: int): seq<Call>
  {
    BandCalls(FullBands(p, width, mode), mode)
  }

  lemma BandCallsSnoc(bands: seq<Band>, b: Band, mode: int)
    requires forall j :: 0 <= j < |bands| ==> IsBand(bands[j], mode)
    requires IsBand(b, mode)
    ensures BandCalls(bands + [b], mode) == BandCalls(bands, mode) + [ImageBytesSent(mode, PackBand(b, mode))]
  {
  }

  /** The loop of `print_image` at pixel `i`, on its own variables: `cells`
      is `cbuffer` and `kept` is `lbuffer`.  The pixel lengthens the row,
      or completes it; a completed row joins `kept`, which is then either
      still short of a band or a band that is sent. */
  lemma ScriptStep(pixels: seq<int>, i: int, width: int, mode: int, cells: Row, kept: seq<Row>)
    requires 0 <= i < |pixels|
    requires cells == Rest(Cells(pixels[..i]), width)
    requires kept == Rest(Rows(pixels[..i], width), RowLimit(mode))
    ensures var row := cells + [Cell(pixels[i])];
      && (|row| != width ==>
            && Rest(Cells(pixels[..i + 1]), width) == row
            && Rest(Rows(pixels[..i + 1], width), RowLimit(mode)) == kept
            && Streamed(pixels[..i + 1], width, mode) == Streamed(pixels[..i], width, mode))
      && (|row| == width && |kept + [row]| != RowLimit(mode) ==>
            && Rest(Cells(pixels[..i + 1]), width) == []
            && Rest(Rows(pixels[..i + 1], width), RowLimit(mode)) == kept + [row]
            && Streamed(pixels[..i + 1], width, mode) == Streamed(pixels[..i], width, mode))
      && (|row| == width && |kept + [row]| == RowLimit(mode) ==>
            && Rest(Cells(pixels[..i + 1]), width) == []
            && Rest(Rows(pixels[..i + 1], width), RowLimit(mode)) == []
            && IsBand(kept + [row], mode)
            && Streamed(pixels[..i + 1], width, mode)
               == Streamed(pixels[..i], width, mode) + [ImageBytesSent(mode, PackBand(kept + [row], mode))])
  {
    BandStep(pixels, i, width, mode);
    var row := cells + [Cell(pixels[i])];
    if |row| == width && |kept + [row]| == RowLimit(mode) {
      var done := FullBands(pixels[..i], width, mode);
      var after := FullBands(pixels[..i + 1], width, mode);
      assert after == done + [kept + [row]];
      assert IsBand(after[|done|], mode);
      BandCallsSnoc(done, kept + [row], mode);
    }
  }

  /** After the last pixel the script sends the padded leftover rows when
      there are 1 to 7 of them (`kept` is `lbuffer`), then resets. */
  lemma ScriptEnd(pixels: seq<int>, width: int, mode: int, kept: seq<Row>)
    requires kept == Rest(Rows(pixels, width), RowLimit(mode))
    ensures |kept| < RowLimit(mode)
    ensures 0 < |kept| < ScriptPadBelow ==>
      && IsBand(Pad(kept, RowLimit(mode), width), mode)
      && ScriptCalls(pixels, width, mode)
         == [FeedRateSet(1)] + Streamed(pixels, width, mode)
            + [ImageBytesSent(mode, PackBand(Pad(kept, RowLimit(mode), width), mode)), StateReset]
    ensures !(0 < |kept| < ScriptPadBelow) ==>
      ScriptCalls(pixels, width, mode) == [FeedRateSet(1)] + Streamed(pixels, width, mode) + [StateReset]
  {
    var limit := RowLimit(mode);
    var full := FullBands(pixels, width, mode);
    var bands := ScriptBands(pixels, width, mode);
    if 0 < |kept| < ScriptPadBelow {
      var padded := Pad(kept, limit, width);
      assert bands == full + [padded];
      assert IsBand(bands[|full|], mode);
      BandCallsSnoc(full, padded, mode);
      var sent := ImageBytesSent(mode, PackBand(padded, mode));
      assert [FeedRateSet(1)] + (Streamed(pixels, width, mode) + [sent]) + [StateReset]
        == [FeedRateSet(1)] + Streamed(pixels, width, mode) + [sent, StateReset];
    } else {
      assert bands == full;
    }
  }

  /** `print_row` (microprinter_image.py:8-22): the packing loop, shared
      with `printImageRow`, then one `print_imagebytes` call. */
  method PrintRow(data: Band, mode: int, m: Recorder)
    requires IsBand(data, mode)
    modifies m
    ensures m.calls == old(m.calls) + [ImageBytesSent(mode, PackBand(data, mode))]
  {
    var bytes := PackRow(data, mode);
    m.PrintImagebytes(mode, bytes);
  }

  /** `print_image` from the resized pixels on (microprinter_image.py:25-30,
      39-62). */
  method PrintImage(pixels: seq<int>, width: int, mode: int, m: Recorder)
    modifies m
    ensures m.calls == old(m.calls) + ScriptCalls(pixels, width, mode)
  {
    m.SetLineFeedRate(1);
    var rowlimit := 8;
    if mode > 1 {
      rowlimit := 24;
    }
    var lbuffer := StreamRows(pixels, width, mode, rowlimit, m);
    ScriptEnd(pixels, width, mode, lbuffer);
    FinishRows(lbuffer, width, mode, rowlimit, m);
    AppendAssoc(old(m.calls), [FeedRateSet(1)], Streamed(pixels, width, mode));
    if 0 < |lbuffer| < 8 {
      AppendAssoc(old(m.calls), [FeedRateSet(1)] + Streamed(pixels, width, mode),
        [ImageBytesSent(mode, PackBand(Pad(lbuffer, rowlimit, width), mode)), StateReset]);
    } else {
      AppendAssoc(old(m.calls), [FeedRateSet(1)] + Streamed(pixels, width, mode), [StateReset]);
    }
  }

  /** The end of `print_image` (microprinter_image.py:58-62): 1 to 7
      leftover rows are padded with light rows to a band and sent; then
      the printer is reset. */
  method FinishRows(lbuffer: seq<Row>, width: int, mode: int, rowlimit: int, m: Recorder)
    requires rowlimit == RowLimit(mode) && |lbuffer| < rowlimit
    requires 0 < |lbuffer| < ScriptPadBelow ==> IsBand(Pad(lbuffer, rowlimit, width), mode)
    modifies m
    ensures 0 < |lbuffer| < ScriptPadBelow ==>
      m.calls == old(m.calls) + [ImageBytesSent(mode, PackBand(Pad(lbuffer, rowlimit, width), mode)), StateReset]
    ensures !(0 < |lbuffer| < ScriptPadBelow) ==> m.calls == old(m.calls) + [StateReset]
  {
    var band := lbuffer;
    if 0 < |band| < 8 {
      band := band + LightRows(rowlimit - |band|, width);
      PrintRow(band, mode, m);
    }
    m.ResetState();
  }

  /** The pixel loop of `print_image` (microprinter_image.py:39-57): it
      sends every full band and returns the rows left over. */
  method StreamRows(pixels: seq<int>, width: int, mode: int, rowlimit: int, m: Recorder)
    returns (lbuffer: seq<Row>)
    requires rowlimit == RowLimit(mode)
    modifies m
    ensures lbuffer == Rest(Rows(pixels, width), rowlimit)
    ensures m.calls == old(m.calls) + Streamed(pixels, width, mode)
  {
    lbuffer := [];
    var columns := 0;
    var cbuffer: Row := [];
    for i := 0 to |pixels|
      invariant cbuffer == Rest(Cells(pixels[..i]), width) && columns == |cbuffer|
      invariant lbuffer == Rest(Rows(pixels[..i], width), rowlimit)
      invariant m.calls == old(m.calls) + Streamed(pixels[..i], width, mode)
    {
      ScriptStep(pixels, i, width, mode, cbuffer, lbuffer);
      columns := columns + 1;
      cbuffer := cbuffer + [if pixels[i] > 128 then 1 else 0];
      if columns == width {
        lbuffer := lbuffer + [cbuffer];
        cbuffer := [];
        columns := 0;
        if |lbuffer| == rowlimit {
          PrintRow(lbuffer, mode, m);
          lbuffer := [];
        }
      }
    }
    assert pixels[..|pixels|] == pixels;
  }

  /** In the 8-row modes the script and `printImage` send the same bands. */
  lemma ScriptMatchesNarrow(pixels: seq<int>, width: int, mode: int)
    requires mode < 2
    ensures ScriptBands(pixels, width, mode) == ImageBands(pixels, width, mode)
  {
  }

  /** In the 24-row modes the script agrees with `printImage` exactly when
      fewer than 8 complete rows are left over; with 8 to 23 left over it
      drops the last band that `printImage` sends. */
  lemma ScriptLeftover(pixels: seq<int>, width: int, mode: int)
    requires width > 0 && mode >= 2
    ensures var left := |pixels| / width % 24;
      && (left < 8 ==> ScriptBands(pixels, width, mode) == ImageBands(pixels, width, mode))
      && (8 <= left ==>
            && ScriptBands(pixels, width, mode) == FullBands(pixels, width, mode)
            && |ImageBands(pixels, width, mode)| == |ScriptBands(pixels, width, mode)| + 1)
  {
    var rows := Rows(pixels, width);
    ChunksCount(Cells(pixels), width);
    ChunksCount(rows, 24);
  }

  /** Eight dark pixels one column wide in mode 2 make eight complete rows,
      a third of a band: `printImage` sends one padded band of 0xFF and
      0x00 bytes, the script sends none. */
  lemma ScriptDropsEightRows()
    ensures var pixels := seq(8, _ => 0);
      && |ImageBands(pixels, 1, 2)| == 1
      && ScriptBands(pixels, 1, 2) == []
      && ScriptCalls(pixels, 1, 2) == [FeedRateSet(1), StateReset]
  {
    var pixels: seq<int> := seq(8, _ => 0);
    ScriptLeftover(pixels, 1, 2);
    ChunksCount(Cells(pixels), 1);
    ChunksCount(Rows(pixels, 1), 24);
  }
}
