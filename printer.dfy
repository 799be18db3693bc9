/** The `Microprinter` driver object (microprinter.py:44-217) over its serial
    port.  The port is a `Serial` whose only state is the log of the `write`
    and `flush` calls made on it; every method of `Microprinter` appends to
    that log exactly the events that the matching function of module
    Protocol (or Raster, for `printImage`) describes, and returns `ok ==
    false` where Python would raise the `ValueError` of `chr`. */
module Printer {
  import opened Protocol
  import opened Packing
  import opened Raster

  /** The serial port, reduced to the ordered record of what was done to it. */
  class Serial {
    var log: seq<Event>

    constructor ()
      ensures log == []
    {
      log := [];
    }

    method Write(bytes: seq<Byte>)
      modifies this
      ensures log == old(log) + [Event.Write(bytes)]
    {
      log := log + [Event.Write(bytes)];
    }

    method Flush()
      modifies this
      ensures log == old(log) + [Event.Flush]
    {
      log := log + [Event.Flush];
    }
  }

  class Microprinter {
    /** `self.printer`, the port every method writes to. */
    const printer: Serial

    /** The port is handed in already open (microprinter.py:45-48 opens it
        from a device name and a baud rate). */
    constructor (port: Serial)
      ensures printer == port
    {
      printer := port;
    }

    /** `write(message)` (microprinter.py:65-66). */
    method Write(message: seq<Byte>)
      modifies printer
      ensures printer.log == old(printer.log) + [Event.Write(message)]
    {
      printer.Write(message);
    }

    /** `flush()` (microprinter.py:71-72). */
    method Flush()
      modifies printer
      ensures printer.log == old(printer.log) + [Event.Flush]
    {
      printer.Flush();
    }

    /** `sendcodes(*args)` (microprinter.py:61-63): every code goes through
        `chr` before the joined string is written, so a code outside 0..255
        raises with nothing written. */
    method SendCodes(codes: seq<int>) returns (ok: bool)
      modifies printer
      ensures printer.log == old(printer.log) + Protocol.SendCodes(codes).events
      ensures ok == Protocol.SendCodes(codes).ok
    {
      ok := AllBytes(codes);
      if ok {
        var text: seq<Byte> := codes;
        printer.Write(text);
      }
    }

    /** `CBMfeed(lines)` (microprinter.py:50-56). */
    method CBMfeed(lines: FeedLines)
      modifies printer
      ensures printer.log == old(printer.log) + Protocol.CBMfeed(lines).events
    {
      if lines.Lines? && lines.n != 0 {
        var count := lines.n % 256;
        for x := 0 to count
          invariant printer.log == old(printer.log) + Repeat(NewLines, x)
        {
          Write(NewLines);
          assert Repeat(NewLines, x + 1) == Repeat(NewLines, x) + [Event.Write(NewLines)];
        }
      } else {
        Write(NewLines);
        assert Repeat(NewLines, 1) == [Event.Write(NewLines)];
      }
      Flush();
    }

    /** `setBarcodeHeight(height)` (microprinter.py:91-95). */
    method SetBarcodeHeight(height: int)
      modifies printer
      ensures printer.log == old(printer.log) + Protocol.SetBarcodeHeight(height).events
    {
      var h := height % 256;
      var _ := SendCodes([CommandBarcode, CommandBarcodeHeight]);
      var _ := SendCodes([h]);
      Flush();
    }

    /** `setBarcodeWidth(width)` (microprinter.py:97-102). */
    method SetBarcodeWidth(width: int)
      modifies printer
      ensures printer.log == old(printer.log) + Protocol.SetBarcodeWidth(width).events
    {
      var w := width;
      if w < 2 { w := 2; }
      if w > 4 { w := 4; }
      var _ := SendCodes([CommandBarcode, CommandBarcodeWidth]);
      var _ := SendCodes([w]);
      Flush();
    }

    /** `printBarcode(barcode, width, height, barcodeMode)`
        (microprinter.py:82-89); `None` stands for an omitted mode. */
    method PrintBarcode(barcode: seq<Byte>, width: int, height: int, barcodeMode: Option<int>) returns (ok: bool)
      modifies printer
      ensures printer.log == old(printer.log) + Protocol.PrintBarcode(barcode, width, height, barcodeMode).events
      ensures ok == Protocol.PrintBarcode(barcode, width, height, barcodeMode).ok
    {
      var mode := if barcodeMode.None? || barcodeMode.value == 0 then BarcodeModeUpca as int else barcodeMode.value;
      SetBarcodeHeight(height);
      SetBarcodeWidth(width);
      ok := SendCodes([CommandBarcode, CommandBarcodePrint]);
      ok := SendCodes([mode]);
      BarcodeEvents(barcode, width, height, barcodeMode);
      if !ok {
        return;
      }
      Write(barcode);
      ok := SendCodes([0x00]);
    }

    /** `printUPCABarcode(barcode)` (microprinter.py:74-80), with its gate as
        written; the message it prints goes to standard output. */
    method PrintUPCABarcode(barcode: seq<Byte>)
      modifies printer
      ensures printer.log == old(printer.log) + Protocol.PrintUPCABarcode(barcode).events
    {
      var digits := Digits(barcode);
      if 10 < |digits| < 13 {
        return;
      }
      var _ := PrintBarcode(digits, BarcodeModeUpca as int, 162, None);
    }

    /** `resetState()` (microprinter.py:104-106). */
    method ResetState()
      modifies printer
      ensures printer.log == old(printer.log) + Protocol.ResetState().events
    {
      var _ := SendCodes([Command, Reset]);
      Flush();
    }

    /** `cut()` (microprinter.py:108-109). */
    method Cut()
      modifies printer
      ensures printer.log == old(printer.log) + Protocol.Cut().events
    {
      var _ := SendCodes(FullCutCodes);
    }

    /** `partialCut()` (microprinter.py:111-112). */
    method PartialCut()
      modifies printer
      ensures printer.log == old(printer.log) + Protocol.PartialCut().events
    {
      var _ := SendCodes(PartialCutCodes);
    }

    /** `setDoubleprint(state)` (microprinter.py:114-118). */
    method SetDoubleprint(state: bool)
      modifies printer
      ensures printer.log == old(printer.log) + Protocol.SetDoubleprint(state).events
    {
      var _ := SendCodes([Command, Doubleprint]);
      if state {
        var _ := SendCodes([0x01]);
      } else {
        var _ := SendCodes([0x00]);
      }
      Flush();
    }

    /** `setUnderline(state)` (microprinter.py:120-124). */
    method SetUnderline(state: bool)
      modifies printer
      ensures printer.log == old(printer.log) + Protocol.SetUnderline(state).events
    {
      var _ := SendCodes([Command, Underline]);
      if state {
        var _ := SendCodes([0x01]);
      } else {
        var _ := SendCodes([0x00]);
      }
      Flush();
    }

    /** `setBarcodeTextPosition(position)` (microprinter.py:126-131). */
    method SetBarcodeTextPosition(position: int)
      modifies printer
      ensures printer.log == old(printer.log) + Protocol.SetBarcodeTextPosition(position).events
    {
      var p := position;
      if p < 0 { p := 0; }
      if p > 3 { p := 3; }
      var _ := SendCodes([CommandBarcode, CommandBarcodeTextposition]);
      var _ := SendCodes([p]);
      Flush();
    }

    /** `setBarcodeFont(fontcode)` (microprinter.py:133-138). */
    method SetBarcodeFont(fontcode: int)
      modifies printer
      ensures printer.log == old(printer.log) + Protocol.SetBarcodeFont(fontcode).events
    {
      var f := fontcode;
      if f < 0 { f := 0; }
      if f > 1 { f := 1; }
      var _ := SendCodes([CommandBarcode, CommandBarcodeFont]);
      var _ := SendCodes([f]);
      Flush();
    }

    /** `printImagebytes(m, data)` (microprinter.py:140-147). */
    method PrintImagebytes(m: int, data: seq<int>) returns (ok: bool)
      modifies printer
      ensures printer.log == old(printer.log) + Protocol.PrintImagebytes(m, data).events
      ensures ok == Protocol.PrintImagebytes(m, data).ok
    {
      ok := SendCodes([Command, CommandImage]);
      var density := 1;
      if m == 1 || m == 33 {
        density := 3;
      }
      var datalength := |data| / density;
      ok := SendCodes([m, datalength % 256, datalength / 256]);
      if !ok {
        return;
      }
      ok := SendCodes(data);
      if !ok {
        return;
      }
      Flush();
    }

    /** `setLineFeedRate(feedlength)` (microprinter.py:149-153). */
    method SetLineFeedRate(feedlength: int) returns (ok: bool)
      modifies printer
      ensures printer.log == old(printer.log) + Protocol.SetLineFeedRate(feedlength).events
      ensures ok == Protocol.SetLineFeedRate(feedlength).ok
    {
      ok := SendCodes([Command, LinefeedRate]);
      ok := SendCodes([feedlength]);
      if !ok {
        return;
      }
      Flush();
    }

    /** `printImageRow(data, mode)` (microprinter.py:155-169): pack the band,
        then frame it. */
    method PrintImageRow(data: Band, mode: int) returns (ok: bool)
      requires IsBand(data, mode)
      modifies printer
      ensures printer.log == old(printer.log) + Protocol.PrintImagebytes(mode, PackBand(data, mode)).events
      ensures ok == Protocol.PrintImagebytes(mode, PackBand(data, mode)).ok
    {
      var bytes := PackRow(data, mode);
      ok := PrintImagebytes(mode, bytes);
    }

    /** `printImage(im, width, mode, ...)` after the resize
        (microprinter.py:183-188, 196-217): `pixels` is `im.getdata()` of the
        resized picture.  Cells are collected into `cbuffer` until a row of
        `width` is complete, rows into `lbuffer` until a band of `rowlimit`
        is complete; a leftover partial band is padded with light rows. */
    method PrintImage(pixels: seq<int>, width: int, mode: int) returns (ok: bool)
      modifies printer
      ensures printer.log == old(printer.log) + Raster.PrintImage(pixels, width, mode).events
      ensures ok == Raster.PrintImage(pixels, width, mode).ok
    {
      var _ := SetLineFeedRate(1);
      var rowlimit := 8;
      if mode > 1 {
        rowlimit := 24;
      }
      var lbuffer;
      ghost var failedAt;
      ok, lbuffer, failedAt := StreamBands(pixels, width, mode, rowlimit);
      if !ok {
        SentFails(pixels, failedAt, width, mode, old(printer.log));
        return;
      }
      LoopEnd(pixels, width, mode, lbuffer, old(printer.log));
      ok := FinishImage(lbuffer, width, mode, rowlimit);
    }

    /** The pixel loop of `printImage` (microprinter.py:196-212).  Cells are
        collected into `cbuffer` until a row of `width` is complete, rows
        into `lbuffer` until a band of `rowlimit` is complete, and each
        complete band is printed.  It returns the rows left in `lbuffer`;
        when a band raises, `failedAt` is the number of pixels read by then. */
    method StreamBands(pixels: seq<int>, width: int, mode: int, rowlimit: int)
      returns (ok: bool, lbuffer: seq<Row>, ghost failedAt: nat)
      requires rowlimit == RowLimit(mode)
      modifies printer
      ensures ok ==> && Sent(pixels, width, mode).ok
                     && printer.log == old(printer.log) + Sent(pixels, width, mode).events
                     && lbuffer == Rest(Rows(pixels, width), rowlimit)
      ensures !ok ==> && failedAt <= |pixels|
                      && !Sent(pixels[..failedAt], width, mode).ok
                      && printer.log == old(printer.log) + Sent(pixels[..failedAt], width, mode).events
    {
      ok := true;
      failedAt := 0;
      lbuffer := [];
      var columns := 0;
      var cbuffer: seq<Bit> := [];
      for i := 0 to |pixels|
        invariant cbuffer == Rest(Cells(pixels[..i]), width) && columns == |cbuffer|
        invariant lbuffer == Rest(Rows(pixels[..i], width), rowlimit)
        invariant ok && Sent(pixels[..i], width, mode).ok
        invariant printer.log == old(printer.log) + Sent(pixels[..i], width, mode).events
      {
        ok, columns, cbuffer, lbuffer := TakePixel(pixels, i, width, mode, rowlimit, columns, cbuffer, lbuffer, old(printer.log));
        if !ok {
          failedAt := i + 1;
          return;
        }
      }
      assert pixels[..|pixels|] == pixels;
    }

    /** One pass of the pixel loop of `printImage` (microprinter.py:198-212):
        pixel `i` joins the row, a complete row joins the band, and a
        complete band is printed.  `log0` is the log before the loop. */
    method TakePixel(pixels: seq<int>, i: nat, width: int, mode: int, rowlimit: int,
                     columns: int, cbuffer: seq<Bit>, lbuffer: seq<Row>, ghost log0: seq<Event>)
      returns (ok: bool, columns': int, cbuffer': seq<Bit>, lbuffer': seq<Row>)
      requires i < |pixels| && rowlimit == RowLimit(mode)
      requires cbuffer == Rest(Cells(pixels[..i]), width) && columns == |cbuffer|
      requires lbuffer == Rest(Rows(pixels[..i], width), rowlimit)
      requires Sent(pixels[..i], width, mode).ok
      requires printer.log == log0 + Sent(pixels[..i], width, mode).events
      modifies printer
      ensures printer.log == log0 + Sent(pixels[..i + 1], width, mode).events
      ensures ok == Sent(pixels[..i + 1], width, mode).ok
      ensures ok ==> && cbuffer' == Rest(Cells(pixels[..i + 1]), width) && columns' == |cbuffer'|
                     && lbuffer' == Rest(Rows(pixels[..i + 1], width), rowlimit)
    {
      ghost var before := Sent(pixels[..i], width, mode);
      LoopStep(pixels, i, width, mode, cbuffer, lbuffer);
      ok := true;
      columns' := columns + 1;
      cbuffer' := cbuffer + [if pixels[i] > 128 then 1 else 0];
      lbuffer' := lbuffer;
      if columns' == width {
        lbuffer' := lbuffer' + [cbuffer'];
        cbuffer' := [];
        columns' := 0;
        if |lbuffer'| == rowlimit {
          ghost var frame := Protocol.PrintImagebytes(mode, PackBand(lbuffer', mode));
          ok := PrintImageRow(lbuffer', mode);
          AppendAssoc(log0, before.events, frame.events);
          lbuffer' := [];
        }
      }
    }

    /** The end of `printImage` (microprinter.py:213-217): leftover rows
        fewer than `rowlimit` are padded with light rows and sent as one
        more band, then the printer is reset unless that band raised. */
    method FinishImage(lbuffer: seq<Row>, width: int, mode: int, rowlimit: int) returns (ok: bool)
      requires rowlimit == RowLimit(mode) && |lbuffer| < rowlimit
      requires 0 < |lbuffer| ==> IsBand(Pad(lbuffer, rowlimit, width), mode)
      modifies printer
      ensures 0 < |lbuffer| ==>
        && ok == Protocol.PrintImagebytes(mode, PackBand(Pad(lbuffer, rowlimit, width), mode)).ok
        && (ok ==>
              printer.log == old(printer.log)
              + Protocol.PrintImagebytes(mode, PackBand(Pad(lbuffer, rowlimit, width), mode)).events
              + Protocol.ResetState().events)
        && (!ok ==>
              printer.log == old(printer.log)
              + Protocol.PrintImagebytes(mode, PackBand(Pad(lbuffer, rowlimit, width), mode)).events)
      ensures |lbuffer| == 0 ==> ok && printer.log == old(printer.log) + Protocol.ResetState().events
    {
      ok := true;
      var band := lbuffer;
      if 0 < |band| < rowlimit {
        band := band + LightRows(rowlimit - |band|, width);
        ok := PrintImageRow(band, mode);
        if !ok {
          return;
        }
      }
      ResetState();
    }
  }
}
