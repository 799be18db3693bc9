# TEC TRST-53 receipt-printer driver: a verified model of its byte stream

This project models the part of the `Microprinter` driver (microprinter.py)
and of the stand-alone image script (microprinter_image.py) that decides which
bytes reach the printer: the ESC/GS command encoders, the image-band frame,
the packing of monochrome rows into column bytes, and the loop that turns
a resized picture into bands.

- **protocol.dfy** (module `Protocol`) holds the `CBMCOMMANDS` table and one
  function per driver method.
  - Each function returns a `Run`: the `write`/`flush` calls the method makes
    on the serial port, and whether it returned or raised the `ValueError` of
    Python's `chr`.
  - `Wire` flattens those calls into the bytes on the line.
- **packing.dfy** (module `Packing`) covers the shared packing loop of
  `printImageRow` and `print_row`.
  - It is specified by `PackBand` and proved byte by byte against a
    most-significant-bit-first reading of each column.
- **raster.dfy** (module `Raster`) describes a picture as values.
  - Pixels become cells (1 = light, above 128), rows of `width` cells, and
    bands of 8 or 24 rows.
  - A short last band is padded with light rows, and `PrintImage` is the whole
    stream of `printImage`.
- **printer.dfy** (module `Printer`) has the classes `Serial` (the port, as a
  log of calls) and `Microprinter`.
  - Every method appends to the log exactly the events of its Protocol or
    Raster function.
  - `printImage`'s pixel loop keeps `cbuffer`, `lbuffer` and `columns` as in
    the source, with loop invariants relating them to the value model.
- **image_script.dfy** (module `ImageScript`) covers `print_row` and
  `print_image`.
  - The printer object `m` they drive is a `Recorder` of the calls made on it.
  - The script pads the leftover rows only when there are fewer than 8 of
    them, and the module proves what that loses in 24-row modes.

A dark pixel (128 or below) is cell 0, and the XOR with 255 makes it a set
bit, so an all-dark band packs to 0xFF bytes and an all-light band to 0x00
(`Raster.ImageAllDark`, `Raster.ImageAllLight`).

## Model

| member | source | states |
|---|---|---|
| `Protocol.SendCodes` | microprinter.py:61-63 | one write of all the codes exactly when every code is in 0..255; otherwise it raises having written nothing |
| `Protocol.Clamp` | microprinter.py:97-99 | the result lies in `lo..hi`; a value inside is kept, one below becomes `lo`, one above `hi` |
| `Protocol.FeedCount` | microprinter.py:50-55 | a non-zero int gives `lines % 256` repetitions, zero or a non-int gives one, and a non-zero multiple of 256 gives none |
| `Protocol.CBMfeed` | microprinter.py:50-56 | `FeedCount` writes of "\n\n" followed by exactly one flush |
| `Protocol.FeedWire` | microprinter.py:50-56 | the wire carries exactly `2 * FeedCount(lines)` newline bytes |
| `Protocol.WireAppend` | microprinter.py:61-72 | the bytes on the wire of two call sequences are the bytes of the first, then those of the second |
| `Protocol.SetBarcodeHeight` | microprinter.py:91-95 | `1D 68`, `height % 256`, flush; never raises |
| `Protocol.SetBarcodeWidth` | microprinter.py:97-102 | `1D 77`, the width clamped to 2..4, flush |
| `Protocol.ResetState` | microprinter.py:104-106 | `1B 40` then a flush |
| `Protocol.Cut` | microprinter.py:108-109 | the single write `1B 69`, with no flush |
| `Protocol.PartialCut` | microprinter.py:111-112 | the single write `1B 6D`, with no flush |
| `Protocol.SetDoubleprint` | microprinter.py:114-118 | `1B 47`, then `01` for true or `00` for false, then a flush |
| `Protocol.SetUnderline` | microprinter.py:120-124 | `1B 2D`, then `01` for true or `00` for false, then a flush |
| `Protocol.SetBarcodeTextPosition` | microprinter.py:126-131 | `1D 48`, the position clamped to 0..3, flush |
| `Protocol.SetBarcodeFont` | microprinter.py:133-138 | `1D 66`, the font clamped to 0..1, flush |
| `Protocol.SetLineFeedRate` | microprinter.py:149-153 | `1B 33`, the rate, flush; it raises after `1B 33` exactly when the rate is outside 0..255 |
| `Protocol.Density` | microprinter.py:142-143 | the divisor is 3 exactly for modes 1 and 33, otherwise 1 |
| `Protocol.ImageFrame` | microprinter.py:140-147 | `1B 2A`, then mode and the little-endian 16-bit length, then the data, then a flush. It succeeds iff the mode is a byte, the length is below 65536 and every datum is a byte; each failure leaves the writes made before the raise |
| `Protocol.PrintImagebytes` | microprinter.py:140-147 | the frame of `printImagebytes`, whose events and failure points `Protocol.ImageFrame` states |
| `Protocol.DeclaredLength` | microprinter.py:142-145 | in mode 33 the length counts columns of three bytes; in mode 32 it counts bytes; in mode 1 a one-byte band declares a third of its columns |
| `Protocol.Digits` | microprinter.py:75-76 | keeps only ASCII digits, never lengthens, and leaves an all-digit code unchanged |
| `Protocol.DigitsKept` | microprinter.py:75-76 | every digit is kept as often as it occurs and every other byte is dropped, so the length tested at line 77 is the number of digits |
| `Protocol.DigitsAppend` | microprinter.py:75-76 | filtering distributes over concatenation, so digits keep their order |
| `Protocol.PrintBarcode` | microprinter.py:82-89 | the calls of `printBarcode`, whose events and raise `Protocol.BarcodeEvents` states |
| `Protocol.PrintUPCABarcode` | microprinter.py:74-80 | `printUPCABarcode` with its gate as written, whose events `Protocol.UpcaGate` states |
| `Protocol.PrintUPCABarcodeIntended` | microprinter.py:74-80 | `printUPCABarcode` with the gate corrected, whose events `Protocol.UpcaGateIntended` states |
| `Protocol.BarcodeEvents` | microprinter.py:82-89 | height and width settings, each flushed, then `1D 6B`, the mode (None or 0 means UPC-A), the text and NUL, unflushed. It raises after `1D 6B` iff the mode is not a byte |
| `Protocol.UpcaGate` | microprinter.py:74-80 | as written, eleven or twelve digits send nothing; any other count is sent as UPC-A with width 2 (the mode lands in `width` and is raised to 2) and height 162 |
| `Protocol.UpcaGateIntended` | microprinter.py:74-80 | with the gate corrected, exactly eleven or twelve digits are sent |
| `Protocol.UpcaGateInverted` | microprinter.py:77-80 | a twelve-digit code is dropped as written but sent by the corrected gate; a three-digit code the other way round |
| `Packing.RowLimit` | microprinter.py:184-187 | 24 rows per band when `mode > 1`, otherwise 8 |
| `Packing.PackedByteValue` | microprinter.py:159-160 | a packed byte is 255 minus the column's eight cells read with the top row as the most significant bit |
| `Packing.PackedByteBit` | microprinter.py:159-160 | bit `7 - k` of a packed byte is set exactly when the cell of row `k` is dark (0) |
| `Packing.ColumnBytesValue` | microprinter.py:157-168 | a column gives one byte for modes below 2 and three otherwise, byte `g` standing for rows `8g..8g+7` |
| `Packing.PackColumnsNarrow` | microprinter.py:157-160 | for modes below 2, one byte per column, and byte `x` is column `x` of rows 0-7 |
| `Packing.PackColumnsWide` | microprinter.py:161-168 | for modes 2 and above, three bytes per column, and byte `3x + g` is column `x` of rows `8g..8g+7` |
| `Packing.PackBand` | microprinter.py:155-168 | the bytes `printImageRow` packs from a band, whose length and values `Packing.PackBandLayout` states |
| `Packing.PackBandLayout` | microprinter.py:155-169 | a packed band is `width` or `3 * width` bytes long, each the inverted MSB-first value of its column group |
| `Packing.PackBandUniform` | microprinter.py:155-169 | an all-light band packs to all 0x00 and an all-dark band to all 0xFF |
| `Packing.PackRow` | microprinter.py:155-168 | the loops of `printImageRow` and `print_row` build exactly `PackBand` |
| `Raster.Cell` | microprinter.py:200-204 | a cell is 1 exactly for a pixel above 128 |
| `Raster.ChunksAppend` | microprinter.py:197-212 | cutting a stream into rows or bands can resume where an earlier cut stopped |
| `Raster.ChunksCount` | microprinter.py:197-212 | `n` elements give `n / k` pieces with `n % k` left over |
| `Raster.RowsIndex` | microprinter.py:197-207 | cell `x` of row `i` is the threshold of pixel `width * i + x` |
| `Raster.Pad` | microprinter.py:213-214 | the rows kept come first, followed by all-light rows up to the band height |
| `Raster.ImageBands` | microprinter.py:205-216 | every band has `RowLimit(mode)` rows of `width` cells, so each can be packed |
| `Raster.ImageBandCount` | microprinter.py:196-216 | `ceil(rows / rowlimit)` bands for `rows` complete rows; a width of 0 or less gives none |
| `Raster.PrintImage` | microprinter.py:182-217 | the whole stream of `printImage` after the resize, whose success condition `Raster.PrintImageOk` and events `Raster.PrintImageEvents` state |
| `Raster.ImageBandsRows` | microprinter.py:205-214 | row `r` of band `j` is picture row `rowlimit * j + r`, or an all-light row past the last |
| `Raster.ImageBandCell` | microprinter.py:196-214 | each cell of each band is the threshold of the matching pixel, or 1 in the padding |
| `Raster.FramesRunOk` | microprinter.py:208-210 | a sequence of frames completes iff every frame does |
| `Raster.FramesRunFailed` | microprinter.py:208-210 | once a frame raises, nothing after it is sent |
| `Raster.FramesRunEvents` | microprinter.py:208-210 | a completed stream of frames is their frames one after the other |
| `Raster.BandStep` | microprinter.py:198-212 | one more pixel lengthens the row, completes it into the kept rows, or completes a band |
| `Raster.LoopStep` | microprinter.py:198-212 | one more pixel sends exactly the band it completes, and nothing otherwise |
| `Raster.SentFails` | microprinter.py:208-210 | once a band raises, the whole print is the opening settings followed by the frames sent so far |
| `Raster.LoopEnd` | microprinter.py:213-217 | after the loop, the padded leftover band (if any) is sent, then the reset unless that band raised |
| `Raster.EmptyImage` | microprinter.py:183-217 | with no complete row only `1B 33 01`, flush, `1B 40`, flush are sent |
| `Raster.TrailingPixels` | microprinter.py:198-205 | pixels of an incomplete last row change nothing |
| `Raster.PrintImageOpens` | microprinter.py:183 | every image stream starts with `1B 33 01` and a flush |
| `Raster.PrintImageOk` | microprinter.py:183-217 | the print completes iff there is no band, or the mode is a byte and the declared band length fits in 16 bits |
| `Raster.PrintImageEvents` | microprinter.py:183-217 | a completed print is the line-feed rate, the band frames in order, then `1B 40` and a flush |
| `Raster.ImageAllLight` | microprinter.py:155-217 | an all-light picture sends only 0x00 data bytes, padding included |
| `Raster.ImageAllDark` | microprinter.py:155-217 | an all-dark picture sends 0xFF in every byte of each band its rows fill |
| `Printer.Serial.Write` | microprinter.py:63 | the log gains exactly one write |
| `Printer.Serial.Flush` | microprinter.py:72 | the log gains exactly one flush |
| `Printer.Microprinter.constructor` | microprinter.py:45-48 | the driver writes to the port it was given |
| `Printer.Microprinter.Write` | microprinter.py:65-66 | one write of the message |
| `Printer.Microprinter.Flush` | microprinter.py:71-72 | one flush |
| `Printer.Microprinter.SendCodes` | microprinter.py:61-63 | appends the events of `Protocol.SendCodes` and returns whether it completed |
| `Printer.Microprinter.CBMfeed` | microprinter.py:50-56 | the loop appends exactly the events of `Protocol.CBMfeed` |
| `Printer.Microprinter.SetBarcodeHeight` | microprinter.py:91-95 | appends exactly the events of `Protocol.SetBarcodeHeight` |
| `Printer.Microprinter.SetBarcodeWidth` | microprinter.py:97-102 | appends exactly the events of `Protocol.SetBarcodeWidth` |
| `Printer.Microprinter.PrintBarcode` | microprinter.py:82-89 | appends the events of `Protocol.PrintBarcode` and reports whether it raised |
| `Printer.Microprinter.PrintUPCABarcode` | microprinter.py:74-80 | appends exactly the events of `Protocol.PrintUPCABarcode`, gate as written |
| `Printer.Microprinter.ResetState` | microprinter.py:104-106 | appends `1B 40` and a flush |
| `Printer.Microprinter.Cut` | microprinter.py:108-109 | appends `1B 69` |
| `Printer.Microprinter.PartialCut` | microprinter.py:111-112 | appends `1B 6D` |
| `Printer.Microprinter.SetDoubleprint` | microprinter.py:114-118 | appends exactly the events of `Protocol.SetDoubleprint` |
| `Printer.Microprinter.SetUnderline` | microprinter.py:120-124 | appends exactly the events of `Protocol.SetUnderline` |
| `Printer.Microprinter.SetBarcodeTextPosition` | microprinter.py:126-131 | appends exactly the events of `Protocol.SetBarcodeTextPosition` |
| `Printer.Microprinter.SetBarcodeFont` | microprinter.py:133-138 | appends exactly the events of `Protocol.SetBarcodeFont` |
| `Printer.Microprinter.PrintImagebytes` | microprinter.py:140-147 | appends the frame of `Protocol.PrintImagebytes` (up to the raise) and reports whether it raised |
| `Printer.Microprinter.SetLineFeedRate` | microprinter.py:149-153 | appends the events of `Protocol.SetLineFeedRate` and reports whether it raised |
| `Printer.Microprinter.PrintImageRow` | microprinter.py:155-169 | appends the frame of the packed band `PackBand(data, mode)` |
| `Printer.Microprinter.PrintImage` | microprinter.py:182-217 | after the resize, appends exactly the events of `Raster.PrintImage` and reports whether it raised |
| `Printer.Microprinter.TakePixel` | microprinter.py:198-212 | one pass of the pixel loop extends the log by exactly the band that pixel completes, if any, and leaves the row and band buffers equal to the rows and cells still unsent |
| `Printer.Microprinter.StreamBands` | microprinter.py:196-212 | the pixel loop sends one frame per full band. It stops at the first that raises, and otherwise returns the rows left over |
| `Printer.Microprinter.FinishImage` | microprinter.py:213-217 | pads and sends the leftover rows, then resets unless that band raised |
| `ImageScript.Recorder.SetLineFeedRate` | microprinter_image.py:25 | records one `setLineFeedRate` call |
| `ImageScript.Recorder.PrintImagebytes` | microprinter_image.py:22 | records one `print_imagebytes` call |
| `ImageScript.Recorder.ResetState` | microprinter_image.py:62 | records one `resetState` call |
| `ImageScript.ScriptBands` | microprinter_image.py:39-61 | every band the script sends has `RowLimit(mode)` rows of `width` cells |
| `ImageScript.ScriptStep` | microprinter_image.py:43-57 | one more pixel sends exactly the band it completes, and nothing otherwise |
| `ImageScript.ScriptEnd` | microprinter_image.py:58-62 | 1 to 7 leftover rows are padded and sent, then `resetState` is called; other leftovers are not sent |
| `ImageScript.PrintRow` | microprinter_image.py:8-22 | exactly one `print_imagebytes` call, with the packed band |
| `ImageScript.PrintImage` | microprinter_image.py:24-62 | the calls are `setLineFeedRate(1)`, one `print_imagebytes` per band of `ScriptBands`, then `resetState()` |
| `ImageScript.StreamRows` | microprinter_image.py:39-57 | the pixel loop sends every full band in order and returns the rows left over |
| `ImageScript.FinishRows` | microprinter_image.py:58-62 | sends the padded leftover only when it has 1 to 7 rows, then resets |
| `ImageScript.ScriptMatchesNarrow` | microprinter_image.py:26-61 | in the 8-row modes the script sends the same bands as `printImage` |
| `ImageScript.ScriptLeftover` | microprinter_image.py:58-61 | in the 24-row modes the script agrees with `printImage` iff fewer than 8 rows are left over; with 8 to 23 left over it drops the last band |
| `ImageScript.ScriptDropsEightRows` | microprinter_image.py:58-61 | eight dark pixels, one column wide, in mode 2: `printImage` sends one band, the script none |

## Left out

- Serial port I/O: the port is opened from a device name and baud rate, and later closed. It is modelled as a log of `write` and `flush` calls; `close` is not modelled.
- I/O errors are not modelled: the model's `Serial` never fails, so the exceptions that a failing `write` or `flush` raises, and that every driver method would pass on to its caller, do not occur. The script's `Recorder` never raises either.
- Timing: the `sleep(0.2)` calls of microprinter_image.py are not modelled, nor the commented-out ones in microprinter.py.
- PIL: `Image.open`, `convert("1")` with dithering, `transpose(ROTATE_90)`, and `resize` with its floating-point fudge factor are not modelled. The picture enters the model as the resized pixel sequence that `getdata()` yields, one integer per pixel.
- `printImageFromFile` and `printQrCode` are not modelled: they are the PIL and qrcode calls in front of `printImage`.
- `writeWrapped` (textwrap) is not modelled.
- The `self.feed` alias of `CBMfeed` is not modelled.
- Default arguments are not modelled: every call passes all of its arguments. The defaults are `CBMfeed(lines=1)`, `setDoubleprint`/`setUnderline(state=True)`, `setBarcodeHeight(height=162)`, `setBarcodeWidth(width=3)`, `printBarcode(width=3, height=162)` and `printImage(width=288, mode=0)`. `Protocol.PrintUPCABarcode` passes 162, the default height that `printUPCABarcode` relies on (microprinter.py:80, 82).
- Only integer codes are modelled. The `TypeError` that `chr` raises on an argument of another type is not.
- The `print` of the UPC-A message goes to standard output, not to the printer, and is left out.
- Python 2 `long` arguments to `CBMfeed` are not modelled: they fail `isinstance(lines, int)` and feed once. The model's `FeedLines.NotAnInt` covers them only when they are passed as that case.
- ImageScript.PrintRow: requires a well-formed band, for the same reason as `Packing.PackRow`: the `IndexError` that `print_row` raises on a malformed band is not modelled.
- Packing.PackRow: requires a well-formed band (enough rows, none shorter than row 0), so the `IndexError` that `printImageRow` and `print_row` raise on a malformed band is not modelled. The drivers only ever pass well-formed bands.
- Printer.Microprinter.PrintImageRow: requires a well-formed band, for the same reason as `Packing.PackRow`.
- Cells are single bits. The bit operations of the packing loops on other integer values are not modelled: the pixel loops only produce 0 and 1.
- wiki.py and reader.py are not part of this model: they are network clients. The command-line scripts print_image.py and print_image_hires.py are not part of this model either: they parse arguments and pick a paper width.
- `m.print_imagebytes`, called by microprinter_image.py, is not a method of `Microprinter`, whose method is `printImagebytes`. The script's `m` is therefore modelled as an abstract recorder of calls, not as the driver.

## Findings

| source | as written | input that shows it | evidently intended | confidence | as-written member | corrected member |
|---|---|---|---|---|---|---|
| microprinter.py:77-79 | `if 10 < len(barcode) < 13` prints the error and returns, so 11- and 12-digit codes are refused and every other length is printed as UPC-A | the twelve digits "036000291452" send nothing; "123" is sent as a barcode | refuse exactly the lengths outside 11..12, as the printed message says | not executed | `Protocol.UpcaGateInverted` | `Protocol.UpcaGateIntended` |
| microprinter_image.py:58 | `if 0 < len(lbuffer) < 8` pads and sends the leftover rows only below 8, even when a band is 24 rows high | mode 2, width 1, eight pixels of value 0: eight complete rows, `print_image` sends no band, and the rows are lost | `0 < len(lbuffer) < rowlimit`, as in microprinter.py:213 | not executed | `ImageScript.ScriptDropsEightRows` | `Raster.ImageBandCount` |
