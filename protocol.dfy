/** The TEC TRST-53 command grammar as the driver emits it.

    The serial port is an ordered byte sink: every `write` call and every
    `flush` call of the driver becomes one `Event`.  Each command encoder of
    the `Microprinter` class is stated here as a function that returns the
    events the method produces and whether it completed (`ok`) or raised the
    `ValueError` that Python's `chr` throws for a code outside 0..255. */
module Protocol {

  type Byte = b: int | 0 <= b < 256

  datatype Option<T> = None | Some(value: T)

  // The CBMCOMMANDS table (microprinter.py:24-42), under the same names.
  const Command: Byte := 0x1B
  const Lf: Byte := 0x10
  const LinefeedRate: Byte := 0x33
  const FullCutCodes: seq<Byte> := [0x1B, 0x69]
  const PartialCutCodes: seq<Byte> := [0x1B, 0x6D]
  const PrintMode: Byte := 0x21
  const Doubleprint: Byte := 0x47
  const Underline: Byte := 0x2D
  const Reset: Byte := 0x40
  const CommandImage: Byte := 0x2A
  const CommandFlipchars: Byte := 0x7B
  const CommandRotatechars: Byte := 0x56
  const CommandBarcode: Byte := 0x1D
  const CommandBarcodePrint: Byte := 0x6B
  const CommandBarcodeWidth: Byte := 0x77
  const CommandBarcodeHeight: Byte := 0x68
  const CommandBarcodeTextposition: Byte := 0x48
  const CommandBarcodeFont: Byte := 0x66
  const BarcodeWidthNarrow: Byte := 0x02
  const BarcodeWidthMedium: Byte := 0x03
  const BarcodeWidthWide: Byte := 0x04
  const BarcodeTextNone: Byte := 0x00
  const BarcodeTextAbove: Byte := 0x01
  const BarcodeTextBelow: Byte := 0x02
  const BarcodeTextBoth: Byte := 0x03
  const BarcodeModeUpca: Byte := 0x00
  const BarcodeModeUpce: Byte := 0x01
  const BarcodeModeJan13aen: Byte := 0x02
  const BarcodeModeJan8ean: Byte := 0x03
  const BarcodeModeCode39: Byte := 0x04
  const BarcodeModeItf: Byte := 0x05
  const BarcodeModeCodeabar: Byte := 0x06
  const BarcodeModeCode128: Byte := 0x07

  /** The two bytes of the string "\n\n" that a feed writes. */
  const NewLines: seq<Byte> := [0x0A, 0x0A]

  /** One call on the serial port. */
  datatype Event = Write(bytes: seq<Byte>) | Flush

  /** What a driver call leaves in the sink, and whether it returned
      normally (`ok`) or raised after writing `events`. */
  datatype Run = Run(events: seq<Event>, ok: bool)

  /** Sequential composition: `b` happens only if `a` did not raise. */
  function Then(a: Run, b: Run): Run
  {
    if a.ok then Run(a.events + b.events, b.ok) else a
  }

  /** A single `write` of a string. */
  function Emit(bytes: seq<Byte>): Run
  {
    Run([Write(bytes)], true)
  }

  /** A single `flush`. */
  const Flushing: Run := Run([Flush], true)

  /** The bytes that reach the wire, in order. */
  function Wire(events: seq<Event>): seq<Byte>
  {
    if events == [] then []
    else (if events[0].Write? then events[0].bytes else []) + Wire(events[1..])
  }

  lemma {:induction false} WireAppend(a: seq<Event>, b: seq<Event>)
    ensures Wire(a + b) == Wire(a) + Wire(b)
  {
    if a != [] {
      assert (a + b)[1..] == a[1..] + b;
      WireAppend(a[1..], b);
    } else {
      assert a + b == b;
    }
  }

  /** Appending two runs of events (or calls) to a log one after the other. */
  lemma AppendAssoc<T>(log: seq<T>, a: seq<T>, b: seq<T>)
    ensures log + (a + b) == log + a + b
  {
  }

  lemma WireCons(e: Event, rest: seq<Event>)
    ensures Wire([e] + rest) == (if e.Write? then e.bytes else []) + Wire(rest)
  {
    assert ([e] + rest)[1..] == rest;
  }

  /** The wire image of a write, a write and a flush. */
  lemma WireSetting(a: seq<Byte>, b: seq<Byte>)
    ensures Wire([Write(a), Write(b), Flush]) == a + b
  {
    WireCons(Write(a), [Write(b), Flush]);
    WireCons(Write(b), [Flush]);
    WireCons(Flush, []);
  }

  predicate AllBytes(codes: seq<int>)
  {
    forall i :: 0 <= i < |codes| ==> 0 <= codes[i] < 256
  }

  lemma AllBytesMembers(codes: seq<int>)
    ensures AllBytes(codes) <==> forall c :: c in codes ==> 0 <= c < 256
  {
    if !AllBytes(codes) {
      var i :| 0 <= i < |codes| && !(0 <= codes[i] < 256);
      assert codes[i] in codes;
    }
  }

  /** `sendcodes`: `chr` is applied to every code before anything is
      written, so one bad code means no write at all. */
  function SendCodes(codes: seq<int>): (r: Run)
    ensures r.ok <==> forall c :: c in codes ==> 0 <= c < 256
    ensures r.ok ==> AllBytes(codes) && r.events == [Write(codes)]
    ensures !r.ok ==> r.events == []
    ensures |codes| == 1 ==> (r.ok <==> 0 <= codes[0] < 256)
  {
    AllBytesMembers(codes);
    if AllBytes(codes) then Emit(codes) else Run([], false)
  }

  /** The clamping written out by `setBarcodeWidth`, `setBarcodeTextPosition`
      and `setBarcodeFont`: first raise to `lo`, then cut to `hi`. */
  function Clamp(x: int, lo: int, hi: int): (c: int)
    requires lo <= hi
    ensures lo <= c <= hi
    ensures lo <= x <= hi ==> c == x
    ensures x < lo ==> c == lo
    ensures x > hi ==> c == hi
  {
    var raised := if x < lo then lo else x;
    if raised > hi then hi else raised
  }

  /** The argument of `CBMfeed`: an `int` (Python's `bool` is one), or a
      value of any other type. */
  datatype FeedLines = Lines(n: int) | NotAnInt

  /** How many times `CBMfeed` writes "\n\n". */
  function FeedCount(lines: FeedLines): (count: nat)
    ensures count < 256
    ensures count == 0 <==> lines.Lines? && lines.n != 0 && lines.n % 256 == 0
    ensures lines.Lines? && 0 < lines.n < 256 ==> count == lines.n
    ensures (lines.Lines? && lines.n == 0) || lines.NotAnInt? ==> count == 1
    ensures lines.Lines? && lines.n != 0 ==> (lines.n - count) % 256 == 0
  {
    if lines.Lines? && lines.n != 0 then lines.n % 256 else 1
  }

  /** `k` identical writes of `bytes`. */
  function Repeat(bytes: seq<Byte>, k: nat): seq<Event>
  {
    seq(k, _ => Write(bytes))
  }

  /** `CBMfeed(lines)` (microprinter.py:50-56). */
  function CBMfeed(lines: FeedLines): (r: Run)
    ensures r.ok && |r.events| == FeedCount(lines) + 1
    ensures r.events[|r.events| - 1] == Flush
    ensures forall i :: 0 <= i < |r.events| - 1 ==> r.events[i] == Write(NewLines)
  {
    Then(Run(Repeat(NewLines, FeedCount(lines)), true), Flushing)
  }

  /** A feed puts exactly two newline bytes on the wire per repetition. */
  lemma {:induction false} FeedWire(lines: FeedLines)
    ensures Wire(CBMfeed(lines).events) == seq(2 * FeedCount(lines), _ => 0x0A)
  {
    RepeatWire(FeedCount(lines));
    WireAppend(Repeat(NewLines, FeedCount(lines)), [Flush]);
    assert Wire([Flush]) == [];
  }

  lemma {:induction false} RepeatWire(k: nat)
    ensures Wire(Repeat(NewLines, k)) == seq(2 * k, _ => 0x0A)
  {
    if k > 0 {
      assert Repeat(NewLines, k) == [Write(NewLines)] + Repeat(NewLines, k - 1);
      WireAppend([Write(NewLines)], Repeat(NewLines, k - 1));
      RepeatWire(k - 1);
      assert Wire([Write(NewLines)]) == NewLines;
      assert seq(2 * k, _ => 0x0A) == NewLines + seq(2 * (k - 1), _ => 0x0A);
    }
  }

  /** `setBarcodeHeight(height)` (microprinter.py:91-95): Python's `%`
      with a positive modulus is never negative, as in Dafny. */
  function SetBarcodeHeight(height: int): (r: Run)
    ensures r.ok
    ensures r.events == [Write([0x1D, 0x68]), Write([height % 256]), Flush]
  {
    var h := height % 256;
    Then(SendCodes([CommandBarcode, CommandBarcodeHeight]), Then(SendCodes([h]), Flushing))
  }

  /** `setBarcodeWidth(width)` (microprinter.py:97-102). */
  function SetBarcodeWidth(width: int): (r: Run)
    ensures r.ok
    ensures r.events == [Write([0x1D, 0x77]), Write([Clamp(width, 2, 4)]), Flush]
  {
    var w := if width < 2 then 2 else width;
    var w' := if w > 4 then 4 else w;
    Then(SendCodes([CommandBarcode, CommandBarcodeWidth]), Then(SendCodes([w']), Flushing))
  }

  /** `resetState()` (microprinter.py:104-106). */
  function ResetState(): (r: Run)
    ensures r.ok && r.events == [Write([0x1B, 0x40]), Flush]
  {
    Then(SendCodes([Command, Reset]), Flushing)
  }

  /** `cut()` (microprinter.py:108-109): no flush. */
  function Cut(): (r: Run)
    ensures r.ok && r.events == [Write([0x1B, 0x69])]
  {
    SendCodes(FullCutCodes)
  }

  /** `partialCut()` (microprinter.py:111-112): no flush. */
  function PartialCut(): (r: Run)
    ensures r.ok && r.events == [Write([0x1B, 0x6D])]
  {
    SendCodes(PartialCutCodes)
  }

  /** `setDoubleprint(state)` (microprinter.py:114-118). */
  function SetDoubleprint(state: bool): (r: Run)
    ensures r.ok
    ensures r.events == [Write([0x1B, 0x47]), Write([if state then 1 else 0]), Flush]
  {
    Then(SendCodes([Command, Doubleprint]), Then(if state then SendCodes([0x01]) else SendCodes([0x00]), Flushing))
  }

  /** `setUnderline(state)` (microprinter.py:120-124). */
  function SetUnderline(state: bool): (r: Run)
    ensures r.ok
    ensures r.events == [Write([0x1B, 0x2D]), Write([if state then 1 else 0]), Flush]
  {
    Then(SendCodes([Command, Underline]), Then(if state then SendCodes([0x01]) else SendCodes([0x00]), Flushing))
  }

  /** `setBarcodeTextPosition(position)` (microprinter.py:126-131). */
  function SetBarcodeTextPosition(position: int): (r: Run)
    ensures r.ok
    ensures r.events == [Write([0x1D, 0x48]), Write([Clamp(position, 0, 3)]), Flush]
  {
    var p := if position < 0 then 0 else position;
    var p' := if p > 3 then 3 else p;
    Then(SendCodes([CommandBarcode, CommandBarcodeTextposition]), Then(SendCodes([p']), Flushing))
  }

  /** `setBarcodeFont(fontcode)` (microprinter.py:133-138). */
  function SetBarcodeFont(fontcode: int): (r: Run)
    ensures r.ok
    ensures r.events == [Write([0x1D, 0x66]), Write([Clamp(fontcode, 0, 1)]), Flush]
  {
    var f := if fontcode < 0 then 0 else fontcode;
    var f' := if f > 1 then 1 else f;
    Then(SendCodes([CommandBarcode, CommandBarcodeFont]), Then(SendCodes([f']), Flushing))
  }

  /** `setLineFeedRate(feedlength)` (microprinter.py:149-153). */
  function SetLineFeedRate(feedlength: int): (r: Run)
    ensures r.ok <==> 0 <= feedlength < 256
    ensures r.ok ==> r.events == [Write([0x1B, 0x33]), Write([feedlength]), Flush]
    ensures !r.ok ==> r.events == [Write([0x1B, 0x33])]
  {
    Then(SendCodes([Command, LinefeedRate]), Then(SendCodes([feedlength]), Flushing))
  }

  /** The divisor `printImagebytes` applies to the byte count. */
  function Density(m: int): (d: nat)
    ensures d == 1 || d == 3
    ensures d == 3 <==> m == 1 || m == 33
  {
    if m == 1 || m == 33 then 3 else 1
  }

  /** The length field of an image command: Python 2 `/` on the
      non-negative length is floor division, as in Dafny. */
  function DataLength(m: int, count: nat): nat
  {
    count / Density(m)
  }

  /** `printImagebytes(m, data)` (microprinter.py:140-147). */
  function PrintImagebytes(m: int, data: seq<int>): (r: Run)
  {
    var datalength := DataLength(m, |data|);
    Then(SendCodes([Command, CommandImage]),
      Then(SendCodes([m, datalength % 256, datalength / 256]),
        Then(SendCodes(data), Flushing)))
  }

  /** The image-band frame: escape, mode, the 16-bit little-endian length
      (which reads back as the length), the data, and a flush.  `chr`
      rejects a mode outside 0..255, a length of 65536 or more (its high
      byte would exceed 255) and any data value outside 0..255; the escape
      pair has been written by then. */
  lemma ImageFrame(m: int, data: seq<int>)
    ensures var r := PrintImagebytes(m, data);
      var len := DataLength(m, |data|);
      && (r.ok <==> 0 <= m < 256 && len < 65536 && AllBytes(data))
      && (r.ok ==> && r.events == [Write([0x1B, 0x2A]), Write([m, len % 256, len / 256]), Write(data), Flush]
                   && Wire(r.events) == [0x1B, 0x2A, m, len % 256, len / 256] + data)
      && (!r.ok && (0 <= m < 256 && len < 65536) ==> r.events == [Write([0x1B, 0x2A]), Write([m, len % 256, len / 256])])
      && (!(0 <= m < 256 && len < 65536) ==> r.events == [Write([0x1B, 0x2A])])
  {
    var len := DataLength(m, |data|);
    var header := [m, len % 256, len / 256];
    var escape := SendCodes([Command, CommandImage]);
    assert escape == Emit([0x1B, 0x2A]);
    var tail := Then(SendCodes(data), Flushing);
    if 0 <= m < 256 && len < 65536 {
      assert SendCodes(header) == Emit(header);
      if AllBytes(data) {
        assert tail == Run([Write(data), Flush], true);
        WireCons(Write([0x1B, 0x2A]), [Write(header), Write(data), Flush]);
        WireSetting(header, data);
      } else {
        assert !tail.ok && tail.events == [];
      }
    } else {
      assert !AllBytes(header) by {
        if !(0 <= m < 256) { assert header[0] == m; } else { assert header[2] == len / 256; }
      }
    }
  }

  /** The length field counts columns, not bytes, exactly for modes 1 and
      33: a 3-byte-per-column band of `w` columns sent in mode 33 declares
      `w`, in mode 32 it declares `3 * w`, and a 1-byte-per-column band in
      mode 1 declares `w / 3`. */
  lemma DeclaredLength(w: nat)
    ensures DataLength(33, 3 * w) == w
    ensures DataLength(32, 3 * w) == 3 * w
    ensures DataLength(1, w) == w / 3
    ensures DataLength(0, w) == w
    ensures DataLength(33, 300) % 256 == 100 && DataLength(33, 300) / 256 == 0
  {
  }

  predicate IsDigit(b: Byte)
  {
    '0' as int <= b <= '9' as int
  }

  /** The filter `[x for x in barcode if x in "0123456789"]`. */
  function Digits(s: seq<Byte>): (d: seq<Byte>)
    ensures |d| <= |s|
    ensures forall i :: 0 <= i < |d| ==> IsDigit(d[i])
    ensures (forall i :: 0 <= i < |s| ==> IsDigit(s[i])) ==> d == s
  {
    if s == [] then []
    else (if IsDigit(s[0]) then [s[0]] else []) + Digits(s[1..])
  }

  /** The filter keeps every digit as often as it occurs and drops every
      other byte, so `|Digits(s)|` is the number of digits in `s`. */
  lemma {:induction false} DigitsKept(s: seq<Byte>)
    ensures forall b: Byte :: multiset(Digits(s))[b] == if IsDigit(b) then multiset(s)[b] else 0
  {
    if s != [] {
      DigitsKept(s[1..]);
      assert s == [s[0]] + s[1..];
    }
  }

  /** Filtering distributes over concatenation, so it keeps the digits in
      their order and drops exactly the rest. */
  lemma {:induction false} DigitsAppend(a: seq<Byte>, b: seq<Byte>)
    ensures Digits(a + b) == Digits(a) + Digits(b)
  {
    if a == [] {
      assert a + b == b;
    } else {
      assert (a + b)[1..] == a[1..] + b;
      DigitsAppend(a[1..], b);
    }
  }

  /** `printBarcode(barcode, width, height, barcodeMode)`
      (microprinter.py:82-89); `barcodeMode` None stands for the default.
      The barcode text is written as it is and nothing is flushed after
      the terminating NUL. */
  function PrintBarcode(barcode: seq<Byte>, width: int, height: int, barcodeMode: Option<int>): (r: Run)
  {
    var mode := if barcodeMode.None? || barcodeMode.value == 0 then BarcodeModeUpca as int else barcodeMode.value;
    Then(SetBarcodeHeight(height),
      Then(SetBarcodeWidth(width),
        Then(SendCodes([CommandBarcode, CommandBarcodePrint]),
          Then(SendCodes([mode]),
            Then(Emit(barcode), SendCodes([0x00]))))))
  }

  /** The calls of a barcode print: height (flushed), width (flushed),
      the print command, the mode, the text and NUL, with no flush at the
      end.  A missing or zero mode means UPC-A; a mode outside 0..255
      raises after the print command. */
  lemma BarcodeEvents(barcode: seq<Byte>, width: int, height: int, barcodeMode: Option<int>)
    ensures var r := PrintBarcode(barcode, width, height, barcodeMode);
      var mode := if barcodeMode.None? then 0 else barcodeMode.value;
      var head := [Write([0x1D, 0x68]), Write([height % 256]), Flush,
                   Write([0x1D, 0x77]), Write([Clamp(width, 2, 4)]), Flush,
                   Write([0x1D, 0x6B])];
      && (r.ok <==> 0 <= mode < 256)
      && (r.ok ==> r.events == head + [Write([mode]), Write(barcode), Write([0x00])])
      && (!r.ok ==> r.events == head)
  {
    var mode := if barcodeMode.None? then 0 else barcodeMode.value;
    var printCodes := SendCodes([CommandBarcode, CommandBarcodePrint]);
    assert printCodes == Emit([0x1D, 0x6B]);
    var text := Then(Emit(barcode), SendCodes([0x00]));
    assert text == Run([Write(barcode), Write([0x00])], true);
    var rest := Then(SendCodes([mode]), text);
    assert PrintBarcode(barcode, width, height, barcodeMode)
      == Then(SetBarcodeHeight(height), Then(SetBarcodeWidth(width), Then(printCodes, rest)));
    if 0 <= mode < 256 {
      assert rest == Run([Write([mode]), Write(barcode), Write([0x00])], true);
    } else {
      assert !rest.ok && rest.events == [];
    }
  }

  /** `printUPCABarcode(barcode)` (microprinter.py:74-80), including its
      test `10 < len(barcode) < 13`, which rejects the lengths it should
      accept.  The rejection message goes to standard output, not to the
      printer.  `BarcodeModeUpca` is passed positionally and so lands in
      `width`. */
  function PrintUPCABarcode(barcode: seq<Byte>): (r: Run)
  {
    var digits := Digits(barcode);
    if 10 < |digits| < 13 then Run([], true)
    else PrintBarcode(digits, BarcodeModeUpca as int, 162, None)
  }

  /** What a UPC-A print sends: height 162, width 2 and mode 0, each as
      its own write, around the digits. */
  function UpcaEvents(digits: seq<Byte>): seq<Event>
  {
    [Write([0x1D, 0x68]), Write([162]), Flush, Write([0x1D, 0x77]), Write([2]), Flush,
     Write([0x1D, 0x6B]), Write([0]), Write(digits), Write([0x00])]
  }

  /** The gate as written: eleven or twelve digits send nothing; any other
      count is printed as UPC-A, with the narrowest bar width (the 0 passed
      as width is raised to 2) and the default height 162. */
  lemma UpcaGate(barcode: seq<Byte>)
    ensures var r := PrintUPCABarcode(barcode);
      var digits := Digits(barcode);
      && r.ok
      && (r.events == [] <==> |digits| == 11 || |digits| == 12)
      && (|digits| != 11 && |digits| != 12 ==> r.events == UpcaEvents(digits))
  {
    BarcodeEvents(Digits(barcode), 0, 162, None);
  }

  /** The gate as evidently intended (the message it prints says UPC-A
      needs 11 or 12 digits): the corrected member. */
  function PrintUPCABarcodeIntended(barcode: seq<Byte>): (r: Run)
  {
    var digits := Digits(barcode);
    if !(10 < |digits| < 13) then Run([], true)
    else PrintBarcode(digits, BarcodeModeUpca as int, 162, None)
  }

  lemma UpcaGateIntended(barcode: seq<Byte>)
    ensures var r := PrintUPCABarcodeIntended(barcode);
      var digits := Digits(barcode);
      && r.ok
      && (r.events == [] <==> |digits| != 11 && |digits| != 12)
      && (|digits| == 11 || |digits| == 12 ==> r.events == UpcaEvents(digits))
  {
    BarcodeEvents(Digits(barcode), 0, 162, None);
  }

  /** A concrete input on which the two gates differ: a well-formed
      twelve-digit UPC-A code is silently dropped, a three-digit one is
      sent to the printer. */
  lemma UpcaGateInverted(twelve: seq<Byte>, three: seq<Byte>)
    requires twelve == [0x30, 0x33, 0x36, 0x30, 0x30, 0x30, 0x32, 0x39, 0x31, 0x34, 0x35, 0x32]
    requires three == [0x31, 0x32, 0x33]
    ensures PrintUPCABarcode(twelve).events == []
    ensures PrintUPCABarcodeIntended(twelve).events == UpcaEvents(twelve)
    ensures PrintUPCABarcode(three).events == UpcaEvents(three)
    ensures PrintUPCABarcodeIntended(three).events == []
  {
    assert forall i :: 0 <= i < |twelve| ==> IsDigit(twelve[i]);
    assert forall i :: 0 <= i < |three| ==> IsDigit(three[i]);
    UpcaGate(twelve);
    UpcaGateIntended(twelve);
    UpcaGate(three);
    UpcaGateIntended(three);
  }
}
