/** The pixel stream of `Microprinter.printImage` (microprinter.py:196-217)
    as values: pixels become cells, cells become rows of `width`, rows
    become bands of `RowLimit(mode)` rows, and each band is packed and
    framed.  The imperative loop that builds these incrementally lives in
    module Printer and is proved to emit exactly `PrintImage` below. */
module Raster {
  import opened Protocol
  import opened Packing

  /** `1 if pixel > 128 else 0`: a light pixel is cell 1 (microprinter.py:202-203). */
  function Cell(pixel: int): (c: Bit)
    ensures c == 1 <==> pixel > 128
    ensures c == 0 <==> pixel <= 128
  {
    if pixel > 128 then 1 else 0
  }

  function Cells(pixels: seq<int>): seq<Bit>
  {
    seq(|pixels|, i requires 0 <= i < |pixels| => Cell(pixels[i]))
  }

  /** The complete pieces of `n` consecutive elements of `s`, in order;
      nothing when `n <= 0`. */
  function Chunks<T>(s: seq<T>, n: int): (c: seq<seq<T>>)
    ensures forall i :: 0 <= i < |c| ==> |c[i]| == n
    decreases |s|
  {
    if n <= 0 || |s| < n then [] else [s[..n]] + Chunks(s[n..], n)
  }

  /** What is left of `s` after its complete pieces of `n`: a suffix shorter
      than `n` (all of `s` when `n <= 0`). */
  function Rest<T>(s: seq<T>, n: int): (r: seq<T>)
    ensures |r| <= |s|
    ensures n > 0 ==> |r| < n
    ensures n <= 0 ==> r == s
    decreases |s|
  {
    if n <= 0 || |s| < n then s else Rest(s[n..], n)
  }

  /** The rest is the tail of `s`. */
  lemma {:induction false} RestSuffix<T>(s: seq<T>, n: int)
    ensures Rest(s, n) == s[|s| - |Rest(s, n)|..]
    decreases |s|
  {
    if n > 0 && |s| >= n {
      RestSuffix(s[n..], n);
      assert s[n..][|s| - n - |Rest(s, n)|..] == s[|s| - |Rest(s, n)|..];
    }
  }

  /** Cutting `s + t` is cutting `s`, then cutting what `s` left over
      followed by `t`. */
  lemma {:induction false} ChunksAppend<T>(s: seq<T>, t: seq<T>, n: int)
    requires n > 0
    ensures Chunks(s + t, n) == Chunks(s, n) + Chunks(Rest(s, n) + t, n)
    ensures Rest(s + t, n) == Rest(Rest(s, n) + t, n)
    decreases |s|
  {
    if |s| >= n {
      assert (s + t)[..n] == s[..n];
      assert (s + t)[n..] == s[n..] + t;
      ChunksAppend(s[n..], t, n);
    }
  }

  /** One more element either completes a piece or lengthens the rest. */
  lemma ChunksSnoc<T>(s: seq<T>, x: T, n: int)
    requires n > 0
    ensures |Rest(s, n)| + 1 == n ==>
      Chunks(s + [x], n) == Chunks(s, n) + [Rest(s, n) + [x]] && Rest(s + [x], n) == []
    ensures |Rest(s, n)| + 1 < n ==>
      Chunks(s + [x], n) == Chunks(s, n) && Rest(s + [x], n) == Rest(s, n) + [x]
  {
    ChunksAppend(s, [x], n);
    var u := Rest(s, n) + [x];
    if |u| == n {
      assert u[..n] == u && u[n..] == [];
    }
  }

  /** The pieces and the rest account for every element of `s`. */
  lemma {:induction false} ChunksLength<T>(s: seq<T>, n: int)
    requires n > 0
    ensures |Chunks(s, n)| * n + |Rest(s, n)| == |s|
    decreases |s|
  {
    if |s| >= n {
      ChunksLength(s[n..], n);
      assert |Chunks(s, n)| * n == |Chunks(s[n..], n)| * n + n;
    }
  }

  /** There are `|s| / n` pieces and `|s| % n` elements left over. */
  lemma ChunksCount<T>(s: seq<T>, n: int)
    requires n > 0
    ensures |Chunks(s, n)| == |s| / n && |Rest(s, n)| == |s| % n
  {
    ChunksLength(s, n);
    DivModUnique(|s|, n, |Chunks(s, n)|, |Rest(s, n)|);
  }

  lemma DivModUnique(a: int, n: int, q: int, r: int)
    requires n > 0 && 0 <= r < n && q * n + r == a
    ensures q == a / n && r == a % n
  {
    var q' := a / n;
    if q > q' {
      MulAtLeast(q - q', n);
      assert false;
    } else if q < q' {
      MulAtLeast(q' - q, n);
      assert false;
    }
  }

  lemma {:induction false} MulAtLeast(d: int, n: int)
    requires d >= 1 && n > 0
    ensures d * n >= n
    decreases d
  {
    if d > 1 {
      MulAtLeast(d - 1, n);
      assert d * n == (d - 1) * n + n;
    }
  }

  /** Piece `j` is elements `n * j .. n * j + n - 1` of `s`. */
  lemma {:induction false} ChunksIndex<T>(s: seq<T>, n: int, j: int)
    requires n > 0 && 0 <= j < |Chunks(s, n)|
    ensures n * j + n <= |s| && Chunks(s, n)[j] == s[n * j..n * j + n]
    decreases |s|
  {
    if j > 0 {
      ChunksIndex(s[n..], n, j - 1);
      assert n * j == n + n * (j - 1);
    }
  }

  /** The complete rows of `width` cells. */
  function Rows(pixels: seq<int>, width: int): seq<Row>
  {
    Chunks(Cells(pixels), width)
  }

  /** Cell `x` of row `i` is the threshold of pixel `width * i + x`. */
  lemma RowsIndex(pixels: seq<int>, width: int, i: int, x: int)
    requires width > 0 && 0 <= i < |Rows(pixels, width)| && 0 <= x < width
    ensures width * i + x < |pixels| && Rows(pixels, width)[i][x] == Cell(pixels[width * i + x])
  {
    ChunksIndex(Cells(pixels), width, i);
  }

  /** `[1]*width`, an all-light row. */
  function LightRow(width: int): Row
  {
    seq(if width > 0 then width else 0, _ => 1)
  }

  /** `[[1]*width]*count`: `count` all-light rows. */
  function LightRows(count: nat, width: int): seq<Row>
  {
    seq(count, _ => LightRow(width))
  }

  /** `lbuffer.extend([[1]*width]*(rowlimit-len(lbuffer)))`. */
  function Pad(rows: seq<Row>, limit: int, width: int): (band: Band)
    ensures |band| == if |rows| < limit then limit else |rows|
    ensures band[..|rows|] == rows
    ensures forall r :: |rows| <= r < |band| ==> band[r] == LightRow(width)
  {
    rows + LightRows(if limit > |rows| then limit - |rows| else 0, width)
  }

  /** The bands sent for `rows`: every full group of `limit` rows, then the
      leftover rows padded to `limit` when there are between 1 and
      `padBelow - 1` of them. */
  function Bands(rows: seq<Row>, limit: int, width: int, padBelow: int): seq<Band>
  {
    Chunks(rows, limit)
      + (var left := Rest(rows, limit); if 0 < |left| < padBelow then [Pad(left, limit, width)] else [])
  }

  /** The full bands of `rowlimit` rows each, in order. */
  function FullBands(pixels: seq<int>, width: int, mode: int): (bands: seq<Band>)
    ensures forall j :: 0 <= j < |bands| ==> |bands[j]| == RowLimit(mode)
    ensures forall j :: 0 <= j < |bands| ==> IsBand(bands[j], mode)
  {
    var rows := Rows(pixels, width);
    var limit := RowLimit(mode);
    ChunksWidth(rows, limit, width);
    Chunks(rows, limit)
  }

  /** The bands of `printImage`, whose padding guard is `rowlimit` itself. */
  function ImageBands(pixels: seq<int>, width: int, mode: int): (bands: seq<Band>)
    ensures forall j :: 0 <= j < |bands| ==> |bands[j]| == RowLimit(mode)
    ensures forall j, r :: 0 <= j < |bands| && 0 <= r < |bands[j]| ==> |bands[j][r]| == width
    ensures forall j :: 0 <= j < |bands| ==> IsBand(bands[j], mode)
  {
    var rows := Rows(pixels, width);
    var limit := RowLimit(mode);
    BandsWidth(rows, limit, width, limit);
    Bands(rows, limit, width, limit)
  }

  /** The bands of a picture start with the full bands of any of its
      prefixes. */
  lemma FullBandsPrefix(p: seq<int>, q: seq<int>, width: int, mode: int)
    ensures |FullBands(p, width, mode)| <= |ImageBands(p + q, width, mode)|
    ensures ImageBands(p + q, width, mode)[..|FullBands(p, width, mode)|] == FullBands(p, width, mode)
  {
    if width > 0 {
      var limit := RowLimit(mode);
      assert Cells(p + q) == Cells(p) + Cells(q);
      ChunksAppend(Cells(p), Cells(q), width);
      var extra := Chunks(Rest(Cells(p), width) + Cells(q), width);
      ChunksAppend(Rows(p, width), extra, limit);
    }
  }

  /** One more pixel either completes the row being filled or lengthens it. */
  lemma PixelStep(pixels: seq<int>, i: int, width: int)
    requires width > 0 && 0 <= i < |pixels|
    ensures var before := Rest(Cells(pixels[..i]), width);
      var row := before + [Cell(pixels[i])];
      && (|before| + 1 == width ==>
            Rows(pixels[..i + 1], width) == Rows(pixels[..i], width) + [row]
            && Rest(Cells(pixels[..i + 1]), width) == [])
      && (|before| + 1 < width ==>
            Rows(pixels[..i + 1], width) == Rows(pixels[..i], width)
            && Rest(Cells(pixels[..i + 1]), width) == row)
  {
    assert Cells(pixels[..i + 1]) == Cells(pixels[..i]) + [Cell(pixels[i])];
    ChunksSnoc(Cells(pixels[..i]), Cell(pixels[i]), width);
  }

  /** One more pixel, as the loop of `printImage` sees it: it lengthens the
      row being filled, or completes it; a completed row lengthens the rows
      kept back for the next band, or completes that band. */
  lemma BandStep(pixels: seq<int>, i: int, width: int, mode: int)
    requires 0 <= i < |pixels|
    ensures var row := Rest(Cells(pixels[..i]), width) + [Cell(pixels[i])];
      var kept := Rest(Rows(pixels[..i], width), RowLimit(mode));
      && (|row| != width ==>
            Rest(Cells(pixels[..i + 1]), width) == row
            && Rows(pixels[..i + 1], width) == Rows(pixels[..i], width))
      && (|row| == width ==>
            Rest(Cells(pixels[..i + 1]), width) == []
            && Rows(pixels[..i + 1], width) == Rows(pixels[..i], width) + [row])
      && (|row| == width && |kept| + 1 == RowLimit(mode) ==>
            FullBands(pixels[..i + 1], width, mode) == FullBands(pixels[..i], width, mode) + [kept + [row]]
            && Rest(Rows(pixels[..i + 1], width), RowLimit(mode)) == [])
      && (|row| == width && |kept| + 1 < RowLimit(mode) ==>
            FullBands(pixels[..i + 1], width, mode) == FullBands(pixels[..i], width, mode)
            && Rest(Rows(pixels[..i + 1], width), RowLimit(mode)) == kept + [row])
  {
    assert Cells(pixels[..i + 1]) == Cells(pixels[..i]) + [Cell(pixels[i])];
    if width > 0 {
      PixelStep(pixels, i, width);
      var row := Rest(Cells(pixels[..i]), width) + [Cell(pixels[i])];
      if |row| == width {
        ChunksSnoc(Rows(pixels[..i], width), row, RowLimit(mode));
      }
    }
  }

  /** Element `k` of piece `j` is element `n * j + k` of `s`. */
  lemma ChunksElement<T>(s: seq<T>, n: int, j: int, k: int)
    requires n > 0 && 0 <= j < |Chunks(s, n)| && 0 <= k < n
    ensures 0 <= n * j + k < |s| && Chunks(s, n)[j][k] == s[n * j + k]
  {
    ChunksIndex(s, n, j);
  }

  /** Element `k` of the rest is element `|s| - |Rest(s, n)| + k` of `s`. */
  lemma RestElement<T>(s: seq<T>, n: int, k: int)
    requires 0 <= k < |Rest(s, n)|
    ensures Rest(s, n)[k] == s[|s| - |Rest(s, n)| + k]
  {
    RestSuffix(s, n);
  }

  /** Cut from rows of `width` cells, every full band has rows of `width`
      cells. */
  lemma ChunksWidth(rows: seq<Row>, limit: int, width: int)
    requires limit > 0
    requires forall i :: 0 <= i < |rows| ==> |rows[i]| == width
    ensures forall j, r :: 0 <= j < |Chunks(rows, limit)| && 0 <= r < limit ==> |Chunks(rows, limit)[j][r]| == width
  {
    forall j, r | 0 <= j < |Chunks(rows, limit)| && 0 <= r < limit
      ensures |Chunks(rows, limit)[j][r]| == width
    {
      ChunksElement(rows, limit, j, r);
    }
  }

  /** Cut from rows of `width` cells, every band has `limit` rows of `width`
      cells. */
  lemma BandsWidth(rows: seq<Row>, limit: int, width: int, padBelow: int)
    requires limit > 0 && padBelow <= limit
    requires forall i :: 0 <= i < |rows| ==> |rows[i]| == width
    ensures forall j :: 0 <= j < |Bands(rows, limit, width, padBelow)| ==> |Bands(rows, limit, width, padBelow)[j]| == limit
    ensures forall j, r :: 0 <= j < |Bands(rows, limit, width, padBelow)| && 0 <= r < |Bands(rows, limit, width, padBelow)[j]| ==>
      |Bands(rows, limit, width, padBelow)[j][r]| == width
  {
    var left := Rest(rows, limit);
    ChunksWidth(rows, limit, width);
    forall k | 0 <= k < |left|
      ensures |left[k]| == width
    {
      RestElement(rows, limit, k);
    }
    if 0 < |left| {
      assert |left[0]| == width;
    }
  }

  /** The packed bytes of each band, in order (`printImageRow`'s packing). */
  function PackBands(bands: seq<Band>, mode: int): seq<seq<Byte>>
    requires forall j :: 0 <= j < |bands| ==> IsBand(bands[j], mode)
  {
    seq(|bands|, j requires 0 <= j < |bands| => PackBand(bands[j], mode))
  }

  /** The image frames for `frames`, one `printImagebytes` each, in order;
      the first frame that raises ends the stream. */
  function FramesRun(frames: seq<seq<Byte>>, mode: int): Run
    decreases |frames|
  {
    if frames == [] then Run([], true)
    else Then(FramesRun(frames[..|frames| - 1], mode), PrintImagebytes(mode, frames[|frames| - 1]))
  }

  /** The frames succeed exactly when every frame does on its own. */
  lemma {:induction false} FramesRunOk(frames: seq<seq<Byte>>, mode: int)
    ensures FramesRun(frames, mode).ok <==> forall j :: 0 <= j < |frames| ==> PrintImagebytes(mode, frames[j]).ok
    decreases |frames|
  {
    if frames != [] {
      var init := frames[..|frames| - 1];
      FramesRunOk(init, mode);
      assert forall j :: 0 <= j < |init| ==> init[j] == frames[j];
    }
  }

  /** Once a frame has raised, later frames change nothing. */
  lemma {:induction false} FramesRunFailed(frames: seq<seq<Byte>>, more: seq<seq<Byte>>, mode: int)
    requires !FramesRun(frames, mode).ok
    ensures FramesRun(frames + more, mode) == FramesRun(frames, mode)
    decreases |more|
  {
    if more == [] {
      assert frames + more == frames;
    } else {
      var all := frames + more;
      var init := more[..|more| - 1];
      FramesRunFailed(frames, init, mode);
      assert all[..|all| - 1] == frames + init;
    }
  }

  /** When the frames of some first bands already raise, the frames of any
      longer run of bands raise the same way and write nothing more. */
  lemma FailedPrefix(short: seq<Band>, all: seq<Band>, mode: int)
    requires forall j :: 0 <= j < |all| ==> IsBand(all[j], mode)
    requires |short| <= |all| && all[..|short|] == short
    requires !FramesRun(PackBands(short, mode), mode).ok
    ensures FramesRun(PackBands(all, mode), mode) == FramesRun(PackBands(short, mode), mode)
  {
    var fa := PackBands(all, mode);
    var fs := PackBands(short, mode);
    forall j | 0 <= j < |short|
      ensures fa[j] == fs[j]
    {
      assert all[j] == short[j];
    }
    assert fa == fs + fa[|short|..];
    FramesRunFailed(fs, fa[|short|..], mode);
  }

  /** One more band adds its packed bytes as the last frame. */
  lemma PackBandsSnoc(bands: seq<Band>, b: Band, mode: int)
    requires forall j :: 0 <= j < |bands| ==> IsBand(bands[j], mode)
    requires IsBand(b, mode)
    ensures forall j :: 0 <= j < |bands + [b]| ==> IsBand((bands + [b])[j], mode)
    ensures PackBands(bands + [b], mode) == PackBands(bands, mode) + [PackBand(b, mode)]
  {
    assert forall j :: 0 <= j < |bands| ==> (bands + [b])[j] == bands[j];
  }

  /** One more frame appends its `printImagebytes` run. */
  lemma FramesRunSnoc(frames: seq<seq<Byte>>, data: seq<Byte>, mode: int)
    ensures FramesRun(frames + [data], mode) == Then(FramesRun(frames, mode), PrintImagebytes(mode, data))
  {
    assert (frames + [data])[..|frames|] == frames;
  }

  /** A successful run of frames is the frames one after another: four
      events each, frame `j` at events `4 * j .. 4 * j + 3`. */
  lemma {:induction false} FramesRunEvents(frames: seq<seq<Byte>>, mode: int)
    requires FramesRun(frames, mode).ok
    ensures |FramesRun(frames, mode).events| == 4 * |frames|
    ensures forall j :: 0 <= j < |frames| ==>
      FramesRun(frames, mode).events[4 * j..4 * j + 4] == PrintImagebytes(mode, frames[j]).events
    decreases |frames|
  {
    if frames != [] {
      var n := |frames| - 1;
      var init := frames[..n];
      assert FramesRun(init, mode).ok;
      FramesRunEvents(init, mode);
      var prev := FramesRun(init, mode).events;
      var frame := PrintImagebytes(mode, frames[n]);
      ImageFrame(mode, frames[n]);
      assert FramesRun(frames, mode).events == prev + frame.events;
      forall j | 0 <= j < |frames|
        ensures FramesRun(frames, mode).events[4 * j..4 * j + 4] == PrintImagebytes(mode, frames[j]).events
      {
        if j < n {
          assert (prev + frame.events)[4 * j..4 * j + 4] == prev[4 * j..4 * j + 4];
          assert init[j] == frames[j];
        } else {
          assert (prev + frame.events)[4 * j..4 * j + 4] == frame.events;
        }
      }
    }
  }

  /** The whole of `printImage` after the resize: line-feed rate 1, one
      frame per band, then a reset (microprinter.py:183, 196-217). */
  function PrintImage(pixels: seq<int>, width: int, mode: int): Run
  {
    Then(Then(SetLineFeedRate(1), FramesRun(PackBands(ImageBands(pixels, width, mode), mode), mode)), ResetState())
  }

  /** `ceil(n / rowlimit)` bands for `n` complete rows, and none for a
      width that never completes a row. */
  lemma ImageBandCount(pixels: seq<int>, width: int, mode: int)
    ensures width <= 0 ==> ImageBands(pixels, width, mode) == []
    ensures width > 0 ==>
      var n := |pixels| / width;
      |ImageBands(pixels, width, mode)| == (n + RowLimit(mode) - 1) / RowLimit(mode)
  {
    if width > 0 {
      var rows := Rows(pixels, width);
      var limit := RowLimit(mode);
      ChunksCount(Cells(pixels), width);
      ChunksCount(rows, limit);
      var n := |rows|;
      var q := |Chunks(rows, limit)|;
      var r := |Rest(rows, limit)|;
      assert q * limit + r == n;
      if r == 0 {
        DivModUnique(n + limit - 1, limit, q, limit - 1);
      } else {
        DivModUnique(n + limit - 1, limit, q + 1, r - 1);
      }
    }
  }

  /** Row `r` of band `j` is picture row `rowlimit * j + r` while there is
      one, and an all-light padding row after the last. */
  lemma ImageBandsRows(pixels: seq<int>, width: int, mode: int, j: int, r: int)
    requires width > 0
    requires 0 <= j < |ImageBands(pixels, width, mode)| && 0 <= r < RowLimit(mode)
    ensures RowLimit(mode) * j + r < |Rows(pixels, width)| ==>
      ImageBands(pixels, width, mode)[j][r] == Rows(pixels, width)[RowLimit(mode) * j + r]
    ensures RowLimit(mode) * j + r >= |Rows(pixels, width)| ==>
      ImageBands(pixels, width, mode)[j][r] == LightRow(width)
  {
    var rows := Rows(pixels, width);
    var limit := RowLimit(mode);
    var full := Chunks(rows, limit);
    var left := Rest(rows, limit);
    var bands := ImageBands(pixels, width, mode);
    assert bands == Bands(rows, limit, width, limit);
    if j < |full| {
      ChunksElement(rows, limit, j, r);
      assert bands[j] == full[j];
    } else {
      ChunksLength(rows, limit);
      assert j == |full| && bands[j] == Pad(left, limit, width);
      assert limit * j == |full| * limit;
      if r < |left| {
        RestElement(rows, limit, r);
        assert bands[j][r] == left[r];
      }
    }
  }

  /** What the loop of `printImage` has sent after the pixels `p`: one
      frame per full band, up to the first that raises. */
  function Sent(p: seq<int>, width: int, mode: int): Run
  {
    FramesRun(PackBands(FullBands(p, width, mode), mode), mode)
  }

  /** One more pixel sends the band it completes, and nothing otherwise. */
  lemma SentStep(pixels: seq<int>, i: int, width: int, mode: int)
    requires 0 <= i < |pixels|
    ensures var row := Rest(Cells(pixels[..i]), width) + [Cell(pixels[i])];
      var kept := Rest(Rows(pixels[..i], width), RowLimit(mode));
      && (|row| == width && |kept| + 1 == RowLimit(mode) ==>
            IsBand(kept + [row], mode)
            && Sent(pixels[..i + 1], width, mode)
               == Then(Sent(pixels[..i], width, mode), PrintImagebytes(mode, PackBand(kept + [row], mode))))
      && (!(|row| == width && |kept| + 1 == RowLimit(mode)) ==>
            Sent(pixels[..i + 1], width, mode) == Sent(pixels[..i], width, mode))
  {
    BandStep(pixels, i, width, mode);
    var row := Rest(Cells(pixels[..i]), width) + [Cell(pixels[i])];
    var kept := Rest(Rows(pixels[..i], width), RowLimit(mode));
    var done := FullBands(pixels[..i], width, mode);
    if |row| == width && |kept| + 1 == RowLimit(mode) {
      var after := FullBands(pixels[..i + 1], width, mode);
      assert after == done + [kept + [row]];
      assert IsBand(after[|done|], mode);
      PackBandsSnoc(done, kept + [row], mode);
      FramesRunSnoc(PackBands(done, mode), PackBand(kept + [row], mode), mode);
    }
  }

  /** The loop of `printImage` at pixel `i`, stated on its own variables:
      `cells` is the row being filled (`cbuffer`) and `kept` the rows not yet
      sent (`lbuffer`).  After the pixel, the row either grows, or is
      complete and joins `kept`, which is then either still short of a band
      or a band that is sent. */
  lemma LoopStep(pixels: seq<int>, i: int, width: int, mode: int, cells: Row, kept: seq<Row>)
    requires 0 <= i < |pixels|
    requires cells == Rest(Cells(pixels[..i]), width)
    requires kept == Rest(Rows(pixels[..i], width), RowLimit(mode))
    ensures var row := cells + [Cell(pixels[i])];
      && (|row| != width ==>
            && Rest(Cells(pixels[..i + 1]), width) == row
            && Rest(Rows(pixels[..i + 1], width), RowLimit(mode)) == kept
            && Sent(pixels[..i + 1], width, mode) == Sent(pixels[..i], width, mode))
      && (|row| == width && |kept + [row]| != RowLimit(mode) ==>
            && Rest(Cells(pixels[..i + 1]), width) == []
            && Rest(Rows(pixels[..i + 1], width), RowLimit(mode)) == kept + [row]
            && Sent(pixels[..i + 1], width, mode) == Sent(pixels[..i], width, mode))
      && (|row| == width && |kept + [row]| == RowLimit(mode) ==>
            && Rest(Cells(pixels[..i + 1]), width) == []
            && Rest(Rows(pixels[..i + 1], width), RowLimit(mode)) == []
            && IsBand(kept + [row], mode)
            && Sent(pixels[..i + 1], width, mode)
               == Then(Sent(pixels[..i], width, mode), PrintImagebytes(mode, PackBand(kept + [row], mode))))
  {
    BandStep(pixels, i, width, mode);
    SentStep(pixels, i, width, mode);
  }

  /** Once a band of the first `k` pixels raises, the whole of `printImage`
      is the line-feed rate followed by what was sent up to there. */
  lemma SentFails(pixels: seq<int>, k: int, width: int, mode: int, log: seq<Event>)
    requires 0 <= k <= |pixels| && !Sent(pixels[..k], width, mode).ok
    ensures PrintImage(pixels, width, mode) == Then(SetLineFeedRate(1), Sent(pixels[..k], width, mode))
    ensures !PrintImage(pixels, width, mode).ok
    ensures log + PrintImage(pixels, width, mode).events
      == log + SetLineFeedRate(1).events + Sent(pixels[..k], width, mode).events
  {
    AppendAssoc(log, SetLineFeedRate(1).events, Sent(pixels[..k], width, mode).events);
    FullBandsPrefix(pixels[..k], pixels[k..], width, mode);
    assert pixels[..k] + pixels[k..] == pixels;
    FailedPrefix(FullBands(pixels[..k], width, mode), ImageBands(pixels, width, mode), mode);
  }

  /** After the last pixel, `printImage` sends the padded leftover rows as
      one more band, if there are any, and then resets. */
  lemma SentFinish(pixels: seq<int>, width: int, mode: int)
    ensures var kept := Rest(Rows(pixels, width), RowLimit(mode));
      && (forall r :: 0 <= r < |kept| ==> |kept[r]| == width)
      && (0 < |kept| ==>
            && width > 0 && IsBand(Pad(kept, RowLimit(mode), width), mode)
            && PrintImage(pixels, width, mode)
               == Then(Then(SetLineFeedRate(1),
                            Then(Sent(pixels, width, mode), PrintImagebytes(mode, PackBand(Pad(kept, RowLimit(mode), width), mode)))),
                       ResetState()))
      && (|kept| == 0 ==> PrintImage(pixels, width, mode) == Then(Then(SetLineFeedRate(1), Sent(pixels, width, mode)), ResetState()))
  {
    var rows := Rows(pixels, width);
    var limit := RowLimit(mode);
    var kept := Rest(rows, limit);
    var full := FullBands(pixels, width, mode);
    forall r | 0 <= r < |kept|
      ensures |kept[r]| == width
    {
      RestElement(rows, limit, r);
    }
    if 0 < |kept| {
      var padded := Pad(kept, limit, width);
      assert ImageBands(pixels, width, mode) == full + [padded];
      assert IsBand(ImageBands(pixels, width, mode)[|full|], mode);
      PackBandsSnoc(full, padded, mode);
      FramesRunSnoc(PackBands(full, mode), PackBand(padded, mode), mode);
    } else {
      assert ImageBands(pixels, width, mode) == full;
    }
  }

  /** The end of `printImage` after its loop, stated on the rows `kept`
      back (`lbuffer`) and the log `log` the driver started from: the
      padded leftover band, when there is one, then the reset that follows
      unless that band raised. */
  lemma LoopEnd(pixels: seq<int>, width: int, mode: int, kept: seq<Row>, log: seq<Event>)
    requires kept == Rest(Rows(pixels, width), RowLimit(mode))
    requires Sent(pixels, width, mode).ok
    ensures |kept| < RowLimit(mode)
    ensures 0 < |kept| ==> IsBand(Pad(kept, RowLimit(mode), width), mode)
    ensures 0 < |kept| && PrintImagebytes(mode, PackBand(Pad(kept, RowLimit(mode), width), mode)).ok ==>
      && PrintImage(pixels, width, mode).ok
      && log + PrintImage(pixels, width, mode).events
         == log + SetLineFeedRate(1).events + Sent(pixels, width, mode).events
            + PrintImagebytes(mode, PackBand(Pad(kept, RowLimit(mode), width), mode)).events + ResetState().events
    ensures 0 < |kept| && !PrintImagebytes(mode, PackBand(Pad(kept, RowLimit(mode), width), mode)).ok ==>
      && !PrintImage(pixels, width, mode).ok
      && log + PrintImage(pixels, width, mode).events
         == log + SetLineFeedRate(1).events + Sent(pixels, width, mode).events
            + PrintImagebytes(mode, PackBand(Pad(kept, RowLimit(mode), width), mode)).events
    ensures |kept| == 0 ==>
      && PrintImage(pixels, width, mode).ok
      && log + PrintImage(pixels, width, mode).events
         == log + SetLineFeedRate(1).events + Sent(pixels, width, mode).events + ResetState().events
  {
    var limit := RowLimit(mode);
    var opening := SetLineFeedRate(1);
    var sent := Sent(pixels, width, mode);
    var closing := ResetState();
    assert opening.ok && closing.ok;
    SentFinish(pixels, width, mode);
    if 0 < |kept| {
      var frame := PrintImagebytes(mode, PackBand(Pad(kept, limit, width), mode));
      AppendAssoc(log, opening.events, sent.events);
      AppendAssoc(log, opening.events + sent.events, frame.events);
      AppendAssoc(opening.events, sent.events, frame.events);
      var body := Then(opening, Then(sent, frame));
      assert body.events == opening.events + sent.events + frame.events;
      if frame.ok {
        AppendAssoc(log, body.events, closing.events);
      }
    } else {
      AppendAssoc(log, opening.events, sent.events);
      AppendAssoc(log, opening.events + sent.events, closing.events);
    }
  }

  /** With no complete row there is no band: only the line-feed rate and the
      reset are sent. */
  lemma EmptyImage(pixels: seq<int>, width: int, mode: int)
    requires width <= 0 || |pixels| < width
    ensures ImageBands(pixels, width, mode) == []
    ensures PrintImage(pixels, width, mode) ==
      Run([Write([Command, LinefeedRate]), Write([1]), Flush, Write([Command, Reset]), Flush], true)
  {
  }

  /** Pixels of an incomplete trailing row are discarded. */
  lemma TrailingPixels(pixels: seq<int>, tail: seq<int>, width: int, mode: int)
    requires width > 0 && |pixels| % width == 0 && |tail| < width
    ensures Rows(pixels + tail, width) == Rows(pixels, width)
    ensures PrintImage(pixels + tail, width, mode) == PrintImage(pixels, width, mode)
  {
    assert Cells(pixels + tail) == Cells(pixels) + Cells(tail);
    ChunksAppend(Cells(pixels), Cells(tail), width);
    ChunksCount(Cells(pixels), width);
    assert Rest(Cells(pixels), width) == [];
    assert [] + Cells(tail) == Cells(tail);
  }

  /** The stream of `printImage` opens with `1B 33 01` and a flush. */
  lemma PrintImageOpens(pixels: seq<int>, width: int, mode: int)
    ensures var run := PrintImage(pixels, width, mode);
      |run.events| >= 3 && run.events[..3] == [Write([Command, LinefeedRate]), Write([1]), Flush]
  {
    var opening := SetLineFeedRate(1);
    assert opening == Run([Write([Command, LinefeedRate]), Write([1]), Flush], true);
    var frames := FramesRun(PackBands(ImageBands(pixels, width, mode), mode), mode);
    var body := Then(opening, frames);
    assert body.events == opening.events + frames.events;
    assert PrintImage(pixels, width, mode).events[..3] == body.events[..3];
  }

  /** A frame of packed bytes fails only for a mode that is not a byte or a
      declared length that does not fit in two bytes. */
  lemma FrameOk(mode: int, data: seq<Byte>)
    ensures PrintImagebytes(mode, data).ok <==> 0 <= mode < 256 && DataLength(mode, |data|) < 65536
  {
    ImageFrame(mode, data);
  }

  /** `printImage` succeeds exactly when there is no band, or the mode is a
      byte and the declared length of a band's frame fits in two bytes. */
  lemma PrintImageOk(pixels: seq<int>, width: int, mode: int)
    ensures PrintImage(pixels, width, mode).ok <==>
      ImageBands(pixels, width, mode) == [] ||
      (width > 0 && 0 <= mode < 256 && DataLength(mode, BytesPerColumn(mode) * width) < 65536)
  {
    var bands := ImageBands(pixels, width, mode);
    var frames := PackBands(bands, mode);
    FramesRunOk(frames, mode);
    if bands != [] {
      var good := width > 0 && 0 <= mode < 256 && DataLength(mode, BytesPerColumn(mode) * width) < 65536;
      forall j | 0 <= j < |frames|
        ensures PrintImagebytes(mode, frames[j]).ok == good
      {
        FrameOk(mode, frames[j]);
        PackBandLayout(bands[j], mode);
      }
      assert PrintImagebytes(mode, frames[0]).ok == good;
    }
  }

  /** A successful `printImage` is the line-feed rate, the bands' frames,
      then `1B 40` and a flush. */
  lemma PrintImageEvents(pixels: seq<int>, width: int, mode: int)
    requires PrintImage(pixels, width, mode).ok
    ensures PrintImage(pixels, width, mode).events ==
      [Write([Command, LinefeedRate]), Write([1]), Flush]
      + FramesRun(PackBands(ImageBands(pixels, width, mode), mode), mode).events
      + [Write([Command, Reset]), Flush]
  {
    assert SetLineFeedRate(1) == Run([Write([Command, LinefeedRate]), Write([1]), Flush], true);
  }

  /** Cell `x` of row `r` of band `j` is the threshold of a picture pixel,
      or light padding past the last complete row. */
  lemma ImageBandCell(pixels: seq<int>, width: int, mode: int, j: int, r: int, x: int)
    requires width > 0 && 0 <= j < |ImageBands(pixels, width, mode)|
    requires 0 <= r < RowLimit(mode) && 0 <= x < |ImageBands(pixels, width, mode)[j][r]|
    ensures RowLimit(mode) * j + r < |pixels| / width ==>
      RowLimit(mode) * j + r < |Rows(pixels, width)|
      && width * (RowLimit(mode) * j + r) + x < |pixels|
      && ImageBands(pixels, width, mode)[j][r][x] == Cell(pixels[width * (RowLimit(mode) * j + r) + x])
    ensures RowLimit(mode) * j + r >= |pixels| / width ==> ImageBands(pixels, width, mode)[j][r][x] == 1
  {
    ChunksCount(Cells(pixels), width);
    ImageBandsRows(pixels, width, mode, j, r);
    if RowLimit(mode) * j + r < |Rows(pixels, width)| {
      RowsIndex(pixels, width, RowLimit(mode) * j + r, x);
    }
  }

  /** An image whose pixels are all light (above 128) sends only 0x00 data
      bytes, padding included. */
  lemma ImageAllLight(pixels: seq<int>, width: int, mode: int, j: int)
    requires width > 0 && 0 <= j < |ImageBands(pixels, width, mode)|
    requires forall i :: 0 <= i < |pixels| ==> pixels[i] > 128
    ensures forall k :: 0 <= k < |PackBand(ImageBands(pixels, width, mode)[j], mode)| ==>
      PackBand(ImageBands(pixels, width, mode)[j], mode)[k] == 0x00
  {
    var band := ImageBands(pixels, width, mode)[j];
    var limit := RowLimit(mode);
    forall r, x | 0 <= r < limit && 0 <= x < |band[r]|
      ensures band[r][x] == 1
    {
      ImageBandCell(pixels, width, mode, j, r, x);
      var row := limit * j + r;
      if row < |pixels| / width {
        var i := width * row + x;
        assert 0 <= i < |pixels| && band[r][x] == Cell(pixels[i]);
        assert pixels[i] > 128;
      }
    }
    PackBandUniform(band, mode, 1);
  }

  /** An image whose pixels are all dark (128 or below) sends 0xFF in every
      byte of a band its rows fill completely. */
  lemma ImageAllDark(pixels: seq<int>, width: int, mode: int, j: int)
    requires width > 0 && 0 <= j < |ImageBands(pixels, width, mode)|
    requires forall i :: 0 <= i < |pixels| ==> pixels[i] <= 128
    requires RowLimit(mode) * j + RowLimit(mode) <= |pixels| / width
    ensures forall k :: 0 <= k < |PackBand(ImageBands(pixels, width, mode)[j], mode)| ==>
      PackBand(ImageBands(pixels, width, mode)[j], mode)[k] == 0xFF
  {
    var band := ImageBands(pixels, width, mode)[j];
    var limit := RowLimit(mode);
    forall r, x | 0 <= r < limit && 0 <= x < |band[r]|
      ensures band[r][x] == 0
    {
      ImageBandCell(pixels, width, mode, j, r, x);
      var row := limit * j + r;
      assert row < |pixels| / width;
      var i := width * row + x;
      assert 0 <= i < |pixels| && band[r][x] == Cell(pixels[i]);
      assert pixels[i] <= 128;
    }
    PackBandUniform(band, mode, 0);
  }
}
