/**
 * CPU conversion of a planar YUV420 (I420) frame into packed 24-bit pixels,
 * as done by RGB_ADJUST and CONVERT_YUV420PtoRGB24 in pxVideo.cpp.
 *
 * Buffer layout read by the conversion, for a frame of w x h pixels:
 *   [0, w*h)                      luma plane, one sample per pixel
 *   [w*h, w*h + w*h/4)            first chroma plane (read as V)
 *   [w*h + w*h/4, ...)            second chroma plane (read as U)
 * One chroma sample is shared by a 2x2 block of pixels. The output holds
 * three bytes per pixel, in B, G, R order, row after row.
 *
 * The colour coefficients are exact reals; IEEE double rounding is not modelled.
 */
module YuvConvert {

  /** An unsigned 8-bit sample (`unsigned char`). */
  type Byte = b: int | 0 <= b < 256

  /** RGB_ADJUST: clamp a channel value to [0, 255], then truncate it to a byte. */
  function RgbAdjust(tmp: real): (r: Byte)
    ensures tmp < 0.0 ==> r == 0
    ensures tmp > 255.0 ==> r == 255
    ensures 0.0 <= tmp <= 255.0 ==> r as real <= tmp < r as real + 1.0
  {
    if 0.0 <= tmp && tmp <= 255.0 then tmp.Floor else if tmp < 0.0 then 0 else 255
  }

  /** The three output bytes of one pixel. */
  datatype Bgr = Bgr(b: Byte, g: Byte, r: Byte)

  /** Red channel before clamping: above the luma exactly when V is above its neutral 128. */
  function RedLevel(y: Byte, v: Byte): (r: real)
    ensures r >= y as real <==> v >= 128
    ensures r <= y as real <==> v <= 128
  {
    y as real + 1.4075 * (v as int - 128) as real
  }

  /**
   * Green channel before clamping, with the grouping of the source: the U term is
   * subtracted and the V term added, so V above 128 raises green.
   */
  function GreenLevel(y: Byte, u: Byte, v: Byte): (r: real)
    ensures u <= 128 && v >= 128 ==> r >= y as real
    ensures u >= 128 && v <= 128 ==> r <= y as real
    ensures u == 128 && v == 128 ==> r == y as real
  {
    y as real - (0.3455 * (u as int - 128) as real - 0.7169 * (v as int - 128) as real)
  }

  /** Blue channel before clamping: above the luma exactly when U is above its neutral 128. */
  function BlueLevel(y: Byte, u: Byte): (r: real)
    ensures r >= y as real <==> u >= 128
    ensures r <= y as real <==> u <= 128
  {
    y as real + 1.7790 * (u as int - 128) as real
  }

  /**
   * The colour of one pixel from its luma sample and its two chroma samples.
   * Clamping keeps each channel on the same side of the luma as its level.
   */
  function ConvertPixel(y: Byte, u: Byte, v: Byte): (c: Bgr)
    ensures (u >= 128 ==> c.b >= y) && (u <= 128 ==> c.b <= y)
    ensures (v >= 128 ==> c.r >= y) && (v <= 128 ==> c.r <= y)
    ensures (u <= 128 && v >= 128 ==> c.g >= y) && (u >= 128 && v <= 128 ==> c.g <= y)
  {
    var b, g, r := BlueLevel(y, u), GreenLevel(y, u, v), RedLevel(y, v);
    ClampKeepsSide(y, b);
    ClampKeepsSide(y, g);
    ClampKeepsSide(y, r);
    Bgr(RgbAdjust(b), RgbAdjust(g), RgbAdjust(r))
  }

  /** A level at or above (at or below) a byte value clamps to a byte at or above (at or below) it. */
  lemma ClampKeepsSide(y: Byte, level: real)
    ensures level >= y as real ==> RgbAdjust(level) >= y
    ensures level <= y as real ==> RgbAdjust(level) <= y
  {
    assert RgbAdjust(y as real) == y;
    if level >= y as real {
      RgbAdjustMonotone(y as real, level);
    }
    if level <= y as real {
      RgbAdjustMonotone(level, y as real);
    }
  }

  /** Offset of the chroma sample of pixel (i, j) inside either chroma plane. */
  function ChromaIndex(w: nat, i: nat, j: nat): nat { (i / 2) * (w / 2) + j / 2 }

  /** Start of the plane the source calls `uPlane`; its samples are used as V. */
  function VPlaneStart(w: nat, h: nat): nat { w * h }

  /** Start of the plane the source calls `vPlane`; its samples are used as U. */
  function UPlaneStart(w: nat, h: nat): nat { w * h + w * h / 4 }

  /** One past the largest buffer index the conversion reads. */
  function ReadExtent(w: nat, h: nat): nat
  {
    if w == 0 || h == 0 then 0 else UPlaneStart(w, h) + ChromaIndex(w, h - 1, w - 1) + 1
  }

  lemma MulMonotone(a: nat, b: nat, c: nat)
    requires a <= b
    ensures a * c <= b * c
  {
  }

  /** Row i of the output starts 3*w*i bytes in. */
  lemma RowStride(w: nat, i: nat)
    ensures (w * 3) * i == 3 * (w * i)
  {
    calc {
      (w * 3) * i;
      w * (3 * i);
      w * (i + i + i);
      w * i + w * i + w * i;
    }
  }

  /** The pixels of the rows before row i + 1 are those before row i and one row more. */
  lemma NextRow(w: nat, h: nat, i: nat)
    requires i < h
    ensures w * (i + 1) == w * i + w <= w * h
  {
    MulMonotone(i + 1, h, w);
  }

  /** The luma sample of pixel (i, j) lies in the luma plane. */
  lemma LumaInPlane(w: nat, h: nat, i: nat, j: nat)
    requires i < h && j < w
    ensures 0 <= w * i && w * i + j < w * h
  {
    MulMonotone(i + 1, h, w);
    assert w * (i + 1) == w * i + w;
  }

  /** The chroma offset is largest for the bottom-right pixel. */
  lemma ChromaIndexBound(w: nat, h: nat, i: nat, j: nat)
    requires i < h && j < w
    ensures ChromaIndex(w, i, j) <= ChromaIndex(w, h - 1, w - 1)
  {
    MulMonotone(i / 2, (h - 1) / 2, w / 2);
  }

  /** Every index the conversion reads for pixel (i, j) lies below ReadExtent(w, h). */
  lemma PixelReadsInBounds(w: nat, h: nat, i: nat, j: nat)
    requires i < h && j < w
    ensures 0 <= w * i + j < w * h <= VPlaneStart(w, h) + ChromaIndex(w, i, j)
    ensures VPlaneStart(w, h) + ChromaIndex(w, i, j) <= UPlaneStart(w, h) + ChromaIndex(w, i, j)
    ensures UPlaneStart(w, h) + ChromaIndex(w, i, j) < ReadExtent(w, h)
  {
    LumaInPlane(w, h, i, j);
    ChromaIndexBound(w, h, i, j);
  }

  /** For even dimensions the reads stay inside the w*h*3/2 bytes of an I420 frame, and reach its last byte. */
  lemma {:induction false} EvenFrameReadExtent(w: nat, h: nat)
    requires w > 0 && h > 0 && w % 2 == 0 && h % 2 == 0
    ensures ReadExtent(w, h) == w * h * 3 / 2
  {
    var a, b := w / 2, h / 2;
    assert w == 2 * a && h == 2 * b;
    assert w * h == 4 * (a * b);
    assert w * h / 4 == a * b;
    assert (h - 1) / 2 == b - 1 && (w - 1) / 2 == a - 1;
    assert ChromaIndex(w, h - 1, w - 1) == (b - 1) * a + (a - 1);
    assert (b - 1) * a == a * b - a;
  }

  /** Pixel p of the frame, counted row by row, sits in row p / w and column p % w. */
  lemma RowColumn(w: nat, i: nat, j: nat)
    requires j < w
    ensures (w * i + j) / w == i && (w * i + j) % w == j
  {
    var p := w * i + j;
    var q, r := p / w, p % w;
    assert p == w * q + r;
    if q < i {
      MulMonotone(q + 1, i, w);
      assert false;
    } else if q > i {
      MulMonotone(i + 1, q, w);
      assert false;
    }
  }

  /** Luma sample of pixel (i, j): offset w*i + j of the luma plane. */
  function LumaAt(yuv: seq<Byte>, w: nat, h: nat, i: nat, j: nat): Byte
    requires i < h && j < w && |yuv| >= ReadExtent(w, h)
  {
    PixelReadsInBounds(w, h, i, j);
    yuv[w * i + j]
  }

  /** V sample of pixel (i, j): read from the first chroma plane, which starts at w*h. */
  function ChromaVAt(yuv: seq<Byte>, w: nat, h: nat, i: nat, j: nat): Byte
    requires i < h && j < w && |yuv| >= ReadExtent(w, h)
  {
    PixelReadsInBounds(w, h, i, j);
    yuv[VPlaneStart(w, h) + ChromaIndex(w, i, j)]
  }

  /** U sample of pixel (i, j): read from the second chroma plane, which starts at w*h + w*h/4. */
  function ChromaUAt(yuv: seq<Byte>, w: nat, h: nat, i: nat, j: nat): Byte
    requires i < h && j < w && |yuv| >= ReadExtent(w, h)
  {
    PixelReadsInBounds(w, h, i, j);
    yuv[UPlaneStart(w, h) + ChromaIndex(w, i, j)]
  }

  /** The colour the conversion computes for pixel (i, j). */
  function PixelAt(yuv: seq<Byte>, w: nat, h: nat, i: nat, j: nat): Bgr
    requires i < h && j < w && |yuv| >= ReadExtent(w, h)
  {
    ConvertPixel(LumaAt(yuv, w, h, i, j), ChromaUAt(yuv, w, h, i, j), ChromaVAt(yuv, w, h, i, j))
  }

  /** Pixel number p, counted row by row, lies inside the frame. */
  lemma PixelIndexInFrame(w: nat, h: nat, p: nat)
    requires p < w * h
    ensures w > 0 && 0 <= p / w < h && 0 <= p % w < w
  {
    if p / w >= h {
      MulMonotone(h, p / w, w);
      assert false;
    }
  }

  /** The colour of pixel number p, counted row by row. */
  function PixelByIndex(yuv: seq<Byte>, w: nat, h: nat, p: nat): Bgr
    requires p < w * h && |yuv| >= ReadExtent(w, h)
  {
    PixelIndexInFrame(w, h, p);
    var i, j := p / w, p % w;
    PixelAt(yuv, w, h, i, j)
  }

  /** Byte k of the converted frame: channel k % 3 (B, G, R) of pixel k / 3. */
  function FrameByte(yuv: seq<Byte>, w: nat, h: nat, k: nat): Byte
    requires k < 3 * (w * h) && |yuv| >= ReadExtent(w, h)
  {
    var px := PixelByIndex(yuv, w, h, k / 3);
    if k % 3 == 0 then px.b else if k % 3 == 1 then px.g else px.r
  }

  /** The whole converted frame, 3*w*h bytes. */
  function Rgb24Frame(yuv: seq<Byte>, w: nat, h: nat): (s: seq<Byte>)
    requires |yuv| >= ReadExtent(w, h)
    ensures |s| == 3 * (w * h)
    ensures forall k :: 0 <= k < |s| ==> s[k] == FrameByte(yuv, w, h, k)
  {
    seq(3 * (w * h), k requires 0 <= k < 3 * (w * h) => FrameByte(yuv, w, h, k))
  }

  /** Output bytes 3*p, 3*p + 1 and 3*p + 2 hold the B, G and R of pixel number p. */
  lemma FrameByteChannels(yuv: seq<Byte>, w: nat, h: nat, p: nat)
    requires p < w * h && |yuv| >= ReadExtent(w, h)
    ensures 3 * p + 2 < 3 * (w * h)
    ensures FrameByte(yuv, w, h, 3 * p) == PixelByIndex(yuv, w, h, p).b
    ensures FrameByte(yuv, w, h, 3 * p + 1) == PixelByIndex(yuv, w, h, p).g
    ensures FrameByte(yuv, w, h, 3 * p + 2) == PixelByIndex(yuv, w, h, p).r
  {
    assert (3 * p) / 3 == p && (3 * p + 1) / 3 == p && (3 * p + 2) / 3 == p;
    assert (3 * p) % 3 == 0 && (3 * p + 1) % 3 == 1 && (3 * p + 2) % 3 == 2;
  }

  /** Pixel (i, j) is pixel number w*i + j of the frame. */
  lemma PixelByIndexAt(yuv: seq<Byte>, w: nat, h: nat, i: nat, j: nat)
    requires i < h && j < w && |yuv| >= ReadExtent(w, h)
    ensures w * i + j < w * h
    ensures PixelByIndex(yuv, w, h, w * i + j) == PixelAt(yuv, w, h, i, j)
  {
    LumaInPlane(w, h, i, j);
    RowColumn(w, i, j);
  }

  /**
   * Pixel (i, j), pixel number p = w*i + j, occupies output bytes 3*p, 3*p + 1
   * and 3*p + 2, which hold its clamped B, G and R levels.
   */
  lemma FramePixelLayout(yuv: seq<Byte>, w: nat, h: nat, i: nat, j: nat, p: nat)
    requires i < h && j < w && |yuv| >= ReadExtent(w, h)
    requires p == w * i + j
    ensures 3 * p + 2 < 3 * (w * h)
    ensures FrameByte(yuv, w, h, 3 * p)
            == RgbAdjust(BlueLevel(LumaAt(yuv, w, h, i, j), ChromaUAt(yuv, w, h, i, j)))
    ensures FrameByte(yuv, w, h, 3 * p + 1)
            == RgbAdjust(GreenLevel(LumaAt(yuv, w, h, i, j), ChromaUAt(yuv, w, h, i, j), ChromaVAt(yuv, w, h, i, j)))
    ensures FrameByte(yuv, w, h, 3 * p + 2)
            == RgbAdjust(RedLevel(LumaAt(yuv, w, h, i, j), ChromaVAt(yuv, w, h, i, j)))
  {
    PixelByIndexAt(yuv, w, h, i, j);
    FrameByteChannels(yuv, w, h, p);
  }

  /** With both chroma samples at 128 every channel equals the luma sample: the pixel is grey. */
  lemma NeutralChromaIsGrey(y: Byte)
    ensures ConvertPixel(y, 128, 128) == Bgr(y, y, y)
  {
  }

  lemma RgbAdjustMonotone(a: real, b: real)
    requires a <= b
    ensures RgbAdjust(a) <= RgbAdjust(b)
  {
  }

  /** As written, raising V never lowers green (the V term is added to Y). */
  lemma GreenRisesWithV(y: Byte, u: Byte, v1: Byte, v2: Byte)
    requires v1 <= v2
    ensures ConvertPixel(y, u, v1).g <= ConvertPixel(y, u, v2).g
  {
    RgbAdjustMonotone(GreenLevel(y, u, v1), GreenLevel(y, u, v2));
  }

  /** Three stored bytes that match the frame cover the whole pixel. */
  lemma PixelStored(s: seq<Byte>, yuv: seq<Byte>, w: nat, h: nat, p: nat)
    requires p < w * h && |yuv| >= ReadExtent(w, h) && |s| >= 3 * p + 3
    requires s[3 * p] == FrameByte(yuv, w, h, 3 * p)
    requires s[3 * p + 1] == FrameByte(yuv, w, h, 3 * p + 1)
    requires s[3 * p + 2] == FrameByte(yuv, w, h, 3 * p + 2)
    ensures forall k :: 3 * p <= k < 3 * p + 3 ==> s[k] == FrameByte(yuv, w, h, k)
  {
    forall k | 3 * p <= k < 3 * p + 3
      ensures s[k] == FrameByte(yuv, w, h, k)
    {
      assert k == 3 * p || k == 3 * p + 1 || k == 3 * p + 2;
    }
  }

  /**
   * Write counts: when the bytes of the first p pixels have been written once and
   * no other, counting one store to each byte of pixel p extends that to p + 1 pixels.
   */
  lemma CountNextPixel(before: seq<nat>, after: seq<nat>, p: nat)
    requires 3 * p + 3 <= |before| == |after|
    requires forall k :: 0 <= k < |before| ==> before[k] == if k < 3 * p then 1 else 0
    requires forall k :: 0 <= k < |before| ==>
               after[k] == if 3 * p <= k < 3 * p + 3 then before[k] + 1 else before[k]
    ensures forall k :: 0 <= k < |after| ==> after[k] == if k < 3 * (p + 1) then 1 else 0
  {
  }

  /**
   * The body of the inner loop of CONVERT_YUV420PtoRGB24: reads the Y, V and U
   * samples of pixel (i, j) and stores its B, G and R bytes at 3*(w*i + j), +1, +2.
   * No other byte of rgb changes. `writes` counts the stores made to each byte so
   * far; each of the three stores adds one to the count of the byte it writes.
   */
  method StorePixel(yuv: seq<Byte>, rgb: array<Byte>, w: nat, h: nat, i: nat, j: nat,
                    ghost p: nat, ghost writes: seq<nat>)
    returns (ghost counted: seq<nat>)
    requires i < h && j < w && |yuv| >= ReadExtent(w, h)
    requires p == w * i + j
    requires rgb.Length >= 3 * (w * h) && |writes| == 3 * (w * h)
    modifies rgb
    ensures 3 * p + 3 <= 3 * (w * h)
    ensures forall k :: 3 * p <= k < 3 * p + 3 ==> rgb[k] == FrameByte(yuv, w, h, k)
    ensures forall k :: 0 <= k < rgb.Length && !(3 * p <= k < 3 * p + 3) ==> rgb[k] == old(rgb[k])
    ensures |counted| == |writes|
    ensures forall k :: 0 <= k < |writes| ==>
              counted[k] == if 3 * p <= k < 3 * p + 3 then writes[k] + 1 else writes[k]
  {
    FramePixelLayout(yuv, w, h, i, j, p);
    var y := LumaAt(yuv, w, h, i, j);        // *(yPlane + nWidth * i + j)
    var v := ChromaVAt(yuv, w, h, i, j);     // *(uPlane + (i>>1) * u_width + (j>>1))
    var u := ChromaUAt(yuv, w, h, i, j);     // *(vPlane + (i>>1) * u_width + (j>>1))
    var r := RgbAdjust(RedLevel(y, v));
    var g := RgbAdjust(GreenLevel(y, u, v));
    var b := RgbAdjust(BlueLevel(y, u));
    var offset := (w * 3) * i + j * 3;      // rgb_width * i + j * 3
    RowStride(w, i);
    assert offset == 3 * p;
    counted := writes;
    rgb[offset] := b;
    counted := counted[offset := counted[offset] + 1];
    rgb[offset + 1] := g;
    counted := counted[offset + 1 := counted[offset + 1] + 1];
    rgb[offset + 2] := r;
    counted := counted[offset + 2 := counted[offset + 2] + 1];
    PixelStored(rgb[..], yuv, w, h, p);
  }

  /**
   * CONVERT_YUV420PtoRGB24: fills the first 3*w*h bytes of rgb with the converted
   * frame, writing each of them exactly once (`writes` counts the stores per byte,
   * incremented by StorePixel at each store),
   * and leaves the rest of rgb as it was.
   */
  method ConvertYuv420PToRgb24(yuv: seq<Byte>, rgb: array<Byte>, w: nat, h: nat)
    returns (ghost writes: seq<nat>)
    requires |yuv| >= ReadExtent(w, h)
    requires rgb.Length >= 3 * (w * h)
    modifies rgb
    ensures rgb[..3 * (w * h)] == Rgb24Frame(yuv, w, h)
    ensures rgb[3 * (w * h)..] == old(rgb[3 * (w * h)..])
    ensures |writes| == 3 * (w * h) && forall k :: 0 <= k < |writes| ==> writes[k] == 1
  {
    var n := 3 * (w * h);
    writes := seq(n, _ => 0);
    ghost var p := 0;         // pixels converted so far
    var i := 0;
    while i < h
      invariant 0 <= i <= h
      invariant p == w * i <= w * h
      invariant forall k :: 0 <= k < 3 * p ==> rgb[k] == FrameByte(yuv, w, h, k)
      invariant forall k :: 3 * p <= k < rgb.Length ==> rgb[k] == old(rgb[k])
      invariant |writes| == n
      invariant forall k :: 0 <= k < n ==> writes[k] == if k < 3 * p then 1 else 0
    {
      var j := 0;
      while j < w
        invariant 0 <= j <= w
        invariant p == w * i + j <= w * h
        invariant forall k :: 0 <= k < 3 * p ==> rgb[k] == FrameByte(yuv, w, h, k)
        invariant forall k :: 3 * p <= k < rgb.Length ==> rgb[k] == old(rgb[k])
        invariant |writes| == n
        invariant forall k :: 0 <= k < n ==> writes[k] == if k < 3 * p then 1 else 0
      {
        ghost var before := writes;
        writes := StorePixel(yuv, rgb, w, h, i, j, p, writes);
        CountNextPixel(before, writes, p);
        p := p + 1;
        j := j + 1;
      }
      NextRow(w, h, i);
      i := i + 1;
    }
  }
}
