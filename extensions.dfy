/**
 * The pixel-buffer conversions of the Kinect v2 driver: each one turns the
 * 16-bit samples (or the BGRA bytes) of one frame into the buffer and the
 * stride that are handed to the bitmap constructor.
 *
 * The frame's sample array, its width and height and its reliable depth
 * window are inputs standing in for the frame accessors; the conversions
 * copy the samples into a local array exactly as the driver does and then
 * run the driver's loops over that array.
 */
module Extensions {

  newtype uint8 = x: int | 0 <= x < 0x100
  newtype uint16 = x: int | 0 <= x < 0x1_0000

  /** The two pixel formats the conversions produce. */
  datatype PixelFormat = Bgr32 | Gray16 {
    function BitsPerPixel(): nat {
      match this
      case Bgr32 => 32
      case Gray16 => 16
    }
  }

  // ---------------------------------------------------------------------
  // Buffer sizes and strides
  // ---------------------------------------------------------------------

  // Every size below starts from the pixel count `width * height`, which the
  // driver computes first (C# evaluates `*` and `/` left to right).

  /** Length of the colour buffer: bytes per pixel are rounded up first and
      only then multiplied by the pixel count, so this is exactly four bytes
      per pixel. */
  function ColorBufferLength(pixelCount: nat): (n: nat)
    ensures n == 4 * pixelCount
  {
    pixelCount * ((Bgr32.BitsPerPixel() + 7) / 8)
  }

  /** `width * height * (bits + 7) / 8` evaluated left to right, as the depth
      and infrared conversions write it: the rounding division comes last. */
  function PackedLength(pixelCount: nat, format: PixelFormat): nat
  {
    pixelCount * (format.BitsPerPixel() + 7) / 8
  }

  /** Byte length of the Bgr32 buffer of the depth and infrared conversions:
      39/8 bytes per pixel rather than 4, which still leaves room for the four
      bytes of every pixel. */
  function Bgr32ScratchLength(pixelCount: nat): (n: nat)
    ensures n == (39 * pixelCount) / 8
    ensures 4 * pixelCount <= n
  {
    PackedLength(pixelCount, Bgr32)
  }

  /** Element length of the 16-bit buffer of the Gray16 conversions: the byte
      count of the left-to-right formula halved, i.e. 23/16 elements per
      pixel, which is at least one per pixel. */
  function Gray16ScratchLength(pixelCount: nat): (n: nat)
    ensures n == (23 * pixelCount) / 16
    ensures pixelCount <= n
  {
    PackedLength(pixelCount, Gray16) / 2
  }

  /** Bytes per row as `width * bits / 8`. */
  function Stride(width: nat, format: PixelFormat): (s: nat)
    ensures format == Bgr32 ==> s == 4 * width
    ensures format == Gray16 ==> s == 2 * width
  {
    width * format.BitsPerPixel() / 8
  }

  // ---------------------------------------------------------------------
  // Per-sample grey levels
  // ---------------------------------------------------------------------

  /** How one 16-bit sample becomes the grey level of a Bgr32 pixel: a depth
      inside the reliable window keeps its low byte and any other depth is
      black; an infrared sample is shifted right by seven bits and cast to a
      byte, which drops the ninth bit. */
  datatype Intensity = DepthWindow(minDepth: uint16, maxDepth: uint16) | InfraredShift {
    function Of(sample: uint16): uint8 {
      match this
      case DepthWindow(lo, hi) => if lo <= sample <= hi then (sample as int % 256) as uint8 else 0
      case InfraredShift => ((sample as int / 128) % 256) as uint8
    }
  }

  /** The infrared shift yields up to 511; the byte cast keeps only the low
      eight bits, so every sample from 0x8000 on is 256 levels darker than its
      shifted value. */
  lemma InfraredIntensityTruncates(ir: uint16)
    ensures InfraredShift.Of(ir) as int == ir as int / 128 - (if ir >= 0x8000 then 256 else 0)
    ensures ir as int / 128 <= 511
  {
  }

  // ---------------------------------------------------------------------
  // Reference layout of a grey Bgr32 image
  // ---------------------------------------------------------------------

  /** One Bgr32 pixel of grey level `b`: blue, green and red equal `b`, the
      fourth byte is left at zero. */
  function Bgr32Pixel(b: uint8): seq<uint8> {
    [b, b, b, 0]
  }

  /** The pixels of `samples`, one after another. */
  function GreyBgr32(samples: seq<uint16>, conv: Intensity): (r: seq<uint8>)
    ensures |r| == 4 * |samples|
    decreases |samples|
  {
    if samples == [] then []
    else GreyBgr32(samples[..|samples| - 1], conv) + Bgr32Pixel(conv.Of(samples[|samples| - 1]))
  }

  /** `n` zero bytes. */
  function Zeros(n: nat): (r: seq<uint8>)
    ensures |r| == n
  {
    seq(n, _ => 0)
  }

  /** Sample `i` occupies bytes `4i` to `4i+3` of the image: three copies of
      its grey level followed by a zero byte. */
  lemma {:induction false} GreyBgr32At(samples: seq<uint16>, conv: Intensity, i: nat)
    requires i < |samples|
    ensures var r := GreyBgr32(samples, conv);
      && r[4 * i] == conv.Of(samples[i])
      && r[4 * i + 1] == conv.Of(samples[i])
      && r[4 * i + 2] == conv.Of(samples[i])
      && r[4 * i + 3] == 0
  {
    var n := |samples| - 1;
    if i < n {
      var prefix := samples[..n];
      GreyBgr32At(prefix, conv, i);
      assert prefix[i] == samples[i];
    }
  }

  /** The whole byte buffer of a depth or infrared conversion, pointwise: the
      pixel bytes of every sample, a zero fourth byte, and zeros after the
      last pixel. */
  lemma GreyBufferAt(samples: seq<uint16>, conv: Intensity, len: nat, k: nat)
    requires 4 * |samples| <= len
    requires k < len
    ensures var buf := GreyBgr32(samples, conv) + Zeros(len - 4 * |samples|);
      buf[k] == if k < 4 * |samples| && k % 4 < 3 then conv.Of(samples[k / 4]) else 0
  {
    if k < 4 * |samples| {
      GreyBgr32At(samples, conv, k / 4);
    }
  }

  /** Bytes `4j` to `4j+3` of `buf` hold one pixel of grey level `b`. */
  ghost predicate IsPixel(buf: seq<uint8>, j: nat, b: uint8) {
    4 * j + 3 < |buf| && buf[4 * j] == b && buf[4 * j + 1] == b && buf[4 * j + 2] == b && buf[4 * j + 3] == 0
  }

  /** A buffer that holds, pixel by pixel, the grey levels of `samples`
      starts with the reference image of `samples`. */
  lemma {:induction false} GreyPrefixFromPixels(buf: seq<uint8>, samples: seq<uint16>, conv: Intensity)
    requires 4 * |samples| <= |buf|
    requires forall j :: 0 <= j < |samples| ==> IsPixel(buf, j, conv.Of(samples[j]))
    ensures buf[..4 * |samples|] == GreyBgr32(samples, conv)
  {
    var n := |samples|;
    if n > 0 {
      var last := n - 1;
      assert IsPixel(buf, last, conv.Of(samples[last]));
      forall j | 0 <= j < last
        ensures IsPixel(buf, j, conv.Of(samples[..last][j]))
      {
        assert IsPixel(buf, j, conv.Of(samples[j]));
      }
      GreyPrefixFromPixels(buf, samples[..last], conv);
      assert buf[..4 * n] == buf[..4 * last] + buf[4 * last..4 * n];
    }
  }

  /** ... and, when every byte after the pixels is zero, it is that image
      padded with zeros. */
  lemma GreyBufferFromPixels(buf: seq<uint8>, samples: seq<uint16>, conv: Intensity)
    requires 4 * |samples| <= |buf|
    requires forall j :: 0 <= j < |samples| ==> IsPixel(buf, j, conv.Of(samples[j]))
    requires forall k :: 4 * |samples| <= k < |buf| ==> buf[k] == 0
    ensures buf == GreyBgr32(samples, conv) + Zeros(|buf| - 4 * |samples|)
  {
    GreyPrefixFromPixels(buf, samples, conv);
    assert buf == buf[..4 * |samples|] + buf[4 * |samples|..];
  }

  // ---------------------------------------------------------------------
  // The conversions
  // ---------------------------------------------------------------------

  /** Colour frame to Bgr32: the buffer is sized four bytes per pixel and the
      frame's BGRA bytes are copied into it unchanged. */
  method ColorToBgr32(bgra: seq<uint8>, width: nat, height: nat) returns (pixels: array<uint8>, stride: nat)
    requires |bgra| == ColorBufferLength(width * height)
    ensures pixels.Length == 4 * (width * height)
    ensures pixels[..] == bgra
    ensures stride == 4 * width
  {
    var length := ColorBufferLength(width * height);
    pixels := new uint8[length](i requires 0 <= i < length => bgra[i]);
    stride := Stride(width, Bgr32);
  }

  /** The loop shared by the depth and infrared conversions: a zeroed buffer
      of `width * height * (32 + 7) / 8` bytes is filled pixel by pixel, a
      running colour index advancing over blue, green and red and then
      skipping the fourth byte. */
  method FillGreyBgr32(pixelData: array<uint16>, conv: Intensity) returns (pixels: array<uint8>)
    ensures pixels.Length == Bgr32ScratchLength(pixelData.Length)
    ensures forall j :: 0 <= j < pixelData.Length ==> IsPixel(pixels[..], j, conv.Of(pixelData[j]))
    ensures forall k :: 4 * pixelData.Length <= k < pixels.Length ==> pixels[k] == 0
  {
    pixels := new uint8[PackedLength(pixelData.Length, Bgr32)];
    forall k | 0 <= k < pixels.Length {
      pixels[k] := 0;
    }

    var colorIndex := 0;
    for sampleIndex := 0 to pixelData.Length
      invariant colorIndex == 4 * sampleIndex
      invariant forall j :: 0 <= j < sampleIndex ==> IsPixel(pixels[..], j, conv.Of(pixelData[j]))
      invariant forall k :: colorIndex <= k < pixels.Length ==> pixels[k] == 0
    {
      var intensity := conv.Of(pixelData[sampleIndex]);

      pixels[colorIndex] := intensity; colorIndex := colorIndex + 1;  // blue
      pixels[colorIndex] := intensity; colorIndex := colorIndex + 1;  // green
      pixels[colorIndex] := intensity; colorIndex := colorIndex + 1;  // red

      colorIndex := colorIndex + 1;
    }

  }

  /** Depth frame to grey Bgr32: each sample becomes one pixel whose blue,
      green and red bytes hold its low byte when it lies in the reliable
      window and zero otherwise; the fourth byte and the slack at the end of
      the oversized buffer stay zero. */
  method DepthToBgr32(frameData: seq<uint16>, width: nat, height: nat, minDepth: uint16, maxDepth: uint16)
    returns (pixels: array<uint8>, stride: nat)
    requires |frameData| == width * height
    ensures pixels.Length == Bgr32ScratchLength(width * height)
    ensures pixels[..] == GreyBgr32(frameData, DepthWindow(minDepth, maxDepth)) + Zeros(pixels.Length - 4 * |frameData|)
    ensures stride == 4 * width
  {
    var count := width * height;
    var pixelData := new uint16[count](i requires 0 <= i < count => frameData[i]);
    assert pixelData[..] == frameData;
    pixels := FillGreyBgr32(pixelData, DepthWindow(minDepth, maxDepth));
    forall j | 0 <= j < |frameData|
      ensures IsPixel(pixels[..], j, DepthWindow(minDepth, maxDepth).Of(frameData[j]))
    {
      assert pixelData[j] == frameData[j];
    }
    GreyBufferFromPixels(pixels[..], frameData, DepthWindow(minDepth, maxDepth));
    stride := Stride(width, Bgr32);
  }

  /** Depth frame to Gray16 without clamping: each sample is multiplied by 7
      and cast back to 16 bits (wrapping round), the slack after the last
      sample stays zero. */
  method DepthToGray16Scaled(frameData: seq<uint16>, width: nat, height: nat)
    returns (pixels: array<uint16>, stride: nat)
    requires |frameData| == width * height
    ensures pixels.Length == Gray16ScratchLength(width * height)
    ensures forall i :: 0 <= i < |frameData| ==> pixels[i] as int == (frameData[i] as int * 7) % 0x1_0000
    ensures forall i :: |frameData| <= i < pixels.Length ==> pixels[i] == 0
    ensures stride == 2 * width
  {
    var count := width * height;
    var pixelData := new uint16[count](i requires 0 <= i < count => frameData[i]);
    pixels := new uint16[PackedLength(count, Gray16) / 2](_ => 0);
    assert forall i :: 0 <= i < count ==> pixelData[i] == frameData[i];

    var multiplier := 7;

    for depthIndex := 0 to pixelData.Length
      modifies pixels
      invariant forall i :: 0 <= i < depthIndex ==> pixels[i] as int == (pixelData[i] as int * 7) % 0x1_0000
      invariant forall i :: depthIndex <= i < pixels.Length ==> pixels[i] == 0
    {
      pixels[depthIndex] := ((pixelData[depthIndex] as int * multiplier) % 0x1_0000) as uint16;
    }

    stride := Stride(width, Gray16);
  }

  /** Depth frame to Gray16, original version: the frame's samples are passed
      on unmodified; the scratch buffer it allocates is never written or
      used. */
  method DepthToGray16Original(frameData: seq<uint16>, width: nat, height: nat)
    returns (image: array<uint16>, stride: nat)
    requires |frameData| == width * height
    ensures image.Length == width * height
    ensures image[..] == frameData
    ensures stride == 2 * width
  {
    var count := width * height;
    var pixelData := new uint16[count](i requires 0 <= i < count => frameData[i]);
    var pixels := new uint16[PackedLength(count, Gray16) / 2](_ => 0);

    stride := Stride(width, Gray16);
    image := pixelData;
  }

  /** Infrared frame to grey Bgr32: like the depth conversion, with the grey
      level taken from the sample shifted right by seven bits and truncated to
      a byte. */
  method InfraredToBgr32(frameData: seq<uint16>, width: nat, height: nat)
    returns (pixels: array<uint8>, stride: nat)
    requires |frameData| == width * height
    ensures pixels.Length == Bgr32ScratchLength(width * height)
    ensures pixels[..] == GreyBgr32(frameData, InfraredShift) + Zeros(pixels.Length - 4 * |frameData|)
    ensures stride == 4 * width
  {
    var count := width * height;
    var frameDataArray := new uint16[count](i requires 0 <= i < count => frameData[i]);
    assert frameDataArray[..] == frameData;
    pixels := FillGreyBgr32(frameDataArray, InfraredShift);
    forall j | 0 <= j < |frameData|
      ensures IsPixel(pixels[..], j, InfraredShift.Of(frameData[j]))
    {
      assert frameDataArray[j] == frameData[j];
    }
    GreyBufferFromPixels(pixels[..], frameData, InfraredShift);
    stride := Stride(width, Bgr32);
  }
}
