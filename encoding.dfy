/**
  The pixel-to-tensor loop of `classifyImage` and `classifyPart3`: 200 x 200 packed ARGB
  pixels, walked row by row with a running pixel counter, each contributing red, green and
  blue scaled to [0, 1] to a float buffer whose position advances with every write.
*/
module Encoding {
  import opened Pixels

  /** `imageSize`: the side every picture is scaled to before encoding. */
  const ImageSize: nat := 200

  /** `200 * 200`: the length of the `IntArray` the bitmap's pixels are copied into. */
  const PixelCount: nat := 40000

  /** Tensor shape declared for the plants model: (1, 200, 200, 3), height-width-channel. */
  const PlantsShape: seq<nat> := [1, ImageSize, ImageSize, 3]

  /** Tensor shape declared for the Finale model: (1, 3, 200, 200), channel-first. */
  const FinaleShape: seq<nat> := [1, 3, ImageSize, ImageSize]

  /** Number of elements of a tensor of the given shape. */
  function Volume(shape: seq<nat>): nat {
    if shape == [] then 1 else shape[0] * Volume(shape[1..])
  }

  /** Both declared shapes have exactly as many elements as the buffer the loop fills. */
  lemma ShapesMatchBuffer()
    ensures Volume(PlantsShape) == 3 * PixelCount
    ensures Volume(FinaleShape) == 3 * PixelCount
  {
    assert Volume([ImageSize]) == 200;
    assert Volume([3]) == 3;
    assert Volume([ImageSize, 3]) == 600;
    assert Volume([3, ImageSize, ImageSize]) == 3 * PixelCount by {
      assert Volume([ImageSize, ImageSize]) == PixelCount;
    }
    assert Volume([ImageSize, ImageSize, 3]) == 3 * PixelCount;
  }

  /** Row-major position of the pixel in row `i`, column `j`. */
  function PixelIndex(i: nat, j: nat): nat { i * ImageSize + j }

  /** Buffer position of channel `c` of pixel `p` in the interleaved (per-pixel R, G, B) order. */
  function Slot(p: nat, c: nat): nat { 3 * p + c }

  /** Buffer position of channel `c` of pixel `p` in a channel-first layout (all red, then all green, then all blue). */
  function PlanarSlot(c: nat, p: nat): nat { c * PixelCount + p }

  /** The three values one pixel contributes, in write order. */
  function Rgb(p: Int32): seq<real> {
    [Scale(Red(p)), Scale(Green(p)), Scale(Blue(p))]
  }

  /** The buffer the loop produces from the pixels it has read, in reading order. */
  function Encode(pixels: seq<Int32>): (buf: seq<real>)
    ensures |buf| == 3 * |pixels|
  {
    if pixels == [] then [] else Encode(pixels[..|pixels| - 1]) + Rgb(pixels[|pixels| - 1])
  }

  /** The value at position 3p + c is channel c (red, green, blue) of pixel p. */
  lemma {:induction false} EncodeAt(pixels: seq<Int32>, p: nat, c: nat)
    requires p < |pixels| && c < 3
    ensures Encode(pixels)[Slot(p, c)] == Scale(Channel(pixels[p], c))
  {
    var n := |pixels| - 1;
    if p < n {
      EncodeAt(pixels[..n], p, c);
    }
  }

  /** Encoding streams: the pixels are consumed once each, in order, with no state carried between them. */
  lemma {:induction false} EncodeAppend(s: seq<Int32>, t: seq<Int32>)
    ensures Encode(s + t) == Encode(s) + Encode(t)
  {
    if t == [] {
      assert s + t == s;
    } else {
      var n := |t| - 1;
      assert (s + t)[..|s + t| - 1] == s + t[..n];
      assert (s + t)[|s + t| - 1] == t[n];
      assert t[..n] + [t[n]] == t;
      calc {
        Encode(s + t);
        Encode(s + t[..n]) + Rgb(t[n]);
        { EncodeAppend(s, t[..n]); }
        Encode(s) + Encode(t[..n]) + Rgb(t[n]);
        Encode(s) + Encode(t);
      }
    }
  }

  /** Every value written lies in [0, 1]. */
  lemma EncodeInUnitInterval(pixels: seq<Int32>)
    ensures forall k :: 0 <= k < |Encode(pixels)| ==> 0.0 <= Encode(pixels)[k] <= 1.0
  {
    forall k | 0 <= k < |Encode(pixels)|
      ensures 0.0 <= Encode(pixels)[k] <= 1.0
    {
      EncodeAt(pixels, k / 3, k % 3);
    }
  }

  /** Two pixel arrays with the same red, green and blue everywhere (alpha may differ). */
  predicate SameColours(s: seq<Int32>, t: seq<Int32>) {
    |s| == |t| && forall i :: 0 <= i < |s| ==> Red(s[i]) == Red(t[i]) && Green(s[i]) == Green(t[i]) && Blue(s[i]) == Blue(t[i])
  }

  /** Alpha never reaches the buffer: pixels with the same colour channels encode alike. */
  lemma EncodeIgnoresAlpha(s: seq<Int32>, t: seq<Int32>)
    requires SameColours(s, t)
    ensures Encode(s) == Encode(t)
  {
    forall k | 0 <= k < |Encode(s)|
      ensures Encode(s)[k] == Encode(t)[k]
    {
      EncodeAt(s, k / 3, k % 3);
      EncodeAt(t, k / 3, k % 3);
    }
  }

  /** No colour is lost: equal buffers come only from pixels with the same colour channels. */
  lemma EncodeKeepsColours(s: seq<Int32>, t: seq<Int32>)
    requires |s| == |t| && Encode(s) == Encode(t)
    ensures SameColours(s, t)
  {
    forall i | 0 <= i < |s|
      ensures Red(s[i]) == Red(t[i]) && Green(s[i]) == Green(t[i]) && Blue(s[i]) == Blue(t[i])
    {
      EncodeAt(s, i, 0);
      EncodeAt(t, i, 0);
      EncodeAt(s, i, 1);
      EncodeAt(t, i, 1);
      EncodeAt(s, i, 2);
      EncodeAt(t, i, 2);
    }
  }

  /**
    The nested loop: rows `i`, columns `j`, `intValues[pixel++]`, then three `putFloat`s,
    each advancing the buffer position by one.
  */
  method EncodePixels(intValues: array<Int32>) returns (buf: array<real>)
    requires intValues.Length == PixelCount
    ensures fresh(buf)
    ensures buf.Length == 3 * PixelCount
    ensures buf[..] == Encode(intValues[..])
    ensures forall i, j, c :: 0 <= i < ImageSize && 0 <= j < ImageSize && 0 <= c < 3 ==>
              buf[Slot(PixelIndex(i, j), c)] == Scale(Channel(intValues[PixelIndex(i, j)], c))
  {
    buf := new real[3 * PixelCount];
    var pixel := 0;
    var position := 0;
    for i := 0 to ImageSize
      invariant pixel == i * ImageSize && position == 3 * pixel
      invariant buf[..position] == Encode(intValues[..pixel])
    {
      for j := 0 to ImageSize
        invariant pixel == i * ImageSize + j && position == 3 * pixel
        invariant buf[..position] == Encode(intValues[..pixel])
      {
        ghost var before := buf[..position];
        var v := intValues[pixel];
        pixel := pixel + 1;
        buf[position] := Scale(Red(v));
        position := position + 1;
        buf[position] := Scale(Green(v));
        position := position + 1;
        buf[position] := Scale(Blue(v));
        position := position + 1;
        assert buf[..position] == before + Rgb(v);
        assert intValues[..pixel][..pixel - 1] == intValues[..pixel - 1];
      }
    }
    assert buf[..] == buf[..position];
    assert intValues[..] == intValues[..pixel];
    forall i, j, c | 0 <= i < ImageSize && 0 <= j < ImageSize && 0 <= c < 3
      ensures buf[Slot(PixelIndex(i, j), c)] == Scale(Channel(intValues[PixelIndex(i, j)], c))
    {
      EncodeAt(intValues[..], PixelIndex(i, j), c);
    }
  }

  /** `classifyImage`: the plants-model input, declared (1, 200, 200, 3). */
  method PreparePlantsInput(intValues: array<Int32>) returns (shape: seq<nat>, buf: array<real>)
    requires intValues.Length == PixelCount
    ensures fresh(buf)
    ensures shape == PlantsShape && Volume(shape) == buf.Length
    ensures buf[..] == Encode(intValues[..])
  {
    ShapesMatchBuffer();
    shape := PlantsShape;
    buf := EncodePixels(intValues);
  }

  /**
    `classifyPart3`: the Finale-model input, declared (1, 3, 200, 200) but filled by the same
    interleaved loop, so its buffer is the plants-model buffer for the same pixels.
  */
  method PrepareFinaleInput(intValues: array<Int32>) returns (shape: seq<nat>, buf: array<real>)
    requires intValues.Length == PixelCount
    ensures fresh(buf)
    ensures shape == FinaleShape && Volume(shape) == buf.Length
    ensures buf[..] == Encode(intValues[..])
  {
    ShapesMatchBuffer();
    shape := FinaleShape;
    buf := EncodePixels(intValues);
  }

  /**
    Under the declared channel-first shape, position 1 is the red value of pixel 1; the
    interleaved buffer holds the green value of pixel 0 there instead.
  */
  lemma FinaleBufferNotChannelFirst(pixels: seq<Int32>)
    requires |pixels| == PixelCount
    requires Green(pixels[0]) != Red(pixels[1])
    ensures Encode(pixels)[PlanarSlot(0, 1)] != Scale(Channel(pixels[1], 0))
  {
    EncodeAt(pixels, 0, 1);
  }

  /** An opaque pure-green pixel followed by opaque black ones. */
  function GreenThenBlack(): (pixels: seq<Int32>)
    ensures |pixels| == PixelCount
  {
    var green: Int32 := Argb(0xFF, 0, 0xFF, 0);
    var black: Int32 := Argb(0xFF, 0, 0, 0);
    [green] + seq(PixelCount - 1, _ => black)
  }

  /** A concrete case: under the channel-first reading, a green first pixel makes pixel 1 look fully red. */
  lemma FinaleGreenPixelScenario()
    ensures Encode(GreenThenBlack())[PlanarSlot(0, 1)] == 1.0
    ensures Scale(Channel(GreenThenBlack()[1], 0)) == 0.0
  {
    var pixels := GreenThenBlack();
    ArgbChannels(0xFF, 0, 0xFF, 0);
    ArgbChannels(0xFF, 0, 0, 0);
    EncodeAt(pixels, 0, 1);
  }

  /**
    A channel-first encoder: the same row-major walk, writing channel `c` of pixel `p` at
    `c * 40000 + p`, which is where a (1, 3, 200, 200) tensor holds element (0, c, i, j).
  */
  method EncodeChannelFirst(intValues: array<Int32>) returns (buf: array<real>)
    requires intValues.Length == PixelCount
    ensures fresh(buf)
    ensures buf.Length == 3 * PixelCount
    ensures forall c, p :: 0 <= c < 3 && 0 <= p < PixelCount ==>
              buf[PlanarSlot(c, p)] == Scale(Channel(intValues[p], c))
  {
    buf := new real[3 * PixelCount];
    var pixel := 0;
    for i := 0 to ImageSize
      invariant pixel == i * ImageSize
      invariant forall c, p :: 0 <= c < 3 && 0 <= p < pixel ==>
                  buf[PlanarSlot(c, p)] == Scale(Channel(intValues[p], c))
    {
      for j := 0 to ImageSize
        invariant pixel == i * ImageSize + j
        invariant forall c, p :: 0 <= c < 3 && 0 <= p < pixel ==>
                    buf[PlanarSlot(c, p)] == Scale(Channel(intValues[p], c))
      {
        var v := intValues[pixel];
        buf[PlanarSlot(0, pixel)] := Scale(Red(v));
        buf[PlanarSlot(1, pixel)] := Scale(Green(v));
        buf[PlanarSlot(2, pixel)] := Scale(Blue(v));
        pixel := pixel + 1;
      }
    }
  }
}
