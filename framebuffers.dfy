/** The `Framebuffer` of src/application.cpp: `width * height` pixels of three bytes each,
    stored row by row, cleared in place and written one pixel at a time. */
module Framebuffers {
  import opened Numerics
  import opened Geometry

  /** `uint8_t`. */
  newtype byte = x: int | 0 <= x < 256

  /** The conversion to `uint8_t` is defined when the truncated value fits: `min(1, c) * 255`
      must exceed -1 (it is at most 255 anyway). */
  predicate ChannelDefined(c: real) {
    -1.0 < Min(1.0, c) * 255.0
  }

  /** `static_cast<uint8_t>(std::min(1.0f, c) * 255)`: the upper clamp, then truncation
      toward zero, which is the floor from 0 up and 0 on (-1, 0). */
  function ToByte(c: real): (b: byte)
    requires ChannelDefined(c)
    ensures 0.0 <= c ==> b as real <= Min(1.0, c) * 255.0 < b as real + 1.0
    ensures c < 0.0 ==> b == 0
    ensures 1.0 <= c ==> b == 255
  {
    if c < 0.0 then 0 else (Min(1.0, c) * 255.0).Floor as byte
  }

  /** Exactly the channels above `-1/255` can be converted. */
  lemma ChannelDefinedRange(c: real)
    ensures ChannelDefined(c) <==> -1.0 / 255.0 < c
  {
  }

  /** The first of the three bytes of pixel `(x, y)`. */
  function PixelIndex(width: int, x: int, y: int): int {
    (y * width + x) * 3
  }

  /** A pixel's three bytes lie inside the buffer. */
  lemma PixelInBuffer(width: int, height: int, x: int, y: int)
    requires 0 <= x < width && 0 <= y < height
    ensures 0 <= PixelIndex(width, x, y) && PixelIndex(width, x, y) + 2 < width * height * 3
  {
    RowBound(width, height, x, y);
  }

  lemma RowBound(width: int, height: int, x: int, y: int)
    requires 0 <= x < width && 0 <= y < height
    ensures 0 <= y * width + x < width * height
  {
    calc {
      y * width + x;
      < y * width + width;
      == (y + 1) * width;
      <= { MultiplyMonotone(y + 1, height, width); } height * width;
    }
  }

  lemma MultiplyMonotone(a: int, b: int, k: int)
    requires a <= b && 0 <= k
    ensures a * k <= b * k
  {
  }

  /** Distinct pixels own disjoint byte triples: a byte offset determines its pixel and
      channel. */
  lemma PixelsDisjoint(width: int, height: int, x1: int, y1: int, c1: int, x2: int, y2: int, c2: int)
    requires 0 <= x1 < width && 0 <= y1 < height && 0 <= c1 < 3
    requires 0 <= x2 < width && 0 <= y2 < height && 0 <= c2 < 3
    requires PixelIndex(width, x1, y1) + c1 == PixelIndex(width, x2, y2) + c2
    ensures x1 == x2 && y1 == y2 && c1 == c2
  {
    var k1, k2 := y1 * width + x1, y2 * width + x2;
    assert k1 * 3 + c1 == k2 * 3 + c2;
    assert k1 == k2 && c1 == c2;
    if y1 < y2 {
      RowsOrdered(width, x1, y1, x2, y2);
    } else if y2 < y1 {
      RowsOrdered(width, x2, y2, x1, y1);
    }
  }

  /** Every pixel of an earlier row comes before every pixel of a later one. */
  lemma RowsOrdered(width: int, x1: int, y1: int, x2: int, y2: int)
    requires 0 <= x1 < width && 0 <= x2 && y1 < y2
    ensures y1 * width + x1 < y2 * width + x2
  {
    calc {
      y1 * width + x1;
      < (y1 + 1) * width;
      <= { MultiplyMonotone(y1 + 1, y2, width); } y2 * width;
      <= y2 * width + x2;
    }
  }

  /** Every byte of the buffer belongs to some pixel and channel. */
  lemma ByteOwner(width: int, height: int, i: int)
    requires 0 < width && 0 <= height && 0 <= i < width * height * 3
    ensures var k := i / 3;
      var x, y, c := k % width, k / width, i % 3;
      0 <= x < width && 0 <= y < height && 0 <= c < 3 && PixelIndex(width, x, y) + c == i
  {
    var k := i / 3;
    var x, y := k % width, k / width;
    assert k == y * width + x;
    if height <= y {
      MultiplyMonotone(height, y, width);
      assert false;
    }
  }

  /** Distinct pixels never share a byte. */
  lemma PixelsApart(width: int, height: int, x1: int, y1: int, c1: int, x2: int, y2: int, c2: int)
    requires 0 <= x1 < width && 0 <= y1 < height && 0 <= c1 < 3
    requires 0 <= x2 < width && 0 <= y2 < height && 0 <= c2 < 3
    requires x1 != x2 || y1 != y2
    ensures PixelIndex(width, x1, y1) + c1 != PixelIndex(width, x2, y2) + c2
  {
    if y1 < y2 {
      RowsOrdered(width, x1, y1, x2, y2);
    } else if y2 < y1 {
      RowsOrdered(width, x2, y2, x1, y1);
    }
    assert y1 * width + x1 != y2 * width + x2;
  }

  /** Each byte of another pixel lies before or after the bytes of pixel `(x, y)`. */
  lemma ByteOutside(width: int, height: int, x: int, y: int, px: int, py: int, c: int)
    requires 0 <= x < width && 0 <= y < height && 0 <= px < width && 0 <= py < height
    requires (px != x || py != y) && 0 <= c < 3
    ensures var i, j := PixelIndex(width, x, y), PixelIndex(width, px, py);
      j + c < i || i + 2 < j + c
  {
    PixelsApart(width, height, px, py, c, x, y, 0);
    PixelsApart(width, height, px, py, c, x, y, 1);
    PixelsApart(width, height, px, py, c, x, y, 2);
  }

  /** The three bytes of pixel `(x, y)` lie in the buffer and hold the converted channels
      of a colour whose channels can all be converted. */
  predicate PixelHolds(buffer: seq<byte>, width: int, x: int, y: int, color: Vec3) {
    var i := PixelIndex(width, x, y);
    0 <= i && i + 2 < |buffer| &&
    ChannelDefined(color.x) && ChannelDefined(color.y) && ChannelDefined(color.z) &&
    buffer[i] == ToByte(color.x) && buffer[i + 1] == ToByte(color.y) && buffer[i + 2] == ToByte(color.z)
  }

  /** Writing the bytes of pixel `(x, y)` and no others keeps what every other pixel
      holds. */
  lemma OtherPixelKept(before: seq<byte>, after: seq<byte>, width: int, height: int,
                       x: int, y: int, px: int, py: int, color: Vec3)
    requires |after| == |before|
    requires 0 <= x < width && 0 <= y < height && 0 <= px < width && 0 <= py < height
    requires px != x || py != y
    requires forall i :: 0 <= i < |after| && (i < PixelIndex(width, x, y) || PixelIndex(width, x, y) + 2 < i) ==>
      after[i] == before[i]
    requires PixelHolds(before, width, px, py, color)
    ensures PixelHolds(after, width, px, py, color)
  {
    ByteOutside(width, height, x, y, px, py, 0);
    ByteOutside(width, height, x, y, px, py, 1);
    ByteOutside(width, height, x, y, px, py, 2);
  }

  class Framebuffer {
    const width: int
    const height: int
    const buffer: array<byte>

    /** The buffer holds three bytes per pixel. */
    predicate Valid()
      reads this
    {
      0 <= width && 0 <= height && buffer.Length == width * height * 3
    }

    /** `Framebuffer(width, height)`: `width * height * 3` zero bytes. */
    constructor(width: int, height: int)
      requires 0 <= width && 0 <= height
      ensures this.width == width && this.height == height && Valid()
      ensures fresh(buffer) && forall i :: 0 <= i < buffer.Length ==> buffer[i] == 0
    {
      this.width := width;
      this.height := height;
      buffer := new byte[width * height * 3](_ => 0);
    }

    /** `clear`: every byte becomes 0. */
    method Clear()
      requires Valid()
      modifies buffer
      ensures forall i :: 0 <= i < buffer.Length ==> buffer[i] == 0
    {
      var i := 0;
      while i < buffer.Length
        invariant 0 <= i <= buffer.Length
        invariant forall j :: 0 <= j < i ==> buffer[j] == 0
      {
        buffer[i] := 0;
        i := i + 1;
      }
    }

    /** `setPixel(x, y, color)`: the pixel's three bytes take the clamped channels and no
        other byte changes.  A channel of `-1/255` or below has no defined byte. */
    method SetPixel(x: int, y: int, color: Vec3)
      requires Valid() && 0 <= x < width && 0 <= y < height
      requires ChannelDefined(color.x) && ChannelDefined(color.y) && ChannelDefined(color.z)
      modifies buffer
      ensures 0 <= PixelIndex(width, x, y) && PixelIndex(width, x, y) + 2 < buffer.Length
      ensures PixelHolds(buffer[..], width, x, y, color)
      ensures forall i :: 0 <= i < buffer.Length && (i < PixelIndex(width, x, y) || PixelIndex(width, x, y) + 2 < i) ==>
        buffer[i] == old(buffer[i])
    {
      PixelInBuffer(width, height, x, y);
      var index := (y * width + x) * 3;
      buffer[index] := ToByte(color.x);
      buffer[index + 1] := ToByte(color.y);
      buffer[index + 2] := ToByte(color.z);
    }
  }
}
