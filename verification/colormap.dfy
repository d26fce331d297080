/**
 Hit-testing against the keyboard's colour map.

 The colour map is an RGBA image of logical size Width x Height whose red
 channel holds the index of the key drawn at that pixel. Transparent pixels
 (red 0, alpha 0) lie outside every key; because red 0 is also the encoding of
 key 0, the alpha channel tells the two apart.
 */
module ColorMap {

  /** Logical size of the colour map, in pixels. */
  const Width: int := 689
  const Height: int := 200

  /** Bytes per pixel: red, green, blue, alpha. */
  const Channels: int := 4

  /** Length of the pixel buffer of a fully decoded colour map. */
  const BufferLength: int := Width * Height * Channels

  /** The "no key" result of a hit-test. */
  const NoKey: int := -1

  /** Every entry of the buffer is an 8-bit channel value. */
  predicate Bytes(data: seq<int>) {
    forall j :: 0 <= j < |data| ==> 0 <= data[j] < 256
  }

  predicate InBounds(x: int, y: int) {
    0 <= x < Width && 0 <= y < Height
  }

  /** Index of the red byte of pixel (x, y), rows stored one after another. */
  function Offset(x: int, y: int): int {
    (x + y * Width) * Channels
  }

  /** The pixel at (x, y) is present in the buffer and fully transparent with red 0. */
  predicate Transparent(data: seq<int>, x: int, y: int) {
    var i := Offset(x, y);
    0 <= i && i + 3 < |data| && data[i] == 0 && data[i + 3] == 0
  }

  /**
   The key index at logical coordinate (x, y), or NoKey.

   Coordinates outside the image and offsets past the end of the buffer give
   NoKey. A non-zero red byte is the key index itself. A zero red byte is key 0
   unless the alpha byte reads 0; an alpha byte past the end of the buffer is
   not 0 (keyboard.js compares an absent element with 0), so it reads as key 0.
   */
  function IndexAt(data: seq<int>, x: int, y: int): (r: int)
    ensures !InBounds(x, y) ==> r == NoKey
    ensures InBounds(x, y) && Offset(x, y) >= |data| ==> r == NoKey
    ensures InBounds(x, y) && Offset(x, y) < |data| && data[Offset(x, y)] != 0 ==>
              r == data[Offset(x, y)]
    ensures InBounds(x, y) && Offset(x, y) < |data| && data[Offset(x, y)] == 0 ==>
              (r == NoKey <==> Transparent(data, x, y)) && (r != NoKey ==> r == 0)
    ensures Bytes(data) ==> NoKey <= r < 256
    ensures Bytes(data) ==>
              (r == NoKey <==> !InBounds(x, y) || Offset(x, y) >= |data| || Transparent(data, x, y))
  {
    if x < 0 || y < 0 || x >= Width || y >= Height then
      NoKey
    else
      var i := Offset(x, y);
      if i >= |data| then
        NoKey
      else if data[i] == 0 then
        if i + 3 < |data| && data[i + 3] == 0 then NoKey else 0
      else
        data[i]
  }

  /** One RGBA sample. */
  datatype Pixel = Pixel(red: int, green: int, blue: int, alpha: int)

  /** The pixel the colour map uses to encode hit-test result h. */
  function Encode(h: int): (p: Pixel)
    requires NoKey <= h < 256
    ensures 0 <= p.red < 256 && 0 <= p.alpha < 256
    ensures h == NoKey <==> p.alpha == 0
  {
    if h == NoKey then Pixel(0, 0, 0, 0) else Pixel(h, 0, 0, 255)
  }

  /** The buffer with pixel (x, y) overwritten by p. */
  function Paint(data: seq<int>, x: int, y: int, p: Pixel): (d: seq<int>)
    requires InBounds(x, y) && Offset(x, y) + 3 < |data|
    ensures |d| == |data|
    ensures d[Offset(x, y)] == p.red && d[Offset(x, y) + 3] == p.alpha
    ensures forall j :: 0 <= j < |data| && !(Offset(x, y) <= j < Offset(x, y) + Channels) ==>
              d[j] == data[j]
  {
    var i := Offset(x, y);
    data[i := p.red][i + 1 := p.green][i + 2 := p.blue][i + 3 := p.alpha]
  }

  /** Every in-bounds pixel of a fully decoded colour map lies inside the buffer. */
  lemma FullBufferCoversImage(x: int, y: int)
    requires InBounds(x, y)
    ensures 0 <= Offset(x, y) && Offset(x, y) + 3 < BufferLength
  {
  }

  /** Distinct in-bounds pixels occupy disjoint groups of Channels bytes. */
  lemma OffsetsDisjoint(x: int, y: int, x': int, y': int)
    requires InBounds(x, y) && InBounds(x', y')
    requires (x, y) != (x', y')
    ensures Offset(x, y) + Channels <= Offset(x', y') || Offset(x', y') + Channels <= Offset(x, y)
  {
  }

  /** Painting the encoding of h at (x, y) makes the hit-test there answer h. */
  lemma PaintThenIndex(data: seq<int>, x: int, y: int, h: int)
    requires InBounds(x, y) && Offset(x, y) + 3 < |data|
    requires NoKey <= h < 256
    ensures IndexAt(Paint(data, x, y, Encode(h)), x, y) == h
  {
  }

  /** Painting one pixel leaves the hit-test of every other pixel unchanged. */
  lemma PaintElsewhere(data: seq<int>, x: int, y: int, p: Pixel, x': int, y': int)
    requires InBounds(x, y) && Offset(x, y) + 3 < |data|
    requires (x, y) != (x', y')
    ensures IndexAt(Paint(data, x, y, p), x', y') == IndexAt(data, x', y')
  {
  }

  /**
   On a fully decoded colour map the length guard never fires: an in-bounds
   coordinate is NoKey exactly when its pixel is transparent.
   */
  lemma FullBufferNoKey(data: seq<int>, x: int, y: int)
    requires |data| == BufferLength && Bytes(data)
    requires InBounds(x, y)
    ensures IndexAt(data, x, y) == NoKey <==> data[Offset(x, y)] == 0 && data[Offset(x, y) + 3] == 0
  {
  }
}
