/** The clipped rectangle painter behind the icon glyph. */
module Painter {
  import opened Crc32
  import opened Words
  import opened Wrappers
  import Png

  datatype Colour = Colour(r: Byte, g: Byte, b: Byte, a: Byte)

  /** A filled rectangle: corner, extent and colour; any integers, in or out of the canvas. */
  datatype Rect = Rect(x: int, y: int, w: int, h: int, colour: Colour) {
    predicate Covers(px: int, py: int) {
      x <= px < x + w && y <= py < y + h
    }
  }

  predicate IsCanvas(pixels: seq<Byte>, size: nat) {
    |pixels| == 4 * size * size
  }

  /** Whether the byte at index i belongs to a pixel inside the rectangle. */
  predicate Touches(rect: Rect, size: nat, i: nat)
    requires size > 0
  {
    rect.Covers(i / 4 % size, i / 4 / size)
  }

  function Channel(colour: Colour, c: int): Byte {
    if c == 0 then colour.r else if c == 1 then colour.g else if c == 2 then colour.b else colour.a
  }

  function PaintRect(pixels: seq<Byte>, size: nat, rect: Rect): (painted: seq<Byte>)
    requires IsCanvas(pixels, size)
    ensures IsCanvas(painted, size)
    ensures forall i :: 0 <= i < |pixels| ==>
      size > 0 && painted[i] == if Touches(rect, size, i) then Channel(rect.colour, i % 4) else pixels[i]
  {
    if size == 0 then pixels
    else
      var colour := rect.colour;
      seq(|pixels|, i requires 0 <= i < |pixels| =>
        if Touches(rect, size, i) then Channel(colour, i % 4) else pixels[i])
  }

  // ---- The program -----------------------------------------------------------

  lemma PixelIndex(size: nat, x: nat, y: nat)
    requires x < size && y < size
    ensures y * size + x < size * size
    ensures (y * size + x) / size == y && (y * size + x) % size == x
  {
    RowsBelow(size, y);
    DivModUnique(y * size + x, size, y, x);
  }

  lemma RowsBelow(size: nat, y: nat)
    requires y < size
    ensures y * size + size <= size * size
  {
    assert size * size == y * size + (size - y) * size;
    MultipleBound(size - y, size);
  }

  lemma {:induction false} DivModUnique(n: nat, d: nat, q: nat, r: nat)
    requires r < d && n == q * d + r
    ensures n / d == q && n % d == r
  {
    QuotientGap(q, n / d, d, r, n % d);
  }

  lemma QuotientGap(q: int, p: int, d: nat, r: nat, s: nat)
    requires r < d && s < d && q * d + r == p * d + s
    ensures q == p && r == s
  {
    assert (q - p) * d == s - r;
    MultipleBound(q - p, d);
  }

  lemma MultipleBound(k: int, d: nat)
    ensures k >= 1 ==> k * d >= d
    ensures k <= -1 ==> k * d + d <= 0
  {
  }

  method SetPixel(pixels: array<Byte>, size: nat, x: int, y: int, r: Byte, g: Byte, b: Byte, a: Byte := 255)
    requires IsCanvas(pixels[..], size)
    modifies pixels
    ensures pixels[..] == PaintRect(old(pixels[..]), size, Rect(x, y, 1, 1, Colour(r, g, b, a)))
  {
    ghost var rect := Rect(x, y, 1, 1, Colour(r, g, b, a));
    ghost var before := pixels[..];
    if x < 0 || y < 0 || x >= size || y >= size {
      OutsideUnchanged(before, size, rect);
      return;
    }
    PixelInArray(size, x, y);
    var i := (y * size + x) * 4;
    WriteFour(pixels, i, r, g, b, a);
    InsideWritten(before, pixels[..], size, rect, y * size + x);
  }

  method WriteFour(pixels: array<Byte>, i: nat, r: Byte, g: Byte, b: Byte, a: Byte)
    requires i + 4 <= pixels.Length
    modifies pixels
    ensures pixels[..] == old(pixels[..i]) + [r, g, b, a] + old(pixels[i + 4..])
  {
    pixels[i], pixels[i + 1], pixels[i + 2], pixels[i + 3] := r, g, b, a;
  }

  lemma PixelInArray(size: nat, x: nat, y: nat)
    requires x < size && y < size
    ensures 4 * (y * size + x) + 4 <= 4 * size * size
  {
    PixelIndex(size, x, y);
    Png.CanvasSize(size);
  }

  lemma OutsideUnchanged(before: seq<Byte>, size: nat, rect: Rect)
    requires IsCanvas(before, size) && rect.w == rect.h == 1
    requires rect.x < 0 || rect.y < 0 || rect.x >= size || rect.y >= size
    ensures PaintRect(before, size, rect) == before
  {
    forall k | 0 <= k < |before| ensures PaintRect(before, size, rect)[k] == before[k] {
      PixelOfByte(size, k);
    }
  }

  lemma {:induction false} InsideWritten(before: seq<Byte>, after: seq<Byte>, size: nat, rect: Rect, p: nat)
    requires IsCanvas(before, size) && |after| == |before| && rect.w == rect.h == 1
    requires 0 <= rect.x < size && 0 <= rect.y < size && p == rect.y * size + rect.x && 4 * p + 4 <= |before|
    requires after ==
      before[..4 * p] + [rect.colour.r, rect.colour.g, rect.colour.b, rect.colour.a] + before[4 * p + 4..]
    ensures after == PaintRect(before, size, rect)
  {
    var painted := PaintRect(before, size, rect);
    forall k | 0 <= k < |before| ensures after[k] == painted[k] {
      TouchesOnePixel(rect, size, p, k);
      QuarterOf(k, p);
    }
  }

  lemma QuarterOf(k: nat, p: nat)
    ensures k / 4 == p <==> 4 * p <= k < 4 * p + 4
    ensures k / 4 == p ==> k % 4 == k - 4 * p
  {
  }

  lemma {:induction false} TouchesOnePixel(rect: Rect, size: nat, p: nat, k: nat)
    requires rect.w == rect.h == 1 && 0 <= rect.x < size && 0 <= rect.y < size
    requires p == rect.y * size + rect.x && k < 4 * size * size
    ensures Touches(rect, size, k) <==> k / 4 == p
  {
    PixelOfByte(size, k);
    PixelIndex(size, rect.x, rect.y);
  }

  /** The pixel that a byte of the canvas belongs to. */
  lemma PixelOfByte(size: nat, i: nat)
    requires i < 4 * size * size
    ensures size > 0 && 0 <= i / 4 % size < size
    ensures 0 <= i / 4 / size < size
    ensures i / 4 == (i / 4 / size) * size + i / 4 % size
  {
    Png.CanvasSize(size);
    if i / 4 / size >= size {
      MultipleOrder(i / 4 / size, size, size);
    }
  }

  lemma MultipleOrder(p: nat, q: nat, d: nat)
    requires p >= q
    ensures p * d >= q * d
  {
    assert p * d == q * d + (p - q) * d;
  }

  method FillRect(pixels: array<Byte>, size: nat, x: int, y: int, w: int, h: int, r: Byte, g: Byte, b: Byte)
    requires IsCanvas(pixels[..], size)
    modifies pixels
    ensures pixels[..] == PaintRect(old(pixels[..]), size, Rect(x, y, w, h, Colour(r, g, b, 255)))
  {
    ghost var rect := Rect(x, y, w, h, Colour(r, g, b, 255));
    ghost var before := pixels[..];
    var dy := 0;
    while dy < h
      invariant 0 <= dy && (dy <= h || dy == 0)
      invariant pixels[..] == PaintRect(before, size, rect.(h := dy))
    {
      FillRow(pixels, size, x, y + dy, w, r, g, b);
      PaintTogether(before, size, rect.(h := dy), Rect(x, y + dy, w, 1, rect.colour), rect.(h := dy + 1));
      dy := dy + 1;
    }
  }

  /** The inner loop. */
  method FillRow(pixels: array<Byte>, size: nat, x: int, y: int, w: int, r: Byte, g: Byte, b: Byte)
    requires IsCanvas(pixels[..], size)
    modifies pixels
    ensures pixels[..] == PaintRect(old(pixels[..]), size, Rect(x, y, w, 1, Colour(r, g, b, 255)))
  {
    ghost var row := Rect(x, y, w, 1, Colour(r, g, b, 255));
    ghost var before := pixels[..];
    var dx := 0;
    while dx < w
      invariant 0 <= dx && (dx <= w || dx == 0)
      invariant pixels[..] == PaintRect(before, size, row.(w := dx))
    {
      SetPixel(pixels, size, x + dx, y, r, g, b);
      PaintTogether(before, size, row.(w := dx), Rect(x + dx, y, 1, 1, row.colour), row.(w := dx + 1));
      dx := dx + 1;
    }
  }

  /** Painting two parts of a rectangle paints the rectangle. */
  lemma PaintTogether(pixels: seq<Byte>, size: nat, first: Rect, second: Rect, whole: Rect)
    requires IsCanvas(pixels, size)
    requires first.colour == second.colour == whole.colour
    requires forall px, py :: whole.Covers(px, py) <==> first.Covers(px, py) || second.Covers(px, py)
    ensures PaintRect(PaintRect(pixels, size, first), size, second) == PaintRect(pixels, size, whole)
  {
  }

  // ---- What a picture shows -----------------------------------------------------

  function PaintAll(pixels: seq<Byte>, size: nat, rects: seq<Rect>): (painted: seq<Byte>)
    requires IsCanvas(pixels, size)
    ensures IsCanvas(painted, size)
  {
    if rects == [] then pixels
    else PaintRect(PaintAll(pixels, size, rects[..|rects| - 1]), size, rects[|rects| - 1])
  }

  /** A glyph: one rectangle after the other. */
  method FillRects(pixels: array<Byte>, size: nat, rects: seq<Rect>)
    requires IsCanvas(pixels[..], size)
    requires forall i :: 0 <= i < |rects| ==> rects[i].colour.a == 255
    modifies pixels
    ensures pixels[..] == PaintAll(old(pixels[..]), size, rects)
  {
    for k := 0 to |rects|
      invariant pixels[..] == PaintAll(old(pixels[..]), size, rects[..k])
    {
      var rect := rects[k];
      FillRect(pixels, size, rect.x, rect.y, rect.w, rect.h, rect.colour.r, rect.colour.g, rect.colour.b);
      assert rects[..k + 1][..k] == rects[..k];
    }
    assert rects[..|rects|] == rects;
  }

  /** The icon of a glyph. */
  method MakeIcon(checksum: Checksum, size: nat, rects: seq<Rect>)
      returns (file: Result<seq<Byte>, Png.EncodeError>)
    requires checksum.Valid()
    modifies checksum`table
    ensures checksum.Valid()
    ensures file == Png.Encode(size, PaintAll(Png.Background(size), size, rects))
  {
    file := Png.MakePng(checksum, size, p requires IsCanvas(p, size) => PaintAll(p, size, rects));
  }

  /** Rectangle k is around the point, and no later one is. */
  predicate IsLastAround(rects: seq<Rect>, k: int, px: int, py: int) {
    && 0 <= k < |rects|
    && rects[k].x <= px < rects[k].x + rects[k].w && rects[k].y <= py < rects[k].y + rects[k].h
    && forall j :: k < j < |rects| ==> !rects[j].Covers(px, py)
  }

  /** The rectangle on top at a point. */
  function Topmost(rects: seq<Rect>, px: int, py: int): (top: Option<Rect>)
    ensures top.Some? ==> exists k :: IsLastAround(rects, k, px, py) && rects[k] == top.value
    ensures top.None? ==> forall k :: 0 <= k < |rects| ==> !rects[k].Covers(px, py)
  {
    if rects == [] then None
    else
      var n := |rects| - 1;
      if rects[n].Covers(px, py) then
        assert IsLastAround(rects, n, px, py);
        Some(rects[n])
      else
        var top := Topmost(rects[..n], px, py);
        assert forall k :: IsLastAround(rects[..n], k, px, py) ==> IsLastAround(rects, k, px, py);
        top
  }

  lemma PaintedByte(pixels: seq<Byte>, size: nat, rect: Rect, px: nat, py: nat, c: nat)
    requires IsCanvas(pixels, size) && px < size && py < size && c < 4
    ensures 4 * (py * size + px) + c < |pixels|
    ensures PaintRect(pixels, size, rect)[4 * (py * size + px) + c] ==
      if rect.Covers(px, py) then Channel(rect.colour, c) else pixels[4 * (py * size + px) + c]
  {
    PixelInArray(size, px, py);
    PixelIndex(size, px, py);
    Png.ByteOfPixel(py * size + px, c);
  }

  lemma FourEither(painted: seq<Byte>, pixels: seq<Byte>, colour: Colour, i: nat, covered: bool)
    requires i + 4 <= |painted| == |pixels|
    requires painted[i + 0] == if covered then colour.r else pixels[i + 0]
    requires painted[i + 1] == if covered then colour.g else pixels[i + 1]
    requires painted[i + 2] == if covered then colour.b else pixels[i + 2]
    requires painted[i + 3] == if covered then colour.a else pixels[i + 3]
    ensures painted[i..i + 4] == if covered then [colour.r, colour.g, colour.b, colour.a] else pixels[i..i + 4]
  {
  }

  /** Painting a rectangle gives each pixel inside it the red, green, blue and opacity of its colour, in this
      order, and leaves the others; pixel (px, py) is the four bytes from 4 * (py * size + px) on. */
  lemma PaintedPixel(pixels: seq<Byte>, size: nat, rect: Rect, px: nat, py: nat)
    requires |pixels| == 4 * size * size && px < size && py < size
    ensures 4 * (py * size + px) + 4 <= |pixels|
    ensures PaintRect(pixels, size, rect)[4 * (py * size + px)..4 * (py * size + px) + 4] ==
      if rect.x <= px < rect.x + rect.w && rect.y <= py < rect.y + rect.h
      then [rect.colour.r, rect.colour.g, rect.colour.b, rect.colour.a]
      else pixels[4 * (py * size + px)..4 * (py * size + px) + 4]
  {
    PixelInArray(size, px, py);
    PaintedByte(pixels, size, rect, px, py, 0);
    PaintedByte(pixels, size, rect, px, py, 1);
    PaintedByte(pixels, size, rect, px, py, 2);
    PaintedByte(pixels, size, rect, px, py, 3);
    FourEither(PaintRect(pixels, size, rect), pixels, rect.colour, 4 * (py * size + px), rect.Covers(px, py));
  }

  /** After any sequence of rectangles, a pixel shows the last one that covers it, or what was there before. */
  lemma {:induction false} PaintAllShowsTopmost(pixels: seq<Byte>, size: nat, rects: seq<Rect>, px: nat, py: nat)
    requires |pixels| == 4 * size * size && px < size && py < size
    ensures 4 * (py * size + px) + 4 <= |pixels|
    ensures PaintAll(pixels, size, rects)[4 * (py * size + px)..4 * (py * size + px) + 4] ==
      match Topmost(rects, px, py)
      case Some(rect) => [rect.colour.r, rect.colour.g, rect.colour.b, rect.colour.a]
      case None => pixels[4 * (py * size + px)..4 * (py * size + px) + 4]
  {
    PixelInArray(size, px, py);
    if rects != [] {
      var rest, last := rects[..|rects| - 1], rects[|rects| - 1];
      PaintAllShowsTopmost(pixels, size, rest, px, py);
      PaintedPixel(PaintAll(pixels, size, rest), size, last, px, py);
    }
  }

  lemma IconDecodes(size: nat, rects: seq<Rect>) returns (file: seq<Byte>)
    requires 1 <= size && Png.DataLength(size) <= Png.MAX_PNG
    ensures Png.Encode(size, PaintAll(Png.Background(size), size, rects)) == Ok(file)
    ensures Png.Decode(file) == Ok(Png.Image(size, size, PaintAll(Png.Background(size), size, rects)))
  {
    var pixels := PaintAll(Png.Background(size), size, rects);
    Png.DecodeEncode(size, pixels);
    file := Png.Encode(size, pixels).value;
  }

  lemma IconPixel(size: nat, rects: seq<Rect>, px: nat, py: nat, i: nat)
    requires px < size && py < size && i == 4 * (py * size + px)
    ensures i + 4 <= 4 * size * size
    ensures PaintAll(Png.Background(size), size, rects)[i..i + 4] ==
      match Topmost(rects, px, py)
      case Some(rect) => [rect.colour.r, rect.colour.g, rect.colour.b, rect.colour.a]
      case None => [0x0F, 0x0F, 0x11, 0xFF]
  {
    PaintAllShowsTopmost(Png.Background(size), size, rects, px, py);
    PixelIndex(size, px, py);
    Png.BackgroundBytes(size, py * size + px);
  }

  /** The icon file of a picture made of rectangles decodes to an image that shows, at every
      pixel, the topmost rectangle or the background. */
  lemma IconShowsTopmost(size: nat, rects: seq<Rect>, px: nat, py: nat, i: nat)
      returns (file: seq<Byte>, image: Png.Image)
    requires 1 <= size && Png.DataLength(size) <= 0x7FFF_FFFF
    requires px < size && py < size && i == 4 * (py * size + px)
    ensures Png.Encode(size, PaintAll(Png.Background(size), size, rects)) == Ok(file)
    ensures Png.Decode(file) == Ok(image) && image.width == image.height == size && i + 4 <= |image.pixels|
    ensures image.pixels[i..i + 4] ==
      match Topmost(rects, px, py)
      case Some(rect) => [rect.colour.r, rect.colour.g, rect.colour.b, rect.colour.a]
      case None => [0x0F, 0x0F, 0x11, 0xFF]
  {
    file := IconDecodes(size, rects);
    IconPixel(size, rects, px, py, i);
    image := Png.Image(size, size, PaintAll(Png.Background(size), size, rects));
  }
}
