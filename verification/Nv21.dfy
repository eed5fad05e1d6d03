/**
 The NV21 to RGB565 converter: two pixels at a time over shared chroma, against
 a specification of one pixel and against the exact colour matrix.
 */
module Nv21 {
  import opened AudioSystem

  // ------------------------------------------------------------------- one pixel

  function Clamp(n: int): (r: int)
    ensures 0 <= r <= 255
  {
    if n < 0 then 0 else if n > 255 then 255 else n
  }

  datatype Rgb = Rgb(r: int, g: int, b: int)

  /** The converter's channels for luma and chroma bytes; a right shift of a
      negative int rounds down, as division here does. */
  function Channels(y: byte, v: byte, u: byte): (c: Rgb)
    ensures 0 <= c.r <= 255 && 0 <= c.g <= 255 && 0 <= c.b <= 255
  {
    var c, d, e: int := y - 16, u - 128, v - 128;
    Rgb(Clamp((298 * c + 409 * e + 128) / 256),
        Clamp((298 * c - 100 * d - 208 * e + 128) / 256),
        Clamp((298 * c + 516 * d + 128) / 256))
  }

  function Pack(r: bv16, g: bv16, b: bv16): bv16 {
    ((r >> 3) << 11) | ((g >> 2) << 5) | (b >> 3)
  }

  function Packed(c: Rgb): bv16
    requires 0 <= c.r <= 255 && 0 <= c.g <= 255 && 0 <= c.b <= 255
  {
    Pack(c.r as bv16, c.g as bv16, c.b as bv16)
  }

  /** The packed value splits back into the truncated channels. */
  lemma PackSplits(r: bv16, g: bv16, b: bv16)
    requires r <= 255 && g <= 255 && b <= 255
    ensures var p := Pack(r, g, b);
            p >> 11 == r >> 3 && (p >> 5) & 0x3f == g >> 2 && p & 0x1f == b >> 3
  {
  }

  // The fields of a pixel in memory.
  function Red(p: bv16): int { (p >> 11) as int }
  function Green(p: bv16): int { ((p >> 5) & 0x3f) as int }
  function Blue(p: bv16): int { (p & 0x1f) as int }

  lemma NextBits(b: bv16)
    requires b < 255
    ensures (b + 1) as int == b as int + 1
  {
  }

  lemma {:induction false} BitsOf(n: nat) returns (b: bv16)
    requires n <= 255
    ensures b <= 255 && b as int == n
  {
    b := 0;
    if n > 0 {
      b := BitsOf(n - 1);
      NextBits(b);
      b := b + 1;
    }
  }

  lemma BackAgain(b: bv16)
    ensures (b as int) as bv16 == b
  {
  }

  lemma ByteBack(n: nat)
    requires n <= 255
    ensures n as bv16 <= 255 && (n as bv16) as int == n
  {
    var b := BitsOf(n);
    BackAgain(b);
  }

  lemma ShiftsDivide(b: bv16)
    requires b <= 255
    ensures (b >> 3) as int == b as int / 8 && (b >> 2) as int == b as int / 4
  {
  }

  /** Red in the top five bits, green in six, blue in the last five. */
  lemma PackedFields(c: Rgb)
    requires 0 <= c.r <= 255 && 0 <= c.g <= 255 && 0 <= c.b <= 255
    ensures var p := Packed(c); Red(p) == c.r / 8 && Green(p) == c.g / 4 && Blue(p) == c.b / 8
  {
    ByteBack(c.r);
    ByteBack(c.g);
    ByteBack(c.b);
    var r, g, b := c.r as bv16, c.g as bv16, c.b as bv16;
    ShiftsDivide(r);
    ShiftsDivide(g);
    ShiftsDivide(b);
    PackSplits(r, g, b);
    hide Pack;
  }

  // --------------------------------------------------------- the exact colours

  datatype Colour = Colour(r: real, g: real, b: real)

  datatype Coded = Coded(y: real, cb: real, cr: real)

  /** ITU-R BT.601, section 2.5: luminance and colour differences of R, G, B in
      0..255, as 8-bit levels before rounding. */
  function Encode601(c: Colour): Coded {
    var r, g, b := c.r / 255.0, c.g / 255.0, c.b / 255.0;
    Coded(16.0 + 219.0 * (0.299 * r + 0.587 * g + 0.114 * b),
          128.0 + 224.0 * (-0.299 * r - 0.587 * g + 0.886 * b) / 1.772,
          128.0 + 224.0 * (0.701 * r - 0.587 * g - 0.114 * b) / 1.402)
  }

  function Decode601(c: Coded): Colour {
    var y := (c.y - 16.0) / 219.0;
    var r := y + 1.402 * (c.cr - 128.0) / 224.0;
    var b := y + 1.772 * (c.cb - 128.0) / 224.0;
    Colour(255.0 * r, 255.0 * (y - 0.299 * r - 0.114 * b) / 0.587, 255.0 * b)
  }

  /** Decode601 is the inverse of the standard's matrix, both ways round. */
  lemma DecodeIsTheInverse(c: Colour, k: Coded)
    ensures Decode601(Encode601(c)) == c
    ensures Encode601(Decode601(k)) == k
  {
  }

  function ClampReal(x: real): real {
    if x < 0.0 then 0.0 else if x > 255.0 then 255.0 else x
  }

  predicate Within1(n: int, x: real) {
    -1.0 < n as real - ClampReal(x) < 1.0
  }

  /** A sum in 256ths less than half a unit from the exact value. */
  predicate Near(sum: int, x: real) {
    -0.5 < sum as real / 256.0 - x < 0.5
  }

  lemma ChannelIsClose(sum: int, x: real)
    requires Near(sum, x)
    ensures Within1(Clamp((sum + 128) / 256), x)
  {
    var n := (sum + 128) / 256;
    assert 256 * n <= sum + 128 < 256 * n + 256;
    assert 256.0 * n as real <= sum as real + 128.0 < 256.0 * n as real + 256.0;
  }

  /** Decoding with the offsets taken off. */
  lemma DecodeFromOffsets(c: int, d: int, e: int)
    ensures var k := Coded((c + 16) as real, (d + 128) as real, (e + 128) as real);
            var y, cb, cr := c as real * 255.0 / 219.0, d as real * 255.0 / 224.0, e as real * 255.0 / 224.0;
            && Decode601(k).r == y + 1.402 * cr
            && Decode601(k).b == y + 1.772 * cb
            && Decode601(k).g == y - (0.299 * 1.402 / 0.587) * cr - (0.114 * 1.772 / 0.587) * cb
  {
    assert (c + 16) as real == c as real + 16.0;
    assert (d + 128) as real == d as real + 128.0 && (e + 128) as real == e as real + 128.0;
  }

  lemma SumsAreClose(c: int, d: int, e: int)
    requires -16 <= c <= 239 && -128 <= d <= 127 && -128 <= e <= 127
    ensures var y, cb, cr := c as real * 255.0 / 219.0, d as real * 255.0 / 224.0, e as real * 255.0 / 224.0;
            && Near(298 * c + 409 * e, y + 1.402 * cr)
            && Near(298 * c + 516 * d, y + 1.772 * cb)
            && Near(298 * c - 100 * d - 208 * e, y - (0.299 * 1.402 / 0.587) * cr - (0.114 * 1.772 / 0.587) * cb)
  {
    var x, v, w := c as real, d as real, e as real;
    assert (298 * c + 409 * e) as real == 298.0 * x + 409.0 * w;
    assert (298 * c + 516 * d) as real == 298.0 * x + 516.0 * v;
    assert (298 * c - 100 * d - 208 * e) as real == 298.0 * x - 100.0 * v - 208.0 * w;
  }

  predicate Small(n: int) { -0x40000 < n < 0x40000 }

  /** No intermediate needs more than 18 bits and a sign. */
  lemma IntermediatesAreSmall(y: byte, v: byte, u: byte)
    ensures var c, d, e: int := y - 16, u - 128, v - 128;
            && Small(298 * c) && Small(409 * e) && Small(100 * d) && Small(208 * e) && Small(516 * d)
            && Small(298 * c + 409 * e + 128) && Small(298 * c + 516 * d + 128)
            && Small(298 * c - 100 * d) && Small(298 * c - 100 * d - 208 * e + 128)
  {
  }

  lemma SumsAreNear(c: int, d: int, e: int)
    requires -16 <= c <= 239 && -128 <= d <= 127 && -128 <= e <= 127
    ensures var x := Decode601(Coded((c + 16) as real, (d + 128) as real, (e + 128) as real));
            && Near(298 * c + 409 * e, x.r)
            && Near(298 * c - 100 * d - 208 * e, x.g)
            && Near(298 * c + 516 * d, x.b)
  {
    hide Decode601, Near;
    DecodeFromOffsets(c, d, e);
    SumsAreClose(c, d, e);
  }

  lemma ClampedSumsAreClose(c: int, d: int, e: int)
    requires -16 <= c <= 239 && -128 <= d <= 127 && -128 <= e <= 127
    ensures var x := Decode601(Coded((c + 16) as real, (d + 128) as real, (e + 128) as real));
            && Within1(Clamp((298 * c + 409 * e + 128) / 256), x.r)
            && Within1(Clamp((298 * c - 100 * d - 208 * e + 128) / 256), x.g)
            && Within1(Clamp((298 * c + 516 * d + 128) / 256), x.b)
  {
    var x := Decode601(Coded((c + 16) as real, (d + 128) as real, (e + 128) as real));
    hide Decode601, Within1, Clamp, Near;
    SumsAreNear(c, d, e);
    ChannelIsClose(298 * c + 409 * e, x.r);
    ChannelIsClose(298 * c - 100 * d - 208 * e, x.g);
    ChannelIsClose(298 * c + 516 * d, x.b);
  }

  lemma ChannelsAre(y: byte, v: byte, u: byte)
    ensures var c, d, e := y as int - 16, u as int - 128, v as int - 128;
            Channels(y, v, u) == Rgb(Clamp((298 * c + 409 * e + 128) / 256),
                                     Clamp((298 * c - 100 * d - 208 * e + 128) / 256),
                                     Clamp((298 * c + 516 * d + 128) / 256))
  {
  }

  /** For every Y, U, V each channel is within 1 of the exact colour. */
  lemma ChannelsAreClose(y: byte, v: byte, u: byte)
    ensures var k := Channels(y, v, u);
            var x := Decode601(Coded(y as real, u as real, v as real));
            Within1(k.r, x.r) && Within1(k.g, x.g) && Within1(k.b, x.b)
  {
    var c, d, e: int := y - 16, u - 128, v - 128;
    assert y == c + 16 && u == d + 128 && v == e + 128;
    ChannelsAre(y, v, u);
    hide Decode601, Within1, Clamp, Channels;
    ClampedSumsAreClose(c, d, e);
  }

  /** The fields of a pixel are truncations of channels within 1 of an exact colour. */
  ghost predicate Shows(p: bv16, x: Colour) {
    exists r, g, b ::
      && 0 <= r <= 255 && 0 <= g <= 255 && 0 <= b <= 255
      && Within1(r, x.r) && Within1(g, x.g) && Within1(b, x.b)
      && Red(p) == r / 8 && Green(p) == g / 4 && Blue(p) == b / 8
  }

  /** The exact colour of a luma byte with its V and U. */
  function ExactColour(y: byte, v: byte, u: byte): Colour {
    Decode601(Coded(y as real, u as real, v as real))
  }

  lemma PixelShows(y: byte, v: byte, u: byte)
    ensures Shows(Packed(Channels(y, v, u)), ExactColour(y, v, u))
  {
    var c, x := Channels(y, v, u), ExactColour(y, v, u);
    ChannelsAreClose(y, v, u);
    PackedFields(c);
    hide Channels, Packed, Decode601, Within1, Red, Green, Blue;
    assert Within1(c.r, x.r) && Within1(c.g, x.g) && Within1(c.b, x.b);
  }

  // ------------------------------------------------------------------ the image

  /** Where a row starts in rows of a width. */
  function Start(row: nat, width: nat): nat {
    row * width
  }

  lemma StartNext(row: nat, width: nat)
    ensures Start(0, width) == 0 && Start(row + 1, width) == Start(row, width) + width
  {
  }

  lemma StartGrows(row: nat, later: nat, width: nat)
    requires row <= later
    ensures Start(row, width) <= Start(later, width)
    ensures row < later ==> Start(row, width) + width <= Start(later, width)
  {
    assert row < later ==> (row + 1) * width <= later * width;
  }

  lemma StartAdds(row: nat, more: nat, width: nat)
    ensures Start(row + more, width) == Start(row, width) + Start(more, width)
  {
  }

  /** 1 for an odd width. */
  function Odd(width: nat): nat { width % 2 }

  lemma OddIsSmall(width: nat, x: nat)
    ensures Odd(width) <= width
    ensures x % 2 == 0 && x < width ==> x + 2 <= width + Odd(width)
    ensures x % 2 == 0 && width <= x <= width + Odd(width) ==> x == width + Odd(width)
  {
  }

  /** A frame of luma rows with interleaved V, U rows of half the height behind.
      The last pair of an odd row reaches one byte past a row without padding. */
  predicate IsFrame(src: seq<byte>, width: nat, height: nat, stride: nat) {
    && width <= stride
    && |src| >= Start(height + (height + 1) / 2, stride) + (if width == stride && height > 0 then Odd(width) else 0)
  }

  lemma InFrame(src: seq<byte>, width: nat, height: nat, stride: nat, row: nat, x: nat)
    requires IsFrame(src, width, height, stride) && height > 0
    requires row < height + (height + 1) / 2 && x < width + Odd(width)
    ensures Start(row, stride) + x < |src|
  {
    StartGrows(row, height + (height + 1) / 2, stride);
    hide Start;
  }

  function At(src: seq<byte>, stride: nat, row: nat, x: nat): byte
    requires Start(row, stride) + x < |src|
  {
    src[Start(row, stride) + x]
  }

  /** The pixel in column x and row y: its own luma, and the chroma of row y/2 and
      the even column at or before x. For an odd width there is one column more. */
  function Pixel(src: seq<byte>, width: nat, height: nat, stride: nat, x: nat, y: nat): bv16
    requires IsFrame(src, width, height, stride)
    requires x < width + Odd(width) && y < height
  {
    var even := x - x % 2;
    InFrame(src, width, height, stride, y, x);
    InFrame(src, width, height, stride, height + y / 2, even);
    InFrame(src, width, height, stride, height + y / 2, even + 1);
    Packed(Channels(At(src, stride, y, x), At(src, stride, height + y / 2, even), At(src, stride, height + y / 2, even + 1)))
  }

  /** What the loop stores for a row: its pixels, and for an odd width one more. */
  function RowPairs(src: seq<byte>, width: nat, height: nat, stride: nat, y: nat): (r: seq<bv16>)
    requires IsFrame(src, width, height, stride) && y < height
    ensures |r| == width + Odd(width)
  {
    seq(width + Odd(width), x requires 0 <= x < width + Odd(width) => Pixel(src, width, height, stride, x, y))
  }

  /** The specification: the first rows of the image, pixel by pixel. */
  function Image(src: seq<byte>, width: nat, height: nat, stride: nat, rows: nat): (r: seq<bv16>)
    requires IsFrame(src, width, height, stride) && rows <= height
    ensures |r| == Start(rows, width)
    decreases rows
  {
    if rows == 0 then StartNext(0, width); []
    else
      StartNext(rows - 1, width);
      Image(src, width, height, stride, rows - 1) + RowPairs(src, width, height, stride, rows - 1)[..width]
  }

  /** The pixel that an odd width stores behind the first rows. */
  function Overrun(src: seq<byte>, width: nat, height: nat, stride: nat, rows: nat): (r: seq<bv16>)
    requires IsFrame(src, width, height, stride) && rows <= height
    ensures |r| == if rows > 0 then Odd(width) else 0
  {
    if rows > 0 then RowPairs(src, width, height, stride, rows - 1)[width..] else []
  }

  /** Row by row, column by column. */
  lemma {:induction false} ImageAt(src: seq<byte>, width: nat, height: nat, stride: nat, rows: nat, x: nat, y: nat)
    requires IsFrame(src, width, height, stride) && rows <= height
    requires x < width && y < rows
    ensures Start(y, width) + x < Start(rows, width)
    ensures Image(src, width, height, stride, rows)[Start(y, width) + x] == Pixel(src, width, height, stride, x, y)
    decreases rows
  {
    hide Pixel, Start, IsFrame;
    StartGrows(y, rows, width);
    if y < rows - 1 {
      ImageAt(src, width, height, stride, rows - 1, x, y);
    }
  }

  /** The colour a pixel stands for. */
  function ColourAt(src: seq<byte>, height: nat, stride: nat, x: nat, y: nat): Colour
    requires Start(y, stride) + x < |src| && Start(height + y / 2, stride) + x - x % 2 + 1 < |src|
  {
    var luma, chroma := Start(y, stride) + x, Start(height + y / 2, stride) + x - x % 2;
    ExactColour(src[luma], src[chroma], src[chroma + 1])
  }

  ghost predicate ShowsAt(dst: seq<bv16>, src: seq<byte>, width: nat, height: nat, stride: nat, x: nat, y: nat) {
    && Start(y, stride) + x < |src| && Start(height + y / 2, stride) + x - x % 2 + 1 < |src|
    && Start(y, width) + x < |dst|
    && Shows(dst[Start(y, width) + x], ColourAt(src, height, stride, x, y))
  }

  /** Every pixel of an image shows the colour of its own luma byte, of the row's
      V at the even column at or before it, and of the U behind that. */
  ghost predicate ShowsFrame(dst: seq<bv16>, src: seq<byte>, width: nat, height: nat, stride: nat) {
    forall x: nat, y: nat | x < width && y < height :: ShowsAt(dst, src, width, height, stride, x, y)
  }

  lemma PixelIs(src: seq<byte>, width: nat, height: nat, stride: nat, x: nat, y: nat)
    requires IsFrame(src, width, height, stride) && x < width && y < height
    ensures var luma, chroma := Start(y, stride) + x, Start(height + y / 2, stride) + x - x % 2;
            && luma < |src| && chroma + 1 < |src|
            && Pixel(src, width, height, stride, x, y) == Packed(Channels(src[luma], src[chroma], src[chroma + 1]))
  {
    hide Packed, Channels, IsFrame, Start;
    InFrame(src, width, height, stride, y, x);
    InFrame(src, width, height, stride, height + y / 2, x - x % 2);
    InFrame(src, width, height, stride, height + y / 2, x - x % 2 + 1);
  }

  lemma PixelHasColour(src: seq<byte>, width: nat, height: nat, stride: nat, x: nat, y: nat)
    requires IsFrame(src, width, height, stride) && x < width && y < height
    ensures Start(y, stride) + x < |src| && Start(height + y / 2, stride) + x - x % 2 + 1 < |src|
    ensures Shows(Pixel(src, width, height, stride, x, y), ColourAt(src, height, stride, x, y))
  {
    hide IsFrame, Pixel, Packed, Channels, Shows, Start, ExactColour;
    PixelIs(src, width, height, stride, x, y);
    var luma, chroma := Start(y, stride) + x, Start(height + y / 2, stride) + x - x % 2;
    PixelShows(src[luma], src[chroma], src[chroma + 1]);
  }

  lemma ImageShowsAt(src: seq<byte>, width: nat, height: nat, stride: nat, behind: seq<bv16>, x: nat, y: nat)
    requires IsFrame(src, width, height, stride) && x < width && y < height
    ensures ShowsAt(Image(src, width, height, stride, height) + behind, src, width, height, stride, x, y)
  {
    hide IsFrame, Image, Pixel, Shows, ColourAt, Start;
    ImageAt(src, width, height, stride, height, x, y);
    PixelHasColour(src, width, height, stride, x, y);
  }

  lemma ImageShows(src: seq<byte>, width: nat, height: nat, stride: nat, behind: seq<bv16>)
    requires IsFrame(src, width, height, stride)
    ensures ShowsFrame(Image(src, width, height, stride, height) + behind, src, width, height, stride)
  {
    hide IsFrame, Image, ShowsAt;
    forall x: nat, y: nat | x < width && y < height
      ensures ShowsAt(Image(src, width, height, stride, height) + behind, src, width, height, stride, x, y)
    {
      ImageShowsAt(src, width, height, stride, behind, x, y);
    }
  }

  // ---------------------------------------------------------- the order of stores

  function RowStores(width: nat, y: nat, x: nat): seq<nat>
    decreases width - x
  {
    if x >= width then [] else [Start(y, width) + x, Start(y, width) + x + 1] + RowStores(width, y, x + 2)
  }

  /** The indices stored to from row y on, for any width. */
  function Stores(width: nat, height: nat, y: nat): seq<nat>
    decreases height - y
  {
    if y >= height then [] else RowStores(width, y, 0) + Stores(width, height, y + 1)
  }

  function Upto(from: nat, to: nat): seq<nat>
    requires from <= to
  {
    seq(to - from, i requires 0 <= i => from + i)
  }

  lemma {:induction false} RowStoresInOrder(width: nat, y: nat, x: nat)
    requires width % 2 == 0 && x % 2 == 0 && x <= width
    ensures RowStores(width, y, x) == Upto(Start(y, width) + x, Start(y, width) + width)
    decreases width - x
  {
    hide Start;
    if x < width {
      RowStoresInOrder(width, y, x + 2);
    }
  }

  lemma UptoJoins(a: nat, b: nat, c: nat)
    requires a <= b <= c
    ensures Upto(a, b) + Upto(b, c) == Upto(a, c)
  {
  }

  /** For an even width every pixel is stored once, in order, and nothing else. */
  lemma {:induction false} StoresInOrder(width: nat, height: nat, y: nat)
    requires width % 2 == 0 && y <= height
    ensures Start(y, width) <= Start(height, width)
    ensures Stores(width, height, y) == Upto(Start(y, width), Start(height, width))
    decreases height - y
  {
    hide Start, RowStores;
    StartGrows(y, height, width);
    if y < height {
      RowStoresInOrder(width, y, 0);
      StoresInOrder(width, height, y + 1);
      StartNext(y, width);
      UptoJoins(Start(y, width), Start(y, width) + width, Start(height, width));
    }
  }

  lemma {:induction false} OddRowOverruns(width: nat, y: nat, x: nat)
    requires width % 2 == 1 && x % 2 == 0 && x < width
    ensures Start(y, width) + width in RowStores(width, y, x)
    decreases width - x
  {
    hide Start;
    if x + 2 < width {
      OddRowOverruns(width, y, x + 2);
    } else {
      assert RowStores(width, y, x)[1] == Start(y, width) + width;
    }
  }

  lemma {:induction false} OddImageOverruns(width: nat, height: nat, y: nat)
    requires width % 2 == 1 && y < height
    ensures Start(height, width) in Stores(width, height, y)
    decreases height - y
  {
    hide Start, RowStores;
    if y + 1 == height {
      OddRowOverruns(width, y, 0);
      StartNext(y, width);
    } else {
      OddImageOverruns(width, height, y + 1);
    }
  }

  /** The stores stay inside an image of width times height pixels if and only if
      the width is even or there are no rows. */
  lemma InsideExactlyWhenEven(width: nat, height: nat)
    ensures (forall i :: i in Stores(width, height, 0) ==> i < Start(height, width)) <==> width % 2 == 0 || height == 0
  {
    if width % 2 == 0 {
      StoresInOrder(width, height, 0);
    } else if height > 0 {
      OddImageOverruns(width, height, 0);
    }
    hide Start;
  }

  // ----------------------------------------------------------------- the converter

  /** One luma byte with the products its chroma bytes share. */
  method ConvertOne(luma: byte, rv: int, gu: int, gv: int, bu: int, ghost v0: byte, ghost u0: byte) returns (p: bv16)
    requires rv == 409 * (v0 as int - 128) && gu == 100 * (u0 as int - 128)
    requires gv == 208 * (v0 as int - 128) && bu == 516 * (u0 as int - 128)
    ensures p == Packed(Channels(luma, v0, u0))
  {
    hide Packed, Channels, Clamp;
    ChannelsAre(luma, v0, u0);
    var c := luma as int - 16;
    var r := (298 * c + rv + 128) / 256;
    var g := (298 * c - gu - gv + 128) / 256;
    var b := (298 * c + bu + 128) / 256;
    r, g, b := Clamp(r), Clamp(g), Clamp(b);
    p := Packed(Rgb(r, g, b));
  }

  /** Two neighbours in columns x and x+1 of a row, from their shared chroma bytes. */
  method ConvertPair(src: seq<byte>, dst: array<bv16>, yrow: nat, uvrow: nat, drow: nat, x: nat)
    requires yrow + x + 1 < |src| && uvrow + x + 1 < |src| && drow + x + 1 < dst.Length
    modifies dst
    ensures dst[..] == old(dst[..])[drow + x := Packed(Channels(src[yrow + x], src[uvrow + x], src[uvrow + x + 1]))]
                                   [drow + x + 1 := Packed(Channels(src[yrow + x + 1], src[uvrow + x], src[uvrow + x + 1]))]
  {
    hide Packed, Channels;
    ghost var v0, u0 := src[uvrow + x], src[uvrow + x + 1];
    ghost var s0 := dst[..];
    ghost var s1 := s0[drow + x := Packed(Channels(src[yrow + x], v0, u0))];
    ghost var s2 := s1[drow + x + 1 := Packed(Channels(src[yrow + x + 1], v0, u0))];
    var v: int, u: int := src[uvrow + x] as int - 128, src[uvrow + x + 1] as int - 128;
    var rv, gu, gv, bu := 409 * v, 100 * u, 208 * v, 516 * u;
    var p := 0;
    while p < 2
      invariant 0 <= p <= 2
      invariant dst[..] == if p == 0 then s0 else if p == 1 then s1 else s2
    {
      var pixel := ConvertOne(src[yrow + x + p], rv, gu, gv, bu, v0, u0);
      dst[drow + x + p] := pixel;
      p := p + 1;
    }
  }

  /** The bytes and places of a pair. */
  lemma PairFits(src: seq<byte>, width: nat, height: nat, stride: nat, x: nat, y: nat)
    requires IsFrame(src, width, height, stride)
    requires x % 2 == 0 && x < width && y < height
    ensures x + 1 < width + Odd(width)
    ensures Start(y, stride) + x + 1 < |src| && Start(height, stride) + Start(y / 2, stride) + x + 1 < |src|
    ensures var row := RowPairs(src, width, height, stride, y);
            var yrow, uvrow := Start(y, stride), Start(height, stride) + Start(y / 2, stride);
            && row[x] == Packed(Channels(src[yrow + x], src[uvrow + x], src[uvrow + x + 1]))
            && row[x + 1] == Packed(Channels(src[yrow + x + 1], src[uvrow + x], src[uvrow + x + 1]))
  {
    hide Packed, Channels, Start, IsFrame;
    InFrame(src, width, height, stride, y, x + 1);
    InFrame(src, width, height, stride, height + y / 2, x + 1);
    StartAdds(height, y / 2, stride);
  }

  lemma RowStoresFrom(before: seq<nat>, width: nat, y: nat, x: nat)
    ensures x < width ==> before + [Start(y, width) + x, Start(y, width) + x + 1] + RowStores(width, y, x + 2)
                          == before + RowStores(width, y, x)
    ensures x >= width ==> before + RowStores(width, y, x) == before
  {
    hide Start;
  }

  /** Storing a pair behind what is done. */
  lemma Advance(front: seq<bv16>, row: seq<bv16>, rest: seq<bv16>, x: nat)
    requires x + 2 <= |row| && |rest| >= 2
    ensures var k := |front| + x;
            (front + row[..x] + rest)[k := row[x]][k + 1 := row[x + 1]] == front + row[..x + 2] + rest[2..]
  {
  }

  /** One row, behind the rows already there. */
  method ConvertRow(src: seq<byte>, dst: array<bv16>, width: nat, height: nat, stride: nat, y: nat,
                    ghost front: seq<bv16>, ghost rest: seq<bv16>)
    returns (ghost stores: seq<nat>)
    requires IsFrame(src, width, height, stride) && y < height
    requires dst[..] == front + rest && |front| == Start(y, width) && |rest| >= width + Odd(width)
    modifies dst
    ensures dst[..] == front + RowPairs(src, width, height, stride, y) + rest[width + Odd(width)..]
    ensures stores == RowStores(width, y, 0)
  {
    hide RowPairs, Packed, Channels, IsFrame, RowStores, Start, Odd, Pixel;
    ghost var row := RowPairs(src, width, height, stride, y);
    var yrow, uvrow, drow := Start(y, stride), Start(height, stride) + Start(y / 2, stride), Start(y, width);
    stores := [];
    var x := 0;
    assert front + row[..0] + rest[0..] == front + rest;
    while x < width
      invariant 0 <= x <= width + Odd(width) && x % 2 == 0
      invariant dst[..] == front + row[..x] + rest[x..]
      invariant stores + RowStores(width, y, x) == RowStores(width, y, 0)
    {
      PairFits(src, width, height, stride, x, y);
      OddIsSmall(width, x);
      Advance(front, row, rest[x..], x);
      assert rest[x..][2..] == rest[x + 2..];
      ConvertPair(src, dst, yrow, uvrow, drow, x);
      RowStoresFrom(stores, width, y, x);
      stores := stores + [drow + x, drow + x + 1];
      x := x + 2;
    }
    OddIsSmall(width, x);
    assert row[..x] == row;
    RowStoresFrom(stores, width, y, x);
  }

  /** A buffer with its front part and a few elements more replaced. */
  function Covered(front: seq<bv16>, extra: seq<bv16>, was: seq<bv16>): seq<bv16>
    requires |front| + |extra| <= |was|
  {
    front + extra + was[|front| + |extra|..]
  }

  /** A buffer with a row stored at an index. */
  function RowOver(now: seq<bv16>, at: nat, row: seq<bv16>): seq<bv16>
    requires at + |row| <= |now|
  {
    now[..at] + row + now[at + |row|..]
  }

  /** A row behind the first rows covers what an odd width stored there. */
  lemma RowCovers(front: seq<bv16>, row: seq<bv16>, width: nat, extra: seq<bv16>, was: seq<bv16>)
    requires |front| + |row| <= |was| && |extra| <= width <= |row|
    ensures var now := Covered(front, extra, was);
            && |now| == |was| && now[..|front|] == front
            && RowOver(now, |front|, row) == Covered(front + row[..width], row[width..], was)
  {
    var now := Covered(front, extra, was);
    assert now[|front| + |row|..] == was[|front| + |row|..];
    assert row == row[..width] + row[width..];
    assert front + (row[..width] + row[width..]) == front + row[..width] + row[width..];
  }

  lemma OneMoreRow(src: seq<byte>, width: nat, height: nat, stride: nat, y: nat)
    requires IsFrame(src, width, height, stride) && y < height
    ensures var row := RowPairs(src, width, height, stride, y);
            && Image(src, width, height, stride, y + 1) == Image(src, width, height, stride, y) + row[..width]
            && Overrun(src, width, height, stride, y + 1) == row[width..]
  {
    hide Start, IsFrame, RowPairs;
  }

  /** What the destination holds after the first rows. */
  function Filled(src: seq<byte>, width: nat, height: nat, stride: nat, rows: nat, was: seq<bv16>): seq<bv16>
    requires IsFrame(src, width, height, stride) && rows <= height
    requires Start(rows, width) + (if rows > 0 then Odd(width) else 0) <= |was|
  {
    Covered(Image(src, width, height, stride, rows), Overrun(src, width, height, stride, rows), was)
  }

  lemma FilledIs(src: seq<byte>, width: nat, height: nat, stride: nat, rows: nat, was: seq<bv16>)
    requires IsFrame(src, width, height, stride) && rows <= height
    requires Start(rows, width) + (if rows > 0 then Odd(width) else 0) <= |was|
    ensures var extra := Overrun(src, width, height, stride, rows);
            Filled(src, width, height, stride, rows, was)
            == Image(src, width, height, stride, rows) + extra + was[Start(rows, width) + |extra|..]
  {
  }

  lemma NothingYet(src: seq<byte>, width: nat, height: nat, stride: nat, was: seq<bv16>)
    requires IsFrame(src, width, height, stride)
    ensures Start(0, width) == 0 && Filled(src, width, height, stride, 0, was) == was
  {
    StartNext(0, width);
    hide IsFrame;
    assert [] + [] + was[0..] == was;
  }

  /** The first rows are in front of the next row's place, and with it become one more. */
  lemma FilledNext(src: seq<byte>, width: nat, height: nat, stride: nat, y: nat, was: seq<bv16>)
    requires IsFrame(src, width, height, stride) && y < height
    requires Start(y, width) + (if y > 0 then Odd(width) else 0) <= Start(y + 1, width) + Odd(width) <= |was|
    ensures var front, row := Image(src, width, height, stride, y), RowPairs(src, width, height, stride, y);
            var now := Filled(src, width, height, stride, y, was);
            && |front| + |row| <= |now| && now[..|front|] == front
            && RowOver(now, |front|, row) == Filled(src, width, height, stride, y + 1, was)
  {
    hide RowPairs, IsFrame, Start, Image, Overrun, Odd, Covered, RowOver;
    OddIsSmall(width, 0);
    StartNext(y, width);
    OneMoreRow(src, width, height, stride, y);
    var row := RowPairs(src, width, height, stride, y);
    RowCovers(Image(src, width, height, stride, y), row, width, Overrun(src, width, height, stride, y), was);
  }

  /** The next row, over what the row before left of an odd width. */
  method NextRow(src: seq<byte>, dst: array<bv16>, width: nat, height: nat, stride: nat, y: nat, ghost was: seq<bv16>)
    returns (ghost stores: seq<nat>)
    requires IsFrame(src, width, height, stride) && y < height
    requires Start(y, width) + (if y > 0 then Odd(width) else 0) <= Start(y + 1, width) + Odd(width) <= |was|
    requires dst[..] == Filled(src, width, height, stride, y, was)
    modifies dst
    ensures dst[..] == Filled(src, width, height, stride, y + 1, was)
    ensures stores == RowStores(width, y, 0)
  {
    hide RowPairs, IsFrame, RowStores, Start, Image, Overrun, Odd, Filled;
    FilledNext(src, width, height, stride, y, was);
    ghost var front := Image(src, width, height, stride, y);
    ghost var rest := dst[..][|front|..];
    assert dst[..] == front + rest;
    assert rest[|RowPairs(src, width, height, stride, y)|..] == dst[..][|front| + |RowPairs(src, width, height, stride, y)|..];
    stores := ConvertRow(src, dst, width, height, stride, y, front, rest);
  }

  lemma RowsFit(width: nat, height: nat, y: nat)
    requires y <= height
    ensures Start(y, width) + (if y > 0 then Odd(width) else 0) <= Start(height, width) + (if height > 0 then Odd(width) else 0)
    ensures y < height ==> Start(y, width) + (if y > 0 then Odd(width) else 0) <= Start(y + 1, width) + Odd(width)
  {
    StartGrows(y, height, width);
    StartNext(y, width);
    hide Start;
  }

  lemma FilledShows(src: seq<byte>, width: nat, height: nat, stride: nat, was: seq<bv16>)
    requires IsFrame(src, width, height, stride)
    requires Start(height, width) + (if height > 0 then Odd(width) else 0) <= |was|
    ensures ShowsFrame(Filled(src, width, height, stride, height, was), src, width, height, stride)
  {
    var image, extra := Image(src, width, height, stride, height), Overrun(src, width, height, stride, height);
    var rest := was[Start(height, width) + |extra|..];
    FilledIs(src, width, height, stride, height, was);
    assert image + extra + rest == image + (extra + rest);
    ImageShows(src, width, height, stride, extra + rest);
    hide *;
  }

  lemma StoresFrom(before: seq<nat>, row: seq<nat>, width: nat, height: nat, y: nat)
    requires y < height ==> row == RowStores(width, y, 0)
    ensures y < height ==> before + row + Stores(width, height, y + 1) == before + Stores(width, height, y)
    ensures y >= height ==> before + Stores(width, height, y) == before
  {
    hide RowStores;
  }

  /** The converter, for every width, height and stride for which the frame holds
      what it reads: it fills the image, leaves what is behind alone but for the one
      pixel of an odd width, and stores in the order Stores says. */
  method Convert(src: seq<byte>, dst: array<bv16>, width: nat, height: nat, stride: nat) returns (ghost stores: seq<nat>)
    requires IsFrame(src, width, height, stride)
    requires dst.Length >= Start(height, width) + (if height > 0 then Odd(width) else 0)
    modifies dst
    ensures var extra := Overrun(src, width, height, stride, height);
            dst[..] == Image(src, width, height, stride, height) + extra + old(dst[Start(height, width) + |extra|..])
    ensures ShowsFrame(dst[..], src, width, height, stride)
    ensures stores == Stores(width, height, 0)
  {
    hide IsFrame, RowStores, Start, Odd, Filled, ShowsFrame;
    ghost var was := dst[..];
    stores := [];
    var y := 0;
    RowsFit(width, height, 0);
    NothingYet(src, width, height, stride, was);
    while y < height
      invariant 0 <= y <= height
      invariant Start(y, width) + (if y > 0 then Odd(width) else 0) <= |was| == dst.Length
      invariant dst[..] == Filled(src, width, height, stride, y, was)
      invariant stores + Stores(width, height, y) == Stores(width, height, 0)
    {
      RowsFit(width, height, y);
      RowsFit(width, height, y + 1);
      var s := NextRow(src, dst, width, height, stride, y, was);
      StoresFrom(stores, s, width, height, y);
      stores := stores + s;
      y := y + 1;
    }
    StoresFrom(stores, [], width, height, height);
    FilledIs(src, width, height, stride, height, was);
    FilledShows(src, width, height, stride, was);
  }
}
