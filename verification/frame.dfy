/**
 * Frames in the controller's format: two palette indices to a byte, the
 * first pixel of each pair in the high nibble. `shrink` packs a paletted
 * image into that format; `demobuf` draws a diagonal-stripe test frame
 * straight into packed bytes.
 */
module Frame {
  import opened Canvas

  // ----- packing -------------------------------------------------------------------

  /**
   * Pixel pairs packed into bytes, first of the pair in the high nibble;
   * a trailing odd pixel is dropped. Go's `byte << 4` keeps the low eight
   * bits, as `bv8` does.
   */
  function Packed(buf: seq<bv8>): seq<bv8> {
    seq(|buf| / 2, i requires 0 <= i < |buf| / 2 => Pair(buf[2 * i], buf[2 * i + 1]))
  }

  /** One packed byte: `hi` shifted into the high nibble, or-ed with `lo`. */
  function Pair(hi: bv8, lo: bv8): bv8 {
    (hi << 4) | lo
  }

  /** The pixel in the high nibble of a packed byte. */
  function High(b: bv8): bv8 {
    b >> 4
  }

  /** The pixel in the low nibble of a packed byte. */
  function Low(b: bv8): bv8 {
    b & 0xF
  }

  /** The pixels of a packed frame, two per byte, high nibble first. */
  function Unpacked(p: seq<bv8>): seq<bv8> {
    seq(2 * |p|, i requires 0 <= i < 2 * |p| => if i % 2 == 0 then High(p[i / 2]) else Low(p[i / 2]))
  }

  /** Every entry is a nibble, as palette indices are. */
  predicate Nibbles(buf: seq<bv8>) {
    forall i :: 0 <= i < |buf| ==> buf[i] < 16
  }

  /** `shrink`: a new buffer of half the length, filled pair by pair. */
  method Shrink(buf: seq<bv8>) returns (out: array<bv8>)
    ensures fresh(out)
    ensures out[..] == Packed(buf)
  {
    out := new bv8[|buf| / 2];
    var i := 0;
    while i < out.Length
      invariant 0 <= i <= out.Length
      invariant forall j :: 0 <= j < i ==> out[j] == Pair(buf[2 * j], buf[2 * j + 1])
    {
      out[i] := (buf[i * 2] << 4) | buf[i * 2 + 1];
      i := i + 1;
    }
  }

  /** The packed frame is half as long, rounded down. */
  lemma PackedLength(buf: seq<bv8>)
    ensures |Packed(buf)| == |buf| / 2 && 2 * |Packed(buf)| <= |buf| <= 2 * |Packed(buf)| + 1
  {
  }

  /** Each packed byte holds its two pixels, first in the high nibble, when both are nibbles. */
  lemma PairNibbles(hi: bv8, lo: bv8)
    requires hi < 16 && lo < 16
    ensures High(Pair(hi, lo)) == hi && Low(Pair(hi, lo)) == lo
  {
  }

  /** A byte is its high nibble shifted back up, or-ed with its low nibble. */
  lemma PairSplits(b: bv8)
    ensures Pair(High(b), Low(b)) == b && High(b) < 16 && Low(b) < 16
  {
  }

  /**
   * Unpacking a packed frame of palette indices gives the frame back, less
   * a trailing odd pixel.
   */
  lemma UnpackPacked(buf: seq<bv8>)
    requires Nibbles(buf)
    ensures Unpacked(Packed(buf)) == buf[..2 * (|buf| / 2)]
  {
    var p := Packed(buf);
    forall i | 0 <= i < 2 * |p|
      ensures Unpacked(p)[i] == buf[i]
    {
      var k := i / 2;
      PairNibbles(buf[2 * k], buf[2 * k + 1]);
    }
  }

  /** Every byte is two nibbles, so packing what unpacking gives is the identity. */
  lemma PackUnpacked(p: seq<bv8>)
    ensures Nibbles(Unpacked(p)) && Packed(Unpacked(p)) == p
  {
    var u := Unpacked(p);
    forall i | 0 <= i < |p|
      ensures Packed(u)[i] == p[i]
    {
      var b := p[i];
      assert u[2 * i] == High(b) && u[2 * i + 1] == Low(b);
      PairSplits(b);
    }
  }

  // ----- the demo frame ------------------------------------------------------------

  /** Where the diagonal stripes of the demo frame change colour, by `x - y`. */
  const StripeEdges: seq<int> := [0, 80, 160, 240, 320]

  /** The stripes' colours, one more than there are edges. */
  const StripeColours: seq<bv8> := [White, Red, Green, Blue, Yellow, White]

  /**
   * The result of `slices.BinarySearch(a, t)`: the first position whose
   * entry is at least `t`, which is where `t` would be inserted.
   */
  function LowerBound(a: seq<int>, t: int): (i: nat)
    ensures i <= |a|
    decreases |a|
  {
    if a == [] || a[0] >= t then 0 else 1 + LowerBound(a[1..], t)
  }

  /** In a sorted list, the entries before the insertion point are below `t` and the rest are not. */
  lemma {:induction false} LowerBoundSplits(a: seq<int>, t: int)
    requires forall i, j :: 0 <= i < j < |a| ==> a[i] <= a[j]
    ensures forall j :: 0 <= j < LowerBound(a, t) ==> a[j] < t
    ensures forall j :: LowerBound(a, t) <= j < |a| ==> a[j] >= t
    decreases |a|
  {
    if a != [] && a[0] < t {
      LowerBoundSplits(a[1..], t);
      forall j | 1 <= j < |a|
        ensures a[j] == a[1..][j - 1]
      {
      }
    }
  }

  /** The colour of pixel (x, y) of the demo frame: the stripe of `x - y`. */
  function DemoPixel(x: int, y: int): bv8 {
    StripeColours[LowerBound(StripeEdges, x - y)]
  }

  /**
   * The stripe of pixel (x, y) is the number of edges strictly below
   * `x - y`: the edges before it are below, the rest are not.
   */
  lemma DemoStripe(x: int, y: int)
    ensures var i := LowerBound(StripeEdges, x - y);
      i < |StripeColours| && DemoPixel(x, y) == StripeColours[i] &&
      (forall j :: 0 <= j < i ==> StripeEdges[j] < x - y) &&
      (forall j :: i <= j < |StripeEdges| ==> StripeEdges[j] >= x - y)
  {
    LowerBoundSplits(StripeEdges, x - y);
  }

  /** A full-screen image given pixel by pixel, row by row, as a paletted image lays out its pixels. */
  function Pixels(pix: (int, int) -> bv8): seq<bv8> {
    seq(Width * Height, p requires 0 <= p < Width * Height => pix(p % Width, p / Width))
  }

  /**
   * Byte `k` of a frame drawn the way `demobuf` draws it: the pixels at
   * x = 2m and 2m + 1 of row y, the even one in the LOW nibble.
   */
  function LowFirstByte(pix: (int, int) -> bv8, k: int): bv8 {
    var m, y := k % (Width / 2), k / (Width / 2);
    Pair(pix(2 * m + 1, y), pix(2 * m, y))
  }

  /** A full-screen frame drawn the way `demobuf` draws it. */
  function LowFirstFrame(pix: (int, int) -> bv8): seq<bv8> {
    seq(Width * Height / 2, k requires 0 <= k < Width * Height / 2 => LowFirstByte(pix, k))
  }

  /** The frame `demobuf` builds. */
  function DemoFrame(): seq<bv8> {
    LowFirstFrame(DemoPixel)
  }

  /** Or-ing a colour into a zeroed byte unshifted, or into a byte holding the low pixel shifted by four. */
  lemma OrColour(lo: bv8, c: bv8)
    ensures (0 as bv8 | (c << 0)) == c && (lo | (c << 4)) == Pair(c, lo)
  {
  }

  /** Pixel (x, y) lands in byte `y * 400 + x / 2`, which is pair x / 2 of row y. */
  lemma DemoIndex(x: int, y: int)
    requires 0 <= x < Width && 0 <= y < Height
    ensures (y * Width + x) / 2 == y * 400 + x / 2
    ensures (y * 400 + x / 2) % (Width / 2) == x / 2 && (y * 400 + x / 2) / (Width / 2) == y
  {
    assert y * Width == y * 800 && Width / 2 == 400;
    var h := x / 2;
    var k := y * 400 + h;
    assert k / 400 == y && k % 400 == h;
  }

  /**
   * The buffer of `demobuf` before pixel (x, y): the bytes of earlier pixel
   * pairs are final, the byte of pixel x holds its even neighbour when x is
   * odd, and the rest are still zero.
   */
  predicate DrawnLowFirst(pix: (int, int) -> bv8, s: seq<bv8>, x: int, y: int) {
    && 0 <= x <= Width && 0 <= y <= Height && (y == Height ==> x == 0) && |s| == Width * Height / 2
    && (forall k :: 0 <= k < y * 400 + x / 2 ==> s[k] == LowFirstByte(pix, k))
    && (x % 2 == 1 ==> s[y * 400 + x / 2] == pix(x - 1, y))
    && (forall k :: y * 400 + (x + 1) / 2 <= k < |s| ==> s[k] == 0)
  }

  /** Or-ing pixel (x, y)'s colour into its byte, shifted by four for odd x, draws one more pixel. */
  lemma DrawLowFirstStep(pix: (int, int) -> bv8, s: seq<bv8>, x: int, y: int)
    requires x < Width && y < Height && DrawnLowFirst(pix, s, x, y)
    ensures var k := (y * Width + x) / 2;
      DrawnLowFirst(pix, s[k := s[k] | (pix(x, y) << (4 * (x % 2)))], x + 1, y)
  {
    DemoIndex(x, y);
    var k := y * 400 + x / 2;
    OrColour(s[k], pix(x, y));
    if x % 2 == 0 {
      assert s[k] == 0;
    }
  }

  /** The inner loop of row y: each pixel's colour or-ed into its byte, shifted by four bits for odd x. */
  method DrawLowFirstRow(pix: (int, int) -> bv8, buf: array<bv8>, y: int)
    requires y < Height && DrawnLowFirst(pix, buf[..], 0, y)
    modifies buf
    ensures DrawnLowFirst(pix, buf[..], 0, y + 1)
  {
    var x := 0;
    while x < Width
      invariant DrawnLowFirst(pix, buf[..], x, y)
    {
      var k := (y * Width + x) / 2;
      DrawLowFirstStep(pix, buf[..], x, y);
      buf[k] := buf[k] | (pix(x, y) << (4 * (x % 2)));
      x := x + 1;
    }
  }

  /**
   * The loops of `demobuf` with the colour lookup factored out: every pixel's
   * colour is or-ed into a zeroed frame, shifted by four bits for odd x.
   */
  method DrawLowFirst(pix: (int, int) -> bv8) returns (buf: array<bv8>)
    ensures fresh(buf)
    ensures buf[..] == LowFirstFrame(pix)
  {
    buf := new bv8[Width * Height / 2](_ => 0);
    var y := 0;
    while y < Height
      invariant DrawnLowFirst(pix, buf[..], 0, y)
    {
      DrawLowFirstRow(pix, buf, y);
      y := y + 1;
    }
  }

  /** `demobuf`: the stripes drawn into a packed frame, even pixels in the low nibble. */
  method Demobuf() returns (buf: array<bv8>)
    ensures fresh(buf)
    ensures buf[..] == DemoFrame()
  {
    buf := DrawLowFirst(DemoPixel);
  }

  /** Every pixel of the demo frame is a palette index, so a nibble. */
  lemma DemoPixelNibbles()
    ensures forall x, y :: DemoPixel(x, y) < 16
    ensures Nibbles(Pixels(DemoPixel))
  {
    forall x, y
      ensures DemoPixel(x, y) < 16
    {
      var i := LowerBound(StripeEdges, x - y);
      assert i < 6;
    }
  }

  /**
   * The frame `demobuf` draws does not unpack to its own pixels: its first
   * byte carries the white pixel (0, 0) in the low nibble and the red pixel
   * (1, 0) in the high nibble, so the panel shows them swapped; packed as
   * `shrink` packs, the byte is the other way round.
   */
  lemma DemoFrameSwapsPairs()
    ensures DemoPixel(0, 0) == White && DemoPixel(1, 0) == Red
    ensures DemoFrame()[0] == 0x41 && Packed(Pixels(DemoPixel))[0] == 0x14
    ensures Unpacked(DemoFrame())[0] == Red && Pixels(DemoPixel)[0] == White
  {
    assert LowerBound(StripeEdges, 0) == 0;
    assert LowerBound(StripeEdges, 1) == 1 by {
      assert StripeEdges[1..][0] == 80;
    }
    assert Width / 2 == 400;
  }

  /**
   * In general, what `demobuf`'s loops draw unpacks to the image with the
   * two pixels of every pair exchanged.
   */
  lemma LowFirstSwapsPairs(pix: (int, int) -> bv8)
    requires Nibbles(Pixels(pix))
    ensures var u, p := Unpacked(LowFirstFrame(pix)), Pixels(pix);
      |u| == |p| && forall i :: 0 <= i < |u| ==> u[i] == p[if i % 2 == 0 then i + 1 else i - 1]
  {
    var u, p := Unpacked(LowFirstFrame(pix)), Pixels(pix);
    forall i | 0 <= i < |u|
      ensures u[i] == p[if i % 2 == 0 then i + 1 else i - 1]
    {
      var k := i / 2;
      RowMajorPair(k);
      PairNibbles(p[2 * k + 1], p[2 * k]);
    }
  }

  /**
   * Pixels 2k and 2k + 1 of a full-screen image are pixels 2m and 2m + 1 of
   * row y, where byte k is pair m of row y.
   */
  lemma RowMajorPair(k: int)
    requires 0 <= k < Width * Height / 2
    ensures var m, y := k % (Width / 2), k / (Width / 2);
      (2 * k) % Width == 2 * m && (2 * k) / Width == y && (2 * k + 1) % Width == 2 * m + 1 && (2 * k + 1) / Width == y
  {
    assert Width / 2 == 400 && Width == 800;
    var m, y := k % 400, k / 400;
    assert 2 * k == y * 800 + 2 * m;
  }

  /** Byte `k` of a frame packed as `shrink` packs: pair m of row y, the even pixel in the HIGH nibble. */
  function HighFirstByte(pix: (int, int) -> bv8, k: int): bv8 {
    var m, y := k % (Width / 2), k / (Width / 2);
    Pair(pix(2 * m, y), pix(2 * m + 1, y))
  }

  /** A full-screen frame with the even pixel of each pair in the high nibble. */
  function HighFirstFrame(pix: (int, int) -> bv8): seq<bv8> {
    seq(Width * Height / 2, k requires 0 <= k < Width * Height / 2 => HighFirstByte(pix, k))
  }

  /** Packing an image's pixels is laying out its high-first bytes. */
  lemma PackedPixels(pix: (int, int) -> bv8)
    ensures Packed(Pixels(pix)) == HighFirstFrame(pix)
  {
    forall k | 0 <= k < Width * Height / 2
      ensures Packed(Pixels(pix))[k] == HighFirstByte(pix, k)
    {
      RowMajorPair(k);
    }
  }

  /** Or-ing a colour into a zeroed byte shifted by four, or unshifted into a byte holding the high pixel. */
  lemma OrColourHigh(hi: bv8, c: bv8)
    ensures (0 as bv8 | (c << 4)) == c << 4 && ((hi << 4) | (c << 0)) == Pair(hi, c)
  {
  }

  /** The buffer of the corrected `demobuf` before pixel (x, y), the even pixel of a pair kept in the high nibble. */
  predicate DrawnHighFirst(pix: (int, int) -> bv8, s: seq<bv8>, x: int, y: int) {
    && 0 <= x <= Width && 0 <= y <= Height && (y == Height ==> x == 0) && |s| == Width * Height / 2
    && (forall k :: 0 <= k < y * 400 + x / 2 ==> s[k] == HighFirstByte(pix, k))
    && (x % 2 == 1 ==> s[y * 400 + x / 2] == pix(x - 1, y) << 4)
    && (forall k :: y * 400 + (x + 1) / 2 <= k < |s| ==> s[k] == 0)
  }

  /** Or-ing pixel (x, y)'s colour into its byte, shifted by four for even x, draws one more pixel. */
  lemma DrawHighFirstStep(pix: (int, int) -> bv8, s: seq<bv8>, x: int, y: int)
    requires x < Width && y < Height && DrawnHighFirst(pix, s, x, y)
    ensures var k := (y * Width + x) / 2;
      DrawnHighFirst(pix, s[k := s[k] | (pix(x, y) << (4 * (1 - x % 2)))], x + 1, y)
  {
    DemoIndex(x, y);
    var k := y * 400 + x / 2;
    if x % 2 == 0 {
      assert s[k] == 0;
      OrColourHigh(0, pix(x, y));
    } else {
      OrColourHigh(pix(x - 1, y), pix(x, y));
    }
  }

  /** The inner loop of row y: each pixel's colour or-ed into its byte, shifted by four bits for even x. */
  method DrawHighFirstRow(pix: (int, int) -> bv8, buf: array<bv8>, y: int)
    requires y < Height && DrawnHighFirst(pix, buf[..], 0, y)
    modifies buf
    ensures DrawnHighFirst(pix, buf[..], 0, y + 1)
  {
    var x := 0;
    while x < Width
      invariant DrawnHighFirst(pix, buf[..], x, y)
    {
      var k := (y * Width + x) / 2;
      DrawHighFirstStep(pix, buf[..], x, y);
      buf[k] := buf[k] | (pix(x, y) << (4 * (1 - x % 2)));
      x := x + 1;
    }
  }

  /**
   * The loops of `demobuf` with the shift the frame format asks for: the
   * even pixel of each pair in the high nibble. What they draw is the image
   * packed as `shrink` packs it.
   */
  method DrawHighFirst(pix: (int, int) -> bv8) returns (buf: array<bv8>)
    ensures fresh(buf)
    ensures buf[..] == Packed(Pixels(pix))
  {
    buf := new bv8[Width * Height / 2](_ => 0);
    var y := 0;
    while y < Height
      invariant DrawnHighFirst(pix, buf[..], 0, y)
    {
      DrawHighFirstRow(pix, buf, y);
      y := y + 1;
    }
    assert buf[..] == HighFirstFrame(pix);
    PackedPixels(pix);
  }

  /** The corrected `demobuf`: the stripes packed as `shrink` packs them, unpacking to the stripes. */
  method DemobufIntended() returns (buf: array<bv8>)
    ensures fresh(buf)
    ensures buf[..] == Packed(Pixels(DemoPixel)) && Unpacked(buf[..]) == Pixels(DemoPixel)
  {
    buf := DrawHighFirst(DemoPixel);
    DemoPixelNibbles();
    UnpackPacked(Pixels(DemoPixel));
  }

  /**
   * In a frame drawn the way `demobuf` draws, pixel (x, y) is in byte
   * `(y * Width + x) / 2`: in its low nibble for even x and its high nibble
   * for odd x.
   */
  lemma LowFirstNibbles(pix: (int, int) -> bv8, x: int, y: int)
    requires 0 <= x < Width && 0 <= y < Height
    requires pix(x - x % 2, y) < 16 && pix(x - x % 2 + 1, y) < 16
    ensures |LowFirstFrame(pix)| == Width * Height / 2
    ensures var b := LowFirstFrame(pix)[(y * Width + x) / 2];
      (if x % 2 == 0 then Low(b) else High(b)) == pix(x, y)
  {
    DemoIndex(x, y);
    var m := x / 2;
    PairNibbles(pix(2 * m + 1, y), pix(2 * m, y));
  }

  /** The same for the frame `demobuf` builds, whose pixels are all palette indices. */
  lemma DemoFrameNibbles(x: int, y: int)
    requires 0 <= x < Width && 0 <= y < Height
    ensures |DemoFrame()| == Width * Height / 2
    ensures var b := DemoFrame()[(y * Width + x) / 2];
      (if x % 2 == 0 then Low(b) else High(b)) == DemoPixel(x, y)
  {
    DemoPixelNibbles();
    LowFirstNibbles(DemoPixel, x, y);
  }
}
