/**
 * The panel's canvas and palette indices, and where a source image of a
 * given size is placed on the canvas before it is scaled into it.
 */
module Canvas {

  /** The panel is 800 pixels wide and 480 high. */
  const Width: int := 800
  const Height: int := 480

  // Palette indices, in palette order.
  const Black: bv8 := 0
  const White: bv8 := 1
  const Green: bv8 := 2
  const Blue: bv8 := 3
  const Red: bv8 := 4
  const Yellow: bv8 := 5
  const Orange: bv8 := 6

  // ----- where the scaled image goes -------------------------------------------

  /** `image.Rectangle`: the corners (x0, y0) and (x1, y1), exclusive at (x1, y1). */
  datatype Rect = Rect(x0: int, y0: int, x1: int, y1: int)

  /** Go's integer `/`, which truncates toward zero (Dafny's rounds toward minus infinity for a negative dividend). */
  function GoQuo(a: int, b: int): int
    requires b > 0
  {
    if a >= 0 then a / b else -((-a) / b)
  }

  /**
   * The region of the canvas an image `dx` by `dy` pixels is scaled into:
   * full height and centred across, unless the image is wider than the
   * constant `Width / Height`, in which case full width and centred down.
   * Go's conversion of a non-negative float to int is the floor. An image
   * with no columns has ratio 0 and is placed as a tall one.
   */
  function Fit(dx: int, dy: int): Rect
    requires dx >= 0 && dy > 0
  {
    var ratio := dx as real / dy as real;
    var w := (Height as real * ratio).Floor;
    var across := Rect(GoQuo(Width - w, 2), 0, GoQuo(Width - w, 2) + w, Height);
    if ratio > (Width / Height) as real then
      var h := (Width as real / ratio).Floor;
      Rect(0, GoQuo(Height - h, 2), Width, GoQuo(Height - h, 2) + h)
    else across
  }

  /** The floor of an exact quotient is the integer quotient. */
  lemma FloorOfQuotient(a: int, b: int)
    requires a >= 0 && b > 0
    ensures (a as real / b as real).Floor == a / b
  {
    var q, r := a / b, a % b;
    assert a as real == q as real * b as real + r as real;
    assert a as real / b as real == q as real + r as real / b as real;
    assert 0.0 <= r as real / b as real < 1.0;
  }

  /** The scaled width and height as integer quotients of the image size. */
  lemma FitSizes(dx: int, dy: int)
    requires dx > 0 && dy > 0
    ensures (Height as real * (dx as real / dy as real)).Floor == Height * dx / dy
    ensures (Width as real / (dx as real / dy as real)).Floor == Width * dy / dx
  {
    var ratio := dx as real / dy as real;
    assert Height as real * ratio == (Height * dx) as real / dy as real;
    FloorOfQuotient(Height * dx, dy);
    assert Width as real / ratio == (Width * dy) as real / dx as real;
    FloorOfQuotient(Width * dy, dx);
  }

  /** Bounding an integer quotient from above. */
  lemma QuotientAtMost(a: int, b: int, c: int)
    requires a >= 0 && b > 0 && c >= 0
    ensures a / b <= c <==> a < (c + 1) * b
  {
    var q, r := a / b, a % b;
    assert a == q * b + r && 0 <= r < b;
    if q <= c {
      ScaleAtMost(q + 1, c + 1, b);
    } else {
      ScaleAtMost(c + 1, q, b);
    }
  }

  /** Scaling by a non-negative factor keeps the order. */
  lemma ScaleAtMost(x: int, y: int, b: int)
    requires x <= y && b >= 0
    ensures x * b <= y * b && (x + 1) * b == x * b + b
  {
    assert y * b - x * b == (y - x) * b;
  }

  /** Comparing two aspect ratios by cross-multiplying. */
  lemma RatioAbove(dx: int, dy: int, p: int, q: int)
    requires dx > 0 && dy > 0 && p > 0 && q > 0
    ensures dx as real / dy as real > p as real / q as real <==> p * dy < q * dx
  {
    var a, b := dx as real / dy as real, p as real / q as real;
    assert a * dy as real == dx as real;
    assert b * q as real == p as real;
    assert (a - b) * (dy as real * q as real) == (q * dx - p * dy) as real;
  }

  /** Fit in integer arithmetic: the comparison is `dx > dy`, and the sizes are integer quotients. */
  lemma FitInIntegers(dx: int, dy: int)
    requires dx > 0 && dy > 0
    ensures Fit(dx, dy) ==
      if dy < dx then
        var h := Width * dy / dx; Rect(0, GoQuo(Height - h, 2), Width, GoQuo(Height - h, 2) + h)
      else
        var w := Height * dx / dy; Rect(GoQuo(Width - w, 2), 0, GoQuo(Width - w, 2) + w, Height)
  {
    FitSizes(dx, dy);
    RatioAbove(dx, dy, 1, 1);
  }

  /**
   * An image no wider than it is high fills the canvas height and is
   * centred across it, inside the canvas, the extra pixel of an odd margin
   * on the right.
   */
  lemma FitTall(dx: int, dy: int)
    requires 0 < dx <= dy
    ensures var r := Fit(dx, dy);
      r.y0 == 0 && r.y1 == Height && r.x1 - r.x0 == Height * dx / dy &&
      0 <= r.x0 <= r.x1 <= Width && 0 <= (Width - r.x1) - r.x0 <= 1
  {
    FitInIntegers(dx, dy);
    QuotientAtMost(Height * dx, dy, Height);
  }

  /**
   * An image wider than it is high fills the canvas width, and its height
   * is `Width * dy / dx`, centred down the canvas; where that height
   * exceeds the canvas, the region reaches past the bottom edge, and past
   * the top as well once the height is 482 or more: since Go's division
   * truncates toward zero, the extra pixel goes below, not above.
   */
  lemma FitWide(dx: int, dy: int)
    requires 0 < dy < dx
    ensures var r := Fit(dx, dy);
      var h := Width * dy / dx;
      r.x0 == 0 && r.x1 == Width && r.y1 - r.y0 == h &&
      (h <= Height ==> 0 <= r.y0 && r.y1 <= Height && 0 <= (Height - r.y1) - r.y0 <= 1) &&
      (h > Height ==> r.y0 <= 0 && r.y1 > Height && -1 <= (Height - r.y1) - r.y0 <= 0)
  {
    FitInIntegers(dx, dy);
    QuotientAtMost(Width * dy, dx, Height);
  }

  /**
   * The region spills past the top or bottom of the canvas exactly for
   * images wider than high but with `Width * dy / dx` above `Height`, that
   * is of aspect ratio in (1, 800/481]: the comparison is with the integer
   * quotient `Width / Height`, which is 1, not 5/3.
   */
  lemma FitSpills(dx: int, dy: int)
    requires dx > 0 && dy > 0
    ensures var r := Fit(dx, dy);
      (r.y0 < 0 || r.y1 > Height) <==> (dy < dx && 481 * dx <= Width * dy)
  {
    if dy < dx {
      FitWide(dx, dy);
      QuotientAtMost(Width * dy, dx, Height);
    } else {
      FitTall(dx, dy);
    }
  }

  /** An image with no columns gets an empty column in the middle of the canvas, full height. */
  lemma FitNoColumns(dy: int)
    requires dy > 0
    ensures Fit(0, dy) == Rect(Width / 2, 0, Width / 2, Height)
  {
    assert (Height as real * (0 as real / dy as real)).Floor == 0;
  }

  /** A 6 by 5 image, for one: the region is 666 pixels high and starts 93 above the canvas. */
  lemma FitSpillsExample()
    ensures Fit(6, 5) == Rect(0, -93, 800, 573)
    ensures Fit(800, 481) == Rect(0, 0, 800, 481)
  {
    FitSizes(6, 5);
    FitSizes(800, 481);
  }

  /**
   * The placement the code evidently intends: compare the image's aspect
   * ratio with the canvas's, 5/3.
   */
  function FitIntended(dx: int, dy: int): Rect
    requires dx > 0 && dy > 0
  {
    var ratio := dx as real / dy as real;
    var w := (Height as real * ratio).Floor;
    var across := Rect(GoQuo(Width - w, 2), 0, GoQuo(Width - w, 2) + w, Height);
    if ratio > Width as real / Height as real then
      var h := (Width as real / ratio).Floor;
      Rect(0, GoQuo(Height - h, 2), Width, GoQuo(Height - h, 2) + h)
    else across
  }

  /**
   * With that comparison the region always lies inside the canvas, spans
   * it in one direction and is centred in the other.
   */
  lemma FitIntendedInside(dx: int, dy: int)
    requires dx > 0 && dy > 0
    ensures var r := FitIntended(dx, dy);
      0 <= r.x0 <= r.x1 <= Width && 0 <= r.y0 <= r.y1 <= Height &&
      ((r.y0 == 0 && r.y1 == Height && 0 <= (Width - r.x1) - r.x0 <= 1) ||
       (r.x0 == 0 && r.x1 == Width && 0 <= (Height - r.y1) - r.y0 <= 1))
  {
    FitSizes(dx, dy);
    RatioAbove(dx, dy, Width, Height);
    QuotientAtMost(Width * dy, dx, Height);
    QuotientAtMost(Height * dx, dy, Width);
  }
}
