/** The thumbnail scaler: how large the target is, which box of source pixels each target pixel
    averages, and the nested loops that do it. Scale and steps are exact quotients. */
module Thumbnail {
  // Sixteen bits a channel going in, eight coming out.
  type Wide = n: int | 0 <= n < 0x10000
  type Byte = n: int | 0 <= n < 0x100

  datatype Colour = Colour(red: Wide, green: Wide, blue: Wide, alpha: Wide)
  datatype Pixel = Pixel(red: Byte, green: Byte, blue: Byte, alpha: Byte)

  // An image covers a rectangle that need not start at the origin.
  datatype Image = Image(minX: int, minY: int, width: int, height: int, pixels: (int, int) -> Colour) {
    predicate Covers(x: int, y: int) {
      minX <= x < minX + width && minY <= y < minY + height
    }

    // Outside the rectangle there is transparent black.
    function At(x: int, y: int): Colour {
      if Covers(x, y) then pixels(x, y) else Colour(0, 0, 0, 0)
    }
  }

  function Max(a: int, b: int): int {
    if a > b then a else b
  }

  // ----- Dimensions -----

  predicate Shrinks(source: Image, size: int) {
    Max(source.width, source.height) > size
  }

  // One edge of the target.
  function Scaled(edge: int, longest: int, size: int): int
    requires longest > 0
  {
    if longest > size then Max(1, edge * size / longest) else Max(1, edge)
  }

  function TargetWidth(source: Image, size: int): int
    requires source.width >= 1
  {
    Scaled(source.width, Max(source.width, source.height), size)
  }

  function TargetHeight(source: Image, size: int): int
    requires source.width >= 1
  {
    Scaled(source.height, Max(source.width, source.height), size)
  }

  // ----- Boxes -----

  // Where the box of the n-th of count target pixels begins along an edge of the source.
  function Edge(n: int, length: int, count: int): int
    requires count > 0
  {
    n * length / count
  }

  // A box of source pixels, the right and the bottom edge not included.
  datatype Box = Box(left: int, right: int, top: int, bottom: int) {
    predicate Has(x: int, y: int) {
      left <= x < right && top <= y < bottom
    }

    // At least one pixel each way.
    function AtLeastOne(): Box {
      Box(left, Max(right, left + 1), top, Max(bottom, top + 1))
    }

    predicate Within(source: Image) {
      source.minX <= left && right <= source.minX + source.width
      && source.minY <= top && bottom <= source.minY + source.height
    }
  }

  function BoxOf(source: Image, size: int, x: int, y: int): Box
    requires source.width >= 1
  {
    var w, h := TargetWidth(source, size), TargetHeight(source, size);
    Box(source.minX + Edge(x, source.width, w), source.minX + Edge(x + 1, source.width, w),
        source.minY + Edge(y, source.height, h), source.minY + Edge(y + 1, source.height, h))
  }

  // ----- Averages -----

  // What is added up over a box; One counts the pixels.
  datatype Channel = Red | Green | Blue | Alpha | One

  function Value(source: Image, channel: Channel, x: int, y: int): (r: nat)
    ensures r < 0x10000
  {
    var colour := source.At(x, y);
    match channel
    case Red => colour.red
    case Green => colour.green
    case Blue => colour.blue
    case Alpha => colour.alpha
    case One => 1
  }

  function RowSum(source: Image, channel: Channel, y: int, left: int, right: int): nat
    decreases right - left
  {
    if right <= left then 0 else RowSum(source, channel, y, left, right - 1) + Value(source, channel, right - 1, y)
  }

  function BoxSum(source: Image, channel: Channel, left: int, right: int, top: int, bottom: int): nat
    decreases bottom - top
  {
    if bottom <= top then 0
    else BoxSum(source, channel, left, right, top, bottom - 1) + RowSum(source, channel, bottom - 1, left, right)
  }

  function SumOver(source: Image, channel: Channel, box: Box): nat {
    BoxSum(source, channel, box.left, box.right, box.top, box.bottom)
  }

  function Count(source: Image, box: Box): nat {
    SumOver(source, One, box)
  }

  // The mean of a channel over a box, cut down to eight bits.
  function Mean(source: Image, channel: Channel, box: Box): nat
    requires Count(source, box) > 0
  {
    SumOver(source, channel, box) / Count(source, box) / 0x100
  }

  predicate IsMean(pixel: Pixel, source: Image, box: Box)
    requires Count(source, box) > 0
  {
    && pixel.red == Mean(source, Red, box)
    && pixel.green == Mean(source, Green, box)
    && pixel.blue == Mean(source, Blue, box)
    && pixel.alpha == Mean(source, Alpha, box)
  }

  lemma Distributes(a: int, b: int, c: int)
    ensures a * (b + c) == a * b + a * c
  {
  }

  predicate RowWithin(source: Image, channel: Channel, y: int, left: int, right: int, low: nat, high: nat) {
    forall x :: left <= x < right ==> low <= Value(source, channel, x, y) <= high
  }

  predicate BoxWithin(source: Image, channel: Channel, box: Box, low: nat, high: nat) {
    forall y :: box.top <= y < box.bottom ==> RowWithin(source, channel, y, box.left, box.right, low, high)
  }

  lemma {:induction false} RowBetween(source: Image, channel: Channel, y: int, left: int, right: int, low: nat, high: nat)
    requires RowWithin(source, channel, y, left, right, low, high)
    ensures low * RowSum(source, One, y, left, right) <= RowSum(source, channel, y, left, right)
    ensures RowSum(source, channel, y, left, right) <= high * RowSum(source, One, y, left, right)
    decreases right - left
  {
    if left < right {
      RowBetween(source, channel, y, left, right - 1, low, high);
      Distributes(low, RowSum(source, One, y, left, right - 1), 1);
      Distributes(high, RowSum(source, One, y, left, right - 1), 1);
    }
  }

  lemma {:induction false} BoxBetween(source: Image, channel: Channel, box: Box, low: nat, high: nat)
    requires BoxWithin(source, channel, box, low, high)
    ensures low * Count(source, box) <= SumOver(source, channel, box) <= high * Count(source, box)
    decreases box.bottom - box.top
  {
    if box.top < box.bottom {
      var above, y := box.(bottom := box.bottom - 1), box.bottom - 1;
      BoxBetween(source, channel, above, low, high);
      RowBetween(source, channel, y, box.left, box.right, low, high);
      Distributes(low, Count(source, above), RowSum(source, One, y, box.left, box.right));
      Distributes(high, Count(source, above), RowSum(source, One, y, box.left, box.right));
    }
  }

  lemma {:induction false} RowCount(source: Image, y: int, left: int, right: int)
    ensures RowSum(source, One, y, left, right) == Max(0, right - left)
    decreases right - left
  {
    if left < right {
      RowCount(source, y, left, right - 1);
    }
  }

  /** As many pixels as the box is wide times high. */
  lemma {:induction false} BoxCount(source: Image, box: Box)
    requires box.left < box.right && box.top <= box.bottom
    ensures Count(source, box) == (box.right - box.left) * (box.bottom - box.top)
    decreases box.bottom - box.top
  {
    if box.top < box.bottom {
      BoxCount(source, box.(bottom := box.bottom - 1));
      RowCount(source, box.bottom - 1, box.left, box.right);
      Distributes(box.right - box.left, box.bottom - 1 - box.top, 1);
    }
  }

  lemma QuotientAtMost(a: int, b: int, bound: int)
    requires b > 0
    ensures a / b <= bound <==> a < (bound + 1) * b
  {
    var q := a / b;
    assert q * b <= a < (q + 1) * b;
    if q <= bound {
      assert (q + 1) * b <= (bound + 1) * b;
    } else {
      assert (bound + 1) * b <= q * b;
    }
  }

  /** A mean lies between the bounds of what it averages, each cut down to eight bits. */
  lemma MeanBetween(source: Image, channel: Channel, box: Box, low: nat, high: nat)
    requires Count(source, box) > 0 && BoxWithin(source, channel, box, low, high)
    ensures low / 0x100 <= Mean(source, channel, box) <= high / 0x100
  {
    var total, count := SumOver(source, channel, box), Count(source, box);
    BoxBetween(source, channel, box, low, high);
    QuotientAtMost(total, count, low - 1);
    QuotientAtMost(total, count, high);
    Distributes(count, high, 1);
  }

  lemma BoxIsNotEmpty(source: Image, box: Box)
    requires box.left < box.right && box.top < box.bottom
    ensures Count(source, box) > 0
  {
    BoxCount(source, box);
  }

  /** The box holds at least one pixel, so there is always something to divide by. */
  method Average(source: Image, box: Box) returns (pixel: Pixel)
    ensures Count(source, box.AtLeastOne()) > 0 && IsMean(pixel, source, box.AtLeastOne())
  {
    var right, bottom := Max(box.right, box.left + 1), Max(box.bottom, box.top + 1);
    var red, green, blue, alpha, count := 0, 0, 0, 0, 0;
    var y := box.top;
    while y < bottom
      invariant box.top <= y <= bottom
      invariant red == BoxSum(source, Red, box.left, right, box.top, y)
      invariant green == BoxSum(source, Green, box.left, right, box.top, y)
      invariant blue == BoxSum(source, Blue, box.left, right, box.top, y)
      invariant alpha == BoxSum(source, Alpha, box.left, right, box.top, y)
      invariant count == BoxSum(source, One, box.left, right, box.top, y)
    {
      ghost var r, g, b, a, n := red, green, blue, alpha, count;
      var x := box.left;
      while x < right
        invariant box.left <= x <= right
        invariant red == r + RowSum(source, Red, y, box.left, x)
        invariant green == g + RowSum(source, Green, y, box.left, x)
        invariant blue == b + RowSum(source, Blue, y, box.left, x)
        invariant alpha == a + RowSum(source, Alpha, y, box.left, x)
        invariant count == n + RowSum(source, One, y, box.left, x)
      {
        var colour := source.At(x, y);
        red, green, blue, alpha := red + colour.red, green + colour.green, blue + colour.blue, alpha + colour.alpha;
        count := count + 1;
        x := x + 1;
      }
      y := y + 1;
    }
    BoxIsNotEmpty(source, box.AtLeastOne());
    MeanBetween(source, Red, box.AtLeastOne(), 0, 0xffff);
    MeanBetween(source, Green, box.AtLeastOne(), 0, 0xffff);
    MeanBetween(source, Blue, box.AtLeastOne(), 0, 0xffff);
    MeanBetween(source, Alpha, box.AtLeastOne(), 0, 0xffff);
    pixel := Pixel(red / count / 0x100, green / count / 0x100, blue / count / 0x100, alpha / count / 0x100);
  }

  // ----- The boxes lie within the source and hold at least a pixel -----

  lemma TargetIsSmaller(source: Image, size: int)
    requires source.width >= 1 && source.height >= 1 && size >= 1
    ensures 1 <= TargetWidth(source, size) <= source.width
    ensures 1 <= TargetHeight(source, size) <= source.height
  {
    var longest := Max(source.width, source.height);
    if longest > size {
      ScaledIsSmaller(source.width, longest, size);
      ScaledIsSmaller(source.height, longest, size);
    }
  }

  lemma ProductGrows(factor: nat, small: int, large: int)
    requires small <= large
    ensures factor * small <= factor * large
  {
  }

  lemma QuotientBelow(a: int, b: int, bound: int)
    requires b > 0 && a <= b * bound
    ensures a / b <= bound
  {
    QuotientAtMost(a, b, bound);
    Distributes(b, bound, 1);
  }

  lemma ScaledIsSmaller(edge: int, longest: int, size: int)
    requires 1 <= edge <= longest && 1 <= size < longest
    ensures 1 <= Scaled(edge, longest, size) <= edge
    ensures Scaled(edge, longest, size) <= size
  {
    var product := edge * size;
    assert product <= longest * edge by {
      ProductGrows(edge, size, longest);
    }
    assert product <= longest * size by {
      ProductGrows(size, edge, longest);
    }
    QuotientBelow(product, longest, edge);
    QuotientBelow(product, longest, size);
  }

  lemma LongestEdge(longest: int, size: int)
    requires 1 <= size < longest
    ensures Scaled(longest, longest, size) == size
  {
    QuotientAtMost(longest * size, longest, size);
    QuotientAtMost(longest * size, longest, size - 1);
    Distributes(longest, size, 1);
  }

  lemma EdgesGrow(n: int, length: int, count: int)
    requires 1 <= count <= length
    ensures Edge(n, length, count) + 1 <= Edge(n + 1, length, count)
  {
    assert (n + 1) * length == n * length + length;
    var q := n * length / count;
    assert q * count <= n * length;
    QuotientAtMost((n + 1) * length, count, q);
  }

  lemma EdgeEnds(length: int, count: int)
    requires 1 <= count <= length
    ensures Edge(0, length, count) == 0 && Edge(count, length, count) == length
  {
    QuotientAtMost(count * length, count, length);
    QuotientAtMost(count * length, count, length - 1);
  }

  lemma {:induction false} EdgesInRange(n: int, length: int, count: int)
    requires 1 <= count <= length && 0 <= n <= count
    ensures 0 <= Edge(n, length, count) <= length
  {
    assert 0 * length <= n * length <= count * length;
    QuotientAtMost(n * length, count, length);
    QuotientAtMost(n * length, count, -1);
  }

  lemma BoxIsInside(source: Image, size: int, x: int, y: int)
    requires source.width >= 1 && source.height >= 1 && size >= 1
    requires 0 <= x < TargetWidth(source, size) && 0 <= y < TargetHeight(source, size)
    ensures BoxOf(source, size, x, y).AtLeastOne() == BoxOf(source, size, x, y)
    ensures BoxOf(source, size, x, y).Within(source)
    ensures Count(source, BoxOf(source, size, x, y)) > 0
  {
    var w, h := TargetWidth(source, size), TargetHeight(source, size);
    TargetIsSmaller(source, size);
    EdgesGrow(x, source.width, w);
    EdgesGrow(y, source.height, h);
    EdgesInRange(x, source.width, w);
    EdgesInRange(x + 1, source.width, w);
    EdgesInRange(y, source.height, h);
    EdgesInRange(y + 1, source.height, h);
    BoxIsNotEmpty(source, BoxOf(source, size, x, y));
  }

  // ----- Scaling -----

  // What one target pixel should be: a mean when shrinking, a copy otherwise, and in both cases
  // of pixels the source covers.
  ghost predicate Rendered(source: Image, size: int, x: int, y: int, pixel: Pixel)
    requires source.width >= 1 && source.height >= 1 && size >= 1
    requires 0 <= x < TargetWidth(source, size) && 0 <= y < TargetHeight(source, size)
  {
    if Shrinks(source, size) then
      BoxIsInside(source, size, x, y);
      BoxOf(source, size, x, y).Within(source) && IsMean(pixel, source, BoxOf(source, size, x, y))
    else
      var colour := source.At(source.minX + x, source.minY + y);
      && source.Covers(source.minX + x, source.minY + y)
      && pixel == Pixel(colour.red / 0x100, colour.green / 0x100, colour.blue / 0x100, colour.alpha / 0x100)
  }

  /** Every target pixel is rendered from the source, without a read outside it. */
  method ScaleToFit(source: Image, size: int) returns (target: array2<Pixel>)
    requires source.width >= 1 && source.height >= 1 && size >= 1
    ensures target.Length0 == TargetWidth(source, size) && target.Length1 == TargetHeight(source, size)
    ensures forall x, y :: 0 <= x < target.Length0 && 0 <= y < target.Length1 ==> Rendered(source, size, x, y, target[x, y])
  {
    TargetIsSmaller(source, size);
    var w, h := TargetWidth(source, size), TargetHeight(source, size);
    target := new Pixel[w, h]((x, y) => Pixel(0, 0, 0, 0));
    if !Shrinks(source, size) {
      Copy(source, size, target);
      return;
    }
    for y := 0 to h
      invariant forall i, j :: 0 <= i < w && 0 <= j < y ==> Rendered(source, size, i, j, target[i, j])
    {
      for x := 0 to w
        invariant forall i, j :: 0 <= i < w && 0 <= j < y ==> Rendered(source, size, i, j, target[i, j])
        invariant forall i :: 0 <= i < x ==> Rendered(source, size, i, y, target[i, y])
      {
        BoxIsInside(source, size, x, y);
        var pixel := Average(source, BoxOf(source, size, x, y));
        target[x, y] := pixel;
      }
    }
  }

  method Copy(source: Image, size: int, target: array2<Pixel>)
    requires source.width >= 1 && source.height >= 1 && size >= 1 && !Shrinks(source, size)
    requires target.Length0 == TargetWidth(source, size) && target.Length1 == TargetHeight(source, size)
    modifies target
    ensures forall x, y :: 0 <= x < target.Length0 && 0 <= y < target.Length1 ==> Rendered(source, size, x, y, target[x, y])
  {
    forall x, y | 0 <= x < target.Length0 && 0 <= y < target.Length1 {
      target[x, y] :=
        var colour := source.At(source.minX + x, source.minY + y);
        Pixel(colour.red / 0x100, colour.green / 0x100, colour.blue / 0x100, colour.alpha / 0x100);
    }
  }
}
