/** The thumbnail fits the requested edge, and its boxes tile the source: every source pixel
    counts in exactly one target pixel, so nothing is lost and nothing is counted twice. */
module ThumbnailTheory {
  import opened Thumbnail

  /** The target fits, keeps at least one pixel each way and never grows; an image that fits
      already keeps its size, and one that does not ends up with its longest edge as asked. */
  lemma TargetFits(source: Image, size: int)
    requires source.width >= 1 && source.height >= 1 && size >= 1
    ensures var w, h := TargetWidth(source, size), TargetHeight(source, size);
            && 1 <= w <= size && 1 <= h <= size && w <= source.width && h <= source.height
            && (Shrinks(source, size) ==> Max(w, h) == size)
            && (!Shrinks(source, size) ==> w == source.width && h == source.height)
  {
    var longest := Max(source.width, source.height);
    TargetIsSmaller(source, size);
    if longest > size {
      ScaledIsSmaller(source.width, longest, size);
      ScaledIsSmaller(source.height, longest, size);
      LongestEdge(longest, size);
    }
  }

  /** Each edge of a shrunk target is the whole part of what the ratio of the requested edge to
      the longest one leaves of it, and one pixel where that is nothing. */
  lemma EdgesInRatio(source: Image, size: int)
    requires source.width >= 1 && source.height >= 1 && size >= 1 && Shrinks(source, size)
    ensures var longest := if source.width > source.height then source.width else source.height;
            && WholePart(TargetWidth(source, size), source.width * size, longest)
            && WholePart(TargetHeight(source, size), source.height * size, longest)
  {
    var longest := Max(source.width, source.height);
    WholePartOf(source.width * size, longest);
    WholePartOf(source.height * size, longest);
  }

  // The whole part of a quotient, but at least one.
  predicate WholePart(edge: int, product: int, longest: int) {
    edge * longest <= product < (edge + 1) * longest || (edge == 1 && product < longest)
  }

  lemma WholePartOf(product: int, longest: int)
    requires longest > 0 && product > 0
    ensures WholePart(Max(1, product / longest), product, longest)
  {
    var q := product / longest;
    assert q * longest <= product < (q + 1) * longest;
    QuotientAtMost(product, longest, 0);
    QuotientAtMost(product, longest, -1);
  }

  // ----- Every source pixel in exactly one box -----

  // The target column (or row) a source column falls into.
  function Owner(s: int, length: int, count: int): int
    requires length > 0
  {
    ((s + 1) * count - 1) / length
  }

  lemma EdgeAtMost(n: int, s: int, length: int, count: int)
    requires 1 <= count <= length
    ensures Edge(n, length, count) <= s <==> n <= Owner(s, length, count)
  {
    // Both say n * length < (s + 1) * count.
    QuotientAtMost(n * length, count, s);
    QuotientAtMost((s + 1) * count - 1, length, n - 1);
  }

  lemma OwnedOnce(s: int, length: int, count: int, n: int)
    requires 1 <= count <= length
    ensures Edge(n, length, count) <= s < Edge(n + 1, length, count) <==> n == Owner(s, length, count)
  {
    EdgeAtMost(n, s, length, count);
    EdgeAtMost(n + 1, s, length, count);
  }

  lemma OwnerInRange(s: int, length: int, count: int)
    requires 1 <= count <= length && 0 <= s < length
    ensures 0 <= Owner(s, length, count) < count
  {
    EdgeEnds(length, count);
    EdgeAtMost(0, s, length, count);
    EdgeAtMost(count, s, length, count);
  }

  /** Each covered pixel is in the box of one target pixel, and in no other. */
  lemma BoxesTile(source: Image, size: int, sx: int, sy: int)
    requires source.width >= 1 && source.height >= 1 && size >= 1 && source.Covers(sx, sy)
    ensures var w, h := TargetWidth(source, size), TargetHeight(source, size);
            exists x, y ::
              && 0 <= x < w && 0 <= y < h && BoxOf(source, size, x, y).Has(sx, sy)
              && forall i, j :: BoxOf(source, size, i, j).Has(sx, sy) ==> i == x && j == y
  {
    var w, h := TargetWidth(source, size), TargetHeight(source, size);
    TargetIsSmaller(source, size);
    var x, y := Owner(sx - source.minX, source.width, w), Owner(sy - source.minY, source.height, h);
    OwnerInRange(sx - source.minX, source.width, w);
    OwnerInRange(sy - source.minY, source.height, h);
    forall i, j ensures BoxOf(source, size, i, j).Has(sx, sy) <==> i == x && j == y {
      OwnedOnce(sx - source.minX, source.width, w, i);
      OwnedOnce(sy - source.minY, source.height, h, j);
    }
    assert BoxOf(source, size, x, y).Has(sx, sy);
  }

  /** Which box a pixel is in: the one in the same proportion along each edge. */
  lemma BoxInProportion(source: Image, size: int, x: int, y: int, sx: int, sy: int)
    requires source.width >= 1 && source.height >= 1 && size >= 1
    ensures var w, h, i, j := TargetWidth(source, size), TargetHeight(source, size), sx - source.minX, sy - source.minY;
            BoxOf(source, size, x, y).Has(sx, sy) <==>
            && x * source.width < (i + 1) * w <= (x + 1) * source.width
            && y * source.height < (j + 1) * h <= (y + 1) * source.height
  {
    TargetIsSmaller(source, size);
    var w, h, i, j := TargetWidth(source, size), TargetHeight(source, size), sx - source.minX, sy - source.minY;
    QuotientAtMost(x * source.width, w, i);
    QuotientAtMost((x + 1) * source.width, w, i);
    QuotientAtMost(y * source.height, h, j);
    QuotientAtMost((y + 1) * source.height, h, j);
  }

  // ----- Adding up the boxes adds up the source -----

  lemma {:induction false} RowSplit(source: Image, channel: Channel, y: int, left: int, middle: int, right: int)
    requires left <= middle <= right
    ensures RowSum(source, channel, y, left, right)
            == RowSum(source, channel, y, left, middle) + RowSum(source, channel, y, middle, right)
    decreases right - middle
  {
    if middle < right {
      RowSplit(source, channel, y, left, middle, right - 1);
    }
  }

  lemma {:induction false} SplitAcross(source: Image, channel: Channel, left: int, middle: int, right: int, top: int, bottom: int)
    requires left <= middle <= right
    ensures BoxSum(source, channel, left, right, top, bottom)
            == BoxSum(source, channel, left, middle, top, bottom) + BoxSum(source, channel, middle, right, top, bottom)
    decreases bottom - top
  {
    if top < bottom {
      SplitAcross(source, channel, left, middle, right, top, bottom - 1);
      RowSplit(source, channel, bottom - 1, left, middle, right);
    }
  }

  lemma {:induction false} SplitDown(source: Image, channel: Channel, left: int, right: int, top: int, middle: int, bottom: int)
    requires top <= middle <= bottom
    ensures BoxSum(source, channel, left, right, top, bottom)
            == BoxSum(source, channel, left, right, top, middle) + BoxSum(source, channel, left, right, middle, bottom)
    decreases bottom - middle
  {
    if middle < bottom {
      SplitDown(source, channel, left, right, top, middle, bottom - 1);
    }
  }

  // The first boxes of one target row.
  function BandSum(source: Image, channel: Channel, size: int, y: int, columns: nat): nat
    requires source.width >= 1
  {
    if columns == 0 then 0
    else BandSum(source, channel, size, y, columns - 1) + SumOver(source, channel, BoxOf(source, size, columns - 1, y))
  }

  // The boxes of the first target rows.
  function GridSum(source: Image, channel: Channel, size: int, rows: nat): nat
    requires source.width >= 1
  {
    if rows == 0 then 0
    else
      GridSum(source, channel, size, rows - 1)
      + BandSum(source, channel, size, rows - 1, Max(0, TargetWidth(source, size)))
  }

  lemma {:induction false} EmptyRow(source: Image, channel: Channel, left: int, top: int, bottom: int)
    ensures BoxSum(source, channel, left, left, top, bottom) == 0
    decreases bottom - top
  {
    if top < bottom {
      EmptyRow(source, channel, left, top, bottom - 1);
    }
  }

  lemma {:induction false} BandIsRows(source: Image, channel: Channel, size: int, y: int, columns: nat)
    requires source.width >= 1 && source.height >= 1 && size >= 1 && columns <= TargetWidth(source, size)
    ensures var w, h := TargetWidth(source, size), TargetHeight(source, size);
            BandSum(source, channel, size, y, columns)
            == BoxSum(source, channel, source.minX, source.minX + Edge(columns, source.width, w),
                      source.minY + Edge(y, source.height, h), source.minY + Edge(y + 1, source.height, h))
    decreases columns
  {
    var box := BoxOf(source, size, columns - 1, y);
    TargetIsSmaller(source, size);
    EdgeEnds(source.width, TargetWidth(source, size));
    if columns == 0 {
      EmptyRow(source, channel, source.minX, box.top, box.bottom);
    } else {
      BandIsRows(source, channel, size, y, columns - 1);
      EdgesGrow(columns - 1, source.width, TargetWidth(source, size));
      EdgesInRange(columns - 1, source.width, TargetWidth(source, size));
      SplitAcross(source, channel, source.minX, box.left, box.right, box.top, box.bottom);
    }
  }

  // Where the boxes of a target row begin.
  function Top(source: Image, size: int, y: int): int
    requires source.width >= 1
  {
    source.minY + Edge(y, source.height, TargetHeight(source, size))
  }

  lemma WholeBand(source: Image, channel: Channel, size: int, y: int)
    requires source.width >= 1 && source.height >= 1 && size >= 1
    ensures TargetWidth(source, size) >= 1
    ensures BandSum(source, channel, size, y, TargetWidth(source, size))
         == BoxSum(source, channel, source.minX, source.minX + source.width, Top(source, size, y), Top(source, size, y + 1))
  {
    TargetIsSmaller(source, size);
    EdgeEnds(source.width, TargetWidth(source, size));
    BandIsRows(source, channel, size, y, TargetWidth(source, size));
  }

  lemma TopsRise(source: Image, size: int, y: int)
    requires source.width >= 1 && source.height >= 1 && size >= 1 && 0 <= y < TargetHeight(source, size)
    ensures Top(source, size, 0) == source.minY <= Top(source, size, y) <= Top(source, size, y + 1)
  {
    var h := TargetHeight(source, size);
    TargetIsSmaller(source, size);
    EdgeEnds(source.height, h);
    EdgesGrow(y, source.height, h);
    EdgesInRange(y, source.height, h);
  }

  lemma {:induction false} GridIsBox(source: Image, channel: Channel, size: int, rows: nat)
    requires source.width >= 1 && source.height >= 1 && size >= 1 && rows <= TargetHeight(source, size)
    ensures GridSum(source, channel, size, rows)
         == BoxSum(source, channel, source.minX, source.minX + source.width, source.minY, Top(source, size, rows))
    decreases rows
  {
    TargetIsSmaller(source, size);
    if rows == 0 {
      TopsRise(source, size, 0);
    } else {
      GridIsBox(source, channel, size, rows - 1);
      WholeBand(source, channel, size, rows - 1);
      TopsRise(source, size, rows - 1);
      SplitDown(source, channel, source.minX, source.minX + source.width, source.minY,
                Top(source, size, rows - 1), Top(source, size, rows));
    }
  }

  /** The sums behind all target pixels add up to the sum over the whole source, channel by
      channel; and so do their pixel counts. */
  lemma NothingLostInScaling(source: Image, channel: Channel, size: int)
    requires source.width >= 1 && source.height >= 1 && size >= 1
    ensures TargetHeight(source, size) >= 1
    ensures GridSum(source, channel, size, TargetHeight(source, size))
            == BoxSum(source, channel, source.minX, source.minX + source.width, source.minY, source.minY + source.height)
    ensures GridSum(source, One, size, TargetHeight(source, size)) == source.width * source.height
  {
    TargetIsSmaller(source, size);
    var h := TargetHeight(source, size);
    EdgeEnds(source.height, h);
    GridIsBox(source, channel, size, h);
    GridIsBox(source, One, size, h);
    BoxCount(source, Box(source.minX, source.minX + source.width, source.minY, source.minY + source.height));
  }

  // ----- Colours stay within those of the source -----

  predicate Between(low: Colour, colour: Colour, high: Colour) {
    && low.red <= colour.red <= high.red && low.green <= colour.green <= high.green
    && low.blue <= colour.blue <= high.blue && low.alpha <= colour.alpha <= high.alpha
  }

  // A colour cut down to eight bits a channel.
  function Eight(colour: Colour): Pixel {
    Pixel(colour.red / 0x100, colour.green / 0x100, colour.blue / 0x100, colour.alpha / 0x100)
  }

  predicate PixelBetween(low: Pixel, pixel: Pixel, high: Pixel) {
    && low.red <= pixel.red <= high.red && low.green <= pixel.green <= high.green
    && low.blue <= pixel.blue <= high.blue && low.alpha <= pixel.alpha <= high.alpha
  }

  ghost predicate AllBetween(source: Image, low: Colour, high: Colour) {
    forall x, y :: source.Covers(x, y) ==> Between(low, source.pixels(x, y), high)
  }

  function Part(colour: Colour, channel: Channel): nat {
    match channel
    case Red => colour.red
    case Green => colour.green
    case Blue => colour.blue
    case Alpha => colour.alpha
    case One => 1
  }

  lemma BoxBetweenColours(source: Image, box: Box, low: Colour, high: Colour, channel: Channel)
    requires AllBetween(source, low, high) && box.Within(source)
    ensures BoxWithin(source, channel, box, Part(low, channel), Part(high, channel))
  {
    forall y | box.top <= y < box.bottom
      ensures RowWithin(source, channel, y, box.left, box.right, Part(low, channel), Part(high, channel))
    {
      forall x | box.left <= x < box.right
        ensures Part(low, channel) <= Value(source, channel, x, y) <= Part(high, channel)
      {
        assert source.Covers(x, y);
      }
    }
  }

  /** Every target pixel lies, channel by channel, between the darkest and the brightest of the
      source, so a source of one colour gives a thumbnail of that colour. */
  lemma ColoursStayWithin(source: Image, size: int, x: int, y: int, pixel: Pixel, low: Colour, high: Colour)
    requires source.width >= 1 && source.height >= 1 && size >= 1
    requires 0 <= x < TargetWidth(source, size) && 0 <= y < TargetHeight(source, size)
    requires Rendered(source, size, x, y, pixel) && AllBetween(source, low, high)
    ensures PixelBetween(Eight(low), pixel, Eight(high))
    ensures low == high ==> pixel == Eight(low)
  {
    if Shrinks(source, size) {
      var box := BoxOf(source, size, x, y);
      BoxIsInside(source, size, x, y);
      MeanBetweenColours(source, box, low, high, Red);
      MeanBetweenColours(source, box, low, high, Green);
      MeanBetweenColours(source, box, low, high, Blue);
      MeanBetweenColours(source, box, low, high, Alpha);
    } else {
      assert source.Covers(source.minX + x, source.minY + y);
    }
  }

  lemma MeanBetweenColours(source: Image, box: Box, low: Colour, high: Colour, channel: Channel)
    requires AllBetween(source, low, high) && box.Within(source) && Count(source, box) > 0
    ensures Part(low, channel) / 0x100 <= Mean(source, channel, box) <= Part(high, channel) / 0x100
  {
    BoxBetweenColours(source, box, low, high, channel);
    MeanBetween(source, channel, box, Part(low, channel), Part(high, channel));
  }
}
