/** The legend above the timelines: boxes packed into lines from left to right. */
module Legend {

  /** The extents of a legend text. */
  datatype Size = Size(width: real, height: real)

  datatype Box = Box(x: real, y: real, width: real, height: real)

  /** Where the packer stands: the tallest item so far, the top of the line, the used width. */
  datatype Cursor = Cursor(lineHeight: real, top: real, used: real)

  predicate Proper(padding: real, sizes: seq<Size>) {
    padding >= 0.0 && forall i :: 0 <= i < |sizes| ==> sizes[i].width >= 0.0 && sizes[i].height >= 0.0
  }

  function ItemWidth(padding: real, size: Size): real {
    padding + padding + size.width + padding
  }

  function ItemHeight(padding: real, size: Size): real {
    size.height + padding
  }

  function Next(padding: real, width: real, c: Cursor, size: Size): Cursor {
    var w, h := ItemWidth(padding, size), ItemHeight(padding, size);
    var lineHeight := if h > c.lineHeight then h else c.lineHeight;
    if c.used + w > width then Cursor(lineHeight, c.top + lineHeight, padding + w)
    else Cursor(lineHeight, c.top, c.used + w)
  }

  /** The cursor after the first `n` items. */
  function After(padding: real, width: real, sizes: seq<Size>, n: nat): Cursor
    requires n <= |sizes|
  {
    if n == 0 then Cursor(0.0, padding, padding)
    else Next(padding, width, After(padding, width, sizes, n - 1), sizes[n - 1])
  }

  /** The box of item `i`. */
  function Placed(padding: real, width: real, sizes: seq<Size>, i: nat): Box
    requires i < |sizes|
  {
    var c, w := After(padding, width, sizes, i + 1), ItemWidth(padding, sizes[i]);
    Box(c.used - w, c.top, w, ItemHeight(padding, sizes[i]))
  }

  class TopLegendRenderer {
    var padding: real
    var width: real
    var height: real
    var sizes: seq<Size>

    constructor (sizes: seq<Size>)
      ensures padding == 10.0 && this.sizes == sizes
    {
      padding, width, height, this.sizes := 10.0, 0.0, 0.0, sizes;
    }

    /** Computes the height that a legend of this width takes. */
    method Layout(newWidth: real)
      modifies this
      ensures padding == old(padding) && sizes == old(sizes) && width == newWidth
      ensures var c := After(padding, width, sizes, |sizes|); height == c.top + c.lineHeight
      ensures Proper(padding, sizes) && sizes != [] ==>
        var last := |sizes| - 1;
        exists k: nat :: Tallest(padding, sizes, k, last) &&
          height == Placed(padding, width, sizes, last).y + sizes[k].height + padding
      ensures sizes == [] ==> height == padding
    {
      width := newWidth;
      var lineHeight, total, used := 0.0, padding, padding;
      for i := 0 to |sizes|
        invariant padding == old(padding) && sizes == old(sizes) && width == newWidth
        invariant After(padding, width, sizes, i) == Cursor(lineHeight, total, used)
      {
        var itemWidth := padding + padding + sizes[i].width + padding;
        var itemHeight := sizes[i].height + padding;
        if itemHeight > lineHeight {
          lineHeight := itemHeight;
        }
        if used + itemWidth > width {
          used := padding + itemWidth;
          total := total + lineHeight;
        } else {
          used := used + itemWidth;
        }
      }
      total := total + lineHeight;
      height := total;
      HeightBelowLast(padding, width, sizes);
    }

    /** The boxes drawn, item by item. */
    method Draw() returns (boxes: seq<Box>)
      ensures |boxes| == |sizes|
      ensures forall i :: 0 <= i < |boxes| ==> boxes[i] == Placed(padding, width, sizes, i)
      ensures Proper(padding, sizes) ==> Flowing(padding, width, sizes, boxes)
    {
      boxes := [];
      var lineHeight, total, used := 0.0, padding, padding;
      for i := 0 to |sizes|
        invariant |boxes| == i
        invariant After(padding, width, sizes, i) == Cursor(lineHeight, total, used)
        invariant forall k :: 0 <= k < i ==> boxes[k] == Placed(padding, width, sizes, k)
      {
        var itemWidth := padding + padding + sizes[i].width + padding;
        var itemHeight := sizes[i].height + padding;
        if itemHeight > lineHeight {
          lineHeight := itemHeight;
        }
        if used + itemWidth > width {
          used := padding + itemWidth;
          total := total + lineHeight;
        } else {
          used := used + itemWidth;
        }
        boxes := boxes + [Box(used - itemWidth, total, itemWidth, itemHeight)];
      }
      BoxesFlow(padding, width, sizes, boxes);
    }
  }

  // ----- How the boxes flow

  /** Of the items up to `i`, item `k` is the tallest. */
  predicate Tallest(padding: real, sizes: seq<Size>, k: nat, i: nat)
    requires i < |sizes|
  {
    k <= i && forall j :: 0 <= j <= i ==> sizes[j].height <= sizes[k].height
  }

  /** Box `b` begins a line that is `above` and the height of the tallest item up to its own lower. */
  ghost predicate NewLine(padding: real, sizes: seq<Size>, i: nat, b: Box, above: real)
    requires i < |sizes|
  {
    b.x == padding && exists k: nat :: Tallest(padding, sizes, k, i) && b.y == above + sizes[k].height + padding
  }

  /** Boxes are as large as their text and its padding, and stand next to each other from the upper
      left corner, except that one that would not fit begins a new line. */
  ghost predicate Flowing(padding: real, width: real, sizes: seq<Size>, boxes: seq<Box>) {
    && |boxes| == |sizes|
    && (forall i :: 0 <= i < |boxes| ==>
          boxes[i].width == sizes[i].width + 3.0 * padding && boxes[i].height == sizes[i].height + padding)
    && (boxes != [] ==>
          if padding + boxes[0].width <= width then boxes[0].x == padding && boxes[0].y == padding
          else NewLine(padding, sizes, 0, boxes[0], padding))
    && forall i :: 0 < i < |boxes| ==>
         var a, b := boxes[i - 1], boxes[i];
         if a.x + a.width + b.width <= width then b.x == a.x + a.width && b.y == a.y
         else NewLine(padding, sizes, i, b, a.y)
  }

  lemma {:induction false} LineHeightIsTallest(padding: real, width: real, sizes: seq<Size>, i: nat) returns (k: nat)
    requires Proper(padding, sizes) && i < |sizes|
    ensures Tallest(padding, sizes, k, i)
    ensures After(padding, width, sizes, i + 1).lineHeight == sizes[k].height + padding
  {
    k := i;
    if i > 0 {
      var j := LineHeightIsTallest(padding, width, sizes, i - 1);
      if sizes[i].height <= sizes[j].height {
        k := j;
      }
    }
  }

  /** The legend ends below its last line by the height of the tallest item. */
  lemma HeightBelowLast(padding: real, width: real, sizes: seq<Size>)
    ensures Proper(padding, sizes) && sizes != [] ==>
      var last, c := |sizes| - 1, After(padding, width, sizes, |sizes|);
      exists k: nat :: Tallest(padding, sizes, k, last) &&
        c.top + c.lineHeight == Placed(padding, width, sizes, last).y + sizes[k].height + padding
  {
    if Proper(padding, sizes) && sizes != [] {
      var k := LineHeightIsTallest(padding, width, sizes, |sizes| - 1);
    }
  }

  lemma BoxesFlow(padding: real, width: real, sizes: seq<Size>, boxes: seq<Box>)
    requires |boxes| == |sizes|
    requires forall i :: 0 <= i < |boxes| ==> boxes[i] == Placed(padding, width, sizes, i)
    ensures Proper(padding, sizes) ==> Flowing(padding, width, sizes, boxes)
  {
    if boxes != [] && Proper(padding, sizes) {
      var k := LineHeightIsTallest(padding, width, sizes, 0);
    }
    forall i | 0 < i < |boxes| && Proper(padding, sizes)
      ensures
        var a, b := boxes[i - 1], boxes[i];
        if a.x + a.width + b.width <= width then b.x == a.x + a.width && b.y == a.y
        else NewLine(padding, sizes, i, b, a.y)
    {
      var k := LineHeightIsTallest(padding, width, sizes, i);
      assert After(padding, width, sizes, i + 1) ==
        Next(padding, width, After(padding, width, sizes, i), sizes[i]);
    }
  }

  /** The interiors of two boxes meet. */
  predicate Overlap(a: Box, b: Box) {
    && a.x < b.x + b.width && b.x < a.x + a.width
    && a.y < b.y + b.height && b.y < a.y + a.height
  }

  /** A placed box lies above the cursor's line, or on it and left of the cursor. */
  predicate Behind(b: Box, c: Cursor) {
    && b.y + b.height <= c.top + c.lineHeight
    && (b.y + b.height <= c.top || (b.y == c.top && b.x + b.width <= c.used))
  }

  lemma {:induction false} CursorBounds(padding: real, width: real, sizes: seq<Size>, n: nat)
    requires Proper(padding, sizes) && n <= |sizes|
    ensures var c := After(padding, width, sizes, n); c.lineHeight >= 0.0 && c.top >= padding && c.used >= padding
  {
    if n > 0 {
      CursorBounds(padding, width, sizes, n - 1);
    }
  }

  lemma {:induction false} StaysBehind(padding: real, width: real, sizes: seq<Size>, i: nat, n: nat)
    requires Proper(padding, sizes) && i < n <= |sizes|
    ensures Behind(Placed(padding, width, sizes, i), After(padding, width, sizes, n))
    decreases n
  {
    CursorBounds(padding, width, sizes, n - 1);
    if i < n - 1 {
      StaysBehind(padding, width, sizes, i, n - 1);
    }
  }

  /** No two items overlap. */
  lemma NoOverlap(padding: real, width: real, sizes: seq<Size>, i: nat, j: nat)
    requires Proper(padding, sizes) && i < j < |sizes|
    ensures !Overlap(Placed(padding, width, sizes, i), Placed(padding, width, sizes, j))
  {
    StaysBehind(padding, width, sizes, i, j);
    CursorBounds(padding, width, sizes, j);
  }

  /** Every item lies within the height that the layout computed, and below and right of the padding. */
  lemma WithinHeight(padding: real, width: real, sizes: seq<Size>, i: nat)
    requires Proper(padding, sizes) && i < |sizes|
    ensures
      var b, c := Placed(padding, width, sizes, i), After(padding, width, sizes, |sizes|);
      padding <= b.x && padding <= b.y && b.y + b.height <= c.top + c.lineHeight
  {
    StaysBehind(padding, width, sizes, i, |sizes|);
    CursorBounds(padding, width, sizes, i);
  }

  /** An item lies within the width exactly when it fits on a line of its own. */
  lemma WithinWidthIff(padding: real, width: real, sizes: seq<Size>, i: nat)
    requires Proper(padding, sizes) && i < |sizes|
    ensures var b := Placed(padding, width, sizes, i);
      b.x + b.width <= width <==> padding + ItemWidth(padding, sizes[i]) <= width
  {
    CursorBounds(padding, width, sizes, i);
  }
}

/** The tick marks of the time scale. Bounds are reals, as a scale may show a selection. */
module Ticks {

  function Pow10(k: nat): (p: nat)
    ensures p >= 1
  {
    if k == 0 then 1 else 10 * Pow10(k - 1)
  }

  predicate IsPower(n: int) {
    exists k: nat :: k <= n && n == Pow10(k)
  }

  /** What drawing a scale ends in: all marks drawn, or a range with step 0, which Python rejects
      after some of the marks have been drawn. */
  datatype Outcome = Drawn(delta: int, marks: seq<int>, subMarks: seq<int>) | Rejected(marks: seq<int>)

  // ----- The distance between marks

  /** The first of `c`, 10 `c`, 100 `c` and so on of which ten times is not below the span. */
  function PowerBelow(c: nat, span: real): nat
    requires c > 0
    decreases span.Floor - c
  {
    if (c * 10) as real < span then PowerBelow(c * 10, span) else c
  }

  lemma {:induction false} PowerIsLarge(k: nat)
    ensures k < Pow10(k)
  {
    if k > 0 {
      PowerIsLarge(k - 1);
    }
  }

  lemma {:induction false} PowerBelowSpec(c: nat, span: real, k: nat)
    requires c == Pow10(k) && (c == 1 || c as real < span)
    ensures IsPower(PowerBelow(c, span))
    ensures span > 1.0 ==> PowerBelow(c, span) as real < span <= (10 * PowerBelow(c, span)) as real
    ensures span <= 1.0 ==> PowerBelow(c, span) == 1
    decreases span.Floor - c
  {
    if (c * 10) as real < span {
      PowerBelowSpec(c * 10, span, k + 1);
    } else {
      PowerIsLarge(k);
    }
  }

  /** The power of ten chosen as distance between ticks. */
  method Closest(dataDelta: real) returns (closest: nat)
    ensures closest == PowerBelow(1, dataDelta)
    ensures IsPower(closest)
    ensures dataDelta > 1.0 ==> closest as real < dataDelta <= (10 * closest) as real
    ensures dataDelta <= 1.0 ==> closest == 1
  {
    PowerBelowSpec(1, dataDelta, 0);
    closest := 1;
    while (closest * 10) as real < dataDelta
      invariant closest > 0 && PowerBelow(closest, dataDelta) == PowerBelow(1, dataDelta)
      decreases dataDelta.Floor - closest
    {
      closest := closest * 10;
    }
  }

  lemma TenthOfPower(c: nat)
    requires IsPower(c)
    ensures c > 0 && (c as real / 10.0).Floor == c / 10
    ensures c == 1 || (c == c / 10 * 10 && c as real / 10.0 == (c / 10) as real)
  {
    var k: nat :| k <= c && c == Pow10(k);
    if k > 0 {
      assert Pow10(k) == 10 * Pow10(k - 1);
      assert c as real / 10.0 == Pow10(k - 1) as real;
    }
  }

  /** The chosen distance is the largest power of ten below the span. */
  lemma LargestPower(delta: int, dataDelta: real, k: nat, m: nat)
    requires delta == Pow10(k) && delta as real < dataDelta <= (10 * delta) as real
    ensures Pow10(m) as real < dataDelta <==> m <= k
  {
    if m <= k {
      PowGrows(m, k);
    } else {
      PowGrows(k + 1, m);
    }
  }

  lemma {:induction false} PowGrows(m: nat, k: nat)
    requires m <= k
    ensures Pow10(m) <= Pow10(k)
  {
    if m < k {
      PowGrows(m, k - 1);
    }
  }

  // ----- Drawing

  /** The multiples of the distance in (lo, hi], for integer bounds. */
  function Marks(lo: int, hi: int, delta: int): seq<int>
    requires delta > 0
  {
    if hi / delta <= lo / delta then []
    else seq(hi / delta - lo / delta, i requires i >= 0 => (lo / delta + 1 + i) * delta)
  }

  /** What layout and draw make of a pair of bounds. */
  function Drawing(lo: real, hi: real): Outcome {
    var closest := PowerBelow(1, hi - lo);
    PowerBelowSpec(1, hi - lo, 0);
    if hi - lo == closest as real then Rejected([])
    else if closest < 10 then Rejected(Marks(lo.Floor, hi.Floor, closest))
    else Drawn(closest, Marks(lo.Floor, hi.Floor, closest), Marks(lo.Floor, hi.Floor, closest / 10))
  }

  /** The remainder of real numbers, for a positive divisor. */
  function Mod(x: real, d: real): real
    requires d > 0.0
  {
    x - d * (x / d).Floor as real
  }

  /** Python's int(). */
  function Truncate(x: real): int {
    if x >= 0.0 then x.Floor else -((-x).Floor)
  }

  /** Chooses the distance, then draws the marks and the marks at a tenth of it. Both steps are
      truncated, and a step of 0 is rejected. */
  method Draw(lo: real, hi: real) returns (r: Outcome)
    ensures r == Drawing(lo, hi)
  {
    var dataDelta := hi - lo;
    var closest := Closest(dataDelta);
    TenthOfPower(closest);
    // the quotient of span and `closest` is 0 for an empty span, and 1 for a span of exactly `closest`
    var delta := if dataDelta != 0.0 && dataDelta == closest as real then closest as real / 10.0 else closest as real;
    if Truncate(delta) == 0 {
      return Rejected([]);
    }
    var marks := DrawMarks(lo, hi, delta, closest);
    var subDelta := delta / 10.0;
    var subMarks := [];
    if subDelta > 0.0 {
      if Truncate(subDelta) == 0 {
        return Rejected(marks);
      }
      subMarks := DrawMarks(lo, hi, subDelta, closest / 10);
    }
    r := Drawn(closest, marks, subMarks);
  }

  /** The loop over one range of marks, at a distance that is a whole number. */
  method DrawMarks(lo: real, hi: real, delta: real, ghost step: int) returns (marks: seq<int>)
    requires delta == step as real && step > 0
    ensures marks == Marks(lo.Floor, hi.Floor, step)
  {
    var start := lo - Mod(lo, delta) + delta;
    var end := hi - Mod(hi, delta);
    MultipleBelow(lo, step);
    MultipleBelow(hi, step);
    TruncateWhole(lo.Floor - lo.Floor % step + step);
    TruncateWhole(hi.Floor - hi.Floor % step + step);
    TruncateWhole(step);
    marks := Range(Truncate(start), Truncate(end + delta), Truncate(delta));
    RangeIsMarks(lo.Floor, hi.Floor, step, marks);
  }

  lemma TruncateWhole(n: int)
    ensures Truncate(n as real) == n
  {
  }

  lemma NegativeProduct(u: real, d: real, w: real)
    requires u < 0.0 && d > 0.0 && w == u * d
    ensures w < 0.0
  {
  }

  /** If y d lies in [q d, (q + 1) d) then y lies in [q, q + 1). */
  lemma QuotientBetween(x: real, y: real, d: real, q: real, low: real, high: real)
    requires d > 0.0 && y * d == x && low == q * d && high == low + d && low <= x < high
    ensures q <= y < q + 1.0
  {
    if y < q {
      NegativeProduct(y - q, d, x - low);
    }
    if y > q + 1.0 {
      NegativeProduct(q + 1.0 - y, d, high - x);
    }
  }

  lemma FloorOfQuotient(x: real, y: real, d: int)
    requires d > 0 && y * d as real == x
    ensures y.Floor == x.Floor / d
  {
    var q := x.Floor / d;
    MultiplesAround(x, d);
    assert (q * d) as real == q as real * d as real;
    QuotientBetween(x, y, d as real, q as real, (q * d) as real, (q * d + d) as real);
  }

  lemma DivideBack(x: real, d: real)
    requires d > 0.0
    ensures x / d * d == x
  {
  }

  /** Taking off the remainder leaves a whole multiple of the distance. */
  lemma MultipleBelow(x: real, d: int)
    requires d > 0
    ensures x - Mod(x, d as real) == (x.Floor - x.Floor % d) as real
  {
    var q := x.Floor / d;
    DivideBack(x, d as real);
    FloorOfQuotient(x, x / d as real, d);
    assert x - Mod(x, d as real) == d as real * q as real;
    assert d as real * q as real == (d * q) as real;
    assert x.Floor - x.Floor % d == d * q;
  }

  /** The loop over range(start, stop, step). */
  method Range(start: int, stop: int, step: int) returns (marks: seq<int>)
    requires step > 0
    ensures forall i :: 0 <= i < |marks| ==> marks[i] == start + i * step
    ensures stop <= start + |marks| * step
    ensures |marks| > 0 ==> start + (|marks| - 1) * step < stop
  {
    marks := [];
    var x := start;
    while x < stop
      invariant x == start + |marks| * step
      invariant forall i :: 0 <= i < |marks| ==> marks[i] == start + i * step
      invariant |marks| > 0 ==> start + (|marks| - 1) * step < stop
      decreases stop - x
    {
      marks := marks + [x];
      x := x + step;
    }
  }

  lemma MultipleFacts(x: int, q: int, delta: int)
    requires delta > 0 && q == x / delta
    ensures x - x % delta == q * delta && q * delta <= x < q * delta + delta
    ensures (q + 1) * delta == q * delta + delta
  {
  }

  /** A range from the first multiple after `lo` to past the last one up to `hi` has as many elements
      as there are marks. */
  lemma RangeLength(a: int, b: int, n: nat, delta: int)
    requires delta > 0 && b * delta <= (a + n) * delta && (n > 0 ==> (a + n - 1) * delta < b * delta)
    ensures n == if b <= a then 0 else b - a
  {
    Quotients(a + n, b, delta);
    if n > 0 {
      Quotients(a + n - 1, b, delta);
    }
  }

  lemma RangeIsMarks(lo: int, hi: int, delta: int, marks: seq<int>)
    requires delta > 0
    requires var start, stop := lo - lo % delta + delta, hi - hi % delta + delta;
      && (forall i :: 0 <= i < |marks| ==> marks[i] == start + i * delta)
      && stop <= start + |marks| * delta
      && (|marks| > 0 ==> start + (|marks| - 1) * delta < stop)
    ensures marks == Marks(lo, hi, delta)
  {
    var q, p, n := lo / delta, hi / delta, |marks|;
    MultipleFacts(lo, q, delta);
    MultipleFacts(hi, p, delta);
    Distribute(q + 1, n, delta);
    if n > 0 {
      Distribute(q + 1, n - 1, delta);
    }
    RangeLength(q + 1, p + 1, n, delta);
    forall i | 0 <= i < n
      ensures marks[i] == (q + 1 + i) * delta
    {
      Distribute(q + 1, i, delta);
    }
  }

  lemma Distribute(a: int, b: int, delta: int)
    ensures (a + b) * delta == a * delta + b * delta
  {
  }

  lemma Quotients(a: int, b: int, delta: int)
    requires delta > 0
    ensures a * delta < b * delta <==> a < b
  {
    if a < b {
      assert (b - a) * delta > 0;
    } else {
      assert (a - b) * delta >= 0;
    }
  }

  // ----- When it fails, and what it draws

  /** Drawing a scale fails exactly for spans of at most 10. */
  lemma RejectedIff(lo: real, hi: real)
    ensures Drawing(lo, hi).Rejected? <==> hi - lo <= 10.0
  {
    var c := PowerBelow(1, hi - lo);
    PowerBelowSpec(1, hi - lo, 0);
    TenthOfPower(c);
  }

  /** An input on which it fails: the scale from 0 to 5, after its marks are drawn. */
  lemma SpanOfFiveFails()
    ensures Drawing(0.0, 5.0) == Rejected([1, 2, 3, 4, 5])
  {
    assert PowerBelow(1, 5.0) == 1;
    assert Marks(0, 5, 1) == [1, 2, 3, 4, 5];
  }

  lemma MarksAscend(lo: int, hi: int, delta: int, i: nat, j: nat)
    requires delta > 0 && i < j < |Marks(lo, hi, delta)|
    ensures Marks(lo, hi, delta)[i] < Marks(lo, hi, delta)[j]
  {
    Quotients(lo / delta + 1 + i, lo / delta + 1 + j, delta);
  }

  /** The marks are the multiples of the distance in (lo, hi]. */
  lemma MarksAreMultiples(lo: int, hi: int, delta: int, t: int)
    requires delta > 0
    ensures t in Marks(lo, hi, delta) <==> lo < t <= hi && t % delta == 0
  {
    var ms, q := Marks(lo, hi, delta), lo / delta;
    if t in ms {
      var i :| 0 <= i < |ms| && ms[i] == t;
      MultipleBounds(lo, hi, delta, q + 1 + i);
    }
    if lo < t <= hi && t % delta == 0 {
      var n := t / delta;
      MultipleFacts(t, n, delta);
      MultipleBounds(lo, hi, delta, n);
      assert ms[n - q - 1] == n * delta;
    }
  }

  lemma MultipleBounds(lo: int, hi: int, delta: int, n: int)
    requires delta > 0
    ensures lo < n * delta <= hi <==> lo / delta < n <= hi / delta
    ensures (n * delta) % delta == 0
  {
    var q, p := lo / delta, hi / delta;
    MultipleFacts(lo, q, delta);
    MultipleFacts(hi, p, delta);
    Quotients(n, q + 1, delta);
    Quotients(n, p + 1, delta);
    Quotients(q, n, delta);
    Quotients(p, n, delta);
    MultipleMod(n, delta);
  }

  lemma MultipleMod(n: int, delta: int)
    requires delta > 0
    ensures (n * delta) % delta == 0
  {
    var m := n * delta / delta;
    MultipleFacts(n * delta, m, delta);
    Quotients(m, n + 1, delta);
    Quotients(n, m + 1, delta);
  }

  /** Where the multiples around a real number lie. */
  lemma MultiplesAround(x: real, delta: int)
    requires delta > 0
    ensures var q := x.Floor / delta; (q * delta) as real <= x < (q * delta + delta) as real
  {
    MultipleFacts(x.Floor, x.Floor / delta, delta);
  }

  /** A span of more than `m` and at most `n` distances holds `m` to `n` marks. */
  lemma NumberOfMarks(lo: real, hi: real, delta: int, m: nat, n: nat)
    requires delta > 0 && 0 < m <= n && (m * delta) as real < hi - lo <= (n * delta) as real
    ensures m <= |Marks(lo.Floor, hi.Floor, delta)| <= n
  {
    var q, p := lo.Floor / delta, hi.Floor / delta;
    MultiplesAround(lo, delta);
    MultiplesAround(hi, delta);
    assert q * delta + m * delta < p * delta + delta;
    assert p * delta < q * delta + delta + n * delta;
    Distribute(q, m, delta);
    Distribute(p, 1, delta);
    Distribute(q, n + 1, delta);
    Distribute(n, 1, delta);
    Quotients(q + m, p + 1, delta);
    Quotients(p, q + n + 1, delta);
  }

  /** Between one and ten marks are drawn. */
  lemma OneToTenMarks(lo: real, hi: real, delta: int)
    requires delta > 0 && delta as real < hi - lo <= (10 * delta) as real
    ensures 1 <= |Marks(lo.Floor, hi.Floor, delta)| <= 10
  {
    NumberOfMarks(lo, hi, delta, 1, 10);
  }

  /** The marks at distance `delta` between real bounds, in ascending order. */
  predicate AreMarks(marks: seq<int>, lo: real, hi: real, delta: int)
    requires delta > 0
  {
    && (forall i, j :: 0 <= i < j < |marks| ==> marks[i] < marks[j])
    && (forall i :: 0 <= i < |marks| ==> lo < marks[i] as real <= hi && marks[i] % delta == 0)
    && (forall t :: lo.Floor < t <= hi.Floor && t % delta == 0 ==> t in marks)
  }

  lemma MarksBetween(lo: real, hi: real, delta: int)
    requires delta > 0
    ensures AreMarks(Marks(lo.Floor, hi.Floor, delta), lo, hi, delta)
  {
    var ms := Marks(lo.Floor, hi.Floor, delta);
    forall i, j | 0 <= i < j < |ms|
      ensures ms[i] < ms[j]
    {
      MarksAscend(lo.Floor, hi.Floor, delta, i, j);
    }
    forall i | 0 <= i < |ms|
      ensures lo < ms[i] as real <= hi && ms[i] % delta == 0
    {
      MarksAreMultiples(lo.Floor, hi.Floor, delta, ms[i]);
    }
    forall t | lo.Floor < t <= hi.Floor && t % delta == 0
      ensures t in ms
    {
      MarksAreMultiples(lo.Floor, hi.Floor, delta, t);
    }
  }

  /** On success the distance is a power of ten below the span; marks and finer marks are the multiples
      in (lo, hi], in ascending order, 1 to 10 and 10 to 100 of them. */
  lemma DrawnMarks(lo: real, hi: real)
    requires Drawing(lo, hi).Drawn?
    ensures
      var d := Drawing(lo, hi);
      && d.delta >= 10 && d.delta as real < hi - lo <= (10 * d.delta) as real && IsPower(d.delta)
      && AreMarks(d.marks, lo, hi, d.delta) && AreMarks(d.subMarks, lo, hi, d.delta / 10)
      && 1 <= |d.marks| <= 10 && 10 <= |d.subMarks| <= 100
  {
    var c := PowerBelow(1, hi - lo);
    PowerBelowSpec(1, hi - lo, 0);
    TenthOfPower(c);
    MarksBetween(lo, hi, c);
    MarksBetween(lo, hi, c / 10);
    OneToTenMarks(lo, hi, c);
    NumberOfMarks(lo, hi, c / 10, 10, 100);
  }
}
