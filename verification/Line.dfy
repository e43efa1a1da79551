/** `fb_draw_line` of common/src/fb_util.c: the Bresenham loop and the lines it really draws. */
module Line {
  import opened Words
  import opened Arith

  /** The framebuffer: `width` words per row, row by row. */
  ghost predicate OnScreen(fb: array<Word>, width: nat, height: nat, x: nat, y: nat) {
    fb.Length == width * height && x < width && y < height
  }

  function Pixel(width: nat, x: nat, y: nat): nat {
    y * width + x
  }

  lemma PixelInside(width: nat, height: nat, x: nat, y: nat)
    requires x < width && y < height
    ensures Pixel(width, x, y) < width * height
  {
    Bounded(y, height, width, x);
  }

  lemma PixelsDistinct(width: nat, x: nat, y: nat, u: nat, v: nat)
    requires x < width && u < width
    ensures Pixel(width, x, y) == Pixel(width, u, v) <==> x == u && y == v
  {
    Digit(y, width, x);
    Digit(v, width, u);
  }

  /** Rows climbed after k columns of a line dx wide and dy high; a steep line climbs one row a column. */
  function Climb(dx: int, dy: int, k: int): int
    requires dx > 0
  {
    if dy <= dx then (2 * (dy * k) + dx - 1) / (2 * dx) else k
  }

  function Min(a: int, b: int): int {
    if a < b then a else b
  }

  function Max(a: int, b: int): int {
    if a < b then b else a
  }

  /** The pixels of the loop, for a left end (xa, ya) and a right end (xb, yb). */
  predicate OnSlope(xa: int, ya: int, xb: int, yb: int, x: int, y: int)
    requires xa < xb
  {
    && xa <= x <= xb
    && var climb := Climb(xb - xa, Abs(yb - ya), x - xa);
       y == if yb < ya then ya - climb else ya + climb
  }

  /** The pixels of one call. */
  predicate OnLine(x0: int, y0: int, x1: int, y1: int, x: int, y: int) {
    if x0 == x1 then x == x0 && Min(y0, y1) <= y <= Max(y0, y1)
    else if y0 == y1 then y == y0 && Min(x0, x1) <= x <= Max(x0, x1)
    else if x0 < x1 then OnSlope(x0, y0, x1, y1, x, y)
    else OnSlope(x1, y1, x0, y0, x, y)
  }

  /** What the decision variable knows at column k. */
  ghost predicate Decides(dx: int, dy: int, k: int, climb: int, d: int) {
    d == 2 * (dy * (k + 1)) - 2 * (dx * climb) - dx
  }

  lemma FloorIs(a: int, n: nat, q: int)
    requires n > 0 && q * n <= a < q * n + n
    ensures a / n == q
  {
    Digit(q, n, a - q * n);
  }

  /** The error of a shallow line stays within half a pixel, ties kept low. */
  ghost predicate Near(dx: int, dy: int, k: int, climb: int) {
    2 * (dx * climb) - dx < 2 * (dy * k) <= 2 * (dx * climb) + dx
  }

  lemma ClimbIs(dx: nat, dy: nat, k: nat, climb: int)
    requires 0 < dy <= dx && Near(dx, dy, k, climb)
    ensures Climb(dx, dy, k) == climb
  {
    assert climb * (2 * dx) == 2 * (dx * climb);
    FloorIs(2 * (dy * k) + dx - 1, 2 * dx, climb);
  }

  lemma ClimbError(dx: nat, dy: nat, k: nat)
    requires 0 < dy <= dx
    ensures Near(dx, dy, k, Climb(dx, dy, k))
  {
    var a := 2 * (dy * k) + dx - 1;
    var q := a / (2 * dx);
    assert a == 2 * dx * q + a % (2 * dx);
    assert 2 * dx * q == 2 * (dx * q);
  }

  lemma Distribute(a: int, b: int)
    ensures a * (b + 1) == a * b + a
  {
  }

  /** One turn of the loop. */
  lemma ClimbNext(dx: nat, dy: nat, k: nat, climb: int, d: int)
    requires dx > 0 && dy > 0 && climb == Climb(dx, dy, k) && Decides(dx, dy, k, climb, d)
    ensures var up := d > 0;
            && Climb(dx, dy, k + 1) == (if up then climb + 1 else climb)
            && Decides(dx, dy, k + 1, if up then climb + 1 else climb, d + if up then 2 * (dy - dx) else 2 * dy)
  {
    Distribute(dy, k);
    Distribute(dy, k + 1);
    Distribute(dx, climb);
    if dy <= dx {
      ClimbError(dx, dy, k);
      hide Climb;
      ClimbIs(dx, dy, k + 1, if d > 0 then climb + 1 else climb);
    } else {
      MulMono(dx, dy, k);
      assert dx * climb == dx * k;
    }
  }

  /** The first column. */
  lemma ClimbStart(dx: nat, dy: nat)
    requires dx > 0 && dy > 0
    ensures Climb(dx, dy, 0) == 0 && Decides(dx, dy, 0, 0, 2 * dy - dx)
  {
    if dy <= dx {
      ClimbIs(dx, dy, 0, 0);
    }
  }

  /** The climb stays between the two rows. */
  lemma ClimbRange(dx: nat, dy: nat, k: nat)
    requires dx > 0 && dy > 0 && k <= dx
    ensures 0 <= Climb(dx, dy, k) <= dy
  {
    if dy <= dx {
      ClimbError(dx, dy, k);
      var climb := Climb(dx, dy, k);
      hide Climb;
      MulMono(k, dx, dy);
      assert dy * k == k * dy && dx * climb == climb * dx && (dy + 1) * dx == dx * dy + dx;
      if climb < 0 {
        MulMono(climb, -1, dx);
      } else if climb > dy {
        MulMono(dy + 1, climb, dx);
      }
    }
  }

  // ----- what the drawn line is worth -----

  /** Vertical: every row between the ends and none beyond, all in the one column. */
  lemma VerticalIff(x0: int, y0: int, y1: int, x: int, y: int)
    ensures OnLine(x0, y0, x0, y1, x, y) <==> x == x0 && (y0 <= y <= y1 || y1 <= y <= y0)
  {
  }

  /** Horizontal: every column between the ends and none beyond, all in the one row. */
  lemma HorizontalIff(x0: int, x1: int, y0: int, x: int, y: int)
    ensures OnLine(x0, y0, x1, y0, x, y) <==> y == y0 && (x0 <= x <= x1 || x1 <= x <= x0)
  {
  }

  /**
   Shallow, from the left end: in each column the row nearest to the true line, and of two equally near
   the one closer to the left end's row.
   */
  lemma ShallowIff(xa: int, ya: int, xb: int, yb: int, x: int, y: int)
    requires xa < xb && 0 < Abs(yb - ya) <= xb - xa
    ensures OnLine(xa, ya, xb, yb, x, y) <==>
              var dx, dy := xb - xa, Abs(yb - ya);
              var steps := if yb < ya then ya - y else y - ya;
              xa <= x <= xb && -dx < 2 * (dy * (x - xa)) - 2 * (dx * steps) <= dx
  {
    var dx, dy := xb - xa, Abs(yb - ya);
    var steps := if yb < ya then ya - y else y - ya;
    if xa <= x <= xb {
      ClimbError(dx, dy, x - xa);
      if Near(dx, dy, x - xa, steps) {
        ClimbIs(dx, dy, x - xa, steps);
      }
    }
    hide Climb;
  }

  /** Steep, from the left end: one row for every column, along the diagonal. */
  lemma SteepIff(xa: int, ya: int, xb: int, yb: int, x: int, y: int)
    requires xa < xb && xb - xa < Abs(yb - ya)
    ensures OnLine(xa, ya, xb, yb, x, y) <==> xa <= x <= xb && x - xa == if yb < ya then ya - y else y - ya
  {
  }

  /** Both ends are drawn whenever the line is vertical or not steeper than the diagonal. */
  lemma BothEnds(x0: int, y0: int, x1: int, y1: int)
    requires x0 == x1 || Abs(y1 - y0) <= Abs(x1 - x0)
    ensures OnLine(x0, y0, x1, y1, x0, y0) && OnLine(x0, y0, x1, y1, x1, y1)
  {
    if x0 != x1 && y0 != y1 {
      FarEndIff(x0, y0, x1, y1);
    }
  }

  /** Every pixel drawn for a shallow line is within half a pixel of the true line, measured in its column. */
  lemma HalfPixelAccurate(x0: int, y0: int, x1: int, y1: int, x: int, y: int)
    requires 0 < Abs(y1 - y0) <= Abs(x1 - x0) && OnLine(x0, y0, x1, y1, x, y)
    ensures 2 * Abs((y - y0) * (x1 - x0) - (x - x0) * (y1 - y0)) <= Abs(x1 - x0)
  {
    var right := x0 < x1;
    var xa, ya := if right then x0 else x1, if right then y0 else y1;
    var xb, yb := if right then x1 else x0, if right then y1 else y0;
    SlopeError(xa, ya, xb, yb, x, y);
    OtherEnd(x0, y0, x1, y1, x, y);
  }

  /** The error against the left end. */
  lemma SlopeError(xa: int, ya: int, xb: int, yb: int, x: int, y: int)
    requires xa < xb && 0 < Abs(yb - ya) <= xb - xa && OnSlope(xa, ya, xb, yb, x, y)
    ensures 2 * Abs((y - ya) * (xb - xa) - (x - xa) * (yb - ya)) <= xb - xa
  {
    var dx, dy, k := xb - xa, Abs(yb - ya), x - xa;
    var climb := Climb(dx, dy, k);
    ClimbError(dx, dy, k);
    hide Climb;
    assert dx * climb == climb * dx && dy * k == k * dy;
    if yb < ya {
      assert (y - ya) * dx == -(climb * dx) && k * (yb - ya) == -(k * dy);
    }
  }

  /** Measuring from the other end of the true line gives the same error. */
  lemma OtherEnd(x0: int, y0: int, x1: int, y1: int, x: int, y: int)
    ensures (y - y1) * (x0 - x1) - (x - x1) * (y0 - y1) == -((y - y0) * (x1 - x0) - (x - x0) * (y1 - y0))
  {
    var a, b, p, q := x1 - x0, y1 - y0, x - x0, y - y0;
    assert (q - b) * -a == b * a - q * a;
    assert (p - a) * -b == a * b - p * b;
  }

  /** The loop reaches its far end exactly when the line is not steeper than the diagonal. */
  lemma FarEndIff(x0: int, y0: int, x1: int, y1: int)
    requires x0 != x1 && y0 != y1
    ensures OnLine(x0, y0, x1, y1, x0, y0) && OnLine(x0, y0, x1, y1, x1, y1) <==> Abs(y1 - y0) <= Abs(x1 - x0)
  {
    var dx, dy := Abs(x1 - x0), Abs(y1 - y0);
    ClimbStart(dx, dy);
    if dy <= dx {
      ClimbIs(dx, dy, dx, dy);
    }
    assert Climb(dx, dy, dx) == dy <==> dy <= dx;
  }

  /** A line that stops short: from (0, 0) to (1, 2) the last pixel is (1, 1). */
  lemma SteepLineStopsShort()
    ensures !OnLine(0, 0, 1, 2, 1, 2) && OnLine(0, 0, 1, 2, 1, 1)
  {
    FarEndIff(0, 0, 1, 2);
  }

  /** Exactly one pixel in every column between the ends, in a row between the two end rows; none outside. */
  lemma OnePerColumn(x0: int, y0: int, x1: int, y1: int, x: int)
    requires x0 != x1
    ensures Min(x0, x1) <= x <= Max(x0, x1) <==> exists y :: OnLine(x0, y0, x1, y1, x, y)
    ensures forall y :: OnLine(x0, y0, x1, y1, x, y) ==> Min(y0, y1) <= y <= Max(y0, y1)
    ensures forall y, z :: OnLine(x0, y0, x1, y1, x, y) && OnLine(x0, y0, x1, y1, x, z) ==> y == z
  {
    if Min(x0, x1) <= x <= Max(x0, x1) {
      var y := ColumnRow(x0, y0, x1, y1, x);
    }
  }

  /** The row drawn in column x. */
  lemma ColumnRow(x0: int, y0: int, x1: int, y1: int, x: int) returns (y: int)
    requires x0 != x1 && Min(x0, x1) <= x <= Max(x0, x1)
    ensures OnLine(x0, y0, x1, y1, x, y) && Min(y0, y1) <= y <= Max(y0, y1)
  {
    if y0 == y1 {
      y := y0;
    } else {
      var right := x0 < x1;
      var xa, ya := if right then x0 else x1, if right then y0 else y1;
      var xb, yb := if right then x1 else x0, if right then y1 else y0;
      var climb := Climb(xb - xa, Abs(yb - ya), x - xa);
      ClimbRange(xb - xa, Abs(yb - ya), x - xa);
      y := if yb < ya then ya - climb else ya + climb;
    }
  }

  /** Swapping the ends draws the same pixels. */
  lemma SwapEnds(x0: int, y0: int, x1: int, y1: int, x: int, y: int)
    ensures OnLine(x0, y0, x1, y1, x, y) <==> OnLine(x1, y1, x0, y0, x, y)
  {
  }

  // ----- the function -----

  /** Exactly the pixels that satisfy `drawn` have changed, to `color`. */
  ghost predicate Drawn(before: seq<Word>, after: seq<Word>, width: nat, height: nat, drawn: (int, int) -> bool, color: Word) {
    && |before| == |after| == width * height
    && forall x: nat, y: nat :: x < width && y < height && 0 <= Pixel(width, x, y) < width * height ==>
         after[Pixel(width, x, y)] == if drawn(x, y) then color else before[Pixel(width, x, y)]
  }

  lemma DrawOne(before: seq<Word>, after: seq<Word>, width: nat, height: nat,
                drawn: (int, int) -> bool, more: (int, int) -> bool, color: Word, u: nat, v: nat)
    requires Drawn(before, after, width, height, drawn, color) && u < width && v < height
    requires forall x, y :: more(x, y) <==> drawn(x, y) || (x == u && y == v)
    requires Pixel(width, u, v) < width * height
    ensures Drawn(before, after[Pixel(width, u, v) := color], width, height, more, color)
  {
    hide Pixel;
    forall x: nat, y: nat | x < width && y < height && 0 <= Pixel(width, x, y) < width * height
      ensures after[Pixel(width, u, v) := color][Pixel(width, x, y)]
           == if more(x, y) then color else before[Pixel(width, x, y)]
    {
      PixelsDistinct(width, x, y, u, v);
    }
  }

  /** The pixels of a slope in columns before `end`. */
  ghost function SlopeBefore(xa: int, ya: int, xb: int, yb: int, end: int): (int, int) -> bool
    requires xa < xb
  {
    (x, y) => OnSlope(xa, ya, xb, yb, x, y) && x < end
  }

  /** The pixels of a horizontal or vertical run. */
  ghost function Run(left: int, right: int, top: int, bottom: int): (int, int) -> bool {
    (x, y) => left <= x <= right && top <= y <= bottom
  }

  ghost function LinePixels(x0: int, y0: int, x1: int, y1: int): (int, int) -> bool {
    (x, y) => OnLine(x0, y0, x1, y1, x, y)
  }

  lemma NothingDrawn(before: seq<Word>, width: nat, height: nat, drawn: (int, int) -> bool, color: Word)
    requires |before| == width * height && forall x, y :: !drawn(x, y)
    ensures Drawn(before, before, width, height, drawn, color)
  {
    hide Pixel;
  }

  lemma SameDrawn(before: seq<Word>, after: seq<Word>, width: nat, height: nat,
                  drawn: (int, int) -> bool, same: (int, int) -> bool, color: Word)
    requires Drawn(before, after, width, height, drawn, color)
    requires forall x, y :: drawn(x, y) <==> same(x, y)
    ensures Drawn(before, after, width, height, same, color)
  {
    hide Pixel;
  }

  /** `*(fb32_ptr + y * FB_WIDTH + x) = color` */
  method Plot(fb: array<Word>, width: nat, height: nat, x: nat, y: nat, color: Word,
              ghost before: seq<Word>, ghost drawn: (int, int) -> bool, ghost more: (int, int) -> bool)
    requires OnScreen(fb, width, height, x, y)
    requires Drawn(before, fb[..], width, height, drawn, color)
    requires forall u, v :: more(u, v) <==> drawn(u, v) || (u == x && v == y)
    modifies fb
    ensures Drawn(before, fb[..], width, height, more, color)
  {
    hide Drawn, Pixel;
    ghost var was := fb[..];
    PixelInside(width, height, x, y);
    DrawOne(before, was, width, height, drawn, more, color, x, y);
    fb[Pixel(width, x, y)] := color;
    assert fb[..] == was[Pixel(width, x, y) := color];
  }

  /** The last case: a left end (xa, ya), a right end (xb, yb), rows swapped when the line falls. */
  method DrawSlope(fb: array<Word>, width: nat, height: nat, xa: nat, ya: nat, xb: nat, yb: nat, color: Word)
    requires OnScreen(fb, width, height, xa, ya) && OnScreen(fb, width, height, xb, yb)
    requires xa < xb && ya != yb
    modifies fb
    ensures Drawn(old(fb[..]), fb[..], width, height, SlopeBefore(xa, ya, xb, yb, xb + 1), color)
  {
    hide Drawn, Climb, Decides;
    var y0, y1, flip := ya, yb, false;
    if y1 < y0 {
      flip := true;
      y0, y1 := y1, y0;
    }
    var x: nat, y: int, xEnd := xa, y0, xb;
    var dx: nat := xb - xa;
    var dy: nat := y1 - y0;
    var d := 2 * dy - dx;
    var xIncrement := 2 * dy;
    var yIncrement := 2 * (dy - dx);
    ghost var before := fb[..];
    ClimbStart(dx, dy);
    NothingDrawn(before, width, height, SlopeBefore(xa, ya, xb, yb, xa), color);
    while x <= xEnd
      invariant xa <= x <= xEnd + 1
      invariant y - y0 == Climb(dx, dy, x - xa) && Decides(dx, dy, x - xa, y - y0, d)
      invariant Drawn(before, fb[..], width, height, SlopeBefore(xa, ya, xb, yb, x), color)
    {
      ClimbRange(dx, dy, x - xa);
      var row := if flip then y0 + y1 - y else y;
      assert Abs(yb - ya) == dy;
      Plot(fb, width, height, x, row, color, before, SlopeBefore(xa, ya, xb, yb, x), SlopeBefore(xa, ya, xb, yb, x + 1));
      ClimbNext(dx, dy, x - xa, y - y0, d);
      if d <= 0 {
        d := d + xIncrement;
      } else {
        y := y + 1;
        d := d + yIncrement;
      }
      x := x + 1;
    }
  }

  /** A vertical run, one row at a time. */
  method DrawColumn(fb: array<Word>, width: nat, height: nat, x: nat, start: nat, stop: nat, color: Word)
    requires OnScreen(fb, width, height, x, stop) && start <= stop
    modifies fb
    ensures Drawn(old(fb[..]), fb[..], width, height, Run(x, x, start, stop), color)
  {
    hide Drawn;
    ghost var before := fb[..];
    NothingDrawn(before, width, height, Run(x, x, start, start - 1), color);
    var i := start;
    while i <= stop
      invariant start <= i <= stop + 1
      invariant Drawn(before, fb[..], width, height, Run(x, x, start, i - 1), color)
    {
      Plot(fb, width, height, x, i, color, before, Run(x, x, start, i - 1), Run(x, x, start, i));
      i := i + 1;
    }
  }

  /** A horizontal run, one column at a time. */
  method DrawRow(fb: array<Word>, width: nat, height: nat, y: nat, start: nat, stop: nat, color: Word)
    requires OnScreen(fb, width, height, stop, y) && start <= stop
    modifies fb
    ensures Drawn(old(fb[..]), fb[..], width, height, Run(start, stop, y, y), color)
  {
    hide Drawn;
    ghost var before := fb[..];
    NothingDrawn(before, width, height, Run(start, start - 1, y, y), color);
    var i := start;
    while i <= stop
      invariant start <= i <= stop + 1
      invariant Drawn(before, fb[..], width, height, Run(start, i - 1, y, y), color)
    {
      Plot(fb, width, height, i, y, color, before, Run(start, i - 1, y, y), Run(start, i, y, y));
      i := i + 1;
    }
  }

  /** Word y * width + x has the colour exactly when (x, y) is on the line, and is as before otherwise. */
  predicate ColoredAt(before: seq<Word>, after: seq<Word>, width: nat, x0: int, y0: int, x1: int, y1: int, color: Word,
                      x: nat, y: nat)
  {
    && y * width + x < |before| == |after|
    && after[y * width + x] == if OnLine(x0, y0, x1, y1, x, y) then color else before[y * width + x]
  }

  ghost predicate Colored(before: seq<Word>, after: seq<Word>, width: nat, height: nat,
                          x0: int, y0: int, x1: int, y1: int, color: Word) {
    && |before| == |after| == width * height
    && forall x: nat, y: nat :: x < width && y < height ==> ColoredAt(before, after, width, x0, y0, x1, y1, color, x, y)
  }

  lemma DrawnAt(before: seq<Word>, after: seq<Word>, width: nat, height: nat,
                x0: int, y0: int, x1: int, y1: int, color: Word, x: nat, y: nat)
    requires Drawn(before, after, width, height, LinePixels(x0, y0, x1, y1), color) && x < width && y < height
    ensures ColoredAt(before, after, width, x0, y0, x1, y1, color, x, y)
  {
    hide OnLine;
    PixelInside(width, height, x, y);
  }

  lemma DrawnIsColored(before: seq<Word>, after: seq<Word>, width: nat, height: nat,
                       x0: int, y0: int, x1: int, y1: int, color: Word)
    requires Drawn(before, after, width, height, LinePixels(x0, y0, x1, y1), color)
    ensures Colored(before, after, width, height, x0, y0, x1, y1, color)
  {
    hide OnLine, ColoredAt;
    forall x: nat, y: nat | x < width && y < height
      ensures ColoredAt(before, after, width, x0, y0, x1, y1, color, x, y)
    {
      DrawnAt(before, after, width, height, x0, y0, x1, y1, color, x, y);
    }
  }

  /** fb_draw_line: exactly the pixels of the line take the colour, no other word changes. */
  method DrawLine(fb: array<Word>, width: nat, height: nat, x0: nat, y0: nat, x1: nat, y1: nat, color: Word)
    requires OnScreen(fb, width, height, x0, y0) && OnScreen(fb, width, height, x1, y1)
    modifies fb
    ensures Drawn(old(fb[..]), fb[..], width, height, LinePixels(x0, y0, x1, y1), color)
    ensures Colored(old(fb[..]), fb[..], width, height, x0, y0, x1, y1, color)
  {
    hide Drawn, Climb, Colored;
    ghost var line := LinePixels(x0, y0, x1, y1);
    ghost var before := fb[..];
    if x0 == x1 && y0 == y1 {
      NothingDrawn(before, width, height, Run(0, -1, 0, 0), color);
      Plot(fb, width, height, x0, y0, color, before, Run(0, -1, 0, 0), line);
    } else if x0 == x1 {
      var start := if y0 < y1 then y0 else y1;
      var stop := if y0 < y1 then y1 else y0;
      DrawColumn(fb, width, height, x0, start, stop, color);
      SameDrawn(before, fb[..], width, height, Run(x0, x0, start, stop), line, color);
    } else if y0 == y1 {
      var start := if x0 < x1 then x0 else x1;
      var stop := if x0 < x1 then x1 else x0;
      DrawRow(fb, width, height, y0, start, stop, color);
      SameDrawn(before, fb[..], width, height, Run(start, stop, y0, y0), line, color);
    } else {
      var xa, ya, xb, yb := x0, y0, x1, y1;
      if x1 < x0 {
        xa, ya, xb, yb := x1, y1, x0, y0;
      }
      DrawSlope(fb, width, height, xa, ya, xb, yb, color);
      SameDrawn(before, fb[..], width, height, SlopeBefore(xa, ya, xb, yb, xb + 1), line, color);
    }
    DrawnIsColored(before, fb[..], width, height, x0, y0, x1, y1, color);
  }
}
