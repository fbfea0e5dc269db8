/**
 Nearest-neighbour resampling of thumbnails (resizeToMaxEdge in internal/api/thumbnail.go).
 A decoded image is its bounds and its pixels; colours are RGBA values.
 */
module Thumbnail {

  datatype Color = RGBA(r: nat, g: nat, b: nat, a: nat)

  const BLANK := RGBA(0, 0, 0, 0)

  // A decoded image; its pixels are defined inside the bounds only.
  datatype Picture = Picture(minX: int, minY: int, width: int, height: int, at: (int, int) --> Color) {
    ghost predicate Decoded() {
      forall x, y :: minX <= x < minX + width && minY <= y < minY + height ==> at.requires(x, y)
    }
  }

  function Limit(maxDim: int): nat {
    if maxDim < 32 then 32 else maxDim
  }

  predicate Fits(w: int, h: int, maxDim: int) {
    w <= Limit(maxDim) && h <= Limit(maxDim)
  }

  // The shorter edge scaled with the longer one, at least 1.
  function Scaled(short: nat, long: nat, limit: nat): nat
    requires long > 0
  {
    if (short * limit) / long < 1 then 1 else (short * limit) / long
  }

  // The edges of the thumbnail.
  function Target(w: int, h: int, maxDim: int): (nat, nat) {
    if w <= 0 || h <= 0 then (1, 1)
    else if Fits(w, h, maxDim) then (w, h)
    else if w >= h then (Limit(maxDim), Scaled(h, w, Limit(maxDim)))
    else (Scaled(w, h, Limit(maxDim)), Limit(maxDim))
  }

  // The source coordinate sampled for coordinate k, when an edge n becomes m.
  function Sample(k: nat, n: nat, m: nat): nat
    requires m > 0
  {
    (k * n) / m
  }

  lemma Quotient(a: int, b: int)
    requires b > 0
    ensures b * (a / b) <= a < b * (a / b) + b
  {
  }

  // A factor that is positive may be cancelled.
  lemma Cancel(x: int, y: int, b: int)
    requires b > 0 && b * x < b * y
    ensures x < y
  {
  }

  lemma Distribute(b: int, x: int, y: int)
    ensures b * (x + y) == b * x + b * y
    ensures b * (x - y) == b * x - b * y
  {
  }

  lemma {:induction false} QuotientIs(a: int, b: int, q: int)
    requires b > 0 && b * q <= a < b * q + b
    ensures a / b == q
  {
    var p := a / b;
    Quotient(a, b);
    Distribute(b, q, 1);
    Distribute(b, p, 1);
    Cancel(p, q + 1, b);
    Cancel(q, p + 1, b);
  }

  lemma Ordered(x: int, y: int, b: int)
    requires b >= 0 && x <= y
    ensures b * x <= b * y
  {
    Distribute(b, y, x);
  }

  // A quotient of a product is at most either factor, when the divisor is at least the other.
  lemma {:induction false} AtMostFactor(q: int, x: int, y: int, b: int)
    requires b > 0 && 0 <= x && 0 <= y <= b && b * q <= y * x
    ensures q <= x
  {
    Ordered(y, b, x);
    Distribute(b, x, 1);
    if q > x {
      Ordered(x + 1, q, b);
    }
  }

  lemma {:induction false} ScaledBounds(short: nat, long: nat, limit: nat)
    requires 0 < short <= long && 0 < limit < long
    ensures 1 <= Scaled(short, long, limit) <= short && Scaled(short, long, limit) <= limit
    ensures short * limit >= long ==>
              Scaled(short, long, limit) * long <= short * limit < (Scaled(short, long, limit) + 1) * long
    ensures short * limit < long ==> Scaled(short, long, limit) == 1
  {
    var a := short * limit;
    var q := a / long;
    Quotient(a, long);
    QuotientBounds(a, long, q, short, limit);
    assert Scaled(short, long, limit) == if q < 1 then 1 else q;
  }

  lemma {:induction false} QuotientBounds(a: int, long: int, q: int, short: int, limit: int)
    requires a == short * limit && long * q <= a < long * q + long
    requires 0 < short <= long && 0 < limit < long
    ensures 0 <= q <= short && q <= limit
    ensures a >= long ==> q >= 1 && q * long <= a < (q + 1) * long
    ensures a < long ==> q < 1
  {
    AtMostFactor(q, short, limit, long);
    AtMostFactor(q, limit, short, long);
    Distribute(long, q, 1);
    assert 0 <= a by {
      Ordered(0, limit, short);
    }
    if q < 0 {
      Ordered(q + 1, 0, long);
    }
    if a >= long && q < 1 {
      Ordered(q, 0, long);
    }
    if a < long && q >= 1 {
      Ordered(1, q, long);
    }
  }

  /**
   The thumbnail's edges are at least 1, at most the limit, and never exceed the source's; the
   longer one is the limit unless the source fits; the shorter one is the floor of exact
   scaling, or 1 when that would be nothing.
   */
  lemma {:induction false} TargetBounds(w: int, h: int, maxDim: int)
    ensures var (nw, nh) := Target(w, h, maxDim); 1 <= nw <= Limit(maxDim) && 1 <= nh <= Limit(maxDim)
    ensures w > 0 && h > 0 ==> var (nw, nh) := Target(w, h, maxDim); nw <= w && nh <= h
    ensures w > 0 && h > 0 && !Fits(w, h, maxDim) ==>
              var (nw, nh), m := Target(w, h, maxDim), Limit(maxDim);
              if w >= h then nw == m && (nh * w <= h * m < (nh + 1) * w || (nh == 1 && h * m < w))
              else nh == m && (nw * h <= w * m < (nw + 1) * h || (nw == 1 && w * m < h))
  {
    if w > 0 && h > 0 && !Fits(w, h, maxDim) {
      if w >= h {
        ScaledBounds(h, w, Limit(maxDim));
      } else {
        ScaledBounds(w, h, Limit(maxDim));
      }
    }
  }

  // A thumbnail is its own thumbnail.
  lemma {:induction false} TargetOfTarget(w: int, h: int, maxDim: int)
    ensures var (nw, nh) := Target(w, h, maxDim); Target(nw, nh, maxDim) == (nw, nh)
  {
    hide Scaled;
    TargetBounds(w, h, maxDim);
  }

  /** Every sample lies inside the source, starting at its first row or column. */
  lemma {:induction false} SampleInside(k: nat, n: nat, m: nat)
    requires k < m <= n
    ensures Sample(k, n, m) < n && Sample(0, n, m) == 0
    ensures m == n ==> Sample(k, n, m) == k
  {
    Quotient(k * n, m);
    assert k * n < m * n by {
      Distribute(n, m, k);
      Ordered(1, m - k, n);
    }
    Cancel(Sample(k, n, m), n, m);
    if m == n {
      QuotientIs(k * n, m, k);
    }
  }

  // Two quotients of numerators n apart differ by n / m, rounded down or up.
  lemma {:induction false} QuotientStep(c: int, n: int, m: int)
    requires m > 0
    ensures n / m <= (c + n) / m - c / m <= n / m + 1
  {
    var a, b, q := c / m, (c + n) / m, n / m;
    Quotient(c, m);
    Quotient(c + n, m);
    Quotient(n, m);
    Distribute(m, b, a);
    Distribute(m, q, 1);
    Distribute(m, q, 2);
    Cancel(q - 1, b - a, m);
    Cancel(b - a, q + 2, m);
  }

  // Neighbouring samples are as far apart as the scale, rounded down or up.
  lemma {:induction false} SampleStep(k: nat, n: nat, m: nat)
    requires 0 < m <= n
    ensures 1 <= n / m <= Sample(k + 1, n, m) - Sample(k, n, m) <= n / m + 1
  {
    Distribute(n, k, 1);
    assert (k + 1) * n == k * n + n;
    QuotientStep(k * n, n, m);
    Quotient(n, m);
    Cancel(0, n / m, m);
  }

  /** No source row or column is sampled twice, and their order is kept. */
  lemma {:induction false} SampleIncreases(j: nat, k: nat, n: nat, m: nat)
    requires 0 < m <= n && j < k
    ensures Sample(j, n, m) < Sample(k, n, m)
    decreases k
  {
    hide Sample;
    SampleStep(k - 1, n, m);
    if j < k - 1 {
      SampleIncreases(j, k - 1, n, m);
    }
  }

  // The colour of the thumbnail at (x, y).
  function Pixel(src: Picture, maxDim: int, x: nat, y: nat): Color
    requires src.Decoded()
    requires x < Target(src.width, src.height, maxDim).0 && y < Target(src.width, src.height, maxDim).1
  {
    if src.width <= 0 || src.height <= 0 then BLANK
    else
      var (nw, nh) := Target(src.width, src.height, maxDim);
      TargetBounds(src.width, src.height, maxDim);
      SampleInside(x, src.width, nw);
      SampleInside(y, src.height, nh);
      src.at(src.minX + Sample(x, src.width, nw), src.minY + Sample(y, src.height, nh))
  }

  /** An image that already fits is copied pixel for pixel. */
  lemma {:induction false} FittingIsCopied(src: Picture, maxDim: int, x: nat, y: nat)
    requires src.Decoded() && 0 < src.width && 0 < src.height && Fits(src.width, src.height, maxDim) && x < src.width
    requires y < src.height
    ensures Pixel(src, maxDim, x, y) == src.at(src.minX + x, src.minY + y)
  {
    SampleInside(x, src.width, src.width);
    SampleInside(y, src.height, src.height);
  }

  method ResizeToMaxEdge(src: Picture, maxDim: int) returns (out: array2<Color>)
    requires src.Decoded()
    ensures fresh(out)
    ensures (out.Length0, out.Length1) == Target(src.width, src.height, maxDim)
    ensures forall x, y :: 0 <= x < out.Length0 && 0 <= y < out.Length1 ==> out[x, y] == Pixel(src, maxDim, x, y)
  {
    hide Sample, Scaled;
    var limit := maxDim;
    if limit < 32 {
      limit := 32;
    }
    var w, h := src.width, src.height;
    if w <= 0 || h <= 0 {
      return new Color[1, 1]((_, _) => BLANK);
    }
    TargetBounds(w, h, maxDim);
    if w <= limit && h <= limit {
      out := Copy(src, maxDim);
      return;
    }
    var nw, nh;
    if w >= h {
      nw := limit;
      nh := ShortEdge(h, w, limit);
    } else {
      nh := limit;
      nw := ShortEdge(w, h, limit);
    }
    out := Fill(src, maxDim, nw, nh);
  }

  method ShortEdge(short: nat, long: nat, limit: nat) returns (edge: nat)
    requires long > 0
    ensures edge == Scaled(short, long, limit)
  {
    edge := (short * limit) / long;
    if edge < 1 {
      edge := 1;
    }
  }

  method Copy(src: Picture, maxDim: int) returns (out: array2<Color>)
    requires src.Decoded() && src.width > 0 && src.height > 0 && Fits(src.width, src.height, maxDim)
    ensures fresh(out) && out.Length0 == src.width && out.Length1 == src.height
    ensures forall x, y :: 0 <= x < src.width && 0 <= y < src.height ==> out[x, y] == Pixel(src, maxDim, x, y)
  {
    hide Pixel;
    var w, h: nat := src.width, src.height;
    out := new Color[w, h]((_, _) => BLANK);
    for y := 0 to h
      invariant forall i, j :: 0 <= i < w && 0 <= j < y ==> out[i, j] == Pixel(src, maxDim, i, j)
    {
      for x := 0 to w
        invariant forall i, j :: 0 <= i < w && 0 <= j < y ==> out[i, j] == Pixel(src, maxDim, i, j)
        invariant forall i :: 0 <= i < x ==> out[i, y] == Pixel(src, maxDim, i, y)
      {
        FittingIsCopied(src, maxDim, x, y);
        out[x, y] := src.at(x + src.minX, y + src.minY);
      }
    }
  }

  method Fill(src: Picture, maxDim: int, nw: nat, nh: nat) returns (out: array2<Color>)
    requires src.Decoded() && src.width > 0 && src.height > 0 && (nw, nh) == Target(src.width, src.height, maxDim)
    requires nw > 0 && nh > 0
    ensures fresh(out) && out.Length0 == nw && out.Length1 == nh
    ensures forall x, y :: 0 <= x < nw && 0 <= y < nh ==> out[x, y] == Pixel(src, maxDim, x, y)
  {
    hide Pixel, Target;
    var w, h: nat := src.width, src.height;
    out := new Color[nw, nh]((_, _) => BLANK);
    for y := 0 to nh
      invariant forall i, j :: 0 <= i < nw && 0 <= j < y ==> out[i, j] == Pixel(src, maxDim, i, j)
    {
      var sy := src.minY + (y * h) / nh;
      for x := 0 to nw
        invariant forall i, j :: 0 <= i < nw && 0 <= j < y ==> out[i, j] == Pixel(src, maxDim, i, j)
        invariant forall i :: 0 <= i < x ==> out[i, y] == Pixel(src, maxDim, i, y)
      {
        var sx := src.minX + (x * w) / nw;
        PixelIsSample(src, maxDim, nw, nh, x, y);
        out[x, y] := src.at(sx, sy);
      }
    }
  }

  // Each sample lies inside the source, and is what the thumbnail shows.
  lemma PixelIsSample(src: Picture, maxDim: int, nw: nat, nh: nat, x: nat, y: nat)
    requires src.Decoded() && src.width > 0 && src.height > 0 && (nw, nh) == Target(src.width, src.height, maxDim)
    requires x < nw && y < nh
    ensures src.at.requires(src.minX + (x * src.width) / nw, src.minY + (y * src.height) / nh)
    ensures Pixel(src, maxDim, x, y) == src.at(src.minX + (x * src.width) / nw, src.minY + (y * src.height) / nh)
  {
    hide Target;
    TargetBounds(src.width, src.height, maxDim);
    SampleInside(x, src.width, nw);
    SampleInside(y, src.height, nh);
  }
}
