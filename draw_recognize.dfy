/**
 * Recognition of a drawn Devanagari glyph by pixel comparison: binarisation,
 * fit-to-bounding-box normalisation, the 3-4 chamfer distance transform, the
 * chamfer similarity and the choice of the best-matching option. Images are
 * the 64×64 grayscale buffers the recogniser always works on, stored row by
 * row; the pixel values and distances are integers.
 */
module DrawRecognize {
  import opened Wrappers

  /** Width and height of every image. */
  const W: int := 64
  /** Number of pixels of an image. */
  const N: int := 4096
  /** Blank margin left around the fitted glyph. */
  const Padding: int := 4
  /** Side of the region the glyph is fitted into. */
  const Inner: int := W - 2 * Padding
  /** Gray level above which a pixel counts as ink. */
  const InkThreshold: int := 48
  /** The "infinite" distance of a pixel no ink has reached yet. */
  const Inf: int := 1000000

  function Min(a: int, b: int): int { if a <= b then a else b }
  function Max(a: int, b: int): int { if a >= b then a else b }

  /** Row-major coordinates of a pixel index. */
  lemma Coord(x: int, y: int)
    requires 0 <= x < W && 0 <= y < W
    ensures 0 <= y * W + x < N && (y * W + x) % W == x && (y * W + x) / W == y
  {
  }

  lemma IndexCoord(k: int)
    requires 0 <= k < N
    ensures 0 <= k % W < W && 0 <= k / W < W && k == (k / W) * W + k % W
  {
  }

  // ---------------------------------------------------------------------------
  // binarize
  // ---------------------------------------------------------------------------

  /** The binarised image: 1 where the gray level exceeds the threshold, else 0. */
  function Binarized(p: seq<int>): (r: seq<int>)
    ensures |r| == |p|
    ensures forall i :: 0 <= i < |p| ==> (r[i] == 1 <==> p[i] > InkThreshold) && (r[i] == 0 || r[i] == 1)
  {
    seq(|p|, i requires 0 <= i < |p| => if p[i] > InkThreshold then 1 else 0)
  }

  /** `binarize`: a fresh buffer of the same length, filled pixel by pixel. */
  method Binarize(pixels: array<int>) returns (out: array<int>)
    ensures fresh(out) && out[..] == Binarized(pixels[..])
  {
    out := new int[pixels.Length];
    for i := 0 to pixels.Length
      invariant forall k :: 0 <= k < i ==> out[k] == (if pixels[k] > InkThreshold then 1 else 0)
    {
      out[i] := if pixels[i] > InkThreshold then 1 else 0;
    }
  }

  // ---------------------------------------------------------------------------
  // normalizeToFit
  // ---------------------------------------------------------------------------

  /** The running bounding box (minX, minY, maxX, maxY) after scanning `k` pixels. */
  function BoxAfter(p: seq<int>, k: int): (b: (int, int, int, int))
    requires |p| == N && 0 <= k <= N
  {
    if k == 0 then (W, W, 0, 0)
    else
      var b := BoxAfter(p, k - 1);
      var x, y := (k - 1) % W, (k - 1) / W;
      if p[k - 1] > 0 then (Min(b.0, x), Min(b.1, y), Max(b.2, x), Max(b.3, y)) else b
  }

  /** The bounding box of the ink of an image. */
  function Box(p: seq<int>): (int, int, int, int)
    requires |p| == N
  {
    BoxAfter(p, N)
  }

  /** Some pixel among the first `k` is ink. */
  predicate InkBefore(p: seq<int>, k: int)
    requires |p| == N && 0 <= k <= N
  {
    exists j :: 0 <= j < k && p[j] > 0
  }

  /**
   * The running box bounds every ink pixel scanned so far; with no ink it is
   * the empty box (64, 64, 0, 0), and otherwise it lies inside the image.
   */
  lemma {:induction false} BoxAfterSpec(p: seq<int>, k: int)
    requires |p| == N && 0 <= k <= N
    ensures var b := BoxAfter(p, k);
      && (forall j :: 0 <= j < k && p[j] > 0 ==> b.0 <= j % W <= b.2 && b.1 <= j / W <= b.3)
      && (!InkBefore(p, k) ==> b == (W, W, 0, 0))
      && (InkBefore(p, k) ==> 0 <= b.0 <= b.2 < W && 0 <= b.1 <= b.3 < W)
  {
    BoxCovers(p, k);
    BoxShape(p, k);
  }

  /** The running box bounds every ink pixel scanned so far. */
  lemma {:induction false} BoxCovers(p: seq<int>, k: int)
    requires |p| == N && 0 <= k <= N
    ensures var b := BoxAfter(p, k);
      forall j :: 0 <= j < k && p[j] > 0 ==> b.0 <= j % W <= b.2 && b.1 <= j / W <= b.3
  {
    if k > 0 {
      BoxCovers(p, k - 1);
      var before, b := BoxAfter(p, k - 1), BoxAfter(p, k);
      assert b.0 <= before.0 && b.1 <= before.1 && before.2 <= b.2 && before.3 <= b.3;
      forall j | 0 <= j < k && p[j] > 0 ensures b.0 <= j % W <= b.2 && b.1 <= j / W <= b.3 {
        if j < k - 1 {
          assert before.0 <= j % W <= before.2 && before.1 <= j / W <= before.3;
        }
      }
    }
  }

  /** With no ink the box is the empty one; otherwise it lies inside the image. */
  lemma {:induction false} BoxShape(p: seq<int>, k: int)
    requires |p| == N && 0 <= k <= N
    ensures var b := BoxAfter(p, k);
      && (!InkBefore(p, k) ==> b == (W, W, 0, 0))
      && (InkBefore(p, k) ==> 0 <= b.0 <= b.2 < W && 0 <= b.1 <= b.3 < W)
  {
    if k > 0 {
      BoxShape(p, k - 1);
      IndexCoord(k - 1);
      if p[k - 1] > 0 {
        assert InkBefore(p, k);
      } else if InkBefore(p, k - 1) {
        var j :| 0 <= j < k - 1 && p[j] > 0;
        assert InkBefore(p, k);
      }
    }
  }

  /** The box is attained: each of its sides passes through an ink pixel. */
  lemma {:induction false} BoxAttained(p: seq<int>, k: int)
    requires |p| == N && 0 <= k <= N && InkBefore(p, k)
    ensures var b := BoxAfter(p, k);
      && (exists j :: 0 <= j < k && p[j] > 0 && j % W == b.0)
      && (exists j :: 0 <= j < k && p[j] > 0 && j / W == b.1)
      && (exists j :: 0 <= j < k && p[j] > 0 && j % W == b.2)
      && (exists j :: 0 <= j < k && p[j] > 0 && j / W == b.3)
  {
    var b := BoxAfter(p, k);
    if InkBefore(p, k - 1) {
      BoxAttained(p, k - 1);
      var c := BoxAfter(p, k - 1);
      var j0 :| 0 <= j0 < k - 1 && p[j0] > 0 && j0 % W == c.0;
      var j1 :| 0 <= j1 < k - 1 && p[j1] > 0 && j1 / W == c.1;
      var j2 :| 0 <= j2 < k - 1 && p[j2] > 0 && j2 % W == c.2;
      var j3 :| 0 <= j3 < k - 1 && p[j3] > 0 && j3 / W == c.3;
      assert j0 < k && j1 < k && j2 < k && j3 < k;
    } else {
      assert p[k - 1] > 0;
      BoxAfterSpec(p, k - 1);
    }
  }

  /** The image is left as it is: its ink is less than two pixels wide or high. */
  predicate Degenerate(p: seq<int>)
    requires |p| == N
  {
    var b := Box(p);
    b.2 - b.0 + 1 < 2 || b.3 - b.1 + 1 < 2
  }

  /** An image without ink, or with a single ink pixel, is degenerate. */
  lemma FewInkDegenerate(p: seq<int>, k: int)
    requires |p| == N && 0 <= k < N
    requires forall j :: 0 <= j < N && j != k ==> p[j] <= 0
    ensures Degenerate(p)
  {
    BoxAfterSpec(p, N);
    if InkBefore(p, N) {
      BoxAttained(p, N);
    }
  }

  /** A non-degenerate image has ink, so its box lies inside the image. */
  lemma BoxInside(p: seq<int>)
    requires |p| == N && !Degenerate(p)
    ensures var b := Box(p); 0 <= b.0 <= b.2 < W && 0 <= b.1 <= b.3 < W
  {
    BoxAfterSpec(p, N);
  }

  /**
   * `t * e` written as repeated addition, so that the scaling below stays in
   * linear arithmetic for the solver.
   */
  function Times(t: nat, e: int): (r: int)
    ensures e >= 0 ==> r >= 0
  {
    if t == 0 then 0 else Times(t - 1, e) + e
  }

  lemma {:induction false} TimesIsProduct(t: nat, e: int)
    ensures Times(t, e) == t * e
  {
    if t > 0 {
      TimesIsProduct(t - 1, e);
    }
  }

  /** A box (minX, minY, maxX, maxY) that lies inside the image. */
  predicate InImage(b: (int, int, int, int))
  {
    0 <= b.0 <= b.2 < W && 0 <= b.1 <= b.3 < W
  }

  /**
   * The fitted value of pixel (x, y): inside the padded region, the ink of
   * the box pixel it samples (nearest-neighbour scaling by floor), else 0.
   */
  function FitCell(p: seq<int>, b: (int, int, int, int), x: int, y: int): (v: int)
    requires |p| == N && InImage(b)
    ensures v == 0 || v == 1
    ensures !(Padding <= x < W - Padding && Padding <= y < W - Padding) ==> v == 0
  {
    var bw, bh := b.2 - b.0 + 1, b.3 - b.1 + 1;
    if Padding <= x < Padding + Inner && Padding <= y < Padding + Inner then
      var tx, ty := x - Padding, y - Padding;
      var sx := b.0 + Times(tx, bw) / Inner;
      var sy := b.1 + Times(ty, bh) / Inner;
      if sx <= b.2 && sy <= b.3 then
        Coord(sx, sy);
        if p[sy * W + sx] > 0 then 1 else 0
      else 0
    else 0
  }

  /** The fitted image of a non-degenerate image. */
  function FitSeq(p: seq<int>): (r: seq<int>)
    requires |p| == N && !Degenerate(p)
    ensures |r| == N
    ensures forall k :: 0 <= k < N ==> r[k] == 0 || r[k] == 1
    ensures forall k :: 0 <= k < N && (k % W < Padding || k % W >= W - Padding || k / W < Padding || k / W >= W - Padding) ==>
      r[k] == 0
  {
    BoxInside(p);
    var b := Box(p);
    seq(N, k requires 0 <= k < N => FitCell(p, b, k % W, k / W))
  }

  /** `normalizeToFit` on an image: the image itself when degenerate, else its fit. */
  function Fitted(p: seq<int>): (r: seq<int>)
    requires |p| == N
    ensures |r| == N
  {
    if Degenerate(p) then p else FitSeq(p)
  }

  /** `normalizeToFit`: scan for the ink box, then sample it into the padded region. */
  method NormalizeToFit(pixels: array<int>) returns (out: array<int>)
    requires pixels.Length == N
    ensures out.Length == N && out[..] == Fitted(pixels[..])
    ensures Degenerate(pixels[..]) ==> out == pixels
    ensures !Degenerate(pixels[..]) ==> fresh(out)
  {
    ghost var p := pixels[..];
    var minX, minY, maxX, maxY := W, W, 0, 0;
    for y := 0 to W
      invariant (minX, minY, maxX, maxY) == BoxAfter(p, y * W)
    {
      for x := 0 to W
        invariant (minX, minY, maxX, maxY) == BoxAfter(p, y * W + x)
      {
        Coord(x, y);
        if pixels[y * W + x] > 0 {
          minX := Min(minX, x);
          minY := Min(minY, y);
          maxX := Max(maxX, x);
          maxY := Max(maxY, y);
        }
      }
    }
    var bw := maxX - minX + 1;
    var bh := maxY - minY + 1;
    if bw < 2 || bh < 2 {
      return pixels;
    }
    BoxInside(p);
    out := FillFit(pixels, minX, minY, maxX, maxY);
  }

  /** The sampling loops of `normalizeToFit`, over the ink box of a non-degenerate image. */
  method FillFit(pixels: array<int>, minX: int, minY: int, maxX: int, maxY: int) returns (out: array<int>)
    requires pixels.Length == N && !Degenerate(pixels[..])
    requires (minX, minY, maxX, maxY) == Box(pixels[..])
    ensures fresh(out) && out.Length == N && out[..] == FitSeq(pixels[..])
  {
    ghost var p := pixels[..];
    ghost var target := FitSeq(p);
    BoxInside(p);
    out := new int[N](_ => 0);
    BlankGap(p, -1);
    for ty := 0 to Inner
      invariant forall k :: 0 <= k < N ==> out[k] == (if k < (Padding + ty) * W + Padding then target[k] else 0)
    {
      for tx := 0 to Inner
        invariant forall k :: 0 <= k < N ==> out[k] == (if k < (Padding + ty) * W + Padding + tx then target[k] else 0)
      {
        Coord(Padding + tx, Padding + ty);
        FitStep(pixels, out, minX, minY, maxX, maxY, tx, ty);
      }
      BlankGap(p, ty);
    }
  }

  /**
   * The blank indices between the sampled runs of rows `r` and `r + 1` of the
   * padded region; row -1 stands for the top border and the last row runs to
   * the end of the image.
   */
  lemma BlankGap(p: seq<int>, r: int)
    requires |p| == N && !Degenerate(p) && -1 <= r < Inner
    ensures var lo := if r == -1 then 0 else (Padding + r) * W + W - Padding;
      var hi := if r == Inner - 1 then N else (Padding + r + 1) * W + Padding;
      forall k :: lo <= k < hi ==> FitSeq(p)[k] == 0
  {
    var lo := if r == -1 then 0 else (Padding + r) * W + W - Padding;
    var hi := if r == Inner - 1 then N else (Padding + r + 1) * W + Padding;
    forall k | lo <= k < hi
      ensures FitSeq(p)[k] == 0
    {
      IndexCoord(k);
    }
  }

  /** One target pixel of `normalizeToFit`: sample the box, and mark it when the sample is ink. */
  method FitStep(pixels: array<int>, out: array<int>, minX: int, minY: int, maxX: int, maxY: int, tx: int, ty: int)
    requires pixels.Length == N && out.Length == N && pixels != out && InImage((minX, minY, maxX, maxY))
    requires 0 <= tx < Inner && 0 <= ty < Inner
    requires out[(Padding + ty) * W + Padding + tx] == 0
    modifies out
    ensures out[..] == old(out[..])[(Padding + ty) * W + Padding + tx :=
      FitCell(pixels[..], (minX, minY, maxX, maxY), Padding + tx, Padding + ty)]
  {
    var bw := maxX - minX + 1;
    var bh := maxY - minY + 1;
    var sx := minX + Times(tx, bw) / Inner;
    var sy := minY + Times(ty, bh) / Inner;
    var dx := Padding + tx;
    var dy := Padding + ty;
    if sx <= maxX && sy <= maxY && pixels[sy * W + sx] > 0 {
      out[dy * W + dx] := 1;
    }
  }

  /** Every ink pixel of the fitted image samples an ink pixel of the box. */
  lemma FittedInkSound(p: seq<int>, b: (int, int, int, int), x: int, y: int)
    requires |p| == N && InImage(b) && 0 <= x < W && 0 <= y < W
    requires FitCell(p, b, x, y) == 1
    ensures exists k :: 0 <= k < N && b.0 <= k % W <= b.2 && b.1 <= k / W <= b.3 && p[k] > 0
  {
    assert Padding <= x < Padding + Inner && Padding <= y < Padding + Inner;
    var bw, bh := b.2 - b.0 + 1, b.3 - b.1 + 1;
    var qx, qy := Times(x - Padding, bw) / Inner, Times(y - Padding, bh) / Inner;
    assert qx >= 0 && qy >= 0;
    var sx, sy := b.0 + qx, b.1 + qy;
    assert sx <= b.2 && sy <= b.3 && p[sy * W + sx] > 0;
    InkInBox(p, b, sx, sy);
  }

  /** An ink pixel at (sx, sy) inside the box is an ink pixel index inside the box. */
  lemma InkInBox(p: seq<int>, b: (int, int, int, int), sx: int, sy: int)
    requires |p| == N && b.0 <= sx <= b.2 && b.1 <= sy <= b.3 && 0 <= sx < W && 0 <= sy < W
    requires p[sy * W + sx] > 0
    ensures exists k :: 0 <= k < N && b.0 <= k % W <= b.2 && b.1 <= k / W <= b.3 && p[k] > 0
  {
    Coord(sx, sy);
    var k := sy * W + sx;
    assert 0 <= k < N && k % W == sx && k / W == sy && p[k] > 0;
  }

  // ---------------------------------------------------------------------------
  // distanceTransform
  // ---------------------------------------------------------------------------

  /** A sum of steps of 3 and 4. */
  predicate Steps(v: int)
    decreases if v < 0 then 0 else v
  {
    v == 0 || (v >= 3 && Steps(v - 3)) || (v >= 4 && Steps(v - 4))
  }

  /** The initial distances: 0 on ink, `Inf` elsewhere. */
  function InitDist(p: seq<int>): (d: seq<int>)
    requires |p| == N
    ensures |d| == N
  {
    seq(N, i requires 0 <= i < N => if p[i] > 0 then 0 else Inf)
  }

  /** The forward-pass value of pixel (x, y): the 3-4 mask over the pixels before it. */
  function ForwardAt(d: seq<int>, x: int, y: int): int
    requires |d| == N && 0 <= x < W && 0 <= y < W
  {
    var i := y * W + x;
    if d[i] == 0 then 0
    else
      var m0 := Inf;
      var m1 := if x > 0 then Min(m0, d[i - 1] + 4) else m0;
      var m2 := if y > 0 then Min(m1, d[i - W] + 4) else m1;
      var m3 := if x > 0 && y > 0 then Min(m2, d[i - W - 1] + 3) else m2;
      var m4 := if x < W - 1 && y > 0 then Min(m3, d[i - W + 1] + 3) else m3;
      Min(d[i], m4)
  }

  /** The backward-pass value of pixel (x, y): the 3-4 mask over the pixels after it. */
  function BackwardAt(d: seq<int>, x: int, y: int): int
    requires |d| == N && 0 <= x < W && 0 <= y < W
  {
    var i := y * W + x;
    if d[i] == 0 then 0
    else
      var m0 := d[i];
      var m1 := if x < W - 1 then Min(m0, d[i + 1] + 4) else m0;
      var m2 := if y < W - 1 then Min(m1, d[i + W] + 4) else m1;
      var m3 := if x < W - 1 && y < W - 1 then Min(m2, d[i + W + 1] + 3) else m2;
      var m4 := if x > 0 && y < W - 1 then Min(m3, d[i + W - 1] + 3) else m3;
      m4
  }

  /** The distances after the forward pass has visited the first `k` pixels. */
  function Forward(p: seq<int>, k: int): (d: seq<int>)
    requires |p| == N && 0 <= k <= N
    ensures |d| == N
  {
    if k == 0 then InitDist(p)
    else
      var d := Forward(p, k - 1);
      IndexCoord(k - 1);
      d[k - 1 := ForwardAt(d, (k - 1) % W, (k - 1) / W)]
  }

  /** The distances after the backward pass has visited the last `k` pixels. */
  function Backward(d0: seq<int>, k: int): (d: seq<int>)
    requires |d0| == N && 0 <= k <= N
    ensures |d| == N
  {
    if k == 0 then d0
    else
      var d := Backward(d0, k - 1);
      var i := N - k;
      IndexCoord(i);
      d[i := BackwardAt(d, i % W, i / W)]
  }

  /** The chamfer distance transform of an image. */
  function Distances(p: seq<int>): (d: seq<int>)
    requires |p| == N
    ensures |d| == N
  {
    Backward(Forward(p, N), N)
  }

  /** The forward pass visits pixel (x, y) as its (y * 64 + x + 1)-th step. */
  lemma ForwardNext(p: seq<int>, x: int, y: int)
    requires |p| == N && 0 <= x < W && 0 <= y < W
    ensures var k := y * W + x;
      Forward(p, k + 1) == Forward(p, k)[k := ForwardAt(Forward(p, k), x, y)]
  {
    Coord(x, y);
  }

  /** The backward pass visits pixel (x, y) as its (4096 - (y * 64 + x))-th step. */
  lemma BackwardNext(d0: seq<int>, x: int, y: int, k: int)
    requires |d0| == N && 0 <= x < W && 0 <= y < W && k == N - 1 - (y * W + x)
    ensures Backward(d0, k + 1) == Backward(d0, k)[y * W + x := BackwardAt(Backward(d0, k), x, y)]
  {
    Coord(x, y);
  }

  /** `distanceTransform`: initialise, then the forward and the backward pass in place. */
  method DistanceTransform(pixels: array<int>) returns (d: array<int>)
    requires pixels.Length == N
    ensures fresh(d) && d[..] == Distances(pixels[..])
  {
    ghost var p := pixels[..];
    d := new int[N];
    for i := 0 to N
      invariant forall k :: 0 <= k < i ==> d[k] == InitDist(p)[k]
    {
      d[i] := if pixels[i] > 0 then 0 else Inf;
    }
    assert d[..] == Forward(p, 0);
    ForwardPass(d, p);
    BackwardPass(d);
  }

  /** The forward pass: rows top to bottom, each left to right. */
  method ForwardPass(d: array<int>, ghost p: seq<int>)
    requires d.Length == N && |p| == N && d[..] == Forward(p, 0)
    modifies d
    ensures d[..] == Forward(p, N)
  {
    for y := 0 to W
      invariant d[..] == Forward(p, y * W)
    {
      for x := 0 to W
        invariant d[..] == Forward(p, y * W + x)
      {
        ForwardNext(p, x, y);
        ForwardStep(d, x, y);
      }
    }
  }

  /** One pixel of the forward pass: the 3-4 mask over the pixels already visited. */
  method ForwardStep(d: array<int>, x: int, y: int)
    requires d.Length == N && 0 <= x < W && 0 <= y < W
    modifies d
    ensures d[..] == old(d[..])[y * W + x := ForwardAt(old(d[..]), x, y)]
  {
    var i := y * W + x;
    if d[i] != 0 {
      var m := Inf;
      if x > 0 { m := Min(m, d[i - 1] + 4); }
      if y > 0 { m := Min(m, d[i - W] + 4); }
      if x > 0 && y > 0 { m := Min(m, d[i - W - 1] + 3); }
      if x < W - 1 && y > 0 { m := Min(m, d[i - W + 1] + 3); }
      d[i] := Min(d[i], m);
    }
  }

  /** The backward pass: rows bottom to top, each right to left. */
  method BackwardPass(d: array<int>)
    requires d.Length == N
    modifies d
    ensures d[..] == Backward(old(d[..]), N)
  {
    ghost var f := d[..];
    var y := W - 1;
    while y >= 0
      invariant -1 <= y <= W - 1
      invariant d[..] == Backward(f, (W - 1 - y) * W)
    {
      BackwardRow(d, y, f);
      y := y - 1;
    }
  }

  /** One row of the backward pass, right to left. */
  method BackwardRow(d: array<int>, y: int, ghost f: seq<int>)
    requires d.Length == N && |f| == N && 0 <= y < W
    requires d[..] == Backward(f, (W - 1 - y) * W)
    modifies d
    ensures d[..] == Backward(f, (W - y) * W)
  {
    RowsFromEnd(y);
    var x := W - 1;
    ghost var k := (W - 1 - y) * W;
    while x >= 0
      invariant -1 <= x <= W - 1
      invariant k == N - 1 - (y * W + x)
      invariant d[..] == Backward(f, k)
    {
      BackwardNext(f, x, y, k);
      BackwardStep(d, x, y);
      x := x - 1;
      k := k + 1;
    }
    assert k == (W - y) * W;
  }

  /** The pixels after row `y`, and after rows `y` to the end, counted from the last pixel. */
  lemma RowsFromEnd(y: int)
    ensures (W - 1 - y) * W == N - W - y * W && (W - y) * W == N - y * W
  {
  }

  /** One pixel of the backward pass: the 3-4 mask over the pixels after it. */
  method BackwardStep(d: array<int>, x: int, y: int)
    requires d.Length == N && 0 <= x < W && 0 <= y < W
    modifies d
    ensures d[..] == old(d[..])[y * W + x := BackwardAt(old(d[..]), x, y)]
  {
    var i := y * W + x;
    if d[i] != 0 {
      var m := d[i];
      if x < W - 1 { m := Min(m, d[i + 1] + 4); }
      if y < W - 1 { m := Min(m, d[i + W] + 4); }
      if x < W - 1 && y < W - 1 { m := Min(m, d[i + W + 1] + 3); }
      if x > 0 && y < W - 1 { m := Min(m, d[i + W - 1] + 3); }
      d[i] := m;
    }
  }

  /**
   * Distances consistent with an image: 0 exactly on ink, never above `Inf`,
   * and each either `Inf` or a sum of steps of 3 and 4.
   */
  predicate GoodDistances(p: seq<int>, d: seq<int>)
  {
    |p| == N && |d| == N
    && forall k :: 0 <= k < N ==> (d[k] == 0 <==> p[k] > 0) && 0 <= d[k] <= Inf && (d[k] == Inf || Steps(d[k]))
  }

  /** A value taken from a neighbour plus a step keeps the shape of a distance. */
  lemma StepUp(v: int, c: int)
    requires c == 3 || c == 4
    requires 0 <= v <= Inf && (v == Inf || Steps(v))
    ensures v + c > 0 && (v + c > Inf || Steps(v + c))
  {
  }

  /** The value a pixel would take next is a distance consistent with its ink. */
  predicate GoodValue(p: seq<int>, i: int, v: int)
    requires 0 <= i < |p|
  {
    (v == 0 <==> p[i] > 0) && 0 <= v <= Inf && (v == Inf || Steps(v))
  }

  /** Replacing one distance by a good value keeps the distances good. */
  lemma UpdateGood(p: seq<int>, d: seq<int>, i: int, v: int)
    requires GoodDistances(p, d) && 0 <= i < N && GoodValue(p, i, v)
    ensures GoodDistances(p, d[i := v])
  {
    var e := d[i := v];
    forall k | 0 <= k < N ensures (e[k] == 0 <==> p[k] > 0) && 0 <= e[k] <= Inf && (e[k] == Inf || Steps(e[k])) {
      if k != i {
        assert e[k] == d[k];
      }
    }
  }

  lemma ForwardAtGood(p: seq<int>, d: seq<int>, x: int, y: int)
    requires GoodDistances(p, d) && 0 <= x < W && 0 <= y < W
    ensures GoodDistances(p, d[y * W + x := ForwardAt(d, x, y)])
  {
    Coord(x, y);
    var i := y * W + x;
    if d[i] != 0 {
      if x > 0 { StepUp(d[i - 1], 4); }
      if y > 0 { StepUp(d[i - W], 4); }
      if x > 0 && y > 0 { StepUp(d[i - W - 1], 3); }
      if x < W - 1 && y > 0 { StepUp(d[i - W + 1], 3); }
    }
    assert GoodValue(p, i, ForwardAt(d, x, y));
    UpdateGood(p, d, i, ForwardAt(d, x, y));
  }

  lemma BackwardAtGood(p: seq<int>, d: seq<int>, x: int, y: int)
    requires GoodDistances(p, d) && 0 <= x < W && 0 <= y < W
    ensures GoodDistances(p, d[y * W + x := BackwardAt(d, x, y)])
  {
    Coord(x, y);
    var i := y * W + x;
    if d[i] != 0 {
      if x < W - 1 { StepUp(d[i + 1], 4); }
      if y < W - 1 { StepUp(d[i + W], 4); }
      if x < W - 1 && y < W - 1 { StepUp(d[i + W + 1], 3); }
      if x > 0 && y < W - 1 { StepUp(d[i + W - 1], 3); }
    }
    assert GoodValue(p, i, BackwardAt(d, x, y));
    UpdateGood(p, d, i, BackwardAt(d, x, y));
  }

  lemma {:induction false} ForwardGood(p: seq<int>, k: int)
    requires |p| == N && 0 <= k <= N
    ensures GoodDistances(p, Forward(p, k))
  {
    if k > 0 {
      ForwardGood(p, k - 1);
      IndexCoord(k - 1);
      ForwardAtGood(p, Forward(p, k - 1), (k - 1) % W, (k - 1) / W);
    }
  }

  lemma {:induction false} BackwardGood(p: seq<int>, d0: seq<int>, k: int)
    requires GoodDistances(p, d0) && 0 <= k <= N
    ensures GoodDistances(p, Backward(d0, k))
  {
    if k > 0 {
      BackwardGood(p, d0, k - 1);
      IndexCoord(N - k);
      BackwardAtGood(p, Backward(d0, k - 1), (N - k) % W, (N - k) / W);
    }
  }

  /**
   * The distance is 0 exactly on ink, lies in [0, 1e6], and is either 1e6 or a
   * sum of steps of 3 and 4.
   */
  lemma DistancesSpec(p: seq<int>)
    requires |p| == N
    ensures GoodDistances(p, Distances(p))
  {
    ForwardGood(p, N);
    BackwardGood(p, Forward(p, N), N);
  }

  // ---------------------------------------------------------------------------
  // chamferSimilarity
  // ---------------------------------------------------------------------------

  /** The sum of `dist` over the first `n` pixels where `mask` has ink. */
  function MaskedSum(mask: seq<int>, dist: seq<int>, n: int): int
    requires |mask| == |dist| == N && 0 <= n <= N
  {
    if n == 0 then 0 else MaskedSum(mask, dist, n - 1) + (if mask[n - 1] > 0 then dist[n - 1] else 0)
  }

  /** The number of ink pixels among the first `n`. */
  function InkCount(mask: seq<int>, n: int): (c: int)
    requires |mask| == N && 0 <= n <= N
    ensures 0 <= c <= n
  {
    if n == 0 then 0 else InkCount(mask, n - 1) + (if mask[n - 1] > 0 then 1 else 0)
  }

  /** A mean that is 0 over no pixels. */
  function Mean(sum: int, count: int): real
  {
    if count > 0 then sum as real / count as real else 0.0
  }

  /** `chamferSimilarity`: 1 / (1 + the mean of the two directed mean distances). */
  function Similarity(user: seq<int>, ref: seq<int>): real
    requires |user| == |ref| == N
  {
    var dRef, dUser := Distances(ref), Distances(user);
    var avgUser := Mean(MaskedSum(user, dRef, N), InkCount(user, N));
    var avgRef := Mean(MaskedSum(ref, dUser, N), InkCount(ref, N));
    DirectedMeanZero(user, ref);
    DirectedMeanZero(ref, user);
    1.0 / (1.0 + (avgUser + avgRef) / 2.0)
  }

  /** `chamferSimilarity`: both transforms, then one summing loop. */
  method ChamferSimilarity(user: array<int>, ref: array<int>) returns (score: real)
    requires user.Length == N && ref.Length == N
    ensures score == Similarity(user[..], ref[..])
  {
    var dRef := DistanceTransform(ref);
    var dUser := DistanceTransform(user);
    var sumUser, countUser := 0, 0;
    var sumRef, countRef := 0, 0;
    for i := 0 to user.Length
      invariant sumUser == MaskedSum(user[..], dRef[..], i) && countUser == InkCount(user[..], i)
      invariant sumRef == MaskedSum(ref[..], dUser[..], i) && countRef == InkCount(ref[..], i)
    {
      if user[i] > 0 {
        sumUser := sumUser + dRef[i];
        countUser := countUser + 1;
      }
      if ref[i] > 0 {
        sumRef := sumRef + dUser[i];
        countRef := countRef + 1;
      }
    }
    var avgUser := if countUser > 0 then sumUser as real / countUser as real else 0.0;
    var avgRef := if countRef > 0 then sumRef as real / countRef as real else 0.0;
    DirectedMeanZero(user[..], ref[..]);
    DirectedMeanZero(ref[..], user[..]);
    var avgDist := (avgUser + avgRef) / 2.0;
    score := 1.0 / (1.0 + avgDist);
  }

  /** Summing non-negative distances: the sum is 0 exactly when every ink pixel has distance 0. */
  lemma {:induction false} MaskedSumZero(mask: seq<int>, dist: seq<int>, n: int)
    requires |mask| == |dist| == N && 0 <= n <= N
    requires forall k :: 0 <= k < N ==> dist[k] >= 0
    ensures MaskedSum(mask, dist, n) >= 0
    ensures MaskedSum(mask, dist, n) == 0 <==> forall k :: 0 <= k < n && mask[k] > 0 ==> dist[k] == 0
  {
    if n > 0 {
      MaskedSumZero(mask, dist, n - 1);
    }
  }

  /** The directed mean from `a` to `b` is 0 exactly when every ink pixel of `a` is ink in `b`. */
  lemma DirectedMeanZero(a: seq<int>, b: seq<int>)
    requires |a| == |b| == N
    ensures Mean(MaskedSum(a, Distances(b), N), InkCount(a, N)) >= 0.0
    ensures Mean(MaskedSum(a, Distances(b), N), InkCount(a, N)) == 0.0 <==>
      forall k :: 0 <= k < N && a[k] > 0 ==> b[k] > 0
  {
    var d := Distances(b);
    DistancesSpec(b);
    MaskedSumZero(a, d, N);
    var s, c := MaskedSum(a, d, N), InkCount(a, N);
    if c > 0 {
      assert s as real / c as real == 0.0 <==> s == 0;
    } else {
      assert s == 0 by {
        InkCountZero(a, N);
      }
    }
  }

  /** Without ink among the first `n` pixels, nothing is summed. */
  lemma {:induction false} InkCountZero(a: seq<int>, n: int)
    requires |a| == N && 0 <= n <= N && InkCount(a, n) == 0
    ensures forall k :: 0 <= k < n ==> a[k] <= 0
  {
    if n > 0 {
      InkCountZero(a, n - 1);
    }
  }

  /**
   * The similarity lies in (0, 1], and it is 1 exactly when the two images
   * have ink at the same pixels.
   */
  lemma SimilaritySpec(user: seq<int>, ref: seq<int>)
    requires |user| == |ref| == N
    ensures 0.0 < Similarity(user, ref) <= 1.0
    ensures Similarity(user, ref) == 1.0 <==> forall k :: 0 <= k < N ==> (user[k] > 0 <==> ref[k] > 0)
  {
    DirectedMeanZero(user, ref);
    DirectedMeanZero(ref, user);
    var a := Mean(MaskedSum(user, Distances(ref), N), InkCount(user, N));
    var b := Mean(MaskedSum(ref, Distances(user), N), InkCount(ref, N));
    var t := 1.0 + (a + b) / 2.0;
    assert t >= 1.0;
    assert 1.0 / t == 1.0 <==> t == 1.0;
    assert 1.0 / t <= 1.0;
  }

  // ---------------------------------------------------------------------------
  // matchByPixels
  // ---------------------------------------------------------------------------

  /** A candidate glyph. */
  datatype PhonemeOption = PhonemeOption(devanagari: string, id: string)

  /** The least ink mass a drawing needs to be compared. */
  const MinMass: int := 8

  /** The score the best option must exceed. */
  const MinScore: real := 0.35

  /** An image as the matcher compares it: binarised, then fitted. */
  function Prepared(raw: seq<int>): (r: seq<int>)
    requires |raw| == N
    ensures |r| == N
  {
    Fitted(Binarized(raw))
  }

  /** The sum of the first `n` values. */
  function Sum(s: seq<int>, n: int): int
    requires 0 <= n <= |s|
  {
    if n == 0 then 0 else Sum(s, n - 1) + s[n - 1]
  }

  /** `drawn.reduce((s, v) => s + v, 0)`: the ink mass of an image. */
  method Mass(a: array<int>) returns (m: int)
    ensures m == Sum(a[..], a.Length)
  {
    m := 0;
    for i := 0 to a.Length
      invariant m == Sum(a[..], i)
    {
      m := m + a[i];
    }
  }

  /** The score of an option against a prepared drawing. */
  function OptionScore(drawn: seq<int>, render: string -> seq<int>, o: PhonemeOption): real
    requires |drawn| == N && |render(o.devanagari)| == N
  {
    Similarity(drawn, Prepared(render(o.devanagari)))
  }

  /**
   * The best of the first `n` options as (index, score), replaced only by a
   * strictly greater score; index -1 and score 0 before any option scores
   * above 0.
   */
  function BestOf(drawn: seq<int>, render: string -> seq<int>, options: seq<PhonemeOption>, n: int): (r: (int, real))
    requires |drawn| == N && forall s :: |render(s)| == N
    requires 0 <= n <= |options|
    ensures -1 <= r.0 < n
  {
    if n == 0 then (-1, 0.0)
    else
      var b := BestOf(drawn, render, options, n - 1);
      var s := OptionScore(drawn, render, options[n - 1]);
      if s > b.1 then (n - 1, s) else b
  }

  /** The matcher's answer for a raw drawing and the options' renders. */
  function Match(raw: seq<int>, render: string -> seq<int>, options: seq<PhonemeOption>): Option<PhonemeOption>
    requires |raw| == N && forall s :: |render(s)| == N
  {
    var drawn := Prepared(raw);
    if Sum(drawn, N) < MinMass then None
    else
      var b := BestOf(drawn, render, options, |options|);
      if b.1 > MinScore && b.0 >= 0 then Some(options[b.0]) else None
  }

  /** A fresh buffer holding an image. */
  method ToArray(s: seq<int>) returns (a: array<int>)
    ensures fresh(a) && a[..] == s
  {
    a := new int[|s|](i requires 0 <= i < |s| => s[i]);
  }

  /**
   * `matchByPixels`: prepare the drawing, reject too little ink, then keep the
   * first option with the strictly highest similarity, and answer only above
   * the score threshold. The canvas read and the reference rendering are the
   * parameters `raw` and `render`.
   */
  method MatchByPixels(raw: seq<int>, render: string -> seq<int>, options: seq<PhonemeOption>)
    returns (r: Option<PhonemeOption>)
    requires |raw| == N && forall s :: |render(s)| == N
    ensures r == Match(raw, render, options)
  {
    var drawn := Prepare(raw);
    ghost var d := drawn[..];
    var drawnMass := Mass(drawn);
    if drawnMass < MinMass {
      return None;
    }
    var best: Option<PhonemeOption> := None;
    var bestScore := 0.0;
    ghost var bestIndex := -1;
    for i := 0 to |options|
      invariant drawn[..] == d
      invariant (bestIndex, bestScore) == BestOf(d, render, options, i)
      invariant best == (if bestIndex >= 0 then Some(options[bestIndex]) else None)
    {
      var opt := options[i];
      var score := ScoreOption(drawn, render, opt);
      if score > bestScore {
        bestScore := score;
        best := Some(opt);
        bestIndex := i;
      }
    }
    r := if bestScore > MinScore then best else None;
  }

  /** A canvas read binarised and fitted to the box, in a new array. */
  method Prepare(raw: seq<int>) returns (a: array<int>)
    requires |raw| == N
    ensures fresh(a) && a.Length == N && a[..] == Prepared(raw)
  {
    var rawA := ToArray(raw);
    var bin := Binarize(rawA);
    a := NormalizeToFit(bin);
  }

  /** The similarity of the drawing to one option's prepared reference. */
  method ScoreOption(drawn: array<int>, render: string -> seq<int>, opt: PhonemeOption) returns (score: real)
    requires drawn.Length == N && |render(opt.devanagari)| == N
    ensures score == OptionScore(drawn[..], render, opt)
  {
    var ref := Prepare(render(opt.devanagari));
    score := ChamferSimilarity(drawn, ref);
  }

  /**
   * The reference image of a glyph when hand-drawn references are given: the
   * decoded drawing when one is stored under the glyph (a non-empty string)
   * and decodes, otherwise the rendered glyph.
   */
  function Reference(refs: map<string, string>, decode: string -> Option<seq<int>>, render: string -> seq<int>, ch: string): seq<int>
  {
    if ch in refs && refs[ch] != "" && decode(refs[ch]).Some? then decode(refs[ch]).value else render(ch)
  }

  /** Decoding a stored drawing yields a whole image whenever it succeeds. */
  ghost predicate DecodesImages(decode: string -> Option<seq<int>>)
  {
    forall b :: decode(b).Some? ==> |decode(b).value| == N
  }

  lemma ReferenceIsImage(refs: map<string, string>, decode: string -> Option<seq<int>>, render: string -> seq<int>)
    requires DecodesImages(decode) && forall s :: |render(s)| == N
    ensures forall ch :: |Reference(refs, decode, render, ch)| == N
  {
  }

  /**
   * `matchByPixelsWithRefs`: the same matcher, with each option's reference
   * taken from the stored drawings where one decodes. `decode` stands for
   * loading a stored PNG.
   */
  method MatchByPixelsWithRefs(raw: seq<int>, render: string -> seq<int>, decode: string -> Option<seq<int>>,
                               refs: map<string, string>, options: seq<PhonemeOption>)
    returns (r: Option<PhonemeOption>)
    requires |raw| == N && forall s :: |render(s)| == N
    requires DecodesImages(decode)
    ensures forall ch :: |Reference(refs, decode, render, ch)| == N
    ensures r == Match(raw, ch => Reference(refs, decode, render, ch), options)
  {
    ReferenceIsImage(refs, decode, render);
    r := MatchByPixels(raw, ch => Reference(refs, decode, render, ch), options);
  }

  /**
   * The best option is the first with the highest score: every option scores
   * at most its score and every earlier option strictly less; with no option,
   * the index is -1.
   */
  lemma {:induction false} BestOfSpec(drawn: seq<int>, render: string -> seq<int>, options: seq<PhonemeOption>, n: int)
    requires |drawn| == N && forall s :: |render(s)| == N
    requires 0 <= n <= |options|
    ensures var b := BestOf(drawn, render, options, n);
      && (b.0 >= 0 ==> b.1 == OptionScore(drawn, render, options[b.0]))
      && (b.0 >= 0 ==> forall j :: 0 <= j < b.0 ==> OptionScore(drawn, render, options[j]) < b.1)
      && (forall j :: 0 <= j < n ==> OptionScore(drawn, render, options[j]) <= b.1)
      && (b.0 == -1 <==> n == 0)
  {
    if n > 0 {
      BestOfSpec(drawn, render, options, n - 1);
      var b := BestOf(drawn, render, options, n - 1);
      var s := OptionScore(drawn, render, options[n - 1]);
      ScorePositive(drawn, render, options[n - 1]);
      var r := BestOf(drawn, render, options, n);
      assert r == if s > b.1 then (n - 1, s) else b;
      assert b.0 == -1 ==> s > b.1;
      assert b.1 <= r.1 && s <= r.1;
      forall j | 0 <= j < n ensures OptionScore(drawn, render, options[j]) <= r.1 {
        if j < n - 1 {
          assert OptionScore(drawn, render, options[j]) <= b.1;
        }
      }
      if s > b.1 {
        forall j | 0 <= j < n - 1 ensures OptionScore(drawn, render, options[j]) < r.1 {
          assert OptionScore(drawn, render, options[j]) <= b.1;
        }
      }
    }
  }

  /** Every option scores above 0. */
  lemma ScorePositive(drawn: seq<int>, render: string -> seq<int>, o: PhonemeOption)
    requires |drawn| == N && |render(o.devanagari)| == N
    ensures OptionScore(drawn, render, o) > 0.0
  {
    SimilaritySpec(drawn, Prepared(render(o.devanagari)));
  }

  /**
   * Too little ink gives no answer; otherwise the answer, if any, is the first
   * option with the highest score, and that score exceeds 0.35.
   */
  lemma MatchSpec(raw: seq<int>, render: string -> seq<int>, options: seq<PhonemeOption>)
    requires |raw| == N && forall s :: |render(s)| == N
    ensures Sum(Prepared(raw), N) < MinMass ==> Match(raw, render, options).None?
    ensures var r := Match(raw, render, options); var drawn := Prepared(raw);
      r.Some? ==>
        (exists i :: 0 <= i < |options| && r.value == options[i]
          && OptionScore(drawn, render, options[i]) > MinScore
          && (forall j :: 0 <= j < |options| ==> OptionScore(drawn, render, options[j]) <= OptionScore(drawn, render, options[i]))
          && (forall j :: 0 <= j < i ==> OptionScore(drawn, render, options[j]) < OptionScore(drawn, render, options[i])))
  {
    BestOfSpec(Prepared(raw), render, options, |options|);
  }
}
