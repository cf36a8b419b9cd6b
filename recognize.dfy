/**
 * The non-neural parts of the handwriting recogniser: greedy CTC decoding of
 * the word model's logits, 2×2 downsampling of a 64×64 drawing for the
 * character model, and the column-group heuristic that decides between the
 * character and the word model.
 */
module Recognize {
  import opened Wrappers

  // ---------------------------------------------------------------------------
  // ctcGreedyDecode
  // ---------------------------------------------------------------------------

  /** The logit at a flat index; reading past the end gives nothing. */
  function LogitAt(logits: seq<real>, i: int): Option<real>
  {
    if 0 <= i < |logits| then Some(logits[i]) else None
  }

  /** A value beats the running best: anything beats "no value yet" (minus infinity). */
  predicate Beats(v: Option<real>, best: Option<real>)
  {
    v.Some? && (best.None? || v.value > best.value)
  }

  /**
   * The running argmax (index, value) after looking at the first `n` classes of
   * the time step starting at flat index `base`; the index starts at 0.
   */
  function ArgMaxUpTo(logits: seq<real>, base: int, n: nat): (int, Option<real>)
  {
    if n == 0 then (0, None)
    else
      var (idx, best) := ArgMaxUpTo(logits, base, n - 1);
      var v := LogitAt(logits, base + n - 1);
      if Beats(v, best) then (n - 1, v) else (idx, best)
  }

  /**
   * Over logits that are all present, the argmax is the first index of the
   * greatest value: no class is greater, and every earlier class is smaller.
   */
  lemma {:induction false} ArgMaxSpec(logits: seq<real>, base: int, n: nat)
    requires 0 <= base && base + n <= |logits|
    ensures var (idx, best) := ArgMaxUpTo(logits, base, n);
      && (n == 0 ==> idx == 0 && best.None?)
      && (n > 0 ==> (0 <= idx < n && best == Some(logits[base + idx])
                     && (forall i :: base <= i < base + n ==> logits[i] <= logits[base + idx])
                     && (forall i :: base <= i < base + idx ==> logits[i] < logits[base + idx])))
  {
    if n > 0 {
      ArgMaxSpec(logits, base, n - 1);
    }
  }

  /** The class chosen at time step `t`. */
  function Best(logits: seq<real>, numClasses: nat, t: nat): int
  {
    ArgMaxUpTo(logits, t * numClasses, numClasses).0
  }

  /**
   * The decoder's state after `t` time steps: the emitted classes and the
   * previous class (-1 after a blank or at the start).
   */
  function DecodeUpTo(logits: seq<real>, numClasses: nat, blank: int, t: nat): (seq<int>, int)
  {
    if t == 0 then ([], -1)
    else
      var (chars, prev) := DecodeUpTo(logits, numClasses, blank, t - 1);
      var b := Best(logits, numClasses, t - 1);
      if b != blank then (if b != prev then chars + [b] else chars, b) else (chars, -1)
  }

  /** `ctcGreedyDecode`: argmax per time step, repeats merged, blanks dropped. */
  method CtcGreedyDecode(logits: seq<real>, seqLen: nat, numClasses: nat, blank: int) returns (chars: seq<int>)
    ensures chars == DecodeUpTo(logits, numClasses, blank, seqLen).0
  {
    chars := [];
    var prev := -1;
    var base := 0;
    for t := 0 to seqLen
      invariant base == t * numClasses
      invariant (chars, prev) == DecodeUpTo(logits, numClasses, blank, t)
    {
      ghost var before := DecodeUpTo(logits, numClasses, blank, t);
      assert DecodeUpTo(logits, numClasses, blank, t + 1) ==
        var b := ArgMaxUpTo(logits, base, numClasses).0;
        if b != blank then (if b != before.1 then before.0 + [b] else before.0, b) else (before.0, -1);
      var bestIdx := 0;
      var bestVal: Option<real> := None;
      for c := 0 to numClasses
        invariant (bestIdx, bestVal) == ArgMaxUpTo(logits, base, c)
      {
        var v := LogitAt(logits, base + c);
        if Beats(v, bestVal) {
          bestVal := v;
          bestIdx := c;
        }
      }
      if bestIdx != blank {
        if bestIdx != prev {
          chars := chars + [bestIdx];
        }
        prev := bestIdx;
      } else {
        prev := -1;
      }
      assert base + numClasses == (t + 1) * numClasses;
      base := base + numClasses;
    }
  }

  /** The argmax path: the class chosen at each of the first `t` time steps. */
  function Path(logits: seq<real>, numClasses: nat, t: nat): (p: seq<int>)
    ensures |p| == t
  {
    if t == 0 then [] else Path(logits, numClasses, t - 1) + [Best(logits, numClasses, t - 1)]
  }

  /**
   * The textbook CTC collapse of a path: a class is kept where it is not the
   * blank and differs from the class just before it.
   */
  function Collapse(path: seq<int>, blank: int): seq<int>
  {
    if path == [] then []
    else
      var init, last := path[..|path| - 1], path[|path| - 1];
      Collapse(init, blank) + (if last != blank && (init == [] || init[|init| - 1] != last) then [last] else [])
  }

  lemma ArgMaxNonNegative(logits: seq<real>, base: int, n: nat)
    ensures ArgMaxUpTo(logits, base, n).0 >= 0
  {
  }

  /**
   * The decoder computes the textbook collapse of its argmax path, and its
   * `prev` is the last class of the path unless that was the blank.
   */
  lemma {:induction false} DecodeIsCollapse(logits: seq<real>, numClasses: nat, blank: int, t: nat)
    ensures var (chars, prev) := DecodeUpTo(logits, numClasses, blank, t);
      var path := Path(logits, numClasses, t);
      && chars == Collapse(path, blank)
      && prev == (if t == 0 || path[t - 1] == blank then -1 else path[t - 1])
  {
    if t > 0 {
      DecodeIsCollapse(logits, numClasses, blank, t - 1);
      ArgMaxNonNegative(logits, (t - 1) * numClasses, numClasses);
      var path := Path(logits, numClasses, t);
      assert path[..t - 1] == Path(logits, numClasses, t - 1);
    }
  }

  /** The collapse never holds the blank and is no longer than the path. */
  lemma {:induction false} CollapseBounds(path: seq<int>, blank: int)
    ensures |Collapse(path, blank)| <= |path|
    ensures forall k :: 0 <= k < |Collapse(path, blank)| ==> Collapse(path, blank)[k] != blank
    ensures forall k :: 0 <= k < |Collapse(path, blank)| ==> Collapse(path, blank)[k] in path
  {
    if path != [] {
      var init := path[..|path| - 1];
      CollapseBounds(init, blank);
      assert forall x :: x in init ==> x in path;
    }
  }

  /** Every chosen class is a class index when there is at least one class. */
  lemma {:induction false} PathInRange(logits: seq<real>, numClasses: nat, t: nat)
    requires numClasses > 0
    ensures forall k :: 0 <= k < t ==> 0 <= Path(logits, numClasses, t)[k] < numClasses
  {
    if t > 0 {
      PathInRange(logits, numClasses, t - 1);
      ArgMaxRange(logits, (t - 1) * numClasses, numClasses);
    }
  }

  lemma {:induction false} ArgMaxRange(logits: seq<real>, base: int, n: nat)
    requires n > 0
    ensures 0 <= ArgMaxUpTo(logits, base, n).0 < n
  {
    if n > 1 {
      ArgMaxRange(logits, base, n - 1);
    }
  }

  /**
   * The decoded classes never include the blank, number at most `seqLen`,
   * and are class indices when there is at least one class.
   */
  lemma DecodeBounds(logits: seq<real>, seqLen: nat, numClasses: nat, blank: int)
    ensures var chars := DecodeUpTo(logits, numClasses, blank, seqLen).0;
      && |chars| <= seqLen
      && (forall k :: 0 <= k < |chars| ==> chars[k] != blank)
      && (numClasses > 0 ==> forall k :: 0 <= k < |chars| ==> 0 <= chars[k] < numClasses)
  {
    DecodeIsCollapse(logits, numClasses, blank, seqLen);
    var path := Path(logits, numClasses, seqLen);
    CollapseBounds(path, blank);
    if numClasses > 0 {
      PathInRange(logits, numClasses, seqLen);
    }
  }

  /** A run of the same class is emitted once; the same class after a blank is emitted again. */
  lemma CollapseRuns(blank: int, a: int)
    requires a != blank
    ensures Collapse([a, a, a], blank) == [a]
    ensures Collapse([a, blank, a], blank) == [a, a]
  {
    assert [a, a, a][..2] == [a, a];
    assert [a, a][..1] == [a];
    assert Collapse([a], blank) == [a];
    assert Collapse([a, a], blank) == [a];
    assert Collapse([a, blank], blank) == [a];
    assert [a, blank, a][..2] == [a, blank];
    assert [a, blank][..1] == [a];
    assert [a][..0] == [];
  }

  // ---------------------------------------------------------------------------
  // downsampleTo32x32
  // ---------------------------------------------------------------------------

  /** The flat index of the `j`-th pixel (row-major within the block) of block (x, y). */
  function BlockPixel(x: int, y: int, j: int): int
  {
    (y * 2 + j / 2) * 64 + (x * 2 + j % 2)
  }

  /** Some of the first `n` pixels of block (x, y) is ink. */
  predicate InkInBlock(p: seq<int>, x: int, y: int, n: int)
    requires |p| == 4096 && 0 <= x < 32 && 0 <= y < 32 && 0 <= n <= 4
  {
    exists j :: 0 <= j < n && p[BlockPixel(x, y, j)] > 0
  }

  /** The downsampled image: 1 for a 2×2 block holding ink, else 0. */
  function Downsampled(p: seq<int>): (r: seq<int>)
    requires |p| == 4096
    ensures |r| == 1024
  {
    seq(1024, k requires 0 <= k < 1024 => if InkInBlock(p, k % 32, k / 32, 4) then 1 else 0)
  }

  /** `downsampleTo32x32`: each output pixel ORs the four pixels of its block. */
  method DownsampleTo32x32(pixels64: array<int>) returns (out: array<int>)
    requires pixels64.Length == 4096
    ensures fresh(out) && out[..] == Downsampled(pixels64[..])
  {
    ghost var p := pixels64[..];
    out := new int[1024];
    for y := 0 to 32
      invariant forall k :: 0 <= k < y * 32 ==> out[k] == Downsampled(p)[k]
    {
      for x := 0 to 32
        invariant forall k :: 0 <= k < y * 32 + x ==> out[k] == Downsampled(p)[k]
      {
        var v := 0;
        for dy := 0 to 2
          invariant v == (if InkInBlock(p, x, y, dy * 2) then 1 else 0)
        {
          for dx := 0 to 2
            invariant v == (if InkInBlock(p, x, y, dy * 2 + dx) then 1 else 0)
          {
            assert BlockPixel(x, y, dy * 2 + dx) == (y * 2 + dy) * 64 + (x * 2 + dx);
            if pixels64[(y * 2 + dy) * 64 + (x * 2 + dx)] > 0 {
              v := 1;
            }
          }
        }
        assert (y * 32 + x) % 32 == x && (y * 32 + x) / 32 == y;
        out[y * 32 + x] := v;
      }
    }
  }

  /** Output pixel (x, y) is 1 exactly when one of the four source pixels of its block is ink. */
  lemma DownsampledSpec(p: seq<int>, x: int, y: int)
    requires |p| == 4096 && 0 <= x < 32 && 0 <= y < 32
    ensures Downsampled(p)[y * 32 + x] == 0 || Downsampled(p)[y * 32 + x] == 1
    ensures Downsampled(p)[y * 32 + x] == 1 <==>
      (p[(2 * y) * 64 + 2 * x] > 0 || p[(2 * y) * 64 + 2 * x + 1] > 0
       || p[(2 * y + 1) * 64 + 2 * x] > 0 || p[(2 * y + 1) * 64 + 2 * x + 1] > 0)
  {
    assert (y * 32 + x) % 32 == x && (y * 32 + x) / 32 == y;
    assert BlockPixel(x, y, 0) == (2 * y) * 64 + 2 * x;
    assert BlockPixel(x, y, 1) == (2 * y) * 64 + 2 * x + 1;
    assert BlockPixel(x, y, 2) == (2 * y + 1) * 64 + 2 * x;
    assert BlockPixel(x, y, 3) == (2 * y + 1) * 64 + 2 * x + 1;
  }

  // ---------------------------------------------------------------------------
  // countDarkColumnGroups and the char/word decision
  // ---------------------------------------------------------------------------

  /** The default gray level above which a pixel is dark. */
  const DarkThreshold: real := 48.0

  /** Column `x` of a gray image (rows of width `w`) has a pixel darker than the threshold. */
  predicate DarkColumn(gray: seq<seq<real>>, x: int, threshold: real)
    requires 0 <= x
    requires forall y :: 0 <= y < |gray| ==> x < |gray[y]|
  {
    exists y :: 0 <= y < |gray| && gray[y][x] > threshold
  }

  /** Every row of the image is `w` pixels wide. */
  predicate Rows(gray: seq<seq<real>>, w: nat)
  {
    forall y :: 0 <= y < |gray| ==> |gray[y]| == w
  }

  /** The number of runs of dark columns that start among the first `n` columns. */
  function GroupsUpTo(gray: seq<seq<real>>, w: nat, threshold: real, n: nat): (g: nat)
    requires Rows(gray, w) && n <= w
    ensures g <= n
  {
    if n == 0 then 0
    else
      GroupsUpTo(gray, w, threshold, n - 1)
      + (if DarkColumn(gray, n - 1, threshold) && (n == 1 || !DarkColumn(gray, n - 2, threshold)) then 1 else 0)
  }

  /**
   * `countDarkColumnGroups`: scan each column top-down, stopping at the first
   * dark pixel, and count where a dark run begins. The image's gray levels are
   * the parameter `gray`.
   */
  method CountDarkColumnGroups(gray: seq<seq<real>>, w: nat, threshold: real) returns (groups: nat)
    requires Rows(gray, w)
    ensures groups == GroupsUpTo(gray, w, threshold, w)
  {
    groups := 0;
    var inDark := false;
    for x := 0 to w
      invariant groups == GroupsUpTo(gray, w, threshold, x)
      invariant inDark == (x > 0 && DarkColumn(gray, x - 1, threshold))
    {
      var hasDark := false;
      var y := 0;
      while y < |gray|
        invariant 0 <= y <= |gray| && !hasDark
        invariant forall yy :: 0 <= yy < y ==> gray[yy][x] <= threshold
      {
        if gray[y][x] > threshold {
          hasDark := true;
          break;
        }
        y := y + 1;
      }
      if hasDark && !inDark {
        groups := groups + 1;
      }
      inDark := hasDark;
    }
  }

  /** The number of dark columns among the first `n`. */
  function DarkColumnsUpTo(gray: seq<seq<real>>, w: nat, threshold: real, n: nat): nat
    requires Rows(gray, w) && n <= w
  {
    if n == 0 then 0 else DarkColumnsUpTo(gray, w, threshold, n - 1) + (if DarkColumn(gray, n - 1, threshold) then 1 else 0)
  }

  /**
   * There are no more groups than dark columns, and there is no group exactly
   * when no column is dark.
   */
  lemma {:induction false} GroupsSpec(gray: seq<seq<real>>, w: nat, threshold: real, n: nat)
    requires Rows(gray, w) && n <= w
    ensures GroupsUpTo(gray, w, threshold, n) <= DarkColumnsUpTo(gray, w, threshold, n)
    ensures GroupsUpTo(gray, w, threshold, n) == 0 <==> forall x :: 0 <= x < n ==> !DarkColumn(gray, x, threshold)
  {
    if n > 0 {
      GroupsSpec(gray, w, threshold, n - 1);
      if DarkColumn(gray, n - 1, threshold) && GroupsUpTo(gray, w, threshold, n - 1) == 0 {
        assert n == 1 || !DarkColumn(gray, n - 2, threshold);
      }
    }
  }

  /** The model `recognize` hands the canvas to. */
  datatype Route =
    | CharFromPixels  // the supplied 32×32 pixels go to the character model
    | CharFromCanvas  // the centred square of the canvas, cut to 32×32, goes to the character model
    | Word            // the whole canvas goes to the word model

  /** `w / h <= 2` in floating point: false for a zero height (infinity or NaN). */
  predicate AspectAtMostTwo(w: nat, h: nat)
  {
    h > 0 && w <= 2 * h
  }

  /** The character heuristic: square-ish, or at most 20 dark column groups. */
  predicate IsChar(w: nat, h: nat, groups: nat)
  {
    AspectAtMostTwo(w, h) || groups <= 20
  }

  /** `recognize`'s choice of model; `pixels32` is the length of the optional pixels, if given. */
  function RouteFor(w: nat, h: nat, groups: nat, pixels32: Option<nat>): (r: Route)
    ensures r == Word <==> !AspectAtMostTwo(w, h) && groups > 20
    ensures r == CharFromPixels <==> IsChar(w, h, groups) && pixels32 == Some(1024)
  {
    if IsChar(w, h, groups) then
      if pixels32.Some? && pixels32.value == 1024 then CharFromPixels else CharFromCanvas
    else Word
  }

  /** A canvas at most twice as wide as high always goes to the character model. */
  lemma SquareIsChar(w: nat, h: nat, groups: nat, pixels32: Option<nat>)
    requires 0 < h && w <= 2 * h
    ensures RouteFor(w, h, groups, pixels32) != Word
  {
  }
}
