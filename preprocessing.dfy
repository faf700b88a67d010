/**
  The geometry and value range of `ImagePreprocessor.preprocess`: the
  aspect-preserving size a region is resized to, the zero padding that
  brings it to the target size, and the scaling of 8-bit pixels to [0, 1].

  `aspect = w / h` is a Python float; here it is an exact rational, so the
  sizes below are those of exact arithmetic (the float result can differ by
  one pixel where `w / h` is not representable). The OpenCV steps before
  the resize (grey scale, CLAHE, denoising, Canny, dilation, contour mask)
  and the interpolation itself are not part of this model.
 */
module Preprocessing {
  import opened Common
  import opened PySemantics

  /** `target_size = (width, height)`, as OpenCV orders sizes. */
  datatype Size = Size(width: nat, height: nat)

  /** The size the application uses: `ImagePreprocessor(target_size=(64, 64))`. */
  const DefaultTarget := Size(64, 64)

  /** The resized size and the border added on each side. */
  datatype Layout = Layout(newW: int, newH: int, top: int, bottom: int, left: int, right: int)

  /** Lines 38-52 of `preprocess` for a region of `h` rows and `w` columns;
      `None` is the `ZeroDivisionError` of `w / h` when `h == 0`. */
  function ResizeLayout(target: Size, h: nat, w: nat): (r: Option<Layout>)
    ensures r.None? <==> h == 0
    ensures r.Some? && w > h ==> r.value.newW == target.width
    ensures r.Some? && w <= h ==> r.value.newH == target.height
    ensures r.Some? ==> r.value.top + r.value.bottom == target.height - r.value.newH
    ensures r.Some? ==> r.value.left + r.value.right == target.width - r.value.newW
    ensures r.Some? ==> 0 <= r.value.bottom - r.value.top <= 1
    ensures r.Some? ==> 0 <= r.value.right - r.value.left <= 1
  {
    if h == 0 then None
    else
      var aspect := w as real / h as real;
      WiderThanTall(h, w);
      var newW := if aspect > 1.0 then target.width else Trunc(target.height as real * aspect);
      var newH := if aspect > 1.0 then Trunc(target.width as real / aspect) else target.height;
      // Python's `//` floors; Dafny's `/` by a positive divisor does too.
      var deltaW := target.width - newW;
      var deltaH := target.height - newH;
      Some(Layout(newW, newH, deltaH / 2, deltaH - deltaH / 2, deltaW / 2, deltaW - deltaW / 2))
  }

  /** `aspect > 1` is the integer comparison `w > h`. */
  lemma WiderThanTall(h: nat, w: nat)
    requires 0 < h
    ensures w as real / h as real > 1.0 <==> w > h
  {
    var d := h as real;
    var aspect := w as real / d;
    assert aspect * d == w as real;
    if aspect > 1.0 {
      MulStrict(1.0, aspect, d);
    } else {
      MulMonotonic(aspect, 1.0, d);
    }
  }

  lemma MulStrict(y: real, u: real, d: real)
    requires y < u && 0.0 < d
    ensures y * d < u * d
  {
  }

  lemma MulMonotonic(l: real, y: real, d: real)
    requires l <= y && 0.0 < d
    ensures l * d <= y * d
  {
  }

  lemma CastMul(a: int, b: int)
    ensures (a * b) as real == a as real * b as real
  {
  }

  lemma RatioAtMostOne(a: real, b: real)
    requires 0.0 < b && a <= b
    ensures a / b <= 1.0
  {
  }

  lemma MulDiv(a: real, b: real, c: real)
    requires c != 0.0
    ensures a * (b / c) == (a * b) / c
  {
  }

  /** `n == floor(num / den)` read back as a relation between integers. */
  lemma FloorBounds(num: nat, den: nat, n: int)
    requires 0 < den
    requires n as real <= num as real / den as real < (n + 1) as real
    ensures n * den <= num < (n + 1) * den
  {
    BelowTimes(num as real, den as real, (n + 1) as real);
    CastMul(n + 1, den);
    CastOrder(num, (n + 1) * den);
    AboveTimes(num as real, den as real, n as real);
    CastMul(n, den);
    CastOrder(n * den, num + 1);
  }

  /** `x / d < u` with `d > 0` gives `x < u * d`. */
  lemma BelowTimes(x: real, d: real, u: real)
    requires 0.0 < d && x / d < u
    ensures x < u * d
  {
    DivTimes(x, d);
    MulStrict(x / d, u, d);
  }

  /** `l <= x / d` with `d > 0` gives `l * d <= x`. */
  lemma AboveTimes(x: real, d: real, l: real)
    requires 0.0 < d && l <= x / d
    ensures l * d <= x
  {
    DivTimes(x, d);
    MulMonotonic(l, x / d, d);
  }

  lemma DivTimes(a: real, d: real)
    requires d != 0.0
    ensures (a / d) * d == a
  {
  }

  /** `t / (w / h)` is the rational `(t * h) / w`. */
  lemma DivByRatio(t: nat, h: nat, w: nat)
    requires 0 < h && 0 < w
    ensures t as real / (w as real / h as real) == (t * h) as real / w as real
  {
    CastMul(t, h);
  }

  /** `t * (w / h)` is the rational `(t * w) / h`. */
  lemma TimesRatio(t: nat, w: nat, h: nat)
    requires 0 < h
    ensures t as real * (w as real / h as real) == (t * w) as real / h as real
  {
    CastMul(t, w);
    MulDiv(t as real, w as real, h as real);
  }

  /** Casting to `real` keeps the order of integers. */
  lemma CastOrder(a: int, b: int)
    requires a as real < b as real
    ensures a < b
  {
  }

  /** The height `ResizeLayout` computes for a landscape region:
      `int(target.width * h / w)`. */
  lemma LandscapeSide(target: Size, h: nat, w: nat)
    requires 0 < h < w
    ensures ResizeLayout(target, h, w).value.newH == Trunc((target.width * h) as real / w as real)
  {
    WiderThanTall(h, w);
    DivByRatio(target.width, h, w);
  }

  /** The width `ResizeLayout` computes for a portrait or square region:
      `int(target.height * w / h)`. */
  lemma PortraitSide(target: Size, h: nat, w: nat)
    requires 0 < h && w <= h
    ensures ResizeLayout(target, h, w).value.newW == Trunc((target.height * w) as real / h as real)
  {
    WiderThanTall(h, w);
    TimesRatio(target.height, w, h);
  }

  /** `int(num / den)` is the integer quotient, as a relation between
      integers. */
  lemma FloorOfQuotient(num: nat, den: nat)
    requires 0 < den
    ensures var n := Trunc(num as real / den as real);
            0 <= n && n * den <= num < (n + 1) * den
  {
    var x := num as real / den as real;
    assert 0.0 <= x;
    FloorBounds(num, den, Trunc(x));
  }

  /** For a landscape region the height is `target.width * h / w` rounded
      down, as a relation between integers. */
  lemma LandscapeHeight(target: Size, h: nat, w: nat)
    requires 0 < h < w
    ensures var l := ResizeLayout(target, h, w).value;
            0 <= l.newH && l.newH * w <= target.width * h < (l.newH + 1) * w
  {
    var n := Trunc((target.width * h) as real / w as real);
    LandscapeSide(target, h, w);
    assert 0 <= n && n * w <= target.width * h < (n + 1) * w by {
      FloorOfQuotient(target.width * h, w);
    }
  }

  /** For a portrait or square region the width is `target.height * w / h`
      rounded down. */
  lemma PortraitWidth(target: Size, h: nat, w: nat)
    requires 0 < h && w <= h
    ensures var l := ResizeLayout(target, h, w).value;
            0 <= l.newW && l.newW * h <= target.height * w < (l.newW + 1) * h
  {
    var n := Trunc((target.height * w) as real / h as real);
    PortraitSide(target, h, w);
    assert 0 <= n && n * h <= target.height * w < (n + 1) * h by {
      FloorOfQuotient(target.height * w, h);
    }
  }

  /** `n * a <= s * b` with `b <= a` bounds `n` by `s`. */
  lemma ScaledAtMost(n: int, a: nat, b: nat, s: nat)
    requires 0 < a && b <= a && n * a <= s * b
    ensures n <= s
  {
    assert s * b <= s * a;
    if n > s {
      assert false;
    }
  }

  /** With a square target every non-empty region fits: the free dimension
      never exceeds the target, both paddings are non-negative and the
      padded image is exactly the target size. */
  lemma SquareTargetFits(side: nat, h: nat, w: nat)
    requires 0 < h
    ensures var l := ResizeLayout(Size(side, side), h, w).value;
            && 0 <= l.newW <= side && 0 <= l.newH <= side
            && 0 <= l.top && 0 <= l.bottom && 0 <= l.left && 0 <= l.right
            && l.newW + l.left + l.right == side
            && l.newH + l.top + l.bottom == side
  {
    var l := ResizeLayout(Size(side, side), h, w).value;
    if w > h {
      LandscapeHeight(Size(side, side), h, w);
      ScaledAtMost(l.newH, w, h, side);
    } else {
      PortraitWidth(Size(side, side), h, w);
      ScaledAtMost(l.newW, h, w, side);
    }
  }

  /** A landscape region is resized to zero rows, which OpenCV's resize
      rejects, exactly when it is more than `target.width` times wider than
      it is tall. */
  lemma LandscapeCollapse(target: Size, h: nat, w: nat)
    requires 0 < h < w
    ensures ResizeLayout(target, h, w).value.newH == 0 <==> target.width * h < w
  {
    var n := ResizeLayout(target, h, w).value.newH;
    LandscapeHeight(target, h, w);
    if n == 0 {
      assert (n + 1) * w == w;
    } else {
      AtLeastOnce(n, w);
    }
  }

  /** A portrait or square region is resized to zero columns exactly when
      it is more than `target.height` times taller than it is wide. */
  lemma PortraitCollapse(target: Size, h: nat, w: nat)
    requires 0 < h && w <= h
    ensures ResizeLayout(target, h, w).value.newW == 0 <==> target.height * w < h
  {
    var n := ResizeLayout(target, h, w).value.newW;
    PortraitWidth(target, h, w);
    if n == 0 {
      assert (n + 1) * h == h;
    } else {
      AtLeastOnce(n, h);
    }
  }

  /** `cv2.resize` raises for a destination with a zero side. */
  predicate Collapses(target: Size, h: nat, w: nat)
    requires 0 < h
  {
    var l := ResizeLayout(target, h, w).value;
    l.newW == 0 || l.newH == 0
  }

  /** With a square target a region collapses exactly when one side is
      more than `side` times the other. */
  lemma CollapseCondition(side: nat, h: nat, w: nat)
    requires 0 < h
    ensures Collapses(Size(side, side), h, w) <==> side * h < w || side * w < h
  {
    var target := Size(side, side);
    if w > h {
      LandscapeCollapse(target, h, w);
      if 0 < side {
        AtLeastOnce(side, w);
      }
    } else {
      PortraitCollapse(target, h, w);
      if 0 < side {
        AtLeastOnce(side, h);
      }
    }
  }

  lemma AtLeastOnce(n: int, w: nat)
    requires 1 <= n
    ensures w <= n * w
  {
    assert n * w == w + (n - 1) * w;
  }

  /** A target that is not square can overflow: with `(64, 32)` a 30 by 20
      region is resized to 64 by 42, so the vertical padding is negative. */
  lemma NonSquareTargetOverflows()
    ensures ResizeLayout(Size(64, 32), 20, 30).value.newH == 42
    ensures ResizeLayout(Size(64, 32), 20, 30).value.top < 0
  {
    LandscapeHeight(Size(64, 32), 20, 30);
  }

  /** An 8-bit pixel value. */
  type Pixel = x: int | 0 <= x <= 255

  /** `pixel / 255.0`: the value in [0, 1], 0 and 255 at the ends, and the
      order of values kept. */
  function Normalize(p: Pixel): (v: real)
    ensures 0.0 <= v <= 1.0
    ensures v == 0.0 <==> p == 0
    ensures v == 1.0 <==> p == 255
    ensures v * 255.0 == p as real
  {
    p as real / 255.0
  }

  lemma NormalizeMonotonic(p: Pixel, q: Pixel)
    ensures p < q <==> Normalize(p) < Normalize(q)
  {
  }

  /** `padded.astype(np.float32) / 255.0` on a whole image, row by row. */
  function NormalizeImage(img: seq<seq<Pixel>>): (out: seq<seq<real>>)
    ensures |out| == |img|
    ensures forall i :: 0 <= i < |img| ==> |out[i]| == |img[i]|
    ensures forall i, j :: 0 <= i < |img| && 0 <= j < |img[i]| ==>
              out[i][j] == Normalize(img[i][j]) && 0.0 <= out[i][j] <= 1.0
  {
    seq(|img|, i requires 0 <= i < |img| =>
      seq(|img[i]|, j requires 0 <= j < |img[i]| => Normalize(img[i][j])))
  }
}
