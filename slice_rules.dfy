/**
 * The per-pixel rules of the registration tool box's views: the mosaic checkerboard, the
 * conversion of a scaled slice to grey RGB with clamping, the blend of two RGB slices, and
 * the slider arithmetic that picks the slice shown.
 */
module SliceRules {
  import opened Outcomes
  import opened Volumes
  import opened Widgets

  /** A 2-D slice; pixel (x, y) is at index x + y * width. */
  datatype Slice = Slice(width: nat, height: nat, px: seq<real>)

  predicate WellFormed(s: Slice)
  {
    |s.px| == s.width * s.height
  }

  // ---------------------------------------------------------------------------------------
  // Mosaic
  // ---------------------------------------------------------------------------------------

  /** x >> m on a non-negative x: m halvings, each rounding down. */
  function Shr(x: nat, m: nat): nat
  {
    if m == 0 then x else Shr(x, m - 1) / 2
  }

  /** The mosaic takes the first image where exactly one of the tile coordinates is odd. */
  predicate TakesFirst(x: nat, y: nat, m: nat)
  {
    (Shr(x, m) % 2 == 1) != (Shr(y, m) % 2 == 1)
  }

  function MosaicPixel(x: nat, y: nat, m: nat, v1: real, v2: real, c: real): real
  {
    if TakesFirst(x, y, m) then v1 else v2 * c
  }

  /** Adding one tile width 2^m to x moves x >> m to the next tile. */
  lemma {:induction false} ShrStep(x: nat, m: nat)
    ensures Shr(x + Pow2(m), m) == Shr(x, m) + 1
    decreases m
  {
    if m > 0 {
      var h := Pow2(m - 1);
      ShrStep(x, m - 1);
      ShrStep(x + h, m - 1);
      assert x + Pow2(m) == (x + h) + h;
    }
  }

  /** Moving one tile to the right (or down) switches the image the mosaic shows. */
  lemma MosaicAlternates(x: nat, y: nat, m: nat)
    ensures TakesFirst(x + Pow2(m), y, m) == !TakesFirst(x, y, m)
    ensures TakesFirst(x, y + Pow2(m), m) == !TakesFirst(x, y, m)
  {
    ShrStep(x, m);
    ShrStep(y, m);
  }

  /**
   * The mosaic of two slices with tiles of 2^m pixels: a pixel takes the first slice's value
   * on one colour of the checkerboard and the second slice's value times `c` (the ratio of
   * the two contrasts) on the other. It is absent when either source volume is empty (None)
   * or the slices differ in size.
   */
  function MosaicSlice(s1: Option<Slice>, s2: Option<Slice>, m: nat, c: real): (r: Option<Slice>)
    requires s1.Some? ==> WellFormed(s1.value)
    requires s2.Some? ==> WellFormed(s2.value)
    ensures r.Some? <==>
      s1.Some? && s2.Some? && s1.value.width == s2.value.width && s1.value.height == s2.value.height
    ensures r.Some? ==>
      WellFormed(r.value) && r.value.width == s1.value.width && r.value.height == s1.value.height
    ensures r.Some? ==> forall i :: 0 <= i < |r.value.px| ==>
      r.value.px[i] == (if TakesFirst(i % r.value.width, i / r.value.width, m)
                        then s1.value.px[i] else s2.value.px[i] * c)
  {
    if s1.None? || s2.None? then None
    else if s1.value.width != s2.value.width || s1.value.height != s2.value.height then None
    else
      assert s1.value.width == 0 ==> |s1.value.px| == 0;
      Some(Slice(s1.value.width, s1.value.height, MosaicPixels(s1.value.px, s2.value.px, s1.value.width, m, c)))
  }

  /** The pixels of a mosaic of two pixel rows of equal length laid out `w` to a line. */
  function MosaicPixels(p1: seq<real>, p2: seq<real>, w: nat, m: nat, c: real): (r: seq<real>)
    requires |p1| == |p2|
    ensures |r| == |p1|
    ensures w > 0 ==> forall i :: 0 <= i < |r| ==>
      r[i] == (if TakesFirst(i % w, i / w, m) then p1[i] else p2[i] * c)
  {
    if w == 0 then p1
    else seq(|p1|, i requires 0 <= i < |p1| => MosaicPixel(i % w, i / w, m, p1[i], p2[i], c))
  }

  /** A slice shown in a mosaic with itself at equal contrast is the slice itself. */
  lemma MosaicWithItself(s: Slice, m: nat)
    requires WellFormed(s)
    ensures MosaicSlice(Some(s), Some(s), m, 1.0) == Some(s)
  {
    var r := MosaicSlice(Some(s), Some(s), m, 1.0).value;
    assert |r.px| == |s.px|;
    forall i | 0 <= i < |s.px|
      ensures r.px[i] == s.px[i]
    {
    }
    assert r.px == s.px;
  }

  // ---------------------------------------------------------------------------------------
  // Grey RGB, clamping and blending
  // ---------------------------------------------------------------------------------------

  /** A 32-bit RGB pixel by byte index; index 2 is the channel the blend combines. */
  datatype Rgb = Rgb(c0: bv8, c1: bv8, c2: bv8)

  /** `v` limited to [0, 255]. */
  function Clamp(v: real): (r: real)
    ensures 0.0 <= r <= 255.0
    ensures 0.0 <= v <= 255.0 ==> r == v
    ensures v < 0.0 ==> r == 0.0
    ensures v > 255.0 ==> r == 255.0
  {
    if v < 0.0 then 0.0 else if v > 255.0 then 255.0 else v
  }

  /** The grey pixel of a clamped value, truncated to a byte. */
  function Grey(v: real): (p: Rgb)
    requires 0.0 <= v <= 255.0
    ensures p.c0 == p.c1 == p.c2
    ensures (p.c0 as int) as real <= v < (p.c0 as int) as real + 1.0
  {
    var byte := ToByte(v.Floor);
    Rgb(byte, byte, byte)
  }

  /** The byte whose value is `b`, counted up from zero one bit-vector increment at a time. */
  function ToByte(b: int): (r: bv8)
    requires 0 <= b < 256
    ensures r as int == b
  {
    if b == 0 then 0 else ToByte(b - 1) + 1
  }

  /** One value scaled by `contrast`, clamped to [0, 255] and turned into a grey pixel. */
  function GreyPixel(v: real, contrast: real): Rgb
  {
    Grey(Clamp(v * contrast))
  }

  /** A slice scaled by `contrast`, clamped to [0, 255] and turned into grey pixels. */
  function ImageToRgb(px: seq<real>, contrast: real): (buf: seq<Rgb>)
    ensures |buf| == |px|
    ensures forall i :: 0 <= i < |px| ==> buf[i] == GreyPixel(px[i], contrast)
  {
    seq(|px|, i requires 0 <= i < |px| => GreyPixel(px[i], contrast))
  }

  /** A pixel whose scaled value lies in [0, 255] keeps it (up to truncation); others saturate. */
  lemma ImageToRgbSaturates(px: seq<real>, contrast: real, i: nat)
    requires i < |px|
    ensures var b := ImageToRgb(px, contrast)[i].c0 as int;
      && (px[i] * contrast <= 0.0 ==> b == 0)
      && (px[i] * contrast >= 255.0 ==> b == 255)
      && (0.0 <= px[i] * contrast <= 255.0 ==> b == (px[i] * contrast).Floor)
  {
    var v := Clamp(px[i] * contrast);
    var p := Grey(v);
    assert ImageToRgb(px, contrast)[i] == GreyPixel(px[i], contrast) == p;
    assert (p.c0 as int) as real <= v < (p.c0 as int) as real + 1.0;
  }

  /** The blend keeps the base pixel and adds the other pixel's channel-2 bits. */
  function BlendPixel(base: Rgb, other: Rgb): Rgb
  {
    Rgb(base.c0, base.c1, base.c2 | other.c2)
  }

  /** Channel 2 of a blend holds exactly the bits set in either pixel, whichever is the base. */
  lemma BlendChannelTwo(a: Rgb, b: Rgb)
    ensures BlendPixel(a, b).c2 == BlendPixel(b, a).c2
    ensures BlendPixel(a, b).c2 & a.c2 == a.c2 && BlendPixel(a, b).c2 & b.c2 == b.c2
  {
  }

  /** The blend loop over two RGB buffers of one size. */
  method BlendPixels(base: seq<Rgb>, other: seq<Rgb>) returns (buf: seq<Rgb>)
    requires |base| == |other|
    ensures |buf| == |base|
    ensures forall i :: 0 <= i < |buf| ==> buf[i] == BlendPixel(base[i], other[i])
  {
    buf := base;
    for i := 0 to |buf|
      invariant |buf| == |base|
      invariant forall k :: 0 <= k < i ==> buf[k] == BlendPixel(base[k], other[k])
      invariant forall k :: i <= k < |buf| ==> buf[k] == base[k]
    {
      buf := buf[i := Rgb(buf[i].c0, buf[i].c1, buf[i].c2 | other[i].c2)];
    }
  }

  /**
   * The blend view of two slices: both become grey RGB at their own contrasts; `flip`
   * makes the first slice the base (otherwise the second), and only channel 2 of the
   * other one is ORed in. It is absent when a source volume is empty or the sizes differ.
   */
  method BlendSlice(s1: Option<Slice>, s2: Option<Slice>, contrast1: real, contrast2: real, flip: bool)
    returns (r: Option<seq<Rgb>>)
    requires s1.Some? ==> WellFormed(s1.value)
    requires s2.Some? ==> WellFormed(s2.value)
    ensures r.Some? <==>
      s1.Some? && s2.Some? && s1.value.width == s2.value.width && s1.value.height == s2.value.height
    ensures r.Some? ==>
      var buf1 := ImageToRgb(s1.value.px, contrast1);
      var buf2 := ImageToRgb(s2.value.px, contrast2);
      && |r.value| == |buf1|
      && forall i :: 0 <= i < |r.value| ==>
           r.value[i] == (if flip then BlendPixel(buf1[i], buf2[i]) else BlendPixel(buf2[i], buf1[i]))
  {
    if s1.None? || s2.None? {
      return None;
    }
    if s1.value.width != s2.value.width || s1.value.height != s2.value.height {
      return None;
    }
    var buf1 := ImageToRgb(s1.value.px, contrast1);
    var buf2 := ImageToRgb(s2.value.px, contrast2);
    var buf;
    if flip {
      buf := BlendPixels(buf1, buf2);
    } else {
      buf := BlendPixels(buf2, buf1);
    }
    r := Some(buf);
  }

  // ---------------------------------------------------------------------------------------
  // Slice positions
  // ---------------------------------------------------------------------------------------

  /**
   * The slider of the template view over `range` slices along the current axis: maximum
   * range - 1 and the middle slice range / 2, which lies within the slider.
   */
  function SlicePosFor(range: nat): (s: Slider)
    requires range >= 1
    ensures s.maximum == range - 1
    ensures 0 <= s.value <= s.maximum && s.maximum <= 2 * s.value + 1 && 2 * s.value <= range
  {
    Slider(range - 1, range / 2)
  }

  /**
   * The subject slice as written: the slider position scaled to the subject's depth (its z
   * extent), at most depth - 1.
   */
  function SubjectSliceAsWritten(g: Geometry, value: nat, maximum: nat): (pos: nat)
    requires g.z >= 1 && 0 < maximum && value <= maximum
    ensures pos < g.z
  {
    var scaled := g.z * value / maximum;
    if g.z - 1 < scaled then g.z - 1 else scaled
  }

  /**
   * The slice is then cut along the current view axis, which the depth does not bound: a
   * 64 x 64 x 128 subject in the sagittal view (axis 0) at the slider's end gives slice 127
   * of an axis 64 slices long.
   */
  lemma SubjectSliceAsWrittenLeavesAxis()
    ensures var g := Geometry(64, 64, 128);
      SubjectSliceAsWritten(g, 63, 63) == 127 && SubjectSliceAsWritten(g, 63, 63) >= Axis(g, 0)
  {
    assert 128 * 63 / 63 == 128;
  }

  /**
   * The subject slice scaled to the extent of the axis the view cuts along, at most that
   * extent minus 1.
   */
  function SubjectSlice(g: Geometry, view: nat, value: nat, maximum: nat): (pos: nat)
    requires view <= 2 && Axis(g, view) >= 1 && 0 < maximum && value <= maximum
    ensures pos < Axis(g, view)
    ensures value == 0 ==> pos == 0
    ensures value == maximum ==> pos == Axis(g, view) - 1
  {
    var n := Axis(g, view);
    var scaled := n * value / maximum;
    assert value == maximum ==> scaled == n by {
      if value == maximum {
        DivUnique(n * value, maximum, n, 0);
      }
    }
    if n - 1 < scaled then n - 1 else scaled
  }

  /** Moving the slider forward never moves the subject slice back. */
  lemma SubjectSliceMonotone(g: Geometry, view: nat, v1: nat, v2: nat, maximum: nat)
    requires view <= 2 && Axis(g, view) >= 1 && 0 < maximum && v1 <= v2 <= maximum
    ensures SubjectSlice(g, view, v1, maximum) <= SubjectSlice(g, view, v2, maximum)
  {
    var n := Axis(g, view);
    DivMonotone(n * v1, n * v2, maximum);
  }

  // ---------------------------------------------------------------------------------------
  // Arithmetic used by the proofs above
  // ---------------------------------------------------------------------------------------

  /** Multiplying by the same natural keeps the order. */
  lemma {:induction false} MulLeft(a: nat, b: nat, p: nat)
    requires a <= b
    ensures a * p <= b * p
    decreases b - a
  {
    if a < b {
      MulLeft(a, b - 1, p);
      assert b * p == (b - 1) * p + p;
    }
  }

  /** Consecutive multiples of `p` are at least `p` apart. */
  lemma MulStrict(a: nat, b: nat, p: nat)
    ensures a < b ==> a * p + p <= b * p
  {
    if a < b {
      MulLeft(a + 1, b, p);
      assert (a + 1) * p == a * p + p;
    }
  }

  /** Division of naturals has a unique quotient. */
  lemma DivUnique(n: nat, p: nat, q: nat, r: nat)
    requires p > 0 && n == q * p + r && r < p
    ensures n / p == q
  {
    var q' := n / p;
    assert n == q' * p + n % p;
    MulStrict(q', q, p);
    MulStrict(q, q', p);
  }

  /** Division by a positive natural keeps the order. */
  lemma DivMonotone(a: nat, b: nat, d: nat)
    requires a <= b && d > 0
    ensures a / d <= b / d
  {
    var qa, qb := a / d, b / d;
    assert a == qa * d + a % d && b == qb * d + b % d;
    MulStrict(qb, qa, d);
  }
}
