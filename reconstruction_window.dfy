/**
 * Decision logic of the reconstruction window: matching the template's resolution to the
 * subject's, attaching other images to the diffusion data (reusing an earlier registration
 * when the geometry repeats), editing the list of diffusion volumes, marking the volumes
 * that hold bad slices, and placing the slice sliders.
 */
module ReconstructionWindow {
  import opened Outcomes
  import opened Volumes
  import opened Widgets

  // ---------------------------------------------------------------------------------------
  // Resolution matching
  // ---------------------------------------------------------------------------------------

  /** `v` downsampled `k` times. */
  function DownN(v: Img, k: nat): Img
  {
    if k == 0 then v else Downsampled(DownN(v, k - 1))
  }

  /** A secondary image is downsampled along with the primary one only when it holds data. */
  function DownIfPresent(v: Img, k: nat): Img
  {
    if IsEmpty(v) then v else DownN(v, k)
  }

  /** `a` doubled `k` times. */
  function Times2(a: real, k: nat): (r: real)
    ensures a > 0.0 ==> r > 0.0
  {
    if k == 0 then a else 2.0 * Times2(a, k - 1)
  }

  lemma {:induction false} Times2Shift(a: real, k: nat)
    ensures Times2(2.0 * a, k) == Times2(a, k + 1)
  {
    if k > 0 {
      Times2Shift(a, k - 1);
    }
  }

  /** `vs` with every component doubled `k` times. */
  function DoubledVs(vs: VoxelSize, k: nat): (r: VoxelSize)
    ensures r == VoxelSize(Times2(vs.x, k), Times2(vs.y, k), Times2(vs.z, k))
  {
    if k == 0 then vs else Scale(DoubledVs(vs, k - 1), 2.0)
  }

  /** Halving a ratio above 1.5 lowers its integer part, which bounds the doubling loops. */
  lemma FloorOfHalfDecreases(r: real)
    requires r > 1.5
    ensures 0 <= (r / 2.0).Floor < r.Floor
  {
    var f := r.Floor;
    assert f as real <= r < f as real + 1.0;
    assert f >= 1;
    assert r / 2.0 < f as real;
  }

  /** One doubling step of `b` while `a` exceeds 1.5 times it lowers the bound on the loops. */
  lemma DoublingStep(a: real, b: real)
    requires a > 0.0 && b > 0.0 && a > b * 1.5
    ensures 0 <= (a / (b * 2.0)).Floor < (a / b).Floor
  {
    var r := a / b;
    assert r * b == a;
    assert r > 1.5;
    assert a / (b * 2.0) == r / 2.0;
    FloorOfHalfDecreases(r);
  }

  /** How many times the template loop doubles the template voxel size `gx` against `fx`. */
  function TemplateSteps(gx: real, fx: real): nat
    requires gx > 0.0 && fx > 0.0
    decreases (fx / gx).Floor
  {
    if fx > gx * 1.5 then
      DoublingStep(fx, gx);
      1 + TemplateSteps(gx * 2.0, fx)
    else 0
  }

  /** How many times the subject loop doubles the subject voxel size `fx` against `gx`. */
  function SubjectSteps(fx: real, gx: real): nat
    requires gx > 0.0 && fx > 0.0
    decreases (gx / fx).Floor
  {
    if fx * 2.0 < gx then
      DoublingStep(gx, fx);
      1 + SubjectSteps(fx * 2.0, gx)
    else 0
  }

  /**
   * The template loop stops at the first doubling that brings the subject within 1.5 times
   * the template voxel size, and no earlier one did.
   */
  lemma {:induction false} TemplateStepsBand(gx: real, fx: real)
    requires gx > 0.0 && fx > 0.0
    ensures var k := TemplateSteps(gx, fx);
      fx <= Times2(gx, k) * 1.5 &&
      forall j: nat :: j < k ==> fx > Times2(gx, j) * 1.5
    decreases (fx / gx).Floor
  {
    if fx > gx * 1.5 {
      DoublingStep(fx, gx);
      TemplateStepsBand(gx * 2.0, fx);
      var k := TemplateSteps(gx * 2.0, fx);
      assert TemplateSteps(gx, fx) == k + 1;
      Times2Shift(gx, k);
      assert 2.0 * gx == gx * 2.0;
      forall j: nat | j < k + 1
        ensures fx > Times2(gx, j) * 1.5
      {
        if j > 0 {
          Times2Shift(gx, j - 1);
        }
      }
    }
  }

  /**
   * The subject loop stops at the first doubling that makes twice the subject voxel size
   * reach the template's, and no earlier one did.
   */
  lemma {:induction false} SubjectStepsBand(fx: real, gx: real)
    requires gx > 0.0 && fx > 0.0
    ensures var k := SubjectSteps(fx, gx);
      Times2(fx, k) * 2.0 >= gx &&
      forall j: nat :: j < k ==> Times2(fx, j) * 2.0 < gx
    decreases (gx / fx).Floor
  {
    if fx * 2.0 < gx {
      DoublingStep(gx, fx);
      SubjectStepsBand(fx * 2.0, gx);
      var k := SubjectSteps(fx * 2.0, gx);
      assert SubjectSteps(fx, gx) == k + 1;
      Times2Shift(fx, k);
      assert 2.0 * fx == fx * 2.0;
      forall j: nat | j < k + 1
        ensures Times2(fx, j) * 2.0 < gx
      {
        if j > 0 {
          Times2Shift(fx, j - 1);
        }
      }
    }
  }

  /**
   * At most one side is coarsened: once the template loop has run, the subject's voxel size
   * is above three quarters of the template's, so twice it is not below the template's.
   */
  lemma AtMostOneSideCoarsened(gx: real, fx: real)
    requires gx > 0.0 && fx > 0.0
    ensures var k := TemplateSteps(gx, fx);
      k == 0 || SubjectSteps(fx, Times2(gx, k)) == 0
  {
    var k := TemplateSteps(gx, fx);
    TemplateStepsBand(gx, fx);
    if k > 0 {
      var g := Times2(gx, k);
      assert fx > Times2(gx, k - 1) * 1.5;
      assert !(fx * 2.0 < g);
    }
  }

  /**
   * A 2 mm template and a 1 mm subject are left as they are: twice the subject's voxel size
   * equals the template's, which the strict comparison of the subject loop does not coarsen.
   */
  lemma HalfMillimetreRatioLeftAlone()
    ensures TemplateSteps(2.0, 1.0) == 0 && SubjectSteps(1.0, 2.0) == 0
  {
  }

  /** A 1 mm template and a 3 mm subject: the template is coarsened once, to 2 mm. */
  lemma CoarseSubjectCoarsensTemplateOnce()
    ensures TemplateSteps(1.0, 3.0) == 1
  {
    assert 3.0 > 1.0 * 1.5;
    assert !(3.0 > 2.0 * 1.5);
    assert TemplateSteps(2.0, 3.0) == 0;
  }

  lemma DownNKeepsNonEmpty(v: Img, k: nat)
    requires !IsEmpty(v)
    ensures !IsEmpty(DownN(v, k))
  {
    if k > 0 {
      DownNKeepsNonEmpty(v, k - 1);
      HalvedNonEmpty(DownN(v, k - 1));
    }
  }

  /**
   * The template loop: while the subject's x voxel size `fx` exceeds 1.5 times the
   * template's, the template is downsampled (its second image only when it holds data) and
   * its voxel size doubled.
   */
  method CoarsenTemplate(vg: Img, vg2: Img, vgVs: VoxelSize, fx: real)
    returns (vg': Img, vg2': Img, vgVs': VoxelSize)
    requires vgVs.x > 0.0 && fx > 0.0
    ensures var k := TemplateSteps(vgVs.x, fx);
      vg' == DownN(vg, k) && vg2' == DownIfPresent(vg2, k) && vgVs' == DoubledVs(vgVs, k)
  {
    vg', vg2', vgVs' := vg, vg2, vgVs;
    ghost var n: nat := 0;
    while fx > vgVs'.x * 1.5
      invariant vgVs'.x > 0.0
      invariant vg' == DownN(vg, n) && vg2' == DownIfPresent(vg2, n) && vgVs' == DoubledVs(vgVs, n)
      invariant n + TemplateSteps(vgVs'.x, fx) == TemplateSteps(vgVs.x, fx)
      decreases (fx / vgVs'.x).Floor
    {
      DoublingStep(fx, vgVs'.x);
      vg' := Downsampled(vg');
      if !IsEmpty(vg2') {
        vg2' := Downsampled(vg2');
      }
      if !IsEmpty(vg2) {
        DownNKeepsNonEmpty(vg2, n);
      }
      vgVs' := Scale(vgVs', 2.0);
      n := n + 1;
    }
  }

  /**
   * The subject loop: while twice the subject's x voxel size is below the template's `gx`,
   * the subject is downsampled (its second image only when it holds data) and its voxel
   * size doubled.
   */
  method CoarsenSubject(vf: Img, vf2: Img, vfVs: VoxelSize, gx: real)
    returns (vf': Img, vf2': Img, vfVs': VoxelSize)
    requires vfVs.x > 0.0 && gx > 0.0
    ensures var k := SubjectSteps(vfVs.x, gx);
      vf' == DownN(vf, k) && vf2' == DownIfPresent(vf2, k) && vfVs' == DoubledVs(vfVs, k)
  {
    vf', vf2', vfVs' := vf, vf2, vfVs;
    ghost var m: nat := 0;
    while vfVs'.x * 2.0 < gx
      invariant vfVs'.x > 0.0
      invariant vf' == DownN(vf, m) && vf2' == DownIfPresent(vf2, m) && vfVs' == DoubledVs(vfVs, m)
      invariant m + SubjectSteps(vfVs'.x, gx) == SubjectSteps(vfVs.x, gx)
      decreases (gx / vfVs'.x).Floor
    {
      DoublingStep(gx, vfVs'.x);
      vf' := Downsampled(vf');
      if !IsEmpty(vf2') {
        vf2' := Downsampled(vf2');
      }
      if !IsEmpty(vf2) {
        DownNKeepsNonEmpty(vf2, m);
      }
      vfVs' := Scale(vfVs', 2.0);
      m := m + 1;
    }
  }

  /**
   * Brings the template (VG, VG2, VGvs) and the subject (VF, VF2, VFvs) to comparable
   * resolutions: first the template is coarsened against the subject, then the subject
   * against the new template.
   */
  method MatchTemplateResolution(vg: Img, vg2: Img, vgVs: VoxelSize, vf: Img, vf2: Img, vfVs: VoxelSize)
    returns (vg': Img, vg2': Img, vgVs': VoxelSize, vf': Img, vf2': Img, vfVs': VoxelSize)
    requires vgVs.x > 0.0 && vfVs.x > 0.0
    ensures vfVs'.x <= vgVs'.x * 1.5 && vfVs'.x * 2.0 >= vgVs'.x
    ensures (vg' == vg && vg2' == vg2 && vgVs' == vgVs) || (vf' == vf && vf2' == vf2 && vfVs' == vfVs)
    ensures var k := TemplateSteps(vgVs.x, vfVs.x);
      vg' == DownN(vg, k) && vg2' == DownIfPresent(vg2, k) && vgVs' == DoubledVs(vgVs, k)
    ensures var k := SubjectSteps(vfVs.x, vgVs'.x);
      vf' == DownN(vf, k) && vf2' == DownIfPresent(vf2, k) && vfVs' == DoubledVs(vfVs, k)
  {
    vg', vg2', vgVs' := CoarsenTemplate(vg, vg2, vgVs, vfVs.x);
    var k := TemplateSteps(vgVs.x, vfVs.x);
    TemplateStepsBand(vgVs.x, vfVs.x);
    AtMostOneSideCoarsened(vgVs.x, vfVs.x);
    assert vgVs'.x == Times2(vgVs.x, k) > 0.0;
    vf', vf2', vfVs' := CoarsenSubject(vf, vf2, vfVs, vgVs'.x);
    var m := SubjectSteps(vfVs.x, vgVs'.x);
    SubjectStepsBand(vfVs.x, vgVs'.x);
    assert vfVs'.x == Times2(vfVs.x, m);
    if k > 0 {
      assert m == 0;
    }
    if m > 0 {
      assert k == 0;
      assert vfVs'.x <= vgVs'.x * 1.5 by {
        assert Times2(vfVs.x, m - 1) * 2.0 < vgVs.x;
        assert vfVs.x <= vgVs.x * 1.5;
      }
    }
  }

  // ---------------------------------------------------------------------------------------
  // Other images attached to the diffusion data
  // ---------------------------------------------------------------------------------------

  /** One diffusion-weighted volume with its b-value and b-vector (gx, gy, gz). */
  datatype DwiVolume = DwiVolume(image: Img, bvalue: real, gx: real, gy: real, gz: real)

  /** A NIfTI file that was read successfully: its image in LPS orientation and its voxel size. */
  datatype NiftiImage = NiftiImage(image: Img, vs: VoxelSize)

  /** The part of the diffusion data these handlers read and change. */
  class ImageModel {
    var dim: Geometry
    var vs: VoxelSize
    var dwiSum: Img
    var src: seq<DwiVolume>
    var otherImage: seq<Img>
    var otherImageName: seq<string>
    var otherImageTrans: seq<Transform>

    /** The three lists of other images are parallel. */
    ghost predicate Valid()
      reads this
    {
      |otherImage| == |otherImageName| == |otherImageTrans|
    }

    constructor (dim: Geometry, vs: VoxelSize, dwiSum: Img, src: seq<DwiVolume>)
      ensures Valid()
      ensures this.dim == dim && this.vs == vs && this.dwiSum == dwiSum && this.src == src
      ensures otherImage == [] && otherImageName == [] && otherImageTrans == []
    {
      this.dim, this.vs, this.dwiSum, this.src := dim, vs, dwiSum, src;
      otherImage, otherImageName, otherImageTrans := [], [], [];
    }

    /** Drops the volume at `index` from the diffusion data. */
    method Remove(index: nat)
      requires index < |src|
      modifies this`src
      ensures src == old(src[..index] + src[index + 1..])
    {
      src := src[..index] + src[index + 1..];
    }
  }

  /** The index of the last image of `others` whose geometry is `g`, if any. */
  function LastMatch(others: seq<Img>, g: Geometry): (r: Option<nat>)
    ensures r.Some? ==> r.value < |others| && Geo(others[r.value]) == g
    ensures r.Some? ==> forall j :: r.value < j < |others| ==> Geo(others[j]) != g
    ensures r.None? ==> forall j :: 0 <= j < |others| ==> Geo(others[j]) != g
  {
    if |others| == 0 then None
    else if Geo(others[|others| - 1]) == g then Some(|others| - 1)
    else LastMatch(others[..|others| - 1], g)
  }

  /** The transform the last earlier image of the same geometry was attached with, if any. */
  function PreviousTransform(others: seq<Img>, trans: seq<Transform>, g: Geometry): Option<Transform>
    requires |others| == |trans|
  {
    match LastMatch(others, g)
    case Some(i) => Some(trans[i])
    case None => None
  }

  /**
   * The scan for an earlier registration: each earlier image whose geometry equals `g`
   * overwrites the transform found so far, so the last such image wins.
   */
  method FindPreviousRegistration(others: seq<Img>, trans: seq<Transform>, g: Geometry)
    returns (affine: Transform, hasRegistered: bool)
    requires |others| == |trans|
    ensures hasRegistered <==> exists i :: 0 <= i < |others| && Geo(others[i]) == g
    ensures hasRegistered ==> PreviousTransform(others, trans, g) == Some(affine)
    ensures !hasRegistered ==> affine == Identity
  {
    affine, hasRegistered := Identity, false;
    for index := 0 to |others|
      invariant hasRegistered <==> LastMatch(others[..index], g).Some?
      invariant hasRegistered ==> PreviousTransform(others[..index], trans[..index], g) == Some(affine)
      invariant !hasRegistered ==> affine == Identity
    {
      assert others[..index + 1][..index] == others[..index];
      if Geo(others[index]) == g {
        affine := trans[index];
        hasRegistered := true;
      }
    }
    assert others[..|others|] == others && trans[..|trans|] == trans;
    if !hasRegistered {
      assert forall i :: 0 <= i < |others| ==> Geo(others[i]) != g;
    }
  }

  /**
   * The transform `add_other_image` attaches to a new image: the one of the last earlier
   * image with the same geometry; otherwise a rigid registration of the image to the DWI sum
   * when its geometry differs from the DWI's; otherwise the identity (already in DWI space).
   */
  function ChosenTransform(others: seq<Img>, trans: seq<Transform>, file: NiftiImage,
                           dim: Geometry, vs: VoxelSize, dwiSum: Img): (t: Transform)
    requires |others| == |trans|
    ensures PreviousTransform(others, trans, Geo(file.image)).Some? ==>
      Some(t) == PreviousTransform(others, trans, Geo(file.image))
    ensures PreviousTransform(others, trans, Geo(file.image)).None? && Geo(file.image) != dim ==>
      t == DwiRegistration(Normalized(dwiSum), vs, dim, Normalized(file.image), file.vs)
    ensures PreviousTransform(others, trans, Geo(file.image)).None? && Geo(file.image) == dim ==>
      t == Identity
  {
    match PreviousTransform(others, trans, Geo(file.image))
    case Some(t) => t
    case None =>
      if Geo(file.image) != dim then
        DwiRegistration(Normalized(dwiSum), vs, dim, Normalized(file.image), file.vs)
      else Identity
  }

  /**
   * Attaches an image read from a file to the diffusion data under `name`. `file` is None
   * when the file could not be read as NIfTI; then nothing is attached and the result is false.
   */
  method AddOtherImage(handle: ImageModel, name: string, file: Option<NiftiImage>) returns (ok: bool)
    requires handle.Valid()
    modifies handle`otherImage, handle`otherImageName, handle`otherImageTrans
    ensures handle.Valid()
    ensures ok <==> file.Some?
    ensures !ok ==>
      && handle.otherImage == old(handle.otherImage)
      && handle.otherImageName == old(handle.otherImageName)
      && handle.otherImageTrans == old(handle.otherImageTrans)
    ensures ok ==>
      && handle.otherImage == old(handle.otherImage) + [file.value.image]
      && handle.otherImageName == old(handle.otherImageName) + [name]
      && handle.otherImageTrans == old(handle.otherImageTrans) +
           [ChosenTransform(old(handle.otherImage), old(handle.otherImageTrans), file.value,
                            handle.dim, handle.vs, handle.dwiSum)]
  {
    if file.None? {
      return false;
    }
    var ref := file.value.image;
    var affine, hasRegistered := FindPreviousRegistration(handle.otherImage, handle.otherImageTrans, Geo(ref));
    if !hasRegistered && Geo(ref) != handle.dim {
      affine := DwiRegistration(Normalized(handle.dwiSum), handle.vs, handle.dim, Normalized(ref), file.value.vs);
    }
    handle.otherImage := handle.otherImage + [ref];
    handle.otherImageName := handle.otherImageName + [name];
    handle.otherImageTrans := handle.otherImageTrans + [affine];
    ok := true;
  }

  /**
   * Two images of one geometry attached in turn share a transform: the second reuses the
   * first's, whether the first was registered or taken as DWI space.
   */
  lemma SameGeometryReusesTransform(others: seq<Img>, trans: seq<Transform>, a: NiftiImage, b: NiftiImage,
                                    dim: Geometry, vs: VoxelSize, dwiSum: Img)
    requires |others| == |trans|
    requires Geo(a.image) == Geo(b.image)
    ensures var t := ChosenTransform(others, trans, a, dim, vs, dwiSum);
      ChosenTransform(others + [a.image], trans + [t], b, dim, vs, dwiSum) == t
  {
    var t := ChosenTransform(others, trans, a, dim, vs, dwiSum);
    var s := others + [a.image];
    assert Geo(s[|s| - 1]) == Geo(b.image);
    assert LastMatch(s, Geo(b.image)) == Some(|others|);
  }

  // ---------------------------------------------------------------------------------------
  // Bad-slice marks
  // ---------------------------------------------------------------------------------------

  /** A bad slice: the index of the diffusion volume that holds it and the slice position. */
  type BadSlice = (nat, nat)

  /**
   * The row marks of the b-table: row k is marked exactly when some bad slice lies in
   * volume k; bad slices naming a volume beyond the table are ignored.
   */
  method MarkBadSlices(badSlices: seq<BadSlice>, rowCount: nat) returns (isBad: seq<bool>)
    ensures |isBad| == rowCount
    ensures forall k :: 0 <= k < rowCount ==>
      (isBad[k] <==> exists i :: 0 <= i < |badSlices| && badSlices[i].0 == k)
  {
    isBad := seq(rowCount, _ => false);
    for i := 0 to |badSlices|
      invariant |isBad| == rowCount
      invariant forall k :: 0 <= k < rowCount ==>
        (isBad[k] <==> exists j :: 0 <= j < i && badSlices[j].0 == k)
    {
      if badSlices[i].0 < |isBad| {
        isBad := isBad[badSlices[i].0 := true];
      }
    }
  }

  // ---------------------------------------------------------------------------------------
  // Sliders
  // ---------------------------------------------------------------------------------------

  /**
   * A slider over `n` positions: when its maximum is not already n - 1 it gets that maximum
   * and moves to the middle position (n - 1) >> 1; otherwise it keeps the user's position.
   */
  function SliderFor(s: Slider, n: nat): (r: Slider)
    requires n >= 1
    ensures r.maximum == n - 1
    ensures s.maximum == n - 1 ==> r == s
    ensures s.maximum != n - 1 ==> 0 <= r.value <= r.maximum && r.maximum - 1 <= 2 * r.value <= r.maximum
  {
    if s.maximum != n - 1 then Slider(n - 1, (n - 1) / 2) else s
  }

  /** Placing a slider twice over the same extent is the same as placing it once. */
  lemma SliderForIdempotent(s: Slider, n: nat)
    requires n >= 1
    ensures SliderFor(SliderFor(s, n), n) == SliderFor(s, n)
  {
  }

  /** The zoom of the source view: at least 1, and enough to show 500 rows. */
  function SourceRatio(height: nat): (r: real)
    requires height >= 1
    ensures r >= 1.0 && r * (height as real) >= 500.0
    ensures r == 1.0 || r * (height as real) == 500.0
  {
    if 500.0 / (height as real) > 1.0 then 500.0 / (height as real) else 1.0
  }

  // ---------------------------------------------------------------------------------------
  // The window
  // ---------------------------------------------------------------------------------------

  /** One row of the b-table. */
  datatype BRow = BRow(bvalue: real, gx: real, gy: real, gz: real)

  class Window {
    var handle: ImageModel
    var bTable: seq<BRow>
    var badSliceAnalyzed: bool
    var badSlices: seq<BadSlice>
    var rowMarked: seq<bool>
    var slicePos: Slider
    var zPos: Slider
    var viewOrientation: nat
    var sourceRatio: real

    /** The b-table has one row per diffusion volume, and each row has its own colour mark. */
    ghost predicate Valid()
      reads this, handle
    {
      |bTable| == |handle.src| && |rowMarked| == |bTable| && viewOrientation <= 2
    }

    /**
     * A window over `handle` showing `bTable`, no row marked. The two sliders start as the
     * window's form lays them out (`slicePos`, `zPos`), which is not part of this model.
     */
    constructor (handle: ImageModel, bTable: seq<BRow>, slicePos: Slider, zPos: Slider)
      requires |bTable| == |handle.src|
      ensures Valid() && this.handle == handle && this.bTable == bTable
      ensures !badSliceAnalyzed && badSlices == [] && viewOrientation == 2
      ensures forall k :: 0 <= k < |rowMarked| ==> !rowMarked[k]
      ensures this.slicePos == slicePos && this.zPos == zPos
    {
      this.handle, this.bTable := handle, bTable;
      badSliceAnalyzed, badSlices := false, [];
      rowMarked := seq(|bTable|, k => false);
      this.slicePos, this.zPos := slicePos, zPos;
      viewOrientation, sourceRatio := 2, 1.0;
    }

    /**
     * Deletes the volume of the current row `index` (-1 when no row is current), with its
     * row and the row's mark; the rows below move up with their marks. Nothing happens when
     * only one volume is left or no row is current.
     */
    method OnDelete2Clicked(index: int)
      requires Valid() && index < |bTable|
      modifies this`bTable, this`rowMarked, this`badSliceAnalyzed, handle`src
      ensures Valid()
      ensures old(|handle.src|) == 1 || index < 0 ==>
        bTable == old(bTable) && rowMarked == old(rowMarked) && handle.src == old(handle.src) &&
        badSliceAnalyzed == old(badSliceAnalyzed)
      ensures old(|handle.src|) != 1 && index >= 0 ==>
        bTable == old(bTable[..index] + bTable[index + 1..]) &&
        rowMarked == old(rowMarked[..index] + rowMarked[index + 1..]) &&
        handle.src == old(handle.src[..index] + handle.src[index + 1..]) &&
        !badSliceAnalyzed
    {
      if |handle.src| == 1 || index < 0 {
        return;
      }
      badSliceAnalyzed := false;
      bTable := bTable[..index] + bTable[index + 1..];
      rowMarked := rowMarked[..index] + rowMarked[index + 1..];
      handle.Remove(index);
    }

    /**
     * Keeps only the volumes above the current row `index`, with their rows and marks.
     * Nothing happens when only one volume is left or the current row is the first one or none.
     */
    method OnRemoveBelowClicked(index: int)
      requires Valid() && index < |bTable|
      modifies this`bTable, this`rowMarked, this`badSliceAnalyzed, handle`src
      ensures Valid()
      ensures old(|handle.src|) == 1 || index <= 0 ==>
        bTable == old(bTable) && rowMarked == old(rowMarked) && handle.src == old(handle.src) &&
        badSliceAnalyzed == old(badSliceAnalyzed)
      ensures old(|handle.src|) != 1 && index > 0 ==>
        bTable == old(bTable[..index]) && rowMarked == old(rowMarked[..index]) &&
        handle.src == old(handle.src[..index]) && !badSliceAnalyzed
    {
      if |handle.src| == 1 || index <= 0 {
        return;
      }
      badSliceAnalyzed := false;
      ghost var removed: nat := 0;
      while |bTable| > index
        invariant Valid() && index <= |bTable| && !badSliceAnalyzed
        invariant |bTable| + removed == old(|bTable|)
        invariant bTable == old(bTable[..index]) + old(bTable)[index + removed..]
        invariant rowMarked == old(rowMarked[..index]) + old(rowMarked)[index + removed..]
        invariant handle.src == old(handle.src[..index]) + old(handle.src)[index + removed..]
        decreases |bTable|
      {
        bTable := bTable[..index] + bTable[index + 1..];
        rowMarked := rowMarked[..index] + rowMarked[index + 1..];
        handle.Remove(index);
        removed := removed + 1;
      }
    }

    /**
     * Shows the volumes that hold bad slices. The first time, the slices `detected` by the
     * diffusion data are stored and the rows of their volumes marked; later calls keep the
     * stored analysis. The result says that no bad slice was found.
     */
    method OnShowBadSliceClicked(detected: seq<BadSlice>) returns (noneFound: bool)
      requires Valid()
      modifies this`badSlices, this`badSliceAnalyzed, this`rowMarked
      ensures Valid() && badSliceAnalyzed
      ensures old(badSliceAnalyzed) ==> badSlices == old(badSlices) && rowMarked == old(rowMarked)
      ensures !old(badSliceAnalyzed) ==>
        && badSlices == detected
        && |rowMarked| == |bTable|
        && forall k :: 0 <= k < |bTable| ==>
             (rowMarked[k] <==> exists i :: 0 <= i < |detected| && detected[i].0 == k)
      ensures noneFound <==> badSlices == []
    {
      if !badSliceAnalyzed {
        badSlices := detected;
        badSliceAnalyzed := true;
        rowMarked := MarkBadSlices(badSlices, |bTable|);
      }
      noneFound := |badSlices| == 0;
    }

    /** Fits the slice sliders and the source zoom to the dimensions of the diffusion data. */
    method UpdateDimension()
      requires Valid()
      requires handle.dim.x >= 1 && handle.dim.y >= 1 && handle.dim.z >= 1
      modifies this`slicePos, this`zPos, this`sourceRatio
      ensures slicePos == SliderFor(old(slicePos), handle.dim.z)
      ensures zPos == SliderFor(old(zPos), Axis(handle.dim, viewOrientation))
      ensures sourceRatio == SourceRatio(handle.dim.y)
    {
      if slicePos.maximum != handle.dim.z - 1 {
        slicePos := Slider(handle.dim.z - 1, (handle.dim.z - 1) / 2);
      }
      var n := Axis(handle.dim, viewOrientation);
      if zPos.maximum != n - 1 {
        zPos := Slider(n - 1, (n - 1) / 2);
      }
      sourceRatio := SourceRatio(handle.dim.y);
    }
  }
}
