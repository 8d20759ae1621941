/**
 * The registration tool box: a template It (with an optional second contrast It2) and a
 * subject I (with I2), a run that registers the subject linearly and then nonlinearly, a
 * timer that previews the run's partial results, and the warping of other images with the
 * mapping a run produced.
 */
module RegToolBox {
  import opened Outcomes
  import opened Volumes
  import opened Widgets
  import SliceRules

  const LinearStatus: string := "linear registration"
  const NonlinearStatus: string := "nonlinear registration"
  const DoneStatus: string := "registration done"

  /** The cost chosen for the linear stage: 0 mutual information, 1 correlation, 2 skip. */
  const SkipCost: int := 2

  // ---------------------------------------------------------------------------------------
  // What the two stages compute
  // ---------------------------------------------------------------------------------------

  /** The fields the linear stage writes. */
  datatype LinearOut = LinearOut(J: Img, J2: Img, T: Transform, arg: AffineArg)

  /** `v` padded or cropped into geometry `g` at offset (0,0,0); an exact copy when it fits. */
  function PlacedInto(v: Img, fits: bool, g: Geometry): Img
  {
    if fits then v else Drawn(v, g)
  }

  /** The linear fit for a cost index: 0 mutual information, 1 correlation, none otherwise. */
  function FitFor(It: Img, Itvs: VoxelSize, I: Img, Ivs: VoxelSize, regType: RegType, costType: int)
    : (f: Option<LinearFit>)
    ensures f.Some? <==> costType == 0 || costType == 1
    ensures f.Some? ==> f.value.template == It && f.value.subject == I && f.value.regType == regType
    ensures costType == 0 ==> f.value.cost == MutualInformation
    ensures costType == 1 ==> f.value.cost == Correlation
  {
    if costType == 0 then Some(LinearFit(It, Itvs, I, Ivs, regType, MutualInformation))
    else if costType == 1 then Some(LinearFit(It, Itvs, I, Ivs, regType, Correlation))
    else None
  }

  /**
   * The linear stage. The skip cost only places I (and I2) into template geometry; cost 0
   * or 1 fits an affine transform by mutual information or correlation and resamples with
   * cubic interpolation; any other cost fits nothing and resamples with the transform that
   * is already there. J2 is written only when I2 has I's geometry; it keeps `J2` otherwise.
   */
  function LinearResult(It: Img, Itvs: VoxelSize, I: Img, I2: Img, Ivs: VoxelSize, regType: RegType,
                        costType: int, T: Transform, arg: AffineArg, J2: Img): (r: LinearOut)
    ensures Geo(r.J) == Geo(It)
    ensures Geo(I2) == Geo(I) ==> Geo(r.J2) == Geo(It)
    ensures Geo(I2) != Geo(I) ==> r.J2 == J2
    ensures costType == SkipCost ==> r.T == T && r.arg == arg
    ensures costType == SkipCost && Geo(I) == Geo(It) ==> r.J == I
  {
    if costType == SkipCost then
      var fits := Geo(I) == Geo(It);
      LinearOut(PlacedInto(I, fits, Geo(It)),
                if Geo(I2) == Geo(I) then PlacedInto(I2, fits, Geo(It)) else J2,
                T, arg)
    else
      var fitted := FitFor(It, Itvs, I, Ivs, regType, costType);
      var T' := if fitted.Some? then FittedMatrix(fitted.value) else T;
      var arg' := if fitted.Some? then FittedArg(fitted.value) else arg;
      LinearOut(Resampled(I, Geo(It), T', Cubic),
                if Geo(I2) == Geo(I) then Resampled(I2, Geo(It), T', Cubic) else J2,
                T', arg')
  }

  /**
   * The displacement field of the nonlinear stage: edge mode solves on edge-filtered images
   * and takes precedence; otherwise the dual-channel solver runs exactly when both second
   * contrasts have the geometry of their first; otherwise the single-channel solver runs.
   */
  function NonlinearField(It: Img, It2: Img, J: Img, J2: Img, edge: bool, p: CdmParam): (dis: Img)
    ensures edge ==> dis == Cdm(EdgeFiltered(It), EdgeFiltered(J), p)
    ensures dis.Cdm2? <==> !edge && Geo(It2) == Geo(It) && Geo(J2) == Geo(J)
    ensures !edge && !dis.Cdm2? ==> dis == Cdm(It, J, p)
    ensures Geo(dis) == Geo(It)
  {
    if edge then Cdm(EdgeFiltered(It), EdgeFiltered(J), p)
    else if Geo(It2) == Geo(It) && Geo(J2) == Geo(J) then Cdm2(It, It2, J, J2, p)
    else Cdm(It, J, p)
  }

  /**
   * When the second subject contrast has the subject's geometry, the linear stage brings it
   * into template geometry along with the first, so a second template contrast of the
   * template's geometry is enough for the dual-channel solver.
   */
  lemma DualChannelAfterLinear(It: Img, It2: Img, Itvs: VoxelSize, I: Img, I2: Img, Ivs: VoxelSize,
                               regType: RegType, costType: int, T: Transform, arg: AffineArg, J2: Img,
                               p: CdmParam)
    requires Geo(I2) == Geo(I) && Geo(It2) == Geo(It)
    ensures var lin := LinearResult(It, Itvs, I, I2, Ivs, regType, costType, T, arg, J2);
      NonlinearField(It, It2, lin.J, lin.J2, false, p) == Cdm2(It, It2, lin.J, lin.J2, p)
  {
  }

  // ---------------------------------------------------------------------------------------
  // The preview pyramid of the timer
  // ---------------------------------------------------------------------------------------

  /** A loaded image has at least one voxel along every axis. */
  lemma NonEmptyExtents(v: Img)
    requires !IsEmpty(v)
    ensures Geo(v).x >= 1 && Geo(v).y >= 1 && Geo(v).z >= 1
  {
  }

  /**
   * The geometries pushed while `v` is wider than `w`, downsampling it with padding after
   * each push, and the image reached.
   */
  function DownChain(v: Img, w: nat): (r: (seq<Geometry>, Img))
    requires w >= 1
    ensures Geo(r.1).x <= w
    ensures forall g :: g in r.0 ==> g.x > w
    ensures |r.0| == 0 <==> Geo(v).x <= w
    ensures |r.0| > 0 ==> r.0[0] == Geo(v)
    ensures |r.0| == 0 ==> r.1 == v
    decreases Geo(v).x
  {
    if Geo(v).x > w then
      var rest := DownChain(PaddedDownsampled(v), w);
      ([Geo(v)] + rest.0, rest.1)
    else ([], v)
  }

  /** `v` upsampled to each geometry of `stack`, last pushed first. */
  function UpChain(v: Img, stack: seq<Geometry>): Img
    decreases |stack|
  {
    if stack == [] then v
    else UpChain(Upsampled(v, stack[|stack| - 1]), stack[..|stack| - 1])
  }

  /** A displacement field upsampled likewise, doubled after each level. */
  function UpChainDoubled(dis: Img, stack: seq<Geometry>): Img
    decreases |stack|
  {
    if stack == [] then dis
    else UpChainDoubled(Doubled(Upsampled(dis, stack[|stack| - 1])), stack[..|stack| - 1])
  }

  /** The factor by which a displacement field's vectors have been multiplied. */
  function DisplacementScale(v: Img): nat
  {
    match v
    case Doubled(s) => 2 * DisplacementScale(s)
    case Upsampled(s, _) => DisplacementScale(s)
    case _ => 1
  }

  /** Unwinding a non-empty stack ends at the geometry pushed first. */
  lemma {:induction false} UpChainGeometry(v: Img, dis: Img, stack: seq<Geometry>)
    requires |stack| > 0
    ensures Geo(UpChain(v, stack)) == stack[0]
    ensures Geo(UpChainDoubled(dis, stack)) == stack[0]
    decreases |stack|
  {
    var n := |stack|;
    if n > 1 {
      UpChainGeometry(Upsampled(v, stack[n - 1]), Doubled(Upsampled(dis, stack[n - 1])), stack[..n - 1]);
    }
  }

  /** Each level unwound doubles the displacement once. */
  lemma {:induction false} UpChainDoubledScale(dis: Img, stack: seq<Geometry>)
    ensures DisplacementScale(UpChainDoubled(dis, stack)) == Pow2(|stack|) * DisplacementScale(dis)
    decreases |stack|
  {
    var n := |stack|;
    if n > 0 {
      var d' := Doubled(Upsampled(dis, stack[n - 1]));
      UpChainDoubledScale(d', stack[..n - 1]);
      assert DisplacementScale(d') == 2 * DisplacementScale(dis);
      DoubleMoves(Pow2(n - 1), DisplacementScale(dis));
    }
  }

  /** The contrast a view shows: the second one when asked for and of the first's geometry. */
  function Shown(showSecond: bool, first: Img, second: Img): (v: Img)
    ensures v == first || v == second
    ensures v == second <==> (showSecond && Geo(second) == Geo(first)) || second == first
  {
    if showSecond && Geo(second) == Geo(first) then second else first
  }

  /** The three views the timer shows while the nonlinear stage runs. */
  datatype Preview = Preview(jView: Img, jView2: Img, disView: Img)

  /**
   * The nonlinear preview of subject `j` through displacement field `dis`: `j` is
   * downsampled until it is no wider than `dis`, warped, and everything is brought back up
   * level by level, the displacement doubled at each. It is absent when the downsampled `j`
   * does not have the field's geometry.
   */
  function NonlinearPreview(j: Img, dis: Img): (r: Option<Preview>)
    requires !IsEmpty(dis)
    ensures r.Some? ==> Geo(r.value.jView) == Geo(j) && Geo(r.value.jView2) == Geo(j) &&
                        Geo(r.value.disView) == Geo(j)
    ensures r.Some? ==> DisplacementScale(r.value.disView) ==
                        Pow2(|DownChain(j, Geo(dis).x).0|) * DisplacementScale(dis)
    ensures Geo(j) == Geo(dis) ==>
      r == Some(Preview(Normalized(j), Normalized(DisplacementComposed(j, dis)), dis))
  {
    NonEmptyExtents(dis);
    var chain := DownChain(j, Geo(dis).x);
    var stack, base := chain.0, chain.1;
    if Geo(base) != Geo(dis) then None
    else if |stack| > 0 then Some(RaisedPreview(base, dis, stack))
    else Some(Preview(Normalized(base), Normalized(DisplacementComposed(base, dis)), dis))
  }

  /** The views of a pyramid with at least one level, brought back up to the level pushed first. */
  function RaisedPreview(base: Img, dis: Img, stack: seq<Geometry>): (r: Preview)
    requires |stack| > 0
    ensures Geo(r.jView) == stack[0] && Geo(r.jView2) == stack[0] && Geo(r.disView) == stack[0]
    ensures DisplacementScale(r.disView) == Pow2(|stack|) * DisplacementScale(dis)
  {
    UpChainGeometry(base, dis, stack);
    UpChainGeometry(DisplacementComposed(base, dis), dis, stack);
    UpChainDoubledScale(dis, stack);
    Preview(Normalized(UpChain(base, stack)),
            Normalized(UpChain(DisplacementComposed(base, dis), stack)),
            UpChainDoubled(dis, stack))
  }

  /** The push loop of the timer's pyramid. */
  method PushLevels(j: Img, w: nat) returns (stack: seq<Geometry>, base: Img)
    requires w >= 1
    ensures (stack, base) == DownChain(j, w)
  {
    stack, base := [], j;
    while Geo(base).x > w
      invariant stack + DownChain(base, w).0 == DownChain(j, w).0
      invariant DownChain(base, w).1 == DownChain(j, w).1
      decreases Geo(base).x
    {
      ghost var rest := DownChain(PaddedDownsampled(base), w).0;
      assert DownChain(base, w).0 == [Geo(base)] + rest;
      assert (stack + [Geo(base)]) + rest == stack + ([Geo(base)] + rest);
      stack := stack + [Geo(base)];
      base := PaddedDownsampled(base);
    }
    assert stack == DownChain(j, w).0;
  }

  /** The pop loop of the timer's pyramid: the image, the warped image and the doubled field go back up. */
  method PopLevels(v: Img, v2: Img, dis: Img, stack: seq<Geometry>) returns (up: Img, up2: Img, upDis: Img)
    ensures up == UpChain(v, stack) && up2 == UpChain(v2, stack) && upDis == UpChainDoubled(dis, stack)
  {
    up, up2, upDis := v, v2, dis;
    var geoStack := stack;
    while geoStack != []
      invariant UpChain(up, geoStack) == UpChain(v, stack)
      invariant UpChain(up2, geoStack) == UpChain(v2, stack)
      invariant UpChainDoubled(upDis, geoStack) == UpChainDoubled(dis, stack)
      decreases |geoStack|
    {
      var g := geoStack[|geoStack| - 1];
      up := Upsampled(up, g);
      up2 := Upsampled(up2, g);
      upDis := Doubled(Upsampled(upDis, g));
      geoStack := geoStack[..|geoStack| - 1];
    }
  }

  /**
   * The timer's pyramid: pushes the geometry of `j` while it is wider than `dis`,
   * downsampling with padding, warps the bottom level, then pops the geometries back,
   * upsampling the image, the warped image and the doubled field at each level. It stops
   * after the pushes, `complete` false, when the bottom level does not have the field's
   * geometry.
   */
  method PreviewPyramid(j: Img, dis: Img) returns (jView: Img, jView2: Img, disView: Img, complete: bool)
    requires !IsEmpty(dis)
    ensures complete <==> NonlinearPreview(j, dis).Some?
    ensures complete ==> NonlinearPreview(j, dis) == Some(Preview(jView, jView2, disView))
    ensures !complete ==> jView == DownChain(j, Geo(dis).x).1 && disView == dis
  {
    NonEmptyExtents(dis);
    var stack, base := PushLevels(j, Geo(dis).x);
    if Geo(base) != Geo(dis) {
      return base, EmptyImg, dis, false;
    }
    var up, up2, upDis := PopLevels(base, DisplacementComposed(base, dis), dis, stack);
    jView, jView2, disView := Normalized(up), Normalized(up2), upDis;
    complete := true;
  }

  // ---------------------------------------------------------------------------------------
  // Warping another image
  // ---------------------------------------------------------------------------------------

  /** What `apply_warping` writes: the warped image with the template's voxel size and transform. */
  datatype Warped = Warped(image: Img, vs: VoxelSize, trans: seq<real>)

  /** Label images are always warped with nearest-neighbour interpolation. */
  function WarpInterpolation(image: Img, isLabel: Img -> bool, interpo: Interpolation): (i: Interpolation)
    ensures isLabel(image) ==> i == Nearest
    ensures !isLabel(image) ==> i == interpo
  {
    if isLabel(image) then Nearest else interpo
  }

  /**
   * Warps the image read from `from` (`loaded`, or the reader's error) through `mapping`
   * and writes it to `to`; `saved` is whether that write succeeded.
   */
  function ApplyWarping(loaded: Result<Img>, to: string, mapping: Img, Itvs: VoxelSize, ItR: seq<real>,
                        isLabel: Img -> bool, interpo: Interpolation, saved: bool): (r: Result<Warped>)
    ensures loaded.Failure? ==> r == Failure(loaded.error)
    ensures loaded.Success? && !saved ==> r == Failure("cannot write to file " + to)
    ensures r.Success? <==> loaded.Success? && saved
    ensures r.Success? ==>
      && r.value.image == Composed(loaded.value, mapping, WarpInterpolation(loaded.value, isLabel, interpo))
      && Geo(r.value.image) == Geo(mapping)
      && r.value.vs == Itvs && r.value.trans == ItR
  {
    match loaded
    case Failure(e) => Failure(e)
    case Success(I3) =>
      var J3 := Composed(I3, mapping, if isLabel(I3) then Nearest else interpo);
      if !saved then Failure("cannot write to file " + to) else Success(Warped(J3, Itvs, ItR))
  }

  /** For a label image the requested interpolation makes no difference to the result. */
  lemma LabelWarpIgnoresInterpolation(loaded: Result<Img>, to: string, mapping: Img, Itvs: VoxelSize,
                                      ItR: seq<real>, isLabel: Img -> bool, i1: Interpolation,
                                      i2: Interpolation, saved: bool)
    requires loaded.Success? && isLabel(loaded.value)
    ensures ApplyWarping(loaded, to, mapping, Itvs, ItR, isLabel, i1, saved) ==
            ApplyWarping(loaded, to, mapping, Itvs, ItR, isLabel, i2, saved)
  {
  }

  // ---------------------------------------------------------------------------------------
  // Arithmetic used by the proofs above
  // ---------------------------------------------------------------------------------------

  /** A factor 2 moves across a product. */
  lemma DoubleMoves(a: nat, b: nat)
    ensures a * (2 * b) == (2 * a) * b
  {
  }

  // ---------------------------------------------------------------------------------------
  // The tool box
  // ---------------------------------------------------------------------------------------

  class RegToolBox {
    var It: Img
    var It2: Img
    var Itvs: VoxelSize
    var ItR: seq<real>
    var I: Img
    var I2: Img
    var Ivs: VoxelSize

    var J: Img
    var J2: Img
    var JView: Img
    var JView2: Img
    var dis: Img
    var disView: Img
    var mapping: Img
    var JJ: Img
    var arg: AffineArg
    var T: Transform
    var regDone: bool
    var status: string
    var terminated: bool

    /** Whether the preview timer is running, and the text of the run button. */
    var timerActive: bool
    var runText: string
    var slicePos: Slider
    var curView: nat

    /** Every status a run has shown, with the value of regDone when it was shown. */
    ghost var statusHistory: seq<(string, bool)>

    /**
     * A tool box with no images loaded. The slider and the view axis start as the tool box's
     * form and header lay them out, which are not part of this model, so they are parameters.
     */
    constructor (slicePos: Slider, curView: nat)
      requires curView <= 2
      ensures IsEmpty(It) && IsEmpty(I) && IsEmpty(J) && IsEmpty(dis) && !regDone && !timerActive
      ensures statusHistory == [] && this.slicePos == slicePos && this.curView == curView
    {
      It, It2, I, I2 := EmptyImg, EmptyImg, EmptyImg, EmptyImg;
      Itvs, Ivs, ItR := VoxelSize(1.0, 1.0, 1.0), VoxelSize(1.0, 1.0, 1.0), [];
      J, J2, JView, JView2 := EmptyImg, EmptyImg, EmptyImg, EmptyImg;
      dis, disView, mapping, JJ := EmptyImg, EmptyImg, EmptyImg, EmptyImg;
      arg, T := Cleared, Identity;
      regDone, status, terminated := false, "", false;
      timerActive, runText := false, "run";
      this.slicePos, this.curView := slicePos, curView;
      statusHistory := [];
    }

    /** Discards the results of the previous run. J2 and disView are not reset. */
    method Clear()
      modifies this`regDone, this`J, this`JView, this`JView2, this`dis, this`mapping, this`arg, this`runText
      ensures !regDone && arg == Cleared && runText == "run"
      ensures J == EmptyImg && JView == EmptyImg && JView2 == EmptyImg && dis == EmptyImg && mapping == EmptyImg
    {
      regDone := false;
      J, JView, JView2 := EmptyImg, EmptyImg, EmptyImg;
      dis, mapping := EmptyImg, EmptyImg;
      arg := Cleared;
      runText := "run";
    }

    /** Places the template slider in the middle of the current axis of a loaded template. */
    method SetupSlicePos()
      requires curView <= 2
      modifies this`slicePos
      ensures IsEmpty(It) ==> slicePos == old(slicePos)
      ensures !IsEmpty(It) ==> slicePos == SliceRules.SlicePosFor(Axis(Geo(It), curView))
    {
      if !IsEmpty(It) {
        NonEmptyExtents(It);
        slicePos := SliceRules.SlicePosFor(Axis(Geo(It), curView));
      }
    }

    /** The axial, coronal and sagittal buttons: switch the view axis and re-centre the slider. */
    method OnViewClicked(view: nat)
      requires view <= 2
      modifies this`curView, this`slicePos
      ensures curView == view
      ensures IsEmpty(It) ==> slicePos == old(slicePos)
      ensures !IsEmpty(It) ==> slicePos == SliceRules.SlicePosFor(Axis(Geo(It), view))
    {
      curView := view;
      SetupSlicePos();
    }

    /** The linear stage of a run: the status is shown, then the stage's fields are written. */
    method LinearReg(regType: RegType, costType: int)
      modifies this`status, this`statusHistory, this`J, this`J2, this`JView, this`T, this`arg
      ensures LinearOut(J, J2, T, arg) == LinearResult(It, Itvs, I, I2, Ivs, regType, costType, old(T), old(arg), old(J2))
      ensures JView == J
      ensures status == LinearStatus && statusHistory == old(statusHistory) + [(LinearStatus, regDone)]
    {
      status := LinearStatus;
      statusHistory := statusHistory + [(status, regDone)];
      LinearStage(regType, costType);
    }

    /** The fields the linear stage writes, by cost: skip, fit, or resample with the current T. */
    method LinearStage(regType: RegType, costType: int)
      modifies this`J, this`J2, this`JView, this`T, this`arg
      ensures LinearOut(J, J2, T, arg) == LinearResult(It, Itvs, I, I2, Ivs, regType, costType, old(T), old(arg), old(J2))
      ensures JView == J
    {
      var J_: Img := Blank(Geo(It));
      if costType == SkipCost {
        if Geo(I) == Geo(It) {
          J_ := I;
        } else {
          J_ := Drawn(I, Geo(It));
        }
        if Geo(I2) == Geo(I) {
          var J2_: Img := Blank(Geo(It));
          if Geo(I) == Geo(It) {
            J2_ := I2;
          } else {
            J2_ := Drawn(I2, Geo(It));
          }
          J2 := J2_;
        }
      } else {
        var fitted := FitFor(It, Itvs, I, Ivs, regType, costType);
        if fitted.Some? {
          T, arg := FittedMatrix(fitted.value), FittedArg(fitted.value);
        }
        J_ := Resampled(I, Geo(It), T, Cubic);
        if Geo(I2) == Geo(I) {
          var J2_ := Resampled(I2, Geo(It), T, Cubic);
          J2 := J2_;
        }
      }
      J := J_;
      JView := J;
    }

    /** The nonlinear stage of a run, then the mapping and the warped subject. */
    method NonlinearReg(edge: bool, p: CdmParam)
      modifies this`status, this`statusHistory, this`dis, this`mapping, this`JJ
      ensures dis == NonlinearField(It, It2, J, J2, edge, p)
      ensures mapping == ToMapping(dis, T) && JJ == Composed(I, mapping, Linear)
      ensures status == NonlinearStatus && statusHistory == old(statusHistory) + [(NonlinearStatus, regDone)]
    {
      status := NonlinearStatus;
      statusHistory := statusHistory + [(status, regDone)];
      NonlinearStage(edge, p);
    }

    /** The fields the nonlinear stage writes: the field, the mapping and the warped subject. */
    method NonlinearStage(edge: bool, p: CdmParam)
      modifies this`dis, this`mapping, this`JJ
      ensures dis == NonlinearField(It, It2, J, J2, edge, p)
      ensures mapping == ToMapping(dis, T) && JJ == Composed(I, mapping, Linear)
    {
      if edge {
        var sIt, sJ := EdgeFiltered(It), EdgeFiltered(J);
        dis := Cdm(sIt, sJ, p);
      } else if Geo(It2) == Geo(It) && Geo(J2) == Geo(J) {
        dis := Cdm2(It, It2, J, J2, p);
      } else {
        dis := Cdm(It, J, p);
      }
      mapping := ToMapping(dis, T);
      JJ := Composed(I, mapping, Linear);
    }

    /**
     * The two stages of a run: the subject voxel size is rescaled by `vsFactor`, then the
     * linear and the nonlinear stage run.
     */
    method RunStages(costType: int, edge: bool, p: CdmParam, vsFactor: real)
      modifies this`J, this`J2, this`JView, this`dis, this`mapping, this`JJ,
               this`arg, this`T, this`status, this`statusHistory, this`Ivs
      ensures Ivs == Scale(old(Ivs), vsFactor)
      ensures LinearOut(J, J2, T, arg) == LinearResult(It, Itvs, I, I2, Ivs, Affine, costType, old(T), old(arg), old(J2))
      ensures JView == J && dis == NonlinearField(It, It2, J, J2, edge, p)
      ensures mapping == ToMapping(dis, T) && JJ == Composed(I, mapping, Linear)
      ensures status == NonlinearStatus
      ensures statusHistory == old(statusHistory) + [(LinearStatus, regDone)] + [(NonlinearStatus, regDone)]
    {
      Ivs := Scale(Ivs, vsFactor);
      LinearReg(Affine, costType);
      NonlinearReg(edge, p);
    }

    /**
     * The body of a run, executed by the worker thread: the two stages, then the run is
     * marked done.
     */
    method RunThread(costType: int, edge: bool, p: CdmParam, vsFactor: real)
      requires !regDone
      modifies this`regDone, this`J, this`J2, this`JView, this`dis, this`mapping, this`JJ,
               this`arg, this`T, this`status, this`statusHistory, this`Ivs
      ensures Ivs == Scale(old(Ivs), vsFactor)
      ensures LinearOut(J, J2, T, arg) == LinearResult(It, Itvs, I, I2, Ivs, Affine, costType, old(T), old(arg), old(J2))
      ensures JView == J && dis == NonlinearField(It, It2, J, J2, edge, p)
      ensures mapping == ToMapping(dis, T) && JJ == Composed(I, mapping, Linear)
      ensures regDone && status == DoneStatus
      ensures statusHistory == old(statusHistory) + [(LinearStatus, false)] + [(NonlinearStatus, false)] + [(DoneStatus, true)]
    {
      RunStages(costType, edge, p, vsFactor);
      regDone := true;
      status := DoneStatus;
      statusHistory := statusHistory + [(status, regDone)];
    }

    /**
     * Starts a run: refused (false, nothing changed) unless both images are loaded;
     * otherwise the previous results are cleared, the run's body executes and the preview
     * timer starts.
     */
    method RunRegClicked(costType: int, edge: bool, p: CdmParam, vsFactor: real) returns (started: bool)
      modifies this`regDone, this`J, this`J2, this`JView, this`JView2, this`dis, this`mapping, this`JJ,
               this`arg, this`T, this`status, this`statusHistory, this`terminated, this`Ivs,
               this`timerActive, this`runText
      ensures started <==> !IsEmpty(old(I)) && !IsEmpty(old(It))
      ensures !started ==> unchanged(this)
      ensures started ==>
        && Ivs == Scale(old(Ivs), vsFactor)
        && LinearOut(J, J2, T, arg) == LinearResult(It, Itvs, I, I2, Ivs, Affine, costType, old(T), Cleared, old(J2))
        && JView == J && JView2 == EmptyImg
        && dis == NonlinearField(It, It2, J, J2, edge, p)
        && mapping == ToMapping(dis, T) && JJ == Composed(I, mapping, Linear)
      ensures started ==> regDone && status == DoneStatus && !terminated && timerActive && runText == "run"
      ensures started ==>
        statusHistory == old(statusHistory) + [(LinearStatus, false), (NonlinearStatus, false), (DoneStatus, true)]
    {
      if IsEmpty(I) || IsEmpty(It) {
        return false;
      }
      Clear();
      terminated := false;
      RunThread(costType, edge, p, vsFactor);
      timerActive := true;
      started := true;
    }

    /**
     * One tick of the preview timer. Before the linear stage has written J it previews the
     * subject (or its second contrast, when shown and of I's geometry) through the current
     * parameters; afterwards it previews the nonlinear field at full resolution. Once a
     * run is done the timer stops, unless the preview returned early.
     */
    method OnTimer(showSecond: bool)
      modifies this`JView, this`JView2, this`disView, this`timerActive, this`runText
      ensures IsEmpty(J) ==>
        && JView == Resampled(Shown(showSecond, I, I2), Geo(It), FromArg(arg, Geo(It), Itvs, Geo(I), Ivs), Linear)
        && JView2 == old(JView2) && disView == old(disView)
      ensures !IsEmpty(J) && IsEmpty(dis) ==>
        JView == old(JView) && JView2 == old(JView2) && disView == old(disView)
      ensures !IsEmpty(J) && !IsEmpty(dis) ==>
        match NonlinearPreview(Shown(showSecond, J, J2), dis)
        case Some(view) => JView == view.jView && JView2 == view.jView2 && disView == view.disView
        case None =>
          && JView == DownChain(Shown(showSecond, J, J2), Geo(dis).x).1 && JView2 == old(JView2) && disView == dis
          && timerActive == old(timerActive) && runText == old(runText)
      ensures !(!IsEmpty(J) && !IsEmpty(dis) && NonlinearPreview(Shown(showSecond, J, J2), dis).None?) ==>
        && (regDone ==> !timerActive && runText == "re-run")
        && (!regDone ==> timerActive == old(timerActive) && runText == old(runText))
    {
      if IsEmpty(J) {
        JView := Resampled(Shown(showSecond, I, I2), Geo(It), FromArg(arg, Geo(It), Itvs, Geo(I), Ivs), Linear);
      } else if !IsEmpty(dis) {
        var complete := RefreshNonlinearView(showSecond);
        if !complete {
          return;
        }
      }
      StopWhenDone();
    }

    /** The end of a timer tick: a finished run stops the timer and offers a re-run. */
    method StopWhenDone()
      modifies this`timerActive, this`runText
      ensures regDone ==> !timerActive && runText == "re-run"
      ensures !regDone ==> timerActive == old(timerActive) && runText == old(runText)
    {
      if regDone {
        timerActive := false;
        runText := "re-run";
      }
    }

    /**
     * The nonlinear branch of a timer tick: the views take the preview pyramid of the shown
     * contrast; when the pyramid does not reach the field's geometry, only the subject view
     * and the field view are written.
     */
    method RefreshNonlinearView(showSecond: bool) returns (complete: bool)
      requires !IsEmpty(dis)
      modifies this`JView, this`JView2, this`disView
      ensures complete <==> NonlinearPreview(Shown(showSecond, J, J2), dis).Some?
      ensures complete ==>
        NonlinearPreview(Shown(showSecond, J, J2), dis) == Some(Preview(JView, JView2, disView))
      ensures !complete ==>
        JView == DownChain(Shown(showSecond, J, J2), Geo(dis).x).1 && JView2 == old(JView2) && disView == dis
    {
      var jv, jv2, dv;
      jv, jv2, dv, complete := PreviewPyramid(Shown(showSecond, J, J2), dis);
      JView, disView := jv, dv;
      if complete {
        JView2 := jv2;
      }
    }
  }
}
