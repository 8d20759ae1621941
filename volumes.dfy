/**
 * Volumes as geometries and terms.
 *
 * The image library these files call (resampling, registration, filtering, pyramid steps)
 * is not part of this model. Each of its operations is a constructor of the term type `Img`:
 * an image is described by how it was produced, and `Geo` gives the geometry (dimension
 * triple) that each operation produces. Two images are equal only when they were produced
 * by the same operations from the same inputs.
 */
module Volumes {

  /** The dimension triple of a volume (or of a slice, with z = 1). */
  datatype Geometry = Geometry(x: nat, y: nat, z: nat)

  /** Voxel size in millimetres, one component per axis. */
  datatype VoxelSize = VoxelSize(x: real, y: real, z: real)

  datatype Interpolation = Nearest | Linear | Cubic

  datatype RegType = RigidBody | Affine

  datatype Cost = MutualInformation | Correlation

  /** Parameters of the nonlinear solver, read from the tool box's controls. */
  datatype CdmParam = CdmParam(resolution: int, smoothness: real, constraint: real, iterations: nat)

  /** A linear registration estimated between a template and a subject. */
  datatype LinearFit = LinearFit(template: Img, templateVs: VoxelSize, subject: Img, subjectVs: VoxelSize,
                                 regType: RegType, cost: Cost)

  /** The parameter vector of an affine transform (translation, rotation, scaling, shear). */
  datatype AffineArg =
    | Cleared                        // all-zero translation/rotation/shear, unit scaling
    | FittedArg(fit: LinearFit)      // the parameters found by a linear registration

  /** A transformation matrix between two voxel spaces. */
  datatype Transform =
    | Identity
    | FittedMatrix(fit: LinearFit)
    | FromArg(arg: AffineArg, toGeo: Geometry, toVs: VoxelSize, fromGeo: Geometry, fromVs: VoxelSize)
    | DwiRegistration(dwiSum: Img, dwiVs: VoxelSize, dwiDim: Geometry, image: Img, imageVs: VoxelSize)

  datatype Img =
    | Blank(g: Geometry)                                  // a zero-filled image of geometry g
    | Loaded(id: nat, g: Geometry)                        // an image read from a file
    | Downsampled(src: Img)                               // halving each axis
    | PaddedDownsampled(src: Img)                         // halving each axis with edge padding
    | Upsampled(src: Img, g: Geometry)                    // enlarging back to geometry g
    | Drawn(src: Img, g: Geometry)                        // src copied into a blank of g at (0,0,0)
    | Resampled(src: Img, g: Geometry, t: Transform, interp: Interpolation)
    | EdgeFiltered(src: Img)                              // gradient magnitude, then mean filter
    | Normalized(src: Img)                                // intensities scaled to a maximum of 1
    | Cdm(template: Img, subject: Img, p: CdmParam)       // single-channel displacement field
    | Cdm2(template: Img, template2: Img, subject: Img, subject2: Img, p: CdmParam)
    | Doubled(src: Img)                                   // a displacement field times 2
    | ToMapping(dis: Img, t: Transform)                   // displacement plus transform as a mapping
    | Composed(src: Img, mapping: Img, interp: Interpolation)  // src warped through a mapping
    | DisplacementComposed(src: Img, dis: Img)            // src warped through a displacement field

  /** Half of an extent, rounded up, so that an odd extent keeps its boundary voxel. */
  function Half(n: nat): (h: nat)
    ensures n >= 1 ==> 1 <= h
    ensures n >= 2 ==> h < n
    ensures 2 * h == n || 2 * h == n + 1
  {
    (n + 1) / 2
  }

  function Halved(g: Geometry): Geometry
  {
    Geometry(Half(g.x), Half(g.y), Half(g.z))
  }

  function Size(g: Geometry): nat
  {
    g.x * g.y * g.z
  }

  /** The geometry of the image each operation produces. */
  function Geo(v: Img): Geometry
  {
    match v
    case Blank(g) => g
    case Loaded(_, g) => g
    case Downsampled(s) => Halved(Geo(s))
    case PaddedDownsampled(s) => Halved(Geo(s))
    case Upsampled(_, g) => g
    case Drawn(_, g) => g
    case Resampled(_, g, _, _) => g
    case EdgeFiltered(s) => Geo(s)
    case Normalized(s) => Geo(s)
    case Cdm(t, _, _) => Geo(t)
    case Cdm2(t, _, _, _, _) => Geo(t)
    case Doubled(s) => Geo(s)
    case ToMapping(d, _) => Geo(d)
    case Composed(_, m, _) => Geo(m)
    case DisplacementComposed(_, d) => Geo(d)
  }

  /** An image holds no voxel. */
  predicate IsEmpty(v: Img)
  {
    Size(Geo(v)) == 0
  }

  /** The image a cleared or default-constructed image variable holds. */
  const EmptyImg: Img := Blank(Geometry(0, 0, 0))

  lemma EmptyImgIsEmpty()
    ensures IsEmpty(EmptyImg)
  {
  }

  /** Positive extents stay positive when halved, so a non-empty image stays non-empty. */
  lemma HalvedNonEmpty(v: Img)
    requires !IsEmpty(v)
    ensures !IsEmpty(Downsampled(v)) && !IsEmpty(PaddedDownsampled(v))
  {
    var g := Geo(v);
    assert g.x >= 1 && g.y >= 1 && g.z >= 1;
    var h := Halved(g);
    assert h.x >= 1 && h.y >= 1 && h.z >= 1;
    assert h.x * h.y >= 1;
    assert Size(h) >= 1;
  }

  /** The extent of `g` along axis `k`: 0 sagittal (x), 1 coronal (y), 2 axial (z). */
  function Axis(g: Geometry, k: nat): nat
    requires k <= 2
  {
    if k == 0 then g.x else if k == 1 then g.y else g.z
  }

  function Pow2(k: nat): (p: nat)
    ensures p >= 1
  {
    if k == 0 then 1 else 2 * Pow2(k - 1)
  }

  function Scale(vs: VoxelSize, f: real): VoxelSize
  {
    VoxelSize(vs.x * f, vs.y * f, vs.z * f)
  }
}
