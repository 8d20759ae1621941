# DSI Studio registration and reconstruction decision logic in Dafny

This project models the sequential decision logic around the image-registration parts of
DSI Studio, and proves properties of that model:

- **Reconstruction window** (`reconstruction_window.dfy`):
  - matching a template's resolution to a subject's by repeated downsampling;
  - attaching other images to the diffusion data, reusing an earlier registration when the
    geometry repeats;
  - deleting diffusion volumes;
  - marking the volumes that hold bad slices;
  - placing the slice sliders.
- **Registration tool box** (`regtoolbox.dfy`, `slice_rules.dfy`):
  - an object that runs a linear and then a nonlinear registration of a subject to a
    template;
  - a timer that previews partial results through a resolution pyramid;
  - the warping of further images with the resulting mapping;
  - the per-pixel rules of its mosaic, blend and grey views, and the slider arithmetic that
    picks the slice shown.
- **Progress reporting** (`prog_interface.dfy`): the process-wide progress dialog, its
  lazily created window, the label with the estimated time left, and the sticky
  "aborted" flag.

The image library's numerics (registration, resampling, filtering, pyramid steps) are not
modelled. Each of its operations is a constructor of the term type `Volumes.Img`, and
`Volumes.Geo` gives the geometry each operation produces. A contract such as "J is the
subject resampled into template geometry with the fitted transform and cubic
interpolation" is therefore an equality between terms. Voxel sizes are real numbers.
Clocks (milliseconds), whether the caller is on the main thread, file reads and writes,
and the user's choices in dialogs are parameters.

Objects whose fields the source updates become classes:

- `ReconstructionWindow.ImageModel` and `ReconstructionWindow.Window`
- `RegToolBox.RegToolBox`
- `ProgInterface.Progress`, which holds the globals of the progress module.

Each of their methods states its whole new state. Loops that the source runs become
`while`/`for` loops with invariants:

- the two doubling loops of resolution matching;
- the scan for an earlier registration;
- the bad-slice marking;
- the row-removal loop;
- the blend loop;
- the push and pop loops of the preview pyramid.

Each of these loops is proved against a function or expression that specifies it.

A 2 mm template with a 1 mm subject is left unchanged by `match_template_resolution`,
because the subject loop's comparison is strict.
`ReconstructionWindow.HalfMillimetreRatioLeftAlone` states that behaviour.

## Model

| member | source | states |
|---|---|---|
| ReconstructionWindow.MatchTemplateResolution | reconstruction/reconstruction_window.cpp:1041-1063 | On return the subject's x voxel size is at most 1.5 times the template's and at least half of it. At most one side changed. The template (and its second image, only when non-empty) is downsampled exactly TemplateSteps times with every voxel-size component doubled as often; the subject likewise SubjectSteps times against the new template size |
| ReconstructionWindow.DoublingStep | reconstruction/reconstruction_window.cpp:1048-1062 | Each doubling lowers the integer part of the voxel-size ratio, so both loops terminate |
| ReconstructionWindow.CoarsenTemplate | reconstruction/reconstruction_window.cpp:1048-1055 | The template loop downsamples the template (and the second template only when non-empty) exactly TemplateSteps times and doubles every voxel-size component as often |
| ReconstructionWindow.CoarsenSubject | reconstruction/reconstruction_window.cpp:1056-1062 | The subject loop downsamples the subject (and the second subject only when non-empty) exactly SubjectSteps times and doubles every voxel-size component as often |
| ReconstructionWindow.TemplateStepsBand | reconstruction/reconstruction_window.cpp:1048-1054 | The template loop stops at the first doubling count that brings the subject within 1.5 times the template size; every smaller count was still beyond it |
| ReconstructionWindow.SubjectStepsBand | reconstruction/reconstruction_window.cpp:1056-1062 | The subject loop stops at the first doubling count at which twice the subject size reaches the template size; every smaller count was still below it |
| ReconstructionWindow.AtMostOneSideCoarsened | reconstruction/reconstruction_window.cpp:1048-1062 | Once the template loop has run at least once, the subject loop does not run |
| ReconstructionWindow.HalfMillimetreRatioLeftAlone | reconstruction/reconstruction_window.cpp:1048-1062 | A 2 mm template and a 1 mm subject: neither loop runs |
| ReconstructionWindow.CoarseSubjectCoarsensTemplateOnce | reconstruction/reconstruction_window.cpp:1048-1054 | A 1 mm template and a 3 mm subject: the template is downsampled exactly once |
| ReconstructionWindow.LastMatch | reconstruction/reconstruction_window.cpp:693-699 | The index found has the requested geometry and no later image has it; none found means no image has it |
| ReconstructionWindow.FindPreviousRegistration | reconstruction/reconstruction_window.cpp:691-699 | has_registered holds iff some earlier image has the new image's geometry; the transform is then that of the last such image, otherwise the identity |
| ReconstructionWindow.ChosenTransform | reconstruction/reconstruction_window.cpp:693-720 | An earlier image of the same geometry gives its transform. Otherwise a rigid registration to the DWI sum is used when the geometry differs from the DWI dimension, and the identity otherwise |
| ReconstructionWindow.AddOtherImage | reconstruction/reconstruction_window.cpp:680-725 | An unreadable file returns false and appends nothing. Otherwise it returns true and appends exactly one entry (the image, the name, the chosen transform) to each of the three parallel lists, which stay equal in length |
| ReconstructionWindow.SameGeometryReusesTransform | reconstruction/reconstruction_window.cpp:693-724 | An image attached after one of the same geometry gets exactly the earlier one's transform |
| ReconstructionWindow.ImageModel.Remove | reconstruction/reconstruction_window.cpp:619 | The volume at the index is removed and the others keep their order |
| ReconstructionWindow.MarkBadSlices | reconstruction/reconstruction_window.cpp:973-976 | Row k is marked iff some bad slice lies in volume k; slices naming a volume beyond the table are ignored |
| ReconstructionWindow.Window.OnShowBadSliceClicked | reconstruction/reconstruction_window.cpp:967-990 | The first call stores the detected slices and marks their rows; later calls keep the stored analysis. The result says whether the list is empty |
| ReconstructionWindow.Window.OnDelete2Clicked | reconstruction/reconstruction_window.cpp:610-621 | Nothing changes with a single volume or no current row. Otherwise exactly the row and the volume at the index go. The row's mark goes with it, and the rows below move up with their marks. The bad-slice analysis is invalidated |
| ReconstructionWindow.Window.OnRemoveBelowClicked | reconstruction/reconstruction_window.cpp:623-636 | Nothing changes with a single volume or a current row at or before the first. Otherwise exactly the first index rows and volumes remain, with their marks, and the analysis is invalidated |
| ReconstructionWindow.SliderFor | reconstruction/reconstruction_window.cpp:141-150 | A slider whose maximum is not n - 1 gets maximum n - 1 and its middle position; a slider that already fits is left alone |
| ReconstructionWindow.SliderForIdempotent | reconstruction/reconstruction_window.cpp:141-150 | Fitting a slider twice to the same extent equals fitting it once |
| ReconstructionWindow.SourceRatio | reconstruction/reconstruction_window.cpp:152 | The zoom is at least 1 and enough to show 500 rows, and is one of the two |
| ReconstructionWindow.Window.UpdateDimension | reconstruction/reconstruction_window.cpp:139-152 | The slice slider is fitted to the z extent, the position slider to the extent along the view orientation, and the zoom is set |
| SliceRules.MosaicSlice | regtoolbox.cpp:190-213 | A result exists iff both slices exist and have one size. Pixel (x, y) then takes the first slice iff exactly one of x >> m and y >> m is odd, and otherwise the second slice times the contrast ratio |
| SliceRules.MosaicPixels | regtoolbox.cpp:204-211 | Every pixel of a mosaic row layout of width w is the first pixel on the checkerboard colour where exactly one tile coordinate is odd and the second pixel times the ratio elsewhere; the length is kept |
| SliceRules.ShrStep | regtoolbox.cpp:205-206 | Adding one tile width 2^m to a coordinate moves its tile index x >> m on by one |
| SliceRules.MosaicAlternates | regtoolbox.cpp:205-207 | Moving one tile right or down switches which slice the mosaic shows |
| SliceRules.MosaicWithItself | regtoolbox.cpp:190-213 | A slice in a mosaic with itself at equal contrast is the slice itself |
| SliceRules.Clamp | regtoolbox.cpp:166 | The value is limited to [0, 255], and values within the range are kept |
| SliceRules.Grey | regtoolbox.cpp:167 | The grey pixel's three channels are equal and hold the value truncated to a byte |
| SliceRules.ToByte | regtoolbox.cpp:167 | The byte stored for a value from 0 to 255 reads back as that value |
| SliceRules.ImageToRgb | regtoolbox.cpp:163-168 | Every pixel is the grey pixel of its value scaled by the contrast and clamped |
| SliceRules.ImageToRgbSaturates | regtoolbox.cpp:163-168 | A scaled value at or below 0 gives 0, one at or above 255 gives 255, and one in between gives its integer part |
| SliceRules.BlendChannelTwo | regtoolbox.cpp:232-243 | The blended channel 2 is the same whichever image is the base, and holds every bit of both pixels |
| SliceRules.BlendPixels | regtoolbox.cpp:232-243 | Each output pixel is the base pixel with the other pixel's channel 2 ORed in |
| SliceRules.BlendSlice | regtoolbox.cpp:215-248 | A result exists iff both slices exist and have one size. The base is the first slice when flip is set and the second otherwise, and both are first turned to grey RGB at their own contrast |
| SliceRules.SlicePosFor | regtoolbox.cpp:65-73 | The slider gets maximum range - 1 and value range / 2, which lies within it at the middle |
| SliceRules.SubjectSliceAsWritten | regtoolbox.cpp:304 | The slice index as written is below the subject's depth |
| SliceRules.SubjectSliceAsWrittenLeavesAxis | regtoolbox.cpp:304-306 | For a 64 x 64 x 128 subject in the sagittal view, the index as written is 127, beyond that axis's 64 slices |
| SliceRules.SubjectSlice | regtoolbox.cpp:304-306 | The corrected index is below the extent of the axis the view cuts along; slider start gives 0 and slider end gives the last slice |
| SliceRules.SubjectSliceMonotone | regtoolbox.cpp:304-306 | Moving the slider forward never moves the corrected subject slice back |
| RegToolBox.LinearResult | regtoolbox.cpp:408-452 | J always has template geometry. In skip mode the transform is untouched and J is an exact copy of I when the geometries match, I drawn at (0,0,0) otherwise. J2 is written only when I2 has I's geometry and then has template geometry |
| RegToolBox.FitFor | regtoolbox.cpp:431-437 | A linear fit is estimated iff the cost index is 0 (mutual information) or 1 (correlation), and it registers the subject I to the template It with the requested registration type |
| RegToolBox.NonlinearField | regtoolbox.cpp:455-481 | Edge mode solves on the edge-filtered pair and takes precedence. Otherwise the dual-channel solver runs iff It2 has It's geometry and J2 has J's; else the single-channel solver runs. The field has template geometry |
| RegToolBox.DualChannelAfterLinear | regtoolbox.cpp:420-431 | When I2 has I's geometry and It2 has It's, the linear stage's output always sends the nonlinear stage (without edge mode) to the dual-channel solver |
| RegToolBox.DownChain | regtoolbox.cpp:374-380 | The pushes happen iff the image is wider than the field; every pushed geometry is wider, the first is the original's, and the image reached is no wider; with no push the subject is reached unchanged |
| RegToolBox.PushLevels | regtoolbox.cpp:374-380 | The push loop leaves exactly DownChain's stack of geometries and the downsampled subject |
| RegToolBox.UpChainGeometry | regtoolbox.cpp:383-390 | Popping every pushed geometry brings the image and the field back to the geometry pushed first |
| RegToolBox.PopLevels | regtoolbox.cpp:383-390 | The pop loop upsamples both views to every pushed geometry, last pushed first, and upsamples and doubles the field once per level |
| RegToolBox.UpChainDoubledScale | regtoolbox.cpp:383-390 | The displacement is doubled exactly once per popped level: its scale is 2^(number of pushes) |
| RegToolBox.RaisedPreview | regtoolbox.cpp:383-390 | With at least one level pushed, the subject view, its second contrast and the field all come back to the geometry pushed first, and the field is scaled by 2 per level |
| RegToolBox.NonlinearPreview | regtoolbox.cpp:369-393 | A preview exists unless the downsampled subject misses the field's geometry. Its three views then have the geometry of the subject shown, and the field is scaled by 2 per level. A subject already of the field's geometry is previewed as itself |
| RegToolBox.PreviewPyramid | regtoolbox.cpp:369-393 | The push and pop loops compute exactly NonlinearPreview. On the early return they leave the downsampled subject and the field |
| RegToolBox.Shown | regtoolbox.cpp:363 | The view shows one of the two contrasts: the second exactly when it is asked for and has the first's geometry (or the two are the same image) |
| RegToolBox.WarpInterpolation | regtoolbox.cpp:541 | Label images use nearest-neighbour interpolation; others use the requested one |
| RegToolBox.ApplyWarping | regtoolbox.cpp:526-551 | A load failure gives the reader's error, and a save failure gives "cannot write to file " followed by the target. Success means both worked, and the output is the image warped through the mapping (of the mapping's geometry) with the template's voxel size and transform |
| RegToolBox.LabelWarpIgnoresInterpolation | regtoolbox.cpp:541 | For a label image, the requested interpolation makes no difference to the result |
| RegToolBox.RegToolBox.Clear | regtoolbox.cpp:53-64 | reg_done is false; J, J_view, J_view2, dis and mapping are empty; the affine parameters are cleared; the button reads "run" |
| RegToolBox.RegToolBox.SetupSlicePos | regtoolbox.cpp:65-73 | With a loaded template the slider is fitted to the extent along the current view; otherwise it is left alone |
| RegToolBox.RegToolBox.OnViewClicked | regtoolbox.cpp:635-656 | The view axis is switched and the slider is re-fitted to the extent along it |
| RegToolBox.RegToolBox.LinearReg | regtoolbox.cpp:408-452 | The status becomes "linear registration"; J, J2, T and the affine parameters become LinearResult's, and J_view is J |
| RegToolBox.RegToolBox.LinearStage | regtoolbox.cpp:411-450 | J, J2, T and the affine parameters become LinearResult's, and J_view is J |
| RegToolBox.RegToolBox.NonlinearReg | regtoolbox.cpp:455-486 | The status becomes "nonlinear registration"; dis is NonlinearField's, the mapping is dis with T, and JJ is I warped through it with linear interpolation |
| RegToolBox.RegToolBox.NonlinearStage | regtoolbox.cpp:458-484 | dis is NonlinearField's, the mapping is dis with T, and JJ is I warped through it with linear interpolation |
| RegToolBox.RegToolBox.RunStages | regtoolbox.cpp:501-514 | The subject voxel size is rescaled, then both stages run: their fields are LinearResult's for an affine fit at the rescaled size and NonlinearField's of the new J and J2, and the two statuses are shown in order |
| RegToolBox.RegToolBox.RunThread | regtoolbox.cpp:498-517 | The whole run body: both stages' results as in RunStages, then reg_done is set and the status reads "registration done"; the statuses shown are the two stage statuses with reg_done false, then the done status with reg_done true |
| RegToolBox.RegToolBox.RunRegClicked | regtoolbox.cpp:488-524 | A run is refused with no state change when I or It is empty. Otherwise the previous results are cleared, the run body (RunThread) executes from the cleared affine parameters, and the timer is started. The statuses shown are "linear registration", "nonlinear registration", "registration done", with reg_done true only at the last |
| RegToolBox.RegToolBox.OnTimer | regtoolbox.cpp:357-406 | Before J exists it previews I (or I2) through the current affine parameters. With a field, the views become NonlinearPreview's, or the downsampled subject on an early return. The timer stops and the button reads "re-run" once reg_done is set, except on an early return |
| RegToolBox.RegToolBox.RefreshNonlinearView | regtoolbox.cpp:370-393 | With a field, the views become NonlinearPreview's of the contrast shown when it exists; otherwise only the subject view (the downsampled subject) and the field view change |
| RegToolBox.RegToolBox.StopWhenDone | regtoolbox.cpp:396-404 | Once reg_done is set the timer stops and the button reads "re-run"; before, both are left alone |
| ProgInterface.Digits | libs/utility/prog_interface.cpp:112-115 | A number is written as at least one decimal digit with no leading zero |
| ProgInterface.DigitsRoundTrip | libs/utility/prog_interface.cpp:112-115 | The digits written read back as the number |
| ProgInterface.BeforeColon | libs/utility/prog_interface.cpp:110 | The text kept is a prefix without ':' that ends at the first ':' or at the end |
| ProgInterface.BeforeColonAppend | libs/utility/prog_interface.cpp:110-115 | Appending text that begins with ':' does not change the text before the first ':' |
| ProgInterface.Eta | libs/utility/prog_interface.cpp:105-107 | There is no estimate before the first step. Otherwise the estimate is the whole seconds of elapsed * (total - now) / now |
| ProgInterface.ProgressLabel | libs/utility/prog_interface.cpp:110-115 | With an estimate the label reads "title: now of total, estimated time: m min s sec" with m = e / 60 and s = e % 60; without one, "title: now of total...". The title before ':' is preserved |
| ProgInterface.TitleSurvivesUpdates | libs/utility/prog_interface.cpp:110-115 | Two successive label updates keep the original title before ':' |
| ProgInterface.NewDialog | libs/utility/prog_interface.cpp:30-31 | A new dialog shows the title, is visible and not cancelled, and ranges from 0 to 100 |
| ProgInterface.Progress.constructor | libs/utility/prog_interface.cpp:11-17 | No dialog, an empty title and a clear sticky flag. The start time is the program's start. Both step timers are unstarted and read as 0 ms elapsed, so no refresh happens before begin_prog starts them |
| ProgInterface.Progress.IsRunning | libs/utility/prog_interface.cpp:60-65 | Running iff a dialog exists and is visible; never without a dialog |
| ProgInterface.Progress.ProgAborted | libs/utility/prog_interface.cpp:122-131 | Never when headless or off the main thread. Otherwise true iff the sticky flag is set or the open dialog is cancelled |
| ProgInterface.Progress.Created | libs/utility/prog_interface.cpp:22-34 | An existing dialog is kept. Without one, a dialog with the current title appears iff more than 500 ms have passed since the process began |
| ProgInterface.Progress.CheckCreate | libs/utility/prog_interface.cpp:22-34 | Headless or off the main thread nothing changes; otherwise the dialog becomes Created's |
| ProgInterface.Progress.BeginProg | libs/utility/prog_interface.cpp:35-58 | Headless or off the main thread nothing changes. Otherwise a given title becomes current. An open dialog is relabelled and shown, one is created if always_show, the clocks restart, and the sticky flag is cleared; an open dialog's cancellation survives |
| ProgInterface.Progress.SetTitle | libs/utility/prog_interface.cpp:67-78 | Headless or off the main thread nothing changes; otherwise the title becomes current and an open dialog is relabelled |
| ProgInterface.Progress.CloseProg | libs/utility/prog_interface.cpp:79-87 | Without a dialog this is a no-op. Otherwise the sticky flag takes the dialog's cancelled flag, the dialog goes, and the start time restarts |
| ProgInterface.Progress.Cancel | libs/utility/prog_interface.cpp:126-129 | Pressing Cancel marks the dialog cancelled and hides it, so it no longer runs and the process reads as aborted |
| ProgInterface.Progress.CheckProg | libs/utility/prog_interface.cpp:88-120 | Headless, off the main thread or without a dialog it returns now < total and changes nothing but a lazily created dialog. A finished or cancelled process closes its dialog and returns false. Otherwise it returns true, restarts the step clock at step 0, and at most once per 500 ms after begin_prog sets the range, the value and the label from the title and the estimate |
| ProgInterface.Progress.RefreshLabel | libs/utility/prog_interface.cpp:102-118 | Within 500 ms of the last refresh, or while the timers are unstarted, nothing changes. Later the refresh time is reset, and the dialog gets the range, the value, visibility and the label built from its title before ':' with the step count and the estimate |

## Left out

- The image library (registration, resampling, filtering, normalisation, pyramid steps) is
  modelled as uninterpreted terms. Only the geometry of each result is modelled.
- Volumes.Half: downsampling is taken to give (n + 1) / 2 per axis, with and without
  padding, because the library's source is not part of this model.
- is_label_image is not part of this model. It is the parameter `isLabel` of
  RegToolBox.ApplyWarping.
- RegToolBox.RegToolBox.RunRegClicked: the square-root rescale of the subject voxel size
  is the factor `vsFactor` the caller supplies, not computed from plane sizes.
- Floating point is modelled by real numbers, and `float` versus `double` rounding is not
  modelled. ProgInterface.Eta is exact integer division on non-negative values, where the
  source truncates a double.
- Concurrency is not modelled. The run executes in a background thread in the source and
  here it is a sequential method. The timer's ticks are separate `OnTimer` calls, and the
  interplay of a tick with a half-finished run is not modelled.
- on_stop_clicked, the thread's termination flag, and on_qsdr_manual_clicked are not
  modelled.
- Qt rendering and interaction are not modelled: scenes, painting of the warp grid,
  mirroring, scaling, message boxes, file dialogs and process-event pumping. Only the
  decisions of the handlers are kept.
- Clocks are millisecond parameters, and the ProgInterface.Progress methods require that
  the clock never runs backwards past a stored reading. An unstarted QTime is the value
  None, whose elapsed time is 0.
- The initial slider positions of the reconstruction window and the tool box, and the tool
  box's initial view axis, come from their forms and headers, which are not part of this
  model. They are constructor parameters.
- Console output is not modelled.
- The QProgressDialog is a value of the type ProgInterface.Dialog. Pressing Cancel is the
  method ProgInterface.Progress.Cancel. As in Qt, a cancelled dialog hides itself and
  stays cancelled until it is destroyed.
- ReconstructionWindow.Window.UpdateDimension requires non-zero dimensions, because the
  source computes dim - 1 on unsigned values.
- SliceRules.SubjectSliceAsWritten and SliceRules.SubjectSlice require a slider maximum
  above 0, because the source divides by it.
- ReconstructionWindow.ImageModel.Remove: the image model's remove is not part of this
  model. It is taken to drop the volume's image, b-value and b-vector together.
- RegToolBox.RegToolBox.LinearReg: the source normalises the previous J2 just before replacing it, so
  that normalisation is never observed. The model keeps only the replacement.
- RegToolBox.RegToolBox.Clear resets neither J2 nor dis_view, as in the source. A cost
  index outside 0 to 2 keeps the previous transform.

## Findings

| source | as written | input that shows it | evidently intended | confidence | as-written member | corrected member |
|---|---|---|---|---|---|---|
| regtoolbox.cpp:304 | The subject slice index is scaled to the subject's depth (its z extent), but the slice is cut along the current view axis | A 64 x 64 x 128 subject in the sagittal view with the slider at its end gives index 127 on an axis of 64 slices | Scale the index to the extent along the current view axis, as setup_slice_pos does for the template | not executed | SliceRules.SubjectSliceAsWritten, SliceRules.SubjectSliceAsWrittenLeavesAxis | SliceRules.SubjectSlice |
