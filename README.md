# AVCaptureDemo capture-configuration model

A Dafny model of the camera-configuration policy of AVCaptureDemo's capture
controller (`AVController`). It covers three parts:

- **Format selection** (`findPreferredFormat`). The scan starts from the
  device's first format. It switches to another format only when that format
  has strictly more pixels than the current choice and a maximum frame rate
  strictly above 29. Module `CaptureFormat` holds the scan as a method with
  loop invariants. It also holds a left-fold specification (`SelectedAfter`)
  and a declarative specification (`IsPreferredIndex`): the earliest format of
  largest pixel count among the first format and the formats that pass the
  rate test. Lemmas prove that the fold and the declarative specification agree.
- **Frame-rate range selection** (the part of `configureFrameRate` that picks a
  range). It sorts the ranges ascending by maximum rate and takes the last.
  Module `FrameRate` holds the per-format maximum rate (a `reduce` seeded with
  0), an insertion sort proved sorted and a permutation, and the choice of its
  last element.
- **Device switching** (`start`, `stop`, `change(toDevice:)`). Module
  `AVControllerModel` has a `CaptureDevice` class whose active format and frame
  durations change in place. It also has a `Controller` class holding the
  active device, whether the current session is running, and the list of calls
  made on sessions (stop, prepare for a device, start).

Notes on how the model represents the source:

- Frame rates (`Float64` in the source) are `real`. They are only compared and
  maxed, so the results match.
- CMTime durations are `Duration(value, timescale)`. They are only copied.
- Dimensions are `int32`. The source computes `height * width` in `Int32` and
  traps on overflow. The scan computes that product in the `int32` newtype, and
  its precondition `FormatsFit` excludes the trap.
- With no formats, `configureGeneric` hits `assertionFailure()`, which traps
  only in debug builds, and then returns. The model follows the release
  build: the active format is left unchanged. That early return also skips
  `unlockForConfiguration()`, so the device stays locked for configuration;
  the model has no lock state and does not show this.
- The "fall back to the first format" choice is not limited to the case where
  no format passes the rate test. The first format is kept whenever no format
  that passes the test has strictly more pixels than it, even if the first
  format's own rate is 29 or less. So a faster but smaller format does not
  win against a slow first format: with 1920×1080 at 24 fps listed before
  640×480 at 60 fps, the 1920×1080 format is kept.

## Model

| member | source | states |
|---|---|---|
| `FrameRate.RateFold` | AVCaptureDemo/AVController.swift:153-155 | the `max` fold over the rates is at least its seed and every rate, and equals the seed or one of the rates |
| `FrameRate.MaxFrameRate` | AVCaptureDemo/AVController.swift:153-155 | a format's max rate is non-negative, bounds every range's rate, equals 0 or one of them, and is 0 with no ranges |
| `FrameRate.InsertByRate` | AVCaptureDemo/AVController.swift:128-130 | inserting into an ascending list keeps it ascending by max rate, and adds exactly that one element |
| `FrameRate.SortByRate` | AVCaptureDemo/AVController.swift:128-130 | the sort's output is ascending by max rate and is a permutation of the ranges |
| `FrameRate.SelectFrameRateRange` | AVCaptureDemo/AVController.swift:127-132 | the last element after the sort is absent exactly when there are no ranges; otherwise it is one of the ranges, and its max rate is at least that of every range |
| `FrameRate.SelectedRangeHasMaxFrameRate` | AVCaptureDemo/AVController.swift:127-132 | the chosen range's rate, floored at 0, equals the format's max rate computed by the reduce |
| `CaptureFormat.SelectedAfter` | AVCaptureDemo/AVController.swift:148-166 | each step of the scan keeps a valid index, and that index is the first format or one already visited |
| `CaptureFormat.SelectedAfterIsBest` | AVCaptureDemo/AVController.swift:148-166 | after each prefix, the current choice is the earliest largest candidate of that prefix. Candidates are the first format and every format with rate above 29 |
| `CaptureFormat.PreferredIndexCharacterized` | AVCaptureDemo/AVController.swift:143-171 | an index satisfies the declarative policy if and only if it is the one the scan returns |
| `CaptureFormat.ReplacementNeedsRateAbove29` | AVCaptureDemo/AVController.swift:161-165 | a result other than the first format has a max rate strictly above 29 and at least one range |
| `CaptureFormat.PreferredPixelCountIsMaximal` | AVCaptureDemo/AVController.swift:150-164 | the result has at least as many pixels as the first format and as every format with rate above 29 |
| `CaptureFormat.EarliestAmongEqual` | AVCaptureDemo/AVController.swift:161 | no candidate before the result has the same pixel count, so ties keep the earliest |
| `CaptureFormat.SelectedPixelCountNeverDecreases` | AVCaptureDemo/AVController.swift:148-166 | the pixel count of the current choice never decreases as the scan proceeds |
| `CaptureFormat.ReorderAfterPreferred` | AVCaptureDemo/AVController.swift:161 | rearranging the formats after the result does not change the result. This includes formats of equal size |
| `CaptureFormat.FindPreferredFormat` | AVCaptureDemo/AVController.swift:143-171 | the result is absent exactly when there are no formats. Otherwise it is a listed format, the one the policy selects. The loop keeps the chosen format, its size and its 32-bit pixel count in step |
| `CaptureFormat.ExampleSlowLargeFormatRejected` | AVCaptureDemo/AVController.swift:161 | in order [a, b], a (640×480 at 60 fps) is kept, because b (1920×1080 at 24 fps) fails the rate test; in order [b, a], b is kept, because it comes first and a has fewer pixels |
| `CaptureFormat.ExampleFastLargeFormatSelected` | AVCaptureDemo/AVController.swift:161 | 1920×1080 at 30 fps wins over 640×480 at 60 fps, in either order |
| `CaptureFormat.ExampleExactly29Excluded` | AVCaptureDemo/AVController.swift:161 | a larger format at exactly 29 fps does not replace a 10 fps first format, but one at 30 fps does |
| `AVControllerModel.AfterConfigureGeneric` | AVCaptureDemo/AVController.swift:177-181 | with formats, the active format becomes the one the declarative policy selects. With none, nothing changes. Durations are untouched |
| `AVControllerModel.AfterConfigureFrameRate` | AVCaptureDemo/AVController.swift:127-135 | the durations become those of a range with the largest max rate. With no ranges the configuration is unchanged. The format is untouched |
| `AVControllerModel.ReconfiguredIdempotent` | AVCaptureDemo/AVController.swift:39-42 | starting a second time on the same device leaves the same configuration as one start |
| `AVControllerModel.Controller.constructor` | AVCaptureDemo/AVController.swift:27-37 | the first discovered device becomes active (the list must not be empty), and no session is running |
| `AVControllerModel.Controller.ConfigureGeneric` | AVCaptureDemo/AVController.swift:173-181 | the device's configuration becomes the one `AfterConfigureGeneric` describes |
| `AVControllerModel.Controller.ConfigureFrameRate` | AVCaptureDemo/AVController.swift:122-135 | the device's configuration becomes the one `AfterConfigureFrameRate` describes |
| `AVControllerModel.Controller.PrepForCapture` | AVCaptureDemo/AVController.swift:85-120 | a fresh session is created that is not running, a prepare call is recorded for the device, and the device is configured |
| `AVControllerModel.Controller.Start` | AVCaptureDemo/AVController.swift:39-42 | the session is prepared and then running on the same device, which is configured as one start describes |
| `AVControllerModel.Controller.Stop` | AVCaptureDemo/AVController.swift:44-46 | the session is not running and a stop call is recorded. The device is unchanged |
| `AVControllerModel.Controller.Change` | AVCaptureDemo/AVController.swift:48-54 | with no device nothing changes. Otherwise the calls are stop, then prepare for the new device, then start. The new device is active and running, and it is configured |
| `AVControllerModel.SwitchAwayAndBack` | AVCaptureDemo/AVController.swift:48-54 | switching A to B and back to A issues stop, prepare, start three times in that order. A ends active and running, configured as after one start. B is configured as after its own start. A and B may be the same device |

## Left out

- Session construction in `prepForCapture`: output and input creation, `canAddOutput`/`canAddInput`, the session preset, and begin/commit configuration (AVController.swift:86-116). These are framework calls. The model records one `Prepare` call per fresh session instead.
- Failure to create the device input (AVController.swift:104-110). That path returns before configuring the device. It depends on a framework call, so the model always takes the configured path.
- `lockForConfiguration` failures in `configureGeneric` and `configureFrameRate`. These are framework errors that leave the device as it was. The model always takes the locked path.
- The `videoSettings` dictionary written in `configureGeneric` (AVController.swift:183-193). It is a framework output setting with nothing to state about it.
- The capture callbacks `captureOutput(_:didOutput:from:)` and `captureOutput(_:didDrop:from:)` (AVController.swift:60-80). These cover pixel-buffer locking, the autorelease pool, the delegate hand-off and the dispatch queue.
- Device discovery in `init` (AVController.swift:28-33). The discovered list is a constructor parameter, and `devices.first!` becomes its non-empty precondition.
- FrameRate.SelectFrameRateRange: the sort-then-last choice among ranges that tie on maximum rate is not pinned down. The platform's `sorted` does not promise an order among equal elements, so the contract states only that the chosen range is one of the ranges and has a maximal rate.
- FrameRate.MaxFrameRate: floating-point NaN and infinities are not modelled. Rates are exact reals.
- The rendering view `MetalImageView` (aspect-fit geometry, CoreImage/Metal rendering, drawable presentation), the main-thread redraw hop, the view controller's permission handling, alerts and menu, and the Auto Layout extension. These are GPU, UI and threading plumbing outside the capture-configuration core.
