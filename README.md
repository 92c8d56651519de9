# Zero camera: capture controller, view model and slider tables in Dafny

This project models the core of the Zero camera app for Android (package `com.vandam.zero`). It covers three parts.

- **The capture controller** (`camera/CameraController.kt`). It holds the camera settings and does the following:
  - clamps manual ISO and shutter speed, and splits a manual ISO into sensor sensitivity and post-RAW boost;
  - quantises EV to a compensation index;
  - turns a tap into a metering rectangle;
  - computes the JPEG and EXIF orientation;
  - chooses the preview and capture sizes, and the thumbnail sample size;
  - keeps the single-slot zero-shutter-lag (ZSL) frame buffer;
  - counts pending captures from `takePhoto` through every capture path to its terminal callback;
  - repacks YUV_420_888 frames into NV21.
- **The view model** (`CameraViewModel.kt`). It is the mode state machine behind the UI:
  - slider panels, auto and manual exposure, flash and colour mode;
  - the output-format cycle JPG → HF → RAW and the high-speed (fast) mode with its saved format and preview flag;
  - rotation bucketing, the ordering of the format list, the shutter guard and the capture callbacks.
- **The slider tables** (`ui/components/CameraSliders.kt`). These are the fixed ISO and shutter tables and the list functions over them.

Each part is written in the form of its source.

- **CaptureMath, CameraSliders and Numerics** hold the pure computations as functions.
  - Numerics models Kotlin's `coerceIn`, its truncating `/` and `%`, and `Float.toInt`.
  - Kotlin `Float` values are `real`.
- **YuvConversion** holds the NV21 repacking as methods that fill an `array` with loops.
- **The two stateful classes** each come in two parts.
  - A specification module (ControllerSpec, ViewModelSpec) states every operation as a transition on a state value and proves the lemmas.
  - A class (`CameraControl.CameraController`, `ViewModel.CameraViewModel`) holds the source's fields. Its methods update those fields in place, and each method is proved to move `Snapshot()` exactly as the corresponding transition does. Two view-model methods, ToggleFastMode and OnCaptureComplete, follow corrected transitions rather than the code (see "## Findings" and "## Left out").

**The pending-capture counter.** The controller's `pendingCaptureCount` is tracked together with five stage counts:
- still requests in flight;
- precapture sequences in flight;
- ZSL grabs waiting for the retry;
- ZSL frames being converted;
- captures that are never finished.

The invariant `ControllerSpec.Valid` says that the counter is the sum of these stage counts. Every operation and callback keeps it.

**The view model's controller.** The camera controller the view model drives is represented by the log of calls it receives. A call is appended only while a controller is attached, exactly as `cameraController?.f(...)` behaves.

**Callbacks and outside effects.** Camera callbacks and outside effects cannot be computed by the model, so they are passed in as parameters:
- an exception thrown by a capture request;
- the arrivals of the capture result during the DNG wait;
- the frame a ZSL listener acquires;
- whether the JPEG compressor succeeds;
- what the camera characteristics report;
- whether the controller has captures pending, as seen by the view model.

Two computations are easy to misread as rounding. The model follows the code:
- **The boost of the ISO split is a floor division** (`manualIso * 100 / maxSensorIso`), so the boosted ISO never exceeds the request.
- **The EV index is `(ev / step).toInt()`**, which truncates toward zero rather than rounding to the nearest step.

## Model

| member | source | states |
|---|---|---|
| Numerics.CoerceIn | app/src/main/java/com/vandam/zero/camera/CameraController.kt:1348-1358 | Kotlin `coerceIn`: the result lies in [lo, hi], an in-range value passes unchanged, and a value outside the range goes to the bound it crossed |
| Numerics.CoerceInReal | app/src/main/java/com/vandam/zero/CameraViewModel.kt:308 | The same clamp on Float values |
| Numerics.TruncDiv | app/src/main/java/com/vandam/zero/camera/CameraController.kt:1075 | Kotlin integer division truncates toward zero: the quotient's magnitude is the number of whole multiples of the magnitude of b in the magnitude of a, it is negative exactly when the operands' signs differ (unless zero), and it is the floor quotient for non-negative operands |
| Numerics.TruncRem | app/src/main/java/com/vandam/zero/camera/CameraController.kt:1228 | Kotlin `%`: the remainder is smaller than the divisor in magnitude, has the sign of the dividend unless zero, and agrees with the mathematical remainder for non-negative operands |
| Numerics.FloatToInt | app/src/main/java/com/vandam/zero/camera/CameraController.kt:1321-1325 | `Float.toInt()` truncates toward zero: the result is the whole part, within one of the value and on the zero side of it |
| CaptureMath.InitialCapabilitiesWellFormed | app/src/main/java/com/vandam/zero/camera/CameraController.kt:84-91 | The values held before any camera opens (no ranges, compensation step 1, no regions, orientation 0, no RAW) satisfy the capability invariant |
| CaptureMath.AvailableFormats | app/src/main/java/com/vandam/zero/camera/CameraController.kt:233-238 | The reported formats start with JPEG, contain RAW exactly when RAW is supported, and have no repeats |
| CaptureMath.ManualBoundsOrdered | app/src/main/java/com/vandam/zero/camera/CameraController.kt:1348-1358 | With the 100 / 1600 / 1 ms / 1 s defaults for a missing range, the manual ISO bounds are ordered with the boost ceiling above the sensor maximum, and the exposure bounds are ordered |
| CaptureMath.ClampManualIso | app/src/main/java/com/vandam/zero/camera/CameraController.kt:1348-1353 | The stored manual ISO lies in [sensor minimum, 32 × sensor maximum], an ISO inside passes through, and one outside goes to the nearer bound |
| CaptureMath.ClampExposureNs | app/src/main/java/com/vandam/zero/camera/CameraController.kt:1354-1358 | The stored exposure time lies in the device range (1 ms to 1 s by default), with the same pass-through and clamping |
| CaptureMath.IsoSplit | app/src/main/java/com/vandam/zero/camera/CameraController.kt:483-494 | A reachable ISO is sent as (iso, 100 %). A higher one runs the sensor at its maximum with a boost in [100, 3199] that never overshoots the request and, unless capped, falls short by less than one step |
| CaptureMath.HighIsoBoost | app/src/main/java/com/vandam/zero/camera/CameraController.kt:488-489 | Above the sensor maximum, the capped quotient `iso * 100 / max` is at least 100, at most 3199, and is the largest boost not past the request |
| CaptureMath.IsoSplitMonotone | app/src/main/java/com/vandam/zero/camera/CameraController.kt:483-494 | Asking for more ISO never yields a smaller effective ISO (sensitivity × boost) |
| CaptureMath.IsoSplitExample | app/src/main/java/com/vandam/zero/camera/CameraController.kt:483-494 | ISO 6400 on a 1600 sensor gives (1600, 400 %), a very high ISO caps at 3199 %, and ISO 800 gives (800, 100 %) |
| CaptureMath.EcIndex | app/src/main/java/com/vandam/zero/camera/CameraController.kt:1330-1337 | The compensation index lies in the device range (±12 by default). With a zero step, a positive EV saturates to the upper bound and a negative EV to the lower bound |
| CaptureMath.EcIndexTruncatesTowardZero | app/src/main/java/com/vandam/zero/camera/CameraController.kt:1330-1337 | With a positive step and an EV in range, the index counts the whole steps in the EV toward zero: i steps never pass the EV and one more step would |
| CaptureMath.WholeSteps | app/src/main/java/com/vandam/zero/camera/CameraController.kt:1333 | Truncating ev / step gives the number of whole steps contained in ev, on either side of zero |
| CaptureMath.DeviceDegrees | app/src/main/java/com/vandam/zero/camera/CameraController.kt:1219-1226 | ROTATION_0..ROTATION_270 are 0, 90, 180 and 270 degrees, and any other value is 0 degrees |
| CaptureMath.JpegOrientation | app/src/main/java/com/vandam/zero/camera/CameraController.kt:1218-1231 | For a non-negative sensor orientation the result is an angle in [0, 360) that, added to the device rotation, gives the sensor orientation modulo 360. A right-angle sensor orientation gives a right angle |
| CaptureMath.CompensationUndoesRotation | app/src/main/java/com/vandam/zero/camera/CameraController.kt:1228 | Adding the device angle back to (sensor − device + 360) % 360 recovers the sensor orientation modulo 360 |
| CaptureMath.ExifOrientation | app/src/main/java/com/vandam/zero/camera/CameraController.kt:1233-1242 | The EXIF tag is one of NORMAL, ROTATE_90, ROTATE_180 and ROTATE_270, and any angle that is not a right angle gives NORMAL |
| CaptureMath.ExifDegrees | app/src/main/java/com/vandam/zero/camera/CameraController.kt:1236-1241 | The angle an EXIF orientation tag stands for is always a right angle |
| CaptureMath.ExifOrientationRoundTrip | app/src/main/java/com/vandam/zero/camera/CameraController.kt:1233-1242 | The EXIF tag records exactly the JPEG rotation for every right angle |
| CaptureMath.ExifOrientationInjective | app/src/main/java/com/vandam/zero/camera/CameraController.kt:1233-1242 | Distinct right angles get distinct EXIF tags |
| CaptureMath.NormalizedSensorPoint | app/src/main/java/com/vandam/zero/camera/CameraController.kt:1396-1416 | The view-to-sensor transform for orientations 90, 270 and 180 keeps the unit square, and any other orientation leaves the point unchanged |
| CaptureMath.NormalizedSensorPointCorners | app/src/main/java/com/vandam/zero/camera/CameraController.kt:1396-1411 | Where the view's corners land: view (0,0) goes to sensor (0,1) for 90, (1,0) for 270 and (1,1) for 180, and the other two corners each pin the direction of the turn |
| CaptureMath.ViewPointOf | app/src/main/java/com/vandam/zero/camera/CameraController.kt:1396-1416 | The sensor-to-view direction, defined on its own, keeps the unit square |
| CaptureMath.NormalizedSensorPointInverts | app/src/main/java/com/vandam/zero/camera/CameraController.kt:1396-1416 | For every orientation, the tap transform and the sensor-to-view direction undo each other |
| CaptureMath.SensorTransformsAreRotations | app/src/main/java/com/vandam/zero/camera/CameraController.kt:1396-1416 | The transforms compose like rotations of the square: 90 after 90 is 180, 90 and 270 undo each other, and 180 undoes itself |
| CaptureMath.SensorPixel | app/src/main/java/com/vandam/zero/camera/CameraController.kt:1396-1416 | A point of the unit square scales and truncates to a pixel inside the active array, edges included |
| CaptureMath.FocusHalfSize | app/src/main/java/com/vandam/zero/camera/CameraController.kt:1390 | The half side of the metering square, min(w, h) / 20, fits 20 times in each side, and is at least 1 once both sides reach 20 |
| CaptureMath.FocusRect | app/src/main/java/com/vandam/zero/camera/CameraController.kt:1418-1421 | left ∈ [0, w−1], top ∈ [0, h−1], right ∈ [1, w] and bottom ∈ [1, h]. The rectangle is non-empty on arrays of at least 20 pixels each way, and contains any sensor pixel inside the array |
| CaptureMath.TapFocusRect | app/src/main/java/com/vandam/zero/camera/CameraController.kt:1390-1421 | The whole tap-to-rectangle mapping stays inside the active array, and a tap inside the view gives a rectangle containing the tapped sensor pixel |
| CaptureMath.TapFocusRectCornerExample | app/src/main/java/com/vandam/zero/camera/CameraController.kt:1390-1421 | On a 4000×3000 array at orientation 90, a tap at the view's top-left corner meters (0, 2850)–(150, 3000), the sensor's bottom-left corner |
| CaptureMath.FirstMaxArea | app/src/main/java/com/vandam/zero/camera/CameraController.kt:259 | `maxByOrNull { w * h }` picks the first size of largest area |
| CaptureMath.FirstMaxSuitable | app/src/main/java/com/vandam/zero/camera/CameraController.kt:337-347 | The first suitable (near 4:3, at most 1440 wide) size of largest area, or −1 exactly when no size is suitable |
| CaptureMath.ChooseOptimalPreviewSize | app/src/main/java/com/vandam/zero/camera/CameraController.kt:329-348 | 1440×1080 when there are no choices. Otherwise a listed size: the largest suitable one when any is suitable, else the largest of all |
| CaptureMath.LargestOr | app/src/main/java/com/vandam/zero/camera/CameraController.kt:258-259 | A capture reader's size is the fallback when no sizes are listed. Otherwise it is the first listed size of largest area |
| CaptureMath.SampleSize | app/src/main/java/com/vandam/zero/camera/CameraController.kt:1074-1075 | The thumbnail sample size is at least 1, is 1 below 800 pixels, and otherwise keeps the subsampled short side in [400, 800) |
| YuvConversion.LumaOutBounds | app/src/main/java/com/vandam/zero/camera/CameraController.kt:959-969 | Every luma pixel lands in the Y region of the output, and the pixels of earlier rows land before row r |
| YuvConversion.LumaInBounds | app/src/main/java/com/vandam/zero/camera/CameraController.kt:964-968 | When the planes cover the frame, every strided luma read is inside the Y buffer |
| YuvConversion.ChromaOutBounds | app/src/main/java/com/vandam/zero/camera/CameraController.kt:977-978 | Every interleaved V/U pair lands after the Y region and inside the w·h + w·h/2 output |
| YuvConversion.ChromaOutOrdered | app/src/main/java/com/vandam/zero/camera/CameraController.kt:974-980 | Chroma cells in row-major order write disjoint, increasing byte pairs, so no cell overwrites another |
| YuvConversion.ChromaInBounds | app/src/main/java/com/vandam/zero/camera/CameraController.kt:976-978 | When the planes cover the frame, every chroma read is inside the U and V buffers |
| YuvConversion.LumaOutInjective | app/src/main/java/com/vandam/zero/camera/CameraController.kt:959-969 | Distinct luma pixels go to distinct output bytes |
| YuvConversion.LumaOutSurjective | app/src/main/java/com/vandam/zero/camera/CameraController.kt:959-969 | Every byte of the Y region is written by exactly the pixel (k / w, k % w) |
| YuvConversion.HalfRowsFit | app/src/main/java/com/vandam/zero/camera/CameraController.kt:971-980 | The h/2 chroma rows of width w fit in the w·h/2 chroma region |
| YuvConversion.Yuv420ToNv21 | app/src/main/java/com/vandam/zero/camera/CameraController.kt:944-983 | The conversion succeeds exactly when the plane buffers cover the frame. The output then has w·h + w·h/2 bytes. Luma pixel (r, c) is Y[r·yRowStride + c], so stride padding is dropped. Chroma cell (r, c) holds V and then U read at r·uvRowStride + c·uvPixelStride |
| YuvConversion.CopyLuma | app/src/main/java/com/vandam/zero/camera/CameraController.kt:959-969 | After the luma copy, by one block copy or row by row, every luma pixel holds its Y byte |
| YuvConversion.CopyLumaPacked | app/src/main/java/com/vandam/zero/camera/CameraController.kt:960-962 | With no row padding, the single block copy places every luma pixel correctly |
| YuvConversion.CopyLumaRow | app/src/main/java/com/vandam/zero/camera/CameraController.kt:964-968 | Copying one row at its stride offset extends the copied rows by one and keeps the earlier rows |
| YuvConversion.LumaRowBounds | app/src/main/java/com/vandam/zero/camera/CameraController.kt:965-966 | The row copy's source and destination slices are in bounds |
| YuvConversion.EarlierLumaRowsBefore | app/src/main/java/com/vandam/zero/camera/CameraController.kt:964-968 | Rows already copied lie before the output position of the current row |
| YuvConversion.CopyChroma | app/src/main/java/com/vandam/zero/camera/CameraController.kt:974-980 | After the nested chroma loop, every chroma cell holds its V and U bytes and the luma part is intact |
| YuvConversion.CopyChromaCell | app/src/main/java/com/vandam/zero/camera/CameraController.kt:976-978 | Writing one cell's V/U pair extends the copied cells by one and keeps the luma part |
| ControllerSpec.Initial | app/src/main/java/com/vandam/zero/camera/CameraController.kt:50-98 | A new controller is JPEG with OIS and auto exposure on, has no captures pending, and satisfies the counter invariant |
| ControllerSpec.Release | app/src/main/java/com/vandam/zero/camera/CameraController.kt:312-320 | Releasing the held ZSL frame closes exactly that frame, if there is one |
| ControllerSpec.DrainSlot | app/src/main/java/com/vandam/zero/camera/CameraController.kt:1285-1291 | Draining the slot disables ZSL, empties it, and closes the frame it held |
| ControllerSpec.OpenCamera | app/src/main/java/com/vandam/zero/camera/CameraController.kt:193-327 | The characteristics are taken from the device. RAW is supported exactly when RAW sizes exist and this is not the monochrome build. The formats are reported and the readers are created, the RAW reader only with RAW support |
| ControllerSpec.OnSessionConfigured | app/src/main/java/com/vandam/zero/camera/CameraController.kt:398-464 | With a device: the session and the preview request exist, the regions are cleared, and ZSL is on exactly in fast mode with a ZSL reader. Without a device nothing changes |
| ControllerSpec.OnDeviceLost | app/src/main/java/com/vandam/zero/camera/CameraController.kt:358-372 | A disconnect or error drops the device and nothing else |
| ControllerSpec.Shutdown | app/src/main/java/com/vandam/zero/camera/CameraController.kt:1539-1577 | Shutdown closes the held ZSL frame, disables ZSL, and drops the device, the session and all readers |
| ControllerSpec.SetInitialOutputFormat | app/src/main/java/com/vandam/zero/camera/CameraController.kt:153-156 | Only the output format changes, to the given one |
| ControllerSpec.SetOutputFormat | app/src/main/java/com/vandam/zero/camera/CameraController.kt:1301-1311 | The state is unchanged exactly when the format is the current one or is RAW on a device without RAW. Otherwise the format is stored |
| ControllerSpec.SetOutputFormatIdempotent | app/src/main/java/com/vandam/zero/camera/CameraController.kt:1301-1311 | Asking for the same format twice is the same as asking once |
| ControllerSpec.SetOutputFormatNeverEntersUnsupportedRaw | app/src/main/java/com/vandam/zero/camera/CameraController.kt:1302-1305 | A device without RAW never ends up in RAW through setOutputFormat |
| ControllerSpec.SetRotation | app/src/main/java/com/vandam/zero/camera/CameraController.kt:1244-1246 | Only the rotation changes |
| ControllerSpec.SetFlashEnabled | app/src/main/java/com/vandam/zero/camera/CameraController.kt:1248-1252 | Only the flash flag changes |
| ControllerSpec.SetOisEnabled | app/src/main/java/com/vandam/zero/camera/CameraController.kt:1254-1259 | Only the OIS flag changes, and an unchanged value changes nothing |
| ControllerSpec.SetBwMode | app/src/main/java/com/vandam/zero/camera/CameraController.kt:1275-1280 | Only the B/W flag changes, and an unchanged value changes nothing |
| ControllerSpec.SetFastMode | app/src/main/java/com/vandam/zero/camera/CameraController.kt:1282-1299 | An unchanged value does nothing. A change stores it and drops the session for a rebuild, and leaving fast mode drains the ZSL slot |
| ControllerSpec.SetAutoExposure | app/src/main/java/com/vandam/zero/camera/CameraController.kt:1313-1328 | The auto-exposure flag is stored. With an EV the compensation index is recomputed (EcIndex); without one it is kept |
| ControllerSpec.SetExposureCompensation | app/src/main/java/com/vandam/zero/camera/CameraController.kt:1330-1341 | Only the compensation index changes, to the in-range index of the EV |
| ControllerSpec.SetManualExposure | app/src/main/java/com/vandam/zero/camera/CameraController.kt:1343-1361 | Auto exposure is off. ISO and exposure time are stored clamped to the device bounds, and in-range values pass unchanged |
| ControllerSpec.ExposureRequest | app/src/main/java/com/vandam/zero/camera/CameraController.kt:477-495 | Auto exposure sends the compensation index. Manual sends the exposure time and an ISO split whose sensitivity stays at or below the sensor maximum and whose boost never overshoots |
| ControllerSpec.StillRequestSettings | app/src/main/java/com/vandam/zero/camera/CameraController.kt:602-756 | A still request uses hyperfocal focus in fast mode, carries the OIS setting and the exposure request, and uses always-flash AE only with flash in auto exposure. It copies the regions only when a preview request exists, and has a JPEG orientation in [0, 360) exactly for JPEG |
| ControllerSpec.TriggerAutofocus | app/src/main/java/com/vandam/zero/camera/CameraController.kt:1456-1469 | One AF trigger is sent exactly when the session and the preview request exist |
| ControllerSpec.TriggerFocus | app/src/main/java/com/vandam/zero/camera/CameraController.kt:1448-1454 | Nothing happens in fast mode. Otherwise it is triggerAutofocus |
| ControllerSpec.OnTapToFocus | app/src/main/java/com/vandam/zero/camera/CameraController.kt:1366-1446 | Nothing happens in fast mode or without device, session and preview request. A new AF region is the tap's metering rectangle. The AE region changes only when AE regions are supported, and then mirrors the AF region. At most one trigger is sent |
| ControllerSpec.TapSetsRegionWhenSupported | app/src/main/java/com/vandam/zero/camera/CameraController.kt:1366-1446 | With AF regions supported and an active array, a tap sets the AF region to TapFocusRect and sends one trigger |
| ControllerSpec.OnZslFrame | app/src/main/java/com/vandam/zero/camera/CameraController.kt:312-320 | With ZSL on, the new frame replaces the held one and the held one is closed. With ZSL off, the new frame is closed at once |
| ControllerSpec.ZslLatestWins | app/src/main/java/com/vandam/zero/camera/CameraController.kt:312-320 | After two frames the slot holds the second, and the first has been closed |
| ControllerSpec.StillRequest | app/src/main/java/com/vandam/zero/camera/CameraController.kt:602-756 | A request that throws undoes the increment. One that goes out awaits its image |
| ControllerSpec.WithPrecapture | app/src/main/java/com/vandam/zero/camera/CameraController.kt:669-704 | Flash in auto exposure runs the precapture sequence. Without a preview request the capture is abandoned, and its count is never undone. If the precapture throws it falls back to the still request. Otherwise the still request follows directly. The counter invariant is kept |
| ControllerSpec.TakeZslPhoto | app/src/main/java/com/vandam/zero/camera/CameraController.kt:823-855 | A held frame is grabbed and the slot emptied; with an empty slot the capture waits for the retry. The counter is unchanged and stays accounted for |
| ControllerSpec.TakeVanillaJpegPhoto | app/src/main/java/com/vandam/zero/camera/CameraController.kt:651-664 | A missing JPEG reader abandons the capture, and it is then the only path that loses a count. Otherwise the flash precapture or the still request runs on the JPEG path |
| ControllerSpec.TakePhoto | app/src/main/java/com/vandam/zero/camera/CameraController.kt:547-597 | Without device or session nothing happens. Otherwise the counter goes up by one unless the still request fails at once. A capture is lost to the counter exactly on an early return after the increment. A RAW capture without a RAW reader is the MissingRawReader outcome |
| ControllerSpec.TakePhotoNotReady | app/src/main/java/com/vandam/zero/camera/CameraController.kt:553-564 | takePhoto reports not-ready exactly when device or session is missing, and then changes nothing |
| ControllerSpec.TakePhotoZslGrab | app/src/main/java/com/vandam/zero/camera/CameraController.kt:578-584 | The slot is emptied exactly by a ZSL grab of the held frame: JPEG, fast mode, ZSL on and a frame held |
| ControllerSpec.TakePhotoPreservesValid | app/src/main/java/com/vandam/zero/camera/CameraController.kt:547-597 | takePhoto keeps the counter accounted for |
| ControllerSpec.OnPrecaptureCompleted | app/src/main/java/com/vandam/zero/camera/CameraController.kt:677-693 | A finished precapture issues the still request, and a request that throws undoes the count |
| ControllerSpec.OnPrecaptureFailed | app/src/main/java/com/vandam/zero/camera/CameraController.kt:675-695 | A precapture that fails asynchronously has no handler, so its count stays and is lost |
| ControllerSpec.OnCaptureCompleted | app/src/main/java/com/vandam/zero/camera/CameraController.kt:772-800 | Only the held capture result changes, and one is now held |
| ControllerSpec.OnCaptureFailed | app/src/main/java/com/vandam/zero/camera/CameraController.kt:802-813 | A failed still capture decrements the counter once |
| ControllerSpec.OnJpegImage | app/src/main/java/com/vandam/zero/camera/CameraController.kt:985-1023 | The JPEG image decrements the counter once, and is turned grayscale exactly in B/W mode or in the monochrome build |
| ControllerSpec.OnRawImage | app/src/main/java/com/vandam/zero/camera/CameraController.kt:1025-1065 | The DNG is saved exactly when a capture result is held or arrives within the 50 polls. Either way the counter is decremented once |
| ControllerSpec.StaleResultAlwaysSaves | app/src/main/java/com/vandam/zero/camera/CameraController.kt:1031-1035 | Once any capture result is held, every later RAW image is saved without waiting |
| ControllerSpec.ZslRetry | app/src/main/java/com/vandam/zero/camera/CameraController.kt:831-852 | The retry takes the held frame and empties the slot. When there is none it gives up and decrements the counter |
| ControllerSpec.FinishZslCapture | app/src/main/java/com/vandam/zero/camera/CameraController.kt:857-912 | The frame is closed and the counter decremented once. The JPEG is produced exactly when the planes cover the frame and compression works, grayscale in B/W or monochrome, with the EXIF tag of the JPEG orientation |
| ControllerSpec.ApplyPreservesValid | app/src/main/java/com/vandam/zero/camera/CameraController.kt:547-1065 | Every operation and callback keeps the counter invariant, never drives the counter negative, and never recovers a lost capture |
| ControllerSpec.SettingsEventKeepsCaptures | app/src/main/java/com/vandam/zero/camera/CameraController.kt:1244-1361 | Settings, focus, ZSL-frame and lifecycle events leave the capture counts untouched |
| ControllerSpec.CaptureEventPreservesValid | app/src/main/java/com/vandam/zero/camera/CameraController.kt:547-1065 | Capture events keep the counter invariant |
| ControllerSpec.Run | app/src/main/java/com/vandam/zero/camera/CameraController.kt:547-1065 | Any enabled sequence of events keeps the invariant, and the number of lost captures never decreases |
| ControllerSpec.LostCaptureKeepsPending | app/src/main/java/com/vandam/zero/camera/CameraController.kt:1533-1537 | After one lost capture, hasPendingCaptures stays true whatever happens next |
| ControllerSpec.PendingMeansInFlight | app/src/main/java/com/vandam/zero/camera/CameraController.kt:1533-1537 | With no lost captures, hasPendingCaptures holds exactly when some capture is in one of its stages |
| ControllerSpec.ZslCaptureDrains | app/src/main/java/com/vandam/zero/camera/CameraController.kt:823-912 | A ZSL capture with a held frame returns the counter to where it started |
| ControllerSpec.FlashJpegWithoutPreviewRequestLeaks | app/src/main/java/com/vandam/zero/camera/CameraController.kt:669-671 | A flash JPEG in auto exposure with a session but no preview request leaves the counter one higher for good |
| CameraControl.PollForResult | app/src/main/java/com/vandam/zero/camera/CameraController.kt:1031-1035 | The bounded poll finds the capture result exactly when it was already held or arrives within the first 50 polls |
| CameraControl.CameraController.constructor | app/src/main/java/com/vandam/zero/camera/CameraController.kt:50-98 | The fields start as ControllerSpec.Initial |
| CameraControl.CameraController.OpenCamera | app/src/main/java/com/vandam/zero/camera/CameraController.kt:193-327 | Follows ControllerSpec.OpenCamera and keeps the invariant |
| CameraControl.CameraController.OnSessionConfigured | app/src/main/java/com/vandam/zero/camera/CameraController.kt:398-464 | Follows ControllerSpec.OnSessionConfigured |
| CameraControl.CameraController.OnDeviceLost | app/src/main/java/com/vandam/zero/camera/CameraController.kt:358-372 | Follows ControllerSpec.OnDeviceLost |
| CameraControl.CameraController.Shutdown | app/src/main/java/com/vandam/zero/camera/CameraController.kt:1539-1577 | Follows ControllerSpec.Shutdown |
| CameraControl.CameraController.SetInitialOutputFormat | app/src/main/java/com/vandam/zero/camera/CameraController.kt:153-156 | Follows ControllerSpec.SetInitialOutputFormat |
| CameraControl.CameraController.SetOutputFormat | app/src/main/java/com/vandam/zero/camera/CameraController.kt:1301-1311 | Follows ControllerSpec.SetOutputFormat |
| CameraControl.CameraController.SetRotation | app/src/main/java/com/vandam/zero/camera/CameraController.kt:1244-1246 | Follows ControllerSpec.SetRotation |
| CameraControl.CameraController.SetFlashEnabled | app/src/main/java/com/vandam/zero/camera/CameraController.kt:1248-1252 | Follows ControllerSpec.SetFlashEnabled |
| CameraControl.CameraController.SetOisEnabled | app/src/main/java/com/vandam/zero/camera/CameraController.kt:1254-1259 | Follows ControllerSpec.SetOisEnabled |
| CameraControl.CameraController.SetBwMode | app/src/main/java/com/vandam/zero/camera/CameraController.kt:1275-1280 | Follows ControllerSpec.SetBwMode |
| CameraControl.CameraController.SetFastMode | app/src/main/java/com/vandam/zero/camera/CameraController.kt:1282-1299 | Follows ControllerSpec.SetFastMode, closing the held ZSL frame when leaving fast mode |
| CameraControl.CameraController.SetAutoExposure | app/src/main/java/com/vandam/zero/camera/CameraController.kt:1313-1328 | Follows ControllerSpec.SetAutoExposure |
| CameraControl.CameraController.SetExposureCompensation | app/src/main/java/com/vandam/zero/camera/CameraController.kt:1330-1341 | Follows ControllerSpec.SetExposureCompensation |
| CameraControl.CameraController.SetManualExposure | app/src/main/java/com/vandam/zero/camera/CameraController.kt:1343-1361 | Follows ControllerSpec.SetManualExposure |
| CameraControl.CameraController.TriggerAutofocus | app/src/main/java/com/vandam/zero/camera/CameraController.kt:1456-1469 | Follows ControllerSpec.TriggerAutofocus |
| CameraControl.CameraController.TriggerFocus | app/src/main/java/com/vandam/zero/camera/CameraController.kt:1448-1454 | Follows ControllerSpec.TriggerFocus |
| CameraControl.CameraController.OnTapToFocus | app/src/main/java/com/vandam/zero/camera/CameraController.kt:1366-1446 | Follows ControllerSpec.OnTapToFocus |
| CameraControl.CameraController.OnZslFrame | app/src/main/java/com/vandam/zero/camera/CameraController.kt:312-320 | Follows ControllerSpec.OnZslFrame |
| CameraControl.CameraController.TakePhoto | app/src/main/java/com/vandam/zero/camera/CameraController.kt:547-597 | Follows ControllerSpec.TakePhoto and keeps the counter invariant |
| CameraControl.CameraController.TakeZslPhoto | app/src/main/java/com/vandam/zero/camera/CameraController.kt:823-855 | Follows ControllerSpec.TakeZslPhoto |
| CameraControl.CameraController.TakeVanillaJpegPhoto | app/src/main/java/com/vandam/zero/camera/CameraController.kt:651-664 | Follows ControllerSpec.TakeVanillaJpegPhoto |
| CameraControl.CameraController.RunPrecaptureSequenceOrCapture | app/src/main/java/com/vandam/zero/camera/CameraController.kt:669-704 | Follows ControllerSpec.WithPrecapture |
| CameraControl.CameraController.CaptureWithCurrentSettings | app/src/main/java/com/vandam/zero/camera/CameraController.kt:602-756 | Follows ControllerSpec.StillRequest |
| CameraControl.CameraController.OnPrecaptureCompleted | app/src/main/java/com/vandam/zero/camera/CameraController.kt:677-693 | Follows ControllerSpec.OnPrecaptureCompleted |
| CameraControl.CameraController.OnPrecaptureFailed | app/src/main/java/com/vandam/zero/camera/CameraController.kt:675-695 | Follows ControllerSpec.OnPrecaptureFailed |
| CameraControl.CameraController.OnCaptureCompleted | app/src/main/java/com/vandam/zero/camera/CameraController.kt:772-800 | Follows ControllerSpec.OnCaptureCompleted |
| CameraControl.CameraController.OnCaptureFailed | app/src/main/java/com/vandam/zero/camera/CameraController.kt:802-813 | Follows ControllerSpec.OnCaptureFailed |
| CameraControl.CameraController.HandleJpegCapture | app/src/main/java/com/vandam/zero/camera/CameraController.kt:985-1023 | Follows ControllerSpec.OnJpegImage |
| CameraControl.CameraController.HandleRawCapture | app/src/main/java/com/vandam/zero/camera/CameraController.kt:1025-1065 | Follows ControllerSpec.OnRawImage, with the poll as a bounded loop |
| CameraControl.CameraController.ZslRetry | app/src/main/java/com/vandam/zero/camera/CameraController.kt:831-852 | Follows ControllerSpec.ZslRetry |
| CameraControl.CameraController.ProcessZslCapture | app/src/main/java/com/vandam/zero/camera/CameraController.kt:857-912 | Follows ControllerSpec.FinishZslCapture, running the NV21 conversion |
| CameraControl.CameraController.HasPendingCaptures | app/src/main/java/com/vandam/zero/camera/CameraController.kt:1533-1537 | Holds exactly when the counter is positive |
| CameraSliders.AllIsoStepsAscending | app/src/main/java/com/vandam/zero/ui/components/CameraSliders.kt:290 | The ISO table is strictly ascending |
| CameraSliders.AllShutterSpeedsAscending | app/src/main/java/com/vandam/zero/ui/components/CameraSliders.kt:323-341 | The shutter table is strictly ascending |
| CameraSliders.FilterRange | app/src/main/java/com/vandam/zero/ui/components/CameraSliders.kt:292 | `filter { it in range }` keeps exactly the table entries inside the range |
| CameraSliders.FilterRangeAscending | app/src/main/java/com/vandam/zero/ui/components/CameraSliders.kt:292 | Filtering a strictly ascending table keeps it strictly ascending, so table order is kept |
| CameraSliders.AscendingDeterminedByElements | app/src/main/java/com/vandam/zero/ui/components/CameraSliders.kt:292 | Two strictly ascending lists with the same elements are equal |
| CameraSliders.GenerateIsoSteps | app/src/main/java/com/vandam/zero/ui/components/CameraSliders.kt:292 | The ISO steps are strictly ascending and are exactly the table entries in the range |
| CameraSliders.GenerateShutterSteps | app/src/main/java/com/vandam/zero/ui/components/CameraSliders.kt:343 | The shutter steps are strictly ascending and are exactly the table entries in the range |
| CameraSliders.IsoStepsUnique | app/src/main/java/com/vandam/zero/ui/components/CameraSliders.kt:292 | That description determines the ISO steps: any strictly ascending list of the in-range table entries is that list |
| CameraSliders.ShutterStepsUnique | app/src/main/java/com/vandam/zero/ui/components/CameraSliders.kt:343 | The same uniqueness for the shutter steps |
| CameraSliders.NearestIndex | app/src/main/java/com/vandam/zero/ui/components/CameraSliders.kt:319 | `minByOrNull { abs(it - v) }` picks a step at least as near as every other and strictly nearer than every step before it |
| CameraSliders.SnapToNearest | app/src/main/java/com/vandam/zero/ui/components/CameraSliders.kt:316-319 | snapToNearestIso and snapToNearestShutter (363-366): the value itself without steps. Otherwise a step nearest to the value, the first one on a tie |
| CameraSliders.SnapIdempotent | app/src/main/java/com/vandam/zero/ui/components/CameraSliders.kt:363-366 | A value that is a step snaps to itself, and snapping twice is snapping once |
| CameraSliders.PositionToShutter | app/src/main/java/com/vandam/zero/ui/components/CameraSliders.kt:345-352 | 16 666 666 ns without steps. Otherwise always one of the steps |
| CameraSliders.PositionIndex | app/src/main/java/com/vandam/zero/ui/components/CameraSliders.kt:350 | The truncated and clamped index lies in [0, size − 1] |
| CameraSliders.ClampedTruncation | app/src/main/java/com/vandam/zero/ui/components/CameraSliders.kt:350 | `toInt().coerceIn(0, hi)` lies in [0, hi] |
| CameraSliders.PositionToShutterMonotone | app/src/main/java/com/vandam/zero/ui/components/CameraSliders.kt:345-352 | Over ascending steps, moving the slider right never gives a shorter exposure |
| CameraSliders.IndexOfFirstAtLeast | app/src/main/java/com/vandam/zero/ui/components/CameraSliders.kt:359 | `indexOfFirst { it >= shutter }`: the first step at least the shutter speed, or −1 when every step is shorter |
| CameraSliders.ShutterToPosition | app/src/main/java/com/vandam/zero/ui/components/CameraSliders.kt:354-361 | The position lies in [0, 1], and is 0.5 with at most one step |
| CameraSliders.PositionOfStepRoundTrip | app/src/main/java/com/vandam/zero/ui/components/CameraSliders.kt:345-361 | Over ascending steps, the position of a step maps back to that same step |
| ViewModelSpec.Initial | app/src/main/java/com/vandam/zero/CameraViewModel.kt:393-442 | A fresh view model is JPEG, not in fast mode, with preview on, auto exposure, no panel, no capture, no formats and no controller |
| ViewModelSpec.Send | app/src/main/java/com/vandam/zero/CameraViewModel.kt:296-304 | `cameraController?.f(...)`: the calls are appended exactly when a controller is attached |
| ViewModelSpec.TogglePanel | app/src/main/java/com/vandam/zero/CameraViewModel.kt:258-283 | The panel closes exactly when it was the open one. Otherwise it opens, and nothing but the slider changes |
| ViewModelSpec.TogglePanelTwice | app/src/main/java/com/vandam/zero/CameraViewModel.kt:258-283 | From no panel or from that panel, toggling twice returns to the start |
| ViewModelSpec.TogglePanelSwitches | app/src/main/java/com/vandam/zero/CameraViewModel.kt:258-283 | Toggling another panel switches to it, and toggling it again closes all |
| ViewModelSpec.CloseAllPanels | app/src/main/java/com/vandam/zero/CameraViewModel.kt:337-339 | No panel is open and nothing else changes |
| ViewModelSpec.SetExposureMode | app/src/main/java/com/vandam/zero/CameraViewModel.kt:295-305 | The mode is stored, the slider closes, and the controller gets auto exposure with the stored EV, or manual exposure with the stored ISO and shutter |
| ViewModelSpec.ToggleExposureMode | app/src/main/java/com/vandam/zero/CameraViewModel.kt:285-293 | The mode flips and the slider closes |
| ViewModelSpec.ToggleExposureModeTwice | app/src/main/java/com/vandam/zero/CameraViewModel.kt:285-305 | Toggling twice restores the exposure state, except that the panels are closed |
| ViewModelSpec.SetExposureValue | app/src/main/java/com/vandam/zero/CameraViewModel.kt:307-311 | The stored EV is clamped to [−2, 2], and the controller gets the unclamped argument |
| ViewModelSpec.SetIsoValue | app/src/main/java/com/vandam/zero/CameraViewModel.kt:313-317 | The stored ISO is clamped to [100, 3200], and the controller gets the unclamped ISO with the stored shutter |
| ViewModelSpec.SetShutterSpeed | app/src/main/java/com/vandam/zero/CameraViewModel.kt:319-323 | The shutter is stored, and the controller gets manual exposure with the stored ISO |
| ViewModelSpec.SetIsoValueStoresFixpoint | app/src/main/java/com/vandam/zero/CameraViewModel.kt:313-317 | Setting the stored ISO again leaves the stored exposure as it is |
| ViewModelSpec.ToggleFlash | app/src/main/java/com/vandam/zero/CameraViewModel.kt:211-218 | Nothing happens in fast mode. Otherwise the flash flips and the controller is told |
| ViewModelSpec.TogglePreview | app/src/main/java/com/vandam/zero/CameraViewModel.kt:197-201 | Only the preview flag flips |
| ViewModelSpec.ToggleColorMode | app/src/main/java/com/vandam/zero/CameraViewModel.kt:542-552 | Nothing happens while busy or in RAW. Otherwise the colour mode flips, B/W equals it, and the controller is told |
| ViewModelSpec.IndexOf | app/src/main/java/com/vandam/zero/CameraViewModel.kt:485 | Kotlin `indexOf`: the first index holding the value, or −1 exactly when it is absent |
| ViewModelSpec.IndexOfDistinct | app/src/main/java/com/vandam/zero/CameraViewModel.kt:485 | In a list without repeats, the index of the element at k is k |
| ViewModelSpec.CurrentOption | app/src/main/java/com/vandam/zero/CameraViewModel.kt:480-484 | The selected option is HF in fast mode, and the output format otherwise |
| ViewModelSpec.NextOption | app/src/main/java/com/vandam/zero/CameraViewModel.kt:485-487 | The next option is a listed one, the one after the current option with wrap-around. An unlisted current option counts as index 0 |
| ViewModelSpec.NextOptionAt | app/src/main/java/com/vandam/zero/CameraViewModel.kt:485-487 | In a list without repeats, the option after index j is at index j + 1, wrapping |
| ViewModelSpec.LeaveFastMode | app/src/main/java/com/vandam/zero/CameraViewModel.kt:508-512 | Leaving fast mode ends it and brings back the saved preview flag |
| ViewModelSpec.ToggleOutputFormat | app/src/main/java/com/vandam/zero/CameraViewModel.kt:473-534 | Nothing happens while busy or with no formats. It never touches the format list, the busy flags, the exposure state or the rotation |
| ViewModelSpec.ToggleOutputFormatAdvances | app/src/main/java/com/vandam/zero/CameraViewModel.kt:473-487 | The option selected afterwards is the next one in the list |
| ViewModelSpec.ToggleOutputFormatEffects | app/src/main/java/com/vandam/zero/CameraViewModel.kt:489-531 | HF enters fast mode with JPEG and no flash, saving the format and preview flag. RAW leaves fast mode with B/W off. Leaving fast mode restores the preview flag. Another format applies the colour mode |
| ViewModelSpec.PressTraceWalks | app/src/main/java/com/vandam/zero/CameraViewModel.kt:473-534 | Along presses over options without repeats, the k-th press selects the option k places on, wrapping |
| ViewModelSpec.PressTraceReturns | app/src/main/java/com/vandam/zero/CameraViewModel.kt:473-534 | As many presses as options bring back the starting option |
| ViewModelSpec.PressTraceReaches | app/src/main/java/com/vandam/zero/CameraViewModel.kt:473-534 | The cycle selects every listed option on the way |
| ViewModelSpec.SetOutputFormatDirect | app/src/main/java/com/vandam/zero/CameraViewModel.kt:536-540 | The format is stored and forwarded as given |
| ViewModelSpec.ToggleFastModeAsWritten | app/src/main/java/com/vandam/zero/CameraViewModel.kt:682-709 | toggleFastMode as written: nothing happens while busy. Enabling saves the state and sets JPEG with B/W off; disabling restores the saved format and leaves B/W as it is |
| ViewModelSpec.ToggleFastMode | app/src/main/java/com/vandam/zero/CameraViewModel.kt:682-709 | The corrected toggle: leaving fast mode back into RAW also turns B/W off. Every other case is as written |
| ViewModelSpec.ToggleFastModeRoundTrip | app/src/main/java/com/vandam/zero/CameraViewModel.kt:682-709 | In both versions, entering and leaving fast mode restores the output format and the preview flag |
| ViewModelSpec.GetFormatName | app/src/main/java/com/vandam/zero/CameraViewModel.kt:556-567 | "HF" whenever fast mode is on. "JPG", "RAW" and "HF" for their codes, and "???" for anything else |
| ViewModelSpec.FormatNameOfCurrentOption | app/src/main/java/com/vandam/zero/CameraViewModel.kt:556-567 | The label of the selected option is the label of the format in the current fast mode |
| ViewModelSpec.OrderFormats | app/src/main/java/com/vandam/zero/CameraViewModel.kt:419-432 | With JPEG offered the list is JPG, HF and RAW when offered, without repeats. Without JPEG the list passes unchanged |
| ViewModelSpec.OrderedControllerFormats | app/src/main/java/com/vandam/zero/CameraViewModel.kt:419-432 | The controller's formats become exactly [JPG, HF] or [JPG, HF, RAW], each with its own label and none shown as "???" |
| ViewModelSpec.OnFormatsAvailable | app/src/main/java/com/vandam/zero/CameraViewModel.kt:419-432 | The ordered list is stored |
| ViewModelSpec.BindCamera | app/src/main/java/com/vandam/zero/CameraViewModel.kt:393-416 | A controller is attached. Fast mode forces JPEG, B/W follows the colour mode except in RAW, and the controller gets format, flash, B/W and fast mode in that order |
| ViewModelSpec.OnCameraReady | app/src/main/java/com/vandam/zero/CameraViewModel.kt:434-440 | The stored auto or manual exposure is pushed to the controller |
| ViewModelSpec.RotationFor | app/src/main/java/com/vandam/zero/CameraViewModel.kt:454-460 | The bucket is always one of the four rotations: 45..134 is ROTATION_270, 135..224 is ROTATION_180, 225..314 is ROTATION_90, and anything else is ROTATION_0 |
| ViewModelSpec.RotationUndoesOrientation | app/src/main/java/com/vandam/zero/CameraViewModel.kt:454-460 | For an angle in [0, 360) the bucket is the quarter turn that brings the angle within 45° of upright, and it is the only one strictly within 45° |
| ViewModelSpec.OnOrientationChanged | app/src/main/java/com/vandam/zero/CameraViewModel.kt:449-467 | An unknown orientation is ignored. The controller is told the new bucket exactly when it changed and a controller is attached |
| ViewModelSpec.OnShutterButtonPress | app/src/main/java/com/vandam/zero/CameraViewModel.kt:569-578 | Nothing happens without a controller or with captures pending. Otherwise capturing begins and the controller takes a photo |
| ViewModelSpec.ShutterIgnoredWhilePending | app/src/main/java/com/vandam/zero/CameraViewModel.kt:569-574 | A second press while the controller has captures pending changes nothing |
| ViewModelSpec.OnCaptureStarted | app/src/main/java/com/vandam/zero/CameraViewModel.kt:604-608 | Capturing ends and saving begins |
| ViewModelSpec.OnPreviewReady | app/src/main/java/com/vandam/zero/CameraViewModel.kt:609-617 | Saving ends on the fast path, and on the usual path unless the format is RAW |
| ViewModelSpec.OnCaptureCompleteAsWritten | app/src/main/java/com/vandam/zero/CameraViewModel.kt:618-628 | As written: saving ends on the usual path only for a RAW capture that returned a URI |
| ViewModelSpec.OnCaptureComplete | app/src/main/java/com/vandam/zero/CameraViewModel.kt:594-628 | The corrected callback: onComplete ends the capture, so afterwards the view model is neither capturing nor saving. Once the capture has started it agrees with the code unless saving is still on without a usual-path RAW URI |
| ViewModelSpec.CallbacksOf | app/src/main/java/com/vandam/zero/camera/CameraController.kt:553-1062 | Every way the controller finishes a capture fires onComplete last: not ready and a throwing request fire only onComplete(null); a failed capture fires onPreviewReady(null) first; an empty ZSL retry fires only onComplete(null); a failed ZSL compression fires onCaptureStarted first; a delivered image fires started, preview and complete |
| ViewModelSpec.CaptureCallbacksEndSaving | app/src/main/java/com/vandam/zero/CameraViewModel.kt:578-632 | With the corrected callback, every ending in CallbacksOf leaves the view model neither capturing nor saving, on either path and from any state |
| ViewModelSpec.CorrectionKeepsDeliveredCaptures | app/src/main/java/com/vandam/zero/CameraViewModel.kt:578-632 | For a delivered image the correction changes nothing, except for a usual-path RAW capture that came back without a URI |
| ViewModelSpec.BusyBlocksModeToggles | app/src/main/java/com/vandam/zero/CameraViewModel.kt:473-552 | While capturing or saving, toggleOutputFormat, toggleColorMode and toggleFastMode (both versions) change nothing |
| ViewModelSpec.RawWithoutUriStaysSaving | app/src/main/java/com/vandam/zero/CameraViewModel.kt:609-628 | As written, a RAW capture delivered without a DNG leaves the view model saving, so the format, colour and fast-mode toggles are all dead |
| ViewModelSpec.CompletionAloneLeavesCapturing | app/src/main/java/com/vandam/zero/CameraViewModel.kt:577-628 | As written, after a press, an ending that fires only onComplete (camera not ready, request threw, empty ZSL retry) leaves the view model capturing on either path, with the mode toggles dead |
| ViewModelSpec.ZslConversionFailureStaysSaving | app/src/main/java/com/vandam/zero/CameraViewModel.kt:581-598 | As written, a fast-path capture whose frame fails to compress ends with saving on, because the fast path's onComplete does nothing |
| ViewModelSpec.OnPause | app/src/main/java/com/vandam/zero/CameraViewModel.kt:713-717 | The controller is shut down and detached, and nothing else changes |
| ViewModelSpec.ToggleFastModeAsWrittenBreaksRawIsRgb | app/src/main/java/com/vandam/zero/CameraViewModel.kt:699-706 | As written, RAW → fast mode → colour toggle → leave fast mode ends in RAW with B/W on |
| ViewModelSpec.StepPreservesRawIsRgb | app/src/main/java/com/vandam/zero/CameraViewModel.kt:473-709 | With the corrected toggle, every action keeps RAW in colour (B/W off) |
| ViewModelSpec.RunPreservesRawIsRgb | app/src/main/java/com/vandam/zero/CameraViewModel.kt:473-709 | Every sequence of actions keeps RAW in colour |
| ViewModel.CameraViewModel.constructor | app/src/main/java/com/vandam/zero/CameraViewModel.kt:393-442 | The fields start as ViewModelSpec.Initial |
| ViewModel.CameraViewModel.Call | app/src/main/java/com/vandam/zero/CameraViewModel.kt:296-304 | One `cameraController?.f(...)` call, appended only with a controller |
| ViewModel.CameraViewModel.CallAll | app/src/main/java/com/vandam/zero/CameraViewModel.kt:501-504 | Several such calls in order |
| ViewModel.CameraViewModel.ToggleExposurePanel | app/src/main/java/com/vandam/zero/CameraViewModel.kt:258-265 | Follows ViewModelSpec.TogglePanel with the exposure panel |
| ViewModel.CameraViewModel.ToggleIsoPanel | app/src/main/java/com/vandam/zero/CameraViewModel.kt:267-274 | Follows ViewModelSpec.TogglePanel with the ISO panel |
| ViewModel.CameraViewModel.ToggleShutterPanel | app/src/main/java/com/vandam/zero/CameraViewModel.kt:276-283 | Follows ViewModelSpec.TogglePanel with the shutter panel |
| ViewModel.CameraViewModel.CloseAllPanels | app/src/main/java/com/vandam/zero/CameraViewModel.kt:337-339 | Follows ViewModelSpec.CloseAllPanels |
| ViewModel.CameraViewModel.ToggleExposureMode | app/src/main/java/com/vandam/zero/CameraViewModel.kt:285-293 | Follows ViewModelSpec.ToggleExposureMode |
| ViewModel.CameraViewModel.SetExposureMode | app/src/main/java/com/vandam/zero/CameraViewModel.kt:295-305 | Follows ViewModelSpec.SetExposureMode |
| ViewModel.CameraViewModel.SetExposureValue | app/src/main/java/com/vandam/zero/CameraViewModel.kt:307-311 | Follows ViewModelSpec.SetExposureValue |
| ViewModel.CameraViewModel.SetIsoValue | app/src/main/java/com/vandam/zero/CameraViewModel.kt:313-317 | Follows ViewModelSpec.SetIsoValue |
| ViewModel.CameraViewModel.SetShutterSpeed | app/src/main/java/com/vandam/zero/CameraViewModel.kt:319-323 | Follows ViewModelSpec.SetShutterSpeed |
| ViewModel.CameraViewModel.ResetExposureToDefault | app/src/main/java/com/vandam/zero/CameraViewModel.kt:325-327 | setExposureValue(0) |
| ViewModel.CameraViewModel.ResetIsoToDefault | app/src/main/java/com/vandam/zero/CameraViewModel.kt:329-331 | setIsoValue(400) |
| ViewModel.CameraViewModel.ResetShutterSpeedToDefault | app/src/main/java/com/vandam/zero/CameraViewModel.kt:333-335 | setShutterSpeed(16 666 666 ns) |
| ViewModel.CameraViewModel.ToggleFlash | app/src/main/java/com/vandam/zero/CameraViewModel.kt:211-218 | Follows ViewModelSpec.ToggleFlash |
| ViewModel.CameraViewModel.TogglePreview | app/src/main/java/com/vandam/zero/CameraViewModel.kt:197-201 | Follows ViewModelSpec.TogglePreview |
| ViewModel.CameraViewModel.ToggleColorMode | app/src/main/java/com/vandam/zero/CameraViewModel.kt:542-552 | Follows ViewModelSpec.ToggleColorMode |
| ViewModel.CameraViewModel.LeaveFastMode | app/src/main/java/com/vandam/zero/CameraViewModel.kt:508-512 | Follows ViewModelSpec.LeaveFastMode |
| ViewModel.CameraViewModel.ToggleOutputFormat | app/src/main/java/com/vandam/zero/CameraViewModel.kt:473-534 | Follows ViewModelSpec.ToggleOutputFormat |
| ViewModel.CameraViewModel.SetOutputFormat | app/src/main/java/com/vandam/zero/CameraViewModel.kt:536-540 | Follows ViewModelSpec.SetOutputFormatDirect |
| ViewModel.CameraViewModel.ToggleFastMode | app/src/main/java/com/vandam/zero/CameraViewModel.kt:682-709 | Follows the corrected ViewModelSpec.ToggleFastMode; it differs from the code only when leaving fast mode back into RAW (B/W turned off) |
| ViewModel.CameraViewModel.BindCamera | app/src/main/java/com/vandam/zero/CameraViewModel.kt:393-416 | Follows ViewModelSpec.BindCamera |
| ViewModel.CameraViewModel.OnFormatsAvailable | app/src/main/java/com/vandam/zero/CameraViewModel.kt:419-432 | Follows ViewModelSpec.OnFormatsAvailable |
| ViewModel.CameraViewModel.OnCameraReady | app/src/main/java/com/vandam/zero/CameraViewModel.kt:434-440 | Follows ViewModelSpec.OnCameraReady |
| ViewModel.CameraViewModel.OnOrientationChanged | app/src/main/java/com/vandam/zero/CameraViewModel.kt:449-467 | Follows ViewModelSpec.OnOrientationChanged |
| ViewModel.CameraViewModel.OnShutterButtonPress | app/src/main/java/com/vandam/zero/CameraViewModel.kt:569-578 | Follows ViewModelSpec.OnShutterButtonPress |
| ViewModel.CameraViewModel.OnCaptureStarted | app/src/main/java/com/vandam/zero/CameraViewModel.kt:604-608 | Follows ViewModelSpec.OnCaptureStarted |
| ViewModel.CameraViewModel.OnPreviewReady | app/src/main/java/com/vandam/zero/CameraViewModel.kt:609-617 | Follows ViewModelSpec.OnPreviewReady |
| ViewModel.CameraViewModel.OnCaptureComplete | app/src/main/java/com/vandam/zero/CameraViewModel.kt:618-628 | Follows the corrected ViewModelSpec.OnCaptureComplete; it differs from the code wherever onComplete arrives while the view model is still capturing or saving |
| ViewModel.CameraViewModel.OnPause | app/src/main/java/com/vandam/zero/CameraViewModel.kt:713-717 | Follows ViewModelSpec.OnPause |

## Left out

- ControllerSpec.OpenCamera: always succeeds. The return when no back-facing camera exists (CameraController.kt:204-207) and the RuntimeException when the open lock times out (CameraController.kt:242-244) are not modelled; both leave the controller without a device, which the model's other operations already handle.
- **Camera2 plumbing.** The device, the session, the readers and the preview request are presence flags. Opening, configuring and rebuilding them are single transitions. Request builders, surfaces, handlers and the camera-open semaphore are left out.
- **I/O.** Storage is left out: MediaStore, `DngCreator`, EXIF writing, and the DNG thumbnail. So are JPEG encoding (`yuvToJpeg`), grayscale conversion and bitmap decoding. Encoding is reduced to a success flag. Grayscale conversion is reduced to the decision to convert. Decoding is reduced to the sample size.
- **Concurrency and time.** Coroutines, the background thread, the `synchronized` blocks, the 100 ms ZSL retry delay and the 10 ms poll delay are left out. Operations are sequential, and the retry and the poll act on given arrivals.
- **Only some precapture request settings are modelled.** The precapture sequence's own AE-mode and trigger settings, and the other fixed request settings, are not. Of the settings applied to every request, only the exposure branch and OIS are modelled. For still requests, the flash, region, hyperfocal and orientation choices are also modelled.
- **The view model's outside inputs.** The view model's SharedPreferences loading and saving, toasts, grid, red mode, viewfinder hiding, benchmarks, crosshair and focus-button memory are left out. So are the captured bitmaps and the registration of the orientation listener.
- **The controller probe.** The view model's one-line `hasPendingCaptures` is not a member; the controller's pending flag is a parameter of the shutter press. `isRawMode` is the predicate `ViewModel.CameraViewModel.IsRawMode` over the fields, with no contract of its own.
- **The slider position mapping.** `positionToIso` and `isoToPosition` (log2 and pow over Double), `formatShutterSpeed` (Double division) and the composable slider bodies are left out, along with their `lastSnappedValue`.
- **Integer width.** Kotlin `Int` and `Long` overflow is not modelled. Every value is an unbounded integer.
- **Float as real.** Kotlin `Float` arithmetic is exact real arithmetic. Infinity and NaN arise in the model only where a zero compensation step divides: EcIndex saturates for a non-zero EV and gives 0 for 0/0. chooseOptimalPreviewSize compares Double aspect ratios; the model compares the same ratios exactly as reals, and a zero-height preview size never counts as suitable. All float→int conversions truncate toward zero.
- ControllerSpec.OnTapToFocus: requires a positive view width and height. A zero-size view would divide by zero in Float, and this is not modelled.
- YuvConversion.Yuv420ToNv21: requires the framework's frame layout: non-negative size and positive strides. For an odd width, the tail bytes of the NV21 chroma rows and any padding the output keeps beyond w·h/2 are left as zero, the same as in the source. The contract does not state that they are zero.
- **lastCaptureResult is never cleared.** The code sets it on every completed capture and never resets it, so a later RAW capture can be saved with an earlier capture's metadata. The model keeps this behaviour, and StaleResultAlwaysSaves states its consequence.
- **Counts the source loses.** The early returns in `takeVanillaJpegPhoto` and `runPrecaptureSequence`, and a precapture that fails without a callback, leave the pending counter raised. The model reproduces this through the `leaked` count instead of proving that the counter always drains.
- **The RAW reader crash.** Without a RAW reader, `rawImageReader!!` in `takePhoto` throws after the increment. The model reports this path as the MissingRawReader outcome with the count lost.
- **The preview target size.** `chooseOptimalPreviewSize`'s target view size is not a parameter, because the source does not use it.
- ViewModel.CameraViewModel.ToggleFastMode: runs the corrected transition. It differs from CameraViewModel.kt:699-706 on exactly one input: leaving fast mode when the saved format is RAW, where the code keeps B/W as the colour mode set it and the model turns it off. ToggleFastModeAsWritten is the code as written.
- ViewModel.CameraViewModel.OnCaptureComplete: runs the corrected transition. It differs from CameraViewModel.kt:594 and 618-628 whenever onComplete arrives while the view model is still capturing, or still saving without a usual-path RAW URI. In those cases the code keeps the flag on and the model clears both. OnCaptureCompleteAsWritten is the code as written.
- **Endings without a callback.** The captures the controller loses (no JPEG reader, no preview request for the precapture, a precapture that fails without a callback) fire no callback at all. The view model then stays capturing, as LostCaptureKeepsPending predicts for the counter, and CallbacksOf does not list them.
- ViewModelSpec.StepPreservesRawIsRgb: the event system does not contain the view model's public `setOutputFormat`. It stores any format without touching B/W, and the invariant is stated for the toggles and callbacks only.

## Findings

| source | as written | input that shows it | evidently intended | confidence | as-written member | corrected member |
|---|---|---|---|---|---|---|
| app/src/main/java/com/vandam/zero/CameraViewModel.kt:699-706 | Leaving fast mode restores the saved format without touching B/W, so a return to RAW keeps whatever B/W the colour mode set while in fast mode | In RAW: toggleFastMode, then toggleColorMode (allowed, since fast mode is JPEG), then toggleFastMode. RAW is back with B/W on | RAW is always RGB: leaving fast mode into RAW turns B/W off, as toggleOutputFormat does on choosing RAW | not executed | ViewModelSpec.ToggleFastModeAsWrittenBreaksRawIsRgb | ViewModelSpec.RunPreservesRawIsRgb |
| app/src/main/java/com/vandam/zero/CameraViewModel.kt:618-628 | On the usual path a RAW capture ends saving only when onComplete brings a URI. When the capture result does not arrive within the poll, the controller completes with none (CameraController.kt:1037-1044) and saving stays on | RAW format, usual path: onCaptureStarted, onPreviewReady, onComplete(null). isSaving stays true, and the format, colour and fast-mode toggles then do nothing | Every finished RAW capture ends saving, with or without a DNG | not executed | ViewModelSpec.RawWithoutUriStaysSaving | ViewModelSpec.CaptureCallbacksEndSaving |
| app/src/main/java/com/vandam/zero/CameraViewModel.kt:577-628 | The press sets isCapturing, and only onCaptureStarted clears it. The controller fires onComplete(null) alone when the camera is not ready (CameraController.kt:553-564), when the still request throws (641-644, 751-754) and when the ZSL retry finds no frame (845-849) | With a controller but no open session: onShutterButtonPress. The controller answers onComplete(null), isCapturing stays true, and the format, colour and fast-mode toggles do nothing until a later capture starts | Every finished capture, successful or not, leaves the view model idle | not executed | ViewModelSpec.CompletionAloneLeavesCapturing | ViewModelSpec.CaptureCallbacksEndSaving |
| app/src/main/java/com/vandam/zero/CameraViewModel.kt:581-598 | On the fast path only onPreviewReady ends saving, and onComplete does nothing. When the ZSL frame cannot be compressed, the controller fires onCaptureStarted and then onComplete(null) (CameraController.kt:861-876) | Fast mode: onShutterButtonPress with the compressor failing. onCaptureStarted sets isSaving, onComplete(null) leaves it, and the toggles do nothing from then on | The fast path's completion ends saving too | not executed | ViewModelSpec.ZslConversionFailureStaysSaving | ViewModelSpec.CaptureCallbacksEndSaving |

