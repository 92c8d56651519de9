/**
 * The state of the capture controller (camera/CameraController.kt) as a
 * value, and each of its operations and camera callbacks as a transition on
 * that value. The class in CameraControl is proved to follow these
 * transitions; the lemmas here state what the transitions promise: the
 * setters' guards and clamps, "latest wins" for the zero-shutter-lag (ZSL)
 * slot, and the accounting of the pending-capture counter.
 *
 * The counter is accounted for by five stage counts that the source does
 * not keep: still requests awaiting their image or failure, precapture
 * sequences awaiting their result, ZSL grabs waiting for the retry, ZSL
 * frames being converted, and captures whose increment is never undone
 * (the early returns and the unhandled precapture failure).
 */
module ControllerSpec {
  import opened Numerics
  import opened CaptureMath
  import opened YuvConversion

  /** The user-visible settings the controller keeps. */
  datatype Settings = Settings(
    outputFormat: int,
    flash: bool,
    bw: bool,
    fast: bool,
    ois: bool,
    autoExposure: bool,
    ecIndex: int,
    manualIso: int,
    manualExposureNs: int,
    rotation: int)

  /** Which camera objects exist: the device, the session, the preview request and the three readers. */
  datatype Hardware = Hardware(
    device: bool,
    session: bool,
    previewRequest: bool,
    jpegReader: bool,
    rawReader: bool,
    zslReader: bool)

  /** The metering regions on the preview request and the number of AF triggers sent. */
  datatype Focus = Focus(afRegion: Option<Rect>, aeRegion: Option<Rect>, afTriggers: int)

  /** The pending-capture counter and the stages that account for it. */
  datatype Captures = Captures(
    pending: int,
    stills: int,
    precaptures: int,
    zslWaiting: int,
    zslConverting: int,
    leaked: int)

  /** The ZSL slot: whether frames are kept, the frame held, and the frames closed so far. */
  datatype ZslSlot = ZslSlot(enabled: bool, latest: Option<YuvFrame>, closed: seq<YuvFrame>)

  datatype ControllerState = ControllerState(
    monoFlavor: bool,
    caps: Capabilities,
    settings: Settings,
    hw: Hardware,
    focus: Focus,
    captures: Captures,
    hasCaptureResult: bool,
    zsl: ZslSlot)

  const DefaultExposureTimeNs: int := 16_666_666

  const InitialSettings: Settings :=
    Settings(OutputFormatJpeg, false, false, false, true, true, 0, 400, DefaultExposureTimeNs, 0)

  const NoHardware: Hardware := Hardware(false, false, false, false, false, false)

  /** A fresh controller: JPEG, flash off, OIS on, auto exposure, ISO 400, 1/60 s, nothing open. */
  function Initial(monoFlavor: bool): (s: ControllerState)
    ensures Valid(s) && s.captures.pending == 0 && !HasPendingCaptures(s)
    ensures s.settings.outputFormat == OutputFormatJpeg && s.settings.ois && s.settings.autoExposure
  {
    InitialCapabilitiesWellFormed();
    ControllerState(monoFlavor, InitialCapabilities, InitialSettings, NoHardware,
                    Focus(None, None, 0), Captures(0, 0, 0, 0, 0, 0), false, ZslSlot(false, None, []))
  }

  /**
   * The counter equals the captures in flight, by stage, plus the lost
   * ones, and no stage count is negative.
   */
  predicate CountsValid(c: Captures)
  {
    && c.stills >= 0 && c.precaptures >= 0 && c.zslWaiting >= 0
    && c.zslConverting >= 0 && c.leaked >= 0
    && c.pending == c.stills + c.precaptures + c.zslWaiting + c.zslConverting + c.leaked
  }

  /** The controller invariant: well-formed capabilities and an accounted counter. */
  predicate Valid(s: ControllerState)
  {
    WellFormed(s.caps) && CountsValid(s.captures)
  }

  /** Closing the image held in the slot, if any. */
  function Release(closed: seq<YuvFrame>, held: Option<YuvFrame>): (r: seq<YuvFrame>)
    ensures held.None? ==> r == closed
    ensures held.Some? ==> r == closed + [held.value]
  {
    if held.Some? then closed + [held.value] else closed
  }

  /** Emptying the slot and closing what it held. */
  function DrainSlot(z: ZslSlot): (r: ZslSlot)
    ensures !r.enabled && r.latest.None? && r.closed == Release(z.closed, z.latest)
  {
    ZslSlot(false, None, Release(z.closed, z.latest))
  }

  // ---------------------------------------------------------------------
  // Camera lifecycle
  // ---------------------------------------------------------------------

  /**
   * openCamera and the device's onOpened callback: the capabilities are
   * read (RAW only when the device has RAW sizes and this is not the
   * monochrome build), the image readers are created (a RAW reader only
   * when RAW is supported; an earlier one is kept), and the device is open.
   * The formats reported are JPEG, then RAW when supported.
   */
  function OpenCamera(s: ControllerState, c: Capabilities, rawSizesAvailable: bool): (r: (ControllerState, seq<int>))
    ensures r.0.caps.supportsRaw <==> rawSizesAvailable && !s.monoFlavor
    ensures r.0.caps.(supportsRaw := c.supportsRaw) == c
    ensures r.1 == AvailableFormats(r.0.caps.supportsRaw)
    ensures r.0.hw.device && r.0.hw.jpegReader && r.0.hw.zslReader
    ensures r.0.hw.rawReader <==> s.hw.rawReader || r.0.caps.supportsRaw
    ensures r.0.hw.session == s.hw.session && r.0.hw.previewRequest == s.hw.previewRequest
    ensures r.0.(caps := s.caps, hw := s.hw) == s
  {
    var supportsRaw := rawSizesAvailable && !s.monoFlavor;
    var hw := s.hw.(device := true, jpegReader := true, rawReader := s.hw.rawReader || supportsRaw, zslReader := true);
    (s.(caps := c.(supportsRaw := supportsRaw), hw := hw), AvailableFormats(supportsRaw))
  }

  /**
   * onConfigured followed by startPreview: with a device open the session is
   * stored, a fresh preview request is built (so it carries no tap-to-focus
   * regions), and ZSL is enabled exactly when fast mode is on and the ZSL
   * reader exists.
   */
  function OnSessionConfigured(s: ControllerState): (r: ControllerState)
    ensures !s.hw.device ==> r == s
    ensures s.hw.device ==> r.hw.session && r.hw.previewRequest
    ensures s.hw.device ==> (r.zsl.enabled <==> s.settings.fast && s.hw.zslReader)
    ensures s.hw.device ==> r.focus == Focus(None, None, s.focus.afTriggers)
    ensures r.zsl.(enabled := s.zsl.enabled) == s.zsl
    ensures r.(hw := s.hw, zsl := s.zsl, focus := s.focus) == s
  {
    if !s.hw.device then s
    else s.(hw := s.hw.(session := true, previewRequest := true),
            zsl := s.zsl.(enabled := s.settings.fast && s.hw.zslReader),
            focus := Focus(None, None, s.focus.afTriggers))
  }

  /** onDisconnected / onError: the device is gone; the session object is not cleared. */
  function OnDeviceLost(s: ControllerState): (r: ControllerState)
    ensures !r.hw.device && r.hw.(device := s.hw.device) == s.hw
    ensures r.(hw := s.hw) == s
  {
    s.(hw := s.hw.(device := false))
  }

  /**
   * shutdown: the held ZSL image is closed, ZSL is disabled and the session,
   * device and readers are released. The counter and the stale preview
   * request are left as they are.
   */
  function Shutdown(s: ControllerState): (r: ControllerState)
    ensures r.zsl.latest.None? && !r.zsl.enabled && r.zsl.closed == Release(s.zsl.closed, s.zsl.latest)
    ensures !r.hw.device && !r.hw.session && !r.hw.jpegReader && !r.hw.rawReader && !r.hw.zslReader
    ensures r.hw.previewRequest == s.hw.previewRequest
    ensures r.(hw := s.hw, zsl := s.zsl) == s
  {
    s.(zsl := DrainSlot(s.zsl), hw := NoHardware.(previewRequest := s.hw.previewRequest))
  }

  // ---------------------------------------------------------------------
  // Setters
  // ---------------------------------------------------------------------

  /** setInitialOutputFormat stores the format with no check against the device. */
  function SetInitialOutputFormat(s: ControllerState, format: int): (r: ControllerState)
    ensures r.settings.outputFormat == format
    ensures r.settings.(outputFormat := s.settings.outputFormat) == s.settings
    ensures r.(settings := s.settings) == s
  {
    s.(settings := s.settings.(outputFormat := format))
  }

  /**
   * setOutputFormat: the same format is a no-op, RAW on a device without RAW
   * support is ignored, anything else is stored.
   */
  function SetOutputFormat(s: ControllerState, format: int): (r: ControllerState)
    ensures r == s <==> format == s.settings.outputFormat || (format == OutputFormatRaw && !s.caps.supportsRaw)
    ensures r != s ==> r == SetInitialOutputFormat(s, format)
  {
    if s.settings.outputFormat == format then s
    else if format == OutputFormatRaw && !s.caps.supportsRaw then s
    else SetInitialOutputFormat(s, format)
  }

  /** Asking for the same format twice is asking once. */
  lemma SetOutputFormatIdempotent(s: ControllerState, format: int)
    ensures SetOutputFormat(SetOutputFormat(s, format), format) == SetOutputFormat(s, format)
  {
  }

  /** A device without RAW support never enters RAW through setOutputFormat. */
  lemma SetOutputFormatNeverEntersUnsupportedRaw(s: ControllerState, format: int)
    requires !s.caps.supportsRaw && s.settings.outputFormat != OutputFormatRaw
    ensures SetOutputFormat(s, format).settings.outputFormat != OutputFormatRaw
  {
  }

  function SetRotation(s: ControllerState, rotation: int): (r: ControllerState)
    ensures r.settings.rotation == rotation
    ensures r.settings.(rotation := s.settings.rotation) == s.settings
    ensures r.(settings := s.settings) == s
  {
    s.(settings := s.settings.(rotation := rotation))
  }

  function SetFlashEnabled(s: ControllerState, enabled: bool): (r: ControllerState)
    ensures r.settings.flash == enabled
    ensures r.settings.(flash := s.settings.flash) == s.settings
    ensures r.(settings := s.settings) == s
  {
    s.(settings := s.settings.(flash := enabled))
  }

  /** setOisEnabled: no-op when unchanged, otherwise stores the flag. */
  function SetOisEnabled(s: ControllerState, enabled: bool): (r: ControllerState)
    ensures r.settings.ois == enabled
    ensures s.settings.ois == enabled ==> r == s
    ensures r.settings.(ois := s.settings.ois) == s.settings
    ensures r.(settings := s.settings) == s
  {
    if s.settings.ois == enabled then s else s.(settings := s.settings.(ois := enabled))
  }

  /** setBwMode: no-op when unchanged, otherwise stores the flag. */
  function SetBwMode(s: ControllerState, enabled: bool): (r: ControllerState)
    ensures r.settings.bw == enabled
    ensures s.settings.bw == enabled ==> r == s
    ensures r.settings.(bw := s.settings.bw) == s.settings
    ensures r.(settings := s.settings) == s
  {
    if s.settings.bw == enabled then s else s.(settings := s.settings.(bw := enabled))
  }

  /**
   * setFastMode: no-op when unchanged. Turning it off closes and clears the
   * held ZSL image and disables ZSL. Either way the session is closed, to
   * be configured again for the new mode.
   */
  function SetFastMode(s: ControllerState, enabled: bool): (r: ControllerState)
    ensures s.settings.fast == enabled ==> r == s
    ensures s.settings.fast != enabled ==> r.settings.fast == enabled && !r.hw.session
    ensures s.settings.fast != enabled && !enabled ==> r.zsl == DrainSlot(s.zsl)
    ensures enabled ==> r.zsl == s.zsl
    ensures r.settings.(fast := s.settings.fast) == s.settings
    ensures r.hw.(session := s.hw.session) == s.hw
    ensures r.(settings := s.settings, hw := s.hw, zsl := s.zsl) == s
  {
    if s.settings.fast == enabled then s
    else
      s.(zsl := if enabled then s.zsl else DrainSlot(s.zsl),
         settings := s.settings.(fast := enabled),
         hw := s.hw.(session := false))
  }

  /**
   * setAutoExposure: stores the flag and, when an EV is given, the clamped
   * compensation index for it.
   */
  function SetAutoExposure(s: ControllerState, enabled: bool, ev: Option<real>): (r: ControllerState)
    requires WellFormed(s.caps)
    ensures r.settings.autoExposure == enabled
    ensures ev.None? ==> r.settings.ecIndex == s.settings.ecIndex
    ensures ev.Some? ==> r.settings.ecIndex == EcIndex(s.caps, ev.value)
    ensures EcLower(s.caps) <= s.settings.ecIndex <= EcUpper(s.caps) ==>
              EcLower(s.caps) <= r.settings.ecIndex <= EcUpper(s.caps)
    ensures r.settings.(autoExposure := s.settings.autoExposure, ecIndex := s.settings.ecIndex) == s.settings
    ensures r.(settings := s.settings) == s
  {
    var ec := if ev.Some? then EcIndex(s.caps, ev.value) else s.settings.ecIndex;
    s.(settings := s.settings.(autoExposure := enabled, ecIndex := ec))
  }

  /** setExposureCompensation: stores the clamped index for the EV. */
  function SetExposureCompensation(s: ControllerState, ev: real): (r: ControllerState)
    requires WellFormed(s.caps)
    ensures EcLower(s.caps) <= r.settings.ecIndex <= EcUpper(s.caps)
    ensures r.settings.ecIndex == EcIndex(s.caps, ev)
    ensures r.settings.(ecIndex := s.settings.ecIndex) == s.settings
    ensures r.(settings := s.settings) == s
  {
    s.(settings := s.settings.(ecIndex := EcIndex(s.caps, ev)))
  }

  /**
   * setManualExposure: auto exposure goes off, and the ISO and exposure time
   * are clamped to the device's manual ranges (in-range values unchanged).
   */
  function SetManualExposure(s: ControllerState, iso: int, exposureTimeNs: int): (r: ControllerState)
    requires WellFormed(s.caps)
    ensures !r.settings.autoExposure
    ensures MinManualIso(s.caps) <= r.settings.manualIso <= MaxManualIso(s.caps)
    ensures MinExposureNs(s.caps) <= r.settings.manualExposureNs <= MaxExposureNs(s.caps)
    ensures MinManualIso(s.caps) <= iso <= MaxManualIso(s.caps) ==> r.settings.manualIso == iso
    ensures MinExposureNs(s.caps) <= exposureTimeNs <= MaxExposureNs(s.caps) ==> r.settings.manualExposureNs == exposureTimeNs
    ensures r.settings.(autoExposure := true, manualIso := 0, manualExposureNs := 0)
         == s.settings.(autoExposure := true, manualIso := 0, manualExposureNs := 0)
    ensures r.(settings := s.settings) == s
  {
    s.(settings := s.settings.(autoExposure := false, manualIso := ClampManualIso(s.caps, iso),
                               manualExposureNs := ClampExposureNs(s.caps, exposureTimeNs)))
  }

  // ---------------------------------------------------------------------
  // Requests
  // ---------------------------------------------------------------------

  /** The exposure part of every request the controller builds. */
  datatype ExposureSettings =
    | AutoExposureOn(compensation: int)
    | ManualExposure(iso: SensorIso, exposureTimeNs: int)

  /**
   * The exposure settings applyCommonSettings writes: AE on with the
   * compensation index, or AE off with the manual ISO split against the
   * sensor maximum and the manual exposure time.
   */
  function ExposureRequest(s: ControllerState): (e: ExposureSettings)
    requires WellFormed(s.caps)
    ensures s.settings.autoExposure <==> e.AutoExposureOn?
    ensures e.AutoExposureOn? ==> e.compensation == s.settings.ecIndex
    ensures e.ManualExposure? ==> e.exposureTimeNs == s.settings.manualExposureNs
    ensures e.ManualExposure? ==> 100 <= e.iso.boost <= MaxBoost && e.iso.sensitivity <= MaxSensorIso(s.caps)
    ensures e.ManualExposure? ==> e.iso.sensitivity * e.iso.boost <= s.settings.manualIso * 100
    ensures e.ManualExposure? && s.settings.manualIso <= MaxSensorIso(s.caps) ==>
              e.iso == SensorIso(s.settings.manualIso, 100)
  {
    ManualBoundsOrdered(s.caps);
    if s.settings.autoExposure then AutoExposureOn(s.settings.ecIndex)
    else ManualExposure(IsoSplit(s.settings.manualIso, MaxSensorIso(s.caps)), s.settings.manualExposureNs)
  }

  /** What a still-capture request carries beyond the fixed "no processing" settings. */
  datatype StillSettings = StillSettings(
    hyperfocal: bool,              // AF off at the hyperfocal distance
    exposure: ExposureSettings,
    aeAlwaysFlash: bool,           // AE mode overridden to always-flash
    flashSingle: bool,             // FLASH_MODE_SINGLE
    ois: bool,
    afRegion: Option<Rect>,
    aeRegion: Option<Rect>,
    jpegOrientation: Option<int>)  // JPEG requests only

  /**
   * The still request of captureJpeg/RawWithCurrentSettings: the common
   * settings, the flash override (always-flash AE only in auto exposure),
   * the metering regions copied from the preview request when it exists,
   * and, for JPEG, the orientation compensating the device rotation.
   */
  function StillRequestSettings(s: ControllerState, raw: bool): (r: StillSettings)
    requires WellFormed(s.caps)
    ensures r.hyperfocal == s.settings.fast && r.ois == s.settings.ois
    ensures r.exposure == ExposureRequest(s)
    ensures r.aeAlwaysFlash <==> s.settings.flash && s.settings.autoExposure
    ensures r.flashSingle <==> s.settings.flash
    ensures r.afRegion == (if s.hw.previewRequest then s.focus.afRegion else None)
    ensures r.aeRegion == (if s.hw.previewRequest then s.focus.aeRegion else None)
    ensures r.jpegOrientation.Some? <==> !raw
    ensures !raw && s.caps.sensorOrientation >= 0 ==> 0 <= r.jpegOrientation.value < 360
  {
    StillSettings(
      s.settings.fast, ExposureRequest(s),
      s.settings.flash && s.settings.autoExposure, s.settings.flash, s.settings.ois,
      if s.hw.previewRequest then s.focus.afRegion else None,
      if s.hw.previewRequest then s.focus.aeRegion else None,
      if raw then None else Some(JpegOrientation(s.caps.sensorOrientation, s.settings.rotation)))
  }

  // ---------------------------------------------------------------------
  // Focus
  // ---------------------------------------------------------------------

  /** triggerAutofocus: one AF trigger when the session and preview request exist. */
  function TriggerAutofocus(s: ControllerState): (r: ControllerState)
    ensures r.focus.afTriggers == if s.hw.session && s.hw.previewRequest then s.focus.afTriggers + 1 else s.focus.afTriggers
    ensures r.focus.(afTriggers := s.focus.afTriggers) == s.focus
    ensures r.(focus := s.focus) == s
  {
    if s.hw.session && s.hw.previewRequest then s.(focus := s.focus.(afTriggers := s.focus.afTriggers + 1)) else s
  }

  /** triggerFocus: ignored in fast (hyperfocal) mode. */
  function TriggerFocus(s: ControllerState): (r: ControllerState)
    ensures s.settings.fast ==> r == s
    ensures !s.settings.fast ==> r == TriggerAutofocus(s)
  {
    if s.settings.fast then s else TriggerAutofocus(s)
  }

  /**
   * onTapToFocus: ignored in fast mode or without device, session and
   * preview request; a plain AF trigger without AF regions; nothing without
   * an active array. Otherwise the AF region (and the AE region when the
   * device meters AE regions) becomes the metering rectangle of the tap,
   * and AF is triggered.
   */
  function OnTapToFocus(s: ControllerState, x: real, y: real, viewWidth: real, viewHeight: real): (r: ControllerState)
    requires WellFormed(s.caps)
    requires viewWidth > 0.0 && viewHeight > 0.0
    ensures s.settings.fast || !(s.hw.device && s.hw.session && s.hw.previewRequest) ==> r == s
    ensures r.(focus := s.focus) == s
    ensures r.focus.afRegion != s.focus.afRegion ==>
              && s.caps.activeArray.Some? && s.caps.maxAfRegions > 0
              && r.focus.afRegion == Some(TapFocusRect(s.caps.sensorOrientation, x, y, viewWidth, viewHeight, s.caps.activeArray.value))
    ensures r.focus.aeRegion != s.focus.aeRegion ==> s.caps.maxAeRegions > 0 && r.focus.aeRegion == r.focus.afRegion
    ensures r.focus.afTriggers == s.focus.afTriggers || r.focus.afTriggers == s.focus.afTriggers + 1
  {
    if s.settings.fast then s
    else if !(s.hw.device && s.hw.session && s.hw.previewRequest) then s
    else if s.caps.maxAfRegions <= 0 then TriggerAutofocus(s)
    else if s.caps.activeArray.None? then s
    else
      var rect := TapFocusRect(s.caps.sensorOrientation, x, y, viewWidth, viewHeight, s.caps.activeArray.value);
      s.(focus := Focus(Some(rect), if s.caps.maxAeRegions > 0 then Some(rect) else s.focus.aeRegion,
                        s.focus.afTriggers + 1))
  }

  /** In a ready, non-fast session on a device with AF regions and an active array, a tap always sets the AF region. */
  lemma TapSetsRegionWhenSupported(s: ControllerState, x: real, y: real, viewWidth: real, viewHeight: real)
    requires WellFormed(s.caps) && viewWidth > 0.0 && viewHeight > 0.0
    requires !s.settings.fast && s.hw.device && s.hw.session && s.hw.previewRequest
    requires s.caps.maxAfRegions > 0 && s.caps.activeArray.Some?
    ensures OnTapToFocus(s, x, y, viewWidth, viewHeight).focus.afRegion ==
              Some(TapFocusRect(s.caps.sensorOrientation, x, y, viewWidth, viewHeight, s.caps.activeArray.value))
    ensures OnTapToFocus(s, x, y, viewWidth, viewHeight).focus.afTriggers == s.focus.afTriggers + 1
  {
  }

  // ---------------------------------------------------------------------
  // Zero-shutter-lag slot
  // ---------------------------------------------------------------------

  /**
   * The ZSL reader's listener with the image it acquired (None when the
   * reader had none): with ZSL enabled the held image is closed and replaced
   * by the newcomer (latest wins); otherwise the newcomer is closed at once.
   */
  function OnZslFrame(s: ControllerState, acquired: Option<YuvFrame>): (r: ControllerState)
    ensures s.zsl.enabled ==> r.zsl.latest == acquired && r.zsl.closed == Release(s.zsl.closed, s.zsl.latest)
    ensures !s.zsl.enabled ==> r.zsl.latest == s.zsl.latest && r.zsl.closed == Release(s.zsl.closed, acquired)
    ensures r.zsl.enabled == s.zsl.enabled
    ensures r.(zsl := s.zsl) == s
  {
    if s.zsl.enabled then s.(zsl := s.zsl.(closed := Release(s.zsl.closed, s.zsl.latest), latest := acquired))
    else s.(zsl := s.zsl.(closed := Release(s.zsl.closed, acquired)))
  }

  /** Of two frames arriving in a row while ZSL is on, the slot keeps the second and closes the first. */
  lemma ZslLatestWins(s: ControllerState, f1: YuvFrame, f2: YuvFrame)
    requires s.zsl.enabled
    ensures OnZslFrame(OnZslFrame(s, Some(f1)), Some(f2)).zsl.latest == Some(f2)
    ensures OnZslFrame(OnZslFrame(s, Some(f1)), Some(f2)).zsl.closed ==
              Release(s.zsl.closed, s.zsl.latest) + [f1]
  {
  }

  // ---------------------------------------------------------------------
  // Capture pipeline
  // ---------------------------------------------------------------------

  /** How a takePhoto call (or a precapture callback) proceeded. */
  datatype Strategy =
    | NotReady                        // no device or session: completes with null
    | ZslGrabbed(frame: YuvFrame)     // fast mode: the held ZSL frame is converted
    | ZslWaiting                      // fast mode with an empty slot: retry later
    | AwaitingPrecapture(raw: bool)   // flash metering runs before the still
    | StillRequested(raw: bool)       // the still request was submitted
    | RequestFailed(raw: bool)        // submitting the still threw; completes with null
    | Abandoned                       // an early return after the increment
    | MissingRawReader                // RAW path without a RAW reader (the `!!` throws)

  function WithCaptures(s: ControllerState, c: Captures): ControllerState
  {
    s.(captures := c)
  }

  /** Submitting the still request (captureJpeg/RawWithCurrentSettings). */
  function StillRequest(s: ControllerState, raw: bool, stillThrows: bool): (r: (ControllerState, Strategy))
    ensures stillThrows ==> r.1 == RequestFailed(raw) && r.0.captures == s.captures.(pending := s.captures.pending - 1)
    ensures !stillThrows ==> r.1 == StillRequested(raw) && r.0.captures == s.captures.(stills := s.captures.stills + 1)
    ensures r.0 == WithCaptures(s, r.0.captures)
  {
    var c := s.captures;
    if stillThrows then (WithCaptures(s, c.(pending := c.pending - 1)), RequestFailed(raw))
    else (WithCaptures(s, c.(stills := c.stills + 1)), StillRequested(raw))
  }

  /**
   * The flash step before a still: with flash and auto exposure the AE
   * precapture runs first (an early return without a preview request; a
   * throwing precapture falls back to the still at once); otherwise the
   * still is requested directly.
   */
  function WithPrecapture(s: ControllerState, raw: bool, precaptureThrows: bool, stillThrows: bool): (r: (ControllerState, Strategy))
    ensures r.0 == WithCaptures(s, r.0.captures)
    ensures r.1.Abandoned? <==> s.settings.flash && s.settings.autoExposure && !s.hw.previewRequest
    ensures r.1.AwaitingPrecapture? <==> s.settings.flash && s.settings.autoExposure && s.hw.previewRequest && !precaptureThrows
    ensures r.1.Abandoned? ==> r.0.captures == s.captures.(leaked := s.captures.leaked + 1)
    ensures r.1.AwaitingPrecapture? ==> r.1.raw == raw && r.0.captures == s.captures.(precaptures := s.captures.precaptures + 1)
    ensures !(r.1.Abandoned? || r.1.AwaitingPrecapture?) ==> r == StillRequest(s, raw, stillThrows)
    ensures CountsValid(s.captures.(pending := s.captures.pending - 1)) ==> CountsValid(r.0.captures)
    ensures r.1.RequestFailed? ==> r.0.captures.pending == s.captures.pending - 1
    ensures !r.1.RequestFailed? ==> r.0.captures.pending == s.captures.pending
    ensures !r.1.Abandoned? ==> r.0.captures.leaked == s.captures.leaked
    ensures r.1.Abandoned? || r.1.AwaitingPrecapture? || r.1.StillRequested? || r.1.RequestFailed?
    ensures !r.1.Abandoned? ==> r.1.raw == raw
  {
    var c := s.captures;
    if s.settings.flash && s.settings.autoExposure then
      if !s.hw.previewRequest then (WithCaptures(s, c.(leaked := c.leaked + 1)), Abandoned)
      else if precaptureThrows then StillRequest(s, raw, stillThrows)
      else (WithCaptures(s, c.(precaptures := c.precaptures + 1)), AwaitingPrecapture(raw))
    else StillRequest(s, raw, stillThrows)
  }

  /**
   * takeZslPhoto, after the increment: the frame held in the slot is taken
   * out and converted, or, with an empty slot, the retry is scheduled.
   */
  function TakeZslPhoto(t: ControllerState): (r: (ControllerState, Strategy))
    ensures r.0.(captures := t.captures, zsl := t.zsl) == t
    ensures r.0.zsl.(latest := t.zsl.latest) == t.zsl
    ensures r.0.captures.pending == t.captures.pending && r.0.captures.leaked == t.captures.leaked
    ensures CountsValid(t.captures.(pending := t.captures.pending - 1)) ==> CountsValid(r.0.captures)
    ensures r.1.ZslGrabbed? || r.1.ZslWaiting?
    ensures r.1.ZslGrabbed? <==> t.zsl.latest.Some?
    ensures r.1.ZslGrabbed? ==> t.zsl.latest == Some(r.1.frame) && r.0.zsl.latest.None?
    ensures !r.1.ZslGrabbed? ==> r.0.zsl == t.zsl
  {
    var c := t.captures;
    if t.zsl.latest.Some? then
      (t.(captures := c.(zslConverting := c.zslConverting + 1), zsl := t.zsl.(latest := None)),
       ZslGrabbed(t.zsl.latest.value))
    else
      (WithCaptures(t, c.(zslWaiting := c.zslWaiting + 1)), ZslWaiting)
  }

  /**
   * A JPEG outside fast mode, after the increment: an early return without
   * a JPEG reader, otherwise the precapture/still path.
   */
  function TakeVanillaJpegPhoto(t: ControllerState, precaptureThrows: bool, stillThrows: bool): (r: (ControllerState, Strategy))
    ensures r.0 == WithCaptures(t, r.0.captures)
    ensures r.1.RequestFailed? ==> r.0.captures.pending == t.captures.pending - 1
    ensures !r.1.RequestFailed? ==> r.0.captures.pending == t.captures.pending
    ensures CountsValid(t.captures.(pending := t.captures.pending - 1)) ==> CountsValid(r.0.captures)
    ensures r.1.Abandoned? <==> r.0.captures.leaked == t.captures.leaked + 1
    ensures !r.1.Abandoned? ==> r.0.captures.leaked == t.captures.leaked
    ensures !r.1.NotReady? && !r.1.MissingRawReader? && !r.1.ZslGrabbed? && !r.1.ZslWaiting?
    ensures (r.1.StillRequested? || r.1.AwaitingPrecapture? || r.1.RequestFailed?) ==> !r.1.raw
  {
    if !t.hw.jpegReader then (WithCaptures(t, t.captures.(leaked := t.captures.leaked + 1)), Abandoned)
    else WithPrecapture(t, false, precaptureThrows, stillThrows)
  }

  /**
   * takePhoto with the fates of its synchronous camera calls as parameters.
   * Without device or session nothing changes. Otherwise the counter goes
   * up by one; a JPEG in fast mode with ZSL on takes the held frame out of
   * the slot (or waits for the retry); otherwise the precapture/still path
   * runs, where the early returns leave the increment behind.
   */
  function TakePhoto(s: ControllerState, precaptureThrows: bool, stillThrows: bool): (r: (ControllerState, Strategy))
    // The counter: one up, except when nothing was ready or the still
    // request failed at once. Only the counts and the slot change.
    ensures r.1.NotReady? || r.1.RequestFailed? ==> r.0.captures.pending == s.captures.pending
    ensures !(r.1.NotReady? || r.1.RequestFailed?) ==> r.0.captures.pending == s.captures.pending + 1
    ensures r.0.(captures := s.captures, zsl := s.zsl) == s
    ensures r.0.zsl.(latest := s.zsl.latest) == s.zsl
    ensures CountsValid(s.captures) ==> CountsValid(r.0.captures)
    // A capture is lost to the counter exactly on an early return after the
    // increment (no JPEG reader, no RAW reader, a flash precapture without a
    // preview request); the still and precapture paths keep the format's kind.
    ensures r.1.Abandoned? || r.1.MissingRawReader? <==> r.0.captures.leaked == s.captures.leaked + 1
    ensures !(r.1.Abandoned? || r.1.MissingRawReader?) ==> r.0.captures.leaked == s.captures.leaked
    ensures r.1.MissingRawReader? <==>
      s.hw.device && s.hw.session && s.settings.outputFormat != OutputFormatJpeg && !s.hw.rawReader
    ensures (r.1.StillRequested? || r.1.AwaitingPrecapture? || r.1.RequestFailed?) ==>
      r.1.raw == (s.settings.outputFormat != OutputFormatJpeg)
  {
    if !(s.hw.device && s.hw.session) then (s, NotReady)
    else
      var c := s.captures.(pending := s.captures.pending + 1);
      assert c.(pending := c.pending - 1) == s.captures;
      var t := WithCaptures(s, c);
      if s.settings.outputFormat == OutputFormatJpeg then
        if s.settings.fast && s.zsl.enabled then TakeZslPhoto(t)
        else TakeVanillaJpegPhoto(t, precaptureThrows, stillThrows)
      else if !s.hw.rawReader then (WithCaptures(s, c.(leaked := c.leaked + 1)), MissingRawReader)
      else WithPrecapture(t, true, precaptureThrows, stillThrows)
  }

  /** takePhoto does nothing, and reports it, exactly when the device or the session is missing. */
  lemma TakePhotoNotReady(s: ControllerState, precaptureThrows: bool, stillThrows: bool)
    ensures TakePhoto(s, precaptureThrows, stillThrows).1.NotReady? <==> !(s.hw.device && s.hw.session)
    ensures TakePhoto(s, precaptureThrows, stillThrows).1.NotReady? ==> TakePhoto(s, precaptureThrows, stillThrows).0 == s
  {
  }

  /**
   * The slot is emptied exactly by a ZSL grab, which takes the frame that
   * was held: a JPEG in fast mode with ZSL on and a frame in the slot.
   */
  lemma TakePhotoZslGrab(s: ControllerState, precaptureThrows: bool, stillThrows: bool)
    ensures var (t, k) := TakePhoto(s, precaptureThrows, stillThrows);
      && (k.ZslGrabbed? <==> s.hw.device && s.hw.session && s.settings.outputFormat == OutputFormatJpeg
                             && s.settings.fast && s.zsl.enabled && s.zsl.latest.Some?)
      && (k.ZslGrabbed? ==> s.zsl.latest == Some(k.frame) && t.zsl.latest.None?)
      && (!k.ZslGrabbed? ==> t.zsl == s.zsl)
  {
  }

  /** takePhoto keeps the counter accounted for. */
  lemma TakePhotoPreservesValid(s: ControllerState, precaptureThrows: bool, stillThrows: bool)
    requires Valid(s)
    ensures Valid(TakePhoto(s, precaptureThrows, stillThrows).0)
  {
  }


  /** The precapture callback: the still request follows. */
  function OnPrecaptureCompleted(s: ControllerState, raw: bool, stillThrows: bool): (r: (ControllerState, Strategy))
    requires s.captures.precaptures > 0
    ensures r.1 == if stillThrows then RequestFailed(raw) else StillRequested(raw)
    ensures stillThrows ==> r.0.captures.pending == s.captures.pending - 1
    ensures !stillThrows ==> r.0.captures.pending == s.captures.pending
    ensures r.0.captures.precaptures == s.captures.precaptures - 1
    ensures r.0 == WithCaptures(s, r.0.captures)
    ensures CountsValid(s.captures) ==> CountsValid(r.0.captures)
  {
    StillRequest(WithCaptures(s, s.captures.(precaptures := s.captures.precaptures - 1)), raw, stillThrows)
  }

  /**
   * A precapture request that fails: the source's precapture callback has no
   * failure handler, so the still never follows and the capture is lost to
   * the counter.
   */
  function OnPrecaptureFailed(s: ControllerState): (r: ControllerState)
    requires s.captures.precaptures > 0
    ensures r.captures.pending == s.captures.pending && r.captures.leaked == s.captures.leaked + 1
    ensures r == WithCaptures(s, r.captures)
    ensures CountsValid(s.captures) ==> CountsValid(r.captures)
  {
    WithCaptures(s, s.captures.(precaptures := s.captures.precaptures - 1, leaked := s.captures.leaked + 1))
  }

  /** onCaptureCompleted of a still: the result is kept for the DNG (and never cleared). */
  function OnCaptureCompleted(s: ControllerState): (r: ControllerState)
    ensures r.hasCaptureResult
    ensures r.(hasCaptureResult := s.hasCaptureResult) == s
  {
    s.(hasCaptureResult := true)
  }

  /** A still leaving the pipeline: one count off the counter and off the stills. */
  function StillDone(c: Captures): (r: Captures)
    requires c.stills > 0
    ensures r.pending == c.pending - 1 && r.stills == c.stills - 1
    ensures CountsValid(c) ==> CountsValid(r)
  {
    c.(pending := c.pending - 1, stills := c.stills - 1)
  }

  /** onCaptureFailed of a still: the counter goes down by one. */
  function OnCaptureFailed(s: ControllerState): (r: ControllerState)
    requires s.captures.stills > 0
    ensures r.captures.pending == s.captures.pending - 1
    ensures r == WithCaptures(s, StillDone(s.captures))
  {
    WithCaptures(s, StillDone(s.captures))
  }

  /**
   * handleJpegCapture: the image is saved, converted to grayscale first in
   * B/W mode or in the monochrome build, and the counter goes down by one.
   */
  function OnJpegImage(s: ControllerState): (r: (ControllerState, bool))
    requires s.captures.stills > 0
    ensures r.1 == (s.settings.bw || s.monoFlavor)
    ensures r.0.captures.pending == s.captures.pending - 1
    ensures r.0 == WithCaptures(s, StillDone(s.captures))
  {
    (WithCaptures(s, StillDone(s.captures)), s.settings.bw || s.monoFlavor)
  }

  /** The number of 10 ms polls handleRawCapture makes for the capture result. */
  const RawResultPolls: int := 50

  /**
   * handleRawCapture, with `arrivals[i]` telling whether the capture result
   * arrived by poll i: the DNG is written exactly when a result is (or
   * becomes, within 50 polls) available; either way the counter goes down
   * by one.
   */
  function OnRawImage(s: ControllerState, arrivals: seq<bool>): (r: (ControllerState, bool))
    requires s.captures.stills > 0
    ensures r.1 <==> s.hasCaptureResult || exists i :: 0 <= i < Min(RawResultPolls, |arrivals|) && arrivals[i]
    ensures r.0.hasCaptureResult == r.1
    ensures r.0.captures.pending == s.captures.pending - 1
    ensures r.0 == WithCaptures(s, StillDone(s.captures)).(hasCaptureResult := r.1)
  {
    var saved := s.hasCaptureResult || true in arrivals[..Min(RawResultPolls, |arrivals|)];
    (WithCaptures(s, StillDone(s.captures)).(hasCaptureResult := saved), saved)
  }

  /**
   * The stale result: once any still has completed, every later DNG is
   * written with the first poll, whatever its own result does.
   */
  lemma StaleResultAlwaysSaves(s: ControllerState, arrivals: seq<bool>)
    requires s.captures.stills > 0 && s.hasCaptureResult
    ensures OnRawImage(s, arrivals).1
  {
  }

  /**
   * The ZSL retry after 100 ms: a frame that has arrived meanwhile is taken
   * out of the slot for conversion; otherwise the capture ends with null and
   * the counter goes down by one.
   */
  function ZslRetry(s: ControllerState): (r: (ControllerState, Option<YuvFrame>))
    requires s.captures.zslWaiting > 0
    ensures r.1 == s.zsl.latest && r.0.zsl == s.zsl.(latest := None)
    ensures r.1.None? ==> r.0.captures.pending == s.captures.pending - 1
    ensures r.1.Some? ==> r.0.captures.pending == s.captures.pending
    ensures r.0.(captures := s.captures, zsl := s.zsl) == s
    ensures CountsValid(s.captures) ==> CountsValid(r.0.captures)
  {
    var c := s.captures;
    if s.zsl.latest.Some? then
      (s.(zsl := s.zsl.(latest := None), captures := c.(zslWaiting := c.zslWaiting - 1, zslConverting := c.zslConverting + 1)),
       s.zsl.latest)
    else
      (WithCaptures(s, c.(zslWaiting := c.zslWaiting - 1, pending := c.pending - 1)), None)
  }

  /** What processZslCapture produced: a JPEG or not, whether grayscale, and its EXIF orientation. */
  datatype ZslResult = ZslResult(converted: bool, grayscale: bool, exifOrientation: int)

  /**
   * processZslCapture: the frame is converted to NV21 and compressed (which
   * fails when its planes are short, or when the compression fails), the
   * image is closed, a converted JPEG is saved (grayscale in B/W mode or
   * the monochrome build) with the EXIF orientation of the current
   * rotation, and the counter goes down by one either way.
   */
  function FinishZslCapture(s: ControllerState, frame: YuvFrame, compressOk: bool): (r: (ControllerState, ZslResult))
    requires s.captures.zslConverting > 0
    ensures r.1.converted == (PlanesCover(frame) && compressOk)
    ensures r.1.grayscale == (r.1.converted && (s.settings.bw || s.monoFlavor))
    ensures r.1.exifOrientation == ExifOrientation(JpegOrientation(s.caps.sensorOrientation, s.settings.rotation))
    ensures r.1.exifOrientation in {1, 3, 6, 8}
    ensures r.0.zsl == s.zsl.(closed := s.zsl.closed + [frame])
    ensures r.0.captures.pending == s.captures.pending - 1
    ensures r.0.(captures := s.captures, zsl := s.zsl) == s
    ensures CountsValid(s.captures) ==> CountsValid(r.0.captures)
  {
    var converted := PlanesCover(frame) && compressOk;
    var c := s.captures;
    (s.(captures := c.(zslConverting := c.zslConverting - 1, pending := c.pending - 1),
        zsl := s.zsl.(closed := s.zsl.closed + [frame])),
     ZslResult(converted, converted && (s.settings.bw || s.monoFlavor),
               ExifOrientation(JpegOrientation(s.caps.sensorOrientation, s.settings.rotation))))
  }

  /** hasPendingCaptures: the counter is positive. */
  predicate HasPendingCaptures(s: ControllerState)
  {
    s.captures.pending > 0
  }

  // ---------------------------------------------------------------------
  // The controller as an event system
  // ---------------------------------------------------------------------

  /** Every operation and camera callback of the controller with its arguments. */
  datatype Event =
    | EvOpenCamera(c: Capabilities, rawSizesAvailable: bool)
    | EvSessionConfigured
    | EvDeviceLost
    | EvShutdown
    | EvSetInitialOutputFormat(format: int)
    | EvSetOutputFormat(format: int)
    | EvSetRotation(rotation: int)
    | EvSetFlashEnabled(enabled: bool)
    | EvSetOisEnabled(enabled: bool)
    | EvSetBwMode(enabled: bool)
    | EvSetFastMode(enabled: bool)
    | EvSetAutoExposure(enabled: bool, ev: Option<real>)
    | EvSetExposureCompensation(compensationEv: real)
    | EvSetManualExposure(iso: int, exposureTimeNs: int)
    | EvTriggerFocus
    | EvTapToFocus(x: real, y: real, viewWidth: real, viewHeight: real)
    | EvZslFrame(acquired: Option<YuvFrame>)
    | EvTakePhoto(precaptureThrows: bool, stillThrows: bool)
    | EvPrecaptureCompleted(raw: bool, stillThrows: bool)
    | EvPrecaptureFailed
    | EvCaptureCompleted
    | EvCaptureFailed
    | EvJpegImage
    | EvRawImage(arrivals: seq<bool>)
    | EvZslRetry
    | EvZslProcessed(frame: YuvFrame, compressOk: bool)

  /**
   * When an event can happen: a callback only for a capture in that stage,
   * a camera open only with well-formed characteristics, a tap only in a
   * laid-out view.
   */
  predicate Enabled(s: ControllerState, e: Event)
  {
    match e
    case EvOpenCamera(c, _) => WellFormed(c)
    case EvTapToFocus(_, _, w, h) => w > 0.0 && h > 0.0
    case EvPrecaptureCompleted(_, _) => s.captures.precaptures > 0
    case EvPrecaptureFailed => s.captures.precaptures > 0
    case EvCaptureFailed => s.captures.stills > 0
    case EvJpegImage => s.captures.stills > 0
    case EvRawImage(_) => s.captures.stills > 0
    case EvZslRetry => s.captures.zslWaiting > 0
    case EvZslProcessed(_, _) => s.captures.zslConverting > 0
    case _ => true
  }

  function Apply(s: ControllerState, e: Event): ControllerState
    requires Valid(s) && Enabled(s, e)
  {
    match e
    case EvOpenCamera(c, raw) => OpenCamera(s, c, raw).0
    case EvSessionConfigured => OnSessionConfigured(s)
    case EvDeviceLost => OnDeviceLost(s)
    case EvShutdown => Shutdown(s)
    case EvSetInitialOutputFormat(f) => SetInitialOutputFormat(s, f)
    case EvSetOutputFormat(f) => SetOutputFormat(s, f)
    case EvSetRotation(r) => SetRotation(s, r)
    case EvSetFlashEnabled(b) => SetFlashEnabled(s, b)
    case EvSetOisEnabled(b) => SetOisEnabled(s, b)
    case EvSetBwMode(b) => SetBwMode(s, b)
    case EvSetFastMode(b) => SetFastMode(s, b)
    case EvSetAutoExposure(b, ev) => SetAutoExposure(s, b, ev)
    case EvSetExposureCompensation(ev) => SetExposureCompensation(s, ev)
    case EvSetManualExposure(iso, ns) => SetManualExposure(s, iso, ns)
    case EvTriggerFocus => TriggerFocus(s)
    case EvTapToFocus(x, y, w, h) => OnTapToFocus(s, x, y, w, h)
    case EvZslFrame(a) => OnZslFrame(s, a)
    case EvTakePhoto(pt, st) => TakePhoto(s, pt, st).0
    case EvPrecaptureCompleted(raw, st) => OnPrecaptureCompleted(s, raw, st).0
    case EvPrecaptureFailed => OnPrecaptureFailed(s)
    case EvCaptureCompleted => OnCaptureCompleted(s)
    case EvCaptureFailed => OnCaptureFailed(s)
    case EvJpegImage => OnJpegImage(s).0
    case EvRawImage(arr) => OnRawImage(s, arr).0
    case EvZslRetry => ZslRetry(s).0
    case EvZslProcessed(f, ok) => FinishZslCapture(s, f, ok).0
  }

  /**
   * Every operation keeps the invariant: the pending counter stays equal to
   * the captures in flight plus those lost, so it is never negative, and no
   * operation recovers a lost capture.
   */
  lemma ApplyPreservesValid(s: ControllerState, e: Event)
    requires Valid(s) && Enabled(s, e)
    ensures Valid(Apply(s, e))
    ensures Apply(s, e).captures.pending >= 0
    ensures Apply(s, e).captures.leaked >= s.captures.leaked
  {
    if CaptureEvent(e) {
      CaptureEventPreservesValid(s, e);
    } else {
      SettingsEventKeepsCaptures(s, e);
    }
  }

  /** The events of the capture pipeline: takePhoto and the callbacks it leads to. */
  predicate CaptureEvent(e: Event)
  {
    || e.EvTakePhoto? || e.EvPrecaptureCompleted? || e.EvPrecaptureFailed? || e.EvCaptureCompleted?
    || e.EvCaptureFailed? || e.EvJpegImage? || e.EvRawImage? || e.EvZslRetry? || e.EvZslProcessed?
  }

  /** Camera lifecycle, settings, focus and ZSL frames leave the capture accounting untouched. */
  lemma SettingsEventKeepsCaptures(s: ControllerState, e: Event)
    requires Valid(s) && Enabled(s, e) && !CaptureEvent(e)
    ensures Valid(Apply(s, e))
    ensures Apply(s, e).captures == s.captures
  {
  }

  /** The capture pipeline keeps the counter accounted for and never recovers a lost capture. */
  lemma CaptureEventPreservesValid(s: ControllerState, e: Event)
    requires Valid(s) && Enabled(s, e) && CaptureEvent(e)
    ensures Valid(Apply(s, e))
    ensures Apply(s, e).captures.leaked >= s.captures.leaked
  {
    match e
    case EvTakePhoto(pt, st) => {
      TakePhotoPreservesValid(s, pt, st);
    }
    case EvPrecaptureCompleted(raw, st) => {
      assert Apply(s, e) == OnPrecaptureCompleted(s, raw, st).0;
    }
    case EvPrecaptureFailed => {
      assert Apply(s, e) == OnPrecaptureFailed(s);
    }
    case EvCaptureCompleted => {
      assert Apply(s, e) == OnCaptureCompleted(s);
    }
    case EvCaptureFailed => {
      assert Apply(s, e) == WithCaptures(s, StillDone(s.captures));
    }
    case EvJpegImage => {
      assert Apply(s, e) == WithCaptures(s, StillDone(s.captures));
    }
    case EvRawImage(arr) => {
      assert Apply(s, e).captures == StillDone(s.captures) && Apply(s, e).caps == s.caps;
    }
    case EvZslRetry => {
      assert Apply(s, e) == ZslRetry(s).0;
    }
    case EvZslProcessed(f, ok) => {
      assert Apply(s, e) == FinishZslCapture(s, f, ok).0;
    }
  }

  /** Whether each event of a sequence is enabled in the state the previous ones lead to. */
  predicate RunEnabled(s: ControllerState, es: seq<Event>)
    requires Valid(s)
    decreases |es|
  {
    es == [] || (Enabled(s, es[0]) && (ApplyPreservesValid(s, es[0]); RunEnabled(Apply(s, es[0]), es[1..])))
  }

  /** Applying a sequence of enabled events, one after the other. */
  function Run(s: ControllerState, es: seq<Event>): (r: ControllerState)
    requires Valid(s) && RunEnabled(s, es)
    ensures Valid(r)
    ensures r.captures.leaked >= s.captures.leaked
    decreases |es|
  {
    if es == [] then s
    else
      ApplyPreservesValid(s, es[0]);
      Run(Apply(s, es[0]), es[1..])
  }

  /**
   * Once a capture has been lost (an early return, a missing RAW reader, an
   * unanswered precapture), hasPendingCaptures stays true whatever happens
   * next.
   */
  lemma LostCaptureKeepsPending(s: ControllerState, es: seq<Event>)
    requires Valid(s) && s.captures.leaked > 0 && RunEnabled(s, es)
    ensures HasPendingCaptures(Run(s, es))
  {
  }

  /**
   * Without lost captures, hasPendingCaptures holds exactly while some
   * capture is still in one of its stages.
   */
  lemma PendingMeansInFlight(s: ControllerState)
    requires Valid(s) && s.captures.leaked == 0
    ensures HasPendingCaptures(s) <==>
              s.captures.stills + s.captures.precaptures + s.captures.zslWaiting + s.captures.zslConverting > 0
  {
  }

  /** A JPEG capture through the ZSL slot brings the counter back to where it started. */
  lemma ZslCaptureDrains(s: ControllerState, frame: YuvFrame, compressOk: bool)
    requires s.hw.device && s.hw.session && s.settings.outputFormat == OutputFormatJpeg
    requires s.settings.fast && s.zsl.enabled && s.zsl.latest == Some(frame)
    requires s.captures.zslConverting >= 0
    ensures var t := TakePhoto(s, false, false);
      && t.1 == ZslGrabbed(frame) && t.0.captures.zslConverting > 0
      && FinishZslCapture(t.0, frame, compressOk).0.captures.pending == s.captures.pending
  {
  }

  /**
   * takeVanillaJpegPhoto's early return at work: a flash JPEG in auto
   * exposure while the session exists but the preview request does not
   * leaves the counter one higher for good.
   */
  lemma FlashJpegWithoutPreviewRequestLeaks(s: ControllerState)
    requires s.hw.device && s.hw.session && !s.hw.previewRequest && s.hw.jpegReader
    requires s.settings.outputFormat == OutputFormatJpeg && !(s.settings.fast && s.zsl.enabled)
    requires s.settings.flash && s.settings.autoExposure
    ensures TakePhoto(s, false, false).1 == Abandoned
    ensures TakePhoto(s, false, false).0.captures.leaked == s.captures.leaked + 1
    ensures TakePhoto(s, false, false).0.captures.pending == s.captures.pending + 1
  {
  }
}
